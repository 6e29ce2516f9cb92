/** The dispatcher's handlers and worker events over the stored queues. */
module QueueService {
  import opened Wrappers
  import opened QueueIds
  import opened QueueStore

  datatype Reply =
    | Accepted(jobIds: seq<Option<string>>)
    | NoContent
    | BadRequest
    | NotFound
    | Unprocessable
    | QueueError
    | NoReply

  /** A message with its place in the caller's list. */
  datatype Entry = Entry(index: nat, request: Request)

  /** How an operator's request ends that has no try around its calls: a call raises before or
      after it took effect, and then nobody answers; or all goes well. */
  datatype Stop = AtRead | AtAdd(applied: bool) | AtRemove(applied: bool) | Never

  /** The entries of stage s among the messages from place i on. */
  function Entries(rs: seq<Request>, i: nat, s: Stage): (es: seq<Entry>)
    requires i <= |rs|
    ensures forall e :: e in es ==> i <= e.index < |rs| && rs[e.index] == e.request && e.request.message.stage == s
    decreases |rs| - i
  {
    if i == |rs| then []
    else if rs[i].message.stage == s then [Entry(i, rs[i])] + Entries(rs, i + 1, s)
    else Entries(rs, i + 1, s)
  }

  function EntryPosts(es: seq<Entry>): seq<Post> {
    if es == [] then [] else [PostOf(es[0].request)] + EntryPosts(es[1..])
  }

  lemma PostStage(r: Request)
    ensures PostOf(r).Stage() == r.message.stage
  {
  }

  /** What a stage's addBulk is handed is that stage's part of the batch, in order. */
  lemma {:induction false} EntriesAreTheGroup(rs: seq<Request>, i: nat, s: Stage)
    requires i <= |rs|
    ensures EntryPosts(Entries(rs, i, s)) == Group(Posts(rs)[i..], s)
    decreases |rs| - i
  {
    if i < |rs| {
      hide PostOf;
      EntriesAreTheGroup(rs, i + 1, s);
      assert Posts(rs)[i..][1..] == Posts(rs)[i + 1..];
      assert Posts(rs)[i].Stage() == rs[i].message.stage by { PostStage(rs[i]); }
    }
  }

  lemma NothingToAdd(q: Queue, rs: seq<Request>, s: Stage)
    requires Entries(rs, 0, s) == []
    ensures AddAll(q, Group(Posts(rs), s)) == q
  {
    EntriesAreTheGroup(rs, 0, s);
    assert Posts(rs)[0..] == Posts(rs);
  }

  lemma {:induction false} EntryPostIds(es: seq<Entry>)
    ensures |EntryPosts(es)| == |es|
    ensures forall i :: 0 <= i < |es| ==> EntryPosts(es)[i].id == EnqueueId(es[i].request.message)
  {
    hide EnqueueId, NewJob;
    if es != [] { EntryPostIds(es[1..]); }
  }

  lemma NoneScattered(ids: seq<Option<string>>, rs: seq<Request>, remaining: set<Stage>, fault: Stage -> Fault)
    requires |ids| == |rs| && forall r :: r in rs ==> r.message.stage in remaining
    ensures Scattered(ids, rs, remaining, fault)
  {
  }

  lemma AllScattered(ids: seq<Option<string>>, rs: seq<Request>, byStage: map<Stage, seq<Entry>>, fault: Stage -> Fault)
    requires Scattered(ids, rs, {}, fault)
    requires forall r :: r in rs ==> r.message.stage in byStage
    requires forall s :: s in byStage ==> fault(s) == Fine
    ensures AllFine(rs, fault) && ids == Ids(rs)
  {
    hide EnqueueId;
  }

  lemma AllGroupsTried(before: Queues, after: Queues, rs: seq<Request>, byStage: map<Stage, seq<Entry>>, fault: Stage -> Fault)
    requires forall s: Stage :: after[s] == if s in byStage then Tried(before[s], Posts(rs), s, fault) else before[s]
    requires forall s :: s !in byStage ==> Entries(rs, 0, s) == []
    ensures after == AfterBulk(before, Posts(rs), fault)
  {
    forall s: Stage
      ensures after[s] == AfterBulk(before, Posts(rs), fault)[s]
    {
      if s !in byStage { NothingToAdd(before[s], rs, s); }
    }
    SameQueues(after, AfterBulk(before, Posts(rs), fault));
  }

  /** The entries collected for a stage so far, none for a stage not met yet. */
  function Grouped(byStage: map<Stage, seq<Entry>>, s: Stage): seq<Entry> {
    if s in byStage then byStage[s] else []
  }

  lemma NoneLeft(rs: seq<Request>, s: Stage)
    ensures Entries(rs, |rs|, s) == []
  {
  }

  lemma Regroup(group: seq<Entry>, rs: seq<Request>, i: nat, s: Stage)
    requires i < |rs|
    ensures group + Entries(rs, i, s) ==
            if rs[i].message.stage == s then (group + [Entry(i, rs[i])]) + Entries(rs, i + 1, s) else group + Entries(rs, i + 1, s)
  {
  }

  lemma {:induction false} EntriesComplete(rs: seq<Request>, i: nat, k: nat)
    requires i <= k < |rs|
    ensures Entry(k, rs[k]) in Entries(rs, i, rs[k].message.stage)
    decreases |rs| - i
  {
    if i < k { EntriesComplete(rs, i + 1, k); }
  }

  predicate AllFine(rs: seq<Request>, fault: Stage -> Fault) {
    forall r :: r in rs ==> fault(r.message.stage) == Fine
  }

  /** The reply without holes: message i's own id at place i. */
  function Ids(rs: seq<Request>): (ids: seq<Option<string>>)
    ensures |ids| == |rs| && forall i :: 0 <= i < |rs| ==> ids[i] == Some(EnqueueId(rs[i].message))
  {
    seq(|rs|, i requires 0 <= i < |rs| => Some(EnqueueId(rs[i].message)))
  }

  /** One queue once its group has been tried. */
  ghost function Tried(q: Queue, ps: seq<Post>, s: Stage, fault: Stage -> Fault): Queue {
    if fault(s).NotApplied? then q else AddAll(q, Group(ps, s))
  }

  ghost predicate Scattered(ids: seq<Option<string>>, rs: seq<Request>, remaining: set<Stage>, fault: Stage -> Fault) {
    |ids| == |rs| &&
    forall i :: 0 <= i < |rs| && rs[i].message.stage !in remaining && fault(rs[i].message.stage).Fine? ==>
      ids[i] == Some(EnqueueId(rs[i].message))
  }

  class Dispatcher {
    var queues: Queues
    var dlq: map<string, DlqEntry>
    /** Dead-letter writes started by the failed handler and not finished. */
    var awaiting: set<DlqEntry>
    const maxAttempts: nat

    /** A dispatcher starts on whatever Redis still holds. */
    constructor (queues: Queues, dlq: map<string, DlqEntry>, maxAttempts: nat)
      requires 1 <= maxAttempts <= 20
      ensures this.queues == queues && this.dlq == dlq && awaiting == {}
      ensures this.maxAttempts == maxAttempts
    {
      this.queues, this.dlq, awaiting := queues, dlq, {};
      this.maxAttempts := maxAttempts;
    }

    method Enqueue(r: Request, fault: Fault) returns (reply: Reply)
      modifies this`queues
      ensures queues == if ValidRequest(r) && !fault.NotApplied? then EnqueueOne(old(queues), PostOf(r)) else old(queues)
      ensures reply == if !ValidRequest(r) then BadRequest
                       else if fault != Fine then QueueError
                       else Accepted([Some(EnqueueId(r.message))])
    {
      if !ValidRequest(r) { return BadRequest; }
      if fault.NotApplied? { return QueueError; }
      var stage := r.message.stage;
      var id := Push(stage, PostOf(r));
      if fault.ReplyLost? { return QueueError; }
      return Accepted([Some(id)]);
    }

    /** One add; the id of the job that is there afterwards comes back. */
    method Push(stage: Stage, p: Post) returns (id: string)
      modifies this`queues
      ensures queues == old(queues)[stage := Add(old(queues)[stage], p)]
      ensures id == p.id
    {
      var q := queues[stage];
      if p.id !in q.jobs {
        queues := queues[stage := Queue(q.jobs[p.id := p.job], q.order + [p.id])];
      }
      id := p.id;
    }

    /** addBulk: in order, the ids returned in that order, and all of it in one step. */
    method PushAll(stage: Stage, ps: seq<Post>) returns (ids: seq<string>)
      modifies this`queues
      ensures queues == old(queues)[stage := AddAll(old(queues)[stage], ps)]
      ensures |ids| == |ps| && forall i :: 0 <= i < |ps| ==> ids[i] == ps[i].id
    {
      ids := [];
      var q := queues[stage];
      for i := 0 to |ps|
        invariant AddAll(q, ps[i..]) == AddAll(queues[stage], ps)
        invariant |ids| == i && forall k :: 0 <= k < i ==> ids[k] == ps[k].id
      {
        assert ps[i..][0] == ps[i] && ps[i..][1..] == ps[i + 1..];
        if ps[i].id !in q.jobs {
          q := Queue(q.jobs[ps[i].id := ps[i].job], q.order + [ps[i].id]);
        }
        ids := ids + [ps[i].id];
      }
      queues := queues[stage := q];
    }

    /** Group by stage, one addBulk a stage in whatever order they run, ids scattered back. */
    method EnqueueBulk(rs: seq<Request>, fault: Stage -> Fault) returns (reply: Reply)
      modifies this`queues
      ensures |rs| > 500 || !AllValid(rs) ==> reply == BadRequest && queues == old(queues)
      ensures |rs| <= 500 && AllValid(rs) ==>
                && queues == AfterBulk(old(queues), Posts(rs), fault)
                && reply == (if AllFine(rs, fault) then Accepted(Ids(rs)) else QueueError)
    {
      hide EnqueueId, PostOf, Posts, AddAll, Group, Entries, EntryPosts, AfterBulk, AllValid, Scattered, Ids, AllFine, Tried;
      if |rs| > 500 || !AllValid(rs) { return BadRequest; }
      var byStage := GroupByStage(rs);
      var jobIds := new Option<string>[|rs|](_ => None);
      NoneScattered(jobIds[..], rs, byStage.Keys, fault);
      ghost var before := queues;
      var failed := EnqueueGroups(rs, byStage, fault, jobIds);
      AllGroupsTried(before, queues, rs, byStage, fault);
      if failed { return QueueError; }
      AllScattered(jobIds[..], rs, byStage, fault);
      return Accepted(jobIds[..]);
    }

    /** The addBulk of every stage; whether any of them threw. */
    method EnqueueGroups(rs: seq<Request>, byStage: map<Stage, seq<Entry>>, fault: Stage -> Fault, jobIds: array<Option<string>>)
      returns (failed: bool)
      requires jobIds.Length == |rs| && Scattered(jobIds[..], rs, byStage.Keys, fault)
      requires forall s :: s in byStage ==> byStage[s] == Entries(rs, 0, s) != []
      modifies this`queues, jobIds
      ensures forall s: Stage :: queues[s] == if s in byStage then Tried(old(queues)[s], Posts(rs), s, fault) else old(queues)[s]
      ensures !failed ==> forall s :: s in byStage ==> fault(s) == Fine
      ensures failed ==> !AllFine(rs, fault)
      ensures Scattered(jobIds[..], rs, {}, fault)
    {
      hide EnqueueId, PostOf, Posts, AddAll, Group, Entries, EntryPosts, Scattered, AllFine, Tried;
      var remaining := byStage.Keys;
      failed := false;
      while remaining != {}
        invariant remaining <= byStage.Keys
        invariant forall s: Stage ::
          queues[s] == if s in byStage && s !in remaining then Tried(old(queues)[s], Posts(rs), s, fault) else old(queues)[s]
        invariant !failed ==> forall s :: s in byStage && s !in remaining ==> fault(s) == Fine
        invariant failed ==> !AllFine(rs, fault)
        invariant Scattered(jobIds[..], rs, remaining, fault)
      {
        var stage :| stage in remaining;
        assert remaining == (remaining - {stage}) + {stage};
        remaining := remaining - {stage};
        var ok := EnqueueGroup(rs, stage, byStage[stage], fault, jobIds, remaining);
        if !ok { failed := true; }
      }
    }

    /** One stage's share of a bulk request; false when its addBulk throws. */
    method EnqueueGroup(rs: seq<Request>, stage: Stage, es: seq<Entry>, fault: Stage -> Fault, jobIds: array<Option<string>>,
                        ghost remaining: set<Stage>)
      returns (ok: bool)
      requires jobIds.Length == |rs| && es == Entries(rs, 0, stage) != []
      modifies this`queues, jobIds
      ensures queues == old(queues)[stage := Tried(old(queues)[stage], Posts(rs), stage, fault)]
      ensures ok <==> fault(stage) == Fine
      ensures !ok ==> !AllFine(rs, fault)
      ensures Scattered(old(jobIds[..]), rs, remaining + {stage}, fault) ==> Scattered(jobIds[..], rs, remaining, fault)
    {
      hide EnqueueId, PostOf, AddAll, Group, Entries, EntryPosts;
      EntriesAreTheGroup(rs, 0, stage);
      assert Posts(rs)[0..] == Posts(rs);
      assert es[0] in es && rs[es[0].index] in rs;
      if fault(stage).NotApplied? { return false; }
      var added := PushAll(stage, EntryPosts(es));
      if fault(stage).ReplyLost? { return false; }
      EntryPostIds(es);
      Scatter(jobIds, rs, stage, es, added);
      return true;
    }

    method GroupByStage(rs: seq<Request>) returns (byStage: map<Stage, seq<Entry>>)
      ensures forall r :: r in rs ==> r.message.stage in byStage
      ensures forall s :: s in byStage ==> byStage[s] == Entries(rs, 0, s) != []
      ensures forall s :: s !in byStage ==> Entries(rs, 0, s) == []
    {
      hide Entries;
      byStage := map[];
      for i := 0 to |rs|
        invariant forall s: Stage :: Entries(rs, 0, s) == Grouped(byStage, s) + Entries(rs, i, s)
        invariant forall s :: s in byStage ==> byStage[s] != []
        invariant forall k :: 0 <= k < i ==> rs[k].message.stage in byStage
      {
        var stage := rs[i].message.stage;
        forall s: Stage { Regroup(Grouped(byStage, s), rs, i, s); }
        byStage := byStage[stage := Grouped(byStage, stage) + [Entry(i, rs[i])]];
      }
      forall s: Stage { NoneLeft(rs, s); }
    }

    method Scatter(jobIds: array<Option<string>>, ghost rs: seq<Request>, ghost stage: Stage, es: seq<Entry>, added: seq<string>)
      requires jobIds.Length == |rs| && es == Entries(rs, 0, stage)
      requires |added| == |es| && forall i :: 0 <= i < |es| ==> added[i] == EnqueueId(es[i].request.message)
      modifies jobIds
      ensures forall i :: 0 <= i < |rs| ==>
        jobIds[i] == if rs[i].message.stage == stage then Some(EnqueueId(rs[i].message)) else old(jobIds[i])
    {
      hide EnqueueId, Entries;
      for p := 0 to |es|
        invariant forall i :: 0 <= i < |rs| && rs[i].message.stage != stage ==> jobIds[i] == old(jobIds[i])
        invariant forall k :: 0 <= k < p ==> es[k] in es && jobIds[es[k].index] == Some(EnqueueId(rs[es[k].index].message))
      {
        assert es[p] in es;
        jobIds[es[p].index] := Some(added[p]);
      }
      forall i | 0 <= i < |rs| && rs[i].message.stage == stage
        ensures jobIds[i] == Some(EnqueueId(rs[i].message))
      {
        EntriesComplete(rs, 0, i);
        var k :| 0 <= k < |es| && es[k] == Entry(i, rs[i]);
      }
    }

    /** The add of a replay, on an entry that was read some time before. */
    method AddReplay(entry: DlqEntry, now: nat) returns (id: string)
      requires Replayable(entry)
      modifies this`queues
      ensures queues == ReplayAdd(old(queues), entry, now)
      ensures id == ReplayPost(entry, now).id
    {
      var stage, message := entry.stage.value, entry.message.value;
      id := ReplayId(message.jobId, stage, now);
      var q := queues[stage];
      if id !in q.jobs {
        var job := Job(message.(attempt := Some(1)), 0, 0, Waiting, 0, []);
        queues := queues[stage := Queue(q.jobs[id := job], q.order + [id])];
      }
    }

    /** Removing an entry by its id, whatever is stored there by now. */
    method Remove(key: string)
      modifies this`dlq
      ensures dlq == old(dlq) - {key}
    {
      dlq := dlq - {key};
    }

    /** A replay that nothing else interleaves with: a read, an add and a removal. */
    method Replay(key: string, now: nat, stop: Stop) returns (reply: Reply)
      modifies this`queues, this`dlq
      ensures var found := key in old(dlq) && !stop.AtRead?;
              var replayed := found && Replayable(old(dlq)[key]);
              && queues == (if replayed && stop != AtAdd(false) then ReplayAdd(old(queues), old(dlq)[key], now) else old(queues))
              && dlq == (if replayed && (stop.Never? || stop == AtRemove(true)) then old(dlq) - {key} else old(dlq))
              && reply == (if stop.AtRead? then NoReply
                           else if !found then NotFound
                           else if !replayed then Unprocessable
                           else if stop.Never? then Accepted([Some(ReplayPost(old(dlq)[key], now).id)])
                           else NoReply)
    {
      hide ReplayPost, ReplayAdd;
      if stop.AtRead? { return NoReply; }
      if key !in dlq { return NotFound; }
      var entry := dlq[key];
      if entry.stage.None? || entry.message.None? || entry.message.value.jobId == "" { return Unprocessable; }
      if stop == AtAdd(false) { return NoReply; }
      var id := AddReplay(entry, now);
      if stop.AtAdd? || stop == AtRemove(false) { return NoReply; }
      Remove(key);
      if stop.AtRemove? { return NoReply; }
      return Accepted([Some(id)]);
    }

    method Discard(key: string, stop: Stop) returns (reply: Reply)
      modifies this`dlq
      ensures dlq == if stop.AtRead? || stop == AtRemove(false) then old(dlq) else old(dlq) - {key}
      ensures reply == if stop.AtRead? then NoReply
                       else if key !in old(dlq) then NotFound
                       else if stop.AtRemove? then NoReply
                       else NoContent
    {
      if stop.AtRead? { return NoReply; }
      if key !in dlq { return NotFound; }
      if stop == AtRemove(false) { return NoReply; }
      Remove(key);
      if stop.AtRemove? { return NoReply; }
      return NoContent;
    }

    /** The processor's start: what Python is sent carries BullMQ's own count plus one. */
    method Take(stage: Stage, id: string) returns (message: Message)
      requires id in queues[stage].jobs
      modifies this`queues
      ensures queues == old(queues)[stage := TakeJob(old(queues)[stage], id)]
      ensures message.attempt == Some(old(queues)[stage].jobs[id].attemptsMade + 1)
      ensures message == old(queues)[stage].jobs[id].data.(attempt := message.attempt)
    {
      var job := queues[stage].jobs[id];
      message := job.data.(attempt := Some(job.attemptsMade + 1));
      queues := queues[stage := TakeJob(queues[stage], id)];
    }

    /** The processor's end and, when it threw, the failed handler that follows. */
    method Settle(stage: Stage, id: string, response: Response)
      requires id in queues[stage].jobs && queues[stage].jobs[id].calls != []
      modifies this`queues, this`awaiting
      ensures queues == old(queues)[stage := SettleJob(old(queues)[stage], id, Throws(response), maxAttempts)]
      ensures var started := if Throws(response) then ToDeadLetter(stage, id, queues[stage].jobs[id], maxAttempts) else None;
              awaiting == if started.Some? then old(awaiting) + {started.value} else old(awaiting)
    {
      var threw := false;
      match Dispatch(response) {
        case Returned(result) => if result.shouldRetry { threw := true; }
        case TransportError => threw := true;
        case RejectedError => threw := true;
      }
      assert threw == Throws(response);
      hide Throws;
      queues := queues[stage := SettleJob(queues[stage], id, threw, maxAttempts)];
      if threw {
        var job := queues[stage].jobs[id];
        if job.attemptsMade >= maxAttempts {
          awaiting := awaiting + {DlqEntry(Some(stage), Some(job.data), job.attemptsMade, id)};
        }
      }
    }

    /** A started dead-letter write lands. */
    method DeadLetter(e: DlqEntry)
      requires e in awaiting && e.stage.Some? && e.message.Some?
      modifies this`dlq, this`awaiting
      ensures dlq == WriteEntry(old(dlq), e) && awaiting == old(awaiting) - {e}
    {
      var key := DlqId(e.stage.value, e.message.value.jobId, e.attemptsMade);
      if key !in dlq {
        dlq := dlq[key := e];
      }
      awaiting := awaiting - {e};
    }
  }
}
