/** When the removal that ends a replay is safe: exactly, over every run; in terms a replay
    could read; and the two orderings in which it takes the last trace of a job. */
module DispatchReplays {
  import opened Wrappers
  import opened Text
  import opened QueueIds
  import opened QueueStore
  import opened DispatchRuns
  import opened DispatchConservation

  lemma RemovalKeepsOthers(s: State, t: State, key: string, p: Pair)
    requires key in s.dlq && HasPair(s.dlq[key]) && p != EntryPair(s.dlq[key]) && t.dlq == s.dlq - {key}
    requires DeadLettered(s, p)
    ensures DeadLettered(t, p)
  {
    var k :| k in s.dlq && HasPair(s.dlq[k]) && EntryPair(s.dlq[k]) == p;
    assert k in t.dlq;
  }

  lemma RemovalTakesTheEntry(s: State, t: State, key: string, max: nat)
    requires EntriesOk(s.awaiting, s.dlq, max) && key in s.dlq && t.dlq == s.dlq - {key}
    ensures !DeadLettered(t, EntryPair(s.dlq[key]))
  {
    hide EntryKey;
    forall k | k in t.dlq
      ensures EntryPair(t.dlq[k]) != EntryPair(s.dlq[key])
    {
      SameKeySamePair(s.dlq[k], s.dlq[key], max);
    }
  }

  /** When the removal that ends a replay is safe: exactly when the removed entry is not all
      that is left of its pair. */
  lemma ReplayFinishIsSafeWhen(s: State, key: string, max: nat)
    requires EntriesOk(s.awaiting, s.dlq, max) && JobsAccepted(s) && Conserved(s)
    requires Enabled(s, ReplayFinish(key)) && key in s.dlq
    ensures Conserved(Apply(s, ReplayFinish(key), max)) <==> Elsewhere(s, EntryPair(s.dlq[key]))
  {
    var gone := EntryPair(s.dlq[key]);
    assert gone in s.accepted;
    hide EntriesOk, JobsAccepted;
    var s' := Apply(s, ReplayFinish(key), max);
    RemovalTakesTheEntry(s, s', key, max);
    if Elsewhere(s', gone) { SameElsewhere(s', s, gone); }
    hide DeadLettered, Live, Awaits;
    if Elsewhere(s, gone) {
      forall p | p in s'.accepted
        ensures Elsewhere(s', p) || DeadLettered(s', p)
      {
        if Elsewhere(s, p) { SameElsewhere(s, s', p); } else { RemovalKeepsOthers(s, s', key, p); }
      }
    }
  }

  ghost predicate AllSafe(s: State, steps: seq<Step>, max: nat)
    requires IsRun(s, steps, max, false)
    decreases steps
  {
    steps == [] || (Safe(s, steps[0]) && AllSafe(Apply(s, steps[0], max), steps[1..], max))
  }

  ghost predicate ConservedThroughout(s: State, steps: seq<Step>, max: nat)
    requires IsRun(s, steps, max, false)
    decreases steps
  {
    Conserved(s) && (steps == [] || ConservedThroughout(Apply(s, steps[0], max), steps[1..], max))
  }

  lemma StepConservesWhen(s: State, step: Step, max: nat)
    requires max >= 1 && Enabled(s, step) && Base(s, max) && JobsAccepted(s) && Conserved(s)
    ensures Conserved(Apply(s, step, max)) <==> Safe(s, step)
  {
    hide Apply;
    if step.ReplayFinish? && step.key in s.dlq {
      ReplayFinishIsSafeWhen(s, step.key, max);
    } else {
      forall p | p in Apply(s, step, max).accepted { StepKeepsPair(s, step, max, p); }
    }
  }

  lemma {:induction false} ConservedWhenAllSafe(s: State, steps: seq<Step>, max: nat)
    requires max >= 1 && Base(s, max) && JobsAccepted(s) && Conserved(s) && IsRun(s, steps, max, false)
    ensures ConservedThroughout(s, steps, max) <==> AllSafe(s, steps, max)
    decreases steps
  {
    hide Base, JobsAccepted, Conserved, Safe, Apply, Enabled;
    if steps != [] {
      StepConservesWhen(s, steps[0], max);
      if Safe(s, steps[0]) {
        StepKeepsBase(s, steps[0], max);
        StepKeepsAccepted(s, steps[0], max);
        ConservedWhenAllSafe(Apply(s, steps[0], max), steps[1..], max);
      } else {
        var t, rest := Apply(s, steps[0], max), steps[1..];
        assert ConservedThroughout(t, rest, max) ==> Conserved(t);
      }
    }
  }

  /** Over every run, orderly or not: no pair is ever lost if and only if every removal that
      ends a replay leaves its pair something other than the entry it takes. */
  lemma NothingIsLostIff(steps: seq<Step>, max: nat)
    requires max >= 1 && IsRun(START, steps, max, false)
    ensures ConservedThroughout(START, steps, max) <==> AllSafe(START, steps, max)
  {
    StartIsFine(max);
    ConservedWhenAllSafe(START, steps, max);
  }

  // ---- what a replay could ask before its removal

  predicate PostsFor(step: Step, p: Pair) {
    || (step.Submit? && (step.r.message.stage, step.r.message.jobId) == p)
    || (step.ReplayStart? && HasPair(step.e) && EntryPair(step.e) == p)
  }

  /** A retained job whose completion still counts, unless its pair was posted again. */
  ghost predicate Tracked(s: State, id: string, p: Pair, posted: bool) {
    && id in s.queues[p.0].jobs && PairOf(s.queues[p.0].jobs[id]) == p
    && (s.queues[p.0].jobs[id].state == Completed && !posted ==> p in s.completed)
  }

  lemma PostKeepsTracked(s: State, post: Post, id: string, p: Pair, posted: bool)
    requires Tracked(s, id, p, posted) && post.job.state == Waiting
    ensures Tracked(Post1(s, post), id, p, posted || PairOf(post.job) == p)
  {
  }

  lemma SettleKeepsTracked(s: State, stage: Stage, id': string, threw: bool, max: nat, id: string, p: Pair, posted: bool)
    requires Base(s, max) && InState(s, stage, id', Active) && s.queues[stage].jobs[id'].calls != []
    requires Tracked(s, id, p, posted)
    ensures Tracked(Settled(s, stage, id', threw, max), id, p, posted)
  {
    hide JobOk, SettleJob, ToDeadLetter;
    assert JobAt(s.queues, s.deadLettered, stage, id', max);
    SettleKeepsJobOk(stage, s.queues[stage], id', threw, max);
  }

  lemma StepKeepsTracked(s: State, step: Step, max: nat, id: string, p: Pair, posted: bool)
    requires max >= 1 && Base(s, max) && Enabled(s, step) && Tracked(s, id, p, posted)
    requires step != Trim(p.0, id)
    ensures Tracked(Apply(s, step, max), id, p, posted || PostsFor(step, p))
  {
    hide EnqueueId, ReplayId, DlqId, Throws, NewJob, JobOk, SettleJob, Post1, Settled, WriteEntry;
    match step
    case Submit(r) =>
      SubmitIsOk(r, max);
      PostKeepsTracked(s, PostOf(r), id, p, posted);
    case ReplayStart(key, e, now) =>
      ReplayIsOk(e, now, max);
      PostKeepsTracked(s, ReplayPost(e, now), id, p, posted);
    case Settle(stage, id', response) => SettleKeepsTracked(s, stage, id', Throws(response), max, id, p, posted);
    case _ =>
  }

  lemma {:induction false} RunKeepsTracked(s: State, steps: seq<Step>, max: nat, id: string, p: Pair, posted: bool)
    requires max >= 1 && Base(s, max) && Tracked(s, id, p, posted) && IsRun(s, steps, max, false)
    requires Trim(p.0, id) !in steps
    ensures Base(Exec(s, steps, max), max)
    ensures Tracked(Exec(s, steps, max), id, p, posted || exists step :: step in steps && PostsFor(step, p))
    decreases steps
  {
    hide Base, Tracked, Apply, Enabled, PostsFor;
    if steps != [] {
      assert steps == [steps[0]] + steps[1..];
      StepKeepsBase(s, steps[0], max);
      StepKeepsTracked(s, steps[0], max, id, p, posted);
      RunKeepsTracked(Apply(s, steps[0], max), steps[1..], max, id, p, posted || PostsFor(steps[0], p));
    }
  }

  lemma TrackedIsElsewhere(s: State, id: string, p: Pair, posted: bool)
    requires Tracked(s, id, p, posted) && s.queues[p.0].jobs[id].state != Failed
    requires s.queues[p.0].jobs[id].state == Completed ==> !posted
    ensures Elsewhere(s, p)
  {
    if s.queues[p.0].jobs[id].state != Completed { assert LiveJob(s.queues[p.0], id, p); }
  }

  /** What a replay could read before it removes its entry. Its add took a new id; whatever
      happens next, the removal is safe while that job is waiting or active, and also once it
      has completed if no other job was posted for the pair in between. */
  lemma RemovalIsSafeWhile(s: State, key: string, e: DlqEntry, now: nat, steps: seq<Step>, max: nat)
    requires max >= 1 && Base(s, max) && Enabled(s, ReplayStart(key, e, now)) && Orderly(s, ReplayStart(key, e, now))
    requires IsRun(Apply(s, ReplayStart(key, e, now), max), steps, max, false)
    requires Trim(e.stage.value, ReplayPost(e, now).id) !in steps
    ensures var id, t := ReplayPost(e, now).id, Exec(Apply(s, ReplayStart(key, e, now), max), steps, max);
            && id in t.queues[e.stage.value].jobs
            && var state := t.queues[e.stage.value].jobs[id].state;
            (state == Waiting || state == Active ||
             (state == Completed && forall step :: step in steps ==> !PostsFor(step, EntryPair(e))))
            ==> Safe(t, ReplayFinish(key))
  {
    hide EnqueueId, ReplayId, DlqId, Throws, NewJob, JobOk, SettleJob, IsRun, Exec, PostsFor, Elsewhere, JobsOk;
    var start := ReplayStart(key, e, now);
    var s1, id, p := Apply(s, start, max), ReplayPost(e, now).id, EntryPair(e);
    ReplayIsOk(e, now, max);
    StepKeepsBase(s, start, max);
    assert Tracked(s1, id, p, false);
    RunKeepsTracked(s1, steps, max, id, p, false);
    var t := Exec(s1, steps, max);
    var posted := exists step :: step in steps && PostsFor(step, p);
    var state := t.queues[p.0].jobs[id].state;
    if state == Waiting || state == Active || (state == Completed && !posted) {
      TrackedIsElsewhere(t, id, p, posted);
      if key in t.dlq { SameKeySamePair(e, t.dlq[key], max); }
    }
  }

  // ------------------------------------------------------------------ how a pair is lost

  lemma {:induction false} Extend(s: State, steps: seq<Step>, step: Step, max: nat)
    requires IsRun(s, steps, max, false) && Enabled(Exec(s, steps, max), step)
    ensures IsRun(s, steps + [step], max, false)
    ensures Exec(s, steps + [step], max) == Apply(Exec(s, steps, max), step, max)
    decreases steps
  {
    if steps == [] {
      assert (steps + [step])[1..] == [];
    } else {
      Extend(Apply(s, steps[0], max), steps[1..], step, max);
      assert (steps + [step])[1..] == steps[1..] + [step];
    }
  }

  function FailedCalls(n: nat): (calls: seq<Call>)
    ensures |calls| == n
  {
    seq(n, i requires 0 <= i < n => Call(i + 1, true))
  }

  /** A job k of whose attempts have failed, and one that has used up its budget. */
  function Tried(j: Job, k: nat): Job {
    j.(state := Waiting, attemptsMade := k, calls := FailedCalls(k))
  }

  function FailedJob(j: Job, max: nat): Job {
    j.(state := Failed, attemptsMade := max, calls := FailedCalls(max))
  }

  function EntryFor(stage: Stage, id: string, j: Job, max: nat): DlqEntry {
    DlqEntry(Some(stage), Some(j.data), max, id)
  }

  function SetJob(qs: Queues, stage: Stage, id: string, j: Job): Queues {
    qs[stage := qs[stage].(jobs := qs[stage].jobs[id := j])]
  }

  function WithJob(s: State, stage: Stage, id: string, j: Job): State {
    s.(queues := SetJob(s.queues, stage, id, j))
  }

  /** The state after every attempt of a job has failed. */
  function AfterFailure(s: State, stage: Stage, id: string, j: Job, max: nat): State {
    WithJob(s, stage, id, FailedJob(j, max))
      .(awaiting := s.awaiting + {EntryFor(stage, id, j, max)}, deadLettered := s.deadLettered + {(stage, id)})
  }

  lemma OneMoreFailure(q: Queue, id: string, j: Job, k: nat, max: nat)
    requires id in q.jobs && q.jobs[id] == Tried(j, k) && k < max
    ensures var taken := TakeJob(q, id);
            && taken.jobs[id].state == Active && taken.jobs[id].calls != []
            && SettleJob(taken, id, true, max)
               == q.(jobs := q.jobs[id := if k + 1 < max then Tried(j, k + 1) else FailedJob(j, max)])
  {
    var taken := TakeJob(q, id);
    var calls := taken.jobs[id].calls;
    assert calls == FailedCalls(k) + [Call(k + 1, false)];
    assert calls[k := calls[k].(failed := true)] == FailedCalls(k + 1);
    var settled := SettleJob(taken, id, true, max);
    assert settled.jobs[id] == if k + 1 < max then Tried(j, k + 1) else FailedJob(j, max);
    assert settled.jobs == q.jobs[id := settled.jobs[id]];
  }

  lemma TakeThenFail(s: State, stage: Stage, id: string, j: Job, k: nat, max: nat)
    requires id in s.queues[stage].jobs && s.queues[stage].jobs[id] == Tried(j, k) && k < max
    ensures Enabled(s, Take(stage, id)) && Enabled(Apply(s, Take(stage, id), max), Settle(stage, id, Unreachable))
    ensures Apply(Apply(s, Take(stage, id), max), Settle(stage, id, Unreachable), max)
            == if k + 1 < max then WithJob(s, stage, id, Tried(j, k + 1)) else AfterFailure(s, stage, id, j, max)
  {
    hide SettleJob, FailedCalls;
    OneMoreFailure(s.queues[stage], id, j, k, max);
    assert Throws(Unreachable);
  }

  lemma SetJobTwice(qs: Queues, stage: Stage, id: string, j: Job, j': Job)
    ensures SetJob(SetJob(qs, stage, id, j'), stage, id, j) == SetJob(qs, stage, id, j)
  {
    assert qs[stage].jobs[id := j'][id := j] == qs[stage].jobs[id := j];
  }

  lemma WithJobTwice(s: State, stage: Stage, id: string, j: Job, j': Job, max: nat)
    ensures AfterFailure(WithJob(s, stage, id, j'), stage, id, j, max) == AfterFailure(s, stage, id, j, max)
  {
    SetJobTwice(s.queues, stage, id, FailedJob(j, max), j');
    hide SetJob, FailedJob;
  }

  lemma {:induction false} FailAllAttempts(steps: seq<Step>, stage: Stage, id: string, j: Job, k: nat, max: nat) returns (steps': seq<Step>)
    requires k < max && IsRun(START, steps, max, false)
    requires var s := Exec(START, steps, max); id in s.queues[stage].jobs && s.queues[stage].jobs[id] == Tried(j, k)
    ensures IsRun(START, steps', max, false)
    ensures Exec(START, steps', max) == AfterFailure(Exec(START, steps, max), stage, id, j, max)
    decreases max - k
  {
    hide *;
    hide START;
    var s := Exec(START, steps, max);
    TakeThenFail(s, stage, id, j, k, max);
    Extend(START, steps, Take(stage, id), max);
    Extend(START, steps + [Take(stage, id)], Settle(stage, id, Unreachable), max);
    steps' := steps + [Take(stage, id)] + [Settle(stage, id, Unreachable)];
    if k + 1 < max {
      HasTheJob(s, stage, id, Tried(j, k + 1));
      steps' := FailAllAttempts(steps', stage, id, j, k + 1, max);
      WithJobTwice(s, stage, id, j, Tried(j, k + 1), max);
    }
  }

  lemma HasTheJob(s: State, stage: Stage, id: string, j: Job)
    ensures id in WithJob(s, stage, id, j).queues[stage].jobs && WithJob(s, stage, id, j).queues[stage].jobs[id] == j
  {
  }

  ghost predicate AllFailedFor(q: Queue, p: Pair) {
    forall id :: id in q.jobs ==> PairOf(q.jobs[id]) == p && q.jobs[id].state == Failed
  }

  /** A pair whose jobs have all failed, and of which only entry e is left. */
  ghost predicate OnlyEntryLeft(s: State, e: DlqEntry) {
    && HasPair(e) && s.dlq == map[EntryKey(e) := e] && s.awaiting == {} && s.accepted == {EntryPair(e)}
    && s.completed == {} && s.discarded == {}
    && AllFailedFor(s.queues[e.stage.value], EntryPair(e))
  }

  lemma SubmitAndFail(s: State, r: Request, max: nat)
    requires s == START && ValidRequest(r) && max >= 1
    ensures var s1 := Apply(s, Submit(r), max);
            var stage, id := r.message.stage, EnqueueId(r.message);
            var e := DlqEntry(Some(stage), Some(r.message), max, id);
            && id in s1.queues[stage].jobs && s1.queues[stage].jobs[id] == Tried(NewJob(r), 0)
            && var s2 := AfterFailure(s1, stage, id, NewJob(r), max);
            && Enabled(s2, Write(e))
            && var s3 := Apply(s2, Write(e), max);
            && OnlyEntryLeft(s3, e) && s3.replaying == multiset{} && s3.queues[stage].jobs.Keys == {id}
  {
    hide EnqueueId, DlqId, FailedCalls;
    NoCalls();
  }

  lemma NoCalls()
    ensures FailedCalls(0) == []
  {
  }

  lemma FailUntilDead(r: Request, max: nat) returns (steps: seq<Step>, e: DlqEntry)
    requires ValidRequest(r) && max >= 1
    ensures e == DlqEntry(Some(r.message.stage), Some(r.message), max, EnqueueId(r.message))
    ensures IsRun(START, steps, max, false)
    ensures var s := Exec(START, steps, max);
            && OnlyEntryLeft(s, e) && s.replaying == multiset{}
            && s.queues[r.message.stage].jobs.Keys == {e.originalId}
  {
    hide EnqueueId, AfterFailure, Apply, OnlyEntryLeft, NewJob, Tried;
    var stage, id := r.message.stage, EnqueueId(r.message);
    e := DlqEntry(Some(stage), Some(r.message), max, id);
    SubmitAndFail(START, r, max);
    Extend(START, [], Submit(r), max);
    steps := FailAllAttempts([] + [Submit(r)], stage, id, NewJob(r), 0, max);
    Extend(START, steps, Write(e), max);
    steps := steps + [Write(e)];
  }

  /** The entry that is left is being replayed, and the replayed job has failed too. */
  ghost predicate FailedReplay(s: State, e: DlqEntry, again: DlqEntry, id: string) {
    && HasPair(e) && HasPair(again) && EntryPair(again) == EntryPair(e) && EntryKey(again) == EntryKey(e)
    && s.dlq == map[EntryKey(e) := e] && s.awaiting == {again} && s.accepted == {EntryPair(e)}
    && s.completed == {} && s.discarded == {} && s.replaying == multiset{EntryKey(e)}
    && AllFailedFor(s.queues[e.stage.value], EntryPair(e)) && id in s.queues[e.stage.value].jobs
  }

  lemma AddedByReplay(s: State, e: DlqEntry, now: nat, max: nat)
    requires Replayable(e) && e.message.value.stage == e.stage.value
    requires (EntryKey(e), e) in s.reading && ReplayPost(e, now).id !in s.queues[e.stage.value].jobs
    ensures var s1, post := Apply(s, ReplayStart(EntryKey(e), e, now), max), ReplayPost(e, now);
            && s1.queues == s.queues[e.stage.value := Add(s.queues[e.stage.value], post)]
            && post.id in s1.queues[e.stage.value].jobs && s1.queues[e.stage.value].jobs[post.id] == Tried(post.job, 0)
            && s1.dlq == s.dlq && s1.awaiting == s.awaiting && s1.replaying == s.replaying + multiset{EntryKey(e)}
            && s1.accepted == s.accepted + {EntryPair(e)} && s1.completed <= s.completed && s1.discarded <= s.discarded
  {
    hide EntryKey, ReplayId, FailedCalls;
    NoCalls();
  }

  lemma ReplayThenFail(s: State, e: DlqEntry, now: nat, max: nat)
    requires Replayable(e) && e.attemptsMade == max && e.message.value.stage == e.stage.value
    requires OnlyEntryLeft(s, e) && s.replaying == multiset{}
    requires ReplayPost(e, now).id !in s.queues[e.stage.value].jobs
    ensures Enabled(s, ReplayRead(EntryKey(e)))
    ensures var s0 := Apply(s, ReplayRead(EntryKey(e)), max);
            && Enabled(s0, ReplayStart(EntryKey(e), e, now))
            && var s1 := Apply(s0, ReplayStart(EntryKey(e), e, now), max);
            var post := ReplayPost(e, now);
            && post.id in s1.queues[e.stage.value].jobs && s1.queues[e.stage.value].jobs[post.id] == Tried(post.job, 0)
            && FailedReplay(AfterFailure(s1, e.stage.value, post.id, post.job, max), e, EntryFor(e.stage.value, post.id, post.job, max), post.id)
  {
    var s0 := Apply(s, ReplayRead(EntryKey(e)), max);
    AddedByReplay(s0, e, now, max);
    hide DlqId, ReplayId, FailedCalls, Post1;
  }

  lemma ReplayAndFail(steps: seq<Step>, e: DlqEntry, now: nat, max: nat) returns (steps': seq<Step>, again: DlqEntry)
    requires max >= 1 && IsRun(START, steps, max, false)
    requires Replayable(e) && e.attemptsMade == max && e.message.value.stage == e.stage.value
    requires var s := Exec(START, steps, max); OnlyEntryLeft(s, e) && s.replaying == multiset{}
    requires ReplayPost(e, now).id !in Exec(START, steps, max).queues[e.stage.value].jobs
    ensures IsRun(START, steps', max, false)
    ensures FailedReplay(Exec(START, steps', max), e, again, ReplayPost(e, now).id)
    ensures again == EntryFor(e.stage.value, ReplayPost(e, now).id, ReplayPost(e, now).job, max)
  {
    hide Apply, AfterFailure, Tried, FailedReplay, OnlyEntryLeft, IsRun, Exec, EntryKey, Enabled;
    var read, step, id := ReplayRead(EntryKey(e)), ReplayStart(EntryKey(e), e, now), ReplayPost(e, now).id;
    again := EntryFor(e.stage.value, id, ReplayPost(e, now).job, max);
    ReplayThenFail(Exec(START, steps, max), e, now, max);
    Extend(START, steps, read, max);
    Extend(START, steps + [read], step, max);
    steps' := FailAllAttempts(steps + [read] + [step], e.stage.value, id, ReplayPost(e, now).job, 0, max);
  }

  lemma NothingLeft(s: State, e: DlqEntry)
    requires HasPair(e) && s.dlq == map[] && s.awaiting == {} && s.accepted == {EntryPair(e)}
    requires s.completed == {} && s.discarded == {} && AllFailedFor(s.queues[e.stage.value], EntryPair(e))
    ensures !Conserved(s)
  {
    assert EntryPair(e) in s.accepted;
  }

  lemma SwallowThenRemove(s: State, e: DlqEntry, again: DlqEntry, id: string, max: nat)
    requires FailedReplay(s, e, again, id)
    ensures Enabled(s, Write(again)) && Enabled(Apply(s, Write(again), max), ReplayFinish(EntryKey(e)))
    ensures !Conserved(Apply(Apply(s, Write(again), max), ReplayFinish(EntryKey(e)), max))
  {
    hide DlqId;
    NothingLeft(Apply(Apply(s, Write(again), max), ReplayFinish(EntryKey(e)), max), e);
  }

  /** The replay is added and fails before the old entry is removed; its own dead-letter
      write is a no-op because that entry is still there; the removal then takes the last
      trace. Whatever the message and the budget. */
  lemma LostToSwallowedWrite(r: Request, now: nat, max: nat) returns (steps: seq<Step>)
    requires ValidRequest(r) && max >= 1
    ensures IsRun(START, steps, max, false) && !Conserved(Exec(START, steps, max))
  {
    hide EnqueueId, DlqId, ReplayId, FailedReplay, OnlyEntryLeft, Apply, Conserved, IsRun, Exec;
    var e, again;
    steps, e := FailUntilDead(r, max);
    ReplayIdsApart(r.message, r.message.jobId, r.message.stage, now, r.message.jobId, r.message.stage, now);
    steps, again := ReplayAndFail(steps, e, now, max);
    SwallowThenRemove(Exec(START, steps, max), e, again, ReplayPost(e, now).id, max);
    Extend(START, steps, Write(again), max);
    Extend(START, steps + [Write(again)], ReplayFinish(EntryKey(e)), max);
    steps := steps + [Write(again)] + [ReplayFinish(EntryKey(e))];
  }

  lemma RemoveThenReplayAgain(s: State, e: DlqEntry, again: DlqEntry, id: string, now: nat, max: nat)
    requires FailedReplay(s, e, again, id) && Replayable(again) && ReplayPost(again, now).id == id
    requires again.message.value.stage == e.stage.value
    ensures var key := EntryKey(e);
            && Enabled(s, ReplayFinish(key)) && var s1 := Apply(s, ReplayFinish(key), max);
            && Enabled(s1, Write(again)) && var s2 := Apply(s1, Write(again), max);
            && Enabled(s2, ReplayRead(key)) && var s3 := Apply(s2, ReplayRead(key), max);
            && Enabled(s3, ReplayStart(key, again, now)) && var s4 := Apply(s3, ReplayStart(key, again, now), max);
            && Enabled(s4, ReplayFinish(key)) && !Conserved(Apply(s4, ReplayFinish(key), max))
  {
    hide DlqId, ReplayId;
    var key := EntryKey(e);
    var s2 := Apply(Apply(s, ReplayFinish(key), max), Write(again), max);
    assert s2.dlq == map[key := again];
    var s4 := Apply(Apply(s2, ReplayRead(key), max), ReplayStart(key, again, now), max);
    NothingLeft(Apply(s4, ReplayFinish(key), max), e);
  }

  /** Two replays of a pair in the same millisecond: the second adds nothing, because the
      failed job of the first still holds the id, and still removes its entry. */
  lemma LostToSameMillisecond(r: Request, now: nat, max: nat) returns (steps: seq<Step>)
    requires ValidRequest(r) && max >= 1
    ensures IsRun(START, steps, max, false) && !Conserved(Exec(START, steps, max))
  {
    hide EnqueueId, DlqId, ReplayId, FailedReplay, OnlyEntryLeft, Apply, Conserved, IsRun, Exec;
    var e, again;
    steps, e := FailUntilDead(r, max);
    ReplayIdsApart(r.message, r.message.jobId, r.message.stage, now, r.message.jobId, r.message.stage, now);
    steps, again := ReplayAndFail(steps, e, now, max);
    var key := EntryKey(e);
    RemoveThenReplayAgain(Exec(START, steps, max), e, again, ReplayPost(e, now).id, now, max);
    Extend(START, steps, ReplayFinish(key), max);
    Extend(START, steps + [ReplayFinish(key)], Write(again), max);
    steps := steps + [ReplayFinish(key)] + [Write(again)];
    Extend(START, steps, ReplayRead(key), max);
    Extend(START, steps + [ReplayRead(key)], ReplayStart(key, again, now), max);
    steps := steps + [ReplayRead(key)] + [ReplayStart(key, again, now)];
    Extend(START, steps, ReplayFinish(key), max);
    steps := steps + [ReplayFinish(key)];
  }
}
