/** Runs of the dispatcher: enqueues, worker steps, dead-letter writes and operator
    actions in any order. Each step is one effect on Redis, so a replay is three steps: it
    reads its entry, adds the job and removes the entry. */
module DispatchRuns {
  import opened Wrappers
  import opened Text
  import opened QueueIds
  import opened QueueStore

  type Pair = (Stage, string)

  /** The stored data, the calls in flight, and four history sets that no step reads: what was
      accepted, what completed or was discarded since a job was last added for it, and the
      queue jobs for which a dead-letter write was started. `reading` holds the replays that
      have read an entry, with its id and what they read, and `replaying` the ids of those that
      have added their job. A replay may stay in either for ever. */
  datatype State = State(
    queues: Queues, dlq: map<string, DlqEntry>, awaiting: set<DlqEntry>,
    reading: multiset<(string, DlqEntry)>, replaying: multiset<string>,
    accepted: set<Pair>, completed: set<Pair>, discarded: set<Pair>, deadLettered: set<(Stage, string)>)

  datatype Step =
    | Submit(r: Request)
    | Take(stage: Stage, id: string)
    | Settle(stage: Stage, id: string, response: Response)
    | Write(e: DlqEntry)
    | ReplayRead(key: string)
    | ReplayStart(key: string, e: DlqEntry, now: nat)
    | ReplayFinish(key: string)
    | ReplayAbandon(key: string)
    | Discard(key: string)
    | Trim(stage: Stage, id: string)

  function PairOf(j: Job): Pair {
    (j.data.stage, j.data.jobId)
  }

  predicate HasPair(e: DlqEntry) {
    e.stage.Some? && e.message.Some?
  }

  function EntryPair(e: DlqEntry): Pair
    requires HasPair(e)
  {
    (e.stage.value, e.message.value.jobId)
  }

  predicate InState(s: State, stage: Stage, id: string, state: JobState) {
    id in s.queues[stage].jobs && s.queues[stage].jobs[id].state == state
  }

  predicate Enabled(s: State, step: Step) {
    match step
    case Submit(r) => ValidRequest(r)
    case Take(stage, id) => InState(s, stage, id, Waiting)
    case Settle(stage, id, _) => InState(s, stage, id, Active) && s.queues[stage].jobs[id].calls != []
    case Write(e) => e in s.awaiting && HasPair(e)
    case ReplayRead(key) => key in s.dlq && Replayable(s.dlq[key])
    case ReplayStart(key, e, _) => (key, e) in s.reading && Replayable(e)
    case ReplayFinish(key) => key in s.replaying
    case ReplayAbandon(key) => key in s.replaying
    case Discard(key) => key in s.dlq && HasPair(s.dlq[key])
    case Trim(stage, id) => InState(s, stage, id, Completed) || InState(s, stage, id, Failed)
  }

  function Post1(s: State, p: Post): State {
    if p.id in s.queues[p.Stage()].jobs then s.(accepted := s.accepted + {PairOf(p.job)})
    else s.(queues := EnqueueOne(s.queues, p),
            accepted := s.accepted + {PairOf(p.job)},
            completed := s.completed - {PairOf(p.job)},
            discarded := s.discarded - {PairOf(p.job)},
            deadLettered := s.deadLettered - {(p.Stage(), p.id)})
  }

  function Settled(s: State, stage: Stage, id: string, threw: bool, max: nat): State
    requires id in s.queues[stage].jobs && s.queues[stage].jobs[id].calls != []
  {
    var q := SettleJob(s.queues[stage], id, threw, max);
    var started := if threw then ToDeadLetter(stage, id, q.jobs[id], max) else None;
    s.(queues := s.queues[stage := q],
       awaiting := if started.Some? then s.awaiting + {started.value} else s.awaiting,
       completed := if threw then s.completed else s.completed + {PairOf(q.jobs[id])},
       deadLettered := if started.Some? then s.deadLettered + {(stage, id)} else s.deadLettered)
  }

  function Trimmed(q: Queue, id: string): Queue {
    Queue(q.jobs - {id}, q.order)
  }

  function Apply(s: State, step: Step, max: nat): State
    requires Enabled(s, step)
  {
    match step
    case Submit(r) => Post1(s, PostOf(r))
    case Take(stage, id) => s.(queues := s.queues[stage := TakeJob(s.queues[stage], id)])
    case Settle(stage, id, response) => Settled(s, stage, id, Throws(response), max)
    case Write(e) => s.(dlq := WriteEntry(s.dlq, e), awaiting := s.awaiting - {e})
    case ReplayRead(key) => s.(reading := s.reading + multiset{(key, s.dlq[key])})
    case ReplayStart(key, e, now) =>
      Post1(s, ReplayPost(e, now)).(reading := s.reading - multiset{(key, e)}, replaying := s.replaying + multiset{key})
    case ReplayFinish(key) => s.(dlq := s.dlq - {key}, replaying := s.replaying - multiset{key})
    case ReplayAbandon(key) => s.(replaying := s.replaying - multiset{key})
    case Discard(key) => s.(dlq := s.dlq - {key}, discarded := s.discarded + {EntryPair(s.dlq[key])})
    case Trim(stage, id) => s.(queues := s.queues[stage := Trimmed(s.queues[stage], id)])
  }

  /** Posting a job leaves the entries alone, settling one the queues' other parts. */
  lemma PostFacts(s: State, p: Post)
    ensures var t := Post1(s, p);
            && t.dlq == s.dlq && t.awaiting == s.awaiting && t.reading == s.reading && t.replaying == s.replaying
            && t.accepted == s.accepted + {PairOf(p.job)}
  {
  }

  lemma SettledFacts(s: State, stage: Stage, id: string, threw: bool, max: nat)
    requires id in s.queues[stage].jobs && s.queues[stage].jobs[id].calls != []
    ensures var t, q := Settled(s, stage, id, threw, max), SettleJob(s.queues[stage], id, threw, max);
            && t.queues == s.queues[stage := q] && t.dlq == s.dlq && t.reading == s.reading && t.replaying == s.replaying
            && t.accepted == s.accepted && t.discarded == s.discarded && s.completed <= t.completed && s.awaiting <= t.awaiting
  {
    hide SettleJob;
  }

  /** The two orderings under which an operator's replay can lose a job are absent:
      a dead-letter write landing between the two calls of a replay of the same entry,
      and a replay whose id is still retained from one in the same millisecond. */
  predicate Orderly(s: State, step: Step)
    requires Enabled(s, step)
  {
    match step
    case Write(e) => EntryKey(e) !in s.replaying
    case ReplayStart(key, e, now) => ReplayPost(e, now).id !in s.queues[e.stage.value].jobs
    case _ => true
  }

  ghost predicate IsRun(s: State, steps: seq<Step>, max: nat, orderly: bool)
    decreases steps
  {
    steps == [] ||
    (Enabled(s, steps[0]) && (orderly ==> Orderly(s, steps[0])) && IsRun(Apply(s, steps[0], max), steps[1..], max, orderly))
  }

  ghost function Exec(s: State, steps: seq<Step>, max: nat): State
    decreases steps
  {
    if steps == [] || !Enabled(s, steps[0]) then s else Exec(Apply(s, steps[0], max), steps[1..], max)
  }

  // ------------------------------------------------------------------ attempts

  /** What Python has been sent for one queued job, by the state the job is in. */
  predicate JobOk(stage: Stage, j: Job, max: nat) {
    && j.data.stage == stage
    && (forall i :: 0 <= i < |j.calls| ==> j.calls[i].attempt == i + 1)
    && (forall i :: 0 <= i < |j.calls| - 1 ==> j.calls[i].failed)
    && match j.state
       case Waiting => |j.calls| == j.attemptsMade < max && AllFailed(j)
       case Active => |j.calls| == j.attemptsMade + 1 <= max && !j.calls[|j.calls| - 1].failed
       case Completed => |j.calls| == j.attemptsMade + 1 <= max && !j.calls[|j.calls| - 1].failed
       case Failed => |j.calls| == j.attemptsMade == max && AllFailed(j)
  }

  predicate AllFailed(j: Job) {
    forall i :: 0 <= i < |j.calls| ==> j.calls[i].failed
  }

  predicate EntryOk(e: DlqEntry, max: nat) {
    && HasPair(e) && e.message.value.stage == e.stage.value && e.attemptsMade == max
    && e.message.value.jobId != "" && '~' !in e.message.value.jobId
  }

  /** A queue id begins with the job id it was made from, so it has one pair. */
  predicate IdNames(id: string, jobId: string) {
    jobId != "" && '~' !in jobId && jobId + "~" <= id
  }

  lemma IdHasOnePair(id: string, j: string, j': string)
    requires IdNames(id, j) && IdNames(id, j')
    ensures j == j'
  {
    CutFirst(j, id[|j| + 1..], j', id[|j'| + 1..], '~');
  }

  /** A job is as JobOk says, and has had a dead-letter write exactly if it failed for good. */
  ghost predicate JobAt(queues: Queues, deadLettered: set<(Stage, string)>, stage: Stage, id: string, max: nat) {
    id in queues[stage].jobs ==>
      && JobOk(stage, queues[stage].jobs[id], max)
      && IdNames(id, queues[stage].jobs[id].data.jobId)
      && ((stage, id) in deadLettered <==> queues[stage].jobs[id].state == Failed)
  }

  ghost predicate JobsOk(s: State, max: nat) {
    forall stage: Stage, id :: JobAt(s.queues, s.deadLettered, stage, id, max)
  }

  ghost predicate EntriesOk(awaiting: set<DlqEntry>, dlq: map<string, DlqEntry>, max: nat) {
    && (forall e :: e in awaiting ==> EntryOk(e, max))
    && (forall k :: k in dlq ==> EntryOk(dlq[k], max) && k == EntryKey(dlq[k]))
  }

  ghost predicate ReadingOk(reading: multiset<(string, DlqEntry)>, max: nat) {
    forall x :: x in reading ==> EntryOk(x.1, max) && x.0 == EntryKey(x.1)
  }

  ghost predicate Base(s: State, max: nat) {
    JobsOk(s, max) && EntriesOk(s.awaiting, s.dlq, max) && ReadingOk(s.reading, max)
  }

  lemma TakeKeepsJobOk(stage: Stage, q: Queue, id: string, max: nat)
    requires id in q.jobs && JobOk(stage, q.jobs[id], max) && q.jobs[id].state == Waiting
    ensures JobOk(stage, TakeJob(q, id).jobs[id], max) && TakeJob(q, id).jobs[id].state == Active
    ensures TakeJob(q, id) == q.(jobs := q.jobs[id := TakeJob(q, id).jobs[id]])
    ensures TakeJob(q, id).jobs[id].data == q.jobs[id].data
  {
  }

  lemma SettleKeepsJobOk(stage: Stage, q: Queue, id: string, threw: bool, max: nat)
    requires id in q.jobs && JobOk(stage, q.jobs[id], max) && q.jobs[id].state == Active
    ensures JobOk(stage, SettleJob(q, id, threw, max).jobs[id], max)
    ensures var j := SettleJob(q, id, threw, max).jobs[id];
            && (j.state == Failed <==> threw && j.attemptsMade >= max)
            && (j.state == Completed <==> !threw) && j.state != Active && j.data == q.jobs[id].data
    ensures SettleJob(q, id, threw, max) == q.(jobs := q.jobs[id := SettleJob(q, id, threw, max).jobs[id]])
  {
  }

  lemma PostKeepsJobs(s: State, p: Post, max: nat)
    requires JobsOk(s, max) && JobOk(p.Stage(), p.job, max) && p.job.state == Waiting && IdNames(p.id, p.job.data.jobId)
    ensures JobsOk(Post1(s, p), max)
  {
    hide JobOk;
    forall stage: Stage, id
      ensures JobAt(Post1(s, p).queues, Post1(s, p).deadLettered, stage, id, max)
    {
      assert JobAt(s.queues, s.deadLettered, stage, id, max);
    }
  }

  /** One job changed in place; the rest of the store and its history stay. */
  lemma JobChangeKeepsJobs(s: State, stage: Stage, q: Queue, id: string, deadLettered: set<(Stage, string)>, max: nat)
    requires JobsOk(s, max) && id in q.jobs && JobOk(stage, q.jobs[id], max) && IdNames(id, q.jobs[id].data.jobId)
    requires forall i :: i in q.jobs && i != id ==> i in s.queues[stage].jobs && q.jobs[i] == s.queues[stage].jobs[i]
    requires (stage, id) in deadLettered <==> q.jobs[id].state == Failed
    requires forall x :: x != (stage, id) ==> (x in deadLettered <==> x in s.deadLettered)
    ensures JobsOk(s.(queues := s.queues[stage := q], deadLettered := deadLettered), max)
  {
    hide JobOk, IdNames;
    var s' := s.(queues := s.queues[stage := q], deadLettered := deadLettered);
    forall st: Stage, i
      ensures JobAt(s'.queues, s'.deadLettered, st, i, max)
    {
      assert JobAt(s.queues, s.deadLettered, st, i, max);
    }
  }

  lemma TrimKeepsJobs(s: State, stage: Stage, id: string, max: nat)
    requires JobsOk(s, max)
    ensures JobsOk(s.(queues := s.queues[stage := Trimmed(s.queues[stage], id)]), max)
  {
    hide JobOk;
    var s' := s.(queues := s.queues[stage := Trimmed(s.queues[stage], id)]);
    forall st: Stage, i
      ensures JobAt(s'.queues, s'.deadLettered, st, i, max)
    {
      assert JobAt(s.queues, s.deadLettered, st, i, max);
    }
  }

  lemma StepKeepsJobs(s: State, step: Step, max: nat)
    requires max >= 1 && Enabled(s, step) && Base(s, max)
    ensures JobsOk(Apply(s, step, max), max)
  {
    hide EnqueueId, ReplayId, DlqId, Throws, NewJob, JobOk, TakeJob, SettleJob, Post1, WriteEntry;
    match step
    case Submit(r) =>
      SubmitIsOk(r, max);
      PostKeepsJobs(s, PostOf(r), max);
    case ReplayStart(key, e, now) =>
      ReplayIsOk(e, now, max);
      PostKeepsJobs(s, ReplayPost(e, now), max);
    case Take(stage, id) =>
      assert JobAt(s.queues, s.deadLettered, stage, id, max);
      TakeKeepsJobOk(stage, s.queues[stage], id, max);
      JobChangeKeepsJobs(s, stage, TakeJob(s.queues[stage], id), id, s.deadLettered, max);
    case Settle(stage, id, response) =>
      assert JobAt(s.queues, s.deadLettered, stage, id, max);
      SettleKeepsJobOk(stage, s.queues[stage], id, Throws(response), max);
      JobChangeKeepsJobs(s, stage, SettleJob(s.queues[stage], id, Throws(response), max), id,
                         Apply(s, step, max).deadLettered, max);
    case Trim(stage, id) =>
      TrimKeepsJobs(s, stage, id, max);
    case _ =>
  }

  lemma ReplayIsOk(e: DlqEntry, now: nat, max: nat)
    requires max >= 1 && Replayable(e) && EntryOk(e, max)
    ensures var p := ReplayPost(e, now);
            JobOk(p.Stage(), p.job, max) && p.job.state == Waiting && PairOf(p.job) == EntryPair(e) && p.Stage() == e.stage.value &&
            IdNames(p.id, p.job.data.jobId)
  {
  }

  lemma SubmitIsOk(r: Request, max: nat)
    requires max >= 1 && ValidRequest(r)
    ensures JobOk(r.message.stage, NewJob(r), max) && NewJob(r).state == Waiting && NewJob(r).data == r.message
    ensures IdNames(EnqueueId(r.message), r.message.jobId)
  {
  }

  lemma FewerEntriesOk(awaiting: set<DlqEntry>, dlq: map<string, DlqEntry>, awaiting': set<DlqEntry>, dlq': map<string, DlqEntry>, max: nat)
    requires EntriesOk(awaiting, dlq, max) && awaiting' <= awaiting
    requires forall k :: k in dlq' ==> (k in dlq && dlq'[k] == dlq[k]) || (dlq'[k] in awaiting && k == EntryKey(dlq'[k]))
    ensures EntriesOk(awaiting', dlq', max)
  {
    hide EntryOk, EntryKey;
  }

  lemma StepKeepsEntries(s: State, step: Step, max: nat)
    requires max >= 1 && Enabled(s, step) && Base(s, max)
    ensures EntriesOk(Apply(s, step, max).awaiting, Apply(s, step, max).dlq, max)
  {
    hide Post1, Settled, JobsOk, ReadingOk, EntriesOk, PostOf, ReplayPost, Throws, EntryKey;
    match step
    case Submit(r) => PostFacts(s, PostOf(r));
    case ReplayStart(key, e, now) => PostFacts(s, ReplayPost(e, now));
    case Settle(stage, id, response) => SettledEntriesOk(s, stage, id, Throws(response), max);
    case _ => FewerEntriesOk(s.awaiting, s.dlq, Apply(s, step, max).awaiting, Apply(s, step, max).dlq, max);
  }

  lemma SettledEntriesOk(s: State, stage: Stage, id: string, threw: bool, max: nat)
    requires Base(s, max) && InState(s, stage, id, Active) && s.queues[stage].jobs[id].calls != []
    ensures EntriesOk(Settled(s, stage, id, threw, max).awaiting, Settled(s, stage, id, threw, max).dlq, max)
  {
    SettledEntryOk(s, stage, id, threw, max);
    SettledFacts(s, stage, id, threw, max);
    hide Settled, EntryOk, JobsOk;
  }

  lemma StepKeepsReading(s: State, step: Step, max: nat)
    requires Enabled(s, step) && Base(s, max)
    ensures ReadingOk(Apply(s, step, max).reading, max)
  {
    hide Post1, Settled, JobsOk, EntryOk, EntryKey, PostOf, ReplayPost, Throws;
    match step
    case Submit(r) => PostFacts(s, PostOf(r));
    case ReplayStart(key, e, now) => PostFacts(s, ReplayPost(e, now));
    case Settle(stage, id, response) => SettledFacts(s, stage, id, Throws(response), max);
    case _ =>
  }

  lemma SettledEntryOk(s: State, stage: Stage, id: string, threw: bool, max: nat)
    requires JobsOk(s, max) && InState(s, stage, id, Active)
    ensures s.queues[stage].jobs[id].calls != []
    ensures forall e :: e in Settled(s, stage, id, threw, max).awaiting ==>
      e in s.awaiting || (EntryOk(e, max) && EntryPair(e) == PairOf(s.queues[stage].jobs[id]))
  {
    assert JobAt(s.queues, s.deadLettered, stage, id, max);
    SettleKeepsJobOk(stage, s.queues[stage], id, threw, max);
  }

  lemma {:induction false} RunKeepsBase(s: State, steps: seq<Step>, max: nat)
    requires max >= 1 && Base(s, max) && IsRun(s, steps, max, false)
    ensures Base(Exec(s, steps, max), max)
    decreases steps
  {
    if steps != [] {
      StepKeepsJobs(s, steps[0], max);
      StepKeepsEntries(s, steps[0], max);
      StepKeepsReading(s, steps[0], max);
      RunKeepsBase(Apply(s, steps[0], max), steps[1..], max);
    }
  }

  lemma TakeKeepsData(q: Queue, id: string)
    requires id in q.jobs
    ensures TakeJob(q, id).jobs.Keys == q.jobs.Keys
    ensures forall i :: i in q.jobs ==> TakeJob(q, id).jobs[i].data == q.jobs[i].data
  {
  }

  lemma StepKeepsBase(s: State, step: Step, max: nat)
    requires max >= 1 && Enabled(s, step) && Base(s, max)
    ensures Base(Apply(s, step, max), max)
  {
    hide Apply, Enabled;
    StepKeepsJobs(s, step, max);
    StepKeepsEntries(s, step, max);
    StepKeepsReading(s, step, max);
  }

  ghost const START := State(map s: Stage | true :: EMPTY, map[], {}, multiset{}, multiset{}, {}, {}, {}, {})

  lemma StartIsBase(max: nat)
    ensures Base(START, max)
  {
  }

  /** Attempts 1, 2, ..., k with k at most the budget, all but the last failed; a dead-letter
      write exactly when the last attempt of the budget has failed. */
  predicate CountsUp(calls: seq<Call>, max: nat, deadLettered: bool) {
    && |calls| <= max
    && (forall i :: 0 <= i < |calls| ==> calls[i].attempt == i + 1)
    && (forall i :: 0 <= i < |calls| - 1 ==> calls[i].failed)
    && (deadLettered <==> calls != [] && |calls| == max && calls[|calls| - 1].failed)
  }

  lemma JobCountsUp(s: State, max: nat, stage: Stage, id: string)
    requires max >= 1 && JobsOk(s, max) && id in s.queues[stage].jobs
    ensures CountsUp(s.queues[stage].jobs[id].calls, max, (stage, id) in s.deadLettered)
  {
    assert JobAt(s.queues, s.deadLettered, stage, id, max);
  }

  /** What Python is sent for any queued job, over every run, orderly or not. */
  lemma AttemptsCountUp(steps: seq<Step>, max: nat, stage: Stage, id: string)
    requires max >= 1 && IsRun(START, steps, max, false)
    requires id in Exec(START, steps, max).queues[stage].jobs
    ensures var s := Exec(START, steps, max);
            CountsUp(s.queues[stage].jobs[id].calls, max, (stage, id) in s.deadLettered)
  {
    hide START, IsRun, Exec;
    StartIsBase(max);
    RunKeepsBase(START, steps, max);
    JobCountsUp(Exec(START, steps, max), max, stage, id);
  }

  /** The next stage is never enqueued by a worker. */
  lemma WorkersAddNothing(s: State, step: Step, max: nat)
    requires Enabled(s, step) && (step.Take? || step.Settle? || step.Write?)
    ensures forall stage: Stage :: Apply(s, step, max).queues[stage].jobs.Keys == s.queues[stage].jobs.Keys
    ensures forall stage: Stage :: Apply(s, step, max).queues[stage].order == s.queues[stage].order
  {
    hide Throws, DlqId;
  }
}
