/** The steps of a run are the dispatcher's own calls: a dispatcher taken through a run ends
    in the run's state, and what is proved of runs holds of it. */
module DispatchSteps {
  import opened Wrappers
  import opened QueueIds
  import opened QueueStore
  import opened QueueService
  import opened DispatchRuns
  import opened DispatchConservation
  import opened DispatchReplays

  /** The dispatcher stores what the state says. */
  ghost predicate Holds(d: Dispatcher, s: State)
    reads d
  {
    d.queues == s.queues && d.dlq == s.dlq && d.awaiting == s.awaiting
  }

  /** The same data after a step. */
  ghost predicate Stored(s: State, queues: Queues, dlq: map<string, DlqEntry>, awaiting: set<DlqEntry>) {
    s.queues == queues && s.dlq == dlq && s.awaiting == awaiting
  }

  lemma PostIsAdd(s: State, p: Post)
    ensures Post1(s, p).queues == EnqueueOne(s.queues, p)
  {
    SameQueues(Post1(s, p).queues, EnqueueOne(s.queues, p));
  }

  lemma SubmitIsEnqueue(s: State, r: Request, max: nat)
    requires ValidRequest(r)
    ensures Stored(Apply(s, Submit(r), max), EnqueueOne(s.queues, PostOf(r)), s.dlq, s.awaiting)
  {
    PostIsAdd(s, PostOf(r));
    PostFacts(s, PostOf(r));
    hide Post1, EnqueueOne, PostOf;
  }

  lemma ReplayStartIsAddReplay(s: State, key: string, e: DlqEntry, now: nat, max: nat)
    requires Enabled(s, ReplayStart(key, e, now)) && e.message.value.stage == e.stage.value
    ensures Stored(Apply(s, ReplayStart(key, e, now), max), ReplayAdd(s.queues, e, now), s.dlq, s.awaiting)
  {
    PostIsAdd(s, ReplayPost(e, now));
    PostFacts(s, ReplayPost(e, now));
    hide Post1, ReplayId;
  }

  lemma SettleIsSettle(s: State, stage: Stage, id: string, response: Response, max: nat)
    requires Enabled(s, Settle(stage, id, response))
    ensures var q := SettleJob(s.queues[stage], id, Throws(response), max);
            var started := if Throws(response) then ToDeadLetter(stage, id, q.jobs[id], max) else None;
            Stored(Apply(s, Settle(stage, id, response), max), s.queues[stage := q], s.dlq,
                   if started.Some? then s.awaiting + {started.value} else s.awaiting)
  {
    hide SettleJob, Throws, ToDeadLetter;
  }

  lemma ReadEntriesAreWhole(s: State, key: string, e: DlqEntry, max: nat)
    requires Base(s, max) && (key, e) in s.reading && Replayable(e)
    ensures e.stage.Some? && e.message.Some? && e.message.value.stage == e.stage.value
  {
  }

  lemma AwaitedIsWhole(s: State, e: DlqEntry)
    requires e in s.awaiting && HasPair(e)
    ensures e.stage.Some? && e.message.Some?
  {
  }

  /** One step of a run, done by the handler it stands for. Reading an entry and stopping
      between calls change nothing; retention is not the dispatcher's. */
  method Perform(d: Dispatcher, ghost s: State, step: Step)
    requires Holds(d, s) && d.maxAttempts >= 1 && Base(s, d.maxAttempts) && Enabled(s, step) && !step.Trim?
    modifies d
    ensures Holds(d, Apply(s, step, d.maxAttempts))
  {
    hide EnqueueId, ReplayId, DlqId, Throws, NewJob, PostOf, ReplayPost, Post1, Settled, TakeJob, SettleJob, ToDeadLetter,
      EnqueueOne, ReplayAdd, WriteEntry, Base, Replayable, HasPair, EntryPair, Trimmed;
    match step {
      case Submit(r) =>
        SubmitIsEnqueue(s, r, d.maxAttempts);
        var reply := d.Enqueue(r, Fine);
      case Take(stage, id) =>
        var message := d.Take(stage, id);
      case Settle(stage, id, response) =>
        SettleIsSettle(s, stage, id, response, d.maxAttempts);
        d.Settle(stage, id, response);
      case Write(e) =>
        AwaitedIsWhole(s, e);
        d.DeadLetter(e);
      case ReplayStart(key, e, now) =>
        ReadEntriesAreWhole(s, key, e, d.maxAttempts);
        ReplayStartIsAddReplay(s, key, e, now, d.maxAttempts);
        var id := d.AddReplay(e, now);
      case ReplayFinish(key) =>
        d.Remove(key);
      case Discard(key) =>
        var reply := d.Discard(key, Stop.Never);
      case _ =>
    }
  }

  /** A whole run: the dispatcher ends in its state, and if every removal was safe it has lost
      no accepted pair. */
  method Drive(d: Dispatcher, steps: seq<Step>)
    requires Holds(d, START) && d.maxAttempts >= 1
    requires IsRun(START, steps, d.maxAttempts, false) && forall step :: step in steps ==> !step.Trim?
    modifies d
    ensures Holds(d, Exec(START, steps, d.maxAttempts))
    ensures AllSafe(START, steps, d.maxAttempts) ==> Conserved(Exec(START, steps, d.maxAttempts))
  {
    hide START, Base, Enabled, Apply, AllSafe, Conserved, Holds;
    ghost var max, s := d.maxAttempts, START;
    StartIsBase(max);
    ghost var safe := AllSafe(START, steps, max);
    NothingIsLostIff(steps, max);
    for i := 0 to |steps|
      invariant d.maxAttempts == max && Holds(d, s) && Base(s, max)
      invariant IsRun(s, steps[i..], max, false)
      invariant Exec(s, steps[i..], max) == Exec(START, steps, max)
    {
      assert steps[i..][0] == steps[i] && steps[i..][1..] == steps[i + 1..];
      Perform(d, s, steps[i]);
      StepKeepsBase(s, steps[i], max);
      s := Apply(s, steps[i], max);
    }
    if safe { EndIsConserved(START, steps, max); }
  }

  lemma {:induction false} EndIsConserved(s: State, steps: seq<Step>, max: nat)
    requires IsRun(s, steps, max, false) && ConservedThroughout(s, steps, max)
    ensures Conserved(Exec(s, steps, max))
    decreases steps
  {
    hide Conserved, Apply, Enabled;
    if steps != [] { EndIsConserved(Apply(s, steps[0], max), steps[1..], max); }
  }

  // ------------------------------------------------------------------ a batch retried later

  predicate ByWorker(step: Step) {
    step.Take? || step.Settle? || step.Write?
  }

  lemma {:induction false} WorkersKeepIds(s: State, steps: seq<Step>, max: nat)
    requires IsRun(s, steps, max, false) && forall step :: step in steps ==> ByWorker(step)
    ensures forall stage: Stage :: SameIds(s.queues[stage], Exec(s, steps, max).queues[stage])
    decreases steps
  {
    hide Apply, Enabled;
    if steps != [] {
      assert steps[0] in steps;
      WorkersAddNothing(s, steps[0], max);
      WorkersKeepIds(Apply(s, steps[0], max), steps[1..], max);
    }
  }

  /** A batch of which some groups were added, then any amount of work on what was added, then
      the whole batch again: its queues hold the ids of one clean batch, every job the workers
      have touched stays as they left it, and the rest is as the clean batch adds it. */
  lemma RetryAfterWorkConverges(qs: Queues, ps: seq<Post>, first: Stage -> Fault, s: State, work: seq<Step>, max: nat, second: Stage -> Fault)
    requires s.queues == AfterBulk(qs, ps, first)
    requires IsRun(s, work, max, false) && forall step :: step in work ==> ByWorker(step)
    requires forall stage :: !second(stage).NotApplied?
    ensures var worked := Exec(s, work, max).queues;
            forall stage: Stage :: Converged(EnqueueAll(qs, ps)[stage], worked[stage], AfterBulk(worked, ps, second)[stage])
  {
    hide IsRun, Exec, AfterBulk, Converged;
    WorkersKeepIds(s, work, max);
    RetriedBulkConverges(qs, Exec(s, work, max).queues, ps, first, second);
  }
}
