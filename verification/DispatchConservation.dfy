/** No accepted job is lost: what every step keeps, and what holds over whole runs. */
module DispatchConservation {
  import opened Wrappers
  import opened Text
  import opened QueueIds
  import opened QueueStore
  import opened DispatchRuns

  ghost predicate LiveJob(q: Queue, id: string, p: Pair) {
    id in q.jobs && PairOf(q.jobs[id]) == p && (q.jobs[id].state == Waiting || q.jobs[id].state == Active)
  }

  ghost predicate Live(s: State, p: Pair) {
    exists id :: LiveJob(s.queues[p.0], id, p)
  }

  ghost predicate Awaits(s: State, p: Pair) {
    exists e :: e in s.awaiting && HasPair(e) && EntryPair(e) == p
  }

  ghost predicate DeadLettered(s: State, p: Pair) {
    exists k :: k in s.dlq && HasPair(s.dlq[k]) && EntryPair(s.dlq[k]) == p
  }

  /** Accounted for without the help of a dead-letter entry. */
  ghost predicate Elsewhere(s: State, p: Pair) {
    Live(s, p) || p in s.completed || p in s.discarded || Awaits(s, p)
  }

  /** No accepted pair is lost: it is queued or active, or has completed since, or an
      operator discarded it, or it is dead-lettered or about to be. A job that merely sits
      in BullMQ's failed list does not count, because retention trims that list. */
  ghost predicate Conserved(s: State) {
    forall p :: p in s.accepted ==> Elsewhere(s, p) || DeadLettered(s, p)
  }

  ghost predicate JobsAccepted(s: State) {
    && (forall stage: Stage, id :: id in s.queues[stage].jobs ==> PairOf(s.queues[stage].jobs[id]) in s.accepted)
    && (forall e :: e in s.awaiting && HasPair(e) ==> EntryPair(e) in s.accepted)
    && (forall k :: k in s.dlq && HasPair(s.dlq[k]) ==> EntryPair(s.dlq[k]) in s.accepted)
    && (forall x :: x in s.reading && HasPair(x.1) ==> EntryPair(x.1) in s.accepted)
  }

  /** While a replay is between its calls, its entry is not all that is left of the pair. */
  ghost predicate ReplaysCovered(s: State) {
    forall k :: k in s.replaying && k in s.dlq && HasPair(s.dlq[k]) ==> Elsewhere(s, EntryPair(s.dlq[k]))
  }

  ghost predicate Inv(s: State, max: nat) {
    Base(s, max) && JobsAccepted(s) && Conserved(s) && ReplaysCovered(s)
  }

  lemma PostLives(s: State, p: Post)
    requires p.id !in s.queues[p.Stage()].jobs && p.job.state == Waiting
    ensures Live(Post1(s, p), PairOf(p.job))
  {
    assert LiveJob(Post1(s, p).queues[p.Stage()], p.id, PairOf(p.job));
  }

  lemma PostKeepsElsewhere(s: State, p: Post, pair: Pair)
    requires Elsewhere(s, pair) && p.job.state == Waiting
    ensures Elsewhere(Post1(s, p), pair)
  {
    var s' := Post1(s, p);
    if id :| LiveJob(s.queues[pair.0], id, pair) {
      assert LiveJob(s'.queues[pair.0], id, pair);
    } else if e :| e in s.awaiting && HasPair(e) && EntryPair(e) == pair {
      assert e in s'.awaiting;
    } else if pair == PairOf(p.job) && p.id !in s.queues[p.Stage()].jobs {
      PostLives(s, p);
    }
  }

  lemma TakeKeepsElsewhere(s: State, stage: Stage, id: string, pair: Pair)
    requires InState(s, stage, id, Waiting) && Elsewhere(s, pair)
    ensures Elsewhere(s.(queues := s.queues[stage := TakeJob(s.queues[stage], id)]), pair)
  {
    var s' := s.(queues := s.queues[stage := TakeJob(s.queues[stage], id)]);
    if i :| LiveJob(s.queues[pair.0], i, pair) {
      assert LiveJob(s'.queues[pair.0], i, pair);
    } else if e :| e in s.awaiting && HasPair(e) && EntryPair(e) == pair {
      assert e in s'.awaiting;
    }
  }

  lemma SettleKeepsElsewhere(s: State, stage: Stage, id: string, threw: bool, max: nat, pair: Pair)
    requires JobsOk(s, max) && InState(s, stage, id, Active) && s.queues[stage].jobs[id].calls != []
    requires Elsewhere(s, pair)
    ensures Elsewhere(Settled(s, stage, id, threw, max), pair)
  {
    var s' := Settled(s, stage, id, threw, max);
    SettledFacts(s, stage, id, threw, max);
    if PairOf(s.queues[stage].jobs[id]) == pair {
      SettledPairIsKnown(s, stage, id, threw, max);
    } else {
      hide Settled, JobsOk;
      SettleKeepsOthersLive(s, stage, id, threw, max, s', pair);
      if e :| e in s.awaiting && HasPair(e) && EntryPair(e) == pair { assert e in s'.awaiting; }
    }
  }

  lemma SettleKeepsOthersLive(s: State, stage: Stage, id: string, threw: bool, max: nat, t: State, pair: Pair)
    requires id in s.queues[stage].jobs && s.queues[stage].jobs[id].calls != [] && PairOf(s.queues[stage].jobs[id]) != pair
    requires t.queues == s.queues[stage := SettleJob(s.queues[stage], id, threw, max)]
    ensures Live(s, pair) ==> Live(t, pair)
  {
    if i :| LiveJob(s.queues[pair.0], i, pair) { assert LiveJob(t.queues[pair.0], i, pair); }
  }

  /** The settled job itself is waiting again, completed, or on its way to the DLQ. */
  lemma SettledPairIsKnown(s: State, stage: Stage, id: string, threw: bool, max: nat)
    requires JobsOk(s, max) && InState(s, stage, id, Active) && s.queues[stage].jobs[id].calls != []
    ensures Elsewhere(Settled(s, stage, id, threw, max), PairOf(s.queues[stage].jobs[id]))
  {
    hide JobOk, SettleJob;
    var s', q := Settled(s, stage, id, threw, max), SettleJob(s.queues[stage], id, threw, max);
    var pair := PairOf(s.queues[stage].jobs[id]);
    assert JobAt(s.queues, s.deadLettered, stage, id, max);
    assert pair.0 == stage by { StageOf(stage, s.queues[stage].jobs[id], max); }
    SettleKeepsJobOk(stage, s.queues[stage], id, threw, max);
    if q.jobs[id].state == Waiting {
      assert LiveJob(s'.queues[stage], id, pair);
    } else if threw {
      FailedIsExhausted(s, stage, id, max);
      var e := DlqEntry(Some(stage), Some(q.jobs[id].data), q.jobs[id].attemptsMade, id);
      assert e in s'.awaiting && EntryPair(e) == pair;
    }
  }

  lemma StageOf(stage: Stage, j: Job, max: nat)
    requires JobOk(stage, j, max)
    ensures j.data.stage == stage
  {
  }

  /** BullMQ's verdict and the handler's own test agree. */
  lemma FailedIsExhausted(s: State, stage: Stage, id: string, max: nat)
    requires JobsOk(s, max) && InState(s, stage, id, Active)
    ensures s.queues[stage].jobs[id].calls != [] && JobOk(stage, s.queues[stage].jobs[id], max)
    ensures var j := SettleJob(s.queues[stage], id, true, max).jobs[id];
            j.state == Failed <==> ToDeadLetter(stage, id, j, max).Some?
  {
    assert JobAt(s.queues, s.deadLettered, stage, id, max);
  }

  /** Nothing but the landing of its own dead-letter write takes a pair out of Elsewhere. */
  lemma StepKeepsElsewhere(s: State, step: Step, max: nat, pair: Pair)
    requires max >= 1 && Enabled(s, step) && Base(s, max) && Elsewhere(s, pair)
    requires step.Write? ==> EntryPair(step.e) != pair
    ensures Elsewhere(Apply(s, step, max), pair)
  {
    hide EnqueueId, ReplayId, DlqId, Throws, NewJob, JobOk, TakeJob, SettleJob, Post1, WriteEntry;
    match step
    case Submit(r) =>
      SubmitIsOk(r, max);
      PostKeepsElsewhere(s, PostOf(r), pair);
    case ReplayStart(key, e, now) =>
      PostKeepsElsewhere(s, ReplayPost(e, now), pair);
      SameElsewhere(Post1(s, ReplayPost(e, now)), Apply(s, step, max), pair);
    case Take(stage, id) => TakeKeepsElsewhere(s, stage, id, pair);
    case Settle(stage, id, response) => SettleKeepsElsewhere(s, stage, id, Throws(response), max, pair);
    case Trim(stage, id) =>
      if i :| LiveJob(s.queues[pair.0], i, pair) {
        assert LiveJob(Apply(s, step, max).queues[pair.0], i, pair);
      } else if e :| e in s.awaiting && HasPair(e) && EntryPair(e) == pair {
        assert e in Apply(s, step, max).awaiting;
      }
    case Write(w) =>
      if e :| e in s.awaiting && HasPair(e) && EntryPair(e) == pair {
        assert e in Apply(s, step, max).awaiting;
      } else {
        SameLive(s, Apply(s, step, max), pair);
      }
    case _ => SameElsewhere(s, Apply(s, step, max), pair);
  }

  lemma SameLive(s: State, t: State, pair: Pair)
    requires t.queues == s.queues
    ensures Live(s, pair) <==> Live(t, pair)
  {
  }

  lemma SameElsewhere(s: State, t: State, pair: Pair)
    requires t.queues == s.queues && t.awaiting == s.awaiting
    requires s.completed <= t.completed && s.discarded <= t.discarded
    requires Elsewhere(s, pair)
    ensures Elsewhere(t, pair)
  {
    SameLive(s, t, pair);
    if e :| e in s.awaiting && HasPair(e) && EntryPair(e) == pair { assert e in t.awaiting; }
  }

  lemma PostKeepsAccepted(s: State, p: Post)
    requires JobsAccepted(s) && p.Stage() == p.job.data.stage
    ensures JobsAccepted(Post1(s, p))
  {
  }

  lemma JobChangeKeepsAccepted(s: State, stage: Stage, q: Queue, t: State)
    requires JobsAccepted(s)
    requires forall id :: id in q.jobs ==> id in s.queues[stage].jobs && q.jobs[id].data == s.queues[stage].jobs[id].data
    requires t.queues == s.queues[stage := q] && t.accepted == s.accepted && t.dlq == s.dlq && t.reading == s.reading
    requires forall e :: e in t.awaiting ==> e in s.awaiting || (HasPair(e) && EntryPair(e) in s.accepted)
    ensures JobsAccepted(t)
  {
  }

  /** Entries only move, from the awaited to the stored and from there to the read. */
  lemma MovedEntriesKeepAccepted(s: State, t: State)
    requires JobsAccepted(s) && t.queues == s.queues && t.accepted == s.accepted && t.awaiting <= s.awaiting
    requires forall k :: k in t.dlq ==> t.dlq[k] in s.awaiting || (k in s.dlq && t.dlq[k] == s.dlq[k])
    requires forall x :: x in t.reading ==> x in s.reading || (x.0 in s.dlq && x.1 == s.dlq[x.0])
    ensures JobsAccepted(t)
  {
  }

  lemma SettleKeepsAccepted(s: State, stage: Stage, id: string, threw: bool, max: nat)
    requires Base(s, max) && JobsAccepted(s) && InState(s, stage, id, Active) && s.queues[stage].jobs[id].calls != []
    ensures JobsAccepted(Settled(s, stage, id, threw, max))
  {
    var q := SettleJob(s.queues[stage], id, threw, max);
    assert JobAt(s.queues, s.deadLettered, stage, id, max);
    SettleKeepsJobOk(stage, s.queues[stage], id, threw, max);
    SettledEntryOk(s, stage, id, threw, max);
    SettledFacts(s, stage, id, threw, max);
    hide Settled, SettleJob, JobOk, JobsOk, EntryOk;
    JobChangeKeepsAccepted(s, stage, q, Settled(s, stage, id, threw, max));
  }

  lemma TakeKeepsAccepted(s: State, stage: Stage, id: string)
    requires JobsAccepted(s) && InState(s, stage, id, Waiting)
    ensures JobsAccepted(s.(queues := s.queues[stage := TakeJob(s.queues[stage], id)]))
  {
    hide TakeJob, JobsAccepted;
    var q := TakeJob(s.queues[stage], id);
    TakeKeepsData(s.queues[stage], id);
    JobChangeKeepsAccepted(s, stage, q, s.(queues := s.queues[stage := q]));
  }

  lemma ReplayKeepsAccepted(s: State, t: State, e: DlqEntry, now: nat)
    requires JobsAccepted(s) && Replayable(e)
    requires t.queues == Post1(s, ReplayPost(e, now)).queues && t.accepted == Post1(s, ReplayPost(e, now)).accepted
    requires t.dlq == s.dlq && t.awaiting == s.awaiting && t.reading <= s.reading
    ensures JobsAccepted(t)
  {
    var p := ReplayPost(e, now);
    PostKeepsAccepted(s, p);
    PostFacts(s, p);
    hide Post1, JobsAccepted;
    MovedEntriesKeepAccepted(Post1(s, p), t);
  }

  lemma StepKeepsAccepted(s: State, step: Step, max: nat)
    requires max >= 1 && Enabled(s, step) && Base(s, max) && JobsAccepted(s)
    ensures JobsAccepted(Apply(s, step, max))
  {
    hide EntryKey, Throws, TakeJob, Post1, Settled, JobsOk, EntriesOk, JobsAccepted, Trimmed, PostOf, ReplayPost, WriteEntry, HasPair, EntryPair;
    match step
    case Submit(r) => PostKeepsAccepted(s, PostOf(r));
    case ReplayStart(key, e, now) =>
      PostFacts(s, ReplayPost(e, now));
      ReplayKeepsAccepted(s, Apply(s, step, max), e, now);
    case Take(stage, id) => TakeKeepsAccepted(s, stage, id);
    case Settle(stage, id, response) => SettleKeepsAccepted(s, stage, id, Throws(response), max);
    case Trim(stage, id) => TrimKeepsAccepted(s, stage, id);
    case Write(e) => WriteKeepsAccepted(s, e);
    case _ => MovedEntriesKeepAccepted(s, Apply(s, step, max));
  }

  /** What is accepted stays accepted, so nothing is conserved by being forgotten. */
  lemma AcceptedOnlyGrows(s: State, step: Step, max: nat)
    requires Enabled(s, step)
    ensures s.accepted <= Apply(s, step, max).accepted
  {
    hide Throws, TakeJob, Post1, Settled, PostOf, ReplayPost, WriteEntry;
    match step
    case Submit(r) => PostFacts(s, PostOf(r));
    case ReplayStart(key, e, now) => PostFacts(s, ReplayPost(e, now));
    case Settle(stage, id, response) => SettledFacts(s, stage, id, Throws(response), max);
    case _ =>
  }

  lemma WriteKeepsAccepted(s: State, e: DlqEntry)
    requires JobsAccepted(s) && e in s.awaiting && HasPair(e)
    ensures JobsAccepted(s.(dlq := WriteEntry(s.dlq, e), awaiting := s.awaiting - {e}))
  {
    var t := s.(dlq := WriteEntry(s.dlq, e), awaiting := s.awaiting - {e});
    assert forall k :: k in t.dlq ==> t.dlq[k] == e || (k in s.dlq && t.dlq[k] == s.dlq[k]);
    hide WriteEntry, JobsAccepted;
    MovedEntriesKeepAccepted(s, t);
  }

  lemma TrimKeepsAccepted(s: State, stage: Stage, id: string)
    requires JobsAccepted(s)
    ensures JobsAccepted(s.(queues := s.queues[stage := Trimmed(s.queues[stage], id)]))
  {
    JobChangeKeepsAccepted(s, stage, Trimmed(s.queues[stage], id), s.(queues := s.queues[stage := Trimmed(s.queues[stage], id)]));
  }

  /** After a write its pair is dead-lettered, by this entry or by the one that was there. */
  lemma WriteDeadLetters(s: State, e: DlqEntry, max: nat)
    requires EntriesOk(s.awaiting, s.dlq, max) && e in s.awaiting
    ensures DeadLettered(s.(dlq := WriteEntry(s.dlq, e), awaiting := s.awaiting - {e}), EntryPair(e))
  {
    hide DlqId;
    var key, dlq := EntryKey(e), WriteEntry(s.dlq, e);
    if key in s.dlq { SameKeySamePair(e, s.dlq[key], max); }
    assert key in dlq && HasPair(dlq[key]) && EntryPair(dlq[key]) == EntryPair(e);
  }

  /** With one attempt budget for every job, a pair has one dead-letter id. */
  lemma SameKeySamePair(e: DlqEntry, f: DlqEntry, max: nat)
    requires EntryOk(e, max) && EntryOk(f, max)
    ensures EntryKey(e) == EntryKey(f) <==> EntryPair(e) == EntryPair(f)
  {
    DlqIdsAgree(e.stage.value, e.message.value.jobId, e.attemptsMade, f.stage.value, f.message.value.jobId, f.attemptsMade);
  }

  /** The one step that can lose a pair is the removal that ends a replay. It is safe when
      the entry it removes is not all that is left of the pair. */
  ghost predicate Safe(s: State, step: Step) {
    step.ReplayFinish? && step.key in s.dlq && HasPair(s.dlq[step.key]) ==> Elsewhere(s, EntryPair(s.dlq[step.key]))
  }

  lemma StepKeepsPair(s: State, step: Step, max: nat, p: Pair)
    requires max >= 1 && Enabled(s, step) && Safe(s, step) && Base(s, max) && JobsAccepted(s) && Conserved(s)
    requires p in Apply(s, step, max).accepted
    ensures Elsewhere(Apply(s, step, max), p) || DeadLettered(Apply(s, step, max), p)
  {
    hide EnqueueId, ReplayId, DlqId, Throws, NewJob, JobOk, TakeJob, SettleJob, WriteEntry;
    var s' := Apply(s, step, max);
    if p !in s.accepted {
      NewPairLives(s, step, max, p);
    } else if step.Write? && EntryPair(step.e) == p {
      WriteDeadLetters(s, step.e, max);
    } else if Elsewhere(s, p) {
      StepKeepsElsewhere(s, step, max, p);
    } else {
      var k :| k in s.dlq && HasPair(s.dlq[k]) && EntryPair(s.dlq[k]) == p;
      StepKeepsEntry(s, step, max, k);
    }
  }

  lemma KnownIdKnownPair(s: State, p: Post, max: nat)
    requires JobsOk(s, max) && JobsAccepted(s)
    requires p.id in s.queues[p.Stage()].jobs && IdNames(p.id, p.job.data.jobId)
    ensures PairOf(p.job) in s.accepted
  {
    assert JobAt(s.queues, s.deadLettered, p.Stage(), p.id, max);
    IdHasOnePair(p.id, p.job.data.jobId, s.queues[p.Stage()].jobs[p.id].data.jobId);
  }

  lemma NewPairLives(s: State, step: Step, max: nat, p: Pair)
    requires max >= 1 && Enabled(s, step) && Base(s, max) && JobsAccepted(s)
    requires p in Apply(s, step, max).accepted && p !in s.accepted
    ensures Live(Apply(s, step, max), p)
  {
    hide EntryKey, Throws, PostOf, Post1, Settled, EntriesOk, WriteEntry, NewJob, Live, LiveJob;
    match step
    case Submit(r) => NewSubmitLives(s, r, max);
    case ReplayStart(key, e, now) =>
      assert EntryPair(e) in s.accepted;
      ReplayIsOk(e, now, max);
      PostFacts(s, ReplayPost(e, now));
    case Settle(stage, id, response) => SettledFacts(s, stage, id, Throws(response), max);
    case _ =>
  }

  lemma NewSubmitLives(s: State, r: Request, max: nat)
    requires max >= 1 && ValidRequest(r) && Base(s, max) && JobsAccepted(s)
    ensures var p := (r.message.stage, r.message.jobId);
            Post1(s, PostOf(r)).accepted == s.accepted + {p} && (p in s.accepted || Live(Post1(s, PostOf(r)), p))
  {
    SubmitIsOk(r, max);
    PostFacts(s, PostOf(r));
    hide EnqueueId, NewJob, Post1, JobOk, EntriesOk, JobsOk, Live;
    if PostOf(r).id in s.queues[r.message.stage].jobs {
      KnownIdKnownPair(s, PostOf(r), max);
    } else {
      PostLives(s, PostOf(r));
    }
  }

  lemma StepKeepsEntry(s: State, step: Step, max: nat, k: string)
    requires max >= 1 && Enabled(s, step) && Safe(s, step) && Base(s, max)
    requires k in s.dlq
    requires !Elsewhere(s, EntryPair(s.dlq[k]))
    ensures Elsewhere(Apply(s, step, max), EntryPair(s.dlq[k])) || DeadLettered(Apply(s, step, max), EntryPair(s.dlq[k]))
  {
    hide EntryKey, Throws, PostOf, ReplayPost, Post1, Settled, JobsOk, ReadingOk, Live, Awaits;
    assert HasPair(s.dlq[k]);
    match step
    case Submit(r) => PostFacts(s, PostOf(r));
    case ReplayStart(key, e, now) => PostFacts(s, ReplayPost(e, now));
    case Settle(stage, id, response) => SettledFacts(s, stage, id, Throws(response), max);
    case _ =>
    var s' := Apply(s, step, max);
    assert k in s'.dlq ==> s'.dlq[k] == s.dlq[k];
  }

  lemma StepKeepsReplay(s: State, step: Step, max: nat, k: string)
    requires max >= 1 && Enabled(s, step) && Orderly(s, step) && Inv(s, max)
    requires var s' := Apply(s, step, max); k in s'.replaying && k in s'.dlq && HasPair(s'.dlq[k])
    ensures Elsewhere(Apply(s, step, max), EntryPair(Apply(s, step, max).dlq[k]))
  {
    hide EnqueueId, ReplayId, DlqId, Throws, NewJob, JobsOk, Settled, Post1, JobsAccepted, Conserved, Live, Awaits;
    var s' := Apply(s, step, max);
    match step {
      case Submit(r) => PostFacts(s, PostOf(r));
      case ReplayStart(key, e, now) => PostFacts(s, ReplayPost(e, now));
      case Settle(stage, id, response) => SettledFacts(s, stage, id, Throws(response), max);
      case _ =>
    }
    if step.ReplayStart? && step.key == k {
      ReplayIsOk(step.e, step.now, max);
      SameKeySamePair(step.e, s.dlq[k], max);
      var post := ReplayPost(step.e, step.now);
      PostLives(s, post);
      SameLive(Post1(s, post), s', EntryPair(s.dlq[k]));
    } else {
      assert k in s.replaying;
      if step.Write? && EntryKey(step.e) !in s.dlq {
        assert k != EntryKey(step.e);
      }
      assert k in s.dlq && s'.dlq[k] == s.dlq[k];
      if step.Write? { SameKeySamePair(step.e, s.dlq[k], max); }
      StepKeepsElsewhere(s, step, max, EntryPair(s.dlq[k]));
    }
  }

  lemma StepKeepsInv(s: State, step: Step, max: nat)
    requires max >= 1 && Enabled(s, step) && Orderly(s, step) && Inv(s, max)
    ensures Inv(Apply(s, step, max), max)
  {
    StepKeepsJobs(s, step, max);
    StepKeepsEntries(s, step, max);
    StepKeepsReading(s, step, max);
    StepKeepsAccepted(s, step, max);
    assert Safe(s, step);
    forall p | p in Apply(s, step, max).accepted { StepKeepsPair(s, step, max, p); }
    var s' := Apply(s, step, max);
    forall k | k in s'.replaying && k in s'.dlq && HasPair(s'.dlq[k]) { StepKeepsReplay(s, step, max, k); }
  }

  lemma {:induction false} RunKeepsInv(s: State, steps: seq<Step>, max: nat)
    requires max >= 1 && Inv(s, max) && IsRun(s, steps, max, true)
    ensures Inv(Exec(s, steps, max), max)
    decreases steps
  {
    if steps != [] {
      StepKeepsInv(s, steps[0], max);
      RunKeepsInv(Apply(s, steps[0], max), steps[1..], max);
    }
  }

  lemma StartIsFine(max: nat)
    requires max >= 1
    ensures Inv(START, max)
  {
  }

  /** Over every orderly run no accepted pair is lost, wherever replays stop and however
      retention trims finished jobs. */
  lemma NoPairIsLost(steps: seq<Step>, max: nat)
    requires max >= 1 && IsRun(START, steps, max, true)
    ensures Conserved(Exec(START, steps, max))
  {
    StartIsFine(max);
    RunKeepsInv(START, steps, max);
  }

  // ---- what holds of unorderly runs too, as long as retention trims nothing

  ghost predicate HasJob(s: State, p: Pair) {
    exists id :: id in s.queues[p.0].jobs && PairOf(s.queues[p.0].jobs[id]) == p
  }

  ghost predicate AllHaveJobs(s: State) {
    forall p :: p in s.accepted ==> HasJob(s, p)
  }

  lemma PostKeepsJob(s: State, post: Post, p: Pair)
    requires HasJob(s, p)
    ensures HasJob(Post1(s, post), p)
  {
    var id :| id in s.queues[p.0].jobs && PairOf(s.queues[p.0].jobs[id]) == p;
    assert id in Post1(s, post).queues[p.0].jobs && PairOf(Post1(s, post).queues[p.0].jobs[id]) == p;
  }

  /** The jobs of one stage move on, and keep their data. */
  lemma JobsMoveOn(s: State, t: State, stage: Stage, q: Queue, p: Pair)
    requires t.queues == s.queues[stage := q] && HasJob(s, p)
    requires forall id :: id in s.queues[stage].jobs ==> id in q.jobs && q.jobs[id].data == s.queues[stage].jobs[id].data
    ensures HasJob(t, p)
  {
    var id :| id in s.queues[p.0].jobs && PairOf(s.queues[p.0].jobs[id]) == p;
    assert id in t.queues[p.0].jobs && PairOf(t.queues[p.0].jobs[id]) == p;
  }

  lemma SameQueuesHaveJob(s: State, t: State, p: Pair)
    requires t.queues == s.queues && HasJob(s, p)
    ensures HasJob(t, p)
  {
  }

  lemma StepKeepsJob(s: State, step: Step, max: nat, p: Pair)
    requires Enabled(s, step) && !step.Trim? && HasJob(s, p)
    ensures HasJob(Apply(s, step, max), p)
  {
    hide Throws, PostOf, ReplayPost, Post1, Settled, HasJob;
    match step
    case Submit(r) => PostKeepsJob(s, PostOf(r), p);
    case ReplayStart(key, e, now) =>
      PostKeepsJob(s, ReplayPost(e, now), p);
      SameQueuesHaveJob(Post1(s, ReplayPost(e, now)), Apply(s, step, max), p);
    case Take(stage, id) => JobsMoveOn(s, Apply(s, step, max), stage, TakeJob(s.queues[stage], id), p);
    case Settle(stage, id, response) =>
      SettledFacts(s, stage, id, Throws(response), max);
      JobsMoveOn(s, Apply(s, step, max), stage, SettleJob(s.queues[stage], id, Throws(response), max), p);
    case Trim(_, _) =>
    case _ => SameQueuesHaveJob(s, Apply(s, step, max), p);
  }

  lemma {:induction false} RunKeepsAJob(s: State, steps: seq<Step>, max: nat)
    requires max >= 1 && Base(s, max) && JobsAccepted(s) && AllHaveJobs(s)
    requires IsRun(s, steps, max, false) && forall step :: step in steps ==> !step.Trim?
    ensures AllHaveJobs(Exec(s, steps, max))
    decreases steps
  {
    if steps != [] {
      var t := Apply(s, steps[0], max);
      assert steps[0] in steps;
      StepKeepsJobs(s, steps[0], max);
      StepKeepsEntries(s, steps[0], max);
      StepKeepsReading(s, steps[0], max);
      StepKeepsAccepted(s, steps[0], max);
      forall p | p in t.accepted
        ensures HasJob(t, p)
      {
        if p in s.accepted { StepKeepsJob(s, steps[0], max, p); } else { NewPairLives(s, steps[0], max, p); LiveHasJob(t, p); }
      }
      RunKeepsAJob(t, steps[1..], max);
    }
  }

  lemma LiveHasJob(s: State, p: Pair)
    requires Live(s, p)
    ensures HasJob(s, p)
  {
    var id :| LiveJob(s.queues[p.0], id, p);
  }

  /** Without trimming, every accepted pair keeps a job in its stage's queue, waiting,
      active, completed or failed, whatever the order of the steps. */
  lemma AcceptedPairsKeepAJob(steps: seq<Step>, max: nat)
    requires max >= 1 && IsRun(START, steps, max, false) && forall step :: step in steps ==> !step.Trim?
    ensures AllHaveJobs(Exec(START, steps, max))
  {
    StartIsFine(max);
    RunKeepsAJob(START, steps, max);
  }
}
