/** What travels through the dispatcher: over every run, each stored message is one that was
    submitted, with every field as it was but the attempt. */
module DispatchMessages {
  import opened Wrappers
  import opened QueueIds
  import opened QueueStore
  import opened DispatchRuns

  /** A submitted message, perhaps with another attempt number. */
  ghost predicate From(known: set<Message>, m: Message) {
    exists n :: n in known && m == n.(attempt := m.attempt)
  }

  ghost predicate QueueFrom(q: Queue, known: set<Message>) {
    forall id :: id in q.jobs ==> From(known, q.jobs[id].data)
  }

  ghost predicate EntryFrom(e: DlqEntry, known: set<Message>) {
    e.message.Some? && From(known, e.message.value)
  }

  ghost predicate AllFrom(s: State, known: set<Message>) {
    && (forall stage: Stage :: QueueFrom(s.queues[stage], known))
    && (forall e :: e in s.awaiting ==> EntryFrom(e, known))
    && (forall k :: k in s.dlq ==> EntryFrom(s.dlq[k], known))
    && (forall x :: x in s.reading ==> EntryFrom(x.1, known))
  }

  function Brought(step: Step): set<Message> {
    if step.Submit? then {step.r.message} else {}
  }

  ghost function Submitted(steps: seq<Step>): set<Message> {
    if steps == [] then {} else Brought(steps[0]) + Submitted(steps[1..])
  }

  lemma FromMore(known: set<Message>, more: set<Message>, m: Message)
    requires From(known, m)
    ensures From(known + more, m)
  {
  }

  lemma AllFromMore(s: State, known: set<Message>, more: set<Message>)
    requires AllFrom(s, known)
    ensures AllFrom(s, known + more)
  {
    hide From;
    forall m | From(known, m) ensures From(known + more, m) { FromMore(known, more, m); }
  }

  lemma PostKeepsFrom(s: State, p: Post, known: set<Message>)
    requires AllFrom(s, known) && From(known, p.job.data)
    ensures AllFrom(Post1(s, p), known)
  {
    hide From;
  }

  /** The jobs of one stage move on, and keep their data. */
  lemma JobsKeepFrom(s: State, stage: Stage, q: Queue, known: set<Message>)
    requires AllFrom(s, known)
    requires forall id :: id in q.jobs ==> id in s.queues[stage].jobs && q.jobs[id].data == s.queues[stage].jobs[id].data
    ensures AllFrom(s.(queues := s.queues[stage := q]), known)
  {
    hide From;
    forall id | id in q.jobs
      ensures From(known, q.jobs[id].data)
    {
      assert QueueFrom(s.queues[stage], known);
    }
  }

  lemma SettleKeepsData(q: Queue, id: string, threw: bool, max: nat)
    requires id in q.jobs && q.jobs[id].calls != []
    ensures SettleJob(q, id, threw, max).jobs.Keys == q.jobs.Keys
    ensures forall i :: i in q.jobs ==> SettleJob(q, id, threw, max).jobs[i].data == q.jobs[i].data
  {
  }

  /** The entry that a failed job starts is that job's own. */
  lemma StartedEntryIs(s: State, stage: Stage, id: string, threw: bool, max: nat)
    requires id in s.queues[stage].jobs && s.queues[stage].jobs[id].calls != []
    ensures forall e :: e in Settled(s, stage, id, threw, max).awaiting ==>
              e in s.awaiting || (e.stage == Some(stage) && e.message == Some(s.queues[stage].jobs[id].data) && e.originalId == id)
  {
    SettleKeepsData(s.queues[stage], id, threw, max);
    hide SettleJob;
  }

  lemma SettleKeepsFrom(s: State, stage: Stage, id: string, threw: bool, max: nat, known: set<Message>)
    requires AllFrom(s, known) && id in s.queues[stage].jobs && s.queues[stage].jobs[id].calls != []
    ensures AllFrom(Settled(s, stage, id, threw, max), known)
  {
    hide SettleJob, From, Settled;
    var q, t := SettleJob(s.queues[stage], id, threw, max), Settled(s, stage, id, threw, max);
    SettleKeepsData(s.queues[stage], id, threw, max);
    StartedEntryIs(s, stage, id, threw, max);
    SettledFacts(s, stage, id, threw, max);
    assert From(known, s.queues[stage].jobs[id].data) by { assert QueueFrom(s.queues[stage], known); }
    JobsKeepFrom(s, stage, q, known);
    AwaitingFrom(s.(queues := t.queues), t, known);
  }

  lemma AwaitingFrom(s: State, t: State, known: set<Message>)
    requires AllFrom(s, known) && t.queues == s.queues && t.dlq == s.dlq && t.reading == s.reading
    requires forall e :: e in t.awaiting ==> e in s.awaiting || EntryFrom(e, known)
    ensures AllFrom(t, known)
  {
    hide From, QueueFrom, EntryFrom;
  }

  /** Entries only move, from the awaited to the stored and from there to the read. */
  lemma MovedEntriesKeepFrom(s: State, t: State, known: set<Message>)
    requires AllFrom(s, known) && t.queues == s.queues && t.awaiting <= s.awaiting
    requires forall k :: k in t.dlq ==> t.dlq[k] in s.awaiting || (k in s.dlq && t.dlq[k] == s.dlq[k])
    requires forall x :: x in t.reading ==> x in s.reading || (x.0 in s.dlq && x.1 == s.dlq[x.0])
    ensures AllFrom(t, known)
  {
    hide QueueFrom, EntryFrom;
  }

  lemma ReplayedFrom(e: DlqEntry, now: nat, known: set<Message>)
    requires Replayable(e) && EntryFrom(e, known)
    ensures From(known, ReplayPost(e, now).job.data)
  {
    hide ReplayId;
    var m := e.message.value;
    var n :| n in known && m == n.(attempt := m.attempt);
    assert m.(attempt := Some(1)) == n.(attempt := Some(1));
  }

  lemma WriteKeepsFrom(s: State, e: DlqEntry, known: set<Message>)
    requires AllFrom(s, known) && e in s.awaiting && HasPair(e)
    ensures AllFrom(s.(dlq := WriteEntry(s.dlq, e), awaiting := s.awaiting - {e}), known)
  {
    hide EntryKey, QueueFrom, EntryFrom;
    MovedEntriesKeepFrom(s, s.(dlq := WriteEntry(s.dlq, e), awaiting := s.awaiting - {e}), known);
  }

  lemma ReplayKeepsFrom(s: State, t: State, key: string, e: DlqEntry, now: nat, known: set<Message>)
    requires AllFrom(s, known) && (key, e) in s.reading && Replayable(e)
    requires t.queues == Post1(s, ReplayPost(e, now)).queues && t.dlq == s.dlq && t.awaiting == s.awaiting && t.reading <= s.reading
    ensures AllFrom(t, known)
  {
    hide AllFrom, From, Post1, EntryFrom;
    var p := ReplayPost(e, now);
    ReadEntryFrom(s, key, e, known);
    ReplayedFrom(e, now, known);
    PostKeepsFrom(s, p, known);
    PostFacts(s, p);
    hide ReplayPost;
    MovedEntriesKeepFrom(Post1(s, p), t, known);
  }

  lemma StepKeepsFrom(s: State, step: Step, max: nat, known: set<Message>)
    requires Enabled(s, step) && AllFrom(s, known) && Brought(step) <= known
    ensures AllFrom(Apply(s, step, max), known)
  {
    hide AllFrom, From, Throws, Post1, Settled, TakeJob, SettleJob, Trimmed, PostOf, ReplayPost, WriteEntry, Replayable, EntryPair;
    match step
    case Submit(r) =>
      assert From(known, PostOf(r).job.data) by { SubmittedFrom(r, known); }
      PostKeepsFrom(s, PostOf(r), known);
    case ReplayStart(key, e, now) =>
      PostFacts(s, ReplayPost(e, now));
      ReplayKeepsFrom(s, Apply(s, step, max), key, e, now, known);
    case Take(stage, id) =>
      TakeKeepsData(s.queues[stage], id);
      JobsKeepFrom(s, stage, TakeJob(s.queues[stage], id), known);
    case Settle(stage, id, response) => SettleKeepsFrom(s, stage, id, Throws(response), max, known);
    case Trim(stage, id) => TrimKeepsFrom(s, stage, id, known);
    case Write(e) => WriteKeepsFrom(s, e, known);
    case _ => MovedEntriesKeepFrom(s, Apply(s, step, max), known);
  }

  lemma SubmittedFrom(r: Request, known: set<Message>)
    requires r.message in known
    ensures From(known, PostOf(r).job.data)
  {
    hide EnqueueId;
  }

  lemma ReadEntryFrom(s: State, key: string, e: DlqEntry, known: set<Message>)
    requires AllFrom(s, known) && (key, e) in s.reading
    ensures EntryFrom(e, known)
  {
    hide From, EntryFrom;
  }

  lemma TrimKeepsFrom(s: State, stage: Stage, id: string, known: set<Message>)
    requires AllFrom(s, known)
    ensures AllFrom(s.(queues := s.queues[stage := Trimmed(s.queues[stage], id)]), known)
  {
    JobsKeepFrom(s, stage, Trimmed(s.queues[stage], id), known);
  }

  lemma {:induction false} RunKeepsFrom(s: State, steps: seq<Step>, max: nat, known: set<Message>)
    requires AllFrom(s, known) && IsRun(s, steps, max, false)
    ensures AllFrom(Exec(s, steps, max), known + Submitted(steps))
    decreases steps
  {
    hide AllFrom, Apply, Enabled;
    if steps == [] {
      AllFromMore(s, known, {});
    } else {
      var more := Brought(steps[0]);
      AllFromMore(s, known, more);
      StepKeepsFrom(s, steps[0], max, known + more);
      RunKeepsFrom(Apply(s, steps[0], max), steps[1..], max, known + more);
      assert known + more + Submitted(steps[1..]) == known + Submitted(steps);
    }
  }

  /** Over every run, orderly or not: what waits in a queue, what a worker sends, what is
      dead-lettered and what a replay adds again is a submitted message in all its fields but
      the attempt: job, stage, priority, dispatch and payload. */
  lemma NothingIsMadeUp(steps: seq<Step>, max: nat, stage: Stage, id: string, key: string)
    requires IsRun(START, steps, max, false)
    ensures var s := Exec(START, steps, max);
            && (id in s.queues[stage].jobs ==> From(Submitted(steps), s.queues[stage].jobs[id].data))
            && (key in s.dlq ==> s.dlq[key].message.Some? && From(Submitted(steps), s.dlq[key].message.value))
  {
    RunKeepsFrom(START, steps, max, {});
    assert {} + Submitted(steps) == Submitted(steps);
    hide From, IsRun, Exec;
    assert QueueFrom(Exec(START, steps, max).queues[stage], Submitted(steps));
  }
}
