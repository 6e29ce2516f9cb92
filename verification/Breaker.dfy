/** The circuit breaker that cache reads, cache writes and the rate limiter share
    (backend/app/core/cache.py). Time is the monotonic clock, in seconds. */
module Breaker {
  const THRESHOLD: nat := 1
  const COOLDOWN: real := 30.0

  datatype Status = Status(failures: nat, openUntil: real)

  predicate IsOpen(b: Status, now: real) {
    b.openUntil > now
  }

  /** A failure reads the clock twice: for the test, then for the new deadline. */
  function AfterFailure(b: Status, tested: real, now: real): Status {
    var failures := b.failures + 1;
    Status(failures, if failures >= THRESHOLD && !IsOpen(b, tested) then now + COOLDOWN else b.openUntil)
  }

  function AfterSuccess(b: Status): Status {
    b.(failures := 0)
  }

  /** A guarded call from start to end: skipped while the breaker is open. */
  function AfterCall(b: Status, started: real, tested: real, now: real, failed: bool): Status {
    if IsOpen(b, started) then b else if failed then AfterFailure(b, tested, now) else AfterSuccess(b)
  }

  class CircuitBreaker {
    var failures: nat
    var openUntil: real

    constructor ()
      ensures Value() == Status(0, 0.0)
    {
      failures, openUntil := 0, 0.0;
    }

    ghost function Value(): Status
      reads this
    {
      Status(failures, openUntil)
    }

    predicate Open(now: real)
      reads this
    {
      openUntil > now
    }

    method RecordFailure(tested: real, now: real)
      modifies this
      ensures Value() == AfterFailure(old(Value()), tested, now)
    {
      failures := failures + 1;
      if failures >= THRESHOLD && !Open(tested) {
        openUntil := now + COOLDOWN;
      }
    }

    method RecordSuccess()
      modifies this
      ensures Value() == AfterSuccess(old(Value()))
    {
      if failures != 0 {
        failures := 0;
      }
    }
  }

  // ------------------------------------------------------------------ runs

  /** Guarded calls in flight, with the times at which the breaker opened and at which a
      call failed, newest first. */
  datatype State = State(b: Status, clock: real, inFlight: set<nat>, openings: seq<real>, failed: seq<real>)

  datatype Step =
    | Begin(call: nat, now: real)
    | Succeed(call: nat, now: real)
    | Fail(call: nat, tested: real, now: real)

  predicate Enabled(s: State, step: Step) {
    match step
    case Begin(call, now) => s.clock <= now && call !in s.inFlight
    case Succeed(call, now) => s.clock <= now && call in s.inFlight
    case Fail(call, tested, now) => s.clock <= tested <= now && call in s.inFlight
  }

  /** A call that finds the breaker open is skipped and never gets in flight. */
  function Apply(s: State, step: Step): State {
    match step
    case Begin(call, now) =>
      s.(clock := now, inFlight := if IsOpen(s.b, now) then s.inFlight else s.inFlight + {call})
    case Succeed(call, now) =>
      s.(b := AfterSuccess(s.b), clock := now, inFlight := s.inFlight - {call})
    case Fail(call, tested, now) =>
      State(AfterFailure(s.b, tested, now), now, s.inFlight - {call},
            if IsOpen(s.b, tested) then s.openings else [now] + s.openings,
            [now] + s.failed)
  }

  /** A guarded call that nothing interleaves with is its steps in a run. */
  lemma CallIsItsSteps(s: State, call: nat, started: real, tested: real, now: real, failed: bool)
    requires Enabled(s, Begin(call, started)) && started <= tested <= now
    ensures var begun := Apply(s, Begin(call, started));
            var end := if failed then Fail(call, tested, now) else Succeed(call, now);
            if IsOpen(s.b, started) then begun.b == AfterCall(s.b, started, tested, now, failed) && begun.inFlight == s.inFlight
            else Enabled(begun, end) && Apply(begun, end).b == AfterCall(s.b, started, tested, now, failed)
                 && Apply(begun, end).inFlight == s.inFlight
  {
  }

  const START := State(Status(0, 0.0), 0.0, {}, [], [])

  ghost predicate IsRun(s: State, steps: seq<Step>)
    decreases steps
  {
    steps == [] || (Enabled(s, steps[0]) && IsRun(Apply(s, steps[0]), steps[1..]))
  }

  ghost function Exec(s: State, steps: seq<Step>): State
    decreases steps
  {
    if steps == [] then s else Exec(Apply(s, steps[0]), steps[1..])
  }

  predicate Spaced(times: seq<real>) {
    forall i, j :: 0 <= i < j < |times| ==> times[i] - times[j] >= COOLDOWN
  }

  /** The deadline is always thirty seconds after the last opening: no straggler's
      success or failure has moved it. */
  predicate Inv(s: State) {
    && s.clock >= 0.0
    && Spaced(s.openings)
    && s.b.openUntil == (if s.openings == [] then 0.0 else s.openings[0] + COOLDOWN)
    && (s.openings != [] ==> s.openings[0] <= s.clock)
  }

  lemma {:induction false} RunKeepsInv(s: State, steps: seq<Step>)
    requires Inv(s) && IsRun(s, steps)
    ensures Inv(Exec(s, steps))
    decreases steps
  {
    if steps != [] {
      RunKeepsInv(Apply(s, steps[0]), steps[1..]);
    }
  }

  /** In every interleaving of calls, openings are at least a cooldown apart and every
      open period lasts exactly one cooldown from its opening. */
  lemma OpeningsAreSpaced(steps: seq<Step>)
    requires IsRun(START, steps)
    ensures var s := Exec(START, steps);
            && Spaced(s.openings)
            && (forall now :: now >= s.clock ==>
                 (IsOpen(s.b, now) <==> s.openings != [] && now < s.openings[0] + COOLDOWN))
  {
    RunKeepsInv(START, steps);
  }

  // ---- calls that do not overlap

  ghost predicate Sequential(s: State, steps: seq<Step>)
    decreases steps
  {
    steps == [] || ((steps[0].Begin? ==> s.inFlight == {}) && Sequential(Apply(s, steps[0]), steps[1..]))
  }

  /** Every failure then found the breaker closed, and opened it. */
  ghost predicate SequentialInv(s: State) {
    && Inv(s) && s.failed == s.openings
    && (s.inFlight != {} ==> (exists call :: s.inFlight == {call}) && !IsOpen(s.b, s.clock))
  }

  lemma {:induction false} SequentialRunKeepsInv(s: State, steps: seq<Step>)
    requires SequentialInv(s) && IsRun(s, steps) && Sequential(s, steps)
    ensures SequentialInv(Exec(s, steps))
    decreases steps
  {
    if steps != [] {
      var t := Apply(s, steps[0]);
      if steps[0].Begin? {
        assert t.inFlight == {} || t.inFlight == {steps[0].call};
      } else {
        var call :| s.inFlight == {call};
        assert t.inFlight == {};
      }
      SequentialRunKeepsInv(t, steps[1..]);
    }
  }

  function CountIn(times: seq<real>, lo: real, hi: real): nat {
    if times == [] then 0
    else (if lo <= times[0] <= hi then 1 else 0) + CountIn(times[1..], lo, hi)
  }

  /** Spaced times, newest first: k of them need a span of k-1 cooldowns. */
  lemma {:induction false} SpacedTimesAreFew(times: seq<real>, lo: real, hi: real)
    requires Spaced(times) && lo <= hi
    ensures CountIn(times, lo, hi) > 0 ==> (CountIn(times, lo, hi) - 1) as real * COOLDOWN <= hi - lo
    ensures times != [] && times[0] <= hi && CountIn(times, lo, hi) > 0 ==>
              (CountIn(times, lo, hi) - 1) as real * COOLDOWN <= times[0] - lo
    decreases times
  {
    if times != [] {
      SpacedTimesAreFew(times[1..], lo, hi);
      if lo <= times[0] <= hi && CountIn(times[1..], lo, hi) > 0 {
        assert times[1..][0] == times[1] && times[0] - times[1] >= COOLDOWN;
      }
      if times[0] < lo { NoneBelow(times, lo, hi); }
    }
  }

  lemma {:induction false} NoneBelow(times: seq<real>, lo: real, hi: real)
    requires Spaced(times) && times != [] && times[0] < lo
    ensures CountIn(times, lo, hi) == 0
    decreases times
  {
    if |times| > 1 {
      assert times[0] - times[1] >= COOLDOWN;
      NoneBelow(times[1..], lo, hi);
    }
  }

  /** An outage costs at most one slow call a cooldown: any span of length L of a
      sequential run holds at most floor(L / 30) + 1 failed calls. */
  lemma FailuresAreFew(steps: seq<Step>, from: real, length: real)
    requires IsRun(START, steps) && Sequential(START, steps) && length >= 0.0
    ensures CountIn(Exec(START, steps).failed, from, from + length) <= (length / COOLDOWN).Floor + 1
  {
    SequentialRunKeepsInv(START, steps);
    var failed := Exec(START, steps).failed;
    SpacedTimesAreFew(failed, from, from + length);
    var n := CountIn(failed, from, from + length);
    if n > 0 {
      assert (n - 1) as real <= length / COOLDOWN;
    }
  }
}
