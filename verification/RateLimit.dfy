/** The fixed-window rate limiter (backend/app/core/middleware.py): INCR and TTL go to
    Redis as one step, EXPIRE as another. Redis time is in milliseconds. */
module RateLimit {
  import Breaker

  /** A counter key; an expiry that has passed counts as no key at all. */
  datatype Counter = Gone | Live(count: nat, expiry: Expiry)
  datatype Expiry = Never | AtTime(at: int)

  function Seen(c: Counter, now: int): Counter {
    if c.Live? && c.expiry.AtTime? && c.expiry.at <= now then Gone else c
  }

  function Increment(c: Counter, now: int): Counter {
    match Seen(c, now)
    case Gone => Live(1, Never)
    case Live(n, expiry) => Live(n + 1, expiry)
  }

  /** TTL's reply: -1 without expiry, else the remaining time in rounded seconds. */
  function Ttl(c: Counter, now: int): int
    requires c.Live?
  {
    if c.expiry.Never? then -1 else (c.expiry.at - now + 500) / 1000
  }

  /** EXPIRE on a key that is not there does nothing. */
  function Rearm(c: Counter, now: int, window: nat): Counter {
    if Seen(c, now).Gone? then c else Live(c.count, AtTime(now + 1000 * window))
  }

  /** Whether the reply to INCR and TTL makes the request send an EXPIRE. */
  predicate MustArm(c: Counter, now: int)
    requires c.Live?
  {
    c.count == 1 || Ttl(c, now) < 0
  }

  /** How a Redis call fails: before it took effect, or with only the reply lost. */
  datatype Fault = NoFault | IncrFails(applied: bool) | ExpireFails(applied: bool)

  function Max(a: int, b: int): int {
    if a >= b then a else b
  }

  class RateLimiter {
    var counter: Counter
    const breaker: Breaker.CircuitBreaker

    constructor (breaker: Breaker.CircuitBreaker)
      ensures this.breaker == breaker && counter == Gone
    {
      this.breaker := breaker;
      counter := Gone;
    }

    /** `_consume`: `now` is Redis's clock, `tested` and `later` the two readings of the
        process clock that a failure takes. */
    method Consume(limit: int, window: nat, now: int, started: real, tested: real, later: real, fault: Fault)
      returns (allowed: bool, retryAfter: int)
      requires window > 0
      modifies this, breaker
      ensures old(breaker.Open(started)) ==>
                allowed && retryAfter == 0 && counter == old(counter) && breaker.Value() == old(breaker.Value())
      ensures !old(breaker.Open(started)) ==>
                var c := Increment(old(counter), now);
                var armed := Rearm(c, now, window);
                && counter == (match fault
                               case IncrFails(applied) => if applied then c else old(counter)
                               case ExpireFails(applied) => if MustArm(c, now) && applied then armed else c
                               case NoFault => if MustArm(c, now) then armed else c)
                && (var failed := fault.IncrFails? || (fault.ExpireFails? && MustArm(c, now));
                    && breaker.Value() == (if failed then Breaker.AfterFailure(old(breaker.Value()), tested, later)
                                           else Breaker.AfterSuccess(old(breaker.Value())))
                    && (allowed <==> failed || c.count <= limit))
      ensures allowed ==> retryAfter == 0
      ensures !allowed && old(counter.Live? && counter.expiry.AtTime? ==> counter.expiry.at <= now + 1000 * window) ==>
                1 <= retryAfter <= window
      ensures !allowed ==> TellsWait(counter, now, retryAfter)
    {
      var isOpen := breaker.Open(started);
      if isOpen { return true, 0; }
      if fault.IncrFails? {
        if fault.applied { counter := Increment(counter, now); }
        breaker.RecordFailure(tested, later);
        return true, 0;
      }
      counter := Increment(counter, now);
      var count, ttl := counter.count, Ttl(counter, now);
      if count == 1 || ttl < 0 {
        if fault.ExpireFails? {
          if fault.applied { counter := Rearm(counter, now, window); }
          breaker.RecordFailure(tested, later);
          return true, 0;
        }
        counter := Rearm(counter, now, window);
        ttl := window;
      }
      breaker.RecordSuccess();
      if count > limit { return false, Max(ttl, 1); }
      return true, 0;
    }
  }

  /** The wait told is the counter's remaining time to the nearest second, and at least one. */
  predicate TellsWait(c: Counter, now: int, retryAfter: int) {
    && c.Live? && c.expiry.AtTime? && retryAfter >= 1
    && c.expiry.at < now + 1000 * retryAfter + 500
    && (retryAfter > 1 ==> now + 1000 * retryAfter - 500 <= c.expiry.at)
  }

  /** A client that waits as told, and half a second for the rounding, finds a new lifetime;
      one that comes more than half a second before the told time still finds the old. */
  lemma ToldWaitIsRight(c: Counter, now: int, retryAfter: int, later: int)
    requires TellsWait(c, now, retryAfter)
    ensures later >= now + 1000 * retryAfter + 500 ==> Seen(c, later) == Gone && Increment(c, later) == Live(1, Never)
    ensures retryAfter > 1 && later < now + 1000 * retryAfter - 500 ==>
              Seen(c, later) == c && Increment(c, later) == Live(c.count + 1, c.expiry)
  {
  }

  // ------------------------------------------------------------------ runs

  /** One request counted: when, in which lifetime of the key, and at which count. */
  datatype Hit = Hit(time: int, life: nat, count: nat)

  /** `starts` holds the start of each lifetime of the key, `log` the hits, newest first,
      `arming` the requests that still have to send their EXPIRE, `crashed` how many died
      before they did. */
  datatype State = State(now: int, counter: Counter, starts: seq<int>, log: seq<Hit>, arming: set<nat>, crashed: nat)

  datatype Step = Tick(d: nat) | Incr(request: nat) | Arm(request: nat) | Crash(request: nat)

  predicate Enabled(s: State, step: Step) {
    match step
    case Tick(_) => true
    case Incr(request) => request !in s.arming
    case Arm(request) => request in s.arming
    case Crash(request) => request in s.arming
  }

  function Apply(s: State, step: Step, window: nat): State {
    match step
    case Tick(d) => s.(now := s.now + d)
    case Incr(request) =>
      var c := Increment(s.counter, s.now);
      var starts := if Seen(s.counter, s.now).Gone? then s.starts + [s.now] else s.starts;
      State(s.now, c, starts, [Hit(s.now, if starts == [] then 0 else |starts| - 1, c.count)] + s.log,
            if MustArm(c, s.now) then s.arming + {request} else s.arming, s.crashed)
    case Arm(request) => s.(counter := Rearm(s.counter, s.now, window), arming := s.arming - {request})
    case Crash(request) => s.(arming := s.arming - {request}, crashed := s.crashed + 1)
  }

  const START := State(0, Gone, [], [], {}, 0)

  ghost predicate IsRun(s: State, steps: seq<Step>, window: nat)
    decreases steps
  {
    steps == [] || (Enabled(s, steps[0]) && IsRun(Apply(s, steps[0], window), steps[1..], window))
  }

  ghost function Exec(s: State, steps: seq<Step>, window: nat): State
    decreases steps
  {
    if steps == [] then s else Exec(Apply(s, steps[0], window), steps[1..], window)
  }

  // ---- lifetimes

  /** Lifetimes start at least a window apart. */
  predicate StartsSpaced(starts: seq<int>, w: int) {
    forall i, j :: 0 <= i < j < |starts| ==> starts[j] >= starts[i] + w
  }

  predicate HitInLife(h: Hit, starts: seq<int>, now: int) {
    && h.life < |starts| && starts[h.life] <= h.time <= now
    && forall j :: h.life < j < |starts| ==> h.time < starts[j]
  }

  ghost predicate Lifetimes(s: State, window: nat) {
    var w := 1000 * window;
    && StartsSpaced(s.starts, w)
    && (forall i :: 0 <= i < |s.starts| ==> s.starts[i] <= s.now)
    && (forall h :: h in s.log ==> HitInLife(h, s.starts, s.now))
    && (s.counter.Gone? <==> s.starts == [])
    && (s.counter.Live? && s.counter.expiry.AtTime? ==>
          && s.counter.expiry.at >= s.starts[|s.starts| - 1] + w
          && forall h :: h in s.log ==> h.time < s.counter.expiry.at)
    && (s.counter.Live? && s.counter.expiry.Never? ==> s.arming != {} || s.crashed > 0)
  }

  lemma IncrKeepsLifetimes(s: State, request: nat, window: nat)
    requires window > 0 && Lifetimes(s, window)
    ensures Lifetimes(Apply(s, Incr(request), window), window)
  {
    var t := Apply(s, Incr(request), window);
    assert t.log[0].life == |t.starts| - 1;
    forall h | h in t.log
      ensures HitInLife(h, t.starts, t.now)
    {
      if h != t.log[0] { assert h in s.log; }
    }
    if t.counter.expiry.AtTime? {
      forall h | h in t.log
        ensures h.time < t.counter.expiry.at
      {
        if h != t.log[0] { assert h in s.log; }
      }
    } else {
      assert request in t.arming;
    }
  }

  lemma {:induction false} RunKeepsLifetimes(s: State, steps: seq<Step>, window: nat)
    requires window > 0 && Lifetimes(s, window) && IsRun(s, steps, window)
    ensures Lifetimes(Exec(s, steps, window), window)
    decreases steps
  {
    if steps != [] {
      var t := Apply(s, steps[0], window);
      match steps[0] {
        case Incr(request) => IncrKeepsLifetimes(s, request, window);
        case Crash(request) =>
        case Arm(request) =>
        case Tick(d) =>
      }
      RunKeepsLifetimes(t, steps[1..], window);
    }
  }

  // ---- what a lifetime admits

  function Admitted(log: seq<Hit>, life: nat, limit: int): nat {
    if log == [] then 0
    else (if log[0].life == life && log[0].count <= limit then 1 else 0) + Admitted(log[1..], life, limit)
  }

  function Min(a: int, b: int): int {
    if a <= b then a else b
  }

  /** The hits of a lifetime so far. */
  function HitsOf(log: seq<Hit>, life: nat): nat {
    if log == [] then 0 else (if log[0].life == life then 1 else 0) + HitsOf(log[1..], life)
  }

  /** Each hit carries its own number within its lifetime. */
  ghost predicate Numbered(log: seq<Hit>)
    decreases log
  {
    log == [] || (log[0].count == HitsOf(log, log[0].life) && Numbered(log[1..]))
  }

  /** So of every lifetime, over or not, exactly the first `limit` hits are admitted. */
  lemma {:induction false} NumberedAdmits(log: seq<Hit>, life: nat, limit: int)
    requires Numbered(log)
    ensures Admitted(log, life, limit) == Min(HitsOf(log, life), Max(limit, 0))
    decreases log
  {
    if log != [] { NumberedAdmits(log[1..], life, limit); }
  }

  /** The counter has the number of the last hit, and each lifetime its first at its start. */
  ghost predicate Counted(s: State) {
    && Numbered(s.log)
    && (s.counter.Gone? ==> s.starts == [])
    && (s.counter.Live? ==> s.starts != [] && s.counter.count == HitsOf(s.log, |s.starts| - 1))
    && (forall life: nat :: life >= |s.starts| ==> HitsOf(s.log, life) == 0)
    && (forall life: nat :: life < |s.starts| ==> Hit(s.starts[life], life, 1) in s.log)
  }

  lemma IncrKeepsCounted(s: State, request: nat, window: nat)
    requires Counted(s)
    ensures Counted(Apply(s, Incr(request), window))
  {
    var t := Apply(s, Incr(request), window);
    assert t.log[1..] == s.log;
    assert forall life: nat :: HitsOf(t.log, life) == (if t.log[0].life == life then 1 else 0) + HitsOf(s.log, life);
    forall life: nat | life < |t.starts|
      ensures Hit(t.starts[life], life, 1) in t.log
    {
      if life < |s.starts| { assert Hit(s.starts[life], life, 1) in s.log; }
    }
  }

  lemma {:induction false} RunKeepsCounted(s: State, steps: seq<Step>, window: nat)
    requires Counted(s) && IsRun(s, steps, window)
    ensures Counted(Exec(s, steps, window))
    decreases steps
  {
    if steps != [] {
      if steps[0].Incr? { IncrKeepsCounted(s, steps[0].request, window); }
      RunKeepsCounted(Apply(s, steps[0], window), steps[1..], window);
    }
  }

  function AdmittedIn(log: seq<Hit>, from: int, to: int, limit: int): nat {
    if log == [] then 0
    else (if from <= log[0].time <= to && log[0].count <= limit then 1 else 0) + AdmittedIn(log[1..], from, to, limit)
  }

  /** Hits in a span of one window belong to the same lifetime or to two that follow. */
  lemma TwoLifetimesAtMost(s: State, window: nat, g: Hit, h: Hit, from: int)
    requires window > 0 && Lifetimes(s, window) && g in s.log && h in s.log
    requires from <= g.time <= from + 1000 * window && from <= h.time <= from + 1000 * window
    ensures h.life <= g.life + 1
  {
    assert HitInLife(g, s.starts, s.now) && HitInLife(h, s.starts, s.now);
    assert g.life + 1 < |s.starts| ==> g.time < s.starts[g.life + 1];
  }

  lemma {:induction false} SplitByLifetime(log: seq<Hit>, from: int, to: int, limit: int, life: nat)
    requires forall h :: h in log && from <= h.time <= to ==> h.life == life || h.life == life + 1
    ensures AdmittedIn(log, from, to, limit) <= Admitted(log, life, limit) + Admitted(log, life + 1, limit)
  {
    if log != [] {
      assert log[0] in log;
      SplitByLifetime(log[1..], from, to, limit, life);
    }
  }

  lemma {:induction false} NoneAdmitted(log: seq<Hit>, from: int, to: int, limit: int)
    requires forall h :: h in log ==> !(from <= h.time <= to)
    ensures AdmittedIn(log, from, to, limit) == 0
  {
    if log != [] {
      assert log[0] in log;
      NoneAdmitted(log[1..], from, to, limit);
    }
  }

  /** The lifetimes that a span of one window touches are `first` and the one after it. */
  lemma SpanHasTwoLifetimes(s: State, window: nat, from: int, to: int, h: Hit) returns (first: nat)
    requires window > 0 && Lifetimes(s, window) && to <= from + 1000 * window
    requires h in s.log && from <= h.time <= to
    ensures first < |s.starts|
    ensures forall g :: g in s.log && from <= g.time <= to ==> g.life == first || g.life == first + 1
  {
    first := if exists g :: g in s.log && from <= g.time <= to && g.life < h.life then h.life - 1 else h.life;
    assert HitInLife(h, s.starts, s.now);
    forall g | g in s.log && from <= g.time <= to
      ensures g.life == first || g.life == first + 1
    {
      TwoLifetimesAtMost(s, window, g, h, from);
      TwoLifetimesAtMost(s, window, h, g, from);
      if first < h.life {
        var e :| e in s.log && from <= e.time <= to && e.life < h.life;
        TwoLifetimesAtMost(s, window, e, g, from);
        TwoLifetimesAtMost(s, window, e, h, from);
      }
    }
  }

  lemma SpanIsBounded(s: State, window: nat, limit: int, from: int)
    requires window > 0 && Lifetimes(s, window) && Counted(s)
    ensures AdmittedIn(s.log, from, from + 1000 * window, limit) <= 2 * Max(limit, 0)
  {
    var to := from + 1000 * window;
    if h :| h in s.log && from <= h.time <= to {
      var first := SpanHasTwoLifetimes(s, window, from, to, h);
      SplitByLifetime(s.log, from, to, limit, first);
      NumberedAdmits(s.log, first, limit);
      NumberedAdmits(s.log, first + 1, limit);
    } else {
      NoneAdmitted(s.log, from, to, limit);
    }
  }

  /** A lifetime of which an admitted hit lies outside the span spends less than its limit
      inside. */
  lemma {:induction false} OneOutside(log: seq<Hit>, from: int, to: int, limit: int, life: nat, out: Hit)
    requires forall h :: h in log && from <= h.time <= to ==> h.life == life || h.life == life + 1
    requires out in log && out.life == life && out.count <= limit && !(from <= out.time <= to)
    ensures AdmittedIn(log, from, to, limit) <= Admitted(log, life, limit) + Admitted(log, life + 1, limit) - 1
  {
    if log[0] == out {
      SplitByLifetime(log[1..], from, to, limit, life);
    } else {
      assert log[0] in log;
      OneOutside(log[1..], from, to, limit, life, out);
    }
  }

  lemma {:induction false} OnlyFirst(log: seq<Hit>, from: int, to: int, limit: int, life: nat)
    requires forall h :: h in log && from <= h.time <= to ==> h.life == life
    ensures AdmittedIn(log, from, to, limit) <= Admitted(log, life, limit)
  {
    if log != [] {
      assert log[0] in log;
      OnlyFirst(log[1..], from, to, limit, life);
    }
  }

  lemma HalfOpenSpanIsBounded(s: State, window: nat, limit: int, from: int)
    requires window > 0 && limit >= 1 && Lifetimes(s, window) && Counted(s)
    ensures AdmittedIn(s.log, from, from + 1000 * window - 1, limit) <= 2 * limit - 1
  {
    var to := from + 1000 * window - 1;
    if h :| h in s.log && from <= h.time <= to {
      var first := SpanHasTwoLifetimes(s, window, from, to, h);
      NumberedAdmits(s.log, first, limit);
      NumberedAdmits(s.log, first + 1, limit);
      if g :| g in s.log && from <= g.time <= to && g.life == first + 1 {
        assert HitInLife(g, s.starts, s.now);
        assert s.starts[first + 1] >= s.starts[first] + 1000 * window;
        OneOutside(s.log, from, to, limit, first, Hit(s.starts[first], first, 1));
      } else {
        OnlyFirst(s.log, from, to, limit, first);
      }
    } else {
      NoneAdmitted(s.log, from, to, limit);
    }
  }

  lemma StartIsFine(window: nat)
    ensures Lifetimes(START, window) && Counted(START)
  {
  }

  /** In every interleaving, crashes included: any span of one window admits at most twice
      the limit with both ends counted, and one less without the last millisecond. */
  lemma WindowIsBounded(steps: seq<Step>, window: nat, limit: int, from: int)
    requires window > 0 && IsRun(START, steps, window)
    ensures var s := Exec(START, steps, window);
            && AdmittedIn(s.log, from, from + 1000 * window, limit) <= 2 * Max(limit, 0)
            && (limit >= 1 ==> AdmittedIn(s.log, from, from + 1000 * window - 1, limit) <= 2 * limit - 1)
  {
    hide IsRun, Exec, Lifetimes, Counted, START;
    StartIsFine(window);
    RunKeepsLifetimes(START, steps, window);
    RunKeepsCounted(START, steps, window);
    SpanIsBounded(Exec(START, steps, window), window, limit, from);
    if limit >= 1 { HalfOpenSpanIsBounded(Exec(START, steps, window), window, limit, from); }
  }

  /** In every interleaving each lifetime of the key admits exactly its first `limit` hits,
      begins with a hit, and lasts at least a window. */
  lemma LifetimesAdmitTheirFirst(steps: seq<Step>, window: nat, limit: int, life: nat)
    requires window > 0 && IsRun(START, steps, window) && life < |Exec(START, steps, window).starts|
    ensures var s := Exec(START, steps, window);
            && Numbered(s.log)
            && Admitted(s.log, life, limit) == Min(HitsOf(s.log, life), Max(limit, 0))
            && Hit(s.starts[life], life, 1) in s.log
            && (life + 1 < |s.starts| ==> s.starts[life + 1] >= s.starts[life] + 1000 * window)
  {
    hide IsRun, Exec;
    RunKeepsLifetimes(START, steps, window);
    RunKeepsCounted(START, steps, window);
    NumberedAdmits(Exec(START, steps, window).log, life, limit);
  }

  /** A counter is without an expiry only while some request has still to send its EXPIRE
      or one has died before sending it; the next request then sends one itself. */
  lemma StuckCounterIsRearmed(steps: seq<Step>, window: nat, request: nat)
    requires window > 0 && IsRun(START, steps, window)
    requires var s := Exec(START, steps, window);
             s.counter.Live? && s.counter.expiry.Never? && request !in s.arming
    ensures var s := Exec(START, steps, window);
            && (s.arming != {} || s.crashed > 0)
            && var t := Apply(s, Incr(request), window);
            && Enabled(t, Arm(request))
            && Apply(t, Arm(request), window).counter == Live(s.counter.count + 1, AtTime(s.now + 1000 * window))
  {
    RunKeepsLifetimes(START, steps, window);
  }

  // ---- the bound is reached

  lemma {:induction false} Extend(s: State, steps: seq<Step>, step: Step, window: nat)
    requires IsRun(s, steps, window) && Enabled(Exec(s, steps, window), step)
    ensures IsRun(s, steps + [step], window)
    ensures Exec(s, steps + [step], window) == Apply(Exec(s, steps, window), step, window)
    decreases steps
  {
    if steps == [] {
      assert (steps + [step])[1..] == [];
    } else {
      Extend(Apply(s, steps[0], window), steps[1..], step, window);
      assert (steps + [step])[1..] == steps[1..] + [step];
    }
  }

  /** Armed for a full window at this moment, with so many hits in this lifetime. */
  ghost predicate Burning(s: State, window: nat, count: nat) {
    s.arming == {} && s.counter == Live(count, AtTime(s.now + 1000 * window))
  }

  /** The first request of a lifetime, which arms the counter. */
  lemma Ignite(steps: seq<Step>, window: nat, limit: int, from: int, to: int) returns (steps': seq<Step>)
    requires limit >= 1 && IsRun(START, steps, window)
    requires var s := Exec(START, steps, window); s.arming == {} && Seen(s.counter, s.now).Gone? && from <= s.now <= to
    ensures IsRun(START, steps', window) && Burning(Exec(START, steps', window), window, 1)
    ensures Exec(START, steps', window).now == Exec(START, steps, window).now
    ensures AdmittedIn(Exec(START, steps', window).log, from, to, limit)
            == AdmittedIn(Exec(START, steps, window).log, from, to, limit) + 1
  {
    hide IsRun, Exec;
    var s := Exec(START, steps, window);
    Extend(START, steps, Incr(0), window);
    Extend(START, steps + [Incr(0)], Arm(0), window);
    steps' := steps + [Incr(0)] + [Arm(0)];
    var t := Apply(s, Incr(0), window);
    assert t.log[1..] == s.log && t.arming == {0};
  }

  lemma {:induction false} Burst(steps: seq<Step>, window: nat, limit: int, count: nat, from: int, to: int) returns (steps': seq<Step>)
    requires window >= 1 && 1 <= count <= limit && IsRun(START, steps, window)
    requires var s := Exec(START, steps, window); Burning(s, window, count) && from <= s.now <= to
    ensures IsRun(START, steps', window) && Burning(Exec(START, steps', window), window, limit)
    ensures Exec(START, steps', window).now == Exec(START, steps, window).now
    ensures AdmittedIn(Exec(START, steps', window).log, from, to, limit)
            == AdmittedIn(Exec(START, steps, window).log, from, to, limit) + limit - count
    decreases limit - count
  {
    hide IsRun, Exec;
    steps' := steps;
    if count < limit {
      var s := Exec(START, steps, window);
      Extend(START, steps, Incr(0), window);
      var t := Apply(s, Incr(0), window);
      assert t.log[1..] == s.log;
      steps' := Burst(steps + [Incr(0)], window, limit, count + 1, from, to);
    }
  }

  /** The bound is reached whatever the limit and the window: a full burst at each end of a
      window. */
  lemma BoundIsReached(window: nat, limit: nat) returns (steps: seq<Step>)
    requires window >= 1 && limit >= 1
    ensures IsRun(START, steps, window) && AdmittedIn(Exec(START, steps, window).log, 0, 1000 * window, limit) == 2 * limit
  {
    var to := 1000 * window;
    assert IsRun(START, [], window) && Exec(START, [], window) == START;
    hide IsRun, Exec;
    steps := Ignite([], window, limit, 0, to);
    steps := Burst(steps, window, limit, 1, 0, to);
    Extend(START, steps, Tick(to), window);
    steps := Ignite(steps + [Tick(to)], window, limit, 0, to);
    steps := Burst(steps, window, limit, 1, 0, to);
  }
}
