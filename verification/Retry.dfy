/** The retry engine around provider calls (backend/app/ai/resilience.py). Time is in
    seconds and passes only in attempts and sleeps. */
module Retry {
  import opened Wrappers

  datatype Reason = TimedOut | RateLimited | Transport | Server

  /** An exception by what the classification looks at. `Other` covers every type that is
      told apart by name, cancellation included. */
  datatype Failure =
    | TimeoutError
    | ProviderRateLimitError
    | ProviderUnavailableError
    | ProviderError(retryable: bool)
    | Other(name: string, statusCode: Option<int>)

  const TRANSPORT_NAMES: set<string> := {
    "APIConnectionError", "APITimeoutError", "ConnectError", "ConnectTimeout", "ReadTimeout", "RemoteProtocolError", "PoolTimeout"
  }

  predicate Contains(s: string, part: string) {
    part <= s || (s != "" && Contains(s[1..], part))
  }

  function Classify(e: Failure): Option<Reason> {
    match e
    case TimeoutError => Some(TimedOut)
    case ProviderRateLimitError => Some(RateLimited)
    case ProviderUnavailableError => Some(Server)
    case ProviderError(retryable) => if retryable then Some(Server) else None
    case Other(name, status) =>
      if name in TRANSPORT_NAMES then Some(if Contains(name, "Timeout") then TimedOut else Transport)
      else if name == "RateLimitError" then Some(RateLimited)
      else if name in {"InternalServerError", "APIStatusError"} && status.Some? && status.value >= 500 then Some(Server)
      else None
  }

  lemma {:induction false} ContainsAt(s: string, part: string, i: nat)
    requires i + |part| <= |s| && s[i..i + |part|] == part
    ensures Contains(s, part)
  {
    if i > 0 {
      assert s[1..][i - 1..i - 1 + |part|] == part;
      ContainsAt(s[1..], part, i - 1);
    } else {
      assert s[..|part|] == part;
    }
  }

  lemma {:induction false} ContainsFirst(s: string, part: string)
    requires part != "" && Contains(s, part)
    ensures part[0] in s
  {
    if !(part <= s) {
      ContainsFirst(s[1..], part);
      assert s == [s[0]] + s[1..];
    }
  }

  lemma TimeoutNames(name: string)
    requires name in TRANSPORT_NAMES
    ensures Contains(name, "Timeout") <==> name in {"APITimeoutError", "ConnectTimeout", "ReadTimeout", "PoolTimeout"}
  {
    hide Contains;
    assert "Timeout"[0] == 'T';
    if Contains(name, "Timeout") {
      ContainsFirst(name, "Timeout");
      assert 'T' !in "APIConnectionError" && 'T' !in "ConnectError" && 'T' !in "RemoteProtocolError";
    }
    if name == "APITimeoutError" {
      assert name[3..10] == "Timeout";
      ContainsAt(name, "Timeout", 3);
    } else if name == "ConnectTimeout" {
      assert name[7..14] == "Timeout";
      ContainsAt(name, "Timeout", 7);
    } else if name == "ReadTimeout" || name == "PoolTimeout" {
      assert name[4..11] == "Timeout";
      ContainsAt(name, "Timeout", 4);
    }
  }

  /** What is retried: transport failures by name, of which the four timeouts count as such,
      the two rate limits, the provider's own verdict, and answers of 500 and above. A refusal
      below 500, an unknown exception and a cancellation are not. */
  lemma RetriedIff(name: string, status: Option<int>)
    ensures Classify(Other(name, status)).Some? <==>
              || name in TRANSPORT_NAMES || name == "RateLimitError"
              || (name in {"InternalServerError", "APIStatusError"} && status.GetOr(0) >= 500)
    ensures Classify(Other(name, status)) == Some(TimedOut) <==>
              name in {"APITimeoutError", "ConnectTimeout", "ReadTimeout", "PoolTimeout"}
    ensures Classify(Other(name, status)) == Some(RateLimited) <==> name == "RateLimitError"
  {
    hide Contains;
    if name in TRANSPORT_NAMES { TimeoutNames(name); }
  }

  function Pow2(n: nat): real {
    if n == 0 then 1.0 else 2.0 * Pow2(n - 1)
  }

  function Min(a: real, b: real): real {
    if a <= b then a else b
  }

  function Max(a: real, b: real): real {
    if a >= b then a else b
  }

  const CAP: real := 60.0

  /** Full jitter: `draw` in [0, 1] is where in the range the random delay falls. */
  function BackoffDelay(attempt: nat, base: real, cap: real, draw: real): real {
    Min(cap, base * Pow2(if attempt == 0 then 0 else attempt - 1)) * draw
  }

  datatype Config = Config(
    attemptTimeout: real, maxAttempts: Option<int>, settingsRetries: int, settingsBackoff: Option<real>, deadline: Option<real>)

  function Allowed(c: Config): (n: nat)
    ensures n >= 1
  {
    var n := c.maxAttempts.GetOr(c.settingsRetries + 1);
    if n >= 1 then n else 1
  }

  /** A configured zero is falsy and becomes the default. */
  function Base(c: Config): (base: real)
    ensures base != 0.0
    ensures c.settingsBackoff.Some? && c.settingsBackoff.value != 0.0 ==> base == c.settingsBackoff.value
    ensures c.settingsBackoff.GetOr(0.0) == 0.0 ==> base == 1.0
  {
    var configured := c.settingsBackoff.GetOr(1.0);
    if configured == 0.0 then 1.0 else configured
  }

  datatype Attempt<T> = Returns(value: T, seconds: real) | Raises(error: Failure, seconds: real)

  datatype Verdict<T> = Returned(result: T) | Raised(last: Failure)

  /** Why the call ended. */
  datatype Why = Succeeded | NotRetryable | Exhausted | PastDeadline

  datatype Ending<T> = Ending(verdict: Verdict<T>, why: Why, attempts: nat, reasons: seq<Reason>, seconds: real)

  /** A negative sleep returns at once. */
  function Slept(delay: real): real {
    Max(delay, 0.0)
  }

  /** What the call does from a given attempt on. */
  function From<T>(c: Config, op: nat -> Attempt<T>, draw: nat -> real, attempt: nat, spent: real, reasons: seq<Reason>): Ending<T>
    requires 1 <= attempt <= Allowed(c)
    decreases Allowed(c) - attempt
  {
    var a := op(attempt);
    var now := spent + a.seconds;
    if a.Returns? then Ending(Returned(a.value), Succeeded, attempt, reasons, now)
    else
      var reason := Classify(a.error);
      var delay := BackoffDelay(attempt, Base(c), CAP, draw(attempt));
      if reason.None? then Ending(Raised(a.error), NotRetryable, attempt, reasons, now)
      else if attempt >= Allowed(c) then Ending(Raised(a.error), Exhausted, attempt, reasons, now)
      else if c.deadline.Some? && now + delay + c.attemptTimeout > c.deadline.value then
        Ending(Raised(a.error), PastDeadline, attempt, reasons, now)
      else From(c, op, draw, attempt + 1, now + Slept(delay), reasons + [reason.value])
  }

  class CallOutcome {
    var attempts: nat
    var retries: nat
    var totalSeconds: real
    var lastReason: Option<Reason>
    var reasons: seq<Reason>

    constructor ()
      ensures attempts == 0 && retries == 0 && totalSeconds == 0.0 && lastReason == None && reasons == []
    {
      attempts, retries, totalSeconds, lastReason, reasons := 0, 0, 0.0, None, [];
    }
  }

  method CallWithRetries<T>(c: Config, op: nat -> Attempt<T>, draw: nat -> real) returns (verdict: Verdict<T>, outcome: CallOutcome)
    ensures fresh(outcome)
    ensures var e := From(c, op, draw, 1, 0.0, []);
            && verdict == e.verdict && outcome.attempts == e.attempts && outcome.reasons == e.reasons
            && outcome.retries == |e.reasons| && outcome.totalSeconds == e.seconds
            && outcome.lastReason == if e.reasons == [] then None else Some(e.reasons[|e.reasons| - 1])
  {
    var allowed, base := Allowed(c), Base(c);
    outcome := new CallOutcome();
    verdict := Raised(Other("RuntimeError", None));
    var clock := 0.0;
    for attempt := 1 to allowed + 1
      invariant attempt <= allowed
      invariant fresh(outcome)
      invariant From(c, op, draw, attempt, clock, outcome.reasons) == From(c, op, draw, 1, 0.0, [])
      invariant outcome.retries == |outcome.reasons|
      invariant outcome.lastReason == if outcome.reasons == [] then None else Some(outcome.reasons[|outcome.reasons| - 1])
    {
      outcome.attempts := attempt;
      var a := op(attempt);
      clock := clock + a.seconds;
      if a.Returns? {
        outcome.totalSeconds := clock;
        return Returned(a.value), outcome;
      }
      var reason := Classify(a.error);
      if reason.None? || attempt >= allowed {
        outcome.totalSeconds := clock;
        return Raised(a.error), outcome;
      }
      var delay := BackoffDelay(attempt, base, CAP, draw(attempt));
      if c.deadline.Some? && clock + delay + c.attemptTimeout > c.deadline.value {
        outcome.totalSeconds := clock;
        return Raised(a.error), outcome;
      }
      outcome.retries := outcome.retries + 1;
      outcome.lastReason := Some(reason.value);
      outcome.reasons := outcome.reasons + [reason.value];
      clock := clock + Slept(delay);
    }
    assert false;
  }

  // ------------------------------------------------------------------ what ends a call

  /** Each of the first k attempts failed with the retryable reason recorded for it. */
  ghost predicate FailedWith<T>(op: nat -> Attempt<T>, k: nat, reasons: seq<Reason>) {
    |reasons| == k && forall i :: 1 <= i <= k ==> op(i).Raises? && Classify(op(i).error) == Some(reasons[i - 1])
  }

  /** How an ending answers for the attempts that were made. */
  ghost predicate Accounted<T>(c: Config, op: nat -> Attempt<T>, draw: nat -> real, e: Ending<T>) {
    && 1 <= e.attempts <= Allowed(c)
    && FailedWith(op, e.attempts - 1, e.reasons)
    && var last := op(e.attempts);
    && (e.why.Succeeded? <==> last.Returns?)
    && (e.why.NotRetryable? <==> last.Raises? && Classify(last.error).None?)
    && (e.why.Exhausted? <==> last.Raises? && Classify(last.error).Some? && e.attempts == Allowed(c))
    && (e.why.PastDeadline? ==>
          && c.deadline.Some?
          && e.seconds + BackoffDelay(e.attempts, Base(c), CAP, draw(e.attempts)) + c.attemptTimeout > c.deadline.value)
    && e.verdict == if last.Returns? then Returned(last.value) else Raised(last.error)
  }

  lemma {:induction false} FromAccounts<T>(c: Config, op: nat -> Attempt<T>, draw: nat -> real, attempt: nat, spent: real, reasons: seq<Reason>)
    requires 1 <= attempt <= Allowed(c) && FailedWith(op, attempt - 1, reasons)
    ensures Accounted(c, op, draw, From(c, op, draw, attempt, spent, reasons))
    decreases Allowed(c) - attempt
  {
    hide Classify, BackoffDelay;
    var a := op(attempt);
    var delay := BackoffDelay(attempt, Base(c), CAP, draw(attempt));
    if a.Raises? && Classify(a.error).Some? && attempt < Allowed(c) &&
       !(c.deadline.Some? && spent + a.seconds + delay + c.attemptTimeout > c.deadline.value) {
      FromAccounts(c, op, draw, attempt + 1, spent + a.seconds + Slept(delay), reasons + [Classify(a.error).value]);
    }
  }

  /** Attempts lie in 1..n; every failure before the last was retryable and its reason is
      on record; the call succeeds exactly with its last attempt, and raises only that
      attempt's error, for one of three reasons. */
  lemma CallIsAccounted<T>(c: Config, op: nat -> Attempt<T>, draw: nat -> real)
    ensures Accounted(c, op, draw, From(c, op, draw, 1, 0.0, []))
    ensures var e := From(c, op, draw, 1, 0.0, []); |e.reasons| == e.attempts - 1
  {
    FromAccounts(c, op, draw, 1, 0.0, []);
  }

  // ------------------------------------------------------------------ the clock

  /** The time that the first n attempts take. */
  function AttemptTime<T>(op: nat -> Attempt<T>, n: nat): real {
    if n == 0 then 0.0 else AttemptTime(op, n - 1) + op(n).seconds
  }

  function DelayAfter(c: Config, draw: nat -> real, k: nat): real {
    BackoffDelay(k, Base(c), CAP, draw(k))
  }

  /** The time slept after the first n attempts. */
  function SleepTime(c: Config, draw: nat -> real, n: nat): real {
    if n == 0 then 0.0 else SleepTime(c, draw, n - 1) + Slept(DelayAfter(c, draw, n))
  }

  /** The time at which attempt k is over, if there is one. */
  function Elapsed<T>(c: Config, op: nat -> Attempt<T>, draw: nat -> real, k: nat): real
    requires k >= 1
  {
    AttemptTime(op, k) + SleepTime(c, draw, k - 1)
  }

  /** Whether attempt k is followed by another: it failed with a retryable error, one more is
      allowed, and the delay and a whole attempt still fit before the deadline. */
  ghost predicate GoesOn<T>(c: Config, op: nat -> Attempt<T>, draw: nat -> real, k: nat)
    requires k >= 1
  {
    && op(k).Raises? && Classify(op(k).error).Some? && k < Allowed(c)
    && (c.deadline.Some? ==> Elapsed(c, op, draw, k) + DelayAfter(c, draw, k) + c.attemptTimeout <= c.deadline.value)
  }

  /** The call makes each attempt that the one before it leads to, and no other; its time is
      that of its attempts and of the sleeps between them. */
  ghost predicate OnTheClock<T>(c: Config, op: nat -> Attempt<T>, draw: nat -> real, from: nat, e: Ending<T>)
    requires from >= 1
  {
    && from <= e.attempts
    && e.seconds == Elapsed(c, op, draw, e.attempts)
    && (forall k :: from <= k < e.attempts ==> GoesOn(c, op, draw, k))
    && !GoesOn(c, op, draw, e.attempts)
    && (e.why.PastDeadline? <==>
          op(e.attempts).Raises? && Classify(op(e.attempts).error).Some? && e.attempts < Allowed(c))
  }

  lemma {:induction false} FromIsOnTheClock<T>(c: Config, op: nat -> Attempt<T>, draw: nat -> real, attempt: nat, spent: real, reasons: seq<Reason>)
    requires 1 <= attempt <= Allowed(c) && spent == AttemptTime(op, attempt - 1) + SleepTime(c, draw, attempt - 1)
    ensures OnTheClock(c, op, draw, attempt, From(c, op, draw, attempt, spent, reasons))
    decreases Allowed(c) - attempt
  {
    hide Classify, BackoffDelay, Base, Allowed;
    var a := op(attempt);
    if GoesOn(c, op, draw, attempt) {
      var later, reasons' := spent + a.seconds + Slept(DelayAfter(c, draw, attempt)), reasons + [Classify(a.error).value];
      FromIsOnTheClock(c, op, draw, attempt + 1, later, reasons');
      assert From(c, op, draw, attempt, spent, reasons) == From(c, op, draw, attempt + 1, later, reasons');
    }
  }

  /** For every call: its time is the time of the attempts made plus the sleeps between them,
      and a retry is started exactly when one is due, allowed and fits before the deadline. */
  lemma CallIsOnTheClock<T>(c: Config, op: nat -> Attempt<T>, draw: nat -> real)
    ensures OnTheClock(c, op, draw, 1, From(c, op, draw, 1, 0.0, []))
  {
    FromIsOnTheClock(c, op, draw, 1, 0.0, []);
  }

  // ------------------------------------------------------------------ how long it takes

  /** asyncio.wait_for bounds every attempt; draws are fractions; the base is a length of time. */
  ghost predicate Timed<T>(c: Config, op: nat -> Attempt<T>, draw: nat -> real) {
    && Base(c) > 0.0
    && (forall i: nat :: 0.0 <= op(i).seconds <= c.attemptTimeout)
    && (forall i: nat :: 0.0 <= draw(i) <= 1.0)
  }

  lemma {:induction false} Pow2Positive(n: nat)
    ensures Pow2(n) >= 1.0
  {
    if n > 0 { Pow2Positive(n - 1); }
  }

  lemma Product(a: real, draw: real)
    requires a >= 0.0 && 0.0 <= draw <= 1.0
    ensures 0.0 <= a * draw <= a
  {
  }

  /** The longest delay before retry k+1. */
  function Ceiling(base: real, k: nat): real {
    Min(CAP, Times(Pow2(k), base))
  }

  /** The ceilings double from the base until the cap is reached, and a delay is the drawn
      fraction of its ceiling. */
  lemma DelayIsDrawnFraction(attempt: nat, base: real, draw: real)
    requires attempt >= 1 && base > 0.0
    ensures BackoffDelay(attempt, base, CAP, draw) == Ceiling(base, attempt - 1) * draw
    ensures Ceiling(base, 0) == Min(CAP, base)
    ensures Ceiling(base, attempt) == Min(CAP, 2.0 * Ceiling(base, attempt - 1))
  {
    var k := attempt - 1;
    assert Times(Pow2(k), base) == base * Pow2(k);
    assert Times(Pow2(k + 1), base) == 2.0 * Times(Pow2(k), base);
    assert Times(Pow2(0), base) == base;
  }

  lemma DelayRange(attempt: nat, base: real, draw: real)
    requires attempt >= 1 && base > 0.0 && 0.0 <= draw <= 1.0
    ensures 0.0 <= BackoffDelay(attempt, base, CAP, draw) <= Ceiling(base, attempt - 1)
  {
    Pow2Positive(attempt - 1);
    var ceiling := Min(CAP, base * Pow2(attempt - 1));
    assert base * Pow2(attempt - 1) >= 0.0;
    Product(ceiling, draw);
    assert BackoffDelay(attempt, base, CAP, draw) == ceiling * draw;
  }

  lemma {:induction false} FromMeetsDeadline<T>(c: Config, op: nat -> Attempt<T>, draw: nat -> real, attempt: nat, spent: real, reasons: seq<Reason>)
    requires Timed(c, op, draw) && c.deadline.Some? && 1 <= attempt <= Allowed(c)
    requires spent + c.attemptTimeout <= Max(c.attemptTimeout, c.deadline.value)
    ensures From(c, op, draw, attempt, spent, reasons).seconds <= Max(c.attemptTimeout, c.deadline.value)
    decreases Allowed(c) - attempt
  {
    hide Classify, BackoffDelay, Base;
    var a := op(attempt);
    var delay := BackoffDelay(attempt, Base(c), CAP, draw(attempt));
    var now := spent + a.seconds;
    DelayRange(attempt, Base(c), draw(attempt));
    if a.Raises? && Classify(a.error).Some? && attempt < Allowed(c) && now + delay + c.attemptTimeout <= c.deadline.value {
      FromMeetsDeadline(c, op, draw, attempt + 1, now + Slept(delay), reasons + [Classify(a.error).value]);
    }
  }

  /** With a deadline the whole call, sleeps included, is over by the deadline, or within
      one attempt's timeout if that is longer. */
  lemma DeadlineHolds<T>(c: Config, op: nat -> Attempt<T>, draw: nat -> real)
    requires Timed(c, op, draw) && c.deadline.Some?
    ensures From(c, op, draw, 1, 0.0, []).seconds <= Max(c.attemptTimeout, c.deadline.value)
  {
    FromMeetsDeadline(c, op, draw, 1, 0.0, []);
  }

  function Times(a: real, b: real): real {
    a * b
  }

  /** Bound on the time taken by k attempts, each with the sleep that follows it. */
  function Rounds(timeout: real, base: real, k: nat): real {
    Times(k as real, timeout) + Min(Times(k as real, CAP), Times(Pow2(k) - 1.0, base))
  }

  lemma OneMore(x: real, y: real, step: real)
    ensures Times(x + step, y) == Times(x, y) + Times(step, y)
    ensures Times(1.0, y) == y
  {
  }

  lemma SleepFits(timeout: real, base: real, k: nat, delay: real)
    requires 0.0 <= delay <= Ceiling(base, k)
    ensures Rounds(timeout, base, k) + timeout + delay <= Rounds(timeout, base, k + 1)
  {
    hide Times, Pow2;
    assert (k + 1) as real == k as real + 1.0;
    OneMore(k as real, timeout, 1.0);
    OneMore(k as real, CAP, 1.0);
    OneMore(Pow2(k) - 1.0, base, Pow2(k));
    assert Pow2(k + 1) - 1.0 == (Pow2(k) - 1.0) + Pow2(k) by { Doubled(k); }
  }

  lemma Doubled(k: nat)
    ensures Pow2(k + 1) == Pow2(k) + Pow2(k)
  {
  }

  lemma {:induction false} RoundsGrow(timeout: real, base: real, k: nat, n: nat)
    requires k <= n && base > 0.0 && timeout >= 0.0
    ensures Rounds(timeout, base, k) <= Rounds(timeout, base, n)
    decreases n - k
  {
    if k < n {
      Pow2Positive(k);
      assert base * Pow2(k) >= 0.0;
      SleepFits(timeout, base, k, 0.0);
      RoundsGrow(timeout, base, k + 1, n);
    }
  }

  lemma {:induction false} FromIsBounded<T>(c: Config, op: nat -> Attempt<T>, draw: nat -> real, attempt: nat, spent: real, reasons: seq<Reason>)
    requires Timed(c, op, draw) && 1 <= attempt <= Allowed(c)
    requires spent <= Rounds(c.attemptTimeout, Base(c), attempt - 1)
    ensures From(c, op, draw, attempt, spent, reasons).seconds
            <= Rounds(c.attemptTimeout, Base(c), Allowed(c) - 1) + c.attemptTimeout
    decreases Allowed(c) - attempt
  {
    hide Classify, BackoffDelay, Base, Rounds, Pow2, Ceiling;
    var a := op(attempt);
    var delay := BackoffDelay(attempt, Base(c), CAP, draw(attempt));
    var now := spent + a.seconds;
    DelayRange(attempt, Base(c), draw(attempt));
    if a.Raises? && Classify(a.error).Some? && attempt < Allowed(c) &&
       !(c.deadline.Some? && now + delay + c.attemptTimeout > c.deadline.value) {
      SleepFits(c.attemptTimeout, Base(c), attempt - 1, delay);
      FromIsBounded(c, op, draw, attempt + 1, now + Slept(delay), reasons + [Classify(a.error).value]);
    } else {
      RoundsGrow(c.attemptTimeout, Base(c), attempt - 1, Allowed(c) - 1);
    }
  }

  /** n timeouts and the sum of n-1 backoff ceilings, which the cap bounds one way and the
      doubling the other. */
  function TimeBound(timeout: real, base: real, n: nat): real
    requires n >= 1
  {
    n as real * timeout + Min((n - 1) as real * CAP, (Pow2(n - 1) - 1.0) * base)
  }

  lemma RoundsAndOne(timeout: real, base: real, n: nat)
    requires n >= 1
    ensures Rounds(timeout, base, n - 1) + timeout == TimeBound(timeout, base, n)
  {
    var k := n - 1;
    assert Times(k as real, timeout) == k as real * timeout;
    assert Times(k as real, CAP) == k as real * CAP;
    assert Times(Pow2(k) - 1.0, base) == (Pow2(k) - 1.0) * base;
    assert (k + 1) as real * timeout == k as real * timeout + timeout;
  }

  /** With or without a deadline the allowed attempts bound the time of the call. */
  lemma TotalTimeIsBounded<T>(c: Config, op: nat -> Attempt<T>, draw: nat -> real)
    requires Timed(c, op, draw)
    ensures From(c, op, draw, 1, 0.0, []).seconds <= TimeBound(c.attemptTimeout, Base(c), Allowed(c))
  {
    hide *;
    NoRounds(c.attemptTimeout, Base(c));
    FromIsBounded(c, op, draw, 1, 0.0, []);
    RoundsAndOne(c.attemptTimeout, Base(c), Allowed(c));
  }

  lemma NoRounds(timeout: real, base: real)
    ensures Rounds(timeout, base, 0) == 0.0
  {
    assert Pow2(0) - 1.0 == 0.0;
  }

  // ---- the bound is reached

  lemma {:induction false} SameAttemptsAddUp<T>(op: nat -> Attempt<T>, n: nat, t: real)
    requires forall k: nat :: op(k).seconds == t
    ensures AttemptTime(op, n) == n as real * t
  {
    if n > 0 {
      SameAttemptsAddUp(op, n - 1, t);
      assert n as real * t == (n - 1) as real * t + t;
    }
  }

  lemma EarlierFits(base: real, n: nat)
    requires n >= 2 && base > 0.0 && Times(Pow2(n - 1), base) <= CAP
    ensures Times(Pow2(n - 2), base) <= CAP
  {
    Pow2Positive(n - 2);
    Doubled(n - 2);
    OneMore(Pow2(n - 2), base, Pow2(n - 2));
    assert Times(Pow2(n - 2), base) >= 0.0;
  }

  lemma FullDelay(c: Config, draw: nat -> real, n: nat)
    requires n >= 1 && Base(c) > 0.0 && draw(n) == 1.0 && Times(Pow2(n - 1), Base(c)) <= CAP
    ensures Slept(DelayAfter(c, draw, n)) == Times(Pow2(n - 1), Base(c))
  {
    hide Base, Times, Pow2, BackoffDelay;
    DelayIsDrawnFraction(n, Base(c), 1.0);
    DelayRange(n, Base(c), 1.0);
  }

  lemma {:induction false} FullDelaysAddUp(c: Config, draw: nat -> real, n: nat)
    requires Base(c) > 0.0 && (forall k: nat :: draw(k) == 1.0)
    requires n >= 1 ==> Times(Pow2(n - 1), Base(c)) <= CAP
    ensures SleepTime(c, draw, n) == Times(Pow2(n) - 1.0, Base(c))
  {
    if n == 0 {
      NoSleep(c, draw);
    } else {
      hide Base, Times, Pow2, DelayAfter, Slept;
      if n >= 2 { EarlierFits(Base(c), n); }
      FullDelaysAddUp(c, draw, n - 1);
      FullDelay(c, draw, n);
      Doubled(n - 1);
      OneMore(Pow2(n - 1) - 1.0, Base(c), Pow2(n - 1));
    }
  }

  lemma NoSleep(c: Config, draw: nat -> real)
    ensures SleepTime(c, draw, 0) == Times(Pow2(0) - 1.0, Base(c))
  {
    assert Pow2(0) - 1.0 == 0.0;
  }

  lemma {:induction false} TimeoutsGoOn<T>(c: Config, op: nat -> Attempt<T>, draw: nat -> real, k: nat)
    requires c.deadline.None? && (forall i: nat :: op(i) == Raises(TimeoutError, c.attemptTimeout)) && 1 <= k <= Allowed(c)
    ensures GoesOn(c, op, draw, k) <==> k < Allowed(c)
  {
  }

  lemma DeadProviderEnds<T>(c: Config, op: nat -> Attempt<T>, draw: nat -> real)
    requires c.deadline.None? && forall i: nat :: op(i) == Raises(TimeoutError, c.attemptTimeout)
    ensures var e := From(c, op, draw, 1, 0.0, []);
            && e.attempts == Allowed(c) && e.why == Exhausted && |e.reasons| == Allowed(c) - 1
            && e.seconds == Elapsed(c, op, draw, Allowed(c))
  {
    hide From, Base, Allowed, BackoffDelay, AttemptTime, SleepTime, GoesOn;
    var e := From(c, op, draw, 1, 0.0, []);
    CallIsAccounted(c, op, draw);
    CallIsOnTheClock(c, op, draw);
    TimeoutsGoOn(c, op, draw, e.attempts);
    assert op(e.attempts) == Raises(TimeoutError, c.attemptTimeout);
  }

  /** A provider that times out every time, with the longest delays drawn and no deadline, takes
      all its attempts and all of the time allowed for them, as long as the cap is not met. */
  lemma DeadProviderTakes<T>(c: Config, op: nat -> Attempt<T>, draw: nat -> real)
    requires Base(c) > 0.0 && c.deadline.None?
    requires (forall i: nat :: op(i) == Raises(TimeoutError, c.attemptTimeout)) && (forall k: nat :: draw(k) == 1.0)
    requires Allowed(c) >= 2 ==> Times(Pow2(Allowed(c) - 2), Base(c)) <= CAP
    ensures var e, n := From(c, op, draw, 1, 0.0, []), Allowed(c);
            && e.attempts == n && e.why == Exhausted && |e.reasons| == n - 1
            && e.seconds == n as real * c.attemptTimeout + (Pow2(n - 1) - 1.0) * Base(c)
  {
    hide From, Base, Allowed, Pow2, AttemptTime, SleepTime;
    DeadProviderEnds(c, op, draw);
    SameAttemptsAddUp(op, Allowed(c), c.attemptTimeout);
    FullDelaysAddUp(c, draw, Allowed(c) - 1);
  }
}
