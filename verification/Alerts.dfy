/** Alert delivery with retry and fan-out (backend/app/alerting/dispatcher.py). Time is in
    seconds and passes only in sends and sleeps. */
module Alerts {
  datatype Level = Info | Warning | Error | Critical

  function Rank(level: Level): nat {
    match level
    case Info => 0
    case Warning => 1
    case Error => 2
    case Critical => 3
  }

  /** The levels in their order. */
  lemma LevelsRise(a: Level, b: Level)
    ensures Rank(Info) < Rank(Warning) < Rank(Error) < Rank(Critical)
    ensures Rank(a) == Rank(b) <==> a == b
  {
  }

  /** One send: delivered, failed (a timeout included), or cancelled by a shutdown. */
  datatype Sent = Delivered(seconds: real) | Failed(seconds: real) | Cancelled(seconds: real)

  datatype Result = Reported(ok: bool) | CancelledError

  datatype Delivery = Delivery(result: Result, sends: nat, seconds: real)

  function Min(a: real, b: real): real {
    if a <= b then a else b
  }

  function Max(a: real, b: real): real {
    if a >= b then a else b
  }

  function Pow2(n: nat): real {
    if n == 0 then 1.0 else 2.0 * Pow2(n - 1)
  }

  /** The delay after the one given: doubled up to the cap, and zero stays zero. */
  function NextDelay(delay: real, cap: real): real {
    if delay != 0.0 then Min(delay * 2.0, cap) else 0.0
  }

  /** The constructor's arguments. */
  datatype Options = Options(maxAttempts: int, backoff: real, backoffMax: real, minLevel: Level, enabled: bool)

  predicate Usable(o: Options) {
    o.maxAttempts >= 1 && o.backoff >= 0.0 && o.backoffMax >= 0.0
  }

  /** What a dispatcher keeps of them. */
  type Settings = o: Options | Usable(o) witness Options(1, 0.0, 0.0, Error, true)

  /** The constructor's clamps: at least one attempt, no negative length of time. */
  function Clamped(o: Options): (s: Settings)
    ensures Usable(o) ==> s == o
    ensures if o.maxAttempts >= 1 then s.maxAttempts == o.maxAttempts else s.maxAttempts == 1
    ensures if o.backoff >= 0.0 then s.backoff == o.backoff else s.backoff == 0.0
    ensures if o.backoffMax >= 0.0 then s.backoffMax == o.backoffMax else s.backoffMax == 0.0
    ensures s.minLevel == o.minLevel && s.enabled == o.enabled
  {
    Options(if o.maxAttempts >= 1 then o.maxAttempts else 1, Max(0.0, o.backoff), Max(0.0, o.backoffMax), o.minLevel, o.enabled)
  }

  /** The k-th delay as a closed form: the first is the configured one, uncapped. */
  function DelayAt(s: Settings, k: nat): real
    requires k >= 1
  {
    if k == 1 then s.backoff else Min(s.backoff * Pow2(k - 1), s.backoffMax)
  }

  /** The sum of the first k delays. */
  function DelaySum(s: Settings, k: nat): real {
    if k == 0 then 0.0 else DelaySum(s, k - 1) + DelayAt(s, k)
  }

  predicate Stops(send: nat -> Sent, k: nat) {
    !send(k).Failed?
  }

  /** The send that ends the delivery: the first that does not fail, or the last allowed. */
  function StopAt(send: nat -> Sent, k: nat, max: nat): (n: nat)
    requires 1 <= k <= max
    ensures k <= n <= max && (n < max ==> Stops(send, n))
    ensures forall i :: k <= i < n ==> !Stops(send, i)
    decreases max - k
  {
    if Stops(send, k) || k == max then k else StopAt(send, k + 1, max)
  }

  /** Time taken by the first n sends. */
  function SendTime(send: nat -> Sent, n: nat): real {
    if n == 0 then 0.0 else SendTime(send, n - 1) + send(n).seconds
  }

  lemma {:induction false} DelayRecurrence(s: Settings, k: nat)
    requires k >= 1
    ensures NextDelay(DelayAt(s, k), s.backoffMax) == DelayAt(s, k + 1)
    ensures DelayAt(s, k) >= 0.0
  {
    var b, m, p := s.backoff, s.backoffMax, Pow2(k - 1);
    Pow2Positive(k - 1);
    assert Pow2(k) == 2.0 * p;
    assert b * p >= 0.0 && (b * p == 0.0 ==> b == 0.0);
    assert b * (2.0 * p) == (b * p) * 2.0;
    assert k == 1 ==> b * p == b;
  }

  lemma {:induction false} Pow2Positive(n: nat)
    ensures Pow2(n) >= 1.0
  {
    if n > 0 { Pow2Positive(n - 1); }
  }

  /** Without cancellation a delivery reports true exactly when one of the allowed sends
      would succeed, and stops at the first that does. */
  lemma DeliveredIffOneSucceeds(o: Options, send: nat -> Sent)
    requires forall k :: 1 <= k <= Clamped(o).maxAttempts ==> !send(k).Cancelled?
    ensures var s := Clamped(o);
            var n := StopAt(send, 1, s.maxAttempts);
            && (send(n).Delivered? <==> exists k :: 1 <= k <= s.maxAttempts && send(k).Delivered?)
            && (send(n).Delivered? ==> forall k :: 1 <= k < n ==> send(k).Failed?)
            && (!send(n).Delivered? ==> n == s.maxAttempts)
  {
    var s := Clamped(o);
    var n := StopAt(send, 1, s.maxAttempts);
    forall k | 1 <= k < n ensures send(k).Failed? { assert !Stops(send, k); }
    if k :| 1 <= k <= s.maxAttempts && send(k).Delivered? {
      assert Stops(send, k);
      assert n <= k;
    }
  }

  lemma {:induction false} SendTimeBound(send: nat -> Sent, n: nat, timeout: real)
    requires forall k :: 1 <= k <= n ==> send(k).seconds <= timeout
    ensures SendTime(send, n) <= n as real * timeout
  {
    if n > 0 {
      SendTimeBound(send, n - 1, timeout);
      assert n as real * timeout == (n - 1) as real * timeout + timeout;
    }
  }

  lemma {:induction false} DelaySumGrows(s: Settings, j: nat, k: nat)
    requires j <= k
    ensures DelaySum(s, j) <= DelaySum(s, k)
    decreases k - j
  {
    if j < k {
      DelayRecurrence(s, j + 1);
      DelaySumGrows(s, j + 1, k);
    }
  }

  /** A channel can hold a delivery up for at most n timeouts and the first n-1 delays. */
  lemma DeliveryTimeIsBounded(o: Options, send: nat -> Sent, timeout: real)
    requires timeout >= 0.0
    requires forall k :: 1 <= k <= Clamped(o).maxAttempts ==> send(k).seconds <= timeout
    ensures var s := Clamped(o);
            var n := StopAt(send, 1, s.maxAttempts);
            SendTime(send, n) + DelaySum(s, n - 1) <= s.maxAttempts as real * timeout + DelaySum(s, s.maxAttempts - 1)
  {
    hide SendTime, DelaySum, StopAt;
    var s := Clamped(o);
    var n := StopAt(send, 1, s.maxAttempts);
    SendTimeBound(send, n, timeout);
    DelaySumGrows(s, n - 1, s.maxAttempts - 1);
    MoreTimeouts(n, s.maxAttempts, timeout);
  }

  lemma {:induction false} DelaysAddUp(s: Settings, k: nat)
    requires k >= 1 ==> s.backoff * Pow2(k - 1) <= s.backoffMax
    ensures DelaySum(s, k) == s.backoff * (Pow2(k) - 1.0)
  {
    if k > 0 {
      var p := Pow2(k - 1);
      if k > 1 {
        Pow2Positive(k - 2);
        assert p == 2.0 * Pow2(k - 2);
        assert s.backoff * p == 2.0 * (s.backoff * Pow2(k - 2)) && s.backoff * Pow2(k - 2) >= 0.0;
      }
      DelaysAddUp(s, k - 1);
      assert s.backoff * (p - 1.0) + s.backoff * p == s.backoff * (2.0 * p - 1.0);
      assert DelayAt(s, k) == s.backoff * p;
    } else {
      assert Pow2(0) - 1.0 == 0.0;
    }
  }

  lemma {:induction false} SendsAddUp(send: nat -> Sent, n: nat, t: real)
    requires forall k :: 1 <= k <= n ==> send(k).seconds == t
    ensures SendTime(send, n) == n as real * t
  {
    if n > 0 {
      SendsAddUp(send, n - 1, t);
      assert n as real * t == (n - 1) as real * t + t;
    }
  }

  /** The bound is reached: a channel that times out every time takes n timeouts, and delays
      that double from the first until they meet the cap. */
  lemma DeadChannelTakes(o: Options, send: nat -> Sent, timeout: real)
    requires forall k :: send(k) == Failed(timeout)
    requires var s := Clamped(o); s.maxAttempts >= 2 ==> s.backoff * Pow2(s.maxAttempts - 2) <= s.backoffMax
    ensures var s := Clamped(o);
            var n := StopAt(send, 1, s.maxAttempts);
            && n == s.maxAttempts
            && SendTime(send, n) + DelaySum(s, n - 1) == n as real * timeout + s.backoff * (Pow2(n - 1) - 1.0)
  {
    hide Clamped, SendTime, DelaySum, Pow2;
    var s := Clamped(o);
    NeverStops(send, s.maxAttempts);
    SendsAddUp(send, s.maxAttempts, timeout);
    DelaysAddUp(s, s.maxAttempts - 1);
  }

  lemma NeverStops(send: nat -> Sent, max: nat)
    requires max >= 1 && forall k :: send(k).Failed?
    ensures StopAt(send, 1, max) == max
  {
    hide StopAt;
    assert !Stops(send, StopAt(send, 1, max));
  }

  lemma MoreTimeouts(n: nat, m: nat, timeout: real)
    requires n <= m && timeout >= 0.0
    ensures n as real * timeout <= m as real * timeout
  {
    assert m as real * timeout - n as real * timeout == (m - n) as real * timeout;
  }

  // ------------------------------------------------------------------ fan-out

  datatype Provider = Provider(name: string, send: nat -> Sent)

  predicate ShouldDispatch(s: Settings, providers: seq<Provider>, level: Level) {
    s.enabled && providers != [] && Rank(level) >= Rank(s.minLevel)
  }

  function Outcome(s: Settings, p: Provider): bool
  {
    p.send(StopAt(p.send, 1, s.maxAttempts)).Delivered?
  }

  /** The result of the last provider of a name, which is the one the report keeps. */
  ghost predicate ReportedBy(s: Settings, providers: seq<Provider>, name: string, ok: bool)
  {
    exists i :: 0 <= i < |providers| && providers[i].name == name && Outcome(s, providers[i]) == ok &&
                forall j :: i < j < |providers| ==> providers[j].name != name
  }

  class AlertDispatcher {
    const settings: Settings
    const providers: seq<Provider>

    constructor (providers: seq<Provider>, options: Options)
      ensures this.providers == providers && settings == Clamped(options)
    {
      this.providers, settings := providers, Clamped(options);
    }

    /** `_deliver`. It sends until the first success or cancellation, at most maxAttempts
        times, and sleeps the first n-1 delays on the way to send n. */
    method Deliver(send: nat -> Sent) returns (d: Delivery)
      ensures d.sends == StopAt(send, 1, settings.maxAttempts)
      ensures d.result == match send(d.sends)
                          case Delivered(_) => Reported(true)
                          case Failed(_) => Reported(false)
                          case Cancelled(_) => CancelledError
      ensures d.seconds == SendTime(send, d.sends) + DelaySum(settings, d.sends - 1)
    {
      var delay, clock := settings.backoff, 0.0;
      for attempt := 1 to settings.maxAttempts + 1
        invariant attempt <= settings.maxAttempts
        invariant StopAt(send, attempt, settings.maxAttempts) == StopAt(send, 1, settings.maxAttempts)
        invariant delay == DelayAt(settings, attempt)
        invariant clock == SendTime(send, attempt - 1) + DelaySum(settings, attempt - 1)
      {
        clock := clock + send(attempt).seconds;
        match send(attempt) {
          case Cancelled(_) => return Delivery(CancelledError, attempt, clock);
          case Delivered(_) => return Delivery(Reported(true), attempt, clock);
          case Failed(_) =>
        }
        if attempt >= settings.maxAttempts { return Delivery(Reported(false), attempt, clock); }
        DelayRecurrence(settings, attempt);
        if delay > 0.0 { clock := clock + delay; }
        delay := if delay != 0.0 then Min(delay * 2.0, settings.backoffMax) else 0.0;
      }
      assert false;
    }

    method Dispatch(level: Level) returns (outcome: map<string, bool>)
      ensures !(settings.enabled && providers != [] && Rank(level) >= Rank(settings.minLevel)) ==> outcome == map[]
      ensures settings.enabled && providers != [] && Rank(level) >= Rank(settings.minLevel) ==>
                && (forall name :: name in outcome <==> exists i :: 0 <= i < |providers| && providers[i].name == name)
                && (forall name :: name in outcome ==> ReportedBy(settings, providers, name, outcome[name]))
    {
      outcome := map[];
      if !ShouldDispatch(settings, providers, level) { return; }
      var results: seq<Result> := [];
      for i := 0 to |providers|
        invariant |results| == i
        invariant forall k :: 0 <= k < i ==> (results[k] == Reported(true) <==> Outcome(settings, providers[k]))
      {
        var d := Deliver(providers[i].send);
        results := results + [d.result];
      }
      for i := 0 to |providers|
        invariant forall name :: name in outcome <==> exists k :: 0 <= k < i && providers[k].name == name
        invariant forall name :: name in outcome ==> ReportedBy(settings, providers[..i], name, outcome[name])
      {
        outcome := outcome[providers[i].name := results[i] == Reported(true)];
        forall name | name in outcome
          ensures ReportedBy(settings, providers[..i + 1], name, outcome[name])
        {
          LastOneCounts(settings, providers, i, name, outcome[name]);
        }
      }
      assert providers[..|providers|] == providers;
    }
  }

  lemma LastOneCounts(s: Settings, providers: seq<Provider>, i: nat, name: string, ok: bool)
    requires i < |providers|
    requires if name == providers[i].name then ok == Outcome(s, providers[i]) else ReportedBy(s, providers[..i], name, ok)
    ensures ReportedBy(s, providers[..i + 1], name, ok)
  {
    var longer := providers[..i + 1];
    if name == providers[i].name {
      assert longer[i].name == name;
    } else {
      var k :| 0 <= k < i && providers[..i][k].name == name && Outcome(s, providers[..i][k]) == ok &&
               forall j :: k < j < i ==> providers[..i][j].name != name;
      assert longer[k].name == name;
      assert forall j :: k < j < |longer| ==> j == i || longer[j] == providers[..i][j];
    }
  }

  /** With distinct names the report says true of exactly the providers that delivered. */
  lemma ReportIsExact(s: Settings, providers: seq<Provider>, outcome: map<string, bool>, i: nat)
    requires i < |providers| && providers[i].name in outcome
    requires forall j, k :: 0 <= j < k < |providers| ==> providers[j].name != providers[k].name
    requires ReportedBy(s, providers, providers[i].name, outcome[providers[i].name])
    ensures outcome[providers[i].name] <==> Outcome(s, providers[i])
  {
  }
}
