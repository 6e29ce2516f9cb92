/** The distributed lock: SET NX PX to take it, compare-and-delete to give it back
    (backend/app/core/cache.py). Redis time is in milliseconds. */
module Lock {
  import opened Wrappers

  datatype Hold = Hold(token: string, expires: int)

  /** What Redis answers for the key: a hold that has expired is gone. */
  function Seen(value: Option<Hold>, now: int): Option<Hold> {
    if value.Some? && value.value.expires <= now then None else value
  }

  /** How a call ends: no effect, an effect whose reply is lost, or an answered effect. */
  datatype Fault = Fine | NotApplied | ReplyLost

  predicate Granted(value: Option<Hold>, now: int, ttl: int, fault: Fault) {
    !fault.NotApplied? && ttl > 0 && Seen(value, now).None?
  }

  function AfterSet(value: Option<Hold>, token: string, now: int, ttl: int, fault: Fault): Option<Hold> {
    if Granted(value, now, ttl, fault) then Some(Hold(token, now + ttl)) else value
  }

  function AfterDelete(value: Option<Hold>, token: string, now: int, fault: Fault): Option<Hold> {
    if !fault.NotApplied? && Seen(value, now).Some? && value.value.token == token then None else value
  }

  /** The one Redis key of a lock name. */
  class Key {
    var value: Option<Hold>

    constructor ()
      ensures value == None
    {
      value := None;
    }
  }

  class RedisLock {
    const key: Key
    const ttlMs: int
    var token: Option<string>

    constructor (key: Key, ttlSeconds: int)
      ensures this.key == key && ttlMs == ttlSeconds * 1000 && token == None
    {
      this.key, ttlMs, token := key, ttlSeconds * 1000, None;
    }

    /** `secret` is the fresh random token. False does not mean that nothing was taken. */
    method Acquire(secret: string, now: int, fault: Fault) returns (got: bool)
      modifies this, key
      ensures token == Some(secret)
      ensures key.value == AfterSet(old(key.value), secret, now, ttlMs, fault)
      ensures got <==> Granted(old(key.value), now, ttlMs, fault) && fault.Fine?
    {
      token := Some(secret);
      if fault.NotApplied? || ttlMs <= 0 { return false; }
      var free := Seen(key.value, now).None?;
      if free { key.value := Some(Hold(secret, now + ttlMs)); }
      if fault.ReplyLost? { return false; }
      return free;
    }

    method Release(now: int, fault: Fault)
      modifies this, key
      ensures token == None
      ensures key.value == if old(token).None? then old(key.value)
                           else AfterDelete(old(key.value), old(token).value, now, fault)
    {
      if token.None? { return; }
      if !fault.NotApplied? {
        var current := Seen(key.value, now);
        if current.Some? && current.value.token == token.value { key.value := None; }
      }
      token := None;
    }
  }

  // ------------------------------------------------------------------ runs

  /** An acquisition whose SET took effect: until when, and whether it was given back. */
  datatype Grant = Grant(expires: int, released: bool)

  /** `tokens` is the `_token` field of each lock object, `used` every token drawn so far. */
  datatype State = State(now: int, value: Option<Hold>, tokens: map<nat, string>, used: set<string>, grants: map<string, Grant>)

  datatype Step =
    | Tick(d: nat)
    | Acquire(lock: nat, token: string, ttl: int, fault: Fault)
    | Release(lock: nat, fault: Fault)

  /** Tokens are unique: 128 random bits stand for "never drawn before". */
  predicate Enabled(s: State, step: Step) {
    step.Acquire? ==> step.token !in s.used
  }

  function Apply(s: State, step: Step): State {
    match step
    case Tick(d) => s.(now := s.now + d)
    case Acquire(lock, token, ttl, fault) =>
      s.(value := AfterSet(s.value, token, s.now, ttl, fault),
         tokens := s.tokens[lock := token],
         used := s.used + {token},
         grants := if Granted(s.value, s.now, ttl, fault) then s.grants[token := Grant(s.now + ttl, false)] else s.grants)
    case Release(lock, fault) =>
      if lock !in s.tokens then s
      else
        var token := s.tokens[lock];
        s.(value := AfterDelete(s.value, token, s.now, fault),
           tokens := s.tokens - {lock},
           grants := if !fault.NotApplied? && token in s.grants then s.grants[token := s.grants[token].(released := true)]
                     else s.grants)
  }

  const START := State(0, None, map[], {}, map[])

  ghost predicate IsRun(s: State, steps: seq<Step>)
    decreases steps
  {
    steps == [] || (Enabled(s, steps[0]) && IsRun(Apply(s, steps[0]), steps[1..]))
  }

  ghost function Exec(s: State, steps: seq<Step>): State
    decreases steps
  {
    if steps == [] then s else Exec(Apply(s, steps[0]), steps[1..])
  }

  /** Held within its TTL, whether or not the holder was told. */
  predicate Held(s: State, token: string) {
    token in s.grants && !s.grants[token].released && s.now < s.grants[token].expires
  }

  predicate Inv(s: State) {
    && (forall token :: token in s.grants ==> token in s.used)
    && (forall lock :: lock in s.tokens ==> s.tokens[lock] in s.used)
    && (forall token :: token in s.grants && Held(s, token) ==> s.value == Some(Hold(token, s.grants[token].expires)))
    && (s.value.Some? ==>
          && s.value.value.token in s.grants
          && var g := s.grants[s.value.value.token];
             g.expires == s.value.value.expires && (g.released ==> g.expires <= s.now))
  }

  lemma {:induction false} RunKeepsInv(s: State, steps: seq<Step>)
    requires Inv(s) && IsRun(s, steps)
    ensures Inv(Exec(s, steps))
    decreases steps
  {
    if steps != [] {
      RunKeepsInv(Apply(s, steps[0]), steps[1..]);
    }
  }

  /** In every interleaving, at any time at most one acquisition is held within its TTL. */
  lemma MutualExclusion(steps: seq<Step>, token: string, other: string)
    requires IsRun(START, steps)
    requires var s := Exec(START, steps); Held(s, token) && Held(s, other)
    ensures token == other
  {
    RunKeepsInv(START, steps);
  }

  /** When an acquire is granted: exactly when its SET takes effect, asks for some time, and no
      acquisition is held within its TTL. A lock is never stuck and never shared. */
  lemma GrantedIffFree(steps: seq<Step>, ttl: int, fault: Fault)
    requires IsRun(START, steps)
    ensures var s := Exec(START, steps);
            Granted(s.value, s.now, ttl, fault) <==> !fault.NotApplied? && ttl > 0 && !exists token :: Held(s, token)
  {
    RunKeepsInv(START, steps);
    var s := Exec(START, steps);
    if Seen(s.value, s.now).Some? { assert Held(s, s.value.value.token); }
  }

  /** A release, however late and by whatever object, frees no hold but its own; an
      answered or half-answered one always ends its own, so an acquisition whose reply was
      lost is undone on exit, and the key is then free unless someone else holds it. */
  lemma ReleaseFreesOnlyItsOwn(steps: seq<Step>, lock: nat, fault: Fault, other: string)
    requires IsRun(START, steps)
    requires lock in Exec(START, steps).tokens
    ensures var s := Exec(START, steps);
            var t := Apply(s, Release(lock, fault));
            && (other != s.tokens[lock] ==> (Held(s, other) <==> Held(t, other)))
            && (!fault.NotApplied? ==>
                  && !Held(t, s.tokens[lock])
                  && (Seen(t.value, t.now).None? <==> !exists holder :: holder != s.tokens[lock] && Held(s, holder)))
  {
    RunKeepsInv(START, steps);
    var s := Exec(START, steps);
    var t := Apply(s, Release(lock, fault));
    if !fault.NotApplied? && Seen(t.value, t.now).Some? {
      assert Held(s, t.value.value.token);
    }
  }

  predicate AcquiresOn(step: Step, lock: nat) {
    step.Acquire? && step.lock == lock
  }

  predicate ReleasesOn(step: Step, lock: nat) {
    step.Release? && step.lock == lock
  }

  /** A grant that `lock` took is not given back yet, no other object knows its token, and
      `lock` itself knows it exactly until it acquires again. */
  predicate Unreturned(s: State, lock: nat, token: string, expires: int, again: bool) {
    && token in s.used && token in s.grants && s.grants[token] == Grant(expires, false)
    && lock in s.tokens && (again <==> s.tokens[lock] != token)
    && forall l :: l in s.tokens && l != lock ==> s.tokens[l] != token
  }

  lemma StepKeepsUnreturned(s: State, step: Step, lock: nat, token: string, expires: int, again: bool)
    requires Unreturned(s, lock, token, expires, again) && Enabled(s, step) && !ReleasesOn(step, lock)
    ensures Unreturned(Apply(s, step), lock, token, expires, again || AcquiresOn(step, lock))
  {
  }

  lemma {:induction false} RunKeepsUnreturned(s: State, steps: seq<Step>, lock: nat, token: string, expires: int, again: bool)
    requires Unreturned(s, lock, token, expires, again) && IsRun(s, steps)
    requires forall step :: step in steps ==> !ReleasesOn(step, lock)
    ensures Unreturned(Exec(s, steps), lock, token, expires, again || exists step :: step in steps && AcquiresOn(step, lock))
    decreases steps
  {
    hide Unreturned, Apply, Enabled;
    if steps != [] {
      assert steps == [steps[0]] + steps[1..];
      StepKeepsUnreturned(s, steps[0], lock, token, expires, again);
      RunKeepsUnreturned(Apply(s, steps[0]), steps[1..], lock, token, expires, again || AcquiresOn(steps[0], lock));
    }
  }

  /** When a release gives back what its object took. Over every run: a grant that `lock`
      took and has not released since, and whose TTL is not over, survives an effective
      release by `lock` if and only if `lock` has acquired again in between. */
  lemma ReleaseMissesItsGrantIff(before: seq<Step>, lock: nat, token: string, ttl: int, fault: Fault, since: seq<Step>, fault': Fault)
    requires IsRun(START, before) && Enabled(Exec(START, before), Acquire(lock, token, ttl, fault))
    requires var s := Exec(START, before);
             && Granted(s.value, s.now, ttl, fault)
             && IsRun(Apply(s, Acquire(lock, token, ttl, fault)), since)
             && Exec(Apply(s, Acquire(lock, token, ttl, fault)), since).now < s.now + ttl
    requires (forall step :: step in since ==> !ReleasesOn(step, lock)) && !fault'.NotApplied?
    ensures var end := Exec(Apply(Exec(START, before), Acquire(lock, token, ttl, fault)), since);
            Held(Apply(end, Release(lock, fault')), token) <==> exists step :: step in since && AcquiresOn(step, lock)
  {
    var s := Exec(START, before);
    RunKeepsInv(START, before);
    var t := Apply(s, Acquire(lock, token, ttl, fault));
    RunKeepsUnreturned(t, since, lock, token, s.now + ttl, false);
  }

  /** So after any run, one object used twice without a release leaves its first hold to
      the TTL, whatever came of the second acquire. */
  lemma SecondAcquireOrphansTheFirst(before: seq<Step>, lock: nat, token: string, other: string, ttl: int, fault: Fault, fault': Fault)
    requires IsRun(START, before) && token !in Exec(START, before).used && other !in Exec(START, before).used && token != other
    requires Granted(Exec(START, before).value, Exec(START, before).now, ttl, fault)
    ensures var first := Apply(Exec(START, before), Acquire(lock, token, ttl, fault));
            Held(Apply(Apply(first, Acquire(lock, other, ttl, fault')), Release(lock, Fine)), token)
  {
    var again := Acquire(lock, other, ttl, fault');
    assert AcquiresOn(again, lock) && again in [again] && [again][1..] == [];
    ReleaseMissesItsGrantIff(before, lock, token, ttl, fault, [again], Fine);
  }
}
