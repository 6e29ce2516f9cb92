/** The read-through cache over Redis (backend/app/core/cache.py). Redis time is in
    milliseconds; the breaker reads the process clock, in seconds. */
module Cache {
  import opened Wrappers
  import Breaker
  import CacheKeys

  /** Decoded JSON. A stored null reads like a miss. */
  datatype Value = Null | Payload(text: string)

  datatype Expiry = Never | AtTime(at: int)
  datatype Entry = Entry(value: Value, expiry: Expiry)

  type Store = map<string, Entry>

  datatype Fault = Fine | NotApplied | ReplyLost

  /** When a guarded call happens and how it ends: Redis's clock, the process clock at its
      start and twice in a failure, and the fault. */
  datatype Call = Call(now: int, started: real, tested: real, later: real, fault: Fault)

  function Get(store: Store, key: string, now: int): Value {
    if key !in store then Null
    else if store[key].expiry.AtTime? && store[key].expiry.at <= now then Null
    else store[key].value
  }

  function Put(store: Store, key: string, value: Value, ttl: int, now: int): Store {
    store[key := Entry(value, if ttl > 0 then AtTime(now + 1000 * ttl) else Never)]
  }

  function NextBreaker(b: Breaker.Status, c: Call): Breaker.Status {
    Breaker.AfterCall(b, c.started, c.tested, c.later, !c.fault.Fine?)
  }

  predicate Readable(b: Breaker.Status, c: Call) {
    !Breaker.IsOpen(b, c.started) && c.fault.Fine?
  }

  predicate Writable(b: Breaker.Status, c: Call) {
    !Breaker.IsOpen(b, c.started) && !c.fault.NotApplied?
  }

  /** One reply to SCAN. */
  datatype Batch = Batch(cursor: nat, keys: seq<string>)

  predicate Matches(prefix: string, key: string) {
    prefix <= key
  }

  /** A complete scan: cursor 0 ends it and only it, every key given matches, and every
      matching key that was there throughout is given. */
  ghost predicate CompleteScan(batches: seq<Batch>, prefix: string, store: Store) {
    && batches != []
    && (forall i :: 0 <= i < |batches| ==> (batches[i].cursor == 0 <==> i == |batches| - 1))
    && (forall i, k :: 0 <= i < |batches| && k in batches[i].keys ==> Matches(prefix, k))
    && (forall k :: k in store && Matches(prefix, k) ==> exists i :: 0 <= i < |batches| && k in batches[i].keys)
  }

  /** Which call of an invalidation fails: a round's SCAN, or its DELETE, perhaps with only
      the reply lost. */
  datatype Stop = NoStop | AtScan(round: nat) | AtDelete(round: nat, applied: bool)

  /** Whether the loop meets the failure: a round without keys sends no DELETE. */
  predicate Stops(batches: seq<Batch>, stop: Stop) {
    !stop.NoStop? && stop.round < |batches| && (stop.AtDelete? ==> batches[stop.round].keys != [])
  }

  /** How many rounds took effect, and how many were counted. */
  function RoundsApplied(batches: seq<Batch>, stop: Stop): (n: nat)
    ensures n <= |batches|
  {
    if !Stops(batches, stop) then |batches| else if stop.AtDelete? && stop.applied then stop.round + 1 else stop.round
  }

  function RoundsCounted(batches: seq<Batch>, stop: Stop): (n: nat)
    ensures n <= |batches|
  {
    if !Stops(batches, stop) then |batches| else stop.round
  }

  function Without(store: Store, prefix: string): Store {
    map k | k in store && !Matches(prefix, k) :: store[k]
  }

  class Client {
    var store: Store
    const breaker: Breaker.CircuitBreaker

    constructor (breaker: Breaker.CircuitBreaker)
      ensures this.breaker == breaker && store == map[]
    {
      this.breaker := breaker;
      store := map[];
    }

    method CacheGet(key: string, c: Call) returns (value: Value)
      modifies breaker
      ensures breaker.Value() == NextBreaker(old(breaker.Value()), c)
      ensures value == if !old(breaker.Open(c.started)) && c.fault.Fine? then Get(store, key, c.now) else Null
    {
      var isOpen := breaker.Open(c.started);
      if isOpen { return Null; }
      if !c.fault.Fine? {
        breaker.RecordFailure(c.tested, c.later);
        return Null;
      }
      breaker.RecordSuccess();
      return Get(store, key, c.now);
    }

    method CacheSet(key: string, value: Value, ttl: int, c: Call)
      modifies this, breaker
      ensures breaker.Value() == NextBreaker(old(breaker.Value()), c)
      ensures store == if !old(breaker.Open(c.started)) && !c.fault.NotApplied? then Put(old(store), key, value, ttl, c.now) else old(store)
    {
      var isOpen := breaker.Open(c.started);
      if isOpen { return; }
      if !c.fault.NotApplied? {
        if ttl > 0 {
          store := store[key := Entry(value, AtTime(c.now + 1000 * ttl))];
        } else {
          store := store[key := Entry(value, Never)];
        }
      }
      if c.fault.Fine? { breaker.RecordSuccess(); } else { breaker.RecordFailure(c.tested, c.later); }
    }

    /** `computed` is what the factory would return. */
    method Cached(key: string, computed: Value, ttl: int, read: Call, write: Call) returns (value: Value)
      modifies this, breaker
      ensures var b := old(breaker.Value());
              var hit := if Readable(b, read) then Get(old(store), key, read.now) else Null;
              && value == (if hit != Null then hit else computed)
              && store == (if hit == Null && Writable(NextBreaker(b, read), write)
                           then Put(old(store), key, computed, ttl, write.now) else old(store))
    {
      var hit := CacheGet(key, read);
      if hit != Null { return hit; }
      value := computed;
      CacheSet(key, value, ttl, write);
    }

    method Delete(keys: seq<string>) returns (n: nat)
      modifies this`store
      ensures store == old(store) - KeySet(keys) && n == |old(store)| - |store|
    {
      hide KeySet;
      Shrink(store, KeySet(keys));
      n := |KeySet(keys) * store.Keys|;
      store := store - KeySet(keys);
    }

    /** The SCAN loop: what is gone afterwards, and how much of it the caller is told of. */
    method InvalidatePrefix(prefix: string, batches: seq<Batch>, stop: Stop) returns (deleted: nat)
      requires CompleteScan(batches, prefix, store)
      modifies this`store
      ensures !Stops(batches, stop) ==> store == Without(old(store), prefix)
      ensures store == Left(old(store), batches, RoundsApplied(batches, stop))
      ensures deleted == |old(store)| - |Left(old(store), batches, RoundsCounted(batches, stop))|
    {
      hide Left, Without, KeySet, CompleteScan, RoundsApplied, RoundsCounted;
      StopFacts(batches, stop);
      CursorEnds(batches, prefix, store);
      AllLeft(batches, store);
      ScanLeavesTheRest(batches, prefix, store);
      deleted := 0;
      var i := 0;
      while true
        invariant 0 <= i < |batches|
        invariant store == Left(old(store), batches, i)
        invariant Stops(batches, stop) ==> stop.round >= i
        invariant deleted == |old(store)| - |store|
        decreases |batches| - i
      {
        if stop == AtScan(i) { return; }
        ScanRound(old(store), batches, i);
        if batches[i].keys != [] {
          var fails := stop.AtDelete? && stop.round == i;
          if fails && !stop.applied { return; }
          var n := Delete(batches[i].keys);
          if fails { return; }
          deleted := deleted + n;
        }
        if batches[i].cursor == 0 { break; }
        i := i + 1;
      }
    }

    /** `invalidate_project_cache`: one prefix after the other, each on its own; `stops` says
        which of them fail, and a failing one keeps none of the others from being scanned. */
    method InvalidateProject(projectId: string, scans: (string, Store) -> seq<Batch>, stops: string -> Stop)
      requires forall prefix, s :: prefix in CacheKeys.Prefixes(projectId) ==> CompleteScan(scans(prefix, s), prefix, s)
      modifies this`store
      ensures var ps := CacheKeys.Prefixes(projectId);
              && store == AfterAll(old(store), ps, scans, stops)
              && ((forall p :: p in ps ==> stops(p).NoStop?) ==> store == InvalidateAll(old(store), ps))
              && (forall p, k :: p in ps && stops(p).NoStop? && Matches(p, k) ==> k !in store)
              && (forall i, k :: 0 <= i < |ps| && RemovedAt(old(store), ps, i, scans, stops, k) ==> k !in store)
              && (forall k :: k in store ==> k in old(store) && store[k] == old(store)[k])
              && (forall k :: k in old(store) && !CacheKeys.Removes(projectId, k) ==> k in store)
    {
      hide Left, CompleteScan, CacheKeys.Prefixes, CacheKeys.Removes, RemovedAt, RoundsApplied, RoundsCounted;
      var ps := CacheKeys.Prefixes(projectId);
      AfterAllRemoves(store, ps, scans, stops);
      AfterAllStaysInside(store, projectId, ps, scans, stops);
      if forall p :: p in ps ==> stops(p).NoStop? { CleanAfterAll(store, ps, scans, stops); }
      for i := 0 to |ps|
        invariant AfterAll(store, ps[i..], scans, stops) == AfterAll(old(store), ps, scans, stops)
      {
        assert ps[i..][0] == ps[i] && ps[i..][1..] == ps[i + 1..];
        var deleted := InvalidatePrefix(ps[i], scans(ps[i], store), stops(ps[i]));
      }
    }
  }

  /** What one prefix's invalidation leaves, failing or not. */
  function AfterOne(store: Store, prefix: string, scans: (string, Store) -> seq<Batch>, stops: string -> Stop): Store {
    var batches := scans(prefix, store);
    Left(store, batches, RoundsApplied(batches, stops(prefix)))
  }

  function AfterAll(store: Store, prefixes: seq<string>, scans: (string, Store) -> seq<Batch>, stops: string -> Stop): Store
    decreases prefixes
  {
    if prefixes == [] then store else AfterAll(AfterOne(store, prefixes[0], scans, stops), prefixes[1..], scans, stops)
  }

  /** The keys of the rounds that took effect in the i-th prefix's own scan. */
  ghost predicate RemovedAt(store: Store, prefixes: seq<string>, i: nat, scans: (string, Store) -> seq<Batch>, stops: string -> Stop, k: string)
    requires i < |prefixes|
  {
    var before := AfterAll(store, prefixes[..i], scans, stops);
    var batches := scans(prefixes[i], before);
    k in Given(batches, RoundsApplied(batches, stops(prefixes[i])))
  }

  ghost predicate AllComplete(prefixes: seq<string>, scans: (string, Store) -> seq<Batch>) {
    forall prefix, s :: prefix in prefixes ==> CompleteScan(scans(prefix, s), prefix, s)
  }

  lemma {:induction false} AfterAllShrinks(store: Store, prefixes: seq<string>, scans: (string, Store) -> seq<Batch>, stops: string -> Stop)
    ensures forall k :: k in AfterAll(store, prefixes, scans, stops) ==> k in store && AfterAll(store, prefixes, scans, stops)[k] == store[k]
    decreases prefixes
  {
    if prefixes != [] { AfterAllShrinks(AfterOne(store, prefixes[0], scans, stops), prefixes[1..], scans, stops); }
  }

  lemma {:induction false} AfterAllSplits(store: Store, prefixes: seq<string>, i: nat, scans: (string, Store) -> seq<Batch>, stops: string -> Stop)
    requires i < |prefixes|
    ensures var before := AfterAll(store, prefixes[..i], scans, stops);
            AfterAll(store, prefixes, scans, stops) == AfterAll(AfterOne(before, prefixes[i], scans, stops), prefixes[i + 1..], scans, stops)
    decreases i
  {
    hide AfterOne;
    if i > 0 {
      AfterAllSplits(AfterOne(store, prefixes[0], scans, stops), prefixes[1..], i - 1, scans, stops);
      assert prefixes[1..][..i - 1] == prefixes[..i][1..] && prefixes[1..][i..] == prefixes[i + 1..];
      assert prefixes[1..][i - 1] == prefixes[i];
    }
  }

  /** Whatever the other prefixes do, a prefix that does not fail leaves no key under it, and
      a failing one leaves none of the rounds that took effect. */
  lemma AfterAllRemoves(store: Store, prefixes: seq<string>, scans: (string, Store) -> seq<Batch>, stops: string -> Stop)
    requires AllComplete(prefixes, scans)
    ensures forall p, k :: p in prefixes && stops(p).NoStop? && Matches(p, k) ==> k !in AfterAll(store, prefixes, scans, stops)
    ensures forall i, k :: 0 <= i < |prefixes| && RemovedAt(store, prefixes, i, scans, stops, k) ==>
              k !in AfterAll(store, prefixes, scans, stops)
  {
    forall i, k | 0 <= i < |prefixes| && RemovedAt(store, prefixes, i, scans, stops, k)
      ensures k !in AfterAll(store, prefixes, scans, stops)
    {
      AfterAllSplits(store, prefixes, i, scans, stops);
      var before := AfterAll(store, prefixes[..i], scans, stops);
      AfterAllShrinks(AfterOne(before, prefixes[i], scans, stops), prefixes[i + 1..], scans, stops);
    }
    forall p, k | p in prefixes && stops(p).NoStop? && Matches(p, k)
      ensures k !in AfterAll(store, prefixes, scans, stops)
    {
      var i :| 0 <= i < |prefixes| && prefixes[i] == p;
      AfterAllSplits(store, prefixes, i, scans, stops);
      var before := AfterAll(store, prefixes[..i], scans, stops);
      ScanLeavesTheRest(scans(p, before), p, before);
      AfterAllShrinks(AfterOne(before, p, scans, stops), prefixes[i + 1..], scans, stops);
    }
  }

  lemma {:induction false} AfterAllKeeps(store: Store, prefixes: seq<string>, scans: (string, Store) -> seq<Batch>, stops: string -> Stop, k: string)
    requires AllComplete(prefixes, scans) && k in store && forall p :: p in prefixes ==> !Matches(p, k)
    ensures k in AfterAll(store, prefixes, scans, stops)
    decreases prefixes
  {
    if prefixes != [] {
      var p, batches := prefixes[0], scans(prefixes[0], store);
      assert p in prefixes && CompleteScan(batches, p, store);
      if k in Given(batches, RoundsApplied(batches, stops(p))) {
        PartialScanStaysInside(batches, p, store, RoundsApplied(batches, stops(p)), k);
      }
      AfterAllKeeps(AfterOne(store, p, scans, stops), prefixes[1..], scans, stops, k);
    }
  }

  lemma AfterAllStaysInside(store: Store, projectId: string, prefixes: seq<string>, scans: (string, Store) -> seq<Batch>, stops: string -> Stop)
    requires AllComplete(prefixes, scans) && prefixes == CacheKeys.Prefixes(projectId)
    ensures var after := AfterAll(store, prefixes, scans, stops);
            && (forall k :: k in after ==> k in store && after[k] == store[k])
            && (forall k :: k in store && !CacheKeys.Removes(projectId, k) ==> k in after)
  {
    hide CacheKeys.Prefixes, AllComplete;
    AfterAllShrinks(store, prefixes, scans, stops);
    forall k | k in store && !CacheKeys.Removes(projectId, k)
      ensures k in AfterAll(store, prefixes, scans, stops)
    {
      AfterAllKeeps(store, prefixes, scans, stops, k);
    }
  }

  /** Without failures it is one clean prefix invalidation after the other. */
  lemma {:induction false} CleanAfterAll(store: Store, prefixes: seq<string>, scans: (string, Store) -> seq<Batch>, stops: string -> Stop)
    requires AllComplete(prefixes, scans) && forall p :: p in prefixes ==> stops(p).NoStop?
    ensures AfterAll(store, prefixes, scans, stops) == InvalidateAll(store, prefixes)
    decreases prefixes
  {
    if prefixes != [] {
      assert prefixes[0] in prefixes;
      ScanLeavesTheRest(scans(prefixes[0], store), prefixes[0], store);
      CleanAfterAll(AfterOne(store, prefixes[0], scans, stops), prefixes[1..], scans, stops);
    }
  }

  /** Prefix invalidations one after the other. */
  function InvalidateAll(store: Store, prefixes: seq<string>): Store
    decreases prefixes
  {
    if prefixes == [] then store else InvalidateAll(Without(store, prefixes[0]), prefixes[1..])
  }

  lemma {:induction false} InvalidateAllRemoves(store: Store, prefixes: seq<string>, k: string)
    ensures k in InvalidateAll(store, prefixes) <==> k in store && !exists p :: p in prefixes && Matches(p, k)
    ensures k in InvalidateAll(store, prefixes) ==> InvalidateAll(store, prefixes)[k] == store[k]
    decreases prefixes
  {
    if prefixes != [] {
      InvalidateAllRemoves(Without(store, prefixes[0]), prefixes[1..], k);
      assert prefixes == [prefixes[0]] + prefixes[1..];
    }
  }

  /** A clean project invalidation takes out of the store, of one project's keys, exactly those
      in a listed namespace whose project id begins with the invalidated one, and keeps the
      entries of all others as they are. */
  lemma ProjectInvalidationRemovesExactly(
      store: Store, projectId: string, ns: string, parts: seq<Option<string>>, owner: string, digest: string -> string)
    requires ':' !in projectId && ':' !in ns
    ensures var key := CacheKeys.MakeKey(ns, parts, Some(owner), digest);
            var after := InvalidateAll(store, CacheKeys.Prefixes(projectId));
            && (key in after <==>
                 key in store && !(ns in CacheKeys.LISTED && projectId <= owner && CacheKeys.Marked(ns, parts, owner)))
            && (key in after ==> after[key] == store[key])
  {
    hide CacheKeys.MakeKey, CacheKeys.Prefixes, CacheKeys.Marked;
    var key, ps := CacheKeys.MakeKey(ns, parts, Some(owner), digest), CacheKeys.Prefixes(projectId);
    CacheKeys.InvalidationHitsExactly(projectId, ns, parts, owner, digest);
    InvalidateAllRemoves(store, ps, key);
    assert (exists p :: p in ps && Matches(p, key)) <==> CacheKeys.Removes(projectId, key);
  }

  /** The keys of the first n replies. */
  function Given(batches: seq<Batch>, n: nat): set<string>
    requires n <= |batches|
  {
    if n == 0 then {} else Given(batches, n - 1) + KeySet(batches[n - 1].keys)
  }

  function KeySet(keys: seq<string>): set<string> {
    set k | k in keys
  }

  /** A store without the keys of the first n replies. */
  function Left(store: Store, batches: seq<Batch>, n: nat): Store
    requires n <= |batches|
  {
    store - Given(batches, n)
  }

  lemma AllLeft(batches: seq<Batch>, store: Store)
    ensures Left(store, batches, 0) == store
  {
  }

  lemma CursorEnds(batches: seq<Batch>, prefix: string, store: Store)
    requires CompleteScan(batches, prefix, store)
    ensures batches != [] && forall i :: 0 <= i < |batches| ==> (batches[i].cursor == 0 <==> i == |batches| - 1)
  {
  }

  lemma StopFacts(batches: seq<Batch>, stop: Stop)
    ensures Stops(batches, stop) ==> RoundsCounted(batches, stop) == stop.round
    ensures Stops(batches, stop) ==> RoundsApplied(batches, stop) == stop.round + (if stop.AtDelete? && stop.applied then 1 else 0)
    ensures !Stops(batches, stop) ==> RoundsApplied(batches, stop) == RoundsCounted(batches, stop) == |batches|
  {
  }

  lemma ScanRound(store: Store, batches: seq<Batch>, i: nat)
    requires i < |batches|
    ensures Left(store, batches, i + 1) == Left(store, batches, i) - KeySet(batches[i].keys)
    ensures batches[i].keys == [] ==> Left(store, batches, i + 1) == Left(store, batches, i)
  {
  }

  lemma {:induction false} GivenKeys(batches: seq<Batch>, n: nat, k: string)
    requires n <= |batches|
    ensures k in Given(batches, n) <==> exists i :: 0 <= i < n && k in batches[i].keys
  {
    if n > 0 { GivenKeys(batches, n - 1, k); }
  }

  /** A complete scan removes exactly the keys under the prefix. */
  lemma ScanLeavesTheRest(batches: seq<Batch>, prefix: string, store: Store)
    requires CompleteScan(batches, prefix, store)
    ensures Left(store, batches, |batches|) == Without(store, prefix)
  {
    forall k | k in store
      ensures k in Given(batches, |batches|) <==> Matches(prefix, k)
    {
      GivenKeys(batches, |batches|, k);
    }
  }

  /** A scan that stops half way has removed nothing else. */
  lemma PartialScanStaysInside(batches: seq<Batch>, prefix: string, store: Store, n: nat, k: string)
    requires CompleteScan(batches, prefix, store) && n <= |batches| && k in Given(batches, n)
    ensures Matches(prefix, k)
  {
    GivenKeys(batches, n, k);
  }

  lemma Shrink(store: Store, gone: set<string>)
    ensures |store - gone| == |store| - |gone * store.Keys|
  {
    assert (store - gone).Keys == store.Keys - gone;
    assert store.Keys == (store.Keys - gone) + (gone * store.Keys);
    assert |store.Keys| == |store.Keys - gone| + |gone * store.Keys|;
    assert |store| == |store.Keys| && |store - gone| == |(store - gone).Keys|;
  }

  // ------------------------------------------------------------------ runs

  datatype Event =
    | Stored(key: string, value: Value, at: int, ttl: int)
    | Invalidated(prefix: string)
    | Lost(keys: set<string>)
    | Hit(key: string, value: Value, at: int)

  /** `log` is what happened, newest first. */
  datatype State = State(now: int, store: Store, log: seq<Event>)

  /** Operations that do not overlap. A read or write that the breaker skips or that fails
      shows only in `readable` and `written`; Redis may drop keys at any time. */
  datatype Step =
    | Tick(d: nat)
    | Cached(key: string, computed: Value, ttl: int, readable: bool, factoryTime: nat, written: bool)
    | Set(key: string, value: Value, ttl: int, written: bool)
    | Invalidate(prefix: string)
    | InvalidateInPart(prefix: string, removed: set<string>)
    | Drop(keys: set<string>)

  predicate Enabled(step: Step) {
    step.InvalidateInPart? ==> forall k :: k in step.removed ==> Matches(step.prefix, k)
  }

  function Write(s: State, key: string, value: Value, ttl: int): State {
    State(s.now, Put(s.store, key, value, ttl, s.now), [Stored(key, value, s.now, ttl)] + s.log)
  }

  function Lose(s: State, keys: set<string>): State {
    s.(store := s.store - keys, log := [Lost(keys)] + s.log)
  }

  function HitOf(s: State, step: Step): Value
    requires step.Cached?
  {
    if step.readable then Get(s.store, step.key, s.now) else Null
  }

  function Apply(s: State, step: Step): State {
    match step
    case Tick(d) => s.(now := s.now + d)
    case Cached(key, computed, ttl, readable, factoryTime, written) =>
      var hit := HitOf(s, step);
      if hit != Null then s.(log := [Hit(key, hit, s.now)] + s.log)
      else
        var later := s.(now := s.now + factoryTime);
        if written then Write(later, key, computed, ttl) else later
    case Set(key, value, ttl, written) => if written then Write(s, key, value, ttl) else s
    case Invalidate(prefix) => State(s.now, Without(s.store, prefix), [Invalidated(prefix)] + s.log)
    case InvalidateInPart(prefix, removed) => Lose(s, removed)
    case Drop(keys) => Lose(s, keys)
  }

  const START := State(0, map[], [])

  ghost predicate IsRun(steps: seq<Step>) {
    forall step :: step in steps ==> Enabled(step)
  }

  ghost function Exec(s: State, steps: seq<Step>): State
    decreases steps
  {
    if steps == [] then s else Exec(Apply(s, steps[0]), steps[1..])
  }

  /** The last value stored under a key, unless it was lost or a successful invalidation that
      covers the key came after it. */
  function Fresh(log: seq<Event>, key: string): Option<Event> {
    if log == [] then None
    else if log[0].Stored? && log[0].key == key then Some(log[0])
    else if log[0].Invalidated? && Matches(log[0].prefix, key) then None
    else if log[0].Lost? && key in log[0].keys then None
    else Fresh(log[1..], key)
  }

  predicate Young(stored: Event, now: int)
    requires stored.Stored?
  {
    stored.ttl > 0 ==> now < stored.at + 1000 * stored.ttl
  }

  lemma {:induction false} FreshIsStored(log: seq<Event>, key: string)
    ensures Fresh(log, key).Some? ==> Fresh(log, key).value.Stored? && Fresh(log, key).value.key == key
  {
    if log != [] { FreshIsStored(log[1..], key); }
  }

  /** A hit is justified by what came before it. */
  ghost predicate GoodHit(log: seq<Event>, i: nat)
    requires i < |log| && log[i].Hit?
  {
    var last := Fresh(log[i + 1..], log[i].key);
    last.Some? && last.value.Stored? && last.value.value == log[i].value && Young(last.value, log[i].at)
  }

  /** The store holds a key exactly while there is such a value for it. */
  ghost predicate EntryIsFresh(s: State, key: string) {
    var last := Fresh(s.log, key);
    && (key in s.store <==> last.Some?)
    && (key in s.store ==>
          last.value.Stored? && s.store[key] == Entry(last.value.value,
                             if last.value.ttl > 0 then AtTime(last.value.at + 1000 * last.value.ttl) else Never))
  }

  ghost predicate Inv(s: State) {
    && (forall key :: EntryIsFresh(s, key))
    && (forall i :: 0 <= i < |s.log| && s.log[i].Hit? ==> GoodHit(s.log, i))
  }

  lemma LoggedKeepsHits(e: Event, log: seq<Event>)
    requires forall i :: 0 <= i < |log| && log[i].Hit? ==> GoodHit(log, i)
    requires e.Hit? ==> GoodHit([e] + log, 0)
    ensures forall i :: 0 <= i < |[e] + log| && ([e] + log)[i].Hit? ==> GoodHit([e] + log, i)
  {
    var all := [e] + log;
    forall i | 0 < i < |all| && all[i].Hit?
      ensures GoodHit(all, i)
    {
      assert all[i + 1..] == log[i..] && GoodHit(log, i - 1);
    }
  }

  lemma WriteKeepsInv(s: State, key: string, value: Value, ttl: int)
    requires Inv(s)
    ensures Inv(Write(s, key, value, ttl))
  {
    var t := Write(s, key, value, ttl);
    LoggedKeepsHits(t.log[0], s.log);
    assert t.log[1..] == s.log;
    forall k
      ensures EntryIsFresh(t, k)
    {
      if k != key { assert EntryIsFresh(s, k); }
    }
  }

  /** Only time passes. */
  lemma QuietKeepsInv(s: State, t: State)
    requires Inv(s) && t.log == s.log && t.store == s.store
    ensures Inv(t)
  {
    forall k ensures EntryIsFresh(t, k) { assert EntryIsFresh(s, k); }
  }

  lemma HitKeepsInv(s: State, key: string)
    requires Inv(s) && Get(s.store, key, s.now) != Null
    ensures Inv(s.(log := [Hit(key, Get(s.store, key, s.now), s.now)] + s.log))
  {
    var t := s.(log := [Hit(key, Get(s.store, key, s.now), s.now)] + s.log);
    assert t.log[1..] == s.log && EntryIsFresh(s, key);
    LoggedKeepsHits(t.log[0], s.log);
    forall k ensures EntryIsFresh(t, k) { assert EntryIsFresh(s, k); }
  }

  lemma InvalidationKeepsInv(s: State, prefix: string)
    requires Inv(s)
    ensures Inv(State(s.now, Without(s.store, prefix), [Invalidated(prefix)] + s.log))
  {
    var t := State(s.now, Without(s.store, prefix), [Invalidated(prefix)] + s.log);
    LoggedKeepsHits(t.log[0], s.log);
    assert t.log[1..] == s.log;
    forall k ensures EntryIsFresh(t, k) { assert EntryIsFresh(s, k); }
  }

  lemma LossKeepsInv(s: State, keys: set<string>)
    requires Inv(s)
    ensures Inv(Lose(s, keys))
  {
    var t := Lose(s, keys);
    LoggedKeepsHits(t.log[0], s.log);
    assert t.log[1..] == s.log;
    forall k ensures EntryIsFresh(t, k) { assert EntryIsFresh(s, k); }
  }

  lemma StepKeepsInv(s: State, step: Step)
    requires Inv(s) && Enabled(step)
    ensures Inv(Apply(s, step))
  {
    hide Inv, Without, Get, Put, Write, Lose;
    match step
    case Set(key, value, ttl, written) =>
      if written { WriteKeepsInv(s, key, value, ttl); }
    case Cached(key, computed, ttl, readable, factoryTime, written) =>
      var later := s.(now := s.now + factoryTime);
      if HitOf(s, step) != Null {
        HitKeepsInv(s, key);
      } else {
        QuietKeepsInv(s, later);
        if written { WriteKeepsInv(later, key, computed, ttl); }
      }
    case Invalidate(prefix) => InvalidationKeepsInv(s, prefix);
    case InvalidateInPart(prefix, removed) => LossKeepsInv(s, removed);
    case Drop(keys) => LossKeepsInv(s, keys);
    case Tick(d) => QuietKeepsInv(s, Apply(s, step));
  }

  lemma {:induction false} RunKeepsInv(s: State, steps: seq<Step>)
    requires Inv(s) && IsRun(steps)
    ensures Inv(Exec(s, steps))
    decreases steps
  {
    if steps != [] {
      assert steps[0] in steps;
      StepKeepsInv(s, steps[0]);
      RunKeepsInv(Apply(s, steps[0]), steps[1..]);
    }
  }

  /** In every run of operations that do not overlap, with Redis failing, skipped or losing
      keys at will, every hit is the value last stored under its key, is younger than its
      ttl, and was stored after the last successful invalidation that covers it. */
  lemma HitsAreFresh(steps: seq<Step>, i: nat)
    requires IsRun(steps)
    requires i < |Exec(START, steps).log| && Exec(START, steps).log[i].Hit?
    ensures GoodHit(Exec(START, steps).log, i)
  {
    RunKeepsInv(START, steps);
  }

  /** What the next `cached` call after any run finds, exactly: a readable Redis gives the last
      value stored under the key if nothing has taken it since, its ttl is not over and it is
      not a null; in all other cases the value is computed again. So a failure can only turn a
      hit into a recomputation. */
  lemma HitsExactlyWhen(steps: seq<Step>, step: Step)
    requires IsRun(steps) && step.Cached?
    ensures var s := Exec(START, steps);
            var last := Fresh(s.log, step.key);
            HitOf(s, step) == if step.readable && last.Some? && last.value.Stored? && Young(last.value, s.now)
                              then last.value.value else Null
  {
    RunKeepsInv(START, steps);
    assert EntryIsFresh(Exec(START, steps), step.key);
    FreshIsStored(Exec(START, steps).log, step.key);
  }

  /** What a `cached` call does to a run: a hit stores nothing; a miss stores the computed
      value, if it can, with a fresh ttl, and then finds it for as long as that lasts. */
  lemma MissIsStored(steps: seq<Step>, step: Step, again: Step)
    requires IsRun(steps) && step.Cached? && again.Cached? && again.key == step.key && again.readable
    ensures var s := Exec(START, steps);
            var t := Apply(s, step);
            && (HitOf(s, step) != Null ==> t.store == s.store && HitOf(t, again) == HitOf(s, step))
            && (HitOf(s, step) == Null && step.written ==> HitOf(t, again) == step.computed)
            && forall d: nat :: HitOf(s, step) == Null && step.written ==>
                 HitOf(Apply(t, Tick(d)), again) == if step.ttl > 0 && d >= 1000 * step.ttl then Null else step.computed
  {
  }

  /** The run's operations are the client's: what the store holds after each of them. */
  lemma StepsAreTheOperations(s: State, key: string, computed: Value, ttl: int, b: Breaker.Status, read: Call, write: Call)
    requires read.now == s.now <= write.now
    ensures var hit := if Readable(b, read) then Get(s.store, key, read.now) else Null;
            var step := Step.Cached(key, computed, ttl, Readable(b, read), write.now - s.now, Writable(NextBreaker(b, read), write));
            && HitOf(s, step) == hit
            && Apply(s, step).store == if hit == Null && Writable(NextBreaker(b, read), write)
                                       then Put(s.store, key, computed, ttl, write.now) else s.store
  {
  }
}
