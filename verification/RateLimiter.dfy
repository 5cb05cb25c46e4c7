/** The in-memory sliding-window rate limiter: a bounded queue per key and a sweep that forgets idle keys,
    against the unbounded log of accepted requests. */
module RateLimiter {
  import opened Basics

  /** What the callers pass to Request for a key: maxRequestNum and duration in seconds. */
  datatype Params = Params(max: nat, duration: int)

  type Store = map<string, seq<int>>

  // ---------------------------------------------------------------- one operation

  /** Whether Request lets a request through, given the key's queue ([] when the key is absent). */
  predicate Admits(queue: seq<int>, p: Params, now: int) {
    queue == [] || |queue| < p.max || now - queue[0] >= p.duration
  }

  /** The store after Request. */
  function Serve(store: Store, key: string, p: Params, now: int): Store {
    var queue := Queue(store, key);
    if !Admits(queue, p, now) then store
    else if queue == [] || |queue| < p.max then store[key := queue + [now]]
    else store[key := queue[1..] + [now]]
  }

  function Queue(store: Store, key: string): seq<int> {
    if key in store then store[key] else []
  }

  predicate Expired(queue: seq<int>, expiration: nat, now: int) {
    queue == [] || now - queue[|queue| - 1] > expiration
  }

  /** The store after one pass of clearExpiredItems. */
  function Sweep(store: Store, expiration: nat, now: int): Store {
    map key | key in store && !Expired(store[key], expiration, now) :: store[key]
  }

  /** A time.Duration in whole seconds; durations are in nanoseconds. */
  function Seconds(duration: int): nat {
    if duration <= 0 then 0 else duration / 1_000_000_000
  }

  /** `expiration` is expirationDuration in whole seconds; the sweeps are started if that duration is positive. */
  class InMemoryRateLimiter {
    var store: Store
    const expiration: nat
    const sweeping: bool

    ghost predicate Valid()
      reads this
    {
      forall key | key in store :: store[key] != []
    }

    constructor (expirationDuration: int)
      ensures Valid() && store == map[]
      ensures expiration == if expirationDuration <= 0 then 0 else expirationDuration / 1_000_000_000
      ensures sweeping <==> expirationDuration > 0
    {
      store := map[];
      expiration, sweeping := Seconds(expirationDuration), expirationDuration > 0;
    }

    /** Go's make refuses a negative capacity, hence maxRequestNum >= 0. */
    method Request(key: string, maxRequestNum: int, duration: int, now: int) returns (accepted: bool)
      requires Valid() && maxRequestNum >= 0
      modifies this
      ensures Valid()
      ensures accepted == Admits(Queue(old(store), key), Params(maxRequestNum, duration), now)
      ensures store == Serve(old(store), key, Params(maxRequestNum, duration), now)
      ensures key !in old(store) ==> accepted && store == old(store)[key := [now]]
      ensures key in old(store) ==> var queue := old(store)[key];
        && (accepted <==> |queue| < maxRequestNum || now - queue[0] >= duration)
        && store == if !accepted then old(store)
                    else old(store)[key := (if |queue| < maxRequestNum then queue else queue[1..]) + [now]]
    {
      if key in store {
        var queue := store[key];
        if |queue| < maxRequestNum {
          store := store[key := queue + [now]];
          return true;
        } else if now - queue[0] >= duration {
          queue := queue[1..];
          queue := queue + [now];
          store := store[key := queue];
          return true;
        } else {
          return false;
        }
      }
      store := store[key := []];
      assert [] + [now] == [now];
      store := store[key := store[key] + [now]];
      return true;
    }

    /** One pass of the sweep; the keys are visited in any order. */
    method ClearExpiredItems(now: int)
      requires Valid() && sweeping
      modifies this
      ensures Valid()
      ensures store == Sweep(old(store), expiration, now)
      ensures forall key :: key in store <==>
        key in old(store) && now - old(store)[key][|old(store)[key]| - 1] <= expiration
      ensures forall key | key in store :: store[key] == old(store)[key]
    {
      var keys := store.Keys;
      while keys != {}
        invariant keys <= store.Keys <= old(store).Keys
        invariant forall key | key in store :: store[key] == old(store)[key]
        invariant forall key | key in old(store) && key !in keys ::
          key in store <==> !Expired(old(store)[key], expiration, now)
        decreases keys
      {
        var key :| key in keys;
        var queue := store[key];
        var size := |queue|;
        if size == 0 || now - queue[size - 1] > expiration {
          store := store - {key};
        }
        keys := keys - {key};
      }
    }
  }

  // ---------------------------------------------------------------- runs and the reference log

  datatype Event = Request(key: string, now: int) | Tick(now: int)

  /** The clock does not go backwards. */
  ghost predicate Monotone(events: seq<Event>) {
    forall i, j | 0 <= i < j < |events| :: events[i].now <= events[j].now
  }

  ghost predicate Sweeps(events: seq<Event>) {
    exists i :: 0 <= i < |events| && events[i].Tick?
  }

  /** The limiter's store after a run: sweeps happen at the Tick events. */
  function StoreAfter(cfg: string -> Params, expiration: nat, events: seq<Event>): Store {
    if events == [] then map[] else
    var store, e := StoreAfter(cfg, expiration, events[..|events| - 1]), events[|events| - 1];
    match e
    case Request(key, now) => Serve(store, key, cfg(key), now)
    case Tick(now) => Sweep(store, expiration, now)
  }

  /** How many requests of the log are younger than `duration`. */
  ghost function Younger(log: seq<int>, now: int, duration: int): nat {
    if log == [] then 0 else
    Younger(log[..|log| - 1], now, duration) + (if now - log[|log| - 1] < duration then 1 else 0)
  }

  /** That is the number of the entries less than `duration` old. */
  lemma {:induction false} YoungerIs(log: seq<int>, now: int, duration: int) returns (young: seq<int>, idx: seq<nat>)
    ensures KeptInOrder(log, (t: int) => now - t < duration, (t: int) => t, young, idx)
    ensures Younger(log, now, duration) == |young|
  {
    young, idx := [], [];
    if log != [] {
      var init, last := log[..|log| - 1], log[|log| - 1];
      young, idx := YoungerIs(init, now, duration);
      assert log == init + [last];
      var keep, make := (t: int) => now - t < duration, (t: int) => t;
      if now - last < duration {
        InOrderTakes(init, last, keep, make, young, idx);
        young, idx := young + [last], idx + [|init|];
      } else {
        InOrderPasses(init, last, keep, make, young, idx);
      }
    }
  }

  /** The promise: a request passes when the key has fewer than max accepted requests younger than duration. */
  ghost predicate ShouldAdmit(log: seq<int>, p: Params, now: int) {
    Younger(log, now, p.duration) < p.max
  }

  /** The accepted requests of a key, oldest first and never forgotten, by the promise. */
  ghost function Log(cfg: string -> Params, events: seq<Event>, key: string): seq<int> {
    if events == [] then [] else
    var log, e := Log(cfg, events[..|events| - 1], key), events[|events| - 1];
    if e.Request? && e.key == key && ShouldAdmit(log, cfg(key), e.now) then log + [e.now] else log
  }

  /** Every decision of the run is the promised one. */
  ghost predicate Faithful(cfg: string -> Params, expiration: nat, events: seq<Event>) {
    forall i | 0 <= i < |events| && events[i].Request? :: DecisionRight(cfg, expiration, events[..i], events[i])
  }

  ghost predicate DecisionRight(cfg: string -> Params, expiration: nat, before: seq<Event>, e: Event)
    requires e.Request?
  {
    Admits(Queue(StoreAfter(cfg, expiration, before), e.key), cfg(e.key), e.now)
      == ShouldAdmit(Log(cfg, before, e.key), cfg(e.key), e.now)
  }

  // ---------------------------------------------------------------- the queue stands for the log

  ghost predicate Sorted(log: seq<int>) {
    forall i, j | 0 <= i <= j < |log| :: log[i] <= log[j]
  }

  /** The queue is the newest part of the log, and if it is not full the rest of the log is too old to count. */
  ghost predicate Agrees(queue: seq<int>, log: seq<int>, p: Params, now: int) {
    && Sorted(log) && (forall i | 0 <= i < |log| :: log[i] <= now)
    && |queue| <= |log| && |queue| <= p.max && queue == log[|log| - |queue|..]
    && (|queue| < p.max ==> forall i | 0 <= i < |log| - |queue| :: now - log[i] >= p.duration)
  }

  lemma {:induction false} YoungerSplit(a: seq<int>, b: seq<int>, now: int, duration: int)
    ensures Younger(a + b, now, duration) == Younger(a, now, duration) + Younger(b, now, duration)
  {
    if b == [] {
      assert a + b == a;
    } else {
      assert (a + b)[..|a + b| - 1] == a + b[..|b| - 1];
      YoungerSplit(a, b[..|b| - 1], now, duration);
    }
  }

  lemma {:induction false} YoungerBounds(log: seq<int>, now: int, duration: int)
    ensures Younger(log, now, duration) <= |log|
    ensures (forall i | 0 <= i < |log| :: now - log[i] >= duration) ==> Younger(log, now, duration) == 0
    ensures (forall i | 0 <= i < |log| :: now - log[i] < duration) ==> Younger(log, now, duration) == |log|
  {
    if log != [] { YoungerBounds(log[..|log| - 1], now, duration); }
  }

  lemma OldPrefix(log: seq<int>, k: nat, now: int, duration: int)
    requires k <= |log| && forall i | 0 <= i < k :: now - log[i] >= duration
    ensures Younger(log, now, duration) <= |log| - k
  {
    YoungerSplit(log[..k], log[k..], now, duration);
    assert log == log[..k] + log[k..];
    YoungerBounds(log[..k], now, duration);
    YoungerBounds(log[k..], now, duration);
  }

  lemma YoungSuffix(log: seq<int>, k: nat, now: int, duration: int)
    requires k <= |log| && forall i | k <= i < |log| :: now - log[i] < duration
    ensures Younger(log, now, duration) >= |log| - k
  {
    YoungerSplit(log[..k], log[k..], now, duration);
    assert log == log[..k] + log[k..];
    YoungerBounds(log[k..], now, duration);
  }

  lemma AgreeingDecision(queue: seq<int>, log: seq<int>, p: Params, now: int)
    requires p.max >= 1 && Agrees(queue, log, p, now)
    ensures Admits(queue, p, now) == ShouldAdmit(log, p, now)
  {
    var k := |log| - |queue|;
    if |queue| < p.max {
      OldPrefix(log, k, now, p.duration);
    } else if now - queue[0] >= p.duration {
      OldPrefix(log, k + 1, now, p.duration);
    } else {
      YoungSuffix(log, k, now, p.duration);
    }
  }

  lemma ServeAgrees(store: Store, key: string, log: seq<int>, p: Params, now: int)
    requires p.max >= 1 && Agrees(Queue(store, key), log, p, now)
    ensures Agrees(Queue(Serve(store, key, p, now), key), if ShouldAdmit(log, p, now) then log + [now] else log, p, now)
  {
    AgreeingDecision(Queue(store, key), log, p, now);
    if Admits(Queue(store, key), p, now) { AdmittedAgrees(Queue(store, key), log, p, now); }
  }

  /** The new request goes to the end of both, and the queue drops its oldest one when it is full. */
  lemma AdmittedAgrees(queue: seq<int>, log: seq<int>, p: Params, now: int)
    requires p.max >= 1 && Agrees(queue, log, p, now)
    ensures Agrees(if queue == [] || |queue| < p.max then queue + [now] else queue[1..] + [now], log + [now], p, now)
  {
  }

  lemma SweepAgrees(store: Store, key: string, log: seq<int>, p: Params, expiration: nat, now: int)
    requires p.max >= 1 && p.duration <= expiration + 1 && Agrees(Queue(store, key), log, p, now)
    ensures Agrees(Queue(Sweep(store, expiration, now), key), log, p, now)
  {
    var queue := Queue(store, key);
    if queue != [] { assert queue[|queue| - 1] == log[|log| - 1]; }
  }

  lemma AgreesLater(queue: seq<int>, log: seq<int>, p: Params, now: int, later: int)
    requires Agrees(queue, log, p, now) && now <= later
    ensures Agrees(queue, log, p, later)
  {
  }

  lemma {:induction false} RunAgrees(cfg: string -> Params, expiration: nat, events: seq<Event>, key: string, now: int)
    requires cfg(key).max >= 1 && (Sweeps(events) ==> cfg(key).duration <= expiration + 1)
    requires Monotone(events) && forall i | 0 <= i < |events| :: events[i].now <= now
    ensures Agrees(Queue(StoreAfter(cfg, expiration, events), key), Log(cfg, events, key), cfg(key), now)
  {
    if events != [] {
      var before, e := events[..|events| - 1], events[|events| - 1];
      assert forall i | 0 <= i < |before| :: before[i] == events[i];
      RunAgrees(cfg, expiration, before, key, e.now);
      var store, log := StoreAfter(cfg, expiration, before), Log(cfg, before, key);
      if e.Tick? {
        assert Sweeps(events);
        SweepAgrees(store, key, log, cfg(key), expiration, e.now);
      } else if e.key == key {
        ServeAgrees(store, key, log, cfg(key), e.now);
      }
      AgreesLater(Queue(StoreAfter(cfg, expiration, events), key), Log(cfg, events, key), cfg(key), e.now, now);
    }
  }

  /** With sweeps at any moments, every decision of every run is the one the unbounded log calls for, provided each
      key's maximum is positive and, if there are sweeps, its duration exceeds the expiration by at most one second. */
  lemma LimiterMatchesLog(cfg: string -> Params, expiration: nat, events: seq<Event>)
    requires Monotone(events)
    requires forall i | 0 <= i < |events| && events[i].Request? ::
      cfg(events[i].key).max >= 1 && (Sweeps(events) ==> cfg(events[i].key).duration <= expiration + 1)
    ensures Faithful(cfg, expiration, events)
  {
    forall i | 0 <= i < |events| && events[i].Request?
      ensures DecisionRight(cfg, expiration, events[..i], events[i])
    {
      var e := events[i];
      assert forall k | 0 <= k < i :: events[..i][k] == events[k];
      RunAgrees(cfg, expiration, events[..i], e.key, e.now);
      AgreeingDecision(Queue(StoreAfter(cfg, expiration, events[..i]), e.key), Log(cfg, events[..i], e.key),
                       cfg(e.key), e.now);
    }
  }

  // ---------------------------------------------------------------- no window is overfull

  ghost function InWindow(log: seq<int>, start: int, duration: int): nat {
    if log == [] then 0 else
    InWindow(log[..|log| - 1], start, duration) + (if start <= log[|log| - 1] < start + duration then 1 else 0)
  }

  /** That is the number of the entries in the window. */
  lemma {:induction false} InWindowIs(log: seq<int>, start: int, duration: int) returns (some: seq<int>, idx: seq<nat>)
    ensures KeptInOrder(log, (t: int) => start <= t < start + duration, (t: int) => t, some, idx)
    ensures InWindow(log, start, duration) == |some|
  {
    some, idx := [], [];
    if log != [] {
      var init, last := log[..|log| - 1], log[|log| - 1];
      some, idx := InWindowIs(init, start, duration);
      assert log == init + [last];
      var keep, make := (t: int) => start <= t < start + duration, (t: int) => t;
      if start <= last < start + duration {
        InOrderTakes(init, last, keep, make, some, idx);
        some, idx := some + [last], idx + [|init|];
      } else {
        InOrderPasses(init, last, keep, make, some, idx);
      }
    }
  }

  /** Every entry was admitted by the promise when it was written. */
  ghost predicate Admitted(log: seq<int>, p: Params) {
    Sorted(log) && forall i | 0 <= i < |log| :: ShouldAdmit(log[..i], p, log[i])
  }

  lemma {:induction false} WindowIsYoung(log: seq<int>, now: int, start: int, duration: int)
    requires start <= now < start + duration
    ensures InWindow(log, start, duration) <= Younger(log, now, duration)
  {
    if log != [] { WindowIsYoung(log[..|log| - 1], now, start, duration); }
  }

  lemma {:induction false} WindowBound(log: seq<int>, p: Params, start: int)
    requires Admitted(log, p)
    ensures InWindow(log, start, p.duration) <= p.max
  {
    if log != [] {
      var init, last := log[..|log| - 1], log[|log| - 1];
      assert forall i | 0 <= i < |init| :: init[..i] == log[..i];
      WindowBound(init, p, start);
      if start <= last < start + p.duration {
        assert ShouldAdmit(init, p, last);
        WindowIsYoung(init, last, start, p.duration);
      }
    }
  }

  lemma {:induction false} LogAdmitted(cfg: string -> Params, events: seq<Event>, key: string, now: int)
    requires Monotone(events) && forall i | 0 <= i < |events| :: events[i].now <= now
    ensures Admitted(Log(cfg, events, key), cfg(key))
    ensures forall i | 0 <= i < |Log(cfg, events, key)| :: Log(cfg, events, key)[i] <= now
  {
    if events != [] {
      var before, e := events[..|events| - 1], events[|events| - 1];
      LogAdmitted(cfg, before, key, e.now);
      var log, log' := Log(cfg, before, key), Log(cfg, events, key);
      if log' != log {
        assert forall i | 0 <= i < |log| :: log'[..i] == log[..i];
        assert log'[..|log|] == log;
      }
    }
  }

  /** The requests of a key that the limiter let through in a run, oldest first. */
  ghost function Passed(cfg: string -> Params, expiration: nat, events: seq<Event>, key: string): seq<int> {
    if events == [] then [] else
    var before, e := events[..|events| - 1], events[|events| - 1];
    Passed(cfg, expiration, before, key) +
    if e.Request? && e.key == key && Admits(Queue(StoreAfter(cfg, expiration, before), key), cfg(key), e.now)
    then [e.now]
    else []
  }

  lemma {:induction false} PassedIsLog(cfg: string -> Params, expiration: nat, events: seq<Event>, key: string)
    requires cfg(key).max >= 1 && (Sweeps(events) ==> cfg(key).duration <= expiration + 1) && Monotone(events)
    ensures Passed(cfg, expiration, events, key) == Log(cfg, events, key)
  {
    if events != [] {
      var before, e := events[..|events| - 1], events[|events| - 1];
      assert forall i | 0 <= i < |before| :: before[i] == events[i];
      PassedIsLog(cfg, expiration, before, key);
      if e.Request? && e.key == key {
        RunAgrees(cfg, expiration, before, key, e.now);
        AgreeingDecision(Queue(StoreAfter(cfg, expiration, before), key), Log(cfg, before, key), cfg(key), e.now);
      }
    }
  }

  /** Over every run, sweeps included, no window of length duration holds more than max passed requests of a key. */
  lemma NoWindowOverfull(cfg: string -> Params, expiration: nat, events: seq<Event>, key: string, start: int)
    requires cfg(key).max >= 1 && (Sweeps(events) ==> cfg(key).duration <= expiration + 1) && Monotone(events)
    ensures InWindow(Passed(cfg, expiration, events, key), start, cfg(key).duration) <= cfg(key).max
  {
    PassedIsLog(cfg, expiration, events, key);
    LogAdmitted(cfg, events, key, if events == [] then 0 else events[|events| - 1].now);
    WindowBound(Log(cfg, events, key), cfg(key), start);
  }

  // ---------------------------------------------------------------- the condition is exact

  function Repeat(n: nat): (s: seq<int>)
    ensures |s| == n && forall i | 0 <= i < n :: s[i] == 0
  {
    seq(n, _ => 0)
  }

  function Burst(n: nat): (s: seq<Event>)
    ensures |s| == n && forall i | 0 <= i < n :: s[i] == Request("key", 0)
  {
    seq(n, _ => Request("key", 0))
  }

  lemma {:induction false} BurstPasses(p: Params, expiration: nat, n: nat)
    requires n <= p.max && p.duration > 0
    ensures Queue(StoreAfter(_ => p, expiration, Burst(n)), "key") == Repeat(n)
    ensures Log(_ => p, Burst(n), "key") == Repeat(n)
  {
    if n > 0 {
      assert Burst(n)[..n - 1] == Burst(n - 1);
      BurstPasses(p, expiration, n - 1);
      YoungerBounds(Repeat(n - 1), 0, p.duration);
      assert Repeat(n - 1) + [0] == Repeat(n);
    }
  }

  /** A key whose maximum is 0 is let through once. */
  lemma ZeroMaxUnfaithful(p: Params, expiration: nat)
    requires p.max == 0
    ensures !Faithful(_ => p, expiration, [Request("key", 0)])
  {
    var events := [Request("key", 0)];
    assert events[..0] == [];
    assert !DecisionRight(_ => p, expiration, events[..0], events[0]);
  }

  /** A key whose duration is longer is forgotten while its requests still count. */
  lemma ShortExpirationUnfaithful(p: Params, expiration: nat)
    requires p.max >= 1 && p.duration > expiration + 1
    ensures !Faithful(_ => p, expiration, Burst(p.max) + [Tick(expiration + 1), Request("key", expiration + 1)])
  {
    var cfg := _ => p;
    var burst := Burst(p.max);
    var ticked := burst + [Tick(expiration + 1)];
    var events := burst + [Tick(expiration + 1), Request("key", expiration + 1)];
    BurstPasses(p, expiration, p.max);
    assert ticked[..p.max] == burst;
    assert events[..p.max + 1] == ticked;
    YoungerBounds(Repeat(p.max), expiration + 1, p.duration);
    assert !DecisionRight(cfg, expiration, events[..p.max + 1], events[p.max + 1]);
  }

  /** The runs of a limiter that was initialised with this expirationDuration: without one there are no sweeps. */
  ghost predicate Possible(events: seq<Event>, expirationDuration: int) {
    Monotone(events) && (Sweeps(events) ==> expirationDuration > 0)
  }

  /** For one setting used by every key, all runs are faithful exactly when the setting satisfies the condition. */
  lemma FaithfulExactlyWhen(p: Params, expirationDuration: int)
    ensures
      (forall events | Possible(events, expirationDuration) ::
         Faithful(_ => p, Seconds(expirationDuration), events)) <==>
      p.max >= 1 && (expirationDuration > 0 ==> p.duration <= expirationDuration / 1_000_000_000 + 1)
  {
    var expiration := Seconds(expirationDuration);
    if p.max >= 1 && (expirationDuration > 0 ==> p.duration <= expiration + 1) {
      forall events | Possible(events, expirationDuration) ensures Faithful(_ => p, expiration, events) {
        LimiterMatchesLog(_ => p, expiration, events);
      }
    } else if p.max == 0 {
      ZeroMaxUnfaithful(p, expiration);
      assert Possible([Request("key", 0)], expirationDuration);
    } else {
      ShortExpirationUnfaithful(p, expiration);
      assert Possible(Burst(p.max) + [Tick(expiration + 1), Request("key", expiration + 1)], expirationDuration);
    }
  }
}
