/**
  The in-memory rate limiter: a bounded queue of accepted timestamps per key,
  and a background cleaner that drops whole queues. It is compared with the
  limiter one would write first, which keeps every accepted timestamp for ever.
*/
module RateLimit {

  type Store = map<string, seq<int>>

  /** Per-key limits: the number of requests and the window in seconds. */
  datatype Limit = Limit(maxRequestNum: int, duration: int)

  /** The queue after a request at `now`, and whether the request is accepted. */
  function Admit(queue: seq<int>, limit: Limit, now: int): (r: (seq<int>, bool)) {
    if |queue| == 0 || |queue| < limit.maxRequestNum then (queue + [now], true)
    else if now - queue[0] >= limit.duration then (queue[1..] + [now], true)
    else (queue, false)
  }

  /** A queue the cleaner drops: empty, or its newest timestamp is past the expiration. */
  predicate Stale(queue: seq<int>, expiration: int, now: int) {
    |queue| == 0 || now - queue[|queue| - 1] > expiration
  }

  function Cleaned(store: Store, expiration: int, now: int): Store {
    map k | k in store && !Stale(store[k], expiration, now) :: store[k]
  }

  /** Queues in the store are never empty: the first request of a key stores one timestamp. */
  ghost predicate NoEmptyQueue(store: Store) {
    forall k :: k in store ==> |store[k]| > 0
  }

  function QueueOf(store: Store, key: string): seq<int> {
    if key in store then store[key] else []
  }

  class InMemoryRateLimiter {
    var store: Store
    const expiration: int // whole seconds

    constructor (expiration: int)
      ensures this.expiration == expiration && store == map[] && NoEmptyQueue(store)
    {
      this.expiration := expiration;
      this.store := map[];
    }

    ghost predicate Valid()
      reads this
    {
      NoEmptyQueue(store)
    }

    /** A negative limit is a run-time error in Go, where it is the capacity of a new queue. */
    method Request(key: string, maxRequestNum: int, duration: int, now: int) returns (accepted: bool)
      requires Valid() && maxRequestNum >= 0
      modifies this`store
      ensures Valid()
      ensures var (queue, ok) := Admit(QueueOf(old(store), key), Limit(maxRequestNum, duration), now);
              accepted == ok && store == old(store)[key := queue]
    {
      if key in store {
        var queue := store[key];
        if |queue| < maxRequestNum {
          store := store[key := queue + [now]];
          return true;
        } else if now - queue[0] >= duration {
          store := store[key := queue[1..] + [now]];
          return true;
        } else {
          return false;
        }
      }
      store := store[key := [now]];
      assert [] + [now] == [now];
      return true;
    }

    /** One round of the background cleaner. */
    method ClearExpiredItems(now: int)
      requires Valid()
      modifies this`store
      ensures Valid() && store == Cleaned(old(store), expiration, now)
    {
      var todo := store.Keys;
      while todo != {}
        invariant todo <= old(store).Keys
        invariant store.Keys <= old(store).Keys && (forall k :: k in store ==> store[k] == old(store)[k])
        invariant forall k :: k in old(store) ==> (k in store <==> k in todo || !Stale(old(store)[k], expiration, now))
        decreases |todo|
      {
        var key :| key in todo;
        todo := todo - {key};
        var queue := store[key];
        var size := |queue|;
        if size == 0 || now - queue[size - 1] > expiration {
          store := store - {key};
        }
      }
    }
  }

  // ---- runs of the limiter, and of the reference ----

  datatype Event = Ask(key: string, now: int) | Clean(now: int)

  /** The clock never goes back. */
  ghost predicate Monotone(ev: seq<Event>) {
    forall i, j :: 0 <= i < j < |ev| ==> ev[i].now <= ev[j].now
  }

  function StepStore(store: Store, e: Event, limits: string -> Limit, expiration: int): Store {
    match e
    case Ask(key, now) => store[key := Admit(QueueOf(store, key), limits(key), now).0]
    case Clean(now) => Cleaned(store, expiration, now)
  }

  function StoreAfter(ev: seq<Event>, limits: string -> Limit, expiration: int): Store {
    if ev == [] then map[] else StepStore(StoreAfter(ev[..|ev| - 1], limits, expiration), ev[|ev| - 1], limits, expiration)
  }

  /** Whether the limiter accepts a request for `key` at `now` after the events so far. */
  predicate Accepts(ev: seq<Event>, limits: string -> Limit, expiration: int, key: string, now: int) {
    Admit(QueueOf(StoreAfter(ev, limits, expiration), key), limits(key), now).1
  }

  /** The number of logged timestamps younger than the duration. */
  function Young(log: seq<int>, duration: int, now: int): nat {
    if log == [] then 0
    else Young(log[..|log| - 1], duration, now) + if now - log[|log| - 1] < duration then 1 else 0
  }

  /** A limit below one still lets one request through, as the limiter does. */
  function Cap(limit: Limit): int {
    if limit.maxRequestNum < 1 then 1 else limit.maxRequestNum
  }

  /** The reference: every accepted timestamp is kept, and the young ones are counted. */
  function StepLog(log: seq<int>, e: Event, limit: Limit, key: string): seq<int> {
    if e.Ask? && e.key == key && Young(log, limit.duration, e.now) < Cap(limit) then log + [e.now] else log
  }

  function FullLog(ev: seq<Event>, limits: string -> Limit, key: string): seq<int> {
    if ev == [] then [] else StepLog(FullLog(ev[..|ev| - 1], limits, key), ev[|ev| - 1], limits(key), key)
  }

  predicate ReferenceAccepts(ev: seq<Event>, limits: string -> Limit, key: string, now: int) {
    Young(FullLog(ev, limits, key), limits(key).duration, now) < Cap(limits(key))
  }

  // ---- counting young entries ----

  ghost predicate Sorted(log: seq<int>) {
    forall i, j :: 0 <= i < j < |log| ==> log[i] <= log[j]
  }

  lemma {:induction false} YoungSplit(a: seq<int>, b: seq<int>, duration: int, now: int)
    ensures Young(a + b, duration, now) == Young(a, duration, now) + Young(b, duration, now)
    decreases |b|
  {
    if b == [] {
      assert a + b == a;
    } else {
      assert (a + b)[..|a + b| - 1] == a + b[..|b| - 1];
      YoungSplit(a, b[..|b| - 1], duration, now);
    }
  }

  lemma {:induction false} YoungBounds(log: seq<int>, duration: int, now: int)
    ensures Young(log, duration, now) <= |log|
    ensures (forall i :: 0 <= i < |log| ==> now - log[i] >= duration) ==> Young(log, duration, now) == 0
    ensures (forall i :: 0 <= i < |log| ==> now - log[i] < duration) ==> Young(log, duration, now) == |log|
    decreases |log|
  {
    if log != [] { YoungBounds(log[..|log| - 1], duration, now); }
  }

  lemma OldPrefix(a: seq<int>, b: seq<int>, duration: int, now: int)
    requires forall i :: 0 <= i < |a| ==> now - a[i] >= duration
    ensures Young(a + b, duration, now) <= |b|
  {
    YoungSplit(a, b, duration, now);
    YoungBounds(a, duration, now);
    YoungBounds(b, duration, now);
  }

  lemma YoungSuffix(a: seq<int>, b: seq<int>, duration: int, now: int)
    requires forall i :: 0 <= i < |b| ==> now - b[i] < duration
    ensures Young(a + b, duration, now) >= |b|
  {
    YoungSplit(a, b, duration, now);
    YoungBounds(b, duration, now);
  }

  /** In a sorted log, fewer than `cap` entries are young exactly when the cap-th newest is old or missing. */
  lemma YoungBelow(log: seq<int>, cap: int, duration: int, now: int)
    requires Sorted(log) && cap >= 1
    ensures Young(log, duration, now) < cap <==> |log| < cap || now - log[|log| - cap] >= duration
  {
    if |log| < cap {
      YoungBounds(log, duration, now);
    } else {
      var j := |log| - cap;
      if now - log[j] >= duration {
        assert log == log[..j + 1] + log[j + 1..];
        OldPrefix(log[..j + 1], log[j + 1..], duration, now);
      } else {
        assert log == log[..j] + log[j..];
        YoungSuffix(log[..j], log[j..], duration, now);
      }
    }
  }

  // ---- the bounded queue against the full log ----

  /**
    The queue is the newest part of the log, at most `cap` long; if it is
    shorter than that, everything left out of it is old for good.
  */
  ghost predicate Tracks(queue: seq<int>, log: seq<int>, limit: Limit, clock: int) {
    && |queue| <= |log| && queue == log[|log| - |queue|..] && |queue| <= Cap(limit)
    && Sorted(log) && (forall i :: 0 <= i < |log| ==> log[i] <= clock)
    && (|queue| < Cap(limit) ==> forall i :: 0 <= i < |log| - |queue| ==> clock - log[i] >= limit.duration)
  }

  lemma TracksDecides(queue: seq<int>, log: seq<int>, limit: Limit, clock: int, now: int)
    requires Tracks(queue, log, limit, clock) && clock <= now
    ensures Admit(queue, limit, now).1 <==> Young(log, limit.duration, now) < Cap(limit)
  {
    var n := |log| - |queue|;
    if |queue| == Cap(limit) {
      YoungBelow(log, Cap(limit), limit.duration, now);
      assert queue[0] == log[n];
    } else {
      ShortQueueIsBelow(log[..n], queue, limit.duration, now);
      assert log == log[..n] + queue;
    }
  }

  lemma ShortQueueIsBelow(before: seq<int>, queue: seq<int>, duration: int, now: int)
    requires forall i :: 0 <= i < |before| ==> now - before[i] >= duration
    ensures Young(before + queue, duration, now) <= |queue|
  {
    hide Young;
    YoungSplit(before, queue, duration, now);
    YoungBounds(before, duration, now);
    YoungBounds(queue, duration, now);
  }

  lemma TracksAsk(queue: seq<int>, log: seq<int>, limit: Limit, clock: int, now: int)
    requires Tracks(queue, log, limit, clock) && clock <= now
    ensures Tracks(Admit(queue, limit, now).0,
                   if Young(log, limit.duration, now) < Cap(limit) then log + [now] else log, limit, now)
  {
    TracksDecides(queue, log, limit, clock, now);
    if Admit(queue, limit, now).1 { TracksAppend(queue, log, limit, clock, now); }
  }

  lemma TracksAppend(queue: seq<int>, log: seq<int>, limit: Limit, clock: int, now: int)
    requires Tracks(queue, log, limit, clock) && clock <= now && Admit(queue, limit, now).1
    ensures Tracks(Admit(queue, limit, now).0, log + [now], limit, now)
  {
    var n := |log| - |queue|;
    if |queue| < Cap(limit) {
      assert queue + [now] == (log + [now])[n..];
    } else {
      assert queue[1..] + [now] == (log + [now])[n + 1..];
    }
  }

  lemma TracksClean(queue: seq<int>, log: seq<int>, limit: Limit, clock: int, now: int, expiration: int)
    requires Tracks(queue, log, limit, clock) && clock <= now && limit.duration <= expiration + 1
    ensures Tracks(queue, log, limit, now)
    ensures Stale(queue, expiration, now) ==> Tracks([], log, limit, now)
  {
  }

  lemma StepTracks(store: Store, log: seq<int>, e: Event, limits: string -> Limit, expiration: int, key: string, clock: int)
    requires limits(key).duration <= expiration + 1 && clock <= e.now
    requires Tracks(QueueOf(store, key), log, limits(key), clock)
    ensures Tracks(QueueOf(StepStore(store, e, limits, expiration), key), StepLog(log, e, limits(key), key), limits(key), e.now)
  {
    var queue := QueueOf(store, key);
    if e.Ask? && e.key == key {
      TracksAsk(queue, log, limits(key), clock, e.now);
    } else {
      TracksClean(queue, log, limits(key), clock, e.now, expiration);
    }
  }

  lemma {:induction false} RunTracks(ev: seq<Event>, limits: string -> Limit, expiration: int, key: string, clock: int)
    requires Monotone(ev) && limits(key).duration <= expiration + 1
    requires ev == [] || ev[|ev| - 1].now == clock
    ensures Tracks(QueueOf(StoreAfter(ev, limits, expiration), key), FullLog(ev, limits, key), limits(key), clock)
    decreases |ev|
  {
    if ev != [] {
      var rest := ev[..|ev| - 1];
      var before := if rest == [] then clock else rest[|rest| - 1].now;
      RunTracks(rest, limits, expiration, key, before);
      StepTracks(StoreAfter(rest, limits, expiration), FullLog(rest, limits, key), ev[|ev| - 1], limits, expiration, key, before);
    }
  }

  /**
    With the window no longer than the expiration plus one second, the bounded
    queue with cleanups anywhere decides every request as the full log does.
  */
  lemma LimiterMatchesFullLog(ev: seq<Event>, limits: string -> Limit, expiration: int, key: string, now: int)
    requires Monotone(ev) && (ev == [] || ev[|ev| - 1].now <= now)
    requires limits(key).duration <= expiration + 1
    ensures Accepts(ev, limits, expiration, key, now) <==> ReferenceAccepts(ev, limits, key, now)
  {
    var clock := if ev == [] then now else ev[|ev| - 1].now;
    RunTracks(ev, limits, expiration, key, clock);
    TracksDecides(QueueOf(StoreAfter(ev, limits, expiration), key), FullLog(ev, limits, key), limits(key), clock, now);
  }

  /** The timestamps the limiter itself accepted for `key`. */
  function AcceptedTimes(ev: seq<Event>, limits: string -> Limit, expiration: int, key: string): seq<int> {
    if ev == [] then []
    else
      var rest, e := ev[..|ev| - 1], ev[|ev| - 1];
      AcceptedTimes(rest, limits, expiration, key)
      + if e.Ask? && e.key == key && Accepts(rest, limits, expiration, key, e.now) then [e.now] else []
  }

  lemma {:induction false} AcceptedTimesAreTheFullLog(ev: seq<Event>, limits: string -> Limit, expiration: int, key: string)
    requires Monotone(ev) && limits(key).duration <= expiration + 1
    ensures AcceptedTimes(ev, limits, expiration, key) == FullLog(ev, limits, key)
    decreases |ev|
  {
    if ev != [] {
      var rest, e := ev[..|ev| - 1], ev[|ev| - 1];
      AcceptedTimesAreTheFullLog(rest, limits, expiration, key);
      if e.Ask? && e.key == key { LimiterMatchesFullLog(rest, limits, expiration, key, e.now); }
    }
  }

  lemma {:induction false} FullLogIsSpread(ev: seq<Event>, limits: string -> Limit, key: string, i: nat)
    requires Monotone(ev) && i + Cap(limits(key)) < |FullLog(ev, limits, key)|
    ensures var log := FullLog(ev, limits, key); log[i + Cap(limits(key))] - log[i] >= limits(key).duration
    decreases |ev|
  {
    var rest, e, cap := ev[..|ev| - 1], ev[|ev| - 1], Cap(limits(key));
    var log := FullLog(rest, limits, key);
    if i + cap < |log| {
      FullLogIsSpread(rest, limits, key, i);
    } else {
      var exp := limits(key).duration;
      RunTracks(rest, limits, exp, key, if rest == [] then 0 else rest[|rest| - 1].now);
      YoungBelow(log, cap, limits(key).duration, e.now);
    }
  }

  /** No window of length `duration` ever holds more accepted requests than the limit. */
  lemma WindowHoldsAtMostTheLimit(ev: seq<Event>, limits: string -> Limit, expiration: int, key: string, i: nat)
    requires Monotone(ev) && limits(key).duration <= expiration + 1
    requires i + Cap(limits(key)) < |AcceptedTimes(ev, limits, expiration, key)|
    ensures var times := AcceptedTimes(ev, limits, expiration, key);
            times[i + Cap(limits(key))] - times[i] >= limits(key).duration
  {
    AcceptedTimesAreTheFullLog(ev, limits, expiration, key);
    FullLogIsSpread(ev, limits, key, i);
  }

  // ---- the bound on the window is exact ----

  /** `n` requests for the key at second 0. */
  function Burst(key: string, n: nat): seq<Event> {
    seq(n, _ => Ask(key, 0))
  }

  function Zeros(n: nat): seq<int> {
    seq(n, _ => 0)
  }

  lemma {:induction false} BurstFills(key: string, n: nat, limits: string -> Limit, expiration: int)
    requires n <= Cap(limits(key)) && limits(key).duration > 0
    ensures QueueOf(StoreAfter(Burst(key, n), limits, expiration), key) == Zeros(n)
    ensures FullLog(Burst(key, n), limits, key) == Zeros(n)
    decreases n
  {
    if n > 0 {
      BurstFills(key, n - 1, limits, expiration);
      assert Burst(key, n)[..n - 1] == Burst(key, n - 1);
      YoungBounds(Zeros(n - 1), limits(key).duration, 0);
      assert Zeros(n - 1) + [0] == Zeros(n);
    }
  }

  /** The events after which a longer window goes wrong: fill the queue, let the cleaner drop it. */
  function Forgetting(key: string, limit: Limit, expiration: int): seq<Event> {
    Burst(key, Cap(limit)) + [Clean(expiration + 1)]
  }

  lemma LongerWindowIsForgotten(limits: string -> Limit, expiration: int, key: string)
    requires expiration >= 0 && limits(key).duration > expiration + 1
    ensures Monotone(Forgetting(key, limits(key), expiration))
    ensures Accepts(Forgetting(key, limits(key), expiration), limits, expiration, key, expiration + 1)
    ensures !ReferenceAccepts(Forgetting(key, limits(key), expiration), limits, key, expiration + 1)
  {
    hide StoreAfter, FullLog;
    var n, burst := Cap(limits(key)), Burst(key, Cap(limits(key)));
    BurstFills(key, n, limits, expiration);
    ForgottenAfterCleaning(burst, limits, expiration, key, n);
    YoungBounds(Zeros(n), limits(key).duration, expiration + 1);
  }

  lemma ForgottenAfterCleaning(burst: seq<Event>, limits: string -> Limit, expiration: int, key: string, n: nat)
    requires n > 0 && QueueOf(StoreAfter(burst, limits, expiration), key) == Zeros(n)
    ensures QueueOf(StoreAfter(burst + [Clean(expiration + 1)], limits, expiration), key) == []
    ensures FullLog(burst + [Clean(expiration + 1)], limits, key) == FullLog(burst, limits, key)
  {
    assert (burst + [Clean(expiration + 1)])[..|burst|] == burst;
  }

  /**
    The limiter decides as the full log does on every run exactly when the
    window is at most one second longer than the expiration. The cleaner runs
    only for a non-negative expiration.
  */
  lemma MatchesExactlyWhenWindowFits(limits: string -> Limit, expiration: int, key: string)
    requires expiration >= 0
    ensures (forall ev: seq<Event>, now: int :: Monotone(ev) && (ev == [] || ev[|ev| - 1].now <= now) ==>
               (Accepts(ev, limits, expiration, key, now) <==> ReferenceAccepts(ev, limits, key, now)))
            <==> limits(key).duration <= expiration + 1
  {
    if limits(key).duration <= expiration + 1 {
      forall ev: seq<Event>, now: int | Monotone(ev) && (ev == [] || ev[|ev| - 1].now <= now)
        ensures Accepts(ev, limits, expiration, key, now) <==> ReferenceAccepts(ev, limits, key, now)
      {
        LimiterMatchesFullLog(ev, limits, expiration, key, now);
      }
    } else {
      LongerWindowIsForgotten(limits, expiration, key);
    }
  }
}
