/** Duplicate-work coalescing. Each method of `Registry` is one lock region of
    one thread, so every interleaving of callers is a sequence of method calls;
    `threads` holds where each caller stands between its lock regions. */
module SingleFlight {
  import opened Collections
  import opened Options
  import opened TextOrder

  /** What the shared operation ended with. */
  datatype Outcome = Value(value: string) | Error(error: string)

  /** `leader` names the thread that runs the operation. */
  datatype Flight = Flight(key: string, leader: int, completed: Option<int>, outcome: Option<Outcome>, waiters: nat)

  /** A caller between lock regions; `active` says it joined a running flight. */
  datatype Caller = Leading(flight: nat) | Following(flight: nat, active: bool)

  datatype Counters = Counters(calls: nat, leaders: nat, shared: nat, waiting: nat, timeouts: nat, rejections: nat)

  type Flights = seq<Flight>
  type Threads = map<int, Caller>
  type Keys = map<string, nat>

  predicate Active(flights: Flights, f: nat) {
    f < |flights| && flights[f].completed.None?
  }

  // ---- the invariant ----

  /** The registry names every active flight, and names each flight by its key. */
  ghost predicate RegistryOk(keys: Keys, flights: Flights) {
    && (forall k :: k in keys ==> keys[k] < |flights| && flights[keys[k]].key == k)
    && (forall f :: 0 <= f < |flights| && Active(flights, f) ==>
          flights[f].key in keys && keys[flights[f].key] == f)
  }

  /** A flight is settled exactly once, and not in the future. */
  ghost predicate FlightsOk(flights: Flights, clock: int) {
    forall f :: 0 <= f < |flights| ==>
      && (flights[f].completed.Some? <==> flights[f].outcome.Some?)
      && (flights[f].completed.Some? ==> flights[f].completed.value <= clock)
  }

  /** Every active flight has its one leader running, and nobody else leads it. */
  ghost predicate ThreadsOk(threads: Threads, flights: Flights) {
    && (forall f :: 0 <= f < |flights| && Active(flights, f) ==>
          flights[f].leader in threads && threads[flights[f].leader] == Leading(f))
    && (forall t :: t in threads ==>
          match threads[t]
          case Leading(f) => Active(flights, f) && flights[f].leader == t
          case Following(f, active) => f < |flights| && (active || !Active(flights, f)))
  }

  /** Threads waiting on flight `f`. */
  ghost function WaitingOn(threads: Threads, f: nat): set<int> {
    set t | t in threads && threads[t] == Following(f, true)
  }

  /** All threads waiting on a flight they joined while it ran. */
  ghost function Waiting(threads: Threads): set<int> {
    set t | t in threads && threads[t].Following? && threads[t].active
  }

  function SumWaiters(flights: Flights): nat {
    if flights == [] then 0 else SumWaiters(flights[..|flights| - 1]) + flights[|flights| - 1].waiters
  }

  /** The counters add up: nothing is lost between callers, flights and totals. */
  ghost predicate CountsOk(threads: Threads, flights: Flights, c: Counters) {
    && c.calls == c.leaders + c.shared + c.rejections
    && c.leaders == |flights|
    && c.waiting == |Waiting(threads)|
    && c.waiting == SumWaiters(flights)
    && forall f :: 0 <= f < |flights| ==> flights[f].waiters == |WaitingOn(threads, f)|
  }

  // ---- at most one operation per key ----

  lemma OneOperationPerKey(keys: Keys, threads: Threads, flights: Flights, t: int, u: int)
    requires RegistryOk(keys, flights) && ThreadsOk(threads, flights)
    requires t in threads && threads[t].Leading? && u in threads && threads[u].Leading?
    requires flights[threads[t].flight].key == flights[threads[u].flight].key
    ensures t == u
  {
    var f, g := threads[t].flight, threads[u].flight;
    assert keys[flights[f].key] == f && keys[flights[g].key] == g;
  }

  // ---- registry steps ----

  predicate Expired(flight: Flight, now: int, ttl: nat) {
    flight.completed.Some? && now - flight.completed.value >= ttl
  }

  lemma ExpiredMeans(now: int, ttl: nat)
    ensures forall flight :: Expired(flight, now, ttl) <==>
                             !(flight.completed.None? || now - flight.completed.value < ttl)
  {
  }

  /** `_expire_completed`. */
  function Expire(keys: Keys, flights: Flights, now: int, ttl: nat): (r: Keys)
    requires forall k :: k in keys ==> keys[k] < |flights|
  {
    map k | k in keys && !Expired(flights[keys[k]], now, ttl) :: keys[k]
  }

  lemma ExpireOk(keys: Keys, flights: Flights, now: int, ttl: nat)
    requires RegistryOk(keys, flights)
    ensures RegistryOk(Expire(keys, flights, now, ttl), flights)
    ensures |Expire(keys, flights, now, ttl)| <= |keys|
  {
    var r := Expire(keys, flights, now, ttl);
    SubsetSize(r.Keys, keys.Keys);
  }

  /** Flight `a` under key `k` completed before flight `b` under key `j`, or at the
      same reading with the smaller key. */
  predicate Older(a: Flight, k: string, b: Flight, j: string) {
    && a.completed.Some? && b.completed.Some?
    && (|| a.completed.value < b.completed.value
        || (a.completed.value == b.completed.value && (k == j || Before(k, j))))
  }

  /** `_evict_oldest_completed`: the completed entry that finished first. */
  method OldestCompleted(keys: Keys, flights: Flights) returns (k: Option<string>)
    requires RegistryOk(keys, flights)
    ensures k.None? <==> forall j :: j in keys ==> Active(flights, keys[j])
    ensures k.Some? ==> k.value in keys && !Active(flights, keys[k.value])
    ensures k.Some? ==> forall j :: j in keys && !Active(flights, keys[j]) ==>
              Older(flights[keys[k.value]], k.value, flights[keys[j]], j)
  {
    hide Before;
    k := None;
    var todo := keys.Keys;
    while todo != {}
      invariant todo <= keys.Keys
      invariant k.None? ==> forall j :: j in keys && j !in todo ==> Active(flights, keys[j])
      invariant k.Some? ==> k.value in keys && !Active(flights, keys[k.value])
      invariant k.Some? ==> forall j :: j in keys && j !in todo && !Active(flights, keys[j]) ==>
                  Older(flights[keys[k.value]], k.value, flights[keys[j]], j)
      decreases |todo|
    {
      var j :| j in todo;
      todo := todo - {j};
      if flights[keys[j]].completed.Some? {
        if k.None? || Older(flights[keys[j]], j, flights[keys[k.value]], k.value) {
          if k.Some? {
            OlderAll(keys, flights, todo + {j}, j, k.value);
          }
          k := Some(j);
        } else {
          OlderTotal(flights[keys[j]], j, flights[keys[k.value]], k.value);
        }
      }
    }
  }

  lemma OlderTotal(a: Flight, k: string, b: Flight, j: string)
    requires a.completed.Some? && b.completed.Some?
    ensures Older(a, k, b, j) || Older(b, j, a, k)
  {
    BeforeTotal(k, j);
    hide Before;
  }

  lemma OlderTransitive(a: Flight, k: string, b: Flight, j: string, c: Flight, i: string)
    requires Older(a, k, b, j) && Older(b, j, c, i)
    ensures Older(a, k, c, i)
  {
    hide Before;
    if Before(k, j) && Before(j, i) {
      BeforeTransitive(k, j, i);
    }
  }

  lemma OlderAll(keys: Keys, flights: Flights, todo: set<string>, k: string, was: string)
    requires RegistryOk(keys, flights) && k in keys && was in keys
    requires Older(flights[keys[k]], k, flights[keys[was]], was)
    requires forall j :: j in keys && j !in todo && !Active(flights, keys[j]) ==>
               Older(flights[keys[was]], was, flights[keys[j]], j)
    ensures forall j :: j in keys && j !in todo && !Active(flights, keys[j]) ==>
              Older(flights[keys[k]], k, flights[keys[j]], j)
  {
    hide Older;
    forall j | j in keys && j !in todo && !Active(flights, keys[j])
      ensures Older(flights[keys[k]], k, flights[keys[j]], j)
    {
      OlderTransitive(flights[keys[k]], k, flights[keys[was]], was, flights[keys[j]], j);
    }
  }

  // ---- flight and thread steps ----

  lemma SumSnoc(flights: Flights, x: Flight)
    ensures SumWaiters(flights + [x]) == SumWaiters(flights) + x.waiters
  {
    assert (flights + [x])[..|flights|] == flights;
  }

  lemma {:induction false} SumUpdate(flights: Flights, f: nat, x: Flight)
    requires f < |flights|
    ensures SumWaiters(flights[f := x]) == SumWaiters(flights) - flights[f].waiters + x.waiters
  {
    var last := |flights| - 1;
    if f == last {
      assert flights[f := x][..last] == flights[..last];
    } else {
      SumUpdate(flights[..last], f, x);
      assert flights[f := x][..last] == flights[..last][f := x];
    }
  }

  lemma WaitingOnPut(threads: Threads, t: int, c: Caller, f: nat)
    requires t !in threads
    ensures WaitingOn(threads[t := c], f) == WaitingOn(threads, f) + (if c == Following(f, true) then {t} else {})
  {
    var more, old' := threads[t := c], WaitingOn(threads, f);
    forall u ensures u in WaitingOn(more, f) <==> u in old' || (u == t && c == Following(f, true)) {
    }
  }

  lemma WaitingAllPut(threads: Threads, t: int, c: Caller)
    requires t !in threads
    ensures |Waiting(threads[t := c])| == |Waiting(threads)| + (if c.Following? && c.active then 1 else 0)
  {
    var more := threads[t := c];
    if c.Following? && c.active {
      assert Waiting(more) == Waiting(threads) + {t};
    } else {
      assert Waiting(more) == Waiting(threads);
    }
  }

  lemma WaitingPut(threads: Threads, t: int, c: Caller, f: nat)
    requires t !in threads
    ensures |WaitingOn(threads[t := c], f)| == |WaitingOn(threads, f)| + (if c == Following(f, true) then 1 else 0)
  {
    WaitingOnPut(threads, t, c, f);
    assert t !in WaitingOn(threads, f);
  }

  lemma WaitingDrop(threads: Threads, t: int, f: nat)
    requires t in threads
    ensures |WaitingOn(threads - {t}, f)|
            == |WaitingOn(threads, f)| - (if threads[t] == Following(f, true) then 1 else 0)
  {
    assert WaitingOn(threads - {t}, f) == WaitingOn(threads, f) - {t};
  }

  lemma WaitingAllDrop(threads: Threads, t: int)
    requires t in threads
    ensures |Waiting(threads - {t})|
            == |Waiting(threads)| - (if threads[t].Following? && threads[t].active then 1 else 0)
  {
    assert Waiting(threads - {t}) == Waiting(threads) - {t};
  }

  /** A new flight led by `t`. */
  lemma LeadOk(keys: Keys, flights: Flights, threads: Threads, c: Counters, clock: int, t: int, key: string)
    requires RegistryOk(keys, flights) && FlightsOk(flights, clock)
    requires ThreadsOk(threads, flights) && CountsOk(threads, flights, c)
    requires key !in keys && t !in threads
    ensures
      var flights' := flights + [Flight(key, t, None, None, 0)];
      var threads' := threads[t := Leading(|flights|)];
      && RegistryOk(keys[key := |flights|], flights')
      && FlightsOk(flights', clock)
      && ThreadsOk(threads', flights')
      && CountsOk(threads', flights', c.(calls := c.calls + 1, leaders := c.leaders + 1))
  {
    hide RegistryOk, FlightsOk, ThreadsOk, CountsOk;
    LeadRegistryOk(keys, flights, clock, t, key);
    LeadThreadsOk(flights, threads, t, key);
    LeadCountsOk(flights, threads, c, t, key);
  }

  lemma LeadRegistryOk(keys: Keys, flights: Flights, clock: int, t: int, key: string)
    requires RegistryOk(keys, flights) && FlightsOk(flights, clock) && key !in keys
    ensures
      var flights' := flights + [Flight(key, t, None, None, 0)];
      RegistryOk(keys[key := |flights|], flights') && FlightsOk(flights', clock)
  {
    var flights' := flights + [Flight(key, t, None, None, 0)];
    assert forall f :: 0 <= f < |flights| ==> flights'[f] == flights[f];
  }

  lemma LeadCountsOk(flights: Flights, threads: Threads, c: Counters, t: int, key: string)
    requires ThreadsOk(threads, flights) && CountsOk(threads, flights, c) && t !in threads
    ensures CountsOk(threads[t := Leading(|flights|)], flights + [Flight(key, t, None, None, 0)],
                     c.(calls := c.calls + 1, leaders := c.leaders + 1))
  {
    hide ThreadsOk, SumWaiters, Waiting, WaitingOn;
    var x := Flight(key, t, None, None, 0);
    var flights' := flights + [x];
    var threads' := threads[t := Leading(|flights|)];
    SumSnoc(flights, x);
    WaitingAllPut(threads, t, Leading(|flights|));
    NobodyWaitsOnFuture(threads, flights, |flights|);
    forall f | 0 <= f < |flights'| ensures flights'[f].waiters == |WaitingOn(threads', f)| {
      WaitingPut(threads, t, Leading(|flights|), f);
    }
  }

  lemma LeadThreadsOk(flights: Flights, threads: Threads, t: int, key: string)
    requires ThreadsOk(threads, flights) && t !in threads
    ensures ThreadsOk(threads[t := Leading(|flights|)], flights + [Flight(key, t, None, None, 0)])
  {
    var flights' := flights + [Flight(key, t, None, None, 0)];
    assert forall f :: 0 <= f < |flights| ==> flights'[f] == flights[f];
  }

  lemma NobodyWaitsOnFuture(threads: Threads, flights: Flights, f: nat)
    requires ThreadsOk(threads, flights) && f >= |flights|
    ensures |WaitingOn(threads, f)| == 0
  {
    forall t | t in threads ensures threads[t] != Following(f, true) {
    }
    assert WaitingOn(threads, f) == {};
  }

  /** `t` joins flight `f`, waiting if it is still running. */
  lemma JoinOk(keys: Keys, flights: Flights, threads: Threads, c: Counters, clock: int, t: int, f: nat)
    requires RegistryOk(keys, flights) && FlightsOk(flights, clock)
    requires ThreadsOk(threads, flights) && CountsOk(threads, flights, c)
    requires f < |flights| && t !in threads
    ensures
      var active := Active(flights, f);
      var d := if active then 1 else 0;
      var flights' := flights[f := flights[f].(waiters := flights[f].waiters + d)];
      var threads' := threads[t := Following(f, active)];
      && RegistryOk(keys, flights')
      && FlightsOk(flights', clock)
      && ThreadsOk(threads', flights')
      && CountsOk(threads', flights', c.(calls := c.calls + 1, shared := c.shared + 1, waiting := c.waiting + d))
  {
    hide RegistryOk, FlightsOk, ThreadsOk, CountsOk;
    var x := flights[f].(waiters := flights[f].waiters + if Active(flights, f) then 1 else 0);
    JoinCountsOk(flights, threads, c, t, f);
    WaitersOnly(keys, flights, clock, f, x);
    JoinThreadsOk(flights, threads, t, f, x);
  }

  lemma JoinCountsOk(flights: Flights, threads: Threads, c: Counters, t: int, f: nat)
    requires CountsOk(threads, flights, c) && f < |flights| && t !in threads
    ensures
      var active := Active(flights, f);
      var d := if active then 1 else 0;
      CountsOk(threads[t := Following(f, active)],
               flights[f := flights[f].(waiters := flights[f].waiters + d)],
               c.(calls := c.calls + 1, shared := c.shared + 1, waiting := c.waiting + d))
  {
    hide SumWaiters, Waiting, WaitingOn;
    var active := Active(flights, f);
    var x := flights[f].(waiters := flights[f].waiters + if active then 1 else 0);
    var threads' := threads[t := Following(f, active)];
    SumUpdate(flights, f, x);
    WaitingAllPut(threads, t, Following(f, active));
    forall g | 0 <= g < |flights| ensures flights[f := x][g].waiters == |WaitingOn(threads', g)| {
      WaitingPut(threads, t, Following(f, active), g);
    }
  }

  lemma JoinThreadsOk(flights: Flights, threads: Threads, t: int, f: nat, x: Flight)
    requires ThreadsOk(threads, flights) && t !in threads && f < |flights|
    requires x == flights[f].(waiters := x.waiters)
    ensures ThreadsOk(threads[t := Following(f, Active(flights, f))], flights[f := x])
  {
    var flights' := flights[f := x];
    assert forall g :: 0 <= g < |flights| ==> Active(flights', g) == Active(flights, g);
  }

  /** The leader `t` of `f` publishes the outcome. */
  lemma CompleteOk(keys: Keys, flights: Flights, threads: Threads, c: Counters, clock: int, now: int, t: int,
                   o: Outcome)
    requires RegistryOk(keys, flights) && FlightsOk(flights, clock) && clock <= now
    requires ThreadsOk(threads, flights) && CountsOk(threads, flights, c)
    requires t in threads && threads[t].Leading?
    ensures
      var f := threads[t].flight;
      var flights' := flights[f := flights[f].(completed := Some(now), outcome := Some(o))];
      && RegistryOk(keys, flights')
      && FlightsOk(flights', now)
      && ThreadsOk(threads - {t}, flights')
      && CountsOk(threads - {t}, flights', c)
  {
    var f := threads[t].flight;
    var x := flights[f].(completed := Some(now), outcome := Some(o));
    CompleteCountsOk(flights, threads, c, t, f, x);
    CompleteRegistryOk(keys, flights, clock, now, f, x);
    CompleteThreadsOk(flights, threads, t, f, x);
  }

  lemma CompleteRegistryOk(keys: Keys, flights: Flights, clock: int, now: int, f: nat, x: Flight)
    requires RegistryOk(keys, flights) && FlightsOk(flights, clock) && clock <= now && f < |flights|
    requires x == flights[f].(completed := Some(now), outcome := x.outcome) && x.outcome.Some?
    ensures RegistryOk(keys, flights[f := x]) && FlightsOk(flights[f := x], now)
  {
    assert forall g :: 0 <= g < |flights| && Active(flights[f := x], g) ==> Active(flights, g);
  }

  lemma CompleteThreadsOk(flights: Flights, threads: Threads, t: int, f: nat, x: Flight)
    requires ThreadsOk(threads, flights) && t in threads && threads[t] == Leading(f) && f < |flights|
    requires x.completed.Some?
    ensures ThreadsOk(threads - {t}, flights[f := x])
  {
    assert forall g :: 0 <= g < |flights| ==> (Active(flights[f := x], g) <==> g != f && Active(flights, g));
  }

  lemma CompleteCountsOk(flights: Flights, threads: Threads, c: Counters, t: int, f: nat, x: Flight)
    requires CountsOk(threads, flights, c) && t in threads && threads[t] == Leading(f) && f < |flights|
    requires x.waiters == flights[f].waiters
    ensures CountsOk(threads - {t}, flights[f := x], c)
  {
    hide SumWaiters, Waiting, WaitingOn;
    SumUpdate(flights, f, x);
    forall g | 0 <= g < |flights| ensures flights[f := x][g].waiters == |WaitingOn(threads - {t}, g)| {
      WaitingDrop(threads, t, g);
    }
    WaitingAllDrop(threads, t);
  }

  /** A follower stops waiting. */
  lemma WakeOk(keys: Keys, flights: Flights, threads: Threads, c: Counters, clock: int, t: int, timedOut: bool)
    requires RegistryOk(keys, flights) && FlightsOk(flights, clock)
    requires ThreadsOk(threads, flights) && CountsOk(threads, flights, c)
    requires t in threads && threads[t].Following?
    ensures
      var f, active := threads[t].flight, threads[t].active;
      var d := if active then 1 else 0;
      && flights[f].waiters >= d && c.waiting >= d
      && var flights' := flights[f := flights[f].(waiters := flights[f].waiters - d)];
      && RegistryOk(keys, flights')
      && FlightsOk(flights', clock)
      && ThreadsOk(threads - {t}, flights')
      && CountsOk(threads - {t}, flights',
                  c.(waiting := c.waiting - d, timeouts := c.timeouts + if timedOut && active then 1 else 0))
  {
    hide RegistryOk, FlightsOk, ThreadsOk, CountsOk;
    var f, active := threads[t].flight, threads[t].active;
    FollowedFlight(threads, flights, clock, t);
    WakeCountsOk(flights, threads, c, t, timedOut);
    var x := flights[f].(waiters := flights[f].waiters - if active then 1 else 0);
    WaitersOnly(keys, flights, clock, f, x);
    WakeThreadsOk(flights, threads, t, x);
  }

  /** Changing a waiter count changes nothing else the registry relies on. */
  lemma WaitersOnly(keys: Keys, flights: Flights, clock: int, f: nat, x: Flight)
    requires RegistryOk(keys, flights) && FlightsOk(flights, clock)
    requires f < |flights| && x == flights[f].(waiters := x.waiters)
    ensures RegistryOk(keys, flights[f := x]) && FlightsOk(flights[f := x], clock)
  {
    var flights' := flights[f := x];
    assert forall g :: 0 <= g < |flights| ==> Active(flights', g) == Active(flights, g);
  }

  lemma WakeCountsOk(flights: Flights, threads: Threads, c: Counters, t: int, timedOut: bool)
    requires CountsOk(threads, flights, c)
    requires t in threads && threads[t].Following? && threads[t].flight < |flights|
    ensures
      var f, active := threads[t].flight, threads[t].active;
      var d := if active then 1 else 0;
      && flights[f].waiters >= d && c.waiting >= d
      && CountsOk(threads - {t}, flights[f := flights[f].(waiters := flights[f].waiters - d)],
                  c.(waiting := c.waiting - d, timeouts := c.timeouts + if timedOut && active then 1 else 0))
  {
    var f, active := threads[t].flight, threads[t].active;
    WaitingAllDrop(threads, t);
    assert active ==> t in WaitingOn(threads, f) && t in Waiting(threads);
    hide SumWaiters, Waiting, WaitingOn;
    var x := flights[f].(waiters := flights[f].waiters - if active then 1 else 0);
    SumUpdate(flights, f, x);
    forall g | 0 <= g < |flights| ensures flights[f := x][g].waiters == |WaitingOn(threads - {t}, g)| {
      WaitingDrop(threads, t, g);
    }
  }

  lemma WakeThreadsOk(flights: Flights, threads: Threads, t: int, x: Flight)
    requires ThreadsOk(threads, flights) && t in threads && threads[t].Following?
    requires threads[t].flight < |flights| && x == flights[threads[t].flight].(waiters := x.waiters)
    ensures ThreadsOk(threads - {t}, flights[threads[t].flight := x])
  {
    var flights' := flights[threads[t].flight := x];
    assert forall g :: 0 <= g < |flights| ==> Active(flights', g) == Active(flights, g);
  }

  datatype Entry = Lead(flight: nat) | Join(flight: nat, active: bool) | CapacityError

  datatype FollowEnd = TimedOut | Shared(outcome: Outcome)

  /** Settled flights keep their outcome for ever. */
  ghost predicate Keeps(before: Flights, after: Flights) {
    && |before| <= |after|
    && forall f :: 0 <= f < |before| ==>
         && after[f].key == before[f].key
         && (before[f].outcome.Some? ==>
               after[f].outcome == before[f].outcome && after[f].completed == before[f].completed)
  }

  class Registry {
    const maxEntries: nat
    const ttl: nat
    var keys: Keys
    var flights: Flights
    var threads: Threads
    var counters: Counters
    /** The latest clock reading taken under the lock. */
    ghost var clock: int

    ghost predicate Valid()
      reads this
    {
      && maxEntries >= 1 && |keys| <= maxEntries
      && RegistryOk(keys, flights) && FlightsOk(flights, clock)
      && ThreadsOk(threads, flights) && CountsOk(threads, flights, counters)
    }

    constructor (maxEntries: nat, ttl: nat, now: int)
      requires maxEntries >= 1
      ensures Valid() && threads == map[] && flights == [] && clock == now
      ensures this.maxEntries == maxEntries && this.ttl == ttl
    {
      this.maxEntries, this.ttl := maxEntries, ttl;
      keys, flights, threads, counters := map[], [], map[], Counters(0, 0, 0, 0, 0, 0);
      clock := now;
    }

    /** A caller finds a flight for its key. */
    method JoinFlight(t: int, key: string) returns (e: Entry)
      requires Valid() && t !in threads && key in keys && keys[key] < |flights|
      modifies this
      ensures Valid() && clock == old(clock) && keys == old(keys)
      ensures e == Join(keys[key], Active(old(flights), keys[key]))
      ensures threads == old(threads)[t := Following(e.flight, e.active)]
      ensures counters == old(counters).(calls := old(counters.calls) + 1, shared := old(counters.shared) + 1,
                                         waiting := old(counters.waiting) + if e.active then 1 else 0)
      ensures Keeps(old(flights), flights) && |flights| == |old(flights)|
      ensures flights[e.flight].key == old(flights)[e.flight].key
    {
      hide RegistryOk, FlightsOk, ThreadsOk, CountsOk;
      var f := keys[key];
      JoinOk(keys, flights, threads, counters, clock, t, f);
      var active := flights[f].completed.None?;
      var d := if active then 1 else 0;
      hide Keeps;
      flights := flights[f := flights[f].(waiters := flights[f].waiters + d)];
      threads := threads[t := Following(f, active)];
      counters := counters.(calls := counters.calls + 1, shared := counters.shared + 1,
                            waiting := counters.waiting + d);
      e := Join(f, active);
    }

    /** A caller opens a flight for a key nobody is running. */
    method LeadFlight(t: int, key: string) returns (e: Entry)
      requires Valid() && t !in threads && key !in keys && |keys| < maxEntries
      modifies this
      ensures Valid() && clock == old(clock)
      ensures e == Lead(|old(flights)|) && flights == old(flights) + [Flight(key, t, None, None, 0)]
      ensures keys == old(keys)[key := e.flight]
      ensures threads == old(threads)[t := Leading(e.flight)]
      ensures counters == old(counters).(calls := old(counters.calls) + 1, leaders := old(counters.leaders) + 1)
    {
      hide RegistryOk, FlightsOk, ThreadsOk, CountsOk;
      LeadOk(keys, flights, threads, counters, clock, t, key);
      var f := |flights|;
      keys := keys[key := f];
      flights := flights + [Flight(key, t, None, None, 0)];
      threads := threads[t := Leading(f)];
      counters := counters.(calls := counters.calls + 1, leaders := counters.leaders + 1);
      e := Lead(f);
    }

    /** The first lock region of `run`, by a thread that is not inside `run`. */
    method Enter(t: int, key: string, now: int) returns (e: Entry)
      requires Valid() && t !in threads && now >= clock
      modifies this
      ensures Valid() && clock == now
      ensures Keeps(old(flights), flights)
      ensures counters.calls == old(counters.calls) + 1 && counters.timeouts == old(counters.timeouts)
      ensures counters.leaders == old(counters.leaders) + if e.Lead? then 1 else 0
      ensures counters.shared == old(counters.shared) + if e.Join? then 1 else 0
      ensures counters.rejections == old(counters.rejections) + if e.CapacityError? then 1 else 0
      ensures e.Join? <==>
              && key in old(keys)
              && (|| old(flights)[old(keys)[key]].completed.None?
                  || now - old(flights)[old(keys)[key]].completed.value < ttl)
      ensures e.Join? ==> e.flight == old(keys)[key] && keys == Expire(old(keys), old(flights), now, ttl)
      ensures Settled(old(keys), if e.Lead? then keys - {key} else keys, old(flights), now, ttl, maxEntries, key)
      ensures e.Lead? ==>
                && e == Lead(|old(flights)|) && flights == old(flights) + [Flight(key, t, None, None, 0)]
                && threads == old(threads)[t := Leading(e.flight)]
                && !(exists f :: 0 <= f < |old(flights)| && Active(old(flights), f) && old(flights)[f].key == key)
      ensures e.Join? ==>
                && e.flight < |old(flights)| == |flights| && flights[e.flight].key == key
                && e.active == Active(old(flights), e.flight)
                && threads == old(threads)[t := Following(e.flight, e.active)]
                && !Expired(old(flights)[e.flight], now, ttl)
                && (ttl == 0 ==> e.active)
      ensures e == CapacityError ==>
                && threads == old(threads) && flights == old(flights)
                && |keys| == maxEntries && key !in keys
                && forall k :: k in keys ==> Active(flights, keys[k])
    {
      hide RegistryOk, FlightsOk, ThreadsOk, CountsOk;
      hide Settled, Keeps, Expire, Expired, Active;
      var settled := Settle(keys, flights, now, ttl, maxEntries, key);
      SettledMeans(keys, settled, flights, now, ttl, maxEntries, key);
      KeepsItself(flights);
      ClockOk(flights, clock, now);
      FreshMeans(settled, flights, now, ttl);
      keys, clock := settled, now;
      e := EnterSettled(t, key);
      assert e.Lead? ==> keys - {key} == settled;
    }

    /** The rest of that region, once the registry is settled. */
    method EnterSettled(t: int, key: string) returns (e: Entry)
      requires Valid() && t !in threads
      requires key in keys ==> keys[key] < |flights|
      modifies this
      ensures Valid() && clock == old(clock) && Keeps(old(flights), flights)
      ensures counters.calls == old(counters.calls) + 1 && counters.timeouts == old(counters.timeouts)
      ensures counters.leaders == old(counters.leaders) + if e.Lead? then 1 else 0
      ensures counters.shared == old(counters.shared) + if e.Join? then 1 else 0
      ensures counters.rejections == old(counters.rejections) + if e.CapacityError? then 1 else 0
      ensures e.Join? <==> key in old(keys)
      ensures e.Join? ==>
                && keys == old(keys) && e.flight == keys[key] && e.active == Active(old(flights), e.flight)
                && threads == old(threads)[t := Following(e.flight, e.active)]
                && e.flight < |old(flights)| == |flights|
                && flights[e.flight].key == old(flights)[e.flight].key
      ensures e.Lead? ==>
                && e == Lead(|old(flights)|) && flights == old(flights) + [Flight(key, t, None, None, 0)]
                && keys == old(keys)[key := e.flight] && threads == old(threads)[t := Leading(e.flight)]
      ensures e == CapacityError <==> key !in old(keys) && |old(keys)| >= maxEntries
      ensures e == CapacityError ==> keys == old(keys) && threads == old(threads) && flights == old(flights)
    {
      hide RegistryOk, FlightsOk, ThreadsOk, CountsOk, Keeps, Active;
      KeepsItself(flights);
      if key in keys {
        e := JoinFlight(t, key);
      } else if |keys| >= maxEntries {
        RejectOk(threads, flights, counters);
        counters := counters.(calls := counters.calls + 1, rejections := counters.rejections + 1);
        e := CapacityError;
      } else {
        KeepsSnoc(flights, Flight(key, t, None, None, 0));
        e := LeadFlight(t, key);
      }
    }

    /** The leader's second lock region: the outcome of its operation is published. */
    method Complete(t: int, outcome: Outcome, now: int)
      requires Valid() && t in threads && threads[t].Leading? && now >= clock
      modifies this
      ensures Valid() && clock == now && keys == old(keys)
      ensures threads == old(threads) - {t}
      ensures
        var f := old(threads)[t].flight;
        && f < |old(flights)| == |flights|
        && flights[f].outcome == Some(outcome) && flights[f].completed == Some(now)
        && (forall g :: 0 <= g < |flights| && g != f ==> flights[g] == old(flights)[g])
        && old(flights)[f].outcome == None
      ensures Keeps(old(flights), flights)
    {
      hide RegistryOk, FlightsOk, ThreadsOk, CountsOk;
      LeaderIsActive(threads, flights, clock, t);
      CompleteOk(keys, flights, threads, counters, clock, now, t, outcome);
      var f := threads[t].flight;
      flights := flights[f := flights[f].(completed := Some(now), outcome := Some(outcome))];
      threads := threads - {t};
      clock := now;
    }

    /** The follower's last region: its wait ended, with the event seen set or not. */
    method Wake(t: int, completed: bool) returns (r: FollowEnd)
      requires Valid() && t in threads && threads[t].Following?
      requires completed ==> !Active(flights, threads[t].flight)
      requires !threads[t].active ==> completed
      modifies this
      ensures Valid() && clock == old(clock) && keys == old(keys)
      ensures threads == old(threads) - {t}
      ensures r == TimedOut <==> !completed
      ensures r.Shared? ==>
                var f := old(threads)[t].flight;
                f < |old(flights)| && old(flights)[f].outcome == Some(r.outcome)
      ensures Keeps(old(flights), flights) && |flights| == |old(flights)|
    {
      hide RegistryOk, FlightsOk, ThreadsOk, CountsOk;
      FollowedFlight(threads, flights, clock, t);
      WakeOk(keys, flights, threads, counters, clock, t, !completed);
      var f, active := threads[t].flight, threads[t].active;
      r := if completed then Shared(flights[f].outcome.value) else TimedOut;
      var d := if active then 1 else 0;
      flights := flights[f := flights[f].(waiters := flights[f].waiters - d)];
      threads := threads - {t};
      counters := counters.(waiting := counters.waiting - d,
                            timeouts := counters.timeouts + if !completed && active then 1 else 0);
    }

    /** `stats` also expires what is due; it reports the entries left and how many of
        them are running. */
    method Stats(now: int) returns (active: nat, retained: nat, totals: Counters)
      requires Valid() && now >= clock
      modifies this`keys, this`clock
      ensures Valid() && clock == now && keys == Expire(old(keys), flights, now, ttl)
      ensures forall k :: k in keys <==>
                && k in old(keys)
                && (|| flights[old(keys)[k]].completed.None?
                    || now - flights[old(keys)[k]].completed.value < ttl)
      ensures retained == |keys| && active == |set k | k in keys && Active(flights, keys[k])| && totals == counters
    {
      hide ThreadsOk, CountsOk, FlightsOk;
      ClockOk(flights, clock, now);
      ExpireOk(keys, flights, now, ttl);
      ExpiredMeans(now, ttl);
      keys, clock := Expire(keys, flights, now, ttl), now;
      active := |set k | k in keys && Active(flights, keys[k])|;
      retained, totals := |keys|, counters;
    }

    /** `invalidate`: only a completed key is forgotten. */
    method Invalidate(key: string)
      requires Valid()
      modifies this`keys
      ensures Valid()
      ensures keys == if key in old(keys) && !Active(flights, old(keys)[key]) then old(keys) - {key} else old(keys)
    {
      hide FlightsOk, ThreadsOk, CountsOk;
      if key in keys && flights[keys[key]].completed.Some? {
        keys := keys - {key};
      }
    }
  }

  // ---- facts the methods use ----

  /** The entry was dropped although it had not expired. */
  predicate Gone(k: string, before: Keys, after: Keys, flights: Flights, now: int, ttl: nat) {
    k in before && before[k] < |flights| && !Expired(flights[before[k]], now, ttl) && k !in after
  }

  /** What is left once expired entries are out and, if the key is new and the
      registry full, the oldest completed entry too. */
  ghost predicate Settled(before: Keys, after: Keys, flights: Flights, now: int, ttl: nat, maxEntries: nat,
                          key: string)
  {
    && |after| <= maxEntries
    && (forall k :: k in after ==>
          && k in before && after[k] == before[k] && after[k] < |flights| && flights[after[k]].key == k
          && !Expired(flights[after[k]], now, ttl))
    && (key !in after && |after| >= maxEntries ==>
          |after| == maxEntries && forall k :: k in after ==> Active(flights, after[k]))
    && (forall k :: Gone(k, before, after, flights, now, ttl) ==>
          && key !in after && |after| == maxEntries - 1 && !Active(flights, before[k])
          && forall j :: j in after && !Active(flights, after[j]) ==>
               Older(flights[before[k]], k, flights[after[j]], j))
    && (forall k, j :: Gone(k, before, after, flights, now, ttl) && Gone(j, before, after, flights, now, ttl) ==>
          k == j)
  }

  /** The same, entry by entry. What stays had not completed, or completed less than
      `ttl` ago. Of what would have stayed, one entry at most is missing, and only if
      the registry was full without the new key: the entry that had completed first,
      or at the same reading under the first key. */
  lemma SettledEntries(before: Keys, after: Keys, flights: Flights, now: int, ttl: nat, maxEntries: nat, key: string)
    requires Settled(before, after, flights, now, ttl, maxEntries, key)
    requires forall k :: k in before ==> before[k] < |flights|
    ensures |after| <= maxEntries
    ensures forall k :: k in after ==>
              && k in before && after[k] == before[k] && after[k] < |flights|
              && (flights[after[k]].completed.None? || now - flights[after[k]].completed.value < ttl)
    ensures forall k, j ::
              && k in before && k !in after
              && (flights[before[k]].completed.None? || now - flights[before[k]].completed.value < ttl)
              && j in before && j !in after
              && (flights[before[j]].completed.None? || now - flights[before[j]].completed.value < ttl) ==>
                k == j
    ensures forall k ::
              && k in before && k !in after
              && (flights[before[k]].completed.None? || now - flights[before[k]].completed.value < ttl) ==>
                && key !in after && |after| == maxEntries - 1 && flights[before[k]].completed.Some?
                && forall j :: j in after && flights[after[j]].completed.Some? ==>
                     || flights[before[k]].completed.value < flights[after[j]].completed.value
                     || (flights[before[k]].completed.value == flights[after[j]].completed.value && Before(k, j))
    ensures key !in after && |after| == maxEntries ==> forall k :: k in after ==> flights[after[k]].completed.None?
  {
    hide Before;
    forall k | && k in before && k !in after
               && (flights[before[k]].completed.None? || now - flights[before[k]].completed.value < ttl)
      ensures Gone(k, before, after, flights, now, ttl)
    {
    }
    forall k, j | Gone(k, before, after, flights, now, ttl) && j in after && flights[after[j]].completed.Some?
      ensures
        || flights[before[k]].completed.value < flights[after[j]].completed.value
        || (flights[before[k]].completed.value == flights[after[j]].completed.value && Before(k, j))
    {
      assert Older(flights[before[k]], k, flights[after[j]], j);
    }
  }

  method Settle(keys0: Keys, flights: Flights, now: int, ttl: nat, maxEntries: nat, key: string)
    returns (keys: Keys)
    requires RegistryOk(keys0, flights) && maxEntries >= 1 && |keys0| <= maxEntries
    ensures RegistryOk(keys, flights) && Settled(keys0, keys, flights, now, ttl, maxEntries, key)
    ensures key in keys <==>
            && key in keys0
            && (flights[keys0[key]].completed.None? || now - flights[keys0[key]].completed.value < ttl)
    ensures key in keys ==> keys == Expire(keys0, flights, now, ttl)
  {
    ExpiredMeans(now, ttl);
    ExpireOk(keys0, flights, now, ttl);
    keys := Expire(keys0, flights, now, ttl);
    ExpireSettles(keys0, flights, now, ttl, maxEntries, key);
    hide Expire, Settled, Older, RegistryOk;
    if key !in keys && |keys| >= maxEntries {
      var evicted := OldestCompleted(keys, flights);
      EvictSettles(keys0, keys, flights, now, ttl, maxEntries, key, evicted);
      if evicted.Some? {
        keys := keys - {evicted.value};
      }
    }
  }

  lemma ExpireSettles(keys: Keys, flights: Flights, now: int, ttl: nat, maxEntries: nat, key: string)
    requires RegistryOk(keys, flights) && |keys| <= maxEntries
    ensures var after := Expire(keys, flights, now, ttl);
            && |after| <= maxEntries
            && (key in after <==> key in keys && !Expired(flights[keys[key]], now, ttl))
            && (key in after || |after| < maxEntries ==> Settled(keys, after, flights, now, ttl, maxEntries, key))
  {
    hide Older;
    ExpireOk(keys, flights, now, ttl);
  }

  lemma EvictSettles(before: Keys, keys: Keys, flights: Flights, now: int, ttl: nat, maxEntries: nat, key: string,
                     evicted: Option<string>)
    requires RegistryOk(before, flights) && RegistryOk(keys, flights) && keys == Expire(before, flights, now, ttl)
    requires key !in keys && |keys| == maxEntries
    requires evicted.None? <==> forall j :: j in keys ==> Active(flights, keys[j])
    requires evicted.Some? ==>
               && evicted.value in keys && !Active(flights, keys[evicted.value])
               && forall j :: j in keys && !Active(flights, keys[j]) ==>
                    Older(flights[keys[evicted.value]], evicted.value, flights[keys[j]], j)
    ensures var after := if evicted.Some? then keys - {evicted.value} else keys;
            RegistryOk(after, flights) && Settled(before, after, flights, now, ttl, maxEntries, key)
  {
    OnlyEvictedGone(before, keys, flights, now, ttl, evicted);
    hide *;
    if evicted.Some? {
      var k := evicted.value;
      RemoveCompletedOk(keys, flights, k);
      RemovedSize(keys, k);
      assert keys[k] == before[k];
      EvictedIsSettled(before, keys, flights, now, ttl, maxEntries, key, k);
    } else {
      FullIsSettled(before, keys, flights, now, ttl, maxEntries, key);
    }
  }

  lemma FullIsSettled(before: Keys, keys: Keys, flights: Flights, now: int, ttl: nat, maxEntries: nat, key: string)
    requires key !in keys && |keys| == maxEntries
    requires forall j :: j in keys ==>
               && j in before && keys[j] == before[j] && keys[j] < |flights| && flights[keys[j]].key == j
               && !Expired(flights[keys[j]], now, ttl)
    requires forall j :: j in keys ==> Active(flights, keys[j])
    requires forall j :: !Gone(j, before, keys, flights, now, ttl)
    ensures Settled(before, keys, flights, now, ttl, maxEntries, key)
  {
    hide Older, Expired, Gone, Active;
  }

  lemma EvictedIsSettled(before: Keys, keys: Keys, flights: Flights, now: int, ttl: nat, maxEntries: nat, key: string,
                         k: string)
    requires key !in keys && k in keys && |keys - {k}| == maxEntries - 1
    requires k in before && before[k] == keys[k]
    requires forall j :: j in keys ==>
               && j in before && keys[j] == before[j] && keys[j] < |flights| && flights[keys[j]].key == j
               && !Expired(flights[keys[j]], now, ttl)
    requires !Active(flights, keys[k])
    requires forall j :: j in keys && !Active(flights, keys[j]) ==> Older(flights[keys[k]], k, flights[keys[j]], j)
    requires forall j :: Gone(j, before, keys - {k}, flights, now, ttl) ==> j == k
    ensures Settled(before, keys - {k}, flights, now, ttl, maxEntries, key)
  {
    hide Older, Expired, Gone, Active;
  }

  lemma RemoveCompletedOk(keys: Keys, flights: Flights, k: string)
    requires RegistryOk(keys, flights) && k in keys && !Active(flights, keys[k])
    ensures RegistryOk(keys - {k}, flights)
  {
  }

  lemma RemovedSize(keys: Keys, k: string)
    requires k in keys
    ensures |keys - {k}| == |keys| - 1
  {
    assert (keys - {k}).Keys == keys.Keys - {k};
    assert |(keys - {k}).Keys| == |keys - {k}| && |keys.Keys| == |keys|;
  }

  lemma OnlyEvictedGone(before: Keys, keys: Keys, flights: Flights, now: int, ttl: nat, evicted: Option<string>)
    requires RegistryOk(before, flights) && keys == Expire(before, flights, now, ttl)
    ensures forall k :: !Gone(k, before, keys, flights, now, ttl)
    ensures evicted.Some? ==>
              forall k :: Gone(k, before, keys - {evicted.value}, flights, now, ttl) ==> k == evicted.value
    ensures forall k :: k in keys ==>
              && k in before && keys[k] == before[k] && keys[k] < |flights| && flights[keys[k]].key == k
              && !Expired(flights[keys[k]], now, ttl)
  {
  }

  lemma SettledMeans(before: Keys, after: Keys, flights: Flights, now: int, ttl: nat, maxEntries: nat, key: string)
    requires Settled(before, after, flights, now, ttl, maxEntries, key) && RegistryOk(after, flights)
    ensures |after| <= maxEntries
    ensures key in after ==>
              && key in before && after[key] == before[key] && after[key] < |flights| && flights[after[key]].key == key
              && !Expired(flights[after[key]], now, ttl)
    ensures key !in after && |after| >= maxEntries ==>
              |after| == maxEntries && forall k :: k in after ==> Active(flights, after[k])
    ensures key !in after ==> !exists f :: 0 <= f < |flights| && Active(flights, f) && flights[f].key == key
  {
  }

  /** Without a retention time a completed flight has expired at once. */
  lemma FreshMeans(keys: Keys, flights: Flights, now: int, ttl: nat)
    requires FlightsOk(flights, now)
    ensures forall k :: k in keys && keys[k] < |flights| && !Expired(flights[keys[k]], now, ttl) && ttl == 0 ==>
              Active(flights, keys[k])
  {
  }

  lemma KeepsItself(flights: Flights)
    ensures Keeps(flights, flights)
  {
  }

  lemma ClockOk(flights: Flights, clock: int, now: int)
    requires FlightsOk(flights, clock) && clock <= now
    ensures FlightsOk(flights, now)
    ensures forall f :: 0 <= f < |flights| && flights[f].completed.Some? ==> flights[f].completed.value <= now
  {
  }

  lemma KeepsSnoc(flights: Flights, x: Flight)
    ensures Keeps(flights, flights + [x])
  {
  }

  lemma RejectOk(threads: Threads, flights: Flights, c: Counters)
    requires CountsOk(threads, flights, c)
    ensures CountsOk(threads, flights, c.(calls := c.calls + 1, rejections := c.rejections + 1))
  {
  }

  lemma LeaderIsActive(threads: Threads, flights: Flights, clock: int, t: int)
    requires ThreadsOk(threads, flights) && FlightsOk(flights, clock)
    requires t in threads && threads[t].Leading?
    ensures Active(flights, threads[t].flight) && flights[threads[t].flight].outcome == None
  {
    assert Active(flights, threads[t].flight);
  }

  lemma FollowedFlight(threads: Threads, flights: Flights, clock: int, t: int)
    requires ThreadsOk(threads, flights) && FlightsOk(flights, clock)
    requires t in threads && threads[t].Following?
    ensures threads[t].flight < |flights|
    ensures !Active(flights, threads[t].flight) ==> flights[threads[t].flight].outcome.Some?
  {
    var f := threads[t].flight;
    assert f < |flights|;
  }
}
