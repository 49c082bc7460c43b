/** The sliding-window rate limiter. Buckets are pruned on use, reclaimed under
    pressure and swept in the background, yet every decision is a function of
    the admissions granted so far. */
module RateLimiter {
  import opened Collections

  const WINDOW := 60

  datatype Admission = Admission(key: string, at: int)

  type History = seq<Admission>

  /** The readings later than `cutoff`, in order. */
  function Recent(times: seq<int>, cutoff: int): (r: seq<int>) {
    if times == [] then []
    else
      var last := times[|times| - 1];
      Recent(times[..|times| - 1], cutoff) + (if last > cutoff then [last] else [])
  }

  /** When `key` was admitted. */
  function Times(h: History, key: string): (r: seq<int>) {
    if h == [] then []
    else
      var last := h[|h| - 1];
      Times(h[..|h| - 1], key) + (if last.key == key then [last.at] else [])
  }

  function Live(h: History, key: string, cutoff: int): (r: seq<int>) {
    Recent(Times(h, key), cutoff)
  }

  /** Keys other than `key` with an admission after `cutoff`. */
  function OtherLive(h: History, key: string, cutoff: int): (r: set<string>) {
    set a | a in h && a.key != key && Live(h, a.key, cutoff) != [] :: a.key
  }

  /** The decision, from the history alone. */
  predicate Decide(h: History, key: string, now: int, limit: nat, maxClients: nat) {
    && |Live(h, key, now - WINDOW)| < limit
    && |OtherLive(h, key, now - WINDOW)| < maxClients
  }

  /** The remembered admissions of a key are those after the cutoff. */
  lemma {:induction false} LiveMeans(h: History, key: string, cutoff: int)
    ensures |Live(h, key, cutoff)| == |set i | 0 <= i < |h| && h[i].key == key && h[i].at > cutoff|
  {
    if h != [] {
      var init, n := h[..|h| - 1], |h| - 1;
      LiveMeans(init, key, cutoff);
      LiveSnoc(init, h[n], key, cutoff);
      assert h == init + [h[n]];
      hide Live;
      OneMore((set i | 0 <= i < n && init[i].key == key && init[i].at > cutoff),
              (set i | 0 <= i < |h| && h[i].key == key && h[i].at > cutoff), n, h[n].key == key && h[n].at > cutoff);
    }
  }

  lemma LiveSnoc(h: History, a: Admission, key: string, cutoff: int)
    ensures Live(h + [a], key, cutoff) ==
            Live(h, key, cutoff) + (if a.key == key && a.at > cutoff then [a.at] else [])
  {
    TimesSnoc(h, a, key);
    var times := Times(h, key);
    assert (times + [a.at])[..|times|] == times;
    assert times + [] == times;
  }

  /** Who else was admitted after the cutoff. */
  lemma {:induction false} LiveWhen(h: History, key: string, cutoff: int)
    ensures Live(h, key, cutoff) != [] <==> exists a :: a in h && a.key == key && a.at > cutoff
  {
    if h != [] {
      var init, last := h[..|h| - 1], h[|h| - 1];
      LiveWhen(init, key, cutoff);
      LiveSnoc(init, last, key, cutoff);
      assert h == init + [last];
      assert last in h;
    }
  }

  /** A request is admitted exactly when fewer than `limit` of the key's own admissions,
      and fewer than `maxClients` other keys with an admission, lie in the last 60
      seconds. */
  lemma DecideMeans(h: History, key: string, now: int, limit: nat, maxClients: nat)
    ensures Decide(h, key, now, limit, maxClients) <==>
            && |set i | 0 <= i < |h| && h[i].key == key && h[i].at > now - 60| < limit
            && |set a | a in h && a.key != key && a.at > now - 60 :: a.key| < maxClients
  {
    LiveMeans(h, key, now - 60);
    hide Live;
    var others := set a | a in h && a.key != key && a.at > now - 60 :: a.key;
    forall k ensures k in OtherLive(h, key, now - 60) <==> k in others {
      OtherLiveMeans(h, key, now - 60, k);
      LiveWhen(h, k, now - 60);
    }
    assert OtherLive(h, key, now - 60) == others;
  }

  // ---- filtering ----

  /** Filtering early with an older cutoff does not matter. */
  lemma {:induction false} RecentTwice(times: seq<int>, older: int, cutoff: int)
    requires older <= cutoff
    ensures Recent(Recent(times, older), cutoff) == Recent(times, cutoff)
  {
    if times != [] {
      var init, last := times[..|times| - 1], times[|times| - 1];
      RecentTwice(init, older, cutoff);
      if last <= older {
        assert Recent(init, older) + [] == Recent(init, older);
      }
    }
  }

  lemma {:induction false} RecentMember(times: seq<int>, cutoff: int)
    ensures Recent(times, cutoff) != [] <==> exists i :: 0 <= i < |times| && times[i] > cutoff
  {
    if times != [] {
      var init, last := times[..|times| - 1], times[|times| - 1];
      RecentMember(init, cutoff);
      if i :| 0 <= i < |times| && times[i] > cutoff {
        assert i < |init| ==> init[i] > cutoff;
      }
    }
  }

  lemma {:induction false} TimesMember(h: History, key: string)
    requires Times(h, key) != []
    ensures exists a :: a in h && a.key == key
  {
    var last := h[|h| - 1];
    if last.key == key {
      assert last in h;
    } else {
      TimesMember(h[..|h| - 1], key);
    }
  }

  lemma OtherLiveMeans(h: History, key: string, cutoff: int, k: string)
    ensures k in OtherLive(h, key, cutoff) <==> k != key && Live(h, k, cutoff) != []
  {
    if k != key && Live(h, k, cutoff) != [] {
      TimesMember(h, k);
    }
  }

  lemma TimesSnoc(h: History, a: Admission, key: string)
    ensures Times(h + [a], key) == Times(h, key) + (if a.key == key then [a.at] else [])
  {
    assert (h + [a])[..|h|] == h;
  }

  // ---- what the decisions guarantee ----

  /** Every admission in the history was decided on what came before it, at
      non-decreasing times. */
  ghost predicate Legitimate(h: History, limit: nat, maxClients: nat) {
    h != [] ==>
      var init, a := h[..|h| - 1], h[|h| - 1];
      && Legitimate(init, limit, maxClients)
      && Decide(init, a.key, a.at, limit, maxClients)
      && (init != [] ==> init[|init| - 1].at <= a.at)
  }

  /** Admissions of `key` in the window of length WINDOW that ends at `t`. */
  function Admitted(h: History, key: string, t: int): nat {
    if h == [] then 0
    else
      var a := h[|h| - 1];
      Admitted(h[..|h| - 1], key, t) + (if a.key == key && t - WINDOW < a.at <= t then 1 else 0)
  }

  lemma {:induction false} AdmittedIsLive(h: History, key: string, t: int, now: int)
    requires now <= t
    ensures Admitted(h, key, t) <= |Live(h, key, now - WINDOW)|
  {
    if h != [] {
      var init, a := h[..|h| - 1], h[|h| - 1];
      AdmittedIsLive(init, key, t, now);
      if a.key != key {
        assert Times(h, key) == Times(init, key);
      }
    }
  }

  /** No window of that length, wherever it starts, holds more than `limit`
      admissions of one key. */
  lemma {:induction false} NoWindowOverflows(h: History, key: string, t: int, limit: nat, maxClients: nat)
    requires Legitimate(h, limit, maxClients)
    ensures Admitted(h, key, t) <= limit
  {
    hide Live, OtherLive;
    if h != [] {
      var init, a := h[..|h| - 1], h[|h| - 1];
      NoWindowOverflows(init, key, t, limit, maxClients);
      if a.key == key && t - WINDOW < a.at <= t {
        AdmittedIsLive(init, key, t, a.at);
      }
    }
  }

  /** The same, told by positions of the history and in seconds. */
  lemma AdmissionsPerMinute(h: History, key: string, t: int, limit: nat, maxClients: nat)
    requires Legitimate(h, limit, maxClients)
    ensures |set i | 0 <= i < |h| && h[i].key == key && t - 60 < h[i].at <= t| <= limit
  {
    NoWindowOverflows(h, key, t, limit, maxClients);
    AdmittedMeans(h, key, t);
  }

  lemma {:induction false} AdmittedMeans(h: History, key: string, t: int)
    ensures Admitted(h, key, t) == |set i | 0 <= i < |h| && h[i].key == key && t - 60 < h[i].at <= t|
  {
    if h != [] {
      var init, n := h[..|h| - 1], |h| - 1;
      AdmittedMeans(init, key, t);
      OneMore((set i | 0 <= i < n && init[i].key == key && t - 60 < init[i].at <= t),
              (set i | 0 <= i < |h| && h[i].key == key && t - 60 < h[i].at <= t),
              n, h[n].key == key && t - 60 < h[n].at <= t);
    }
  }

  lemma LegitimateSnoc(h: History, a: Admission, limit: nat, maxClients: nat)
    requires Legitimate(h, limit, maxClients)
    requires Decide(h, a.key, a.at, limit, maxClients)
    requires h != [] ==> h[|h| - 1].at <= a.at
    ensures Legitimate(h + [a], limit, maxClients)
  {
    hide Decide;
    assert (h + [a])[..|h|] == h;
  }

  // ---- the store ----

  type Store = map<string, seq<int>>

  function Bucket(store: Store, key: string): (r: seq<int>) {
    if key in store then store[key] else []
  }

  /** Above `cutoff`, the store remembers exactly the history. */
  ghost predicate Remembers(store: Store, h: History, cutoff: int) {
    forall key :: Recent(Bucket(store, key), cutoff) == Live(h, key, cutoff)
  }

  lemma RemembersLater(store: Store, h: History, older: int, cutoff: int)
    requires Remembers(store, h, older) && older <= cutoff
    ensures Remembers(store, h, cutoff)
  {
    forall key ensures Recent(Bucket(store, key), cutoff) == Live(h, key, cutoff) {
      RecentTwice(Bucket(store, key), older, cutoff);
      RecentTwice(Times(h, key), older, cutoff);
    }
  }

  /** Buckets without a reading after `cutoff` are dropped. */
  function Reclaim(store: Store, cutoff: int): (r: Store) {
    map key | key in store && Recent(store[key], cutoff) != [] :: store[key]
  }

  /** After a reclaim, a key outside the store sees every bucket as live. */
  lemma ReclaimedAreLive(store: Store, h: History, cutoff: int, key: string)
    requires Remembers(store, h, cutoff) && key !in store
    ensures OtherLive(h, key, cutoff) == Reclaim(store, cutoff).Keys
  {
    forall k ensures k in OtherLive(h, key, cutoff) <==> k in Reclaim(store, cutoff) {
      OtherLiveMeans(h, key, cutoff, k);
      assert Recent(Bucket(store, k), cutoff) == Live(h, k, cutoff);
    }
  }

  lemma OthersAreStored(store: Store, h: History, cutoff: int, key: string)
    requires Remembers(store, h, cutoff)
    ensures OtherLive(h, key, cutoff) <= store.Keys - {key}
    ensures |OtherLive(h, key, cutoff)| <= |store.Keys - {key}|
  {
    forall k | k in OtherLive(h, key, cutoff) ensures k in store.Keys - {key} {
      OtherLiveMeans(h, key, cutoff, k);
      assert Recent(Bucket(store, k), cutoff) == Live(h, k, cutoff);
    }
    SubsetSize(OtherLive(h, key, cutoff), store.Keys - {key});
  }

  /** Replacing one bucket by its recent readings, and a new one if admitted. */
  lemma UpdateRemembers(store: Store, h: History, cutoff: int, key: string, now: int)
    requires Remembers(store, h, cutoff) && cutoff < now
    ensures Remembers(store[key := Live(h, key, cutoff)], h, cutoff)
    ensures Remembers(store[key := Live(h, key, cutoff) + [now]], h + [Admission(key, now)], cutoff)
  {
    var kept := store[key := Live(h, key, cutoff)];
    var grown := store[key := Live(h, key, cutoff) + [now]];
    var h' := h + [Admission(key, now)];
    forall k
      ensures Recent(Bucket(kept, k), cutoff) == Live(h, k, cutoff)
      ensures Recent(Bucket(grown, k), cutoff) == Live(h', k, cutoff)
    {
      TimesSnoc(h, Admission(key, now), k);
      assert Recent(Bucket(store, k), cutoff) == Live(h, k, cutoff);
      if k == key {
        RecentTwice(Times(h, k), cutoff, cutoff);
      } else {
        assert Times(h, k) + [] == Times(h, k);
      }
    }
  }

  class Limiter {
    const limit: nat
    const maxClients: nat
    var store: Store
    /** Every admission granted, and the latest clock reading used. */
    ghost var history: History
    ghost var last: int

    ghost predicate Valid()
      reads this
    {
      && limit >= 1 && maxClients >= 1
      && |store| <= maxClients
      && Remembers(store, history, last - WINDOW)
      && Legitimate(history, limit, maxClients)
      && (history != [] ==> history[|history| - 1].at <= last)
    }

    constructor (limit: nat, maxClients: nat, now: int)
      requires limit >= 1 && maxClients >= 1
      ensures Valid() && history == [] && last == now
      ensures this.limit == limit && this.maxClients == maxClients
    {
      this.limit, this.maxClients := limit, maxClients;
      store, history, last := map[], [], now;
    }

    /** `_check_window_rate_limit`. The reading `now` is taken before the lock, so
        it is assumed not to run backwards in lock order. */
    method Check(key: string, now: int) returns (admitted: bool)
      requires Valid() && now >= last
      modifies this
      ensures Valid() && last == now
      ensures admitted == Decide(old(history), key, now, limit, maxClients)
      ensures admitted <==>
              && |set i | && 0 <= i < |old(history)|
                          && old(history)[i].key == key && old(history)[i].at > now - 60| < limit
              && |set a | a in old(history) && a.key != key && a.at > now - 60 :: a.key| < maxClients
      ensures history == if admitted then old(history) + [Admission(key, now)] else old(history)
    {
      hide Legitimate, Remembers, Decide;
      DecideMeans(history, key, now, limit, maxClients);
      RemembersLater(store, history, last - WINDOW, now - WINDOW);
      last := now;
      store, admitted := Consume(store, key, now, limit, maxClients, history);
      if admitted {
        LegitimateSnoc(history, Admission(key, now), limit, maxClients);
        history := history + [Admission(key, now)];
      }
    }

    /** The hourly sweep changes no later decision. */
    method Cleanup(now: int)
      requires Valid() && now >= last
      modifies this
      ensures Valid() && last == now && history == old(history)
      ensures store.Keys <= old(store.Keys)
    {
      hide Legitimate, Remembers, Recent, Times, OtherLive, Reclaim, Sweep;
      var cutoff := now - WINDOW;
      RemembersLater(store, history, last - WINDOW, cutoff);
      SweepRemembers(store, history, cutoff);
      SubsetSize(Sweep(store, cutoff).Keys, store.Keys);
      last := now;
      store := Sweep(store, cutoff);
    }
  }

  /** What reclaiming leaves are the other live keys, so a full store is a refusal. */
  lemma ReclaimDecides(store: Store, h: History, key: string, now: int, limit: nat, maxClients: nat)
    requires Remembers(store, h, now - WINDOW) && key !in store
    ensures Remembers(Reclaim(store, now - WINDOW), h, now - WINDOW)
    ensures key !in Reclaim(store, now - WINDOW)
    ensures |Reclaim(store, now - WINDOW)| <= |store|
    ensures |Reclaim(store, now - WINDOW)| >= maxClients ==> !Decide(h, key, now, limit, maxClients)
  {
    var cutoff := now - WINDOW;
    ReclaimedAreLive(store, h, cutoff, key);
    SubsetSize(Reclaim(store, cutoff).Keys, store.Keys);
    hide Remembers, Reclaim, OtherLive, Live;
    assert |Reclaim(store, cutoff)| == |Reclaim(store, cutoff).Keys|;
  }

  /** With room for the key, only its own bucket decides. */
  lemma BucketDecides(store: Store, h: History, key: string, now: int, limit: nat, maxClients: nat)
    requires Remembers(store, h, now - WINDOW) && |store.Keys - {key}| < maxClients
    ensures Recent(Bucket(store, key), now - WINDOW) == Live(h, key, now - WINDOW)
    ensures Decide(h, key, now, limit, maxClients) <==> |Live(h, key, now - WINDOW)| < limit
  {
    OthersAreStored(store, h, now - WINDOW, key);
    hide Remembers, OtherLive, Live;
  }

  /** One admission check on the buckets (server.py 699-719). */
  method Consume(store0: Store, key: string, now: int, limit: nat, maxClients: nat, ghost h: History)
    returns (store: Store, admitted: bool)
    requires limit >= 1 && maxClients >= 1 && |store0| <= maxClients
    requires Remembers(store0, h, now - WINDOW)
    ensures |store| <= maxClients
    ensures admitted == Decide(h, key, now, limit, maxClients)
    ensures Remembers(store, if admitted then h + [Admission(key, now)] else h, now - WINDOW)
  {
    var cutoff := now - WINDOW;
    assert cutoff < now;
    hide *;
    store := store0;
    if key !in store && |store| >= maxClients {
      ReclaimDecides(store, h, key, now, limit, maxClients);
      store := Reclaim(store, cutoff);
      if |store| >= maxClients {
        return store, false;
      }
    }
    var recent := Recent(Bucket(store, key), cutoff);
    BucketDecides(store, h, key, now, limit, maxClients);
    UpdateRemembers(store, h, cutoff, key, now);
    if |recent| >= limit {
      return store[key := recent], false;
    }
    return store[key := recent + [now]], true;
  }

  /** Every bucket pruned, empty ones dropped (server.py 513-523). */
  function Sweep(store: Store, cutoff: int): (r: Store) {
    map key | key in store && Recent(store[key], cutoff) != [] :: Recent(store[key], cutoff)
  }

  lemma SweepRemembers(store: Store, h: History, cutoff: int)
    requires Remembers(store, h, cutoff)
    ensures Remembers(Sweep(store, cutoff), h, cutoff)
    ensures Sweep(store, cutoff).Keys <= store.Keys
  {
    var r := Sweep(store, cutoff);
    forall key ensures Recent(Bucket(r, key), cutoff) == Live(h, key, cutoff) {
      assert Recent(Bucket(store, key), cutoff) == Live(h, key, cutoff);
      RecentTwice(Bucket(store, key), cutoff, cutoff);
    }
  }

  /** The store counts exactly the slots held, within both limits. */
  ghost predicate SlotsOk(store: map<string, nat>, held: multiset<string>, perClient: nat, maxClients: nat) {
    && |store| <= maxClients
    && (forall key :: key in store <==> key in held)
    && (forall key :: key in store ==> store[key] == held[key] <= perClient)
  }

  function Released(store: map<string, nat>, key: string): map<string, nat> {
    if key in store && store[key] > 1 then store[key := store[key] - 1] else store - {key}
  }

  lemma ReleaseOk(store: map<string, nat>, held: multiset<string>, perClient: nat, maxClients: nat, key: string)
    requires SlotsOk(store, held, perClient, maxClients)
    ensures SlotsOk(Released(store, key), held - multiset{key}, perClient, maxClients)
  {
    var less := Released(store, key);
    assert less.Keys <= store.Keys;
    SubsetSize(less.Keys, store.Keys);
    assert |less.Keys| == |less| && |store.Keys| == |store|;
    forall k ensures k in less <==> k in held - multiset{key} {
    }
  }

  lemma AcquireOk(store: map<string, nat>, held: multiset<string>, perClient: nat, maxClients: nat, key: string)
    requires SlotsOk(store, held, perClient, maxClients) && held[key] < perClient
    requires key in held || |store| < maxClients
    ensures SlotsOk(store[key := held[key] + 1], held + multiset{key}, perClient, maxClients)
  {
    var more := store[key := held[key] + 1];
    assert more.Keys == store.Keys + {key};
    assert |more.Keys| == |more| && |store.Keys| == |store|;
    if key in store {
      assert store.Keys + {key} == store.Keys;
    }
    forall k ensures k in more <==> k in held + multiset{key} {
    }
  }

  /** Slots for calls to the authentication authority, per observed client. */
  class AuthSlots {
    const perClient: nat
    const maxClients: nat
    var store: map<string, nat>
    /** Acquired and not yet released. */
    ghost var held: multiset<string>

    ghost predicate Valid()
      reads this
    {
      perClient >= 1 && SlotsOk(store, held, perClient, maxClients)
    }

    constructor (perClient: nat, maxClients: nat)
      requires perClient >= 1
      ensures Valid() && held == multiset{} && this.perClient == perClient && this.maxClients == maxClients
    {
      this.perClient, this.maxClients := perClient, maxClients;
      store, held := map[], multiset{};
    }

    method Acquire(key: string) returns (ok: bool)
      requires Valid()
      modifies this
      ensures Valid()
      ensures ok <==> old(held)[key] < perClient && (key in old(held) || |old(store)| < maxClients)
      ensures held == if ok then old(held) + multiset{key} else old(held)
    {
      var current := if key in store then store[key] else 0;
      if current >= perClient || (current == 0 && |store| >= maxClients) {
        return false;
      }
      AcquireOk(store, held, perClient, maxClients, key);
      store := store[key := current + 1];
      held := held + multiset{key};
      return true;
    }

    /** One slot less for the client, whose entry goes with the last one; a client
        that holds nothing has nothing to release. */
    method Release(key: string)
      requires Valid()
      modifies this
      ensures Valid() && held == old(held) - multiset{key}
    {
      ReleaseOk(store, held, perClient, maxClients, key);
      hide SlotsOk;
      var current := if key in store then store[key] else 0;
      store := if current <= 1 then store - {key} else store[key := current - 1];
      held := held - multiset{key};
    }
  }
}
