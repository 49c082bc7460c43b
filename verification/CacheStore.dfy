/** The translation cache: a table of rows, hits that are queued and flushed in
    batches, and retention that is put off until enough rows were written. Each
    lock region and each transaction is one step, so any interleaving of callers
    is a sequence of these methods. */
module CacheStore {
  import opened Collections
  import opened Options
  import opened Retention
  import opened TextOrder
  import Text
  import Reasoning

  /** One lookup: the paragraph, and the key its text, languages and scope hash to. */
  datatype Probe = Probe(text: string, key: Key)

  // ---- reading ----

  /** A row that holds a model's reasoning instead of a translation. */
  predicate CachedReasoning(text: string, translated: string) {
    var open := Reasoning.THINK.open;
    && Reasoning.MatchesAt(Text.LStrip(translated), open, 0)
    && Reasoning.Find(text, open) < 0
  }

  /** What a lookup answers, from the table alone. */
  function Answer(t: Table, p: Probe, cutoff: int): Option<string> {
    if p.key !in t || t[p.key].created < cutoff || CachedReasoning(p.text, t[p.key].text) then None
    else Some(t[p.key].text)
  }

  /** A lookup answers with the row's text exactly when the row has not expired and
      does not open with a reasoning tag that the paragraph itself does not contain. */
  lemma AnswerMeans(t: Table, p: Probe, cutoff: int, x: string)
    ensures Answer(t, p, cutoff) == Some(x) <==>
            && p.key in t && t[p.key].text == x && t[p.key].created >= cutoff
            && ("<think>" <= Text.LStrip(x) ==> exists j :: 0 <= j <= |p.text| && "<think>" <= p.text[j..])
  {
    var open := "<think>";
    Reasoning.MatchesMeans(Text.LStrip(x), open, 0);
    assert Text.LStrip(x)[0..] == Text.LStrip(x);
    var at := Reasoning.Find(p.text, open);
    if at >= 0 {
      Reasoning.MatchesMeans(p.text, open, at);
    }
    if j :| 0 <= j <= |p.text| && open <= p.text[j..] {
      Reasoning.MatchesMeans(p.text, open, j);
    }
  }

  // ---- writing ----

  function Hits(t: Table, k: Key): nat {
    if k in t then t[k].hits else 0
  }

  datatype Write = Write(key: Key, text: string)

  /** Insert, or update all but the hit count. */
  function Upsert(t: Table, writes: seq<Write>, now: int): Table {
    if writes == [] then t
    else
      var before, w := Upsert(t, writes[..|writes| - 1], now), writes[|writes| - 1];
      before[w.key := Row(w.text, now, now, Hits(before, w.key))]
  }

  lemma {:induction false} UpsertHits(t: Table, writes: seq<Write>, now: int, k: Key)
    ensures Hits(Upsert(t, writes, now), k) == Hits(t, k)
    ensures k in Upsert(t, writes, now) <==> k in t || exists i :: 0 <= i < |writes| && writes[i].key == k
  {
    if writes != [] {
      var init := writes[..|writes| - 1];
      UpsertHits(t, init, now, k);
      assert forall i :: 0 <= i < |init| ==> init[i] == writes[i];
      if writes[|writes| - 1].key != k && k in Upsert(t, writes, now) && k !in t {
        var i :| 0 <= i < |init| && init[i].key == k;
        assert writes[i].key == k;
      }
    }
  }

  /** A row whose key is not written stays as it was. */
  lemma {:induction false} UpsertOther(t: Table, writes: seq<Write>, now: int, k: Key)
    requires forall i :: 0 <= i < |writes| ==> writes[i].key != k
    ensures k in Upsert(t, writes, now) <==> k in t
    ensures k in t ==> Upsert(t, writes, now)[k] == t[k]
  {
    if writes != [] {
      UpsertOther(t, writes[..|writes| - 1], now, k);
    }
  }

  /** The last write of a key is what a reader then finds. */
  lemma {:induction false} UpsertRow(t: Table, writes: seq<Write>, now: int, i: nat)
    requires i < |writes| && forall j :: i < j < |writes| ==> writes[j].key != writes[i].key
    ensures writes[i].key in Upsert(t, writes, now)
    ensures Upsert(t, writes, now)[writes[i].key] == Row(writes[i].text, now, now, Hits(t, writes[i].key))
  {
    var init := writes[..|writes| - 1];
    if i == |writes| - 1 {
      UpsertHits(t, init, now, writes[i].key);
    } else {
      assert init[i] == writes[i];
      forall j | i < j < |init| ensures init[j].key != init[i].key {
        assert init[j] == writes[j];
      }
      UpsertRow(t, init, now, i);
    }
  }

  lemma {:induction false} UpsertSize(t: Table, writes: seq<Write>, now: int)
    ensures |t| <= |Upsert(t, writes, now)| <= |t| + |writes|
  {
    if writes != [] {
      var before, w := Upsert(t, writes[..|writes| - 1], now), writes[|writes| - 1];
      UpsertSize(t, writes[..|writes| - 1], now);
    }
  }

  /** `_delete_expired`. */
  function Unexpired(t: Table, cutoff: int): Table {
    map k | k in t && t[k].created >= cutoff :: t[k]
  }

  /** Both halves of retention. */
  function Pruned(t: Table, cutoff: int, max: nat): Table {
    Kept(Unexpired(t, cutoff), max)
  }

  /** Rows only go; those that stay are unchanged. */
  predicate Subtable(s: Table, t: Table) {
    forall k :: k in s ==> k in t && s[k] == t[k]
  }

  lemma PrunedSize(t: Table, cutoff: int, max: nat)
    ensures |Pruned(t, cutoff, max)| <= max && |Pruned(t, cutoff, max)| <= |t|
    ensures Subtable(Pruned(t, cutoff, max), t)
  {
    hide Above;
    var u := Unexpired(t, cutoff);
    KeptSize(u, max);
    assert u.Keys <= t.Keys;
    SubsetSize(u.Keys, t.Keys);
    assert |u.Keys| == |u| && |t.Keys| == |t|;
  }

  /** Retention keeps rows created since the cutoff only, as many of them as it may,
      and of those the ones used last. */
  lemma PrunedMeans(t: Table, cutoff: int, max: nat)
    ensures forall k :: k in Pruned(t, cutoff, max) ==>
              k in t && Pruned(t, cutoff, max)[k] == t[k] && t[k].created >= cutoff
    ensures var young := |set k | k in t && t[k].created >= cutoff|;
            |Pruned(t, cutoff, max)| == if young <= max then young else max
    ensures forall a, k :: a in Pruned(t, cutoff, max) && k in t && k !in Pruned(t, cutoff, max) ==>
              || t[k].created < cutoff
              || t[a].accessed > t[k].accessed
              || (&& t[a].accessed == t[k].accessed
                  && (t[a].created > t[k].created || (t[a].created == t[k].created && Before(k, a))))
  {
    hide Above;
    var u := Unexpired(t, cutoff);
    KeptSize(u, max);
    assert u.Keys == set k | k in t && t[k].created >= cutoff;
    assert |u.Keys| == |u|;
    forall a, k | a in Pruned(t, cutoff, max) && k in t && k !in Pruned(t, cutoff, max) && t[k].created >= cutoff
      ensures
        || t[a].accessed > t[k].accessed
        || (&& t[a].accessed == t[k].accessed
            && (t[a].created > t[k].created || (t[a].created == t[k].created && Before(k, a))))
    {
      KeptAreRecent(u, max, a, k);
    }
  }

  /** The update a flush commits: every row of the batch gains its count. */
  function Credited(t: Table, counts: multiset<Key>, now: int): Table {
    map k | k in t :: if k in counts then t[k].(hits := t[k].hits + counts[k], accessed := now) else t[k]
  }

  lemma CreditedMeans(t: Table, counts: multiset<Key>, now: int)
    ensures Credited(t, counts, now).Keys == t.Keys
    ensures forall k :: k in t && k in counts ==>
              Credited(t, counts, now)[k] == t[k].(hits := t[k].hits + counts[k], accessed := now)
    ensures forall k :: k in t && k !in counts ==> Credited(t, counts, now)[k] == t[k]
  {
  }

  lemma CreditedNothing(t: Table)
    ensures forall now :: Credited(t, multiset{}, now) == t
  {
  }

  lemma CreditedSize(t: Table, counts: multiset<Key>, now: int)
    ensures |Credited(t, counts, now)| == |t|
  {
    assert Credited(t, counts, now).Keys == t.Keys;
    assert |Credited(t, counts, now).Keys| == |Credited(t, counts, now)|;
  }

  // ---- the ledger ----

  /** For every key, the hits recorded so far: those the table held at the start
      and those queued since (`recorded`), those a flush dropped without writing
      them (`lost`), and those that went with a deleted row or found none (`gone`). */
  datatype Ledger = Ledger(recorded: Key -> nat, lost: Key -> nat, gone: Key -> nat)

  /** Nothing is counted twice or forgotten. */
  ghost predicate Balanced(l: Ledger, t: Table, pending: multiset<Key>, flying: multiset<Key>) {
    forall k: Key :: l.recorded(k) == Hits(t, k) + pending[k] + flying[k] + l.lost(k) + l.gone(k)
  }

  function Plus(f: Key -> nat, m: multiset<Key>): Key -> nat {
    k => f(k) + m[k]
  }

  /** Counts of keys that have no row. */
  function PlusMissing(f: Key -> nat, m: multiset<Key>, t: Table): Key -> nat {
    k => f(k) + (if k in t then 0 else m[k])
  }

  /** Stored counts of rows that are no longer there. */
  function PlusDropped(f: Key -> nat, t: Table, s: Table): Key -> nat {
    k => f(k) + (if k in s then 0 else Hits(t, k))
  }

  lemma BalancedQueue(l: Ledger, t: Table, pending: multiset<Key>, flying: multiset<Key>, key: Key)
    requires Balanced(l, t, pending, flying)
    ensures Balanced(l.(recorded := Plus(l.recorded, multiset{key})), t, pending + multiset{key}, flying)
  {
  }

  lemma BalancedLost(l: Ledger, t: Table, pending: multiset<Key>, flying: multiset<Key>)
    requires Balanced(l, t, pending, flying)
    ensures Balanced(l.(lost := Plus(l.lost, flying)), t, pending, multiset{})
  {
  }

  lemma BalancedCredit(l: Ledger, t: Table, pending: multiset<Key>, flying: multiset<Key>, now: int)
    requires Balanced(l, t, pending, flying)
    ensures Balanced(l.(gone := PlusMissing(l.gone, flying, t)), Credited(t, flying, now), pending, multiset{})
  {
    var m := l.(gone := PlusMissing(l.gone, flying, t));
    var s := Credited(t, flying, now);
    forall k: Key ensures m.recorded(k) == Hits(s, k) + pending[k] + m.lost(k) + m.gone(k) {
      assert l.recorded(k) == Hits(t, k) + pending[k] + flying[k] + l.lost(k) + l.gone(k);
    }
  }

  lemma BalancedTable(l: Ledger, t: Table, u: Table, s: Table, pending: multiset<Key>, flying: multiset<Key>)
    requires Balanced(l, t, pending, flying)
    requires forall k: Key :: Hits(u, k) == Hits(t, k)
    requires Subtable(s, u)
    ensures Balanced(l.(gone := PlusDropped(l.gone, t, s)), s, pending, flying)
  {
    var m := l.(gone := PlusDropped(l.gone, t, s));
    forall k: Key ensures m.recorded(k) == Hits(s, k) + pending[k] + flying[k] + m.lost(k) + m.gone(k) {
      assert l.recorded(k) == Hits(t, k) + pending[k] + flying[k] + l.lost(k) + l.gone(k);
      assert Hits(u, k) == Hits(t, k);
    }
  }

  // ---- the store ----

  /** How a write transaction ends: committed, failed before its rows were counted
      towards pruning, or rolled back after. */
  datatype Ending = Commit | FailBeforeCount | RollBack

  datatype FlushOutcome = StopsEarly | Commits(now: int) | RollsBack

  function Threshold(max: nat): nat {
    if max < 1000 then max else 1000
  }

  function Flying(flush: Option<multiset<Key>>): multiset<Key> {
    if flush.Some? then flush.value else multiset{}
  }

  class Store {
    const max: nat
    const flushAt: nat
    var table: Table
    var pending: multiset<Key>
    var pendingTotal: nat
    /** The batch between a flush's swap and its commit or return. */
    var flush: Option<multiset<Key>>
    var writesSincePrune: nat
    ghost var ledger: Ledger
    /** Committed rows whose count a rolled-back pruning reset, since the last
        committed one. */
    ghost var forgotten: nat

    ghost predicate Valid()
      reads this
    {
      && max >= 1 && flushAt >= 1
      && pendingTotal == |pending|
      && Balanced(ledger, table, pending, Flying(flush))
      && |table| <= max + writesSincePrune + forgotten
      && writesSincePrune < Threshold(max)
    }

    /** Opening the store prunes what it finds on disk. */
    constructor (max: nat, flushAt: nat, found: Table, cutoff: int)
      requires max >= 1 && flushAt >= 1
      ensures Valid() && table == Pruned(found, cutoff, max) && |table| <= max
      ensures this.max == max && this.flushAt == flushAt && forgotten == 0 && writesSincePrune == 0
      ensures pending == multiset{} && flush == None
      ensures forall k: Key :: ledger.lost(k) == 0 && ledger.gone(k) == 0
    {
      PrunedSize(found, cutoff, max);
      this.max, this.flushAt := max, flushAt;
      var t := Pruned(found, cutoff, max);
      table, pending, pendingTotal, flush := t, multiset{}, 0, None;
      writesSincePrune, forgotten := 0, 0;
      ledger := Ledger(k => Hits(t, k), k => 0, k => 0);
    }

    /** `_queue_hit`; when `due`, the caller goes on to flush. */
    method QueueHit(key: Key) returns (due: bool)
      requires Valid()
      modifies this`pending, this`pendingTotal, this`ledger
      ensures Valid()
      ensures pending == old(pending) + multiset{key}
      ensures ledger == old(ledger).(recorded := Plus(old(ledger).recorded, multiset{key}))
      ensures due <==> |pending| >= flushAt
    {
      hide Balanced, Plus;
      BalancedQueue(ledger, table, pending, Flying(flush), key);
      pending := pending + multiset{key};
      pendingTotal := pendingTotal + 1;
      ledger := ledger.(recorded := Plus(ledger.recorded, multiset{key}));
      due := pendingTotal >= flushAt;
    }

    /** `flush_hits`, first region: the counters are taken over. */
    method BeginFlush()
      requires Valid() && flush == None
      modifies this`pending, this`pendingTotal, this`flush
      ensures Valid()
      ensures if old(pending) == multiset{} then flush == None && pending == old(pending)
              else flush == Some(old(pending)) && pending == multiset{}
    {
      if pending == multiset{} { return; }
      assert Flying(Some(pending)) == pending;
      flush := Some(pending);
      pending, pendingTotal := multiset{}, 0;
    }

    /** Opening the connection or reading the clock failed: the batch was taken
        over but nothing puts it back (cache.py 563-564). */
    method CutShort()
      requires Valid() && flush.Some?
      modifies this`flush, this`ledger
      ensures Valid() && flush == None
      ensures ledger == old(ledger).(lost := Plus(old(ledger).lost, old(flush).value))
    {
      hide Balanced, Plus;
      BalancedLost(ledger, table, pending, flush.value);
      ledger := ledger.(lost := Plus(ledger.lost, flush.value));
      flush := None;
    }

    /** `flush_hits`: the update commits. A batch's keys without a row are gone. */
    method CommitFlush(now: int) returns (r: nat)
      requires Valid() && flush.Some?
      modifies this`table, this`flush, this`ledger
      ensures Valid() && flush == None
      ensures table == Credited(old(table), old(flush).value, now)
      ensures table.Keys == old(table.Keys)
      ensures forall k :: k in table && k in old(flush).value ==>
                table[k] == old(table)[k].(hits := old(table)[k].hits + old(flush).value[k], accessed := now)
      ensures forall k :: k in table && k !in old(flush).value ==> table[k] == old(table)[k]
      ensures ledger == old(ledger).(gone := PlusMissing(old(ledger).gone, old(flush).value, old(table)))
      ensures r == |old(flush).value|
    {
      hide Balanced, PlusMissing, Credited, Hits, Threshold;
      var batch := flush.value;
      BalancedCredit(ledger, table, pending, batch, now);
      CreditedSize(table, batch, now);
      CreditedMeans(table, batch, now);
      ledger := ledger.(gone := PlusMissing(ledger.gone, batch, table));
      table := Credited(table, batch, now);
      flush := None;
      r := |batch|;
    }

    /** `flush_hits`: the update was rolled back, so the counters come back. */
    method ReturnFlush()
      requires Valid() && flush.Some?
      modifies this`pending, this`pendingTotal, this`flush
      ensures Valid() && flush == None && pending == old(pending) + old(flush).value
    {
      hide Balanced, Hits, Threshold;
      var batch := flush.value;
      BalancedBack(ledger, table, pending, batch);
      pending := pending + batch;
      pendingTotal := pendingTotal + |batch|;
      flush := None;
    }

    /** `flush_hits` as one caller runs it. A row's stored and pending hits together
        stay what they were exactly unless the flush stops before its update while
        hits for that row are pending. */
    method FlushHits(outcome: FlushOutcome) returns (r: nat)
      requires Valid() && flush == None
      modifies this`table, this`pending, this`pendingTotal, this`flush, this`ledger
      ensures Valid() && flush == None && table.Keys == old(table.Keys)
      ensures forall k :: k in table ==>
                (Hits(table, k) + pending[k] == old(Hits(table, k) + pending[k])
                 <==> !(outcome == StopsEarly && k in old(pending)))
      ensures r == if outcome.Commits? then old(|pending|) else 0
      ensures table == if outcome.Commits? then Credited(old(table), old(pending), outcome.now) else old(table)
      ensures pending == if outcome.RollsBack? then old(pending) else multiset{}
    {
      hide Balanced, PlusMissing, Plus, Threshold;
      r := 0;
      CreditedNothing(table);
      BeginFlush();
      if flush == None { return; }
      match outcome {
        case StopsEarly => CutShort();
        case Commits(now) => r := CommitFlush(now);
        case RollsBack => ReturnFlush();
      }
    }

    /** `put_many`. The write counter lives outside the transaction: a rollback
        does not restore it, not even after a pruning that reset it. */
    method PutMany(writes: seq<Write>, now: int, cutoff: int, ending: Ending)
      requires Valid() && |writes| >= 1
      modifies this`table, this`writesSincePrune, this`ledger, this`forgotten
      ensures Valid()
      ensures ending != Commit ==> table == old(table) && ledger == old(ledger)
      ensures ending == Commit ==>
                && table == (if old(writesSincePrune) + |writes| >= (if max < 1000 then max else 1000)
                             then Pruned(Upsert(old(table), writes, now), cutoff, max)
                             else Upsert(old(table), writes, now))
                && ledger == old(ledger).(gone := PlusDropped(old(ledger).gone, old(table), table))
      ensures writesSincePrune ==
              if ending == FailBeforeCount then old(writesSincePrune)
              else if old(writesSincePrune) + |writes| >= (if max < 1000 then max else 1000) then 0
              else old(writesSincePrune) + |writes|
      ensures forgotten ==
              if ending == FailBeforeCount || old(writesSincePrune) + |writes| < (if max < 1000 then max else 1000)
              then old(forgotten)
              else if ending == Commit then 0
              else old(forgotten) + old(writesSincePrune)
      ensures ending == Commit && forgotten == 0 ==> |table| < max + (if max < 1000 then max else 1000)
      ensures Cache(table, writesSincePrune) ==
              After(Cache(old(table), old(writesSincePrune)), Put(writes, now, cutoff, ending), max)
    {
      hide Balanced, Hits, Written, PlusDropped, After, Pruned, Upsert;
      CountsAs(table, writesSincePrune, Put(writes, now, cutoff, ending), max);
      WrittenIs(table, writes, now, cutoff, max);
      if ending == FailBeforeCount { return; }
      var due := Due(writesSincePrune, writes, max);
      ghost var counted := writesSincePrune;
      writesSincePrune := if due then 0 else writesSincePrune + |writes|;
      if ending == Commit {
        WrittenMeans(ledger, table, pending, Flying(flush), writes, now, cutoff, max, due);
        ledger := ledger.(gone := PlusDropped(ledger.gone, table, Written(table, writes, now, cutoff, max, due)));
        table := Written(table, writes, now, cutoff, max, due);
      }
      forgotten := Forgets(forgotten, counted, due, ending);
    }

    /** `cleanup`: a flush, then retention with its own cutoff. It raises when the
        flush does, or when retention is rolled back; else it counts the rows that
        had expired. */
    method Cleanup(outcome: FlushOutcome, cutoff: int, commit: bool) returns (r: Option<nat>)
      requires Valid() && flush == None
      modifies this`table, this`pending, this`pendingTotal, this`flush, this`ledger, this`forgotten
      ensures Valid() && flush == None
      ensures r.Some? <==> commit && (outcome.Commits? || old(pending) == multiset{})
      ensures r.Some? ==>
                var flushed := if outcome.Commits? then Credited(old(table), old(pending), outcome.now) else old(table);
                && table == Pruned(flushed, cutoff, max) && |table| <= max && forgotten == 0
                && r.value == |set k | k in flushed && flushed[k].created < cutoff|
    {
      hide Balanced, Hits, Pruned, PlusDropped, Credited, Kept;
      var raises := pending != multiset{} && !outcome.Commits?;
      var _ := FlushHits(outcome);
      if raises { return None; }
      var deleted := |set k | k in table && table[k].created < cutoff|;
      Prune(cutoff, commit);
      r := if commit then Some(deleted) else None;
    }

    /** The retention part of `cleanup`. */
    method Prune(cutoff: int, commit: bool)
      requires Valid()
      modifies this`table, this`ledger, this`forgotten
      ensures Valid()
      ensures commit ==>
                && table == Pruned(old(table), cutoff, max) && |table| <= max && forgotten == 0
                && ledger == old(ledger).(gone := PlusDropped(old(ledger).gone, old(table), table))
      ensures !commit ==> table == old(table) && ledger == old(ledger) && forgotten == old(forgotten)
    {
      hide Balanced, Hits, Pruned, PlusDropped;
      if commit {
        PrunedSize(table, cutoff, max);
        BalancedTable(ledger, table, table, Pruned(table, cutoff, max), pending, Flying(flush));
        ledger := ledger.(gone := PlusDropped(ledger.gone, table, Pruned(table, cutoff, max)));
        table := Pruned(table, cutoff, max);
        forgotten := 0;
      }
    }

    /** The delete a lookup issues for the expired rows it read. Each row goes only
        if it is still the one that was read. */
    method DeleteStale(read: map<Key, int>, commit: bool)
      requires Valid()
      modifies this`table, this`ledger
      ensures Valid()
      ensures table == if commit then WithoutStale(old(table), read) else old(table)
      ensures ledger == if commit then old(ledger).(gone := PlusDropped(old(ledger).gone, old(table), table))
                        else old(ledger)
    {
      hide Balanced, Hits, WithoutStale, PlusDropped;
      if commit {
        WithoutStaleMeans(table, read);
        BalancedTable(ledger, table, table, WithoutStale(table, read), pending, Flying(flush));
        ledger := ledger.(gone := PlusDropped(ledger.gone, table, WithoutStale(table, read)));
        table := WithoutStale(table, read);
      }
    }

    /** `get`; None when the delete of an expired row failed. A hit is recorded if
        the caller asks for it, and a flush may then be `due`. */
    method Get(p: Probe, cutoff: int, commit: bool, recordHit: bool) returns (r: Option<Option<string>>, due: bool)
      requires Valid()
      modifies this`table, this`ledger, this`pending, this`pendingTotal
      ensures Valid()
      ensures r == None <==> p.key in old(table) && old(table)[p.key].created < cutoff && !commit
      ensures r.Some? ==> r.value == Answer(old(table), p, cutoff)
      ensures table == if r.Some? then Evicted(old(table), {p.key}, cutoff) else old(table)
      ensures table == if r.Some? && p.key in old(table) && old(table)[p.key].created < cutoff
                       then old(table) - {p.key} else old(table)
      ensures var hit := recordHit && r.Some? && r.value.Some?;
              && pending == (if hit then old(pending) + multiset{p.key} else old(pending))
              && (due <==> hit && |pending| >= flushAt)
      ensures ledger.lost == old(ledger).lost
    {
      hide Balanced, Hits, Answer, Evicted, PlusDropped, Plus;
      EvictedOne(table, p.key, cutoff);
      r := Read(p, cutoff, commit);
      due := false;
      if recordHit && r.Some? && r.value.Some? {
        due := QueueHit(p.key);
      }
    }

    /** The lookup itself. */
    method Read(p: Probe, cutoff: int, commit: bool) returns (r: Option<Option<string>>)
      requires Valid()
      modifies this`table, this`ledger
      ensures Valid()
      ensures r == None <==> Stale(old(table), p.key, cutoff) && !commit
      ensures r.Some? ==> r.value == Answer(old(table), p, cutoff)
      ensures table == if r.Some? then Evicted(old(table), {p.key}, cutoff) else old(table)
      ensures ledger.lost == old(ledger).lost
    {
      hide Balanced, Hits, CachedReasoning, WithoutStale, Evicted, PlusDropped;
      EvictedMeans(table, {p.key}, cutoff);
      if p.key !in table {
        EvictedNothing(table, {p.key}, cutoff);
        return Some(None);
      }
      if table[p.key].created < cutoff {
        DeleteStale(Expired(table, {p.key}, cutoff), commit);
        return if commit then Some(None) else None;
      }
      EvictedNothing(table, {p.key}, cutoff);
      if CachedReasoning(p.text, table[p.key].text) {
        return Some(None);
      }
      return Some(Some(table[p.key].text));
    }

    /** `get_many`: one query, one delete, one answer per probe; None exactly when a
        delete was needed and failed. Hits are recorded one by one if asked for; a
        flush may then be `due` on the way. */
    method GetMany(probes: seq<Probe>, cutoff: int, commit: bool, recordHit: bool)
      returns (r: Option<seq<Option<string>>>, due: bool)
      requires Valid()
      modifies this`table, this`ledger, this`pending, this`pendingTotal
      ensures Valid()
      ensures r.None? <==> !commit && exists p :: p in probes && Stale(old(table), p.key, cutoff)
      ensures r.Some? ==> r.value == Answers(old(table), probes, cutoff)
      ensures table == if r.Some? then Evicted(old(table), Keys(probes), cutoff) else old(table)
      ensures pending == old(pending)
              + (if recordHit && r.Some? then multiset(HitKeys(old(table), probes, cutoff)) else multiset{})
      ensures ledger.lost == old(ledger).lost
    {
      hide Balanced, Hits, Answer, WithoutStale, Evicted, PlusDropped, Plus;
      var rows := Evicted(table, Keys(probes), cutoff);
      var stale := Expired(table, Keys(probes), cutoff);
      EvictedMeans(table, Keys(probes), cutoff);
      ExpiredMeans(table, probes, cutoff);
      ghost var was := table;
      due := false;
      if stale != map[] {
        DeleteStale(stale, commit);
        if !commit { return None, due; }
      } else {
        NothingExpired(table, Keys(probes), cutoff);
      }
      hide Expired;
      var answers := Collect(was, rows, probes, cutoff);
      r := Some(answers);
      if recordHit {
        due := RecordAll(probes, answers, was, cutoff);
      }
    }

    /** The hits of a batch, in order. */
    method RecordAll(probes: seq<Probe>, answers: seq<Option<string>>, ghost t: Table, ghost cutoff: int)
      returns (due: bool)
      requires Valid() && answers == Answers(t, probes, cutoff)
      modifies this`ledger, this`pending, this`pendingTotal
      ensures Valid() && ledger.lost == old(ledger).lost
      ensures pending == old(pending) + multiset(HitKeys(t, probes, cutoff))
    {
      hide Balanced, Hits, Answer, Plus, Threshold, HitKeys, Answers, Flying;
      due := false;
      NoHitKeys(t, cutoff);
      AnswersLength(t, probes, cutoff);
      assert probes[..0] == [];
      for i := 0 to |probes|
        invariant Valid() && ledger.lost == old(ledger).lost
        invariant pending == old(pending) + multiset(HitKeys(t, probes[..i], cutoff))
      {
        AnswersAt(t, probes, cutoff, i);
        HitKeysNext(t, probes, cutoff, i);
        if answers[i].Some? {
          var now := QueueHit(probes[i].key);
          due := due || now;
          Regroup(old(pending), multiset(HitKeys(t, probes[..i], cutoff)), multiset{probes[i].key});
        }
      }
      assert probes[..|probes|] == probes;
    }

    /** A `get` for every probe in turn, as `get_many` stands for. */
    method GetEach(probes: seq<Probe>, cutoff: int) returns (r: seq<Option<string>>)
      requires Valid()
      modifies this`table, this`ledger
      ensures Valid()
      ensures r == Answers(old(table), probes, cutoff)
      ensures table == Evicted(old(table), Keys(probes), cutoff)
    {
      hide Balanced, Hits, Evicted, Answer, PlusDropped, Keys;
      r := [];
      EvictedNone(table, cutoff);
      for i := 0 to |probes|
        invariant Valid()
        invariant r == Answers(old(table), probes[..i], cutoff)
        invariant table == Evicted(old(table), Keys(probes[..i]), cutoff)
      {
        assert probes[..i + 1] == probes[..i] + [probes[i]];
        EvictedAnswers(old(table), Keys(probes[..i]), probes[i], cutoff);
        EvictedTwice(old(table), probes[..i], probes[i], cutoff);
        var a := Read(probes[i], cutoff, true);
        r := r + [a.value];
      }
      assert probes[..|probes|] == probes;
    }
  }

  predicate Stale(t: Table, k: Key, cutoff: int) {
    k in t && t[k].created < cutoff
  }

  function WithoutStale(t: Table, read: map<Key, int>): Table {
    map k | k in t && !(k in read && t[k].created == read[k]) :: t[k]
  }

  /** The expired rows among `keys`, as a lookup reads them. */
  function Expired(t: Table, keys: set<Key>, cutoff: int): map<Key, int> {
    map k | k in keys && Stale(t, k, cutoff) :: t[k].created
  }

  /** The table after expired rows among `keys` are gone. */
  function Evicted(t: Table, keys: set<Key>, cutoff: int): Table {
    map k | k in t && !(k in keys && t[k].created < cutoff) :: t[k]
  }

  lemma WithoutStaleMeans(t: Table, read: map<Key, int>)
    ensures Subtable(WithoutStale(t, read), t) && |WithoutStale(t, read)| <= |t|
  {
    var s := WithoutStale(t, read);
    assert s.Keys <= t.Keys;
    SubsetSize(s.Keys, t.Keys);
    assert |s.Keys| == |s| && |t.Keys| == |t|;
  }

  lemma EvictedMeans(t: Table, keys: set<Key>, cutoff: int)
    ensures Evicted(t, keys, cutoff) == WithoutStale(t, Expired(t, keys, cutoff))
  {
  }

  lemma EvictedOne(t: Table, k: Key, cutoff: int)
    ensures Evicted(t, {k}, cutoff) == if k in t && t[k].created < cutoff then t - {k} else t
  {
  }

  lemma EvictedKeys(t: Table, probes: seq<Probe>, cutoff: int, k: Key)
    ensures var s := Evicted(t, Keys(probes), cutoff);
            && (k in s <==> k in t && !(t[k].created < cutoff && exists p :: p in probes && p.key == k))
            && (k in s ==> s[k] == t[k])
  {
    if p :| p in probes && p.key == k {
      assert k in Keys(probes);
    }
  }

  lemma EvictedNothing(t: Table, keys: set<Key>, cutoff: int)
    requires forall k :: k in keys ==> !Stale(t, k, cutoff)
    ensures Evicted(t, keys, cutoff) == t
  {
  }

  function Keys(probes: seq<Probe>): set<Key> {
    set p | p in probes :: p.key
  }

  function Answers(t: Table, probes: seq<Probe>, cutoff: int): seq<Option<string>> {
    if probes == [] then []
    else Answers(t, probes[..|probes| - 1], cutoff) + [Answer(t, probes[|probes| - 1], cutoff)]
  }

  lemma {:induction false} AnswersAt(t: Table, probes: seq<Probe>, cutoff: int, i: nat)
    requires i < |probes|
    ensures |Answers(t, probes, cutoff)| == |probes|
    ensures Answers(t, probes, cutoff)[i] == Answer(t, probes[i], cutoff)
  {
    hide Answer;
    if |probes| > 1 {
      AnswersAt(t, probes[..|probes| - 1], cutoff, if i < |probes| - 1 then i else 0);
    }
  }

  /** The keys of the probes that are answered, in order. */
  function HitKeys(t: Table, probes: seq<Probe>, cutoff: int): seq<Key> {
    if probes == [] then []
    else
      var p := probes[|probes| - 1];
      HitKeys(t, probes[..|probes| - 1], cutoff) + (if Answer(t, p, cutoff).Some? then [p.key] else [])
  }

  /** A key is hit once for every probe of it that is answered. */
  lemma {:induction false} HitKeysMean(t: Table, probes: seq<Probe>, cutoff: int, k: Key)
    ensures multiset(HitKeys(t, probes, cutoff))[k] ==
            |set i | 0 <= i < |probes| && probes[i].key == k && Answer(t, probes[i], cutoff).Some?|
  {
    hide Answer;
    if probes != [] {
      var init, n := probes[..|probes| - 1], |probes| - 1;
      HitKeysMean(t, init, cutoff, k);
      assert probes[..n + 1] == probes;
      HitKeysNext(t, probes, cutoff, n);
      hide HitKeys;
      HitPositions(t, probes, cutoff, k);
    }
  }

  lemma HitPositions(t: Table, probes: seq<Probe>, cutoff: int, k: Key)
    requires probes != []
    ensures var init := probes[..|probes| - 1];
            |set i | 0 <= i < |probes| && probes[i].key == k && Answer(t, probes[i], cutoff).Some?| ==
            |set i | 0 <= i < |init| && init[i].key == k && Answer(t, init[i], cutoff).Some?|
            + (if probes[|init|].key == k && Answer(t, probes[|init|], cutoff).Some? then 1 else 0)
  {
    hide Answer;
    var init, n := probes[..|probes| - 1], |probes| - 1;
    OneMore((set i | 0 <= i < n && init[i].key == k && Answer(t, init[i], cutoff).Some?),
            (set i | 0 <= i < |probes| && probes[i].key == k && Answer(t, probes[i], cutoff).Some?),
            n, probes[n].key == k && Answer(t, probes[n], cutoff).Some?);
  }

  /** What a batch of lookups answers, evicts and hits, key by key. */
  lemma LookupMeans(t: Table, probes: seq<Probe>, answers: seq<Option<string>>, cutoff: int)
    requires answers == Answers(t, probes, cutoff)
    ensures |answers| == |probes|
    ensures forall i :: 0 <= i < |probes| ==> answers[i] == Answer(t, probes[i], cutoff)
    ensures forall k :: k in Evicted(t, Keys(probes), cutoff) <==>
                        k in t && !(t[k].created < cutoff && exists p :: p in probes && p.key == k)
    ensures forall k :: k in Evicted(t, Keys(probes), cutoff) ==> Evicted(t, Keys(probes), cutoff)[k] == t[k]
    ensures (exists p :: p in probes && Stale(t, p.key, cutoff)) <==>
            exists p :: p in probes && p.key in t && t[p.key].created < cutoff
    ensures forall k :: multiset(HitKeys(t, probes, cutoff))[k] ==
                        |set i | 0 <= i < |probes| && probes[i].key == k && answers[i].Some?|
  {
    hide Answer, Answers, Evicted, HitKeys;
    AnswersLength(t, probes, cutoff);
    forall i | 0 <= i < |probes| ensures answers[i] == Answer(t, probes[i], cutoff) {
      AnswersAt(t, probes, cutoff, i);
    }
    forall k
      ensures k in Evicted(t, Keys(probes), cutoff) <==>
              k in t && !(t[k].created < cutoff && exists p :: p in probes && p.key == k)
      ensures k in Evicted(t, Keys(probes), cutoff) ==> Evicted(t, Keys(probes), cutoff)[k] == t[k]
    {
      EvictedKeys(t, probes, cutoff, k);
    }
    forall k ensures multiset(HitKeys(t, probes, cutoff))[k] ==
                     |set i | 0 <= i < |probes| && probes[i].key == k && answers[i].Some?|
    {
      HitKeysMean(t, probes, cutoff, k);
      assert (set i | 0 <= i < |probes| && probes[i].key == k && Answer(t, probes[i], cutoff).Some?) ==
             set i | 0 <= i < |probes| && probes[i].key == k && answers[i].Some?;
    }
  }

  lemma NoHitKeys(t: Table, cutoff: int)
    ensures HitKeys(t, [], cutoff) == []
  {
  }

  lemma Regroup(a: multiset<Key>, b: multiset<Key>, c: multiset<Key>)
    ensures (a + b) + c == a + (b + c)
  {
  }

  lemma HitKeysNext(t: Table, probes: seq<Probe>, cutoff: int, i: nat)
    requires i < |probes|
    ensures multiset(HitKeys(t, probes[..i + 1], cutoff)) ==
            multiset(HitKeys(t, probes[..i], cutoff))
            + (if Answer(t, probes[i], cutoff).Some? then multiset{probes[i].key} else multiset{})
  {
    hide Answer;
    assert probes[..i + 1][..i] == probes[..i];
  }

  lemma AnswersLength(t: Table, probes: seq<Probe>, cutoff: int)
    ensures |Answers(t, probes, cutoff)| == |probes|
  {
    if probes != [] {
      AnswersAt(t, probes, cutoff, 0);
    }
  }

  lemma ExpiredMeans(t: Table, probes: seq<Probe>, cutoff: int)
    ensures Expired(t, Keys(probes), cutoff) != map[] <==> exists p :: p in probes && Stale(t, p.key, cutoff)
  {
    if p :| p in probes && Stale(t, p.key, cutoff) {
      assert p.key in Expired(t, Keys(probes), cutoff);
    }
    if Expired(t, Keys(probes), cutoff) != map[] {
      var k :| k in Expired(t, Keys(probes), cutoff);
    }
  }

  lemma EvictedNone(t: Table, cutoff: int)
    ensures Evicted(t, Keys([]), cutoff) == t
  {
  }

  lemma NothingExpired(t: Table, keys: set<Key>, cutoff: int)
    requires Expired(t, keys, cutoff) == map[]
    ensures Evicted(t, keys, cutoff) == t
  {
    forall k | k in keys ensures !Stale(t, k, cutoff) {
      assert k !in Expired(t, keys, cutoff);
    }
  }

  /** Evicting expired rows changes no answer. */
  lemma EvictedAnswers(t: Table, keys: set<Key>, p: Probe, cutoff: int)
    ensures Answer(Evicted(t, keys, cutoff), p, cutoff) == Answer(t, p, cutoff)
  {
    hide CachedReasoning;
  }

  lemma EvictedTwice(t: Table, probes: seq<Probe>, p: Probe, cutoff: int)
    ensures Evicted(Evicted(t, Keys(probes), cutoff), {p.key}, cutoff) == Evicted(t, Keys(probes + [p]), cutoff)
  {
    assert Keys(probes + [p]) == Keys(probes) + {p.key} by {
      forall k ensures k in Keys(probes + [p]) <==> k in Keys(probes) + {p.key} {
        if k in Keys(probes) {
          var q :| q in probes && q.key == k;
          assert q in probes + [p];
        }
        assert p in probes + [p];
      }
    }
  }

  /** The answer loop of `get_many`, over the rows it fetched. */
  method Collect(ghost t: Table, rows: Table, probes: seq<Probe>, cutoff: int) returns (r: seq<Option<string>>)
    requires rows == Evicted(t, Keys(probes), cutoff)
    ensures r == Answers(t, probes, cutoff)
  {
    hide CachedReasoning;
    r := [];
    for i := 0 to |probes|
      invariant r == Answers(t, probes[..i], cutoff)
    {
      var p := probes[i];
      assert probes[..i + 1] == probes[..i] + [p];
      assert p in probes && p.key in Keys(probes);
      if p.key !in rows || CachedReasoning(p.text, rows[p.key].text) {
        r := r + [None];
      } else {
        r := r + [Some(rows[p.key].text)];
      }
    }
    assert probes[..|probes|] == probes;
  }

  predicate Due(counted: nat, writes: seq<Write>, max: nat) {
    counted + |writes| >= Threshold(max)
  }

  /** A committed pruning forgives everything; a rolled-back one forgets what had
      been counted before it. */
  function Forgets(forgotten: nat, counted: nat, due: bool, ending: Ending): nat {
    if !due || ending == FailBeforeCount then forgotten
    else if ending == Commit then 0
    else forgotten + counted
  }

  function Written(t: Table, writes: seq<Write>, now: int, cutoff: int, max: nat, due: bool): Table {
    if due then Pruned(Upsert(t, writes, now), cutoff, max) else Upsert(t, writes, now)
  }

  lemma WrittenIs(t: Table, writes: seq<Write>, now: int, cutoff: int, max: nat)
    ensures Written(t, writes, now, cutoff, max, true) == Pruned(Upsert(t, writes, now), cutoff, max)
    ensures Written(t, writes, now, cutoff, max, false) == Upsert(t, writes, now)
  {
  }

  lemma WrittenMeans(l: Ledger, t: Table, pending: multiset<Key>, flying: multiset<Key>,
                     writes: seq<Write>, now: int, cutoff: int, max: nat, due: bool)
    requires Balanced(l, t, pending, flying)
    ensures var s := Written(t, writes, now, cutoff, max, due);
            && |s| <= |t| + |writes| && (due ==> |s| <= max)
            && Balanced(l.(gone := PlusDropped(l.gone, t, s)), s, pending, flying)
  {
    hide Balanced, Upsert, Pruned, Hits, PlusDropped;
    var u := Upsert(t, writes, now);
    UpsertSize(t, writes, now);
    PrunedSize(u, cutoff, max);
    forall k: Key ensures Hits(u, k) == Hits(t, k) {
      UpsertHits(t, writes, now, k);
    }
    BalancedTable(l, t, u, Written(t, writes, now, cutoff, max, due), pending, flying);
  }

  lemma BalancedBack(l: Ledger, t: Table, pending: multiset<Key>, flying: multiset<Key>)
    requires Balanced(l, t, pending, flying)
    ensures Balanced(l, t, pending + flying, multiset{})
  {
  }

  // ---- runs of writes ----

  /** One call of `put_many`, with how it ends. */
  datatype Put = Put(writes: seq<Write>, now: int, cutoff: int, ending: Ending)

  /** The table and the counter of writes since the last pruning. */
  datatype Cache = Cache(table: Table, counted: nat)

  function After(c: Cache, p: Put, max: nat): Cache {
    var due := Due(c.counted, p.writes, max);
    Cache(if p.ending == Commit then Written(c.table, p.writes, p.now, p.cutoff, max, due) else c.table,
          if p.ending == FailBeforeCount then c.counted else if due then 0 else c.counted + |p.writes|)
  }

  lemma CountsAs(t: Table, counted: nat, p: Put, max: nat)
    ensures var due := Due(counted, p.writes, max);
            After(Cache(t, counted), p, max) ==
            Cache(if p.ending == Commit then Written(t, p.writes, p.now, p.cutoff, max, due) else t,
                  if p.ending == FailBeforeCount then counted else if due then 0 else counted + |p.writes|)
  {
  }

  function Run(c: Cache, puts: seq<Put>, max: nat): Cache {
    if puts == [] then c else After(Run(c, puts[..|puts| - 1], max), puts[|puts| - 1], max)
  }

  /** A store just opened on what it found. */
  function Opened(found: Table, cutoff: int, max: nat): Cache {
    Cache(Pruned(found, cutoff, max), 0)
  }

  /** Some run of writes, each of at least one row, ends in a commit that leaves at
      least `rows` rows. */
  ghost predicate Reaches(max: nat, rows: nat) {
    exists found: Table, cutoff: int, puts: seq<Put> ::
      && puts != [] && puts[|puts| - 1].ending == Commit
      && (forall i :: 0 <= i < |puts| ==> |puts[i].writes| >= 1)
      && |Run(Opened(found, cutoff, max), puts, max).table| >= rows
  }

  /** Rolled-back prunings void the bound on rows exactly from capacity 2 on, and then
      there is no bound at all: a pruning that is rolled back has reset the counter,
      and may be rolled back again and again. With capacity 1 every write prunes. */
  lemma OverrunsWhen(max: nat)
    requires max >= 1
    ensures (forall rows :: Reaches(max, rows)) <==> max >= 2
    ensures Reaches(max, max + Threshold(max)) <==> max >= 2
  {
    if max >= 2 {
      forall rows ensures Reaches(max, rows) {
        GrowingReaches(max, rows);
      }
    } else {
      assert !Reaches(1, 2) by {
        forall found: Table, cutoff: int, puts: seq<Put> | forall i :: 0 <= i < |puts| ==> |puts[i].writes| >= 1
          ensures |Run(Opened(found, cutoff, 1), puts, 1).table| <= 1
        {
          CapacityOne(found, cutoff, puts);
        }
      }
    }
  }

  lemma {:induction false} CapacityOne(found: Table, cutoff: int, puts: seq<Put>)
    requires forall i :: 0 <= i < |puts| ==> |puts[i].writes| >= 1
    ensures |Run(Opened(found, cutoff, 1), puts, 1).table| <= 1
  {
    hide Pruned, Upsert;
    if puts == [] {
      PrunedSize(found, cutoff, 1);
    } else {
      var c, p := Run(Opened(found, cutoff, 1), puts[..|puts| - 1], 1), puts[|puts| - 1];
      CapacityOne(found, cutoff, puts[..|puts| - 1]);
      PrunedSize(Upsert(c.table, p.writes, p.now), p.cutoff, 1);
    }
  }

  /** The `i`-th key: texts of different lengths differ. */
  function NthKey(i: nat): Key {
    seq(i, _ => 'k')
  }

  function Rows(n: nat): Table {
    if n == 0 then map[] else Rows(n - 1)[NthKey(n - 1) := Row("text", 0, 0, 0)]
  }

  lemma {:induction false} RowsSize(n: nat)
    ensures |Rows(n)| == n && forall k :: k in Rows(n) ==> |k| < n
  {
    if n > 0 {
      RowsSize(n - 1);
      var t := Rows(n - 1);
      assert Rows(n).Keys == t.Keys + {NthKey(n - 1)};
      assert |Rows(n).Keys| == |Rows(n)| && |t.Keys| == |t|;
    }
  }

  function Add(i: nat): Put {
    Put([Write(NthKey(i), "text")], 0, 0, Commit)
  }

  function Reset(max: nat): Put {
    Put(seq(Threshold(max), _ => Write("", "text")), 0, 0, RollBack)
  }

  /** Adding a row and resetting the counter, `n` times. */
  function Growing(n: nat, max: nat): seq<Put> {
    if n == 0 then [] else Growing(n - 1, max) + [Add(n - 1)] + [Reset(max)]
  }

  lemma RunSnoc(c: Cache, puts: seq<Put>, p: Put, max: nat)
    ensures Run(c, puts + [p], max) == After(Run(c, puts, max), p, max)
  {
    assert (puts + [p])[..|puts|] == puts;
  }

  lemma AddsRow(n: nat, max: nat)
    requires max >= 2
    ensures After(Cache(Rows(n), 0), Add(n), max) == Cache(Rows(n + 1), 1)
  {
    RowsSize(n);
    var w := Write(NthKey(n), "text");
    assert [w][..0] == [];
    assert NthKey(n) !in Rows(n);
    assert Upsert(Rows(n), [w], 0) == Rows(n + 1);
  }

  lemma {:induction false} GrowingRuns(n: nat, max: nat)
    requires max >= 2
    ensures Run(Cache(map[], 0), Growing(n, max), max) == Cache(Rows(n), 0)
  {
    hide Rows, Upsert, Pruned;
    if n == 0 {
      assert Rows(0) == map[] by { NoRows(); }
    } else {
      GrowingRuns(n - 1, max);
      AddsRow(n - 1, max);
      RunSnoc(Cache(map[], 0), Growing(n - 1, max), Add(n - 1), max);
      RunSnoc(Cache(map[], 0), Growing(n - 1, max) + [Add(n - 1)], Reset(max), max);
    }
  }

  lemma NoRows()
    ensures Rows(0) == map[]
  {
  }

  lemma {:induction false} GrowingWrites(n: nat, max: nat)
    requires max >= 2
    ensures forall i :: 0 <= i < |Growing(n, max)| ==> |Growing(n, max)[i].writes| >= 1
  {
    if n > 0 {
      GrowingWrites(n - 1, max);
    }
  }

  lemma GrowingReaches(max: nat, rows: nat)
    requires max >= 2
    ensures Reaches(max, rows)
  {
    hide Rows, After, Growing;
    var puts := Growing(rows, max) + [Add(rows)];
    GrowingRuns(rows, max);
    GrowingWrites(rows, max);
    AddsRow(rows, max);
    RowsSize(rows + 1);
    RunSnoc(Cache(map[], 0), Growing(rows, max), Add(rows), max);
    assert Opened(map[], 0, max) == Cache(map[], 0);
    assert |Run(Opened(map[], 0, max), puts, max).table| >= rows;
  }
}
