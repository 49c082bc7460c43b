/** Which rows a full cache keeps: the most recently used ones. Times are instants;
    the store compares them as text, which is the same order. */
module Retention {
  import opened Collections
  import opened TextOrder

  type Key = string

  datatype Row = Row(text: string, created: int, accessed: int, hits: nat)

  type Table = map<Key, Row>

  /** Sort order of the cap query: last use, then creation, then key, descending. */
  predicate Outranks(t: Table, a: Key, b: Key)
    requires a in t && b in t
  {
    || t[a].accessed > t[b].accessed
    || (t[a].accessed == t[b].accessed
        && (t[a].created > t[b].created || (t[a].created == t[b].created && Before(b, a))))
  }

  function Above(t: Table, k: Key): set<Key>
    requires k in t
  {
    set a | a in t && Outranks(t, a, k)
  }

  /** `_enforce_cap`: rows with at least `max` rows above them go. */
  function Kept(t: Table, max: nat): Table {
    map k | k in t && |Above(t, k)| < max :: t[k]
  }

  lemma OutranksTransitive(t: Table, a: Key, b: Key, c: Key)
    requires a in t && b in t && c in t && Outranks(t, a, b) && Outranks(t, b, c)
    ensures Outranks(t, a, c)
  {
    if Before(b, a) && Before(c, b) {
      BeforeTransitive(c, b, a);
    }
  }

  lemma OutranksTotal(t: Table, a: Key, b: Key)
    requires a in t && b in t && a != b
    ensures Outranks(t, a, b) != Outranks(t, b, a)
  {
    BeforeTotal(a, b);
    if Before(a, b) && Before(b, a) {
      BeforeTransitive(a, b, a);
      BeforeSelf(a);
    }
  }

  lemma OutranksSelf(t: Table, a: Key)
    requires a in t
    ensures !Outranks(t, a, a)
  {
    BeforeSelf(a);
  }

  /** A row that outranks a kept row is kept. */
  lemma KeptIsUpward(t: Table, max: nat, a: Key, b: Key)
    requires a in t && b in Kept(t, max) && Outranks(t, a, b)
    ensures a in Kept(t, max)
  {
    hide Outranks;
    forall x | x in Above(t, a) ensures x in Above(t, b) {
      OutranksTransitive(t, x, a, b);
    }
    SubsetSize(Above(t, a), Above(t, b));
  }

  /** Every row that is kept was used later than every row that goes; of two used at
      the same time, the one created later stays, and then the one with the later key. */
  lemma KeptAreRecent(t: Table, max: nat, a: Key, k: Key)
    requires a in Kept(t, max) && k in t && k !in Kept(t, max)
    ensures
      || t[a].accessed > t[k].accessed
      || (&& t[a].accessed == t[k].accessed
          && (t[a].created > t[k].created || (t[a].created == t[k].created && Before(k, a))))
  {
    assert Outranks(t, a, k) by {
      hide Outranks;
      OutranksTotal(t, a, k);
      if Outranks(t, k, a) {
        KeptIsUpward(t, max, k, a);
      }
    }
  }

  /** Some row of a set of rows is outranked by all others. */
  lemma {:induction false} Lowest(t: Table, keys: set<Key>) returns (low: Key)
    requires keys <= t.Keys && keys != {}
    ensures low in keys && forall k :: k in keys && k != low ==> Outranks(t, k, low)
    decreases |keys|
  {
    hide Outranks;
    low :| low in keys;
    var rest := keys - {low};
    assert keys == rest + {low};
    if rest != {} {
      var other := Lowest(t, rest);
      OutranksTotal(t, low, other);
      if Outranks(t, low, other) {
        low := other;
      } else {
        forall k | k in keys && k != low ensures Outranks(t, k, low) {
          if k != other {
            OutranksTransitive(t, k, other, low);
          }
        }
      }
    }
  }

  function AboveIn(t: Table, keys: set<Key>, k: Key): set<Key>
    requires keys <= t.Keys && k in t
  {
    set a | a in keys && Outranks(t, a, k)
  }

  function KeptIn(t: Table, keys: set<Key>, max: nat): set<Key>
    requires keys <= t.Keys
  {
    set k | k in keys && |AboveIn(t, keys, k)| < max
  }

  lemma AboveLowest(t: Table, keys: set<Key>, low: Key)
    requires keys <= t.Keys && low in keys && forall k :: k in keys && k != low ==> Outranks(t, k, low)
    ensures AboveIn(t, keys, low) == keys - {low}
    ensures forall k :: k in keys && k != low ==> AboveIn(t, keys - {low}, k) == AboveIn(t, keys, k)
  {
    hide Outranks;
    OutranksSelf(t, low);
    forall k | k in keys && k != low ensures AboveIn(t, keys - {low}, k) == AboveIn(t, keys, k) {
      OutranksTotal(t, k, low);
    }
  }

  /** The cap keeps as many rows as it may. */
  lemma {:induction false} KeptInSize(t: Table, keys: set<Key>, max: nat)
    requires keys <= t.Keys
    ensures |KeptIn(t, keys, max)| == if |keys| <= max then |keys| else max
    decreases |keys|
  {
    hide Outranks;
    if keys != {} {
      var low := Lowest(t, keys);
      var rest := keys - {low};
      AboveLowest(t, keys, low);
      KeptInSize(t, rest, max);
      if |keys| <= max {
        assert KeptIn(t, keys, max) == KeptIn(t, rest, max) + {low};
      } else {
        assert KeptIn(t, keys, max) == KeptIn(t, rest, max);
      }
    }
  }

  lemma KeptSize(t: Table, max: nat)
    ensures |Kept(t, max)| == if |t| <= max then |t| else max
    ensures Kept(t, max).Keys <= t.Keys
  {
    hide Outranks;
    KeptInSize(t, t.Keys, max);
    forall k | k in t ensures Above(t, k) == AboveIn(t, t.Keys, k) {
    }
    assert Kept(t, max).Keys == KeptIn(t, t.Keys, max);
    assert |Kept(t, max).Keys| == |Kept(t, max)|;
  }
}
