/** Sizes of finite sets. */
module Collections {
  lemma SubsetSize<T>(a: set<T>, b: set<T>)
    requires a <= b
    ensures |a| <= |b|
  {
    assert |b| == |a| + |b - a| by {
      assert a + (b - a) == b;
    }
  }

  /** The positions counted so far, and one more if it counts. */
  lemma OneMore<T>(before: set<T>, after: set<T>, x: T, counts: bool)
    requires x !in before
    requires forall y :: y in after <==> y in before || (y == x && counts)
    ensures |after| == |before| + (if counts then 1 else 0)
  {
    assert after == if counts then before + {x} else before;
  }
}
