/** Lexicographic order on text, as the store's default collation compares it. */
module TextOrder {
  predicate Before(a: string, b: string) {
    b != "" && (a == "" || a[0] < b[0] || (a[0] == b[0] && Before(a[1..], b[1..])))
  }

  lemma {:induction false} BeforeSelf(a: string)
    ensures !Before(a, a)
  {
    if a != "" {
      BeforeSelf(a[1..]);
    }
  }

  lemma {:induction false} BeforeTransitive(a: string, b: string, c: string)
    requires Before(a, b) && Before(b, c)
    ensures Before(a, c)
  {
    if a != "" && a[0] == b[0] && b[0] == c[0] {
      BeforeTransitive(a[1..], b[1..], c[1..]);
    }
  }

  lemma {:induction false} BeforeTotal(a: string, b: string)
    ensures a == b || Before(a, b) || Before(b, a)
  {
    if a != "" && b != "" && a[0] == b[0] {
      BeforeTotal(a[1..], b[1..]);
      assert a == [a[0]] + a[1..] && b == [b[0]] + b[1..];
    }
  }

  lemma BeforeChar(a: char, b: char)
    ensures Before([a], [b]) <==> a < b
  {
    assert [a][1..] == "" && [b][1..] == "";
  }

  /** Prefixes of one length decide first. */
  lemma {:induction false} BeforeAppend(p: string, q: string, x: string, y: string)
    requires |p| == |q|
    ensures Before(p + x, q + y) <==> Before(p, q) || (p == q && Before(x, y))
  {
    if p == "" {
      assert p + x == x && q + y == y;
    } else {
      assert (p + x)[1..] == p[1..] + x && (q + y)[1..] == q[1..] + y;
      assert p == [p[0]] + p[1..] && q == [q[0]] + q[1..];
      BeforeAppend(p[1..], q[1..], x, y);
    }
  }

  lemma BeforeSame(p: string, x: string, y: string)
    ensures Before(p + x, p + y) <==> Before(x, y)
  {
    BeforeSelf(p);
    BeforeAppend(p, p, x, y);
  }
}
