/** Strings as the services see them: white space, UTF-8 size, and pieces of a stream. */
module Text {

  /** The characters Python's `str.strip` family removes. */
  predicate IsSpace(c: char) {
    var n := c as int;
    || 0x09 <= n <= 0x0D || 0x1C <= n <= 0x20 || n == 0x85 || n == 0xA0 || n == 0x1680
    || 0x2000 <= n <= 0x200A || n == 0x2028 || n == 0x2029 || n == 0x202F
    || n == 0x205F || n == 0x3000
  }

  function LStrip(s: string): (r: string)
    ensures r == [] || !IsSpace(r[0])
    ensures |r| <= |s|
  {
    if s != [] && IsSpace(s[0]) then LStrip(s[1..]) else s
  }

  function RStrip(s: string): (r: string)
    ensures r == [] || !IsSpace(r[|r| - 1])
    ensures |r| <= |s|
  {
    if s != [] && IsSpace(s[|s| - 1]) then RStrip(s[..|s| - 1]) else s
  }

  function Strip(s: string): (r: string) {
    RStrip(LStrip(s))
  }

  /** Bytes of one code point in UTF-8. */
  function CharBytes(c: char): nat {
    var n := c as int;
    if n < 0x80 then 1 else if n < 0x800 then 2 else if n < 0x10000 then 3 else 4
  }

  function Utf8Size(s: string): nat {
    if s == [] then 0 else CharBytes(s[0]) + Utf8Size(s[1..])
  }

  /** What a reader holds after receiving the pieces in order. */
  function Concat<T>(pieces: seq<seq<T>>): seq<T> {
    if pieces == [] then [] else Concat(pieces[..|pieces| - 1]) + pieces[|pieces| - 1]
  }

  lemma {:induction false} LStripConcat(a: string, b: string)
    ensures LStrip(a + b) == if LStrip(a) == [] then LStrip(b) else LStrip(a) + b
  {
    if a == [] {
      assert a + b == b;
    } else if IsSpace(a[0]) {
      assert (a + b)[1..] == a[1..] + b;
      LStripConcat(a[1..], b);
    }
  }

  lemma {:induction false} Utf8SizeConcat(a: string, b: string)
    ensures Utf8Size(a + b) == Utf8Size(a) + Utf8Size(b)
  {
    if a == [] {
      assert a + b == b;
    } else {
      assert (a + b)[1..] == a[1..] + b;
      Utf8SizeConcat(a[1..], b);
    }
  }

  // ---- what stripping takes away ----

  /** White space of ASCII: tab to carriage return, the four separators, and space. */
  lemma AsciiSpaces(c: char)
    requires c as int < 0x80
    ensures IsSpace(c) <==> c == ' ' || c == '\n' || c == '\r' || c == '\t' || c as int == 0x0B || c as int == 0x0C
                            || 0x1C <= c as int <= 0x1F
  {
  }

  /** Exactly the white space in front goes. */
  lemma {:induction false} LStripMeans(s: string) returns (n: nat)
    ensures n <= |s| && LStrip(s) == s[n..]
    ensures forall i :: 0 <= i < n ==> IsSpace(s[i])
    ensures n < |s| ==> !IsSpace(s[n])
  {
    hide IsSpace;
    if s != [] && IsSpace(s[0]) {
      var m := LStripMeans(s[1..]);
      n := m + 1;
      assert s[1..][m..] == s[n..];
      forall i | 0 <= i < n ensures IsSpace(s[i]) {
        if i > 0 { assert s[1..][i - 1] == s[i]; }
      }
      assert n < |s| ==> s[1..][m] == s[n];
    } else {
      n := 0;
    }
  }

  /** Exactly the white space at the end goes. */
  lemma {:induction false} RStripMeans(s: string) returns (n: nat)
    ensures n <= |s| && RStrip(s) == s[..n]
    ensures forall i :: n <= i < |s| ==> IsSpace(s[i])
    ensures n > 0 ==> !IsSpace(s[n - 1])
  {
    hide IsSpace;
    if s != [] && IsSpace(s[|s| - 1]) {
      n := RStripMeans(s[..|s| - 1]);
      assert s[..|s| - 1][..n] == s[..n];
    } else {
      n := |s|;
      assert s[..n] == s;
    }
  }

  /** Stripping keeps one piece of the text, from its first to its last character that
      is not white space; of blank text nothing stays. */
  lemma StripMeans(s: string) returns (i: nat, j: nat)
    ensures i <= j <= |s| && Strip(s) == s[i..j]
    ensures forall k :: 0 <= k < |s| && !(i <= k < j) ==> IsSpace(s[k])
    ensures i < j ==> !IsSpace(s[i]) && !IsSpace(s[j - 1])
    ensures Strip(s) == [] <==> forall k :: 0 <= k < |s| ==> IsSpace(s[k])
  {
    hide IsSpace;
    i := LStripMeans(s);
    var n := RStripMeans(s[i..]);
    j := i + n;
    assert s[i..][..n] == s[i..j];
    forall k | 0 <= k < |s| && !(i <= k < j) ensures IsSpace(s[k]) {
      if k >= j { assert s[i..][k - i] == s[k]; }
    }
    assert n > 0 ==> s[i..][n - 1] == s[j - 1];
  }

  lemma {:induction false} LStripOf(ws: string, body: string)
    requires forall i :: 0 <= i < |ws| ==> IsSpace(ws[i])
    requires body != [] ==> !IsSpace(body[0])
    ensures LStrip(ws + body) == body
  {
    hide IsSpace;
    if ws == [] {
      assert ws + body == body;
    } else {
      assert (ws + body)[1..] == ws[1..] + body;
      LStripOf(ws[1..], body);
    }
  }

  /** ASCII text has one byte a character; no character has more than four. */
  lemma {:induction false} Utf8SizeMeans(s: string)
    ensures |s| <= Utf8Size(s) <= 4 * |s|
    ensures Utf8Size(s) == |s| <==> forall i :: 0 <= i < |s| ==> s[i] as int < 0x80
  {
    if s != [] {
      Utf8SizeMeans(s[1..]);
      assert forall i :: 1 <= i < |s| ==> s[i] == s[1..][i - 1];
      assert forall i :: 0 <= i < |s| - 1 ==> s[1..][i] == s[i + 1];
    }
  }
}
