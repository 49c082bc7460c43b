/** Cutting a byte stream into event-stream lines (a subset of section 9.2 of the
    WHATWG HTML Living Standard): the result depends on the bytes only, never on
    how the network cut them into chunks. */
module SseLines {
  import opened Text
  import opened Collections

  newtype byte = x: int | 0 <= x < 256

  const NL: byte := 10
  const CR: byte := 13

  type Bytes = seq<byte>

  /** The bytes between newlines, in order; the last piece has no newline yet. */
  function Cut(s: Bytes): (pieces: seq<Bytes>)
    ensures pieces != []
  {
    if s == [] then [[]]
    else
      var before, b := Cut(s[..|s| - 1]), s[|s| - 1];
      if b == NL then before + [[]]
      else before[..|before| - 1] + [before[|before| - 1] + [b]]
  }

  /** Putting the newlines back. */
  function Join(pieces: seq<Bytes>): Bytes
    requires pieces != []
  {
    if |pieces| == 1 then pieces[0]
    else Join(pieces[..|pieces| - 1]) + [NL] + pieces[|pieces| - 1]
  }

  /** `Cut` is a split: no piece holds a newline, and joining gives the bytes back. */
  lemma {:induction false} CutIsSplit(s: Bytes)
    ensures Join(Cut(s)) == s
    ensures forall i :: 0 <= i < |Cut(s)| ==> NL !in Cut(s)[i]
  {
    if s != [] {
      var init, b := s[..|s| - 1], s[|s| - 1];
      CutIsSplit(init);
      var before := Cut(init);
      assert s == init + [b];
      if b == NL {
        assert (before + [[]])[..|before|] == before;
      } else {
      }
    }
  }

  /** It is the only one: pieces without newlines, joined by newlines, are cut into the
      same pieces again. */
  lemma {:induction false} CutOfJoin(pieces: seq<Bytes>)
    requires pieces != [] && forall i :: 0 <= i < |pieces| ==> 10 !in pieces[i]
    ensures Cut(Join(pieces)) == pieces
  {
    JoinMeans(pieces);
    hide Cut, Join;
    if |pieces| == 1 {
      CutPlain([], pieces[0]);
      CutNothing();
      assert [] + pieces[0] == pieces[0];
    } else {
      var init, last := pieces[..|pieces| - 1], pieces[|pieces| - 1];
      CutOfJoin(init);
      CutPlain(Join(init) + [NL], last);
      CutNewline(Join(init));
      assert (init + [[]])[..|init|] == init && [] + last == last;
    }
  }

  lemma JoinMeans(pieces: seq<Bytes>)
    requires pieces != []
    ensures |pieces| == 1 ==> Join(pieces) == pieces[0]
    ensures |pieces| > 1 ==> Join(pieces) == Join(pieces[..|pieces| - 1]) + [NL] + pieces[|pieces| - 1]
  {
  }

  lemma CutNothing()
    ensures Cut([]) == [[]]
  {
  }

  lemma CutNewline(a: Bytes)
    ensures Cut(a + [NL]) == Cut(a) + [[]]
  {
    assert (a + [NL])[..|a|] == a;
  }

  /** Trailing carriage returns removed. */
  function DropCr(line: Bytes): (r: Bytes) {
    if line != [] && line[|line| - 1] == CR then DropCr(line[..|line| - 1]) else line
  }

  lemma {:induction false} DropCrMeans(line: Bytes)
    ensures DropCr(line) <= line
    ensures DropCr(line) == [] || DropCr(line)[|DropCr(line)| - 1] != CR
    ensures forall i :: |DropCr(line)| <= i < |line| ==> line[i] == CR
  {
    if line != [] && line[|line| - 1] == CR {
      DropCrMeans(line[..|line| - 1]);
    }
  }

  function Trimmed(pieces: seq<Bytes>): (lines: seq<Bytes>) {
    seq(|pieces|, i requires 0 <= i < |pieces| => DropCr(pieces[i]))
  }

  lemma TrimmedSnoc(pieces: seq<Bytes>, line: Bytes)
    ensures Trimmed(pieces + [line]) == Trimmed(pieces) + [DropCr(line)]
  {
    hide DropCr;
  }

  /** A final empty piece is not a line. */
  function Closed(pieces: seq<Bytes>): seq<Bytes>
    requires pieces != []
  {
    if pieces[|pieces| - 1] == [] then pieces[..|pieces| - 1] else pieces
  }

  /** Later bytes keep every finished piece and only extend the last one. */
  ghost predicate Grows(a: seq<Bytes>, b: seq<Bytes>)
    requires a != []
  {
    && |a| <= |b|
    && a[..|a| - 1] == b[..|a| - 1]
    && a[|a| - 1] <= b[|a| - 1]
  }

  lemma {:induction false} CutGrows(a: Bytes, b: Bytes)
    ensures Grows(Cut(a), Cut(a + b))
  {
    if b == [] {
      assert a + b == a;
    } else {
      var shorter := a + b[..|b| - 1];
      assert (a + b)[..|a + b| - 1] == shorter;
      CutGrows(a, b[..|b| - 1]);
    }
  }

  /** Bytes without a newline go to the last piece. */
  lemma {:induction false} CutPlain(a: Bytes, b: Bytes)
    requires NL !in b
    ensures
      var pieces := Cut(a);
      Cut(a + b) == pieces[..|pieces| - 1] + [pieces[|pieces| - 1] + b]
  {
    var pieces := Cut(a);
    if b == [] {
      assert a + b == a;
      assert pieces[|pieces| - 1] + b == pieces[|pieces| - 1];
    } else {
      var c := b[|b| - 1];
      assert c in b;
      assert (a + b)[..|a + b| - 1] == a + b[..|b| - 1];
      CutPlain(a, b[..|b| - 1]);
      assert b[..|b| - 1] + [c] == b;
      assert pieces[|pieces| - 1] + b == (pieces[|pieces| - 1] + b[..|b| - 1]) + [c];
    }
  }

  /** A whole line after whole lines adds that line. */
  lemma CutLine(a: Bytes, line: Bytes)
    requires NL !in line && Cut(a)[|Cut(a)| - 1] == []
    ensures Cut(a + line + [NL]) == Cut(a)[..|Cut(a)| - 1] + [line] + [[]]
  {
    CutPlain(a, line);
    assert [] + line == line;
    assert (a + line + [NL])[..|a + line|] == a + line;
  }

  function IndexOfNewline(s: Bytes, i: nat): (r: int)
    requires i <= |s|
    ensures r == -1 || (i <= r < |s| && s[r] == NL)
    ensures forall j :: i <= j < |s| && (r == -1 || j < r) ==> s[j] != NL
    decreases |s| - i
  {
    if i == |s| then -1 else if s[i] == NL then i else IndexOfNewline(s, i + 1)
  }

  datatype Outcome = Done | TooLarge | Expired

  /** The lines and the ending that the bytes alone determine. */
  ghost predicate Determined(bytes: Bytes, cap: nat, lines: seq<Bytes>, outcome: Outcome) {
    var pieces := Cut(bytes);
    match outcome
    case Done =>
      && (forall i :: 0 <= i < |pieces| ==> |pieces[i]| <= cap)
      && lines == Trimmed(Closed(pieces))
    case TooLarge =>
      && |lines| < |pieces|
      && |pieces[|lines|]| > cap
      && (forall i :: 0 <= i < |lines| ==> |pieces[i]| <= cap)
      && lines == Trimmed(pieces[..|lines|])
    case Expired =>
      && (forall i :: 0 <= i < |lines| ==> i < |pieces| && |pieces[i]| <= cap)
      && lines <= Trimmed(Closed(pieces))
  }

  /** Two cuttings of the same bytes cannot end differently, unless the budget ran out. */
  lemma ChunkingIsIrrelevant(bytes: Bytes, cap: nat, l1: seq<Bytes>, o1: Outcome, l2: seq<Bytes>, o2: Outcome)
    requires Determined(bytes, cap, l1, o1) && Determined(bytes, cap, l2, o2)
    requires o1 != Expired && o2 != Expired
    ensures l1 == l2 && o1 == o2
  {
    hide Cut, DropCr;
    if o1 == TooLarge && o2 == TooLarge {
      assert |l1| == |l2|;
    }
  }

  /** However a reading of lines joined by byte 10 ends, it has given the first lines,
      without trailing bytes 13; read to the end, all of them, but not an empty rest. */
  lemma ReadsLines(pieces: seq<Bytes>, cap: nat, lines: seq<Bytes>, outcome: Outcome)
    requires pieces != [] && forall i :: 0 <= i < |pieces| ==> 10 !in pieces[i]
    requires Determined(Join(pieces), cap, lines, outcome)
    ensures outcome == Done ==> |lines| == if pieces[|pieces| - 1] == [] then |pieces| - 1 else |pieces|
    ensures |lines| <= |pieces|
    ensures forall i :: 0 <= i < |lines| ==>
              && |pieces[i]| <= cap && lines[i] <= pieces[i]
              && (lines[i] == [] || lines[i][|lines[i]| - 1] != 13)
              && forall k :: |lines[i]| <= k < |pieces[i]| ==> pieces[i][k] == 13
  {
    CutOfJoin(pieces);
    hide Cut, Join;
    var all := if outcome == TooLarge then pieces[..|lines|] else Closed(pieces);
    assert lines <= Trimmed(all);
    forall i | 0 <= i < |lines|
      ensures
        && |pieces[i]| <= cap && lines[i] <= pieces[i]
        && (lines[i] == [] || lines[i][|lines[i]| - 1] != 13)
        && forall k :: |lines[i]| <= k < |pieces[i]| ==> pieces[i][k] == 13
    {
      DropCrMeans(pieces[i]);
      assert lines[i] == Trimmed(all)[i] == DropCr(pieces[i]);
    }
  }

  /** A body with a line over the cap is refused there, after the lines before it. */
  lemma RefusesLine(pieces: seq<Bytes>, cap: nat, lines: seq<Bytes>, outcome: Outcome)
    requires pieces != [] && forall i :: 0 <= i < |pieces| ==> 10 !in pieces[i]
    requires Determined(Join(pieces), cap, lines, outcome) && outcome != Expired
    ensures outcome == TooLarge <==> exists i :: 0 <= i < |pieces| && |pieces[i]| > cap
    ensures outcome == TooLarge ==> |lines| < |pieces| && |pieces[|lines|]| > cap
  {
    CutOfJoin(pieces);
    hide Cut, Join;
  }

  ghost predicate Yielded(whole: seq<Bytes>, lines: seq<Bytes>, cap: nat) {
    lines == Trimmed(whole) && forall i :: 0 <= i < |whole| ==> |whole[i]| <= cap
  }

  lemma YieldedSnoc(whole: seq<Bytes>, lines: seq<Bytes>, line: Bytes, cap: nat)
    requires Yielded(whole, lines, cap) && |line| <= cap
    ensures Yielded(whole + [line], lines + [DropCr(line)], cap)
  {
    TrimmedSnoc(whole, line);
    hide Trimmed;
  }

  /** Everything yielded is a finished piece; the last piece is pending. */
  ghost predicate Reading(pieces: seq<Bytes>, pending: Bytes, lines: seq<Bytes>, cap: nat) {
    && pieces != []
    && pending == pieces[|pieces| - 1]
    && Yielded(pieces[..|pieces| - 1], lines, cap)
  }

  ghost predicate Between(received: Bytes, pending: Bytes, lines: seq<Bytes>, cap: nat) {
    Reading(Cut(received), pending, lines, cap)
  }

  /** The bytes already cut off, with whole lines only. */
  ghost predicate CutOff(done: Bytes, lines: seq<Bytes>, cap: nat) {
    Between(done, [], lines, cap)
  }

  lemma ReadingLine(pieces: seq<Bytes>, lines: seq<Bytes>, line: Bytes, cap: nat)
    requires Reading(pieces, [], lines, cap) && |line| <= cap
    ensures Reading(pieces[..|pieces| - 1] + [line] + [[]], [], lines + [DropCr(line)], cap)
  {
    var whole := pieces[..|pieces| - 1];
    YieldedSnoc(whole, lines, line, cap);
    hide Yielded;
    assert (whole + [line] + [[]])[..|whole + [line]|] == whole + [line];
  }

  lemma CutOffLine(done: Bytes, lines: seq<Bytes>, line: Bytes, cap: nat)
    requires CutOff(done, lines, cap) && NL !in line && |line| <= cap
    ensures CutOff(done + line + [NL], lines + [DropCr(line)], cap)
  {
    CutLine(done, line);
    ReadingLine(Cut(done), lines, line, cap);
    hide Reading;
  }

  lemma CutOffRest(done: Bytes, lines: seq<Bytes>, pending: Bytes, cap: nat)
    requires CutOff(done, lines, cap) && NL !in pending
    ensures Between(done + pending, pending, lines, cap)
  {
    CutPlain(done, pending);
    hide Cut, DropCr;
    var before, after := Cut(done), Cut(done + pending);
    assert [] + pending == pending;
    assert after[..|lines|] == before[..|lines|];
  }

  lemma TooLongNow(received: Bytes, rest: Bytes, pending: Bytes, lines: seq<Bytes>, cap: nat)
    requires Between(received, pending, lines, cap) && |pending| > cap
    ensures Determined(received + rest, cap, lines, TooLarge)
  {
    CutGrows(received, rest);
    hide Cut, DropCr;
  }

  lemma TooLongLine(done: Bytes, line: Bytes, rest: Bytes, lines: seq<Bytes>, cap: nat)
    requires CutOff(done, lines, cap) && NL !in line && |line| > cap
    ensures Determined(done + line + rest, cap, lines, TooLarge)
  {
    CutOffRest(done, lines, line, cap);
    TooLongNow(done + line, rest, line, lines, cap);
  }

  lemma ExpiredNow(done: Bytes, rest: Bytes, pending: Bytes, lines: seq<Bytes>, cap: nat)
    requires Between(done, pending, lines, cap)
    ensures Determined(done + rest, cap, lines, Expired)
  {
    CutGrows(done, rest);
    hide Cut, DropCr;
    var a, b := Cut(done), Cut(done + rest);
    assert a[..|lines|] == b[..|lines|];
    assert Closed(b)[..|lines|] == b[..|lines|];
  }

  lemma FinishedNow(received: Bytes, pending: Bytes, lines: seq<Bytes>, cap: nat)
    requires Between(received, pending, lines, cap) && |pending| <= cap
    ensures Determined(received, cap, if pending == [] then lines else lines + [DropCr(pending)], Done)
    ensures pending != [] ==> Determined(received, cap, lines + [DropCr(pending)], Expired)
  {
    hide Cut, DropCr;
    var pieces := Cut(received);
    assert pieces == pieces[..|lines|] + [pending];
    assert forall i :: 0 <= i < |pieces| ==> |pieces[i]| <= cap;
  }

  /** The answers of the budget to the checks of one reading, in order. */
  type Checks = nat -> bool

  /** The first `n` checks were passed. */
  ghost predicate Passed(active: Checks, n: nat) {
    forall c: nat :: c < n ==> active(c)
  }

  /** Cuts every whole line off the buffer (translator.py 1862-1870). */
  method TakeLines(buffer: Bytes, cap: nat, lines0: seq<Bytes>, active: Checks, passed0: nat,
                   ghost done0: Bytes, ghost rest: Bytes)
    returns (pending: Bytes, lines: seq<Bytes>, outcome: Outcome, passed: nat, ghost done: Bytes)
    requires CutOff(done0, lines0, cap) && Passed(active, passed0)
    ensures Passed(active, passed) && |lines| >= |lines0| && passed == passed0 + |lines| - |lines0|
    ensures |lines| <= Finished(done0 + buffer)
    ensures outcome == Expired ==> !active(passed)
    ensures outcome != Done ==> Determined(done0 + buffer + rest, cap, lines, outcome)
    ensures outcome == Done ==>
              done + pending == done0 + buffer && CutOff(done, lines, cap) && NL !in pending
              && |pending| <= |buffer|
  {
    pending, lines, done, passed := buffer, lines0, done0, passed0;
    var newline := IndexOfNewline(pending, 0);
    hide CutOff, Determined, DropCr, Passed, IndexOfNewline, Finished;
    CutOffBelow(done, pending, lines, cap);
    while newline >= 0
      invariant Passed(active, passed) && |lines| >= |lines0| && passed == passed0 + |lines| - |lines0|
      invariant done + pending == done0 + buffer && |pending| <= |buffer|
      invariant CutOff(done, lines, cap) && |lines| <= Finished(done0 + buffer)
      invariant newline == IndexOfNewline(pending, 0)
      decreases |pending|
    {
      var line, after := pending[..newline], pending[newline + 1..];
      FrontLine(done, pending, newline, done0 + buffer, rest);
      LineEnds(done, line, [NL] + after + rest, lines, cap);
      if newline > cap {
        outcome := TooLarge;
        return;
      }
      pending := after;
      if !active(passed) {
        outcome := Expired;
        return;
      }
      PassedNext(active, passed);
      lines, done, passed := lines + [DropCr(line)], done + line + [NL], passed + 1;
      CutOffBelow(done, pending, lines, cap);
      newline := IndexOfNewline(pending, 0);
    }
    outcome := Done;
  }

  lemma FrontLine(done: Bytes, pending: Bytes, newline: nat, whole: Bytes, rest: Bytes)
    requires done + pending == whole && newline < |pending| && newline == IndexOfNewline(pending, 0)
    ensures var line, after := pending[..newline], pending[newline + 1..];
            && NL !in line && whole + rest == done + line + ([NL] + after + rest)
            && done + line + [NL] + after == whole
  {
    var line, after := pending[..newline], pending[newline + 1..];
    SplitLine(pending, newline);
    Regroup(done, line, [NL], after, rest);
    hide IndexOfNewline;
  }

  lemma SplitLine(pending: Bytes, newline: nat)
    requires newline < |pending| && newline == IndexOfNewline(pending, 0)
    ensures NL !in pending[..newline]
    ensures pending == pending[..newline] + ([NL] + pending[newline + 1..])
  {
    assert pending[newline] == NL;
  }

  lemma Regroup(a: Bytes, b: Bytes, c: Bytes, d: Bytes, e: Bytes)
    ensures a + (b + (c + d)) == a + b + c + d
    ensures a + (b + (c + d)) + e == a + b + (c + d + e)
  {
  }

  /** What may follow a whole line at the front of the buffer. */
  lemma LineEnds(done: Bytes, line: Bytes, rest: Bytes, lines: seq<Bytes>, cap: nat)
    requires CutOff(done, lines, cap) && NL !in line
    ensures |line| > cap ==> Determined(done + line + rest, cap, lines, TooLarge)
    ensures |line| <= cap ==> CutOff(done + line + [NL], lines + [DropCr(line)], cap)
    ensures Determined(done + line + rest, cap, lines, Expired)
  {
    hide *;
    ExpiredAt(done, rest, line, lines, cap);
    if |line| > cap {
      TooLongLine(done, line, rest, lines, cap);
    } else {
      CutOffLine(done, lines, line, cap);
    }
  }

  /** The lines cut off are finished, whatever is still in the buffer. */
  lemma CutOffBelow(done: Bytes, pending: Bytes, lines: seq<Bytes>, cap: nat)
    requires CutOff(done, lines, cap)
    ensures |lines| <= Finished(done + pending)
  {
    CutGrows(done, pending);
    hide Cut;
  }

  lemma ExpiredAt(done: Bytes, rest: Bytes, line: Bytes, lines: seq<Bytes>, cap: nat)
    requires CutOff(done, lines, cap)
    ensures Determined(done + line + rest, cap, lines, Expired)
  {
    ExpiredNow(done, line + rest, [], lines, cap);
    assert done + line + rest == done + (line + rest);
  }

  /** One non-empty chunk (translator.py 1857-1872). */
  method ReadChunk(pending0: Bytes, chunk: Bytes, cap: nat, lines0: seq<Bytes>, active: Checks, passed0: nat,
                   ghost done0: Bytes, ghost rest: Bytes)
    returns (pending: Bytes, lines: seq<Bytes>, outcome: Outcome, passed: nat, ghost done: Bytes)
    requires CutOff(done0, lines0, cap) && Passed(active, passed0)
    ensures Passed(active, passed) && |lines| >= |lines0| && passed == passed0 + |lines| - |lines0|
    ensures |lines| <= Finished(done0 + pending0 + chunk)
    ensures outcome == Expired ==> !active(passed)
    ensures outcome != Done ==> Determined(done0 + pending0 + chunk + rest, cap, lines, outcome)
    ensures outcome == Done ==>
              done + pending == done0 + pending0 + chunk && CutOff(done, lines, cap)
              && NL !in pending && |pending| <= cap
  {
    hide *;
    var buffer := pending0 + chunk;
    assert done0 + buffer == done0 + pending0 + chunk;
    pending, lines, outcome, passed, done := TakeLines(buffer, cap, lines0, active, passed0, done0, rest);
    if outcome == Done && |pending| > cap {
      TooLongLine(done, pending, rest, lines, cap);
      outcome := TooLarge;
    }
  }

  /** The number of lines that the bytes finish. */
  function Finished(bytes: Bytes): nat {
    |Cut(bytes)| - 1
  }

  /** That is the number of bytes 10 in them. */
  lemma {:induction false} FinishedMeans(bytes: Bytes)
    ensures Finished(bytes) == |set i | 0 <= i < |bytes| && bytes[i] == 10|
  {
    if bytes != [] {
      var init, n := bytes[..|bytes| - 1], |bytes| - 1;
      FinishedMeans(init);
      OneMore((set i | 0 <= i < n && init[i] == 10), (set i | 0 <= i < |bytes| && bytes[i] == 10), n, bytes[n] == 10);
    }
  }

  lemma CutOffFinished(done: Bytes, pending: Bytes, lines: seq<Bytes>, cap: nat)
    requires CutOff(done, lines, cap) && NL !in pending
    ensures Finished(done + pending) == |lines|
  {
    CutPlain(done, pending);
    hide Cut;
  }

  /** Every line that the chunks read so far finish has been yielded, with one check
      for each chunk and each line. */
  ghost predicate After(chunks: seq<Bytes>, read: nat, pending: Bytes, lines: seq<Bytes>, passed: nat,
                        done: Bytes, cap: nat, active: Checks)
  {
    && read <= |chunks| && done + pending == Concat(chunks[..read])
    && CutOff(done, lines, cap) && NL !in pending && |pending| <= cap
    && Passed(active, passed) && passed == read + |lines|
  }

  /** The reading stopped at chunk `read`: no earlier line is missing. */
  ghost predicate Within(chunks: seq<Bytes>, read: nat, lines: seq<Bytes>, passed: nat, active: Checks) {
    && read <= |chunks| && Passed(active, passed) && passed == read + |lines|
    && (read > 0 ==> |lines| >= Finished(Concat(chunks[..read - 1])))
  }

  /** How far a reading got, with the checks it passed: no line that an earlier chunk
      finished is missing, none is from a chunk not read (only an unterminated last
      line comes after the last chunk), and only a failed check makes it expire. */
  ghost predicate Paced(chunks: seq<Bytes>, read: nat, lines: seq<Bytes>, passed: nat, outcome: Outcome,
                        active: Checks)
  {
    && read <= |chunks| && Passed(active, passed)
    && passed == read + |lines| + (if outcome == Done then 1 else 0)
    && (outcome == Done ==> read == |chunks|)
    && (outcome == Expired ==> !active(passed))
    && (read > 0 ==> |lines| >= Finished(Concat(chunks[..read - 1])))
    && |lines| <= Finished(Concat(chunks[..read])) + (if read == |chunks| then 1 else 0)
  }

  lemma AfterMeans(chunks: seq<Bytes>, read: nat, pending: Bytes, lines: seq<Bytes>, passed: nat,
                   done: Bytes, cap: nat, active: Checks)
    requires After(chunks, read, pending, lines, passed, done, cap, active)
    ensures |lines| == Finished(Concat(chunks[..read]))
    ensures Within(chunks, read, lines, passed, active)
  {
    hide CutOff, Passed, Cut;
    CutOffFinished(done, pending, lines, cap);
    if read > 0 {
      assert chunks[..read] == chunks[..read - 1] + [chunks[read - 1]];
      FinishedGrows(Concat(chunks[..read - 1]), chunks[read - 1]);
    }
  }

  lemma FinishedGrows(a: Bytes, b: Bytes)
    ensures Finished(a) <= Finished(a + b)
  {
    CutGrows(a, b);
    hide Cut;
  }

  /** One turn of the chunk loop (translator.py 1855-1872). */
  method TakeChunk(chunks: seq<Bytes>, read0: nat, pending0: Bytes, lines0: seq<Bytes>, passed0: nat,
                   cap: nat, active: Checks, ghost done0: Bytes)
    returns (pending: Bytes, lines: seq<Bytes>, outcome: Outcome, read: nat, passed: nat, ghost done: Bytes)
    requires read0 < |chunks| && After(chunks, read0, pending0, lines0, passed0, done0, cap, active)
    ensures outcome == Done ==>
              read == read0 + 1 && After(chunks, read, pending, lines, passed, done, cap, active)
    ensures outcome != Done ==>
              Determined(Concat(chunks), cap, lines, outcome) && Paced(chunks, read, lines, passed, outcome, active)
  {
    AfterMeans(chunks, read0, pending0, lines0, passed0, done0, cap, active);
    hide Passed, CutOff, Determined, Finished, Concat, Paced, Within;
    var chunk := chunks[read0];
    ghost var rest := ConcatSplit(chunks, read0 + 1);
    ConcatNext(chunks, read0);
    pending, lines, read, passed, done := pending0, lines0, read0, passed0, done0;
    if !active(passed) {
      ExpiredAt(done, chunk + rest, pending, lines, cap);
      assert done + pending + (chunk + rest) == done + pending + chunk + rest;
      outcome := Expired;
      IsPaced(chunks, read, lines, passed, outcome, active);
      return;
    }
    PassedNext(active, passed);
    read, passed := read + 1, passed + 1;
    if |chunk| == 0 {
      assert done + pending + chunk == done + pending;
      outcome := Done;
      return;
    }
    pending, lines, outcome, passed, done := ReadChunk(pending, chunk, cap, lines, active, passed, done, rest);
    if outcome != Done {
      assert chunks[..read - 1] == chunks[..read0];
      InsideIsPaced(chunks, read, lines, passed, outcome, active);
    }
  }

  lemma IsPaced(chunks: seq<Bytes>, read: nat, lines: seq<Bytes>, passed: nat, outcome: Outcome, active: Checks)
    requires Within(chunks, read, lines, passed, active) && |lines| == Finished(Concat(chunks[..read]))
    requires outcome == Expired && !active(passed)
    ensures Paced(chunks, read, lines, passed, outcome, active)
  {
    hide Finished, Concat;
  }

  lemma InsideIsPaced(chunks: seq<Bytes>, read: nat, lines: seq<Bytes>, passed: nat, outcome: Outcome, active: Checks)
    requires 0 < read <= |chunks| && Passed(active, passed) && passed == read + |lines|
    requires Finished(Concat(chunks[..read - 1])) <= |lines| <= Finished(Concat(chunks[..read]))
    requires outcome != Done && (outcome == Expired ==> !active(passed))
    ensures Paced(chunks, read, lines, passed, outcome, active)
  {
    hide Finished, Concat;
  }

  lemma ConcatNext(chunks: seq<Bytes>, n: nat)
    requires n < |chunks|
    ensures Concat(chunks[..n + 1]) == Concat(chunks[..n]) + chunks[n]
  {
    assert chunks[..n + 1] == chunks[..n] + [chunks[n]];
  }

  /** `_iter_sse_lines` over the chunks of one response. `active(c)` is the budget's
      answer to check `c`, made before every chunk, before every line and once more
      at the end; `read` counts the chunks taken, `passed` the checks passed, and
      `peak` is the largest buffer held. */
  method IterLines(chunks: seq<Bytes>, cap: nat, chunkMax: nat, active: Checks)
    returns (lines: seq<Bytes>, outcome: Outcome, peak: nat, read: nat, passed: nat)
    requires forall i :: 0 <= i < |chunks| ==> |chunks[i]| <= chunkMax
    ensures Determined(Concat(chunks), cap, lines, outcome)
    ensures peak <= cap + chunkMax
    ensures Paced(chunks, read, lines, passed, outcome, active)
  {
    var pending: Bytes := [];
    lines, peak, read, passed := [], 0, 0, 0;
    ghost var done: Bytes := [];
    assert After(chunks, 0, [], [], 0, [], cap, active) by {
      assert CutOff([], [], cap) && Concat(chunks[..0]) == [];
    }
    hide CutOff, Passed, Determined, Finished, Concat, Paced;
    while read < |chunks|
      invariant After(chunks, read, pending, lines, passed, done, cap, active)
      invariant peak <= cap + chunkMax
    {
      if active(passed) && |pending| + |chunks[read]| > peak { peak := |pending| + |chunks[read]|; }
      pending, lines, outcome, read, passed, done :=
        TakeChunk(chunks, read, pending, lines, passed, cap, active, done);
      if outcome != Done {
        return lines, outcome, peak, read, passed;
      }
    }
    lines, outcome, passed := TakeRest(chunks, pending, lines, passed, cap, active, done);
  }

  /** What follows the last chunk. */
  method TakeRest(chunks: seq<Bytes>, pending: Bytes, lines0: seq<Bytes>, passed0: nat, cap: nat, active: Checks,
                  ghost done: Bytes)
    returns (lines: seq<Bytes>, outcome: Outcome, passed: nat)
    requires After(chunks, |chunks|, pending, lines0, passed0, done, cap, active)
    ensures Determined(Concat(chunks), cap, lines, outcome)
    ensures Paced(chunks, |chunks|, lines, passed, outcome, active)
  {
    AfterMeans(chunks, |chunks|, pending, lines0, passed0, done, cap, active);
    hide CutOff, Passed, Determined, Finished, Concat;
    assert chunks[..|chunks|] == chunks;
    outcome, lines, passed := LastLine(pending, cap, lines0, active, passed0, done);
  }

  lemma PassedNext(active: Checks, n: nat)
    requires Passed(active, n) && active(n)
    ensures Passed(active, n + 1)
  {
  }

  /** The end of the response (translator.py 1873-1876). */
  method LastLine(pending: Bytes, cap: nat, lines0: seq<Bytes>, active: Checks, passed0: nat, ghost done: Bytes)
    returns (outcome: Outcome, lines: seq<Bytes>, passed: nat)
    requires CutOff(done, lines0, cap) && NL !in pending && |pending| <= cap && Passed(active, passed0)
    ensures Determined(done + pending, cap, lines, outcome) && outcome != TooLarge
    ensures |lines0| <= |lines| <= |lines0| + 1
    ensures Passed(active, passed)
    ensures passed == passed0 + |lines| - |lines0| + (if outcome == Done then 1 else 0)
    ensures outcome == Expired ==> !active(passed)
  {
    hide *;
    CutOffRest(done, lines0, pending, cap);
    ExpiredNow(done + pending, [], pending, lines0, cap);
    assert done + pending + [] == done + pending;
    FinishedNow(done + pending, pending, lines0, cap);
    lines, passed := lines0, passed0;
    if pending != [] {
      if !active(passed) {
        return Expired, lines, passed;
      }
      PassedNext(active, passed);
      lines, passed := lines + [DropCr(pending)], passed + 1;
    }
    if !active(passed) {
      return Expired, lines, passed;
    }
    PassedNext(active, passed);
    outcome, passed := Done, passed + 1;
  }

  lemma {:induction false} ConcatSplit(chunks: seq<Bytes>, n: nat) returns (rest: Bytes)
    requires n <= |chunks|
    ensures Concat(chunks) == Concat(chunks[..n]) + rest
    decreases |chunks| - n
  {
    if n == |chunks| {
      assert chunks[..n] == chunks;
      rest := [];
    } else {
      assert chunks[..n + 1] == chunks[..n] + [chunks[n]];
      var more := ConcatSplit(chunks, n + 1);
      rest := chunks[n] + more;
    }
  }
}
