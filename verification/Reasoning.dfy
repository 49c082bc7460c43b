/** The leading reasoning block of a provider text: the one-shot removal and
    the streaming filter, which must show the same text however it is cut.

    Nothing depends on the spelling of the tags, so every result is stated for
    any well-formed pair; `THINK` is the pair the service uses. */
module Reasoning {
  import opened Text

  datatype Tag = Tag(open: string, close: string)

  const THINK := Tag("<think>", "</think>")

  predicate WellFormed(tag: Tag) {
    tag.open != [] && tag.close != [] && !IsSpace(tag.open[0])
  }

  /** The service's own tag meets what the results below require. */
  lemma ThinkIsWellFormed()
    ensures WellFormed(THINK)
  {
    assert THINK.open[0] == '<';
  }

  // ---- searching ----

  predicate MatchesAt(s: string, p: string, i: int) {
    && 0 <= i <= |s| - |p|
    && forall k :: 0 <= k < |p| ==> s[i + k] == p[k]
  }

  /** First occurrence of `p` in `s` at or after `i`, or -1. */
  function FindFrom(s: string, p: string, i: nat): (r: int)
    ensures r == -1 || (i <= r && MatchesAt(s, p, r))
    ensures forall j :: i <= j && MatchesAt(s, p, j) ==> 0 <= r <= j
    decreases |s| - i
  {
    if i + |p| > |s| then -1
    else if MatchesAt(s, p, i) then i
    else if i == |s| then -1
    else FindFrom(s, p, i + 1)
  }

  function Find(s: string, p: string): (r: int)
    ensures r == -1 || 0 <= r <= |s| - |p|
  {
    FindFrom(s, p, 0)
  }

  /** A match inside the first part is still the first match of the whole. */
  lemma FindStable(a: string, b: string, p: string)
    requires Find(a, p) >= 0
    ensures Find(a + b, p) == Find(a, p)
  {
    var i := Find(a, p);
    assert MatchesAt(a + b, p, i);
    var k := Find(a + b, p);
    assert MatchesAt(a, p, k) by {
      forall c | 0 <= c < |p| ensures a[k + c] == p[c] {
        assert (a + b)[k + c] == p[c];
      }
    }
  }

  lemma FindShift(g: string, s: string, p: string)
    requires forall j :: MatchesAt(g + s, p, j) ==> j >= |g|
    ensures Find(g + s, p) == if Find(s, p) < 0 then -1 else Find(s, p) + |g|
  {
    var i, k := Find(s, p), Find(g + s, p);
    if i >= 0 {
      assert MatchesAt(g + s, p, i + |g|);
    }
    if k >= 0 {
      assert MatchesAt(s, p, k - |g|) by {
        forall c | 0 <= c < |p| ensures s[k - |g| + c] == p[c] {
          assert (g + s)[k + c] == p[c];
        }
      }
    }
  }

  /** The last `n` characters, or all of them. */
  function Tail(a: string, n: nat): (t: string) {
    if |a| <= n then a else a[|a| - n..]
  }

  /** Dropping everything but the last |p| - 1 characters loses no match. */
  lemma FindThroughTail(a: string, b: string, p: string)
    requires p != [] && Find(a, p) < 0
    ensures
      var kept := Tail(a, |p| - 1);
      Find(a + b, p) == if Find(kept + b, p) < 0 then -1 else Find(kept + b, p) + |a| - |kept|
  {
    var kept := Tail(a, |p| - 1);
    var gone := a[..|a| - |kept|];
    forall j | MatchesAt(a + b, p, j)
      ensures j >= |gone|
    {
      if j < |gone| {
        forall c | 0 <= c < |p| ensures a[j + c] == p[c] {
          assert (a + b)[j + c] == p[c];
        }
        assert MatchesAt(a, p, j);
      }
    }
    assert a + b == gone + (kept + b);
    FindShift(gone, kept + b, p);
  }

  // ---- the one-shot form ----

  datatype Stripped = Kept(text: string) | NotClosed

  /** What follows the closing tag in the text after the opening tag. */
  function AfterClose(rest: string, close: string): (r: Stripped) {
    var end := Find(rest, close);
    if end < 0 then NotClosed else Kept(rest[end + |close|..])
  }

  /** `_strip_leading_reasoning`. */
  function StripLeading(text: string, tag: Tag): (r: Stripped) {
    var body := LStrip(text);
    if !(tag.open <= body) then Kept(text) else AfterClose(body[|tag.open|..], tag.close)
  }

  // ---- what the one-shot form does to each kind of text ----

  /** The pair of tags the service uses. */
  lemma ServiceTags()
    ensures THINK.open == "<think>" && THINK.close == "</think>"
  {
  }

  lemma MatchesMeans(s: string, p: string, i: nat)
    ensures i <= |s| && p <= s[i..] <==> MatchesAt(s, p, i)
  {
    if i <= |s| && p <= s[i..] {
      forall k | 0 <= k < |p| ensures s[i + k] == p[k] {
        assert s[i..][k] == p[k];
      }
    }
    if MatchesAt(s, p, i) {
      forall k | 0 <= k < |p| ensures s[i..][k] == p[k] {
      }
      assert s[i..][..|p|] == p;
    }
  }

  /** Text that starts, after white space, with anything but the opening tag stays. */
  lemma PlainIsKept(ws: string, body: string, tag: Tag)
    requires forall i :: 0 <= i < |ws| ==> IsSpace(ws[i])
    requires body != [] ==> !IsSpace(body[0])
    requires !(tag.open <= body)
    ensures StripLeading(ws + body, tag) == Kept(ws + body)
  {
    LStripOf(ws, body);
  }

  lemma OpensWith(ws: string, rest: string, tag: Tag)
    requires WellFormed(tag) && forall i :: 0 <= i < |ws| ==> IsSpace(ws[i])
    ensures StripLeading(ws + tag.open + rest, tag) == AfterClose(rest, tag.close)
  {
    var body := tag.open + rest;
    assert body[0] == tag.open[0];
    LStripOf(ws, body);
    assert ws + tag.open + rest == ws + body;
    assert body[|tag.open|..] == rest;
  }

  /** A leading block goes with both its tags, up to the first closing one, and what
      follows it stays as it is. */
  lemma BlockIsRemoved(ws: string, inner: string, after: string, tag: Tag)
    requires WellFormed(tag) && forall i :: 0 <= i < |ws| ==> IsSpace(ws[i])
    requires forall j :: 0 <= j < |inner| ==> !(tag.close <= (inner + tag.close + after)[j..])
    ensures StripLeading(ws + tag.open + inner + tag.close + after, tag) == Kept(after)
  {
    var rest := inner + tag.close + after;
    assert rest[|inner|..] == tag.close + after;
    MatchesMeans(rest, tag.close, |inner|);
    var end := Find(rest, tag.close);
    if end < |inner| {
      MatchesMeans(rest, tag.close, end);
    }
    assert ws + tag.open + inner + tag.close + after == ws + tag.open + rest;
    OpensWith(ws, rest, tag);
    assert rest[end + |tag.close|..] == after;
  }

  /** A leading block without a closing tag is an error. */
  lemma UnclosedIsRefused(ws: string, rest: string, tag: Tag)
    requires WellFormed(tag) && forall i :: 0 <= i < |ws| ==> IsSpace(ws[i])
    requires forall j :: 0 <= j <= |rest| ==> !(tag.close <= rest[j..])
    ensures StripLeading(ws + tag.open + rest, tag) == NotClosed
  {
    OpensWith(ws, rest, tag);
    var end := Find(rest, tag.close);
    if end >= 0 {
      MatchesMeans(rest, tag.close, end);
    }
  }

  // ---- what is visible of a text, given its stripped body ----

  datatype View = Undecided | Thinking(rest: string) | Blank | Showing(text: string)

  /** How a text whose left-stripped form is `body` stands. */
  function Look(body: string, tag: Tag): (v: View) {
    if |body| < |tag.open| && body <= tag.open then Undecided
    else if !(tag.open <= body) then Showing(body)
    else
      match AfterClose(body[|tag.open|..], tag.close)
      case NotClosed => Thinking(body[|tag.open|..])
      case Kept(t) => if LStrip(t) == [] then Blank else Showing(LStrip(t))
  }

  /** Whether a reader of `text` has already been shown translation text. */
  predicate Visible(text: string, tag: Tag) {
    Look(LStrip(text), tag).Showing?
  }

  /** Nothing is shown of a text that may still turn out to open a block, of one whose
      block is not closed, and of one with only white space after its block. */
  lemma VisibleMeans(text: string, tag: Tag)
    requires WellFormed(tag)
    ensures !Visible(text, tag) <==>
            || (|LStrip(text)| < |tag.open| && LStrip(text) <= tag.open)
            || StripLeading(text, tag) == NotClosed
            || (tag.open <= LStrip(text) && LStrip(StripLeading(text, tag).text) == [])
  {
  }

  lemma AfterCloseGrows(rest: string, delta: string, close: string)
    requires AfterClose(rest, close).Kept?
    ensures AfterClose(rest + delta, close) == Kept(AfterClose(rest, close).text + delta)
  {
    FindStable(rest, delta, close);
  }

  lemma OpenGrows(open: string, body: string, delta: string)
    requires open <= body
    ensures open <= body + delta
    ensures (body + delta)[|open|..] == body[|open|..] + delta
  {
  }

  lemma PlainGrows(open: string, body: string, delta: string)
    requires !(open <= body) && !(|body| < |open| && body <= open)
    ensures !(open <= body + delta) && !(|body + delta| < |open| && body + delta <= open)
  {
    var i :| 0 <= i < |body| && i < |open| && body[i] != open[i];
    assert (body + delta)[i] == body[i];
  }

  /** What a longer text shows, from what the shorter one showed. */
  lemma LookGrows(body: string, delta: string, tag: Tag)
    requires WellFormed(tag)
    ensures Look(body, tag).Showing? ==>
              Look(body + delta, tag) == Showing(Look(body, tag).text + delta)
    ensures Look(body, tag).Blank? ==>
              Look(body + delta, tag) == if LStrip(delta) == [] then Blank else Showing(LStrip(delta))
    ensures Look(body, tag).Thinking? ==>
              && tag.open <= body + delta
              && (body + delta)[|tag.open|..] == Look(body, tag).rest + delta
  {
    if tag.open <= body {
      OpenGrows(tag.open, body, delta);
      var rest := body[|tag.open|..];
      if AfterClose(rest, tag.close).Kept? {
        AfterCloseGrows(rest, delta, tag.close);
        LStripConcat(AfterClose(rest, tag.close).text, delta);
      }
    } else if !Look(body, tag).Undecided? {
      PlainGrows(tag.open, body, delta);
    }
  }

  /** The one-shot form and the view of the whole text. */
  lemma StripLeadingLooks(text: string, tag: Tag)
    requires WellFormed(tag)
    ensures match Look(LStrip(text), tag)
            case Undecided => StripLeading(text, tag) == Kept(text)
            case Thinking(_) => StripLeading(text, tag) == NotClosed
            case Blank => StripLeading(text, tag).Kept? && LStrip(StripLeading(text, tag).text) == []
            case Showing(t) => StripLeading(text, tag).Kept? && LStrip(StripLeading(text, tag).text) == t
  {
  }

  // ---- the streaming form ----

  datatype Phase = Start | InReasoning | Gap | Shown

  /** What the filter holds back while `body` stands for the text received. */
  ghost predicate Holds(phase: Phase, held: string, body: string, tag: Tag) {
    match phase
    case Start => held == body && Look(body, tag).Undecided?
    case InReasoning =>
      && Look(body, tag).Thinking?
      && tag.close != []
      && held == Tail(Look(body, tag).rest, |tag.close| - 1)
    case Gap => held == [] && Look(body, tag).Blank?
    case Shown => Look(body, tag).Showing?
  }

  /** Searching the held tail is searching the whole reasoning. */
  lemma TailSuffices(rest: string, delta: string, close: string)
    requires close != [] && AfterClose(rest, close) == NotClosed
    ensures AfterClose(Tail(rest, |close| - 1) + delta, close) == AfterClose(rest + delta, close)
    ensures Tail(Tail(rest, |close| - 1) + delta, |close| - 1) == Tail(rest + delta, |close| - 1)
  {
    var held := Tail(rest, |close| - 1);
    FindThroughTail(rest, delta, close);
    hide Find;
    assert rest + delta == rest[..|rest| - |held|] + (held + delta);
  }

  datatype Step = Step(phase: Phase, held: string, yielded: string)

  /** After the opening tag: look for the closing one in what is held. */
  function Scan(held: string, close: string): (s: Step)
    requires close != []
  {
    var end := Find(held, close);
    if end < 0 then Step(InReasoning, Tail(held, |close| - 1), [])
    else Settle(held[end + |close|..])
  }

  /** After the closing tag: show the first text that is not white space. */
  function Settle(held: string): (s: Step) {
    if LStrip(held) != [] then Step(Shown, [], LStrip(held)) else Step(Gap, [], [])
  }

  ghost predicate StepFits(s: Step, body: string, tag: Tag) {
    Holds(s.phase, s.held, body, tag) && (s.phase == Shown ==> s.yielded == Look(body, tag).text)
  }

  lemma ScanFits(held: string, body: string, tag: Tag)
    requires WellFormed(tag) && tag.open <= body
    requires
      var rest := body[|tag.open|..];
      && AfterClose(held, tag.close) == AfterClose(rest, tag.close)
      && Tail(held, |tag.close| - 1) == Tail(rest, |tag.close| - 1)
    ensures StepFits(Scan(held, tag.close), body, tag)
  {
    hide LStrip, Find, Tail;
  }

  lemma SettleFits(body: string, delta: string, tag: Tag)
    requires WellFormed(tag) && Look(body, tag).Blank?
    ensures StepFits(Settle(delta), body + delta, tag)
  {
    LookGrows(body, delta, tag);
    hide LStrip, Look;
  }

  lemma StartFits(held: string, delta: string, tag: Tag)
    requires held == LStrip(held)
    ensures LStrip(held + delta) == if held == [] then LStrip(delta) else held + delta
  {
    LStripConcat(held, delta);
  }

  /** One delta received before any text was visible. `body` is the left-stripped
      text before it, `body'` after it. */
  method Absorb(phase: Phase, held: string, delta: string, tag: Tag,
                ghost body: string, ghost body': string)
    returns (s: Step)
    requires WellFormed(tag) && phase != Shown && Holds(phase, held, body, tag)
    requires body == LStrip(body)
    requires body' == if body == [] then LStrip(delta) else body + delta
    ensures StepFits(s, body', tag)
  {
    match phase {
      case Start =>
        StartFits(held, delta, tag);
        var start := LStrip(held + delta);
        if |start| < |tag.open| && start <= tag.open {
          s := Step(Start, start, []);
        } else if !(tag.open <= start) {
          s := Step(Shown, [], start);
        } else {
          ScanFits(start[|tag.open|..], body', tag);
          s := Scan(start[|tag.open|..], tag.close);
        }
      case InReasoning =>
        LookGrows(body, delta, tag);
        TailSuffices(Look(body, tag).rest, delta, tag.close);
        ScanFits(held + delta, body', tag);
        s := Scan(held + delta, tag.close);
      case Gap =>
        SettleFits(body, delta, tag);
        assert held + delta == delta;
        s := Settle(held + delta);
    }
  }

  datatype Outcome = Finished | Unclosed | TooLarge

  ghost predicate CapHitAt(deltas: seq<string>, cap: nat, tag: Tag, k: nat)
    requires k < |deltas|
  {
    !Visible(Concat(deltas[..k]), tag) && Utf8Size(Concat(deltas[..k + 1])) > cap
  }

  /** The byte cap is hit: when some delta came in, more than `cap` bytes had
      arrived and nothing was visible yet. */
  ghost predicate CapHit(deltas: seq<string>, cap: nat, tag: Tag) {
    exists k :: 0 <= k < |deltas| && CapHitAt(deltas, cap, tag, k)
  }

  lemma CapHitByNext(deltas: seq<string>, n: nat, cap: nat, tag: Tag)
    requires n < |deltas|
    ensures Concat(deltas[..n + 1]) == Concat(deltas[..n]) + deltas[n]
    ensures CapHit(deltas[..n + 1], cap, tag) <==>
            || CapHit(deltas[..n], cap, tag)
            || (!Visible(Concat(deltas[..n]), tag) && Utf8Size(Concat(deltas[..n + 1])) > cap)
    ensures CapHit(deltas[..n + 1], cap, tag) ==> CapHit(deltas, cap, tag)
  {
    var longer, shorter := deltas[..n + 1], deltas[..n];
    assert longer == shorter + [deltas[n]];
    hide Concat, Visible, Utf8Size;
    assert longer[..n] == shorter && longer[..n + 1] == longer;
    assert CapHitAt(longer, cap, tag, n) <==>
           !Visible(Concat(shorter), tag) && Utf8Size(Concat(longer)) > cap;
    forall k | 0 <= k < n
      ensures CapHitAt(longer, cap, tag, k) <==> CapHitAt(shorter, cap, tag, k)
    {
      assert longer[..k] == shorter[..k] && longer[..k + 1] == shorter[..k + 1];
    }
    forall k | 0 <= k <= n
      ensures CapHitAt(longer, cap, tag, k) <==> CapHitAt(deltas, cap, tag, k)
    {
      assert longer[..k] == deltas[..k] && longer[..k + 1] == deltas[..k + 1];
    }
  }

  /** Everything the generator's variables say about the text received so far. */
  ghost predicate Tracks(phase: Phase, held: string, bytes: nat, shown: seq<string>,
                         text: string, tag: Tag)
  {
    && Holds(phase, held, LStrip(text), tag)
    && (phase != Shown ==> shown == [] && bytes == Utf8Size(text))
    && (phase == Shown ==> Concat(shown) == Look(LStrip(text), tag).text)
  }

  lemma TracksVisible(phase: Phase, held: string, bytes: nat, shown: seq<string>, text: string, tag: Tag)
    requires Tracks(phase, held, bytes, shown, text, tag)
    ensures Visible(text, tag) <==> phase == Shown
  {
  }

  lemma TracksShown(held: string, bytes: nat, shown: seq<string>, text: string, delta: string, tag: Tag)
    requires WellFormed(tag) && Tracks(Shown, held, bytes, shown, text, tag)
    ensures Tracks(Shown, held, bytes, shown + [delta], text + delta, tag)
  {
    assert LStrip(text) != [];
    LStripConcat(text, delta);
    LookGrows(LStrip(text), delta, tag);
  }

  /** What is left to yield, and how the generator ends, once the deltas are over. */
  lemma TracksEnd(phase: Phase, held: string, bytes: nat, shown: seq<string>, text: string, tag: Tag)
    requires WellFormed(tag) && Tracks(phase, held, bytes, shown, text, tag)
    ensures phase == InReasoning <==> StripLeading(text, tag) == NotClosed
    ensures phase == InReasoning ==> shown == []
    ensures phase != InReasoning ==>
              Concat(if phase == Start && held != [] then shown + [held] else shown)
              == LStrip(StripLeading(text, tag).text)
  {
    StripLeadingLooks(text, tag);
    if phase == Start {
      assert shown == [];
    }
  }

  lemma CapHitMeans(deltas: seq<string>, cap: nat, tag: Tag)
    ensures CapHit(deltas, cap, tag) <==>
            exists k :: && 0 <= k < |deltas|
                        && !Visible(Concat(deltas[..k]), tag) && Utf8Size(Concat(deltas[..k + 1])) > cap
  {
    hide Visible, Concat, Utf8Size;
    if CapHit(deltas, cap, tag) {
      var k :| 0 <= k < |deltas| && CapHitAt(deltas, cap, tag, k);
      assert !Visible(Concat(deltas[..k]), tag);
    }
    if k :| 0 <= k < |deltas| && !Visible(Concat(deltas[..k]), tag) && Utf8Size(Concat(deltas[..k + 1])) > cap {
      assert CapHitAt(deltas, cap, tag, k);
    }
  }

  /** `_skip_leading_reasoning`: the yielded deltas, and how the generator ends. */
  method SkipLeading(deltas: seq<string>, cap: nat, tag: Tag)
    returns (shown: seq<string>, outcome: Outcome)
    requires WellFormed(tag)
    ensures outcome == TooLarge <==>
            exists k :: && 0 <= k < |deltas|
                        && !Visible(Concat(deltas[..k]), tag) && Utf8Size(Concat(deltas[..k + 1])) > cap
    ensures outcome != TooLarge ==>
              (outcome == Unclosed <==> StripLeading(Concat(deltas), tag) == NotClosed)
    ensures outcome == Finished ==>
              Concat(shown) == LStrip(StripLeading(Concat(deltas), tag).text)
    ensures outcome == Finished ==>
              Strip(Concat(shown)) == Strip(StripLeading(Concat(deltas), tag).text)
    ensures outcome != Finished ==> shown == []
  {
    var held, phase := "", Start;
    var heldBytes: nat := 0;
    shown := [];
    ghost var text: string := [];
    assert deltas[..0] == [];
    CapHitMeans(deltas, cap, tag);
    hide LStrip, Look, Utf8Size, StripLeading, Visible, CapHitAt;
    for n := 0 to |deltas|
      invariant text == Concat(deltas[..n])
      invariant Tracks(phase, held, heldBytes, shown, text, tag)
      invariant !CapHit(deltas[..n], cap, tag)
    {
      var delta := deltas[n];
      CapHitByNext(deltas, n, cap, tag);
      TracksVisible(phase, held, heldBytes, shown, text, tag);
      if phase == Shown {
        TracksShown(held, heldBytes, shown, text, delta, tag);
        shown := shown + [delta];
      } else {
        Utf8SizeConcat(text, delta);
        heldBytes := heldBytes + Utf8Size(delta);
        if heldBytes > cap {
          return shown, TooLarge;
        }
        LStripConcat(text, delta);
        var s := Absorb(phase, held, delta, tag, LStrip(text), LStrip(text + delta));
        phase, held := s.phase, s.held;
        if phase == Shown {
          assert shown + [s.yielded] == [s.yielded];
          shown := shown + [s.yielded];
        }
      }
      text := text + delta;
    }
    assert deltas[..|deltas|] == deltas;
    TracksEnd(phase, held, heldBytes, shown, text, tag);
    if phase == InReasoning {
      return shown, Unclosed;
    }
    if phase == Start && held != [] {
      shown := shown + [held];
    }
    SameStoredValue(Concat(shown), StripLeading(text, tag).text);
    outcome := Finished;
  }

  /** Streamed and non-streamed paths store the same value. */
  lemma SameStoredValue(shown: string, kept: string)
    requires shown == LStrip(kept)
    ensures Strip(shown) == Strip(kept)
  {
  }
}
