/** Reader sessions: an ordered table, oldest use first, bounded in size, purged
    on every exchange. Its answers are a function of the history of exchanges,
    uses and removals alone. Each lock region is one step; token digests and
    bindings are collision-free, so tokens and bindings stand for themselves. */
module Sessions {
  import opened Collections
  import opened Options

  datatype Record = Record(subject: string, expiresAt: int, address: string, agent: string)

  /** `Issue` also removes the session the caller presented, if any. A `Use` is an
      accepted authentication. */
  datatype Event =
    | Issue(token: string, record: Record, prior: Option<string>, now: int)
    | Use(token: string)
    | Remove(token: string)

  type History = seq<Event>

  // ---- what a session is worth, from the history alone ----

  predicate Touches(e: Event, token: string) {
    (e.Issue? || e.Use?) && e.token == token
  }

  /** When the token was last issued or used: a position from 1, or 0 for never. */
  function LastTouch(h: History, token: string): nat {
    if h == [] then 0
    else if Touches(h[|h| - 1], token) then |h|
    else LastTouch(h[..|h| - 1], token)
  }

  /** What the latest exchange issued, unless rotated or removed since. */
  function Grant(h: History, token: string): Option<Record> {
    if h == [] then None
    else
      var e := h[|h| - 1];
      if e.Issue? && e.token == token then Some(e.record)
      else if e.Issue? && e.prior == Some(token) then None
      else if e.Remove? && e.token == token then None
      else Grant(h[..|h| - 1], token)
  }

  predicate Live(h: History, token: string, now: int) {
    Grant(h, token).Some? && now < Grant(h, token).value.expiresAt
  }

  function Tokens(h: History): set<string> {
    set e | e in h :: e.token
  }

  /** Live sessions issued or used after this one. */
  function MoreRecent(h: History, token: string, now: int): (r: set<string>) {
    set other | other in Tokens(h) && Live(h, other, now) && LastTouch(h, other) > LastTouch(h, token)
  }

  /** Since its last issue or use, some exchange found at least `max` live
      sessions that were issued or used more recently. */
  predicate Displaced(h: History, token: string, max: nat) {
    if h == [] then false
    else
      var e := h[|h| - 1];
      if Touches(e, token) then false
      else
        || Displaced(h[..|h| - 1], token, max)
        || (e.Issue? && |MoreRecent(h, token, e.now)| >= max)
  }

  /** The decision: the latest grant is in force, was made for this address and
      user agent, and has not been displaced. */
  predicate Accepted(h: History, token: string, address: string, agent: string, now: int, max: nat) {
    && Live(h, token, now) && !Displaced(h, token, max)
    && Grant(h, token).value.address == address && Grant(h, token).value.agent == agent
  }

  // ---- the same, event by event ----

  /** The token was issued at `i`, and since then not issued again, not traded in for
      another, and not removed. */
  predicate InForceSince(h: History, token: string, r: Record, i: int) {
    && 0 <= i < |h| && h[i].Issue? && h[i].token == token && h[i].record == r
    && forall j :: i < j < |h| ==> !Withdraws(h[j], token)
  }

  predicate Withdraws(e: Event, token: string) {
    ((e.Issue? || e.Remove?) && e.token == token) || (e.Issue? && e.prior == Some(token))
  }

  lemma InForceLater(h: History, e: Event, token: string, r: Record, i: int)
    requires i < |h|
    ensures InForceSince(h + [e], token, r, i) <==> InForceSince(h, token, r, i) && !Withdraws(e, token)
  {
    hide Withdraws;
    var more := h + [e];
    assert forall j :: 0 <= j < |h| ==> more[j] == h[j];
    assert more[|h|] == e;
    if InForceSince(more, token, r, i) {
      assert forall j :: i < j < |h| ==> !Withdraws(more[j], token);
    }
  }

  lemma {:induction false} GrantSince(h: History, token: string, r: Record)
    ensures Grant(h, token) == Some(r) <==> exists i :: InForceSince(h, token, r, i)
  {
    if h != [] {
      var init, n := h[..|h| - 1], |h| - 1;
      var e := h[n];
      assert h == init + [e];
      GrantSince(init, token, r);
      if e.Issue? && e.token == token {
        assert e.record == r ==> InForceSince(h, token, r, n);
      }
      assert forall i :: InForceSince(h, token, r, i) && i < n ==> !Withdraws(h[n], token);
      hide InForceSince;
      forall i | i < n
        ensures InForceSince(h, token, r, i) <==> InForceSince(init, token, r, i) && !Withdraws(e, token)
      {
        InForceLater(init, e, token, r, i);
      }
      InForceBounds(h, token, r);
      InForceBounds(init, token, r);
    }
  }

  lemma InForceBounds(h: History, token: string, r: Record)
    ensures forall i :: InForceSince(h, token, r, i) ==>
              0 <= i < |h| && h[i].Issue? && h[i].token == token && h[i].record == r
  {
  }

  /** A grant is in force when it was issued at some point and, since then, the token
      was not issued again, not traded in for another, and not removed. */
  lemma GrantMeans(h: History, token: string, r: Record)
    ensures Grant(h, token) == Some(r) <==>
            exists i ::
              && 0 <= i < |h| && h[i].Issue? && h[i].token == token && h[i].record == r
              && forall j :: i < j < |h| ==>
                   && !((h[j].Issue? || h[j].Remove?) && h[j].token == token)
                   && !(h[j].Issue? && h[j].prior == Some(token))
  {
    GrantSince(h, token, r);
    hide Grant;
    if i :| InForceSince(h, token, r, i) {
      assert forall j :: i < j < |h| ==> !Withdraws(h[j], token);
    }
    if i :| && 0 <= i < |h| && h[i].Issue? && h[i].token == token && h[i].record == r
            && forall j :: i < j < |h| ==>
                 && !((h[j].Issue? || h[j].Remove?) && h[j].token == token)
                 && !(h[j].Issue? && h[j].prior == Some(token))
    {
      assert InForceSince(h, token, r, i);
    }
  }

  /** The last touch is the last issue or use. */
  lemma {:induction false} LastTouchMeans(h: History, token: string)
    ensures LastTouch(h, token) <= |h|
    ensures LastTouch(h, token) > 0 ==>
              var e := h[LastTouch(h, token) - 1];
              (e.Issue? || e.Use?) && e.token == token
    ensures forall j :: LastTouch(h, token) <= j < |h| ==> !((h[j].Issue? || h[j].Use?) && h[j].token == token)
  {
    if h != [] && !Touches(h[|h| - 1], token) {
      var init := h[..|h| - 1];
      LastTouchMeans(init, token);
      assert forall j :: 0 <= j < |init| ==> init[j] == h[j];
    }
  }

  /** An exchange at `i`, after the last touch, found `max` sessions touched later. */
  ghost predicate DisplacedAt(h: History, token: string, max: nat, i: int) {
    && 0 <= i < |h| && h[i].Issue?
    && (forall j :: i <= j < |h| ==> !Touches(h[j], token))
    && |MoreRecent(h[..i + 1], token, h[i].now)| >= max
  }

  lemma DisplacedLater(h: History, e: Event, token: string, max: nat, i: int)
    requires i < |h|
    ensures DisplacedAt(h + [e], token, max, i) <==> DisplacedAt(h, token, max, i) && !Touches(e, token)
  {
    hide MoreRecent, Touches;
    var more := h + [e];
    assert forall j :: 0 <= j < |h| ==> more[j] == h[j];
    assert more[|h|] == e;
    assert 0 <= i ==> more[..i + 1] == h[..i + 1];
    if DisplacedAt(more, token, max, i) {
      assert forall j :: i <= j < |h| ==> !Touches(more[j], token);
    }
  }

  lemma {:induction false} DisplacedSince(h: History, token: string, max: nat)
    ensures Displaced(h, token, max) <==> exists i :: DisplacedAt(h, token, max, i)
  {
    hide MoreRecent, Touches;
    if h != [] {
      var init, n := h[..|h| - 1], |h| - 1;
      var e := h[n];
      assert h == init + [e] && h[..n + 1] == h;
      DisplacedSince(init, token, max);
      assert DisplacedAt(h, token, max, n) <==>
             !Touches(e, token) && e.Issue? && |MoreRecent(h, token, e.now)| >= max;
      DisplacedBounds(h, token, max);
      DisplacedBounds(init, token, max);
      hide DisplacedAt;
      forall i | i < n
        ensures DisplacedAt(h, token, max, i) <==> DisplacedAt(init, token, max, i) && !Touches(e, token)
      {
        DisplacedLater(init, e, token, max, i);
      }
    }
  }

  lemma DisplacedBounds(h: History, token: string, max: nat)
    ensures forall i :: DisplacedAt(h, token, max, i) ==> 0 <= i < |h|
  {
    hide MoreRecent, Touches;
  }

  /** A session is displaced by an exchange since its last touch at which `max` other
      sessions were live and had been touched later. */
  lemma DisplacedMeans(h: History, token: string, max: nat)
    ensures Displaced(h, token, max) <==>
            exists i ::
              && 0 <= i < |h| && h[i].Issue?
              && (forall j :: i <= j < |h| ==> !((h[j].Issue? || h[j].Use?) && h[j].token == token))
              && |MoreRecent(h[..i + 1], token, h[i].now)| >= max
  {
    DisplacedSince(h, token, max);
    hide MoreRecent, Displaced;
    if i :| DisplacedAt(h, token, max, i) {
      assert forall j :: i <= j < |h| ==> !Touches(h[j], token);
    }
    if i :| && 0 <= i < |h| && h[i].Issue?
            && (forall j :: i <= j < |h| ==> !((h[j].Issue? || h[j].Use?) && h[j].token == token))
            && |MoreRecent(h[..i + 1], token, h[i].now)| >= max
    {
      assert DisplacedAt(h, token, max, i);
    }
  }

  /** A token is accepted exactly when it was issued for this address and user agent,
      has not expired, was not issued again, traded in or removed since, and no exchange
      has displaced it. */
  lemma AcceptedMeans(h: History, token: string, address: string, agent: string, now: int, max: nat)
    ensures Accepted(h, token, address, agent, now, max) <==>
            && !Displaced(h, token, max)
            && exists i ::
                 && 0 <= i < |h| && h[i].Issue? && h[i].token == token
                 && h[i].record.address == address && h[i].record.agent == agent && now < h[i].record.expiresAt
                 && forall j :: i < j < |h| ==>
                      && !((h[j].Issue? || h[j].Remove?) && h[j].token == token)
                      && !(h[j].Issue? && h[j].prior == Some(token))
  {
    hide Grant, Displaced;
    if Grant(h, token).Some? {
      GrantMeans(h, token, Grant(h, token).value);
    }
    if i :| && 0 <= i < |h| && h[i].Issue? && h[i].token == token
            && h[i].record.address == address && h[i].record.agent == agent && now < h[i].record.expiresAt
            && forall j :: i < j < |h| ==>
                 && !((h[j].Issue? || h[j].Remove?) && h[j].token == token)
                 && !(h[j].Issue? && h[j].prior == Some(token))
    {
      GrantMeans(h, token, h[i].record);
    }
  }

  // ---- one more event ----

  lemma {:induction false} TouchBound(h: History, token: string)
    ensures LastTouch(h, token) <= |h|
  {
    if h != [] && !Touches(h[|h| - 1], token) {
      TouchBound(h[..|h| - 1], token);
    }
  }

  /** Distinct tokens were touched at distinct positions. */
  lemma {:induction false} TouchDistinct(h: History, a: string, b: string)
    requires LastTouch(h, a) == LastTouch(h, b) > 0
    ensures a == b
  {
    hide Grant;
    var init := h[..|h| - 1];
    TouchBound(init, a);
    TouchBound(init, b);
    if !Touches(h[|h| - 1], a) && !Touches(h[|h| - 1], b) {
      TouchDistinct(init, a, b);
    }
  }

  lemma {:induction false} GrantedToken(h: History, token: string)
    requires Grant(h, token).Some?
    ensures token in Tokens(h) && LastTouch(h, token) > 0
  {
    var e, init := h[|h| - 1], h[..|h| - 1];
    assert e in h;
    if !(e.Issue? && e.token == token) {
      GrantedToken(init, token);
      var was :| was in init && was.token == token;
      assert was in h;
    }
  }

  lemma MoreRecentMeans(h: History, token: string, now: int, other: string)
    ensures other in MoreRecent(h, token, now) <==>
            Live(h, other, now) && LastTouch(h, other) > LastTouch(h, token)
  {
    if Live(h, other, now) {
      GrantedToken(h, other);
    }
  }

  /** Whoever is displaced takes everything older along. */
  lemma {:induction false} OlderIsDisplaced(h: History, older: string, token: string, max: nat)
    requires Displaced(h, token, max) && LastTouch(h, older) < LastTouch(h, token)
    ensures Displaced(h, older, max)
  {
    hide Grant, Live, MoreRecent;
    var e, init := h[|h| - 1], h[..|h| - 1];
    TouchBound(init, token);
    if Displaced(init, token, max) {
      OlderIsDisplaced(init, older, token, max);
    } else {
      forall other | other in MoreRecent(h, token, e.now) ensures other in MoreRecent(h, older, e.now) {
        MoreRecentMeans(h, token, e.now, other);
        MoreRecentMeans(h, older, e.now, other);
      }
      SubsetSize(MoreRecent(h, token, e.now), MoreRecent(h, older, e.now));
    }
  }

  // ---- the table ----

  datatype Entry = Entry(token: string, record: Record)

  type Table = seq<Entry>

  /** Least recently touched first. */
  predicate Ordered(t: Table, h: History) {
    forall i, j :: 0 <= i < j < |t| ==> LastTouch(h, t[i].token) < LastTouch(h, t[j].token)
  }

  /** The table holds sessions in force, and all of those live at `now`. */
  predicate Holds(t: Table, h: History, max: nat) {
    forall i :: 0 <= i < |t| ==> Grant(h, t[i].token) == Some(t[i].record) && !Displaced(h, t[i].token, max)
  }

  ghost predicate Complete(t: Table, h: History, max: nat, now: int) {
    forall token :: Live(h, token, now) && !Displaced(h, token, max) ==> Has(t, token)
  }

  predicate Has(t: Table, token: string) {
    exists i :: 0 <= i < |t| && t[i].token == token
  }

  ghost predicate Represents(t: Table, h: History, max: nat, now: int) {
    Ordered(t, h) && Holds(t, h, max) && Complete(t, h, max, now)
  }

  /** The dictionary lookup. */
  method Find(t: Table, token: string) returns (r: Option<Record>)
    ensures r.None? <==> !Has(t, token)
    ensures r.Some? ==> Entry(token, r.value) in t
  {
    for i := 0 to |t|
      invariant forall k :: 0 <= k < i ==> t[k].token != token
    {
      if t[i].token == token { return Some(t[i].record); }
    }
    return None;
  }

  /** The entries that pass, in order. */
  function Keep(t: Table, pass: Entry -> bool): Table {
    if t == [] then []
    else
      var init := Keep(t[..|t| - 1], pass);
      if pass(t[|t| - 1]) then init + [t[|t| - 1]] else init
  }

  lemma {:induction false} KeepMember(t: Table, pass: Entry -> bool, e: Entry)
    ensures e in Keep(t, pass) <==> e in t && pass(e)
  {
    if t != [] {
      KeepMember(t[..|t| - 1], pass, e);
      assert t == t[..|t| - 1] + [t[|t| - 1]];
    }
  }

  lemma {:induction false} KeepOrdered(t: Table, pass: Entry -> bool, h: History)
    requires Ordered(t, h)
    ensures Ordered(Keep(t, pass), h) && |Keep(t, pass)| <= |t|
  {
    hide LastTouch;
    if t != [] {
      var init, e := t[..|t| - 1], t[|t| - 1];
      KeepOrdered(init, pass, h);
      var kept := Keep(init, pass);
      forall i | 0 <= i < |kept| ensures LastTouch(h, kept[i].token) < LastTouch(h, e.token) {
        KeepMember(init, pass, kept[i]);
      }
    }
  }

  function Without(t: Table, token: string): Table {
    Keep(t, (e: Entry) => e.token != token)
  }

  function Unexpired(t: Table, now: int): Table {
    Keep(t, (e: Entry) => now < e.record.expiresAt)
  }

  lemma WithoutMeans(t: Table, token: string, h: History)
    requires Ordered(t, h)
    ensures Ordered(Without(t, token), h) && |Without(t, token)| <= |t|
    ensures forall e :: e in Without(t, token) <==> e in t && e.token != token
  {
    hide Ordered, Keep;
    var pass := (e: Entry) => e.token != token;
    KeepOrdered(t, pass, h);
    forall e ensures e in Without(t, token) <==> e in t && e.token != token {
      KeepMember(t, pass, e);
    }
  }

  lemma UnexpiredMeans(t: Table, now: int, h: History)
    requires Ordered(t, h)
    ensures Ordered(Unexpired(t, now), h)
    ensures forall e :: e in Unexpired(t, now) <==> e in t && now < e.record.expiresAt
  {
    hide Ordered, Keep;
    var pass := (e: Entry) => now < e.record.expiresAt;
    KeepOrdered(t, pass, h);
    forall e ensures e in Unexpired(t, now) <==> e in t && now < e.record.expiresAt {
      KeepMember(t, pass, e);
    }
  }

  // ---- membership forms of the table's meaning ----

  lemma HoldsEntry(t: Table, h: History, max: nat, e: Entry)
    requires Holds(t, h, max) && e in t
    ensures Grant(h, e.token) == Some(e.record) && !Displaced(h, e.token, max)
  {
  }

  lemma HoldsAll(t: Table, h: History, max: nat)
    requires forall e :: e in t ==> Grant(h, e.token) == Some(e.record) && !Displaced(h, e.token, max)
    ensures Holds(t, h, max)
  {
    hide Grant, Displaced;
    forall i | 0 <= i < |t|
      ensures Grant(h, t[i].token) == Some(t[i].record) && !Displaced(h, t[i].token, max)
    {
      assert t[i] in t;
    }
  }

  /** A session in force is in the table with its own record. */
  lemma LiveIsHeld(t: Table, h: History, max: nat, last: int, now: int, token: string)
    requires Holds(t, h, max) && Complete(t, h, max, last) && last <= now
    requires Live(h, token, now) && !Displaced(h, token, max)
    ensures Entry(token, Grant(h, token).value) in t
  {
    hide Grant, Displaced;
    assert Live(h, token, last);
    var i :| 0 <= i < |t| && t[i].token == token;
    assert t[i] == Entry(token, Grant(h, token).value);
  }

  // ---- how one event moves the specification ----

  lemma Unfold(h: History, e: Event, token: string, max: nat)
    ensures LastTouch(h + [e], token) == if Touches(e, token) then |h| + 1 else LastTouch(h, token)
    ensures Grant(h + [e], token) ==
            if e.Issue? && e.token == token then Some(e.record)
            else if (e.Issue? && e.prior == Some(token)) || (e.Remove? && e.token == token) then None
            else Grant(h, token)
    ensures Displaced(h + [e], token, max) <==>
            && !Touches(e, token)
            && (Displaced(h, token, max) || (e.Issue? && |MoreRecent(h + [e], token, e.now)| >= max))
  {
    hide Live, MoreRecent;
    assert (h + [e])[..|h|] == h && (h + [e])[|h|] == e;
  }

  /** The touched session goes to the end. */
  lemma OrderedAppend(t: Table, h: History, e: Event, x: Entry)
    requires Ordered(t, h) && Touches(e, x.token)
    requires forall y :: y in t ==> y.token != x.token
    ensures Ordered(t + [x], h + [e])
  {
    hide LastTouch, Grant, Displaced, MoreRecent;
    var s, h' := t + [x], h + [e];
    forall i, j | 0 <= i < j < |s| ensures LastTouch(h', s[i].token) < LastTouch(h', s[j].token) {
      assert t[i] in t;
      Unfold(h, e, s[i].token, 0);
      Unfold(h, e, s[j].token, 0);
      TouchBound(h, s[i].token);
      assert j < |t| ==> t[j] in t;
    }
  }

  lemma HasEntry(t: Table, e: Entry)
    requires e in t
    ensures Has(t, e.token)
  {
    var i :| 0 <= i < |t| && t[i] == e;
  }

  // ---- authenticate and remove ----

  /** Moving a session to the end is what a use does. */
  lemma UseRepresents(t: Table, h: History, max: nat, last: int, now: int, e: Entry)
    requires Represents(t, h, max, last) && last <= now && e in t
    ensures Represents(Without(t, e.token) + [e], h + [Use(e.token)], max, now)
  {
    hide Grant, Displaced, LastTouch, Without, Ordered, Holds, Complete, Has, MoreRecent;
    var h', rest := h + [Use(e.token)], Without(t, e.token);
    var t' := rest + [e];
    WithoutMeans(t, e.token, h);
    OrderedAppend(rest, h, Use(e.token), e);
    forall x | x in t' ensures Grant(h', x.token) == Some(x.record) && !Displaced(h', x.token, max) {
      Unfold(h, Use(e.token), x.token, max);
      HoldsEntry(t, h, max, x);
    }
    HoldsAll(t', h', max);
    forall token | Live(h', token, now) && !Displaced(h', token, max) ensures Has(t', token) {
      Unfold(h, Use(e.token), token, max);
      if token == e.token {
        HasEntry(t', e);
      } else {
        LiveIsHeld(t, h, max, last, now, token);
        HasEntry(t', Entry(token, Grant(h, token).value));
      }
    }
    CompleteIntro(t', h', max, now);
  }

  lemma CompleteIntro(t: Table, h: History, max: nat, now: int)
    requires forall token :: Live(h, token, now) && !Displaced(h, token, max) ==> Has(t, token)
    ensures Complete(t, h, max, now)
  {
  }

  lemma LaterRepresents(t: Table, h: History, max: nat, last: int, now: int)
    requires Represents(t, h, max, last) && last <= now
    ensures Represents(t, h, max, now)
  {
    hide Grant, Displaced, LastTouch, Ordered, Holds, Has;
    forall token | Live(h, token, now) && !Displaced(h, token, max) ensures Has(t, token) {
      assert Live(h, token, last);
    }
  }

  /** Dropping an expired session is no event at all. */
  lemma ExpiryRepresents(t: Table, h: History, max: nat, last: int, now: int, token: string)
    requires Represents(t, h, max, last) && last <= now
    requires !Live(h, token, now) || Displaced(h, token, max)
    ensures Represents(Without(t, token), h, max, now)
  {
    hide Grant, Displaced, LastTouch, Without, Ordered, Holds, Complete, Has;
    var t' := Without(t, token);
    WithoutMeans(t, token, h);
    forall x | x in t' ensures Grant(h, x.token) == Some(x.record) && !Displaced(h, x.token, max) {
      HoldsEntry(t, h, max, x);
    }
    HoldsAll(t', h, max);
    forall other | Live(h, other, now) && !Displaced(h, other, max) ensures Has(t', other) {
      LiveIsHeld(t, h, max, last, now, other);
      HasEntry(t', Entry(other, Grant(h, other).value));
    }
    CompleteIntro(t', h, max, now);
  }

  lemma RemoveRepresents(t: Table, h: History, max: nat, now: int, token: string)
    requires Represents(t, h, max, now)
    ensures Represents(Without(t, token), h + [Remove(token)], max, now)
  {
    hide Grant, Displaced, LastTouch, Without, Ordered, Holds, Complete, Has, MoreRecent;
    var t', h' := Without(t, token), h + [Remove(token)];
    WithoutMeans(t, token, h);
    OrderedSame(t', h, Remove(token));
    forall x | x in t' ensures Grant(h', x.token) == Some(x.record) && !Displaced(h', x.token, max) {
      Unfold(h, Remove(token), x.token, max);
      HoldsEntry(t, h, max, x);
    }
    HoldsAll(t', h', max);
    forall other | Live(h', other, now) && !Displaced(h', other, max) ensures Has(t', other) {
      Unfold(h, Remove(token), other, max);
      LiveIsHeld(t, h, max, now, now, other);
      HasEntry(t', Entry(other, Grant(h, other).value));
    }
    CompleteIntro(t', h', max, now);
  }

  lemma OrderedSame(t: Table, h: History, e: Event)
    requires Ordered(t, h) && e.Remove?
    ensures Ordered(t, h + [e])
  {
    hide LastTouch, Grant, Displaced, MoreRecent;
    forall i, j | 0 <= i < j < |t| ensures LastTouch(h + [e], t[i].token) < LastTouch(h + [e], t[j].token) {
      Unfold(h, e, t[i].token, 0);
      Unfold(h, e, t[j].token, 0);
    }
  }

  // ---- exchange ----

  function TokensFrom(t: Table, i: nat): set<string>
    requires i <= |t|
    decreases |t| - i
  {
    if i == |t| then {} else {t[i].token} + TokensFrom(t, i + 1)
  }

  lemma {:induction false} TokensFromMember(t: Table, i: nat, token: string)
    requires i <= |t|
    ensures token in TokensFrom(t, i) <==> exists k :: i <= k < |t| && t[k].token == token
    decreases |t| - i
  {
    if i < |t| {
      TokensFromMember(t, i + 1, token);
      if t[i].token != token {
        assert token in TokensFrom(t, i) <==> token in TokensFrom(t, i + 1);
        assert forall k :: i <= k < |t| && t[k].token == token ==> i + 1 <= k;
      }
    }
  }

  lemma {:induction false} TokensFromSize(t: Table, i: nat, h: History)
    requires i <= |t| && Ordered(t, h)
    ensures |TokensFrom(t, i)| == |t| - i
    decreases |t| - i
  {
    hide LastTouch;
    if i < |t| {
      TokensFromSize(t, i + 1, h);
      TokensFromMember(t, i + 1, t[i].token);
    }
  }

  /** The table once expired sessions are out: exactly the live sessions that were
      not displaced before this exchange. */
  ghost predicate Purged(t: Table, h: History, e: Event, max: nat) {
    && e.Issue?
    && Ordered(t, h + [e])
    && (forall x :: x in t ==> Surviving(h, e, max, x.token) && Grant(h + [e], x.token) == Some(x.record))
    && (forall token :: Surviving(h, e, max, token) ==> Has(t, token))
  }

  predicate Surviving(h: History, e: Event, max: nat, token: string)
    requires e.Issue?
  {
    Live(h + [e], token, e.now) && (e.token == token || !Displaced(h, token, max))
  }

  /** More recent live sessions are the ones further back in the table, although
      the specification counts displaced ones too: a displaced session that is
      more recent would have displaced this one. */
  lemma LaterIsMoreRecent(t: Table, h: History, e: Event, max: nat, i: nat)
    requires Purged(t, h, e, max) && i < |t|
    ensures |MoreRecent(h + [e], t[i].token, e.now)| == |t| - 1 - i
  {
    hide Grant, Live, Displaced, LastTouch, MoreRecent, TokensFrom;
    var h' := h + [e];
    var token := t[i].token;
    TokensFromSize(t, i + 1, h');
    assert t[i] in t;
    forall other ensures other in MoreRecent(h', token, e.now) <==> other in TokensFrom(t, i + 1) {
      MoreRecentMeans(h', token, e.now, other);
      TokensFromMember(t, i + 1, other);
      if other in TokensFrom(t, i + 1) {
        var k :| i + 1 <= k < |t| && t[k].token == other;
        assert t[k] in t;
      }
      if other in MoreRecent(h', token, e.now) {
        RecentSurvives(h, e, max, token, other);
        var k :| 0 <= k < |t| && t[k].token == other;
      }
    }
    assert MoreRecent(h', token, e.now) == TokensFrom(t, i + 1);
  }

  lemma RecentSurvives(h: History, e: Event, max: nat, token: string, other: string)
    requires e.Issue? && Surviving(h, e, max, token)
    requires Live(h + [e], other, e.now) && LastTouch(h + [e], other) > LastTouch(h + [e], token)
    ensures Surviving(h, e, max, other)
  {
    hide Grant, Live, Displaced, LastTouch, MoreRecent;
    Unfold(h, e, token, max);
    Unfold(h, e, other, max);
    TouchBound(h, other);
    if other != e.token && Displaced(h, other, max) {
      OlderIsDisplaced(h, token, other, max);
    }
  }

  lemma NewestIsLast(t: Table, h: History, e: Event, max: nat, i: nat)
    requires Purged(t, h, e, max) && i < |t| && t[i].token == e.token
    ensures i == |t| - 1
  {
    hide Grant, Live, Displaced, LastTouch, MoreRecent;
    Unfold(h, e, e.token, max);
    TouchBound(h + [e], t[|t| - 1].token);
  }

  function Overflow(t: Table, max: nat): nat {
    if |t| > max then |t| - max else 0
  }

  /** The sessions this exchange displaces are the ones it drops. */
  lemma DroppedIsDisplaced(t: Table, h: History, e: Event, max: nat, i: nat)
    requires Purged(t, h, e, max) && max >= 1 && i < |t|
    ensures Displaced(h + [e], t[i].token, max) <==> i < Overflow(t, max)
  {
    hide Grant, Live, Displaced, LastTouch, MoreRecent, Ordered, Has;
    Unfold(h, e, t[i].token, max);
    assert t[i] in t;
    if t[i].token == e.token {
      NewestIsLast(t, h, e, max, i);
    } else {
      LaterIsMoreRecent(t, h, e, max, i);
    }
  }

  lemma EvictHolds(t: Table, h: History, e: Event, max: nat)
    requires Purged(t, h, e, max) && max >= 1
    ensures Ordered(t[Overflow(t, max)..], h + [e]) && Holds(t[Overflow(t, max)..], h + [e], max)
  {
    hide Grant, Live, Displaced, LastTouch, MoreRecent, Has, Surviving;
    var h', cut := h + [e], Overflow(t, max);
    var t' := t[cut..];
    forall i | 0 <= i < |t'| ensures Grant(h', t'[i].token) == Some(t'[i].record) && !Displaced(h', t'[i].token, max) {
      DroppedIsDisplaced(t, h, e, max, cut + i);
      assert t[cut + i] in t;
    }
  }

  lemma EvictComplete(t: Table, h: History, e: Event, max: nat, token: string)
    requires Purged(t, h, e, max) && max >= 1
    requires Live(h + [e], token, e.now) && !Displaced(h + [e], token, max)
    ensures Has(t[Overflow(t, max)..], token)
  {
    hide Grant, Live, Displaced, LastTouch, MoreRecent, Ordered;
    Unfold(h, e, token, max);
    assert Surviving(h, e, max, token);
    var i :| 0 <= i < |t| && t[i].token == token;
    DroppedIsDisplaced(t, h, e, max, i);
    assert t[Overflow(t, max)..][i - Overflow(t, max)].token == token;
  }

  /** Dropping the oldest beyond `max` is what displaces sessions. */
  lemma EvictRepresents(t: Table, h: History, e: Event, max: nat)
    requires Purged(t, h, e, max) && max >= 1
    ensures Represents(t[Overflow(t, max)..], h + [e], max, e.now)
  {
    assert e.Issue?;
    hide Purged, Live, Displaced, Ordered, Holds, Has, Overflow;
    EvictHolds(t, h, e, max);
    forall token | Live(h + [e], token, e.now) && !Displaced(h + [e], token, max)
      ensures Has(t[Overflow(t, max)..], token)
    {
      EvictComplete(t, h, e, max, token);
    }
  }

  /** The table after the new session is in and the expired ones are out. */
  function Admit(t: Table, e: Event): Table
    requires e.Issue?
  {
    var rest := if e.prior.Some? then Without(t, e.prior.value) else t;
    Unexpired(Without(rest, e.token) + [Entry(e.token, e.record)], e.now)
  }

  lemma AdmitMeans(t: Table, h: History, e: Event)
    requires e.Issue? && Ordered(t, h)
    ensures Ordered(Admit(t, e), h + [e])
    ensures forall x :: x in Admit(t, e) <==>
              && e.now < x.record.expiresAt
              && (x == Entry(e.token, e.record) || (x in t && x.token != e.token && e.prior != Some(x.token)))
  {
    hide Ordered, Without, Unexpired, LastTouch;
    if e.prior.Some? {
      WithoutMeans(t, e.prior.value, h);
    }
    var rest := if e.prior.Some? then Without(t, e.prior.value) else t;
    WithoutMeans(rest, e.token, h);
    OrderedAppend(Without(rest, e.token), h, e, Entry(e.token, e.record));
    UnexpiredMeans(Without(rest, e.token) + [Entry(e.token, e.record)], e.now, h + [e]);
  }

  lemma AdmitPurges(t: Table, h: History, e: Event, max: nat, last: int)
    requires Represents(t, h, max, last) && e.Issue? && last <= e.now
    ensures Purged(Admit(t, e), h, e, max)
  {
    hide Grant, Displaced, LastTouch, MoreRecent, Ordered, Holds, Complete, Has, Admit;
    var h', t' := h + [e], Admit(t, e);
    AdmitMeans(t, h, e);
    forall x | x in t' ensures Surviving(h, e, max, x.token) && Grant(h', x.token) == Some(x.record) {
      Unfold(h, e, x.token, max);
      if x.token != e.token {
        HoldsEntry(t, h, max, x);
      }
    }
    forall token | Surviving(h, e, max, token) ensures Has(t', token) {
      Unfold(h, e, token, max);
      if token != e.token {
        LiveIsHeld(t, h, max, last, e.now, token);
      }
      HasEntry(t', Entry(token, Grant(h', token).value));
    }
  }

  /** The eviction loop: the oldest goes while there are too many. */
  method Evict(t0: Table, max: nat) returns (t: Table)
    ensures t == t0[Overflow(t0, max)..] && |t| <= max
  {
    t := t0;
    var gone := 0;
    while |t| > max
      invariant 0 <= gone <= Overflow(t0, max) && t == t0[gone..]
      decreases |t|
    {
      t := t[1..];
      gone := gone + 1;
    }
  }

  /** The table work of `exchange` (reader_session.py 595-608). */
  method Insert(t0: Table, e: Event, max: nat, ghost h: History, ghost last: int) returns (t: Table)
    requires e.Issue? && max >= 1 && last <= e.now && Represents(t0, h, max, last)
    ensures Represents(t, h + [e], max, e.now) && |t| <= max
  {
    hide Represents, Purged, Without, Unexpired, Overflow;
    AdmitPurges(t0, h, e, max, last);
    EvictRepresents(Admit(t0, e), h, e, max);
    t := if e.prior.Some? then Without(t0, e.prior.value) else t0;
    t := Unexpired(Without(t, e.token) + [Entry(e.token, e.record)], e.now);
    t := Evict(t, max);
  }

  lemma {:induction false} WithoutSmaller(t: Table, token: string, e: Entry)
    requires e in t && e.token == token
    ensures |Without(t, token)| < |t|
  {
    KeepDrops(t, (x: Entry) => x.token != token, e);
  }

  lemma {:induction false} KeepDrops(t: Table, pass: Entry -> bool, e: Entry)
    requires e in t && !pass(e)
    ensures |Keep(t, pass)| < |t|
  {
    var init, x := t[..|t| - 1], t[|t| - 1];
    if e in init {
      KeepDrops(init, pass, e);
    } else {
      KeepSize(init, pass);
    }
  }

  lemma {:induction false} KeepSize(t: Table, pass: Entry -> bool)
    ensures |Keep(t, pass)| <= |t|
  {
    if t != [] {
      KeepSize(t[..|t| - 1], pass);
    }
  }

  /** The table work of `authenticate` (reader_session.py 632-644). */
  method Lookup(t0: Table, token: string, address: string, agent: string, now: int,
                max: nat, ghost h: History, ghost last: int)
    returns (t: Table, r: Option<string>)
    requires last <= now && Represents(t0, h, max, last)
    ensures r.Some? <==> Accepted(h, token, address, agent, now, max)
    ensures r.Some? ==> r.value == Grant(h, token).value.subject
    ensures Represents(t, if r.Some? then h + [Use(token)] else h, max, now) && |t| <= |t0|
  {
    hide Grant, Displaced, LastTouch, Without, Ordered, Holds, Complete, Has;
    WithoutMeans(t0, token, h);
    var found := Find(t0, token);
    if found.Some? {
      HoldsEntry(t0, h, max, Entry(token, found.value));
      WithoutSmaller(t0, token, Entry(token, found.value));
    } else if Live(h, token, now) && !Displaced(h, token, max) {
      LiveIsHeld(t0, h, max, last, now, token);
      HasEntry(t0, Entry(token, Grant(h, token).value));
      assert false;
    }
    if found.None? || found.value.expiresAt <= now {
      t, r := Without(t0, token), None;
      ExpiryRepresents(t0, h, max, last, now, token);
      return;
    }
    if found.value.address != address || found.value.agent != agent {
      LaterRepresents(t0, h, max, last, now);
      return t0, None;
    }
    UseRepresents(t0, h, max, last, now, Entry(token, found.value));
    t := Without(t0, token) + [Entry(token, found.value)];
    r := Some(found.value.subject);
  }

  class Broker {
    const ttl: int
    const max: nat
    var sessions: Table
    ghost var history: History
    ghost var last: int

    ghost predicate Valid()
      reads this
    {
      && ttl >= 1 && max >= 1
      && |sessions| <= max
      && Represents(sessions, history, max, last)
    }

    constructor (ttl: int, max: nat, now: int)
      requires ttl >= 1 && max >= 1
      ensures Valid() && history == [] && last == now && this.ttl == ttl && this.max == max
    {
      this.ttl, this.max := ttl, max;
      sessions, history, last := [], [], now;
    }

    /** The lock region of `exchange`; the clock was read before the lock, so
        readings are assumed not to run backwards in lock order. */
    method Exchange(token: string, prior: Option<string>, subject: string, address: string, agent: string, now: int)
      requires Valid() && now >= last
      modifies this
      ensures Valid() && last == now && |sessions| <= max
      ensures history == old(history) + [Issue(token, Record(subject, now + ttl, address, agent), prior, now)]
    {
      hide Represents;
      var e := Issue(token, Record(subject, now + ttl, address, agent), prior, now);
      sessions := Insert(sessions, e, max, history, last);
      history, last := history + [e], now;
    }

    /** The lock region of `authenticate`. */
    method Authenticate(token: string, address: string, agent: string, now: int) returns (r: Option<string>)
      requires Valid() && now >= last
      modifies this
      ensures Valid() && last == now
      ensures r.Some? <==> Accepted(old(history), token, address, agent, now, max)
      ensures r.Some? ==> r.value == Grant(old(history), token).value.subject
      ensures history == if r.Some? then old(history) + [Use(token)] else old(history)
    {
      hide Represents, Accepted, Grant;
      sessions, r := Lookup(sessions, token, address, agent, now, max, history, last);
      history, last := if r.Some? then history + [Use(token)] else history, now;
    }

    /** `_remove_token`. */
    method RemoveToken(token: string)
      requires Valid()
      modifies this
      ensures Valid() && last == old(last) && history == old(history) + [Remove(token)]
    {
      hide Represents;
      sessions := Drop(sessions, token, max, history, last);
      history := history + [Remove(token)];
    }

    /** What other callers do between two lock regions of one. */
    method Others(steps: seq<Step>)
      requires Valid() && InLockOrder(steps, last)
      modifies this
      ensures Valid() && last >= old(last)
      ensures old(history) <= history
    {
      hide Represents, Accepted, Grant;
      for i := 0 to |steps|
        invariant Valid() && last >= old(last) && old(history) <= history
        invariant InLockOrder(steps[i..], last)
      {
        assert steps[i..][1..] == steps[i + 1..];
        match steps[i] {
          case Exchanging(token, prior, subject, address, agent, now) =>
            Exchange(token, prior, subject, address, agent, now);
          case Authenticating(token, address, agent, now) =>
            var _ := Authenticate(token, address, agent, now);
          case Removing(token) =>
            RemoveToken(token);
        }
      }
    }

    /** `revoke`: the token is authenticated first, so a mismatched binding removes
        nothing; the removal is a lock region of its own, and other callers may come
        in between. The token is out then, whatever they did. */
    method Revoke(token: string, address: string, agent: string, now: int, between: seq<Step>)
      returns (ok: bool)
      requires Valid() && now >= last && InLockOrder(between, now)
      modifies this
      ensures Valid()
      ensures ok <==> Accepted(old(history), token, address, agent, now, max)
      ensures !ok ==> history == old(history)
      ensures ok ==>
                && old(history) + [Use(token)] < history
                && history[|history| - 1] == Remove(token) && Grant(history, token) == None
    {
      hide Represents, Accepted;
      var subject := Authenticate(token, address, agent, now);
      ok := subject.Some?;
      if ok {
        Others(between);
        RemoveToken(token);
        Unfold(history[..|history| - 1], Remove(token), token, max);
        assert history == history[..|history| - 1] + [Remove(token)];
      }
    }
  }

  /** A step of another caller, with the clock reading it used. */
  datatype Step =
    | Exchanging(token: string, prior: Option<string>, subject: string, address: string, agent: string, now: int)
    | Authenticating(token: string, address: string, agent: string, now: int)
    | Removing(token: string)

  /** The readings do not run backwards. */
  predicate InLockOrder(steps: seq<Step>, from: int) {
    steps == [] ||
    (if steps[0].Removing? then InLockOrder(steps[1..], from)
     else steps[0].now >= from && InLockOrder(steps[1..], steps[0].now))
  }

  method Drop(t0: Table, token: string, max: nat, ghost h: History, ghost last: int) returns (t: Table)
    requires Represents(t0, h, max, last)
    ensures Represents(t, h + [Remove(token)], max, last) && |t| <= |t0|
  {
    hide Without, Grant, Displaced, LastTouch, Holds, Complete;
    WithoutMeans(t0, token, h);
    RemoveRepresents(t0, h, max, last, token);
    t := Without(t0, token);
  }

  // ---- removed sessions ----

  /** A revoked or rotated token stays out until it is issued again. */
  lemma {:induction false} RemovedStaysOut(h: History, later: History, token: string)
    requires Grant(h, token) == None
    requires forall e :: e in later ==> !(e.Issue? && e.token == token)
    ensures Grant(h + later, token) == None
  {
    if later == [] {
      assert h + later == h;
    } else {
      var init, e := later[..|later| - 1], later[|later| - 1];
      assert h + later == (h + init) + [e];
      RemovedStaysOut(h, init, token);
      Unfold(h + init, e, token, 0);
    }
  }
}
