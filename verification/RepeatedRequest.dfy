/** The same request made twice: when the second one is served from what the first
    one wrote, with the same texts. */
module RepeatedRequest {
  import opened Options
  import opened Retention
  import opened CacheStore
  import opened Grouping
  import opened GroupOperation
  import opened BatchCache

  // ---- the first request's writes in the table ----

  /** The rows the writes become, in order. */
  function Rows(req: Request, writes: seq<CacheWrite>): seq<Write> {
    if writes == [] then []
    else
      var w := writes[|writes| - 1];
      Rows(req, writes[..|writes| - 1]) + [Write(req.keyOf(w.text, w.scope), w.translated)]
  }

  /** What the last write of a key says. */
  function LastText(rows: seq<Write>, key: Key): Option<string> {
    if rows == [] then None
    else if rows[|rows| - 1].key == key then Some(rows[|rows| - 1].text)
    else LastText(rows[..|rows| - 1], key)
  }

  lemma {:induction false} UpsertLast(t: Table, rows: seq<Write>, now: int, key: Key)
    ensures var u := Upsert(t, rows, now);
            match LastText(rows, key)
            case Some(text) => key in u && u[key].text == text && u[key].created == now
            case None => (key in u <==> key in t) && (key in t ==> u[key] == t[key])
  {
    if rows != [] {
      UpsertLast(t, rows[..|rows| - 1], now, key);
    }
  }

  lemma {:induction false} LastTextWritten(req: Request, writes: seq<CacheWrite>, key: Key)
    ensures LastText(Rows(req, writes), key).Some? <==>
            exists w :: w in writes && req.keyOf(w.text, w.scope) == key
  {
    if writes != [] {
      var init, last := writes[..|writes| - 1], writes[|writes| - 1];
      LastTextWritten(req, init, key);
      var rows := Rows(req, writes);
      assert rows[..|rows| - 1] == Rows(req, init);
      assert writes == init + [last];
    }
  }

  // ---- the second request ----

  /** The first request translated the group, every item may be stored, and one
      backend answered all of them: the one that the lookup will try. */
  ghost predicate Stored(req: Request, group: Group, contract: Contract, results: seq<Item>, serving: nat -> Backend,
                         backend: Backend)
    requires Ready(req, group, results)
  {
    && group != [] && Decision(req, group, contract).None? && backend in req.backends
    && forall i :: i in group ==> Storable(results[i]) && serving(results[i].provider.value) == backend
  }

  /** The table has only lost rows since the writes, and none of the group's. */
  ghost predicate Follows(req: Request, later: Request, group: Group, scope: Scope, writes: seq<CacheWrite>, now: int)
    requires InRange(group, |req.paragraphs|)
  {
    && later == req.(table := later.table, cutoff := later.cutoff)
    && req.cutoff <= later.cutoff <= now
    && Subtable(later.table, Upsert(req.table, Rows(req, writes), now))
    && forall i :: i in group ==> req.keyOf(req.paragraphs[i], scope) in later.table
  }

  /** The group is served from the cache, under this scope, with the first texts. */
  ghost predicate Repeats(later: Request, group: Group, contract: Contract, results: seq<Item>, scope: Scope)
    requires Ready(later, group, results)
  {
    && Decision(later, group, contract) == Some(scope)
    && forall i :: i in group ==> Find(later, later.paragraphs[i], scope) == Some(results[i].text)
  }

  /** No later write of the same key says something else, and no text reads as a
      model's reasoning. */
  ghost predicate Undisturbed(req: Request, group: Group, results: seq<Item>, scope: Scope, writes: seq<CacheWrite>)
    requires Ready(req, group, results)
  {
    forall i :: i in group ==>
      && LastText(Rows(req, writes), req.keyOf(req.paragraphs[i], scope)) == Some(results[i].text)
      && !CachedReasoning(req.paragraphs[i], results[i].text)
  }

  /** What a paragraph answers in a scope after the writes: the last text written under
      its key, or what it answered before, as long as the row is there and current. */
  function HeldAfter(req: Request, later: Request, text: string, scope: Scope, writes: seq<CacheWrite>)
    : Option<string>
  {
    var key := req.keyOf(text, scope);
    if key !in later.table then None
    else
      match LastText(Rows(req, writes), key)
      case Some(last) => if CachedReasoning(text, last) then None else Some(last)
      case None => if later.table[key].created < later.cutoff then None else Find(req, text, scope)
  }

  /** A backend that the lookup tries before this one holds the whole group by now,
      under the same contract. */
  ghost predicate Overtaken(req: Request, later: Request, group: Group, contract: Contract, backend: Backend,
                            writes: seq<CacheWrite>)
    requires InRange(group, |req.paragraphs|)
  {
    exists p: nat ::
      Sooner(req, backend, 0, p) && HoldsGroup(req, later, group, Scope(req.backends[p], contract), writes)
  }

  /** Position `p` of the lookup order comes before every position of the backend. */
  predicate Sooner(req: Request, backend: Backend, from: nat, p: nat) {
    from <= p < |req.backends| && forall q :: from <= q <= p ==> req.backends[q] != backend
  }

  ghost predicate HoldsGroup(req: Request, later: Request, group: Group, scope: Scope, writes: seq<CacheWrite>)
    requires InRange(group, |req.paragraphs|)
  {
    forall i :: i in group ==> HeldAfter(req, later, req.paragraphs[i], scope, writes).Some?
  }

  lemma FindsAfter(req: Request, later: Request, group: Group, own: Scope, writes: seq<CacheWrite>, now: int,
                   text: string, scope: Scope)
    requires InRange(group, |req.paragraphs|) && Follows(req, later, group, own, writes, now)
    ensures Find(later, text, scope) == HeldAfter(req, later, text, scope, writes)
  {
    UpsertLast(req.table, Rows(req, writes), now, req.keyOf(text, scope));
    hide CachedReasoning, Upsert, LastText, Rows;
  }

  lemma CoversEach(req: Request, group: Group, scope: Scope)
    requires InRange(group, |req.paragraphs|) && group != []
    ensures Covers(req, group, scope) <==> forall i :: i in group ==> Find(req, req.paragraphs[i], scope).Some?
  {
    hide Find;
    if Covers(req, group, scope) {
      forall i | i in group ensures Find(req, req.paragraphs[i], scope).Some? {
        var j :| 0 <= j < |group| && group[j] == i;
        assert Find(req, req.paragraphs[group[j]], scope).Some?;
      }
    }
  }

  lemma CoversAfter(req: Request, later: Request, group: Group, own: Scope, writes: seq<CacheWrite>, now: int,
                    scope: Scope)
    requires InRange(group, |req.paragraphs|) && group != [] && Follows(req, later, group, own, writes, now)
    ensures InRange(group, |later.paragraphs|)
    ensures Covers(later, group, scope) <==> HoldsGroup(req, later, group, scope, writes)
  {
    FollowsSame(req, later, group, own, writes, now);
    CoversEach(later, group, scope);
    hide Covers, Find, HeldAfter, Follows;
    forall i | i in group
      ensures Find(later, req.paragraphs[i], scope) == HeldAfter(req, later, req.paragraphs[i], scope, writes)
    {
      FindsAfter(req, later, group, own, writes, now, req.paragraphs[i], scope);
    }
  }

  lemma FollowsSame(req: Request, later: Request, group: Group, scope: Scope, writes: seq<CacheWrite>, now: int)
    requires InRange(group, |req.paragraphs|) && Follows(req, later, group, scope, writes, now)
    ensures later.paragraphs == req.paragraphs && later.backends == req.backends
  {
  }

  /** The first backend that covers is this one: it covers, and none before it does. */
  lemma {:induction false} FirstCoverIs(req: Request, group: Group, contract: Contract, backend: Backend, from: nat)
    requires InRange(group, |req.paragraphs|) && from <= |req.backends|
    requires exists q :: from <= q < |req.backends| && req.backends[q] == backend
    ensures FirstCover(req, group, contract, from) == Some(Scope(backend, contract)) <==>
            && Covers(req, group, Scope(backend, contract))
            && !exists p: nat :: Sooner(req, backend, from, p) && Covers(req, group, Scope(req.backends[p], contract))
    decreases |req.backends| - from
  {
    hide Covers;
    if req.backends[from] == backend {
      forall p: nat ensures !Sooner(req, backend, from, p) {
      }
      FirstCoverMeans(req, group, contract, from + 1);
    } else {
      FirstCoverIs(req, group, contract, backend, from + 1);
      forall p: nat ensures Sooner(req, backend, from, p) <==> p == from || Sooner(req, backend, from + 1, p) {
        SoonerNext(req, backend, from, p);
      }
      hide Sooner;
    }
  }

  lemma SoonerNext(req: Request, backend: Backend, from: nat, p: nat)
    requires from < |req.backends| && req.backends[from] != backend
    ensures Sooner(req, backend, from, p) <==> p == from || Sooner(req, backend, from + 1, p)
  {
  }

  /** The second lookup decides for the scope written exactly when that scope holds the
      group and no backend has overtaken it. */
  lemma DecidesForWriter(req: Request, later: Request, group: Group, scope: Scope, writes: seq<CacheWrite>, now: int)
    requires InRange(group, |req.paragraphs|) && group != [] && Follows(req, later, group, scope, writes, now)
    requires scope.backend in req.backends && InRange(group, |later.paragraphs|)
    ensures Decision(later, group, scope.contract) == Some(scope) <==>
            && HoldsGroup(req, later, group, scope, writes)
            && !Overtaken(req, later, group, scope.contract, scope.backend, writes)
  {
    var contract, backend := scope.contract, scope.backend;
    FollowsSame(req, later, group, scope, writes, now);
    hide Covers, HoldsGroup, Follows;
    FirstCoverIs(later, group, contract, backend, 0);
    FirstCoverMeans(later, group, contract, 0);
    FirstCoverMeans(later, group, later.single, 0);
    CoversAfter(req, later, group, scope, writes, now, scope);
    assert scope == Scope(backend, contract);
    forall p | 0 <= p < |req.backends|
      ensures Covers(later, group, Scope(req.backends[p], contract)) <==>
              HoldsGroup(req, later, group, Scope(req.backends[p], contract), writes)
    {
      CoversAfter(req, later, group, scope, writes, now, Scope(req.backends[p], contract));
    }
    hide FirstCover;
  }

  /** Keys of different scopes differ. */
  ghost predicate ScopesApart(req: Request) {
    forall a, s, b, t :: req.keyOf(a, s) == req.keyOf(b, t) ==> s == t
  }

  /** Under this contract nobody but the backend wrote. */
  predicate OneBackend(writes: seq<CacheWrite>, contract: Contract, backend: Backend) {
    forall w :: w in writes && w.scope.contract == contract ==> w.scope.backend == backend
  }

  /** A group that was missing is not overtaken when only one backend wrote under its
      contract, as holds for every group of several paragraphs: its contract names them. */
  lemma SoleWriter(req: Request, later: Request, group: Group, scope: Scope, writes: seq<CacheWrite>, now: int)
    requires InRange(group, |req.paragraphs|) && group != [] && Follows(req, later, group, scope, writes, now)
    requires Decision(req, group, scope.contract).None? && ScopesApart(req)
    requires OneBackend(writes, scope.contract, scope.backend)
    ensures !Overtaken(req, later, group, scope.contract, scope.backend, writes)
  {
    DecisionMeans(req, group, scope.contract);
    forall p: nat | Sooner(req, scope.backend, 0, p)
      ensures !HoldsGroup(req, later, group, Scope(req.backends[p], scope.contract), writes)
    {
      var other := Scope(req.backends[p], scope.contract);
      HoldsNoMore(req, later, group, other, writes);
      assert Offered(req, other, scope.contract);
    }
    hide HoldsGroup;
  }

  /** A scope nobody wrote to holds no more than it did. */
  lemma HoldsNoMore(req: Request, later: Request, group: Group, other: Scope, writes: seq<CacheWrite>)
    requires InRange(group, |req.paragraphs|) && group != [] && ScopesApart(req)
    requires forall w :: w in writes ==> w.scope != other
    ensures HoldsGroup(req, later, group, other, writes) ==> Covers(req, group, other)
  {
    CoversEach(req, group, other);
    hide CachedReasoning, LastText, Rows, Find, Covers;
    forall i | i in group
      ensures HeldAfter(req, later, req.paragraphs[i], other, writes).Some? ==>
              Find(req, req.paragraphs[i], other).Some?
    {
      LastTextWritten(req, writes, req.keyOf(req.paragraphs[i], other));
    }
  }

  /** Each paragraph of the group is among the writes, under the group's scope. */
  lemma GroupIsWritten(req: Request, groups: seq<Group>, contracts: seq<Contract>, results: seq<Item>,
                       serving: nat -> Backend, backend: Backend, g: nat, i: nat)
    requires Sized(req, groups, contracts, results) && g < |groups| && i in groups[g]
    requires Ready(req, groups[g], results)
    requires Stored(req, groups[g], contracts[g], results, serving, backend)
    ensures i < |req.paragraphs|
    ensures CacheWrite(req.paragraphs[i], results[i].text, Scope(backend, contracts[g]))
            in AllWrites(req, groups, contracts, results, serving, |groups|)
  {
    hide AllWrites, Decision;
    var w := WriteOf(req.paragraphs[i], results[i], contracts[g], serving);
    AllWritesMeans(req, groups, contracts, results, serving, |groups|, w);
    assert Justified(w, req, groups[g], contracts[g], results, serving);
  }

  /** The same request again: a group that the first one translated and stored is
      served from the cache, under the same scope and with the same texts, if and
      only if no later write of the first request put another text under one of its
      keys, as happens when one paragraph occurs twice with two translations, none of
      its texts reads as reasoning, and no backend tried earlier holds the group now. */
  lemma SecondRequest(req: Request, later: Request, groups: seq<Group>, contracts: seq<Contract>, results: seq<Item>,
                      serving: nat -> Backend, backend: Backend, g: nat, now: int)
    requires Sized(req, groups, contracts, results) && g < |groups|
    requires Ready(req, groups[g], results) && Ready(later, groups[g], results)
    requires Stored(req, groups[g], contracts[g], results, serving, backend)
    requires Follows(req, later, groups[g], Scope(backend, contracts[g]),
                     AllWrites(req, groups, contracts, results, serving, |groups|), now)
    ensures var writes := AllWrites(req, groups, contracts, results, serving, |groups|);
            Repeats(later, groups[g], contracts[g], results, Scope(backend, contracts[g])) <==>
            && Undisturbed(req, groups[g], results, Scope(backend, contracts[g]), writes)
            && !Overtaken(req, later, groups[g], contracts[g], backend, writes)
  {
    hide AllWrites, Decision, Covers, CachedReasoning, LastText, Rows, Follows, Find, HoldsGroup, Overtaken;
    var group, scope := groups[g], Scope(backend, contracts[g]);
    var writes := AllWrites(req, groups, contracts, results, serving, |groups|);
    forall i | i in group
      ensures var last := LastText(Rows(req, writes), req.keyOf(req.paragraphs[i], scope));
              && last.Some?
              && Find(later, req.paragraphs[i], scope) ==
                 if CachedReasoning(req.paragraphs[i], last.value) then None else last
    {
      GroupIsWritten(req, groups, contracts, results, serving, backend, g, i);
      FindsLast(req, later, group, scope, writes, now, i);
    }
    FollowsSame(req, later, group, scope, writes, now);
    DecidesForWriter(req, later, group, scope, writes, now);
    CoversAfter(req, later, group, scope, writes, now, scope);
    CoversEach(later, group, scope);
  }

  /** What a paragraph of the group then answers is what was written last. */
  lemma FindsLast(req: Request, later: Request, group: Group, scope: Scope, writes: seq<CacheWrite>, now: int, i: nat)
    requires InRange(group, |req.paragraphs|) && i in group
    requires Follows(req, later, group, scope, writes, now)
    requires exists w :: w in writes && req.keyOf(w.text, w.scope) == req.keyOf(req.paragraphs[i], scope)
    ensures var last := LastText(Rows(req, writes), req.keyOf(req.paragraphs[i], scope));
            && last.Some? && i < |req.paragraphs|
            && Find(later, req.paragraphs[i], scope) ==
               if CachedReasoning(req.paragraphs[i], last.value) then None else last
  {
    LastTextWritten(req, writes, req.keyOf(req.paragraphs[i], scope));
    FindsAfter(req, later, group, scope, writes, now, req.paragraphs[i], scope);
    hide CachedReasoning, Upsert, LastText, Rows, Find;
  }

  /** In particular, one paragraph with two translations does not repeat. */
  lemma TwoTranslations(req: Request, later: Request, groups: seq<Group>, contracts: seq<Contract>, results: seq<Item>,
                        serving: nat -> Backend, backend: Backend, g: nat, now: int, i: nat, j: nat)
    requires Sized(req, groups, contracts, results) && g < |groups|
    requires Ready(req, groups[g], results) && Ready(later, groups[g], results)
    requires Stored(req, groups[g], contracts[g], results, serving, backend)
    requires Follows(req, later, groups[g], Scope(backend, contracts[g]),
                     AllWrites(req, groups, contracts, results, serving, |groups|), now)
    requires i in groups[g] && j in groups[g] && i < |results| && j < |results|
    requires req.paragraphs[i] == req.paragraphs[j] && results[i].text != results[j].text
    ensures !Repeats(later, groups[g], contracts[g], results, Scope(backend, contracts[g]))
  {
    hide AllWrites, Decision, LastText, Rows, Follows, CachedReasoning, Stored, Overtaken;
    SecondRequest(req, later, groups, contracts, results, serving, backend, g, now);
  }

  /** What the second request then serves. */
  lemma ServedAgain(later: Request, group: Group, contract: Contract, first: seq<Item>, scope: Scope,
                    slots: seq<Slot>, results: seq<Item>)
    requires Ready(later, group, first) && |slots| == |results| == |later.paragraphs|
    requires Repeats(later, group, contract, first, scope)
    requires Holds(slots, later, group, contract, results, Done)
    ensures forall i :: i in group ==> i < |slots| && slots[i] == FromCache(first[i].text, scope)
  {
    hide Decision, Covers, Find;
    forall i | i in group ensures i < |slots| && slots[i] == FromCache(first[i].text, scope) {
      var j :| 0 <= j < |group| && group[j] == i;
      assert slots[group[j]] == CachedSlot(later, group[j], scope);
    }
  }
}
