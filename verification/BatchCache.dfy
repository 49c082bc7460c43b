/** Serving the paragraphs of one request: a group comes from the cache as a whole,
    under one backend and one contract, or it is translated again as a whole. */
module BatchCache {
  import opened Options
  import opened Collections
  import opened Text
  import opened Retention
  import opened CacheStore
  import opened Grouping
  import opened GroupOperation
  import opened Scheduler
  import opened WorkBudget

  datatype Backend = Backend(provider: string, model: string)

  /** The context, prompt and protocol hashes a translation was made under. */
  datatype Contract = Contract(context: string, prompt: string, protocol: string)

  datatype Scope = Scope(backend: Backend, contract: Contract)

  /** What stays fixed during a request: the paragraphs, the table and clock cutoff
      the probes see, the key of a text in a scope, the backends in lookup order
      and the contract of single-paragraph translations. */
  datatype Request = Request(paragraphs: seq<string>, table: Table, cutoff: int, keyOf: (string, Scope) -> Key,
                             backends: seq<Backend>, single: Contract)

  function ProbeOf(req: Request, text: string, scope: Scope): Probe {
    Probe(text, req.keyOf(text, scope))
  }

  /** What `get` answers for one text in one scope. */
  function Find(req: Request, text: string, scope: Scope): Option<string> {
    Answer(req.table, ProbeOf(req, text, scope), req.cutoff)
  }

  /** Every paragraph of the group is in the cache in this scope. */
  predicate Covers(req: Request, group: Group, scope: Scope)
    requires InRange(group, |req.paragraphs|)
  {
    group != [] && forall j :: 0 <= j < |group| ==> Find(req, req.paragraphs[group[j]], scope).Some?
  }

  /** The first backend, in lookup order, that has the whole group. */
  function FirstCover(req: Request, group: Group, contract: Contract, from: nat): Option<Scope>
    requires InRange(group, |req.paragraphs|) && from <= |req.backends|
    decreases |req.backends| - from
  {
    if from == |req.backends| then None
    else if Covers(req, group, Scope(req.backends[from], contract)) then Some(Scope(req.backends[from], contract))
    else FirstCover(req, group, contract, from + 1)
  }

  /** The group's own contract comes first, then the single-paragraph one. */
  function Decision(req: Request, group: Group, contract: Contract): Option<Scope>
    requires InRange(group, |req.paragraphs|)
  {
    var own := FirstCover(req, group, contract, 0);
    if own.Some? then own else FirstCover(req, group, req.single, 0)
  }

  predicate Offered(req: Request, scope: Scope, contract: Contract) {
    scope.backend in req.backends && (scope.contract == contract || scope.contract == req.single)
  }

  lemma {:induction false} FirstCoverMeans(req: Request, group: Group, contract: Contract, from: nat)
    requires InRange(group, |req.paragraphs|) && from <= |req.backends|
    ensures var d := FirstCover(req, group, contract, from);
            && (d.Some? ==>
                  Covers(req, group, d.value) && d.value.backend in req.backends && d.value.contract == contract)
            && (d.None? ==>
                  forall b :: from <= b < |req.backends| ==> !Covers(req, group, Scope(req.backends[b], contract)))
            && (d.Some? ==>
                  exists b ::
                    && from <= b < |req.backends| && req.backends[b] == d.value.backend
                    && forall b' :: from <= b' < b ==> !Covers(req, group, Scope(req.backends[b'], contract)))
    decreases |req.backends| - from
  {
    hide Covers;
    if from < |req.backends| {
      FirstCoverMeans(req, group, contract, from + 1);
    }
  }

  /** Every paragraph of the group has a usable row under this backend and contract. */
  lemma CoversMeans(req: Request, group: Group, scope: Scope)
    requires InRange(group, |req.paragraphs|)
    ensures Covers(req, group, scope) <==>
            && group != []
            && forall i :: i in group ==>
                 Answer(req.table, Probe(req.paragraphs[i], req.keyOf(req.paragraphs[i], scope)), req.cutoff).Some?
  {
    hide Answer;
    if Covers(req, group, scope) {
      forall i | i in group
        ensures Answer(req.table, Probe(req.paragraphs[i], req.keyOf(req.paragraphs[i], scope)), req.cutoff).Some?
      {
        var j :| 0 <= j < |group| && group[j] == i;
        assert Find(req, req.paragraphs[group[j]], scope).Some?;
      }
    }
  }

  /** A group is served from the cache exactly when some backend has all of it under
      one of the two contracts: the first backend in order, under the group's own
      contract if any has it there. */
  lemma DecisionMeans(req: Request, group: Group, contract: Contract)
    requires InRange(group, |req.paragraphs|)
    ensures var d := Decision(req, group, contract);
            && (d.Some? ==> Covers(req, group, d.value) && Offered(req, d.value, contract))
            && (d.None? ==> forall scope :: Offered(req, scope, contract) ==> !Covers(req, group, scope))
    ensures Decision(req, group, contract).None? <==>
            forall backend :: backend in req.backends ==>
              && !Covers(req, group, Scope(backend, contract))
              && !Covers(req, group, Scope(backend, req.single))
    ensures Decision(req, group, contract).Some? ==>
              var d := Decision(req, group, contract).value;
              && Covers(req, group, d)
              && (exists b ::
                    && 0 <= b < |req.backends| && req.backends[b] == d.backend
                    && forall b' :: 0 <= b' < b ==> !Covers(req, group, Scope(req.backends[b'], d.contract)))
              && (d.contract == contract
                  || (d.contract == req.single
                      && forall b :: 0 <= b < |req.backends| ==> !Covers(req, group, Scope(req.backends[b], contract))))
  {
    hide Covers, FirstCover;
    FirstCoverMeans(req, group, contract, 0);
    FirstCoverMeans(req, group, req.single, 0);
    if Decision(req, group, contract).None? {
      forall scope | Offered(req, scope, contract) ensures !Covers(req, group, scope) {
        var b :| 0 <= b < |req.backends| && req.backends[b] == scope.backend;
        assert scope == Scope(req.backends[b], scope.contract);
      }
      forall backend | backend in req.backends
        ensures !Covers(req, group, Scope(backend, contract)) && !Covers(req, group, Scope(backend, req.single))
      {
        assert Offered(req, Scope(backend, contract), contract) && Offered(req, Scope(backend, req.single), contract);
      }
    }
  }

  // ---- the memoised probe ----

  datatype MemoKey = MemoKey(text: string, scope: Scope)

  type Memo = map<MemoKey, Option<string>>

  /** The memo never disagrees with the cache. */
  predicate MemoOk(req: Request, memo: Memo) {
    forall k :: k in memo ==> memo[k] == Find(req, k.text, k.scope)
  }

  /** `_probe_many`: known answers from the memo, the others in one batch. */
  method ProbeMany(req: Request, group: Group, scope: Scope, memo0: Memo)
    returns (hits: seq<Option<string>>, memo: Memo)
    requires InRange(group, |req.paragraphs|) && MemoOk(req, memo0)
    ensures MemoOk(req, memo) && |hits| == |group|
    ensures forall j :: 0 <= j < |group| ==> hits[j] == Find(req, req.paragraphs[group[j]], scope)
  {
    hide Answer, Answers;
    memo := memo0;
    var missing: seq<string> := [];
    for j := 0 to |group|
      invariant forall i :: 0 <= i < j ==>
                  MemoKey(req.paragraphs[group[i]], scope) in memo || req.paragraphs[group[i]] in missing
    {
      if MemoKey(req.paragraphs[group[j]], scope) !in memo {
        missing := missing + [req.paragraphs[group[j]]];
      }
    }
    memo := Fetch(req, missing, scope, memo);
    hits := [];
    for j := 0 to |group|
      invariant |hits| == j
      invariant forall i :: 0 <= i < j ==> hits[i] == Find(req, req.paragraphs[group[i]], scope)
    {
      hits := hits + [memo[MemoKey(req.paragraphs[group[j]], scope)]];
    }
  }

  /** One `get_many` for the texts not yet known. */
  method Fetch(req: Request, texts: seq<string>, scope: Scope, memo0: Memo) returns (memo: Memo)
    requires MemoOk(req, memo0)
    ensures MemoOk(req, memo) && memo0.Keys <= memo.Keys
    ensures forall text :: text in texts ==> MemoKey(text, scope) in memo
  {
    hide Answer, Answers;
    memo := memo0;
    if texts == [] { return; }
    var probes := seq(|texts|, i requires 0 <= i < |texts| => ProbeOf(req, texts[i], scope));
    var found := Answers(req.table, probes, req.cutoff);
    for i := 0 to |texts|
      invariant MemoOk(req, memo) && memo0.Keys <= memo.Keys
      invariant forall k :: 0 <= k < i ==> MemoKey(texts[k], scope) in memo
    {
      AnswersAt(req.table, probes, req.cutoff, i);
      memo := memo[MemoKey(texts[i], scope) := found[i]];
    }
  }

  /** `_accept` over the backends of one contract. */
  method TryContract(req: Request, group: Group, contract: Contract, memo0: Memo)
    returns (scope: Option<Scope>, memo: Memo)
    requires InRange(group, |req.paragraphs|) && MemoOk(req, memo0)
    ensures MemoOk(req, memo) && scope == FirstCover(req, group, contract, 0)
  {
    hide Find, MemoOk;
    memo := memo0;
    for b := 0 to |req.backends|
      invariant MemoOk(req, memo)
      invariant FirstCover(req, group, contract, 0) == FirstCover(req, group, contract, b)
    {
      var offer := Scope(req.backends[b], contract);
      var hits;
      hits, memo := ProbeMany(req, group, offer, memo);
      if group != [] && AllFound(hits) {
        return Some(offer), memo;
      }
    }
    return None, memo;
  }

  predicate AllFound(hits: seq<Option<string>>) {
    forall j :: 0 <= j < |hits| ==> hits[j].Some?
  }

  method Decide(req: Request, group: Group, contract: Contract, memo0: Memo) returns (d: Option<Scope>, memo: Memo)
    requires InRange(group, |req.paragraphs|) && MemoOk(req, memo0)
    ensures MemoOk(req, memo) && d == Decision(req, group, contract)
  {
    hide MemoOk, FirstCover;
    d, memo := TryContract(req, group, contract, memo0);
    if d.None? {
      d, memo := TryContract(req, group, req.single, memo);
    }
  }

  // ---- slots and counts ----

  datatype Slot = Blank | FromCache(text: string, scope: Scope) | Fresh(item: Item)

  datatype Kind = Missing | Cached | Translated | Errored

  const ERROR_MARK := "[TRANSLATION ERROR:"

  predicate IsError(item: Item) {
    ERROR_MARK <= item.text
  }

  /** What stands for a failed paragraph always carries the mark, and is never cached. */
  lemma ErrorsAreMarked(rateLimited: bool, path: Path)
    ensures ErrorItem(rateLimited, path).text ==
            if rateLimited then "[TRANSLATION ERROR: provider_rate_limited]"
            else "[TRANSLATION ERROR: provider_unavailable]"
    ensures "[TRANSLATION ERROR:" <= ErrorItem(rateLimited, path).text
    ensures "[TRANSLATION ERROR:" <= MISSING_SLOT.text
    ensures IsError(ErrorItem(rateLimited, path)) && IsError(MISSING_SLOT)
    ensures !ErrorItem(rateLimited, path).cacheable && !MISSING_SLOT.cacheable
  {
    MarkedTexts();
    hide *;
    ErrorTexts(rateLimited, path);
  }

  lemma ErrorTexts(rateLimited: bool, path: Path)
    ensures MISSING_SLOT == Item("[TRANSLATION ERROR: missing segment]", None, false, Failed)
    ensures forall item :: IsError(item) <==> "[TRANSLATION ERROR:" <= item.text
    ensures ErrorItem(rateLimited, path) ==
            Item(if rateLimited then "[TRANSLATION ERROR: provider_rate_limited]"
                 else "[TRANSLATION ERROR: provider_unavailable]", None, false, path)
  {
  }

  lemma MarkedTexts()
    ensures "[TRANSLATION ERROR:" <= "[TRANSLATION ERROR: provider_rate_limited]"
    ensures "[TRANSLATION ERROR:" <= "[TRANSLATION ERROR: provider_unavailable]"
    ensures "[TRANSLATION ERROR:" <= "[TRANSLATION ERROR: missing segment]"
  {
    assert "[TRANSLATION ERROR: provider_rate_limited]"[..19] == "[TRANSLATION ERROR:";
    assert "[TRANSLATION ERROR: provider_unavailable]"[..19] == "[TRANSLATION ERROR:";
    assert "[TRANSLATION ERROR: missing segment]"[..19] == "[TRANSLATION ERROR:";
  }

  function KindOf(slot: Slot): Kind {
    match slot
    case Blank => Missing
    case FromCache(_, _) => Cached
    case Fresh(item) => if IsError(item) then Errored else Translated
  }

  function Count(slots: seq<Slot>, kind: Kind): nat {
    if slots == [] then 0
    else Count(slots[..|slots| - 1], kind) + (if KindOf(slots[|slots| - 1]) == kind then 1 else 0)
  }

  lemma CountSnoc(slots: seq<Slot>, slot: Slot, kind: Kind)
    ensures Count(slots + [slot], kind) == Count(slots, kind) + (if KindOf(slot) == kind then 1 else 0)
  {
    assert (slots + [slot])[..|slots|] == slots;
  }

  /** Filling a blank slot adds one to its kind's count and takes one blank. */
  lemma {:induction false} CountUpdate(slots: seq<Slot>, i: nat, slot: Slot, kind: Kind)
    requires i < |slots| && slots[i] == Blank && KindOf(slot) != Missing && kind != Missing
    ensures Count(slots[i := slot], kind) == Count(slots, kind) + (if KindOf(slot) == kind then 1 else 0)
  {
    hide KindOf;
    var last := |slots| - 1;
    var updated := slots[i := slot];
    if i == last {
      assert updated[..last] == slots[..last];
      assert KindOf(Blank) == Missing by { BlankIsMissing(); }
    } else {
      CountUpdate(slots[..last], i, slot, kind);
      assert updated[..last] == slots[..last][i := slot];
    }
  }

  lemma BlankIsMissing()
    ensures KindOf(Blank) == Missing
  {
  }

  /** The counts of the three kinds are the number of paragraphs with text, once
      exactly those have been served. */
  lemma {:induction false} CountsAddUp(slots: seq<Slot>, paragraphs: seq<string>)
    requires |slots| == |paragraphs|
    requires forall i :: 0 <= i < |slots| ==> (slots[i] == Blank <==> !HasText(paragraphs[i]))
    ensures Count(slots, Cached) + Count(slots, Translated) + Count(slots, Errored) == |Work(paragraphs)|
  {
    hide HasText, IsError;
    if slots != [] {
      var last := |slots| - 1;
      CountsAddUp(slots[..last], paragraphs[..last]);
    }
  }

  /** Writing a group's slots, all of them blank before. */
  method WriteGroupSlots(slots0: seq<Slot>, group: Group, values: seq<Slot>) returns (slots: seq<Slot>)
    requires |values| == |group| && InRange(group, |slots0|)
    requires forall i, j :: 0 <= i < j < |group| ==> group[i] != group[j]
    requires forall j :: 0 <= j < |group| ==> slots0[group[j]] == Blank && KindOf(values[j]) != Missing
    ensures |slots| == |slots0|
    ensures forall j :: 0 <= j < |group| ==> slots[group[j]] == values[j]
    ensures forall i :: 0 <= i < |slots| && i !in group ==> slots[i] == slots0[i]
    ensures forall kind :: kind != Missing ==> Count(slots, kind) == Count(slots0, kind) + Count(values, kind)
  {
    hide Count, KindOf;
    slots := slots0;
    CountNone();
    assert values[..0] == [];
    for j := 0 to |group|
      invariant |slots| == |slots0|
      invariant forall i :: 0 <= i < j ==> slots[group[i]] == values[i]
      invariant forall i :: 0 <= i < |slots| && i !in group[..j] ==> slots[i] == slots0[i]
      invariant forall kind :: kind != Missing ==> Count(slots, kind) == Count(slots0, kind) + Count(values[..j], kind)
    {
      assert group[..j + 1] == group[..j] + [group[j]];
      assert values[..j + 1] == values[..j] + [values[j]];
      assert group[j] !in group[..j];
      forall kind | kind != Missing
        ensures Count(slots[group[j] := values[j]], kind) == Count(slots0, kind) + Count(values[..j + 1], kind)
      {
        CountUpdate(slots, group[j], values[j], kind);
        CountSnoc(values[..j], values[j], kind);
      }
      slots := slots[group[j] := values[j]];
    }
    assert values[..|group|] == values && group[..|group|] == group;
  }

  lemma CountNone()
    ensures forall kind :: Count([], kind) == 0
  {
  }

  // ---- what is written back ----

  datatype CacheWrite = CacheWrite(text: string, translated: string, scope: Scope)

  /** Fresh, without an error mark, and vouched for by the translator. */
  predicate Storable(item: Item) {
    !IsError(item) && item.cacheable && item.provider.Some?
  }

  /** The write goes under the group's own contract and the backend that answered. */
  function WriteOf(text: string, item: Item, contract: Contract, serving: nat -> Backend): CacheWrite
    requires item.provider.Some?
  {
    CacheWrite(text, item.text, Scope(serving(item.provider.value), contract))
  }

  predicate Ready(req: Request, group: Group, results: seq<Item>) {
    InRange(group, |req.paragraphs|) && |results| == |req.paragraphs|
  }

  function WritesOf(req: Request, group: Group, contract: Contract, results: seq<Item>, serving: nat -> Backend)
    : seq<CacheWrite>
    requires Ready(req, group, results)
  {
    if group == [] then []
    else
      var i := group[|group| - 1];
      WritesOf(req, group[..|group| - 1], contract, results, serving)
      + (if Storable(results[i]) then [WriteOf(req.paragraphs[i], results[i], contract, serving)] else [])
  }

  lemma {:induction false} WritesOfMeans(req: Request, group: Group, contract: Contract, results: seq<Item>,
                                         serving: nat -> Backend, w: CacheWrite)
    requires Ready(req, group, results)
    ensures w in WritesOf(req, group, contract, results, serving) <==>
            exists i :: i in group && Storable(results[i])
                        && w == WriteOf(req.paragraphs[i], results[i], contract, serving)
  {
    hide Storable, WriteOf;
    if group != [] {
      var init, i := group[..|group| - 1], group[|group| - 1];
      WritesOfMeans(req, init, contract, results, serving, w);
      assert group == init + [i];
    }
  }

  /** One missing group's items: slots, fresh count and writes (server.py 1157-1183). */
  method TakeFresh(req: Request, group: Group, contract: Contract, results: seq<Item>, serving: nat -> Backend)
    returns (values: seq<Slot>, freshCount: nat, writes: seq<CacheWrite>)
    requires Ready(req, group, results)
    requires NamesProviders(results)
    ensures |values| == |group| && forall j :: 0 <= j < |group| ==> values[j] == Fresh(results[group[j]])
    ensures freshCount == Count(values, Translated)
    ensures writes == WritesOf(req, group, contract, results, serving)
  {
    values, freshCount, writes := [], 0, [];
    assert group[..0] == [];
    hide Count, IsError;
    CountNone();
    for j := 0 to |group|
      invariant |values| == j && forall i :: 0 <= i < j ==> values[i] == Fresh(results[group[i]])
      invariant freshCount == Count(values, Translated)
      invariant writes == WritesOf(req, group[..j], contract, results, serving)
    {
      var item := results[group[j]];
      assert group[..j + 1] == group[..j] + [group[j]];
      assert group[..j + 1][..j] == group[..j];
      CountSnoc(values, Fresh(item), Translated);
      values := values + [Fresh(item)];
      if !IsError(item) {
        freshCount := freshCount + 1;
        if item.cacheable {
          writes := writes + [WriteOf(req.paragraphs[group[j]], item, contract, serving)];
        }
      }
    }
    assert group[..|group|] == group;
  }

  /** One accepted group's slots. */
  method TakeCached(req: Request, group: Group, scope: Scope) returns (values: seq<Slot>)
    requires InRange(group, |req.paragraphs|) && Covers(req, group, scope)
    ensures |values| == |group| && forall j :: 0 <= j < |group| ==> values[j] == CachedSlot(req, group[j], scope)
    ensures Count(values, Cached) == |group| && Count(values, Translated) == 0 && Count(values, Errored) == 0
  {
    hide Count, Find;
    values := [];
    CountNone();
    for j := 0 to |group|
      invariant |values| == j && forall i :: 0 <= i < j ==> values[i] == CachedSlot(req, group[i], scope)
      invariant Count(values, Cached) == j && Count(values, Translated) == 0 && Count(values, Errored) == 0
    {
      var slot := CachedSlot(req, group[j], scope);
      CountSnoc(values, slot, Cached);
      CountSnoc(values, slot, Translated);
      CountSnoc(values, slot, Errored);
      values := values + [slot];
    }
  }

  function CachedSlot(req: Request, i: nat, scope: Scope): Slot
    requires i < |req.paragraphs| && Find(req, req.paragraphs[i], scope).Some?
  {
    FromCache(Find(req, req.paragraphs[i], scope).value, scope)
  }

  // ---- the whole request ----

  datatype Stage = Untouched | LookedUp | Done

  /** What a group's slots hold at a stage of the request. */
  ghost predicate Holds(slots: seq<Slot>, req: Request, group: Group, contract: Contract, results: seq<Item>,
                        stage: Stage)
    requires InRange(group, |req.paragraphs|) && |slots| == |results| == |req.paragraphs|
  {
    var d := Decision(req, group, contract);
    if stage == Untouched || (stage == LookedUp && d.None?) then
      forall j :: 0 <= j < |group| ==> slots[group[j]] == Blank
    else if d.Some? then
      Covers(req, group, d.value)
      && forall j :: 0 <= j < |group| ==> slots[group[j]] == CachedSlot(req, group[j], d.value)
    else
      forall j :: 0 <= j < |group| ==> slots[group[j]] == Fresh(results[group[j]])
  }

  lemma HoldsSame(a: seq<Slot>, b: seq<Slot>, req: Request, group: Group, contract: Contract, results: seq<Item>,
                  stage: Stage)
    requires InRange(group, |req.paragraphs|) && |a| == |b| == |results| == |req.paragraphs|
    requires Holds(a, req, group, contract, results, stage)
    requires forall j :: 0 <= j < |group| ==> b[group[j]] == a[group[j]]
    ensures Holds(b, req, group, contract, results, stage)
  {
    hide Decision, Covers, Find;
  }

  /** The groups of one request and their contracts, with every paragraph that has
      text in exactly one place. */
  ghost predicate Planned(req: Request, groups: seq<Group>, contracts: seq<Contract>) {
    && |contracts| == |groups|
    && Disjoint(groups, |req.paragraphs|)
    && (forall i :: 0 <= i < |req.paragraphs| ==> (HasText(req.paragraphs[i]) <==> Grouped(groups, i)))
  }

  predicate Grouped(groups: seq<Group>, i: nat) {
    exists g :: 0 <= g < |groups| && i in groups[g]
  }

  /** Slots outside every group stay blank; each group is at its stage. */
  ghost predicate AtStage(slots: seq<Slot>, req: Request, groups: seq<Group>, contracts: seq<Contract>,
                          results: seq<Item>, k: nat, before: Stage, after: Stage)
    requires |contracts| == |groups| && |results| == |req.paragraphs|
  {
    && |slots| == |req.paragraphs|
    && (forall g :: 0 <= g < |groups| ==> InRange(groups[g], |req.paragraphs|))
    && (forall g :: 0 <= g < |groups| ==>
          Holds(slots, req, groups[g], contracts[g], results, if g < k then after else before))
    && (forall i :: 0 <= i < |slots| && !Grouped(groups, i) ==> slots[i] == Blank)
  }

  /** Writing one group leaves the others at their stage. */
  lemma GroupAdvances(a: seq<Slot>, b: seq<Slot>, req: Request, groups: seq<Group>, contracts: seq<Contract>,
                      results: seq<Item>, k: nat, before: Stage, after: Stage)
    requires Planned(req, groups, contracts) && |results| == |req.paragraphs|
    requires AtStage(a, req, groups, contracts, results, k, before, after) && k < |groups| && |b| == |a|
    requires Holds(b, req, groups[k], contracts[k], results, after)
    requires forall i :: 0 <= i < |b| && i !in groups[k] ==> b[i] == a[i]
    ensures AtStage(b, req, groups, contracts, results, k + 1, before, after)
  {
    hide Holds, HasText;
    forall g | 0 <= g < |groups|
      ensures Holds(b, req, groups[g], contracts[g], results, if g < k + 1 then after else before)
    {
      if g != k {
        forall j | 0 <= j < |groups[g]| ensures b[groups[g][j]] == a[groups[g][j]] {
          assert groups[g][j] !in groups[k];
        }
        HoldsSame(a, b, req, groups[g], contracts[g], results, if g < k then after else before);
      }
    }
  }

  lemma {:induction false} CountBlank(n: nat, kind: Kind)
    requires kind != Missing
    ensures Count(seq(n, _ => Blank), kind) == 0
  {
    if n > 0 {
      CountBlank(n - 1, kind);
      assert seq(n, _ => Blank)[..n - 1] == seq(n - 1, _ => Blank);
    }
  }

  lemma GroupPositions(req: Request, groups: seq<Group>, contracts: seq<Contract>, g: nat)
    requires Planned(req, groups, contracts) && g < |groups|
    ensures InRange(groups[g], |req.paragraphs|)
    ensures forall i, j :: 0 <= i < j < |groups[g]| ==> groups[g][i] != groups[g][j]
  {
    hide HasText;
  }

  ghost predicate Counts(slots: seq<Slot>, cached: nat, translated: nat) {
    Count(slots, Cached) == cached && Count(slots, Translated) == translated
  }

  /** A group found in the cache is written whole; its slots were blank. */
  method ServeCached(req: Request, groups: seq<Group>, contracts: seq<Contract>, slots0: seq<Slot>, g: nat,
                     scope: Scope, ghost results: seq<Item>)
    returns (slots: seq<Slot>)
    requires Planned(req, groups, contracts) && |results| == |req.paragraphs| && g < |groups|
    requires AtStage(slots0, req, groups, contracts, results, g, Untouched, LookedUp)
    requires Decision(req, groups[g], contracts[g]) == Some(scope)
    ensures AtStage(slots, req, groups, contracts, results, g + 1, Untouched, LookedUp)
    ensures Count(slots, Cached) == Count(slots0, Cached) + |groups[g]|
    ensures Count(slots, Translated) == Count(slots0, Translated)
  {
    hide Count, Decision, Disjoint, HasText, Covers, Find;
    GroupPositions(req, groups, contracts, g);
    DecisionMeans(req, groups[g], contracts[g]);
    var values := TakeCached(req, groups[g], scope);
    assert Holds(slots0, req, groups[g], contracts[g], results, Untouched);
    slots := WriteGroupSlots(slots0, groups[g], values);
    assert Holds(slots, req, groups[g], contracts[g], results, LookedUp);
    hide Holds, Planned, AtStage;
    GroupAdvances(slots0, slots, req, groups, contracts, results, g, Untouched, LookedUp);
  }

  /** The keys under which an accepted group's hits are recorded. */
  function HitsOf(req: Request, group: Group, scope: Scope): seq<Key>
    requires InRange(group, |req.paragraphs|)
  {
    seq(|group|, j requires 0 <= j < |group| => req.keyOf(req.paragraphs[group[j]], scope))
  }

  /** The hits of the first `k` groups, in order. */
  function AllHits(req: Request, groups: seq<Group>, contracts: seq<Contract>, k: nat): seq<Key>
    requires k <= |groups| == |contracts|
    requires forall g :: 0 <= g < |groups| ==> InRange(groups[g], |req.paragraphs|)
  {
    if k == 0 then []
    else
      var d := Decision(req, groups[k - 1], contracts[k - 1]);
      AllHits(req, groups, contracts, k - 1) + (if d.Some? then HitsOf(req, groups[k - 1], d.value) else [])
  }

  /** Where the lookup stands after `k` groups. */
  ghost predicate LookedUpTo(slots: seq<Slot>, served: seq<Option<Scope>>, cachedCount: nat, hits: seq<Key>,
                             req: Request, groups: seq<Group>, contracts: seq<Contract>, results: seq<Item>, k: nat)
    requires Sized(req, groups, contracts, results)
  {
    && |served| == k <= |groups|
    && AtStage(slots, req, groups, contracts, results, k, Untouched, LookedUp)
    && (forall g :: 0 <= g < k ==> served[g] == Decision(req, groups[g], contracts[g]))
    && Counts(slots, cachedCount, 0) && |hits| == cachedCount
    && hits == AllHits(req, groups, contracts, k)
  }

  /** The lookup loop (server.py 1102-1137). */
  method LookupGroups(req: Request, groups: seq<Group>, contracts: seq<Contract>, ghost results: seq<Item>)
    returns (slots: seq<Slot>, served: seq<Option<Scope>>, cachedCount: nat, hits: seq<Key>)
    requires Planned(req, groups, contracts) && Sized(req, groups, contracts, results)
    ensures LookedUpTo(slots, served, cachedCount, hits, req, groups, contracts, results, |groups|)
  {
    slots, served, cachedCount, hits := seq(|req.paragraphs|, _ => Blank), [], 0, [];
    NothingLookedUp(req, groups, contracts, results);
    var memo: Memo := map[];
    assert MemoOk(req, memo);
    hide *;
    for g := 0 to |groups|
      invariant LookedUpTo(slots, served, cachedCount, hits, req, groups, contracts, results, g)
      invariant MemoOk(req, memo)
    {
      slots, served, cachedCount, hits, memo :=
        LookupNext(slots, served, cachedCount, hits, memo, req, groups, contracts, g, results);
    }
  }

  lemma NothingLookedUp(req: Request, groups: seq<Group>, contracts: seq<Contract>, results: seq<Item>)
    requires Planned(req, groups, contracts) && Sized(req, groups, contracts, results)
    ensures LookedUpTo(seq(|req.paragraphs|, _ => Blank), [], 0, [], req, groups, contracts, results, 0)
  {
    hide HasText, Decision, Covers, Disjoint;
    CountBlank(|req.paragraphs|, Cached);
    CountBlank(|req.paragraphs|, Translated);
  }

  /** One group of the loop. */
  method LookupNext(slots0: seq<Slot>, served0: seq<Option<Scope>>, cached0: nat, hits0: seq<Key>, memo0: Memo,
                    req: Request, groups: seq<Group>, contracts: seq<Contract>, g: nat, ghost results: seq<Item>)
    returns (slots: seq<Slot>, served: seq<Option<Scope>>, cachedCount: nat, hits: seq<Key>, memo: Memo)
    requires Planned(req, groups, contracts) && Sized(req, groups, contracts, results) && g < |groups|
    requires LookedUpTo(slots0, served0, cached0, hits0, req, groups, contracts, results, g) && MemoOk(req, memo0)
    ensures LookedUpTo(slots, served, cachedCount, hits, req, groups, contracts, results, g + 1) && MemoOk(req, memo)
  {
    hide Count, Decision, Holds, AtStage, Planned, MemoOk, HitsOf, InRange, AllHits;
    slots, cachedCount, hits := slots0, cached0, hits0;
    GroupPositions(req, groups, contracts, g);
    AllHitsNext(req, groups, contracts, results, g);
    var d;
    d, memo := Decide(req, groups[g], contracts[g], memo0);
    served := served0 + [d];
    if d.Some? {
      slots := ServeCached(req, groups, contracts, slots, g, d.value, results);
      cachedCount := cachedCount + |groups[g]|;
      hits := hits + HitsOf(req, groups[g], d.value);
    } else {
      StaysMissing(slots, req, groups, contracts, results, g, Untouched, LookedUp);
    }
  }

  lemma AllHitsNext(req: Request, groups: seq<Group>, contracts: seq<Contract>, results: seq<Item>, k: nat)
    requires Sized(req, groups, contracts, results) && k < |groups|
    ensures var d := Decision(req, groups[k], contracts[k]);
            && AllHits(req, groups, contracts, k + 1) ==
               AllHits(req, groups, contracts, k) + (if d.Some? then HitsOf(req, groups[k], d.value) else [])
            && (d.Some? ==> |HitsOf(req, groups[k], d.value)| == |groups[k]|)
  {
    hide Decision;
  }

  /** A stage that changes nothing for this group. */
  lemma StaysMissing(slots: seq<Slot>, req: Request, groups: seq<Group>, contracts: seq<Contract>,
                     results: seq<Item>, g: nat, before: Stage, after: Stage)
    requires Planned(req, groups, contracts) && |results| == |req.paragraphs| && g < |groups|
    requires AtStage(slots, req, groups, contracts, results, g, before, after)
    requires InRange(groups[g], |req.paragraphs|)
    requires var d := Decision(req, groups[g], contracts[g]);
             || (before == Untouched && after == LookedUp && d.None?)
             || (before == LookedUp && after == Done && d.Some?)
    ensures AtStage(slots, req, groups, contracts, results, g + 1, before, after)
  {
    hide HasText, Decision, Covers, Find;
    assert Holds(slots, req, groups[g], contracts[g], results, after);
    hide Holds, Planned;
    GroupAdvances(slots, slots, req, groups, contracts, results, g, before, after);
  }

  /** A missing group's items are written whole; its slots were blank. */
  method ServeFresh(req: Request, groups: seq<Group>, contracts: seq<Contract>, results: seq<Item>,
                    serving: nat -> Backend, slots0: seq<Slot>, g: nat)
    returns (slots: seq<Slot>, freshCount: nat, writes: seq<CacheWrite>)
    requires Planned(req, groups, contracts) && |results| == |req.paragraphs| && g < |groups|
    requires NamesProviders(results)
    requires AtStage(slots0, req, groups, contracts, results, g, LookedUp, Done)
    requires InRange(groups[g], |req.paragraphs|) && Decision(req, groups[g], contracts[g]) == None
    ensures AtStage(slots, req, groups, contracts, results, g + 1, LookedUp, Done)
    ensures Count(slots, Cached) == Count(slots0, Cached)
    ensures Count(slots, Translated) == Count(slots0, Translated) + freshCount
    ensures writes == WritesOf(req, groups[g], contracts[g], results, serving)
  {
    hide Count, Decision, Disjoint, HasText, Covers, Find, WritesOf, IsError;
    GroupPositions(req, groups, contracts, g);
    var values;
    values, freshCount, writes := TakeFresh(req, groups[g], contracts[g], results, serving);
    assert Holds(slots0, req, groups[g], contracts[g], results, LookedUp);
    FreshIsNotCached(values);
    slots := WriteGroupSlots(slots0, groups[g], values);
    assert Holds(slots, req, groups[g], contracts[g], results, Done);
    hide Holds, Planned, AtStage;
    GroupAdvances(slots0, slots, req, groups, contracts, results, g, LookedUp, Done);
  }

  lemma {:induction false} FreshIsNotCached(values: seq<Slot>)
    requires forall j :: 0 <= j < |values| ==> values[j].Fresh?
    ensures Count(values, Cached) == 0
  {
    if values != [] {
      FreshIsNotCached(values[..|values| - 1]);
    }
  }

  predicate Sized(req: Request, groups: seq<Group>, contracts: seq<Contract>, results: seq<Item>) {
    && |contracts| == |groups| && |results| == |req.paragraphs|
    && forall g :: 0 <= g < |groups| ==> InRange(groups[g], |req.paragraphs|)
  }

  /** The writes of the first `k` groups, in order. */
  function AllWrites(req: Request, groups: seq<Group>, contracts: seq<Contract>, results: seq<Item>,
                     serving: nat -> Backend, k: nat): seq<CacheWrite>
    requires Sized(req, groups, contracts, results) && k <= |groups|
  {
    if k == 0 then []
    else
      AllWrites(req, groups, contracts, results, serving, k - 1)
      + (if Decision(req, groups[k - 1], contracts[k - 1]).None?
         then WritesOf(req, groups[k - 1], contracts[k - 1], results, serving) else [])
  }

  /** A write stands for one paragraph of a missing group. */
  ghost predicate Justified(w: CacheWrite, req: Request, group: Group, contract: Contract, results: seq<Item>,
                            serving: nat -> Backend)
    requires Ready(req, group, results)
  {
    && Decision(req, group, contract).None?
    && exists i :: i in group && Storable(results[i]) && w == WriteOf(req.paragraphs[i], results[i], contract, serving)
  }

  /** Exactly the storable paragraphs of missing groups are written, each under its
      own group's contract. */
  lemma {:induction false} AllWritesMeans(req: Request, groups: seq<Group>, contracts: seq<Contract>,
                                          results: seq<Item>, serving: nat -> Backend, k: nat, w: CacheWrite)
    requires Sized(req, groups, contracts, results) && k <= |groups|
    ensures w in AllWrites(req, groups, contracts, results, serving, k) <==>
            exists g :: 0 <= g < k && Justified(w, req, groups[g], contracts[g], results, serving)
  {
    hide Decision, WritesOf, Storable, WriteOf;
    if k > 0 {
      AllWritesMeans(req, groups, contracts, results, serving, k - 1, w);
      WritesOfMeans(req, groups[k - 1], contracts[k - 1], results, serving, w);
      assert Justified(w, req, groups[k - 1], contracts[k - 1], results, serving) <==>
             Decision(req, groups[k - 1], contracts[k - 1]).None?
             && w in WritesOf(req, groups[k - 1], contracts[k - 1], results, serving);
    }
  }

  /** The decisions the lookup made. */
  predicate Looked(req: Request, groups: seq<Group>, contracts: seq<Contract>, results: seq<Item>,
                   served: seq<Option<Scope>>)
    requires Sized(req, groups, contracts, results)
  {
    |served| == |groups| && forall g :: 0 <= g < |groups| ==> served[g] == Decision(req, groups[g], contracts[g])
  }

  /** One step of the loop below: a group found in the cache is left alone. */
  method FillGroup(req: Request, groups: seq<Group>, contracts: seq<Contract>, results: seq<Item>,
                   serving: nat -> Backend, d: Option<Scope>, slots0: seq<Slot>, g: nat)
    returns (slots: seq<Slot>, freshCount: nat, writes: seq<CacheWrite>)
    requires Planned(req, groups, contracts) && |results| == |req.paragraphs| && g < |groups|
    requires NamesProviders(results)
    requires InRange(groups[g], |req.paragraphs|) && d == Decision(req, groups[g], contracts[g])
    requires AtStage(slots0, req, groups, contracts, results, g, LookedUp, Done)
    ensures AtStage(slots, req, groups, contracts, results, g + 1, LookedUp, Done)
    ensures Count(slots, Cached) == Count(slots0, Cached)
    ensures Count(slots, Translated) == Count(slots0, Translated) + freshCount
    ensures writes == if d.None? then WritesOf(req, groups[g], contracts[g], results, serving) else []
  {
    hide Count, Decision, Holds, AtStage, WritesOf, HasText, Disjoint;
    if d.None? {
      slots, freshCount, writes := ServeFresh(req, groups, contracts, results, serving, slots0, g);
    } else {
      StaysMissing(slots0, req, groups, contracts, results, g, LookedUp, Done);
      slots, freshCount, writes := slots0, 0, [];
    }
  }

  /** Filling in what was translated (server.py 1155-1183). */
  method FillGroups(req: Request, groups: seq<Group>, contracts: seq<Contract>, results: seq<Item>,
                    serving: nat -> Backend, served: seq<Option<Scope>>, slots0: seq<Slot>, ghost cachedCount: nat)
    returns (slots: seq<Slot>, freshCount: nat, writes: seq<CacheWrite>)
    requires Planned(req, groups, contracts) && Sized(req, groups, contracts, results) && NamesProviders(results)
    requires Looked(req, groups, contracts, results, served)
    requires AtStage(slots0, req, groups, contracts, results, 0, LookedUp, Done) && Counts(slots0, cachedCount, 0)
    ensures FilledTo(slots, cachedCount, freshCount, writes, req, groups, contracts, results, serving, |groups|)
  {
    AllWritesNone(req, groups, contracts, results, serving);
    slots, freshCount, writes := slots0, 0, [];
    hide *;
    for g := 0 to |groups|
      invariant FilledTo(slots, cachedCount, freshCount, writes, req, groups, contracts, results, serving, g)
    {
      slots, freshCount, writes :=
        FillNext(slots, freshCount, writes, req, groups, contracts, results, serving, served, g, cachedCount);
    }
  }

  /** Where the filling stands after `k` groups. */
  ghost predicate FilledTo(slots: seq<Slot>, cachedCount: nat, freshCount: nat, writes: seq<CacheWrite>, req: Request,
                           groups: seq<Group>, contracts: seq<Contract>, results: seq<Item>, serving: nat -> Backend,
                           k: nat)
    requires Sized(req, groups, contracts, results)
  {
    && k <= |groups|
    && AtStage(slots, req, groups, contracts, results, k, LookedUp, Done)
    && Counts(slots, cachedCount, freshCount)
    && writes == AllWrites(req, groups, contracts, results, serving, k)
  }

  /** One group of the loop. */
  method FillNext(slots0: seq<Slot>, fresh0: nat, writes0: seq<CacheWrite>, req: Request, groups: seq<Group>,
                  contracts: seq<Contract>, results: seq<Item>, serving: nat -> Backend, served: seq<Option<Scope>>,
                  g: nat, ghost cachedCount: nat)
    returns (slots: seq<Slot>, freshCount: nat, writes: seq<CacheWrite>)
    requires Planned(req, groups, contracts) && Sized(req, groups, contracts, results) && NamesProviders(results)
    requires Looked(req, groups, contracts, results, served) && g < |groups|
    requires FilledTo(slots0, cachedCount, fresh0, writes0, req, groups, contracts, results, serving, g)
    ensures FilledTo(slots, cachedCount, freshCount, writes, req, groups, contracts, results, serving, g + 1)
  {
    LookedAt(req, groups, contracts, results, served, g);
    AllWritesNext(req, groups, contracts, results, serving, g);
    hide Count, Decision, Holds, AtStage, Planned, InRange, AllWrites, WritesOf, NamesProviders, Looked;
    var more, ws;
    slots, more, ws := FillGroup(req, groups, contracts, results, serving, served[g], slots0, g);
    freshCount, writes := fresh0 + more, writes0 + ws;
  }

  lemma AllWritesNone(req: Request, groups: seq<Group>, contracts: seq<Contract>, results: seq<Item>,
                      serving: nat -> Backend)
    requires Sized(req, groups, contracts, results)
    ensures AllWrites(req, groups, contracts, results, serving, 0) == []
  {
  }

  lemma AllWritesNext(req: Request, groups: seq<Group>, contracts: seq<Contract>, results: seq<Item>,
                      serving: nat -> Backend, k: nat)
    requires Sized(req, groups, contracts, results) && k < |groups|
    ensures AllWrites(req, groups, contracts, results, serving, k + 1) ==
            AllWrites(req, groups, contracts, results, serving, k)
            + (if Decision(req, groups[k], contracts[k]).None?
               then WritesOf(req, groups[k], contracts[k], results, serving) else [])
  {
  }

  lemma LookedAt(req: Request, groups: seq<Group>, contracts: seq<Contract>, results: seq<Item>,
                 served: seq<Option<Scope>>, g: nat)
    requires Sized(req, groups, contracts, results) && Looked(req, groups, contracts, results, served) && g < |groups|
    ensures InRange(groups[g], |req.paragraphs|) && served[g] == Decision(req, groups[g], contracts[g])
  {
  }

  /** At the end exactly the paragraphs with text are served. */
  lemma AllServed(slots: seq<Slot>, req: Request, groups: seq<Group>, contracts: seq<Contract>, results: seq<Item>)
    requires Planned(req, groups, contracts) && |results| == |req.paragraphs|
    requires AtStage(slots, req, groups, contracts, results, |groups|, LookedUp, Done)
    ensures forall i :: 0 <= i < |slots| ==> (slots[i] == Blank <==> !HasText(req.paragraphs[i]))
    ensures Count(slots, Cached) + Count(slots, Translated) + Count(slots, Errored) == |Work(req.paragraphs)|
  {
    hide HasText, Decision, Covers, Find, Count, Work, Disjoint;
    forall i | 0 <= i < |slots| ensures slots[i] == Blank <==> !HasText(req.paragraphs[i]) {
      if Grouped(groups, i) {
        var g :| 0 <= g < |groups| && i in groups[g];
        assert Holds(slots, req, groups[g], contracts[g], results, Done);
        var j :| 0 <= j < |groups[g]| && groups[g][j] == i;
        assert slots[groups[g][j]] != Blank;
      }
    }
    CountsAddUp(slots, req.paragraphs);
  }

  /** Everything the request promises, for the translator's results. */
  ghost predicate Settled(slots: seq<Slot>, cachedCount: nat, freshCount: nat, writes: seq<CacheWrite>, req: Request,
                          groups: seq<Group>, contracts: seq<Contract>, results: seq<Item>, serving: nat -> Backend)
    requires Sized(req, groups, contracts, results)
  {
    && |slots| == |req.paragraphs|
    && (forall g :: 0 <= g < |groups| ==> Holds(slots, req, groups[g], contracts[g], results, Done))
    && (forall i :: 0 <= i < |slots| ==> (slots[i] == Blank <==> !HasText(req.paragraphs[i])))
    && cachedCount + freshCount + Count(slots, Errored) == |Work(req.paragraphs)|
    && Counts(slots, cachedCount, freshCount)
    && (forall w :: w in writes <==>
          exists g :: 0 <= g < |groups| && Justified(w, req, groups[g], contracts[g], results, serving))
  }

  /** What follows the translator's return (server.py 1154-1192). */
  method Settle(req: Request, groups: seq<Group>, contracts: seq<Contract>, results: seq<Item>,
                serving: nat -> Backend, served: seq<Option<Scope>>, slots0: seq<Slot>, cachedCount: nat)
    returns (slots: seq<Slot>, freshCount: nat, writes: seq<CacheWrite>)
    requires Planned(req, groups, contracts) && Sized(req, groups, contracts, results) && NamesProviders(results)
    requires Looked(req, groups, contracts, results, served)
    requires AtStage(slots0, req, groups, contracts, results, 0, LookedUp, Done) && Counts(slots0, cachedCount, 0)
    ensures Settled(slots, cachedCount, freshCount, writes, req, groups, contracts, results, serving)
    ensures writes == AllWrites(req, groups, contracts, results, serving, |groups|)
  {
    hide Count, Decision, Holds, HasText, Planned, Work, Justified, AllWrites, Looked;
    slots, freshCount, writes :=
      FillGroups(req, groups, contracts, results, serving, served, slots0, cachedCount);
    AllServed(slots, req, groups, contracts, results);
    forall w ensures w in writes <==>
                     exists g :: 0 <= g < |groups| && Justified(w, req, groups[g], contracts[g], results, serving)
    {
      AllWritesMeans(req, groups, contracts, results, serving, |groups|, w);
    }
  }

  /** Looking up says nothing yet about the translator's results. */
  lemma Relooked(slots: seq<Slot>, req: Request, groups: seq<Group>, contracts: seq<Contract>,
                 before: seq<Item>, results: seq<Item>)
    requires |contracts| == |groups| && |before| == |results| == |req.paragraphs|
    requires AtStage(slots, req, groups, contracts, before, |groups|, Untouched, LookedUp)
    ensures AtStage(slots, req, groups, contracts, results, 0, LookedUp, Done)
  {
    hide Decision, Covers, Find;
    forall g | 0 <= g < |groups| ensures Holds(slots, req, groups[g], contracts[g], results, LookedUp) {
      assert Holds(slots, req, groups[g], contracts[g], before, LookedUp);
    }
    hide Holds;
  }

  /** The groups not found in the cache, as positions in the plan. */
  ghost predicate Chosen(missing: seq<nat>, served: seq<Option<Scope>>, k: nat) {
    && (forall m :: 0 <= m < |missing| ==> missing[m] < |served| && served[missing[m]].None?)
    && (forall l, m :: 0 <= l < m < |missing| ==> missing[l] < missing[m])
    && (forall g :: 0 <= g < |served| && g < k && served[g].None? ==> g in missing)
  }

  method MissingGroups(groups: seq<Group>, ends: seq<WorkerEnd>, served: seq<Option<Scope>>)
    returns (missing: seq<nat>, work: seq<Group>, outcomes: seq<WorkerEnd>)
    requires |served| == |groups| == |ends|
    ensures |missing| == |work| == |outcomes| && Chosen(missing, served, |served|)
    ensures forall m :: 0 <= m < |missing| ==> work[m] == groups[missing[m]] && outcomes[m] == ends[missing[m]]
  {
    missing, work, outcomes := [], [], [];
    for g := 0 to |groups|
      invariant |missing| == |work| == |outcomes| && Chosen(missing, served, g)
      invariant forall m :: 0 <= m < |missing| ==> missing[m] < g
      invariant forall m :: 0 <= m < |missing| ==> work[m] == groups[missing[m]] && outcomes[m] == ends[missing[m]]
    {
      if served[g].None? {
        missing, work, outcomes := missing + [g], work + [groups[g]], outcomes + [ends[g]];
      }
    }
  }

  lemma ChosenDisjoint(groups: seq<Group>, work: seq<Group>, missing: seq<nat>, served: seq<Option<Scope>>, n: nat)
    requires Disjoint(groups, n) && |served| == |groups| && |work| == |missing| && Chosen(missing, served, |served|)
    requires forall m :: 0 <= m < |missing| ==> work[m] == groups[missing[m]]
    ensures Disjoint(work, n)
  {
    forall g, j, h, i | 0 <= g < |work| && 0 <= j < |work[g]| && 0 <= h < |work| && 0 <= i < |work[h]|
                        && work[g][j] == work[h][i]
      ensures g == h && j == i
    {
      assert groups[missing[g]][j] == groups[missing[h]][i];
    }
  }

  /** Every missing group's slots come from its own worker. */
  ghost predicate FromWorkers(results: seq<Item>, groups: seq<Group>, ends: seq<WorkerEnd>, served: seq<Option<Scope>>)
    requires |served| == |groups| == |ends|
  {
    forall g, j :: 0 <= g < |groups| && served[g].None? && 0 <= j < |groups[g]| && groups[g][j] < |results| ==>
      ends[g].Finished? && results[groups[g][j]] == SlotOf(ends[g], j)
  }

  lemma WindowFeeds(results: seq<Item>, groups: seq<Group>, ends: seq<WorkerEnd>, served: seq<Option<Scope>>,
                    missing: seq<nat>, work: seq<Group>, outcomes: seq<WorkerEnd>, n: nat)
    requires |served| == |groups| == |ends| && |missing| == |work| == |outcomes| && Chosen(missing, served, |served|)
    requires forall m :: 0 <= m < |missing| ==> work[m] == groups[missing[m]] && outcomes[m] == ends[missing[m]]
    requires Scheduler.Written(results, work, outcomes, Below(|work|), n)
    ensures FromWorkers(results, groups, ends, served)
  {
    forall g, j | 0 <= g < |groups| && served[g].None? && 0 <= j < |groups[g]| && groups[g][j] < |results|
      ensures ends[g].Finished? && results[groups[g][j]] == SlotOf(ends[g], j)
    {
      var m :| 0 <= m < |missing| && missing[m] == g;
      assert m in Below(|work|);
      assert results[work[m][j]] == SlotOf(outcomes[m], j);
    }
  }

  // ---- the same, told by the slots and items alone ----

  /** The counts are numbers of slots. */
  lemma {:induction false} CountMeans(slots: seq<Slot>, kind: Kind)
    ensures Count(slots, kind) == |set i | 0 <= i < |slots| && KindOf(slots[i]) == kind|
  {
    hide KindOf;
    if slots != [] {
      var init, n := slots[..|slots| - 1], |slots| - 1;
      CountMeans(init, kind);
      OneMore((set i | 0 <= i < n && KindOf(init[i]) == kind), (set i | 0 <= i < |slots| && KindOf(slots[i]) == kind),
              n, KindOf(slots[n]) == kind);
    }
  }

  lemma CountsMean(slots: seq<Slot>, cached: nat, translated: nat)
    requires Counts(slots, cached, translated)
    ensures cached == |set i | 0 <= i < |slots| && slots[i].FromCache?|
    ensures translated ==
            |set i | 0 <= i < |slots| && slots[i].Fresh? && !("[TRANSLATION ERROR:" <= slots[i].item.text)|
  {
    hide Count;
    CountMeans(slots, Cached);
    CountMeans(slots, Translated);
    assert (set i | 0 <= i < |slots| && KindOf(slots[i]) == Cached) == set i | 0 <= i < |slots| && slots[i].FromCache?;
    assert (set i | 0 <= i < |slots| && KindOf(slots[i]) == Translated) ==
           set i | 0 <= i < |slots| && slots[i].Fresh? && !("[TRANSLATION ERROR:" <= slots[i].item.text);
  }

  /** A write and the paragraph it is for. */
  lemma JustifiedMeans(w: CacheWrite, req: Request, group: Group, contract: Contract, results: seq<Item>,
                       serving: nat -> Backend)
    requires Ready(req, group, results)
    ensures Justified(w, req, group, contract, results, serving) <==>
            && Decision(req, group, contract).None?
            && exists j ::
                 && 0 <= j < |group|
                 && results[group[j]].cacheable && results[group[j]].provider.Some?
                 && !("[TRANSLATION ERROR:" <= results[group[j]].text)
                 && w.text == req.paragraphs[group[j]] && w.translated == results[group[j]].text
                 && w.scope == Scope(serving(results[group[j]].provider.value), contract)
  {
    hide Decision;
    if Justified(w, req, group, contract, results, serving) {
      var i :| i in group && Storable(results[i]) && w == WriteOf(req.paragraphs[i], results[i], contract, serving);
      var j :| 0 <= j < |group| && group[j] == i;
      assert results[group[j]].cacheable && w.text == req.paragraphs[group[j]];
    }
  }

  /** Exactly the cacheable, unmarked items of groups that were not in the cache are
      written, each for its own paragraph, under its group's contract and the backend
      of the provider that answered. */
  lemma WritesMean(writes: seq<CacheWrite>, req: Request, groups: seq<Group>, contracts: seq<Contract>,
                   results: seq<Item>, serving: nat -> Backend, served: seq<Option<Scope>>)
    requires Sized(req, groups, contracts, results) && Looked(req, groups, contracts, results, served)
    requires forall w :: w in writes <==>
               exists g :: 0 <= g < |groups| && Justified(w, req, groups[g], contracts[g], results, serving)
    ensures forall w :: w in writes <==>
              exists g, j ::
                && 0 <= g < |groups| && 0 <= j < |groups[g]| && served[g].None?
                && results[groups[g][j]].cacheable && results[groups[g][j]].provider.Some?
                && !("[TRANSLATION ERROR:" <= results[groups[g][j]].text)
                && w.text == req.paragraphs[groups[g][j]] && w.translated == results[groups[g][j]].text
                && w.scope == Scope(serving(results[groups[g][j]].provider.value), contracts[g])
  {
    hide Decision, Justified;
    forall w
      ensures w in writes <==>
              exists g, j ::
                && 0 <= g < |groups| && 0 <= j < |groups[g]| && served[g].None?
                && results[groups[g][j]].cacheable && results[groups[g][j]].provider.Some?
                && !("[TRANSLATION ERROR:" <= results[groups[g][j]].text)
                && w.text == req.paragraphs[groups[g][j]] && w.translated == results[groups[g][j]].text
                && w.scope == Scope(serving(results[groups[g][j]].provider.value), contracts[g])
    {
      forall g | 0 <= g < |groups| ensures Ready(req, groups[g], results) {
      }
      if w in writes {
        var g :| 0 <= g < |groups| && Justified(w, req, groups[g], contracts[g], results, serving);
        JustifiedMeans(w, req, groups[g], contracts[g], results, serving);
      }
      if g, j :|
          && 0 <= g < |groups| && 0 <= j < |groups[g]| && served[g].None?
          && results[groups[g][j]].cacheable && results[groups[g][j]].provider.Some?
          && !("[TRANSLATION ERROR:" <= results[groups[g][j]].text)
          && w.text == req.paragraphs[groups[g][j]] && w.translated == results[groups[g][j]].text
          && w.scope == Scope(serving(results[groups[g][j]].provider.value), contracts[g])
      {
        JustifiedMeans(w, req, groups[g], contracts[g], results, serving);
      }
    }
  }

  /** The slots of a served group hold what the cache answers in the group's scope,
      those of any other group what the translator returned. */
  lemma SlotsMean(slots: seq<Slot>, req: Request, groups: seq<Group>, contracts: seq<Contract>, results: seq<Item>,
                  served: seq<Option<Scope>>)
    requires Sized(req, groups, contracts, results) && Looked(req, groups, contracts, results, served)
    requires |slots| == |req.paragraphs|
    requires forall g :: 0 <= g < |groups| ==> Holds(slots, req, groups[g], contracts[g], results, Done)
    ensures forall g, j :: 0 <= g < |groups| && 0 <= j < |groups[g]| && served[g].None? ==>
              slots[groups[g][j]] == Fresh(results[groups[g][j]])
    ensures forall g, j :: 0 <= g < |groups| && 0 <= j < |groups[g]| && served[g].Some? ==>
              && slots[groups[g][j]].FromCache? && slots[groups[g][j]].scope == served[g].value
              && Some(slots[groups[g][j]].text) ==
                 Answer(req.table, Probe(req.paragraphs[groups[g][j]],
                                         req.keyOf(req.paragraphs[groups[g][j]], served[g].value)), req.cutoff)
  {
    hide Decision, Answer;
    forall g, j | 0 <= g < |groups| && 0 <= j < |groups[g]| && served[g].Some?
      ensures
        && slots[groups[g][j]].FromCache? && slots[groups[g][j]].scope == served[g].value
        && Some(slots[groups[g][j]].text) ==
           Answer(req.table, Probe(req.paragraphs[groups[g][j]],
                                   req.keyOf(req.paragraphs[groups[g][j]], served[g].value)), req.cutoff)
    {
      assert Holds(slots, req, groups[g], contracts[g], results, Done);
    }
  }

  /** One hit per paragraph of a served group, and no other. */
  lemma {:induction false} HitsMean(key: Key, req: Request, groups: seq<Group>, contracts: seq<Contract>,
                                    served: seq<Option<Scope>>, k: nat)
    requires |served| == |contracts| == |groups| && k <= |groups|
    requires forall g :: 0 <= g < |groups| ==> InRange(groups[g], |req.paragraphs|)
    requires forall g :: 0 <= g < |groups| ==> served[g] == Decision(req, groups[g], contracts[g])
    ensures key in AllHits(req, groups, contracts, k) <==>
            exists g, j :: && 0 <= g < k && 0 <= j < |groups[g]| && served[g].Some?
                           && key == req.keyOf(req.paragraphs[groups[g][j]], served[g].value)
  {
    hide Decision;
    if k > 0 {
      HitsMean(key, req, groups, contracts, served, k - 1);
      if served[k - 1].Some? {
        HitsOfMeans(key, req, groups[k - 1], served[k - 1].value);
      }
    }
  }

  lemma HitsOfMeans(key: Key, req: Request, group: Group, scope: Scope)
    requires InRange(group, |req.paragraphs|)
    ensures key in HitsOf(req, group, scope) <==>
            exists j :: 0 <= j < |group| && key == req.keyOf(req.paragraphs[group[j]], scope)
  {
    var hits := HitsOf(req, group, scope);
    if j :| 0 <= j < |group| && key == req.keyOf(req.paragraphs[group[j]], scope) {
      assert hits[j] == key;
    }
  }

  /** `_translate_paragraphs` (server.py 1019-1192): `ends[g]` is what the worker of
      group `g` does if the group is not found in the cache. */
  method TranslateParagraphs(req: Request, groups: seq<Group>, contracts: seq<Contract>, ends: seq<WorkerEnd>,
                             limit: int, budget: Budget, serving: nat -> Backend)
    returns (r: BatchEnd, slots: seq<Slot>, cachedCount: nat, freshCount: nat, writes: seq<CacheWrite>,
             hits: seq<Key>, served: seq<Option<Scope>>)
    requires Planned(req, groups, contracts) && |ends| == |groups| && budget.Valid()
    requires forall g :: 0 <= g < |groups| ==> InRange(groups[g], |req.paragraphs|) && Proper(ends[g], |groups[g]|)
    modifies budget`cancelReason
    ensures budget.Valid() && |served| == |groups|
    ensures forall g :: 0 <= g < |groups| ==> served[g] == Decision(req, groups[g], contracts[g])
    ensures hits == AllHits(req, groups, contracts, |groups|) && |hits| == cachedCount
    ensures r.Results? <==> forall g :: 0 <= g < |groups| && served[g].None? ==> ends[g].Finished?
    ensures r.Results? ==>
              && Sized(req, groups, contracts, r.results)
              && FromWorkers(r.results, groups, ends, served)
              && Settled(slots, cachedCount, freshCount, writes, req, groups, contracts, r.results, serving)
    ensures !r.Results? ==> budget.cancelReason.Some?
    ensures forall key :: key in hits <==>
              exists g, j :: && 0 <= g < |groups| && 0 <= j < |groups[g]| && served[g].Some?
                             && key == req.keyOf(req.paragraphs[groups[g][j]], served[g].value)
    ensures r.Results? ==>
              && |slots| == |r.results| == |req.paragraphs|
              && cachedCount == |set i | 0 <= i < |slots| && slots[i].FromCache?|
              && freshCount ==
                 |set i | 0 <= i < |slots| && slots[i].Fresh? && !("[TRANSLATION ERROR:" <= slots[i].item.text)|
    ensures r.Results? ==>
              && (forall g :: 0 <= g < |groups| && served[g].None? ==>
                    ends[g].Finished? && |ends[g].items| == |groups[g]|)
              && (forall g, j :: 0 <= g < |groups| && 0 <= j < |groups[g]| && served[g].None? ==>
                    && r.results[groups[g][j]] == ends[g].items[j]
                    && slots[groups[g][j]] == Fresh(r.results[groups[g][j]]))
    ensures r.Results? ==>
              forall g, j :: 0 <= g < |groups| && 0 <= j < |groups[g]| && served[g].Some? ==>
                && slots[groups[g][j]].FromCache? && slots[groups[g][j]].scope == served[g].value
                && Some(slots[groups[g][j]].text) ==
                   Answer(req.table, Probe(req.paragraphs[groups[g][j]],
                                           req.keyOf(req.paragraphs[groups[g][j]], served[g].value)), req.cutoff)
    ensures r.Results? ==>
              forall w :: w in writes <==>
                exists g, j ::
                  && 0 <= g < |groups| && 0 <= j < |groups[g]| && served[g].None?
                  && r.results[groups[g][j]].cacheable && r.results[groups[g][j]].provider.Some?
                  && !("[TRANSLATION ERROR:" <= r.results[groups[g][j]].text)
                  && w.text == req.paragraphs[groups[g][j]] && w.translated == r.results[groups[g][j]].text
                  && w.scope == Scope(serving(r.results[groups[g][j]].provider.value), contracts[g])
  {
    ghost var before: seq<Item> := seq(|req.paragraphs|, _ => EMPTY_SLOT);
    assert Sized(req, groups, contracts, before) && Disjoint(groups, |req.paragraphs|);
    hide Count, Decision, Holds, HasText, Planned, Scheduler.Written, Disjoint, Settled, AtStage, Work, Proper,
         FromWorkers;
    slots, served, cachedCount, hits := LookupGroups(req, groups, contracts, before);
    var missing, work, outcomes := MissingGroups(groups, ends, served);
    ChosenDisjoint(groups, work, missing, served, |req.paragraphs|);
    var peak;
    r, peak := RunWindow(|req.paragraphs|, work, outcomes, limit, budget);
    freshCount, writes := 0, [];
    ChosenFinished(ends, served, missing, outcomes);
    hide Answer;
    forall key
      ensures key in hits <==>
              exists g, j :: && 0 <= g < |groups| && 0 <= j < |groups[g]| && served[g].Some?
                             && key == req.keyOf(req.paragraphs[groups[g][j]], served[g].value)
    {
      HitsMean(key, req, groups, contracts, served, |groups|);
    }
    if r.Results? {
      assert |r.results| == |req.paragraphs| by { WrittenLength(r.results, work, outcomes, |req.paragraphs|); }
      ResultsNameProviders(r.results, work, outcomes, |req.paragraphs|);
      WindowFeeds(r.results, groups, ends, served, missing, work, outcomes, |req.paragraphs|);
      Relooked(slots, req, groups, contracts, before, r.results);
      slots, freshCount, writes := Settle(req, groups, contracts, r.results, serving, served, slots, cachedCount);
      SettledMeans(slots, cachedCount, freshCount, writes, req, groups, contracts, r.results, serving, served, ends);
    }
  }

  /** All of it at once, for the results of the workers. */
  lemma SettledMeans(slots: seq<Slot>, cachedCount: nat, freshCount: nat, writes: seq<CacheWrite>, req: Request,
                     groups: seq<Group>, contracts: seq<Contract>, results: seq<Item>, serving: nat -> Backend,
                     served: seq<Option<Scope>>, ends: seq<WorkerEnd>)
    requires Sized(req, groups, contracts, results) && Looked(req, groups, contracts, results, served)
    requires Settled(slots, cachedCount, freshCount, writes, req, groups, contracts, results, serving)
    requires |ends| == |groups| && FromWorkers(results, groups, ends, served)
    requires forall g :: 0 <= g < |groups| ==> Proper(ends[g], |groups[g]|)
    requires forall g :: 0 <= g < |groups| && served[g].None? ==> ends[g].Finished?
    ensures |slots| == |results| == |req.paragraphs|
    ensures cachedCount == |set i | 0 <= i < |slots| && slots[i].FromCache?|
    ensures freshCount ==
            |set i | 0 <= i < |slots| && slots[i].Fresh? && !("[TRANSLATION ERROR:" <= slots[i].item.text)|
    ensures forall g :: 0 <= g < |groups| && served[g].None? ==>
              ends[g].Finished? && |ends[g].items| == |groups[g]|
    ensures forall g, j :: 0 <= g < |groups| && 0 <= j < |groups[g]| && served[g].None? ==>
              && results[groups[g][j]] == ends[g].items[j]
              && slots[groups[g][j]] == Fresh(results[groups[g][j]])
    ensures forall g, j :: 0 <= g < |groups| && 0 <= j < |groups[g]| && served[g].Some? ==>
              && slots[groups[g][j]].FromCache? && slots[groups[g][j]].scope == served[g].value
              && Some(slots[groups[g][j]].text) ==
                 Answer(req.table, Probe(req.paragraphs[groups[g][j]],
                                         req.keyOf(req.paragraphs[groups[g][j]], served[g].value)), req.cutoff)
    ensures forall w :: w in writes <==>
              exists g, j ::
                && 0 <= g < |groups| && 0 <= j < |groups[g]| && served[g].None?
                && results[groups[g][j]].cacheable && results[groups[g][j]].provider.Some?
                && !("[TRANSLATION ERROR:" <= results[groups[g][j]].text)
                && w.text == req.paragraphs[groups[g][j]] && w.translated == results[groups[g][j]].text
                && w.scope == Scope(serving(results[groups[g][j]].provider.value), contracts[g])
  {
    hide Holds, Justified, Count, Decision, NamesProviders, HasText, Work, Answer, Counts;
    CountsMean(slots, cachedCount, freshCount);
    SlotsMean(slots, req, groups, contracts, results, served);
    WritesMean(writes, req, groups, contracts, results, serving, served);
    forall g, j | 0 <= g < |groups| && 0 <= j < |groups[g]| && served[g].None?
      ensures results[groups[g][j]] == ends[g].items[j] && slots[groups[g][j]] == Fresh(results[groups[g][j]])
    {
      assert InRange(groups[g], |req.paragraphs|);
      assert results[groups[g][j]] == SlotOf(ends[g], j);
    }
  }

  lemma WrittenLength(results: seq<Item>, groups: seq<Group>, ends: seq<WorkerEnd>, n: nat)
    requires |ends| == |groups| && Scheduler.Written(results, groups, ends, Below(|groups|), n)
    ensures |results| == n
  {
  }

  lemma ChosenFinished(ends: seq<WorkerEnd>, served: seq<Option<Scope>>, missing: seq<nat>, outcomes: seq<WorkerEnd>)
    requires |served| == |ends| && |missing| == |outcomes| && Chosen(missing, served, |served|)
    requires forall m :: 0 <= m < |missing| ==> outcomes[m] == ends[missing[m]]
    ensures (forall m :: 0 <= m < |outcomes| ==> outcomes[m].Finished?) <==>
            (forall g :: 0 <= g < |served| && served[g].None? ==> ends[g].Finished?)
  {
    if forall m :: 0 <= m < |outcomes| ==> outcomes[m].Finished? {
      forall g | 0 <= g < |served| && served[g].None? ensures ends[g].Finished? {
        var m :| 0 <= m < |missing| && missing[m] == g;
        assert outcomes[m].Finished?;
      }
    }
  }

  // ---- groups from the planner ----

  lemma {:induction false} ConcatMember(groups: seq<Group>, i: nat)
    ensures i in Concat<nat>(groups) <==> Grouped(groups, i)
  {
    if groups != [] {
      var init, last := groups[..|groups| - 1], groups[|groups| - 1];
      ConcatMember(init, i);
      if Grouped(init, i) {
        var g :| 0 <= g < |init| && i in init[g];
        assert i in groups[g];
      }
      if i in last {
        assert i in groups[|groups| - 1];
      }
      if Grouped(groups, i) && i !in last {
        var g :| 0 <= g < |groups| && i in groups[g];
        assert i in init[g];
      }
    }
  }

  lemma {:induction false} KeepAll(groups: seq<Group>, keep: seq<bool>)
    requires |keep| == |groups| && forall g :: 0 <= g < |keep| ==> keep[g]
    ensures Keep(groups, keep) == groups
  {
    if groups != [] {
      KeepAll(groups[..|groups| - 1], keep[..|groups| - 1]);
    }
  }

  /** Whatever the planner returns is fit for serving, and the groups that were not
      found in the cache pass the translator's check of selected groups. */
  lemma PlanIsServable(req: Request, groups: seq<Group>, contracts: seq<Contract>, missing: seq<bool>,
                       costs: seq<nat>, lim: Limits)
    requires |costs| == |req.paragraphs| && |contracts| == |missing| == |groups|
    requires IsPlan(groups, Work(req.paragraphs), costs, lim)
    ensures Planned(req, groups, contracts)
    ensures Selected(Keep(groups, missing), req.paragraphs, costs, lim)
  {
    hide HasText, Fits, Disjoint, Selected, Keep, Concat;
    var all := seq(|groups|, _ => true);
    ChosenGroupsAreSelected(groups, missing, req.paragraphs, costs, lim);
    ChosenGroupsAreSelected(groups, all, req.paragraphs, costs, lim);
    KeepAll(groups, all);
    SelectedIsDisjoint(groups, req.paragraphs, costs, lim);
    WorkMeans(req.paragraphs);
    forall i | 0 <= i < |req.paragraphs| ensures HasText(req.paragraphs[i]) <==> Grouped(groups, i) {
      ConcatMember(groups, i);
    }
  }
}
