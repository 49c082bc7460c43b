/** Cutting a request's paragraphs into provider batches: a greedy pass that no
    other contiguous plan beats, and the two checks that rely on its shape. */
module Grouping {
  import opened Text

  type Group = seq<nat>

  /** The limits of one batch: paragraphs, and source tokens (0 for no limit). */
  datatype Limits = Limits(size: nat, budget: nat)

  predicate ValidLimits(lim: Limits) {
    lim.size >= 1
  }

  predicate InRange(group: Group, n: nat) {
    forall i :: 0 <= i < |group| ==> group[i] < n
  }

  function Total(group: Group, costs: seq<nat>): nat
    requires InRange(group, |costs|)
  {
    if group == [] then 0
    else Total(group[..|group| - 1], costs) + costs[group[|group| - 1]]
  }

  predicate Fits(group: Group, costs: seq<nat>, lim: Limits) {
    && InRange(group, |costs|)
    && 1 <= |group| <= lim.size
    && (lim.budget == 0 || |group| == 1 || Total(group, costs) <= lim.budget)
  }

  /** A contiguous plan of the work: the groups in order are the work itself. */
  ghost predicate IsPlan(plan: seq<Group>, work: Group, costs: seq<nat>, lim: Limits) {
    && Concat(plan) == work
    && forall k :: 0 <= k < |plan| ==> Fits(plan[k], costs, lim)
  }

  /** No group could also have taken the first paragraph of the next one. */
  ghost predicate Maximal(plan: seq<Group>, costs: seq<nat>, lim: Limits) {
    forall k :: 0 < k < |plan| && plan[k] != [] ==> !Fits(plan[k - 1] + [plan[k][0]], costs, lim)
  }

  // ---- part of a batch is a batch ----

  lemma {:induction false} TotalDropsLess(group: Group, i: nat, costs: seq<nat>)
    requires InRange(group, |costs|) && i <= |group|
    ensures InRange(group[i..], |costs|) && Total(group[i..], costs) <= Total(group, costs)
  {
    if i < |group| {
      TotalDropsLess(group[..|group| - 1], i, costs);
      assert group[i..][..|group| - i - 1] == group[..|group| - 1][i..];
    }
  }

  lemma {:induction false} TotalTakesLess(group: Group, j: nat, costs: seq<nat>)
    requires InRange(group, |costs|) && j <= |group|
    ensures InRange(group[..j], |costs|) && Total(group[..j], costs) <= Total(group, costs)
  {
    if j == |group| {
      assert group[..j] == group;
    } else {
      TotalTakesLess(group[..|group| - 1], j, costs);
      assert group[..|group| - 1][..j] == group[..j];
    }
  }

  lemma PartFits(group: Group, i: nat, j: nat, costs: seq<nat>, lim: Limits)
    requires Fits(group, costs, lim) && i < j <= |group|
    ensures Fits(group[i..j], costs, lim)
  {
    TotalTakesLess(group, j, costs);
    TotalDropsLess(group[..j], i, costs);
    assert group[..j][i..] == group[i..j];
  }

  // ---- the greedy plan is shortest ----

  /** Where the first `m` groups of a plan end in the work. */
  ghost function End(plan: seq<Group>, m: nat): nat
    requires m <= |plan|
  {
    |Concat(plan[..m])|
  }

  lemma {:induction false} GroupIsSlice(plan: seq<Group>, m: nat)
    requires m < |plan|
    ensures End(plan, m + 1) == End(plan, m) + |plan[m]| <= |Concat(plan)|
    ensures plan[m] == Concat(plan)[End(plan, m)..End(plan, m + 1)]
    decreases |plan|
  {
    var last := |plan| - 1;
    if m == last {
      assert plan[..m + 1] == plan;
    } else {
      var shorter := plan[..last];
      GroupIsSlice(shorter, m);
      assert shorter[..m] == plan[..m] && shorter[..m + 1] == plan[..m + 1];
      assert Concat(plan) == Concat(shorter) + plan[last];
    }
  }

  lemma SliceOfSlice(s: Group, b: nat, b': nat, i: nat, j: nat)
    requires b <= b' <= |s| && i <= j <= b' - b
    ensures s[b..b'][i..j] == s[b + i..b + j]
  {
    var lhs, rhs := s[b..b'][i..j], s[b + i..b + j];
    forall k | 0 <= k < j - i ensures lhs[k] == rhs[k] {
      assert lhs[k] == s[b..b'][i + k] == s[b + i + k];
    }
  }

  /** If the other plan's group reaches further, it contains the greedy group and
      the paragraph after it. */
  lemma OverlapFits(work: Group, group: Group, a: nat, a': nat, b: nat, b': nat, costs: seq<nat>, lim: Limits)
    requires b <= a <= a' < b' <= |work|
    requires group == work[b..b'] && Fits(group, costs, lim)
    ensures Fits(work[a..a'] + [work[a']], costs, lim)
  {
    PartFits(group, a - b, a' + 1 - b, costs, lim);
    hide Fits;
    assert work[a..a'] + [work[a']] == work[a..a' + 1];
    SliceOfSlice(work, b, b', a - b, a' + 1 - b);
  }

  /** The first `m` greedy groups cover at least what any other `m` groups cover. */
  lemma {:induction false} GreedyIsAhead(plan: seq<Group>, other: seq<Group>, work: Group,
                                         costs: seq<nat>, lim: Limits, m: nat)
    requires IsPlan(plan, work, costs, lim) && Maximal(plan, costs, lim)
    requires IsPlan(other, work, costs, lim)
    requires m <= |plan| && m <= |other|
    ensures End(plan, m) >= End(other, m)
  {
    assert End(other, 0) == 0;
    hide Fits, End;
    if m > 0 {
      GreedyIsAhead(plan, other, work, costs, lim, m - 1);
      GroupIsSlice(plan, m - 1);
      GroupIsSlice(other, m - 1);
      var a, a', b, b' := End(plan, m - 1), End(plan, m), End(other, m - 1), End(other, m);
      if a' < b' {
        NextGroup(plan, m, work);
        GroupIsSlice(plan, m);
        assert plan[m][0] == work[a'];
        OverlapFits(work, other[m - 1], a, a', b, b', costs, lim);
        assert false;
      }
    }
  }

  /** A plan that has not covered the work yet has a next group. */
  lemma NextGroup(plan: seq<Group>, m: nat, work: Group)
    requires m <= |plan| && Concat(plan) == work && End(plan, m) < |work|
    ensures m < |plan|
  {
    assert plan[..|plan|] == plan;
  }

  lemma GreedyIsShortest(plan: seq<Group>, other: seq<Group>, work: Group, costs: seq<nat>, lim: Limits)
    requires IsPlan(plan, work, costs, lim) && Maximal(plan, costs, lim)
    requires IsPlan(other, work, costs, lim)
    ensures |plan| <= |other|
  {
    assert other[..|other|] == other;
    if |other| < |plan| {
      GreedyIsAhead(plan, other, work, costs, lim, |other|);
      GroupIsSlice(plan, |other|);
      assert false;
    }
  }

  // ---- `translation_groups` ----

  predicate HasText(paragraph: string) {
    Strip(paragraph) != []
  }

  /** A paragraph has text when not every character of it is white space. */
  lemma HasTextMeans(paragraph: string)
    ensures HasText(paragraph) <==> exists k :: 0 <= k < |paragraph| && !IsSpace(paragraph[k])
  {
    var i, j := StripMeans(paragraph);
    hide IsSpace, Strip;
  }

  /** The non-blank paragraphs, in order. */
  function Work(texts: seq<string>): (work: Group) {
    if texts == [] then []
    else
      var before, last := Work(texts[..|texts| - 1]), |texts| - 1;
      if HasText(texts[last]) then before + [last] else before
  }

  ghost predicate Increasing(s: Group) {
    forall i, j :: 0 <= i < j < |s| ==> s[i] < s[j]
  }

  lemma {:induction false} WorkMeans(texts: seq<string>)
    ensures Increasing(Work(texts)) && InRange(Work(texts), |texts|)
    ensures forall i :: 0 <= i < |texts| ==> (i in Work(texts) <==> HasText(texts[i]))
  {
    hide HasText;
    if texts != [] {
      var init, last := texts[..|texts| - 1], |texts| - 1;
      WorkMeans(init);
      forall i | 0 <= i < |texts| ensures i in Work(texts) <==> HasText(texts[i]) {
        if i < last {
          assert init[i] == texts[i];
        }
      }
    }
  }

  ghost predicate Growing(groups: seq<Group>, current: Group, done: Group, costs: seq<nat>, lim: Limits) {
    && Concat(groups) + current == done
    && IsPlan(groups, Concat(groups), costs, lim)
    && Maximal(groups, costs, lim)
    && (current == [] ==> groups == [])
    && (current != [] ==>
          && Fits(current, costs, lim)
          && (groups != [] ==> !Fits(groups[|groups| - 1] + [current[0]], costs, lim)))
  }

  lemma MaximalSnoc(groups: seq<Group>, current: Group, costs: seq<nat>, lim: Limits)
    requires Maximal(groups, costs, lim)
    requires current != []
    requires groups != [] ==> !Fits(groups[|groups| - 1] + [current[0]], costs, lim)
    ensures Maximal(groups + [current], costs, lim)
  {
    hide Fits;
    var longer := groups + [current];
    forall k | 0 < k < |longer| && longer[k] != []
      ensures !Fits(longer[k - 1] + [longer[k][0]], costs, lim)
    {
      if k < |groups| {
        assert longer[k] == groups[k] && longer[k - 1] == groups[k - 1];
      }
    }
  }

  lemma PlanSnoc(groups: seq<Group>, current: Group, costs: seq<nat>, lim: Limits)
    requires IsPlan(groups, Concat(groups), costs, lim) && Fits(current, costs, lim)
    ensures IsPlan(groups + [current], Concat(groups) + current, costs, lim)
  {
    hide Fits;
  }

  /** Closing the current group keeps the plan greedy. */
  lemma CloseGroup(groups: seq<Group>, current: Group, next: nat, done: Group, costs: seq<nat>, lim: Limits)
    requires Growing(groups, current, done, costs, lim) && current != []
    requires next < |costs| && ValidLimits(lim)
    requires !Fits(current + [next], costs, lim)
    ensures Growing(groups + [current], [next], done + [next], costs, lim)
  {
    PlanSnoc(groups, current, costs, lim);
    var longer := groups + [current];
    assert Concat(longer) + [next] == done + [next];
    assert longer[|longer| - 1] == current;
  }

  lemma ExtendGroup(groups: seq<Group>, current: Group, next: nat, done: Group, costs: seq<nat>, lim: Limits)
    requires Growing(groups, current, done, costs, lim)
    requires Fits(current + [next], costs, lim)
    ensures Growing(groups, current + [next], done + [next], costs, lim)
  {
    hide Fits;
    assert Concat(groups) + (current + [next]) == done + [next];
    if current != [] {
      assert (current + [next])[0] == current[0];
    }
  }

  lemma TotalSnoc(group: Group, i: nat, costs: seq<nat>)
    requires InRange(group, |costs|) && i < |costs|
    ensures InRange(group + [i], |costs|) && Total(group + [i], costs) == Total(group, costs) + costs[i]
  {
    assert (group + [i])[..|group|] == group;
  }

  /** The bounds the loop checks are the bounds on the longer group. */
  lemma FitsNext(group: Group, i: nat, costs: seq<nat>, lim: Limits)
    requires ValidLimits(lim) && lim.budget > 0 && InRange(group, |costs|) && i < |costs|
    ensures Fits(group + [i], costs, lim) <==>
            group == [] || (|group| < lim.size && Total(group, costs) + costs[i] <= lim.budget)
  {
    TotalSnoc(group, i, costs);
    hide Total;
  }

  lemma GrowingStarts(costs: seq<nat>, lim: Limits)
    ensures Growing([], [], [], costs, lim) && Total([], costs) == 0
  {
  }

  lemma GrowingEnds(groups: seq<Group>, current: Group, done: Group, costs: seq<nat>, lim: Limits)
    requires Growing(groups, current, done, costs, lim)
    ensures var plan := if current == [] then groups else groups + [current];
            IsPlan(plan, done, costs, lim) && Maximal(plan, costs, lim)
  {
    if current != [] {
      PlanSnoc(groups, current, costs, lim);
    }
  }

  /** The token-bounded pass over the work (translator.py 2214-2229). */
  method GreedyGroups(work: Group, costs: seq<nat>, lim: Limits) returns (groups: seq<Group>)
    requires ValidLimits(lim) && lim.budget > 0 && InRange(work, |costs|)
    ensures IsPlan(groups, work, costs, lim) && Maximal(groups, costs, lim)
  {
    hide Fits, Total, Growing, IsPlan, Maximal, ValidLimits;
    groups := [];
    var current: Group := [];
    var currentTokens := 0;
    GrowingStarts(costs, lim);
    assert work[..0] == [];
    for n := 0 to |work|
      invariant InRange(current, |costs|) && currentTokens == Total(current, costs)
      invariant Growing(groups, current, work[..n], costs, lim)
    {
      var index := work[n];
      var tokens := costs[index];
      assert work[..n + 1] == work[..n] + [index];
      FitsNext(current, index, costs, lim);
      if current != [] && (|current| >= lim.size || currentTokens + tokens > lim.budget) {
        CloseGroup(groups, current, index, work[..n], costs, lim);
        groups := groups + [current];
        current, currentTokens := [], 0;
        assert [] + [index] == [index];
      } else {
        ExtendGroup(groups, current, index, work[..n], costs, lim);
      }
      TotalSnoc(current, index, costs);
      current, currentTokens := current + [index], currentTokens + tokens;
    }
    assert work[..|work|] == work;
    GrowingEnds(groups, current, work, costs, lim);
    if current != [] {
      groups := groups + [current];
    }
  }

  /** The least number of groups of at most `d` that hold `n`. */
  function Ceil(n: nat, d: nat): nat
    requires d >= 1
  {
    if n == 0 then 0 else if n <= d then 1 else 1 + Ceil(n - d, d)
  }

  lemma {:induction false} CeilIsLeast(n: nat, d: nat)
    requires d >= 1
    ensures n <= Ceil(n, d) * d
    ensures n > 0 ==> (Ceil(n, d) - 1) * d < n
  {
    if n > d {
      CeilIsLeast(n - d, d);
      assert Ceil(n, d) * d == Ceil(n - d, d) * d + d;
    }
  }

  lemma {:induction false} CeilMonotone(n: nat, n': nat, d: nat)
    requires d >= 1 && n <= n'
    ensures Ceil(n, d) <= Ceil(n', d)
  {
    if n > d {
      CeilMonotone(n - d, n' - d, d);
    }
  }

  lemma {:induction false} CeilOfOne(n: nat)
    ensures Ceil(n, 1) == n
  {
    if n > 1 { CeilOfOne(n - 1); }
  }

  lemma {:induction false} CeilHalves(n: nat, d: nat)
    requires n >= 2 && d >= 2
    ensures Ceil(n, d) < n
  {
    if n > d + 1 { CeilHalves(n - d, d); }
  }

  lemma {:induction false} CeilAfterSlices(k: nat, n: nat, d: nat)
    requires d >= 1 && 0 < n <= d
    ensures Ceil(k * d + n, d) == k + 1
  {
    if k > 0 {
      CeilAfterSlices(k - 1, n, d);
      assert k * d + n - d == (k - 1) * d + n;
      assert (k - 1) * d >= 0;
    }
  }

  /** The slices used when no token budget is set (translator.py 2211-2212). */
  method SliceGroups(work: Group, costs: seq<nat>, lim: Limits) returns (groups: seq<Group>)
    requires ValidLimits(lim) && lim.budget == 0 && InRange(work, |costs|)
    ensures IsPlan(groups, work, costs, lim) && Maximal(groups, costs, lim)
    ensures |groups| == Ceil(|work|, lim.size)
  {
    groups := [];
    var offset := 0;
    assert work[..0] == [];
    while offset < |work|
      invariant 0 <= offset <= |work|
      invariant IsPlan(groups, work[..offset], costs, lim) && Maximal(groups, costs, lim)
      invariant offset < |work| ==> FullSlices(groups, offset, lim.size)
      invariant offset == |work| ==> |groups| == Ceil(|work|, lim.size)
    {
      var end := if offset + lim.size <= |work| then offset + lim.size else |work|;
      AddSlice(groups, work, offset, end, costs, lim);
      groups := groups + [work[offset..end]];
      offset := end;
    }
    assert work[..|work|] == work;
  }

  ghost predicate FullSlices(groups: seq<Group>, offset: nat, size: nat) {
    && offset == |groups| * size
    && (groups != [] ==> |groups[|groups| - 1]| == size)
  }

  lemma AddSlice(groups: seq<Group>, work: Group, offset: nat, end: nat, costs: seq<nat>, lim: Limits)
    requires ValidLimits(lim) && lim.budget == 0 && InRange(work, |costs|)
    requires offset < end <= |work| && end - offset <= lim.size
    requires IsPlan(groups, work[..offset], costs, lim) && Maximal(groups, costs, lim)
    requires FullSlices(groups, offset, lim.size)
    ensures
      var longer := groups + [work[offset..end]];
      && IsPlan(longer, work[..end], costs, lim)
      && Maximal(longer, costs, lim)
      && |longer| == Ceil(end, lim.size)
      && (end - offset == lim.size ==> FullSlices(longer, end, lim.size))
  {
    var slice := work[offset..end];
    assert work[..end] == work[..offset] + slice;
    assert Concat(groups) == work[..offset];
    PlanSnoc(groups, slice, costs, lim);
    SliceCount(groups, slice, offset, lim.size);
    hide Maximal, IsPlan, Fits, Ceil, FullSlices, InRange;
  }

  lemma SliceCount(groups: seq<Group>, slice: Group, offset: nat, size: nat)
    requires size >= 1 && 1 <= |slice| <= size && FullSlices(groups, offset, size)
    ensures |groups + [slice]| == Ceil(offset + |slice|, size)
    ensures |slice| == size ==> FullSlices(groups + [slice], offset + |slice|, size)
  {
    CeilAfterSlices(|groups|, |slice|, size);
    hide Ceil;
    var k := |groups|;
    assert k * size + size == (k + 1) * size;
  }

  datatype Grouped = Groups(groups: seq<Group>) | InvalidSize | InvalidBudget

  lemma {:induction false} InGroups(groups: seq<Group>, i: nat)
    ensures i in Concat<nat>(groups) <==> exists g :: 0 <= g < |groups| && i in groups[g]
  {
    if groups != [] {
      var init, last := groups[..|groups| - 1], |groups| - 1;
      InGroups(init, i);
      if g :| 0 <= g < |groups| && i in groups[g] {
        assert g < last ==> init[g] == groups[g];
      }
      if g :| 0 <= g < |init| && i in init[g] {
        assert groups[g] == init[g];
      }
      assert i in groups[last] ==> exists g :: 0 <= g < |groups| && i in groups[g];
    }
  }

  /** Exactly the paragraphs with a character that is not white space are in a group. */
  lemma TextIsGrouped(groups: seq<Group>, texts: seq<string>, costs: seq<nat>, lim: Limits, i: nat)
    requires IsPlan(groups, Work(texts), costs, lim) && i < |texts|
    ensures (exists g :: 0 <= g < |groups| && i in groups[g]) <==>
            exists k :: 0 <= k < |texts[i]| && !IsSpace(texts[i][k])
  {
    WorkMeans(texts);
    HasTextMeans(texts[i]);
    InGroups(groups, i);
    assert i in Concat<nat>(groups) <==> HasText(texts[i]);
    hide *;
  }

  /** Each group keeps to the limits, but for a single paragraph that alone exceeds the
      token limit; and each is as long as the limits allow, but for the last. */
  lemma GroupMeans(groups: seq<Group>, work: Group, costs: seq<nat>, lim: Limits, g: nat)
    requires IsPlan(groups, work, costs, lim) && Maximal(groups, costs, lim) && g < |groups|
    ensures InRange(groups[g], |costs|) && 1 <= |groups[g]| <= lim.size
    ensures lim.budget == 0 || |groups[g]| == 1 || Total(groups[g], costs) <= lim.budget
    ensures g + 1 < |groups| ==>
              && groups[g + 1] != [] && groups[g + 1][0] < |costs|
              && (|| |groups[g]| == lim.size
                  || (lim.budget > 0 && Total(groups[g], costs) + costs[groups[g + 1][0]] > lim.budget))
  {
    hide Total, Concat;
    assert Fits(groups[g], costs, lim);
    if g + 1 < |groups| {
      var next := groups[g + 1];
      assert Fits(next, costs, lim);
      assert !Fits(groups[g + 1 - 1] + [next[0]], costs, lim);
      assert InRange(groups[g] + [next[0]], |costs|);
      if lim.budget > 0 {
        FitsNext(groups[g], next[0], costs, lim);
      }
    }
  }

  /** `translation_groups` for an explicit size and budget. */
  method TranslationGroups(texts: seq<string>, costs: seq<nat>, size: int, budget: int)
    returns (r: Grouped)
    requires |costs| == |texts|
    ensures r == InvalidSize <==> size <= 0
    ensures r == InvalidBudget <==> size > 0 && budget < 0
    ensures r.Groups? ==>
              var lim := Limits(size, budget);
              && IsPlan(r.groups, Work(texts), costs, lim)
              && Maximal(r.groups, costs, lim)
              && (forall other :: IsPlan(other, Work(texts), costs, lim) ==> |r.groups| <= |other|)
              && (budget == 0 ==> |r.groups| == Ceil(|Work(texts)|, size))
  {
    if size <= 0 { return InvalidSize; }
    if budget < 0 { return InvalidBudget; }
    var work, lim := Work(texts), Limits(size, budget);
    WorkMeans(texts);
    hide *;
    var groups: seq<Group>;
    if budget == 0 {
      groups := SliceGroups(work, costs, lim);
    } else {
      groups := GreedyGroups(work, costs, lim);
    }
    forall other | IsPlan(other, work, costs, lim) ensures |groups| <= |other| {
      GreedyIsShortest(groups, other, work, costs, lim);
    }
    r := Groups(groups);
  }

  // ---- the `selected_groups` check ----

  predicate Sorted(s: Group) {
    forall i, j :: 0 <= i < j < |s| ==> s[i] <= s[j]
  }

  predicate Distinct(s: Group) {
    forall i, j :: 0 <= i < j < |s| ==> s[i] != s[j]
  }

  /** The flattened indices are unique, in range, non-blank and in order. */
  predicate FlatAccepted(flat: Group, texts: seq<string>) {
    && Distinct(flat)
    && (forall i :: 0 <= i < |flat| ==> flat[i] < |texts| && HasText(texts[flat[i]]))
    && Sorted(flat)
  }

  predicate GroupAccepted(group: Group, costs: seq<nat>, lim: Limits) {
    && group != []
    && Sorted(group)
    && |group| <= (if lim.size > 1 then lim.size else 1)
    && InRange(group, |costs|)
    && (lim.budget == 0 || |group| == 1 || Total(group, costs) <= lim.budget)
  }

  /** What `translate_batch_detailed` accepts as `selected_groups`. */
  predicate Selected(groups: seq<Group>, texts: seq<string>, costs: seq<nat>, lim: Limits)
    requires |costs| == |texts|
  {
    && FlatAccepted(Concat<nat>(groups), texts)
    && forall k :: 0 <= k < |groups| ==> GroupAccepted(groups[k], costs, lim)
  }

  /** The groups marked for fresh work, in order. */
  function Keep(plan: seq<Group>, keep: seq<bool>): (kept: seq<Group>)
    requires |keep| == |plan|
  {
    if plan == [] then []
    else
      var last := |plan| - 1;
      Keep(plan[..last], keep[..last]) + (if keep[last] then [plan[last]] else [])
  }

  lemma {:induction false} KeepIsOrdered(plan: seq<Group>, keep: seq<bool>)
    requires |keep| == |plan| && Increasing(Concat(plan))
    ensures Increasing(Concat(Keep(plan, keep)))
    ensures forall i :: i in Concat(Keep(plan, keep)) ==> i in Concat(plan)
    ensures forall g :: g in Keep(plan, keep) ==> g in plan
  {
    if plan != [] {
      var last := |plan| - 1;
      var before := Keep(plan[..last], keep[..last]);
      assert Concat(plan) == Concat(plan[..last]) + plan[last];
      IncreasingParts(Concat(plan[..last]), plan[last]);
      KeepIsOrdered(plan[..last], keep[..last]);
      if keep[last] {
        IncreasingJoin(Concat(before), Concat(plan[..last]), plan[last]);
      } else {
        assert before + [] == before;
      }
    }
  }

  lemma IncreasingParts(a: Group, b: Group)
    requires Increasing(a + b)
    ensures Increasing(a) && Increasing(b)
    ensures forall x, y :: x in a && y in b ==> x < y
  {
    var s := a + b;
    forall i, j | 0 <= i < j < |a| ensures a[i] < a[j] {
      assert s[i] < s[j];
    }
    forall i, j | 0 <= i < j < |b| ensures b[i] < b[j] {
      assert s[|a| + i] < s[|a| + j];
    }
    forall x, y | x in a && y in b ensures x < y {
      var i :| 0 <= i < |a| && a[i] == x;
      var j :| 0 <= j < |b| && b[j] == y;
      assert s[i] < s[|a| + j];
    }
  }

  lemma IncreasingJoin(kept: Group, a: Group, b: Group)
    requires Increasing(kept) && Increasing(b)
    requires forall x :: x in kept ==> x in a
    requires forall x, y :: x in a && y in b ==> x < y
    ensures Increasing(kept + b)
  {
    var s := kept + b;
    forall i, j | 0 <= i < j < |s| ensures s[i] < s[j] {
      if i < |kept| <= j {
        assert kept[i] in kept && b[j - |kept|] in b;
      }
    }
  }

  lemma {:induction false} GroupIncreasing(plan: seq<Group>, k: nat)
    requires k < |plan| && Increasing(Concat(plan))
    ensures Increasing(plan[k])
  {
    GroupIsSlice(plan, k);
    var flat, a := Concat(plan), End(plan, k);
    forall i, j | 0 <= i < j < |plan[k]| ensures plan[k][i] < plan[k][j] {
      assert flat[a + i] < flat[a + j];
    }
  }

  /** Any choice of the plan's groups passes the check. */
  lemma ChosenGroupsAreSelected(plan: seq<Group>, keep: seq<bool>, texts: seq<string>,
                                costs: seq<nat>, lim: Limits)
    requires |costs| == |texts| && |keep| == |plan|
    requires IsPlan(plan, Work(texts), costs, lim)
    ensures Selected(Keep(plan, keep), texts, costs, lim)
  {
    WorkMeans(texts);
    KeepIsOrdered(plan, keep);
    var kept := Keep(plan, keep);
    hide Keep, Concat, Work, HasText, Fits, Increasing;
    forall k | 0 <= k < |kept| ensures GroupAccepted(kept[k], costs, lim) {
      assert kept[k] in kept;
      GroupIncreasing(kept, k);
    }
    var flat: Group := Concat<nat>(kept);
    forall i | 0 <= i < |flat| ensures flat[i] < |texts| && HasText(texts[flat[i]]) {
      assert flat[i] in flat;
    }
    hide FlatAccepted, GroupAccepted;
  }

  // ---- the startup attempt check ----

  predicate Bounded(costs: seq<nat>, most: nat) {
    forall i :: 0 <= i < |costs| ==> costs[i] <= most
  }

  /** No request of at most `n` paragraphs, none estimated above `most` tokens, needs
      more than ceil(n / size) groups. */
  ghost predicate OneAttemptPerSlice(n: nat, lim: Limits, most: nat)
    requires ValidLimits(lim)
  {
    forall plan: seq<Group>, work: Group, costs: seq<nat> ::
      |work| <= n && Bounded(costs, most) && IsPlan(plan, work, costs, lim) && Maximal(plan, costs, lim)
      ==> |plan| <= Ceil(n, lim.size)
  }

  /** How many of the largest paragraphs always share a group. */
  function SafeSize(lim: Limits, most: nat): nat
    requires ValidLimits(lim)
  {
    if lim.budget == 0 || most == 0 || lim.size <= lim.budget / most then lim.size
    else if lim.budget / most == 0 then 1
    else lim.budget / most
  }

  /** The startup check asks for one attempt per slice of `size` paragraphs. That is
      enough for every request exactly when slices of the safe size are as few. With
      a token budget that `size` largest paragraphs exceed, it need not be. */
  lemma StartupCheckIsExact(n: nat, lim: Limits, most: nat)
    requires ValidLimits(lim)
    ensures OneAttemptPerSlice(n, lim, most) <==> Ceil(n, SafeSize(lim, most)) <= Ceil(n, lim.size)
  {
    var safe := SafeSize(lim, most);
    if Ceil(n, safe) <= Ceil(n, lim.size) {
      forall plan: seq<Group>, work: Group, costs: seq<nat> |
        |work| <= n && Bounded(costs, most) && IsPlan(plan, work, costs, lim) && Maximal(plan, costs, lim)
        ensures |plan| <= Ceil(n, lim.size)
      {
        PlanNeedsAtMost(plan, work, costs, lim, most);
        CeilMonotone(|work|, n, safe);
      }
    } else {
      var plan, work, costs := CostlyRequest(n, lim, most);
    }
  }

  /** Without a bound on the estimates: only where no budget is set or batching is
      trivial. */
  lemma StartupCheckUnbounded(n: nat, lim: Limits)
    requires ValidLimits(lim)
    ensures (forall most :: OneAttemptPerSlice(n, lim, most)) <==> lim.budget == 0 || lim.size == 1 || n <= 1
  {
    forall most ensures OneAttemptPerSlice(n, lim, most) <==> Ceil(n, SafeSize(lim, most)) <= Ceil(n, lim.size) {
      StartupCheckIsExact(n, lim, most);
    }
    hide OneAttemptPerSlice, Ceil, SafeSize;
    if lim.budget > 0 && lim.size > 1 && n > 1 {
      CeilOfOne(n);
      OneIsSafe(lim);
      CeilHalves(n, lim.size);
      assert !OneAttemptPerSlice(n, lim, lim.budget + 1);
    } else {
      forall most ensures Ceil(n, SafeSize(lim, most)) <= Ceil(n, lim.size) {
        AllIsSafe(n, lim, most);
      }
    }
  }

  lemma OneIsSafe(lim: Limits)
    requires ValidLimits(lim) && lim.budget > 0 && lim.size > 1
    ensures SafeSize(lim, lim.budget + 1) == 1
  {
  }

  lemma AllIsSafe(n: nat, lim: Limits, most: nat)
    requires ValidLimits(lim) && (lim.budget == 0 || lim.size == 1 || n <= 1)
    ensures Ceil(n, SafeSize(lim, most)) <= Ceil(n, lim.size)
  {
    SafeSizeMeans(lim, most);
    hide SafeSize;
  }

  lemma {:induction false} TotalAtMost(group: Group, costs: seq<nat>, most: nat)
    requires InRange(group, |costs|) && Bounded(costs, most)
    ensures Total(group, costs) <= |group| * most
  {
    if group != [] {
      TotalAtMost(group[..|group| - 1], costs, most);
      assert |group| * most == (|group| - 1) * most + most;
    }
  }

  lemma {:induction false} TotalEven(group: Group, costs: seq<nat>, most: nat)
    requires InRange(group, |costs|) && forall i :: 0 <= i < |costs| ==> costs[i] == most
    ensures Total(group, costs) == |group| * most
  {
    if group != [] {
      TotalEven(group[..|group| - 1], costs, most);
      assert |group| * most == (|group| - 1) * most + most;
    }
  }

  lemma SafeSizeMeans(lim: Limits, most: nat)
    requires ValidLimits(lim)
    ensures var safe := SafeSize(lim, most);
            && 1 <= safe <= lim.size
            && (lim.budget == 0 || safe == 1 || safe * most <= lim.budget)
            && (safe < lim.size ==> lim.budget > 0 && (safe + 1) * most > lim.budget)
  {
    if lim.budget > 0 && most > 0 {
      var k := lim.budget / most;
      assert k * most <= lim.budget < (k + 1) * most;
      if lim.size <= k {
        assert lim.size * most <= k * most;
      }
    }
  }

  /** Up to the safe size any paragraphs fit together. */
  lemma SafeFits(group: Group, costs: seq<nat>, lim: Limits, most: nat)
    requires ValidLimits(lim) && InRange(group, |costs|) && Bounded(costs, most)
    requires 1 <= |group| <= SafeSize(lim, most)
    ensures Fits(group, costs, lim)
  {
    SafeSizeMeans(lim, most);
    TotalAtMost(group, costs, most);
    var safe := SafeSize(lim, most);
    hide SafeSize, Total;
    if lim.budget > 0 && |group| > 1 {
      assert |group| * most <= safe * most;
    }
  }

  /** A greedy plan is no longer than slices of the safe size. */
  lemma PlanNeedsAtMost(plan: seq<Group>, work: Group, costs: seq<nat>, lim: Limits, most: nat)
    requires ValidLimits(lim) && IsPlan(plan, work, costs, lim) && Maximal(plan, costs, lim) && Bounded(costs, most)
    ensures |plan| <= Ceil(|work|, SafeSize(lim, most))
  {
    PlanInRange(plan, work, costs, lim);
    var other := SlicePlan(work, costs, lim, most);
    GreedyIsShortest(plan, other, work, costs, lim);
  }

  lemma {:induction false} PlanInRange(plan: seq<Group>, work: Group, costs: seq<nat>, lim: Limits)
    requires IsPlan(plan, work, costs, lim)
    ensures InRange(work, |costs|)
    decreases |plan|
  {
    if plan != [] {
      var last := |plan| - 1;
      assert Fits(plan[last], costs, lim);
      PlanInRange(plan[..last], Concat(plan[..last]), costs, lim);
    }
  }

  lemma {:induction false} SlicePlan(work: Group, costs: seq<nat>, lim: Limits, most: nat) returns (plan: seq<Group>)
    requires ValidLimits(lim) && InRange(work, |costs|) && Bounded(costs, most)
    ensures IsPlan(plan, work, costs, lim) && |plan| == Ceil(|work|, SafeSize(lim, most))
    decreases |work|
  {
    hide Fits, SafeSize;
    SafeSizeMeans(lim, most);
    if |work| == 0 {
      plan := [];
    } else {
      var safe := SafeSize(lim, most);
      var cut := if |work| <= safe then 0 else |work| - safe;
      var before := SlicePlan(work[..cut], costs, lim, most);
      assert work == work[..cut] + work[cut..];
      SafeFits(work[cut..], costs, lim, most);
      PlanSnoc(before, work[cut..], costs, lim);
      plan := before + [work[cut..]];
    }
  }

  /** `n` paragraphs of the largest size: every group but the last has the safe size. */
  lemma CostlyRequest(n: nat, lim: Limits, most: nat)
    returns (plan: seq<Group>, work: Group, costs: seq<nat>)
    requires ValidLimits(lim)
    ensures |work| == |costs| == n && Bounded(costs, most)
    ensures IsPlan(plan, work, costs, lim) && Maximal(plan, costs, lim)
    ensures |plan| == Ceil(n, SafeSize(lim, most))
  {
    costs, work := seq(n, _ => most), seq(n, i => i);
    var safe := SafeSize(lim, most);
    SafeSizeMeans(lim, most);
    plan := [];
    var offset := 0;
    assert work[..0] == [];
    while offset < n
      invariant 0 <= offset <= n
      invariant IsPlan(plan, work[..offset], costs, lim) && Maximal(plan, costs, lim)
      invariant offset < n ==> FullSlices(plan, offset, safe)
      invariant offset == n ==> |plan| == Ceil(n, safe)
    {
      hide IsPlan, Maximal, FullSlices, SafeSize;
      var end := if offset + safe <= n then offset + safe else n;
      AddEvenSlice(plan, work, offset, end, costs, lim, most);
      plan := plan + [work[offset..end]];
      offset := end;
    }
    assert work[..n] == work;
  }

  lemma AddEvenSlice(groups: seq<Group>, work: Group, offset: nat, end: nat, costs: seq<nat>, lim: Limits, most: nat)
    requires ValidLimits(lim) && InRange(work, |costs|) && forall i :: 0 <= i < |costs| ==> costs[i] == most
    requires offset < end <= |work| && end - offset <= SafeSize(lim, most)
    requires IsPlan(groups, work[..offset], costs, lim) && Maximal(groups, costs, lim)
    requires FullSlices(groups, offset, SafeSize(lim, most))
    ensures
      var longer := groups + [work[offset..end]];
      && IsPlan(longer, work[..end], costs, lim)
      && Maximal(longer, costs, lim)
      && |longer| == Ceil(end, SafeSize(lim, most))
      && (end - offset == SafeSize(lim, most) ==> FullSlices(longer, end, SafeSize(lim, most)))
  {
    var slice := work[offset..end];
    assert work[..end] == work[..offset] + slice;
    assert Concat(groups) == work[..offset];
    SafeSizeMeans(lim, most);
    SafeFits(slice, costs, lim, most);
    PlanSnoc(groups, slice, costs, lim);
    SliceCount(groups, slice, offset, SafeSize(lim, most));
    if groups != [] {
      var last := groups[|groups| - 1];
      assert Fits(last, costs, lim);
      FullRefuses(last, slice[0], costs, lim, most);
    }
    MaximalSnoc(groups, slice, costs, lim);
    hide Maximal, IsPlan, Fits, Ceil, FullSlices, InRange, SafeSize;
  }

  /** A group of the safe size has no room for another of the largest paragraphs. */
  lemma FullRefuses(group: Group, i: nat, costs: seq<nat>, lim: Limits, most: nat)
    requires ValidLimits(lim) && InRange(group, |costs|) && i < |costs| && |group| == SafeSize(lim, most)
    requires forall j :: 0 <= j < |costs| ==> costs[j] == most
    ensures !Fits(group + [i], costs, lim)
  {
    SafeSizeMeans(lim, most);
    TotalEven(group + [i], costs, most);
    hide SafeSize, Total;
  }
}
