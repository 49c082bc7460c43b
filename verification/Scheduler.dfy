/** Running the groups of one request through a bounded window of workers, for
    every order in which the workers may finish. */
module Scheduler {
  import opened Text
  import opened Completion
  import opened Options
  import opened GroupOperation
  import opened Grouping
  import opened WorkBudget

  /** How one worker ends. `_do_group` turns ordinary failures into items. */
  datatype WorkerEnd = Finished(items: seq<Item>) | OverBudget(reason: Reason) | ProtocolFailure

  const EMPTY_SLOT := Item("", None, false, Empty)
  const MISSING_SLOT := Item("[TRANSLATION ERROR: missing segment]", None, false, Failed)

  datatype BatchEnd = Results(results: seq<Item>) | BudgetRaised(reason: Reason) | ProtocolRaised

  /** The item of position `j` in a finished group. */
  function SlotOf(end: WorkerEnd, j: nat): (item: Item)
    requires end.Finished?
  {
    if j < |end.items| then end.items[j] else MISSING_SLOT
  }

  /** Indices of different positions differ, and all are in range. */
  ghost predicate Disjoint(groups: seq<Group>, n: nat) {
    && (forall g, j :: 0 <= g < |groups| && 0 <= j < |groups[g]| ==> groups[g][j] < n)
    && (forall g, j, h, i | 0 <= g < |groups| && 0 <= j < |groups[g]|
                            && 0 <= h < |groups| && 0 <= i < |groups[h]| ::
          groups[g][j] == groups[h][i] ==> g == h && j == i)
  }

  /** The groups in `done` have written exactly their own items. */
  ghost predicate Written(results: seq<Item>, groups: seq<Group>, ends: seq<WorkerEnd>, done: set<nat>, n: nat)
    requires |ends| == |groups|
  {
    && |results| == n
    && (forall g :: g in done ==> g < |groups| && ends[g].Finished?)
    && (forall g, j :: g in done && 0 <= j < |groups[g]| && groups[g][j] < n ==>
          results[groups[g][j]] == SlotOf(ends[g], j))
    && (forall i :: 0 <= i < n && (forall g :: g in done ==> i !in groups[g]) ==> results[i] == EMPTY_SLOT)
  }

  /** Writing one finished group's slots (translator.py 2607-2619). */
  method WriteGroup(results0: seq<Item>, groups: seq<Group>, ends: seq<WorkerEnd>, ghost done: set<nat>, g: nat, n: nat)
    returns (results: seq<Item>)
    requires |ends| == |groups| && Disjoint(groups, n)
    requires g < |groups| && g !in done && ends[g].Finished?
    requires Written(results0, groups, ends, done, n)
    ensures Written(results, groups, ends, done + {g}, n)
  {
    results := results0;
    var idxs, end := groups[g], ends[g];
    for j := 0 to |idxs|
      invariant |results| == n
      invariant forall i :: 0 <= i < j ==> results[idxs[i]] == SlotOf(end, i)
      invariant forall i :: 0 <= i < n && i !in idxs[..j] ==> results[i] == results0[i]
    {
      assert idxs[..j + 1] == idxs[..j] + [idxs[j]];
      results := results[idxs[j] := SlotOf(end, j)];
    }
    assert idxs[..|idxs|] == idxs;
    forall h, j | h in done + {g} && 0 <= j < |groups[h]| && groups[h][j] < n
      ensures results[groups[h][j]] == SlotOf(ends[h], j)
    {
      if h != g {
        assert groups[h][j] !in idxs;
      }
    }
    forall i | 0 <= i < n && (forall h :: h in done + {g} ==> i !in groups[h])
      ensures results[i] == EMPTY_SLOT
    {
      assert g in done + {g};
      assert forall h :: h in done ==> h in done + {g};
    }
  }

  /** What a worker does to the shared budget when it fails (translator.py 2544-2554). */
  method Report(end: WorkerEnd, budget: Budget)
    requires budget.Valid()
    modifies budget`cancelReason
    ensures budget.Valid()
    ensures budget.cancelReason ==
            if old(budget.cancelReason).Some? || end.Finished? then old(budget.cancelReason)
            else if end.ProtocolFailure? then Some("cancelled")
            else Some(end.reason)
  {
    match end {
      case Finished(_) =>
      case ProtocolFailure => var _ := budget.Cancel("cancelled");
      case OverBudget(reason) => var _ := budget.Cancel(reason);
    }
  }

  ghost function Below(n: nat): (s: set<nat>)
    ensures forall g :: g in s <==> 0 <= g < n
  {
    if n == 0 then {} else Below(n - 1) + {n - 1}
  }

  /** Work left: every future is submitted once and collected once. */
  ghost function Left(total: nat, next: nat, running: set<nat>): int {
    2 * (total - next) + |running|
  }

  /** Filling the window (translator.py 2590-2592). */
  method Submit(next0: nat, running0: set<nat>, total: nat, maxConcurrent: nat, ghost written: set<nat>)
    returns (next: nat, running: set<nat>)
    requires maxConcurrent >= 1 && |running0| <= maxConcurrent
    requires next0 <= total && (next0 < total || running0 != {})
    requires running0 !! written && running0 + written == Below(next0)
    ensures next0 <= next <= total && running0 <= running
    ensures running != {} && |running| <= maxConcurrent
    ensures |running| == maxConcurrent || next == total
    ensures running !! written && running + written == Below(next)
    ensures Left(total, next, running) <= Left(total, next0, running0)
  {
    next, running := next0, running0;
    while next < total && |running| < maxConcurrent
      invariant next0 <= next <= total && running0 <= running && |running| <= maxConcurrent
      invariant running !! written && running + written == Below(next)
      invariant Left(total, next, running) <= Left(total, next0, running0)
      invariant next == next0 || running != {}
    {
      assert next !in running + written;
      assert (running + {next}) + written == Below(next + 1);
      running := running + {next};
      next := next + 1;
    }
  }

  predicate Gives(end: WorkerEnd, why: Reason) {
    end == OverBudget(why) || (end == ProtocolFailure && why == "cancelled")
  }

  /** A reason that was there stays; a new one is a worker's. */
  ghost predicate Recorded(reason: Option<Reason>, was: Option<Reason>, ends: seq<WorkerEnd>) {
    if was.Some? then reason == was
    else reason.Some? ==> exists g :: 0 <= g < |ends| && Gives(ends[g], reason.value)
  }

  /** The workers in `reporting` fail or finish, in any order, each telling the budget. */
  method ReportAll(ends: seq<WorkerEnd>, reporting: set<nat>, budget: Budget)
    requires forall g :: g in reporting ==> g < |ends|
    requires budget.Valid()
    modifies budget`cancelReason
    ensures budget.Valid() && Recorded(budget.cancelReason, old(budget.cancelReason), ends)
    ensures (exists g :: g in reporting && !ends[g].Finished?) ==> budget.cancelReason.Some?
  {
    var todo := reporting;
    while todo != {}
      invariant todo <= reporting && budget.Valid()
      invariant Recorded(budget.cancelReason, old(budget.cancelReason), ends)
      invariant forall g :: g in reporting && g !in todo && !ends[g].Finished? ==> budget.cancelReason.Some?
      decreases |todo|
    {
      var g :| g in todo;
      todo := todo - {g};
      Report(ends[g], budget);
      assert !ends[g].Finished? && budget.cancelReason.Some? ==>
          Recorded(budget.cancelReason, old(budget.cancelReason), ends);
    }
  }

  /** What the caller is told when a collected future has failed (translator.py 2598-2605). */
  method Raise(end: WorkerEnd, published: bool) returns (r: BatchEnd)
    requires !end.Finished?
    ensures r == if end.ProtocolFailure? || (end.reason == "cancelled" && published) then ProtocolRaised
                 else BudgetRaised(end.reason)
  {
    match end {
      case ProtocolFailure => r := ProtocolRaised;
      case OverBudget(reason) =>
        if reason == "cancelled" && published {
          return ProtocolRaised;
        }
        r := BudgetRaised(reason);
    }
  }

  /** Some worker of the batch gave this ending. */
  ghost predicate Explained(end: BatchEnd, ends: seq<WorkerEnd>) {
    match end
    case Results(_) => false
    case BudgetRaised(reason) => exists g :: 0 <= g < |ends| && ends[g] == OverBudget(reason)
    case ProtocolRaised => exists g :: 0 <= g < |ends| && ends[g] == ProtocolFailure
  }

  datatype Collected = Collected(results: seq<Item>) | Stopped(end: BatchEnd)

  /** Collecting the finished futures, in any order. `published` says whether a
      worker has already published a protocol failure. */
  method Collect(results0: seq<Item>, groups: seq<Group>, ends: seq<WorkerEnd>, done: set<nat>,
                 published: bool, n: nat, ghost written0: set<nat>)
    returns (c: Collected)
    requires |ends| == |groups| && Disjoint(groups, n)
    requires done !! written0 && (forall g :: g in done ==> g < |groups|)
    requires Written(results0, groups, ends, written0, n)
    requires published ==> Explained(ProtocolRaised, ends)
    ensures c.Collected? <==> forall g :: g in done ==> ends[g].Finished?
    ensures c.Collected? ==> Written(c.results, groups, ends, written0 + done, n)
    ensures c.Stopped? ==> Explained(c.end, ends)
  {
    var results, todo := results0, done;
    ghost var written := written0;
    hide Written, Disjoint, Explained, Gives;
    while todo != {}
      invariant Remaining(todo, written, done, written0)
      invariant Written(results, groups, ends, written, n)
      invariant forall g :: g in done && g !in todo ==> ends[g].Finished?
      decreases |todo|
    {
      var g :| g in todo;
      TakeOne(todo, written, done, written0, g);
      if !ends[g].Finished? {
        var end := Raise(ends[g], published);
        StopExplained(end, ends, g, published);
        return Stopped(end);
      }
      results := WriteGroup(results, groups, ends, written, g, n);
      written, todo := written + {g}, todo - {g};
    }
    assert written == written0 + done;
    c := Collected(results);
  }

  ghost predicate Remaining(todo: set<nat>, written: set<nat>, done: set<nat>, written0: set<nat>) {
    todo <= done && todo !! written && written + todo == written0 + done
  }

  lemma TakeOne(todo: set<nat>, written: set<nat>, done: set<nat>, written0: set<nat>, g: nat)
    requires Remaining(todo, written, done, written0) && g in todo
    ensures g in done && g !in written && |todo - {g}| < |todo|
    ensures Remaining(todo - {g}, written + {g}, done, written0)
  {
    assert (written + {g}) + (todo - {g}) == written + todo;
  }

  lemma StopExplained(end: BatchEnd, ends: seq<WorkerEnd>, g: nat, published: bool)
    requires g < |ends| && !ends[g].Finished? && (published ==> Explained(ProtocolRaised, ends))
    requires end == if ends[g].ProtocolFailure? || (ends[g].reason == "cancelled" && published) then ProtocolRaised
                    else BudgetRaised(ends[g].reason)
    ensures Explained(end, ends)
  {
  }

  /** Between rounds: the futures held, and what the collected groups wrote. */
  ghost predicate Window(next: nat, running: set<nat>, written: set<nat>, results: seq<Item>,
                         groups: seq<Group>, ends: seq<WorkerEnd>, n: nat)
    requires |ends| == |groups|
  {
    && next <= |groups|
    && running !! written && running + written == Below(next)
    && Written(results, groups, ends, written, n)
  }

  lemma WindowEmpty(groups: seq<Group>, ends: seq<WorkerEnd>, n: nat)
    requires |ends| == |groups|
    ensures Window(0, {}, {}, seq(n, _ => EMPTY_SLOT), groups, ends, n)
  {
  }

  lemma WindowDone(next: nat, written: set<nat>, results: seq<Item>,
                   groups: seq<Group>, ends: seq<WorkerEnd>, n: nat)
    requires |ends| == |groups| && Window(next, {}, written, results, groups, ends, n) && next == |groups|
    ensures Written(results, groups, ends, Below(|groups|), n)
    ensures forall g :: 0 <= g < |ends| ==> ends[g].Finished?
  {
    assert written == {} + written == Below(|groups|);
  }

  lemma MoveDone(running: set<nat>, written: set<nat>, done: set<nat>)
    requires done <= running && done != {} && running !! written
    ensures |running - done| < |running|
    ensures running - done !! written + done
    ensures (running - done) + (written + done) == running + written
  {
    assert |running - done| == |running| - |done|;
  }

  lemma BelowMeans(running: set<nat>, written: set<nat>, next: nat)
    requires running + written == Below(next)
    ensures forall g :: g in running ==> g < next
  {
    forall g | g in running ensures g < next {
      assert g in Below(next);
    }
  }

  lemma RecordedTwice(a: Option<Reason>, b: Option<Reason>, c: Option<Reason>, ends: seq<WorkerEnd>)
    requires Recorded(b, a, ends) && Recorded(c, b, ends)
    ensures Recorded(c, a, ends)
  {
  }

  lemma NobodyGives(reason: Option<Reason>, was: Option<Reason>, ends: seq<WorkerEnd>)
    requires Recorded(reason, was, ends) && forall g :: 0 <= g < |ends| ==> ends[g].Finished?
    ensures reason == was
  {
  }

  /** One pass of the outer loop (translator.py 2589-2619). Workers still running may
      already have told the budget that they fail. */
  method Round(next0: nat, running0: set<nat>, results: seq<Item>, groups: seq<Group>, ends: seq<WorkerEnd>,
               maxConcurrent: nat, budget: Budget, n: nat, ghost written: set<nat>)
    returns (next: nat, running: set<nat>, c: Collected, held: nat, ghost written': set<nat>)
    requires |ends| == |groups| && Disjoint(groups, n)
    requires budget.Valid()
    requires maxConcurrent >= 1 && |running0| <= maxConcurrent
    requires Window(next0, running0, written, results, groups, ends, n)
    requires next0 < |groups| || running0 != {}
    modifies budget`cancelReason
    ensures budget.Valid() && Recorded(budget.cancelReason, old(budget.cancelReason), ends)
    ensures |running| <= held <= maxConcurrent
    ensures c.Collected? ==>
              && Window(next, running, written', c.results, groups, ends, n)
              && Left(|groups|, next, running) < Left(|groups|, next0, running0)
    ensures c.Stopped? ==>
              budget.cancelReason.Some? && Explained(c.end, ends)
  {
    hide Written, Disjoint, Below, Recorded;
    next, running := Submit(next0, running0, |groups|, maxConcurrent, written);
    held := |running|;
    BelowMeans(running, written, next);
    var done: set<nat> :| done != {} && done <= running;
    var reporting: set<nat> :| done <= reporting <= running;
    ReportAll(ends, reporting, budget);
    var late: bool := *;
    var published := late && exists g :: g in running && ends[g] == ProtocolFailure;
    c := Collect(results, groups, ends, done, published, n, written);
    MoveDone(running, written, done);
    running, written' := running - done, written + done;
  }

  /** `translate_batch_detailed` after its checks: `ends[g]` is whatever worker
      `g` turns out to do. `peak` is the largest number of futures held. */
  method RunWindow(n: nat, groups: seq<Group>, ends: seq<WorkerEnd>, limit: int, budget: Budget)
    returns (r: BatchEnd, peak: nat)
    requires |ends| == |groups| && Disjoint(groups, n)
    requires budget.Valid()
    modifies budget`cancelReason
    ensures budget.Valid() && Recorded(budget.cancelReason, old(budget.cancelReason), ends)
    ensures peak <= if limit < 1 then 1 else limit
    ensures r.Results? <==> forall g :: 0 <= g < |ends| ==> ends[g].Finished?
    ensures r.Results? ==>
              budget.cancelReason == old(budget.cancelReason) && Written(r.results, groups, ends, Below(|groups|), n)
    ensures !r.Results? ==> budget.cancelReason.Some? && Explained(r, ends)
    ensures r.Results? ==>
              && |r.results| == n
              && (forall g, j :: 0 <= g < |groups| && 0 <= j < |groups[g]| ==>
                    && groups[g][j] < n && ends[g].Finished?
                    && r.results[groups[g][j]] ==
                       if j < |ends[g].items| then ends[g].items[j]
                       else Item("[TRANSLATION ERROR: missing segment]", None, false, Failed))
              && (forall i :: 0 <= i < n && (forall g :: 0 <= g < |groups| ==> i !in groups[g]) ==>
                    r.results[i] == Item("", None, false, Empty))
    ensures r.BudgetRaised? ==> exists g :: 0 <= g < |ends| && ends[g] == OverBudget(r.reason)
    ensures r.ProtocolRaised? ==> exists g :: 0 <= g < |ends| && ends[g] == ProtocolFailure
    ensures old(budget.cancelReason).Some? ==> budget.cancelReason == old(budget.cancelReason)
    ensures old(budget.cancelReason).None? && budget.cancelReason.Some? ==>
              exists g :: 0 <= g < |ends| && (ends[g] == OverBudget(budget.cancelReason.value)
                                              || (ends[g] == ProtocolFailure
                                                  && budget.cancelReason.value == "cancelled"))
  {
    var maxConcurrent: nat := if limit < 1 then 1 else limit;
    var results: seq<Item> := seq(n, _ => EMPTY_SLOT);
    WindowEmpty(groups, ends, n);
    peak := 0;
    var next: nat, running: set<nat> := 0, {};
    ghost var written: set<nat> := {};
    assert Recorded(budget.cancelReason, budget.cancelReason, ends);
    hide Written, Disjoint, Recorded, Explained;
    while next < |groups| || running != {}
      invariant |running| <= maxConcurrent && peak <= maxConcurrent
      invariant Window(next, running, written, results, groups, ends, n)
      invariant budget.Valid() && Recorded(budget.cancelReason, old(budget.cancelReason), ends)
      decreases Left(|groups|, next, running)
    {
      var c, held;
      ghost var was := budget.cancelReason;
      next, running, c, held, written :=
        Round(next, running, results, groups, ends, maxConcurrent, budget, n, written);
      RecordedTwice(old(budget.cancelReason), was, budget.cancelReason, ends);
      if held > peak { peak := held; }
      if c.Stopped? {
        StoppedEarly(c.end, ends);
        RecordedMeans(budget.cancelReason, old(budget.cancelReason), ends);
        return c.end, peak;
      }
      results := c.results;
    }
    WindowDone(next, written, results, groups, ends, n);
    NobodyGives(budget.cancelReason, old(budget.cancelReason), ends);
    RecordedMeans(budget.cancelReason, old(budget.cancelReason), ends);
    WrittenMeans(results, groups, ends, n);
    r := Results(results);
  }

  lemma RecordedMeans(reason: Option<Reason>, was: Option<Reason>, ends: seq<WorkerEnd>)
    requires Recorded(reason, was, ends)
    ensures was.Some? ==> reason == was
    ensures was.None? && reason.Some? ==>
              exists g :: 0 <= g < |ends| && (ends[g] == OverBudget(reason.value)
                                              || (ends[g] == ProtocolFailure && reason.value == "cancelled"))
  {
    if was.None? && reason.Some? {
      var g :| 0 <= g < |ends| && Gives(ends[g], reason.value);
      assert ends[g] == OverBudget(reason.value) || ends[g] == ProtocolFailure;
    }
  }

  lemma WrittenMeans(results: seq<Item>, groups: seq<Group>, ends: seq<WorkerEnd>, n: nat)
    requires |ends| == |groups| && Disjoint(groups, n) && Written(results, groups, ends, Below(|groups|), n)
    ensures |results| == n
    ensures forall g, j :: 0 <= g < |groups| && 0 <= j < |groups[g]| ==>
              && groups[g][j] < n && ends[g].Finished?
              && results[groups[g][j]] ==
                 if j < |ends[g].items| then ends[g].items[j]
                 else Item("[TRANSLATION ERROR: missing segment]", None, false, Failed)
    ensures forall i :: 0 <= i < n && (forall g :: 0 <= g < |groups| ==> i !in groups[g]) ==>
              results[i] == Item("", None, false, Empty)
  {
    forall g, j | 0 <= g < |groups| && 0 <= j < |groups[g]|
      ensures groups[g][j] < n && ends[g].Finished? && results[groups[g][j]] == SlotOf(ends[g], j)
    {
      assert g in Below(|groups|);
    }
  }

  lemma StoppedEarly(end: BatchEnd, ends: seq<WorkerEnd>)
    requires Explained(end, ends)
    ensures !end.Results? && exists g :: 0 <= g < |ends| && !ends[g].Finished?
    ensures end.BudgetRaised? ==> exists g :: 0 <= g < |ends| && ends[g] == OverBudget(end.reason)
    ensures end.ProtocolRaised? ==> exists g :: 0 <= g < |ends| && ends[g] == ProtocolFailure
  {
  }

  /** After a failed batch every reservation is refused, with the reason that was
      recorded first: one from before the batch, or a worker's. */
  method ReserveAfterFailure(n: nat, groups: seq<Group>, ends: seq<WorkerEnd>, limit: int, budget: Budget,
                             bytes: nat, tokens: int, now: int)
    returns (r: BatchEnd, admission: Admission)
    requires |ends| == |groups| && Disjoint(groups, n)
    requires budget.Valid() && tokens > 0
    modifies budget
    ensures !r.Results? ==> admission.Refused? && Recorded(Some(admission.reason), old(budget.cancelReason), ends)
  {
    hide Disjoint, Recorded, Written, Explained;
    var peak;
    r, peak := RunWindow(n, groups, ends, limit, budget);
    admission := budget.ReserveAttempt(bytes, tokens, now);
  }

  // ---- the workers ----

  /** `_do_group` on the end of its group operation (translator.py 2531-2584): budget
      exceptions pass, other failures become one error item per paragraph. */
  function EndOf(end: GroupEnd, n: nat): WorkerEnd {
    match end
    case Items(items) => Finished(items)
    case BudgetStop(reason) => OverBudget(reason)
    case Unserved(rateLimited) => Finished(seq(n, _ => ErrorItem(rateLimited, Failed)))
  }

  /** The worker's end is what its group operation decided: the same items, the
      budget's reason, or the error text of an unserved group for every paragraph. */
  ghost predicate EndsAs(end: WorkerEnd, n: nat, g: GroupEnd) {
    match g
    case Items(items) => end == Finished(items)
    case BudgetStop(reason) => end == OverBudget(reason)
    case Unserved(rateLimited) =>
      && end.Finished? && |end.items| == n
      && forall j :: 0 <= j < n ==>
           end.items[j] == Item(if rateLimited then "[TRANSLATION ERROR: provider_rate_limited]"
                                else "[TRANSLATION ERROR: provider_unavailable]", None, false, Failed)
  }

  /** Cacheable items name the provider that answered. */
  predicate NamesProviders(items: seq<Item>) {
    forall i :: 0 <= i < |items| && items[i].cacheable ==> items[i].provider.Some?
  }

  /** One item per paragraph, each naming its provider if it is cacheable. */
  predicate Proper(end: WorkerEnd, n: nat) {
    end.Finished? ==> |end.items| == n && NamesProviders(end.items)
  }

  /** `_do_group`: the budget is asked first, and once more for a group that is not
      a single text; then the group operation runs and decides the end. */
  method DoGroup(job: Job, outside: Outside, budget: Budget, now: int, later: int)
    returns (end: WorkerEnd, ghost g: GroupEnd, ghost t: Trace, ghost rec: Recovery)
    requires ValidJob(job) && budget.Valid()
    ensures Proper(end, |job.ids0|)
    ensures Spent(t, |job.ids0| + 2, job.policy, outside)
    ensures budget.Closed(now).Some? ==> end == OverBudget(budget.Closed(now).value) && t == []
    ensures budget.Closed(now).None? ==>
              if !SingleText(job) && budget.Closed(later).Some?
              then end == OverBudget(budget.Closed(later).value) && t == []
              else EndsAs(end, |job.ids0|, g) && Outcome(g, t, rec, job)
  {
    hide Spent, Outcome, NamesProviders;
    g, t, rec := Unserved(false), [], NO_RECOVERY;
    SpentNothing(job.policy, outside);
    SpentAtMost([], 0, |job.ids0| + 2, job.policy, outside);
    var first := budget.EnsureActive(now);
    if first.Refused? {
      end := OverBudget(first.reason);
      return;
    }
    if !SingleText(job) {
      var second := budget.EnsureActive(later);
      if second.Refused? {
        end := OverBudget(second.reason);
        return;
      }
    }
    var done, trace, tracker := TranslateGroup(job, outside);
    g, t, rec := done, trace, tracker;
    end := EndOf(done, |job.ids0|);
    EndIsProper(done, trace, tracker, job);
  }

  lemma EndIsProper(g: GroupEnd, t: Trace, rec: Recovery, job: Job)
    requires Outcome(g, t, rec, job)
    ensures Proper(EndOf(g, |job.ids0|), |job.ids0|)
  {
    hide GroupOperation.Stopped, Refuses;
    if g.Items? {
      CacheableTogether(g.items, t, rec, job);
      assert |g.items| == |job.ids0|;
    }
  }

  /** What the workers name, the results of the batch name. */
  lemma ResultsNameProviders(results: seq<Item>, groups: seq<Group>, ends: seq<WorkerEnd>, n: nat)
    requires |ends| == |groups| && Disjoint(groups, n)
    requires Written(results, groups, ends, Below(|groups|), n)
    requires forall g :: 0 <= g < |groups| ==> Proper(ends[g], |groups[g]|)
    ensures NamesProviders(results)
  {
    hide Disjoint;
    forall i | 0 <= i < n && results[i].cacheable ensures results[i].provider.Some? {
      if g :| 0 <= g < |groups| && i in groups[g] {
        assert g in Below(|groups|);
        var j :| 0 <= j < |groups[g]| && groups[g][j] == i;
        assert results[groups[g][j]] == SlotOf(ends[g], j);
      }
    }
  }

  lemma {:induction false} EndGrows(groups: seq<Group>, a: nat, b: nat)
    requires a <= b <= |groups|
    ensures End(groups, a) <= End(groups, b)
  {
    if a < b {
      EndGrows(groups, a, b - 1);
      GroupIsSlice(groups, b - 1);
    }
  }

  lemma SamePosition(groups: seq<Group>, g: nat, j: nat, h: nat, i: nat)
    requires Distinct(Concat<nat>(groups))
    requires g < |groups| && j < |groups[g]| && h < |groups| && i < |groups[h]|
    requires groups[g][j] == groups[h][i]
    ensures g == h && j == i
  {
    hide Concat, End;
    GroupIsSlice(groups, g);
    GroupIsSlice(groups, h);
    var flat := Concat<nat>(groups);
    assert flat[End(groups, g) + j] == flat[End(groups, h) + i];
    assert End(groups, g) + j == End(groups, h) + i;
    if g < h { EndGrows(groups, g + 1, h); }
    if h < g { EndGrows(groups, h + 1, g); }
  }

  /** Accepted groups never share a slot, so each selected slot is written once. */
  lemma SelectedIsDisjoint(groups: seq<Group>, texts: seq<string>, costs: seq<nat>, lim: Limits)
    requires |costs| == |texts| && Selected(groups, texts, costs, lim)
    ensures Disjoint(groups, |texts|)
  {
    hide Concat, HasText, Total, Distinct, Sorted;
    forall g, j | 0 <= g < |groups| && 0 <= j < |groups[g]|
      ensures groups[g][j] < |texts|
    {
      assert GroupAccepted(groups[g], costs, lim);
    }
    forall g, j, h, i | 0 <= g < |groups| && 0 <= j < |groups[g]|
                        && 0 <= h < |groups| && 0 <= i < |groups[h]|
                        && groups[g][j] == groups[h][i]
      ensures g == h && j == i
    {
      SamePosition(groups, g, j, h, i);
    }
  }
}
