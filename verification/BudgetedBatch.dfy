/** The workers of one batch and the budget they share: what the workers' traces say
    was reserved is what the budget granted. */
module BudgetedBatch {
  import opened Text
  import opened Options
  import opened Envelope
  import opened Completion
  import opened WorkBudget
  import opened GroupOperation
  import opened GroupEvents
  import opened Grouping
  import opened Scheduler

  // ---- what the budget told each worker ----

  /** One call of `reserve_attempt`, by one worker. */
  datatype Ask = Ask(worker: nat, bytes: nat, tokens: int, now: int)

  function CountTrue(answers: seq<bool>): nat {
    if answers == [] then 0
    else CountTrue(answers[..|answers| - 1]) + (if answers[|answers| - 1] then 1 else 0)
  }

  function CountAdmitted(answers: seq<Admission>): nat {
    if answers == [] then 0
    else CountAdmitted(answers[..|answers| - 1]) + (if answers[|answers| - 1] == Admitted then 1 else 0)
  }

  /** The answers one worker got, in lock order. */
  function ToldTo(asks: seq<Ask>, answers: seq<Admission>, w: nat): seq<bool>
    requires |answers| == |asks|
  {
    if asks == [] then []
    else
      var last := |asks| - 1;
      ToldTo(asks[..last], answers[..last], w) + (if asks[last].worker == w then [answers[last] == Admitted] else [])
  }

  /** What a trace says its reservations were answered. */
  function Heard(t: Trace): seq<bool> {
    if t == [] then []
    else
      var e := t[|t| - 1];
      Heard(t[..|t| - 1])
      + (if e.Reserved? then [true] else if e.Denied? && e.gate == ForAttempt then [false] else [])
  }

  /** Every reservation in every trace was answered by the budget. */
  ghost predicate Backed(traces: seq<Trace>, asks: seq<Ask>, answers: seq<Admission>)
    requires |answers| == |asks|
  {
    && (forall i :: 0 <= i < |asks| ==> asks[i].worker < |traces|)
    && (forall w :: 0 <= w < |traces| ==> Heard(traces[w]) == ToldTo(asks, answers, w))
  }

  // ---- counting ----

  function SumAttempts(traces: seq<Trace>): nat {
    if traces == [] then 0 else SumAttempts(traces[..|traces| - 1]) + Attempts(traces[|traces| - 1])
  }

  /** Admissions of the workers below `n`. */
  function SumTold(asks: seq<Ask>, answers: seq<Admission>, n: nat): nat
    requires |answers| == |asks|
  {
    if n == 0 then 0 else SumTold(asks, answers, n - 1) + CountTrue(ToldTo(asks, answers, n - 1))
  }

  lemma CountSnoc(answers: seq<bool>, b: bool)
    ensures CountTrue(answers + [b]) == CountTrue(answers) + (if b then 1 else 0)
  {
    assert (answers + [b])[..|answers|] == answers;
  }

  lemma {:induction false} AttemptsAreHeard(t: Trace)
    ensures CountTrue(Heard(t)) == Attempts(t)
  {
    if t != [] {
      var init, e := t[..|t| - 1], t[|t| - 1];
      AttemptsAreHeard(init);
      CountSnoc(Heard(init), true);
      CountSnoc(Heard(init), false);
      assert Heard(init) + [] == Heard(init);
    }
  }

  /** The last ask adds to one worker only. */
  lemma {:induction false} SumToldSnoc(asks: seq<Ask>, answers: seq<Admission>, n: nat)
    requires |answers| == |asks| > 0
    ensures var last := |asks| - 1;
            SumTold(asks, answers, n) ==
            SumTold(asks[..last], answers[..last], n)
            + (if asks[last].worker < n && answers[last] == Admitted then 1 else 0)
    decreases n
  {
    if n > 0 {
      var last := |asks| - 1;
      SumToldSnoc(asks, answers, n - 1);
      var before := ToldTo(asks[..last], answers[..last], n - 1);
      CountSnoc(before, answers[last] == Admitted);
      assert before + [] == before;
    }
  }

  lemma {:induction false} SumToldNothing(n: nat)
    ensures SumTold([], [], n) == 0
  {
    if n > 0 {
      SumToldNothing(n - 1);
    }
  }

  /** Summed over the workers, the admissions are all there were. */
  lemma {:induction false} SumToldIsAll(asks: seq<Ask>, answers: seq<Admission>, n: nat)
    requires |answers| == |asks| && forall i :: 0 <= i < |asks| ==> asks[i].worker < n
    ensures SumTold(asks, answers, n) == CountAdmitted(answers)
  {
    if asks == [] {
      assert answers == [];
      SumToldNothing(n);
    } else {
      var last := |asks| - 1;
      SumToldIsAll(asks[..last], answers[..last], n);
      SumToldSnoc(asks, answers, n);
    }
  }

  lemma {:induction false} SumsAgree(traces: seq<Trace>, asks: seq<Ask>, answers: seq<Admission>)
    requires |answers| == |asks|
    requires forall w :: 0 <= w < |traces| ==> Heard(traces[w]) == ToldTo(asks, answers, w)
    ensures SumAttempts(traces) == SumTold(asks, answers, |traces|)
  {
    hide Heard, ToldTo, CountTrue, Attempts;
    if traces != [] {
      var last := |traces| - 1;
      SumsAgree(traces[..last], asks, answers);
      AttemptsAreHeard(traces[last]);
    }
  }

  /** The reserved attempts of all workers are exactly what the budget admitted. */
  lemma AttemptsAreAdmissions(traces: seq<Trace>, asks: seq<Ask>, answers: seq<Admission>)
    requires |answers| == |asks| && Backed(traces, asks, answers)
    ensures SumAttempts(traces) == CountAdmitted(answers)
  {
    SumsAgree(traces, asks, answers);
    SumToldIsAll(asks, answers, |traces|);
  }

  // ---- the batch ----

  /** The budget answers the workers' asks in the order of its lock. */
  method AnswerAll(asks: seq<Ask>, budget: Budget) returns (answers: seq<Admission>)
    requires budget.Valid()
    modifies budget`attempts, budget`inputBytes, budget`outputTokens, budget`granted
    ensures budget.Valid() && |answers| == |asks|
    ensures |budget.granted| == |old(budget.granted)| + CountAdmitted(answers)
  {
    answers := [];
    for i := 0 to |asks|
      invariant budget.Valid() && |answers| == i
      invariant |budget.granted| == |old(budget.granted)| + CountAdmitted(answers)
    {
      var a := budget.ReserveAttempt(asks[i].bytes, asks[i].tokens, asks[i].now);
      AdmittedSnoc(answers, a);
      answers := answers + [a];
    }
  }

  lemma AdmittedSnoc(answers: seq<Admission>, a: Admission)
    ensures CountAdmitted(answers + [a]) == CountAdmitted(answers) + (if a == Admitted then 1 else 0)
  {
    assert (answers + [a])[..|answers|] == answers;
  }

  /** One job per group, one id per paragraph. */
  ghost predicate Prepared(groups: seq<Group>, jobs: seq<Job>, outsides: seq<Outside>, late: seq<Option<Reason>>) {
    && |jobs| == |outsides| == |late| == |groups|
    && forall g :: 0 <= g < |jobs| ==> ValidJob(jobs[g]) && |jobs[g].ids0| == |groups[g]|
  }

  /** The worker ended as its group operation did, on this trace. */
  ghost predicate Served(end: WorkerEnd, t: Trace, job: Job) {
    exists g: GroupEnd, rec: Recovery :: Outcome(g, t, rec, job) && EndsAs(end, |job.ids0|, g)
  }

  /** Each worker did what `_do_group` does: it was late, for a budget that another
      worker had cancelled, or it found the budget closed, or it ended as its group
      operation did. */
  ghost predicate Worked(ends: seq<WorkerEnd>, traces: seq<Trace>, groups: seq<Group>, jobs: seq<Job>,
                         outsides: seq<Outside>, late: seq<Option<Reason>>, closed: Option<Reason>)
    requires |jobs| == |outsides| == |late| == |groups|
  {
    && |traces| == |ends| <= |groups|
    && forall g :: 0 <= g < |ends| ==>
         && Proper(ends[g], |groups[g]|)
         && Spent(traces[g], |groups[g]| + 2, jobs[g].policy, outsides[g])
         && (if late[g].Some? then ends[g] == OverBudget(late[g].value) && traces[g] == []
             else if closed.Some? then ends[g] == OverBudget(closed.value) && traces[g] == []
             else Served(ends[g], traces[g], jobs[g]))
  }

  method Workers(groups: seq<Group>, jobs: seq<Job>, outsides: seq<Outside>, late: seq<Option<Reason>>, budget: Budget,
                 now: int)
    returns (ends: seq<WorkerEnd>, ghost traces: seq<Trace>)
    requires Prepared(groups, jobs, outsides, late) && budget.Valid()
    ensures |ends| == |groups| && Worked(ends, traces, groups, jobs, outsides, late, budget.Closed(now))
  {
    hide Spent, Proper, Outcome, NamesProviders, EndsAs;
    ends, traces := [], [];
    for g := 0 to |groups|
      invariant |ends| == g && Worked(ends, traces, groups, jobs, outsides, late, budget.Closed(now))
    {
      var end;
      ghost var t: Trace := [];
      if late[g].Some? {
        end := OverBudget(late[g].value);
        LateIsProper(late[g].value, |groups[g]|, jobs[g].policy, outsides[g]);
      } else {
        ghost var group, rec;
        end, group, t, rec := DoGroup(jobs[g], outsides[g], budget, now, now);
      }
      ends, traces := ends + [end], traces + [t];
    }
  }

  lemma LateIsProper(reason: Reason, n: nat, policy: Policy, outside: Outside)
    ensures Proper(OverBudget(reason), n) && Spent([], n + 2, policy, outside)
  {
    SpentNothing(policy, outside);
    SpentAtMost([], 0, n + 2, policy, outside);
  }

  /** A batch with its budget. Whatever the outsides answer the workers and in whatever
      order the budget was asked: if the workers were told what the budget answered,
      their reserved attempts are exactly what the budget granted, so all workers
      together stay within the request's attempts. */
  method TranslateBatch(n: nat, groups: seq<Group>, jobs: seq<Job>, outsides: seq<Outside>, late: seq<Option<Reason>>,
                        asks: seq<Ask>, limit: int, budget: Budget, now: int)
    returns (r: BatchEnd, answers: seq<Admission>, ends: seq<WorkerEnd>, ghost traces: seq<Trace>)
    requires Prepared(groups, jobs, outsides, late) && Disjoint(groups, n) && budget.Valid()
    modifies budget
    ensures budget.Valid() && |answers| == |asks| && |ends| == |groups|
    ensures Worked(ends, traces, groups, jobs, outsides, late, old(budget.Closed(now)))
    ensures Backed(traces, asks, answers) ==>
              |old(budget.granted)| + SumAttempts(traces) == |budget.granted| <= budget.maxAttempts
    ensures Recorded(budget.cancelReason, old(budget.cancelReason), ends)
    ensures r.Results? <==> forall g :: 0 <= g < |ends| ==> ends[g].Finished?
    ensures r.Results? ==> Written(r.results, groups, ends, Below(|groups|), n) && NamesProviders(r.results)
    ensures !r.Results? ==> budget.cancelReason.Some? && Explained(r, ends)
    ensures r.Results? ==>
              forall g :: 0 <= g < |groups| ==> FromOperation(r.results, groups[g], traces[g], jobs[g])
    ensures r.Results? && groups != [] ==>
              && (forall g :: 0 <= g < |groups| ==> late[g].None?)
              && old(budget.cancelReason).None? && now < budget.deadline
    ensures r.Results? ==>
              forall i :: 0 <= i < n && (forall g :: 0 <= g < |groups| ==> i !in groups[g]) ==>
                r.results[i] == Item("", None, false, Empty)
  {
    hide Outcome, EndsAs, Spent, Proper, NamesProviders, Disjoint, Written, Recorded, Explained, Backed;
    ends, traces := Workers(groups, jobs, outsides, late, budget, now);
    answers := AnswerAll(asks, budget);
    var peak;
    r, peak := RunWindow(n, groups, ends, limit, budget);
    if Backed(traces, asks, answers) {
      AttemptsAreAdmissions(traces, asks, answers);
    }
    if r.Results? {
      ResultsNameProviders(r.results, groups, ends, n);
      NobodyLate(ends, traces, groups, jobs, outsides, late, old(budget.Closed(now)));
      hide Served, FromOperation;
      forall g | 0 <= g < |groups| ensures FromOperation(r.results, groups[g], traces[g], jobs[g]) {
        GroupsResults(r.results, ends[g], groups[g], traces[g], jobs[g]);
      }
    }
  }

  lemma NobodyLate(ends: seq<WorkerEnd>, traces: seq<Trace>, groups: seq<Group>, jobs: seq<Job>,
                   outsides: seq<Outside>, late: seq<Option<Reason>>, closed: Option<Reason>)
    requires |jobs| == |outsides| == |late| == |groups| == |ends|
    requires Worked(ends, traces, groups, jobs, outsides, late, closed)
    requires forall g :: 0 <= g < |ends| ==> ends[g].Finished?
    ensures forall g :: 0 <= g < |groups| ==> late[g].None?
    ensures groups != [] ==> closed.None?
  {
    hide Proper, Spent, Served;
    if groups != [] {
      assert ends[0].Finished?;
    }
  }

  /** The items of this group are those of its group operation, on this trace. */
  ghost predicate FromOperation(results: seq<Item>, group: Group, t: Trace, job: Job) {
    exists end: GroupEnd, rec: Recovery ::
      && Outcome(end, t, rec, job)
      && (|| (end.Items? && |end.items| == |group|
              && forall j :: 0 <= j < |group| ==>
                   group[j] < |results| && results[group[j]] == end.items[j])
          || (end.Unserved?
              && forall j :: 0 <= j < |group| ==>
                   && group[j] < |results|
                   && results[group[j]] ==
                      Item(if end.rateLimited then "[TRANSLATION ERROR: provider_rate_limited]"
                           else "[TRANSLATION ERROR: provider_unavailable]", None, false, Failed)))
  }

  /** What one worker of a successful batch put into the results. */
  lemma GroupsResults(results: seq<Item>, end: WorkerEnd, group: Group, t: Trace, job: Job)
    requires end.Finished? && Served(end, t, job) && Proper(end, |group|) && |job.ids0| == |group|
    requires forall j :: 0 <= j < |group| ==>
               && group[j] < |results|
               && results[group[j]] == if j < |end.items| then end.items[j]
                                       else Item("[TRANSLATION ERROR: missing segment]", None, false, Failed)
    ensures FromOperation(results, group, t, job)
  {
    hide Outcome, NamesProviders;
    var g: GroupEnd, rec: Recovery :| Outcome(g, t, rec, job) && EndsAs(end, |job.ids0|, g);
  }

  /** No result of a batch is made up. A cacheable item is the group's one answer, or
      what was parsed from it at the item's own position under the ids sent with it;
      another item with a provider is an answer that provider gave; and any other is
      an error text. */
  lemma ResultsAreAnswers(results: seq<Item>, group: Group, t: Trace, job: Job, j: nat)
    requires FromOperation(results, group, t, job) && |group| == |job.ids0| && j < |group|
    ensures group[j] < |results|
    ensures var item := results[group[j]];
            if item.cacheable then
              && |t| >= 2 && t[|t| - 2].Called? && t[|t| - 2].reply.Text?
              && item.provider == Some(t[|t| - 2].k) && (item.path == Direct || item.path == EnvelopeRetry)
              && var output := t[|t| - 2].reply.text;
                 if |job.ids0| == 1 && job.contextWindow == 0 then item.text == output && item.path == Direct
                 else
                   var texts := Parse(job.decode(output), Utf8Size(output),
                                      if item.path == Direct then job.ids0 else job.ids1, job.cap);
                   texts.Some? && |texts.value| == |group| && item.text == texts.value[j]
            else if item.provider.Some? then
              exists i :: 0 <= i < |t| && t[i] == Called(item.provider.value, Text(item.text))
            else
              || item.text == "[TRANSLATION ERROR: provider_rate_limited]"
              || item.text == "[TRANSLATION ERROR: provider_unavailable]"
    ensures forall i :: 0 <= i < |group| ==>
              group[i] < |results| && (results[group[i]].cacheable <==> results[group[j]].cacheable)
  {
    hide Outcome, Parse, Utf8Size;
    var end: GroupEnd, rec: Recovery :|
      && Outcome(end, t, rec, job)
      && (|| (end.Items? && |end.items| == |group|
              && forall j :: 0 <= j < |group| ==>
                   group[j] < |results| && results[group[j]] == end.items[j])
          || (end.Unserved?
              && forall j :: 0 <= j < |group| ==>
                   && group[j] < |results|
                   && results[group[j]] ==
                      Item(if end.rateLimited then "[TRANSLATION ERROR: provider_rate_limited]"
                           else "[TRANSLATION ERROR: provider_unavailable]", None, false, Failed)));
    if end.Items? {
      if rec.fallbacks == 0 {
        ServedWhole(end.items, t, rec, job);
      } else {
        var first, starts, ends := ServedOneByOne(end.items, t, rec, job);
        var item := end.items[j];
        assert item.provider.Some? ==> t[ends[j] - 2] == Called(item.provider.value, Text(item.text));
      }
    }
  }
}
