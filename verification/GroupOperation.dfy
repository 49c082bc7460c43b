/** Translating one group: a strict envelope, one retry with fresh ids, then one
    call per paragraph, for every provider behaviour. */
module GroupOperation {
  import opened Text
  import opened Completion
  import opened Options
  import opened Envelope
  import opened WorkBudget

  datatype Path = Direct | EnvelopeRetry | ParagraphFallback | ParagraphFallbackFailed | Failed | Empty

  /** One batch slot. `provider` is a position among the eligible providers. */
  datatype Item = Item(text: string, provider: Option<nat>, cacheable: bool, path: Path)

  function ErrorItem(rateLimited: bool, path: Path): (item: Item) {
    Item(if rateLimited then "[TRANSLATION ERROR: provider_rate_limited]"
         else "[TRANSLATION ERROR: provider_unavailable]", None, false, path)
  }

  datatype GroupEnd = Items(items: seq<Item>) | BudgetStop(reason: Reason) | Unserved(rateLimited: bool)

  /** `BatchRecoveryTracker`, for one group. */
  datatype Recovery = Recovery(retries: nat, retryRecovered: nat, fallbacks: nat,
                               recovered: nat, failed: nat)

  const NO_RECOVERY := Recovery(0, 0, 0, 0, 0)

  predicate Recovered(item: Item) {
    item.path == ParagraphFallback && item.provider.Some? && !item.cacheable
  }

  predicate GaveUp(item: Item) {
    item.path == ParagraphFallbackFailed && item.provider.None? && !item.cacheable
  }

  function CountRecovered(items: seq<Item>): nat {
    if items == [] then 0
    else CountRecovered(items[..|items| - 1]) + (if Recovered(items[|items| - 1]) then 1 else 0)
  }

  /** JSON decoding of provider output; `None` when it is not JSON. */
  type Decoder = string -> Option<Json>

  /** One group: the opaque ids drawn for its two envelopes, one per paragraph, the
      size of the context window, the providers, and how output is read. */
  datatype Job = Job(ids0: seq<string>, ids1: seq<string>, contextWindow: nat, policy: Policy, decode: Decoder,
                     cap: nat)

  predicate ValidJob(job: Job) {
    |job.ids0| == |job.ids1|
  }

  /** One paragraph without context is translated as a single text. */
  predicate SingleText(job: Job) {
    |job.ids0| == 1 && job.contextWindow == 0
  }

  // ---- what the trace of a group says ----

  /** After `t0`, the trace `t` has exactly one more completion, which ended so. */
  ghost predicate Completing(t0: Trace, t: Trace, end: CompleteEnd, policy: Policy) {
    t0 <= t && CompleteResult(end, t[|t0|..], |Eligible(policy)|, 1)
  }

  function Parsed(output: string, ids: seq<string>, job: Job): (texts: Option<seq<string>>)
    ensures texts.Some? ==> |texts.value| == |ids|
  {
    Parse(job.decode(output), Utf8Size(output), ids, job.cap)
  }

  /** After `t0`, one completion answered with an envelope accepted for these ids. */
  ghost predicate Accepted(items: seq<Item>, ids: seq<string>, path: Path, t0: Trace, t: Trace, job: Job) {
    exists output: string, k: nat ::
      && Completing(t0, t, Completed(output, k), job.policy)
      && Parsed(output, ids, job).Some?
      && |items| == |ids|
      && forall j :: 0 <= j < |ids| ==> items[j] == Item(Parsed(output, ids, job).value[j], Some(k), true, path)
  }

  /** After `t0`, one completion answered with something that is no envelope for these ids. */
  ghost predicate Rejected(ids: seq<string>, t0: Trace, t: Trace, job: Job) {
    exists output: string, k: nat ::
      Completing(t0, t, Completed(output, k), job.policy) && Parsed(output, ids, job).None?
  }

  /** The first two completions were rejected envelopes. */
  ghost predicate TwiceRejected(t1: Trace, t2: Trace, job: Job) {
    Rejected(job.ids0, [], t1, job) && Rejected(job.ids1, t1, t2, job)
  }

  /** The item a paragraph gets from its own completion. */
  function RecoveryItem(e: CompleteEnd): Item
    requires !e.BudgetEnd?
  {
    if e.Completed? then Item(e.text, Some(e.k), false, ParagraphFallback)
    else ErrorItem(e.rateLimited, ParagraphFallbackFailed)
  }

  /** After `t0`, one completion gave this item. */
  ghost predicate AnsweredBy(item: Item, t0: Trace, t: Trace, policy: Policy) {
    exists e: CompleteEnd ::
      && Completing(t0, t, e, policy)
      && match e
         case Completed(text, k) => item == Item(text, Some(k), false, ParagraphFallback)
         case Unavailable(rateLimited) => item == ErrorItem(rateLimited, ParagraphFallbackFailed)
         case BudgetEnd(_) => false
  }

  /** After `t0`, one completion per item, in order, each giving its item. */
  ghost predicate FromCalls(items: seq<Item>, t0: Trace, t: Trace, policy: Policy) {
    if items == [] then t == t0
    else exists mid :: LastAnswered(items, mid, t, policy) && FromCalls(items[..|items| - 1], t0, mid, policy)
  }

  ghost predicate LastAnswered(items: seq<Item>, t0: Trace, t: Trace, policy: Policy)
    requires items != []
  {
    AnsweredBy(items[|items| - 1], t0, t, policy)
  }

  /** The group was recovered paragraph by paragraph. */
  ghost predicate Fallback(items: seq<Item>, rec: Recovery) {
    && (forall i :: 0 <= i < |items| ==> Recovered(items[i]) || GaveUp(items[i]))
    && rec.recovered == CountRecovered(items)
    && rec.recovered + rec.failed == |items|
  }

  const RETRIED := NO_RECOVERY.(retries := 1)
  const FELL_BACK := NO_RECOVERY.(retries := 1, fallbacks := 1)

  /** The paragraphs so far have had their own calls, and the tracker counts them. */
  ghost predicate Recovering(items: seq<Item>, t0: Trace, t: Trace, rec: Recovery, policy: Policy) {
    && Fallback(items, rec) && FromCalls(items, t0, t, policy)
    && rec == FELL_BACK.(recovered := rec.recovered, failed := rec.failed)
  }

  /** How a group that returns was served: nothing else marks an item cacheable. */
  ghost predicate Served(items: seq<Item>, t: Trace, rec: Recovery, job: Job) {
    && |items| == |job.ids0|
    && (if SingleText(job) then Single(items, t, job) && rec == NO_RECOVERY
        else
          || (Accepted(items, job.ids0, Direct, [], t, job) && rec == NO_RECOVERY)
          || (RetryAccepted(items, t, job) && rec == RETRIED.(retryRecovered := 1))
          || FellBack(items, t, rec, job))
  }

  ghost predicate Single(items: seq<Item>, t: Trace, job: Job) {
    exists text: string, k: nat ::
      Completing([], t, Completed(text, k), job.policy) && items == [Item(text, Some(k), true, Direct)]
  }

  /** The first envelope was rejected, and the next completion's was accepted. */
  ghost predicate RetryAccepted(items: seq<Item>, t: Trace, job: Job) {
    exists t1 :: Rejected(job.ids0, [], t1, job) && Accepted(items, job.ids1, EnvelopeRetry, t1, t, job)
  }

  /** Both envelopes were rejected, and then every paragraph had its own completion. */
  ghost predicate FellBack(items: seq<Item>, t: Trace, rec: Recovery, job: Job) {
    exists t1, t2 :: TwiceRejected(t1, t2, job) && Recovering(items, t2, t, rec, job.policy)
  }

  /** Another completion is due after `t0`. */
  ghost predicate Due(t0: Trace, rec: Recovery, job: Job) {
    || (t0 == [] && rec == NO_RECOVERY)
    || (!SingleText(job) && Rejected(job.ids0, [], t0, job) && rec == RETRIED)
    || (!SingleText(job) && rec.fallbacks == 1
        && exists items :: |items| < |job.ids0| && FellBack(items, t0, rec, job))
  }

  /** An exception, and the completion that was due and caused it: the budget refused,
      or no provider answered an envelope or a single text. */
  ghost predicate Stopped(end: GroupEnd, t: Trace, rec: Recovery, job: Job) {
    exists t0, e: CompleteEnd ::
      && Completing(t0, t, e, job.policy) && Due(t0, rec, job)
      && (|| (e.BudgetEnd? && end == BudgetStop(e.reason))
          || (e.Unavailable? && end == Unserved(e.rateLimited) && rec.fallbacks == 0))
  }

  // ---- small steps ----

  lemma FromCallsSnoc(items: seq<Item>, item: Item, t0: Trace, mid: Trace, t: Trace, policy: Policy)
    requires FromCalls(items, t0, mid, policy) && AnsweredBy(item, mid, t, policy)
    ensures FromCalls(items + [item], t0, t, policy)
  {
    hide AnsweredBy;
    assert (items + [item])[..|items|] == items;
    assert LastAnswered(items + [item], mid, t, policy);
  }

  lemma RecoveredSnoc(items: seq<Item>, item: Item, rec: Recovery)
    requires Fallback(items, rec) && (Recovered(item) || GaveUp(item))
    ensures Recovered(item) ==> Fallback(items + [item], rec.(recovered := rec.recovered + 1))
    ensures GaveUp(item) ==> Fallback(items + [item], rec.(failed := rec.failed + 1))
  {
    assert (items + [item])[..|items|] == items;
  }

  /** One more paragraph has had its own calls. */
  lemma RecoverySnoc(items: seq<Item>, e: CompleteEnd, t0: Trace, mid: Trace, t: Trace, rec: Recovery, policy: Policy)
    requires Recovering(items, t0, mid, rec, policy) && !e.BudgetEnd? && Completing(mid, t, e, policy)
    ensures Recovering(items + [RecoveryItem(e)], t0, t,
                       if e.Completed? then rec.(recovered := rec.recovered + 1)
                       else rec.(failed := rec.failed + 1), policy)
  {
    hide Completing, Fallback, FromCalls;
    var item := RecoveryItem(e);
    assert AnsweredBy(item, mid, t, policy);
    RecoveredSnoc(items, item, rec);
    FromCallsSnoc(items, item, t0, mid, t, policy);
  }

  lemma IsAccepted(items: seq<Item>, output: string, k: nat, ids: seq<string>, path: Path, t0: Trace, t: Trace,
                   job: Job)
    requires Completing(t0, t, Completed(output, k), job.policy) && Parsed(output, ids, job).Some? && |items| == |ids|
    requires forall j :: 0 <= j < |ids| ==> items[j] == Item(Parsed(output, ids, job).value[j], Some(k), true, path)
    ensures Accepted(items, ids, path, t0, t, job)
  {
    hide Completing, Parsed;
  }

  lemma IsRejected(output: string, k: nat, ids: seq<string>, t0: Trace, t: Trace, job: Job)
    requires Completing(t0, t, Completed(output, k), job.policy) && Parsed(output, ids, job).None?
    ensures Rejected(ids, t0, t, job)
  {
    hide Completing, Parsed;
  }

  /** The exception a completion becomes where it is not caught. */
  function Raised(e: CompleteEnd): GroupEnd
    requires !e.Completed?
  {
    if e.BudgetEnd? then BudgetStop(e.reason) else Unserved(e.rateLimited)
  }

  lemma IsStopped(e: CompleteEnd, t0: Trace, t: Trace, rec: Recovery, job: Job)
    requires Completing(t0, t, e, job.policy) && !e.Completed? && Due(t0, rec, job)
    requires e.Unavailable? ==> rec.fallbacks == 0
    ensures Stopped(Raised(e), t, rec, job)
  {
    hide Completing, Due;
  }

  lemma RetryIsDue(t1: Trace, job: Job)
    requires !SingleText(job) && Rejected(job.ids0, [], t1, job)
    ensures Due(t1, RETRIED, job)
  {
  }

  lemma ParagraphIsDue(items: seq<Item>, t1: Trace, t2: Trace, t: Trace, rec: Recovery, job: Job)
    requires !SingleText(job) && TwiceRejected(t1, t2, job) && Recovering(items, t2, t, rec, job.policy)
    requires |items| < |job.ids0|
    ensures Due(t, rec, job) && rec.fallbacks == 1
  {
    hide TwiceRejected, Fallback, FromCalls;
    assert FellBack(items, t, rec, job);
  }

  /** What a group's trace keeps after at most `m` completions. */
  ghost predicate Spent(t: Trace, m: nat, policy: Policy, outside: Outside) {
    && Balanced(t) && Attempts(t) <= m * |Eligible(policy)|
    && OnlyPermitted(t, policy) && Truthful(t, outside, 0)
  }

  lemma SpentMore(a: Trace, b: Trace, m: nat, policy: Policy, outside: Outside)
    requires Spent(a, m, policy, outside) && Truthful(b, outside, |a|)
    requires GoodCompletion(b, |Eligible(policy)|, 1) && OnlyPermitted(b, policy)
    ensures Spent(a + b, m + 1, policy, outside)
  {
    SlotsConcat(a, b, 0);
    AttemptsConcat(a, b);
    TruthfulConcat(a, b, outside, 0);
    PermittedConcat(a, b, policy);
    var providers := |Eligible(policy)|;
    assert m * providers + providers == (m + 1) * providers;
    hide Slots, Attempts, Truthful, OnlyPermitted, Eligible;
  }

  lemma PermittedConcat(a: Trace, b: Trace, policy: Policy)
    requires OnlyPermitted(a, policy) && OnlyPermitted(b, policy)
    ensures OnlyPermitted(a + b, policy)
  {
  }

  lemma SpentAtMost(t: Trace, m: nat, n: nat, policy: Policy, outside: Outside)
    requires Spent(t, m, policy, outside) && m <= n
    ensures Spent(t, n, policy, outside)
  {
    assert m * |Eligible(policy)| <= n * |Eligible(policy)|;
  }

  lemma SpentNothing(policy: Policy, outside: Outside)
    ensures Spent([], 0, policy, outside)
  {
  }

  /** The next completion of the group, after the calls made so far. */
  method CompleteNext(policy: Policy, outside: Outside, t0: Trace, ghost m: nat)
    returns (end: CompleteEnd, t: Trace)
    requires Spent(t0, m, policy, outside) && !SawRefusal(t0)
    ensures Completing(t0, t, end, policy) && Spent(t, m + 1, policy, outside)
    ensures if end.BudgetEnd? then EndsRefused(t, end.reason) else !SawRefusal(t)
  {
    hide *;
    var step;
    end, step := Complete(policy, 1, outside, |t0|);
    ResultMeans(end, step, |Eligible(policy)|);
    SpentMore(t0, step, m, policy, outside);
    EndsConcat(t0, step);
    AllSawConcat(t0, step);
    t := t0 + step;
    IsCompleting(t0, step, end, policy);
  }

  lemma IsCompleting(t0: Trace, step: Trace, end: CompleteEnd, policy: Policy)
    requires CompleteResult(end, step, |Eligible(policy)|, 1)
    ensures Completing(t0, t0 + step, end, policy)
  {
    hide CompleteResult;
    assert (t0 + step)[|t0|..] == step;
  }

  lemma ResultMeans(end: CompleteEnd, b: Trace, providers: nat)
    requires CompleteResult(end, b, providers, 1)
    ensures GoodCompletion(b, providers, 1)
    ensures if end.BudgetEnd? then EndsRefused(b, end.reason) else !SawRefusal(b)
  {
    hide GoodCompletion, Saw, AllTriedOut, EndsWith, EndsRefused;
  }

  lemma NothingIsNoResult(end: CompleteEnd, providers: nat)
    requires providers >= 1
    ensures !CompleteResult(end, [], providers, 1)
  {
    assert !TriedOut([], 0, 1);
    assert !AllTriedOut([], providers, 1);
    assert !SawFinal([]);
  }

  /** A completion makes at least one step, so two of them are never one. */
  lemma CompletionIsSomething(t0: Trace, t: Trace, end: CompleteEnd, policy: Policy)
    requires Completing(t0, t, end, policy)
    ensures |t0| < |t|
  {
    hide CompleteResult;
    NothingIsNoResult(end, |Eligible(policy)|);
    var b := t[|t0|..];
    assert b != [];
  }

  // ---- the operation ----

  /** One envelope attempt (translator.py 2324-2361): its own completion is accepted,
      rejected, or raises. */
  method TryEnvelope(ids: seq<string>, path: Path, outside: Outside, job: Job, t0: Trace, ghost rec: Recovery,
                     ghost m: nat)
    returns (items: Option<seq<Item>>, stop: Option<GroupEnd>, t: Trace)
    requires Spent(t0, m, job.policy, outside) && !SawRefusal(t0) && Due(t0, rec, job) && rec.fallbacks == 0
    ensures Spent(t, m + 1, job.policy, outside)
    ensures items.Some? ==> |items.value| == |ids| && Accepted(items.value, ids, path, t0, t, job)
    ensures stop.Some? ==> items.None? && Stopped(stop.value, t, rec, job) && Refuses(stop.value, t)
    ensures items.None? && stop.None? ==> Rejected(ids, t0, t, job)
    ensures stop.None? ==> !SawRefusal(t)
  {
    hide *;
    var end;
    end, t := CompleteNext(job.policy, outside, t0, m);
    items, stop := None, None;
    if end.Completed? {
      var parsed := Parsed(end.text, ids, job);
      if parsed.Some? {
        items := Some(seq(|ids|, j requires 0 <= j < |ids| => Item(parsed.value[j], Some(end.k), true, path)));
        IsAccepted(items.value, end.text, end.k, ids, path, t0, t, job);
      } else {
        IsRejected(end.text, end.k, ids, t0, t, job);
      }
    } else {
      stop := Some(Raised(end));
      IsStopped(end, t0, t, rec, job);
      RaisedRefuses(end, t);
    }
  }

  /** The budget stops the group exactly with a refusal at the end of the trace. */
  ghost predicate Refuses(end: GroupEnd, t: Trace) {
    if end.BudgetStop? then EndsRefused(t, end.reason) else !SawRefusal(t)
  }

  lemma RaisedRefuses(e: CompleteEnd, t: Trace)
    requires !e.Completed? && if e.BudgetEnd? then EndsRefused(t, e.reason) else !SawRefusal(t)
    ensures Refuses(Raised(e), t)
  {
  }

  /** The sequential calls after two malformed envelopes (translator.py 2376-2424). */
  method RecoverParagraphs(outside: Outside, job: Job, t2: Trace, ghost t1: Trace, ghost m: nat)
    returns (end: GroupEnd, t: Trace, rec: Recovery)
    requires Spent(t2, m, job.policy, outside) && !SawRefusal(t2) && !SingleText(job) && TwiceRejected(t1, t2, job)
    ensures Spent(t, m + |job.ids0|, job.policy, outside) && Refuses(end, t)
    ensures end.Items? ==> |end.items| == |job.ids0| && Recovering(end.items, t2, t, rec, job.policy)
    ensures !end.Items? ==> end.BudgetStop? && Stopped(end, t, rec, job)
  {
    hide *;
    t, rec := t2, FELL_BACK;
    var items: seq<Item> := [];
    RecoveringStarts(t2, job.policy);
    for i := 0 to |job.ids0|
      invariant Spent(t, m + i, job.policy, outside) && !SawRefusal(t)
      invariant |items| == i && Recovering(items, t2, t, rec, job.policy)
    {
      var stop;
      stop, items, t, rec := RecoverOne(items, outside, job, t, rec, t1, t2, m + i);
      if stop.Some? {
        SpentAtMost(t, m + i + 1, m + |job.ids0|, job.policy, outside);
        return stop.value, t, rec;
      }
    }
    end := Items(items);
    assert Refuses(end, t) by { ItemsRefuse(items, t); }
  }

  lemma RecoveringStarts(t: Trace, policy: Policy)
    ensures Recovering([], t, t, FELL_BACK, policy)
  {
  }

  lemma ItemsRefuse(items: seq<Item>, t: Trace)
    requires !SawRefusal(t)
    ensures Refuses(Items(items), t)
  {
  }

  /** One paragraph's completion; only the budget stops the others. */
  method RecoverOne(items0: seq<Item>, outside: Outside, job: Job, t0: Trace, rec0: Recovery,
                    ghost t1: Trace, ghost t2: Trace, ghost m: nat)
    returns (stop: Option<GroupEnd>, items: seq<Item>, t: Trace, rec: Recovery)
    requires Spent(t0, m, job.policy, outside) && !SawRefusal(t0) && !SingleText(job) && TwiceRejected(t1, t2, job)
    requires Recovering(items0, t2, t0, rec0, job.policy) && |items0| < |job.ids0|
    ensures Spent(t, m + 1, job.policy, outside)
    ensures stop.Some? ==> stop.value.BudgetStop? && Stopped(stop.value, t, rec, job) && Refuses(stop.value, t)
    ensures stop.None? ==>
              |items| == |items0| + 1 && !SawRefusal(t) && Recovering(items, t2, t, rec, job.policy)
  {
    ParagraphIsDue(items0, t1, t2, t0, rec0, job);
    hide *;
    var e;
    e, t := CompleteNext(job.policy, outside, t0, m);
    stop, items, rec := None, items0, rec0;
    if e.BudgetEnd? {
      stop := Some(BudgetStop(e.reason));
      assert stop.value == Raised(e) by { RaisedIsBudget(e); }
      IsStopped(e, t0, t, rec, job);
      RaisedRefuses(e, t);
    } else {
      RecoverySnoc(items0, e, t2, t0, t, rec0, job.policy);
      items := items + [RecoveryItem(e)];
      rec := if e.Completed? then rec.(recovered := rec.recovered + 1) else rec.(failed := rec.failed + 1);
    }
  }

  lemma RaisedIsBudget(e: CompleteEnd)
    requires e.BudgetEnd?
    ensures Raised(e) == BudgetStop(e.reason)
  {
  }

  /** How the operation ended, and what that says about its trace. */
  ghost predicate Outcome(end: GroupEnd, t: Trace, rec: Recovery, job: Job) {
    && Refuses(end, t)
    && if end.Items? then Served(end.items, t, rec, job) else Stopped(end, t, rec, job)
  }

  /** `_translate_group_operation`, for every behaviour of the budget and the providers. */
  method TranslateGroup(job: Job, outside: Outside) returns (end: GroupEnd, t: Trace, rec: Recovery)
    requires ValidJob(job)
    ensures Spent(t, |job.ids0| + 2, job.policy, outside)
    ensures Outcome(end, t, rec, job)
  {
    assert !SawRefusal([]) && NO_RECOVERY.fallbacks == 0;
    assert Due([], NO_RECOVERY, job);
    hide Spent, Accepted, Rejected, Served, Stopped, Due, Refuses, Saw, RETRIED, Outcome;
    SpentNothing(job.policy, outside);
    rec := NO_RECOVERY;
    if SingleText(job) {
      end, t := TranslateSingle(outside, job);
      SpentAtMost(t, 1, |job.ids0| + 2, job.policy, outside);
      return end, t, rec;
    }
    var items, stop, t1 := TryEnvelope(job.ids0, Direct, outside, job, [], rec, 0);
    SpentAtMost(t1, 1, |job.ids0| + 2, job.policy, outside);
    if stop.Some? {
      StopIsOutcome(stop.value, t1, rec, job);
      return stop.value, t1, rec;
    }
    if items.Some? {
      DirectIsOutcome(items.value, t1, job);
      return Items(items.value), t1, rec;
    }
    end, t, rec := RetryGroup(outside, job, t1);
  }

  /** The second envelope, and the paragraphs one by one if that fails too. */
  method RetryGroup(outside: Outside, job: Job, t1: Trace) returns (end: GroupEnd, t: Trace, rec: Recovery)
    requires ValidJob(job) && !SingleText(job) && Rejected(job.ids0, [], t1, job)
    requires Spent(t1, 1, job.policy, outside) && !SawRefusal(t1)
    ensures Spent(t, |job.ids0| + 2, job.policy, outside)
    ensures Outcome(end, t, rec, job)
  {
    assert RETRIED.fallbacks == 0;
    RetryIsDue(t1, job);
    hide Spent, Accepted, Rejected, Served, Stopped, Due, Refuses, Saw, Recovering, FELL_BACK, Outcome;
    rec := RETRIED;
    var items, stop, t2 := TryEnvelope(job.ids1, EnvelopeRetry, outside, job, t1, rec, 1);
    SpentAtMost(t2, 2, |job.ids0| + 2, job.policy, outside);
    if stop.Some? {
      StopIsOutcome(stop.value, t2, rec, job);
      return stop.value, t2, rec;
    }
    if items.Some? {
      RetryIsOutcome(items.value, t1, t2, job);
      return Items(items.value), t2, rec.(retryRecovered := 1);
    }
    end, t, rec := RecoverParagraphs(outside, job, t2, t1, 2);
    FallbackIsOutcome(end, t1, t2, t, rec, job);
  }

  lemma StopIsOutcome(end: GroupEnd, t: Trace, rec: Recovery, job: Job)
    requires Stopped(end, t, rec, job) && Refuses(end, t)
    ensures Outcome(end, t, rec, job)
  {
    hide Completing, Due, Refuses;
  }

  lemma DirectIsOutcome(items: seq<Item>, t: Trace, job: Job)
    requires !SingleText(job) && |items| == |job.ids0| && !SawRefusal(t)
    requires Accepted(items, job.ids0, Direct, [], t, job)
    ensures Outcome(Items(items), t, NO_RECOVERY, job)
  {
    hide Accepted, Saw;
  }

  lemma RetryIsOutcome(items: seq<Item>, t1: Trace, t: Trace, job: Job)
    requires !SingleText(job) && |items| == |job.ids0| && !SawRefusal(t)
    requires Rejected(job.ids0, [], t1, job) && Accepted(items, job.ids1, EnvelopeRetry, t1, t, job)
    ensures Outcome(Items(items), t, RETRIED.(retryRecovered := 1), job)
  {
    hide Accepted, Rejected, Saw;
    assert RetryAccepted(items, t, job);
  }

  lemma FallbackIsOutcome(end: GroupEnd, t1: Trace, t2: Trace, t: Trace, rec: Recovery, job: Job)
    requires !SingleText(job) && TwiceRejected(t1, t2, job) && Refuses(end, t)
    requires end.Items? ==> |end.items| == |job.ids0| && Recovering(end.items, t2, t, rec, job.policy)
    requires !end.Items? ==> Stopped(end, t, rec, job)
    ensures Outcome(end, t, rec, job)
  {
    hide TwiceRejected, Recovering, Stopped, Refuses;
    if end.Items? {
      assert FellBack(end.items, t, rec, job);
    }
  }

  /** The single-text path (translator.py 2311-2316). */
  method TranslateSingle(outside: Outside, job: Job) returns (end: GroupEnd, t: Trace)
    requires SingleText(job)
    ensures Spent(t, 1, job.policy, outside)
    ensures Outcome(end, t, NO_RECOVERY, job)
  {
    assert !SawRefusal([]) && NO_RECOVERY.fallbacks == 0;
    assert Due([], NO_RECOVERY, job);
    hide *;
    SpentNothing(job.policy, outside);
    var e;
    e, t := CompleteNext(job.policy, outside, [], 0);
    if e.Completed? {
      end := Items([Item(e.text, Some(e.k), true, Direct)]);
      SingleIsOutcome(e.text, e.k, t, job);
    } else {
      end := Raised(e);
      IsStopped(e, [], t, NO_RECOVERY, job);
      RaisedRefuses(e, t);
      StopIsOutcome(end, t, NO_RECOVERY, job);
    }
  }

  lemma SingleIsOutcome(text: string, k: nat, t: Trace, job: Job)
    requires SingleText(job) && Completing([], t, Completed(text, k), job.policy) && !SawRefusal(t)
    ensures Outcome(Items([Item(text, Some(k), true, Direct)]), t, NO_RECOVERY, job)
  {
    hide Completing, Saw;
    assert Single([Item(text, Some(k), true, Direct)], t, job);
  }

  // ---- what follows ----

  /** Every paragraph that was recovered or given up has calls of its own. */
  lemma {:induction false} EachParagraphCalls(items: seq<Item>, t0: Trace, t: Trace, policy: Policy)
    requires FromCalls(items, t0, t, policy)
    ensures |t0| + |items| <= |t|
  {
    hide Completing;
    if items != [] {
      var mid :| LastAnswered(items, mid, t, policy) && FromCalls(items[..|items| - 1], t0, mid, policy);
      EachParagraphCalls(items[..|items| - 1], t0, mid, policy);
      assert AnsweredBy(items[|items| - 1], mid, t, policy);
      var e: CompleteEnd :| Completing(mid, t, e, policy);
      CompletionIsSomething(mid, t, e, policy);
    }
  }

  /** Two rejections are two completions, the second after the first. */
  lemma RejectionsDiffer(t1: Trace, t2: Trace, job: Job)
    requires TwiceRejected(t1, t2, job)
    ensures 0 < |t1| < |t2| && t1 <= t2
  {
    hide Parsed, CompleteResult;
    var output: string, k: nat :|
      Completing([], t1, Completed(output, k), job.policy) && Parsed(output, job.ids0, job).None?;
    CompletionIsSomething([], t1, Completed(output, k), job.policy);
    var output': string, k': nat :|
      Completing(t1, t2, Completed(output', k'), job.policy) && Parsed(output', job.ids1, job).None?;
    CompletionIsSomething(t1, t2, Completed(output', k'), job.policy);
  }

  /** No group mixes cacheable and recovered items, and recovered ones are never cacheable. */
  lemma CacheableTogether(items: seq<Item>, t: Trace, rec: Recovery, job: Job)
    requires Served(items, t, rec, job)
    ensures
      || (forall i :: 0 <= i < |items| ==> items[i].cacheable)
      || (rec.fallbacks == 1 && rec.recovered + rec.failed == |items|
          && forall i :: 0 <= i < |items| ==> !items[i].cacheable)
    ensures forall i :: 0 <= i < |items| && items[i].cacheable ==> items[i].provider.Some?
  {
    hide Completing, Parsed, CountRecovered, FromCalls, TwiceRejected, Rejected;
  }
}
