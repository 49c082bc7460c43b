/** What the result of a group operation says about the answers that came back, told
    by the events of its trace alone. */
module GroupEvents {
  import opened Text
  import opened Options
  import opened Collections
  import opened Completion
  import opened Envelope
  import opened GroupOperation

  // ---- one completion of the group ----

  /** A completion that answered ends with its only answer. */
  lemma AnswerIsLast(t0: Trace, t: Trace, text: string, k: nat, policy: Policy)
    requires Completing(t0, t, Completed(text, k), policy)
    ensures |t| >= |t0| + 2 && t[|t| - 2] == Called(k, Text(text))
    ensures forall i :: |t0| <= i < |t| && i != |t| - 2 ==> !(t[i].Called? && t[i].reply.Text?)
    ensures forall i :: |t0| <= i < |t| ==> !(t[i].Called? && t[i].reply.Http? && t[i].reply.status == 429)
  {
    hide Balanced, ProvidersBelow, InOrder, Attempts, CallsTo, Paused, AllTriedOut, EndsRefused;
    var b := t[|t0|..];
    assert b[|b| - 2] == t[|t| - 2] && Final(b[|b| - 2]);
    assert b[|b| - 1].Released?;
    forall i | |t0| <= i < |t| && i != |t| - 2 ensures !(t[i].Called? && t[i].reply.Text?) {
      assert b[i - |t0|] == t[i];
    }
    forall i | |t0| <= i < |t| ensures !(t[i].Called? && t[i].reply.Http? && t[i].reply.status == 429) {
      assert !RateLimited(b[i - |t0|]);
    }
  }

  /** A completion that did not answer saw no answer, and says whether it met an
      HTTP 429. */
  lemma NoAnswer(t0: Trace, t: Trace, rateLimited: bool, policy: Policy)
    requires Completing(t0, t, Unavailable(rateLimited), policy)
    ensures forall i :: |t0| <= i < |t| ==> !(t[i].Called? && t[i].reply.Text?)
    ensures rateLimited <==>
            exists i :: |t0| <= i < |t| && t[i].Called? && t[i].reply.Http? && t[i].reply.status == 429
  {
    var b := t[|t0|..];
    CompleteMeans(Unavailable(rateLimited), b, |Eligible(policy)|, 1);
    hide CompleteResult;
    forall i | |t0| <= i < |t| ensures !(t[i].Called? && t[i].reply.Text?) {
      assert b[i - |t0|] == t[i];
    }
    if i :| 0 <= i < |b| && b[i].Called? && b[i].reply.Http? && b[i].reply.status == 429 {
      assert t[|t0| + i] == b[i];
    }
    if i :| |t0| <= i < |t| && t[i].Called? && t[i].reply.Http? && t[i].reply.status == 429 {
      assert b[i - |t0|] == t[i];
    }
  }

  // ---- an accepted envelope ----

  /** The group's texts are the ones parsed from the answer that ended the trace, each
      at its own position and from the provider that gave it. */
  lemma AcceptedMeans(items: seq<Item>, ids: seq<string>, path: Path, t0: Trace, t: Trace, job: Job)
    requires Accepted(items, ids, path, t0, t, job)
    ensures |items| == |ids|
    ensures t0 <= t && |t| >= |t0| + 2 && t[|t| - 2].Called? && t[|t| - 2].reply.Text?
    ensures forall i :: |t0| <= i < |t| && i != |t| - 2 ==> !(t[i].Called? && t[i].reply.Text?)
    ensures var output := t[|t| - 2].reply.text;
            var texts := Parse(job.decode(output), Utf8Size(output), ids, job.cap);
            && texts.Some?
            && forall j :: 0 <= j < |ids| ==> items[j] == Item(texts.value[j], Some(t[|t| - 2].k), true, path)
  {
    hide Completing, Parse;
    var output: string, k: nat :|
      && Completing(t0, t, Completed(output, k), job.policy)
      && Parsed(output, ids, job).Some?
      && |items| == |ids|
      && forall j :: 0 <= j < |ids| ==> items[j] == Item(Parsed(output, ids, job).value[j], Some(k), true, path);
    AnswerIsLast(t0, t, output, k, job.policy);
    CompletingExtends(t0, t, Completed(output, k), job.policy);
  }

  lemma CompletingExtends(t0: Trace, t: Trace, e: CompleteEnd, policy: Policy)
    requires Completing(t0, t, e, policy)
    ensures t0 <= t
  {
    hide CompleteResult;
  }

  /** A provider that follows the protocol is served verbatim: paragraph `j` gets the
      text the provider gave for it, without surrounding white space. */
  lemma ProtocolAnswerIsServed(items: seq<Item>, ids: seq<string>, path: Path, t0: Trace, t: Trace, job: Job,
                               texts: seq<string>)
    requires Accepted(items, ids, path, t0, t, job)
    requires |texts| == |ids| && |t| >= 2 && t[|t| - 2].Called? && t[|t| - 2].reply.Text?
    requires job.decode(t[|t| - 2].reply.text) == Some(Encode(ids, texts))
    ensures |items| == |texts|
    ensures forall j :: 0 <= j < |items| ==> items[j] == Item(Strip(texts[j]), Some(t[|t| - 2].k), true, path)
  {
    AcceptedMeans(items, ids, path, t0, t, job);
    var output := t[|t| - 2].reply.text;
    assert DistinctStrings(ids);
    RoundTrip(ids, texts, Utf8Size(output), job.cap);
    hide Accepted, Parse, Encode, Strip;
  }

  /** An envelope was rejected: the answer that ended the trace does not parse. */
  lemma RejectedMeans(ids: seq<string>, t0: Trace, t: Trace, job: Job)
    requires Rejected(ids, t0, t, job)
    ensures t0 <= t && |t| >= |t0| + 2 && t[|t| - 2].Called? && t[|t| - 2].reply.Text?
    ensures forall i :: |t0| <= i < |t| && i != |t| - 2 ==> !(t[i].Called? && t[i].reply.Text?)
    ensures var output := t[|t| - 2].reply.text;
            Parse(job.decode(output), Utf8Size(output), ids, job.cap) == None
    ensures forall i :: |t0| <= i < |t| ==> !(t[i].Called? && t[i].reply.Http? && t[i].reply.status == 429)
  {
    hide Completing, Parse;
    var output: string, k: nat :|
      Completing(t0, t, Completed(output, k), job.policy) && Parsed(output, ids, job).None?;
    AnswerIsLast(t0, t, output, k, job.policy);
    CompletingExtends(t0, t, Completed(output, k), job.policy);
  }

  // ---- paragraph by paragraph ----

  /** The part of the trace from `a` to `b` gave this item: its answer is the item's
      text, from the item's provider; or it has none, and the item says whether a rate
      limit was met. */
  ghost predicate Gave(item: Item, t: Trace, a: nat, b: nat) {
    && a < b <= |t|
    && (|| (&& a + 2 <= b && t[b - 2].Called? && t[b - 2].reply.Text?
            && item == Item(t[b - 2].reply.text, Some(t[b - 2].k), false, ParagraphFallback))
        || (&& (forall i :: a <= i < b ==> !(t[i].Called? && t[i].reply.Text?))
            && (exists i :: a <= i < b && t[i].Called? && t[i].reply.Http? && t[i].reply.status == 429)
            && item == Item("[TRANSLATION ERROR: provider_rate_limited]", None, false, ParagraphFallbackFailed))
        || (&& (forall i :: a <= i < b ==>
                  && !(t[i].Called? && t[i].reply.Text?)
                  && !(t[i].Called? && t[i].reply.Http? && t[i].reply.status == 429))
            && item == Item("[TRANSLATION ERROR: provider_unavailable]", None, false, ParagraphFallbackFailed)))
  }

  lemma AnsweredMeans(item: Item, t0: Trace, t: Trace, policy: Policy)
    requires AnsweredBy(item, t0, t, policy)
    ensures t0 <= t && Gave(item, t, |t0|, |t|)
  {
    hide Completing;
    var e: CompleteEnd :|
      && Completing(t0, t, e, policy)
      && match e
         case Completed(text, k) => item == Item(text, Some(k), false, ParagraphFallback)
         case Unavailable(rateLimited) => item == ErrorItem(rateLimited, ParagraphFallbackFailed)
         case BudgetEnd(_) => false;
    CompletingExtends(t0, t, e, policy);
    CompletionIsSomething(t0, t, e, policy);
    if e.Completed? {
      AnswerIsLast(t0, t, e.text, e.k, policy);
    } else {
      NoAnswer(t0, t, e.rateLimited, policy);
    }
  }

  lemma GaveBefore(item: Item, mid: Trace, t: Trace, a: nat, b: nat)
    requires mid <= t && Gave(item, mid, a, b)
    ensures Gave(item, t, a, b)
  {
    assert forall i :: 0 <= i < |mid| ==> t[i] == mid[i];
    if i :| a <= i < b && mid[i].Called? && mid[i].reply.Http? && mid[i].reply.status == 429 {
      assert t[i] == mid[i];
    }
  }

  /** The trace falls into one part per paragraph, in order, and each part gave its
      paragraph's item. */
  lemma {:induction false} FromCallsMeans(items: seq<Item>, t0: Trace, t: Trace, policy: Policy)
    returns (starts: seq<nat>, ends: seq<nat>)
    requires FromCalls(items, t0, t, policy)
    ensures t0 <= t && |starts| == |ends| == |items| && starts + [|t|] == [|t0|] + ends
    ensures forall j :: 0 <= j < |items| ==> Gave(items[j], t, starts[j], ends[j])
  {
    hide LastAnswered, Gave;
    if items == [] {
      starts, ends := [], [];
    } else {
      var last := |items| - 1;
      var mid :| LastAnswered(items, mid, t, policy) && FromCalls(items[..last], t0, mid, policy);
      starts, ends := FromCallsMeans(items[..last], t0, mid, policy);
      LastMeans(items, mid, t, policy);
      forall j | 0 <= j < last ensures Gave(items[j], t, starts[j], ends[j]) {
        assert items[..last][j] == items[j];
        GaveBefore(items[j], mid, t, starts[j], ends[j]);
      }
      starts, ends := starts + [|mid|], ends + [|t|];
    }
  }

  lemma LastMeans(items: seq<Item>, mid: Trace, t: Trace, policy: Policy)
    requires items != [] && LastAnswered(items, mid, t, policy)
    ensures mid <= t && Gave(items[|items| - 1], t, |mid|, |t|)
  {
    AnsweredMeans(items[|items| - 1], mid, t, policy);
  }

  // ---- the whole group ----

  /** A group that returns without its paragraphs being asked one by one: a single text
      is the answer itself; otherwise the texts were parsed from the answer that ended
      the trace, under the first ids, or under the second ids when the first answer of
      all did not parse. */
  lemma ServedWhole(items: seq<Item>, t: Trace, rec: Recovery, job: Job)
    requires Outcome(Items(items), t, rec, job) && rec.fallbacks == 0
    ensures |items| == |job.ids0| && |t| >= 2 && t[|t| - 2].Called? && t[|t| - 2].reply.Text?
    ensures |job.ids0| == 1 && job.contextWindow == 0 ==>
              && items == [Item(t[|t| - 2].reply.text, Some(t[|t| - 2].k), true, Direct)]
              && rec == Recovery(0, 0, 0, 0, 0)
    ensures !(|job.ids0| == 1 && job.contextWindow == 0) ==>
              var output := t[|t| - 2].reply.text;
              var texts := Parse(job.decode(output), Utf8Size(output), if rec.retries == 0 then job.ids0 else job.ids1,
                                 job.cap);
              && texts.Some? && |texts.value| == |items|
              && (forall j :: 0 <= j < |items| ==>
                    items[j] == Item(texts.value[j], Some(t[|t| - 2].k), true,
                                     if rec.retries == 0 then Direct else EnvelopeRetry))
              && (rec == Recovery(0, 0, 0, 0, 0) || rec == Recovery(1, 1, 0, 0, 0))
    ensures rec.retries == 0 ==> forall i :: 0 <= i < |t| - 2 ==> !(t[i].Called? && t[i].reply.Text?)
    ensures rec.retries != 0 ==>
              exists i ::
                && 0 <= i < |t| - 2 && t[i].Called? && t[i].reply.Text?
                && (forall h :: 0 <= h < |t| - 2 && h != i ==> !(t[h].Called? && t[h].reply.Text?))
                && Parse(job.decode(t[i].reply.text), Utf8Size(t[i].reply.text), job.ids0, job.cap) == None
  {
    hide Completing, Parse, Parsed, Accepted, Rejected, TwiceRejected, FromCalls, Fallback;
    assert Served(items, t, rec, job);
    if SingleText(job) {
      var text: string, k: nat :|
        Completing([], t, Completed(text, k), job.policy) && items == [Item(text, Some(k), true, Direct)];
      AnswerIsLast([], t, text, k, job.policy);
    } else if Accepted(items, job.ids0, Direct, [], t, job) && rec == NO_RECOVERY {
      AcceptedMeans(items, job.ids0, Direct, [], t, job);
    } else if RetryAccepted(items, t, job) {
      var t1 :| Rejected(job.ids0, [], t1, job) && Accepted(items, job.ids1, EnvelopeRetry, t1, t, job);
      RejectedMeans(job.ids0, [], t1, job);
      AcceptedMeans(items, job.ids1, EnvelopeRetry, t1, t, job);
      var i := |t1| - 2;
      assert t[i] == t1[i];
      assert t[|t1| - 1] == t1[|t1| - 1];
    }
  }

  /** A group whose paragraphs were asked one by one: the first two answers did not
      parse, under the first and the second ids; after them the trace falls into one
      part per paragraph, in order. A part's answer is its paragraph's text, not to be
      cached; a paragraph without an answer gets an error text. The tracker counts both
      kinds. */
  lemma ServedOneByOne(items: seq<Item>, t: Trace, rec: Recovery, job: Job)
    returns (first: nat, starts: seq<nat>, ends: seq<nat>)
    requires Outcome(Items(items), t, rec, job) && rec.fallbacks != 0
    ensures |items| == |job.ids0| && !(|job.ids0| == 1 && job.contextWindow == 0)
    ensures |starts| == |ends| == |items| && [first] + ends == starts + [|t|]
    ensures exists i, j ::
              && 0 <= i < j < first <= |t|
              && (forall h :: 0 <= h < first ==> (t[h].Called? && t[h].reply.Text? <==> h == i || h == j))
              && Parse(job.decode(t[i].reply.text), Utf8Size(t[i].reply.text), job.ids0, job.cap) == None
              && Parse(job.decode(t[j].reply.text), Utf8Size(t[j].reply.text), job.ids1, job.cap) == None
    ensures forall j :: 0 <= j < |items| ==>
              && starts[j] < ends[j] <= |t|
              && (|| (&& starts[j] + 2 <= ends[j] && t[ends[j] - 2].Called? && t[ends[j] - 2].reply.Text?
                      && items[j] == Item(t[ends[j] - 2].reply.text, Some(t[ends[j] - 2].k), false,
                                          ParagraphFallback))
                  || (&& (forall i :: starts[j] <= i < ends[j] ==> !(t[i].Called? && t[i].reply.Text?))
                      && (exists i :: starts[j] <= i < ends[j]
                                      && t[i].Called? && t[i].reply.Http? && t[i].reply.status == 429)
                      && items[j] == Item("[TRANSLATION ERROR: provider_rate_limited]", None, false,
                                          ParagraphFallbackFailed))
                  || (&& (forall i :: starts[j] <= i < ends[j] ==>
                            !(t[i].Called? && t[i].reply.Text?)
                            && !(t[i].Called? && t[i].reply.Http? && t[i].reply.status == 429))
                      && items[j] == Item("[TRANSLATION ERROR: provider_unavailable]", None, false,
                                          ParagraphFallbackFailed)))
    ensures rec == Recovery(1, 0, 1, |set j | 0 <= j < |items| && items[j].provider.Some?|,
                            |set j | 0 <= j < |items| && items[j].provider.None?|)
  {
    hide Completing, Parse, Parsed, Accepted, Rejected, FromCalls, Fallback, Gave;
    assert Served(items, t, rec, job);
    var t1, t2 :| TwiceRejected(t1, t2, job) && Recovering(items, t2, t, rec, job.policy);
    first := |t2|;
    starts, ends := FromCallsMeans(items, t2, t, job.policy);
    TwoRejections(t1, t2, t, job);
    TrackerCounts(items, rec);
    forall j | 0 <= j < |items| ensures starts[j] < ends[j] <= |t| && Gave(items[j], t, starts[j], ends[j]) {
      GaveSomething(items[j], t, starts[j], ends[j]);
    }
    assert rec == FELL_BACK.(recovered := rec.recovered, failed := rec.failed);
    hide *;
    SpellOut(items, t, starts, ends);
  }

  lemma GaveSomething(item: Item, t: Trace, a: nat, b: nat)
    requires Gave(item, t, a, b)
    ensures a < b <= |t|
  {
  }

  lemma SpellOut(items: seq<Item>, t: Trace, starts: seq<nat>, ends: seq<nat>)
    requires |starts| == |ends| == |items|
    requires forall j :: 0 <= j < |items| ==> Gave(items[j], t, starts[j], ends[j])
    ensures forall j :: 0 <= j < |items| ==>
              && starts[j] < ends[j] <= |t|
              && (|| (&& starts[j] + 2 <= ends[j] && t[ends[j] - 2].Called? && t[ends[j] - 2].reply.Text?
                      && items[j] == Item(t[ends[j] - 2].reply.text, Some(t[ends[j] - 2].k), false,
                                          ParagraphFallback))
                  || (&& (forall i :: starts[j] <= i < ends[j] ==> !(t[i].Called? && t[i].reply.Text?))
                      && (exists i :: starts[j] <= i < ends[j]
                                      && t[i].Called? && t[i].reply.Http? && t[i].reply.status == 429)
                      && items[j] == Item("[TRANSLATION ERROR: provider_rate_limited]", None, false,
                                          ParagraphFallbackFailed))
                  || (&& (forall i :: starts[j] <= i < ends[j] ==>
                            && !(t[i].Called? && t[i].reply.Text?)
                            && !(t[i].Called? && t[i].reply.Http? && t[i].reply.status == 429))
                      && items[j] == Item("[TRANSLATION ERROR: provider_unavailable]", None, false,
                                          ParagraphFallbackFailed)))
  {
  }

  lemma TwoRejections(t1: Trace, t2: Trace, t: Trace, job: Job)
    requires TwiceRejected(t1, t2, job) && t2 <= t
    ensures 0 < |t2|
    ensures exists i, j ::
              && 0 <= i < j < |t2| <= |t|
              && (forall h :: 0 <= h < |t2| ==> (t[h].Called? && t[h].reply.Text? <==> h == i || h == j))
              && Parse(job.decode(t[i].reply.text), Utf8Size(t[i].reply.text), job.ids0, job.cap) == None
              && Parse(job.decode(t[j].reply.text), Utf8Size(t[j].reply.text), job.ids1, job.cap) == None
  {
    assert Rejected(job.ids0, [], t1, job) && Rejected(job.ids1, t1, t2, job);
    hide *;
    RejectedMeans(job.ids0, [], t1, job);
    RejectedMeans(job.ids1, t1, t2, job);
    var i, j := |t1| - 2, |t2| - 2;
    assert t[i] == t1[i] && t[j] == t2[j];
    forall h | 0 <= h < |t2| ensures t[h].Called? && t[h].reply.Text? <==> h == i || h == j {
      assert t[h] == t2[h];
      assert h < |t1| ==> t2[h] == t1[h];
    }
  }

  lemma TrackerCounts(items: seq<Item>, rec: Recovery)
    requires Fallback(items, rec)
    ensures rec.recovered == |set j | 0 <= j < |items| && items[j].provider.Some?|
    ensures rec.failed == |set j | 0 <= j < |items| && items[j].provider.None?|
  {
    RecoveredAre(items);
    GivenUpAre(items);
    hide CountRecovered;
  }

  lemma {:induction false} RecoveredAre(items: seq<Item>)
    requires forall j :: 0 <= j < |items| ==> Recovered(items[j]) || GaveUp(items[j])
    ensures CountRecovered(items) == |set j | 0 <= j < |items| && items[j].provider.Some?|
  {
    if items != [] {
      var init, n := items[..|items| - 1], |items| - 1;
      RecoveredAre(init);
      assert Recovered(items[n]) <==> items[n].provider.Some?;
      OneMore((set j | 0 <= j < n && init[j].provider.Some?), (set j | 0 <= j < |items| && items[j].provider.Some?),
              n, items[n].provider.Some?);
    }
  }

  lemma {:induction false} GivenUpAre(items: seq<Item>)
    requires forall j :: 0 <= j < |items| ==> Recovered(items[j]) || GaveUp(items[j])
    ensures |items| - CountRecovered(items) == |set j | 0 <= j < |items| && items[j].provider.None?|
  {
    if items != [] {
      var init, n := items[..|items| - 1], |items| - 1;
      GivenUpAre(init);
      assert Recovered(items[n]) <==> items[n].provider.Some?;
      OneMore((set j | 0 <= j < n && init[j].provider.None?), (set j | 0 <= j < |items| && items[j].provider.None?),
              n, items[n].provider.None?);
    }
  }

  /** A group that does not return: the budget refused at the end of the trace, with
      this reason; or no provider answered an envelope or a single text, after at most
      one rejected envelope, and the exception says whether a rate limit was met. */
  lemma StoppedMeans(end: GroupEnd, t: Trace, rec: Recovery, job: Job)
    requires Outcome(end, t, rec, job) && !end.Items?
    ensures end.BudgetStop? ==>
              exists i :: |t| - 2 <= i < |t| && 0 <= i
                          && (|| (t[i].Denied? && t[i].reason == end.reason)
                              || (t[i].Called? && t[i].reply == BudgetHit(end.reason)))
    ensures end.Unserved? ==>
              && (end.rateLimited <==>
                  exists i :: 0 <= i < |t| && t[i].Called? && t[i].reply.Http? && t[i].reply.status == 429)
              && (forall i :: 0 <= i < |t| ==>
                    !t[i].Denied? && !(t[i].Called? && t[i].reply.BudgetHit?))
              && ((forall i :: 0 <= i < |t| ==> !(t[i].Called? && t[i].reply.Text?))
                  || (&& !(|job.ids0| == 1 && job.contextWindow == 0)
                      && exists i :: && 0 <= i < |t| && t[i].Called? && t[i].reply.Text?
                                     && (forall h :: 0 <= h < |t| && h != i ==> !(t[h].Called? && t[h].reply.Text?))
                                     && Parse(job.decode(t[i].reply.text), Utf8Size(t[i].reply.text), job.ids0, job.cap)
                                        == None))
  {
    hide Completing, Parse, Parsed, Rejected, FellBack;
    assert Refuses(end, t) && Stopped(end, t, rec, job);
    if end.BudgetStop? {
      assert RefusedWith(t[|t| - 1], end.reason) || RefusedWith(t[|t| - 2], end.reason);
    } else {
      var t0, e: CompleteEnd :|
        && Completing(t0, t, e, job.policy) && Due(t0, rec, job)
        && e.Unavailable? && end == Unserved(e.rateLimited) && rec.fallbacks == 0;
      NoAnswer(t0, t, e.rateLimited, job.policy);
      CompletingExtends(t0, t, e, job.policy);
      forall i | 0 <= i < |t| ensures !t[i].Denied? && !(t[i].Called? && t[i].reply.BudgetHit?) {
        assert !Refusal(t[i]);
      }
      if t0 != [] {
        RejectedMeans(job.ids0, [], t0, job);
        assert forall i :: 0 <= i < |t0| ==> t[i] == t0[i];
        assert t[|t0| - 2] == t0[|t0| - 2];
      }
    }
  }

  // ---- when nothing stands in the way ----

  /** Budget, resolver and providers have nothing but this answer to give. */
  ghost predicate OnlyAnswers(outside: Outside, output: string) {
    forall i :: outside(i).granted && outside(i).resolution == Resolved && outside(i).reply == Text(output)
  }

  lemma OnlyAnswersHeard(t: Trace, outside: Outside, output: string)
    requires OnlyAnswers(outside, output) && Truthful(t, outside, 0)
    ensures forall i :: 0 <= i < |t| ==> !t[i].Denied? && !t[i].Unresolved?
    ensures forall i :: 0 <= i < |t| && t[i].Called? ==> t[i].reply == Text(output)
  {
    forall i | 0 <= i < |t|
      ensures !t[i].Denied? && !t[i].Unresolved? && (t[i].Called? ==> t[i].reply == Text(output))
    {
      assert Told(t[i], outside(0 + i));
    }
  }

  /** A completion that is answered whenever it asks is answered. */
  lemma AnsweredCompletes(end: CompleteEnd, b: Trace, n: nat)
    requires CompleteResult(end, b, n, 1) && n >= 1
    requires forall i :: 0 <= i < |b| ==> !b[i].Denied? && !b[i].Unresolved? && (b[i].Called? ==> b[i].reply.Text?)
    ensures end.Completed?
  {
    CompleteMeans(end, b, n, 1);
    if end.Unavailable? {
      assert !SawFinal(b);
      assert TriedOut(b, 0, 1);
      TriesMeans(b, 0);
      hide Tries, Balanced, Attempts, CallsTo, InOrder, ProvidersBelow, Paused;
      var asked := set i | 0 <= i < |b| && b[i] == Reserved(0);
      assert asked != {};
      var i :| i in asked;
      CallsAreReserved(end, b, n, 1, i);
    }
  }

  /** A single paragraph gets the answer's text. */
  lemma AnswerServesSingle(end: GroupEnd, t: Trace, rec: Recovery, job: Job, outside: Outside, output: string)
    requires Outcome(end, t, rec, job) && Truthful(t, outside, 0) && OnlyAnswers(outside, output)
    requires |job.ids0| == 1 && job.contextWindow == 0
    ensures end.Items? && exists k :: end.items == [Item(output, Some(k), true, Direct)]
  {
    OnlyAnswersHeard(t, outside, output);
    hide Truthful, OnlyAnswers;
    if end.Items? {
      SingleIsWhole(end.items, t, rec, job);
      ServedWhole(end.items, t, rec, job);
    } else {
      StoppedMeans(end, t, rec, job);
      NeverStopped(end, t, rec, job);
    }
  }

  lemma SingleIsWhole(items: seq<Item>, t: Trace, rec: Recovery, job: Job)
    requires Outcome(Items(items), t, rec, job) && |job.ids0| == 1 && job.contextWindow == 0
    ensures rec.fallbacks == 0
  {
    hide Single;
  }

  /** A group whose calls are all answered is not left unserved. */
  lemma NeverStopped(end: GroupEnd, t: Trace, rec: Recovery, job: Job)
    requires Outcome(end, t, rec, job)
    requires forall i :: 0 <= i < |t| ==> !t[i].Denied? && !t[i].Unresolved? && (t[i].Called? ==> t[i].reply.Text?)
    ensures !end.Unserved?
  {
    hide CompleteResult, Due;
    if end.Unserved? {
      assert Stopped(end, t, rec, job);
      var t0, e: CompleteEnd :| Completing(t0, t, e, job.policy) && Due(t0, rec, job) && e.Unavailable?;
      var b := t[|t0|..];
      assert forall i :: 0 <= i < |b| ==> b[i] == t[|t0| + i];
      AnsweredCompletes(e, b, |Eligible(job.policy)|);
    }
  }

  /** A provider that follows the protocol and is let through serves the group with
      one call: paragraph `j` gets the text given for it. */
  lemma ProtocolServesGroup(end: GroupEnd, t: Trace, rec: Recovery, job: Job, outside: Outside, output: string,
                            texts: seq<string>)
    requires Outcome(end, t, rec, job) && Truthful(t, outside, 0) && OnlyAnswers(outside, output)
    requires !(|job.ids0| == 1 && job.contextWindow == 0)
    requires |texts| == |job.ids0| && forall i, j :: 0 <= i < j < |texts| ==> job.ids0[i] != job.ids0[j]
    requires job.decode(output) == Some(Encode(job.ids0, texts)) && Utf8Size(output) <= job.cap
    requires TotalBytes(Stripped(texts)) <= job.cap && forall j :: 0 <= j < |texts| ==> Strip(texts[j]) != []
    ensures end.Items? && |end.items| == |texts| && rec == Recovery(0, 0, 0, 0, 0)
    ensures |t| >= 2 && t[|t| - 2].Called?
    ensures forall j :: 0 <= j < |texts| ==> end.items[j] == Item(Strip(texts[j]), Some(t[|t| - 2].k), true, Direct)
  {
    OnlyAnswersHeard(t, outside, output);
    RoundTrip(job.ids0, texts, Utf8Size(output), job.cap);
    StrippedAt(texts);
    hide *;
    if end.Items? {
      NothingRejected(end.items, t, rec, job);
      ServedWhole(end.items, t, rec, job);
    } else {
      StoppedMeans(end, t, rec, job);
      NeverStopped(end, t, rec, job);
    }
  }

  lemma StrippedAt(texts: seq<string>)
    ensures |Stripped(texts)| == |texts| && forall j :: 0 <= j < |texts| ==> Stripped(texts)[j] == Strip(texts[j])
  {
  }

  /** When every answer parses under the first ids, the first one served the group. */
  lemma NothingRejected(items: seq<Item>, t: Trace, rec: Recovery, job: Job)
    requires Outcome(Items(items), t, rec, job) && !(|job.ids0| == 1 && job.contextWindow == 0)
    requires forall i :: 0 <= i < |t| && t[i].Called? && t[i].reply.Text? ==>
               Parse(job.decode(t[i].reply.text), Utf8Size(t[i].reply.text), job.ids0, job.cap).Some?
    ensures rec == Recovery(0, 0, 0, 0, 0)
  {
    hide *;
    if rec.fallbacks == 0 {
      ServedWhole(items, t, rec, job);
    } else {
      var first, starts, ends := ServedOneByOne(items, t, rec, job);
    }
  }
}
