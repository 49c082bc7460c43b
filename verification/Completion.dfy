/** One completion against the configured providers: which calls are made, in
    which order, and that no upstream slot leaks, for every provider behaviour. */
module Completion {
  import opened Options
  import opened Collections
  import opened WorkBudget

  /** What one HTTP call can come back with. `transient` marks a connection
      error or timeout that never got a status; `BudgetHit` is a budget that
      ran out while the answer was read. */
  datatype Reply =
    | Text(text: string)
    | Http(status: nat, transient: bool)
    | TlsFailure
    | Malformed
    | Fault
    | BudgetHit(reason: Reason)

  /** `k` is the position of the provider among the eligible ones. `Unresolved` is
      a custom endpoint that is misconfigured (`fatal`) or has no address now. */
  datatype Event =
    | Acquired
    | Reserved(k: nat)
    | Unresolved(k: nat, fatal: bool)
    | Called(k: nat, reply: Reply)
    | Released
    | Slept
    | Denied(gate: Gate, reason: Reason)

  /** Where the budget can refuse: the queue for a slot, the reservation, the time
      left for the call, and the pause before a retry. */
  datatype Gate = ForSlot | ForAttempt | ForTime | ForPause

  type Trace = seq<Event>

  // ---- the outside ----

  /** Resolving a custom endpoint before the call. */
  datatype Resolution = Resolved | Misconfigured | DnsFailure

  /** What the budget, the resolver and the provider answer at one step. */
  datatype Answer = Answer(granted: bool, reason: Reason, resolution: Resolution, reply: Reply)

  /** The answers at every step of a request; any function is possible. */
  type Outside = nat -> Answer

  /** The event is what the outside answered. */
  predicate Told(e: Event, a: Answer) {
    match e
    case Acquired => a.granted
    case Reserved(_) => a.granted
    case Slept => a.granted
    case Denied(gate, reason) =>
      !a.granted && reason == a.reason && (gate == ForTime ==> a.resolution == Resolved)
    case Unresolved(_, fatal) => a.resolution == if fatal then Misconfigured else DnsFailure
    case Called(_, reply) => a.granted && a.resolution == Resolved && reply == a.reply
    case Released => true
  }

  /** Nothing in the trace is made up: step `from + i` of the outside gave event `i`. */
  ghost predicate Truthful(t: Trace, outside: Outside, from: nat) {
    forall i :: 0 <= i < |t| ==> Told(t[i], outside(from + i))
  }

  lemma TruthfulConcat(a: Trace, b: Trace, outside: Outside, from: nat)
    requires Truthful(a, outside, from) && Truthful(b, outside, from + |a|)
    ensures Truthful(a + b, outside, from)
  {
    hide Told;
    var t := a + b;
    forall i | 0 <= i < |t| ensures Told(t[i], outside(from + i)) {
      if i >= |a| {
        assert Told(b[i - |a|], outside(from + |a| + (i - |a|)));
      }
    }
  }

  // ---- reading a trace ----

  /** Slots held after a trace, starting from `held`; -1 once a slot is taken
      while one is held, or given back while none is. */
  function Slots(t: Trace, held: int): (h: int) {
    if t == [] then held
    else
      SlotsAfter(t[|t| - 1], Slots(t[..|t| - 1], held))
  }

  function SlotsAfter(e: Event, held: int): (h: int) {
    match e
    case Acquired => if held == 0 then 1 else -1
    case Released => if held == 1 then 0 else -1
    case Slept => if held == 0 then 0 else -1
    case Denied(gate, _) =>
      if gate == ForSlot || gate == ForPause then (if held == 0 then 0 else -1)
      else (if held == 1 then 1 else -1)
    case _ => if held == 1 then 1 else -1
  }

  /** Every slot acquired was released exactly once, and reservations and calls
      only happened while holding one. */
  predicate Balanced(t: Trace) {
    Slots(t, 0) == 0
  }

  function Attempts(t: Trace): (n: nat) {
    if t == [] then 0
    else Attempts(t[..|t| - 1]) + (if t[|t| - 1].Reserved? then 1 else 0)
  }

  function CallsTo(t: Trace, k: nat): (n: nat) {
    if t == [] then 0
    else
      var e := t[|t| - 1];
      CallsTo(t[..|t| - 1], k) + (if e.Called? && e.k == k then 1 else 0)
  }

  /** Reserved attempts at one provider. */
  function Tries(t: Trace, k: nat): (n: nat) {
    if t == [] then 0
    else Tries(t[..|t| - 1], k) + (if t[|t| - 1] == Reserved(k) then 1 else 0)
  }

  /** The provider used up its attempts, or answered with something unusable. */
  ghost predicate TriedOut(t: Trace, k: nat, maxRetries: nat) {
    Tries(t, k) == maxRetries || exists i :: 0 <= i < |t| && t[i] == Called(k, Malformed)
  }

  ghost predicate AllTriedOut(t: Trace, n: nat, maxRetries: nat) {
    forall k: nat :: k < n ==> TriedOut(t, k, maxRetries)
  }

  predicate RateLimited(e: Event) {
    e.Called? && e.reply.Http? && e.reply.status == 429
  }

  ghost predicate Saw(t: Trace, p: Event -> bool) {
    exists i :: 0 <= i < |t| && p(t[i])
  }

  ghost predicate SawRateLimit(t: Trace) {
    Saw(t, RateLimited)
  }

  /** The budget put an end to the work, for this reason. */
  predicate RefusedWith(e: Event, reason: Reason) {
    (e.Denied? && e.reason == reason) || (e.Called? && e.reply == BudgetHit(reason))
  }

  predicate Refusal(e: Event) {
    e.Denied? || (e.Called? && e.reply.BudgetHit?)
  }

  ghost predicate SawRefusal(t: Trace) {
    Saw(t, Refusal)
  }

  /** A refusal is the last thing that happened, but for giving the slot back. */
  predicate EndsRefused(t: Trace, reason: Reason) {
    && t != []
    && (|| RefusedWith(t[|t| - 1], reason)
        || (t[|t| - 1].Released? && |t| >= 2 && RefusedWith(t[|t| - 2], reason)))
  }

  /** An outcome after which neither this provider nor another may be called: a
      refusal, an answer, an HTTP 429, or any other error that is not retryable. */
  predicate Final(e: Event) {
    match e
    case Denied(_, _) => true
    case Unresolved(_, fatal) => fatal
    case Called(_, Http(status, transient)) =>
      status !in {408, 500, 502, 503, 504} && !(status == 0 && transient)
    case Called(_, reply) => reply != Malformed
    case _ => false
  }

  ghost predicate SawFinal(t: Trace) {
    Saw(t, Final)
  }

  /** Nothing but giving the slot back follows a final outcome. */
  ghost predicate StopsAtFinal(t: Trace) {
    forall i, j :: 0 <= i < j < |t| && Final(t[i]) ==> t[j].Released?
  }

  /** An HTTP 429 is final (section 4 of RFC 6585 leaves retrying to the caller). */
  lemma RateLimitIsFinal(t: Trace, i: nat, j: nat)
    requires StopsAtFinal(t) && i < j < |t| && RateLimited(t[i])
    ensures !t[j].Called? && !t[j].Reserved?
  {
    assert Final(t[i]);
  }

  predicate IsAnswer(e: Event) {
    e.Called? && e.reply.Text?
  }

  ghost predicate SawAnswer(t: Trace) {
    Saw(t, IsAnswer)
  }

  /** The last thing done before the slot was given back. */
  predicate EndsWith(t: Trace, e: Event) {
    |t| >= 2 && t[|t| - 2] == e
  }

  /** The event went to a provider. */
  predicate Addressed(e: Event) {
    e.Called? || e.Reserved? || e.Unresolved?
  }

  ghost predicate OnlyProvider(t: Trace, k: nat) {
    forall i :: 0 <= i < |t| && Addressed(t[i]) ==> t[i].k == k
  }

  /** A provider is asked again only after a pause. */
  ghost predicate Paused(t: Trace) {
    forall i, j :: 0 <= i < j < |t| && t[i].Reserved? && t[j].Reserved? && t[i].k == t[j].k ==> SleptBetween(t, i, j)
  }

  ghost predicate SleptBetween(t: Trace, i: nat, j: nat)
    requires i < j < |t|
  {
    exists m :: i < m < j && t[m] == Slept
  }

  /** Nothing was asked yet, or the pause has just been taken. */
  predicate Rested(t: Trace) {
    t == [] || t[|t| - 1] == Slept
  }

  lemma SleptStays(a: Trace, b: Trace, i: nat, j: nat)
    requires i < j < |a|
    ensures SleptBetween(a, i, j) ==> SleptBetween(a + b, i, j)
  {
    if m :| i < m < j && a[m] == Slept {
      assert (a + b)[m] == Slept;
    }
  }

  lemma SleptShifts(a: Trace, b: Trace, i: nat, j: nat)
    requires i < j < |b|
    ensures SleptBetween(b, i, j) ==> SleptBetween(a + b, |a| + i, |a| + j)
  {
    if m :| i < m < j && b[m] == Slept {
      assert (a + b)[|a| + m] == Slept;
    }
  }

  /** Two parts, each paused, that ask different providers or have a pause between. */
  lemma PausedConcat(a: Trace, b: Trace)
    requires Paused(a) && Paused(b)
    requires
      || Rested(a)
      || forall i, j :: 0 <= i < |a| && 0 <= j < |b| && a[i].Reserved? && b[j].Reserved? ==> a[i].k != b[j].k
    ensures Paused(a + b)
  {
    hide SleptBetween;
    var t := a + b;
    forall i, j | 0 <= i < j < |t| && t[i].Reserved? && t[j].Reserved? && t[i].k == t[j].k
      ensures SleptBetween(t, i, j)
    {
      if j < |a| {
        assert a[i] == t[i] && a[j] == t[j];
        SleptStays(a, b, i, j);
      } else if i >= |a| {
        assert b[i - |a|] == t[i] && b[j - |a|] == t[j];
        SleptShifts(a, b, i - |a|, j - |a|);
      } else {
        assert a[i] == t[i] && b[j - |a|] == t[j];
        LastSlept(a, b, i, j);
      }
    }
  }

  lemma LastSlept(a: Trace, b: Trace, i: nat, j: nat)
    requires i < |a| <= j < |a + b| && a[i].Reserved? && a[|a| - 1] == Slept
    ensures SleptBetween(a + b, i, j)
  {
    assert (a + b)[|a| - 1] == Slept;
  }

  /** Providers are used in the order of the eligible list. */
  ghost predicate InOrder(t: Trace) {
    forall i, j :: 0 <= i < j < |t| && t[i].Called? && t[j].Called? ==> t[i].k <= t[j].k
  }

  ghost predicate ProvidersBelow(t: Trace, n: nat) {
    forall i :: 0 <= i < |t| && Addressed(t[i]) ==> t[i].k < n
  }

  /** What was reserved is used at once: for the call, for an address that is missing,
      or for a call the remaining time forbids; and nothing is called otherwise. */
  ghost predicate ReservedForCalls(t: Trace) {
    && (forall i :: 0 <= i < |t| && (t[i].Called? || t[i].Unresolved?) ==> i > 0 && t[i - 1] == Reserved(t[i].k))
    && (forall i :: 0 <= i < |t| && t[i].Reserved? ==>
          && i + 1 < |t|
          && (|| ((t[i + 1].Called? || t[i + 1].Unresolved?) && t[i + 1].k == t[i].k)
              || (t[i + 1].Denied? && t[i + 1].gate == ForTime)))
  }

  lemma ReservedConcat(a: Trace, b: Trace)
    requires ReservedForCalls(a) && ReservedForCalls(b)
    ensures ReservedForCalls(a + b)
  {
    var t := a + b;
    forall i | 0 <= i < |t| && (t[i].Called? || t[i].Unresolved?) ensures i > 0 && t[i - 1] == Reserved(t[i].k) {
      if i >= |a| {
        assert b[i - |a|] == t[i];
        assert b[i - |a| - 1] == t[i - 1];
      } else {
        assert a[i] == t[i];
      }
    }
    forall i | 0 <= i < |t| && t[i].Reserved?
      ensures
        && i + 1 < |t|
        && (|| ((t[i + 1].Called? || t[i + 1].Unresolved?) && t[i + 1].k == t[i].k)
            || (t[i + 1].Denied? && t[i + 1].gate == ForTime))
    {
      if i >= |a| {
        assert b[i - |a|] == t[i];
        assert b[i - |a| + 1] == t[i + 1];
      } else {
        assert a[i] == t[i];
      }
    }
  }

  lemma Snoc(t: Trace, e: Event, k: nat)
    ensures Slots(t + [e], 0) == SlotsAfter(e, Slots(t, 0))
    ensures Attempts(t + [e]) == Attempts(t) + (if e.Reserved? then 1 else 0)
    ensures CallsTo(t + [e], k) == CallsTo(t, k) + (if e.Called? && e.k == k then 1 else 0)
    ensures Tries(t + [e], k) == Tries(t, k) + (if e == Reserved(k) then 1 else 0)
  {
    assert (t + [e])[..|t|] == t;
  }

  lemma {:induction false} SlotsConcat(a: Trace, b: Trace, held: int)
    ensures Slots(a + b, held) == Slots(b, Slots(a, held))
  {
    if b == [] {
      assert a + b == a;
    } else {
      assert (a + b)[..|a + b| - 1] == a + b[..|b| - 1];
      SlotsConcat(a, b[..|b| - 1], held);
    }
  }

  lemma {:induction false} AttemptsConcat(a: Trace, b: Trace)
    ensures Attempts(a + b) == Attempts(a) + Attempts(b)
  {
    if b == [] {
      assert a + b == a;
    } else {
      assert (a + b)[..|a + b| - 1] == a + b[..|b| - 1];
      AttemptsConcat(a, b[..|b| - 1]);
    }
  }

  lemma {:induction false} CallsToConcat(a: Trace, b: Trace, k: nat)
    ensures CallsTo(a + b, k) == CallsTo(a, k) + CallsTo(b, k)
  {
    if b == [] {
      assert a + b == a;
    } else {
      assert (a + b)[..|a + b| - 1] == a + b[..|b| - 1];
      CallsToConcat(a, b[..|b| - 1], k);
    }
  }

  lemma {:induction false} NoCallsElsewhere(t: Trace, k: nat, k': nat)
    requires OnlyProvider(t, k) && k' != k
    ensures CallsTo(t, k') == 0
  {
    if t != [] {
      NoCallsElsewhere(t[..|t| - 1], k, k');
    }
  }

  lemma {:induction false} TriesConcat(a: Trace, b: Trace, k: nat)
    ensures Tries(a + b, k) == Tries(a, k) + Tries(b, k)
  {
    if b == [] {
      assert a + b == a;
    } else {
      assert (a + b)[..|a + b| - 1] == a + b[..|b| - 1];
      TriesConcat(a, b[..|b| - 1], k);
    }
  }

  lemma {:induction false} NoTriesElsewhere(t: Trace, k: nat, k': nat)
    requires OnlyProvider(t, k) && k' != k
    ensures Tries(t, k') == 0
  {
    if t != [] {
      NoTriesElsewhere(t[..|t| - 1], k, k');
    }
  }

  lemma {:induction false} NoTriesBelow(t: Trace, n: nat)
    requires ProvidersBelow(t, n)
    ensures Tries(t, n) == 0
  {
    if t != [] {
      NoTriesBelow(t[..|t| - 1], n);
    }
  }

  /** Calls to another provider leave the earlier ones tried out. */
  lemma StillTriedOut(a: Trace, b: Trace, k: nat, maxRetries: nat)
    requires AllTriedOut(a, k, maxRetries) && OnlyProvider(b, k)
    ensures AllTriedOut(a + b, k, maxRetries)
  {
    hide OnlyProvider;
    forall j: nat | j < k ensures TriedOut(a + b, j, maxRetries) {
      assert TriedOut(a, j, maxRetries);
      TriesConcat(a, b, j);
      NoTriesElsewhere(b, k, j);
      if i :| 0 <= i < |a| && a[i] == Called(j, Malformed) {
        assert (a + b)[i] == Called(j, Malformed);
      }
    }
  }

  lemma NextTriedOut(a: Trace, b: Trace, k: nat, maxRetries: nat)
    requires AllTriedOut(a, k, maxRetries) && ProvidersBelow(a, k)
    requires OnlyProvider(b, k) && TriedOut(b, k, maxRetries)
    ensures AllTriedOut(a + b, k + 1, maxRetries)
  {
    StillTriedOut(a, b, k, maxRetries);
    TriesConcat(a, b, k);
    NoTriesBelow(a, k);
    assert TriedOut(a + b, k, maxRetries) by {
      if i :| 0 <= i < |b| && b[i] == Called(k, Malformed) {
        assert (a + b)[|a| + i] == Called(k, Malformed);
      }
    }
    hide OnlyProvider, ProvidersBelow, TriedOut;
  }

  lemma SawConcat(a: Trace, b: Trace, p: Event -> bool)
    ensures Saw(a + b, p) <==> Saw(a, p) || Saw(b, p)
  {
    if i :| 0 <= i < |a + b| && p((a + b)[i]) {
      assert if i < |a| then p(a[i]) else p(b[i - |a|]);
    }
    if i :| 0 <= i < |a| && p(a[i]) {
      assert p((a + b)[i]);
    }
    if i :| 0 <= i < |b| && p(b[i]) {
      assert p((a + b)[|a| + i]);
    }
  }

  lemma AllSawConcat(a: Trace, b: Trace)
    ensures SawRateLimit(a + b) <==> SawRateLimit(a) || SawRateLimit(b)
    ensures SawFinal(a + b) <==> SawFinal(a) || SawFinal(b)
    ensures SawRefusal(a + b) <==> SawRefusal(a) || SawRefusal(b)
    ensures SawAnswer(a + b) <==> SawAnswer(a) || SawAnswer(b)
  {
    SawConcat(a, b, IsAnswer);
    SawConcat(a, b, RateLimited);
    SawConcat(a, b, Final);
    SawConcat(a, b, Refusal);
    hide Saw;
  }

  lemma StopsConcat(a: Trace, b: Trace)
    requires StopsAtFinal(a) && StopsAtFinal(b) && !SawFinal(a)
    ensures StopsAtFinal(a + b)
  {
    hide Final;
    var t := a + b;
    forall i, j | 0 <= i < j < |t| && Final(t[i]) ensures t[j].Released? {
      assert i >= |a|;
      assert Final(b[i - |a|]);
    }
  }

  // ---- one attempt ----

  datatype AttemptEnd =
    | Success(text: string)
    | OutOfBudget(reason: Reason)
    | Retry(status: nat)
    | Stop(status: nat, fallback: bool)
    | Crash

  /** The handling of one call's outcome (translator.py 1466-1578). */
  function Classify(reply: Reply): (r: AttemptEnd) {
    match reply
    case Text(s) => Success(s)
    case Http(status, transient) =>
      if status in {408, 500, 502, 503, 504} || (status == 0 && transient) then Retry(status)
      else Stop(status, false)
    case TlsFailure => Stop(0, false)
    case Malformed => Stop(0, true)
    case Fault => Crash
    case BudgetHit(reason) => OutOfBudget(reason)
  }

  /** The trace of one attempt and the end it justifies. */
  ghost predicate AttemptShape(t: Trace, k: nat, end: AttemptEnd) {
    || (exists gate, reason :: t == RefusedTrace(k, gate, reason) && end == OutOfBudget(reason))
    || (t == EndpointTrace(k, true) && end == Stop(0, false))
    || (t == EndpointTrace(k, false) && end == Retry(0))
    || (exists reply :: t == CallTrace(k, reply) && end == Classify(reply))
  }

  function CallTrace(k: nat, reply: Reply): (t: Trace) {
    [Acquired] + [Reserved(k)] + [Called(k, reply)] + [Released]
  }

  function EndpointTrace(k: nat, fatal: bool): (t: Trace) {
    [Acquired] + [Reserved(k)] + [Unresolved(k, fatal)] + [Released]
  }

  /** The attempt got as far as the gate. */
  function RefusedTrace(k: nat, gate: Gate, reason: Reason): (t: Trace) {
    match gate
    case ForSlot => [Denied(gate, reason)]
    case ForAttempt => [Acquired] + [Denied(gate, reason)] + [Released]
    case ForTime => [Acquired] + [Reserved(k)] + [Denied(gate, reason)] + [Released]
    case ForPause => [Denied(gate, reason)]
  }

  /** One pass of the retry loop up to its exception handlers (translator.py 1433-1472). */
  method Attempt(k: nat, outside: Outside, from: nat) returns (end: AttemptEnd, t: Trace)
    ensures AttemptShape(t, k, end) && Truthful(t, outside, from)
  {
    hide Classify;
    if !outside(from).granted {
      return OutOfBudget(outside(from).reason), RefusedTrace(k, ForSlot, outside(from).reason);
    }
    var a := outside(from + 1);
    if !a.granted {
      return OutOfBudget(a.reason), RefusedTrace(k, ForAttempt, a.reason);
    }
    a := outside(from + 2);
    if a.resolution == Misconfigured {
      return Stop(0, false), EndpointTrace(k, true);
    } else if a.resolution == DnsFailure {
      return Retry(0), EndpointTrace(k, false);
    } else if !a.granted {
      return OutOfBudget(a.reason), RefusedTrace(k, ForTime, a.reason);
    }
    end, t := Classify(a.reply), CallTrace(k, a.reply);
  }

  /** What every trace of calls to one provider keeps. */
  ghost predicate GoodCalls(t: Trace, k: nat, most: nat) {
    && Balanced(t)
    && OnlyProvider(t, k)
    && Attempts(t) <= most
    && CallsTo(t, k) <= most
    && StopsAtFinal(t)
    && ReservedForCalls(t)
  }

  lemma CallTraceIsGood(k: nat, reply: Reply)
    ensures GoodCalls(CallTrace(k, reply), k, 1)
    ensures SawRateLimit(CallTrace(k, reply)) <==> Classify(reply) == Stop(429, false)
    ensures SawFinal(CallTrace(k, reply)) <==> Final(Called(k, reply))
    ensures SawRefusal(CallTrace(k, reply)) <==> reply.BudgetHit?
    ensures SawAnswer(CallTrace(k, reply)) <==> reply.Text?
    ensures reply.BudgetHit? ==> EndsRefused(CallTrace(k, reply), reply.reason)
    ensures EndsWith(CallTrace(k, reply), Called(k, reply))
    ensures Tries(CallTrace(k, reply), k) == 1
    ensures reply == Malformed ==> TriedOut(CallTrace(k, reply), k, 0)
  {
    var reserved := [Acquired] + [Reserved(k)];
    ReservedCounts(k);
    Snoc(reserved, Called(k, reply), k);
    Snoc(reserved + [Called(k, reply)], Released, k);
    var t := CallTrace(k, reply);
    assert t[2] == Called(k, reply);
    assert RateLimited(t[2]) <==> SawRateLimit(t);
    assert Final(t[2]) <==> SawFinal(t);
    assert Refusal(t[2]) <==> SawRefusal(t);
    assert IsAnswer(t[2]) <==> SawAnswer(t);
    hide Slots, Attempts, CallsTo, Saw, Tries;
  }

  lemma EndpointTraceIsGood(k: nat, fatal: bool)
    ensures GoodCalls(EndpointTrace(k, fatal), k, 1) && !SawRateLimit(EndpointTrace(k, fatal))
    ensures SawFinal(EndpointTrace(k, fatal)) <==> fatal
    ensures !SawRefusal(EndpointTrace(k, fatal)) && !SawAnswer(EndpointTrace(k, fatal))
    ensures Tries(EndpointTrace(k, fatal), k) == 1
  {
    var reserved := [Acquired] + [Reserved(k)];
    ReservedCounts(k);
    Snoc(reserved, Unresolved(k, fatal), k);
    Snoc(reserved + [Unresolved(k, fatal)], Released, k);
    var t := EndpointTrace(k, fatal);
    assert Final(t[2]) <==> SawFinal(t);
    hide Slots, Attempts, CallsTo, SawFinal, Tries;
  }

  lemma ReservedCounts(k: nat)
    ensures var t := [Acquired] + [Reserved(k)];
            Slots(t, 0) == 1 && Attempts(t) == 1 && CallsTo(t, k) == 0 && Tries(t, k) == 1
  {
    Snoc([], Acquired, k);
    assert [] + [Acquired] == [Acquired];
    Snoc([Acquired], Reserved(k), k);
  }

  /** What a refusal makes of an attempt. */
  ghost predicate CutShort(t: Trace, k: nat, reason: Reason) {
    GoodCalls(t, k, 1) && !SawRateLimit(t) && SawFinal(t) && SawRefusal(t) && !SawAnswer(t) && EndsRefused(t, reason)
  }

  lemma RefusedAtOnce(k: nat, e: Event)
    requires e.Denied? && (e.gate == ForSlot || e.gate == ForPause)
    ensures CutShort([e], k, e.reason)
  {
    Snoc([], e, k);
    assert [] + [e] == [e];
    assert Final([e][0]) && Refusal([e][0]);
    hide Slots, Attempts, CallsTo, Tries;
  }

  lemma RefusedHolding(k: nat, e: Event, before: Trace)
    requires e.Denied? && (e.gate == ForAttempt || e.gate == ForTime)
    requires before == [Acquired] || (before == [Acquired] + [Reserved(k)] && e.gate == ForTime)
    ensures CutShort(before + [e] + [Released], k, e.reason)
  {
    HoldingCounts(k, e, before);
    HoldingEvents(k, e, before);
    hide *;
    IsCutShort(before + [e] + [Released], k, e.reason);
  }

  lemma IsCutShort(t: Trace, k: nat, reason: Reason)
    requires Balanced(t) && Attempts(t) <= 1 && CallsTo(t, k) <= 1 && OnlyProvider(t, k) && StopsAtFinal(t)
    requires ReservedForCalls(t)
    requires !SawRateLimit(t) && SawFinal(t) && SawRefusal(t) && !SawAnswer(t) && EndsRefused(t, reason)
    ensures CutShort(t, k, reason)
  {
  }

  lemma HoldingCounts(k: nat, e: Event, before: Trace)
    requires e.Denied? && (e.gate == ForAttempt || e.gate == ForTime)
    requires before == [Acquired] || before == [Acquired] + [Reserved(k)]
    ensures var t := before + [e] + [Released];
            Balanced(t) && Attempts(t) <= 1 && CallsTo(t, k) <= 1
  {
    hide Slots, Attempts, CallsTo, Tries;
    AcquiredCounts(k);
    ReservedCounts(k);
    Snoc(before, e, k);
    Snoc(before + [e], Released, k);
  }

  lemma AcquiredCounts(k: nat)
    ensures Slots([Acquired], 0) == 1 && Attempts([Acquired]) == 0 && CallsTo([Acquired], k) == 0
    ensures Tries([Acquired], k) == 0
  {
    Snoc([], Acquired, k);
    assert [] + [Acquired] == [Acquired];
  }

  lemma HoldingEvents(k: nat, e: Event, before: Trace)
    requires e.Denied?
    requires before == [Acquired] || (before == [Acquired] + [Reserved(k)] && e.gate == ForTime)
    ensures var t := before + [e] + [Released];
            && OnlyProvider(t, k) && StopsAtFinal(t) && ReservedForCalls(t)
            && !SawRateLimit(t) && SawFinal(t) && SawRefusal(t) && !SawAnswer(t) && EndsRefused(t, e.reason)
  {
    var t, n := before + [e] + [Released], |before|;
    assert |t| == n + 2 && t[n] == e && t[n + 1] == Released;
    assert forall i :: 0 <= i < n ==> t[i] == before[i] && (t[i] == Acquired || t[i] == Reserved(k));
    assert Final(t[n]) && Refusal(t[n]);
  }

  lemma RefusedTraceIsGood(k: nat, gate: Gate, reason: Reason)
    ensures CutShort(RefusedTrace(k, gate, reason), k, reason)
  {
    hide CutShort;
    match gate
    case ForSlot => RefusedAtOnce(k, Denied(gate, reason));
    case ForAttempt => RefusedHolding(k, Denied(gate, reason), [Acquired]);
    case ForTime => RefusedHolding(k, Denied(gate, reason), [Acquired] + [Reserved(k)]);
    case ForPause => RefusedAtOnce(k, Denied(gate, reason));
  }

  lemma AttemptIsGood(t: Trace, k: nat, end: AttemptEnd)
    requires AttemptShape(t, k, end)
    ensures GoodCalls(t, k, 1)
    ensures SawRateLimit(t) <==> end == Stop(429, false)
    ensures end.Retry? || end == Stop(0, true) ==> !SawFinal(t)
    ensures end.Retry? ==> end.status != 429
    ensures end.Stop? && end.fallback ==> end.status == 0
    ensures end.Success? ==> EndsWith(t, Called(k, Text(end.text)))
    ensures end.Success? <==> SawAnswer(t)
    ensures end.Retry? ==> Tries(t, k) == 1
    ensures end == Stop(0, true) ==> TriedOut(t, k, 0) && Tries(t, k) > 0
    ensures end.Crash? || (end.Stop? && !end.fallback) ==> SawFinal(t)
    ensures if end.OutOfBudget? then EndsRefused(t, end.reason) else !SawRefusal(t)
  {
    hide GoodCalls, Saw, EndsRefused;
    if reply :| t == CallTrace(k, reply) && end == Classify(reply) {
      CallTraceIsGood(k, reply);
    } else if t == EndpointTrace(k, true) && end == Stop(0, false) {
      EndpointTraceIsGood(k, true);
    } else if t == EndpointTrace(k, false) && end == Retry(0) {
      EndpointTraceIsGood(k, false);
    } else {
      var gate, reason :| t == RefusedTrace(k, gate, reason) && end == OutOfBudget(reason);
      RefusedTraceIsGood(k, gate, reason);
    }
  }

  lemma AttemptIsPaused(t: Trace, k: nat, end: AttemptEnd)
    requires AttemptShape(t, k, end)
    ensures Paused(t)
  {
    hide SleptBetween, Classify;
    assert forall i :: 0 <= i < |t| && t[i].Reserved? ==> i == 1;
  }

  lemma GoodConcat(a: Trace, b: Trace, k: nat, n: nat, m: nat)
    requires GoodCalls(a, k, n) && GoodCalls(b, k, m) && !SawFinal(a)
    ensures GoodCalls(a + b, k, n + m)
  {
    SlotsConcat(a, b, 0);
    AttemptsConcat(a, b);
    CallsToConcat(a, b, k);
    StopsConcat(a, b);
    ReservedConcat(a, b);
    hide SawFinal, StopsAtFinal, ReservedForCalls, Slots, Attempts, CallsTo;
  }

  // ---- one provider ----

  datatype CallEnd =
    | Answered(text: string)
    | Exhausted(reason: Reason)
    | ProviderError(status: nat, fallback: bool)
    | Crashed

  /** How the calls to one provider ended, and what that says about them. */
  ghost predicate CallResult(end: CallEnd, t: Trace, k: nat, maxRetries: nat) {
    && GoodCalls(t, k, maxRetries)
    && (SawRateLimit(t) <==> end == ProviderError(429, false))
    && (end.ProviderError? && end.fallback ==> end.status != 429 && !SawFinal(t) && TriedOut(t, k, maxRetries))
    && (end.Crashed? || (end.ProviderError? && !end.fallback) ==> SawFinal(t) || maxRetries == 0)
    && (end.Answered? ==> EndsWith(t, Called(k, Text(end.text))))
    && (end.Answered? <==> SawAnswer(t))
    && (if end.Exhausted? then EndsRefused(t, end.reason) else !SawRefusal(t))
    && Paused(t)
  }

  /** `n` attempts have failed and may be followed by another. */
  ghost predicate Retrying(t: Trace, k: nat, n: nat) {
    && GoodCalls(t, k, n)
    && !SawRateLimit(t) && !SawFinal(t) && !SawRefusal(t) && !SawAnswer(t)
    && Tries(t, k) == n && Paused(t)
  }

  /** `_call_provider`: at most `maxRetries` attempts, none after a final outcome;
      it gives up for the budget exactly when the budget refused. */
  method CallProvider(k: nat, maxRetries: nat, outside: Outside, from: nat) returns (end: CallEnd, t: Trace)
    ensures CallResult(end, t, k, maxRetries) && Truthful(t, outside, from)
  {
    t := [];
    assert Retrying([], k, 0) && Rested([]);
    var lastStatus := 0;
    hide *;
    for attempt := 0 to maxRetries
      invariant Retrying(t, k, attempt) && Truthful(t, outside, from)
      invariant lastStatus != 429 && (attempt < maxRetries ==> Rested(t))
    {
      var over;
      over, lastStatus, t := TryOnce(k, attempt, maxRetries, outside, from, t);
      if over.Some? { return over.value, t; }
    }
    // A retryable error that was retried to the end may use the next provider.
    end := ProviderError(lastStatus, maxRetries > 0);
    AfterLast(end, t, k, maxRetries);
  }

  /** One turn of the retry loop: an end, or the status to remember. */
  method TryOnce(k: nat, attempt: nat, maxRetries: nat, outside: Outside, from: nat, t0: Trace)
    returns (end: Option<CallEnd>, status: nat, t: Trace)
    requires Retrying(t0, k, attempt) && Rested(t0) && Truthful(t0, outside, from) && attempt < maxRetries
    ensures Truthful(t, outside, from) && (end.None? && attempt + 1 < maxRetries ==> Rested(t))
    ensures if end.Some? then CallResult(end.value, t, k, maxRetries) else Retrying(t, k, attempt + 1) && status != 429
  {
    hide *;
    var e, step := Attempt(k, outside, from + |t0|);
    AfterAttempt(t0, step, e, k, attempt, maxRetries);
    TruthfulConcat(t0, step, outside, from);
    t, status := t0 + step, 0;
    match e {
      case Success(text) => end := Some(Answered(text));
      case OutOfBudget(reason) => end := Some(Exhausted(reason));
      case Stop(code, fallback) => end := Some(ProviderError(code, fallback));
      case Crash => end := Some(Crashed);
      case Retry(code) =>
        end, status := None, code;
        if attempt + 1 < maxRetries {
          end, t := PauseBefore(k, attempt + 1, maxRetries, outside, from, t);
        }
    }
  }

  /** The pause before another attempt. */
  method PauseBefore(k: nat, n: nat, maxRetries: nat, outside: Outside, from: nat, t0: Trace)
    returns (end: Option<CallEnd>, t: Trace)
    requires Retrying(t0, k, n) && Truthful(t0, outside, from) && n < maxRetries
    ensures Truthful(t, outside, from)
    ensures if end.Some? then CallResult(end.value, t, k, maxRetries) else Retrying(t, k, n) && Rested(t)
  {
    hide *;
    var granted, pause := TakePause(outside, from + |t0|);
    TruthfulConcat(t0, pause, outside, from);
    AfterPause(t0, pause, k, n, maxRetries);
    t := t0 + pause;
    end := if granted then None else Some(Exhausted(pause[0].reason));
  }

  /** `_sleep_before_retry` (translator.py 1395-1406). */
  method TakePause(outside: Outside, from: nat) returns (granted: bool, t: Trace)
    ensures Truthful(t, outside, from) && |t| == 1
    ensures if granted then t == [Slept] else t[0].Denied? && t[0].gate == ForPause
  {
    var a := outside(from);
    granted := a.granted;
    t := if granted then [Slept] else [Denied(ForPause, a.reason)];
  }

  lemma AfterAttempt(t: Trace, step: Trace, e: AttemptEnd, k: nat, n: nat, maxRetries: nat)
    requires Retrying(t, k, n) && Rested(t) && AttemptShape(step, k, e) && n < maxRetries
    ensures match e
            case Success(text) => CallResult(Answered(text), t + step, k, maxRetries)
            case OutOfBudget(reason) => CallResult(Exhausted(reason), t + step, k, maxRetries)
            case Stop(status, fallback) => CallResult(ProviderError(status, fallback), t + step, k, maxRetries)
            case Crash => CallResult(Crashed, t + step, k, maxRetries)
            case Retry(status) => Retrying(t + step, k, n + 1) && status != 429
  {
    hide AttemptShape, GoodCalls, Saw, EndsRefused, EndsWith, Tries, TriedOut, Paused, Rested;
    AttemptIsGood(step, k, e);
    AttemptIsPaused(step, k, e);
    PausedConcat(t, step);
    TriesConcat(t, step, k);
    UnusableConcat(t, step, k, maxRetries);
    GoodConcat(t, step, k, n, 1);
    GoodMore(t + step, k, n + 1, maxRetries);
    AllSawConcat(t, step);
    EndsConcat(t, step);
  }

  /** The pause before a retry is granted, or ends the work. */
  lemma AfterPause(t: Trace, pause: Trace, k: nat, n: nat, maxRetries: nat)
    requires Retrying(t, k, n) && n < maxRetries
    requires pause == [Slept] || (|pause| == 1 && pause[0].Denied? && pause[0].gate == ForPause)
    ensures if pause == [Slept] then Retrying(t + pause, k, n) && Rested(t + pause)
            else CallResult(Exhausted(pause[0].reason), t + pause, k, maxRetries)
  {
    hide GoodCalls, Saw, EndsRefused, Tries, TriedOut, EndsWith, SleptBetween;
    PausedConcat(t, pause);
    AllSawConcat(t, pause);
    EndsConcat(t, pause);
    TriesConcat(t, pause, k);
    if pause == [Slept] {
      SleptIsGood(k);
      GoodConcat(t, pause, k, n, 0);
    } else {
      RefusedAtOnce(k, pause[0]);
      assert pause == [pause[0]];
      GoodConcat(t, pause, k, n, 1);
      GoodMore(t + pause, k, n + 1, maxRetries);
    }
  }

  lemma AfterLast(end: CallEnd, t: Trace, k: nat, maxRetries: nat)
    requires Retrying(t, k, maxRetries)
    requires end.ProviderError? && end.status != 429 && end.fallback == (maxRetries > 0)
    ensures CallResult(end, t, k, maxRetries)
  {
    hide GoodCalls, Saw;
  }

  lemma GoodMore(t: Trace, k: nat, n: nat, m: nat)
    requires GoodCalls(t, k, n) && n <= m
    ensures GoodCalls(t, k, m)
  {
  }

  lemma SleptIsGood(k: nat)
    ensures Retrying([Slept], k, 0)
  {
    SleptCounts(k);
    hide Slots, Attempts, CallsTo, Tries;
    var t := [Slept];
    assert forall i :: 0 <= i < |t| ==> t[i] == Slept;
    assert GoodCalls(t, k, 0);
    hide GoodCalls;
  }

  lemma SleptCounts(k: nat)
    ensures Slots([Slept], 0) == 0 && Attempts([Slept]) == 0 && CallsTo([Slept], k) == 0 && Tries([Slept], k) == 0
  {
    Snoc([], Slept, k);
    assert [] + [Slept] == [Slept];
  }

  lemma UnusableConcat(a: Trace, b: Trace, k: nat, maxRetries: nat)
    ensures TriedOut(b, k, 0) && Tries(b, k) > 0 ==> TriedOut(a + b, k, maxRetries)
  {
    if i :| 0 <= i < |b| && b[i] == Called(k, Malformed) {
      assert (a + b)[|a| + i] == Called(k, Malformed);
    }
  }

  lemma EndsConcat(a: Trace, b: Trace)
    ensures forall e :: EndsWith(b, e) ==> EndsWith(a + b, e)
    ensures forall reason :: EndsRefused(b, reason) ==> EndsRefused(a + b, reason)
  {
  }

  // ---- `_complete` ----

  datatype Provider = Provider(name: string, local: bool)

  /** The configured providers, and whether the request allows a remote fallback. */
  datatype Policy = Policy(primary: Provider, fallback: Option<Provider>, consent: bool)

  /** `_eligible_providers`. */
  function Eligible(policy: Policy): seq<Provider> {
    if policy.fallback.Some? && (policy.fallback.value.local || policy.consent)
    then [policy.primary] + [policy.fallback.value]
    else [policy.primary]
  }

  /** The provider is the primary, or a fallback that is local or consented to. */
  predicate Permitted(policy: Policy, p: Provider) {
    p == policy.primary || (policy.fallback == Some(p) && (p.local || policy.consent))
  }

  /** Everything sent went to a permitted provider. */
  ghost predicate OnlyPermitted(t: Trace, policy: Policy) {
    forall i :: 0 <= i < |t| && Addressed(t[i]) ==>
      t[i].k < |Eligible(policy)| && Permitted(policy, Eligible(policy)[t[i].k])
  }

  lemma EligibleIsPermitted(t: Trace, policy: Policy)
    requires ProvidersBelow(t, |Eligible(policy)|)
    ensures OnlyPermitted(t, policy)
  {
  }

  datatype CompleteEnd =
    | Completed(text: string, k: nat)
    | BudgetEnd(reason: Reason)
    | Unavailable(rateLimited: bool)

  /** What one completion over `n` providers keeps. */
  ghost predicate GoodCompletion(t: Trace, n: nat, maxRetries: nat) {
    && Balanced(t)
    && ProvidersBelow(t, n)
    && InOrder(t)
    && StopsAtFinal(t)
    && ReservedForCalls(t)
    && Attempts(t) <= n * maxRetries
    && forall k :: 0 <= k < n ==> CallsTo(t, k) <= maxRetries
  }

  lemma NextProvider(a: Trace, b: Trace, k: nat, maxRetries: nat)
    requires GoodCompletion(a, k, maxRetries) && GoodCalls(b, k, maxRetries) && !SawFinal(a)
    ensures GoodCompletion(a + b, k + 1, maxRetries)
  {
    SlotsConcat(a, b, 0);
    AttemptsConcat(a, b);
    StopsConcat(a, b);
    ReservedConcat(a, b);
    assert k * maxRetries + maxRetries == (k + 1) * maxRetries;
    forall i | 0 <= i < k + 1 ensures CallsTo(a + b, i) <= maxRetries {
      CallsToConcat(a, b, i);
      if i < k {
        NoCallsElsewhere(b, k, i);
      } else {
        NoCallsBelow(a, k);
      }
    }
    hide SawFinal, StopsAtFinal, Slots, Attempts, CallsTo;
  }

  lemma {:induction false} NoCallsBelow(t: Trace, n: nat)
    requires ProvidersBelow(t, n)
    ensures CallsTo(t, n) == 0
  {
    if t != [] {
      NoCallsBelow(t[..|t| - 1], n);
    }
  }

  lemma {:induction false} MoreProviders(t: Trace, k: nat, n: nat, maxRetries: nat)
    requires GoodCompletion(t, k, maxRetries) && k <= n
    ensures GoodCompletion(t, n, maxRetries)
  {
    assert k * maxRetries <= n * maxRetries;
    forall i | 0 <= i < n ensures CallsTo(t, i) <= maxRetries {
      if i >= k {
        assert ProvidersBelow(t, i);
        NoCallsBelow(t, i);
      }
    }
    hide StopsAtFinal, Slots, Attempts, CallsTo;
  }

  /** How a completion ended, and what that says about its calls. */
  ghost predicate CompleteResult(end: CompleteEnd, t: Trace, n: nat, maxRetries: nat) {
    && GoodCompletion(t, n, maxRetries)
    && (end.Completed? ==>
          && end.k < n && !SawRateLimit(t) && EndsWith(t, Called(end.k, Text(end.text)))
          && AllTriedOut(t, end.k, maxRetries))
    && (end.Completed? <==> SawAnswer(t))
    && (end.Unavailable? ==>
          && (end.rateLimited <==> SawRateLimit(t))
          && (SawFinal(t) || AllTriedOut(t, n, maxRetries) || maxRetries == 0))
    && (if end.BudgetEnd? then EndsRefused(t, end.reason) && !SawRateLimit(t) else !SawRefusal(t))
    && Paused(t)
  }

  /** The first `k` providers have been tried out and the next may be used. */
  ghost predicate FallingBack(t: Trace, k: nat, maxRetries: nat) {
    && GoodCompletion(t, k, maxRetries) && AllTriedOut(t, k, maxRetries)
    && !SawRateLimit(t) && !SawFinal(t) && !SawRefusal(t) && !SawAnswer(t) && Paused(t)
  }

  /** `_complete`: the eligible providers in order, until one answers, the budget
      refuses or the outcome forbids the next. */
  method Complete(policy: Policy, maxRetries: nat, outside: Outside, from: nat) returns (end: CompleteEnd, t: Trace)
    ensures CompleteResult(end, t, |Eligible(policy)|, maxRetries)
    ensures Truthful(t, outside, from) && OnlyPermitted(t, policy)
  {
    var n := |Eligible(policy)|;
    t := [];
    assert FallingBack([], 0, maxRetries);
    hide *;
    for k := 0 to n
      invariant FallingBack(t, k, maxRetries) && Truthful(t, outside, from)
    {
      var over;
      over, t := TryProvider(k, n, maxRetries, outside, from, t);
      if over.Some? {
        ResultIsPermitted(over.value, t, policy, maxRetries);
        return over.value, t;
      }
    }
    end := Unavailable(false);
    NoneLeft(end, t, n, maxRetries);
    ResultIsPermitted(end, t, policy, maxRetries);
  }

  /** One turn of the provider loop. A provider after which another may be tried was
      not rate limited, so only the last one's status decides what is reported. */
  method TryProvider(k: nat, n: nat, maxRetries: nat, outside: Outside, from: nat, t0: Trace)
    returns (end: Option<CompleteEnd>, t: Trace)
    requires FallingBack(t0, k, maxRetries) && Truthful(t0, outside, from) && k < n
    ensures Truthful(t, outside, from)
    ensures if end.Some? then CompleteResult(end.value, t, n, maxRetries) else FallingBack(t, k + 1, maxRetries)
  {
    hide *;
    var e, step := CallProvider(k, maxRetries, outside, from + |t0|);
    AfterProvider(t0, step, e, k, n, maxRetries);
    TruthfulConcat(t0, step, outside, from);
    t := t0 + step;
    match e {
      case Answered(text) => end := Some(Completed(text, k));
      case Exhausted(reason) => end := Some(BudgetEnd(reason));
      case ProviderError(status, fallback) => end := if fallback then None else Some(Unavailable(status == 429));
      case Crashed => end := Some(Unavailable(false));
    }
  }

  lemma AfterProvider(t: Trace, step: Trace, e: CallEnd, k: nat, n: nat, maxRetries: nat)
    requires FallingBack(t, k, maxRetries) && CallResult(e, step, k, maxRetries) && k < n
    ensures match e
            case Answered(text) => CompleteResult(Completed(text, k), t + step, n, maxRetries)
            case Exhausted(reason) => CompleteResult(BudgetEnd(reason), t + step, n, maxRetries)
            case ProviderError(status, fallback) =>
              if fallback then FallingBack(t + step, k + 1, maxRetries) && status != 429
              else CompleteResult(Unavailable(status == 429), t + step, n, maxRetries)
            case Crashed => CompleteResult(Unavailable(false), t + step, n, maxRetries)
  {
    hide Paused, GoodCalls, GoodCompletion, Saw, EndsRefused, EndsWith, AllTriedOut, TriedOut, OnlyProvider,
         ProvidersBelow;
    Separate(t, step, k, maxRetries);
    StillTriedOut(t, step, k, maxRetries);
    if TriedOut(step, k, maxRetries) {
      NextTriedOut(t, step, k, maxRetries);
    }
    NextProvider(t, step, k, maxRetries);
    MoreProviders(t + step, k + 1, n, maxRetries);
    AllSawConcat(t, step);
    EndsConcat(t, step);
  }

  /** The calls to one provider are apart from those to the ones before. */
  lemma Separate(t: Trace, step: Trace, k: nat, maxRetries: nat)
    requires GoodCompletion(t, k, maxRetries) && GoodCalls(step, k, maxRetries) && Paused(t) && Paused(step)
    ensures OnlyProvider(step, k) && ProvidersBelow(t, k) && Paused(t + step)
  {
    hide Paused, Balanced, Attempts, CallsTo, StopsAtFinal, InOrder;
    PausedConcat(t, step);
  }

  lemma NoneLeft(end: CompleteEnd, t: Trace, n: nat, maxRetries: nat)
    requires FallingBack(t, n, maxRetries) && end == Unavailable(false)
    ensures CompleteResult(end, t, n, maxRetries)
  {
    hide GoodCompletion, Saw, AllTriedOut;
  }

  lemma ResultIsPermitted(end: CompleteEnd, t: Trace, policy: Policy, maxRetries: nat)
    requires CompleteResult(end, t, |Eligible(policy)|, maxRetries)
    ensures OnlyPermitted(t, policy)
  {
    EligibleIsPermitted(t, policy);
  }

  // ---- what this says of the events themselves ----

  /** Every slot taken is given back before another is taken, but for one still held. */
  lemma {:induction false} SlotsAreGivenBack(t: Trace)
    requires 0 <= Slots(t, 0) <= 1
    ensures forall i :: 0 <= i < |t| && t[i] == Acquired ==> GivenBack(t, i) || (Slots(t, 0) == 1 && StillHeld(t, i))
    ensures Slots(t, 0) == 1 ==> exists i :: 0 <= i < |t| && t[i] == Acquired && StillHeld(t, i)
  {
    if t != [] {
      var init, e := t[..|t| - 1], t[|t| - 1];
      var n := |init|;
      assert t == init + [e];
      SlotsAreGivenBack(init);
      forall i | 0 <= i < |t| && t[i] == Acquired ensures GivenBack(t, i) || (Slots(t, 0) == 1 && StillHeld(t, i)) {
        if i < n { SlotLater(init, e, i); }
      }
      if Slots(t, 0) == 1 {
        if e == Acquired {
          assert StillHeld(t, n);
        } else {
          var i :| 0 <= i < n && init[i] == Acquired && StillHeld(init, i);
          assert t[i] == Acquired && StillHeld(t, i);
        }
      }
    }
  }

  lemma SlotLater(init: Trace, e: Event, i: nat)
    requires i < |init|
    ensures GivenBack(init, i) ==> GivenBack(init + [e], i)
    ensures StillHeld(init, i) && e == Released ==> GivenBack(init + [e], i)
    ensures StillHeld(init, i) && e != Released && e != Acquired ==> StillHeld(init + [e], i)
  {
    var t, n := init + [e], |init|;
    if GivenBack(init, i) {
      var j :| i < j < n && init[j] == Released && forall m :: i < m < j ==> init[m] != Acquired;
      assert t[j] == Released && forall m :: i < m < j ==> t[m] == init[m];
    } else if StillHeld(init, i) && e == Released {
      assert t[n] == Released && forall m :: i < m < n ==> t[m] == init[m];
    }
  }

  /** Reservations and calls happen while a slot is held, pauses while none is. */
  lemma {:induction false} BalancedMeans(t: Trace)
    requires 0 <= Slots(t, 0) <= 1
    ensures forall i :: 0 <= i < |t| && (t[i].Reserved? || t[i].Called?) ==> Holding(t, i)
    ensures forall i :: 0 <= i < |t| && t[i] == Slept ==> !Holding(t, i)
  {
    if t != [] {
      var init, e := t[..|t| - 1], t[|t| - 1];
      var n := |init|;
      assert t == init + [e];
      BalancedMeans(init);
      SlotsAreGivenBack(init);
      HoldingLater(init, e);
      HoldingNow(init, e);
      hide GivenBack, StillHeld, Holding;
    }
  }

  /** No slot leaks: each one taken is given back before the next is taken, attempts
      are reserved and providers called between the two, and pauses come outside. */
  lemma NoSlotLeaks(t: Trace)
    requires Balanced(t)
    ensures forall i :: 0 <= i < |t| && t[i] == Acquired ==>
              exists j :: i < j < |t| && t[j] == Released && forall m :: i < m < j ==> t[m] != Acquired
    ensures forall i :: 0 <= i < |t| && (t[i].Reserved? || t[i].Called?) ==>
              exists h :: 0 <= h < i && t[h] == Acquired && forall m :: h < m < i ==> t[m] != Released
    ensures forall i, h :: 0 <= h < i < |t| && t[i] == Slept && t[h] == Acquired ==>
              exists m :: h < m < i && t[m] == Released
  {
    SlotsAreGivenBack(t);
    BalancedMeans(t);
    hide Slots;
    forall i | 0 <= i < |t| && t[i] == Acquired
      ensures exists j :: i < j < |t| && t[j] == Released && forall m :: i < m < j ==> t[m] != Acquired
    {
      assert GivenBack(t, i);
    }
    forall i | 0 <= i < |t| && (t[i].Reserved? || t[i].Called?)
      ensures exists h :: 0 <= h < i && t[h] == Acquired && forall m :: h < m < i ==> t[m] != Released
    {
      assert Holding(t, i);
    }
    forall i, h | 0 <= h < i < |t| && t[i] == Slept && t[h] == Acquired
      ensures exists m :: h < m < i && t[m] == Released
    {
      assert !Holding(t, i);
    }
  }

  lemma HoldingNow(t: Trace, e: Event)
    ensures Holding(t + [e], |t|) <==> exists i :: 0 <= i < |t| && t[i] == Acquired && NotReleased(t, i)
    ensures forall i :: 0 <= i < |t| && StillHeld(t, i) ==> NotReleased(t, i)
    ensures forall i :: 0 <= i < |t| && GivenBack(t, i) ==> !NotReleased(t, i)
  {
    var more, n := t + [e], |t|;
    if Holding(more, n) {
      var i :| 0 <= i < n && more[i] == Acquired && forall m :: i < m < n ==> more[m] != Released;
      assert t[i] == Acquired && forall m :: i < m < n ==> t[m] == more[m];
    }
    if i :| 0 <= i < n && t[i] == Acquired && NotReleased(t, i) {
      assert more[i] == Acquired && forall m :: i < m < n ==> more[m] == t[m];
    }
  }

  predicate NotReleased(t: Trace, i: nat) {
    forall m :: i < m < |t| ==> t[m] != Released
  }

  lemma HoldingLater(t: Trace, e: Event)
    ensures forall i :: 0 <= i < |t| ==> (Holding(t + [e], i) <==> Holding(t, i))
  {
    forall i | 0 <= i < |t| ensures Holding(t + [e], i) <==> Holding(t, i) {
      assert forall m :: 0 <= m < i ==> (t + [e])[m] == t[m];
    }
  }

  /** The slot taken at `i` is the next one given back. */
  ghost predicate GivenBack(t: Trace, i: nat) {
    exists j :: i < j < |t| && t[j] == Released && forall m :: i < m < j ==> t[m] != Acquired
  }

  ghost predicate StillHeld(t: Trace, i: nat) {
    forall m :: i < m < |t| ==> t[m] != Released && t[m] != Acquired
  }

  /** A slot was taken before `n` and not given back since. */
  ghost predicate Holding(t: Trace, n: nat) {
    exists i :: 0 <= i < n <= |t| && t[i] == Acquired && forall m :: i < m < n ==> t[m] != Released
  }

  /** The counters of a trace are numbers of its positions. */
  lemma {:induction false} AttemptsMeans(t: Trace)
    ensures Attempts(t) == |set i | 0 <= i < |t| && t[i].Reserved?|
  {
    if t != [] {
      var init, n := t[..|t| - 1], |t| - 1;
      AttemptsMeans(init);
      OneMore((set i | 0 <= i < n && init[i].Reserved?), (set i | 0 <= i < |t| && t[i].Reserved?),
              n, t[n].Reserved?);
    }
  }

  lemma {:induction false} TriesMeans(t: Trace, k: nat)
    ensures Tries(t, k) == |set i | 0 <= i < |t| && t[i] == Reserved(k)|
  {
    if t != [] {
      var init, n := t[..|t| - 1], |t| - 1;
      TriesMeans(init, k);
      OneMore((set i | 0 <= i < n && init[i] == Reserved(k)), (set i | 0 <= i < |t| && t[i] == Reserved(k)),
              n, t[n] == Reserved(k));
    }
  }

  lemma {:induction false} CallsToMeans(t: Trace, k: nat)
    ensures CallsTo(t, k) == |set i | 0 <= i < |t| && t[i].Called? && t[i].k == k|
  {
    if t != [] {
      var init, n := t[..|t| - 1], |t| - 1;
      CallsToMeans(init, k);
      OneMore((set i | 0 <= i < n && init[i].Called? && init[i].k == k),
              (set i | 0 <= i < |t| && t[i].Called? && t[i].k == k), n, t[n].Called? && t[n].k == k);
    }
  }

  /** What a completion returns, told by the events alone: it has an answer exactly
      when one came back, a budget's refusal exactly when one happened, and it reports
      a rate limit exactly when it met one. */
  lemma CompleteMeans(end: CompleteEnd, t: Trace, n: nat, maxRetries: nat)
    requires CompleteResult(end, t, n, maxRetries)
    ensures end.Completed? <==> exists i :: 0 <= i < |t| && t[i].Called? && t[i].reply.Text?
    ensures end.Completed? ==> |t| >= 2 && t[|t| - 2] == Called(end.k, Text(end.text))
    ensures end.BudgetEnd? <==>
            exists i :: 0 <= i < |t| && (t[i].Denied? || (t[i].Called? && t[i].reply.BudgetHit?))
    ensures end.Unavailable? ==>
              (end.rateLimited <==>
               exists i :: 0 <= i < |t| && t[i].Called? && t[i].reply.Http? && t[i].reply.status == 429)
  {
    hide GoodCompletion, AllTriedOut, Paused;
    assert forall i :: 0 <= i < |t| ==> (IsAnswer(t[i]) <==> t[i].Called? && t[i].reply.Text?);
    assert forall i :: 0 <= i < |t| ==>
        (RateLimited(t[i]) <==> t[i].Called? && t[i].reply.Http? && t[i].reply.status == 429);
    assert forall i :: 0 <= i < |t| ==>
        (Refusal(t[i]) <==> t[i].Denied? || (t[i].Called? && t[i].reply.BudgetHit?));
    if end.BudgetEnd? {
      assert Refusal(t[|t| - 1]) || Refusal(t[|t| - 2]);
    }
  }

  /** Work goes on only after an HTTP 408, 500, 502, 503 or 504, a lost connection, a
      missing address or an unusable answer, and only with the primary provider or a
      fallback that is local or consented to. */
  lemma GoesOnOnlyAfter(end: CompleteEnd, t: Trace, policy: Policy, maxRetries: nat)
    requires CompleteResult(end, t, |Eligible(policy)|, maxRetries)
    ensures forall i, j :: 0 <= i < j < |t| && t[j] != Released ==>
              && !t[i].Denied?
              && (t[i].Unresolved? ==> !t[i].fatal)
              && (t[i].Called? ==>
                    || t[i].reply == Malformed
                    || (t[i].reply.Http? && t[i].reply.status == 408)
                    || (t[i].reply.Http? && t[i].reply.status == 500)
                    || (t[i].reply.Http? && 502 <= t[i].reply.status <= 504)
                    || t[i].reply == Http(0, true))
    ensures forall i :: 0 <= i < |t| && (t[i].Called? || t[i].Reserved? || t[i].Unresolved?) ==>
              t[i].k == 0
              || (t[i].k == 1 && policy.fallback.Some? && (policy.fallback.value.local || policy.consent))
  {
    hide Balanced, Attempts, CallsTo, InOrder, Paused;
  }

  /** Every call was reserved just before, and every reservation was used at once. */
  lemma CallsAreReserved(end: CompleteEnd, t: Trace, n: nat, maxRetries: nat, i: nat)
    requires CompleteResult(end, t, n, maxRetries) && i < |t|
    ensures t[i].Called? ==> i > 0 && t[i - 1] == Reserved(t[i].k)
    ensures t[i].Reserved? ==>
              && i + 1 < |t|
              && (|| (t[i + 1].Called? && t[i + 1].k == t[i].k)
                  || (t[i + 1].Unresolved? && t[i + 1].k == t[i].k)
                  || t[i + 1].Denied?)
  {
    hide Balanced, Attempts, CallsTo, InOrder, Paused, StopsAtFinal;
  }

  /** A completion asks no provider more than `maxRetries` times, the same one again
      only after a pause, and none before another it went on to. */
  lemma AsksInTurn(end: CompleteEnd, t: Trace, n: nat, maxRetries: nat, k: nat)
    requires CompleteResult(end, t, n, maxRetries) && k < n
    ensures |set i | 0 <= i < |t| && t[i].Called? && t[i].k == k| <= maxRetries
    ensures |set i | 0 <= i < |t| && t[i].Reserved?| <= n * maxRetries
    ensures forall i, j :: 0 <= i < j < |t| && t[i] == Reserved(k) && t[j] == Reserved(k) ==>
              exists m :: i < m < j && t[m] == Slept
    ensures forall i, j :: 0 <= i < j < |t| && t[i].Called? && t[j].Called? ==> t[i].k <= t[j].k
  {
    CallsToMeans(t, k);
    AttemptsMeans(t);
    hide Balanced, StopsAtFinal, ReservedForCalls, Attempts, CallsTo, SleptBetween;
    forall i, j | 0 <= i < j < |t| && t[i] == Reserved(k) && t[j] == Reserved(k)
      ensures exists m :: i < m < j && t[m] == Slept
    {
      assert SleptBetween(t, i, j);
      SleptMeans(t, i, j);
    }
  }

  lemma SleptMeans(t: Trace, i: nat, j: nat)
    requires i < j < |t| && SleptBetween(t, i, j)
    ensures exists m :: i < m < j && t[m] == Slept
  {
  }

  /** The first provider of a list is the primary one, the second the fallback. */
  lemma EligibleMeans(policy: Policy)
    ensures Eligible(policy)[0] == policy.primary
    ensures |Eligible(policy)| ==
            if policy.fallback.Some? && (policy.fallback.value.local || policy.consent) then 2 else 1
    ensures |Eligible(policy)| == 2 ==> policy.fallback == Some(Eligible(policy)[1])
  {
  }

  /** No provider is passed over: the ones before the answering one, and all that may
      be used when nothing final happened, were asked `maxRetries` times or answered
      with something unusable. */
  lemma NobodyPassedOver(end: CompleteEnd, t: Trace, policy: Policy, maxRetries: nat, k: nat)
    requires CompleteResult(end, t, |Eligible(policy)|, maxRetries) && maxRetries > 0
    requires k == 0 || (k == 1 && policy.fallback.Some? && (policy.fallback.value.local || policy.consent))
    requires
      || (end.Completed? && k < end.k)
      || (&& end.Unavailable?
          && forall i :: 0 <= i < |t| ==>
               && (t[i].Unresolved? ==> !t[i].fatal)
               && (t[i].Called? ==>
                     || t[i].reply == Malformed
                     || t[i].reply == Http(0, true)
                     || (t[i].reply.Http? && t[i].reply.status in {408, 500, 502, 503, 504})))
    ensures
      || |set i | 0 <= i < |t| && t[i] == Reserved(k)| == maxRetries
      || (exists i :: 0 <= i < |t| && t[i] == Called(k, Malformed))
  {
    hide GoodCompletion, Paused, Tries;
    TriesMeans(t, k);
    assert end.Unavailable? ==> !SawRefusal(t);
    if end.Unavailable? {
      forall i | 0 <= i < |t| ensures !Final(t[i]) {
        assert !Refusal(t[i]);
      }
    }
    assert TriedOut(t, k, maxRetries);
  }
}
