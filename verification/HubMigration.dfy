/** Moving several single-reader deployments into one hub and back: `migrate` and
    `rollback` over a journal, the hub state, the install attempt and the container
    runtime. Every write and every container call is one step that may take effect
    or not, after which the process may see an error or stop for good. */
module HubMigration {
  import opened Options
  import opened Faults

  /** The two containers of one source deployment: whether each is running. */
  datatype Source = Source(api: bool, proxy: bool)

  datatype JournalStatus = Prepared | Copying | FailedMigration | Committed | RolledBackJournal

  /** `initial` holds the statuses found before anything was stopped; `copied`
      the readers whose data copy is on record. */
  datatype Journal = Journal(status: JournalStatus, plan: nat, initial: seq<Source>, copied: set<nat>)

  datatype HubStatus = Active | Uninstalling | Uninstalled | RolledBack

  datatype HubState = HubState(status: HubStatus, installId: nat, plan: nat)

  datatype AttemptStatus = AttemptPrepared | Starting | Cleaned | CleanupFailed

  datatype Attempt = Attempt(status: AttemptStatus, installId: nat, plan: nat)

  datatype Hub = Hub(running: bool)

  datatype World = World(hub: Option<Hub>, state: Option<HubState>, attempt: Option<Attempt>,
                         journal: Option<Journal>, sources: seq<Source>, nextId: nat)

  // ---- what holds at every step of every run ----

  predicate Stopped(sources: seq<Source>) {
    forall i :: 0 <= i < |sources| ==> sources[i] == Source(false, false)
  }

  /** Nothing runs that did not run before the migration. */
  predicate Within(sources: seq<Source>, initial: seq<Source>) {
    && |sources| == |initial|
    && forall i :: 0 <= i < |sources| ==>
         (sources[i].api ==> initial[i].api) && (sources[i].proxy ==> initial[i].proxy)
  }

  predicate AllCopied(copied: set<nat>, n: nat) {
    forall i: nat :: i < n ==> i in copied
  }

  /** A hub container, even one that is not running, means every source is
      stopped and every reader's copy is on record. */
  predicate HubOk(w: World) {
    w.hub.Some? ==>
      && Stopped(w.sources)
      && w.journal.Some?
      && AllCopied(w.journal.value.copied, |w.sources|)
  }

  /** A finished journal tells the truth about the hub. */
  predicate JournalOk(w: World) {
    w.journal.Some? ==>
      && Within(w.sources, w.journal.value.initial)
      && (w.journal.value.status == RolledBackJournal ==> w.hub == None)
      && (w.journal.value.status == Committed ==>
            && w.state.Some?
            && (w.state.value.status == Uninstalled || w.state.value.status == RolledBack ==> w.hub == None))
  }

  predicate Inv(w: World) {
    HubOk(w) && JournalOk(w)
  }

  // ---- sources ----

  /** Only source containers differ. */
  predicate SameBut(w: World, v: World) {
    v == w.(sources := v.sources) && |v.sources| == |w.sources|
  }

  /** The stop loop of `migrate`: proxy first, then the API. */
  method StopSources(w0: World, calm: bool) returns (w: World, f: Fault)
    requires Inv(w0) && w0.journal.Some?
    ensures Inv(w) && SameBut(w0, w)
    ensures f == Ok ==> Stopped(w.sources)
    ensures calm ==> f == Ok
  {
    w, f := w0, Ok;
    for r := 0 to |w0.sources|
      invariant Inv(w) && SameBut(w0, w)
      invariant forall i :: 0 <= i < r ==> w.sources[i] == Source(false, false)
      invariant f == Ok
    {
      if w.sources[r].proxy {
        w, f := StepSource(w, r, w.sources[r].(proxy := false), calm);
        if f != Ok { return; }
      }
      if w.sources[r].api {
        w, f := StepSource(w, r, w.sources[r].(api := false), calm);
        if f != Ok { return; }
      }
    }
  }

  /** One container call on one source. */
  method StepSource(w0: World, r: nat, s: Source, calm: bool) returns (w: World, f: Fault)
    requires r < |w0.sources| && Inv(w0) && w0.journal.Some?
    requires w0.hub.Some? ==> s == Source(false, false)
    requires r < |w0.journal.value.initial|
             && (s.api ==> w0.journal.value.initial[r].api) && (s.proxy ==> w0.journal.value.initial[r].proxy)
    ensures Inv(w) && SameBut(w0, w)
    ensures forall i :: 0 <= i < |w.sources| && i != r ==> w.sources[i] == w0.sources[i]
    ensures w.sources[r] == w0.sources[r] || w.sources[r] == s
    ensures f == Ok ==> w.sources[r] == s
    ensures calm ==> f == Ok
  {
    w, f := Step(w0, w0.(sources := w0.sources[r := s]), calm);
  }

  /** `_restart_sources`: only what ran before is started; the API first. */
  method RestartSources(w0: World, calm: bool) returns (w: World, f: Fault)
    requires Inv(w0) && w0.journal.Some? && w0.hub == None
    ensures Inv(w) && SameBut(w0, w)
    ensures f == Ok ==> w.sources == w0.journal.value.initial
    ensures calm ==> f == Ok
  {
    var initial := w0.journal.value.initial;
    w, f := w0, Ok;
    for r := 0 to |initial|
      invariant Inv(w) && SameBut(w0, w)
      invariant forall i :: 0 <= i < r ==> w.sources[i] == initial[i]
      invariant f == Ok
    {
      f := Check(calm);
      if f != Ok { return; }
      if initial[r].api && !w.sources[r].api {
        w, f := StepSource(w, r, w.sources[r].(api := true), calm);
        if f != Ok { return; }
      }
      if initial[r].proxy && !w.sources[r].proxy {
        w, f := StepSource(w, r, w.sources[r].(proxy := true), calm);
        if f != Ok { return; }
      }
    }
    assert w.sources == initial;
    f := Check(calm);
  }

  // ---- `HubInstaller.install`, called with the operation lock held ----

  predicate MayInstall(w: World, plan: nat) {
    && (w.attempt.Some? ==> w.attempt.value.status == Cleaned && w.attempt.value.plan == plan)
    && w.hub == None
    && (w.state.Some? ==> w.state.value.status == Uninstalled || w.state.value.status == RolledBack)
  }

  /** Ready for a hub: everything copied, nothing running. */
  predicate Ready(w: World) {
    && Inv(w) && Stopped(w.sources)
    && w.journal.Some? && w.journal.value.status == Copying
    && AllCopied(w.journal.value.copied, |w.sources|)
  }

  /** What an install may change. */
  predicate HubOnly(w: World, v: World) {
    v == w.(hub := v.hub, state := v.state, attempt := v.attempt, nextId := v.nextId)
  }

  method StartHub(w0: World, compose: bool, calm: bool) returns (w: World, f: Fault)
    requires Ready(w0) && w0.hub == None
    ensures Ready(w) && w == w0.(hub := w.hub)
    ensures f == Ok ==> w.hub == Some(Hub(true))
    ensures calm ==> f == Ok
  {
    w, f := Step(w0, w0.(hub := Some(Hub(false))), calm);
    if f != Ok { return; }
    if !compose {
      f := Check(calm);
      if f != Ok { return; }
    }
    w, f := Step(w, w.(hub := Some(Hub(true))), calm);
    if f != Ok { return; }
    f := Check(calm);
  }

  /** `compose_down`, or a forced removal of what inspection shows. */
  method TakeDown(w0: World, calm: bool) returns (w: World, f: Fault)
    ensures w == w0.(hub := w.hub) && (w.hub.Some? ==> w0.hub.Some?)
    ensures f == Ok ==> w.hub == None
    ensures calm ==> f == Ok
  {
    w := w0;
    f := Check(calm);
    if f != Ok || w.hub == None { return; }
    w, f := Step(w, w.(hub := Some(Hub(false))), calm);
    if f != Ok { return; }
    w, f := Step(w, w.(hub := None), calm);
  }

  /** The cleanup branch of `install` (btctl_hub.py 928-971); it always ends in an
      error, and the attempt says whether the hub is known to be gone. */
  method CleanUpInstall(w0: World, attempt: Attempt, started: bool, calm: bool) returns (w: World, f: Fault)
    requires !started ==> w0.hub == None
    ensures HubOnly(w0, w) && w.state == w0.state && w.nextId == w0.nextId
    ensures w.hub.Some? ==> w0.hub.Some?
    ensures f != Ok
    ensures w.attempt == Some(attempt.(status := Cleaned)) && w.attempt != w0.attempt ==> w.hub == None
    ensures calm ==> w.hub == None && w.attempt == Some(attempt.(status := Cleaned))
  {
    w, f := w0, Ok;
    if started {
      w, f := TakeDown(w, calm);
      if f == Ok { f := Check(calm); }
      if f == Crash { return; }
    }
    if f == Error {
      w, f := Step(w, w.(attempt := Some(attempt.(status := CleanupFailed))), calm);
      return w, if f == Crash then Crash else Error;
    }
    w, f := Step(w, w.(attempt := Some(attempt.(status := Cleaned))), calm);
    if f == Error {
      w, f := Step(w, w.(attempt := Some(attempt.(status := CleanupFailed))), calm);
    }
    f := if f == Crash then Crash else Error;
  }

  method Install(w0: World, plan: nat, compose: bool, calm: bool) returns (w: World, f: Fault)
    requires Ready(w0)
    ensures Ready(w) && HubOnly(w0, w)
    ensures f == Ok ==>
              w.hub == Some(Hub(true)) && w.state == Some(HubState(Active, w0.nextId, plan)) && w.attempt == None
    ensures !MayInstall(w0, plan) ==> f != Ok && w == w0
    ensures calm ==> f == (if MayInstall(w0, plan) then Ok else Error)
  {
    w := w0;
    f := Check(calm);
    if f != Ok { return; }
    if !MayInstall(w, plan) { return w, Error; }
    var id := w.nextId;
    var attempt := Attempt(AttemptPrepared, id, plan);
    w := w.(nextId := id + 1);
    w, f := Step(w, w.(attempt := Some(attempt)), calm);
    if f != Ok { return; }
    var started := false;
    attempt := attempt.(status := Starting);
    w, f := Step(w, w.(attempt := Some(attempt)), calm);
    if f == Ok { f := Check(calm); }
    if f == Ok {
      started := true;
      w, f := StartHub(w, compose, calm);
    }
    if f == Ok {
      w, f := Step(w, w.(state := Some(HubState(Active, id, plan))), calm);
    }
    if f == Crash { return; }
    if f == Ok {
      w, f := Step(w, w.(attempt := None), calm);
      return;
    }
    w, f := CleanUpInstall(w, attempt, started, calm);
  }

  // ---- `HubUninstaller.uninstall` ----

  predicate AttemptMatches(w: World) {
    w.attempt.Some? ==>
      w.state.Some? && w.attempt.value == Attempt(Starting, w.state.value.installId, w.state.value.plan)
  }

  predicate MayUninstall(w: World, plan: nat) {
    && w.state.Some? && w.state.value.status != RolledBack && w.state.value.plan == plan
    && AttemptMatches(w)
    && (w.state.value.status == Active && w.hub.Some? ==> w.hub.value.running)
  }

  /** The stored state after a step of an uninstall. */
  predicate StateMoves(w: World, v: World) {
    v.state.Some? == w.state.Some? &&
    (w.state.Some? ==> v.state == Some(w.state.value.(status := v.state.value.status)))
  }

  method Uninstall(w0: World, plan: nat, calm: bool) returns (w: World, f: Fault)
    requires Inv(w0) && w0.journal.Some?
    requires w0.state.Some? && w0.state.value.status == Uninstalled ==> w0.hub == None
    ensures Inv(w) && HubOnly(w0, w) && StateMoves(w0, w)
    ensures f == Ok ==>
              && w.hub == None && w.attempt == None
              && w0.state.Some? && w.state == Some(w0.state.value.(status := Uninstalled))
    ensures !MayUninstall(w0, plan) ==> f != Ok && w == w0
    ensures calm && MayUninstall(w0, plan) ==> f == Ok
  {
    w := w0;
    f := Check(calm);
    if f != Ok { return; }
    if !MayUninstall(w, plan) { return w, Error; }
    if w.state.value.status != Uninstalled {
      if w.state.value.status == Active {
        w, f := Step(w, w.(state := Some(w.state.value.(status := Uninstalling))), calm);
        if f != Ok { return; }
      }
      w, f := TakeDown(w, calm);
      if f != Ok { return; }
      f := Check(calm);
      if f != Ok { return; }
      w, f := Step(w, w.(state := Some(w.state.value.(status := Uninstalled))), calm);
      if f != Ok { return; }
    }
    if w.attempt.Some? {
      w, f := Step(w, w.(attempt := None), calm);
    }
  }

  // ---- `migrate` ----

  datatype Outcome =
    | Migrated
    | Refused
    | SourcesRestarted
    | CleanupIncomplete
    | CommitPending
    | Failed
    | Died

  predicate Open(j: Journal) {
    j.status == Prepared || j.status == Copying || j.status == FailedMigration
  }

  /** Copy every reader's data, putting each copy on record (btctl_hub.py
      1566-1577). The record in memory may be ahead of the one on disk. */
  method CopyAll(w0: World, calm: bool) returns (w: World, f: Fault, copied: set<nat>)
    requires Inv(w0) && Stopped(w0.sources)
    requires w0.journal.Some? && w0.journal.value.status == Copying
    ensures Inv(w) && w == w0.(journal := w.journal)
    ensures w.journal.Some? && w.journal.value == w0.journal.value.(copied := w.journal.value.copied)
    ensures w0.journal.value.copied <= w.journal.value.copied <= copied
    ensures f == Ok ==> Ready(w)
    ensures f == Ok ==> copied == w.journal.value.copied
    ensures calm ==> f == Ok
  {
    w, f, copied := w0, Ok, w0.journal.value.copied;
    for r := 0 to |w0.sources|
      invariant Inv(w) && w == w0.(journal := w.journal)
      invariant w.journal.Some? && w.journal.value == w0.journal.value.(copied := copied)
      invariant w0.journal.value.copied <= copied
      invariant forall i: nat :: i < r ==> i in copied
      invariant f == Ok
    {
      f := Check(calm);
      if f != Ok { return; }
      if r !in copied {
        copied := copied + {r};
        w, f := Step(w, w.(journal := Some(w.journal.value.(copied := copied))), calm);
        if f != Ok { return; }
      }
    }
  }

  /** The exception handler of `migrate` (btctl_hub.py 1588-1624). */
  method HandleFailure(w0: World, plan: nat, installed: bool, copied: set<nat>, calm: bool)
    returns (w: World, r: Outcome)
    requires Inv(w0) && w0.journal.Some? && w0.journal.value.status == Copying
    requires w0.journal.value.copied <= copied
    requires installed ==> w0.state.Some? && w0.state.value.status == Active
    ensures Inv(w) && w.journal.Some? && w.journal.value.initial == w0.journal.value.initial
    ensures r == SourcesRestarted ==> w.hub == None && w.sources == w.journal.value.initial
    ensures r == CleanupIncomplete || w.hub.Some? ==> w.sources == w0.sources
    ensures w.journal.value.status == Copying || w.journal.value.status == FailedMigration
    ensures r == SourcesRestarted || r == CleanupIncomplete || r == Failed || r == Died
    ensures calm && !installed ==> r == (if w0.hub == None then SourcesRestarted else CleanupIncomplete)
  {
    w := w0;
    var f;
    if installed {
      w, f := Uninstall(w, plan, calm);
    } else {
      f := Check(calm);
    }
    if f == Crash { return w, Died; }
    var cleanupFailed := f == Error || w.hub.Some?;
    w, f := Step(w, w.(journal := Some(w.journal.value.(status := FailedMigration, copied := copied))), calm);
    if f == Crash { return w, Died; }
    if cleanupFailed { return w, CleanupIncomplete; }
    w, f := RestartSources(w, calm);
    r := if f == Crash then Died else if f == Ok then SourcesRestarted else Failed;
  }

  /** From an open journal on disk whose hub is not already active. */
  method MoveToHub(w0: World, plan: nat, compose: bool, calm: bool) returns (w: World, r: Outcome)
    requires Inv(w0) && w0.journal.Some? && Open(w0.journal.value)
    ensures Inv(w) && w.journal.Some? && w.journal.value.initial == w0.journal.value.initial
    ensures r == Migrated || r == CommitPending ==>
              w.hub == Some(Hub(true)) && Stopped(w.sources) && ActiveFor(w, plan)
    ensures r == Migrated ==> w.journal.value.status == Committed && w.attempt == None
    ensures r == SourcesRestarted ==> w.hub == None && w.sources == w.journal.value.initial
    ensures r != Refused || w == w0
    ensures calm ==> (r == Migrated <==> w0.hub == None && MayInstall(w0, plan))
    ensures calm && w0.hub == None && r != Migrated ==> r == SourcesRestarted
  {
    hide Within, AllCopied, Stopped;
    var f := Check(calm);
    if f != Ok { return w0, if f == Crash then Died else Refused; }
    w, f := Step(w0, w0.(journal := Some(w0.journal.value.(status := Copying))), calm);
    if f != Ok { return w, if f == Crash then Died else Failed; }
    var installed := false;
    var copied := w.journal.value.copied;
    w, f := StopSources(w, calm);
    if f == Ok {
      w, f, copied := CopyAll(w, calm);
    }
    if f == Ok {
      w, f := Install(w, plan, compose, calm);
      if f == Ok {
        installed := true;
        f := Check(calm);
      }
    }
    if f == Crash { return w, Died; }
    if f == Error {
      w, r := HandleFailure(w, plan, installed, copied, calm);
      return;
    }
    w, f := Step(w, w.(journal := Some(w.journal.value.(status := Committed))), calm);
    r := if f == Ok then Migrated else if f == Crash then Died else CommitPending;
  }

  predicate ActiveFor(w: World, plan: nat) {
    w.state.Some? && w.state.value.status == Active && w.state.value.plan == plan
  }

  /** The journal as it was, or a new one over the statuses just found. */
  function JournalFor(w: World, plan: nat): Journal {
    if w.journal.Some? then w.journal.value else Journal(Prepared, plan, w.sources, {})
  }

  /** A calm call goes through exactly for a fresh journal, or an unfinished one of
      the same plan, when the hub of the plan is already running, or there is no hub
      and nothing is left of an earlier one but what was cleaned up. */
  method Migrate(w0: World, plan: nat, compose: bool, calm: bool) returns (w: World, r: Outcome)
    requires Inv(w0)
    ensures Inv(w)
    ensures w.journal == None ==> w == w0
    ensures w.journal.Some? ==>
              w.journal.value.initial == (if w0.journal.Some? then w0.journal.value.initial else w0.sources)
    ensures r == Migrated || r == CommitPending ==>
              && w.hub == Some(Hub(true)) && w.journal.Some?
              && w.state.Some? && w.state.value.status == Active && w.state.value.plan == plan
              && (forall i :: 0 <= i < |w.sources| ==> !w.sources[i].api && !w.sources[i].proxy)
              && (forall i: nat :: i < |w.sources| ==> i in w.journal.value.copied)
    ensures r == Migrated ==> w.journal.value.status == Committed
    ensures r == Migrated && !(w0.state.Some? && w0.state.value.status == Active && w0.state.value.plan == plan) ==>
              w.attempt == None
    ensures r == SourcesRestarted ==>
              w.hub == None && w.sources == (if w0.journal.Some? then w0.journal.value.initial else w0.sources)
    ensures w0.journal.Some?
            && (w0.journal.value.status == Committed || w0.journal.value.status == RolledBackJournal) ==>
              w == w0 && (r == Refused || (r == Died && !calm))
    ensures calm ==>
              (r == Migrated <==>
               && (w0.journal.Some? ==>
                     && w0.journal.value.plan == plan
                     && (|| w0.journal.value.status == Prepared
                         || w0.journal.value.status == Copying
                         || w0.journal.value.status == FailedMigration))
               && (if w0.state.Some? && w0.state.value.status == Active && w0.state.value.plan == plan then
                     w0.hub == Some(Hub(true))
                   else
                     && w0.hub == None
                     && (w0.state.None? || w0.state.value.status == Uninstalled || w0.state.value.status == RolledBack)
                     && (w0.attempt.None? || (w0.attempt.value.status == Cleaned && w0.attempt.value.plan == plan))))
    ensures calm && w0.hub == None && r != Migrated ==>
              || w.sources == w0.sources
              || (w0.journal.Some? && w.sources == w0.journal.value.initial)
  {
    hide Within, AllCopied, Stopped;
    var f := Check(calm);
    if f != Ok { return w0, if f == Crash then Died else Refused; }
    w := w0;
    if w.journal.Some? {
      if !Open(w.journal.value) { return w, Refused; }
    } else {
      w, f := Prepare(w, plan, calm);
      if f != Ok { return w, if f == Crash then Died else Refused; }
    }
    if w.journal.value.plan != plan { return w, Refused; }
    if ActiveFor(w, plan) {
      w, r := AdoptActive(w, calm);
    } else {
      w, r := MoveToHub(w, plan, compose, calm);
    }
    if r == Migrated || r == CommitPending { HubMeans(w); }
  }

  lemma HubMeans(w: World)
    requires HubOk(w) && w.hub.Some?
    ensures w.journal.Some?
    ensures forall i :: 0 <= i < |w.sources| ==> !w.sources[i].api && !w.sources[i].proxy
    ensures forall i: nat :: i < |w.sources| ==> i in w.journal.value.copied
  {
  }

  /** The first journal: the statuses found before anything is touched. */
  method Prepare(w0: World, plan: nat, calm: bool) returns (w: World, f: Fault)
    requires Inv(w0) && w0.journal == None
    ensures Inv(w) && w == w0.(journal := w.journal)
    ensures w.journal == None || w.journal == Some(JournalFor(w0, plan))
    ensures f == Ok ==> w.journal.Some?
    ensures calm ==> f == Ok
  {
    w, f := Step(w0, w0.(journal := Some(JournalFor(w0, plan))), calm);
  }

  /** An active hub left by an earlier call is verified and the journal committed
      (btctl_hub.py 1536-1553). */
  method AdoptActive(w0: World, calm: bool) returns (w: World, r: Outcome)
    requires Inv(w0) && w0.journal.Some? && Open(w0.journal.value)
    requires w0.state.Some? && w0.state.value.status == Active
    ensures Inv(w)
    ensures w == w0 || w == w0.(journal := Some(w0.journal.value.(status := Committed)))
    ensures r == Refused || r == Migrated || r == Died
    ensures r == Migrated ==> w.hub == Some(Hub(true)) && w != w0
    ensures calm ==> (r == Migrated <==> w0.hub == Some(Hub(true)))
  {
    w := w0;
    var f := Check(calm);
    if f != Ok { return w, if f == Crash then Died else Refused; }
    if w.hub != Some(Hub(true)) { return w, Refused; }
    w, f := Step(w, w.(journal := Some(w.journal.value.(status := Committed))), calm);
    r := if f == Ok then Migrated else if f == Crash then Died else Refused;
  }

  // ---- `rollback` ----

  predicate CanRollBack(w: World, plan: nat) {
    && w.journal.Some?
    && (|| w.journal.value.status == RolledBackJournal
        || (w.journal.value.status == Committed && MayUninstall(w, plan)))
  }

  /** A calm call goes through exactly for a finished rollback, or a committed journal
      whose hub of the plan is active, half removed or removed, with no foreign or
      unfinished attempt beside it; otherwise it changes nothing. */
  method Rollback(w0: World, plan: nat, calm: bool) returns (w: World, f: Fault)
    requires Inv(w0)
    ensures Inv(w)
    ensures w.journal.Some? == w0.journal.Some?
    ensures w.journal.Some? ==> w.journal.value.initial == w0.journal.value.initial
    ensures f == Ok ==>
              && w.hub == None && w.journal.Some? && w.journal.value.status == RolledBackJournal
              && w.sources == w.journal.value.initial
              && (w0.journal.value.status == Committed ==>
                    w.state == Some(w0.state.value.(status := RolledBack)) && w.attempt == None)
    ensures !CanRollBack(w0, plan) ==> f != Ok && w == w0
    ensures calm && f != Ok ==> w == w0
    ensures calm ==>
              (f == Ok <==>
               && w0.journal.Some?
               && (|| w0.journal.value.status == RolledBackJournal
                   || (&& w0.journal.value.status == Committed
                       && w0.state.Some? && w0.state.value.plan == plan
                       && (|| w0.state.value.status == Uninstalling
                           || w0.state.value.status == Uninstalled
                           || (w0.state.value.status == Active && w0.hub != Some(Hub(false))))
                       && (|| w0.attempt.None?
                           || w0.attempt == Some(Attempt(Starting, w0.state.value.installId, plan))))))
  {
    hide Within, AllCopied, Stopped;
    w := w0;
    f := Check(calm);
    if f != Ok { return; }
    if w.journal.None? { return w, Error; }
    if w.journal.value.status == RolledBackJournal {
      w, f := RestartSources(w, calm);
      return;
    }
    if w.journal.value.status != Committed { return w, Error; }
    w, f := Uninstall(w, plan, calm);
    if f != Ok { return; }
    w, f := RestartSources(w, calm);
    if f != Ok { return; }
    w, f := Step(w, w.(state := Some(w.state.value.(status := RolledBack))), calm);
    if f != Ok { return; }
    w, f := Step(w, w.(journal := Some(w.journal.value.(status := RolledBackJournal))), calm);
  }

  // ---- whole runs ----

  datatype Call = DoMigrate(plan: nat) | DoRollback(plan: nat)

  /** Any calls in any order, each failing or stopping after any step: the hub and
      a source never run together, and nothing ever runs that was not running
      when the run began. */
  method Calls(w0: World, calls: seq<Call>, compose: bool) returns (w: World)
    requires w0.hub == None && w0.journal == None
    ensures w.hub.Some? ==> forall i :: 0 <= i < |w.sources| ==> !w.sources[i].api && !w.sources[i].proxy
    ensures |w.sources| == |w0.sources|
    ensures forall i :: 0 <= i < |w.sources| ==>
              (w.sources[i].api ==> w0.sources[i].api) && (w.sources[i].proxy ==> w0.sources[i].proxy)
    ensures w.journal.Some? ==> w.journal.value.initial == w0.sources
  {
    w := w0;
    for i := 0 to |calls|
      invariant Inv(w) && (w.journal == None ==> w.sources == w0.sources)
      invariant w.journal.Some? ==> w.journal.value.initial == w0.sources
    {
      match calls[i] {
        case DoMigrate(plan) => var r; w, r := Migrate(w, plan, compose, false);
        case DoRollback(plan) => var f; w, f := Rollback(w, plan, false);
      }
    }
  }

  /** Without faults, a first migration goes through and its rollback undoes it. */
  method ThereAndBack(w0: World, plan: nat, compose: bool) returns (there: World, back: World)
    requires w0.hub == None && w0.journal == None && w0.state == None && w0.attempt == None
    ensures there.hub == Some(Hub(true)) && |there.sources| == |w0.sources|
    ensures forall i :: 0 <= i < |there.sources| ==> !there.sources[i].api && !there.sources[i].proxy
    ensures back.hub == None && back.sources == w0.sources
  {
    hide Within, AllCopied, Stopped;
    var r, f;
    there, r := Migrate(w0, plan, compose, true);
    assert JournalOk(there);
    assert |there.sources| == |w0.sources| by { SameCount(there, w0.sources); }
    back, f := Rollback(there, plan, true);
  }

  lemma SameCount(w: World, initial: seq<Source>)
    requires w.journal.Some? && JournalOk(w) && w.journal.value.initial == initial
    ensures |w.sources| == |initial|
  {
  }

  /** A stop between a rollback's two last writes leaves the world rolled back but
      its journal committed. No later call, whatever its plan, changes anything. */
  method CallsAfterLostCommit(w0: World, calls: seq<Call>, compose: bool) returns (w: World)
    requires Inv(w0) && w0.journal.Some? && w0.journal.value.status == Committed
    requires w0.state.Some? && w0.state.value.status == RolledBack
    ensures w == w0 && w.hub == None && w.journal.value.status != RolledBackJournal
  {
    w := w0;
    for i := 0 to |calls|
      invariant w == w0
    {
      match calls[i] {
        case DoMigrate(plan) => var r; w, r := Migrate(w, plan, compose, false);
        case DoRollback(plan) => var f; w, f := Rollback(w, plan, false);
      }
    }
  }
}
