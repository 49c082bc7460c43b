/** Provider-only reconfiguration of the API role: a write-ahead journal over
    atomic file replacement and a container runtime. Every file write and every
    container call is one step; it may take effect or not, and the process may
    then see an error or stop for good. */
module Reconfigure {
  import opened Options
  import opened Faults

  type Env = map<string, string>

  /** A requested configuration. The fingerprint covers the non-secret settings
      only and its hash is taken as injective, so it stands for those settings. */
  datatype Config = Config(fingerprint: Env, secrets: Env)

  function Desired(cfg: Config): Env {
    cfg.fingerprint + cfg.secrets
  }

  datatype Status = Prepared | Replacing | Verified | RollingBack | RollbackFailed

  /** Snapshot digests are collision-free, so the journal's digests stand for the
      snapshot texts. */
  datatype Journal = Journal(status: Status, oldPrint: Env, newPrint: Env, oldEnv: Env, newEnv: Env,
                             oldApi: nat, newApi: Option<nat>)

  datatype Container = Container(id: nat, env: Env, running: bool)

  datatype State = State(fingerprint: Env, apiId: nat)

  /** Everything on disk and in the runtime. `cleaning` records that `_cleanup`
      has started since the journal on disk was prepared. */
  datatype World = World(state: State, active: Env, oldSnap: Option<Env>, newSnap: Option<Env>,
                         journal: Option<Journal>, api: Option<Container>, nextId: nat, cleaning: bool)

  // ---- what holds of every world a run can leave ----

  /** The environment carries the settings. */
  predicate Realises(env: Env, settings: Env) {
    forall k :: k in settings ==> k in env && env[k] == settings[k]
  }

  /** state.json, api.env and the live container agree on one configuration. */
  predicate Agree(w: World) {
    && w.api.Some?
    && w.api.value == Container(w.state.apiId, w.active, true)
    && Realises(w.active, w.state.fingerprint)
  }

  /** Container ids are never reused. */
  predicate FreshIds(w: World) {
    && w.state.apiId < w.nextId
    && (w.api.Some? ==> w.api.value.id < w.nextId)
    && (w.journal.Some? ==>
          && w.journal.value.oldApi < w.nextId
          && (w.journal.value.newApi.Some? ==> w.journal.value.newApi.value < w.nextId))
  }

  predicate SnapshotsMatch(w: World, j: Journal) {
    w.oldSnap == Some(j.oldEnv) && w.newSnap == Some(j.newEnv)
  }

  predicate JournalOk(w: World, j: Journal) {
    && Realises(j.oldEnv, j.oldPrint) && Realises(j.newEnv, j.newPrint)
    && (!w.cleaning ==> SnapshotsMatch(w, j))
    && (w.cleaning ==> w.state.apiId != j.oldApi)
    && (j.status == Verified ==>
          && j.newApi.Some? && j.newApi.value != j.oldApi
          && w.active == j.newEnv
          && (w.api.Some? && w.api.value.id == j.newApi.value ==>
                w.api.value == Container(j.newApi.value, j.newEnv, true)))
  }

  /** The invariant of every run, at every step. */
  predicate Inv(w: World) {
    && FreshIds(w)
    && (w.journal.None? || w.cleaning ==> Agree(w))
    && (w.journal.Some? ==> JournalOk(w, w.journal.value))
  }

  // ---- the container ----

  /** Worlds that differ from `w` in the container only. */
  predicate SameFiles(w: World, v: World) {
    v == w.(api := v.api, nextId := v.nextId)
  }

  /** What replacing the container can leave: the old one, nothing, or a new one
      with a fresh id that was given the environment on disk. */
  predicate Replaced(w: World, v: World) {
    && SameFiles(w, v)
    && w.nextId <= v.nextId
    && (v.api.Some? ==>
          || (w.api.Some? && v.api.value == w.api.value.(running := v.api.value.running))
          || (w.nextId <= v.api.value.id < v.nextId && v.api.value.env == w.active))
  }

  /** `_remove_owned_api`. */
  method RemoveApi(w0: World, calm: bool) returns (w: World, f: Fault)
    ensures Replaced(w0, w) && w.nextId == w0.nextId
    ensures f == Ok ==> w.api == None
    ensures calm ==> f == Ok
  {
    w := w0;
    if w.api.None? { return w, Ok; }
    f := Check(calm);
    if f != Ok { return; }
    if w.api.value.running {
      w, f := Step(w, w.(api := Some(w.api.value.(running := false))), calm);
      if f != Ok { return; }
    }
    w, f := Step(w, w.(api := None), calm);
  }

  /** `_start_api`: create and start, or let compose force a recreation. */
  method StartApi(w0: World, unraid: bool, calm: bool) returns (w: World, f: Fault)
    requires unraid ==> w0.api == None
    ensures Replaced(w0, w)
    ensures f == Ok ==> w.api == Some(Container(w0.nextId, w0.active, true)) && w.nextId == w0.nextId + 1
    ensures calm ==> f == Ok
  {
    w := w0;
    if !unraid {
      f := Check(calm);
      if f != Ok { return; }
      w, f := Step(w, w.(api := None), calm);
      if f != Ok { return; }
    }
    w, f := Step(w, w.(api := Some(Container(w.nextId, w.active, false)), nextId := w.nextId + 1), calm);
    if f != Ok { return; }
    w, f := Step(w, w.(api := Some(w.api.value.(running := true))), calm);
    if f != Ok { return; }
    f := Check(calm);
  }

  /** `_cleanup`: the snapshots go before the journal. */
  method Cleanup(w0: World, calm: bool) returns (w: World, f: Fault)
    requires Inv(w0) && Agree(w0)
    requires w0.journal.Some? ==> w0.state.apiId != w0.journal.value.oldApi
    ensures Inv(w) && Agree(w) && w.state == w0.state
    ensures f == Ok ==> w.journal == None
    ensures w.journal == None || w.journal == w0.journal
    ensures w.cleaning && w.active == w0.active && w.api == w0.api && w.nextId == w0.nextId
    ensures calm ==> f == Ok
  {
    hide Realises;
    w := w0.(cleaning := true);
    w, f := Step(w, w.(oldSnap := None), calm);
    if f != Ok { return; }
    w, f := Step(w, w.(newSnap := None), calm);
    if f != Ok { return; }
    w, f := Step(w, w.(journal := None), calm);
    if f != Ok { return; }
    f := Check(calm);
  }

  // ---- rolling back to the old environment ----

  predicate Rolling(w: World) {
    && Inv(w) && !w.cleaning
    && w.journal.Some? && w.journal.value.status != Verified
  }

  /** A failed rollback leaves either intact evidence, or an agreed world. */
  predicate Retains(w: World, j: Journal) {
    if w.cleaning then Agree(w) && w.state.apiId != j.oldApi
    else Rolling(w) && w.journal == Some(j)
  }

  /** The last part of both rollbacks: the old environment, a new container, the
      old fingerprint with the new container's id, and the cleanup. */
  method Restore(w0: World, unraid: bool, calm: bool) returns (w: World, f: Fault)
    requires Rolling(w0)
    ensures Inv(w) && w0.nextId <= w.nextId
    ensures f != Ok ==> Retains(w, w0.journal.value)
    ensures f == Ok ==>
              && Agree(w) && w.journal == None
              && w.active == w0.journal.value.oldEnv
              && w.state.fingerprint == w0.journal.value.oldPrint
    ensures w.state == w0.state || w.state.fingerprint == w0.journal.value.oldPrint
    ensures calm ==> f == Ok
  {
    hide Realises;
    var j := w0.journal.value;
    w := w0;
    if unraid {
      w, f := RemoveApi(w, calm);
      if f != Ok { return; }
    }
    w, f := Step(w, w.(active := j.oldEnv), calm);
    if f != Ok { return; }
    ghost var written := w;
    w, f := StartApi(w, unraid, calm);
    if f != Ok { return; }
    f := Check(calm);
    if f != Ok { return; }
    w, f := Step(w, w.(state := State(j.oldPrint, w.api.value.id)), calm);
    if f != Ok { return; }
    w, f := Cleanup(w, calm);
  }

  // ---- `_recover_if_needed` ----

  datatype Recovery = NotNeeded | Recovered(committed: bool) | Refused | Failed | Died

  predicate Committed(w: World, j: Journal, cfg: Config) {
    && j.status == Verified && j.newApi == Some(w.state.apiId)
    && w.state.fingerprint == cfg.fingerprint
  }

  /** The journal on disk is the one this configuration left, and its evidence is intact. */
  predicate Matches(w: World, j: Journal, cfg: Config) {
    && j.newPrint == cfg.fingerprint
    && (j.oldPrint == w.state.fingerprint || j.newPrint == w.state.fingerprint)
    && SnapshotsMatch(w, j)
  }

  /** What recovery needs to find. */
  predicate CanRecover(w: World, cfg: Config) {
    w.journal.Some? &&
    var j := w.journal.value;
    && Matches(w, j, cfg)
    && (if Committed(w, j, cfg) then w.api.Some? && w.api.value.id == w.state.apiId
                                     && Realises(w.api.value.env, Desired(cfg))
        else w.state == State(j.oldPrint, j.oldApi))
  }

  lemma RecoveryMeans(w: World, j: Journal, cfg: Config)
    requires Inv(w) && w.journal == Some(j)
    ensures Committed(w, j, cfg) ==> w.state != State(j.oldPrint, j.oldApi)
    ensures Committed(w, j, cfg) && w.api.Some? && w.api.value.id == w.state.apiId
            && j.newPrint == cfg.fingerprint ==>
              (Realises(w.api.value.env, Desired(cfg)) <==>
               forall k :: k in cfg.secrets ==> k in w.api.value.env && w.api.value.env[k] == cfg.secrets[k])
  {
    if Committed(w, j, cfg) && w.api.Some? && w.api.value.id == w.state.apiId
      && j.newPrint == cfg.fingerprint {
      var env := w.api.value.env;
      assert Realises(env, cfg.fingerprint);
      assert forall k :: k in Desired(cfg) ==>
          if k in cfg.secrets then Desired(cfg)[k] == cfg.secrets[k] else k in cfg.fingerprint;
      forall k | k in cfg.secrets && Realises(env, Desired(cfg)) ensures k in env && env[k] == cfg.secrets[k] {
        assert k in Desired(cfg) && Desired(cfg)[k] == cfg.secrets[k];
      }
    }
  }

  method Recover(w0: World, cfg: Config, unraid: bool, calm: bool) returns (w: World, r: Recovery)
    requires Inv(w0)
    ensures Inv(w)
    ensures r == NotNeeded <==> w0.journal.None?
    ensures r == NotNeeded || r == Refused ==> w == w0
    ensures r.Recovered? ==> Agree(w) && w.journal == None
    ensures r == Recovered(true) ==>
              && w.active == w0.active && w.api == w0.api && Committed(w0, w0.journal.value, cfg)
              && w.state == w0.state && w.state.fingerprint == cfg.fingerprint
              && Realises(w.active, Desired(cfg))
    ensures w.state.fingerprint == w0.state.fingerprint
    ensures r == Recovered(false) ==>
              && !Committed(w0, w0.journal.value, cfg)
              && w.active == w0.journal.value.oldEnv
              && w.state.fingerprint == w0.journal.value.oldPrint
    ensures w0.journal.Some? && !CanRecover(w0, cfg) ==> r == Refused || r == Died
    ensures w0.journal.Some? && calm ==> (r.Recovered? <==> CanRecover(w0, cfg))
    ensures calm ==>
              (r == Recovered(false) <==>
               && w0.journal.Some? && w0.journal.value.newPrint == cfg.fingerprint
               && w0.oldSnap == Some(w0.journal.value.oldEnv) && w0.newSnap == Some(w0.journal.value.newEnv)
               && w0.state == State(w0.journal.value.oldPrint, w0.journal.value.oldApi))
    ensures calm ==>
              (r == Recovered(true) <==>
               && w0.journal.Some? && w0.journal.value.newPrint == cfg.fingerprint
               && w0.oldSnap == Some(w0.journal.value.oldEnv) && w0.newSnap == Some(w0.journal.value.newEnv)
               && w0.journal.value.status == Verified
               && w0.journal.value.newApi == Some(w0.state.apiId) && w0.state.fingerprint == cfg.fingerprint
               && w0.api.Some? && w0.api.value.id == w0.state.apiId
               && (forall k :: k in cfg.secrets ==>
                     k in w0.api.value.env && w0.api.value.env[k] == cfg.secrets[k]))
    ensures w0.journal.Some? && calm && !CanRecover(w0, cfg) ==> r == Refused
    ensures !CanRecover(w0, cfg) ==> w == w0
  {
    hide Realises, Desired;
    w := w0;
    if w.journal.None? { return w, NotNeeded; }
    var j := w.journal.value;
    RecoveryMeans(w, j, cfg);
    var f := Check(calm);
    if f == Crash { return w, Died; }
    if f == Error || !Matches(w, j, cfg) { return w, Refused; }
    if Committed(w, j, cfg) {
      if w.api.None? || w.api.value.id != j.newApi.value || !Realises(w.api.value.env, Desired(cfg)) {
        return w, Refused;
      }
      f := Check(calm);
      if f == Crash { return w, Died; }
      if f == Error { return w, Refused; }
      w, f := Cleanup(w, calm);
      return w, if f == Ok then Recovered(true) else if f == Crash then Died else Failed;
    }
    if w.state.fingerprint != j.oldPrint || w.state.apiId != j.oldApi {
      return w, Refused;
    }
    w, f := Step(w, w.(journal := Some(j.(status := RollingBack))), calm);
    if f != Ok { return w, if f == Crash then Died else Failed; }
    w, f := Restore(w, unraid, calm);
    r := if f == Ok then Recovered(false) else if f == Crash then Died else Failed;
  }

  // ---- `reconfigure` ----

  /** Provider settings of the request over the settings on disk. */
  function Target(current: Env, cfg: Config, providerKeys: set<string>): (target: Env) {
    map k | k in current.Keys + providerKeys ::
      if k in providerKeys then (if k in Desired(cfg) then Desired(cfg)[k] else "") else current[k]
  }

  /** Only provider settings may differ (btctl_reconfigure.py 171-175). */
  predicate ProviderOnly(current: Env, cfg: Config, providerKeys: set<string>) {
    forall k :: k in Desired(cfg) && k !in providerKeys ==> k in current && current[k] == Desired(cfg)[k]
  }

  lemma TargetRealises(current: Env, cfg: Config, providerKeys: set<string>)
    requires ProviderOnly(current, cfg, providerKeys) && cfg.fingerprint.Keys !! cfg.secrets.Keys
    ensures Realises(Target(current, cfg, providerKeys), Desired(cfg))
    ensures Realises(Target(current, cfg, providerKeys), cfg.fingerprint)
  {
    var target := Target(current, cfg, providerKeys);
    forall k | k in Desired(cfg) ensures k in target && target[k] == Desired(cfg)[k] {
    }
    forall k | k in cfg.fingerprint ensures k in target && target[k] == cfg.fingerprint[k] {
      assert k in Desired(cfg) && Desired(cfg)[k] == cfg.fingerprint[k];
    }
  }

  datatype Outcome =
    | Returned(state: State)
    | NothingDone
    | CleanupPending
    | RolledBack
    | RollbackIncomplete
    | Stopped

  /** The new container (btctl_reconfigure.py 549-561): the old one goes, the new
      environment is written and a container with it is started and verified. */
  method BringUp(w0: World, unraid: bool, calm: bool) returns (w: World, f: Fault)
    requires Rolling(w0)
    ensures Rolling(w) && w.journal == w0.journal && w.state == w0.state && w0.nextId <= w.nextId
    ensures f == Ok ==>
              && w.api.Some? && w0.nextId <= w.api.value.id
              && w.api.value == Container(w.api.value.id, w.active, true)
              && w.active == w0.journal.value.newEnv
    ensures calm ==> f == Ok
  {
    hide Realises;
    w := w0;
    if unraid {
      w, f := RemoveApi(w, calm);
      if f != Ok { return; }
    }
    w, f := Step(w, w.(active := w.journal.value.newEnv), calm);
    if f != Ok { return; }
    ghost var written := w;
    w, f := StartApi(w, unraid, calm);
    if f != Ok { return; }
    f := Check(calm);
  }

  /** The commit (btctl_reconfigure.py 562-572): the journal becomes `verified`
      with the new container's id, and only then does state.json change. */
  method Commit(w0: World, j: Journal, id: nat, calm: bool) returns (w: World, f: Fault)
    requires Rolling(w0) && w0.journal == Some(j.(status := Replacing, newApi := None))
    requires j.status == Verified && j.newApi == Some(id) && j.oldApi < id
    requires w0.api == Some(Container(id, w0.active, true)) && w0.active == j.newEnv
    ensures Inv(w) && !w.cleaning && w.nextId == w0.nextId
    ensures w.journal == w0.journal || w.journal == Some(j)
    ensures w.state == w0.state || w.state.fingerprint == j.newPrint
    ensures f == Ok ==> Agree(w) && w.active == j.newEnv && w.state == State(j.newPrint, id)
    ensures calm ==> f == Ok
  {
    hide Realises;
    w, f := Step(w0, w0.(journal := Some(j)), calm);
    if f != Ok { return; }
    w, f := Step(w, w.(state := State(j.newPrint, id)), calm);
  }

  /** The replacement inside the `try` (btctl_reconfigure.py 546-572), up to and
      including the state commit. `j` is the journal in memory. */
  method Replace(w0: World, j0: Journal, unraid: bool, calm: bool)
    returns (w: World, f: Fault, j: Journal)
    requires Rolling(w0) && w0.journal == Some(j0) && j0.status == Prepared && j0.newApi == None
    ensures Inv(w) && !w.cleaning && w.journal.Some? && SamePlan(w.journal.value, j0) && SamePlan(j, j0)
    ensures j.newApi.Some? ==> j.newApi.value < w.nextId
    ensures w.state == w0.state || w.state.fingerprint == j0.newPrint
    ensures f == Ok ==>
              && Agree(w) && w.active == j0.newEnv
              && w.state.fingerprint == j0.newPrint && w.state.apiId != j0.oldApi
    ensures calm ==> f == Ok
  {
    hide Realises;
    w, j := w0, j0.(status := Replacing);
    w, f := Step(w, w.(journal := Some(j)), calm);
    if f != Ok { return; }
    w, f := BringUp(w, unraid, calm);
    if f != Ok { return; }
    var id := w.api.value.id;
    j := j.(newApi := Some(id), status := Verified);
    w, f := Commit(w, j, id, calm);
  }

  /** Two journals of one reconfiguration. */
  predicate SamePlan(j: Journal, k: Journal) {
    j == k.(status := j.status, newApi := j.newApi)
  }

  /** The handler's rollback (btctl_reconfigure.py 581-608). The journal it writes
      is the in-memory one, whatever reached the disk. */
  method HandleFailure(w0: World, j0: Journal, unraid: bool, calm: bool) returns (w: World, r: Outcome)
    requires Inv(w0) && !w0.cleaning && w0.journal.Some?
    requires SamePlan(w0.journal.value, j0)
    requires j0.newApi.Some? ==> j0.newApi.value < w0.nextId
    ensures Inv(w)
    ensures r == RolledBack || r == RollbackIncomplete || r == Stopped
    ensures r == RolledBack ==>
              && Agree(w) && w.journal == None
              && w.active == j0.oldEnv && w.state.fingerprint == j0.oldPrint
    ensures w.state == w0.state || w.state.fingerprint == j0.oldPrint
    ensures calm ==> r == RolledBack
  {
    hide Realises;
    var j := j0.(status := RollingBack);
    var f;
    w, f := Step(w0, w0.(journal := Some(j)), calm);
    if f == Ok {
      w, f := Restore(w, unraid, calm);
      if f == Ok { return w, RolledBack; }
    } else {
    }
    if f == Crash { return w, Stopped; }
    // Recovery evidence is kept, even if the cleanup had already removed it.
    w, f := Step(w, w.(journal := Some(j.(status := RollbackFailed))), calm);
    r := if f == Crash then Stopped else RollbackIncomplete;
  }

  /** The snapshots, then the prepared journal (btctl_reconfigure.py 523-543). */
  method Prepare(w0: World, cfg: Config, target: Env, calm: bool) returns (w: World, f: Fault)
    requires Inv(w0) && w0.journal == None && Realises(target, cfg.fingerprint)
    ensures Inv(w) && w.state == w0.state && w.active == w0.active && w.api == w0.api
    ensures f == Ok ==> Rolling(w) && w.journal == Some(Plan(w0, cfg, target))
    ensures calm ==> f == Ok
  {
    hide Realises;
    w, f := Step(w0, w0.(oldSnap := Some(w0.active)), calm);
    if f != Ok { return; }
    w, f := Step(w, w.(newSnap := Some(target)), calm);
    if f != Ok { return; }
    w, f := Step(w, w.(journal := Some(Plan(w0, cfg, target)), cleaning := false), calm);
  }

  function Plan(w: World, cfg: Config, target: Env): Journal {
    Journal(Prepared, w.state.fingerprint, cfg.fingerprint, w.active, target, w.state.apiId, None)
  }

  /** From an agreed world without a journal (btctl_reconfigure.py 493-608). */
  method Apply(w0: World, cfg: Config, target: Env, unraid: bool, calm: bool) returns (w: World, r: Outcome)
    requires Inv(w0) && w0.journal == None
    requires Realises(target, cfg.fingerprint)
    ensures Inv(w)
    ensures r.Returned? ==>
              && w.state == r.state && r.state.fingerprint == cfg.fingerprint
              && Agree(w) && w.journal == None && w.active == target
    ensures r == RolledBack ==>
              && Agree(w) && w.journal == None
              && w.active == w0.active && w.state.fingerprint == w0.state.fingerprint
    ensures r == CleanupPending ==> Agree(w) && w.state.fingerprint == cfg.fingerprint && w.active == target
    ensures r == NothingDone ==> w.state == w0.state && w.active == w0.active && w.api == w0.api
    ensures w.state.fingerprint == w0.state.fingerprint || w.state.fingerprint == cfg.fingerprint
    ensures calm ==> r.Returned?
  {
    hide Realises, Agree, Rolling;
    var f;
    w, f := Prepare(w0, cfg, target, calm);
    if f != Ok { return w, if f == Crash then Stopped else NothingDone; }
    var j := w.journal.value;
    w, f, j := Replace(w, j, unraid, calm);
    if f == Crash { return w, Stopped; }
    if f == Ok {
      w, f := Cleanup(w, calm);
      if f == Crash { return w, Stopped; }
      return w, if f == Ok then Returned(w.state) else CleanupPending;
    }
    w, r := HandleFailure(w, j, unraid, calm);
  }

  /** What a call without faults does. A journal that cannot be recovered from stops
      it. A committed one is finished. Any other is rolled back, and then, as
      without a journal, the call replaces the container exactly when the request
      changes something. */
  predicate Completes(w0: World, w: World, r: Outcome, cfg: Config, providerKeys: set<string>) {
    if w0.journal.Some? && !CanRecover(w0, cfg) then w == w0 && r == NothingDone
    else if w0.journal.Some? && Committed(w0, w0.journal.value, cfg) then
      r == Returned(w0.state) && w.state == w0.state && w.active == w0.active && w.api == w0.api && w.journal == None
    else
      var start := if w0.journal.Some? then w0.journal.value.oldEnv else w0.active;
      && w.journal == None && Agree(w)
      && (if Changes(start, cfg, providerKeys)
          then r == Returned(w.state) && w.state.fingerprint == cfg.fingerprint
               && w.active == Target(start, cfg, providerKeys)
          else r == NothingDone && w.active == start && w.state.fingerprint == w0.state.fingerprint)
  }

  lemma InvAgrees(w: World)
    requires Inv(w) && w.journal == None
    ensures Agree(w)
  {
  }

  /** `reconfigure` under its operation lock. */
  method Reconfigure(w0: World, cfg: Config, providerKeys: set<string>, unraid: bool, calm: bool)
    returns (w: World, r: Outcome)
    requires Inv(w0) && cfg.fingerprint.Keys !! cfg.secrets.Keys
    ensures Inv(w)
    ensures r.Returned? ==>
              && w.state == r.state && r.state.fingerprint == cfg.fingerprint
              && Agree(w) && w.journal == None && Realises(w.active, Desired(cfg))
    ensures r == RolledBack ==> Agree(w) && w.journal == None && w.state.fingerprint == w0.state.fingerprint
    ensures r == RolledBack ==>
              w.active == if w0.journal.Some? then w0.journal.value.oldEnv else w0.active
    ensures r == CleanupPending ==>
              Agree(w) && w.state.fingerprint == cfg.fingerprint && Realises(w.active, Desired(cfg))
    ensures r == NothingDone && w0.journal == None ==>
              w.state == w0.state && w.active == w0.active && w.api == w0.api
    ensures w.state.fingerprint == w0.state.fingerprint || w.state.fingerprint == cfg.fingerprint
    ensures w0.journal.Some? && !CanRecover(w0, cfg) ==> w == w0 && (r == NothingDone || r == Stopped)
    ensures calm ==> Completes(w0, w, r, cfg, providerKeys)
  {
    hide Realises, Desired, Target, ProviderOnly, Agree, Inv, CanRecover;
    var recovery;
    w, recovery := Recover(w0, cfg, unraid, calm);
    match recovery {
      case Recovered(committed) => if committed { return w, Returned(w.state); }
      case NotNeeded =>
      case Refused => return w, NothingDone;
      case Failed => return w, NothingDone;
      case Died => return w, Stopped;
    }
    // `_load_current`: the journal is gone, so state, environment and runtime agree.
    InvAgrees(w);
    var f := Check(calm);
    if f == Crash { return w, Stopped; }
    if f == Error || !Changes(w.active, cfg, providerKeys) { return w, NothingDone; }
    TargetRealises(w.active, cfg, providerKeys);
    w, r := Apply(w, cfg, Target(w.active, cfg, providerKeys), unraid, calm);
  }

  /** The request is provider-only and changes something. */
  predicate Changes(current: Env, cfg: Config, providerKeys: set<string>) {
    ProviderOnly(current, cfg, providerKeys) && Target(current, cfg, providerKeys) != current
  }

  /** Without faults, from an agreed world or one whose replacement is to be rolled
      back, so that `start` is the environment to be changed: the call does nothing
      exactly when the request differs from it outside the provider settings, or
      agrees with it on all of them. Otherwise the provider settings, and no others,
      become the requested ones. */
  method ReconfigureCalmly(w0: World, start: Env, cfg: Config, providerKeys: set<string>, unraid: bool)
    returns (w: World, r: Outcome)
    requires Inv(w0) && cfg.fingerprint.Keys !! cfg.secrets.Keys
    requires || (w0.journal == None && start == w0.active)
             || (&& w0.journal.Some? && start == w0.journal.value.oldEnv
                 && w0.journal.value.newPrint == cfg.fingerprint
                 && w0.oldSnap == Some(start) && w0.newSnap == Some(w0.journal.value.newEnv)
                 && w0.state == State(w0.journal.value.oldPrint, w0.journal.value.oldApi))
    ensures r == NothingDone || r == Returned(w.state)
    ensures r == NothingDone <==>
            || (exists k :: k in cfg.fingerprint && k !in providerKeys
                            && !(k in start && start[k] == cfg.fingerprint[k]))
            || (exists k :: k in cfg.secrets && k !in providerKeys && !(k in start && start[k] == cfg.secrets[k]))
            || (forall k :: k in providerKeys ==>
                  k in start
                  && start[k] == (if k in cfg.fingerprint then cfg.fingerprint[k]
                                  else if k in cfg.secrets then cfg.secrets[k] else ""))
    ensures r == NothingDone ==> w.active == start && w.state.fingerprint == w0.state.fingerprint
    ensures r.Returned? ==>
              && w.state.fingerprint == cfg.fingerprint
              && (forall k :: k in w.active <==> k in start || k in providerKeys)
              && (forall k :: k in start && k !in providerKeys ==> w.active[k] == start[k])
              && (forall k :: k in providerKeys ==>
                    w.active[k] == (if k in cfg.fingerprint then cfg.fingerprint[k]
                                    else if k in cfg.secrets then cfg.secrets[k] else ""))
    ensures w.journal == None && w.api == Some(Container(w.state.apiId, w.active, true))
  {
    hide Realises, Inv;
    assert w0.journal.Some? ==> CanRecover(w0, cfg) && !Committed(w0, w0.journal.value, cfg) by {
      if w0.journal.Some? { RecoveryMeans(w0, w0.journal.value, cfg); }
    }
    ChangesMeans(start, cfg, providerKeys);
    hide CanRecover, Committed, Changes, Target;
    w, r := Reconfigure(w0, cfg, providerKeys, unraid, true);
    assert w0.journal.Some? ==> start == w0.journal.value.oldEnv;
    assert w0.journal.None? ==> start == w0.active;
    assert w.journal == None && Agree(w) by {
      assert Completes(w0, w, r, cfg, providerKeys);
    }
  }

  lemma ChangesMeans(start: Env, cfg: Config, providerKeys: set<string>)
    requires cfg.fingerprint.Keys !! cfg.secrets.Keys
    ensures Changes(start, cfg, providerKeys) <==>
            && (forall k :: k in cfg.fingerprint && k !in providerKeys ==>
                  k in start && start[k] == cfg.fingerprint[k])
            && (forall k :: k in cfg.secrets && k !in providerKeys ==> k in start && start[k] == cfg.secrets[k])
            && !(forall k :: k in providerKeys ==>
                   k in start
                   && start[k] == (if k in cfg.fingerprint then cfg.fingerprint[k]
                                   else if k in cfg.secrets then cfg.secrets[k] else ""))
    ensures var target := Target(start, cfg, providerKeys);
            && (forall k :: k in target <==> k in start || k in providerKeys)
            && (forall k :: k in start && k !in providerKeys ==> target[k] == start[k])
            && (forall k :: k in providerKeys ==>
                  target[k] == (if k in cfg.fingerprint then cfg.fingerprint[k]
                                else if k in cfg.secrets then cfg.secrets[k] else ""))
  {
    assert forall k :: k in cfg.fingerprint ==> k in Desired(cfg) && Desired(cfg)[k] == cfg.fingerprint[k];
    assert forall k :: k in cfg.secrets ==> k in Desired(cfg) && Desired(cfg)[k] == cfg.secrets[k];
    var target := Target(start, cfg, providerKeys);
    if forall k :: k in providerKeys ==> k in start && start[k] == target[k] {
      assert target == start;
    }
  }

  /** An installed world is one that every run may begin from. */
  lemma Installed(w: World)
    requires w.journal == None && w.api == Some(Container(w.state.apiId, w.active, true))
    requires forall k :: k in w.state.fingerprint ==> k in w.active && w.active[k] == w.state.fingerprint[k]
    requires w.state.apiId < w.nextId
    ensures Inv(w)
    ensures Agree(w)
  {
  }

  /** Any number of calls, each of which may fail or stop after any step. */
  method Calls(w0: World, cfgs: seq<Config>, providerKeys: set<string>, unraid: bool) returns (w: World)
    requires Inv(w0)
    requires forall i :: 0 <= i < |cfgs| ==> cfgs[i].fingerprint.Keys !! cfgs[i].secrets.Keys
    ensures Inv(w)
    ensures w.journal == None ==>
              && w.api == Some(Container(w.state.apiId, w.active, true))
              && (forall k :: k in w.state.fingerprint ==> k in w.active && w.active[k] == w.state.fingerprint[k])
    ensures w.state.fingerprint == w0.state.fingerprint
            || exists i :: 0 <= i < |cfgs| && w.state.fingerprint == cfgs[i].fingerprint
  {
    w := w0;
    for i := 0 to |cfgs|
      invariant Inv(w)
      invariant w.state.fingerprint == w0.state.fingerprint
                || exists k :: 0 <= k < i && w.state.fingerprint == cfgs[k].fingerprint
    {
      var r;
      w, r := Reconfigure(w, cfgs[i], providerKeys, unraid, false);
    }
  }

  /** Once no request can recover, no number of calls changes anything. */
  method CallsWithoutRecovery(w0: World, cfgs: seq<Config>, providerKeys: set<string>, unraid: bool)
    returns (w: World)
    requires Inv(w0) && w0.journal.Some? && forall cfg :: !CanRecover(w0, cfg)
    requires forall i :: 0 <= i < |cfgs| ==> cfgs[i].fingerprint.Keys !! cfgs[i].secrets.Keys
    ensures w == w0
  {
    hide CanRecover;
    w := w0;
    for i := 0 to |cfgs|
      invariant w == w0
    {
      var r;
      w, r := Reconfigure(w, cfgs[i], providerKeys, unraid, false);
    }
  }

  /** A stop between a rollback's state write and its cleanup leaves a world that
      agrees on the old configuration, yet every later call, for every requested
      configuration, refuses to recover from it: the state names a container the
      journal does not know. */
  lemma StopAfterRollbackSaveIsFinal(w: World, id: nat)
    requires Rolling(w) && w.active == w.journal.value.oldEnv
    requires w.api == Some(Container(id, w.active, true)) && id != w.journal.value.oldApi
    ensures var v := w.(state := State(w.journal.value.oldPrint, id));
            Inv(v) && Agree(v) && forall cfg :: !CanRecover(v, cfg)
  {
    hide Realises;
  }

  /** Some request can recover exactly when the snapshots are intact and the state
      is either the journal's old one, or its new one with the new container
      present and the journal verified. Otherwise every call leaves the world as
      it is, so the refusal never ends. */
  lemma RecoverableWhen(w: World, j: Journal)
    requires Inv(w) && w.journal == Some(j)
    ensures (exists cfg :: CanRecover(w, cfg)) <==>
            && SnapshotsMatch(w, j)
            && (|| w.state == State(j.oldPrint, j.oldApi)
                || (&& j.status == Verified && w.state == State(j.newPrint, j.newApi.value)
                    && w.api.Some? && w.api.value.id == w.state.apiId))
  {
    hide Realises;
    var cfg := Config(j.newPrint, map[]);
    assert Desired(cfg) == j.newPrint;
    if w.state == State(j.oldPrint, j.oldApi) && SnapshotsMatch(w, j) {
      assert CanRecover(w, cfg);
    } else if j.status == Verified && w.state == State(j.newPrint, j.newApi.value)
      && w.api.Some? && w.api.value.id == w.state.apiId && SnapshotsMatch(w, j) {
      assert CanRecover(w, cfg);
    }
  }
}
