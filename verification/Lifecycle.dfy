/** What the updater's jobs guarantee together: an upgrade can be rolled back, and
    between jobs no pup is left in a transitional state. */
module Lifecycle {
  import opened Wrappers
  import opened Events
  import opened Pups
  import opened Updater

  // ------------------------------------------------------------------
  // Upgrade, then rollback
  // ------------------------------------------------------------------

  ghost predicate Agree(a: map<string, string>, b: map<string, string>, k: string) {
    (k in a <==> k in b) && (k in a ==> a[k] == b[k])
  }

  /** The settings that requests may change between an upgrade and its rollback. */
  ghost predicate OnlySettingsChanged(p: PupState, q: PupState) {
    q == p.(config := q.config, configSaved := q.configSaved, providers := q.providers, enabled := q.enabled)
  }

  lemma {:induction false} SettingUpdates(p: PupState, us: seq<Update>)
    requires forall u <- us :: u.SetConfig? || u.SetProviders? || u.SetEnabled?
    ensures OnlySettingsChanged(p, ApplyUpdates(p, us))
    decreases |us|
  {
    if us != [] {
      assert us[0] in us && forall u <- us[1..] :: u in us;
      var p1 := ApplyUpdate(p, us[0]);
      assert OnlySettingsChanged(p, p1);
      SettingUpdates(p1, us[1..]);
    }
  }

  /** What a rollback returns to, whether the upgrade succeeded or failed at any step
      past the snapshot, and whatever the settings became afterwards: version,
      manifest and enabled flag of the copy made at dispatch, but config and
      providers as they were when the upgrade ran, unless the copy had no such map
      yet. Version and manifest always return; each setting does exactly when the
      stated condition holds. */
  lemma RollbackRestores(r0: Registry, r1: Registry, r2: Registry, r3: Registry, copy: PupState,
                         target: string, m: Manifest, up: Exit, dropped: bool)
    requires copy.id in r0.pups && copy.id in r2.pups
    requires UpgradeDid(r0, r1, Shown(copy, r0.pups[copy.id]), target, m, up) && !up.Refused?
    requires OnlySettingsChanged(r1.pups[copy.id], r2.pups[copy.id])
    requires copy.id in r2.snapshots && r2.snapshots[copy.id] == r1.snapshots[copy.id]
    requires RollbackDid(r2, r3, copy.id, Success, dropped)
    ensures copy.id in r3.pups
    ensures BackFrom(r2.pups[copy.id], r3.pups[copy.id], copy, SavedConfig(copy, r0.pups[copy.id]),
                     SavedProviders(copy, r0.pups[copy.id]))
  {
    var s := Shown(copy, r0.pups[copy.id]);
    var between, end := r2.pups[s.id], r3.pups[s.id];
    assert r2.snapshots[s.id] == SnapshotOf(s);
    assert end == RollbackOutcome(between, SnapshotOf(s), Success);
    MergeRestores(between.config.All(), s.config.All(), s.manifest.configFields);
    ProvidersRestore(between.providers.All(), s.providers.All());
  }

  /** The maps that the snapshot of an upgrade captures from its copy. */
  function SavedConfig(copy: PupState, live: PupState): map<string, string> {
    if copy.config.NoSettings? then map[] else live.config.All()
  }

  function SavedProviders(copy: PupState, live: PupState): map<string, string> {
    if copy.providers.NoSettings? then map[] else live.providers.All()
  }

  /** The pup `end` after a rollback from `between`. */
  ghost predicate BackFrom(between: PupState, end: PupState, copy: PupState, config: map<string, string>,
                           providers: map<string, string>)
  {
    && end.installation == Ready
    && end.version == copy.version && end.manifest == copy.manifest
    && (end.config.All() == config <==>
          forall k :: (k in config && k in copy.manifest.configFields) || Agree(between.config.All(), config, k))
    && (end.providers.All() == providers <==> between.providers.All().Keys <= providers.Keys)
    && (end.enabled == copy.enabled <==> (between.enabled ==> copy.enabled))
  }

  lemma MergeRestores(between: map<string, string>, saved: map<string, string>, known: set<string>)
    ensures MergedConfig(between, saved, known) == saved <==>
            forall k :: (k in saved && k in known) || Agree(between, saved, k)
  {
    var merged := MergedConfig(between, saved, known);
    if merged == saved {
      forall k | !(k in saved && k in known)
        ensures Agree(between, saved, k)
      {
        assert k in merged <==> k in between;
      }
    }
    if forall k :: (k in saved && k in known) || Agree(between, saved, k) {
      forall k
        ensures Agree(merged, saved, k)
      {
        assert (k in saved && k in known) || Agree(between, saved, k);
      }
      SameMap(merged, saved);
    }
  }

  lemma SameMap(a: map<string, string>, b: map<string, string>)
    requires forall k :: Agree(a, b, k)
    ensures a == b
  {
    forall k
      ensures k in a <==> k in b
    {
      assert Agree(a, b, k);
    }
    assert forall k <- a :: Agree(a, b, k);
  }

  lemma ProvidersRestore(between: map<string, string>, saved: map<string, string>)
    ensures between + saved == saved <==> between.Keys <= saved.Keys
  {
    if between + saved == saved {
      assert (between + saved).Keys == between.Keys + saved.Keys;
    }
  }

  /** When the copy is the live pup and nothing changes its settings meanwhile,
      the rollback is an undo: every field is as before the upgrade, except that
      the config counts as saved, both maps are made, the pup is ready, and a past
      reason for being broken stays on record. */
  lemma UpgradeThenRollbackIsUndo(r0: Registry, r1: Registry, r3: Registry, s: PupState,
                                  target: string, m: Manifest, up: Exit, dropped: bool)
    requires s.id in r0.pups && r0.pups[s.id] == s
    requires UpgradeDid(r0, r1, s, target, m, up) && !up.Refused?
    requires RollbackDid(r1, r3, s.id, Success, dropped)
    ensures r3.pups == r0.pups[s.id := Undone(s, r1.pups[s.id].brokenReason)]
    ensures r3.snapshots == if dropped then r0.snapshots - {s.id} else r0.snapshots[s.id := SnapshotOf(s)]
  {
    var p1 := UpgradeOutcome(Stopped(s, s.enabled), s.enabled, target, m, up);
    assert r1.pups == r0.pups[s.id := p1] && r1.snapshots == r0.snapshots[s.id := SnapshotOf(s)];
    UndoOutcome(s, target, m, up);
    assert r3.pups == r1.pups[s.id := RollbackOutcome(p1, SnapshotOf(s), Success)];
    assert dropped ==> r3.snapshots == r0.snapshots - {s.id};
  }

  function Undone(s: PupState, reason: string): PupState {
    s.(installation := Ready, config := Settings(s.config.All()), configSaved := true,
       providers := Settings(s.providers.All()), brokenReason := reason)
  }

  lemma UndoOutcome(s: PupState, target: string, m: Manifest, up: Exit)
    requires !up.Refused?
    ensures var p1 := UpgradeOutcome(Stopped(s, s.enabled), s.enabled, target, m, up);
            RollbackOutcome(p1, SnapshotOf(s), Success) == Undone(s, p1.brokenReason)
  {
    UpgradeTouches(s, target, m, up);
    assert MergedConfig(s.config.All(), s.config.All(), s.manifest.configFields) == s.config.All();
    assert s.providers.All() + s.providers.All() == s.providers.All();
  }

  lemma UpgradeTouches(s: PupState, target: string, m: Manifest, up: Exit)
    requires !up.Refused?
    ensures var p1 := UpgradeOutcome(Stopped(s, s.enabled), s.enabled, target, m, up);
            && p1 == s.(version := p1.version, manifest := p1.manifest, installation := p1.installation,
                        brokenReason := p1.brokenReason, enabled := p1.enabled)
            && (p1.enabled ==> s.enabled)
  {}

  /** The copy can be stale: with two upgrades queued at once, rolling back the
      second skips the version the first one installed. */
  lemma QueuedUpgradesRollBackTooFar(r0: Registry, r1: Registry, r2: Registry, r3: Registry, copy: PupState,
                                     first: string, m1: Manifest, second: string, m2: Manifest, dropped: bool)
    requires copy.id in r0.pups && r0.pups[copy.id] == copy && first != copy.version
    requires UpgradeDid(r0, r1, copy, first, m1, Success)
    requires UpgradeDid(r1, r2, Shown(copy, r1.pups[copy.id]), second, m2, Success)
    requires RollbackDid(r2, r3, copy.id, Success, dropped)
    ensures r1.pups[copy.id].version == first
    ensures r3.pups[copy.id].version == copy.version != first
  {
    assert OnlySettingsChanged(r2.pups[copy.id], r2.pups[copy.id]);
    RollbackRestores(r1, r2, r2, r3, copy, second, m2, Success, dropped);
  }

  /** A setting changed while the upgrade waits in the queue is what comes back, not
      the one at the dispatch. */
  lemma EditWhileQueuedComesBack(r0: Registry, r1: Registry, r2: Registry, copy: PupState, fields: map<string, string>,
                                 target: string, m: Manifest, up: Exit, dropped: bool)
    requires copy.id in r0.pups && copy.config.Settings? && r0.pups[copy.id] == ApplyUpdate(copy, SetConfig(fields))
    requires UpgradeDid(r0, r1, Shown(copy, r0.pups[copy.id]), target, m, up) && !up.Refused?
    requires RollbackDid(r1, r2, copy.id, Success, dropped)
    ensures copy.id in r2.pups
    ensures r2.pups[copy.id].config.All() == MergedConfig(copy.config.All(), fields, copy.manifest.configFields)
  {
    UpgradeKeepsSettings(r0, r1, Shown(copy, r0.pups[copy.id]), target, m, up);
    RollbackRestores(r0, r1, r1, r2, copy, target, m, up, dropped);
    assert forall k :: Agree(r1.pups[copy.id].config.All(), r0.pups[copy.id].config.All(), k);
  }

  lemma UpgradeKeepsSettings(r: Registry, r': Registry, s: PupState, target: string, m: Manifest, exit: Exit)
    requires UpgradeDid(r, r', s, target, m, exit) && s.id in r.pups
    ensures s.id in r'.pups
    ensures r'.pups[s.id].config == r.pups[s.id].config && r'.pups[s.id].providers == r.pups[s.id].providers
  {
    var p := UpgradeOutcome(Stopped(r.pups[s.id], s.enabled), s.enabled, target, m, exit);
    assert p.config == r.pups[s.id].config && p.providers == r.pups[s.id].providers;
  }

  // ------------------------------------------------------------------
  // Runs
  // ------------------------------------------------------------------

  datatype Kind =
    | Install | Uninstall | Purge | Upgrade(target: string, manifest: Manifest) | Rollback | Switch(enabled: bool)

  /** A queued job with the copy of the pup taken when it was dispatched. */
  datatype Pending = Pending(kind: Kind, copy: PupState)

  /** The manager's pups between two updater jobs, the jobs still queued, the ids of
      purged pups, and the state files. */
  datatype World = World(r: Registry, pending: seq<Pending>, gone: set<PupId>, files: map<PupId, PupState>)

  /** `shown` is what the job's copy shows when it runs; `written` tells whether the
      state file could be written, and `files` are the state files afterwards. */
  datatype WorldStep =
    | Adopt(pup: PupState)
    | Submit(kind: Kind, id: PupId)
    | Edit(id: PupId, updates: seq<Update>, written: bool)
    | Execute(shown: PupState, exit: Exit, dropped: bool, r: Registry, files: map<PupId, PupState>)
    | Cancel(index: nat)
    | Restart(files: map<PupId, PupState>)

  /** The maps of a purged pup are out of everyone's reach but the copy's. */
  ghost predicate Shows(copy: PupState, r: Registry, shown: PupState) {
    if copy.id in r.pups then shown == Shown(copy, r.pups[copy.id])
    else shown == copy.(config := shown.config, providers := shown.providers)
  }

  ghost predicate Did(kind: Kind, s: PupState, r: Registry, r': Registry, exit: Exit, dropped: bool) {
    match kind
    case Install => InstallDid(r, r', s.id, exit)
    case Uninstall => UninstallDid(r, r', s.id, exit)
    case Purge => PurgeDid(r, r', s, exit)
    case Upgrade(target, m) => UpgradeDid(r, r', s, target, m, exit)
    case Rollback => RollbackDid(r, r', s.id, exit, dropped)
    case Switch(enabled) => EnableDid(r, r', s.id, enabled, exit)
  }

  ghost predicate Possible(w: World, step: WorldStep) {
    match step
    case Adopt(p) => p.id !in w.r.pups && p.id !in w.gone && p.installation == Installing
    case Submit(kind, id) => id in w.r.pups && !kind.Install?
    case Edit(id, us, _) => id in w.r.pups && forall u <- us :: u.SetConfig? || u.SetProviders? || u.SetEnabled?
    case Execute(shown, exit, dropped, r, files) =>
      && w.pending != [] && Shows(w.pending[0].copy, w.r, shown)
      && Did(w.pending[0].kind, shown, w.r, r, exit, dropped)
      && (if w.pending[0].kind.Purge? then PurgeFilesDid(w.files, files, shown.id, exit)
          else FilesDid(w.files, files, r.pups, shown.id, exit))
    case Cancel(i) => i < |w.pending|
    case Restart(files) => FilesRecovered(w.files, files)
  }

  /** Adopting a pup queues its install at once; jobs run in queue order; a restart
      loads the state files and forgets the queue. */
  ghost function Then(w: World, step: WorldStep): World
    requires Possible(w, step)
  {
    match step
    case Adopt(p) =>
      w.(r := w.r.(pups := w.r.pups[p.id := p]), pending := w.pending + [Pending(Install, p)],
         files := w.files[p.id := p])
    case Submit(kind, id) => w.(pending := w.pending + [Pending(kind, w.r.pups[id])])
    case Edit(id, us, written) =>
      var p := ApplyUpdates(w.r.pups[id], us);
      w.(r := w.r.(pups := w.r.pups[id := p]), files := if written then w.files[id := p] else w.files)
    case Execute(_, _, _, r, files) => World(r, w.pending[1..], w.gone + (w.r.pups.Keys - r.pups.Keys), files)
    case Cancel(i) => w.(pending := w.pending[..i] + w.pending[i + 1..])
    case Restart(files) => World(Registry(Recovered(w.files), w.r.snapshots), [], {}, files)
  }

  ghost predicate WorldRun(w: World, steps: seq<WorldStep>, end: World)
    decreases |steps|
  {
    if steps == [] then w == end else Possible(w, steps[0]) && WorldRun(Then(w, steps[0]), steps[1..], end)
  }

  /** The jobs carried out. */
  ghost function Executions(steps: seq<WorldStep>): nat {
    if steps == [] then 0 else (if steps[0].Execute? then 1 else 0) + Executions(steps[1..])
  }

  /** A queued job with its copy comes to the head once those before it have run, if
      none is deleted and the process lives. */
  lemma {:induction false} JobsRunInOrder(w: World, k: nat, steps: seq<WorldStep>, end: World)
    requires WorldRun(w, steps, end) && forall step <- steps :: !step.Cancel? && !step.Restart?
    requires k < |w.pending| && Executions(steps) <= k
    ensures k - Executions(steps) < |end.pending| && end.pending[k - Executions(steps)] == w.pending[k]
    decreases |steps|
  {
    if steps != [] {
      JobsRunInOrder(Then(w, steps[0]), if steps[0].Execute? then k - 1 else k, steps[1..], end);
    }
  }

  /** So a job submitted now runs, with the copy taken now, when the jobs queued before it
      have run; an adopted pup's install likewise. */
  lemma SubmittedRunsWithItsCopy(w: World, first: WorldStep, steps: seq<WorldStep>, end: World)
    requires (first.Submit? || first.Adopt?) && Possible(w, first) && WorldRun(Then(w, first), steps, end)
    requires (forall step <- steps :: !step.Cancel? && !step.Restart?) && Executions(steps) == |w.pending|
    ensures end.pending != []
    ensures first.Submit? ==> end.pending[0] == Pending(first.kind, w.r.pups[first.id])
    ensures first.Adopt? ==> end.pending[0] == Pending(Install, first.pup)
  {
    JobsRunInOrder(Then(w, first), |w.pending|, steps, end);
  }

  // ------------------------------------------------------------------
  // Between two jobs
  // ------------------------------------------------------------------

  ghost predicate InstallPending(pending: seq<Pending>, id: PupId) {
    exists i :: IsInstallOf(pending, i, id)
  }

  ghost predicate IsInstallOf(pending: seq<Pending>, i: int, id: PupId) {
    0 <= i < |pending| && pending[i].kind.Install? && pending[i].copy.id == id
  }

  predicate MidJob(i: Installation) {
    i.Upgrading? || i.Uninstalling? || i.Purging?
  }

  predicate AtRest(i: Installation) {
    i.Ready? || i.Uninstalled? || i.Broken?
  }

  /** No pup is in the middle of a job, and one that is installing still has its
      install to come. */
  ghost predicate IdleSafe(w: World) {
    forall id <- w.r.pups ::
      && !MidJob(w.r.pups[id].installation)
      && (w.r.pups[id].installation == Installing ==> InstallPending(w.pending, id))
  }

  /** No other pup differs, and this one is settled or as it was. */
  ghost predicate Settles(r: Registry, r': Registry, id: PupId, install: bool) {
    && (forall i <- r'.pups :: i in r.pups && (i != id ==> r'.pups[i] == r.pups[i]))
    && (forall i <- r.pups :: i != id ==> i in r'.pups)
    && (id in r'.pups ==>
          || AtRest(r'.pups[id].installation)
          || (r'.pups[id].installation == r.pups[id].installation && !install))
    && r'.snapshots - {id} == r.snapshots - {id}
  }

  lemma BecomesSettled(r: Registry, r': Registry, id: PupId, p: PupState)
    requires Becomes(r, r', id, p) && id in r.pups && r'.snapshots - {id} == r.snapshots - {id}
    requires AtRest(p.installation)
    ensures Settles(r, r', id, true)
  {}

  lemma InstallSettles(r: Registry, r': Registry, id: PupId, exit: Exit)
    requires InstallDid(r, r', id, exit)
    ensures Settles(r, r', id, true)
  {}

  lemma RemovalSettles(kind: Kind, s: PupState, r: Registry, r': Registry, exit: Exit, dropped: bool)
    requires Did(kind, s, r, r', exit, dropped) && (kind.Uninstall? || kind.Purge?)
    ensures Settles(r, r', s.id, false)
  {}

  lemma UpgradeSettles(r: Registry, r': Registry, s: PupState, target: string, m: Manifest, exit: Exit)
    requires UpgradeDid(r, r', s, target, m, exit)
    ensures Settles(r, r', s.id, false)
  {
    if s.id in r.pups && !exit.Refused? {
      BecomesSettled(r, r', s.id, UpgradeOutcome(Stopped(r.pups[s.id], s.enabled), s.enabled, target, m, exit));
    }
  }

  lemma RollbackSettles(r: Registry, r': Registry, id: PupId, exit: Exit, dropped: bool)
    requires RollbackDid(r, r', id, exit, dropped)
    ensures Settles(r, r', id, false)
  {
    if id in r.pups && !exit.Refused? {
      BecomesSettled(r, r', id, RollbackOutcome(r.pups[id], r.snapshots[id], exit));
    }
  }

  lemma SwitchSettles(r: Registry, r': Registry, id: PupId, enabled: bool, exit: Exit)
    requires EnableDid(r, r', id, enabled, exit)
    ensures Settles(r, r', id, false)
  {}

  /** Whatever external steps fail, a job changes no other pup and no other snapshot,
      and leaves its own pup in a settled state, or as it was. */
  lemma JobSettlesItsPup(kind: Kind, s: PupState, r: Registry, r': Registry, exit: Exit, dropped: bool)
    requires Did(kind, s, r, r', exit, dropped)
    ensures Settles(r, r', s.id, kind.Install?)
  {
    if kind.Install? {
      InstallSettles(r, r', s.id, exit);
    } else if kind.Upgrade? {
      UpgradeSettles(r, r', s, kind.target, kind.manifest, exit);
    } else if kind.Rollback? {
      RollbackSettles(r, r', s.id, exit, dropped);
    } else if kind.Switch? {
      SwitchSettles(r, r', s.id, kind.enabled, exit);
    } else {
      RemovalSettles(kind, s, r, r', exit, dropped);
    }
  }

  lemma ExecuteKeepsIdleSafe(w: World, step: WorldStep)
    requires IdleSafe(w) && step.Execute? && Possible(w, step)
    ensures IdleSafe(Then(w, step))
  {
    JobSettlesItsPup(w.pending[0].kind, step.shown, w.r, step.r, step.exit, step.dropped);
    assert step.shown.id == w.pending[0].copy.id;
    forall id | id in step.r.pups
      ensures !MidJob(step.r.pups[id].installation)
      ensures step.r.pups[id].installation == Installing ==> InstallPending(w.pending[1..], id)
    {
      if step.r.pups[id].installation == Installing {
        PendingAfterFirst(w.pending, id);
      }
    }
  }

  lemma PendingAfterFirst(pending: seq<Pending>, id: PupId)
    requires InstallPending(pending, id) && !IsInstallOf(pending, 0, id)
    ensures InstallPending(pending[1..], id)
  {
    var i :| IsInstallOf(pending, i, id);
    assert IsInstallOf(pending[1..], i - 1, id);
  }

  lemma QueueKeepsIdleSafe(w: World, step: WorldStep)
    requires IdleSafe(w) && Possible(w, step) && (step.Adopt? || step.Submit? || step.Edit?)
    ensures IdleSafe(Then(w, step))
  {
    var w' := Then(w, step);
    if step.Edit? {
      SettingUpdates(w.r.pups[step.id], step.updates);
    }
    forall id | id in w'.r.pups && w'.r.pups[id].installation == Installing
      ensures InstallPending(w'.pending, id)
    {
      if id in w.r.pups && w.r.pups[id].installation == Installing {
        var i :| IsInstallOf(w.pending, i, id);
        assert IsInstallOf(w'.pending, i, id);
      } else {
        assert IsInstallOf(w'.pending, |w.pending|, id);
      }
    }
  }

  /** This job is not an install that a pup still installing waits for, or another
      install of the same pup stands elsewhere in the queue. */
  ghost predicate SafeCancel(w: World, k: nat)
    requires k < |w.pending|
  {
    var job := w.pending[k];
    job.kind.Install? && job.copy.id in w.r.pups && w.r.pups[job.copy.id].installation == Installing ==>
      exists i :: i != k && IsInstallOf(w.pending, i, job.copy.id)
  }

  /** Deleting a queued job keeps the guarantee exactly when that is safe. */
  lemma CancelKeepsIdleSafe(w: World, step: WorldStep)
    requires IdleSafe(w) && step.Cancel? && Possible(w, step)
    ensures IdleSafe(Then(w, step)) <==> SafeCancel(w, step.index)
  {
    var k := step.index;
    var left := Then(w, step).pending;
    forall id
      ensures InstallPending(left, id) <==> exists i :: i != k && IsInstallOf(w.pending, i, id)
    {
      PendingWithout(w.pending, k, id);
    }
    forall id | InstallPending(w.pending, id) && !IsInstallOf(w.pending, k, id)
      ensures InstallPending(left, id)
    {
      var i :| IsInstallOf(w.pending, i, id);
      assert i != k;
    }
  }

  lemma PendingWithout(pending: seq<Pending>, k: nat, id: PupId)
    requires k < |pending|
    ensures InstallPending(pending[..k] + pending[k + 1..], id) <==> exists i :: i != k && IsInstallOf(pending, i, id)
  {
    var left := pending[..k] + pending[k + 1..];
    if i :| i != k && IsInstallOf(pending, i, id) {
      assert IsInstallOf(left, if i < k then i else i - 1, id);
    }
    if i :| IsInstallOf(left, i, id) {
      var at := if i < k then i else i + 1;
      assert at != k && IsInstallOf(pending, at, id);
    }
  }

  /** No state file was left in the middle of a job. */
  ghost predicate FilesAtRest(files: map<PupId, PupState>) {
    forall id <- files :: !MidJob(files[id].installation)
  }

  /** A restart repairs interrupted installs only: it is safe exactly when no state
      file was left upgrading, uninstalling or purging. */
  lemma RestartIsSafe(w: World, step: WorldStep)
    requires step.Restart? && Possible(w, step)
    ensures IdleSafe(Then(w, step)) <==> FilesAtRest(w.files)
  {
    var w' := Then(w, step);
    assert w'.r.pups.Keys == w.files.Keys;
    forall id | id in w.files
      ensures !MidJob(w'.r.pups[id].installation) <==> !MidJob(w.files[id].installation)
      ensures w'.r.pups[id].installation != Installing
    {
      RecoveredIsSettled(w.files, id);
    }
  }

  lemma RecoveredIsSettled(files: map<PupId, PupState>, id: PupId)
    requires id in files
    ensures MidJob(Recovered(files)[id].installation) <==> MidJob(files[id].installation)
    ensures Recovered(files)[id].installation != Installing
  {
    assert Recovered(files)[id] == Recover(files[id]);
  }

  /** A run whose deletions of queued jobs and restarts are safe where they happen. */
  ghost predicate SafeRun(w: World, steps: seq<WorldStep>)
    decreases |steps|
  {
    steps == [] || (Possible(w, steps[0]) && (steps[0].Cancel? ==> SafeCancel(w, steps[0].index)) &&
                    (steps[0].Restart? ==> FilesAtRest(w.files)) && SafeRun(Then(w, steps[0]), steps[1..]))
  }

  /** Over every such run, whichever external steps fail: between two jobs no pup is
      upgrading, uninstalling or purging, and one that is installing still has its
      install pending. */
  lemma {:induction false} RunsAreIdleSafe(w: World, steps: seq<WorldStep>, end: World)
    requires IdleSafe(w) && WorldRun(w, steps, end) && SafeRun(w, steps)
    ensures IdleSafe(end)
    decreases |steps|
  {
    if steps != [] {
      StepKeepsIdleSafe(w, steps[0]);
      RunsAreIdleSafe(Then(w, steps[0]), steps[1..], end);
    }
  }

  lemma StepKeepsIdleSafe(w: World, step: WorldStep)
    requires IdleSafe(w) && Possible(w, step) && (step.Cancel? ==> SafeCancel(w, step.index))
    requires step.Restart? ==> FilesAtRest(w.files)
    ensures IdleSafe(Then(w, step))
  {
    if step.Execute? {
      ExecuteKeepsIdleSafe(w, step);
    } else if step.Cancel? {
      CancelKeepsIdleSafe(w, step);
    } else if step.Restart? {
      RestartIsSafe(w, step);
    } else {
      QueueKeepsIdleSafe(w, step);
    }
  }

  // ------------------------------------------------------------------
  // Restarts between jobs
  // ------------------------------------------------------------------

  /** What a start would read of the job's pup is what the manager has now, or what
      the start would have read before the job. */
  ghost predicate LeavesFile(w: World, step: WorldStep)
    requires step.Execute?
  {
    var id := step.shown.id;
    id in step.files ==> Stored(step.files, step.r.pups, id) || (id in w.files && step.files[id] == w.files[id])
  }

  /** Settings that were written are there after a restart, and those that could not be
      written are not. */
  lemma WrittenSettingsSurvive(w: World, edit: WorldStep, restart: WorldStep)
    requires edit.Edit? && Possible(w, edit) && restart.Restart? && Possible(Then(w, edit), restart)
    ensures var back := Then(Then(w, edit), restart).r.pups;
            && (edit.written ==> edit.id in back && back[edit.id] == Recover(Then(w, edit).r.pups[edit.id]))
            && (!edit.written && edit.id in w.files ==> edit.id in back && back[edit.id] == Recover(w.files[edit.id]))
            && Then(w, edit).r.pups[edit.id] == ApplyUpdates(w.r.pups[edit.id], edit.updates)
  {
    forall i | i in Then(w, edit).files
      ensures Recovered(Then(w, edit).files)[i] == Recover(Then(w, edit).files[i])
    {}
  }

  /** A run that deletes queued jobs safely, and whose jobs leave the files like that. */
  ghost predicate SavingRun(w: World, steps: seq<WorldStep>)
    decreases |steps|
  {
    steps == [] || (Possible(w, steps[0]) && (steps[0].Cancel? ==> SafeCancel(w, steps[0].index)) &&
                    (steps[0].Execute? ==> LeavesFile(w, steps[0])) && SavingRun(Then(w, steps[0]), steps[1..]))
  }

  /** Over every such run restarts may come at any time. */
  lemma {:induction false} SavingRunsAreIdleSafe(w: World, steps: seq<WorldStep>, end: World)
    requires IdleSafe(w) && FilesAtRest(w.files) && WorldRun(w, steps, end) && SavingRun(w, steps)
    ensures IdleSafe(end) && FilesAtRest(end.files)
    decreases |steps|
  {
    if steps != [] {
      StepKeepsIdleSafe(w, steps[0]);
      StepKeepsFilesAtRest(w, steps[0]);
      SavingRunsAreIdleSafe(Then(w, steps[0]), steps[1..], end);
    }
  }

  lemma StepKeepsFilesAtRest(w: World, step: WorldStep)
    requires IdleSafe(w) && FilesAtRest(w.files) && Possible(w, step) && (step.Execute? ==> LeavesFile(w, step))
    ensures FilesAtRest(Then(w, step).files)
  {
    if step.Edit? {
      SettingUpdates(w.r.pups[step.id], step.updates);
    } else if step.Execute? {
      ExecuteKeepsIdleSafe(w, step);
      forall id | id in step.files && id != step.shown.id
        ensures id in w.files && step.files[id] == w.files[id]
      {
        OtherFileStays(w.files, step.files, step.shown.id, id);
      }
    }
  }

  lemma OtherFileStays(files: map<PupId, PupState>, files': map<PupId, PupState>, id: PupId, other: PupId)
    requires SavesOnly(files, files', id) && other != id && other in files'
    ensures other in files && files'[other] == files[other]
  {
    assert other in files' - {id} && (files' - {id})[other] == (files - {id})[other];
  }

  /** Of the successful jobs only a purge does not: when its file is still there. */
  lemma SuccessLeavesFileIff(w: World, step: WorldStep)
    requires FilesAtRest(w.files) && step.Execute? && Possible(w, step) && step.exit.Success?
    ensures LeavesFile(w, step) <==> !(w.pending[0].kind.Purge? && step.shown.id in step.files)
  {}

  /** Then every restart brings the purged pup back, purging for good. */
  lemma LeftoverComesBackPurging(w: World, step: WorldStep, restart: WorldStep)
    requires step.Execute? && Possible(w, step) && step.exit.Success? && w.pending[0].kind.Purge?
    requires step.shown.id in step.files && restart.Restart? && Possible(Then(w, step), restart)
    ensures step.shown.id !in step.r.pups
    ensures var r := Then(Then(w, step), restart).r;
            step.shown.id in r.pups && r.pups[step.shown.id].installation.Purging?
  {}

  // ------------------------------------------------------------------
  // An upgrade and its rollback in a run
  // ------------------------------------------------------------------

  /** A run in which no job of this pup runs that could change more than its
      settings. */
  ghost predicate Spares(w: World, steps: seq<WorldStep>, id: PupId)
    decreases |steps|
  {
    steps == [] ||
    (Possible(w, steps[0]) && !steps[0].Restart?
     && (steps[0].Execute? && w.pending[0].copy.id == id ==> w.pending[0].kind.Switch?)
     && Spares(Then(w, steps[0]), steps[1..], id))
  }

  lemma {:induction false} SparedPupKeepsAllButSettings(w: World, steps: seq<WorldStep>, end: World, id: PupId)
    requires WorldRun(w, steps, end) && Spares(w, steps, id)
    requires id in w.r.pups && id in w.r.snapshots
    ensures id in end.r.pups && OnlySettingsChanged(w.r.pups[id], end.r.pups[id])
    ensures id in end.r.snapshots && end.r.snapshots[id] == w.r.snapshots[id]
    decreases |steps|
  {
    if steps != [] {
      SparingStep(w, steps[0], id);
      SparedPupKeepsAllButSettings(Then(w, steps[0]), steps[1..], end, id);
    }
  }

  lemma SparingStep(w: World, step: WorldStep, id: PupId)
    requires Possible(w, step) && !step.Restart? && id in w.r.pups && id in w.r.snapshots
    requires step.Execute? && w.pending[0].copy.id == id ==> w.pending[0].kind.Switch?
    ensures var r := Then(w, step).r;
            && id in r.pups && OnlySettingsChanged(w.r.pups[id], r.pups[id])
            && id in r.snapshots && r.snapshots[id] == w.r.snapshots[id]
  {
    if step.Edit? && step.id == id {
      SettingUpdates(w.r.pups[id], step.updates);
    } else if step.Execute? && step.shown.id != id {
      JobSettlesItsPup(w.pending[0].kind, step.shown, w.r, step.r, step.exit, step.dropped);
      assert id in step.r.snapshots - {step.shown.id} <==> id in w.r.snapshots - {step.shown.id};
      assert (step.r.snapshots - {step.shown.id})[id] == (w.r.snapshots - {step.shown.id})[id];
    }
  }

  /** The process is not restarted. */
  ghost predicate OneLife(steps: seq<WorldStep>) {
    forall step <- steps :: !step.Restart?
  }

  ghost predicate KeepsMaps(p: PupState, q: PupState) {
    (p.config.Settings? ==> q.config.Settings?) && (p.providers.Settings? ==> q.providers.Settings?)
  }

  lemma UpgradeKeepsMaps(r: Registry, r': Registry, s: PupState, target: string, m: Manifest, exit: Exit)
    requires UpgradeDid(r, r', s, target, m, exit) && s.id in r.pups
    ensures s.id in r'.pups && KeepsMaps(r.pups[s.id], r'.pups[s.id])
  {
    UpgradeKeepsSettings(r, r', s, target, m, exit);
  }

  lemma RollbackKeepsMaps(r: Registry, r': Registry, id: PupId, exit: Exit, dropped: bool)
    requires RollbackDid(r, r', id, exit, dropped) && id in r.pups
    ensures id in r'.pups && KeepsMaps(r.pups[id], r'.pups[id])
  {
    if !exit.Refused? {
      assert KeepsMaps(r.pups[id], RollbackOutcome(r.pups[id], r.snapshots[id], exit));
    }
  }

  lemma SimpleJobKeepsMaps(kind: Kind, s: PupState, r: Registry, r': Registry, exit: Exit, dropped: bool)
    requires Did(kind, s, r, r', exit, dropped) && s.id in r.pups && s.id in r'.pups
    requires !kind.Upgrade? && !kind.Rollback?
    ensures KeepsMaps(r.pups[s.id], r'.pups[s.id])
  {}

  lemma JobKeepsMaps(kind: Kind, s: PupState, r: Registry, r': Registry, exit: Exit, dropped: bool, id: PupId)
    requires Did(kind, s, r, r', exit, dropped) && id in r.pups && id in r'.pups
    ensures KeepsMaps(r.pups[id], r'.pups[id])
  {
    if id != s.id {
      JobSettlesItsPup(kind, s, r, r', exit, dropped);
    } else if kind.Upgrade? {
      UpgradeKeepsMaps(r, r', s, kind.target, kind.manifest, exit);
    } else if kind.Rollback? {
      RollbackKeepsMaps(r, r', id, exit, dropped);
    } else {
      SimpleJobKeepsMaps(kind, s, r, r', exit, dropped);
    }
  }

  lemma {:induction false} GoneStaysGone(w: World, steps: seq<WorldStep>, end: World, id: PupId)
    requires WorldRun(w, steps, end) && OneLife(steps) && id in w.gone && id !in w.r.pups
    ensures id !in end.r.pups
    decreases |steps|
  {
    if steps != [] {
      if steps[0].Execute? {
        JobSettlesItsPup(w.pending[0].kind, steps[0].shown, w.r, steps[0].r, steps[0].exit, steps[0].dropped);
      }
      GoneStaysGone(Then(w, steps[0]), steps[1..], end, id);
    }
  }

  /** A map that a pup has is never replaced as long as the process lives: this is why
      a copy that has it shows the live one. */
  lemma {:induction false} MapsStay(w: World, steps: seq<WorldStep>, end: World, id: PupId)
    requires WorldRun(w, steps, end) && OneLife(steps) && id in w.r.pups && id in end.r.pups
    ensures KeepsMaps(w.r.pups[id], end.r.pups[id])
    decreases |steps|
  {
    if steps != [] {
      var step, w' := steps[0], Then(w, steps[0]);
      if id !in w'.r.pups {
        GoneStaysGone(w', steps[1..], end, id);
      } else {
        if step.Execute? {
          JobKeepsMaps(w.pending[0].kind, step.shown, w.r, step.r, step.exit, step.dropped, id);
        } else if step.Edit? {
          UpdatesKeepIdentity(w.r.pups[step.id], step.updates);
        }
        MapsStay(w', steps[1..], end, id);
      }
    }
  }

  /** An upgrade is dispatched at `w0`, runs from `w1` and is rolled back from `w3`,
      with any run in between, in which other jobs run and settings change, as long
      as no other job of the pup replaces what the upgrade left. Then version,
      manifest and enabled flag go back to the dispatch; config and providers go back
      to what they were when the upgrade ran, or to nothing if the pup had no such
      map at the dispatch. */
  lemma RollbackOverRuns(w0: World, id: PupId, target: string, m: Manifest, before: seq<WorldStep>, w1: World,
                         up: WorldStep, between: seq<WorldStep>, w3: World, back: WorldStep)
    requires id in w0.r.pups && WorldRun(Then(w0, Submit(Upgrade(target, m), id)), before, w1) && OneLife(before)
    requires up.Execute? && Possible(w1, up) && !up.exit.Refused? && id in w1.r.pups
    requires w1.pending[0] == Pending(Upgrade(target, m), w0.r.pups[id]) && w0.r.pups[id].id == id
    requires WorldRun(Then(w1, up), between, w3) && Spares(Then(w1, up), between, id)
    requires back.Execute? && Possible(w3, back) && back.exit.Success?
    requires w3.pending[0].kind.Rollback? && w3.pending[0].copy.id == id
    ensures var copy, live := w0.r.pups[id], w1.r.pups[id];
            && KeepsMaps(copy, live)
            && id in w3.r.pups && id in Then(w3, back).r.pups
            && BackFrom(w3.r.pups[id], Then(w3, back).r.pups[id], copy, SavedConfig(copy, live),
                        SavedProviders(copy, live))
  {
    var copy, live := w0.r.pups[id], w1.r.pups[id];
    MapsStay(Then(w0, Submit(Upgrade(target, m), id)), before, w1, id);
    var w2 := Then(w1, up);
    assert UpgradeDid(w1.r, w2.r, Shown(copy, live), target, m, up.exit);
    SparedPupKeepsAllButSettings(w2, between, w3, id);
    RollbackRestores(w1.r, w2.r, w3.r, back.r, copy, target, m, up.exit, back.dropped);
  }
}
