/** Install, uninstall, purge, upgrade and rollback as the updater runs them, with
    an exit at each step that can fail (pkg/system/updater.go). Downloads, hash
    checks, _dbxroot commands and nix applies succeed or fail freely. */
module Updater {
  import opened Wrappers
  import opened Events
  import opened Pups

  /** The steps of the jobs: at those of the first three lines a job can fail and
      mark its pup broken; the others are tolerated, or refuse the job. */
  datatype Step =
    | MarkInstalling | MarkUninstalling | MarkUninstalled | MarkPurging | MarkUpgrading
    | Download | VerifyHash | CreateStorage | MakeDelegate | WriteKey | WriteConfig | Enable | ApplyNix
    | FetchManifest | SetTarget | RemoveFromNix | MarkReady | AddBack | RestoreState
    | Stop | TakeSnapshot | ReadSnapshot | DropSnapshot | CleanContainer | AwaitContainer | StartContainer
    | RemoveState | RemoveSource | RemoveStorage | ForgetPup

  function Reason(at: Step): string {
    match at
    case Download => "download_failed"
    case VerifyHash => "nix_hash_mismatch"
    case CreateStorage | WriteConfig => "storage_creation_failed"
    case MakeDelegate => "delegate_key_creation_failed"
    case WriteKey => "delegate_key_write_failed"
    case Enable => "enable_failed"
    case ApplyNix | RemoveFromNix | AddBack => "nix_apply_failed"
    case FetchManifest => "manifest_fetch_failed"
    case _ => "state_update_failed"
  }

  /** `Refused` is an error returned before the pup's state was touched on its
      account, and without marking it broken. */
  datatype Exit = Success | Failed(at: Step) | Refused

  function MarkedBroken(p: PupState, at: Step): PupState {
    p.(installation := Broken, brokenReason := Reason(at))
  }

  // The steps at which each job can fail.

  predicate FilesFail(at: Step) {
    at.Download? || at.VerifyHash? || at.CreateStorage? || at.MakeDelegate? || at.WriteKey? || at.WriteConfig?
  }

  predicate LateInstallFails(at: Step) {
    at.Enable? || at.ApplyNix? || at.MarkReady?
  }

  predicate InstallFails(at: Step) {
    at.MarkInstalling? || FilesFail(at) || LateInstallFails(at)
  }

  predicate UninstallFails(at: Step) {
    at.MarkUninstalling? || at.ApplyNix? || at.MarkUninstalled?
  }

  predicate SwitchFails(at: Step) {
    at.Enable? || at.Stop? || at.ApplyNix?
  }

  predicate BuildFails(at: Step) {
    at.Download? || at.VerifyHash? || at.WriteConfig? || at.ApplyNix? || at.RemoveFromNix?
  }

  predicate UpgradeFails(at: Step) {
    at.FetchManifest? || at.SetTarget? || BuildFails(at) || at.MarkReady? || at.AddBack?
  }

  predicate RollbackFails(at: Step) {
    at.MarkUpgrading? || at.Download? || at.RestoreState? || at.WriteConfig? || at.MarkReady? || at.ApplyNix?
  }

  // ------------------------------------------------------------------
  // What each job does
  // ------------------------------------------------------------------

  /** Only this pup may differ, and it is `p` now; a pup unknown to the manager
      stays unknown. */
  ghost predicate Becomes(r: Registry, r': Registry, id: PupId, p: PupState) {
    r'.pups == if id in r.pups then r.pups[id := p] else r.pups
  }

  /** What a job did to the state files: no other file changed, and after a success the
      file is what the manager has. */
  ghost predicate FilesDid(files: map<PupId, PupState>, files': map<PupId, PupState>, pups': map<PupId, PupState>,
                           id: PupId, exit: Exit)
  {
    SavesOnly(files, files', id) && (exit.Success? ==> Stored(files', pups', id))
  }

  ghost predicate Stored(files: map<PupId, PupState>, pups: map<PupId, PupState>, id: PupId) {
    id in files && id in pups && files[id] == pups[id]
  }

  /** A purge goes on when it cannot remove the file, which then says so. */
  ghost predicate PurgeFilesDid(files: map<PupId, PupState>, files': map<PupId, PupState>, id: PupId, exit: Exit) {
    SavesOnly(files, files', id) && (exit.Success? && id in files' ==> files'[id].installation.Purging?)
  }

  ghost predicate InstallDid(r: Registry, r': Registry, id: PupId, exit: Exit) {
    && r'.snapshots == r.snapshots
    && !exit.Refused?
    && (exit.Failed? ==> InstallFails(exit.at))
    && (id !in r.pups ==> r' == r && exit == Failed(MarkInstalling))
    && (id in r.pups ==>
          var p := r.pups[id];
          var reached := exit.Success? || LateInstallFails(exit.at);
          var p1 := p.(enabled := p.enabled || reached);
          Becomes(r, r', id, if exit.Success? then p1.(installation := Ready) else MarkedBroken(p1, exit.at)))
  }

  ghost predicate UninstallDid(r: Registry, r': Registry, id: PupId, exit: Exit) {
    && r'.snapshots == r.snapshots
    && !exit.Refused?
    && (exit.Failed? ==> UninstallFails(exit.at))
    && (id !in r.pups ==> r' == r && exit == Failed(MarkUninstalling))
    && (id in r.pups ==>
          var p := r.pups[id].(enabled := false);
          Becomes(r, r', id, if exit.Success? then p.(installation := Uninstalled) else MarkedBroken(p, exit.at)))
  }

  /** The copy taken at dispatch decides whether the purge is allowed. */
  ghost predicate PurgeDid(r: Registry, r': Registry, s: PupState, exit: Exit) {
    && r'.snapshots == r.snapshots
    && (exit.Refused? <==> s.installation != Uninstalled)
    && (exit.Refused? ==> r' == r)
    && (exit.Failed? ==> exit.at == MarkPurging)
    && (s.id !in r.pups ==> r' == r && !exit.Success?)
    && (exit.Success? ==> r'.pups == r.pups - {s.id})
    && (exit.Failed? && s.id in r.pups ==>
          Becomes(r, r', s.id, MarkedBroken(r.pups[s.id].(enabled := false), MarkPurging)))
  }

  /** The pup once the upgrade has tried to stop it. */
  function Stopped(p: PupState, wasEnabled: bool): PupState {
    p.(enabled := p.enabled && !wasEnabled)
  }

  /** `s` is the copy taken at dispatch; it is what the snapshot captures. */
  ghost predicate UpgradeDid(r: Registry, r': Registry, s: PupState, target: string, m: Manifest, exit: Exit) {
    && (exit.Failed? ==> UpgradeFails(exit.at))
    && r'.snapshots == (if exit.Refused? then r.snapshots else r.snapshots[s.id := SnapshotOf(s)])
    && (s.id !in r.pups ==> r'.pups == r.pups && !exit.Success?)
    && (s.id in r.pups ==>
          Becomes(r, r', s.id, UpgradeOutcome(Stopped(r.pups[s.id], s.enabled), s.enabled, target, m, exit)))
  }

  function UpgradeOutcome(p: PupState, wasEnabled: bool, target: string, m: Manifest, exit: Exit): PupState {
    var targeted := p.(version := target, manifest := m);
    var back := targeted.(enabled := targeted.enabled || wasEnabled);
    match exit
    case Refused => p
    case Success => back.(installation := Ready)
    case Failed(at) =>
      if at == FetchManifest then MarkedBroken(p, at)
      else if at == MarkReady || at == AddBack then MarkedBroken(back, at)
      else MarkedBroken(targeted, at)
  }

  /** The pup with everything put back that a snapshot can put back. */
  function Restored(p: PupState, snap: Snapshot): PupState {
    p.(version := snap.version, manifest := snap.manifest,
       config := Settings(MergedConfig(p.config.All(), snap.config, snap.manifest.configFields)), configSaved := true,
       providers := Settings(p.providers.All() + snap.providers))
  }

  /** `dropped` tells whether the snapshot could be deleted at the end. */
  ghost predicate RollbackDid(r: Registry, r': Registry, id: PupId, exit: Exit, dropped: bool) {
    && (exit.Failed? ==> RollbackFails(exit.at))
    && (exit.Refused? ==> r' == r)
    && (id !in r.snapshots ==> exit.Refused?)
    && r'.snapshots == (if dropped then r.snapshots - {id} else r.snapshots)
    && (dropped ==> exit.Success?)
    && (id !in r.pups ==> r'.pups == r.pups && !exit.Success?)
    && (!exit.Refused? && id in r.pups ==>
          Becomes(r, r', id, RollbackOutcome(r.pups[id], r.snapshots[id], exit)))
  }

  function RollbackOutcome(p: PupState, snap: Snapshot, exit: Exit): PupState {
    var back := Restored(p, snap).(enabled := p.enabled || snap.enabled);
    match exit
    case Refused => p
    case Success => back.(installation := Ready)
    case Failed(at) =>
      if at == MarkUpgrading || at == Download then MarkedBroken(p, at)
      else if at == MarkReady || at == ApplyNix then MarkedBroken(back, at)
      else MarkedBroken(Restored(p, snap), at)
  }

  lemma RollbackOverwritesInstallation(p: PupState, snap: Snapshot, exit: Exit)
    requires !exit.Refused?
    ensures RollbackOutcome(p.(installation := Upgrading), snap, exit) == RollbackOutcome(p, snap, exit)
  {}

  lemma OutcomeOfFinish(p: PupState, snap: Snapshot, exit: Exit)
    requires exit == Success || exit == Failed(MarkReady) || exit == Failed(ApplyNix)
    ensures var restored := Restored(p, snap);
            var back := restored.(enabled := restored.enabled || snap.enabled);
            RollbackOutcome(p, snap, exit) ==
            if exit.Success? then back.(installation := Ready) else MarkedBroken(back, exit.at)
  {}

  lemma OutcomeOfUpgradeEnd(p: PupState, wasEnabled: bool, target: string, m: Manifest, exit: Exit)
    requires exit.Success? || (exit.Failed? && (BuildFails(exit.at) || exit.at.MarkReady? || exit.at.AddBack?))
    ensures var targeted := p.(installation := Upgrading, version := target, manifest := m);
            var back := targeted.(enabled := targeted.enabled || wasEnabled);
            UpgradeOutcome(p, wasEnabled, target, m, exit) ==
            if exit.Success? then back.(installation := Ready)
            else if exit.at == MarkReady || exit.at == AddBack then MarkedBroken(back, exit.at)
            else MarkedBroken(targeted, exit.at)
  {}

  /** Enabling and disabling change the live pup first, and mark nothing broken. */
  ghost predicate EnableDid(r: Registry, r': Registry, id: PupId, enabled: bool, exit: Exit) {
    && !exit.Refused? && (exit.Failed? ==> SwitchFails(exit.at))
    && (exit == Failed(Stop) ==> !enabled)
    && r'.snapshots == r.snapshots && (id !in r.pups ==> r' == r && exit == Failed(Enable))
    && (id in r.pups ==> Becomes(r, r', id, r.pups[id].(enabled := enabled)))
  }

  lemma UpdatedTwice(pups: map<PupId, PupState>, id: PupId, p: PupState, q: PupState)
    ensures pups[id := p][id := q] == pups[id := q]
  {}

  // ------------------------------------------------------------------
  // The order of the steps
  // ------------------------------------------------------------------

  /** A job, with whether the pup is being enabled or was enabled before. */
  datatype Plan =
    | ToInstall | ToUninstall | ToPurge | ToSwitch(enabled: bool) | ToUpgrade(wasEnabled: bool)
    | ToRollBack(wasEnabled: bool)

  /** The steps of each job, from 0. */
  function StepAt(plan: Plan, k: int): Option<Step> {
    match plan
    case ToInstall => InstallStep(k)
    case ToUninstall => UninstallStep(k)
    case ToPurge => PurgeStep(k)
    case ToSwitch(enabled) => if enabled then EnableStep(k) else DisableStep(k)
    case ToUpgrade(wasEnabled) => if wasEnabled then UpgradeEnabledStep(k) else UpgradeStep(k)
    case ToRollBack(wasEnabled) => if wasEnabled then RollBackEnabledStep(k) else RollBackStep(k)
  }

  function Size(plan: Plan): (n: nat)
    ensures StepAt(plan, n).None? && forall k :: 0 <= k < n ==> StepAt(plan, k).Some?
  {
    match plan
    case ToInstall => 11
    case ToUninstall => 3
    case ToPurge => 5
    case ToSwitch(enabled) => if enabled then 2 else 3
    case ToUpgrade(wasEnabled) => if wasEnabled then 13 else 8
    case ToRollBack(wasEnabled) => if wasEnabled then 10 else 9
  }

  function InstallStep(k: int): Option<Step> {
    match k
    case 0 => Some(MarkInstalling)
    case 1 => Some(Download)
    case 2 => Some(VerifyHash)
    case 3 => Some(CreateStorage)
    case 4 => Some(MakeDelegate)
    case 5 => Some(WriteKey)
    case 6 => Some(WriteKey)
    case 7 => Some(WriteConfig)
    case 8 => Some(Enable)
    case 9 => Some(ApplyNix)
    case 10 => Some(MarkReady)
    case _ => None
  }

  function UninstallStep(k: int): Option<Step> {
    match k
    case 0 => Some(MarkUninstalling)
    case 1 => Some(ApplyNix)
    case 2 => Some(MarkUninstalled)
    case _ => None
  }

  function PurgeStep(k: int): Option<Step> {
    match k
    case 0 => Some(MarkPurging)
    case 1 => Some(RemoveState)
    case 2 => Some(RemoveSource)
    case 3 => Some(RemoveStorage)
    case 4 => Some(ForgetPup)
    case _ => None
  }

  function EnableStep(k: int): Option<Step> {
    match k
    case 0 => Some(Enable)
    case 1 => Some(ApplyNix)
    case _ => None
  }

  function DisableStep(k: int): Option<Step> {
    match k
    case 0 => Some(Enable)
    case 1 => Some(Stop)
    case 2 => Some(ApplyNix)
    case _ => None
  }

  function UpgradeEnabledStep(k: int): Option<Step> {
    match k
    case 0 => Some(Stop)
    case 1 => Some(TakeSnapshot)
    case 2 => Some(FetchManifest)
    case 3 => Some(SetTarget)
    case 4 => Some(Download)
    case 5 => Some(VerifyHash)
    case 6 => Some(WriteConfig)
    case 7 => Some(ApplyNix)
    case 8 => Some(RemoveFromNix)
    case 9 => Some(CleanContainer)
    case 10 => Some(MarkReady)
    case 11 => Some(AddBack)
    case 12 => Some(AwaitContainer)
    case _ => None
  }

  function UpgradeStep(k: int): Option<Step> {
    match k
    case 0 => Some(TakeSnapshot)
    case 1 => Some(FetchManifest)
    case 2 => Some(SetTarget)
    case 3 => Some(Download)
    case 4 => Some(VerifyHash)
    case 5 => Some(WriteConfig)
    case 6 => Some(ApplyNix)
    case 7 => Some(MarkReady)
    case _ => None
  }

  function RollBackEnabledStep(k: int): Option<Step> {
    match k
    case 0 => Some(ReadSnapshot)
    case 1 => Some(Stop)
    case 2 => Some(MarkUpgrading)
    case 3 => Some(Download)
    case 4 => Some(RestoreState)
    case 5 => Some(WriteConfig)
    case 6 => Some(MarkReady)
    case 7 => Some(ApplyNix)
    case 8 => Some(StartContainer)
    case 9 => Some(DropSnapshot)
    case _ => None
  }

  function RollBackStep(k: int): Option<Step> {
    match k
    case 0 => Some(ReadSnapshot)
    case 1 => Some(Stop)
    case 2 => Some(MarkUpgrading)
    case 3 => Some(Download)
    case 4 => Some(RestoreState)
    case 5 => Some(WriteConfig)
    case 6 => Some(MarkReady)
    case 7 => Some(ApplyNix)
    case 8 => Some(DropSnapshot)
    case _ => None
  }

  // ------------------------------------------------------------------
  // SystemUpdater
  // ------------------------------------------------------------------

  class SystemUpdater {
    const pups: PupManager
    ghost var plan: Plan  // the job at hand,
    ghost var pos: nat    // how many of its steps have been carried out,
    ghost var copy: PupState                 // its copy of the pup,
    ghost var began: map<PupId, PupState>    // and the pups when it began

    constructor (pups: PupManager)
      ensures this.pups == pups
    {
      this.pups := pups;
      plan, pos := ToInstall, 0;
    }

    /** So far, `n` steps of this plan. */
    ghost predicate Standing(whole: Plan, n: nat)
      reads this
    {
      plan == whole && pos == n
    }

    /** The job has carried out this plan in order and without a gap: the first `n`
        steps on success, and up to the failing one on failure. */
    ghost predicate Followed(whole: Plan, n: nat, exit: Exit)
      reads this
    {
      && plan == whole && pos <= n
      && (exit.Success? ==> pos == n)
      && (exit.Failed? ==> StepAt(plan, pos - 1) == Some(exit.at))
    }

    /** The snapshot of the job's copy is stored. */
    ghost predicate Covered(s: PupState)
      reads this, pups
    {
      copy == s && s.id in pups.snapshots && pups.snapshots[s.id] == SnapshotOf(s)
    }

    /** If an upgrade has changed the version or the manifest of the live pup by now,
        then the snapshot to go back with is stored. */
    ghost predicate Recoverable()
      reads this, pups
    {
      plan.ToUpgrade? && copy.id in pups.state && copy.id in began
      && (pups.state[copy.id].version != began[copy.id].version
          || pups.state[copy.id].manifest != began[copy.id].manifest)
      ==> Covered(copy)
    }

    ghost method Begin(whole: Plan, s: PupState)
      modifies this
      ensures Standing(whole, 0) && copy == s && began == pups.state
    {
      plan, pos, copy, began := whole, 0, s, pups.state;
    }

    /** The next step of the plan is this one. No step is taken from a state that
        cannot be rolled back. */
    ghost method Take(at: Step)
      requires StepAt(plan, pos) == Some(at) && Recoverable()
      modifies this`pos
      ensures pos == old(pos) + 1
    {
      pos := pos + 1;
    }

    /** A step outside the model. */
    method Attempt(at: Step) returns (ok: bool)
      requires StepAt(plan, pos) == Some(at) && Recoverable()
      modifies this`pos
      ensures pos == old(pos) + 1
    {
      Take(at);
      ok := External();
    }

    method MarkPupBroken(s: PupState, at: Step) returns (exit: Exit)
      modifies pups
      ensures exit == Failed(at)
      ensures pups.snapshots == old(pups.snapshots)
      ensures s.id !in old(pups.state) ==> pups.state == old(pups.state)
      ensures s.id in old(pups.state) ==>
                pups.state == old(pups.state)[s.id := MarkedBroken(old(pups.state)[s.id], at)]
      ensures SavesOnly(old(pups.saved), pups.saved, s.id)
    {
      var ok := SetTwo(s, SetBrokenReason(Reason(at)), SetInstallation(Broken));
      return Failed(at);
    }

    /** One UpdatePup of the job's pup with two updates. */
    method SetTwo(s: PupState, a: Update, b: Update) returns (ok: bool)
      modifies pups
      ensures pups.snapshots == old(pups.snapshots)
      ensures s.id !in old(pups.state) ==> !ok && pups.state == old(pups.state)
      ensures s.id in old(pups.state) ==>
                pups.state == old(pups.state)[s.id := ApplyUpdate(ApplyUpdate(old(pups.state)[s.id], a), b)]
      ensures SavesOnly(old(pups.saved), pups.saved, s.id) && (ok ==> Stored(pups.saved, pups.state, s.id))
    {
      if s.id in pups.state {
        ApplyTwo(pups.state[s.id], a, b);
      }
      var r := pups.UpdatePup(s.id, [a, b]);
      ok := r.Ok?;
    }

    /** One UpdatePup of the job's pup. */
    method Set(s: PupState, update: Update) returns (ok: bool)
      modifies pups
      ensures pups.snapshots == old(pups.snapshots)
      ensures s.id !in old(pups.state) ==> !ok && pups.state == old(pups.state)
      ensures s.id in old(pups.state) ==>
                pups.state == old(pups.state)[s.id := ApplyUpdate(old(pups.state)[s.id], update)]
      ensures SavesOnly(old(pups.saved), pups.saved, s.id) && (ok ==> Stored(pups.saved, pups.state, s.id))
    {
      if s.id in pups.state {
        ApplyTwo(pups.state[s.id], update, update);
      }
      var r := pups.UpdatePup(s.id, [update]);
      ok := r.Ok?;
    }

    /** The steps of an install between its first and its second state update, up
        to the first one that fails. */
    method InstallFiles() returns (exit: Exit)
      requires Standing(ToInstall, 1)
      modifies this`pos
      ensures exit.Success? || (exit.Failed? && FilesFail(exit.at))
      ensures Followed(ToInstall, 8, exit)
    {
      var ok := Attempt(Download);
      if !ok { return Failed(Download); }
      ok := Attempt(VerifyHash);
      if !ok { return Failed(VerifyHash); }
      ok := Attempt(CreateStorage);
      if !ok { return Failed(CreateStorage); }
      ok := Attempt(MakeDelegate);
      if !ok { return Failed(MakeDelegate); }
      ok := Attempt(WriteKey);
      if !ok { return Failed(WriteKey); }
      ok := Attempt(WriteKey);
      if !ok { return Failed(WriteKey); }
      ok := Attempt(WriteConfig);
      if !ok { return Failed(WriteConfig); }
      return Success;
    }

    method InstallPup(s: PupState) returns (exit: Exit)
      modifies this, pups
      ensures InstallDid(old(pups.All()), pups.All(), s.id, exit)
      ensures Followed(ToInstall, Size(ToInstall), exit)
      ensures FilesDid(old(pups.saved), pups.saved, pups.state, s.id, exit)
    {
      Begin(ToInstall, s);
      Take(MarkInstalling);
      var ok := Set(s, SetInstallation(Installing));
      if !ok {
        exit := MarkPupBroken(s, MarkInstalling);
        return;
      }
      exit := InstallAndEnable(s);
    }

    /** The install once the pup is marked. */
    method InstallAndEnable(s: PupState) returns (exit: Exit)
      requires s.id in pups.state && Standing(ToInstall, 1)
      modifies this`pos, pups
      ensures pups.snapshots == old(pups.snapshots)
      ensures exit.Success? || (exit.Failed? && (FilesFail(exit.at) || LateInstallFails(exit.at)))
      ensures var p := old(pups.state)[s.id];
              var p1 := p.(enabled := p.enabled || exit.Success? || LateInstallFails(exit.at));
              pups.state == old(pups.state)[s.id := if exit.Success? then p1.(installation := Ready)
                                                    else MarkedBroken(p1, exit.at)]
      ensures Followed(ToInstall, Size(ToInstall), exit)
      ensures FilesDid(old(pups.saved), pups.saved, pups.state, s.id, exit)
    {
      exit := InstallFiles();
      if exit.Failed? {
        exit := MarkPupBroken(s, exit.at);
      } else {
        exit := FinishInstall(s);
      }
    }

    /** The end of an install: enabled, applied, ready. */
    method FinishInstall(s: PupState) returns (exit: Exit)
      requires s.id in pups.state && Standing(ToInstall, 8)
      modifies this`pos, pups
      ensures pups.snapshots == old(pups.snapshots)
      ensures exit in {Success, Failed(Enable), Failed(ApplyNix), Failed(MarkReady)}
      ensures var p := old(pups.state)[s.id].(enabled := true);
              pups.state == old(pups.state)[s.id := if exit.Success? then p.(installation := Ready)
                                                    else MarkedBroken(p, exit.at)]
      ensures Followed(ToInstall, Size(ToInstall), exit)
      ensures FilesDid(old(pups.saved), pups.saved, pups.state, s.id, exit)
    {
      Take(Enable);
      var ok := Set(s, SetEnabled(true));
      if !ok { exit := MarkPupBroken(s, Enable); return; }
      ok := Attempt(ApplyNix);
      if !ok { exit := MarkPupBroken(s, ApplyNix); return; }
      Take(MarkReady);
      ok := Set(s, SetInstallation(Ready));
      if !ok { exit := MarkPupBroken(s, MarkReady); return; }
      exit := Success;
    }

    method UninstallPup(s: PupState) returns (exit: Exit)
      modifies this, pups
      ensures UninstallDid(old(pups.All()), pups.All(), s.id, exit)
      ensures Followed(ToUninstall, Size(ToUninstall), exit)
      ensures FilesDid(old(pups.saved), pups.saved, pups.state, s.id, exit)
    {
      Begin(ToUninstall, s);
      Take(MarkUninstalling);
      var ok := SetTwo(s, SetInstallation(Uninstalling), SetEnabled(false));
      if !ok { exit := MarkPupBroken(s, MarkUninstalling); return; }
      exit := FinishUninstall(s);
    }

    /** The uninstall once the pup is marked. */
    method FinishUninstall(s: PupState) returns (exit: Exit)
      requires s.id in pups.state && Standing(ToUninstall, 1)
      modifies this`pos, pups
      ensures pups.snapshots == old(pups.snapshots)
      ensures exit == Success || exit == Failed(ApplyNix) || exit == Failed(MarkUninstalled)
      ensures var p := old(pups.state)[s.id];
              pups.state == old(pups.state)[s.id := if exit.Success? then p.(installation := Uninstalled)
                                                    else MarkedBroken(p, exit.at)]
      ensures Followed(ToUninstall, Size(ToUninstall), exit)
      ensures FilesDid(old(pups.saved), pups.saved, pups.state, s.id, exit)
    {
      var ok := Attempt(ApplyNix);
      if !ok { exit := MarkPupBroken(s, ApplyNix); return; }
      Take(MarkUninstalled);
      ok := Set(s, SetInstallation(Uninstalled));
      if !ok { exit := MarkPupBroken(s, MarkUninstalled); return; }
      exit := Success;
    }

    method PurgePup(s: PupState) returns (exit: Exit)
      modifies this, pups
      ensures PurgeDid(old(pups.All()), pups.All(), s, exit)
      ensures Followed(ToPurge, Size(ToPurge), exit) && (exit.Refused? ==> pos == 0)
      ensures PurgeFilesDid(old(pups.saved), pups.saved, s.id, exit)
    {
      Begin(ToPurge, s);
      if s.installation != Uninstalled {
        return Refused;
      }
      Take(MarkPurging);
      var ok := SetTwo(s, SetInstallation(Purging), SetEnabled(false));
      if !ok { exit := MarkPupBroken(s, MarkPurging); return; }
      RemoveEverything(s);
      exit := Success;
    }

    /** The removals of a purge: each may fail, and it goes on. */
    method RemoveEverything(s: PupState)
      requires Standing(ToPurge, 1)
      modifies this`pos, pups
      ensures pups.snapshots == old(pups.snapshots) && pups.state == old(pups.state) - {s.id}
      ensures Followed(ToPurge, Size(ToPurge), Success)
      ensures SavesOnly(old(pups.saved), pups.saved, s.id)
      ensures s.id in pups.saved ==> pups.saved == old(pups.saved)
    {
      OnlyOneRemoved(pups.saved, s.id);
      var removed := Attempt(RemoveState);
      if removed {
        pups.saved := pups.saved - {s.id};
      }
      removed := Attempt(RemoveSource);
      removed := Attempt(RemoveStorage);
      Take(ForgetPup);
      pups.PurgePup(s.id);
    }

    method EnablePup(s: PupState, enabled: bool) returns (exit: Exit)
      modifies this, pups
      ensures EnableDid(old(pups.All()), pups.All(), s.id, enabled, exit)
      ensures Followed(ToSwitch(enabled), Size(ToSwitch(enabled)), exit)
      ensures FilesDid(old(pups.saved), pups.saved, pups.state, s.id, exit)
    {
      Begin(ToSwitch(enabled), s);
      Take(Enable);
      var ok := Set(s, SetEnabled(enabled));
      if !ok { return Failed(Enable); }
      if !enabled {
        ok := Attempt(Stop);
        if !ok { return Failed(Stop); }
      }
      ok := Attempt(ApplyNix);
      return if ok then Success else Failed(ApplyNix);
    }

    /** `m` is the manifest that the source holds for the target version. */
    method UpgradePup(s: PupState, target: string, m: Manifest) returns (exit: Exit)
      modifies this, pups
      ensures UpgradeDid(old(pups.All()), pups.All(), s, target, m, exit)
      ensures Followed(ToUpgrade(s.enabled), Size(ToUpgrade(s.enabled)), exit)
      ensures exit.Refused? ==> pos == if s.enabled then 2 else 1
      ensures FilesDid(old(pups.saved), pups.saved, pups.state, s.id, exit)
    {
      Begin(ToUpgrade(s.enabled), s);
      var ok := StopAndSnapshot(s);
      if !ok {
        return Refused;
      }
      exit := InstallTarget(s, target, m);
    }

    method StopAndSnapshot(s: PupState) returns (ok: bool)
      requires Standing(ToUpgrade(s.enabled), 0) && copy == s && began == pups.state
      modifies this`pos, pups
      ensures Standing(ToUpgrade(s.enabled), if s.enabled then 2 else 1) && Recoverable()
      ensures pups.snapshots == if ok then old(pups.snapshots)[s.id := SnapshotOf(s)] else old(pups.snapshots)
      ensures pups.state == if s.id in old(pups.state)
                            then old(pups.state)[s.id := Stopped(old(pups.state)[s.id], s.enabled)]
                            else old(pups.state)
      ensures SavesOnly(old(pups.saved), pups.saved, s.id)
    {
      if s.enabled {
        Take(Stop);
        var stopped := pups.StopPup(s.id);  // a failure is tolerated
      }
      Take(TakeSnapshot);
      var snapshot := pups.CreateSnapshot(s);
      ok := snapshot.Ok?;
    }

    /** The upgrade once the snapshot is safe. */
    method InstallTarget(s: PupState, target: string, m: Manifest) returns (exit: Exit)
      requires Standing(ToUpgrade(s.enabled), if s.enabled then 2 else 1) && Recoverable() && Covered(s)
      modifies this`pos, pups
      ensures pups.snapshots == old(pups.snapshots)
      ensures exit.Success? || (exit.Failed? && UpgradeFails(exit.at))
      ensures s.id !in old(pups.state) ==> pups.state == old(pups.state) && !exit.Success?
      ensures s.id in old(pups.state) ==>
                pups.state == old(pups.state)[s.id := UpgradeOutcome(old(pups.state)[s.id], s.enabled, target, m, exit)]
      ensures Followed(ToUpgrade(s.enabled), Size(ToUpgrade(s.enabled)), exit)
      ensures FilesDid(old(pups.saved), pups.saved, pups.state, s.id, exit)
    {
      exit := Retarget(s, target, m);
      if exit.Success? {
        ghost var p, between := old(pups.state)[s.id], pups.state[s.id];
        exit := BuildAndFinish(s);
        OutcomeOfUpgradeEnd(p, s.enabled, target, m, exit);
        UpdatedTwice(old(pups.state), s.id, between, pups.state[s.id]);
      }
    }

    /** The version and the manifest change before any file does. */
    method Retarget(s: PupState, target: string, m: Manifest) returns (exit: Exit)
      requires Standing(ToUpgrade(s.enabled), if s.enabled then 2 else 1) && Recoverable() && Covered(s)
      modifies this`pos, pups
      ensures pups.snapshots == old(pups.snapshots)
      ensures exit == Success || exit == Failed(FetchManifest) || exit == Failed(SetTarget)
      ensures s.id !in old(pups.state) ==> !exit.Success? && pups.state == old(pups.state)
      ensures s.id in old(pups.state) ==>
                var p := old(pups.state)[s.id];
                var targeted := p.(installation := Upgrading, version := target, manifest := m);
                pups.state == old(pups.state)[s.id := if exit.Success? then targeted
                                                      else if exit.at == SetTarget then MarkedBroken(targeted, exit.at)
                                                      else MarkedBroken(p, exit.at)]
      ensures Followed(ToUpgrade(s.enabled), if s.enabled then 4 else 3, exit)
      ensures FilesDid(old(pups.saved), pups.saved, pups.state, s.id, exit)
    {
      var fetched := Attempt(FetchManifest);
      if !fetched { exit := MarkPupBroken(s, FetchManifest); return; }
      Take(SetTarget);
      exit := SetTo(s, target, m);
    }

    /** The version and the manifest in one update. */
    method SetTo(s: PupState, target: string, m: Manifest) returns (exit: Exit)
      modifies pups
      ensures pups.snapshots == old(pups.snapshots)
      ensures exit == Success || exit == Failed(SetTarget)
      ensures s.id !in old(pups.state) ==> !exit.Success? && pups.state == old(pups.state)
      ensures s.id in old(pups.state) ==>
                var targeted := old(pups.state)[s.id].(installation := Upgrading, version := target, manifest := m);
                pups.state == old(pups.state)[s.id := if exit.Success? then targeted
                                                      else MarkedBroken(targeted, SetTarget)]
      ensures FilesDid(old(pups.saved), pups.saved, pups.state, s.id, exit)
    {
      ghost var before := pups.state;
      var ok := SetThree(s, SetInstallation(Upgrading), SetVersion(target), SetManifest(m));
      if !ok {
        ghost var between := pups.state;
        exit := MarkPupBroken(s, SetTarget);
        if s.id in before {
          UpdatedTwice(before, s.id, between[s.id], MarkedBroken(between[s.id], SetTarget));
        }
        return;
      }
      exit := Success;
    }

    /** One UpdatePup of the job's pup with three updates. */
    method SetThree(s: PupState, a: Update, b: Update, c: Update) returns (ok: bool)
      modifies pups
      ensures pups.snapshots == old(pups.snapshots)
      ensures s.id !in old(pups.state) ==> !ok && pups.state == old(pups.state)
      ensures s.id in old(pups.state) ==>
                var p := old(pups.state)[s.id];
                pups.state == old(pups.state)[s.id := ApplyUpdate(ApplyUpdate(ApplyUpdate(p, a), b), c)]
      ensures SavesOnly(old(pups.saved), pups.saved, s.id) && (ok ==> Stored(pups.saved, pups.state, s.id))
    {
      if s.id in pups.state {
        ApplyFour(pups.state[s.id], a, b, c, c);
      }
      var r := pups.UpdatePup(s.id, [a, b, c]);
      ok := r.Ok?;
    }

    method BuildAndFinish(s: PupState) returns (exit: Exit)
      requires s.id in pups.state && Standing(ToUpgrade(s.enabled), if s.enabled then 4 else 3) && Covered(s)
      modifies this`pos, pups
      ensures pups.snapshots == old(pups.snapshots)
      ensures exit.Success? || (exit.Failed? && (BuildFails(exit.at) || exit.at.MarkReady? || exit.at.AddBack?))
      ensures var p := old(pups.state)[s.id];
              var back := p.(enabled := p.enabled || s.enabled);
              pups.state == old(pups.state)[s.id := if exit.Success? then back.(installation := Ready)
                                                    else if exit.at == MarkReady || exit.at == AddBack
                                                    then MarkedBroken(back, exit.at) else MarkedBroken(p, exit.at)]
      ensures Followed(ToUpgrade(s.enabled), Size(ToUpgrade(s.enabled)), exit)
      ensures FilesDid(old(pups.saved), pups.saved, pups.state, s.id, exit)
    {
      exit := BuildTarget(s.enabled);
      if exit.Failed? {
        exit := MarkPupBroken(s, exit.at);
      } else {
        exit := FinishUpgrade(s);
      }
    }

    /** Download and build the target, up to the first step that fails. Reading
        the pup back in between cannot fail: it was just updated. */
    method BuildTarget(wasEnabled: bool) returns (exit: Exit)
      requires Standing(ToUpgrade(wasEnabled), if wasEnabled then 4 else 3) && Recoverable()
      modifies this`pos
      ensures exit.Success? || (exit.Failed? && BuildFails(exit.at))
      ensures Followed(ToUpgrade(wasEnabled), if wasEnabled then 10 else 7, exit)
    {
      var ok := Attempt(Download);
      if !ok { return Failed(Download); }
      ok := Attempt(VerifyHash);
      if !ok { return Failed(VerifyHash); }
      ok := Attempt(WriteConfig);
      if !ok { return Failed(WriteConfig); }
      ok := Attempt(ApplyNix);
      if !ok { return Failed(ApplyNix); }
      if wasEnabled {
        ok := Attempt(RemoveFromNix);
        if !ok { return Failed(RemoveFromNix); }
        var cleaned := Attempt(CleanContainer);  // a failure is tolerated
      }
      return Success;
    }

    /** The end of an upgrade: ready and enabled again, then back into nix. */
    method FinishUpgrade(s: PupState) returns (exit: Exit)
      requires s.id in pups.state && Standing(ToUpgrade(s.enabled), if s.enabled then 10 else 7) && Covered(s)
      modifies this`pos, pups
      ensures pups.snapshots == old(pups.snapshots)
      ensures exit == Success || exit == Failed(MarkReady) || exit == Failed(AddBack)
      ensures var p := old(pups.state)[s.id];
              var back := p.(enabled := p.enabled || s.enabled);
              pups.state == old(pups.state)[s.id := if exit.Success? then back.(installation := Ready)
                                                    else MarkedBroken(back, exit.at)]
      ensures Followed(ToUpgrade(s.enabled), Size(ToUpgrade(s.enabled)), exit)
      ensures FilesDid(old(pups.saved), pups.saved, pups.state, s.id, exit)
    {
      Take(MarkReady);
      var ok := MakeReady(s, s.enabled);
      if !ok { exit := MarkPupBroken(s, MarkReady); return; }
      if s.enabled {
        ok := Attempt(AddBack);
        if !ok { exit := MarkPupBroken(s, AddBack); return; }
        var running := Attempt(AwaitContainer);  // a failure is tolerated
      }
      exit := Success;
    }

    /** Ready, and enabled again if it was. */
    method MakeReady(s: PupState, wasEnabled: bool) returns (ok: bool)
      requires s.id in pups.state
      modifies pups
      ensures pups.snapshots == old(pups.snapshots)
      ensures var p := old(pups.state)[s.id];
              pups.state == old(pups.state)[s.id := p.(installation := Ready, enabled := p.enabled || wasEnabled)]
      ensures SavesOnly(old(pups.saved), pups.saved, s.id) && (ok ==> Stored(pups.saved, pups.state, s.id))
    {
      var updates := [SetInstallation(Ready)];
      if wasEnabled {
        updates := updates + [SetEnabled(true)];
        assert updates == [SetInstallation(Ready), SetEnabled(true)];
      }
      ApplyTwo(pups.state[s.id], SetInstallation(Ready), SetEnabled(true));
      var r := pups.UpdatePup(s.id, updates);
      ok := r.Ok?;
    }

    method RollbackPupUpgrade(s: PupState) returns (exit: Exit, dropped: bool)
      modifies this, pups
      ensures RollbackDid(old(pups.All()), pups.All(), s.id, exit, dropped)
      ensures var whole := ToRollBack(s.id in old(pups.snapshots) && old(pups.snapshots)[s.id].enabled);
              Followed(whole, Size(whole), exit) && (exit.Refused? ==> pos == 1)
      ensures FilesDid(old(pups.saved), pups.saved, pups.state, s.id, exit)
    {
      Begin(ToRollBack(s.id in pups.snapshots && pups.snapshots[s.id].enabled), s);
      Take(ReadSnapshot);
      var found := pups.GetSnapshot(s.id);
      if found.Err? || found.value.None? {
        return Refused, false;
      }
      exit, dropped := RollBackTo(s, found.value.value);
    }

    /** The rollback once the snapshot is read. */
    method RollBackTo(s: PupState, snap: Snapshot) returns (exit: Exit, dropped: bool)
      requires Standing(ToRollBack(snap.enabled), 1)
      modifies this`pos, pups
      ensures pups.snapshots == if dropped then old(pups.snapshots) - {s.id} else old(pups.snapshots)
      ensures dropped ==> exit.Success?
      ensures exit.Success? || (exit.Failed? && RollbackFails(exit.at))
      ensures s.id !in old(pups.state) ==> pups.state == old(pups.state) && !exit.Success?
      ensures s.id in old(pups.state) ==>
                pups.state == old(pups.state)[s.id := RollbackOutcome(old(pups.state)[s.id], snap, exit)]
      ensures Followed(ToRollBack(snap.enabled), Size(ToRollBack(snap.enabled)), exit)
      ensures FilesDid(old(pups.saved), pups.saved, pups.state, s.id, exit)
    {
      dropped := false;
      exit := FetchOldVersion(s, snap.enabled);
      if exit.Success? {
        exit, dropped := RestoreAndFinish(s, snap);
        RollbackOverwritesInstallation(old(pups.state)[s.id], snap, exit);
      }
    }

    method FetchOldVersion(s: PupState, ghost wasEnabled: bool) returns (exit: Exit)
      requires Standing(ToRollBack(wasEnabled), 1)
      modifies this`pos, pups
      ensures pups.snapshots == old(pups.snapshots)
      ensures exit == Success || exit == Failed(MarkUpgrading) || exit == Failed(Download)
      ensures s.id !in old(pups.state) ==> !exit.Success? && pups.state == old(pups.state)
      ensures s.id in old(pups.state) ==>
                var p := old(pups.state)[s.id];
                pups.state == old(pups.state)[s.id := if exit.Success? then p.(installation := Upgrading)
                                                      else MarkedBroken(p, exit.at)]
      ensures Followed(ToRollBack(wasEnabled), 4, exit)
      ensures FilesDid(old(pups.saved), pups.saved, pups.state, s.id, exit)
    {
      var stopped := Attempt(Stop);  // a failure is tolerated
      Take(MarkUpgrading);
      var ok := Set(s, SetInstallation(Upgrading));
      if !ok { exit := MarkPupBroken(s, MarkUpgrading); return; }
      ok := Attempt(Download);
      if !ok { exit := MarkPupBroken(s, Download); return; }
      exit := Success;
    }

    method RestoreAndFinish(s: PupState, snap: Snapshot) returns (exit: Exit, dropped: bool)
      requires s.id in pups.state && Standing(ToRollBack(snap.enabled), 4)
      modifies this`pos, pups
      ensures pups.snapshots == if dropped then old(pups.snapshots) - {s.id} else old(pups.snapshots)
      ensures dropped ==> exit.Success?
      ensures exit.Success? || exit == Failed(RestoreState) || exit == Failed(WriteConfig) || exit == Failed(MarkReady)
              || exit == Failed(ApplyNix)
      ensures pups.state ==
              old(pups.state)[s.id := RollbackOutcome(old(pups.state)[s.id], snap, exit)]
      ensures Followed(ToRollBack(snap.enabled), Size(ToRollBack(snap.enabled)), exit)
      ensures FilesDid(old(pups.saved), pups.saved, pups.state, s.id, exit)
    {
      dropped := false;
      exit := RestoreFrom(s, snap);
      if exit.Success? {
        ghost var p := old(pups.state)[s.id];
        exit, dropped := FinishRollback(s, snap);
        OutcomeOfFinish(p, snap, exit);
        UpdatedTwice(old(pups.state), s.id, Restored(p, snap), RollbackOutcome(p, snap, exit));
      }
    }

    method RestoreFrom(s: PupState, snap: Snapshot) returns (exit: Exit)
      requires s.id in pups.state && Standing(ToRollBack(snap.enabled), 4)
      modifies this`pos, pups
      ensures pups.snapshots == old(pups.snapshots)
      ensures exit == Success || exit == Failed(RestoreState) || exit == Failed(WriteConfig)
      ensures var p := Restored(old(pups.state)[s.id], snap);
              pups.state == old(pups.state)[s.id := if exit.Success? then p else MarkedBroken(p, exit.at)]
      ensures Followed(ToRollBack(snap.enabled), 6, exit)
      ensures FilesDid(old(pups.saved), pups.saved, pups.state, s.id, exit)
    {
      Take(RestoreState);
      ApplyFour(pups.state[s.id], SetVersion(snap.version), SetManifest(snap.manifest), SetConfig(snap.config),
                SetProviders(snap.providers));
      var r := pups.UpdatePup(s.id, [SetVersion(snap.version), SetManifest(snap.manifest), SetConfig(snap.config),
                                     SetProviders(snap.providers)]);
      ghost var p := Restored(old(pups.state)[s.id], snap);
      assert pups.state == old(pups.state)[s.id := p];
      if r.Err? {
        exit := MarkPupBroken(s, RestoreState);
        UpdatedTwice(old(pups.state), s.id, p, MarkedBroken(p, RestoreState));
        return;
      }
      var ok := Attempt(WriteConfig);
      if !ok {
        exit := MarkPupBroken(s, WriteConfig);
        UpdatedTwice(old(pups.state), s.id, p, MarkedBroken(p, WriteConfig));
        return;
      }
      exit := Success;
    }

    /** The end of a rollback. */
    method FinishRollback(s: PupState, snap: Snapshot) returns (exit: Exit, dropped: bool)
      requires s.id in pups.state && Standing(ToRollBack(snap.enabled), 6)
      modifies this`pos, pups
      ensures exit == Success || exit == Failed(MarkReady) || exit == Failed(ApplyNix)
      ensures pups.snapshots == if dropped then old(pups.snapshots) - {s.id} else old(pups.snapshots)
      ensures dropped ==> exit.Success?
      ensures var p := old(pups.state)[s.id];
              var back := p.(enabled := p.enabled || snap.enabled);
              pups.state == old(pups.state)[s.id := if exit.Success? then back.(installation := Ready)
                                                    else MarkedBroken(back, exit.at)]
      ensures Followed(ToRollBack(snap.enabled), Size(ToRollBack(snap.enabled)), exit)
      ensures FilesDid(old(pups.saved), pups.saved, pups.state, s.id, exit)
    {
      dropped := false;
      Take(MarkReady);
      var ok := MakeReady(s, snap.enabled);
      ghost var ready := pups.state[s.id];
      if !ok {
        exit := MarkPupBroken(s, MarkReady);
        UpdatedTwice(old(pups.state), s.id, ready, MarkedBroken(ready, MarkReady));
        return;
      }
      ok := Attempt(ApplyNix);
      if !ok {
        exit := MarkPupBroken(s, ApplyNix);
        UpdatedTwice(old(pups.state), s.id, ready, MarkedBroken(ready, ApplyNix));
        return;
      }
      if snap.enabled {
        var started := Attempt(StartContainer);  // a failure is tolerated
      }
      Take(DropSnapshot);
      var deleted := pups.DeleteSnapshot(s.id);  // a failure is tolerated
      exit, dropped := Success, deleted.Ok?;
    }
  }
}
