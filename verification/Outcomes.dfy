/** How the updater's jobs end, exit by exit, and in what order they work
    (pkg/system/updater.go). */
module Outcomes {
  import opened Wrappers
  import opened Events
  import opened Pups
  import opened Updater
  import opened Lifecycle

  /** The reason that each failing step leaves with the pup. */
  ghost predicate Records(at: Step, reason: string) {
    if at.Download? then reason == "download_failed"
    else if at.VerifyHash? then reason == "nix_hash_mismatch"
    else if at.CreateStorage? || at.WriteConfig? then reason == "storage_creation_failed"
    else if at.MakeDelegate? then reason == "delegate_key_creation_failed"
    else if at.WriteKey? then reason == "delegate_key_write_failed"
    else if at.Enable? then reason == "enable_failed"
    else if at.ApplyNix? || at.RemoveFromNix? || at.AddBack? then reason == "nix_apply_failed"
    else if at.FetchManifest? then reason == "manifest_fetch_failed"
    else reason == "state_update_failed"
  }

  lemma ReasonIsRecorded(p: PupState, at: Step)
    ensures MarkedBroken(p, at).installation.Broken? && Records(at, MarkedBroken(p, at).brokenReason)
    ensures MarkedBroken(p, at) == p.(installation := Broken, brokenReason := MarkedBroken(p, at).brokenReason)
  {}

  /** Whatever step a job other than a switch fails at, a pup that is still known is
      broken, with that step's reason. */
  lemma FailedJobLeavesBroken(kind: Kind, s: PupState, r: Registry, r': Registry, at: Step, dropped: bool)
    requires Did(kind, s, r, r', Failed(at), dropped) && !kind.Switch? && s.id in r'.pups
    ensures r'.pups[s.id].installation == Broken && Records(at, r'.pups[s.id].brokenReason)
  {
    if kind.Upgrade? {
      FailedUpgradeLeaves(r, r', s, kind.target, kind.manifest, at);
    } else if kind.Rollback? {
      FailedRollbackLeaves(r, r', s.id, at, dropped);
    } else {
      SimpleJobLeavesBroken(kind, s, r, r', at, dropped);
    }
  }

  lemma SimpleJobLeavesBroken(kind: Kind, s: PupState, r: Registry, r': Registry, at: Step, dropped: bool)
    requires Did(kind, s, r, r', Failed(at), dropped) && (kind.Install? || kind.Uninstall? || kind.Purge?)
    requires s.id in r'.pups
    ensures r'.pups[s.id].installation == Broken && Records(at, r'.pups[s.id].brokenReason)
  {
    ReasonIsRecorded(r.pups[s.id], at);
  }

  /** After an install, upgrade or rollback that was not refused the pup is ready
      exactly when the job succeeded, and after an uninstall it is uninstalled exactly
      then; after a purge it is gone. */
  lemma SuccessShows(kind: Kind, s: PupState, r: Registry, r': Registry, exit: Exit, dropped: bool)
    requires Did(kind, s, r, r', exit, dropped) && !exit.Refused? && s.id in r.pups
    ensures kind.Install? || kind.Upgrade? || kind.Rollback? ==>
              s.id in r'.pups && (r'.pups[s.id].installation == Ready <==> exit.Success?)
    ensures kind.Uninstall? ==> s.id in r'.pups && (r'.pups[s.id].installation == Uninstalled <==> exit.Success?)
    ensures kind.Purge? ==> (s.id !in r'.pups <==> exit.Success?)
  {
    if exit.Failed? && s.id in r'.pups && !kind.Switch? {
      FailedJobLeavesBroken(kind, s, r, r', exit.at, dropped);
    }
  }

  /** Nothing but these fields differs. */
  ghost predicate OnlyStatus(p: PupState, q: PupState) {
    q == p.(installation := q.installation, brokenReason := q.brokenReason, enabled := q.enabled)
  }

  /** An install enables the pup from its enabling step on; an uninstall, and a purge
      that gets nowhere, leave it disabled; a switch changes nothing but the flag. */
  lemma SimpleJobLeaves(kind: Kind, s: PupState, r: Registry, r': Registry, exit: Exit, dropped: bool)
    requires Did(kind, s, r, r', exit, dropped) && s.id in r.pups && s.id in r'.pups
    requires kind.Install? || kind.Uninstall? || kind.Purge? || kind.Switch?
    ensures OnlyStatus(r.pups[s.id], r'.pups[s.id])
    ensures var was, now := r.pups[s.id].enabled, r'.pups[s.id].enabled;
            && (kind.Install? ==>
                  now == (was || exit.Success? || exit.at.Enable? || exit.at.ApplyNix? || exit.at.MarkReady?))
            && (kind.Uninstall? || (kind.Purge? && exit.Failed?) ==> !now)
            && (kind.Switch? ==> now == kind.enabled && r'.pups[s.id] == r.pups[s.id].(enabled := now))
            && (exit.Refused? ==> r' == r)
  {}

  /** A failed upgrade leaves the version it came from only if it could not fetch the
      target's manifest, and leaves the pup stopped unless it was ready again. */
  lemma FailedUpgradeLeaves(r: Registry, r': Registry, s: PupState, target: string, m: Manifest, at: Step)
    requires UpgradeDid(r, r', s, target, m, Failed(at)) && s.id in r'.pups
    ensures s.id in r.pups
    ensures var was, now := r.pups[s.id], r'.pups[s.id];
            && now.installation == Broken && Records(at, now.brokenReason)
            && now == was.(installation := Broken, brokenReason := now.brokenReason, enabled := now.enabled,
                           version := now.version, manifest := now.manifest)
            && (at.FetchManifest? ==> now.version == was.version && now.manifest == was.manifest)
            && (!at.FetchManifest? ==> now.version == target && now.manifest == m)
            && (at.MarkReady? || at.AddBack? ==> now.enabled == (was.enabled || s.enabled))
            && (!at.MarkReady? && !at.AddBack? ==> now.enabled == (was.enabled && !s.enabled))
  {
    ReasonIsRecorded(UpgradeOutcome(Stopped(r.pups[s.id], s.enabled), s.enabled, target, m, Success), at);
  }

  /** A successful one leaves the target, ready, and enabled if it was. */
  lemma SuccessfulUpgradeLeaves(r: Registry, r': Registry, s: PupState, target: string, m: Manifest)
    requires UpgradeDid(r, r', s, target, m, Success)
    ensures s.id in r.pups && s.id in r'.pups
    ensures var was, now := r.pups[s.id], r'.pups[s.id];
            now == was.(installation := Ready, version := target, manifest := m, enabled := was.enabled || s.enabled)
  {}

  /** A failed rollback has put back version and manifest unless it failed before it
      came to that. */
  lemma FailedRollbackLeaves(r: Registry, r': Registry, id: PupId, at: Step, dropped: bool)
    requires RollbackDid(r, r', id, Failed(at), dropped) && id in r'.pups
    ensures id in r.pups && id in r.snapshots && r'.snapshots == r.snapshots
    ensures var was, now, snap := r.pups[id], r'.pups[id], r.snapshots[id];
            && now.installation == Broken && Records(at, now.brokenReason)
            && (at.MarkUpgrading? || at.Download? ==>
                  now == was.(installation := Broken, brokenReason := now.brokenReason))
            && (!at.MarkUpgrading? && !at.Download? ==>
                  && now.version == snap.version && now.manifest == snap.manifest && now.configSaved
                  && (at.MarkReady? || at.ApplyNix? ==> now.enabled == (was.enabled || snap.enabled))
                  && (!at.MarkReady? && !at.ApplyNix? ==> now.enabled == was.enabled))
  {
    ReasonIsRecorded(r.pups[id], at);
  }

  /** A purge is refused exactly when the copy does not show an uninstalled pup; a
      rollback without a snapshot is; installs, uninstalls and switches never are; and a
      refused job has changed no version, manifest, snapshot or installation. */
  lemma RefusedWhen(kind: Kind, s: PupState, r: Registry, r': Registry, exit: Exit, dropped: bool)
    requires Did(kind, s, r, r', exit, dropped)
    ensures kind.Purge? ==> (exit.Refused? <==> !s.installation.Uninstalled?)
    ensures kind.Rollback? && s.id !in r.snapshots ==> exit.Refused?
    ensures exit.Refused? ==> !kind.Install? && !kind.Uninstall? && !kind.Switch? && r'.snapshots == r.snapshots
    ensures exit.Refused? && !kind.Upgrade? ==> r' == r
    ensures exit.Refused? && kind.Upgrade? && s.id in r.pups ==>
              r'.pups == r.pups[s.id := r.pups[s.id].(enabled := r.pups[s.id].enabled && !s.enabled)]
  {}

  /** A job of a pup that is not known does not succeed, and changes no pup. */
  lemma UnknownPupIsLeft(kind: Kind, s: PupState, r: Registry, r': Registry, exit: Exit, dropped: bool)
    requires Did(kind, s, r, r', exit, dropped) && s.id !in r.pups
    ensures !exit.Success? && r'.pups == r.pups
  {}

  // ------------------------------------------------------------------
  // The order of the steps
  // ------------------------------------------------------------------

  /** An install verifies what it downloads before it makes anything of it, enables the
      pup after its files are there, and marks it ready last. */
  lemma InstallOrder()
    ensures Size(ToInstall) == 11 && StepAt(ToInstall, 0) == Some(MarkInstalling)
    ensures StepAt(ToInstall, 1) == Some(Download) && StepAt(ToInstall, 2) == Some(VerifyHash)
    ensures StepAt(ToInstall, 3) == Some(CreateStorage) && StepAt(ToInstall, 4) == Some(MakeDelegate)
    ensures StepAt(ToInstall, 5) == StepAt(ToInstall, 6) == Some(WriteKey)
    ensures StepAt(ToInstall, 7) == Some(WriteConfig) && StepAt(ToInstall, 8) == Some(Enable)
    ensures StepAt(ToInstall, 9) == Some(ApplyNix) && StepAt(ToInstall, 10) == Some(MarkReady)
  {}

  /** Both removals say first what they are about to do. */
  lemma RemovalOrder()
    ensures Size(ToUninstall) == 3 && StepAt(ToUninstall, 0) == Some(MarkUninstalling)
    ensures StepAt(ToUninstall, 1) == Some(ApplyNix) && StepAt(ToUninstall, 2) == Some(MarkUninstalled)
    ensures Size(ToPurge) == 5 && StepAt(ToPurge, 0) == Some(MarkPurging) && StepAt(ToPurge, 1) == Some(RemoveState)
    ensures StepAt(ToPurge, 2) == Some(RemoveSource) && StepAt(ToPurge, 3) == Some(RemoveStorage)
    ensures StepAt(ToPurge, 4) == Some(ForgetPup)
  {}

  lemma SwitchOrder()
    ensures Size(ToSwitch(true)) == 2 && Size(ToSwitch(false)) == 3
    ensures StepAt(ToSwitch(true), 0) == Some(Enable) && StepAt(ToSwitch(true), 1) == Some(ApplyNix)
    ensures StepAt(ToSwitch(false), 0) == Some(Enable) && StepAt(ToSwitch(false), 1) == Some(Stop)
    ensures StepAt(ToSwitch(false), 2) == Some(ApplyNix)
  {}

  /** An upgrade takes its snapshot before it fetches anything, and changes the state
      before any file; an enabled pup is stopped first, taken out of nix and its
      container removed before it is ready, and put back after. */
  lemma UpgradeOrder()
    ensures Size(ToUpgrade(false)) == 8 && Size(ToUpgrade(true)) == 13
    ensures StepAt(ToUpgrade(true), 0) == Some(Stop)
    ensures forall k :: 0 <= k < 7 ==> StepAt(ToUpgrade(true), k + 1) == StepAt(ToUpgrade(false), k)
    ensures StepAt(ToUpgrade(false), 0) == Some(TakeSnapshot) && StepAt(ToUpgrade(false), 1) == Some(FetchManifest)
    ensures StepAt(ToUpgrade(false), 2) == Some(SetTarget) && StepAt(ToUpgrade(false), 3) == Some(Download)
    ensures StepAt(ToUpgrade(false), 4) == Some(VerifyHash) && StepAt(ToUpgrade(false), 5) == Some(WriteConfig)
    ensures StepAt(ToUpgrade(false), 6) == Some(ApplyNix) && StepAt(ToUpgrade(false), 7) == Some(MarkReady)
    ensures StepAt(ToUpgrade(true), 8) == Some(RemoveFromNix) && StepAt(ToUpgrade(true), 9) == Some(CleanContainer)
    ensures StepAt(ToUpgrade(true), 10) == Some(MarkReady) && StepAt(ToUpgrade(true), 11) == Some(AddBack)
    ensures StepAt(ToUpgrade(true), 12) == Some(AwaitContainer)
  {}

  /** A rollback reads the snapshot first and drops it last, after the state is back. */
  lemma RollbackOrder()
    ensures Size(ToRollBack(false)) == 9 && Size(ToRollBack(true)) == 10
    ensures forall k :: 0 <= k < 8 ==> StepAt(ToRollBack(true), k) == StepAt(ToRollBack(false), k)
    ensures StepAt(ToRollBack(false), 0) == Some(ReadSnapshot) && StepAt(ToRollBack(false), 1) == Some(Stop)
    ensures StepAt(ToRollBack(false), 2) == Some(MarkUpgrading) && StepAt(ToRollBack(false), 3) == Some(Download)
    ensures StepAt(ToRollBack(false), 4) == Some(RestoreState) && StepAt(ToRollBack(false), 5) == Some(WriteConfig)
    ensures StepAt(ToRollBack(false), 6) == Some(MarkReady) && StepAt(ToRollBack(false), 7) == Some(ApplyNix)
    ensures StepAt(ToRollBack(false), 8) == Some(DropSnapshot)
    ensures StepAt(ToRollBack(true), 8) == Some(StartContainer) && StepAt(ToRollBack(true), 9) == Some(DropSnapshot)
  {}

  /** The step stands in the plan. */
  ghost predicate InPlan(plan: Plan, at: Step) {
    exists k :: StepAt(plan, k) == Some(at)
  }

  // The steps at which a job can fail are those of its plan whose failure is not
  // tolerated: none of them is missing from the plan, and no other step fails.

  lemma InstallFailsInPlan(at: Step)
    ensures InstallFails(at) <==> InPlan(ToInstall, at)
  {
    InstallOrder();
  }

  lemma UninstallFailsInPlan(at: Step)
    ensures UninstallFails(at) <==> InPlan(ToUninstall, at)
    ensures SwitchFails(at) <==> InPlan(ToSwitch(false), at)
  {
    RemovalOrder();
    SwitchOrder();
  }

  lemma UpgradeFailsInPlan(at: Step)
    ensures UpgradeFails(at) <==>
            && InPlan(ToUpgrade(true), at)
            && !at.Stop? && !at.TakeSnapshot? && !at.CleanContainer? && !at.AwaitContainer?
  {
    UpgradeOrder();
    if UpgradeFails(at) {
      var k := if at.MarkReady? then 10 else if at.AddBack? then 11 else if at.RemoveFromNix? then 8
               else if at.FetchManifest? then 2 else if at.SetTarget? then 3 else if at.Download? then 4
               else if at.VerifyHash? then 5 else if at.WriteConfig? then 6 else 7;
      assert StepAt(ToUpgrade(true), k) == Some(at);
    }
  }

  lemma RollbackFailsInPlan(at: Step)
    ensures RollbackFails(at) <==>
            && InPlan(ToRollBack(true), at)
            && !at.ReadSnapshot? && !at.Stop? && !at.StartContainer? && !at.DropSnapshot?
  {
    RollbackOrder();
  }
}
