/** Jobs and actions, and where the dispatcher and the updater send them
    (pkg/events.go, jobDispatcher in pkg/dogeboxd.go, Run in pkg/system/updater.go). */
module Events {
  type JobId = string
  type PupId = string

  datatype Action =
    | InstallPup
    | InstallPups
    | UninstallPup(pupID: PupId)
    | PurgePup(pupID: PupId)
    | EnablePup(pupID: PupId)
    | DisablePup(pupID: PupId)
    | UpgradePup(pupID: PupId)
    | RollbackPupUpgrade(pupID: PupId)
    | UpdatePupConfig(pupID: PupId)
    | UpdatePupProviders(pupID: PupId)
    | UpdatePupHooks(pupID: PupId)
    | UpdateMetrics(pupID: PupId)
    | CheckPupUpdates(pupID: PupId)
    | UpdatePendingSystemNetwork
    | InitialBootstrap
    | EnableSSH
    | DisableSSH
    | AddSSHKey
    | RemoveSSHKey
    | SaveCustomNix
    | ImportBlockchainData
    | UpdateTimezone
    | UpdateKeymap
    | SystemUpdate(version: string)
    | UpdateNixCache
    | AddBinaryCache
    | RemoveBinaryCache
    | Unknown(name: string)

  datatype Job = Job(id: JobId, action: Action, start: int)

  function ActionName(a: Action): string {
    match a
    case InstallPup | InstallPups => "install"
    case UninstallPup(_) => "uninstall"
    case PurgePup(_) => "purge"
    case EnablePup(_) => "enable"
    case DisablePup(_) => "disable"
    case UpgradePup(_) => "upgrade"
    case RollbackPupUpgrade(_) => "rollback"
    case UpdatePupConfig(_) => "config"
    case UpdatePupProviders(_) => "providers"
    case UpdatePupHooks(_) => "hooks"
    case UpdateMetrics(_) => "metrics"
    case CheckPupUpdates(_) => "check-updates"
    case UpdatePendingSystemNetwork => "network"
    case InitialBootstrap => "initial-bootstrap"
    case EnableSSH => "enable-ssh"
    case DisableSSH => "disable-ssh"
    case AddSSHKey => "add-ssh-key"
    case RemoveSSHKey => "remove-ssh-key"
    case SaveCustomNix => "save-custom-nix"
    case ImportBlockchainData => "import-blockchain"
    case UpdateTimezone => "update-timezone"
    case UpdateKeymap => "update-keymap"
    case SystemUpdate(_) => "system-update"
    case UpdateNixCache => "update-nix-cache"
    case AddBinaryCache => "add-binary-cache"
    case RemoveBinaryCache => "remove-binary-cache"
    case Unknown(name) => name
  }

  /** getPupIDFromAction: the PupID field when the action has one. */
  function PupOf(a: Action): PupId {
    match a
    case UninstallPup(p) => p
    case PurgePup(p) => p
    case EnablePup(p) => p
    case DisablePup(p) => p
    case UpgradePup(p) => p
    case RollbackPupUpgrade(p) => p
    case UpdatePupConfig(p) => p
    case UpdatePupProviders(p) => p
    case UpdatePupHooks(p) => p
    case UpdateMetrics(p) => p
    case CheckPupUpdates(p) => p
    case _ => ""
  }

  /** What jobDispatcher can do with an action. A `ToUpdater` job may still be
      finished at once, when the pup cannot be adopted, changed or found. */
  datatype Route = ToUpdater | Immediate | Batch | Dropped

  function Dispatch(a: Action): Route {
    match a
    case InstallPups => Batch
    case UpdatePupConfig(_) | UpdatePupProviders(_) | UpdatePupHooks(_) | CheckPupUpdates(_) => Immediate
    case UpdateMetrics(_) | Unknown(_) => Dropped
    case InstallPup | UninstallPup(_) | PurgePup(_) | EnablePup(_) | DisablePup(_) => ToUpdater
    case UpgradePup(_) | RollbackPupUpgrade(_) | ImportBlockchainData => ToUpdater
    case UpdatePendingSystemNetwork | InitialBootstrap | EnableSSH | DisableSSH => ToUpdater
    case AddSSHKey | RemoveSSHKey | SaveCustomNix | AddBinaryCache | RemoveBinaryCache => ToUpdater
    case SystemUpdate(_) | UpdateTimezone | UpdateKeymap | UpdateNixCache => ToUpdater
  }

  /** The cases of the updater's switch; each ends in one send on `done`. Its
      default case sends nothing. */
  predicate AnsweredByUpdater(a: Action) {
    match a
    case InstallPup | UninstallPup(_) | PurgePup(_) | EnablePup(_) | DisablePup(_) => true
    case UpgradePup(_) | RollbackPupUpgrade(_) | ImportBlockchainData => true
    case UpdatePendingSystemNetwork | InitialBootstrap | EnableSSH | DisableSSH => true
    case AddSSHKey | RemoveSSHKey | SaveCustomNix | AddBinaryCache | RemoveBinaryCache => true
    case SystemUpdate(_) | UpdateTimezone | UpdateKeymap | UpdateNixCache => true
    case _ => false
  }

  /** shouldTrackJob */
  predicate Tracked(a: Action) {
    match a
    case UpdateMetrics(_) | UpdatePupConfig(_) | UpdatePupHooks(_) | InstallPups => false
    case _ => true
  }

  /** The dispatcher queues exactly the actions the updater answers, and it
      tracks every one of them. */
  lemma QueuedActionsAreAnswered(a: Action)
    ensures Dispatch(a).ToUpdater? <==> AnsweredByUpdater(a)
    ensures Dispatch(a).ToUpdater? ==> Tracked(a)
  {}

  /** Reports of metrics and quick changes leave no record, nor does a batch, whose jobs
      are recorded one by one; every other job does. */
  lemma UntrackedActions(a: Action)
    ensures !Tracked(a) <==> a.UpdateMetrics? || a.UpdatePupConfig? || a.UpdatePupHooks? || a.InstallPups?
    ensures Dispatch(a).Dropped? <==> a.UpdateMetrics? || a.Unknown?
    ensures Dispatch(a).Batch? <==> a.InstallPups?
    ensures Dispatch(a).Immediate? <==>
              a.UpdatePupConfig? || a.UpdatePupProviders? || a.UpdatePupHooks? || a.CheckPupUpdates?
  {}

  /** The pup that an action names; an install names none yet. */
  lemma PupOfNames(p: PupId)
    ensures PupOf(UninstallPup(p)) == PupOf(PurgePup(p)) == PupOf(EnablePup(p)) == PupOf(DisablePup(p)) == p
    ensures PupOf(UpgradePup(p)) == PupOf(RollbackPupUpgrade(p)) == PupOf(CheckPupUpdates(p)) == p
    ensures PupOf(UpdatePupConfig(p)) == PupOf(UpdatePupProviders(p)) == PupOf(UpdatePupHooks(p)) == p
    ensures PupOf(InstallPup) == PupOf(InstallPups) == PupOf(UpdateNixCache) == PupOf(SystemUpdate(p)) == ""
  {}
}
