/** Pups, their updates and the manager that holds them (pkg/pups.go,
    pkg/pup/manager.go and UpdatePup, PurgePup in pkg/pup/actions.go). */
module Pups {
  import opened Wrappers
  import opened Events
  import opened Allocators

  datatype Installation =
    | Installing | Upgrading | Ready | Unready | Uninstalling | Uninstalled | Purging | Broken

  datatype Expose = Expose(port: int, webUI: bool, listenOnHost: bool)

  datatype Interface = Interface(name: string, version: string)

  /** `version` is a constraint. */
  datatype Dependency = Dependency(interfaceName: string, version: string, optional: bool, defaultSource: Provider)

  /** A pup that a source offers. */
  datatype Provider = Provider(location: string, name: string, version: string)

  datatype Manifest = Manifest(
    name: string, version: string, configFields: set<string>, exposes: seq<Expose>,
    interfaces: seq<Interface>, dependencies: seq<Dependency>)

  datatype Source = Source(id: string, location: string)

  /** A map that has been made, or not yet. Updates write into a map that is there, so
      every copy of the pup that has it sees them; each pup has at most one config
      map and one provider map as long as the process lives. */
  datatype Settings = NoSettings | Settings(entries: map<string, string>) {
    function All(): map<string, string> {
      if NoSettings? then map[] else entries
    }
  }

  /** `webUIs` are the assigned ports. */
  datatype PupState = PupState(
    id: PupId, source: Source, manifest: Manifest, version: string,
    config: Settings, configSaved: bool, providers: Settings,
    installation: Installation, brokenReason: string, enabled: bool, ip: IP, webUIs: seq<int>)

  datatype Snapshot = Snapshot(
    version: string, manifest: Manifest, config: map<string, string>, providers: map<string, string>,
    enabled: bool, sourceID: string)

  function SnapshotOf(p: PupState): Snapshot {
    Snapshot(p.version, p.manifest, p.config.All(), p.providers.All(), p.enabled, p.source.id)
  }

  /** What a copy of a pup shows once the pup has become `live`: the fields as they
      were copied, but the maps that the copy has are the pup's own. */
  function Shown(copy: PupState, live: PupState): PupState {
    copy.(config := if copy.config.NoSettings? then NoSettings else live.config,
          providers := if copy.providers.NoSettings? then NoSettings else live.providers)
  }

  // ------------------------------------------------------------------
  // Updates
  // ------------------------------------------------------------------

  datatype Update =
    | SetInstallation(installation: Installation)
    | SetBrokenReason(reason: string)
    | SetConfig(fields: map<string, string>)
    | SetProviders(providers: map<string, string>)
    | SetVersion(version: string)
    | SetManifest(manifest: Manifest)
    | SetEnabled(enabled: bool)

  /** Known fields are overwritten, unknown ones ignored, others kept. */
  function MergedConfig(config: map<string, string>, fields: map<string, string>, known: set<string>)
    : map<string, string>
  {
    config + (map k | k in fields && k in known :: fields[k])
  }

  function ApplyUpdate(p: PupState, u: Update): PupState {
    match u
    case SetInstallation(i) => p.(installation := i)
    case SetBrokenReason(r) => p.(brokenReason := r)
    case SetConfig(fields) =>
      p.(config := Settings(MergedConfig(p.config.All(), fields, p.manifest.configFields)), configSaved := true)
    case SetProviders(ps) => p.(providers := Settings(p.providers.All() + ps))
    case SetVersion(v) => p.(version := v)
    case SetManifest(m) => p.(manifest := m)
    case SetEnabled(b) => p.(enabled := b)
  }

  function ApplyUpdates(p: PupState, us: seq<Update>): PupState
    decreases |us|
  {
    if us == [] then p else ApplyUpdates(ApplyUpdate(p, us[0]), us[1..])
  }

  lemma ApplyTwo(p: PupState, a: Update, b: Update)
    ensures ApplyUpdates(p, [a]) == ApplyUpdate(p, a)
    ensures ApplyUpdates(p, [a, b]) == ApplyUpdate(ApplyUpdate(p, a), b)
  {
    assert [a, b][1..] == [b] && [a][1..] == [] && [b][1..] == [];
    assert ApplyUpdates(ApplyUpdate(p, a), [b]) == ApplyUpdate(ApplyUpdate(p, a), b);
  }

  lemma ApplyFour(p: PupState, a: Update, b: Update, c: Update, d: Update)
    ensures ApplyUpdates(p, [a, b, c]) == ApplyUpdate(ApplyUpdate(ApplyUpdate(p, a), b), c)
    ensures ApplyUpdates(p, [a, b, c, d]) == ApplyUpdate(ApplyUpdate(ApplyUpdate(ApplyUpdate(p, a), b), c), d)
  {
    assert [a, b, c][1..] == [b, c] && [a, b, c, d][1..] == [b, c, d] && [b, c, d][1..] == [c, d];
    ApplyTwo(ApplyUpdate(p, a), b, c);
    ApplyTwo(ApplyUpdate(ApplyUpdate(p, a), b), c, d);
  }

  lemma {:induction false} ApplySnoc(p: PupState, us: seq<Update>, u: Update)
    ensures ApplyUpdates(p, us + [u]) == ApplyUpdate(ApplyUpdates(p, us), u)
    decreases |us|
  {
    if us == [] {
      assert us + [u] == [u];
      ApplyTwo(p, u, u);
    } else {
      assert (us + [u])[1..] == us[1..] + [u];
      ApplySnoc(ApplyUpdate(p, us[0]), us[1..], u);
    }
  }

  /** Each update changes its own field; new settings also count as saved. */
  lemma UpdateChangesItsField(p: PupState, u: Update)
    ensures var q := ApplyUpdate(p, u);
            && (u.SetInstallation? ==> q.installation == u.installation && q == p.(installation := q.installation))
            && (u.SetBrokenReason? ==> q.brokenReason == u.reason && q == p.(brokenReason := q.brokenReason))
            && (u.SetVersion? ==> q.version == u.version && q == p.(version := q.version))
            && (u.SetManifest? ==> q.manifest == u.manifest && q == p.(manifest := q.manifest))
            && (u.SetEnabled? ==> q.enabled == u.enabled && q == p.(enabled := q.enabled))
            && (u.SetConfig? ==> q.configSaved && q.config.Settings?
                                 && q == p.(config := q.config, configSaved := true))
            && (u.SetProviders? ==> q.providers.Settings? && q == p.(providers := q.providers))
  {}

  /** Field by field: a submitted value counts if the manifest knows the field, and a
      provider always; the rest stays. */
  lemma SettingsAreMerged(p: PupState, u: Update, k: string)
    ensures var q := ApplyUpdate(p, u);
            && (u.SetConfig? ==>
                  if k in u.fields && k in p.manifest.configFields
                  then k in q.config.All() && q.config.All()[k] == u.fields[k]
                  else (k in q.config.All() <==> k in p.config.All())
                       && (k in p.config.All() ==> q.config.All()[k] == p.config.All()[k]))
            && (u.SetProviders? ==>
                  if k in u.providers then k in q.providers.All() && q.providers.All()[k] == u.providers[k]
                  else (k in q.providers.All() <==> k in p.providers.All())
                       && (k in p.providers.All() ==> q.providers.All()[k] == p.providers.All()[k]))
  {}

  /** What no update touches: the address, the assigned ports and the source; and a
      map that has been made stays. */
  ghost predicate SameIdentity(p: PupState, q: PupState) {
    && q.id == p.id && q.source == p.source && q.ip == p.ip && q.webUIs == p.webUIs
    && (p.config.Settings? ==> q.config.Settings?) && (p.providers.Settings? ==> q.providers.Settings?)
  }

  lemma {:induction false} UpdatesKeepIdentity(p: PupState, us: seq<Update>)
    ensures SameIdentity(p, ApplyUpdates(p, us))
    decreases |us|
  {
    if us != [] {
      UpdateKeepsIdentity(p, us[0]);
      UpdatesKeepIdentity(ApplyUpdate(p, us[0]), us[1..]);
    }
  }

  lemma UpdateKeepsIdentity(p: PupState, u: Update)
    ensures SameIdentity(p, ApplyUpdate(p, u))
  {}

  /** The loop of SetPupConfig over the submitted fields. */
  method MergeConfig(config: map<string, string>, fields: map<string, string>, known: set<string>)
    returns (merged: map<string, string>)
    ensures merged == MergedConfig(config, fields, known)
  {
    merged := config;
    var rest := fields.Keys;
    ghost var done := {};
    MergeNone(config, fields);
    while rest != {}
      invariant rest <= fields.Keys
      invariant forall k :: k in done <==> k in fields && k in known && k !in rest
      invariant merged == MergedConfig(config, fields, done)
      decreases |rest|
    {
      var k :| k in rest;
      if k in known {
        MergeNext(config, fields, done, k);
        merged := merged[k := fields[k]];
        done := done + {k};
      }
      rest := rest - {k};
    }
    MergeRelevant(config, fields, done, known);
  }

  lemma MergeNone(config: map<string, string>, fields: map<string, string>)
    ensures MergedConfig(config, fields, {}) == config
  {}

  lemma MergeRelevant(config: map<string, string>, fields: map<string, string>, a: set<string>, b: set<string>)
    requires forall k <- fields :: k in a <==> k in b
    ensures MergedConfig(config, fields, a) == MergedConfig(config, fields, b)
  {}

  lemma MergeNext(config: map<string, string>, fields: map<string, string>, known: set<string>, k: string)
    requires k in fields && k !in known
    ensures MergedConfig(config, fields, known + {k}) == MergedConfig(config, fields, known)[k := fields[k]]
  {}

  /** The loop of SetPupProviders. */
  method MergeProviders(providers: map<string, string>, more: map<string, string>) returns (merged: map<string, string>)
    ensures merged == providers + more
  {
    merged := providers;
    var rest := more.Keys;
    while rest != {}
      invariant rest <= more.Keys
      invariant merged == providers + (map k | k in more && k !in rest :: more[k])
      decreases |rest|
    {
      var k :| k in rest;
      rest := rest - {k};
      merged := merged[k := more[k]];
    }
    assert (map k | k in more && k !in rest :: more[k]) == more;
  }

  method RunUpdate(was: PupState, u: Update) returns (p: PupState)
    ensures p == ApplyUpdate(was, u)
  {
    p := was;
    match u
    case SetInstallation(i) => p := p.(installation := i);
    case SetBrokenReason(r) => p := p.(brokenReason := r);
    case SetConfig(fields) =>
      if p.config.NoSettings? {
        p := p.(config := Settings(map[]));
      }
      var merged := MergeConfig(p.config.entries, fields, p.manifest.configFields);
      p := p.(config := Settings(merged));
      p := p.(configSaved := true);
    case SetProviders(ps) =>
      if p.providers.NoSettings? {
        p := p.(providers := Settings(map[]));
      }
      var merged := MergeProviders(p.providers.entries, ps);
      p := p.(providers := Settings(merged));
    case SetVersion(v) => p := p.(version := v);
    case SetManifest(m) => p := p.(manifest := m);
    case SetEnabled(b) => p := p.(enabled := b);
  }

  // ------------------------------------------------------------------
  // PupManager
  // ------------------------------------------------------------------

  datatype PupError = PupNotFound | SaveFailed | SnapshotFailed

  datatype Registry = Registry(pups: map<PupId, PupState>, snapshots: map<PupId, Snapshot>)

  class PupManager {
    var state: map<PupId, PupState>
    var saved: map<PupId, PupState>  // the state files on disk
    var snapshots: map<PupId, Snapshot>
    const lastIP: array<Byte>

    ghost function All(): Registry
      reads this
    {
      Registry(state, snapshots)
    }

    /** Start-up: load the state files, mark interrupted installs broken, and find
        the last address in use. */
    constructor (saved: map<PupId, PupState>, snapshots: map<PupId, Snapshot>)
      ensures All() == Registry(Recovered(saved), snapshots)
      ensures FilesRecovered(saved, this.saved)
      ensures fresh(lastIP) && lastIP.Length == 4
      ensures ScannedFrom(saved, lastIP[..])
      ensures (forall id <- saved :: InFirstNet(saved[id].ip)) ==> AddressesCovered(state, lastIP[..])
    {
      this.state, this.saved, this.snapshots := saved, saved, snapshots;
      lastIP := new Byte[4](_ => 0);
      new;
      RecoverStuckPups();
      var stored := Addresses();
      var ip := ScanAddresses(stored);
      forall i | 0 <= i < 4 {
        lastIP[i] := ip[i];
      }
      assert lastIP[..] == ip;
      StartScan(saved, stored, ip);
    }

    /** The addresses of all pups, in whatever order the map yields them. */
    method Addresses() returns (stored: seq<IP>)
      ensures InSomeOrder(state, state.Keys, stored)
    {
      stored := [];
      var pups, rest := state, state.Keys;
      OrderEnds(pups);
      while rest != {}
        invariant rest <= pups.Keys && InSomeOrder(pups, pups.Keys - rest, stored)
        decreases |rest|
      {
        var id :| id in rest;
        OrderNext(pups, rest, stored, id);
        rest := rest - {id};
        stored := stored + [pups[id].ip];
      }
      OrderEnds(pups);
    }

    /** Memory is updated first; saving may then fail, which is reported but does
        not undo the update. */
    method UpdatePup(id: PupId, updates: seq<Update>) returns (r: Result<PupState, PupError>)
      modifies this`state, this`saved
      ensures id !in old(state) ==> r == Err(PupNotFound) && state == old(state) && saved == old(saved)
      ensures id in old(state) ==>
                var p := ApplyUpdates(old(state)[id], updates);
                && state == old(state)[id := p]
                && (r == Ok(p) || r == Err(SaveFailed))
                && saved == if r.Ok? then old(saved)[id := p] else old(saved)
      ensures SavesOnly(old(saved), saved, id)
    {
      if id !in state {
        return Err(PupNotFound);
      }
      var p := state[id];
      for i := 0 to |updates|
        invariant state == old(state) && saved == old(saved)
        invariant p == ApplyUpdates(old(state)[id], updates[..i])
      {
        assert updates[..i + 1] == updates[..i] + [updates[i]];
        ApplySnoc(old(state)[id], updates[..i], updates[i]);
        p := RunUpdate(p, updates[i]);
      }
      assert updates[..|updates|] == updates;
      state := state[id := p];
      var savedOk := External();
      if !savedOk {
        return Err(SaveFailed);
      }
      OnlyOneSaved(saved, id, p);
      saved := saved[id := p];
      return Ok(p);
    }

    /** `newID` is the random id drawn; `defaults` the config defaults of the
        manifest; `osFree` the ports free on the host. */
    method AdoptPup(m: Manifest, source: Source, newID: PupId, defaults: map<string, string>, osFree: set<int>)
      returns (r: Result<PupId, AdoptError>)
      requires newID !in state && lastIP.Length == 4
      requires WebUICount(m.exposes) <= |Candidates(Consumed(state), osFree)|
      modifies this`state, this`saved, lastIP
      ensures AdoptDid(old(state), old(lastIP[..]), state, lastIP[..], m, source, newID, defaults, osFree, r)
      ensures saved == if r.Ok? then old(saved)[newID := state[newID]] else old(saved)
    {
      var existing := FindAdopted(m, source);
      if existing.Some? {
        return Err(AlreadyExists(existing.value));
      }
      ClaimNextIP(lastIP);
      var ip: IP := lastIP[..];
      if OffTheEdge(ip) {
        return Err(AddressesExhausted);
      }
      var count := 0;
      for i := 0 to |m.exposes|
        invariant count == WebUICount(m.exposes[..i])
      {
        assert m.exposes[..i + 1][..i] == m.exposes[..i];
        if m.exposes[i].webUI {
          count := count + 1;
        }
      }
      assert m.exposes[..|m.exposes|] == m.exposes;
      var consumed := ConsumedPorts();
      var ports := PickPorts(consumed, osFree, count);
      var ok := External();  // development services, config defaults, saving
      if !ok {
        return Err(AdoptFailed);
      }
      var p := NewPup(newID, m, source, defaults, ip, ports);
      state := state[newID := p];
      saved := saved[newID := p];
      return Ok(newID);
    }

    method FindAdopted(m: Manifest, source: Source) returns (found: Option<PupId>)
      ensures found.Some? ==> found.value in state && IsAdoption(state[found.value], m, source)
      ensures found.None? ==> forall id <- state :: !IsAdoption(state[id], m, source)
    {
      var rest := state.Keys;
      while rest != {}
        invariant rest <= state.Keys
        invariant forall id <- state :: id in rest || !IsAdoption(state[id], m, source)
        decreases |rest|
      {
        var id :| id in rest;
        rest := rest - {id};
        if IsAdoption(state[id], m, source) {
          return Some(id);
        }
      }
      return None;
    }

    method ConsumedPorts() returns (consumed: set<int>)
      ensures consumed == Consumed(state)
    {
      consumed := {};
      var rest := state.Keys;
      while rest != {}
        invariant rest <= state.Keys
        invariant consumed == ConsumedBy(state, state.Keys - rest)
        decreases |rest|
      {
        var id :| id in rest;
        ConsumedNext(state, state.Keys - rest, id);
        assert state.Keys - rest + {id} == state.Keys - (rest - {id});
        rest := rest - {id};
        var more := PortsConsumedBy(state[id]);
        consumed := consumed + more;
      }
    }

    method PurgePup(id: PupId)
      modifies this`state
      ensures state == old(state) - {id}
    {
      state := state - {id};
    }

    /** Disables the pup if it is enabled; every failure is left to the caller to
        ignore. */
    method StopPup(id: PupId) returns (ok: bool)
      modifies this`state, this`saved
      ensures state == if id in old(state) && old(state)[id].enabled
                       then old(state)[id := old(state)[id].(enabled := false)] else old(state)
      ensures id !in old(state) ==> !ok
      ensures id in old(state) && !old(state)[id].enabled ==> ok
      ensures ok && id in old(state) && old(state)[id].enabled ==> saved == old(saved)[id := state[id]]
      ensures SavesOnly(old(saved), saved, id)
    {
      if id !in state {
        return false;
      }
      if !state[id].enabled {
        return true;
      }
      ApplyTwo(state[id], SetEnabled(false), SetEnabled(false));
      var r := UpdatePup(id, [SetEnabled(false)]);
      if r.Err? {
        return false;
      }
      ok := External();
    }

    method CreateSnapshot(p: PupState) returns (r: Result<(), PupError>)
      modifies this`snapshots
      ensures snapshots == if r.Ok? then old(snapshots)[p.id := SnapshotOf(p)] else old(snapshots)
    {
      var written := External();
      if !written {
        return Err(SnapshotFailed);
      }
      snapshots := snapshots[p.id := Snapshot(p.version, p.manifest, p.config.All(), p.providers.All(), p.enabled,
                                                p.source.id)];
      return Ok(());
    }

    /** An unreadable snapshot is an error; a missing one is not. */
    method GetSnapshot(id: PupId) returns (r: Result<Option<Snapshot>, PupError>)
      ensures r.Ok? ==> r.value == if id in snapshots then Some(snapshots[id]) else None
      ensures r.Err? ==> id in snapshots
    {
      if id !in snapshots {
        return Ok(None);
      }
      var readable := External();
      if !readable {
        return Err(SnapshotFailed);
      }
      return Ok(Some(snapshots[id]));
    }

    method DeleteSnapshot(id: PupId) returns (r: Result<(), PupError>)
      modifies this`snapshots
      ensures snapshots == if r.Ok? then old(snapshots) - {id} else old(snapshots)
    {
      if id !in snapshots {
        return Ok(());
      }
      var deleted := External();
      if !deleted {
        return Err(SnapshotFailed);
      }
      snapshots := snapshots - {id};
      return Ok(());
    }

    method RecoverStuckPups()
      requires saved == state
      modifies this`state, this`saved
      ensures state == Recovered(old(state)) && FilesRecovered(old(state), saved)
    {
      ghost var start := state;
      var rest := state.Keys;
      RecoveredEnds(start);
      while rest != {}
        invariant rest <= start.Keys
        invariant state == RecoveredBut(start, rest) && FilesRecovered(start, saved)
        decreases |rest|
      {
        var id :| id in rest;
        RecoverOne(start, rest, id);
        RecoverFile(start, saved, id);
        rest := rest - {id};
        RecoverStuckPup(id);
      }
    }

    method RecoverStuckPup(id: PupId)
      requires id in state
      modifies this`state, this`saved
      ensures state == old(state)[id := Recover(old(state)[id])]
      ensures saved == old(saved) || saved == old(saved)[id := state[id]]
    {
      if state[id].installation == Installing {
        ApplyTwo(state[id], SetInstallation(Broken), SetBrokenReason(DOWNLOAD_FAILED));
        var r := UpdatePup(id, [SetInstallation(Broken), SetBrokenReason(DOWNLOAD_FAILED)]);
      }
    }
  }

  // ------------------------------------------------------------------
  // Start-up
  // ------------------------------------------------------------------

  ghost predicate IsAddress(pups: map<PupId, PupState>, keys: set<PupId>, id: PupId, x: IP) {
    id in keys && id in pups && pups[id].ip == x
  }

  /** The addresses of these pups, one for each, in some order. */
  ghost predicate InSomeOrder(pups: map<PupId, PupState>, keys: set<PupId>, order: seq<IP>)
    decreases |order|
  {
    if order == [] then keys == {}
    else
      var n := |order| - 1;
      exists id :: IsAddress(pups, keys, id, order[n]) && InSomeOrder(pups, keys - {id}, order[..n])
  }

  lemma OrderSnoc(pups: map<PupId, PupState>, keys: set<PupId>, order: seq<IP>, id: PupId)
    requires InSomeOrder(pups, keys, order) && id !in keys && id in pups
    ensures InSomeOrder(pups, keys + {id}, order + [pups[id].ip])
  {
    var all := order + [pups[id].ip];
    assert all[..|order|] == order && keys + {id} - {id} == keys;
    assert IsAddress(pups, keys + {id}, id, all[|order|]);
  }

  lemma OrderNext(pups: map<PupId, PupState>, rest: set<PupId>, order: seq<IP>, id: PupId)
    requires rest <= pups.Keys && id in rest && InSomeOrder(pups, pups.Keys - rest, order)
    ensures InSomeOrder(pups, pups.Keys - (rest - {id}), order + [pups[id].ip])
  {
    OrderSnoc(pups, pups.Keys - rest, order, id);
    assert pups.Keys - rest + {id} == pups.Keys - (rest - {id});
  }

  lemma OrderEnds(pups: map<PupId, PupState>)
    ensures InSomeOrder(pups, pups.Keys - pups.Keys, [])
    ensures pups.Keys - {} == pups.Keys
  {}

  /** What all pups' addresses satisfy is what all addresses in the order do. */
  lemma {:induction false} OrderHasAll(pups: map<PupId, PupState>, keys: set<PupId>, order: seq<IP>, good: IP -> bool)
    requires InSomeOrder(pups, keys, order) && keys <= pups.Keys
    ensures (forall id <- keys :: good(pups[id].ip)) <==> (forall x <- order :: good(x))
    decreases |order|
  {
    if order != [] {
      var n := |order| - 1;
      var id :| IsAddress(pups, keys, id, order[n]) && InSomeOrder(pups, keys - {id}, order[..n]);
      OrderHasAll(pups, keys - {id}, order[..n], good);
      assert keys == keys - {id} + {id} && order == order[..n] + [order[n]];
    }
  }

  lemma {:induction false} SameOrders(pups: map<PupId, PupState>, pups': map<PupId, PupState>, keys: set<PupId>,
                                      order: seq<IP>)
    requires keys <= pups.Keys == pups'.Keys && forall id <- pups :: pups'[id].ip == pups[id].ip
    requires InSomeOrder(pups, keys, order)
    ensures InSomeOrder(pups', keys, order)
    decreases |order|
  {
    if order != [] {
      var n := |order| - 1;
      var id :| IsAddress(pups, keys, id, order[n]) && InSomeOrder(pups, keys - {id}, order[..n]);
      SameOrders(pups, pups', keys - {id}, order[..n]);
      assert IsAddress(pups', keys, id, order[n]);
    }
  }

  /** The files once the start-up has rewritten some of those it recovers. */
  ghost predicate FilesRecovered(files: map<PupId, PupState>, files': map<PupId, PupState>) {
    files'.Keys == files.Keys && forall id <- files :: files'[id] == files[id] || files'[id] == Recover(files[id])
  }

  /** The pups once the start-up has been through all but some. */
  ghost function RecoveredBut(start: map<PupId, PupState>, rest: set<PupId>): map<PupId, PupState> {
    map id | id in start :: if id in rest then start[id] else Recover(start[id])
  }

  lemma RecoveredEnds(start: map<PupId, PupState>)
    ensures RecoveredBut(start, start.Keys) == start && RecoveredBut(start, {}) == Recovered(start)
  {}

  lemma RecoverOne(start: map<PupId, PupState>, rest: set<PupId>, id: PupId)
    requires id in rest && id in start
    ensures RecoveredBut(start, rest)[id] == start[id]
    ensures RecoveredBut(start, rest)[id := Recover(start[id])] == RecoveredBut(start, rest - {id})
  {}

  lemma RecoverFile(start: map<PupId, PupState>, files: map<PupId, PupState>, id: PupId)
    requires FilesRecovered(start, files) && id in start
    ensures FilesRecovered(start, files[id := Recover(start[id])])
  {}

  lemma RecoveredAddresses(saved: map<PupId, PupState>)
    ensures var pups := Recovered(saved);
            && pups.Keys == saved.Keys
            && forall id <- pups :: pups[id].ip == saved[id].ip && pups[id].webUIs == saved[id].webUIs
  {}

  /** The counter that a start-up scan of these files can end with. */
  ghost predicate ScannedFrom(saved: map<PupId, PupState>, last: IP) {
    exists order :: InSomeOrder(saved, saved.Keys, order) && last == Scan(FIRST_IP, order)
  }

  lemma StartScan(saved: map<PupId, PupState>, order: seq<IP>, last: IP)
    requires InSomeOrder(Recovered(saved), Recovered(saved).Keys, order) && last == Scan(FIRST_IP, order)
    ensures ScannedFrom(saved, last)
    ensures (forall id <- saved :: InFirstNet(saved[id].ip)) ==> AddressesCovered(Recovered(saved), last)
  {
    RecoveredAddresses(saved);
    ScanStarts(saved, Recovered(saved), order, last);
  }

  lemma ScanStarts(saved: map<PupId, PupState>, pups: map<PupId, PupState>, order: seq<IP>, last: IP)
    requires pups.Keys == saved.Keys && forall id <- pups :: pups[id].ip == saved[id].ip
    requires InSomeOrder(pups, pups.Keys, order) && last == Scan(FIRST_IP, order)
    ensures ScannedFrom(saved, last)
    ensures (forall id <- saved :: InFirstNet(saved[id].ip)) ==> AddressesCovered(pups, last)
  {
    SameOrders(pups, saved, pups.Keys, order);
    if forall id <- saved :: InFirstNet(saved[id].ip) {
      FirstNetCovered(pups, order);
    }
  }

  lemma FirstNetCovered(pups: map<PupId, PupState>, order: seq<IP>)
    requires InSomeOrder(pups, pups.Keys, order) && forall id <- pups :: InFirstNet(pups[id].ip)
    ensures AddressesCovered(pups, Scan(FIRST_IP, order))
  {
    OrderHasAll(pups, pups.Keys, order, InFirstNet);
    ScanCoversFirstNet(FIRST_IP, order);
    OrderCovered(pups, order, Scan(FIRST_IP, order));
  }

  lemma OrderCovered(pups: map<PupId, PupState>, order: seq<IP>, last: IP)
    requires InSomeOrder(pups, pups.Keys, order)
    ensures AddressesCovered(pups, last) <==> forall x <- order :: Num(x) <= Num(last)
  {
    OrderHasAll(pups, pups.Keys, order, (x: IP) => Num(x) <= Num(last));
  }

  /** Ports assigned to web interfaces and ports exposed on the host. */
  method PortsConsumedBy(p: PupState) returns (ports: set<int>)
    ensures ports == PortsOf(p)
  {
    ports := {};
    for i := 0 to |p.webUIs|
      invariant ports == set q | q in p.webUIs[..i]
    {
      assert p.webUIs[..i + 1] == p.webUIs[..i] + [p.webUIs[i]];
      ports := ports + {p.webUIs[i]};
    }
    assert p.webUIs[..|p.webUIs|] == p.webUIs;
    for i := 0 to |p.manifest.exposes|
      invariant ports == (set q | q in p.webUIs) + HostPorts(p.manifest.exposes[..i])
    {
      var e := p.manifest.exposes[i];
      assert p.manifest.exposes[..i + 1] == p.manifest.exposes[..i] + [e];
      HostPortsSnoc(p.manifest.exposes[..i], e);
      if e.listenOnHost {
        ports := ports + {e.port};
      }
    }
    assert p.manifest.exposes[..|p.manifest.exposes|] == p.manifest.exposes;
  }

  ghost function HostPorts(exposes: seq<Expose>): set<int> {
    set e | e in exposes && e.listenOnHost :: e.port
  }

  lemma HostPortsSnoc(exposes: seq<Expose>, e: Expose)
    ensures HostPorts(exposes + [e]) == HostPorts(exposes) + if e.listenOnHost then {e.port} else {}
  {
    assert forall x :: x in exposes + [e] <==> x in exposes || x == e;
  }

  ghost function PortsOf(p: PupState): set<int> {
    (set q | q in p.webUIs) + HostPorts(p.manifest.exposes)
  }

  ghost function Consumed(pups: map<PupId, PupState>): set<int> {
    ConsumedBy(pups, pups.Keys)
  }

  ghost function ConsumedBy(pups: map<PupId, PupState>, ids: set<PupId>): set<int> {
    set id, port | id in ids && id in pups && port in PortsOf(pups[id]) :: port
  }

  lemma ConsumedNext(pups: map<PupId, PupState>, ids: set<PupId>, id: PupId)
    requires id in pups
    ensures ConsumedBy(pups, ids + {id}) == ConsumedBy(pups, ids) + PortsOf(pups[id])
  {
    forall port | port in ConsumedBy(pups, ids + {id})
      ensures port in ConsumedBy(pups, ids) + PortsOf(pups[id])
    {
      var i :| i in ids + {id} && i in pups && port in PortsOf(pups[i]);
      assert i == id || i in ids;
    }
    forall port | port in ConsumedBy(pups, ids)
      ensures port in ConsumedBy(pups, ids + {id})
    {
      var i :| i in ids && i in pups && port in PortsOf(pups[i]);
      assert i in ids + {id};
    }
    forall port | port in PortsOf(pups[id])
      ensures port in ConsumedBy(pups, ids + {id})
    {
      assert id in ids + {id} && id in pups && port in PortsOf(pups[id]);
    }
  }

  function WebUICount(exposes: seq<Expose>): nat {
    if exposes == [] then 0
    else WebUICount(exposes[..|exposes| - 1]) + if exposes[|exposes| - 1].webUI then 1 else 0
  }

  predicate IsAdoption(p: PupState, m: Manifest, source: Source) {
    p.manifest.name == m.name && p.manifest.version == m.version && p.source.id == source.id
  }

  ghost predicate AddressesCovered(pups: map<PupId, PupState>, last: IP) {
    forall id <- pups :: Num(pups[id].ip) <= Num(last)
  }

  datatype AdoptError = AlreadyExists(id: PupId) | AddressesExhausted | AdoptFailed

  function NewPup(id: PupId, m: Manifest, source: Source, defaults: map<string, string>, ip: IP, ports: seq<int>)
    : PupState
  {
    PupState(id, source, m, m.version, Settings(defaults), false, NoSettings, Installing, "", false, ip, ports)
  }

  /** An adoption: an existing pup is reported as such and nothing changes; any
      other attempt uses up the next address, and a successful one adds the new
      pup with that address and the first free ports. */
  ghost predicate AdoptDid(pups: map<PupId, PupState>, last: IP, pups': map<PupId, PupState>, last': IP, m: Manifest,
                           source: Source, newID: PupId, defaults: map<string, string>, osFree: set<int>,
                           r: Result<PupId, AdoptError>)
  {
    if r.Err? && r.error.AlreadyExists? then
      r.error.id in pups && IsAdoption(pups[r.error.id], m, source) && pups' == pups && last' == last
    else
      && (forall id <- pups :: !IsAdoption(pups[id], m, source))
      && Num(last') == (Num(last) + 1) % SPACE
      && (r == Err(AddressesExhausted) <==> OffTheEdge(last'))
      && (r.Err? ==> pups' == pups)
      && (r.Ok? ==>
            && r.value == newID && newID in pups'
            && var ports := pups'[newID].webUIs;
            && FirstFit(ports, Consumed(pups), osFree) && |ports| == WebUICount(m.exposes)
            && pups' == pups[newID := NewPup(newID, m, source, defaults, last', ports)])
  }

  /** No other file differs. */
  ghost predicate SavesOnly(files: map<PupId, PupState>, files': map<PupId, PupState>, id: PupId) {
    files' - {id} == files - {id}
  }

  lemma OnlyOneSaved(files: map<PupId, PupState>, id: PupId, p: PupState)
    ensures SavesOnly(files, files[id := p], id)
  {}

  lemma OnlyOneRemoved(files: map<PupId, PupState>, id: PupId)
    ensures SavesOnly(files, files - {id}, id)
  {}

  const DOWNLOAD_FAILED := "download_failed"

  function Recover(p: PupState): PupState {
    if p.installation == Installing then p.(installation := Broken, brokenReason := DOWNLOAD_FAILED) else p
  }

  function Recovered(pups: map<PupId, PupState>): map<PupId, PupState> {
    map id | id in pups :: Recover(pups[id])
  }

  /** A start turns interrupted installs, and only those, into broken pups whose
      download failed; nothing else of a pup changes. */
  lemma StartBreaksInstalls(saved: map<PupId, PupState>)
    ensures Recovered(saved).Keys == saved.Keys
    ensures forall id <- saved ::
              var was, now := saved[id], Recovered(saved)[id];
              && (was.installation.Installing? ==>
                    && now.installation.Broken? && now.brokenReason == "download_failed"
                    && now == was.(installation := now.installation, brokenReason := now.brokenReason))
              && (!was.installation.Installing? ==> now == was)
  {
    forall id | id in saved
      ensures Recovered(saved)[id] == Recover(saved[id])
    {}
  }

  // ------------------------------------------------------------------
  // What an adoption leaves
  // ------------------------------------------------------------------

  /** An attempt is answered with a pup that is there exactly when one has this name,
      version and source, and that pup is named. */
  lemma AdoptedOnce(pups: map<PupId, PupState>, last: IP, pups': map<PupId, PupState>, last': IP, m: Manifest,
                    source: Source, newID: PupId, defaults: map<string, string>, osFree: set<int>,
                    r: Result<PupId, AdoptError>)
    requires AdoptDid(pups, last, pups', last', m, source, newID, defaults, osFree, r)
    ensures r.Err? && r.error.AlreadyExists? <==> exists id :: IsSamePup(pups, id, m, source)
    ensures r.Err? && r.error.AlreadyExists? ==> IsSamePup(pups, r.error.id, m, source)
  {
    if r.Err? && r.error.AlreadyExists? {
      assert IsSamePup(pups, r.error.id, m, source);
    } else if id :| IsSamePup(pups, id, m, source) {
      assert IsAdoption(pups[id], m, source);
    }
  }

  ghost predicate IsSamePup(pups: map<PupId, PupState>, id: PupId, m: Manifest, source: Source) {
    && id in pups && pups[id].manifest.name == m.name && pups[id].manifest.version == m.version
    && pups[id].source.id == source.id
  }

  /** A new pup is installing and disabled, at the manifest's version, with the defaults
      as its config, the address just taken, and ports from 10000 up that were free and
      that no pup had been assigned or exposes on the host, smallest first. */
  lemma NewPupIs(pups: map<PupId, PupState>, last: IP, pups': map<PupId, PupState>, last': IP, m: Manifest,
                 source: Source, newID: PupId, defaults: map<string, string>, osFree: set<int>,
                 r: Result<PupId, AdoptError>)
    requires AdoptDid(pups, last, pups', last', m, source, newID, defaults, osFree, r) && r.Ok?
    ensures newID in pups' && pups' == pups[newID := pups'[newID]]
    ensures var p := pups'[newID];
            && p.id == newID && p.source == source && p.manifest == m && p.version == m.version
            && p.installation == Installing && !p.enabled && p.config == Settings(defaults) && !p.configSaved
            && p.providers == NoSettings && p.brokenReason == "" && p.ip == last'
            && |p.webUIs| == WebUICount(m.exposes)
            && (forall i, j :: 0 <= i < j < |p.webUIs| ==> p.webUIs[i] < p.webUIs[j])
            && (forall port <- p.webUIs :: port >= 10000 && port in osFree)
            && forall port <- p.webUIs, id <- pups :: !HasPort(pups[id], port)
  {
    forall port, id | port in pups'[newID].webUIs && id in pups
      ensures !HasPort(pups[id], port)
    {
      FreePortIsNotHad(pups, id, port);
    }
  }

  lemma FreePortIsNotHad(pups: map<PupId, PupState>, id: PupId, port: int)
    requires id in pups && port !in Consumed(pups)
    ensures !HasPort(pups[id], port)
  {
    if HasPort(pups[id], port) {
      HasPortIsConsumed(pups, id, port);
    }
  }

  /** The port is assigned to one of the pup's web interfaces, or exposed by it on the
      host. */
  ghost predicate HasPort(p: PupState, port: int) {
    port in p.webUIs || exists i :: IsHostPort(p.manifest.exposes, i, port)
  }

  ghost predicate IsHostPort(exposes: seq<Expose>, i: int, port: int) {
    0 <= i < |exposes| && exposes[i].listenOnHost && exposes[i].port == port
  }

  lemma HasPortIsConsumed(pups: map<PupId, PupState>, id: PupId, port: int)
    requires id in pups && HasPort(pups[id], port)
    ensures port in Consumed(pups)
  {
    if i :| IsHostPort(pups[id].manifest.exposes, i, port) {
      assert pups[id].manifest.exposes[i] in pups[id].manifest.exposes;
    }
    assert port in PortsOf(pups[id]);
  }

  /** And no other port is avoided. */
  lemma ConsumedPortsAreHad(pups: map<PupId, PupState>, port: int)
    ensures port in Consumed(pups) <==> exists id :: id in pups && HasPort(pups[id], port)
  {
    if port in Consumed(pups) {
      var id :| id in pups && port in PortsOf(pups[id]);
      if port !in pups[id].webUIs {
        var e :| e in pups[id].manifest.exposes && e.listenOnHost && e.port == port;
        var i :| 0 <= i < |pups[id].manifest.exposes| && pups[id].manifest.exposes[i] == e;
        assert IsHostPort(pups[id].manifest.exposes, i, port);
      }
    }
    if id :| id in pups && HasPort(pups[id], port) {
      HasPortIsConsumed(pups, id, port);
    }
  }

  /** A snapshot holds what the copy shows. */
  lemma SnapshotHolds(p: PupState)
    ensures var snap := SnapshotOf(p);
            && snap.version == p.version && snap.manifest == p.manifest && snap.enabled == p.enabled
            && snap.sourceID == p.source.id
            && snap.config == (if p.config.Settings? then p.config.entries else map[])
            && snap.providers == (if p.providers.Settings? then p.providers.entries else map[])
  {}
}
