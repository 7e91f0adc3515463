/** Addresses and ports over every run of adopting, updating and purging pups and
    restarting (pkg/pup/actions.go, pkg/pup/manager.go). */
module Adoption {
  import opened Wrappers
  import opened Events
  import opened Allocators
  import opened Pups

  /** `saved` are the state files. */
  datatype Net = Net(pups: map<PupId, PupState>, saved: map<PupId, PupState>, last: IP)

  /** `written` and `removed` tell whether the state file could be written or removed;
      `files` are the state files once the start-up has recovered, and `last` is
      where its scan ended. */
  datatype NetStep =
    | Adopt(m: Manifest, source: Source, newID: PupId, defaults: map<string, string>, osFree: set<int>,
            r: Result<PupId, AdoptError>, pups: map<PupId, PupState>, last: IP)
    | Change(id: PupId, updates: seq<Update>, written: bool)
    | Purge(id: PupId, removed: bool)
    | Restart(files: map<PupId, PupState>, last: IP)

  ghost predicate Possible(n: Net, step: NetStep) {
    match step
    case Adopt(m, source, newID, defaults, osFree, r, pups, last) =>
      && newID !in n.pups && newID !in n.saved
      && AdoptDid(n.pups, n.last, pups, last, m, source, newID, defaults, osFree, r)
    case Change(id, _, _) => id in n.pups
    case Purge(_, _) => true
    case Restart(files, last) => FilesRecovered(n.saved, files) && ScannedFrom(n.saved, last)
  }

  ghost function Then(n: Net, step: NetStep): Net
    requires Possible(n, step)
  {
    match step
    case Adopt(_, _, newID, _, _, r, pups, last) =>
      Net(pups, if r.Ok? then n.saved[newID := pups[newID]] else n.saved, last)
    case Change(id, us, written) =>
      var p := ApplyUpdates(n.pups[id], us);
      n.(pups := n.pups[id := p], saved := if written then n.saved[id := p] else n.saved)
    case Purge(id, removed) => n.(pups := n.pups - {id}, saved := if removed then n.saved - {id} else n.saved)
    case Restart(files, last) => Net(Recovered(n.saved), files, last)
  }

  ghost predicate DistinctAddresses(pups: map<PupId, PupState>) {
    forall a <- pups, b <- pups :: a != b ==> pups[a].ip != pups[b].ip
  }

  /** All assigned ports of all pups are pairwise distinct. */
  ghost predicate DistinctPorts(pups: map<PupId, PupState>) {
    && (forall a <- pups :: DistinctWithin(pups[a].webUIs))
    && (forall a <- pups, b <- pups :: a != b ==> Apart(pups[a].webUIs, pups[b].webUIs))
  }

  ghost predicate PortsWithin(saved: map<PupId, PupState>) {
    forall id <- saved :: DistinctWithin(saved[id].webUIs)
  }

  ghost predicate DistinctWithin(ports: seq<int>) {
    forall i, j :: 0 <= i < j < |ports| ==> ports[i] != ports[j]
  }

  ghost predicate Apart(a: seq<int>, b: seq<int>) {
    forall port <- a :: port !in b
  }

  /** Every live pup has a state file with its address and its ports. */
  ghost predicate Backed(pups: map<PupId, PupState>, saved: map<PupId, PupState>) {
    forall id <- pups :: id in saved && saved[id].ip == pups[id].ip && saved[id].webUIs == pups[id].webUIs
  }

  /** Live pups have distinct ports; all state files, those that a purge could not
      remove included, have distinct addresses, all up to the counter. */
  ghost predicate NetInv(n: Net) {
    && Backed(n.pups, n.saved) && DistinctPorts(n.pups) && PortsWithin(n.saved)
    && DistinctAddresses(n.saved) && AddressesCovered(n.saved, n.last)
  }

  /** A state file that a purge could not remove shares no port with another file. */
  ghost predicate LeftoversApart(n: Net) {
    forall a <- n.saved, b <- n.saved :: a != b && a !in n.pups ==> Apart(n.saved[a].webUIs, n.saved[b].webUIs)
  }

  // ------------------------------------------------------------------
  // Addresses
  // ------------------------------------------------------------------

  ghost predicate UsesAddress(step: NetStep) {
    step.Adopt? && !(step.r.Err? && step.r.error.AlreadyExists?)
  }

  /** An adopted pup gets an address above every address in use, at most
      10.70.255.255, as long as the counter has not gone all the way round. */
  lemma AdoptedAddressIsFresh(n: Net, step: NetStep)
    requires AddressesCovered(n.saved, n.last) && step.Adopt? && Possible(n, step)
    requires UsesAddress(step) ==> Num(n.last) + 1 < SPACE
    ensures AddressesCovered(Then(n, step).saved, step.last)
    ensures Num(step.last) == Num(n.last) + if UsesAddress(step) then 1 else 0
    ensures step.r.Ok? ==>
              && step.pups[step.newID].ip == step.last && Num(step.last) <= Num(LAST_IP)
              && forall id <- n.saved :: Num(n.saved[id].ip) < Num(step.last)
  {
    EdgeIsLimit(step.last);
    if UsesAddress(step) {
      NextIsPlusOne(Num(n.last));
    }
  }

  lemma NextIsPlusOne(n: nat)
    requires n + 1 < SPACE
    ensures (n + 1) % SPACE == n + 1
  {}

  /** When it does go round, the next adoption is accepted at 0.0.0.0, below every
      other address: the edge test looks only upwards. */
  lemma WrappedCounterStartsOver(n: Net, step: NetStep)
    requires step.Adopt? && Possible(n, step) && step.r.Ok? && Num(n.last) + 1 == SPACE
    ensures step.pups[step.newID].ip == [0, 0, 0, 0]
    ensures AddressesCovered(Then(n, step).saved, step.last) <==> forall id <- n.saved :: n.saved[id].ip == [0, 0, 0, 0]
  {
    var zero: IP := [0, 0, 0, 0];
    assert Num(zero) == 0;
    NumInjective(step.last, zero);
    forall id | id in n.saved
      ensures Num(n.saved[id].ip) <= 0 <==> n.saved[id].ip == zero
    {
      if Num(n.saved[id].ip) == 0 {
        NumInjective(n.saved[id].ip, zero);
      }
    }
    assert forall id <- n.saved :: Then(n, step).saved[id] == n.saved[id];
  }

  // ------------------------------------------------------------------
  // Ports
  // ------------------------------------------------------------------

  lemma AdoptedPortsAreFree(n: Net, step: NetStep)
    requires DistinctPorts(n.pups) && step.Adopt? && Possible(n, step) && step.r.Ok?
    ensures DistinctPorts(step.pups)
  {
    var ports := step.pups[step.newID].webUIs;
    forall id, port | id in n.pups && port in n.pups[id].webUIs
      ensures port !in ports
    {
      AvoidsConsumed(n, step, id, port);
    }
    assert forall id <- n.pups :: step.pups[id] == n.pups[id];
  }

  lemma AvoidsConsumed(n: Net, step: NetStep, id: PupId, port: int)
    requires step.Adopt? && Possible(n, step) && step.r.Ok? && id in n.pups && port in PortsOf(n.pups[id])
    ensures port !in step.pups[step.newID].webUIs
  {
    assert port in Consumed(n.pups);
  }

  /** If this adoption could assign the port at all, then enough others lie below it. */
  ghost predicate PassesOver(n: Net, step: NetStep, port: int)
    requires step.Adopt?
  {
    Candidate(port, Consumed(n.pups), step.osFree) ==>
      WebUICount(step.m.exposes) <= |CandidatesBelow(port, Consumed(n.pups), step.osFree)|
  }

  lemma PassesOverIff(n: Net, step: NetStep, port: int)
    requires step.Adopt? && Possible(n, step) && step.r.Ok?
    ensures port !in step.pups[step.newID].webUIs <==> PassesOver(n, step, port)
  {
    if Candidate(port, Consumed(n.pups), step.osFree) {
      PickedIff(step.pups[step.newID].webUIs, port, Consumed(n.pups), step.osFree);
    }
  }

  /** Only the ports of pups already adopted are avoided. None of the assigned ports is
      one that the pup itself exposes on the host exactly when every such port that
      would do has enough others below it. */
  lemma OwnHostPortsAvoidedIff(n: Net, step: NetStep)
    requires step.Adopt? && Possible(n, step) && step.r.Ok?
    ensures OwnHostPortsAvoided(step.pups[step.newID]) <==>
            forall port <- HostPorts(step.m.exposes) :: PassesOver(n, step, port)
  {
    forall port | port in HostPorts(step.m.exposes)
      ensures port !in step.pups[step.newID].webUIs <==> PassesOver(n, step, port)
    {
      PassesOverIff(n, step, port);
    }
  }

  ghost predicate OwnHostPortsAvoided(p: PupState) {
    forall port <- p.webUIs :: port !in HostPorts(p.manifest.exposes)
  }

  /** An adoption that meets no failure. */
  lemma CanAdopt(n: Net, m: Manifest, source: Source, newID: PupId, osFree: set<int>, ports: seq<int>)
    returns (step: NetStep)
    requires newID !in n.pups && newID !in n.saved && forall id <- n.pups :: !IsAdoption(n.pups[id], m, source)
    requires FirstFit(ports, Consumed(n.pups), osFree) && |ports| == WebUICount(m.exposes)
    requires Num(n.last) < Num(LAST_IP)
    ensures step.Adopt? && Possible(n, step) && step.r.Ok? && step.newID == newID && step.m == m
    ensures Num(step.last) == Num(n.last) + 1
    ensures var p := NewPup(newID, m, source, map[], step.last, ports);
            Then(n, step) == Net(n.pups[newID := p], n.saved[newID := p], step.last)
  {
    var last := AddressAt(Num(n.last) + 1);
    EdgeIsLimit(last);
    NextIsPlusOne(Num(n.last));
    var p := NewPup(newID, m, source, map[], last, ports);
    step := Adopt(m, source, newID, map[], osFree, Ok(newID), n.pups[newID := p], last);
  }

  /** A web interface, and the port `q` on the host. */
  function WantsPort(q: int): Manifest {
    Manifest("m", "1", {}, [Expose(80, true, false), Expose(q, false, true)], [], [])
  }

  /** And it can happen to every pup that exposes the smallest free port. */
  lemma OwnHostPortCanBeAssigned(n: Net, q: int, osFree: set<int>, source: Source, newID: PupId)
    returns (step: NetStep)
    requires Candidate(q, Consumed(n.pups), osFree)
    requires forall p :: Candidate(p, Consumed(n.pups), osFree) ==> q <= p
    requires newID !in n.pups && newID !in n.saved
    requires forall id <- n.pups :: !IsAdoption(n.pups[id], WantsPort(q), source)
    requires Num(n.last) < Num(LAST_IP)
    ensures Possible(n, step) && step.Adopt? && step.r.Ok? && step.m == WantsPort(q)
    ensures step.newID == newID && newID in step.pups && !OwnHostPortsAvoided(step.pups[newID])
  {
    OneWebUI(Expose(80, true, false), [Expose(q, false, true)]);
    assert [Expose(80, true, false)] + [Expose(q, false, true)] == WantsPort(q).exposes;
    assert FirstFit([q], Consumed(n.pups), osFree);
    step := CanAdopt(n, WantsPort(q), source, newID, osFree, [q]);
    var p := step.pups[newID];
    assert p.manifest == WantsPort(q) && q in p.webUIs;
    assert p.manifest.exposes[1] in p.manifest.exposes && p.manifest.exposes[1].listenOnHost;
  }

  lemma OneWebUI(first: Expose, rest: seq<Expose>)
    requires first.webUI && (rest == [] || (|rest| == 1 && !rest[0].webUI))
    ensures WebUICount([first] + rest) == 1
  {
    assert [first] + [] == [first] && ([first] + rest)[..1] == [first] && [first][..0] == [];
    assert WebUICount([first]) == 1;
  }

  /** No pup's assigned port is exposed on the host by that or another pup. */
  ghost predicate HostPortsClear(pups: map<PupId, PupState>) {
    forall a <- pups, b <- pups :: Avoids(pups[a], pups[b].manifest)
  }

  ghost predicate Avoids(p: PupState, m: Manifest) {
    forall port <- p.webUIs :: port !in HostPorts(m.exposes)
  }

  /** The other way to share a port: the new pup exposes one on the host that an
      earlier pup was assigned. An adoption keeps host ports clear exactly when
      neither happens. */
  lemma AdoptionKeepsHostPortsClearIff(n: Net, step: NetStep)
    requires HostPortsClear(n.pups) && step.Adopt? && Possible(n, step) && step.r.Ok?
    ensures HostPortsClear(step.pups) <==>
            forall port <- HostPorts(step.m.exposes) ::
              PassesOver(n, step, port) && forall id <- n.pups :: port !in n.pups[id].webUIs
  {
    var p := step.pups[step.newID];
    OwnHostPortsAvoidedIff(n, step);
    forall id | id in n.pups
      ensures Avoids(p, n.pups[id].manifest) && step.pups[id] == n.pups[id]
    {
      forall port | port in HostPorts(n.pups[id].manifest.exposes)
        ensures port !in p.webUIs
      {
        AvoidsConsumed(n, step, id, port);
      }
    }
    ClearWith(n.pups, step.newID, p);
  }

  lemma ClearWith(pups: map<PupId, PupState>, newID: PupId, p: PupState)
    requires newID !in pups && HostPortsClear(pups) && forall id <- pups :: Avoids(p, pups[id].manifest)
    ensures HostPortsClear(pups[newID := p]) <==>
            Avoids(p, p.manifest) && forall id <- pups :: Avoids(pups[id], p.manifest)
  {
    var more := pups[newID := p];
    if HostPortsClear(more) {
      assert Avoids(more[newID], more[newID].manifest);
      forall id | id in pups
        ensures Avoids(pups[id], p.manifest)
      {
        assert Avoids(more[id], more[newID].manifest);
      }
    }
  }

  /** The manifest that updates leave. */
  function LastManifest(m: Manifest, us: seq<Update>): Manifest
    decreases |us|
  {
    if us == [] then m else LastManifest(if us[0].SetManifest? then us[0].manifest else m, us[1..])
  }

  lemma {:induction false} UpdatesSetManifest(p: PupState, us: seq<Update>)
    ensures ApplyUpdates(p, us).manifest == LastManifest(p.manifest, us)
    decreases |us|
  {
    if us != [] {
      UpdatesSetManifest(ApplyUpdate(p, us[0]), us[1..]);
    }
  }

  /** An upgrade or a rollback looks at no port: it keeps host ports clear exactly when
      the manifest it brings exposes no port that a pup has been assigned. */
  lemma ChangeKeepsHostPortsClearIff(n: Net, step: NetStep)
    requires HostPortsClear(n.pups) && step.Change? && Possible(n, step)
    ensures HostPortsClear(Then(n, step).pups) <==>
            forall id <- n.pups :: Avoids(n.pups[id], LastManifest(n.pups[step.id].manifest, step.updates))
  {
    var was, now := n.pups, Then(n, step).pups;
    UpdatesKeepIdentity(was[step.id], step.updates);
    UpdatesSetManifest(was[step.id], step.updates);
    var m := now[step.id].manifest;
    forall id | id in was
      ensures Avoids(now[id], m) <==> Avoids(was[id], m)
      ensures forall b <- was :: b != step.id ==> Avoids(now[id], now[b].manifest)
    {
      forall b | b in was && b != step.id
        ensures Avoids(now[id], now[b].manifest)
      {
        assert Avoids(was[id], was[b].manifest);
      }
    }
    if HostPortsClear(now) {
      forall id | id in was
        ensures Avoids(now[id], m)
      {
        assert Avoids(now[id], now[step.id].manifest);
      }
    }
  }

  // ------------------------------------------------------------------
  // What each step keeps
  // ------------------------------------------------------------------

  lemma AdoptKeepsNetInv(n: Net, step: NetStep)
    requires NetInv(n) && Possible(n, step) && step.Adopt?
    requires UsesAddress(step) ==> Num(n.last) + 1 < SPACE
    ensures NetInv(Then(n, step))
  {
    AdoptedAddressIsFresh(n, step);
    if step.r.Ok? {
      AdoptedPortsAreFree(n, step);
      FreshAddressIsDistinct(n.saved, step.newID, step.pups[step.newID]);
    }
  }

  lemma FreshAddressIsDistinct(saved: map<PupId, PupState>, id: PupId, p: PupState)
    requires DistinctAddresses(saved) && id !in saved && forall i <- saved :: Num(saved[i].ip) < Num(p.ip)
    ensures DistinctAddresses(saved[id := p])
  {}

  lemma ChangeKeepsNetInv(n: Net, step: NetStep)
    requires NetInv(n) && Possible(n, step) && step.Change?
    ensures NetInv(Then(n, step))
  {
    ChangeKeepsBoth(n, step);
    var n' := Then(n, step);
    PortsStayDistinct(n.pups, n'.pups);
    AddressesStayCovered(n.saved, n'.saved, n.last);
  }

  lemma ChangeKeepsBoth(n: Net, step: NetStep)
    requires Backed(n.pups, n.saved) && Possible(n, step) && step.Change?
    ensures var n' := Then(n, step);
            && SamePorts(n.pups, n'.pups) && SamePorts(n.saved, n'.saved) && SameAddresses(n.saved, n'.saved)
            && Backed(n'.pups, n'.saved)
  {
    UpdatesKeepIdentity(n.pups[step.id], step.updates);
  }

  // Only addresses and ports matter.

  ghost predicate SameAddresses(pups: map<PupId, PupState>, pups': map<PupId, PupState>) {
    pups'.Keys == pups.Keys && forall id <- pups :: pups'[id].ip == pups[id].ip
  }

  ghost predicate SamePorts(pups: map<PupId, PupState>, pups': map<PupId, PupState>) {
    pups'.Keys == pups.Keys && forall id <- pups :: pups'[id].webUIs == pups[id].webUIs
  }

  lemma PortsStayDistinct(pups: map<PupId, PupState>, pups': map<PupId, PupState>)
    requires SamePorts(pups, pups')
    ensures DistinctPorts(pups') <==> DistinctPorts(pups)
  {
    forall a, b | a in pups && b in pups
      ensures Apart(pups'[a].webUIs, pups'[b].webUIs) <==> Apart(pups[a].webUIs, pups[b].webUIs)
    {}
  }

  lemma AddressesStayCovered(pups: map<PupId, PupState>, pups': map<PupId, PupState>, last: IP)
    requires SameAddresses(pups, pups')
    ensures DistinctAddresses(pups') <==> DistinctAddresses(pups)
    ensures AddressesCovered(pups', last) <==> AddressesCovered(pups, last)
  {}

  lemma PurgeKeepsNetInv(n: Net, step: NetStep)
    requires NetInv(n) && Possible(n, step) && step.Purge?
    ensures NetInv(Then(n, step))
  {}

  // ------------------------------------------------------------------
  // Restarts
  // ------------------------------------------------------------------

  ghost predicate Dominates(top: IP, saved: map<PupId, PupState>) {
    forall id <- saved :: OctetsLe(saved[id].ip, top)
  }

  ghost predicate IsTop(saved: map<PupId, PupState>, id: PupId) {
    id in saved && Dominates(saved[id].ip, saved)
  }

  /** Some stored address, or the one the scan starts from, is largest in every octet. */
  ghost predicate Dominated(saved: map<PupId, PupState>) {
    Dominates(FIRST_IP, saved) || exists id :: IsTop(saved, id)
  }

  /** In every order the scan ends at or above all stored addresses: exactly then. */
  lemma EveryScanCoversIff(saved: map<PupId, PupState>)
    ensures (forall last :: ScannedFrom(saved, last) ==> AddressesCovered(saved, last)) <==> Dominated(saved)
  {
    if Dominated(saved) {
      forall last | ScannedFrom(saved, last)
        ensures AddressesCovered(saved, last)
      {
        DominatedIsCovered(saved, last);
      }
    } else {
      var last := ScanThatMisses(saved);
    }
  }

  lemma DominatedIsCovered(saved: map<PupId, PupState>, last: IP)
    requires Dominated(saved) && ScannedFrom(saved, last)
    ensures AddressesCovered(saved, last)
  {
    var order :| InSomeOrder(saved, saved.Keys, order) && last == Scan(FIRST_IP, order);
    var top := FIRST_IP;
    if !Dominates(FIRST_IP, saved) {
      var id :| IsTop(saved, id);
      top := saved[id].ip;
      OrderHasOne(saved, order, id);
    }
    OrderHasAll(saved, saved.Keys, order, (x: IP) => OctetsLe(x, top));
    ScanCovers(FIRST_IP, order, top);
    OrderCovered(saved, order, last);
  }

  lemma OrderHasOne(saved: map<PupId, PupState>, order: seq<IP>, id: PupId)
    requires InSomeOrder(saved, saved.Keys, order) && id in saved
    ensures saved[id].ip in order
  {
    OrderHasAll(saved, saved.Keys, order, (x: IP) => x in order);
  }

  /** Otherwise the scan misses the largest address when it comes next to last. */
  lemma ScanThatMisses(saved: map<PupId, PupState>) returns (last: IP)
    requires !Dominated(saved)
    ensures ScannedFrom(saved, last) && !AddressesCovered(saved, last)
  {
    var top, other := Undominated(saved);
    var rest := OthersFirst(saved, top, other);
    RestIsCovered(saved, rest, saved[top].ip, saved[other].ip);
    ScanCanMissTop(FIRST_IP, rest, saved[top].ip, saved[other].ip);
    last := saved[other].ip;
    EndsBelow(saved, rest + [saved[top].ip, last], top, last);
  }

  lemma EndsBelow(saved: map<PupId, PupState>, order: seq<IP>, top: PupId, last: IP)
    requires InSomeOrder(saved, saved.Keys, order) && last == Scan(FIRST_IP, order)
    requires top in saved && Num(last) < Num(saved[top].ip)
    ensures ScannedFrom(saved, last) && !AddressesCovered(saved, last)
  {}

  lemma RestIsCovered(saved: map<PupId, PupState>, rest: seq<IP>, top: IP, other: IP)
    requires InSomeOrder(saved, saved.Keys, rest + [top, other]) && AddressesCovered(saved, top)
    ensures Num(other) <= Num(top) && forall x <- rest :: Num(x) <= Num(top)
  {
    OrderCovered(saved, rest + [top, other], top);
    assert other in rest + [top, other] && forall x <- rest :: x in rest + [top, other];
  }

  lemma Undominated(saved: map<PupId, PupState>) returns (top: PupId, other: PupId)
    requires !Dominated(saved)
    ensures top in saved && other in saved && AddressesCovered(saved, saved[top].ip)
    ensures !OctetsLe(saved[other].ip, saved[top].ip)
    ensures OctetsLe(saved[top].ip, FIRST_IP) ==> !OctetsLe(saved[other].ip, FIRST_IP)
  {
    other :| other in saved && !OctetsLe(saved[other].ip, FIRST_IP);
    top := Largest(saved, saved.Keys);
    if !OctetsLe(saved[top].ip, FIRST_IP) {
      assert !IsTop(saved, top);
      other :| other in saved && !OctetsLe(saved[other].ip, saved[top].ip);
    }
  }

  lemma OthersFirst(saved: map<PupId, PupState>, a: PupId, b: PupId) returns (rest: seq<IP>)
    requires a in saved && b in saved && a != b
    ensures InSomeOrder(saved, saved.Keys, rest + [saved[a].ip, saved[b].ip])
  {
    var others := saved.Keys - {a, b};
    rest := SomeOrder(saved, others);
    OrderSnoc(saved, others, rest, a);
    OrderSnoc(saved, others + {a}, rest + [saved[a].ip], b);
    assert others + {a} + {b} == saved.Keys;
    assert rest + [saved[a].ip] + [saved[b].ip] == rest + [saved[a].ip, saved[b].ip];
  }

  lemma SomeOrder(saved: map<PupId, PupState>, keys: set<PupId>) returns (order: seq<IP>)
    requires keys <= saved.Keys
    ensures InSomeOrder(saved, keys, order)
    decreases |keys|
  {
    if keys == {} {
      order := [];
    } else {
      var id :| id in keys;
      order := SomeOrder(saved, keys - {id});
      OrderSnoc(saved, keys - {id}, order, id);
      assert keys - {id} + {id} == keys;
      order := order + [saved[id].ip];
    }
  }

  lemma Largest(saved: map<PupId, PupState>, ids: set<PupId>) returns (top: PupId)
    requires ids != {} && ids <= saved.Keys
    ensures top in ids && forall id <- ids :: Num(saved[id].ip) <= Num(saved[top].ip)
    decreases |ids|
  {
    top :| top in ids;
    if ids != {top} {
      var other := Largest(saved, ids - {top});
      top := if Num(saved[top].ip) < Num(saved[other].ip) then other else top;
    }
  }

  lemma RestartKeepsNetInv(n: Net, step: NetStep)
    requires NetInv(n) && Possible(n, step) && step.Restart?
    ensures NetInv(Then(n, step)) <==> LeftoversApart(n) && AddressesCovered(n.saved, step.last)
    ensures LeftoversApart(Then(n, step))
  {
    RestartLoadsFiles(n, step);
    FilesLoaded(n, Then(n, step));
  }

  /** The start reads the files, and leaves them with the same addresses and ports. */
  ghost predicate Loaded(saved: map<PupId, PupState>, m: Net) {
    && SameAddresses(saved, m.pups) && SamePorts(saved, m.pups)
    && SameAddresses(saved, m.saved) && SamePorts(saved, m.saved)
  }

  lemma RestartLoadsFiles(n: Net, step: NetStep)
    requires Possible(n, step) && step.Restart?
    ensures Loaded(n.saved, Then(n, step))
  {}

  /** A restart brings back each pup as it was last written, but for an interrupted
      install: what an adoption or an update wrote, the removal of a purge, and nothing of
      an update that could not be written. */
  lemma RestartBringsLastWrite(n: Net, step: NetStep, restart: NetStep, id: PupId)
    requires Possible(n, step) && restart.Restart? && Possible(Then(n, step), restart)
    ensures var back := Then(Then(n, step), restart).pups;
            && (step.Change? && step.id == id && step.written ==>
                  id in back && back[id] == Recover(ApplyUpdates(n.pups[id], step.updates)))
            && (step.Change? && (step.id != id || !step.written) && id in n.saved ==>
                  id in back && back[id] == Recover(n.saved[id]))
            && (step.Adopt? && step.r.Ok? && step.newID == id ==>
                  id in back && back[id] == Recover(step.pups[id]))
            && (step.Purge? && step.id == id ==> (id in back <==> id in n.saved && !step.removed))
  {
    forall i | i in Then(n, step).saved
      ensures Recovered(Then(n, step).saved)[i] == Recover(Then(n, step).saved[i])
    {}
  }

  lemma FilesLoaded(n: Net, m: Net)
    requires NetInv(n) && Loaded(n.saved, m)
    ensures NetInv(m) <==> LeftoversApart(n) && AddressesCovered(n.saved, m.last)
    ensures LeftoversApart(m)
  {
    LoadedPorts(n, m);
    AddressesStayCovered(n.saved, m.saved, m.last);
    assert Backed(m.pups, m.saved);
  }

  lemma LoadedPorts(n: Net, m: Net)
    requires NetInv(n) && Loaded(n.saved, m)
    ensures DistinctPorts(m.pups) <==> LeftoversApart(n)
    ensures PortsWithin(m.saved)
  {
    PortsStayDistinct(n.saved, m.pups);
    FilesApartIff(n);
  }

  lemma FilesApartIff(n: Net)
    requires NetInv(n)
    ensures DistinctPorts(n.saved) <==> LeftoversApart(n)
  {
    if LeftoversApart(n) {
      forall a, b | a in n.saved && b in n.saved && a != b
        ensures Apart(n.saved[a].webUIs, n.saved[b].webUIs)
      {
        if a in n.pups && b in n.pups {
          assert Apart(n.pups[a].webUIs, n.pups[b].webUIs);
        } else if a in n.pups {
          assert Apart(n.saved[b].webUIs, n.saved[a].webUIs);
        }
      }
    }
  }

  /** Every restart of this state keeps the invariant, whatever the order of the scan,
      exactly when no file left by a purge shares a port with another one and the
      stored addresses are dominated. */
  lemma EveryRestartKeepsNetInvIff(n: Net)
    requires NetInv(n)
    ensures (forall step: NetStep :: step.Restart? && Possible(n, step) ==> NetInv(Then(n, step))) <==>
            LeftoversApart(n) && Dominated(n.saved)
  {
    if LeftoversApart(n) && Dominated(n.saved) {
      forall step: NetStep | step.Restart? && Possible(n, step)
        ensures NetInv(Then(n, step))
      {
        DominatedIsCovered(n.saved, step.last);
        RestartKeepsNetInv(n, step);
      }
    } else {
      var step := BadRestart(n);
    }
  }

  lemma BadRestart(n: Net) returns (step: NetStep)
    requires NetInv(n) && !(LeftoversApart(n) && Dominated(n.saved))
    ensures step.Restart? && Possible(n, step) && !NetInv(Then(n, step))
  {
    var last;
    if Dominated(n.saved) {
      last := SomeScan(n.saved);
    } else {
      last := ScanThatMisses(n.saved);
    }
    step := CanRestart(n, last);
    RestartKeepsNetInv(n, step);
  }

  lemma CanRestart(n: Net, last: IP) returns (step: NetStep)
    requires ScannedFrom(n.saved, last)
    ensures step == Restart(n.saved, last) && Possible(n, step)
  {
    step := Restart(n.saved, last);
  }

  lemma SomeScan(saved: map<PupId, PupState>) returns (last: IP)
    ensures ScannedFrom(saved, last)
  {
    var order := SomeOrder(saved, saved.Keys);
    last := Scan(FIRST_IP, order);
  }

  /** The adoption passes over every port of a file left by a purge. */
  ghost predicate SafeAdoption(n: Net, step: NetStep)
    requires step.Adopt?
  {
    forall id <- n.saved, port <- n.saved[id].webUIs :: id !in n.pups ==> PassesOver(n, step, port)
  }

  /** A file left by a purge does its harm when a later pup is assigned one of its
      ports: exactly when the adoption is not safe. */
  lemma AdoptionKeepsFilesApartIff(n: Net, step: NetStep)
    requires NetInv(n) && LeftoversApart(n) && step.Adopt? && Possible(n, step) && step.r.Ok?
    ensures LeftoversApart(Then(n, step)) <==> SafeAdoption(n, step)
  {
    forall port
      ensures port !in step.pups[step.newID].webUIs <==> PassesOver(n, step, port)
    {
      PassesOverIff(n, step, port);
    }
    assert SafeAdoption(n, step) <==>
           forall id <- n.saved :: id !in n.pups ==> Apart(n.saved[id].webUIs, step.pups[step.newID].webUIs);
    LeftoversWith(n, step.newID, step.pups[step.newID], step.last);
  }

  lemma LeftoversWith(n: Net, newID: PupId, p: PupState, last: IP)
    requires LeftoversApart(n) && newID !in n.saved && newID !in n.pups
    ensures LeftoversApart(Net(n.pups[newID := p], n.saved[newID := p], last)) <==>
            forall id <- n.saved :: id !in n.pups ==> Apart(n.saved[id].webUIs, p.webUIs)
  {
    var n' := Net(n.pups[newID := p], n.saved[newID := p], last);
    if LeftoversApart(n') {
      forall id | id in n.saved && id !in n.pups
        ensures Apart(n.saved[id].webUIs, p.webUIs)
      {
        assert Apart(n'.saved[id].webUIs, n'.saved[newID].webUIs);
      }
    }
    if forall id <- n.saved :: id !in n.pups ==> Apart(n.saved[id].webUIs, p.webUIs) {
      forall a, b | a in n'.saved && b in n'.saved && a != b && a !in n'.pups
        ensures Apart(n'.saved[a].webUIs, n'.saved[b].webUIs)
      {
        if b in n.saved {
          assert Apart(n.saved[a].webUIs, n.saved[b].webUIs);
        }
      }
    }
  }

  // ------------------------------------------------------------------
  // Runs
  // ------------------------------------------------------------------

  ghost predicate NetRun(n: Net, steps: seq<NetStep>, end: Net)
    decreases |steps|
  {
    if steps == [] then n == end else Possible(n, steps[0]) && NetRun(Then(n, steps[0]), steps[1..], end)
  }

  /** The adoptions attempted: each uses up an address, successful or not. */
  ghost function Attempts(steps: seq<NetStep>): nat {
    if steps == [] then 0 else (if UsesAddress(steps[0]) then 1 else 0) + Attempts(steps[1..])
  }

  /** As long as the process lives, with fewer than 2^32 attempts to adopt, live pups
      keep pairwise distinct addresses and ports, and the counter stays above them. */
  lemma {:induction false} RunsKeepNetInv(n: Net, steps: seq<NetStep>, end: Net)
    requires NetInv(n) && NetRun(n, steps, end) && forall step <- steps :: !step.Restart?
    requires Num(n.last) + Attempts(steps) < SPACE
    ensures NetInv(end) && DistinctAddresses(end.pups) && AddressesCovered(end.pups, end.last)
    decreases |steps|
  {
    if steps != [] {
      StepKeepsNetInv(n, steps[0]);
      CounterIsBounded(n, steps[0], Num(n.last));
      RunsKeepNetInv(Then(n, steps[0]), steps[1..], end);
    } else {
      assert forall a <- n.pups :: n.pups[a].ip == n.saved[a].ip;
    }
  }

  lemma StepKeepsNetInv(n: Net, step: NetStep)
    requires NetInv(n) && Possible(n, step) && !step.Restart?
    requires UsesAddress(step) ==> Num(n.last) + 1 < SPACE
    ensures NetInv(Then(n, step))
  {
    match step
    case Adopt(_, _, _, _, _, _, _, _) => AdoptKeepsNetInv(n, step);
    case Change(_, _, _) => ChangeKeepsNetInv(n, step);
    case Purge(_, _) => PurgeKeepsNetInv(n, step);
  }

  lemma CounterIsBounded(n: Net, step: NetStep, top: nat)
    requires NetInv(n) && Possible(n, step) && Num(n.last) <= top && (UsesAddress(step) ==> top + 1 < SPACE)
    requires step.Restart? ==> Num(FIRST_IP) <= top
    ensures Num(Then(n, step).last) <= top + if UsesAddress(step) then 1 else 0
  {
    if step.Adopt? {
      AdoptedAddressIsFresh(n, step);
    } else if step.Restart? {
      var order :| InSomeOrder(n.saved, n.saved.Keys, order) && step.last == Scan(FIRST_IP, order);
      ScanPicksOne(FIRST_IP, order);
      OrderCovered(n.saved, order, n.last);
    }
  }

  /** The invariant that a restart keeps too. */
  ghost predicate FilesInv(n: Net) {
    NetInv(n) && LeftoversApart(n)
  }

  /** What a step must look at: an adoption that succeeds the ports of files left by
      purges, and a restart the stored addresses. */
  ghost predicate Guarded(n: Net, step: NetStep) {
    (step.Adopt? && step.r.Ok? ==> SafeAdoption(n, step)) && (step.Restart? ==> Dominated(n.saved))
  }

  ghost predicate GuardedRun(n: Net, steps: seq<NetStep>)
    decreases |steps|
  {
    steps == [] ||
    (Possible(n, steps[0]) && Guarded(n, steps[0]) && GuardedRun(Then(n, steps[0]), steps[1..]))
  }

  /** Over any number of restarts the same holds of every run whose adoptions and
      restarts are guarded where they happen. */
  lemma {:induction false} GuardedRunsKeepFilesInv(n: Net, steps: seq<NetStep>, end: Net, top: nat)
    requires FilesInv(n) && NetRun(n, steps, end) && GuardedRun(n, steps)
    requires Num(n.last) <= top && Num(FIRST_IP) <= top && top + Attempts(steps) < SPACE
    ensures FilesInv(end) && DistinctAddresses(end.pups) && AddressesCovered(end.pups, end.last)
    decreases |steps|
  {
    if steps != [] {
      GuardedStepKeepsFilesInv(n, steps[0]);
      CounterIsBounded(n, steps[0], top);
      GuardedRunsKeepFilesInv(Then(n, steps[0]), steps[1..], end, top + if UsesAddress(steps[0]) then 1 else 0);
    } else {
      assert forall a <- n.pups :: n.pups[a].ip == n.saved[a].ip;
    }
  }

  lemma GuardedStepKeepsFilesInv(n: Net, step: NetStep)
    requires FilesInv(n) && Possible(n, step) && Guarded(n, step)
    requires UsesAddress(step) ==> Num(n.last) + 1 < SPACE
    ensures FilesInv(Then(n, step))
  {
    if step.Restart? {
      EveryScanCoversIff(n.saved);
      RestartKeepsNetInv(n, step);
    } else {
      StepKeepsNetInv(n, step);
      if step.Adopt? && step.r.Ok? {
        AdoptionKeepsFilesApartIff(n, step);
      } else if step.Change? {
        ChangeKeepsLeftovers(n, step);
      } else if step.Purge? {
        PurgeKeepsLeftovers(n, step);
      }
    }
  }

  lemma ChangeKeepsLeftovers(n: Net, step: NetStep)
    requires FilesInv(n) && Possible(n, step) && step.Change?
    ensures LeftoversApart(Then(n, step))
  {
    ChangeKeepsBoth(n, step);
    var n' := Then(n, step);
    forall a, b | a in n'.saved && b in n'.saved && a != b && a !in n'.pups
      ensures Apart(n'.saved[a].webUIs, n'.saved[b].webUIs)
    {
      assert Apart(n.saved[a].webUIs, n.saved[b].webUIs);
    }
  }

  lemma PurgeKeepsLeftovers(n: Net, step: NetStep)
    requires FilesInv(n) && Possible(n, step) && step.Purge?
    ensures LeftoversApart(Then(n, step))
  {
    FilesApartIff(n);
  }

  // ------------------------------------------------------------------
  // Clean runs
  // ------------------------------------------------------------------

  /** No file is left by a purge, and all addresses are in 10.69.0.0/24. */
  ghost predicate NoneLeft(n: Net) {
    n.saved.Keys == n.pups.Keys && forall id <- n.saved :: InFirstNet(n.saved[id].ip)
  }

  ghost predicate CleanNet(n: Net) {
    NetInv(n) && NoneLeft(n) && Num(FIRST_IP) <= Num(n.last)
  }

  const TOP_OF_FIRST_NET: IP := [10, 69, 0, 255]

  /** If every purge removes its file, and there are addresses in 10.69.0.0/24 for
      every attempt to adopt, then restarts may come at any time and in any order. */
  lemma {:induction false} CleanRunsStayClean(n: Net, steps: seq<NetStep>, end: Net)
    requires CleanNet(n) && NetRun(n, steps, end) && forall step <- steps :: step.Purge? ==> step.removed
    requires Num(n.last) + Attempts(steps) <= Num(TOP_OF_FIRST_NET)
    ensures CleanNet(end) && DistinctAddresses(end.pups) && AddressesCovered(end.pups, end.last)
    decreases |steps|
  {
    if steps != [] {
      CleanStep(n, steps[0]);
      CounterIsBounded(n, steps[0], Num(n.last));
      CleanRunsStayClean(Then(n, steps[0]), steps[1..], end);
    } else {
      assert forall a <- n.pups :: n.pups[a].ip == n.saved[a].ip;
    }
  }

  lemma CleanStep(n: Net, step: NetStep)
    requires CleanNet(n) && Possible(n, step) && (step.Purge? ==> step.removed)
    requires UsesAddress(step) ==> Num(n.last) < Num(TOP_OF_FIRST_NET)
    ensures CleanNet(Then(n, step))
  {
    CleanStepKeepsNetInv(n, step);
    if step.Adopt? {
      CleanAdopt(n, step);
    } else if step.Restart? {
      CleanRestart(n, step);
    } else {
      CleanChange(n, step);
    }
  }

  lemma CleanStepKeepsNetInv(n: Net, step: NetStep)
    requires CleanNet(n) && Possible(n, step)
    requires UsesAddress(step) ==> Num(n.last) < Num(TOP_OF_FIRST_NET)
    ensures NetInv(Then(n, step))
  {
    FirstNetIsDominated(n.saved);
    GuardedStepKeepsFilesInv(n, step);
  }

  lemma CleanAdopt(n: Net, step: NetStep)
    requires CleanNet(n) && Possible(n, step) && step.Adopt?
    requires UsesAddress(step) ==> Num(n.last) < Num(TOP_OF_FIRST_NET)
    ensures NoneLeft(Then(n, step)) && Num(FIRST_IP) <= Num(step.last)
  {
    AdoptedAddressIsFresh(n, step);
    FirstNetIsRange(step.last);
  }

  lemma CleanChange(n: Net, step: NetStep)
    requires CleanNet(n) && Possible(n, step) && (step.Change? || (step.Purge? && step.removed))
    ensures NoneLeft(Then(n, step))
  {
    if step.Change? {
      UpdatesKeepIdentity(n.pups[step.id], step.updates);
    }
  }

  lemma CleanRestart(n: Net, step: NetStep)
    requires CleanNet(n) && Possible(n, step) && step.Restart?
    ensures NoneLeft(Then(n, step)) && Num(FIRST_IP) <= Num(step.last)
  {
    RestartLoadsFiles(n, step);
    var order :| InSomeOrder(n.saved, n.saved.Keys, order) && step.last == Scan(FIRST_IP, order);
    OrderHasAll(n.saved, n.saved.Keys, order, InFirstNet);
    ScanCoversFirstNet(FIRST_IP, order);
  }

  lemma FirstNetIsRange(ip: IP)
    ensures InFirstNet(ip) <==> Num([10, 69, 0, 0]) <= Num(ip) <= Num(TOP_OF_FIRST_NET)
  {}

  lemma FirstNetIsDominated(saved: map<PupId, PupState>)
    requires forall id <- saved :: InFirstNet(saved[id].ip)
    ensures Dominated(saved)
  {
    if saved.Keys != {} {
      var top := Largest(saved, saved.Keys);
      assert IsTop(saved, top);
    }
  }

  // ------------------------------------------------------------------
  // Runs that fail
  // ------------------------------------------------------------------

  lemma {:induction false} JoinRuns(n: Net, steps: seq<NetStep>, mid: Net, more: seq<NetStep>, end: Net)
    requires NetRun(n, steps, mid) && NetRun(mid, more, end)
    ensures NetRun(n, steps + more, end)
    decreases |steps|
  {
    if steps == [] {
      assert steps + more == more;
    } else {
      JoinRuns(Then(n, steps[0]), steps[1..], mid, more, end);
      assert (steps + more)[1..] == steps[1..] + more;
    }
  }

  lemma OneStep(n: Net, step: NetStep)
    requires Possible(n, step)
    ensures NetRun(n, [step], Then(n, step))
  {
    assert [step][1..] == [];
  }

  /** Pups without and with a web interface. */
  function Plain(): Manifest {
    Manifest("m", "1", {}, [], [], [])
  }

  function Panel(): Manifest {
    Manifest("m", "1", {}, [Expose(80, true, false)], [], [])
  }

  const EMPTY := Net(map[], map[], FIRST_IP)

  /** Attempts that fail late use up addresses. */
  lemma FailToAdopt(n: Net, to: nat, newID: PupId) returns (steps: seq<NetStep>, end: Net)
    requires newID !in n.pups && newID !in n.saved && forall id <- n.pups :: n.pups[id].source.id != newID
    requires Num(n.last) <= to <= Num(LAST_IP)
    ensures NetRun(n, steps, end) && end == n.(last := end.last) && Num(end.last) == to
    ensures |steps| == to - Num(n.last) && NoPurge(steps)
    decreases Num(LAST_IP) as int - Num(n.last)
  {
    if Num(n.last) == to {
      steps, end := [], n;
    } else {
      var last := AddressAt(Num(n.last) + 1);
      EdgeIsLimit(last);
      NextIsPlusOne(Num(n.last));
      var step := Adopt(Plain(), From(newID), newID, map[], {}, Err(AdoptFailed), n.pups, last);
      var more;
      more, end := FailToAdopt(Then(n, step), to, newID);
      steps := [step] + more;
    }
  }

  /** And then one succeeds. */
  lemma FailThenAdopt(n: Net, to: nat, newID: PupId) returns (steps: seq<NetStep>, p: PupState, end: Net)
    requires newID !in n.pups && newID !in n.saved && forall id <- n.pups :: n.pups[id].source.id != newID
    requires Num(n.last) <= to < Num(LAST_IP)
    ensures NetRun(n, steps, end) && |steps| == to - Num(n.last) + 1 && NoPurge(steps)
    ensures end == Net(n.pups[newID := p], n.saved[newID := p], p.ip)
    ensures Num(p.ip) == to + 1 && p.source.id == newID
  {
    var fails, n2 := FailToAdopt(n, to, newID);
    var step := AdoptPlain(n2, newID);
    end := Then(n2, step);
    p := end.pups[newID];
    OneStep(n2, step);
    JoinRuns(n, fails, n2, [step], end);
    steps := fails + [step];
  }

  lemma NoPorts(consumed: set<int>, osFree: set<int>)
    ensures FirstFit([], consumed, osFree) && WebUICount(Plain().exposes) == 0
  {}

  function From(id: string): Source {
    Source(id, "")
  }

  lemma AdoptPlain(n: Net, newID: PupId) returns (step: NetStep)
    requires newID !in n.pups && newID !in n.saved && forall id <- n.pups :: n.pups[id].source.id != newID
    requires Num(n.last) < Num(LAST_IP)
    ensures step.Adopt? && Possible(n, step) && Num(step.last) == Num(n.last) + 1
    ensures var p := NewPup(newID, Plain(), From(newID), map[], step.last, []);
            Then(n, step) == Net(n.pups[newID := p], n.saved[newID := p], step.last)
  {
    NoPorts(Consumed(n.pups), {});
    step := CanAdopt(n, Plain(), From(newID), newID, {}, []);
  }

  // A purge that could not remove the file of `a`, and its port assigned again.

  lemma AdoptPanel(n: Net, newID: PupId, port: int) returns (step: NetStep)
    requires newID !in n.pups && newID !in n.saved && forall id <- n.pups :: n.pups[id].source.id != newID
    requires port >= MIN_WEBUI_PORT && port !in Consumed(n.pups) && Num(n.last) < Num(LAST_IP)
    ensures step.Adopt? && Possible(n, step) && Num(step.last) == Num(n.last) + 1
    ensures var p := NewPup(newID, Panel(), From(newID), map[], step.last, [port]);
            Then(n, step) == Net(n.pups[newID := p], n.saved[newID := p], step.last)
  {
    OneWebUI(Expose(80, true, false), []);
    assert [Expose(80, true, false)] + [] == Panel().exposes;
    assert FirstFit([port], Consumed(n.pups), {port});
    step := CanAdopt(n, Panel(), From(newID), newID, {port}, [port]);
  }

  /** From a new system: a pup is adopted and purged, but its file stays; another one
      gets its port; after a restart both are there. */
  lemma PortsCanMeetAfterPurge() returns (steps: seq<NetStep>, end: Net)
    ensures NetRun(EMPTY, steps, end) && |steps| == 4 && !DistinctPorts(end.pups)
  {
    var first, n1 := AdoptFirst();
    var n2 := Then(n1, Purge("a", false));
    TwoSteps(EMPTY, first, Purge("a", false));
    var second, n3 := AdoptSecond(n1);
    var restart;
    restart, end := RestartBringsBoth(n3);
    TwoSteps(n2, second, restart);
    JoinRuns(EMPTY, [first, Purge("a", false)], n2, [second, restart], end);
    steps := [first, Purge("a", false)] + [second, restart];
  }

  lemma RestartBringsBoth(n: Net) returns (step: NetStep, end: Net)
    requires n.saved.Keys == {"a", "b"} && n.saved["a"].webUIs == n.saved["b"].webUIs == [MIN_WEBUI_PORT]
    ensures Possible(n, step) && end == Then(n, step) && !DistinctPorts(end.pups)
  {
    var last := SomeScan(n.saved);
    step := CanRestart(n, last);
    end := Then(n, step);
    RestartLoadsFiles(n, step);
    assert MIN_WEBUI_PORT in end.pups["a"].webUIs && MIN_WEBUI_PORT in end.pups["b"].webUIs;
    assert !Apart(end.pups["a"].webUIs, end.pups["b"].webUIs);
  }

  lemma AdoptFirst() returns (step: NetStep, n: Net)
    ensures Possible(EMPTY, step) && n == Then(EMPTY, step) && UsesAddress(step)
    ensures n.pups.Keys == n.saved.Keys == {"a"} && n.saved["a"].webUIs == [MIN_WEBUI_PORT]
    ensures Num(n.last) == Num(FIRST_IP) + 1
  {
    assert Consumed(EMPTY.pups) == {};
    step := AdoptPanel(EMPTY, "a", MIN_WEBUI_PORT);
    n := Then(EMPTY, step);
  }

  lemma AdoptSecond(n1: Net) returns (step: NetStep, n: Net)
    requires n1.pups.Keys == n1.saved.Keys == {"a"} && n1.saved["a"].webUIs == [MIN_WEBUI_PORT]
    requires Num(n1.last) == Num(FIRST_IP) + 1
    ensures var n2 := Then(n1, Purge("a", false));
            Possible(n2, step) && n == Then(n2, step) && UsesAddress(step)
    ensures n.saved.Keys == {"a", "b"} && n.saved["a"].webUIs == n.saved["b"].webUIs == [MIN_WEBUI_PORT]
  {
    var n2 := Then(n1, Purge("a", false));
    assert n2.pups == map[] && Consumed(n2.pups) == {};
    step := AdoptPanel(n2, "b", MIN_WEBUI_PORT);
    n := Then(n2, step);
  }

  lemma TwoSteps(n: Net, a: NetStep, b: NetStep)
    requires Possible(n, a) && Possible(Then(n, a), b)
    ensures NetRun(n, [a, b], Then(Then(n, a), b))
  {
    OneStep(n, a);
    OneStep(Then(n, a), b);
    JoinRuns(n, [a], Then(n, a), [b], Then(Then(n, a), b));
    assert [a] + [b] == [a, b];
  }

  /** From a new system, without a purge: 10.69.0.2 and 10.69.1.0 are in use when the
      scan of a restart meets them in the wrong order, and some attempts later the
      second one is handed out again. */
  lemma AddressesCanMeetAfterRestart() returns (steps: seq<NetStep>, end: Net)
    ensures NetRun(EMPTY, steps, end) && |steps| == 510 && NoPurge(steps) && !DistinctAddresses(end.pups)
  {
    var before, n := TwoFarApart();
    var restart := BackToFirst(n);
    var after;
    after, end := HandsOutAgain(Then(n, restart));
    JoinThree(EMPTY, before, n, restart, after, end);
    steps := before + ([restart] + after);
  }

  ghost predicate NoPurge(steps: seq<NetStep>) {
    forall step <- steps :: !step.Purge?
  }

  lemma JoinThree(n: Net, steps: seq<NetStep>, mid: Net, step: NetStep, more: seq<NetStep>, end: Net)
    requires NetRun(n, steps, mid) && Possible(mid, step) && NetRun(Then(mid, step), more, end)
    ensures NetRun(n, steps + ([step] + more), end)
    ensures NoPurge(steps) && !step.Purge? && NoPurge(more) ==> NoPurge(steps + ([step] + more))
  {
    OneStep(mid, step);
    JoinRuns(mid, [step], Then(mid, step), more, end);
    JoinRuns(n, steps, mid, [step] + more, end);
  }

  ghost predicate FarApart(pups: map<PupId, PupState>) {
    && pups.Keys == {"a", "b"} && pups["a"].ip == [10, 69, 0, 2] && pups["b"].ip == [10, 69, 1, 0]
    && pups["a"].source.id == "a" && pups["b"].source.id == "b"
  }

  lemma TwoFarApart() returns (steps: seq<NetStep>, n: Net)
    ensures NetRun(EMPTY, steps, n) && |steps| == 255 && NoPurge(steps)
    ensures FarApart(n.pups) && FarApart(n.saved)
  {
    var first, a, n1 := FailThenAdopt(EMPTY, Num(FIRST_IP), "a");
    NumInjective(a.ip, [10, 69, 0, 2]);
    var more, b;
    more, b, n := FailThenAdopt(n1, Num(TOP_OF_FIRST_NET), "b");
    NumInjective(b.ip, [10, 69, 1, 0]);
    JoinRuns(EMPTY, first, n1, more, n);
    steps := first + more;
  }

  lemma BackToFirst(n: Net) returns (step: NetStep)
    requires FarApart(n.saved)
    ensures step.Restart? && Possible(n, step) && step.last == [10, 69, 0, 2] && FarApart(Then(n, step).pups)
    ensures Then(n, step).saved.Keys == {"a", "b"}
  {
    ScanEndsOnFirst(n.saved);
    step := CanRestart(n, [10, 69, 0, 2]);
  }

  lemma ScanEndsOnFirst(saved: map<PupId, PupState>)
    requires FarApart(saved)
    ensures ScannedFrom(saved, [10, 69, 0, 2])
  {
    var a, b := saved["a"].ip, saved["b"].ip;
    var rest := OthersFirst(saved, "b", "a");
    assert AddressesCovered(saved, b);
    RestIsCovered(saved, rest, b, a);
    ScanCanMissTop(FIRST_IP, rest, b, a);
    EndsBelow(saved, rest + [b, a], "b", a);
  }

  lemma HandsOutAgain(n: Net) returns (steps: seq<NetStep>, end: Net)
    requires FarApart(n.pups) && n.saved.Keys == {"a", "b"} && n.last == [10, 69, 0, 2]
    ensures NetRun(n, steps, end) && |steps| == 254 && NoPurge(steps) && !DistinctAddresses(end.pups)
  {
    var c;
    steps, c, end := FailThenAdopt(n, Num(TOP_OF_FIRST_NET), "c");
    NumInjective(c.ip, [10, 69, 1, 0]);
    assert end.pups["c"].ip == end.pups["b"].ip;
  }
}
