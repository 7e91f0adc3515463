/** Dependency reports (calculateDeps in pkg/pup/deps.go). */
module Deps {
  import opened Wrappers
  import opened Events
  import opened Ordering
  import opened Versions
  import opened Pups

  datatype SourcePup = SourcePup(name: string, version: string, manifest: Manifest)

  datatype SourceList = SourceList(location: string, pups: seq<SourcePup>)

  datatype Report = Report(
    dependency: Dependency, currentProvider: string, installedProviders: seq<PupId>,
    installableProviders: seq<Provider>, defaultProvider: Option<Provider>)

  /** The version library: a text may be a version, and may be a constraint. */
  datatype Library = Library(parse: string -> Option<Version>, constraint: string -> Option<Version -> bool>)

  /** This interface is the one asked for, in a version within the constraint. */
  predicate Matches(i: Interface, name: string, within: Version -> bool, lib: Library) {
    lib.parse(i.version).Some? && i.name == name && within(lib.parse(i.version).value)
  }

  predicate Offers(m: Manifest, name: string, within: Version -> bool, lib: Library) {
    exists i <- m.interfaces :: Matches(i, name, within, lib)
  }

  function MatchCount(interfaces: seq<Interface>, name: string, within: Version -> bool, lib: Library): nat {
    if interfaces == [] then 0
    else
      var n := |interfaces| - 1;
      MatchCount(interfaces[..n], name, within, lib) + if Matches(interfaces[n], name, within, lib) then 1 else 0
  }

  lemma {:induction false} MatchCountIsOffers(interfaces: seq<Interface>, name: string, within: Version -> bool,
                                              lib: Library)
    ensures MatchCount(interfaces, name, within, lib) > 0 <==> exists i <- interfaces :: Matches(i, name, within, lib)
  {
    if interfaces != [] {
      var n := |interfaces| - 1;
      MatchCountIsOffers(interfaces[..n], name, within, lib);
      InFrontOrLast(interfaces);
    }
  }

  lemma InFrontOrLast<T>(s: seq<T>)
    requires s != []
    ensures forall x :: x in s <==> x in s[..|s| - 1] || x == s[|s| - 1]
  {
    assert s == s[..|s| - 1] + [s[|s| - 1]];
  }

  /** Every pup is listed once for each interface of its that matches. */
  ghost predicate InstalledExactly(installed: seq<PupId>, pups: map<PupId, PupState>, name: string,
                                   within: Version -> bool, lib: Library)
  {
    forall id :: multiset(installed)[id] ==
      if id in pups then MatchCount(pups[id].manifest.interfaces, name, within, lib) else 0
  }

  /** So the pups listed are exactly those that offer the interface. */
  lemma InstalledAreOffering(installed: seq<PupId>, pups: map<PupId, PupState>, name: string,
                             within: Version -> bool, lib: Library)
    requires InstalledExactly(installed, pups, name, within, lib)
    ensures forall id :: id in installed <==> id in pups && Offers(pups[id].manifest, name, within, lib)
  {
    forall id
      ensures id in installed <==> id in pups && Offers(pups[id].manifest, name, within, lib)
    {
      assert id in installed <==> id in multiset(installed);
      if id in pups {
        MatchCountIsOffers(pups[id].manifest.interfaces, name, within, lib);
      }
    }
  }

  /** Some listed provider comes from this place under this name. */
  predicate AlreadyInstalled(location: string, name: string, installed: seq<PupId>, pups: map<PupId, PupState>) {
    exists id <- installed :: id in pups && pups[id].source.location == location && pups[id].manifest.name == name
  }

  /** The list offers it, within the constraint, and it is not installed yet. */
  ghost predicate FromPups(x: Provider, location: string, offered: seq<SourcePup>, installed: seq<PupId>,
                           pups: map<PupId, PupState>, name: string, within: Version -> bool, lib: Library)
  {
    exists p <- offered ::
      && x == Provider(location, p.name, p.version)
      && Offers(p.manifest, name, within, lib)
      && !AlreadyInstalled(location, p.name, installed, pups)
  }

  ghost predicate FromLists(x: Provider, lists: seq<SourceList>, installed: seq<PupId>, pups: map<PupId, PupState>,
                            name: string, within: Version -> bool, lib: Library)
  {
    exists list <- lists :: FromPups(x, list.location, list.pups, installed, pups, name, within, lib)
  }

  ghost predicate InstallableExactly(installable: seq<Provider>, lists: seq<SourceList>, installed: seq<PupId>,
                                     pups: map<PupId, PupState>, name: string, within: Version -> bool, lib: Library)
  {
    && Distinct(installable)
    && (forall x :: x in installable <==> FromLists(x, lists, installed, pups, name, within, lib))
    && ((forall x <- installable :: lib.parse(x.version).Some?) ==> Sorted(installable, NewestProvider(lib)))
  }

  /** The report of one dependency. */
  ghost predicate IsReport(r: Report, d: Dependency, p: PupState, pups: map<PupId, PupState>,
                           sources: Option<seq<SourceList>>, lib: Library)
  {
    && r.dependency == d
    && var within := lib.constraint(d.version);
    if within.None? then
      r == Report(d, "", [], [], None)
    else
      && r.currentProvider == (if d.interfaceName in p.providers.All() then p.providers.All()[d.interfaceName] else "")
      && r.defaultProvider == Some(d.defaultSource)
      && InstalledExactly(r.installedProviders, pups, d.interfaceName, within.value, lib)
      && if sources.None? then r.installableProviders == []
         else InstallableExactly(r.installableProviders, sources.value, r.installedProviders, pups, d.interfaceName,
                                 within.value, lib)
  }

  // ------------------------------------------------------------------
  // What the report says
  // ------------------------------------------------------------------

  ghost predicate IsOffer(interfaces: seq<Interface>, i: int, name: string, within: Version -> bool, lib: Library) {
    && 0 <= i < |interfaces| && interfaces[i].name == name && lib.parse(interfaces[i].version).Some?
    && within(lib.parse(interfaces[i].version).value)
  }

  ghost predicate IsInstalledAs(installed: seq<PupId>, i: int, pups: map<PupId, PupState>, location: string,
                                name: string)
  {
    && 0 <= i < |installed| && installed[i] in pups && pups[installed[i]].source.location == location
    && pups[installed[i]].manifest.name == name
  }

  ghost predicate IsSourcePup(lists: seq<SourceList>, i: int, j: int, x: Provider) {
    && 0 <= i < |lists| && 0 <= j < |lists[i].pups| && x.location == lists[i].location
    && x.name == lists[i].pups[j].name && x.version == lists[i].pups[j].version
  }

  /** The report of a dependency whose constraint can be read: installed are the pups
      with an interface of this name in a version within the constraint, and
      installable the source pups with one, except those that an installed one has
      come from by location and name. */
  lemma ReportSays(r: Report, d: Dependency, p: PupState, pups: map<PupId, PupState>, lists: seq<SourceList>,
                   lib: Library)
    requires IsReport(r, d, p, pups, Some(lists), lib) && lib.constraint(d.version).Some?
    ensures var within := lib.constraint(d.version).value;
            && (forall id :: id in r.installedProviders <==>
                  id in pups && exists i :: IsOffer(pups[id].manifest.interfaces, i, d.interfaceName, within, lib))
            && (forall x :: x in r.installableProviders <==>
                  exists i, j ::
                    && IsSourcePup(lists, i, j, x)
                    && (exists k ::
                          IsOffer(lists[i].pups[j].manifest.interfaces, k, d.interfaceName, within, lib))
                    && !exists k :: IsInstalledAs(r.installedProviders, k, pups, x.location, x.name))
  {
    var within := lib.constraint(d.version).value;
    InstalledAreOffering(r.installedProviders, pups, d.interfaceName, within, lib);
    forall m
      ensures Offers(m, d.interfaceName, within, lib) <==>
              exists i :: IsOffer(m.interfaces, i, d.interfaceName, within, lib)
    {
      OffersMeans(m, d.interfaceName, within, lib);
    }
    forall x
      ensures FromLists(x, lists, r.installedProviders, pups, d.interfaceName, within, lib) <==>
              exists i, j ::
                && IsSourcePup(lists, i, j, x)
                && (exists k :: IsOffer(lists[i].pups[j].manifest.interfaces, k, d.interfaceName, within, lib))
                && !exists k :: IsInstalledAs(r.installedProviders, k, pups, x.location, x.name)
    {
      FromListsMeans(x, lists, r.installedProviders, pups, d.interfaceName, within, lib);
    }
  }

  lemma OffersMeans(m: Manifest, name: string, within: Version -> bool, lib: Library)
    ensures Offers(m, name, within, lib) <==> exists i :: IsOffer(m.interfaces, i, name, within, lib)
  {
    if Offers(m, name, within, lib) {
      var e :| e in m.interfaces && Matches(e, name, within, lib);
      var i :| 0 <= i < |m.interfaces| && m.interfaces[i] == e;
      assert IsOffer(m.interfaces, i, name, within, lib);
    }
    if i :| IsOffer(m.interfaces, i, name, within, lib) {
      assert m.interfaces[i] in m.interfaces && Matches(m.interfaces[i], name, within, lib);
    }
  }

  lemma InstalledMeans(location: string, name: string, installed: seq<PupId>, pups: map<PupId, PupState>)
    ensures AlreadyInstalled(location, name, installed, pups) <==>
            exists k :: IsInstalledAs(installed, k, pups, location, name)
  {
    if AlreadyInstalled(location, name, installed, pups) {
      var id :| id in installed && id in pups && pups[id].source.location == location && pups[id].manifest.name == name;
      var k :| 0 <= k < |installed| && installed[k] == id;
      assert IsInstalledAs(installed, k, pups, location, name);
    }
    if k :| IsInstalledAs(installed, k, pups, location, name) {
      assert installed[k] in installed;
    }
  }

  lemma FromListsMeans(x: Provider, lists: seq<SourceList>, installed: seq<PupId>, pups: map<PupId, PupState>,
                       name: string, within: Version -> bool, lib: Library)
    ensures FromLists(x, lists, installed, pups, name, within, lib) <==>
            exists i, j ::
              && IsSourcePup(lists, i, j, x)
              && (exists k :: IsOffer(lists[i].pups[j].manifest.interfaces, k, name, within, lib))
              && !exists k :: IsInstalledAs(installed, k, pups, x.location, x.name)
  {
    InstalledMeans(x.location, x.name, installed, pups);
    if FromLists(x, lists, installed, pups, name, within, lib) {
      var i, j := FoundInLists(x, lists, installed, pups, name, within, lib);
      OffersMeans(lists[i].pups[j].manifest, name, within, lib);
    }
    if i, j :| && IsSourcePup(lists, i, j, x)
               && (exists k :: IsOffer(lists[i].pups[j].manifest.interfaces, k, name, within, lib))
               && !exists k :: IsInstalledAs(installed, k, pups, x.location, x.name)
    {
      OffersMeans(lists[i].pups[j].manifest, name, within, lib);
      assert lists[i].pups[j] in lists[i].pups && lists[i] in lists;
      assert FromPups(x, lists[i].location, lists[i].pups, installed, pups, name, within, lib);
    }
  }

  lemma FoundInLists(x: Provider, lists: seq<SourceList>, installed: seq<PupId>, pups: map<PupId, PupState>,
                     name: string, within: Version -> bool, lib: Library)
    returns (i: nat, j: nat)
    requires FromLists(x, lists, installed, pups, name, within, lib)
    ensures IsSourcePup(lists, i, j, x) && Offers(lists[i].pups[j].manifest, name, within, lib)
    ensures !AlreadyInstalled(x.location, x.name, installed, pups)
  {
    var list :| list in lists && FromPups(x, list.location, list.pups, installed, pups, name, within, lib);
    i :| 0 <= i < |lists| && lists[i] == list;
    var p :| && p in list.pups && x == Provider(list.location, p.name, p.version)
             && Offers(p.manifest, name, within, lib) && !AlreadyInstalled(list.location, p.name, installed, pups);
    j :| 0 <= j < |list.pups| && list.pups[j] == p;
  }

  /** One report for each dependency, in order. `sources` is absent when there is no
      source manager or it cannot be read. */
  method CalculateDeps(p: PupState, pups: map<PupId, PupState>, sources: Option<seq<SourceList>>, lib: Library)
    returns (reports: seq<Report>)
    ensures |reports| == |p.manifest.dependencies|
    ensures forall i :: 0 <= i < |reports| ==> IsReport(reports[i], p.manifest.dependencies[i], p, pups, sources, lib)
  {
    reports := [];
    for i := 0 to |p.manifest.dependencies|
      invariant |reports| == i
      invariant forall j :: 0 <= j < i ==> IsReport(reports[j], p.manifest.dependencies[j], p, pups, sources, lib)
    {
      var d := p.manifest.dependencies[i];
      var report := Report(d, "", [], [], None);
      var within := lib.constraint(d.version);
      if within.None? {
        reports := reports + [report];
        continue;
      }
      if d.interfaceName in p.providers.All() {
        report := report.(currentProvider := p.providers.All()[d.interfaceName]);
      }
      var installed := FindInstalled(pups, d.interfaceName, within.value, lib);
      report := report.(installedProviders := installed);
      if sources.Some? {
        var available := FindInstallable(sources.value, installed, pups, d.interfaceName, within.value, lib);
        available := SortProviders(available, lib);
        report := report.(installableProviders := available);
      }
      report := report.(defaultProvider := Some(d.defaultSource));
      reports := reports + [report];
    }
  }

  method FindInstalled(pups: map<PupId, PupState>, name: string, within: Version -> bool, lib: Library)
    returns (installed: seq<PupId>)
    ensures InstalledExactly(installed, pups, name, within, lib)
  {
    installed := [];
    var rest := pups.Keys;
    while rest != {}
      invariant rest <= pups.Keys
      invariant forall id :: multiset(installed)[id] ==
                  if id in pups && id !in rest then MatchCount(pups[id].manifest.interfaces, name, within, lib) else 0
      decreases |rest|
    {
      var id :| id in rest;
      rest := rest - {id};
      installed := AddMatches(installed, id, pups[id].manifest.interfaces, name, within, lib);
    }
  }

  /** The loop over the interfaces of one pup: once for each that matches. */
  method AddMatches(start: seq<PupId>, id: PupId, interfaces: seq<Interface>, name: string, within: Version -> bool,
                    lib: Library)
    returns (installed: seq<PupId>)
    ensures multiset(installed)[id] == multiset(start)[id] + MatchCount(interfaces, name, within, lib)
    ensures forall other :: other != id ==> multiset(installed)[other] == multiset(start)[other]
  {
    installed := start;
    for i := 0 to |interfaces|
      invariant multiset(installed)[id] == multiset(start)[id] + MatchCount(interfaces[..i], name, within, lib)
      invariant forall other :: other != id ==> multiset(installed)[other] == multiset(start)[other]
    {
      assert interfaces[..i + 1][..i] == interfaces[..i];
      if lib.parse(interfaces[i].version).None? {
        continue;
      }
      if interfaces[i].name == name && within(lib.parse(interfaces[i].version).value) {
        installed := installed + [id];
      }
    }
    assert interfaces[..|interfaces|] == interfaces;
  }

  method FindInstallable(lists: seq<SourceList>, installed: seq<PupId>, pups: map<PupId, PupState>, name: string,
                         within: Version -> bool, lib: Library)
    returns (available: seq<Provider>)
    ensures Distinct(available)
    ensures forall x :: x in available <==> FromLists(x, lists, installed, pups, name, within, lib)
  {
    available := [];
    for i := 0 to |lists|
      invariant Distinct(available)
      invariant forall x :: x in available <==> FromLists(x, lists[..i], installed, pups, name, within, lib)
    {
      available := AddFromList(available, lists[i], installed, pups, name, within, lib);
      assert lists[..i + 1] == lists[..i] + [lists[i]];
    }
    assert lists[..|lists|] == lists;
  }

  method AddFromList(start: seq<Provider>, list: SourceList, installed: seq<PupId>, pups: map<PupId, PupState>,
                     name: string, within: Version -> bool, lib: Library)
    returns (available: seq<Provider>)
    requires Distinct(start)
    ensures Distinct(available)
    ensures forall x :: x in available <==>
              x in start || FromPups(x, list.location, list.pups, installed, pups, name, within, lib)
  {
    available := start;
    for i := 0 to |list.pups|
      invariant Distinct(available)
      invariant forall x :: x in available <==>
                  x in start || FromPups(x, list.location, list.pups[..i], installed, pups, name, within, lib)
    {
      available := AddPup(available, list.location, list.pups[i], installed, pups, name, within, lib);
      assert list.pups[..i + 1] == list.pups[..i] + [list.pups[i]];
    }
    assert list.pups[..|list.pups|] == list.pups;
  }

  /** The loop over the interfaces of one source pup: however many match, it is
      added at most once. */
  method AddPup(start: seq<Provider>, location: string, p: SourcePup, installed: seq<PupId>, pups: map<PupId, PupState>,
                name: string, within: Version -> bool, lib: Library)
    returns (available: seq<Provider>)
    ensures var x := Provider(location, p.name, p.version);
            available == if Offers(p.manifest, name, within, lib) && x !in start
                            && !AlreadyInstalled(location, p.name, installed, pups)
                         then start + [x] else start
  {
    available := start;
    var x := Provider(location, p.name, p.version);
    var interfaces := p.manifest.interfaces;
    for i := 0 to |interfaces|
      invariant available == if (exists j <- interfaces[..i] :: Matches(j, name, within, lib))
                                && !AlreadyInstalled(location, p.name, installed, pups) && x !in start
                             then start + [x] else start
    {
      assert interfaces[..i + 1] == interfaces[..i] + [interfaces[i]];
      if lib.parse(interfaces[i].version).None? {
        continue;
      }
      if interfaces[i].name == name && within(lib.parse(interfaces[i].version).value) {
        assert Matches(interfaces[i], name, within, lib);
        var already := CheckInstalled(location, p.name, installed, pups);
        if !already {
          var duplicate := false;
          for j := 0 to |available|
            invariant !duplicate && x !in available[..j]
          {
            if available[j] == x {
              duplicate := true;
              break;
            }
            assert available[..j + 1] == available[..j] + [available[j]];
          }
          assert available[..|available|] == available;
          if !duplicate {
            available := available + [x];
          }
        }
      }
    }
    assert interfaces[..|interfaces|] == interfaces;
  }

  method CheckInstalled(location: string, name: string, installed: seq<PupId>, pups: map<PupId, PupState>)
    returns (already: bool)
    ensures already <==> AlreadyInstalled(location, name, installed, pups)
  {
    for i := 0 to |installed|
      invariant !AlreadyInstalled(location, name, installed[..i], pups)
    {
      var id := installed[i];
      if id in pups && pups[id].source.location == location && pups[id].manifest.name == name {
        return true;
      }
      assert installed[..i + 1] == installed[..i] + [installed[i]];
    }
    assert installed[..|installed|] == installed;
    return false;
  }

  function VersionOf(x: Provider, lib: Library): Version {
    if lib.parse(x.version).Some? then lib.parse(x.version).value else Version(0, 0, 0, [], "")
  }

  function NewestProvider(lib: Library): (Provider, Provider) -> int {
    (a: Provider, b: Provider) => NewestFirst(VersionOf(a, lib), VersionOf(b, lib))
  }

  /** No provider comes before one of a later version. */
  lemma NewestProvidersFirst(installable: seq<Provider>, lib: Library)
    requires (forall x <- installable :: lib.parse(x.version).Some?) && Sorted(installable, NewestProvider(lib))
    ensures forall i, j :: 0 <= i < j < |installable| ==>
              !Precedes(lib.parse(installable[i].version).value, lib.parse(installable[j].version).value)
  {
    forall i, j | 0 <= i < j < |installable|
      ensures !Precedes(lib.parse(installable[i].version).value, lib.parse(installable[j].version).value)
    {
      var a, b := lib.parse(installable[i].version).value, lib.parse(installable[j].version).value;
      assert NewestProvider(lib)(installable[i], installable[j]) <= 0;
      CompareIsPrecedence(b, a);
    }
  }

  /** Where a version cannot be read the comparison of the source is no order, and
      no arrangement is promised. */
  method SortProviders(a: seq<Provider>, lib: Library) returns (s: seq<Provider>)
    requires Distinct(a)
    ensures Distinct(s) && forall x :: x in s <==> x in a
    ensures (forall x <- a :: lib.parse(x.version).Some?) ==> Sorted(s, NewestProvider(lib))
  {
    NewestFirstIsPreorder();
    assert forall x: Provider, y: Provider ::
        NewestProvider(lib)(x, y) == NewestFirst(VersionOf(x, lib), VersionOf(y, lib));
    s := Sort(a, NewestProvider(lib));
    DistinctCounts(a);
    DistinctCounts(s);
    assert forall x :: x in s <==> x in multiset(s);
  }
}
