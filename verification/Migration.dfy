/** The release list (pkg/system/upgrades.go) and the start-up migration of the OS
    flake (pkg/system/migrations). */
module Migration {
  import opened Wrappers
  import opened Ordering
  import opened Versions
  import Events

  // ------------------------------------------------------------------
  // The release list
  // ------------------------------------------------------------------

  /** The DBX release as read from disk. */
  datatype Release = Known(version: Version) | Blank | Garbled(text: string)

  /** A version is newer than anything that is not one. */
  predicate NewerThan(v: Version, r: Release) {
    r.Known? ==> Compare(v, r.version) > 0
  }

  predicate Eligible(tag: Version, current: Release, preReleases: bool) {
    NewerThan(tag, current) && (preReleases || tag.pre == [])
  }

  function Filter(tags: seq<Version>, current: Release, preReleases: bool): seq<Version> {
    if tags == [] then []
    else
      var n := |tags| - 1;
      Filter(tags[..n], current, preReleases) + if Eligible(tags[n], current, preReleases) then [tags[n]] else []
  }

  /** The eligible tags, newest first. Tags of equal precedence may come in any
      order. */
  ghost predicate IsListing(list: seq<Version>, tags: seq<Version>, current: Release, preReleases: bool) {
    Sorted(list, NewestFirst) && multiset(list) == multiset(Filter(tags, current, preReleases))
  }

  lemma {:induction false} FilterKeepsEligible(tags: seq<Version>, current: Release, preReleases: bool)
    ensures forall x :: x in Filter(tags, current, preReleases) <==> x in tags && Eligible(x, current, preReleases)
  {
    if tags != [] {
      var n := |tags| - 1;
      FilterKeepsEligible(tags[..n], current, preReleases);
      assert forall x :: x in tags <==> x in tags[..n] || x == tags[n];
    }
  }

  /** The tags that come after the current release, by the rules of the standard,
      pre-releases only if wanted; none comes after the first. */
  lemma ListingHolds(list: seq<Version>, tags: seq<Version>, current: Release, preReleases: bool)
    requires IsListing(list, tags, current, preReleases)
    ensures forall x :: x in list <==> x in tags && Eligible(x, current, preReleases)
    ensures forall x :: x in list <==>
              x in tags && (current.Known? ==> Precedes(current.version, x)) && (x.pre == [] || preReleases)
    ensures forall i, j :: 0 <= i < j < |list| ==> !Precedes(list[i], list[j])
    ensures list != [] ==> forall x <- list :: Compare(x, list[0]) <= 0
  {
    FilterKeepsEligible(tags, current, preReleases);
    assert forall x :: x in list <==> x in multiset(list);
    forall x
      ensures Eligible(x, current, preReleases) <==>
              (current.Known? ==> Precedes(current.version, x)) && (x.pre == [] || preReleases)
    {
      if current.Known? {
        CompareIsPrecedence(x, current.version);
      }
    }
    forall i, j | 0 <= i < j < |list|
      ensures !Precedes(list[i], list[j])
    {
      assert NewestFirst(list[i], list[j]) <= 0;
      CompareIsPrecedence(list[i], list[j]);
      CompareIsAntisymmetric(list[i], list[j]);
    }
    forall x | x in list
      ensures Compare(x, list[0]) <= 0
    {
      var i :| 0 <= i < |list| && list[i] == x;
      CompareIsAntisymmetric(list[0], list[i]);
    }
  }

  method UpgradableReleases(tags: seq<Version>, current: Release, preReleases: bool) returns (list: seq<Version>)
    ensures IsListing(list, tags, current, preReleases)
  {
    var found := [];
    for i := 0 to |tags|
      invariant found == Filter(tags[..i], current, preReleases)
    {
      assert tags[..i + 1][..i] == tags[..i];
      if NewerThan(tags[i], current) {
        if !preReleases && tags[i].pre != [] {
          continue;
        }
        found := found + [tags[i]];
      }
    }
    assert tags[..|tags|] == tags;
    NewestFirstIsPreorder();
    list := Sort(found, NewestFirst);
  }

  // ------------------------------------------------------------------
  // The decision
  // ------------------------------------------------------------------

  const THRESHOLD := Version(0, 9, 0, [Word("rc"), Number(1)], "")

  datatype MigrationError = FlakeUnreadable | NotAVersion | TagsUnreadable | StateUnsaved | JobsUnreadable

  datatype Reason = FlakeIsNewer | NoRelease | FlakeNotOlder

  datatype Decision = Decision(complete: bool, target: Option<Version>, reason: Option<Reason>)

  /** What one pass reads: the installed flake's version, the DBX release, and the
      tags of the release repository. */
  datatype View = View(flake: Option<Version>, current: Release, tags: Option<seq<Version>>)

  /** semverIsAtOrAbove */
  function AtOrAbove(r: Release, bound: Version): Result<bool, MigrationError> {
    match r
    case Blank => Ok(false)
    case Garbled(_) => Err(NotAVersion)
    case Known(v) => Ok(Compare(v, bound) >= 0)
  }

  /** Both versions have reached the threshold; the release is looked at only when
      the flake has. */
  function IsComplete(flake: Version, current: Release): Result<bool, MigrationError> {
    if Compare(flake, THRESHOLD) < 0 then Ok(false) else AtOrAbove(current, THRESHOLD)
  }

  /** The part of the decision after the release list is known. */
  function Decide(flake: Version, current: Release, list: seq<Version>): Result<Decision, MigrationError> {
    if Compare(flake, THRESHOLD) > 0 then Ok(Decision(false, None, Some(FlakeIsNewer)))
    else if AtOrAbove(current, THRESHOLD).Err? then Err(NotAVersion)
    else if AtOrAbove(current, THRESHOLD).value then Ok(Decision(false, Some(current.version), None))
    else if list == [] then Ok(Decision(false, None, Some(NoRelease)))
    else if Compare(flake, list[0]) < 0 then Ok(Decision(false, Some(list[0]), None))
    else Ok(Decision(false, Some(list[0]), Some(FlakeNotOlder)))
  }

  ghost predicate Decided(v: View, preReleases: bool, r: Result<Decision, MigrationError>) {
    if v.flake.None? then r == Err(FlakeUnreadable)
    else
      var complete := IsComplete(v.flake.value, v.current);
      if complete.Err? then r == Err(complete.error)
      else if complete.value then r == Ok(Decision(true, None, None))
      else if v.tags.None? then r == Err(TagsUnreadable)
      else exists list ::
          && IsListing(list, v.tags.value, v.current, preReleases)
          && r == Decide(v.flake.value, v.current, list)
  }

  method DetermineDecision(v: View, preReleases: bool) returns (r: Result<Decision, MigrationError>)
    ensures Decided(v, preReleases, r)
  {
    if v.flake.None? {
      return Err(FlakeUnreadable);
    }
    var flake, current := v.flake.value, v.current;
    var complete := IsComplete(flake, current);
    if complete.Err? {
      return Err(complete.error);
    }
    if complete.value {
      return Ok(Decision(true, None, None));
    }
    if v.tags.None? {
      return Err(TagsUnreadable);
    }
    var list := UpgradableReleases(v.tags.value, current, preReleases);
    if Compare(flake, THRESHOLD) > 0 {
      return Ok(Decision(false, None, Some(FlakeIsNewer)));
    }
    var inRange := AtOrAbove(current, THRESHOLD);
    if inRange.Err? {
      return Err(inRange.error);
    }
    if inRange.value {
      return Ok(Decision(false, Some(current.version), None));
    }
    if list == [] {
      return Ok(Decision(false, None, Some(NoRelease)));
    }
    if Compare(flake, list[0]) >= 0 {
      return Ok(Decision(false, Some(list[0]), Some(FlakeNotOlder)));
    }
    return Ok(Decision(false, Some(list[0]), None));
  }

  // ------------------------------------------------------------------
  // One boot
  // ------------------------------------------------------------------

  const OS_FLAKE := "pre_0.9_os_flake"
  const PRE_RELEASES := "includePreReleases"

  datatype Setting = Flag(on: bool) | Other

  datatype Record = Record(ranSuccessfully: bool, doNotRun: bool, config: map<string, Setting>)

  function RecordOf(records: map<string, Record>, name: string): Record {
    if name in records then records[name] else Record(false, false, map[])
  }

  function BoolConfig(r: Record, name: string): bool {
    name in r.config && r.config[name].Flag? && r.config[name].on
  }

  function Completed(records: map<string, Record>, name: string): map<string, Record> {
    records[name := RecordOf(records, name).(ranSuccessfully := true, doNotRun := true)]
  }

  predicate MayRun(records: map<string, Record>) {
    !RecordOf(records, OS_FLAKE).ranSuccessfully && !RecordOf(records, OS_FLAKE).doNotRun
  }

  function PreReleases(records: map<string, Record>): bool {
    BoolConfig(RecordOf(records, OS_FLAKE), PRE_RELEASES)
  }

  /** `saved` tells whether the records could be written. */
  ghost predicate RequirementsDid(records: map<string, Record>, recovery: bool, v: View, saved: bool,
                                  records': map<string, Record>, r: Result<bool, MigrationError>)
  {
    if recovery then r == Ok(false) && records' == records
    else exists d: Result<Decision, MigrationError> ::
        && Decided(v, PreReleases(records), d)
        && if d.Err? then r == Err(d.error) && records' == records
           else if d.value.complete then
             && r == (if saved then Ok(false) else Err(StateUnsaved))
             && records' == if saved then Completed(records, OS_FLAKE) else records
           else r == Ok(d.value.reason.None?) && records' == records
  }

  /** The run asks for the decision again and looks only at its target. */
  ghost predicate RunDid(preReleases: bool, v: View, active: Option<seq<string>>,
                         r: Result<Option<Version>, MigrationError>)
  {
    exists d: Result<Decision, MigrationError> ::
      && Decided(v, preReleases, d)
      && if d.Err? then r == Err(d.error)
         else if d.value.complete then r == Ok(None)
         else if active.None? then r == Err(JobsUnreadable)
         else r == Ok(if UPDATE in active.value then None else d.value.target)
  }

  const UPDATE: string := Events.ActionName(Events.SystemUpdate(""))

  /** A start: the requirements see one view and the run another. */
  ghost predicate BootDid(records: map<string, Record>, recovery: bool, a: View, b: View, active: Option<seq<string>>,
                          saved: bool, records': map<string, Record>, queued: Option<Version>)
  {
    if !MayRun(records) then records' == records && queued == None
    else exists applies: Result<bool, MigrationError> ::
        && RequirementsDid(records, recovery, a, saved, records', applies)
        && if applies == Ok(true) then QueuesAfter(PreReleases(records), b, active, queued) else queued == None
  }

  /** What the run queues. */
  ghost predicate QueuesAfter(preReleases: bool, v: View, active: Option<seq<string>>, queued: Option<Version>) {
    exists ran: Result<Option<Version>, MigrationError> ::
      RunDid(preReleases, v, active, ran) && queued == if ran.Ok? then ran.value else None
  }

  class Migrator {
    var records: map<string, Record>  // migrations.json
    var queue: seq<Version>  // the releases of the system updates enqueued

    constructor (records: map<string, Record>)
      ensures this.records == records && queue == []
    {
      this.records, queue := records, [];
    }

    method MarkCompleted(name: string) returns (ok: bool)
      modifies this`records
      ensures records == if ok then Completed(old(records), name) else old(records)
    {
      var state := records;
      var record := RecordOf(state, name);
      record := record.(ranSuccessfully := true);
      record := record.(doNotRun := true);
      state := state[name := record];
      ok := External();
      if ok {
        records := state;
      }
    }

    method Requirements(recovery: bool, v: View) returns (r: Result<bool, MigrationError>, ghost saved: bool)
      modifies this`records
      ensures RequirementsDid(old(records), recovery, v, saved, records, r)
    {
      saved := true;
      if recovery {
        return Ok(false), saved;
      }
      var d := DetermineDecision(v, PreReleases(records));
      if d.Err? {
        return Err(d.error), saved;
      }
      if d.value.complete {
        var ok := MarkCompleted(OS_FLAKE);
        return if ok then Ok(false) else Err(StateUnsaved), ok;
      }
      if d.value.reason.Some? {
        return Ok(false), saved;
      }
      return Ok(true), saved;
    }

    method Run(preReleases: bool, v: View, active: Option<seq<string>>)
      returns (r: Result<Option<Version>, MigrationError>)
      ensures RunDid(preReleases, v, active, r)
    {
      var d := DetermineDecision(v, preReleases);
      if d.Err? {
        return Err(d.error);
      }
      if d.value.complete {
        return Ok(None);
      }
      if active.None? {
        return Err(JobsUnreadable);
      }
      for i := 0 to |active.value|
        invariant UPDATE !in active.value[..i]
      {
        if active.value[i] == UPDATE {
          return Ok(None);
        }
      }
      assert active.value[..|active.value|] == active.value;
      return Ok(d.value.target);
    }

    /** RunMigrations over the one migration there is. */
    method RunMigrations(recovery: bool, a: View, b: View, active: Option<seq<string>>)
      returns (queued: Option<Version>, ghost saved: bool)
      modifies this
      ensures BootDid(old(records), recovery, a, b, active, saved, records, queued)
      ensures queue == old(queue) + if queued.Some? then [queued.value] else []
    {
      queued, saved := None, true;
      if !MayRun(records) {
        return;
      }
      var pre := PreReleases(records);
      var applies;
      applies, saved := Requirements(recovery, a);
      if applies != Ok(true) {
        return;
      }
      var ran := Run(pre, b, active);
      if ran.Ok? && ran.value.Some? {
        queue := queue + [ran.value.value];
        queued := ran.value;
      }
    }
  }

  // ------------------------------------------------------------------
  // The update that a queued job performs
  // ------------------------------------------------------------------

  datatype UpdateError = ListUnreadable | InvalidPackage | VersionUnavailable | UpdateFailed

  /** doSystemUpdate takes only the package "os" and a release that is still newer than
      the DBX release, pre-releases included. */
  method DoSystemUpdate(package: string, target: Version, current: Release, tags: Option<seq<Version>>)
    returns (r: Result<(), UpdateError>)
    ensures r == Err(ListUnreadable) <==> tags.None?
    ensures r == Err(InvalidPackage) <==> tags.Some? && package != "os"
    ensures r == Err(VersionUnavailable) <==>
            && tags.Some? && package == "os"
            && !(target in tags.value && (current.Known? ==> Precedes(current.version, target)))
  {
    if tags.None? {
      return Err(ListUnreadable);
    }
    var list := UpgradableReleases(tags.value, current, true);
    if package != "os" {
      return Err(InvalidPackage);
    }
    ListingHolds(list, tags.value, current, true);
    var found := false;
    for i := 0 to |list|
      invariant !found && target !in list[..i]
    {
      if list[i] == target {
        found := true;
        break;
      }
      assert list[..i + 1] == list[..i] + [list[i]];
    }
    assert found || target !in list by {
      assert list[..|list|] == list;
    }
    if !found {
      return Err(VersionUnavailable);
    }
    var ok := External();  // clone, stage and rebuild
    return if ok then Ok(()) else Err(UpdateFailed);
  }

  predicate Acceptable(target: Version, current: Release, tags: Option<seq<Version>>) {
    tags.Some? && target in tags.value && NewerThan(target, current)
  }
}
