/** The migration over many boots: what is queued, and what the queued updates
    change (pkg/system/migrations, doSystemUpdate in pkg/system/upgrades.go). */
module Boots {
  import opened Wrappers
  import opened Versions
  import opened Migration

  /** What survives a boot: the version in the installed flake, the DBX release and
      the migration records. */
  datatype World = World(flake: Version, current: Release, records: map<string, Record>)

  /** One boot: the views of the two passes, the active jobs, whether the records
      could be written, the release queued, the tags its update sees, and the world
      it leaves. */
  datatype Boot = Boot(recovery: bool, a: View, b: View, active: Option<seq<string>>, saved: bool,
                       queued: Option<Version>, updateTags: Option<seq<Version>>, next: World)

  /** A view of this world: the flake may be unreadable, the tags are whatever the
      repository answers. */
  ghost predicate Sees(v: View, w: World) {
    (v.flake.Some? ==> v.flake.value == w.flake) && v.current == w.current
  }

  /** The update is refused, fails, or gets as far as changing the DBX release, the
      flake, or both. */
  ghost predicate UpdateDid(w: World, target: Version, tags: Option<seq<Version>>, next: World) {
    && next.records == w.records
    && (next.flake == w.flake || (next.flake == target && Acceptable(target, w.current, tags)))
    && (next.current == w.current || (next.current == Known(target) && Acceptable(target, w.current, tags)))
  }

  ghost predicate Possible(w: World, boot: Boot) {
    && Sees(boot.a, w) && Sees(boot.b, w)
    && exists records: map<string, Record> ::
         && BootDid(w.records, boot.recovery, boot.a, boot.b, boot.active, boot.saved, records, boot.queued)
         && if boot.queued.None? then boot.next == w.(records := records)
            else UpdateDid(w.(records := records), boot.queued.value, boot.updateTags, boot.next)
  }

  ghost predicate BootRun(w: World, boots: seq<Boot>)
    decreases |boots|
  {
    boots == [] || (Possible(w, boots[0]) && BootRun(boots[0].next, boots[1..]))
  }

  ghost predicate InRange(current: Release) {
    current.Known? && Compare(current.version, THRESHOLD) >= 0
  }

  // ------------------------------------------------------------------
  // What is queued
  // ------------------------------------------------------------------

  ghost predicate IsNewest(t: Version, tags: seq<Version>, current: Release, preReleases: bool) {
    && t in tags && Eligible(t, current, preReleases)
    && forall x <- tags :: Eligible(x, current, preReleases) ==> Compare(x, t) <= 0
  }

  /** The target of an incomplete decision: the current release, once that has
      reached the threshold, or else the newest eligible release. */
  lemma TargetIs(v: View, preReleases: bool, d: Decision)
    requires Decided(v, preReleases, Ok(d)) && d.target.Some?
    ensures v.flake.Some? && v.tags.Some? && Compare(v.flake.value, THRESHOLD) <= 0
    ensures InRange(v.current) ==> d.target.value == v.current.version && Compare(v.flake.value, THRESHOLD) < 0
    ensures !InRange(v.current) ==> IsNewest(d.target.value, v.tags.value, v.current, preReleases)
    ensures d.reason.None? <==> Compare(v.flake.value, d.target.value) < 0
  {
    var list :|
      IsListing(list, v.tags.value, v.current, preReleases) && Ok(d) == Decide(v.flake.value, v.current, list);
    if InRange(v.current) {
      CompareIsAntisymmetric(v.current.version, THRESHOLD);
      CompareIsTransitive(v.flake.value, THRESHOLD, v.current.version);
    } else {
      ListingHolds(list, v.tags.value, v.current, preReleases);
      assert list[0] in list;
    }
  }

  /** A tag that a view offers. */
  ghost predicate Offered(v: View, preReleases: bool, x: Version) {
    && v.tags.Some? && x in v.tags.value
    && (v.current.Known? ==> Precedes(v.current.version, x)) && (x.pre == [] || preReleases)
  }

  /** What a decision is, by the rules of the standard alone: the errors, completion,
      and the reasons not to go on. */
  lemma DecisionIs(v: View, preReleases: bool, r: Result<Decision, MigrationError>)
    requires Decided(v, preReleases, r) && v.flake.Some?
    ensures var f, bound := v.flake.value, Version(0, 9, 0, [Word("rc"), Number(1)], "");
            var reached := v.current.Known? && !Precedes(v.current.version, bound);
            var below := !reached && !v.current.Garbled?;
            && (r == Err(NotAVersion) <==> v.current.Garbled? && (Precedes(f, bound) ==> v.tags.Some?))
            && (r == Err(TagsUnreadable) <==> v.tags.None? && (Precedes(f, bound) || below))
            && (r == Ok(Decision(true, None, None)) <==> !Precedes(f, bound) && reached)
            && (r == Ok(Decision(false, None, Some(FlakeIsNewer))) <==> v.tags.Some? && below && Precedes(bound, f))
            && (r == Ok(Decision(false, None, Some(NoRelease))) <==>
                  v.tags.Some? && below && !Precedes(bound, f) && forall x :: !Offered(v, preReleases, x))
            && (r.Ok? && r.value.reason == Some(FlakeNotOlder) <==>
                  && v.tags.Some? && below && !Precedes(bound, f)
                  && (exists x :: Offered(v, preReleases, x))
                  && forall x :: Offered(v, preReleases, x) ==> !Precedes(f, x))
  {
    var f := v.flake.value;
    CompareIsPrecedence(f, THRESHOLD);
    if v.current.Known? {
      CompareIsPrecedence(v.current.version, THRESHOLD);
    }
    var complete := IsComplete(f, v.current);
    if complete.Ok? && !complete.value && v.tags.Some? {
      var list :| IsListing(list, v.tags.value, v.current, preReleases) && r == Decide(f, v.current, list);
      ListedAreOffered(v, preReleases, list);
    }
  }

  ghost predicate OffersNewer(v: View, preReleases: bool)
    requires v.flake.Some?
  {
    exists x :: Offered(v, preReleases, x) && Precedes(v.flake.value, x)
  }

  /** There is something to update to: the current release again, when it has reached
      the bound and the flake has not, or an offered release newer than a flake that is
      not past the bound. */
  ghost predicate HasWork(v: View, preReleases: bool) {
    var bound := Version(0, 9, 0, [Word("rc"), Number(1)], "");
    && v.flake.Some? && v.tags.Some? && !v.current.Garbled?
    && if v.current.Known? && !Precedes(v.current.version, bound) then Precedes(v.flake.value, bound)
       else !Precedes(bound, v.flake.value) && OffersNewer(v, preReleases)
  }

  lemma AppliesIffWork(v: View, preReleases: bool, r: Result<Decision, MigrationError>)
    requires Decided(v, preReleases, r)
    ensures Applicable(r) <==> HasWork(v, preReleases)
  {
    if v.flake.Some? {
      var complete := IsComplete(v.flake.value, v.current);
      if complete.Ok? && !complete.value && v.tags.Some? {
        var list :|
          IsListing(list, v.tags.value, v.current, preReleases) && r == Decide(v.flake.value, v.current, list);
        WorkByCompare(v, preReleases, list);
        DecideApplies(v.flake.value, v.current, list);
      } else {
        NoWork(v, preReleases);
      }
    }
  }

  lemma NoWork(v: View, preReleases: bool)
    requires v.flake.Some?
    requires var complete := IsComplete(v.flake.value, v.current); complete.Err? || complete.value || v.tags.None?
    ensures !HasWork(v, preReleases)
  {
    CompareIsPrecedence(v.flake.value, THRESHOLD);
    if v.current.Known? {
      CompareIsPrecedence(v.current.version, THRESHOLD);
    }
  }

  predicate WorkFor(flake: Version, current: Release, list: seq<Version>) {
    && !current.Garbled?
    && if current.Known? && Compare(current.version, THRESHOLD) >= 0 then Compare(flake, THRESHOLD) < 0
       else Compare(flake, THRESHOLD) <= 0 && list != [] && Compare(flake, list[0]) < 0
  }

  lemma WorkByCompare(v: View, preReleases: bool, list: seq<Version>)
    requires v.flake.Some? && v.tags.Some? && IsListing(list, v.tags.value, v.current, preReleases)
    ensures HasWork(v, preReleases) <==> WorkFor(v.flake.value, v.current, list)
  {
    CompareIsPrecedence(v.flake.value, THRESHOLD);
    if v.current.Known? {
      CompareIsPrecedence(v.current.version, THRESHOLD);
    }
    NewerIsFirst(v, preReleases, list);
  }

  lemma DecideApplies(flake: Version, current: Release, list: seq<Version>)
    requires IsComplete(flake, current) == Ok(false)
    ensures Applicable(Decide(flake, current, list)) <==> WorkFor(flake, current, list)
  {}

  ghost predicate Applicable(r: Result<Decision, MigrationError>) {
    r.Ok? && !r.value.complete && r.value.reason.None? && r.value.target.Some?
  }

  lemma NewerIsFirst(v: View, preReleases: bool, list: seq<Version>)
    requires v.flake.Some? && v.tags.Some? && IsListing(list, v.tags.value, v.current, preReleases)
    ensures OffersNewer(v, preReleases) <==> list != [] && Compare(v.flake.value, list[0]) < 0
  {
    ListedAreOffered(v, preReleases, list);
    if list != [] {
      assert list[0] in list;
      CompareIsPrecedence(v.flake.value, list[0]);
    }
  }

  lemma RequirementsIff(records: map<string, Record>, recovery: bool, v: View, saved: bool,
                        records': map<string, Record>, r: Result<bool, MigrationError>)
    requires RequirementsDid(records, recovery, v, saved, records', r)
    ensures r == Ok(true) <==> !recovery && HasWork(v, PreReleases(records))
  {
    if !recovery {
      var d: Result<Decision, MigrationError> :|
        && Decided(v, PreReleases(records), d)
        && (d.Err? ==> r == Err(d.error))
        && (d.Ok? && d.value.complete ==> r != Ok(true))
        && (d.Ok? && !d.value.complete ==> r == Ok(d.value.reason.None?));
      AppliesIffWork(v, PreReleases(records), d);
      if d.Ok? && !d.value.complete && d.value.reason.None? {
        TargetIsChosen(v, PreReleases(records), d.value);
      }
    }
  }

  lemma RunIff(preReleases: bool, v: View, active: Option<seq<string>>, r: Result<Option<Version>, MigrationError>)
    requires RunDid(preReleases, v, active, r) && HasWork(v, preReleases)
    ensures r.Ok? && r.value.Some? <==> active.Some? && "system-update" !in active.value
  {
    forall d | Decided(v, preReleases, d)
      ensures Applicable(d)
    {
      AppliesIffWork(v, preReleases, d);
    }
  }

  /** No record of the migration says that it ran or is not to run. */
  ghost predicate SwitchedOn(records: map<string, Record>) {
    "pre_0.9_os_flake" in records ==>
      !records["pre_0.9_os_flake"].ranSuccessfully && !records["pre_0.9_os_flake"].doNotRun
  }

  ghost predicate WantsPreReleases(records: map<string, Record>) {
    && "pre_0.9_os_flake" in records && "includePreReleases" in records["pre_0.9_os_flake"].config
    && records["pre_0.9_os_flake"].config["includePreReleases"] == Flag(true)
  }

  /** When both passes see the same, an update is queued exactly when the migration is
      switched on, there is something to update to, the machine is not in recovery, and
      no system update is among the active jobs, which can be read. */
  lemma QueuedIff(w: World, boot: Boot)
    requires Possible(w, boot) && boot.a == boot.b
    ensures boot.queued.Some? <==>
            && SwitchedOn(w.records) && !boot.recovery && HasWork(boot.a, WantsPreReleases(w.records))
            && boot.active.Some? && "system-update" !in boot.active.value
  {
    WorldAfter(w, boot);
    SettingsRead(w.records);
    if MayRun(w.records) {
      var applies: Result<bool, MigrationError> :|
        && RequirementsDid(w.records, boot.recovery, boot.a, boot.saved, boot.next.records, applies)
        && if applies == Ok(true) then QueuesAfter(PreReleases(w.records), boot.b, boot.active, boot.queued)
           else boot.queued == None;
      RequirementsIff(w.records, boot.recovery, boot.a, boot.saved, boot.next.records, applies);
      if applies == Ok(true) {
        QueuesIff(PreReleases(w.records), boot.b, boot.active, boot.queued);
      }
    }
  }

  lemma QueuesIff(preReleases: bool, v: View, active: Option<seq<string>>, queued: Option<Version>)
    requires QueuesAfter(preReleases, v, active, queued) && HasWork(v, preReleases)
    ensures queued.Some? <==> active.Some? && "system-update" !in active.value
  {
    var ran: Result<Option<Version>, MigrationError> :|
      RunDid(preReleases, v, active, ran) && queued == if ran.Ok? then ran.value else None;
    RunIff(preReleases, v, active, ran);
  }

  lemma SettingsRead(records: map<string, Record>)
    ensures MayRun(records) <==> SwitchedOn(records)
    ensures PreReleases(records) <==> WantsPreReleases(records)
  {}

  lemma ListedAreOffered(v: View, preReleases: bool, list: seq<Version>)
    requires v.flake.Some? && v.tags.Some? && IsListing(list, v.tags.value, v.current, preReleases)
    ensures forall x :: x in list <==> Offered(v, preReleases, x)
    ensures list == [] <==> forall x :: !Offered(v, preReleases, x)
    ensures list != [] ==> (Compare(v.flake.value, list[0]) >= 0 <==> forall x <- list :: !Precedes(v.flake.value, x))
  {
    ListingHolds(list, v.tags.value, v.current, preReleases);
    if list != [] {
      assert list[0] in list;
      CompareIsPrecedence(v.flake.value, list[0]);
      forall x | x in list && Precedes(v.flake.value, x)
        ensures Compare(v.flake.value, list[0]) < 0
      {
        CompareIsPrecedence(v.flake.value, x);
        CompareIsTransitive(v.flake.value, x, list[0]);
      }
    }
  }

  /** The run does not look at the reason found in its own pass, so its target is
      newer than the installed flake exactly when that pass finds the current
      release in range or a newer eligible release. */
  lemma QueuedTargetIsNewerIff(w: World, boot: Boot)
    requires Possible(w, boot) && boot.queued.Some?
    ensures boot.b.tags.Some?
    ensures Compare(w.flake, boot.queued.value) < 0 <==>
            || InRange(w.current)
            || exists x <- boot.b.tags.value ::
                 Eligible(x, w.current, PreReleases(w.records)) && Compare(w.flake, x) < 0
  {
    var d := QueuedByRun(w, boot);
    var pre, t := PreReleases(w.records), boot.queued.value;
    TargetIs(boot.b, pre, d);
    if x :| !InRange(w.current) && x in boot.b.tags.value && Eligible(x, w.current, pre) && Compare(w.flake, x) < 0 {
      CompareIsTransitive(w.flake, x, t);
    }
  }

  lemma QueuedByRun(w: World, boot: Boot) returns (d: Decision)
    requires Possible(w, boot) && boot.queued.Some?
    ensures MayRun(w.records) && Decided(boot.b, PreReleases(w.records), Ok(d)) && d.target == boot.queued
  {
    var records :| BootDid(w.records, boot.recovery, boot.a, boot.b, boot.active, boot.saved, records, boot.queued);
    var ran: Result<Option<Version>, MigrationError> :|
      RunDid(PreReleases(w.records), boot.b, boot.active, ran) && boot.queued == if ran.Ok? then ran.value else None;
    var r: Result<Decision, MigrationError> :|
      Decided(boot.b, PreReleases(w.records), r) && r.Ok? && r.value.target == boot.queued;
    d := r.value;
  }

  lemma AppliesByRequirements(w: World, boot: Boot) returns (d: Decision)
    requires Possible(w, boot) && boot.queued.Some?
    ensures Decided(boot.a, PreReleases(w.records), Ok(d)) && !d.complete && d.reason.None?
    ensures forall records ::
              BootDid(w.records, boot.recovery, boot.a, boot.b, boot.active, boot.saved, records, boot.queued)
              ==> records == w.records
  {
    forall records | BootDid(w.records, boot.recovery, boot.a, boot.b, boot.active, boot.saved, records, boot.queued)
      ensures records == w.records
    {
      assert RequirementsDid(w.records, boot.recovery, boot.a, boot.saved, records, Ok(true));
    }
    var records :| BootDid(w.records, boot.recovery, boot.a, boot.b, boot.active, boot.saved, records, boot.queued);
    assert RequirementsDid(w.records, boot.recovery, boot.a, boot.saved, records, Ok(true));
    var r: Result<Decision, MigrationError> :|
      Decided(boot.a, PreReleases(w.records), r) && r.Ok? && !r.value.complete && r.value.reason.None?;
    d := r.value;
  }

  /** With the same tags in both passes the target is always newer. */
  lemma QueuedTargetIsNewer(w: World, boot: Boot)
    requires Possible(w, boot) && boot.queued.Some? && boot.a.tags == boot.b.tags
    ensures Compare(w.flake, boot.queued.value) < 0
  {
    var d := AppliesByRequirements(w, boot);
    var e := QueuedByRun(w, boot);
    TargetIs(boot.b, PreReleases(w.records), e);
    TargetIsChosen(boot.a, PreReleases(w.records), d);
    TargetIs(boot.a, PreReleases(w.records), d);
    if !InRange(w.current) {
      CompareIsTransitive(w.flake, d.target.value, e.target.value);
    }
  }

  lemma TargetIsChosen(v: View, preReleases: bool, d: Decision)
    requires Decided(v, preReleases, Ok(d)) && !d.complete && d.reason.None?
    ensures d.target.Some?
  {
    var list :|
      IsListing(list, v.tags.value, v.current, preReleases) && Ok(d) == Decide(v.flake.value, v.current, list);
    DecideChooses(v.flake.value, v.current, list, d);
  }

  lemma DecideChooses(flake: Version, current: Release, list: seq<Version>, d: Decision)
    requires Ok(d) == Decide(flake, current, list) && d.reason.None?
    ensures d.target.Some?
  {}

  /** If the tags change between the passes, any release newer than the current one
      can be queued, newer than the installed flake or not. */
  lemma ChangedTagsCanQueueAny(w: World, newer: Version, any: Version) returns (boot: Boot)
    requires MayRun(w.records) && Compare(w.flake, THRESHOLD) < 0 && AtOrAbove(w.current, THRESHOLD) == Ok(false)
    requires Eligible(newer, w.current, PreReleases(w.records)) && Compare(w.flake, newer) < 0
    requires Eligible(any, w.current, PreReleases(w.records))
    ensures Possible(w, boot) && boot.queued == Some(any)
  {
    var flake, pre := Some(w.flake), PreReleases(w.records);
    var a, b := View(flake, w.current, Some([newer])), View(flake, w.current, Some([any]));
    boot := Boot(false, a, b, Some([]), true, Some(any), None, w);
    var reason := if Compare(w.flake, any) < 0 then None else Some(FlakeNotOlder);
    OneTagDecides(w.flake, w.current, newer, pre);
    OneTagDecides(w.flake, w.current, any, pre);
    AppliesThenQueues(w, boot, Decision(false, Some(newer), None), Decision(false, Some(any), reason));
  }

  lemma AppliesThenQueues(w: World, boot: Boot, applies: Decision, ran: Decision)
    requires MayRun(w.records) && !boot.recovery && boot.active == Some([]) && boot.next == w
    requires Sees(boot.a, w) && Sees(boot.b, w)
    requires Decided(boot.a, PreReleases(w.records), Ok(applies)) && !applies.complete && applies.reason.None?
    requires Decided(boot.b, PreReleases(w.records), Ok(ran)) && !ran.complete && ran.target == boot.queued
    requires boot.queued.Some?
    ensures Possible(w, boot)
  {
    Applies(w.records, boot.a, boot.saved, applies);
    Runs(PreReleases(w.records), boot.b, ran);
    assert BootDid(w.records, false, boot.a, boot.b, boot.active, boot.saved, w.records, boot.queued);
    assert w.(records := w.records) == w;
  }

  lemma Applies(records: map<string, Record>, v: View, saved: bool, d: Decision)
    requires Decided(v, PreReleases(records), Ok(d)) && !d.complete && d.reason.None?
    ensures RequirementsDid(records, false, v, saved, records, Ok(true))
  {}

  lemma Runs(preReleases: bool, v: View, d: Decision)
    requires Decided(v, preReleases, Ok(d)) && !d.complete
    ensures RunDid(preReleases, v, Some([]), Ok(d.target))
  {}

  lemma OneTagDecides(flake: Version, current: Release, tag: Version, preReleases: bool)
    requires Compare(flake, THRESHOLD) < 0 && AtOrAbove(current, THRESHOLD) == Ok(false)
    requires Eligible(tag, current, preReleases)
    ensures Decided(View(Some(flake), current, Some([tag])), preReleases,
                    Ok(Decision(false, Some(tag), if Compare(flake, tag) < 0 then None else Some(FlakeNotOlder))))
  {
    assert [tag][..0] == [];
    assert IsListing([tag], [tag], current, preReleases);
  }

  // ------------------------------------------------------------------
  // Convergence
  // ------------------------------------------------------------------

  /** Every fetch of the tags, in all passes, fails or gives these. */
  ghost predicate FixedTags(boots: seq<Boot>, tags: seq<Version>) {
    forall boot <- boots ::
      && (boot.a.tags.None? || boot.a.tags.value == tags)
      && (boot.b.tags.None? || boot.b.tags.value == tags)
      && (boot.updateTags.None? || boot.updateTags.value == tags)
  }

  ghost predicate TakesEffect(w: World, boot: Boot) {
    boot.next.flake != w.flake || boot.next.current != w.current
  }

  ghost function Effects(w: World, boots: seq<Boot>): nat
    decreases |boots|
  {
    if boots == [] then 0
    else (if TakesEffect(w, boots[0]) then 1 else 0) + Effects(boots[0].next, boots[1..])
  }

  /** No queued update can change anything any more. */
  ghost predicate Settled(w: World, tags: seq<Version>) {
    || InRange(w.current)
    || Compare(w.flake, THRESHOLD) > 0
    || forall x <- tags :: Eligible(x, w.current, PreReleases(w.records)) ==> Compare(x, w.flake) <= 0
  }

  lemma SettingIsKept(w: World, boot: Boot)
    requires Possible(w, boot)
    ensures PreReleases(boot.next.records) == PreReleases(w.records)
    ensures !MayRun(w.records) ==> boot.next == w && boot.queued == None
  {
    var records :| BootDid(w.records, boot.recovery, boot.a, boot.b, boot.active, boot.saved, records, boot.queued);
    assert records == w.records || records == Completed(w.records, OS_FLAKE);
  }

  lemma EffectNeedsTarget(w: World, boot: Boot, tags: seq<Version>)
    requires Possible(w, boot) && FixedTags([boot], tags) && TakesEffect(w, boot)
    ensures boot.queued.Some? && !InRange(w.current) && Compare(w.flake, THRESHOLD) <= 0
    ensures var t := boot.queued.value;
            && IsNewest(t, tags, w.current, PreReleases(w.records)) && Compare(w.flake, t) < 0
            && (boot.next.flake == t || boot.next.current == Known(t))
  {
    assert boot in [boot];
    var d := QueuedByRun(w, boot);
    TargetIs(boot.b, PreReleases(w.records), d);
    var e := AppliesByRequirements(w, boot);
    TargetIsChosen(boot.a, PreReleases(w.records), e);
    TargetIs(boot.a, PreReleases(w.records), e);
    assert boot.a.tags == boot.b.tags;
    QueuedTargetIsNewer(w, boot);
    if InRange(w.current) {
      CompareIsAntisymmetric(w.current.version, w.current.version);
    }
  }

  lemma EffectSettles(w: World, boot: Boot, tags: seq<Version>)
    requires Possible(w, boot) && FixedTags([boot], tags) && TakesEffect(w, boot)
    ensures !Settled(w, tags) && Settled(boot.next, tags)
  {
    EffectNeedsTarget(w, boot, tags);
    SettingIsKept(w, boot);
    var t, pre := boot.queued.value, PreReleases(w.records);
    CompareIsAntisymmetric(t, w.flake);
    if boot.next.current == Known(t) {
      forall x | x in tags && Eligible(x, boot.next.current, pre)
        ensures false
      {
        if w.current.Known? {
          CompareIsAntisymmetric(w.current.version, t);
          CompareIsAntisymmetric(w.current.version, x);
          CompareIsAntisymmetric(t, x);
          CompareIsTransitive(w.current.version, t, x);
        }
        assert Eligible(x, w.current, pre);
      }
    }
  }

  lemma SettledStays(w: World, boot: Boot, tags: seq<Version>)
    requires Possible(w, boot) && FixedTags([boot], tags) && Settled(w, tags)
    ensures !TakesEffect(w, boot) && Settled(boot.next, tags)
  {
    if TakesEffect(w, boot) {
      EffectSettles(w, boot, tags);
    }
    SettingIsKept(w, boot);
  }

  /** With fixed tags and a fixed pre-release setting, at most one update ever
      changes anything, however many boots there are and however each fails. */
  lemma {:induction false} AtMostOneUpdate(w: World, boots: seq<Boot>, tags: seq<Version>)
    requires BootRun(w, boots) && FixedTags(boots, tags)
    ensures Effects(w, boots) <= 1
    ensures Settled(w, tags) ==> Effects(w, boots) == 0
    decreases |boots|
  {
    if boots != [] {
      assert FixedTags([boots[0]], tags);
      AtMostOneUpdate(boots[0].next, boots[1..], tags);
      if TakesEffect(w, boots[0]) {
        EffectSettles(w, boots[0], tags);
      } else if Settled(w, tags) {
        SettledStays(w, boots[0], tags);
      }
    }
  }

  /** Once the record says so, no boot ever queues or changes anything. */
  lemma {:induction false} CompletedIsFinal(w: World, boots: seq<Boot>)
    requires BootRun(w, boots) && !MayRun(w.records)
    ensures forall boot <- boots :: boot.queued == None && boot.next == w
    decreases |boots|
  {
    if boots != [] {
      SettingIsKept(w, boots[0]);
      CompletedIsFinal(boots[0].next, boots[1..]);
      assert boots == [boots[0]] + boots[1..];
    }
  }

  /** Flake and DBX release are at v0.9.0-rc.1 or later. */
  ghost predicate Reached(w: World) {
    && !Precedes(w.flake, Version(0, 9, 0, [Word("rc"), Number(1)], ""))
    && w.current.Known? && !Precedes(w.current.version, Version(0, 9, 0, [Word("rc"), Number(1)], ""))
  }

  lemma ReachedIsThreshold(w: World)
    ensures Reached(w) <==> Compare(w.flake, THRESHOLD) >= 0 && InRange(w.current)
  {
    CompareIsPrecedence(w.flake, THRESHOLD);
    if w.current.Known? {
      CompareIsPrecedence(w.current.version, THRESHOLD);
    }
  }

  /** The boot looks at the versions, and can write what it finds. */
  ghost predicate CanRecord(boot: Boot) {
    !boot.recovery && boot.a.flake.Some? && boot.saved
  }

  /** The record of the migration says that it ran and is not to run again; its
      settings and all other records stay. */
  ghost predicate Recorded(records: map<string, Record>, records': map<string, Record>) {
    && records'.Keys == records.Keys + {"pre_0.9_os_flake"}
    && records'["pre_0.9_os_flake"].ranSuccessfully && records'["pre_0.9_os_flake"].doNotRun
    && ("pre_0.9_os_flake" in records ==> records'["pre_0.9_os_flake"].config == records["pre_0.9_os_flake"].config)
    && forall k <- records :: k != "pre_0.9_os_flake" ==> records'[k] == records[k]
  }

  /** The record is written exactly when both versions have reached the threshold and
      the boot can write it; then, and whenever both have, nothing is queued. */
  lemma RecordedIffReached(w: World, boot: Boot)
    requires Possible(w, boot) && MayRun(w.records)
    ensures boot.next.records != w.records <==> Reached(w) && CanRecord(boot)
    ensures boot.next.records != w.records ==> Recorded(w.records, boot.next.records) && !MayRun(boot.next.records)
    ensures Reached(w) ==> boot.queued == None && boot.next.flake == w.flake && boot.next.current == w.current
  {
    ReachedIsThreshold(w);
    WorldAfter(w, boot);
    if boot.queued.Some? {
      var d := AppliesByRequirements(w, boot);
      TargetIsChosen(boot.a, PreReleases(w.records), d);
      TargetIs(boot.a, PreReleases(w.records), d);
    }
    var records := boot.next.records;
    if records != w.records {
      assert records == Completed(w.records, OS_FLAKE);
    }
  }

  lemma WorldAfter(w: World, boot: Boot)
    requires Possible(w, boot)
    ensures BootDid(w.records, boot.recovery, boot.a, boot.b, boot.active, boot.saved, boot.next.records, boot.queued)
    ensures boot.queued.None? ==> boot.next == w.(records := boot.next.records)
  {}

  ghost function LastWorld(w: World, boots: seq<Boot>): World
    decreases |boots|
  {
    if boots == [] then w else LastWorld(boots[0].next, boots[1..])
  }

  /** Once both versions have reached it, no boot queues anything, and the migration
      stays allowed exactly until some boot can write the record. */
  lemma {:induction false} ReachedIsRecordedOnce(w: World, boots: seq<Boot>)
    requires BootRun(w, boots) && Reached(w) && MayRun(w.records)
    ensures forall boot <- boots :: boot.queued == None
    ensures LastWorld(w, boots).flake == w.flake && LastWorld(w, boots).current == w.current
    ensures MayRun(LastWorld(w, boots).records) <==> forall boot <- boots :: !CanRecord(boot)
    decreases |boots|
  {
    if boots != [] {
      var first, rest := boots[0], boots[1..];
      RecordedIffReached(w, first);
      assert boots == [first] + rest;
      if CanRecord(first) {
        CompletedIsFinal(first.next, rest);
        FinalWorldStays(first.next, rest);
      } else {
        assert first.next == w by {
          WorldAfter(w, first);
        }
        ReachedIsRecordedOnce(first.next, rest);
      }
    }
  }

  lemma {:induction false} FinalWorldStays(w: World, boots: seq<Boot>)
    requires forall boot <- boots :: boot.next == w
    ensures LastWorld(w, boots) == w
    decreases |boots|
  {
    if boots != [] {
      assert boots[0] in boots;
      FinalWorldStays(w, boots[1..]);
    }
  }

  // ------------------------------------------------------------------
  // Partial activation
  // ------------------------------------------------------------------

  /** The DBX release has reached the threshold but the flake has not. */
  ghost predicate PartlyActivated(w: World) {
    InRange(w.current) && Compare(w.flake, THRESHOLD) < 0
  }

  /** The current release is queued again at every boot where the tags can be read
      and nothing hinders it, */
  lemma PartialActivationIsQueued(w: World, boot: Boot)
    requires PartlyActivated(w) && Possible(w, boot) && MayRun(w.records) && !boot.recovery
    requires boot.a.flake.Some? && boot.a.tags.Some? && boot.b.flake.Some? && boot.b.tags.Some?
    requires boot.active.Some? && UPDATE !in boot.active.value
    ensures boot.queued == Some(w.current.version)
  {
    var records :| BootDid(w.records, boot.recovery, boot.a, boot.b, boot.active, boot.saved, records, boot.queued);
    var pre, again := PreReleases(w.records), Decision(false, Some(w.current.version), None);
    assert forall d :: Decided(boot.a, pre, d) ==> d == Ok(again);
    assert forall d :: Decided(boot.b, pre, d) ==> d == Ok(again);
  }

  /** but that update is refused, because the release is not newer than itself: the
      flake is never repaired and the record never written, whatever the tags. */
  lemma {:induction false} PartialActivationIsNeverRepaired(w: World, boots: seq<Boot>)
    requires PartlyActivated(w) && BootRun(w, boots)
    ensures forall boot <- boots :: boot.next == w
    decreases |boots|
  {
    if boots != [] {
      UpdateIsRefused(w, boots[0]);
      PartialActivationIsNeverRepaired(boots[0].next, boots[1..]);
      assert boots == [boots[0]] + boots[1..];
    }
  }

  lemma UpdateIsRefused(w: World, boot: Boot)
    requires PartlyActivated(w) && Possible(w, boot)
    ensures boot.next == w
  {
    if MayRun(w.records) {
      ReachedIsThreshold(w);
      RecordedIffReached(w, boot);
    }
    if boot.queued.Some? {
      var d := QueuedByRun(w, boot);
      TargetIs(boot.b, PreReleases(w.records), d);
      CompareIsAntisymmetric(w.current.version, w.current.version);
    } else {
      SettingIsKept(w, boot);
    }
  }
}
