/** The job store and its cache of active records (JobManager in pkg/jobs.go).
    Store writes are assumed to succeed; time is an integer clock. */
module Jobs {
  import opened Wrappers
  import opened Events
  import opened Ordering

  datatype JobStatus = Queued | InProgress | Completed | Failed | Cancelled | Orphaned

  predicate Active(s: JobStatus) {
    s == Queued || s == InProgress
  }

  datatype JobRecord = JobRecord(
    id: JobId, started: int, finished: Option<int>, displayName: string, action: string,
    targetVersion: string, progress: int, status: JobStatus, summary: string, error: string, pupID: PupId)

  datatype ActionProgress = ActionProgress(actionID: JobId, pupID: PupId, progress: int, msg: string, error: bool)

  /** What the last restart left on the host, as reconciliation reads it. */
  datatype HostState = HostState(dbxRelease: string, flakeVersion: Option<string>, logTargets: map<JobId, string>)

  // ------------------------------------------------------------------
  // Records
  // ------------------------------------------------------------------

  function NewRecord(j: Job, displayName: string): JobRecord {
    JobRecord(j.id, j.start, None, displayName, ActionName(j.action),
              if j.action.SystemUpdate? then j.action.version else "",
              0, Queued, "Job queued", "", PupOf(j.action))
  }

  function WithProgress(r: JobRecord, ap: ActionProgress): JobRecord {
    r.(progress := if ap.progress > 0 then ap.progress else r.progress,
       status := if r.status == Queued then InProgress else r.status,
       pupID := if r.pupID == "" && ap.pupID != "" then ap.pupID else r.pupID,
       summary := ap.msg,
       error := if ap.error then ap.msg else r.error)
  }

  function Finish(r: JobRecord, err: string, now: int): JobRecord {
    if err != "" then r.(finished := Some(now), status := Failed, error := err, summary := "Job failed")
    else r.(finished := Some(now), status := Completed, progress := 100, summary := "Job completed successfully")
  }

  function AsOrphan(r: JobRecord, now: int): JobRecord {
    r.(finished := Some(now), status := Orphaned, summary := "Job marked as orphaned",
       error := "Job is no longer being processed")
  }

  function AsStuck(r: JobRecord, now: int): JobRecord {
    r.(status := Failed, error := "Job was orphaned (stuck in queue)", finished := Some(now))
  }

  function AsInterrupted(r: JobRecord, now: int): JobRecord {
    r.(status := Failed, finished := Some(now), error := "Job was interrupted by dogeboxd restart",
       summary := "Job failed")
  }

  predicate IsSpace(c: char) {
    || c in " \t\n\r\U{0B}\U{0C}\U{85}\U{A0}\U{1680}\U{2028}\U{2029}\U{202F}\U{205F}\U{3000}"
    || '\U{2000}' <= c <= '\U{200A}'
  }

  function TrimSpace(s: string): string {
    if s == "" then s
    else if IsSpace(s[0]) then TrimSpace(s[1..])
    else if IsSpace(s[|s| - 1]) then TrimSpace(s[..|s| - 1])
    else s
  }

  function ToLower(s: string): string {
    seq(|s|, i requires 0 <= i < |s| => if 'A' <= s[i] <= 'Z' then s[i] - 'A' + 'a' else s[i])
  }

  predicate IsSystemJob(r: JobRecord) {
    r.action == ActionName(SystemUpdate("")) || ToLower(r.displayName) == "system update"
  }

  function TargetVersion(r: JobRecord, host: HostState): string {
    if TrimSpace(r.targetVersion) != "" then TrimSpace(r.targetVersion)
    else if r.id in host.logTargets then TrimSpace(host.logTargets[r.id])
    else ""
  }

  /** The host already runs what this interrupted update was to install. */
  predicate AlreadyInstalled(r: JobRecord, host: HostState) {
    && TargetVersion(r, host) != ""
    && TrimSpace(host.dbxRelease) == TargetVersion(r, host)
    && host.flakeVersion == Some(TargetVersion(r, host))
  }

  // ------------------------------------------------------------------
  // Store and cache
  // ------------------------------------------------------------------

  datatype Tables = Tables(store: map<JobId, JobRecord>, cache: map<JobId, JobRecord>) {

    /** The cache first, then the store. */
    function Lookup(id: JobId): Option<JobRecord> {
      if id in cache then Some(cache[id]) else if id in store then Some(store[id]) else None
    }

    /** No row, or a row in a terminal status. */
    predicate Quiet(id: JobId) {
      id in store ==> !Active(store[id].status)
    }

    /** Cache and store agree, rows sit under their own id, and a record is
        finished exactly when its status is terminal. */
    ghost predicate Valid() {
      && (forall id <- store :: store[id].id == id && Consistent(store[id]))
      && (forall id <- cache :: cache[id].id == id && Consistent(cache[id]))
      && (forall id <- cache :: id in store ==> store[id] == cache[id])
      && (forall id <- cache :: Active(cache[id].status) ==> id in store)
    }

    /** Rows of these jobs are active only while they are cached. */
    ghost predicate CachesActive(ids: set<JobId>) {
      forall id <- ids :: id in store && Active(store[id].status) ==> id in cache
    }
  }

  ghost predicate Consistent(r: JobRecord) {
    r.finished.Some? <==> !Active(r.status)
  }

  datatype Op =
    | Create(record: JobRecord)
    | SetPupID(id: JobId, pupID: PupId)
    | Progress(ap: ActionProgress)
    | Complete(id: JobId, err: string, now: int)
    | MarkOrphaned(id: JobId, now: int)
    | Delete(id: JobId)
    | ClearAll
    | ClearCompleted(cutoff: int)
    | ClearOrphaned(now: int, cutoff: int)
    | Reconcile(host: HostState, now: int)
    | ClearInterrupted(now: int)

  predicate Stuck(r: JobRecord, cutoff: int) {
    Active(r.status) && r.started < cutoff
  }

  predicate Interrupted(r: JobRecord) {
    Active(r.status) && IsSystemJob(r)
  }

  predicate Reconciled(r: JobRecord, host: HostState) {
    Interrupted(r) && AlreadyInstalled(r, host)
  }

  /** Each operation as a function of the two tables; an operation on an unknown
      job is an error and changes nothing. */
  function Apply(t: Tables, op: Op): Tables {
    match op
    case Create(r) => Tables(t.store[r.id := r], t.cache[r.id := r])
    case SetPupID(id, p) =>
      var r := t.Lookup(id);
      if r.None? then t else Put(t, id, r.value.(pupID := p))
    case Progress(ap) =>
      var r := t.Lookup(ap.actionID);
      if r.None? then t else Put(t, ap.actionID, WithProgress(r.value, ap))
    case Complete(id, err, now) =>
      var r := t.Lookup(id);
      if r.None? then t else Retire(t, id, Finish(r.value, err, now))
    case MarkOrphaned(id, now) =>
      var r := t.Lookup(id);
      if r.None? || !Active(r.value.status) then t else Retire(t, id, AsOrphan(r.value, now))
    case Delete(id) => Tables(t.store - {id}, t.cache - {id})
    case ClearAll => Tables(map[], map[])
    case ClearCompleted(cutoff) =>
      t.(store := map id | id in t.store && !Expired(t.store[id], cutoff) :: t.store[id])
    case ClearOrphaned(now, cutoff) =>
      Tables(map id | id in t.store :: if Stuck(t.store[id], cutoff) then AsStuck(t.store[id], now) else t.store[id],
             map id | id in t.cache && !Stuck(t.cache[id], cutoff) :: t.cache[id])
    case Reconcile(host, now) =>
      Tables(map id | id in t.store ::
               if Reconciled(t.store[id], host) then Finish(t.store[id], "", now) else t.store[id],
             t.cache - (set id | id in t.store && Reconciled(t.store[id], host)))
    case ClearInterrupted(now) =>
      Tables(map id | id in t.store ::
               if Interrupted(t.store[id]) then AsInterrupted(t.store[id], now) else t.store[id],
             map id | id in t.cache && !Interrupted(t.cache[id]) :: t.cache[id])
  }

  predicate Expired(r: JobRecord, cutoff: int) {
    !Active(r.status) && r.finished.Some? && r.finished.value < cutoff
  }

  function Put(t: Tables, id: JobId, r: JobRecord): Tables {
    Tables(t.store[r.id := r], t.cache[id := r])
  }

  function Retire(t: Tables, id: JobId, r: JobRecord): Tables {
    Tables(t.store[r.id := r], t.cache - {id})
  }

  // ------------------------------------------------------------------
  // What every operation keeps
  // ------------------------------------------------------------------

  ghost predicate WellFormedOp(op: Op) {
    op.Create? ==> Consistent(op.record)
  }

  lemma OpKeepsValid(t: Tables, op: Op)
    requires t.Valid() && WellFormedOp(op)
    ensures Apply(t, op).Valid()
  {
    match op
    case Create(r) => PutKeepsValid(t, r.id, r);
    case SetPupID(id, p) =>
      if t.Lookup(id).Some? { PutKeepsValid(t, id, t.Lookup(id).value.(pupID := p)); }
    case Progress(ap) =>
      if t.Lookup(ap.actionID).Some? { PutKeepsValid(t, ap.actionID, WithProgress(t.Lookup(ap.actionID).value, ap)); }
    case Complete(id, err, now) =>
      if t.Lookup(id).Some? { RetireKeepsValid(t, id, Finish(t.Lookup(id).value, err, now)); }
    case MarkOrphaned(id, now) =>
      if t.Lookup(id).Some? { RetireKeepsValid(t, id, AsOrphan(t.Lookup(id).value, now)); }
    case ClearOrphaned(now, cutoff) => ClearOrphanedKeepsValid(t, now, cutoff);
    case Reconcile(host, now) => ReconcileKeepsValid(t, host, now);
    case ClearInterrupted(now) => ClearInterruptedKeepsValid(t, now);
    case _ =>
  }

  lemma PutKeepsValid(t: Tables, id: JobId, r: JobRecord)
    requires t.Valid() && r.id == id && Consistent(r)
    ensures Put(t, id, r).Valid()
  {}

  lemma RetireKeepsValid(t: Tables, id: JobId, r: JobRecord)
    requires t.Valid() && r.id == id && Consistent(r)
    ensures Retire(t, id, r).Valid()
  {}

  lemma ClearOrphanedKeepsValid(t: Tables, now: int, cutoff: int)
    requires t.Valid()
    ensures Apply(t, ClearOrphaned(now, cutoff)).Valid()
  {}

  lemma ReconcileKeepsValid(t: Tables, host: HostState, now: int)
    requires t.Valid()
    ensures Apply(t, Reconcile(host, now)).Valid()
  {}

  lemma ClearInterruptedKeepsValid(t: Tables, now: int)
    requires t.Valid()
    ensures Apply(t, ClearInterrupted(now)).Valid()
  {}

  /** Only creating a job makes a row active that was not. */
  lemma OpKeepsQuiet(t: Tables, op: Op, id: JobId)
    requires t.Valid() && t.Quiet(id)
    requires !(op.Create? && op.record.id == id)
    ensures Apply(t, op).Quiet(id)
  {}

  lemma OpKeepsCached(t: Tables, op: Op, ids: set<JobId>)
    requires t.Valid() && t.CachesActive(ids)
    ensures Apply(t, op).CachesActive(ids + if op.Create? then {op.record.id} else {})
  {
    forall id | id in ids
      ensures Apply(t, op).CachesActive({id})
    {
      OpKeepsOneCached(t, op, id);
    }
    forall id | id in ids && id in Apply(t, op).store && Active(Apply(t, op).store[id].status)
      ensures id in Apply(t, op).cache
    {
      assert Apply(t, op).CachesActive({id});
    }
  }

  lemma OpKeepsOneCached(t: Tables, op: Op, id: JobId)
    requires t.Valid() && t.CachesActive({id})
    ensures Apply(t, op).CachesActive({id})
  {
    assert id in {id};
  }

  function Run(t: Tables, ops: seq<Op>): Tables
    decreases |ops|
  {
    if ops == [] then t else Run(Apply(t, ops[0]), ops[1..])
  }

  function Created(ops: seq<Op>): set<JobId> {
    set op | op in ops && op.Create? :: op.record.id
  }

  /** Over any sequence of operations: the tables keep agreeing, the rows this
      process created are active only while cached, and a terminal row is never
      revived unless a new job takes its id. */
  lemma {:induction false} RunKeepsTables(t: Tables, ops: seq<Op>, ids: set<JobId>)
    requires t.Valid() && t.CachesActive(ids)
    requires forall op <- ops :: WellFormedOp(op)
    ensures Run(t, ops).Valid()
    ensures Run(t, ops).CachesActive(ids + Created(ops))
    ensures forall id :: id !in Created(ops) && t.Quiet(id) ==> Run(t, ops).Quiet(id)
    decreases |ops|
  {
    if ops != [] {
      var op := ops[0];
      var t' := Apply(t, op);
      OpKeepsValid(t, op);
      OpKeepsCached(t, op, ids);
      var ids' := ids + if op.Create? then {op.record.id} else {};
      RunKeepsTables(t', ops[1..], ids');
      assert ops == [op] + ops[1..];
      assert ids' + Created(ops[1..]) == ids + Created(ops);
      forall id | id !in Created(ops) && t.Quiet(id)
        ensures Run(t, ops).Quiet(id)
      {
        OpKeepsQuiet(t, op, id);
      }
    }
  }

  // ------------------------------------------------------------------
  // Startup
  // ------------------------------------------------------------------

  /** After reconciling and then clearing interrupted updates no system update
      is left active: an interrupted one ends completed exactly when release,
      flake and target agree, and failed otherwise; no other row changes. When
      the flake cannot be read, reconciliation gives up and all of them fail. */
  lemma StartupSettlesSystemJobs(t: Tables, host: HostState, now: int, later: int)
    requires t.Valid()
    ensures var t' := Apply(Apply(t, Reconcile(host, now)), ClearInterrupted(later));
            && t'.store.Keys == t.store.Keys
            && (forall id <- t'.store :: !Interrupted(t'.store[id]))
            && (forall id <- t.store :: Interrupted(t.store[id]) ==>
                  && (t'.store[id].status == Completed <==> AlreadyInstalled(t.store[id], host))
                  && (t'.store[id].status == Failed <==> !AlreadyInstalled(t.store[id], host)))
            && (forall id <- t.store :: !Interrupted(t.store[id]) ==> t'.store[id] == t.store[id])
  {
    forall id | id in t.store {
      StartupSettlesRow(t, host, now, later, id);
    }
  }

  lemma StartupSettlesRow(t: Tables, host: HostState, now: int, later: int, id: JobId)
    requires id in t.store
    ensures var t' := Apply(Apply(t, Reconcile(host, now)), ClearInterrupted(later));
            && id in t'.store
            && t'.store[id] == if !Interrupted(t.store[id]) then t.store[id]
                               else if AlreadyInstalled(t.store[id], host) then Finish(t.store[id], "", now)
                               else AsInterrupted(t.store[id], later)
  {
    assert Apply(t, Reconcile(host, now)).store[id] ==
           if Reconciled(t.store[id], host) then Finish(t.store[id], "", now) else t.store[id];
  }

  // ------------------------------------------------------------------
  // Completion of an updater job
  // ------------------------------------------------------------------

  /** The completion branch of the main loop, then sendFinishedJob: a last log
      line, CompleteJob, and for a failed job its error on the log again. The
      result also says whether sendFinishedJob found the job active. */
  function Completion(t: Tables, id: JobId, err: string, last: ActionProgress, errLine: ActionProgress, now: int)
    : (Tables, bool)
  {
    var t1 := Apply(Apply(t, Progress(last)), Complete(id, err, now));
    var t2 := if err != "" then Apply(t1, Progress(errLine)) else t1;
    (t2, id in t2.cache)
  }

  /** sendFinishedJob is meant to complete only jobs not completed yet. It does
      so exactly for the jobs that succeeded: logging the error of a failed job
      puts its finished record back into the cache, so a failed job is completed
      twice. */
  lemma FailedJobLooksActiveAgain(t: Tables, id: JobId, err: string, last: ActionProgress,
                                  errLine: ActionProgress, now: int)
    requires t.Valid() && id in t.store && last.actionID == id == errLine.actionID
    ensures Completion(t, id, err, last, errLine, now).1 <==> err != ""
    ensures Completion(t, id, err, last, errLine, now).0.Quiet(id)
  {
    var t1 := Apply(t, Progress(last));
    OpKeepsValid(t, Progress(last));
    assert id in t1.store;
    var t2 := Apply(t1, Complete(id, err, now));
    OpKeepsValid(t1, Complete(id, err, now));
    if err != "" {
      OpKeepsQuiet(t2, Progress(errLine), id);
    }
  }

  // ------------------------------------------------------------------
  // JobManager
  // ------------------------------------------------------------------

  datatype JobError = JobNotFound

  class JobManager {
    var store: map<JobId, JobRecord>
    var activeJobs: map<JobId, JobRecord>

    ghost function State(): Tables
      reads this
    {
      Tables(store, activeJobs)
    }

    constructor (rows: map<JobId, JobRecord>)
      ensures State() == Tables(rows, map[])
    {
      store := rows;
      activeJobs := map[];
    }

    method CreateJobRecord(j: Job, displayName: string) returns (record: JobRecord)
      modifies this
      ensures State() == Apply(old(State()), Create(record))
      ensures record == NewRecord(j, displayName) && Consistent(record)
    {
      record := JobRecord(j.id, j.start, None, displayName, ActionName(j.action), "", 0, Queued, "Job queued", "",
                          PupOf(j.action));
      if j.action.SystemUpdate? {
        record := record.(targetVersion := j.action.version);
      }
      store := store[j.id := record];
      activeJobs := activeJobs[j.id := record];
    }

    /** The cached record, or the stored one, which is then cached. */
    method Load(jobID: JobId) returns (record: Option<JobRecord>)
      modifies this`activeJobs
      ensures record == old(State()).Lookup(jobID)
      ensures activeJobs == if record.Some? then old(activeJobs)[jobID := record.value] else old(activeJobs)
    {
      if jobID in activeJobs {
        return Some(activeJobs[jobID]);
      }
      if jobID !in store {
        return None;
      }
      activeJobs := activeJobs[jobID := store[jobID]];
      return Some(store[jobID]);
    }

    method UpdateJobPupID(jobID: JobId, pupID: PupId) returns (r: Result<(), JobError>)
      modifies this
      ensures State() == Apply(old(State()), SetPupID(jobID, pupID))
      ensures r.Ok? <==> old(State()).Lookup(jobID).Some?
    {
      var record := Load(jobID);
      if record.None? {
        return Err(JobNotFound);
      }
      var updated := record.value.(pupID := pupID);
      activeJobs := activeJobs[jobID := updated];
      store := store[updated.id := updated];
      return Ok(());
    }

    /** The field updates of one progress report. */
    static method Advance(was: JobRecord, ap: ActionProgress) returns (record: JobRecord)
      ensures record == WithProgress(was, ap)
    {
      record := was;
      if ap.progress > 0 {
        record := record.(progress := ap.progress);
      }
      if record.status == Queued {
        record := record.(status := InProgress);
      }
      if record.pupID == "" && ap.pupID != "" {
        record := record.(pupID := ap.pupID);
      }
      record := record.(summary := ap.msg);
      if ap.error {
        record := record.(error := ap.msg);
      }
    }

    method UpdateJobProgress(ap: ActionProgress) returns (r: Result<(), JobError>)
      modifies this
      ensures State() == Apply(old(State()), Progress(ap))
      ensures r.Ok? <==> old(State()).Lookup(ap.actionID).Some?
    {
      var found := Load(ap.actionID);
      if found.None? {
        return Err(JobNotFound);
      }
      var record := Advance(found.value, ap);
      activeJobs := activeJobs[ap.actionID := record];
      store := store[record.id := record];
      return Ok(());
    }

    method CompleteJob(jobID: JobId, err: string, now: int) returns (r: Result<(), JobError>)
      modifies this
      ensures State() == Apply(old(State()), Complete(jobID, err, now))
      ensures r.Ok? <==> old(State()).Lookup(jobID).Some?
    {
      var found := GetJob(jobID);
      if found.Err? {
        return Err(JobNotFound);
      }
      var record := found.value.(finished := Some(now));
      if err != "" {
        record := record.(status := Failed, error := err, summary := "Job failed");
      } else {
        record := record.(status := Completed, progress := 100, summary := "Job completed successfully");
      }
      activeJobs := activeJobs - {jobID};
      store := store[record.id := record];
      return Ok(());
    }

    method MarkJobOrphaned(jobID: JobId, now: int) returns (r: Result<(), JobError>)
      modifies this
      ensures State() == Apply(old(State()), MarkOrphaned(jobID, now))
      ensures r.Ok? <==> old(State()).Lookup(jobID).Some?
    {
      var found := GetJob(jobID);
      if found.Err? {
        return Err(JobNotFound);
      }
      var record := found.value;
      if record.status != Queued && record.status != InProgress {
        return Ok(());
      }
      record := record.(finished := Some(now), status := Orphaned, summary := "Job marked as orphaned",
                        error := "Job is no longer being processed");
      activeJobs := activeJobs - {jobID};
      store := store[record.id := record];
      return Ok(());
    }

    method GetJob(jobID: JobId) returns (r: Result<JobRecord, JobError>)
      ensures r == if State().Lookup(jobID).Some? then Ok(State().Lookup(jobID).value) else Err(JobNotFound)
    {
      if jobID in activeJobs {
        return Ok(activeJobs[jobID]);
      }
      if jobID in store {
        return Ok(store[jobID]);
      }
      return Err(JobNotFound);
    }

    method IsJobActive(jobID: JobId) returns (active: bool)
      ensures active <==> jobID in activeJobs
    {
      active := jobID in activeJobs;
    }

    /** Each row in an active status once, the one started first first. */
    method GetActiveJobs() returns (rows: seq<JobRecord>)
      requires State().Valid()
      ensures Listing(rows, store) && Ids(rows) == ActiveIds(store)
      ensures Sorted(rows, ByStart)
      ensures forall i, j :: 0 <= i < j < |rows| ==> rows[i].started <= rows[j].started
    {
      var found := ActiveRows();
      rows := Sort(found, ByStart);
      ListingPermuted(found, rows, store);
    }

    method ActiveRows() returns (rows: seq<JobRecord>)
      requires State().Valid()
      ensures Listing(rows, store) && Ids(rows) == ActiveIds(store)
    {
      rows := [];
      var rest := store.Keys;
      while rest != {}
        invariant rest <= store.Keys
        invariant Listing(rows, store)
        invariant forall id :: id in Ids(rows) <==> id in store && id !in rest && Active(store[id].status)
        decreases |rest|
      {
        var id :| id in rest;
        rest := rest - {id};
        if Active(store[id].status) {
          ListingSnoc(rows, store[id], store);
          rows := rows + [store[id]];
        }
      }
    }

    method DeleteJob(jobID: JobId)
      modifies this
      ensures State() == Apply(old(State()), Delete(jobID))
    {
      activeJobs := activeJobs - {jobID};
      store := store - {jobID};
    }

    /** Deletes rows only: the cache is not looked at. */
    method ClearCompletedJobs(cutoff: int) returns (count: nat)
      modifies this
      ensures State() == Apply(old(State()), ClearCompleted(cutoff))
      ensures count + |store| == |old(store)|
    {
      var expired := set id | id in store && Expired(store[id], cutoff);
      count := |expired|;
      DroppedAndKept(store, expired);
      WithoutExpired(State(), cutoff, expired);
      store := store - expired;
    }

    method ClearAllJobs() returns (count: nat)
      modifies this
      ensures State() == Apply(old(State()), ClearAll)
      ensures count == |old(store)|
    {
      count := |store|;
      store := map[];
      activeJobs := map[];
    }

    method ClearOrphanedJobs(now: int, cutoff: int) returns (count: nat)
      modifies this
      ensures State() == Apply(old(State()), ClearOrphaned(now, cutoff))
      ensures count == |set id | id in old(store) && Stuck(old(store)[id], cutoff)|
    {
      count := |set id | id in store && Stuck(store[id], cutoff)|;
      store := map id | id in store :: if Stuck(store[id], cutoff) then AsStuck(store[id], now) else store[id];
      DropFromCache((r: JobRecord) => Stuck(r, cutoff));
    }

    /** The loop that deletes entries of the cache while ranging over it. */
    method DropFromCache(drop: JobRecord -> bool)
      modifies this`activeJobs
      ensures activeJobs == Without(old(activeJobs), drop)
    {
      var rest := activeJobs.Keys;
      while rest != {}
        invariant rest <= activeJobs.Keys
        invariant activeJobs ==
                  map id | id in old(activeJobs) && (id in rest || !drop(old(activeJobs)[id])) :: old(activeJobs)[id]
        decreases |rest|
      {
        var id :| id in rest;
        rest := rest - {id};
        if drop(activeJobs[id]) {
          activeJobs := activeJobs - {id};
        }
      }
    }

    method ReconcileCompletedSystemUpdateJobs(host: HostState, now: int) returns (r: Result<nat, ()>)
      requires State().Valid()
      modifies this
      ensures State() == Apply(old(State()), Reconcile(host, now))
      ensures r.Ok? <==> host.flakeVersion.Some?
      ensures r.Ok? ==> r.value == |set id | id in old(store) && Reconciled(old(store)[id], host)|
    {
      NoFlakeNoChange(State(), host, now);
      if host.flakeVersion.None? {
        return Err(());
      }
      var active := GetActiveJobs();
      var reconciled := ReconcileEach(active, host, now);
      ReconcileAll(old(State()), host, now, Ids(active));
      return Ok(reconciled);
    }

    /** The loop over the active rows. */
    method ReconcileEach(active: seq<JobRecord>, host: HostState, now: int) returns (reconciled: nat)
      requires State().Valid() && Listing(active, store)
      modifies this
      ensures State() == ReconcileSome(old(State()), host, now, Ids(active))
      ensures reconciled == |Hits(old(store), Ids(active), ReconciledOn(host))|
    {
      ghost var t0 := State();
      ghost var done: set<JobId> := {};
      reconciled := 0;
      ReconcileNone(t0, host, now);
      for i := 0 to |active|
        invariant done == IdsTo(active, i)
        invariant State() == ReconcileSome(t0, host, now, done)
        invariant reconciled == |Hits(t0.store, done, ReconciledOn(host))|
      {
        IdsNext(active, t0.store, i);
        HitsNext(t0.store, done, active[i].id, ReconciledOn(host));
        var completed := ReconcileJob(active[i], host, now, t0, done);
        reconciled := reconciled + if completed then 1 else 0;
        done := done + {active[i].id};
      }
    }

    /** One turn of the reconciliation loop. */
    method ReconcileJob(job: JobRecord, host: HostState, now: int, ghost t: Tables, ghost done: set<JobId>)
      returns (completed: bool)
      requires t.Valid() && job.id in t.store && t.store[job.id] == job && Active(job.status) && job.id !in done
      requires State() == ReconcileSome(t, host, now, done)
      modifies this
      ensures State() == ReconcileSome(t, host, now, done + {job.id})
      ensures completed <==> Reconciled(job, host)
    {
      completed := false;
      ReconcileLookup(t, host, now, done, job.id);
      ReconcileNext(t, host, now, done, job.id);
      if IsSystemJob(job) {
        var target := TargetVersion(job, host);
        if target != "" && TrimSpace(host.dbxRelease) == target && host.flakeVersion == Some(target) {
          var r := CompleteJob(job.id, "", now);
          completed := true;
        }
      }
    }

    method ClearInterruptedSystemJobs(now: int) returns (count: nat)
      requires State().Valid()
      modifies this
      ensures State() == Apply(old(State()), ClearInterrupted(now))
      ensures count == |set id | id in old(store) && Interrupted(old(store)[id])|
    {
      var active := GetActiveJobs();
      count := InterruptAll(active, now);
      DropFromCache(Interrupted);
      AllInterrupted(old(State()), now, Ids(active));
    }

    /** The loop over the active rows. */
    method InterruptAll(active: seq<JobRecord>, now: int) returns (count: nat)
      requires Listing(active, store)
      modifies this`store
      ensures store == InterruptSome(old(store), now, Ids(active))
      ensures count == |Hits(old(store), Ids(active), Interrupted)|
    {
      ghost var was := store;
      ghost var done: set<JobId> := {};
      count := 0;
      for i := 0 to |active|
        invariant done == IdsTo(active, i)
        invariant store == InterruptSome(was, now, done)
        invariant count == |Hits(was, done, Interrupted)|
      {
        IdsNext(active, was, i);
        HitsNext(was, done, active[i].id, Interrupted);
        var failed := InterruptJob(active[i], now, was, done);
        count := count + if failed then 1 else 0;
        done := done + {active[i].id};
      }
    }

    /** One turn of the loop over interrupted system jobs. */
    method InterruptJob(job: JobRecord, now: int, ghost was: map<JobId, JobRecord>, ghost done: set<JobId>)
      returns (failed: bool)
      requires job.id in was && was[job.id] == job && Active(job.status) && job.id !in done
      requires store == InterruptSome(was, now, done)
      modifies this`store
      ensures store == InterruptSome(was, now, done + {job.id})
      ensures failed <==> Interrupted(job)
    {
      failed := IsSystemJob(job);
      if failed {
        store := store[job.id := job.(status := Failed, finished := Some(now), summary := "Job failed",
                                      error := "Job was interrupted by dogeboxd restart")];
      }
    }
  }

  lemma DroppedAndKept(store: map<JobId, JobRecord>, ids: set<JobId>)
    requires ids <= store.Keys
    ensures |ids| + |store - ids| == |store|
  {
    assert (store - ids).Keys == store.Keys - ids;
    assert |store.Keys| == |store| && |(store - ids).Keys| == |store - ids|;
  }

  lemma WithoutExpired(t: Tables, cutoff: int, expired: set<JobId>)
    requires expired == set id | id in t.store && Expired(t.store[id], cutoff)
    ensures Apply(t, ClearCompleted(cutoff)) == t.(store := t.store - expired)
    ensures expired <= t.store.Keys
  {
    assert (map id | id in t.store && !Expired(t.store[id], cutoff) :: t.store[id]) == t.store - expired;
  }

  ghost function Hits(store: map<JobId, JobRecord>, ids: set<JobId>, hit: JobRecord -> bool): set<JobId> {
    set id | id in store && id in ids && hit(store[id])
  }

  lemma HitsNext(store: map<JobId, JobRecord>, ids: set<JobId>, id: JobId, hit: JobRecord -> bool)
    requires id in store && id !in ids
    ensures |Hits(store, ids + {id}, hit)| == |Hits(store, ids, hit)| + if hit(store[id]) then 1 else 0
  {
    assert Hits(store, ids + {id}, hit) == Hits(store, ids, hit) + if hit(store[id]) then {id} else {};
  }

  ghost function IdsTo(rows: seq<JobRecord>, n: nat): set<JobId>
    requires n <= |rows|
  {
    set i | 0 <= i < n :: rows[i].id
  }

  ghost function Ids(rows: seq<JobRecord>): set<JobId> {
    IdsTo(rows, |rows|)
  }

  ghost function ActiveIds(store: map<JobId, JobRecord>): set<JobId> {
    set id | id in store && Active(store[id].status)
  }

  function ByStart(a: JobRecord, b: JobRecord): int {
    CompareInt(a.started, b.started)
  }

  /** `rows` lists active rows of `store`, each once. */
  ghost predicate Listing(rows: seq<JobRecord>, store: map<JobId, JobRecord>) {
    Distinct(rows) && forall r <- rows :: Listed(r, store)
  }

  ghost predicate Listed(r: JobRecord, store: map<JobId, JobRecord>) {
    r.id in store && store[r.id] == r && Active(r.status)
  }

  lemma IdsTimes(rows: seq<JobRecord>, id: JobId)
    ensures id in Ids(rows) <==> exists r <- rows :: r.id == id
  {
    if r :| r in rows && r.id == id {
      var i :| 0 <= i < |rows| && rows[i] == r;
      assert rows[i].id == id;
    }
    if id in Ids(rows) {
      var i :| 0 <= i < |rows| && rows[i].id == id;
      assert rows[i] in rows;
    }
  }

  lemma ListingSnoc(rows: seq<JobRecord>, r: JobRecord, store: map<JobId, JobRecord>)
    requires Listing(rows, store) && Listed(r, store) && r.id !in Ids(rows)
    ensures Listing(rows + [r], store)
    ensures forall id :: id in Ids(rows + [r]) <==> id in Ids(rows) || id == r.id
  {
    forall id
      ensures id in Ids(rows + [r]) <==> id in Ids(rows) || id == r.id
    {
      IdsTimes(rows, id);
      IdsTimes(rows + [r], id);
      assert r in rows + [r];
      assert forall x :: x in rows + [r] <==> x in rows || x == r;
    }
    assert r !in rows by {
      IdsTimes(rows, r.id);
    }
  }

  lemma ListingPermuted(a: seq<JobRecord>, b: seq<JobRecord>, store: map<JobId, JobRecord>)
    requires Listing(a, store) && multiset(a) == multiset(b)
    ensures Listing(b, store) && Ids(b) == Ids(a)
  {
    DistinctCounts(a);
    DistinctCounts(b);
    assert forall r :: r in b <==> r in multiset(b);
    forall id
      ensures id in Ids(b) <==> id in Ids(a)
    {
      IdsTimes(a, id);
      IdsTimes(b, id);
    }
  }

  lemma IdsNext(rows: seq<JobRecord>, store: map<JobId, JobRecord>, i: nat)
    requires Listing(rows, store) && i < |rows|
    ensures Listed(rows[i], store) && rows[i].id !in IdsTo(rows, i)
    ensures IdsTo(rows, i + 1) == IdsTo(rows, i) + {rows[i].id}
  {
    assert rows[i] in rows;
    forall j | 0 <= j < i
      ensures rows[j].id != rows[i].id
    {
      assert Listed(rows[j], store) && rows[j] != rows[i];
    }
  }

  /** Reconciliation of only the rows in `ids`. */
  ghost function ReconcileSome(t: Tables, host: HostState, now: int, ids: set<JobId>): Tables {
    Tables(map id | id in t.store :: if id in ids && Reconciled(t.store[id], host)
                                     then Finish(t.store[id], "", now) else t.store[id],
           t.cache - (set id | id in t.store && id in ids && Reconciled(t.store[id], host)))
  }

  ghost function InterruptSome(store: map<JobId, JobRecord>, now: int, ids: set<JobId>): map<JobId, JobRecord> {
    map id | id in store :: if id in ids && Interrupted(store[id]) then AsInterrupted(store[id], now) else store[id]
  }

  lemma AllInterrupted(t: Tables, now: int, ids: set<JobId>)
    requires ids == ActiveIds(t.store)
    ensures Tables(InterruptSome(t.store, now, ids), Without(t.cache, Interrupted)) == Apply(t, ClearInterrupted(now))
    ensures Hits(t.store, ids, Interrupted) == set id | id in t.store && Interrupted(t.store[id])
  {
    assert InterruptSome(t.store, now, ids) == Apply(t, ClearInterrupted(now)).store;
  }

  ghost function Without(cache: map<JobId, JobRecord>, drop: JobRecord -> bool): map<JobId, JobRecord> {
    map id | id in cache && !drop(cache[id]) :: cache[id]
  }

  lemma ReconcileLookup(t: Tables, host: HostState, now: int, done: set<JobId>, id: JobId)
    requires t.Valid() && id in t.store && id !in done
    ensures ReconcileSome(t, host, now, done).Lookup(id) == Some(t.store[id])
  {}

  lemma ReconcileNext(t: Tables, host: HostState, now: int, done: set<JobId>, id: JobId)
    requires id in t.store && id !in done && t.store[id].id == id
    ensures ReconcileSome(t, host, now, done + {id}) ==
            if Reconciled(t.store[id], host)
            then Retire(ReconcileSome(t, host, now, done), id, Finish(t.store[id], "", now))
            else ReconcileSome(t, host, now, done)
  {
    var s := ReconcileSome(t, host, now, done);
    var e := ReconcileSome(t, host, now, done + {id});
    if Reconciled(t.store[id], host) {
      assert e.store == s.store[id := Finish(t.store[id], "", now)];
      assert e.cache == s.cache - {id};
    } else {
      assert e.store == s.store;
      assert e.cache == s.cache;
    }
  }

  lemma ReconcileNone(t: Tables, host: HostState, now: int)
    ensures ReconcileSome(t, host, now, {}) == t
  {
    assert t.cache - {} == t.cache;
  }

  lemma NoFlakeNoChange(t: Tables, host: HostState, now: int)
    ensures host.flakeVersion.None? ==> Apply(t, Reconcile(host, now)) == t
  {
    if host.flakeVersion.None? {
      assert Apply(t, Reconcile(host, now)).store == t.store;
      assert Apply(t, Reconcile(host, now)).cache == t.cache;
    }
  }

  lemma ReconcileAll(t: Tables, host: HostState, now: int, ids: set<JobId>)
    requires forall id <- t.store :: Reconciled(t.store[id], host) ==> id in ids
    ensures ReconcileSome(t, host, now, ids) == Apply(t, Reconcile(host, now))
    ensures Hits(t.store, ids, ReconciledOn(host)) == set id | id in t.store && Reconciled(t.store[id], host)
  {
    assert ReconcileSome(t, host, now, ids).cache == Apply(t, Reconcile(host, now)).cache;
  }

  ghost function ReconciledOn(host: HostState): JobRecord -> bool {
    (r: JobRecord) => Reconciled(r, host)
  }
}
