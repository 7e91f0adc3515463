/** The job pipeline as a step relation: the main loop, the updater, orphan scans
    and job deletions interleave at the granularity of the queue lock and of the
    job-manager lock (pkg/dogeboxd.go, pkg/jobs.go, deleteJob in pkg/web/jobs.go). */
module Pipeline {
  import opened Wrappers
  import opened Events
  import opened Jobs
  import opened Queue

  // ------------------------------------------------------------------
  // State
  // ------------------------------------------------------------------

  /** The separate steps of sendFinishedJob. */
  datatype Stage = CheckCache | StoreRow | Forget

  /** Where the main loop stands. `rest` are the later jobs of a batch. */
  datatype MainLoop =
    | Selecting
    | Taken(rest: seq<Job>)
    | Marked(job: Job, rest: seq<Job>)
    | Dispatching(job: Job, rest: seq<Job>)
    | Finishing(job: Job, rest: seq<Job>, stage: Stage)
    | Popped(job: Job)
    | Completing(job: Job)
    | Reporting(job: Job, stage: Stage)
    | ClearingCurrent(job: Job)
    | Unlocking(job: Job)

  datatype Updater = Resting | Busy(job: Job) | Done(job: Job)

  /** An orphan scan: after its database read, then after its runtime read. */
  datatype Scan = RowsRead(rows: set<JobId>) | Suspects(ids: set<JobId>)

  /** A deletion: status checked, id seen in the runtime, row about to go. */
  datatype Deletion = StatusChecked(id: JobId) | SeenInRuntime(id: JobId) | RowNext(id: JobId)

  /** `created`, `rowed`, `enqueued`, `removed` and `handed` are history: jobs
      this process took, ids that ever had a row, jobs enqueued, jobs deleted
      from the queue, jobs popped for the updater. */
  datatype System = System(
    q: QueueState, t: Tables, main: MainLoop, updater: Updater,
    scans: map<nat, Scan>, deletions: map<nat, Deletion>,
    created: set<JobId>, rowed: set<JobId>,
    enqueued: seq<Job>, removed: set<JobId>, handed: seq<Job>)

  /** A process starting over the rows left by earlier ones. */
  ghost predicate Init(s: System) {
    && s.q == QueueState([], {}, "", false)
    && s.t.Valid() && s.t.cache == map[]
    && s.main.Selecting? && s.updater.Resting?
    && s.scans == map[] && s.deletions == map[]
    && s.created == {} && s.rowed == s.t.store.Keys
    && s.enqueued == [] && s.removed == {} && s.handed == []
  }

  // ------------------------------------------------------------------
  // Steps
  // ------------------------------------------------------------------

  datatype Step =
    // main loop: an incoming job
    | SkipNixCache(job: Job) | Take(job: Job, batch: seq<Job>)
    | Mark | LeaveUntracked | CreateRow(displayName: string)
    | EnqueueJob | FinishNow | DropJob
    // sendFinishedJob
    | CheckActive | StoreResult(err: string, now: int) | ForgetJob
    // main loop and updater
    | Pump | HandOver | Answer | Receive | CompleteRow(err: string, now: int) | ClearCurrent | Unlock
    // any thread
    | Report(ap: ActionProgress) | NamePup(id: JobId, pupID: PupId)
    | ClearRows | ClearOldRows(cutoff: int)
    | ScanRows(scan: nat) | ScanRuntime(scan: nat) | ScanMark(scan: nat, id: JobId, now: int) | ScanEnd(scan: nat)
    | DeleteCheck(del: nat, id: JobId) | DeleteSeen(del: nat) | DeleteFromQueue(del: nat) | DeleteRow(del: nat)

  function NextJob(rest: seq<Job>): MainLoop {
    if rest == [] then Selecting else Taken(rest)
  }

  /** The jobs one incoming job stands for. */
  function Expand(job: Job, batch: seq<Job>): seq<Job> {
    if job.action.InstallPups? then batch else [job]
  }

  ghost predicate Fresh(s: System, jobs: seq<Job>) {
    && DistinctIds(jobs)
    && forall j <- jobs :: j.id != "" && j.id !in s.created && j.id !in s.rowed && !j.action.InstallPups?
  }

  ghost predicate Enabled(s: System, step: Step) {
    match step
    case SkipNixCache(job) => s.main.Selecting? && job.action.UpdateNixCache? && LastIsNixCache(s.q.jobs)
    case Take(job, batch) =>
      && s.main.Selecting?
      && !(job.action.UpdateNixCache? && LastIsNixCache(s.q.jobs))
      && (job.action.InstallPups? ==> forall j <- batch :: j.action.InstallPup?)
      && Fresh(s, Expand(job, batch))
    case Mark => s.main.Taken? && s.main.rest != [] && Tracked(s.main.rest[0].action)
    case LeaveUntracked => s.main.Taken? && s.main.rest != [] && !Tracked(s.main.rest[0].action)
    case CreateRow(_) => s.main.Marked?
    case EnqueueJob => s.main.Dispatching? && Dispatch(s.main.job.action).ToUpdater?
    case FinishNow =>
      s.main.Dispatching? && (Dispatch(s.main.job.action).ToUpdater? || Dispatch(s.main.job.action).Immediate?)
    case DropJob => s.main.Dispatching? && Dispatch(s.main.job.action).Dropped?
    case CheckActive => (s.main.Finishing? || s.main.Reporting?) && s.main.stage.CheckCache?
    case StoreResult(_, _) => (s.main.Finishing? || s.main.Reporting?) && s.main.stage.StoreRow?
    case ForgetJob => (s.main.Finishing? || s.main.Reporting?) && s.main.stage.Forget?
    case Pump => s.main.Selecting? && CanPump(s.q)
    case HandOver => s.main.Popped? && s.updater.Resting?
    case Answer => s.updater.Busy?
    case Receive => s.main.Selecting? && s.updater.Done?
    case CompleteRow(_, _) => s.main.Completing?
    case ClearCurrent => s.main.ClearingCurrent?
    case Unlock => s.main.Unlocking?
    case Report(_) | NamePup(_, _) | ClearRows | ClearOldRows(_) => true
    case ScanRows(k) => k !in s.scans
    case ScanRuntime(k) => k in s.scans && s.scans[k].RowsRead?
    case ScanMark(k, id, _) => k in s.scans && s.scans[k].Suspects? && id in s.scans[k].ids
    case ScanEnd(k) => k in s.scans
    case DeleteCheck(k, id) =>
      k !in s.deletions && s.t.Lookup(id).Some? && s.t.Lookup(id).value.status == Queued
    case DeleteSeen(k) => k in s.deletions && s.deletions[k].StatusChecked?
    case DeleteFromQueue(k) => k in s.deletions && s.deletions[k].SeenInRuntime?
    case DeleteRow(k) => k in s.deletions && s.deletions[k].RowNext?
  }

  function WithStage(m: MainLoop, stage: Stage): MainLoop
    requires m.Finishing? || m.Reporting?
  {
    match m
    case Finishing(job, rest, _) => Finishing(job, rest, stage)
    case Reporting(job, _) => Reporting(job, stage)
  }

  ghost function After(s: System, step: Step): System
    requires Enabled(s, step)
  {
    match step
    case SkipNixCache(_) => s
    case Take(job, batch) =>
      s.(main := NextJob(Expand(job, batch)), created := s.created + IdSet(Expand(job, batch)))
    case Mark =>
      s.(main := Marked(s.main.rest[0], s.main.rest[1..]),
         q := s.q.(nonQueued := s.q.nonQueued + {s.main.rest[0].id}))
    case LeaveUntracked => s.(main := Dispatching(s.main.rest[0], s.main.rest[1..]))
    case CreateRow(name) =>
      s.(main := Dispatching(s.main.job, s.main.rest), t := Apply(s.t, Create(NewRecord(s.main.job, name))),
         rowed := s.rowed + {s.main.job.id})
    case EnqueueJob =>
      s.(main := NextJob(s.main.rest), q := Enqueued(s.q, s.main.job), enqueued := s.enqueued + [s.main.job])
    case FinishNow => s.(main := Finishing(s.main.job, s.main.rest, CheckCache))
    case DropJob => s.(main := NextJob(s.main.rest))
    case CheckActive =>
      var active := Tracked(s.main.job.action) && s.main.job.id in s.t.cache;
      s.(main := WithStage(s.main, if active then StoreRow else Forget))
    case StoreResult(err, now) =>
      s.(main := WithStage(s.main, Forget), t := Apply(s.t, Complete(s.main.job.id, err, now)))
    case ForgetJob =>
      s.(main := if s.main.Finishing? then NextJob(s.main.rest) else ClearingCurrent(s.main.job),
         q := s.q.(nonQueued := s.q.nonQueued - {s.main.job.id}))
    case Pump => s.(main := Popped(s.q.jobs[0]), q := Pumped(s.q), handed := s.handed + [s.q.jobs[0]])
    case HandOver => s.(main := Selecting, updater := Busy(s.main.job))
    case Answer => s.(updater := if AnsweredByUpdater(s.updater.job.action) then Done(s.updater.job) else Resting)
    case Receive => s.(main := Completing(s.updater.job), updater := Resting)
    case CompleteRow(err, now) =>
      s.(main := Reporting(s.main.job, CheckCache), t := Apply(s.t, Complete(s.main.job.id, err, now)))
    case ClearCurrent => s.(main := Unlocking(s.main.job), q := CurrentCleared(s.q, s.main.job.id))
    case Unlock => s.(main := Selecting, q := s.q.(inProgress := false))
    case Report(ap) => s.(t := Apply(s.t, Progress(ap)))
    case NamePup(id, p) => s.(t := Apply(s.t, SetPupID(id, p)))
    case ClearRows => s.(t := Apply(s.t, ClearAll))
    case ClearOldRows(cutoff) => s.(t := Apply(s.t, ClearCompleted(cutoff)))
    case ScanRows(k) =>
      s.(scans := s.scans[k := RowsRead(set id | id in s.t.store && Active(s.t.store[id].status))])
    case ScanRuntime(k) => s.(scans := s.scans[k := Suspects(s.scans[k].rows - s.q.Runtime())])
    case ScanMark(k, id, now) =>
      s.(t := Apply(s.t, MarkOrphaned(id, now)),
         scans := if s.t.Lookup(id).None? then s.scans - {k} else s.scans[k := Suspects(s.scans[k].ids - {id})])
    case ScanEnd(k) => s.(scans := s.scans - {k})
    case DeleteCheck(k, id) => s.(deletions := s.deletions[k := StatusChecked(id)])
    case DeleteSeen(k) =>
      var id := s.deletions[k].id;
      s.(deletions := s.deletions[k := if id in s.q.Runtime() then SeenInRuntime(id) else RowNext(id)])
    case DeleteFromQueue(k) =>
      var id := s.deletions[k].id;
      if id in IdSet(s.q.jobs)
      then s.(q := Removed(s.q, id), removed := s.removed + {id}, deletions := s.deletions[k := RowNext(id)])
      else s.(deletions := s.deletions - {k})
    case DeleteRow(k) =>
      s.(t := Apply(s.t, Delete(s.deletions[k].id)), deletions := s.deletions - {k})
  }

  // ------------------------------------------------------------------
  // Jobs that were not deleted
  // ------------------------------------------------------------------

  ghost function Kept(jobs: seq<Job>, removed: set<JobId>): seq<Job> {
    if jobs == [] then []
    else
      var n := |jobs| - 1;
      Kept(jobs[..n], removed) + if jobs[n].id in removed then [] else [jobs[n]]
  }

  lemma KeptSnoc(jobs: seq<Job>, j: Job, removed: set<JobId>)
    ensures Kept(jobs + [j], removed) == Kept(jobs, removed) + if j.id in removed then [] else [j]
  {
    assert (jobs + [j])[..|jobs|] == jobs;
  }

  lemma {:induction false} KeptTwice(jobs: seq<Job>, a: set<JobId>, b: set<JobId>)
    ensures Kept(Kept(jobs, a), b) == Kept(jobs, a + b)
  {
    if jobs != [] {
      var n := |jobs| - 1;
      KeptTwice(jobs[..n], a, b);
      var front := Kept(jobs[..n], a);
      if jobs[n].id in a {
        assert front + [] == front && Kept(front, b) + [] == Kept(front, b);
      } else {
        KeptSnoc(front, jobs[n], b);
      }
    }
  }

  lemma {:induction false} KeptIds(jobs: seq<Job>, removed: set<JobId>)
    ensures IdSet(Kept(jobs, removed)) == IdSet(jobs) - removed
  {
    if jobs != [] {
      var n := |jobs| - 1;
      var front := Kept(jobs[..n], removed);
      KeptIds(jobs[..n], removed);
      assert jobs == jobs[..n] + [jobs[n]];
      IdSetSnoc(jobs[..n], jobs[n]);
      if jobs[n].id in removed {
        assert front + [] == front;
      } else {
        IdSetSnoc(front, jobs[n]);
      }
    }
  }

  lemma {:induction false} KeptDistinct(jobs: seq<Job>, removed: set<JobId>)
    requires DistinctIds(jobs)
    ensures DistinctIds(Kept(jobs, removed))
  {
    if jobs != [] {
      var n := |jobs| - 1;
      var front := Kept(jobs[..n], removed);
      KeptDistinct(jobs[..n], removed);
      KeptIds(jobs[..n], removed);
      forall i | 0 <= i < |front|
        ensures front[i].id != jobs[n].id
      {
        assert front[i].id in IdSet(front);
        var j :| j in jobs[..n] && j.id == front[i].id;
      }
    }
  }

  lemma {:induction false} KeptWithoutOne(jobs: seq<Job>, k: nat)
    requires DistinctIds(jobs) && k < |jobs|
    ensures Kept(jobs, {jobs[k].id}) == jobs[..k] + jobs[k + 1..]
  {
    var n := |jobs| - 1;
    var front := jobs[..n];
    if k == n {
      KeptAll(front, {jobs[k].id});
      assert jobs[k + 1..] == [];
    } else {
      KeptWithoutOne(front, k);
      assert front[k].id == jobs[k].id != jobs[n].id;
      assert front[..k] == jobs[..k] && jobs[k + 1..] == front[k + 1..] + [jobs[n]];
      assert front[..k] + front[k + 1..] + [jobs[n]] == jobs[..k] + jobs[k + 1..];
    }
  }

  lemma {:induction false} KeptAll(jobs: seq<Job>, removed: set<JobId>)
    requires forall i :: 0 <= i < |jobs| ==> jobs[i].id !in removed
    ensures Kept(jobs, removed) == jobs
  {
    if jobs != [] {
      var n := |jobs| - 1;
      KeptAll(jobs[..n], removed);
      assert jobs == jobs[..n] + [jobs[n]];
    }
  }

  // ------------------------------------------------------------------
  // Invariants
  // ------------------------------------------------------------------

  /** Jobs the main loop holds that it has not enqueued. */
  ghost function Incoming(m: MainLoop): seq<Job> {
    match m
    case Taken(rest) => rest
    case Marked(j, rest) => [j] + rest
    case Dispatching(j, rest) => [j] + rest
    case Finishing(j, rest, _) => [j] + rest
    case _ => []
  }

  /** The main loop itself has the popped job in hand. */
  predicate HasPopped(m: MainLoop) {
    m.Popped? || m.Completing? || m.Reporting? || m.ClearingCurrent? || m.Unlocking?
  }

  /** The job popped from the queue and not yet unlocked. */
  ghost function WithUpdater(s: System): Option<Job> {
    match s.main
    case Popped(j) => Some(j)
    case Completing(j) => Some(j)
    case Reporting(j, _) => Some(j)
    case ClearingCurrent(j) => Some(j)
    case Unlocking(j) => Some(j)
    case _ => if s.updater.Resting? then None else Some(s.updater.job)
  }

  /** Every job id is used once, and the hand-overs followed by the queue are
      the enqueued jobs, in order, minus the deleted ones. */
  ghost predicate OrderInv(s: System) {
    && DistinctIds(s.enqueued + Incoming(s.main))
    && (forall j <- s.enqueued :: j.id in s.created && j.id != "" && Dispatch(j.action).ToUpdater?)
    && (forall j <- Incoming(s.main) :: j.id in s.created && j.id != "" && !j.action.InstallPups?)
    && s.removed <= IdSet(s.enqueued)
    && Kept(s.enqueued, s.removed) == s.handed + s.q.jobs
    && (forall id <- s.q.nonQueued :: id in s.created && id !in IdSet(s.enqueued))
  }

  /** At most one job is with the updater; the lock is held exactly while one is,
      and it is the last one handed over. */
  ghost predicate LockInv(s: System) {
    && (HasPopped(s.main) ==> s.updater.Resting?)
    && (s.q.inProgress <==> WithUpdater(s).Some?)
    && (WithUpdater(s).None? ==> s.q.current == "")
    && (WithUpdater(s).Some? ==>
          && s.handed != [] && s.handed[|s.handed| - 1] == WithUpdater(s).value
          && s.q.current == if s.main.Unlocking? then "" else WithUpdater(s).value.id)
  }

  /** The active row of a job of this process is explained by the runtime, or by
      a deletion under way; finished jobs have no active row. */
  ghost predicate RowInv(s: System) {
    && s.t.Valid() && s.t.CachesActive(s.created)
    && s.t.store.Keys <= s.rowed && s.t.cache.Keys <= s.rowed
    && (forall id <- s.created :: s.t.Quiet(id) || id in s.q.Runtime() || id in s.removed)
    && (s.main.Taken? ==> s.main.rest != [] && forall j <- s.main.rest :: j.id !in s.rowed)
    && (s.main.Marked? ==>
          Tracked(s.main.job.action) && s.main.job.id in s.q.nonQueued && s.main.job.id !in s.rowed)
    && (s.main.Marked? || s.main.Dispatching? || s.main.Finishing? ==> forall j <- s.main.rest :: j.id !in s.rowed)
    && (s.main.Dispatching? || s.main.Finishing? ==> Tracked(s.main.job.action) || s.main.job.id !in s.rowed)
    && (s.main.Finishing? && s.main.stage.Forget? ==> s.t.Quiet(s.main.job.id))
    && (s.main.Reporting? || s.main.ClearingCurrent? || s.main.Unlocking? ==> s.t.Quiet(s.main.job.id))
  }

  /** Nothing can be wrong with this id any more: it is not a job of this process,
      it was deleted, or its row is not active and never will be. */
  ghost predicate Settled(s: System, id: JobId) {
    id in s.rowed && (id in s.created ==> s.t.Quiet(id) || id in s.removed)
  }

  ghost predicate ThreadInv(s: System) {
    && (forall k <- s.scans :: s.scans[k].RowsRead? ==> s.scans[k].rows <= s.rowed)
    && (forall k <- s.scans :: s.scans[k].Suspects? ==> forall id <- s.scans[k].ids :: Settled(s, id))
    && (forall k <- s.deletions :: s.deletions[k].id in s.rowed)
    && (forall k <- s.deletions :: s.deletions[k].RowNext? ==> Settled(s, s.deletions[k].id))
  }

  ghost predicate Inv(s: System) {
    OrderInv(s) && LockInv(s) && RowInv(s) && ThreadInv(s)
  }

  lemma InitHasInv(s: System)
    requires Init(s)
    ensures Inv(s)
  {
    assert Kept([], {}) == [];
  }

  // ------------------------------------------------------------------
  // Order
  // ------------------------------------------------------------------

  /** Order depends on nothing but the queue's jobs, the held jobs and history. */
  lemma SameOrder(s: System, s': System)
    requires OrderInv(s)
    requires s'.enqueued == s.enqueued && s'.removed == s.removed && s'.handed == s.handed && s'.created == s.created
    requires s'.q.jobs == s.q.jobs && s'.q.nonQueued <= s.q.nonQueued
    requires Incoming(s'.main) == Incoming(s.main)
    ensures OrderInv(s')
  {}

  lemma HeldIsNotEnqueued(s: System, k: nat)
    requires OrderInv(s) && k < |Incoming(s.main)|
    ensures Incoming(s.main)[k].id !in IdSet(s.enqueued)
    ensures Incoming(s.main)[k].id in s.created
  {
    var all := s.enqueued + Incoming(s.main);
    assert all[|s.enqueued| + k] == Incoming(s.main)[k];
    assert Incoming(s.main)[k] in Incoming(s.main);
    forall j | j in s.enqueued
      ensures j.id != Incoming(s.main)[k].id
    {
      var i :| 0 <= i < |s.enqueued| && s.enqueued[i] == j;
      assert all[i] == j;
    }
  }

  lemma OrderTake(s: System, step: Step)
    requires OrderInv(s) && step.Take? && Enabled(s, step)
    ensures OrderInv(After(s, step))
  {
    var s' := After(s, step);
    var jobs := Expand(step.job, step.batch);
    assert Incoming(s'.main) == jobs && s.enqueued + [] == s.enqueued;
    var all := s.enqueued + jobs;
    forall i, j | 0 <= i < j < |all|
      ensures all[i].id != all[j].id
    {
      if i < |s.enqueued| && j >= |s.enqueued| {
        assert all[i] in s.enqueued && all[j] in jobs;
      } else if j < |s.enqueued| {
        assert all[i] == (s.enqueued + Incoming(s.main))[i] && all[j] == (s.enqueued + Incoming(s.main))[j];
      }
    }
    assert forall j <- jobs :: j.id in IdSet(jobs);
  }

  lemma OrderMark(s: System, step: Step)
    requires OrderInv(s) && step.Mark? && Enabled(s, step)
    ensures OrderInv(After(s, step))
  {
    var s' := After(s, step);
    assert Incoming(s'.main) == Incoming(s.main);
    HeldIsNotEnqueued(s, 0);
  }

  lemma OrderEnqueue(s: System, step: Step)
    requires OrderInv(s) && step.EnqueueJob? && Enabled(s, step)
    ensures OrderInv(After(s, step))
  {
    var s' := After(s, step);
    var j := s.main.job;
    HeldIsNotEnqueued(s, 0);
    assert Incoming(s'.main) == s.main.rest;
    Regroup(s.enqueued, [j], s.main.rest);
    assert forall k <- s.main.rest :: k in Incoming(s.main);
    IdSetSnoc(s.enqueued, j);
    KeptSnoc(s.enqueued, j, s.removed);
    Regroup(s.handed, s.q.jobs, [j]);
  }

  lemma Regroup<T>(a: seq<T>, b: seq<T>, c: seq<T>)
    ensures (a + b) + c == a + (b + c)
  {}

  /** The held job was finished or dropped: the next one of the batch follows. */
  lemma OrderNext(s: System, s': System)
    requires OrderInv(s) && Incoming(s.main) != []
    requires Incoming(s'.main) == Incoming(s.main)[1..]
    requires s'.enqueued == s.enqueued && s'.removed == s.removed && s'.handed == s.handed && s'.created == s.created
    requires s'.q.jobs == s.q.jobs && s'.q.nonQueued <= s.q.nonQueued
    ensures OrderInv(s')
  {
    var all, all' := s.enqueued + Incoming(s.main), s.enqueued + Incoming(s'.main);
    forall i, j | 0 <= i < j < |all'|
      ensures all'[i].id != all'[j].id
    {
      assert all'[i] == all[if i < |s.enqueued| then i else i + 1];
      assert all'[j] == all[if j < |s.enqueued| then j else j + 1];
    }
    assert forall k <- Incoming(s'.main) :: k in Incoming(s.main);
  }

  lemma OrderPump(s: System, step: Step)
    requires OrderInv(s) && step.Pump? && Enabled(s, step)
    ensures OrderInv(After(s, step))
  {
    assert s.handed + s.q.jobs == (s.handed + [s.q.jobs[0]]) + s.q.jobs[1..];
  }

  /** Deleting a queued job takes it, and only it, out of the order. */
  lemma OrderDelete(s: System, id: JobId)
    requires OrderInv(s) && id in IdSet(s.q.jobs)
    ensures id in IdSet(s.enqueued)
    ensures Kept(s.enqueued, s.removed + {id}) == s.handed + Removed(s.q, id).jobs
  {
    DistinctPrefix(s.enqueued, Incoming(s.main));
    IndexFound(s.q.jobs, id);
    KeptAfterRemoval(s.enqueued, s.removed, s.handed, s.q.jobs, IndexOf(s.q.jobs, id));
  }

  lemma IndexFound(jobs: seq<Job>, id: JobId)
    ensures IndexOf(jobs, id) < |jobs| <==> id in IdSet(jobs)
  {}

  lemma KeptAfterRemoval(enqueued: seq<Job>, removed: set<JobId>, handed: seq<Job>, jobs: seq<Job>, i: nat)
    requires DistinctIds(enqueued) && Kept(enqueued, removed) == handed + jobs && i < |jobs|
    ensures jobs[i].id in IdSet(enqueued)
    ensures Kept(enqueued, removed + {jobs[i].id}) == handed + (jobs[..i] + jobs[i + 1..])
  {
    KeptWithoutSecond(Kept(enqueued, removed), enqueued, removed, |handed| + i);
    DropFromSecond(handed, jobs, i);
  }

  lemma KeptWithoutSecond(kept: seq<Job>, enqueued: seq<Job>, removed: set<JobId>, k: nat)
    requires DistinctIds(enqueued) && kept == Kept(enqueued, removed) && k < |kept|
    ensures kept[k].id in IdSet(enqueued)
    ensures Kept(enqueued, removed + {kept[k].id}) == kept[..k] + kept[k + 1..]
  {
    KeptDistinct(enqueued, removed);
    KeptTwice(enqueued, removed, {kept[k].id});
    KeptWithoutOne(kept, k);
    KeptMembers(enqueued, removed, kept[k]);
  }

  lemma DropFromSecond(a: seq<Job>, b: seq<Job>, i: nat)
    requires i < |b|
    ensures (a + b)[|a| + i] == b[i]
    ensures (a + b)[..|a| + i] + (a + b)[|a| + i + 1..] == a + (b[..i] + b[i + 1..])
  {}

  lemma DistinctPrefix(a: seq<Job>, b: seq<Job>)
    requires DistinctIds(a + b)
    ensures DistinctIds(a)
  {
    forall i, j | 0 <= i < j < |a|
      ensures a[i].id != a[j].id
    {
      assert (a + b)[i] == a[i] && (a + b)[j] == a[j];
    }
  }

  lemma OrderDeleteStep(s: System, step: Step)
    requires OrderInv(s) && step.DeleteFromQueue? && Enabled(s, step)
    ensures OrderInv(After(s, step))
  {
    var id := s.deletions[step.del].id;
    if id in IdSet(s.q.jobs) {
      OrderDelete(s, id);
    }
  }

  /** Steps of other threads that touch the tables or their own notes only. */
  predicate Outside(step: Step) {
    step.Report? || step.NamePup? || step.ClearRows? || step.ClearOldRows? || step.ScanRows? || step.ScanRuntime?
    || step.ScanMark? || step.ScanEnd? || step.DeleteCheck? || step.DeleteSeen? || step.DeleteRow?
  }

  predicate UpdaterStep(step: Step) {
    step.Pump? || step.HandOver? || step.Answer? || step.Receive? || step.CompleteRow? || step.ClearCurrent?
    || step.Unlock?
  }

  lemma OutsideKeepsQueue(s: System, step: Step)
    requires Outside(step) && Enabled(s, step)
    ensures var s' := After(s, step); s' == s.(t := s'.t, scans := s'.scans, deletions := s'.deletions)
  {}

  lemma OrderOutside(s: System, step: Step)
    requires OrderInv(s) && Enabled(s, step) && Outside(step)
    ensures OrderInv(After(s, step))
  {
    OutsideKeepsQueue(s, step);
    SameOrder(s, After(s, step));
  }

  lemma OrderUnchanged(s: System, step: Step)
    requires OrderInv(s) && Enabled(s, step) && !Outside(step)
    requires !(step.Take? || step.Mark? || step.EnqueueJob? || step.Pump? || step.DeleteFromQueue? || step.DropJob?
               || step.ForgetJob? || step.LeaveUntracked?)
    ensures OrderInv(After(s, step))
  {
    SameOrder(s, After(s, step));
  }

  lemma OrderForget(s: System, step: Step)
    requires OrderInv(s) && Enabled(s, step)
    requires step.DropJob? || step.ForgetJob? || step.LeaveUntracked?
    ensures OrderInv(After(s, step))
  {
    var s' := After(s, step);
    if step.LeaveUntracked? || s.main.Reporting? {
      assert Incoming(s'.main) == Incoming(s.main);
      SameOrder(s, s');
    } else {
      OrderNext(s, s');
    }
  }

  lemma StepKeepsOrder(s: System, step: Step)
    requires OrderInv(s) && Enabled(s, step)
    ensures OrderInv(After(s, step))
  {
    if step.Take? {
      OrderTake(s, step);
    } else if step.Mark? {
      OrderMark(s, step);
    } else if step.EnqueueJob? {
      OrderEnqueue(s, step);
    } else if step.Pump? {
      OrderPump(s, step);
    } else if step.DeleteFromQueue? {
      OrderDeleteStep(s, step);
    } else if step.DropJob? || step.ForgetJob? || step.LeaveUntracked? {
      OrderForget(s, step);
    } else if Outside(step) {
      OrderOutside(s, step);
    } else {
      OrderUnchanged(s, step);
    }
  }

  // ------------------------------------------------------------------
  // Lock
  // ------------------------------------------------------------------

  lemma PoppedJobIsAnswered(s: System)
    requires OrderInv(s) && LockInv(s) && WithUpdater(s).Some?
    ensures AnsweredByUpdater(WithUpdater(s).value.action)
    ensures WithUpdater(s).value.id in s.created && WithUpdater(s).value.id != ""
    ensures WithUpdater(s).value.id !in s.removed && WithUpdater(s).value.id !in s.q.nonQueued
  {
    var j := WithUpdater(s).value;
    var kept := Kept(s.enqueued, s.removed);
    assert kept[|s.handed| - 1] == j && j in kept;
    KeptIds(s.enqueued, s.removed);
    KeptMembers(s.enqueued, s.removed, j);
    QueuedActionsAreAnswered(j.action);
    assert j.id in IdSet(kept) && j.id in IdSet(s.enqueued);
  }

  lemma {:induction false} KeptMembers(jobs: seq<Job>, removed: set<JobId>, j: Job)
    requires j in Kept(jobs, removed)
    ensures j in jobs
  {
    var n := |jobs| - 1;
    if j in Kept(jobs[..n], removed) {
      KeptMembers(jobs[..n], removed, j);
    }
  }

  lemma LockUpdaterStep(s: System, step: Step)
    requires OrderInv(s) && LockInv(s) && Enabled(s, step)
    requires UpdaterStep(step)
    ensures LockInv(After(s, step))
  {
    if step.Pump? || step.HandOver? || step.Answer? {
      LockToUpdater(s, step);
    } else {
      LockFromUpdater(s, step);
    }
  }

  lemma LockToUpdater(s: System, step: Step)
    requires OrderInv(s) && LockInv(s) && Enabled(s, step) && (step.Pump? || step.HandOver? || step.Answer?)
    ensures LockInv(After(s, step))
  {
    if WithUpdater(s).Some? {
      PoppedJobIsAnswered(s);
    }
  }

  lemma LockFromUpdater(s: System, step: Step)
    requires OrderInv(s) && LockInv(s) && Enabled(s, step)
    requires step.Receive? || step.CompleteRow? || step.ClearCurrent? || step.Unlock?
    ensures LockInv(After(s, step))
  {
    PoppedJobIsAnswered(s);
  }

  lemma SameLock(s: System, s': System)
    requires LockInv(s)
    requires WithUpdater(s') == WithUpdater(s) && s'.handed == s.handed && s'.updater == s.updater
    requires s'.q.current == s.q.current && s'.q.inProgress == s.q.inProgress
    requires s'.main.Unlocking? == s.main.Unlocking?
    requires HasPopped(s'.main) ==> HasPopped(s.main)
    ensures LockInv(s')
  {}

  lemma LockOutside(s: System, step: Step)
    requires LockInv(s) && Enabled(s, step) && Outside(step)
    ensures LockInv(After(s, step))
  {
    OutsideKeepsQueue(s, step);
    SameLock(s, After(s, step));
  }

  lemma LockMainStep(s: System, step: Step)
    requires LockInv(s) && Enabled(s, step) && !Outside(step) && !UpdaterStep(step)
    ensures LockInv(After(s, step))
  {
    SameLock(s, After(s, step));
  }

  lemma StepKeepsLock(s: System, step: Step)
    requires OrderInv(s) && LockInv(s) && Enabled(s, step)
    ensures LockInv(After(s, step))
  {
    if UpdaterStep(step) {
      LockUpdaterStep(s, step);
    } else if Outside(step) {
      LockOutside(s, step);
    } else {
      LockMainStep(s, step);
    }
  }

  // ------------------------------------------------------------------
  // Rows
  // ------------------------------------------------------------------

  lemma OpKeepsKeys(t: Tables, op: Op)
    requires t.Valid() && !op.Create?
    ensures Apply(t, op).store.Keys <= t.store.Keys + t.cache.Keys
    ensures Apply(t, op).cache.Keys <= t.store.Keys + t.cache.Keys
  {}

  lemma CompleteQuiets(t: Tables, id: JobId, err: string, now: int)
    requires t.Valid()
    ensures Apply(t, Complete(id, err, now)).Quiet(id)
  {}

  /** Any job-manager operation other than creating a record, by any thread. */
  lemma RowsUnderOp(s: System, op: Op)
    requires RowInv(s) && !op.Create?
    ensures RowInv(s.(t := Apply(s.t, op)))
    ensures forall id :: s.t.Quiet(id) ==> Apply(s.t, op).Quiet(id)
  {
    OpKeepsValid(s.t, op);
    OpKeepsKeys(s.t, op);
    OpKeepsCached(s.t, op, s.created);
    assert s.created + {} == s.created;
    forall id | s.t.Quiet(id)
      ensures Apply(s.t, op).Quiet(id)
    {
      OpKeepsQuiet(s.t, op, id);
    }
  }

  /** The operation a step applies to the tables, except for new records. */
  function TableOp(s: System, step: Step): Option<Op> {
    match step
    case StoreResult(err, now) =>
      if s.main.Finishing? || s.main.Reporting? then Some(Complete(s.main.job.id, err, now)) else None
    case CompleteRow(err, now) => if s.main.Completing? then Some(Complete(s.main.job.id, err, now)) else None
    case Report(ap) => Some(Progress(ap))
    case NamePup(id, p) => Some(SetPupID(id, p))
    case ClearRows => Some(ClearAll)
    case ClearOldRows(cutoff) => Some(ClearCompleted(cutoff))
    case ScanMark(_, id, now) => Some(MarkOrphaned(id, now))
    case DeleteRow(k) => if k in s.deletions then Some(Delete(s.deletions[k].id)) else None
    case _ => None
  }

  lemma TablesChangeByOps(s: System, step: Step)
    requires Enabled(s, step) && !step.CreateRow?
    ensures After(s, step).t == if TableOp(s, step).Some? then Apply(s.t, TableOp(s, step).value) else s.t
    ensures After(s, step).rowed == s.rowed
    ensures TableOp(s, step).Some? ==> !TableOp(s, step).value.Create?
  {
    if Outside(step) {
      OutsideChangesByOps(s, step);
    } else {
      PipelineChangesByOps(s, step);
    }
  }

  lemma OutsideChangesByOps(s: System, step: Step)
    requires Enabled(s, step) && Outside(step)
    ensures After(s, step).t == if TableOp(s, step).Some? then Apply(s.t, TableOp(s, step).value) else s.t
    ensures After(s, step).rowed == s.rowed
    ensures TableOp(s, step).Some? ==> !TableOp(s, step).value.Create?
  {}

  lemma PipelineChangesByOps(s: System, step: Step)
    requires Enabled(s, step) && !Outside(step) && !step.CreateRow?
    ensures After(s, step).t == if TableOp(s, step).Some? then Apply(s.t, TableOp(s, step).value) else s.t
    ensures After(s, step).rowed == s.rowed
    ensures TableOp(s, step).Some? ==> !TableOp(s, step).value.Create?
  {}

  lemma RowsOutside(s: System, step: Step)
    requires RowInv(s) && Enabled(s, step) && Outside(step)
    ensures RowInv(After(s, step))
  {
    OutsideKeepsQueue(s, step);
    TablesChangeByOps(s, step);
    if TableOp(s, step).Some? {
      RowsUnderOp(s, TableOp(s, step).value);
    }
  }

  lemma RowsComplete(s: System, step: Step)
    requires RowInv(s) && Enabled(s, step) && (step.StoreResult? || step.CompleteRow?)
    ensures RowInv(After(s, step))
  {
    RowsUnderOp(s, Complete(s.main.job.id, step.err, step.now));
    CompleteQuiets(s.t, s.main.job.id, step.err, step.now);
  }

  lemma RowsCreate(s: System, step: Step)
    requires RowInv(s) && OrderInv(s) && Enabled(s, step) && step.CreateRow?
    ensures RowInv(After(s, step))
  {
    var record := NewRecord(s.main.job, step.displayName);
    var op := Create(record);
    OpKeepsValid(s.t, op);
    OpKeepsCached(s.t, op, s.created);
    HeldIsNotEnqueued(s, 0);
    assert s.created + {record.id} == s.created;
    forall id | id in s.created
      ensures Apply(s.t, op).Quiet(id) || id in s.q.Runtime() || id in s.removed
    {
      if id != record.id && s.t.Quiet(id) {
        OpKeepsQuiet(s.t, op, id);
      }
    }
    RestIsOther(s);
  }

  lemma RestIsOther(s: System)
    requires OrderInv(s) && s.main.Marked?
    ensures forall j <- s.main.rest :: j.id != s.main.job.id
  {
    forall j | j in s.main.rest
      ensures j.id != s.main.job.id
    {
      var k :| 0 <= k < |s.main.rest| && s.main.rest[k] == j;
      var all := s.enqueued + Incoming(s.main);
      assert all[|s.enqueued|] == s.main.job && all[|s.enqueued| + 1 + k] == j;
    }
  }

  lemma RowsTake(s: System, step: Step)
    requires RowInv(s) && Enabled(s, step) && step.Take?
    ensures RowInv(After(s, step))
  {
    var jobs := Expand(step.job, step.batch);
    forall id | id in IdSet(jobs)
      ensures id !in s.rowed && id !in s.t.store
    {
      var j :| j in jobs && j.id == id;
    }
  }

  /** Main-loop steps that neither touch the tables nor take a new job. */
  predicate Moves(step: Step) {
    step.SkipNixCache? || step.Mark? || step.LeaveUntracked? || step.FinishNow? || step.DropJob? || step.CheckActive?
  }

  lemma RowsUpdaterMove(s: System, step: Step)
    requires RowInv(s) && Enabled(s, step)
    requires step.HandOver? || step.Answer? || step.Receive? || step.Unlock?
    ensures RowInv(After(s, step))
  {
    var s' := After(s, step);
    assert s'.t == s.t && s'.q.Runtime() == s.q.Runtime();
  }

  lemma RowsMove(s: System, step: Step)
    requires RowInv(s) && OrderInv(s) && LockInv(s) && Enabled(s, step) && Moves(step)
    ensures RowInv(After(s, step))
  {
    if step.CheckActive? && Tracked(s.main.job.action) && s.main.Finishing? {
      HeldIsNotEnqueued(s, 0);
    }
  }

  lemma RowsEnqueue(s: System, step: Step)
    requires RowInv(s) && Enabled(s, step) && step.EnqueueJob?
    ensures RowInv(After(s, step))
  {
    IdSetSnoc(s.q.jobs, s.main.job);
  }

  lemma RowsForget(s: System, step: Step)
    requires RowInv(s) && Enabled(s, step) && (step.ForgetJob? || step.ClearCurrent?)
    ensures RowInv(After(s, step))
  {}

  lemma RowsPump(s: System, step: Step)
    requires RowInv(s) && OrderInv(s) && LockInv(s) && Enabled(s, step) && step.Pump?
    ensures RowInv(After(s, step))
  {
    assert s.q.current == "";
    QueuedWasEnqueued(s, s.q.jobs[0]);
    forall id | id in s.q.Runtime()
      ensures id in Pumped(s.q).Runtime()
    {
      if id in IdSet(s.q.jobs) {
        var j :| j in s.q.jobs && j.id == id;
        assert j == s.q.jobs[0] || j in s.q.jobs[1..];
      }
    }
  }

  lemma QueuedWasEnqueued(s: System, j: Job)
    requires OrderInv(s) && j in s.q.jobs
    ensures j in s.enqueued && j.id in IdSet(s.enqueued) && j.id != ""
  {
    assert j in s.handed + s.q.jobs;
    KeptMembers(s.enqueued, s.removed, j);
  }

  lemma RowsDelete(s: System, step: Step)
    requires RowInv(s) && OrderInv(s) && Enabled(s, step) && step.DeleteFromQueue?
    ensures RowInv(After(s, step))
  {
    var gone := s.deletions[step.del].id;
    if gone in IdSet(s.q.jobs) {
      OrderDelete(s, gone);
      assert gone !in s.q.nonQueued;
    }
    forall id | id in s.q.Runtime() && id != gone
      ensures id in Removed(s.q, gone).Runtime()
    {
      if id in IdSet(s.q.jobs) {
        StillQueued(s.q, gone, id);
      }
    }
  }

  lemma StillQueued(q: QueueState, gone: JobId, id: JobId)
    requires id in IdSet(q.jobs) && id != gone
    ensures id in IdSet(Removed(q, gone).jobs)
  {
    var i := IndexOf(q.jobs, gone);
    var k := IndexOf(q.jobs, id);
    IndexFound(q.jobs, id);
    if i < |q.jobs| {
      var left := Removed(q, gone).jobs;
      assert left[if k < i then k else k - 1] == q.jobs[k];
    }
  }

  lemma StepKeepsRows(s: System, step: Step)
    requires RowInv(s) && OrderInv(s) && LockInv(s) && Enabled(s, step)
    ensures RowInv(After(s, step))
  {
    if Outside(step) {
      RowsOutside(s, step);
    } else if step.StoreResult? || step.CompleteRow? {
      RowsComplete(s, step);
    } else if step.CreateRow? {
      RowsCreate(s, step);
    } else if step.Take? {
      RowsTake(s, step);
    } else if Moves(step) {
      RowsMove(s, step);
    } else if step.HandOver? || step.Answer? || step.Receive? || step.Unlock? {
      RowsUpdaterMove(s, step);
    } else if step.EnqueueJob? {
      RowsEnqueue(s, step);
    } else if step.ForgetJob? || step.ClearCurrent? {
      RowsForget(s, step);
    } else if step.Pump? {
      RowsPump(s, step);
    } else {
      RowsDelete(s, step);
    }
  }

  // ------------------------------------------------------------------
  // Other threads
  // ------------------------------------------------------------------

  /** What is settled stays settled: ids are not reused and no operation revives
      a row. */
  lemma SettledStays(s: System, step: Step, id: JobId)
    requires RowInv(s) && OrderInv(s) && Enabled(s, step) && Settled(s, id)
    ensures Settled(After(s, step), id)
  {
    if step.CreateRow? {
      assert id != s.main.job.id;
      OpKeepsQuietExcept(s, step, id);
    } else {
      TablesChangeByOps(s, step);
      HistoryGrows(s, step);
      if TableOp(s, step).Some? && s.t.Quiet(id) {
        OpKeepsQuiet(s.t, TableOp(s, step).value, id);
      }
    }
  }

  lemma OpKeepsQuietExcept(s: System, step: Step, id: JobId)
    requires RowInv(s) && Enabled(s, step) && step.CreateRow? && id != s.main.job.id
    ensures s.t.Quiet(id) ==> After(s, step).t.Quiet(id)
    ensures After(s, step).created == s.created && After(s, step).removed == s.removed
  {}

  lemma HistoryGrows(s: System, step: Step)
    requires Enabled(s, step)
    ensures s.removed <= After(s, step).removed && s.rowed <= After(s, step).rowed
    ensures s.created <= After(s, step).created
    ensures forall id :: id in After(s, step).created && id !in s.created ==> id !in s.rowed
  {
    if step.Take? {
      TakenAreFresh(s, step);
    } else if step.CreateRow? {
    } else if step.DeleteFromQueue? {
    } else {
      OthersKeepHistory(s, step);
    }
  }

  lemma TakenAreFresh(s: System, step: Step)
    requires Enabled(s, step) && step.Take?
    ensures forall id :: id in After(s, step).created && id !in s.created ==> id !in s.rowed
  {
    assert forall j <- Expand(step.job, step.batch) :: j.id !in s.rowed;
  }

  lemma OthersKeepHistory(s: System, step: Step)
    requires Enabled(s, step) && !step.Take? && !step.CreateRow? && !step.DeleteFromQueue?
    ensures var s' := After(s, step);
            s'.removed == s.removed && s'.rowed == s.rowed && s'.created == s.created
  {}

  lemma AllSettledStay(s: System, step: Step)
    requires RowInv(s) && OrderInv(s) && Enabled(s, step)
    ensures s.rowed <= After(s, step).rowed
    ensures forall id :: Settled(s, id) ==> Settled(After(s, step), id)
  {
    HistoryGrows(s, step);
    forall id | Settled(s, id)
      ensures Settled(After(s, step), id)
    {
      SettledStays(s, step, id);
    }
  }

  lemma ThreadsElsewhere(s: System, step: Step)
    requires RowInv(s) && OrderInv(s) && ThreadInv(s) && Enabled(s, step)
    requires After(s, step).scans == s.scans && After(s, step).deletions == s.deletions
    ensures ThreadInv(After(s, step))
  {
    AllSettledStay(s, step);
  }

  lemma ThreadsScan(s: System, step: Step)
    requires RowInv(s) && OrderInv(s) && ThreadInv(s) && Enabled(s, step)
    requires step.ScanRows? || step.ScanRuntime? || step.ScanMark? || step.ScanEnd?
    ensures ThreadInv(After(s, step))
  {
    AllSettledStay(s, step);
  }

  lemma ThreadsDelete(s: System, step: Step)
    requires RowInv(s) && OrderInv(s) && ThreadInv(s) && Enabled(s, step)
    requires step.DeleteCheck? || step.DeleteSeen? || step.DeleteRow?
    ensures ThreadInv(After(s, step))
  {
    AllSettledStay(s, step);
  }

  lemma ThreadsDeleteFromQueue(s: System, step: Step)
    requires RowInv(s) && OrderInv(s) && ThreadInv(s) && Enabled(s, step) && step.DeleteFromQueue?
    ensures ThreadInv(After(s, step))
  {
    AllSettledStay(s, step);
  }

  lemma StepKeepsThreads(s: System, step: Step)
    requires RowInv(s) && OrderInv(s) && ThreadInv(s) && Enabled(s, step)
    ensures ThreadInv(After(s, step))
  {
    if step.ScanRows? || step.ScanRuntime? || step.ScanMark? || step.ScanEnd? {
      ThreadsScan(s, step);
    } else if step.DeleteCheck? || step.DeleteSeen? || step.DeleteRow? {
      ThreadsDelete(s, step);
    } else if step.DeleteFromQueue? {
      ThreadsDeleteFromQueue(s, step);
    } else {
      ThreadsElsewhere(s, step);
    }
  }

  lemma StepKeepsInv(s: System, step: Step)
    requires Inv(s) && Enabled(s, step)
    ensures Inv(After(s, step))
  {
    StepKeepsOrder(s, step);
    StepKeepsLock(s, step);
    StepKeepsRows(s, step);
    StepKeepsThreads(s, step);
  }

  // ------------------------------------------------------------------
  // Runs
  // ------------------------------------------------------------------

  ghost predicate RunsTo(s: System, steps: seq<Step>, end: System)
    decreases |steps|
  {
    if steps == [] then s == end else Enabled(s, steps[0]) && RunsTo(After(s, steps[0]), steps[1..], end)
  }

  lemma {:induction false} RunSnoc(s: System, steps: seq<Step>, end: System, step: Step)
    requires RunsTo(s, steps, end) && Enabled(end, step)
    ensures RunsTo(s, steps + [step], After(end, step))
    decreases |steps|
  {
    if steps == [] {
      assert steps + [step] == [step] && [step][1..] == [];
    } else {
      RunSnoc(After(s, steps[0]), steps[1..], end, step);
      assert (steps + [step])[1..] == steps[1..] + [step];
    }
  }

  lemma {:induction false} JoinRuns(s: System, steps: seq<Step>, mid: System, more: seq<Step>, end: System)
    requires RunsTo(s, steps, mid) && RunsTo(mid, more, end)
    ensures RunsTo(s, steps + more, end)
    decreases |steps|
  {
    if steps == [] {
      assert steps + more == more;
    } else {
      JoinRuns(After(s, steps[0]), steps[1..], mid, more, end);
      assert (steps + more)[1..] == steps[1..] + more;
    }
  }

  ghost predicate Reachable(s: System) {
    exists start, steps :: Init(start) && RunsTo(start, steps, s)
  }

  lemma {:induction false} RunKeepsInv(s: System, steps: seq<Step>, end: System)
    requires Inv(s) && RunsTo(s, steps, end)
    ensures Inv(end)
    decreases |steps|
  {
    if steps != [] {
      StepKeepsInv(s, steps[0]);
      RunKeepsInv(After(s, steps[0]), steps[1..], end);
    }
  }

  lemma ReachableHasInv(s: System)
    requires Reachable(s)
    ensures Inv(s)
  {
    var start, steps :| Init(start) && RunsTo(start, steps, s);
    InitHasInv(start);
    RunKeepsInv(start, steps, s);
  }

  // ------------------------------------------------------------------
  // No false orphan
  // ------------------------------------------------------------------

  /** The jobs this process is holding: queued, with the updater, or in the hands
      of the main loop. */
  ghost function Held(s: System): set<JobId> {
    s.q.Runtime() + IdSet(Incoming(s.main)) + if WithUpdater(s).Some? then {WithUpdater(s).value.id} else {}
  }

  lemma HeldIsAlive(s: System, id: JobId)
    requires OrderInv(s) && LockInv(s) && id in Held(s)
    ensures id in s.created && id !in s.removed
  {
    if WithUpdater(s).Some? && id == WithUpdater(s).value.id {
      PoppedJobIsAnswered(s);
    } else if id in IdSet(s.q.jobs) {
      var j :| j in s.q.jobs && j.id == id;
      QueuedWasEnqueued(s, j);
      KeptIds(s.enqueued, s.removed);
      assert j in s.handed + s.q.jobs;
    } else if id in IdSet(Incoming(s.main)) {
      var k :| 0 <= k < |Incoming(s.main)| && Incoming(s.main)[k].id == id;
      HeldIsNotEnqueued(s, k);
    }
  }

  /** In every reachable state and for every scan, however stale its database and
      runtime reads are by now, marking changes nothing for a job this process
      holds. What a mark can change is a row left by an earlier process or the
      row of a job deleted from the queue. */
  lemma NoFalseOrphan(s: System, scan: nat, id: JobId, now: int)
    requires Reachable(s) && Enabled(s, ScanMark(scan, id, now))
    ensures id in Held(s) ==> After(s, ScanMark(scan, id, now)).t == s.t
    ensures After(s, ScanMark(scan, id, now)).t != s.t ==> id !in s.created || id in s.removed
  {
    ReachableHasInv(s);
    SuspectIsSettled(s, scan, id, now);
    if id in Held(s) {
      HeldIsAlive(s, id);
    }
    if s.t.Quiet(id) {
      QuietIsUnmarked(s.t, id, now);
    }
  }

  lemma QuietIsUnmarked(t: Tables, id: JobId, now: int)
    requires t.Valid() && t.Quiet(id)
    ensures Apply(t, MarkOrphaned(id, now)) == t
  {}

  lemma SuspectIsSettled(s: System, scan: nat, id: JobId, now: int)
    requires ThreadInv(s) && Enabled(s, ScanMark(scan, id, now))
    ensures Settled(s, id)
  {}

  // ------------------------------------------------------------------
  // Serial first-in first-out execution
  // ------------------------------------------------------------------

  /** Hand-overs happen in enqueue order minus the deleted jobs, each at most once
      and a deleted one never; the lock is held exactly while a job is with the
      updater, and that job is the last one handed over. */
  lemma SerialFifo(s: System)
    requires Reachable(s)
    ensures s.handed + s.q.jobs == Kept(s.enqueued, s.removed)
    ensures DistinctIds(s.handed + s.q.jobs) && IdSet(s.handed + s.q.jobs) !! s.removed
    ensures s.q.inProgress <==> WithUpdater(s).Some?
    ensures WithUpdater(s).Some? ==> s.handed != [] && s.handed[|s.handed| - 1] == WithUpdater(s).value
  {
    ReachableHasInv(s);
    DistinctPrefix(s.enqueued, Incoming(s.main));
    KeptDistinct(s.enqueued, s.removed);
    KeptIds(s.enqueued, s.removed);
  }

  /** When a deletion reaches the row of a job of this process, that job was taken
      out of the queue in time and is held by nobody, or its row is not active. */
  lemma DeletionIsSafe(s: System, del: nat)
    requires Reachable(s) && Enabled(s, DeleteRow(del))
    ensures var id := s.deletions[del].id;
            id in s.created ==> s.t.Quiet(id) || (id in s.removed && id !in Held(s))
  {
    ReachableHasInv(s);
    var id := s.deletions[del].id;
    if id in s.removed && id in Held(s) {
      HeldIsAlive(s, id);
    }
  }

  // ------------------------------------------------------------------
  // Draining
  // ------------------------------------------------------------------

  function StageWork(stage: Stage): nat {
    match stage
    case CheckCache => 2
    case StoreRow => 1
    case Forget => 0
  }

  function MainWork(m: MainLoop): nat {
    match m
    case Selecting => 0
    case Taken(rest) => 14 * |rest|
    case Marked(_, rest) => 13 + 14 * |rest|
    case Dispatching(_, rest) => 12 + 14 * |rest|
    case Finishing(_, rest, stage) => 1 + StageWork(stage) + 14 * |rest|
    case Popped(_) => 10
    case Completing(_) => 7
    case Reporting(_, stage) => 4 + StageWork(stage)
    case ClearingCurrent(_) => 3
    case Unlocking(_) => 2
  }

  function UpdaterWork(u: Updater): nat {
    match u
    case Resting => 0
    case Busy(_) => 9
    case Done(_) => 8
  }

  function Work(s: System): nat {
    MainWork(s.main) + UpdaterWork(s.updater) + 11 * |s.q.jobs|
  }

  /** The steps of the main loop and the updater other than taking a new job. */
  predicate Advances(step: Step) {
    UpdaterStep(step) || step.Mark? || step.LeaveUntracked? || step.CreateRow? || step.EnqueueJob? || step.FinishNow?
    || step.DropJob? || step.CheckActive? || step.StoreResult? || step.ForgetJob?
  }

  /** Once arrivals stop, no step adds work and each step of the pipeline does
      some. */
  lemma WorkDecreases(s: System, step: Step)
    requires Inv(s) && Enabled(s, step) && !step.Take?
    ensures Work(After(s, step)) <= Work(s)
    ensures Advances(step) ==> Work(After(s, step)) < Work(s)
  {
    if Outside(step) {
      OutsideKeepsQueue(s, step);
    } else if step.DeleteFromQueue? {
      WorkDelete(s, step);
    } else if UpdaterStep(step) {
      WorkUpdater(s, step);
    } else {
      WorkMain(s, step);
    }
  }

  lemma WorkDelete(s: System, step: Step)
    requires Enabled(s, step) && step.DeleteFromQueue?
    ensures Work(After(s, step)) <= Work(s)
  {
    IndexFound(s.q.jobs, s.deletions[step.del].id);
  }

  lemma WorkUpdater(s: System, step: Step)
    requires Inv(s) && Enabled(s, step) && UpdaterStep(step)
    ensures Work(After(s, step)) < Work(s)
  {
    if step.Pump? || step.HandOver? || step.Answer? {
      WorkToUpdater(s, step);
    } else {
      WorkFromUpdater(s, step);
    }
  }

  lemma WorkToUpdater(s: System, step: Step)
    requires LockInv(s) && Enabled(s, step) && (step.Pump? || step.HandOver? || step.Answer?)
    ensures Work(After(s, step)) < Work(s)
  {}

  lemma WorkFromUpdater(s: System, step: Step)
    requires LockInv(s) && Enabled(s, step)
    requires step.Receive? || step.CompleteRow? || step.ClearCurrent? || step.Unlock?
    ensures Work(After(s, step)) < Work(s)
  {}

  lemma WorkMain(s: System, step: Step)
    requires Enabled(s, step) && !Outside(step) && !UpdaterStep(step) && !step.DeleteFromQueue? && !step.Take?
    ensures Work(After(s, step)) <= Work(s)
    ensures Advances(step) ==> Work(After(s, step)) < Work(s)
  {}

  /** The pipeline never waits on itself: while there is work, some step of the
      main loop or the updater is possible. */
  lemma NeverStuck(s: System) returns (step: Step)
    requires Inv(s) && Work(s) > 0
    ensures Advances(step) && Enabled(s, step)
  {
    match s.main
    case Selecting =>
      step := match s.updater
        case Resting => Pump
        case Busy(_) => Answer
        case Done(_) => Receive;
    case Taken(rest) => step := if Tracked(rest[0].action) then Mark else LeaveUntracked;
    case Marked(_, _) => step := CreateRow("");
    case Dispatching(j, _) =>
      assert j in Incoming(s.main);
      step := match Dispatch(j.action)
        case ToUpdater => EnqueueJob
        case Dropped => DropJob
        case _ => FinishNow;
    case Finishing(_, _, stage) => step := FinishStep(stage);
    case Reporting(_, stage) => step := FinishStep(stage);
    case Popped(_) => step := HandOver;
    case Completing(_) => step := CompleteRow("", 0);
    case ClearingCurrent(_) => step := ClearCurrent;
    case Unlocking(_) => step := Unlock;
  }

  function FinishStep(stage: Stage): Step {
    match stage
    case CheckCache => CheckActive
    case StoreRow => StoreResult("", 0)
    case Forget => ForgetJob
  }

  /** So from any state the pipeline can finish on its own, within `Work(s)`
      steps, having handed over every enqueued job that was not deleted. */
  lemma {:induction false} Drains(s: System) returns (steps: seq<Step>, end: System)
    requires Inv(s)
    ensures RunsTo(s, steps, end) && |steps| <= Work(s)
    ensures forall step <- steps :: Advances(step)
    ensures end.main.Selecting? && end.updater.Resting? && !end.q.inProgress
    ensures end.handed == Kept(end.enqueued, end.removed)
    decreases Work(s)
  {
    if Work(s) == 0 {
      steps, end := [], s;
      assert s.handed + [] == s.handed;
    } else {
      var step := NeverStuck(s);
      StepKeepsInv(s, step);
      WorkDecreases(s, step);
      var more;
      more, end := Drains(After(s, step));
      steps := [step] + more;
    }
  }

  ghost function Advancing(steps: seq<Step>): nat {
    if steps == [] then 0 else (if Advances(steps[0]) then 1 else 0) + Advancing(steps[1..])
  }

  /** And it cannot do otherwise: without arrivals every schedule, whatever other
      threads do in between, has at most `Work(s)` steps of the pipeline in it, */
  lemma {:induction false} EveryScheduleIsBounded(s: System, steps: seq<Step>, end: System)
    requires Inv(s) && RunsTo(s, steps, end)
    requires forall step <- steps :: !step.Take?
    ensures Inv(end) && Advancing(steps) + Work(end) <= Work(s)
    decreases |steps|
  {
    if steps != [] {
      StepKeepsInv(s, steps[0]);
      WorkDecreases(s, steps[0]);
      EveryScheduleIsBounded(After(s, steps[0]), steps[1..], end);
    }
  }

  /** and one that cannot go on has handed over and finished everything. */
  lemma OnlyDrainedIsQuiet(s: System)
    requires Inv(s) && forall step :: Advances(step) ==> !Enabled(s, step)
    ensures s.main.Selecting? && s.updater.Resting? && s.q.jobs == [] && !s.q.inProgress
    ensures s.handed == Kept(s.enqueued, s.removed)
  {
    if Work(s) > 0 {
      var step := NeverStuck(s);
    }
    assert s.handed + [] == s.handed;
  }
}
