/** The threads of the pipeline when none disturbs another: their steps together do
    what the methods of `Dogeboxd` promise (pkg/dogeboxd.go, deleteJob in
    pkg/web/jobs.go). */
module Threads {
  import opened Wrappers
  import opened Events
  import opened Jobs
  import opened Queue
  import opened Pipeline
  import D = Dogeboxd

  lemma Begin(s: System, step: Step)
    requires Enabled(s, step)
    ensures RunsTo(s, [step], After(s, step))
  {
    assert [step][1..] == [];
  }

  lemma Unused<T>(threads: map<nat, T>) returns (k: nat)
    ensures k !in threads
  {
    k := Above(threads.Keys);
  }

  lemma Above(ks: set<nat>) returns (k: nat)
    ensures forall i :: i in ks ==> i < k
    decreases |ks|
  {
    if ks == {} {
      k := 0;
    } else {
      var i :| i in ks;
      var above := Above(ks - {i});
      k := if above <= i then i + 1 else above;
      forall j | j in ks
        ensures j < k
      {
        assert j == i || j in ks - {i};
      }
    }
  }

  // ------------------------------------------------------------------
  // Orphan scans
  // ------------------------------------------------------------------

  predicate OfScan(step: Step, k: nat) {
    (step.ScanRows? || step.ScanRuntime? || step.ScanMark? || step.ScanEnd?) && step.scan == k
  }

  /** Steps of this scan alone. */
  ghost predicate OnlyScan(steps: seq<Step>, k: nat) {
    forall step <- steps :: OfScan(step, k)
  }

  lemma OtherLeavesScan(s: System, step: Step, k: nat)
    requires Enabled(s, step) && !OfScan(step, k) && k in s.scans
    ensures k in After(s, step).scans && After(s, step).scans[k] == s.scans[k]
  {
    if step.ScanRows? || step.ScanRuntime? || step.ScanMark? || step.ScanEnd? {
      OtherScanLeavesScan(s, step, k);
    } else {
      NoScanLeavesScans(s, step);
    }
  }

  lemma OtherScanLeavesScan(s: System, step: Step, k: nat)
    requires Enabled(s, step) && (step.ScanRows? || step.ScanRuntime? || step.ScanMark? || step.ScanEnd?)
    requires step.scan != k && k in s.scans
    ensures k in After(s, step).scans && After(s, step).scans[k] == s.scans[k]
  {}

  lemma NoScanLeavesScans(s: System, step: Step)
    requires Enabled(s, step) && !(step.ScanRows? || step.ScanRuntime? || step.ScanMark? || step.ScanEnd?)
    ensures After(s, step).scans == s.scans
  {
    if UpdaterStep(step) {
      UpdaterLeavesScans(s, step);
    } else if Outside(step) {
      OutsideLeavesScans(s, step);
    } else {
      MainLeavesScans(s, step);
    }
  }

  lemma UpdaterLeavesScans(s: System, step: Step)
    requires Enabled(s, step) && UpdaterStep(step)
    ensures After(s, step).scans == s.scans
  {}

  lemma OutsideLeavesScans(s: System, step: Step)
    requires Enabled(s, step) && Outside(step) && !UpdaterStep(step)
    requires !(step.ScanRows? || step.ScanRuntime? || step.ScanMark? || step.ScanEnd?)
    ensures After(s, step).scans == s.scans
  {}

  lemma MainLeavesScans(s: System, step: Step)
    requires Enabled(s, step) && !Outside(step) && !UpdaterStep(step)
    requires !(step.ScanRows? || step.ScanRuntime? || step.ScanMark? || step.ScanEnd?)
    ensures After(s, step).scans == s.scans
  {}

  lemma {:induction false} OthersLeaveScan(s: System, steps: seq<Step>, end: System, k: nat)
    requires RunsTo(s, steps, end) && k in s.scans && forall step <- steps :: !OfScan(step, k)
    ensures k in end.scans && end.scans[k] == s.scans[k]
    decreases |steps|
  {
    if steps != [] {
      OtherLeavesScan(s, steps[0], k);
      OthersLeaveScan(After(s, steps[0]), steps[1..], end, k);
    }
  }

  /** Whatever the other threads do between the two reads of a scan: its suspects are
      exactly the jobs with an active row at the first read that the runtime does not
      know at the second. */
  lemma ScanSuspectsTheUnknown(s: System, k: nat, steps: seq<Step>, mid: System)
    requires Enabled(s, ScanRows(k)) && RunsTo(After(s, ScanRows(k)), steps, mid)
    requires forall step <- steps :: !OfScan(step, k)
    ensures Enabled(mid, ScanRuntime(k))
    ensures k in After(mid, ScanRuntime(k)).scans && After(mid, ScanRuntime(k)).scans[k].Suspects?
    ensures forall id :: id in After(mid, ScanRuntime(k)).scans[k].ids <==>
              && id in s.t.store && (s.t.store[id].status == Queued || s.t.store[id].status == InProgress)
              && id !in mid.q.Runtime()
  {
    var s1 := After(s, ScanRows(k));
    assert k in s1.scans && s1.scans[k].RowsRead?;
    OthersLeaveScan(s1, steps, mid, k);
  }

  /** The two reads, one after the other. */
  lemma ScanReads(s: System) returns (k: nat, steps: seq<Step>, s': System)
    ensures k !in s.scans && RunsTo(s, steps, s') && OnlyScan(steps, k)
    ensures s' == s.(scans := s.scans[k := Suspects(D.Orphans(s.t, s.q))])
  {
    k := Unused(s.scans);
    var first := After(s, ScanRows(k));
    Begin(s, ScanRows(k));
    s' := SecondRead(s, first, k);
    Begin(first, ScanRuntime(k));
    JoinRuns(s, [ScanRows(k)], first, [ScanRuntime(k)], s');
    steps := [ScanRows(k)] + [ScanRuntime(k)];
  }

  lemma SecondRead(s: System, first: System, k: nat) returns (s': System)
    requires k !in s.scans && first == After(s, ScanRows(k))
    ensures Enabled(first, ScanRuntime(k)) && s' == After(first, ScanRuntime(k))
    ensures s' == s.(scans := s.scans[k := Suspects(D.Orphans(s.t, s.q))])
  {
    s' := After(first, ScanRuntime(k));
    SuspectsAreOrphans(s);
  }

  lemma SuspectsAreOrphans(s: System)
    ensures (set id | id in s.t.store && Active(s.t.store[id].status)) - s.q.Runtime() == D.Orphans(s.t, s.q)
  {}

  /** A row that is active and unknown to the runtime, such as one left by an earlier
      process, is marked by some scan: from every state, by its steps alone. */
  lemma OrphanIsMarked(s: System, id: JobId, now: int) returns (k: nat, steps: seq<Step>, end: System)
    requires s.t.Valid() && id in s.t.store && id !in s.q.Runtime()
    requires s.t.store[id].status == Queued || s.t.store[id].status == InProgress
    ensures RunsTo(s, steps, end) && OnlyScan(steps, k)
    ensures id in end.t.store && end.t.store[id].status == Orphaned && end.t.store[id].finished == Some(now)
    ensures end.q == s.q && end.t.store - {id} == s.t.store - {id}
  {
    var s1, mark;
    k, steps, s1 := ScanReads(s);
    mark, end := MarkSuspect(s1, k, D.Orphans(s.t, s.q), id, now);
    JoinRuns(s, steps, s1, mark, end);
    steps := steps + mark;
    MarkedRow(s.t, id, now);
  }

  lemma MarkSuspect(s: System, k: nat, ids: set<JobId>, id: JobId, now: int) returns (steps: seq<Step>, s': System)
    requires k in s.scans && s.scans[k] == Suspects(ids) && id in ids && s.t.Lookup(id).Some?
    ensures RunsTo(s, steps, s') && OnlyScan(steps, k)
    ensures s' == s.(t := Apply(s.t, MarkOrphaned(id, now)), scans := s.scans[k := Suspects(ids - {id})])
  {
    steps, s' := [ScanMark(k, id, now)], After(s, ScanMark(k, id, now));
    Begin(s, ScanMark(k, id, now));
  }

  lemma MarkedRow(t: Tables, id: JobId, now: int)
    requires t.Valid() && id in t.store && Active(t.store[id].status)
    ensures var t' := Apply(t, MarkOrphaned(id, now));
            && id in t'.store && t'.store[id].status == Orphaned && t'.store[id].finished == Some(now)
            && t'.store - {id} == t.store - {id}
  {
    assert t.Lookup(id) == Some(t.store[id]);
  }

  /** The state in which scan `k` has marked some and has some left. */
  ghost function Marking(s: System, k: nat, done: set<JobId>, rest: set<JobId>, now: int): System {
    s.(t := D.OrphanSome(s.t, now, done), scans := s.scans[k := Suspects(rest)])
  }

  lemma MarkNext(s: System, k: nat, done: set<JobId>, rest: set<JobId>, id: JobId, now: int) returns (steps: seq<Step>)
    requires s.t.Valid() && id in rest && id in s.t.store && Active(s.t.store[id].status) && id !in done
    ensures RunsTo(Marking(s, k, done, rest, now), steps, Marking(s, k, done + {id}, rest - {id}, now))
    ensures OnlyScan(steps, k)
  {
    var s1;
    MarkingNext(s, k, done, rest, id, now);
    steps, s1 := MarkSuspect(Marking(s, k, done, rest, now), k, rest, id, now);
  }

  lemma MarkingNext(s: System, k: nat, done: set<JobId>, rest: set<JobId>, id: JobId, now: int)
    requires s.t.Valid() && id in s.t.store && Active(s.t.store[id].status) && id !in done
    ensures var s0 := Marking(s, k, done, rest, now);
            && s0.t.Lookup(id).Some?
            && s0.(t := Apply(s0.t, MarkOrphaned(id, now)), scans := s0.scans[k := Suspects(rest - {id})]) ==
               Marking(s, k, done + {id}, rest - {id}, now)
  {
    D.OrphanNext(s.t, now, done, id);
    var s0 := Marking(s, k, done, rest, now);
    assert s0.scans[k := Suspects(rest - {id})] == s.scans[k := Suspects(rest - {id})];
  }

  /** Marks for the remaining suspects, one after the other. */
  lemma {:induction false} MarkRest(s: System, k: nat, done: set<JobId>, rest: set<JobId>, now: int)
    returns (steps: seq<Step>)
    requires s.t.Valid() && forall id <- rest :: id in s.t.store && Active(s.t.store[id].status) && id !in done
    ensures RunsTo(Marking(s, k, done, rest, now), steps, Marking(s, k, done + rest, {}, now)) && OnlyScan(steps, k)
    decreases |rest|
  {
    if rest == {} {
      steps := [];
      assert done + rest == done;
    } else {
      var id :| id in rest;
      var first := MarkNext(s, k, done, rest, id, now);
      var more := MarkRest(s, k, done + {id}, rest - {id}, now);
      assert done + {id} + (rest - {id}) == done + rest;
      steps := first + more;
      JoinRuns(Marking(s, k, done, rest, now), first, Marking(s, k, done + {id}, rest - {id}, now), more,
               Marking(s, k, done + rest, {}, now));
    }
  }

  /** An undisturbed scan leaves the tables that `DetectAndMarkOrphanedJobs` does, and
      nothing else of it remains. */
  lemma UndisturbedScan(s: System, now: int) returns (k: nat, steps: seq<Step>, end: System)
    requires s.t.Valid()
    ensures RunsTo(s, steps, end) && OnlyScan(steps, k)
    ensures end == s.(t := D.OrphanSome(s.t, now, D.Orphans(s.t, s.q)))
  {
    var s1, orphans := s, D.Orphans(s.t, s.q);
    k, steps, s1 := ScanReads(s);
    NoneMarked(s.t, now);
    var marks := MarkRest(s, k, {}, orphans, now);
    assert {} + orphans == orphans;
    var marked := Marking(s, k, orphans, {}, now);
    JoinRuns(s, steps, s1, marks, marked);
    var last;
    last, end := EndScan(s, marked, k);
    JoinRuns(s, steps + marks, marked, last, end);
    steps := steps + marks + last;
  }

  lemma EndScan(s: System, s2: System, k: nat) returns (steps: seq<Step>, end: System)
    requires k !in s.scans && s2.scans == s.scans[k := Suspects({})]
    ensures RunsTo(s2, steps, end) && OnlyScan(steps, k) && end == s2.(scans := s.scans)
  {
    steps, end := [ScanEnd(k)], After(s2, ScanEnd(k));
    Begin(s2, ScanEnd(k));
    assert s2.scans - {k} == s.scans;
  }

  lemma NoneMarked(t: Tables, now: int)
    ensures D.OrphanSome(t, now, {}) == t
  {
    assert t.cache - {} == t.cache;
    assert D.OrphanSome(t, now, {}).store == t.store;
  }

  /** Those tables, row by row. */
  lemma ScannedRows(t: Tables, q: QueueState, now: int)
    requires t.Valid()
    ensures var t' := D.OrphanSome(t, now, D.Orphans(t, q));
            && t'.store.Keys == t.store.Keys
            && forall id <- t.store ::
                 var was, row := t.store[id], t'.store[id];
                 if (was.status == Queued || was.status == InProgress) && id !in q.Runtime() then
                   && row.status == Orphaned && row.finished == Some(now) && id !in t'.cache
                   && row == was.(status := row.status, finished := row.finished, summary := row.summary,
                                  error := row.error)
                 else row == was && (id in t.cache ==> id in t'.cache && t'.cache[id] == t.cache[id])
  {}

  // ------------------------------------------------------------------
  // One-step threads
  // ------------------------------------------------------------------

  // Reports and the requests that touch the tables alone are possible in every state,
  // and do to the tables what the job manager's methods do.

  lemma ReportAppliesAtOnce(s: System, ap: ActionProgress)
    ensures Enabled(s, Report(ap)) && After(s, Report(ap)) == s.(t := Apply(s.t, Progress(ap)))
  {}

  lemma NamingAppliesAtOnce(s: System, id: JobId, pupID: PupId)
    ensures Enabled(s, NamePup(id, pupID)) && After(s, NamePup(id, pupID)) == s.(t := Apply(s.t, SetPupID(id, pupID)))
  {}

  lemma ClearingAppliesAtOnce(s: System)
    ensures Enabled(s, ClearRows) && After(s, ClearRows) == s.(t := Tables(map[], map[]))
  {}

  lemma OldRowsAreClearedAtOnce(s: System, cutoff: int)
    ensures Enabled(s, ClearOldRows(cutoff))
    ensures After(s, ClearOldRows(cutoff)) == s.(t := Apply(s.t, ClearCompleted(cutoff)))
  {}

  // ------------------------------------------------------------------
  // Deletions
  // ------------------------------------------------------------------

  predicate OfDeletion(step: Step, k: nat) {
    (step.DeleteCheck? || step.DeleteSeen? || step.DeleteFromQueue? || step.DeleteRow?) && step.del == k
  }

  ghost predicate OnlyDeletion(steps: seq<Step>, k: nat) {
    forall step <- steps :: OfDeletion(step, k)
  }

  /** An undisturbed deletion of a job whose record is queued does what `DeleteJob`
      does: it ends in a conflict and changes nothing if the runtime knows the job but
      the queue does not hold it, and otherwise takes it out of queue and tables. */
  lemma UndisturbedDeletion(s: System, id: JobId) returns (k: nat, steps: seq<Step>, end: System)
    requires s.t.Lookup(id).Some? && s.t.Lookup(id).value.status == Queued
    ensures RunsTo(s, steps, end) && OnlyDeletion(steps, k)
    ensures id in s.q.Runtime() && id !in IdSet(s.q.jobs) ==> end == s
    ensures id !in s.q.Runtime() || id in IdSet(s.q.jobs) ==>
              end == s.(t := Apply(s.t, Delete(id)), q := Removed(s.q, id), removed := end.removed)
    ensures id in IdSet(s.q.jobs) ==> end.removed == s.removed + {id}
  {
    k := Unused(s.deletions);
    var looked, known, s2, last;
    looked, s2 := DeletionLooks(s, k, id);
    if id in s.q.Runtime() {
      var s3;
      known, s3 := DeletionDequeues(s, s2, k, id);
      JoinRuns(s, looked, s2, known, s3);
      steps, end := looked + known, s3;
      if id in IdSet(s.q.jobs) {
        last, end := DeletionEnds(s.(q := Removed(s.q, id), removed := s.removed + {id}), s3, k, id);
        JoinRuns(s, steps, s3, last, end);
        steps := steps + last;
      }
    } else {
      D.NotQueuedMeansUnchanged(s.q, id);
      last, end := DeletionEnds(s, s2, k, id);
      JoinRuns(s, looked, s2, last, end);
      steps := looked + last;
    }
  }

  /** No deletion begins for a job that is unknown or whose record is not queued. */
  lemma OnlyQueuedIsDeleted(s: System, k: nat, id: JobId)
    requires Enabled(s, DeleteCheck(k, id))
    ensures id in s.t.cache || id in s.t.store
    ensures id in s.t.cache ==> s.t.cache[id].status == Queued
    ensures id !in s.t.cache ==> s.t.store[id].status == Queued
  {}

  lemma DeletionLooks(s: System, k: nat, id: JobId) returns (steps: seq<Step>, s2: System)
    requires k !in s.deletions && s.t.Lookup(id).Some? && s.t.Lookup(id).value.status == Queued
    ensures RunsTo(s, steps, s2) && OnlyDeletion(steps, k)
    ensures s2 == s.(deletions := s.deletions[k := if id in s.q.Runtime() then SeenInRuntime(id) else RowNext(id)])
  {
    var s1 := After(s, DeleteCheck(k, id));
    Begin(s, DeleteCheck(k, id));
    RunSnoc(s, [DeleteCheck(k, id)], s1, DeleteSeen(k));
    steps, s2 := [DeleteCheck(k, id)] + [DeleteSeen(k)], After(s1, DeleteSeen(k));
  }

  lemma DeletionDequeues(s: System, s2: System, k: nat, id: JobId) returns (steps: seq<Step>, s3: System)
    requires k !in s.deletions && s2 == s.(deletions := s.deletions[k := SeenInRuntime(id)])
    ensures RunsTo(s2, steps, s3) && OnlyDeletion(steps, k)
    ensures id !in IdSet(s.q.jobs) ==> s3 == s
    ensures id in IdSet(s.q.jobs) ==>
              s3 == s.(q := Removed(s.q, id), removed := s.removed + {id}, deletions := s.deletions[k := RowNext(id)])
  {
    Begin(s2, DeleteFromQueue(k));
    steps, s3 := [DeleteFromQueue(k)], After(s2, DeleteFromQueue(k));
    assert s.deletions[k := SeenInRuntime(id)] - {k} == s.deletions;
  }

  lemma DeletionEnds(s: System, s3: System, k: nat, id: JobId) returns (steps: seq<Step>, end: System)
    requires k !in s.deletions && s3 == s.(deletions := s.deletions[k := RowNext(id)])
    ensures RunsTo(s3, steps, end) && OnlyDeletion(steps, k) && end == s.(t := Apply(s.t, Delete(id)))
  {
    Begin(s3, DeleteRow(k));
    steps, end := [DeleteRow(k)], After(s3, DeleteRow(k));
    assert s.deletions[k := RowNext(id)] - {k} == s.deletions;
  }

  // ------------------------------------------------------------------
  // The main loop
  // ------------------------------------------------------------------

  /** An incoming job that is new is taken by an idle main loop, unless it is a
      nix-cache job and the last queued job is one; then, and only then, it is dropped. */
  lemma IncomingIsTakenOrDropped(s: System, j: Job)
    requires s.main.Selecting? && j.id != "" && j.id !in s.created && j.id !in s.rowed && !j.action.InstallPups?
    ensures var behindNix := |s.q.jobs| > 0 && s.q.jobs[|s.q.jobs| - 1].action.UpdateNixCache?;
            && (Enabled(s, SkipNixCache(j)) <==> j.action.UpdateNixCache? && behindNix)
            && (Enabled(s, Take(j, [])) <==> !(j.action.UpdateNixCache? && behindNix))
    ensures Enabled(s, SkipNixCache(j)) ==> After(s, SkipNixCache(j)) == s
    ensures Enabled(s, Take(j, [])) ==> After(s, Take(j, [])).main == Taken([j])
  {
    assert Expand(j, []) == [j] && j in [j];
  }

  /** The next job of a batch gets what `CreateTrackedJobRecord` gives it, if it is
      tracked, and nothing otherwise. */
  lemma NextJobIsTracked(s: System, name: string) returns (steps: seq<Step>, end: System)
    requires s.main.Taken? && s.main.rest != []
    ensures RunsTo(s, steps, end)
    ensures var j := s.main.rest[0];
            && end.main == Dispatching(j, s.main.rest[1..])
            && (Tracked(j.action) ==>
                  && end.q == s.q.(nonQueued := s.q.nonQueued + {j.id})
                  && end.t == Apply(s.t, Create(NewRecord(j, name))))
            && (!Tracked(j.action) ==> end == s.(main := end.main))
  {
    if Tracked(s.main.rest[0].action) {
      var s1 := After(s, Mark);
      Begin(s, Mark);
      RunSnoc(s, [Mark], s1, CreateRow(name));
      steps, end := [Mark] + [CreateRow(name)], After(s1, CreateRow(name));
    } else {
      Begin(s, LeaveUntracked);
      steps, end := [LeaveUntracked], After(s, LeaveUntracked);
    }
  }

  /** From its check of the cache on, finishing a job does what `SendFinishedJob` does. */
  lemma FinishingSendsJob(s: System, err: string, now: int) returns (steps: seq<Step>, end: System)
    requires (s.main.Finishing? || s.main.Reporting?) && s.main.stage.CheckCache?
    ensures RunsTo(s, steps, end)
    ensures var j := s.main.job;
            && end == s.(main := end.main, q := s.q.(nonQueued := s.q.nonQueued - {j.id}), t := end.t)
            && end.main == (if s.main.Finishing? then NextJob(s.main.rest) else ClearingCurrent(j))
            && end.t == if Tracked(j.action) && j.id in s.t.cache then Apply(s.t, Complete(j.id, err, now)) else s.t
  {
    var s1 := After(s, CheckActive);
    Begin(s, CheckActive);
    steps, end := [CheckActive], s1;
    if s1.main.stage.StoreRow? {
      RunSnoc(s, steps, end, StoreResult(err, now));
      steps, end := steps + [StoreResult(err, now)], After(end, StoreResult(err, now));
    }
    RunSnoc(s, steps, end, ForgetJob);
    steps, end := steps + [ForgetJob], After(end, ForgetJob);
  }

  /** An answer of the updater is received, reported and completed as by
      `CompleteUpdaterJob`. */
  lemma AnswerIsCompleted(s: System, err: string, last: ActionProgress, errLine: ActionProgress, now: int)
    returns (steps: seq<Step>, end: System)
    requires s.main.Selecting? && s.updater.Done?
    ensures RunsTo(s, steps, end)
    ensures var j := s.updater.job;
            var (t, again) := Completion(s.t, j.id, err, last, errLine, now);
            && end == s.(q := end.q, t := end.t, updater := Resting)
            && end.q == CurrentCleared(s.q, j.id).(nonQueued := s.q.nonQueued - {j.id}, inProgress := false)
            && end.t == if Tracked(j.action) && again then Apply(t, Complete(j.id, err, now)) else t
  {
    var s1, more, s2;
    steps, s1 := AnswerIsStored(s, err, last, errLine, now);
    more, s2 := FinishingSendsJob(s1, err, now);
    JoinRuns(s, steps, s1, more, s2);
    steps := steps + more;
    more, end := LockIsReleased(s2);
    JoinRuns(s, steps, s2, more, end);
    steps := steps + more;
  }

  lemma AnswerIsStored(s: System, err: string, last: ActionProgress, errLine: ActionProgress, now: int)
    returns (steps: seq<Step>, end: System)
    requires s.main.Selecting? && s.updater.Done?
    ensures RunsTo(s, steps, end)
    ensures var j := s.updater.job;
            end == s.(main := Reporting(j, CheckCache), updater := Resting,
                      t := Completion(s.t, j.id, err, last, errLine, now).0)
  {
    var s1 := After(s, Receive);
    Begin(s, Receive);
    var more;
    more, end := ResultIsStored(s1, err, last, now);
    JoinRuns(s, [Receive], s1, more, end);
    steps := [Receive] + more;
    if err != "" {
      RunSnoc(s, steps, end, Report(errLine));
      steps, end := steps + [Report(errLine)], After(end, Report(errLine));
    }
  }

  lemma ResultIsStored(s: System, err: string, last: ActionProgress, now: int) returns (steps: seq<Step>, end: System)
    requires s.main.Completing?
    ensures RunsTo(s, steps, end)
    ensures end == s.(main := Reporting(s.main.job, CheckCache),
                      t := Apply(Apply(s.t, Progress(last)), Complete(s.main.job.id, err, now)))
  {
    var s1 := After(s, Report(last));
    Begin(s, Report(last));
    RunSnoc(s, [Report(last)], s1, CompleteRow(err, now));
    steps, end := [Report(last)] + [CompleteRow(err, now)], After(s1, CompleteRow(err, now));
  }

  lemma LockIsReleased(s: System) returns (steps: seq<Step>, end: System)
    requires s.main.ClearingCurrent?
    ensures RunsTo(s, steps, end)
    ensures end == s.(main := Selecting, q := CurrentCleared(s.q, s.main.job.id).(inProgress := false))
  {
    var s1 := After(s, ClearCurrent);
    Begin(s, ClearCurrent);
    RunSnoc(s, [ClearCurrent], s1, Unlock);
    steps, end := [ClearCurrent] + [Unlock], After(s1, Unlock);
  }
}
