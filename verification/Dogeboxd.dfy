/** The methods of Dogeboxd that work on both the queue and the job manager, each
    as it runs when no other thread interferes (pkg/dogeboxd.go, deleteJob in
    pkg/web/jobs.go). `Pipeline` interleaves their steps. */
module Dogeboxd {
  import opened Wrappers
  import opened Events
  import opened Jobs
  import opened Queue

  datatype DeleteReply = NotFound | Conflict | Deleted

  /** `t` with the active rows among `ids` marked as orphans. */
  ghost function OrphanSome(t: Tables, now: int, ids: set<JobId>): Tables {
    Tables(map id | id in t.store :: if id in ids && Active(t.store[id].status)
                                     then AsOrphan(t.store[id], now) else t.store[id],
           t.cache - (set id | id in t.store && id in ids && Active(t.store[id].status)))
  }

  ghost function Orphans(t: Tables, q: QueueState): set<JobId> {
    set id | id in t.store && Active(t.store[id].status) && id !in q.Runtime()
  }

  class Dogeboxd {
    const queue: SyncQueue
    const jobs: JobManager

    constructor (queue: SyncQueue, jobs: JobManager)
      ensures this.queue == queue && this.jobs == jobs
    {
      this.queue, this.jobs := queue, jobs;
    }

    method CreateTrackedJobRecord(j: Job, displayName: string) returns (record: Option<JobRecord>)
      modifies queue, jobs
      ensures record == if Tracked(j.action) then Some(NewRecord(j, displayName)) else None
      ensures Tracked(j.action) ==>
                && queue.State() == old(queue.State()).(nonQueued := old(queue.nonQueuedActiveJobs) + {j.id})
                && jobs.State() == Apply(old(jobs.State()), Create(NewRecord(j, displayName)))
      ensures !Tracked(j.action) ==> queue.State() == old(queue.State()) && jobs.State() == old(jobs.State())
    {
      if !Tracked(j.action) {
        return None;
      }
      queue.MarkNonQueuedActiveJob(j.id);
      var created := jobs.CreateJobRecord(j, displayName);
      return Some(created);
    }

    /** `errLine` is the progress report that logging the error produces. */
    method SendFinishedJob(j: Job, err: string, errLine: ActionProgress, now: int) returns (wasActive: bool)
      requires errLine.actionID == j.id
      modifies queue, jobs
      ensures queue.State() == old(queue.State()).(nonQueued := old(queue.nonQueuedActiveJobs) - {j.id})
      ensures var t := if err != "" then Apply(old(jobs.State()), Progress(errLine)) else old(jobs.State());
              && (wasActive <==> Tracked(j.action) && j.id in t.cache)
              && jobs.State() == if wasActive then Apply(t, Complete(j.id, err, now)) else t
    {
      if err != "" {
        var reported := jobs.UpdateJobProgress(errLine);
      }
      wasActive := false;
      if Tracked(j.action) {
        wasActive := jobs.IsJobActive(j.id);
        if wasActive {
          var completed := jobs.CompleteJob(j.id, err, now);
        }
      }
      queue.ClearNonQueuedActiveJob(j.id);
    }

    /** The completion branch of the main loop. */
    method CompleteUpdaterJob(j: Job, err: string, last: ActionProgress, errLine: ActionProgress, now: int)
      requires last.actionID == j.id == errLine.actionID
      modifies queue, jobs
      ensures queue.State() ==
              CurrentCleared(old(queue.State()), j.id).(nonQueued := old(queue.nonQueuedActiveJobs) - {j.id},
                                                        inProgress := false)
      ensures var (t, again) := Completion(old(jobs.State()), j.id, err, last, errLine, now);
              jobs.State() == if Tracked(j.action) && again then Apply(t, Complete(j.id, err, now)) else t
    {
      var reported := jobs.UpdateJobProgress(last);
      var completed := jobs.CompleteJob(j.id, err, now);
      var wasActive := SendFinishedJob(j, err, errLine, now);
      queue.ClearCurrentSystemJobID(j.id);
      queue.jobInProgress := false;
    }

    /** Undisturbed, a scan orphans exactly the active rows that the runtime does
        not know, and changes nothing else. */
    method DetectAndMarkOrphanedJobs(now: int) returns (orphaned: seq<JobId>)
      requires jobs.State().Valid()
      modifies jobs
      ensures jobs.State() == OrphanSome(old(jobs.State()), now, Orphans(old(jobs.State()), queue.State()))
      ensures Elements(orphaned) == Orphans(old(jobs.State()), queue.State())
    {
      var activeJobs := jobs.GetActiveJobs();
      var runtimeIDs := queue.GetRuntimeJobIDs();
      orphaned := [];
      ghost var t := jobs.State();
      assert t.cache - {} == t.cache;
      for i := 0 to |activeJobs|
        invariant Elements(orphaned) == IdsTo(activeJobs, i) - Elements(runtimeIDs)
        invariant jobs.State() == OrphanSome(t, now, Elements(orphaned))
      {
        IdsNext(activeJobs, t.store, i);
        orphaned := MarkUnlessKnown(activeJobs[i], runtimeIDs, now, orphaned, t);
        MinusNext(IdsTo(activeJobs, i), Elements(runtimeIDs), activeJobs[i].id);
      }
      UnknownActiveAreOrphans(t, queue.State(), Ids(activeJobs));
    }

    /** One turn of the scan's loop. */
    method MarkUnlessKnown(job: JobRecord, runtimeIDs: seq<JobId>, now: int, orphaned: seq<JobId>, ghost t: Tables)
      returns (more: seq<JobId>)
      requires t.Valid() && Listed(job, t.store) && job.id !in Elements(orphaned)
      requires jobs.State() == OrphanSome(t, now, Elements(orphaned))
      modifies jobs
      ensures Elements(more) == Elements(orphaned) + ({job.id} - Elements(runtimeIDs))
      ensures jobs.State() == OrphanSome(t, now, Elements(more))
    {
      more := orphaned;
      if job.id !in runtimeIDs {
        OrphanNext(t, now, Elements(orphaned), job.id);
        var marked := jobs.MarkJobOrphaned(job.id, now);
        ElementsSnoc(orphaned, job.id);
        more := orphaned + [job.id];
      }
    }

    method DeleteJob(jobID: JobId) returns (reply: DeleteReply)
      modifies queue, jobs
      ensures reply.NotFound? <==> old(jobs.State()).Lookup(jobID).None?
      ensures reply.Deleted? <==>
                && old(jobs.State()).Lookup(jobID).Some?
                && old(jobs.State()).Lookup(jobID).value.status == Queued
                && (jobID in old(queue.State()).Runtime() ==> jobID in IdSet(old(queue.jobQueue)))
      ensures reply.Deleted? ==>
                && jobs.State() == Apply(old(jobs.State()), Delete(jobID))
                && queue.State() == Removed(old(queue.State()), jobID)
      ensures !reply.Deleted? ==> jobs.State() == old(jobs.State()) && queue.State() == old(queue.State())
    {
      var job := jobs.GetJob(jobID);
      if job.Err? {
        return NotFound;
      }
      if job.value.status != Queued {
        return Conflict;
      }
      var runtimeIDs := queue.GetRuntimeJobIDs();
      assert jobID in queue.State().Runtime() <==> jobID in Elements(runtimeIDs);
      NotQueuedMeansUnchanged(queue.State(), jobID);
      if jobID in runtimeIDs {
        var removed := queue.RemoveFromQueue(jobID);
        if !removed {
          return Conflict;
        }
      }
      jobs.DeleteJob(jobID);
      return Deleted;
    }
  }

  lemma MinusNext(ids: set<JobId>, known: set<JobId>, id: JobId)
    ensures (ids + {id}) - known == (ids - known) + ({id} - known)
  {}

  lemma UnknownActiveAreOrphans(t: Tables, q: QueueState, active: set<JobId>)
    requires active == ActiveIds(t.store)
    ensures active - q.Runtime() == Orphans(t, q)
  {}

  lemma NotQueuedMeansUnchanged(q: QueueState, id: JobId)
    ensures id !in IdSet(q.jobs) ==> Removed(q, id) == q
  {
    var i := IndexOf(q.jobs, id);
    if i < |q.jobs| {
      assert q.jobs[i] in q.jobs;
    }
  }

  lemma OrphanNext(t: Tables, now: int, done: set<JobId>, id: JobId)
    requires t.Valid() && id in t.store && Active(t.store[id].status) && id !in done
    ensures Apply(OrphanSome(t, now, done), MarkOrphaned(id, now)) == OrphanSome(t, now, done + {id})
  {
    var s := OrphanSome(t, now, done);
    var e := OrphanSome(t, now, done + {id});
    assert s.Lookup(id) == Some(t.store[id]);
    assert e.store == s.store[id := AsOrphan(t.store[id], now)];
    assert e.cache == s.cache - {id};
  }
}
