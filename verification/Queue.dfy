/** The job queue shared by the main loop and the request threads (syncQueue and
    its methods in pkg/dogeboxd.go). Each method runs under `jobQLock`, so it is
    one atomic step for the other threads. */
module Queue {
  import opened Wrappers
  import opened Events

  /** The value of a `SyncQueue`; `current` is "" when no job is with the updater. */
  datatype QueueState = QueueState(jobs: seq<Job>, nonQueued: set<JobId>, current: JobId, inProgress: bool) {

    /** GetRuntimeJobIDs */
    ghost function Runtime(): set<JobId> {
      (if current != "" then {current} else {}) + IdSet(jobs) + nonQueued
    }
  }

  ghost function IdSet(jobs: seq<Job>): set<JobId> {
    set j | j in jobs :: j.id
  }

  ghost function Elements(ids: seq<JobId>): set<JobId> {
    set id | id in ids
  }

  lemma ElementsSnoc(ids: seq<JobId>, id: JobId)
    ensures Elements(ids + [id]) == Elements(ids) + {id}
  {}

  lemma IdSetSnoc(jobs: seq<Job>, j: Job)
    ensures IdSet(jobs + [j]) == IdSet(jobs) + {j.id}
  {
    assert forall k :: k in jobs + [j] <==> k in jobs || k == j;
  }

  ghost predicate DistinctIds(jobs: seq<Job>) {
    forall i, j :: 0 <= i < j < |jobs| ==> jobs[i].id != jobs[j].id
  }

  /** The position of the first job with this id, or the length. */
  function IndexOf(jobs: seq<Job>, id: JobId): (i: nat)
    ensures i <= |jobs|
    ensures i < |jobs| ==> jobs[i].id == id
    ensures forall k :: 0 <= k < i ==> jobs[k].id != id
  {
    if jobs == [] || jobs[0].id == id then 0 else 1 + IndexOf(jobs[1..], id)
  }

  ghost predicate IsFirst(jobs: seq<Job>, id: JobId, k: int) {
    0 <= k < |jobs| && jobs[k].id == id && forall i :: 0 <= i < k ==> jobs[i].id != id
  }

  function Enqueued(q: QueueState, j: Job): QueueState {
    q.(jobs := q.jobs + [j], nonQueued := q.nonQueued - {j.id})
  }

  function CanPump(q: QueueState): bool {
    !q.inProgress && q.jobs != []
  }

  function Pumped(q: QueueState): QueueState
    requires CanPump(q)
  {
    q.(jobs := q.jobs[1..], current := q.jobs[0].id, inProgress := true)
  }

  function CurrentCleared(q: QueueState, id: JobId): QueueState {
    if q.current == id then q.(current := "") else q
  }

  function Removed(q: QueueState, id: JobId): QueueState {
    var i := IndexOf(q.jobs, id);
    if i == |q.jobs| then q else q.(jobs := q.jobs[..i] + q.jobs[i + 1..], nonQueued := q.nonQueued - {id})
  }

  predicate LastIsNixCache(jobs: seq<Job>) {
    jobs != [] && jobs[|jobs| - 1].action.UpdateNixCache?
  }

  class SyncQueue {
    var jobQueue: seq<Job>
    var nonQueuedActiveJobs: set<JobId>
    var currentSystemJobID: JobId
    var jobInProgress: bool

    ghost function State(): QueueState
      reads this
    {
      QueueState(jobQueue, nonQueuedActiveJobs, currentSystemJobID, jobInProgress)
    }

    constructor ()
      ensures State() == QueueState([], {}, "", false)
    {
      jobQueue, nonQueuedActiveJobs, currentSystemJobID, jobInProgress := [], {}, "", false;
    }

    /** Takes the first queued job for the updater unless one is in progress. */
    method PumpQueue() returns (job: Option<Job>)
      modifies this
      ensures job.Some? <==> CanPump(old(State()))
      ensures job.Some? ==> job.value == old(jobQueue)[0] && State() == Pumped(old(State()))
      ensures job.Some? <==> !old(jobInProgress) && old(jobQueue) != []
      ensures job.Some? ==> jobQueue == old(jobQueue)[1..] && currentSystemJobID == job.value.id && jobInProgress
      ensures job.None? ==> State() == old(State())
    {
      if jobInProgress {
        return None;
      }
      jobInProgress := true;
      if |jobQueue| > 0 {
        job := Some(jobQueue[0]);
        jobQueue := jobQueue[1..];
        currentSystemJobID := job.value.id;
      } else {
        job := None;
        jobInProgress := false;
      }
    }

    method Enqueue(j: Job)
      modifies this
      ensures State() == Enqueued(old(State()), j)
      ensures jobQueue == old(jobQueue) + [j] && nonQueuedActiveJobs == old(nonQueuedActiveJobs) - {j.id}
    {
      nonQueuedActiveJobs := nonQueuedActiveJobs - {j.id};
      jobQueue := jobQueue + [j];
    }

    method MarkNonQueuedActiveJob(jobID: JobId)
      modifies this`nonQueuedActiveJobs
      ensures nonQueuedActiveJobs == old(nonQueuedActiveJobs) + {jobID}
    {
      nonQueuedActiveJobs := nonQueuedActiveJobs + {jobID};
    }

    method ClearNonQueuedActiveJob(jobID: JobId)
      modifies this`nonQueuedActiveJobs
      ensures nonQueuedActiveJobs == old(nonQueuedActiveJobs) - {jobID}
    {
      nonQueuedActiveJobs := nonQueuedActiveJobs - {jobID};
    }

    method ClearCurrentSystemJobID(jobID: JobId)
      modifies this
      ensures State() == CurrentCleared(old(State()), jobID)
      ensures currentSystemJobID == if old(currentSystemJobID) == jobID then "" else old(currentSystemJobID)
    {
      if currentSystemJobID == jobID {
        currentSystemJobID := "";
      }
    }

    method GetRuntimeJobIDs() returns (ids: seq<JobId>)
      ensures Elements(ids) == State().Runtime()
    {
      ids := [];
      if currentSystemJobID != "" {
        ids := ids + [currentSystemJobID];
      }
      for i := 0 to |jobQueue|
        invariant Elements(ids) == State().(jobs := jobQueue[..i], nonQueued := {}).Runtime()
      {
        assert jobQueue[..i + 1] == jobQueue[..i] + [jobQueue[i]];
        IdSetSnoc(jobQueue[..i], jobQueue[i]);
        ElementsSnoc(ids, jobQueue[i].id);
        ids := ids + [jobQueue[i].id];
      }
      assert jobQueue[..|jobQueue|] == jobQueue;
      ids := AppendEach(ids, nonQueuedActiveJobs);
    }

    /** The ForEach over the set of non-queued jobs. */
    static method AppendEach(ids: seq<JobId>, more: set<JobId>) returns (all: seq<JobId>)
      ensures Elements(all) == Elements(ids) + more
    {
      all := ids;
      var rest := more;
      while rest != {}
        invariant rest <= more
        invariant Elements(all) == Elements(ids) + (more - rest)
        decreases |rest|
      {
        var id :| id in rest;
        rest := rest - {id};
        ElementsSnoc(all, id);
        all := all + [id];
      }
    }

    method RemoveFromQueue(jobID: JobId) returns (found: bool)
      modifies this
      ensures found <==> jobID in IdSet(old(jobQueue))
      ensures State() == Removed(old(State()), jobID)
      ensures found ==> nonQueuedActiveJobs == old(nonQueuedActiveJobs) - {jobID}
      ensures found ==> exists k :: IsFirst(old(jobQueue), jobID, k)
                                    && jobQueue == old(jobQueue)[..k] + old(jobQueue)[k + 1..]
      ensures !found ==> State() == old(State())
    {
      var i := 0;
      while i < |jobQueue|
        invariant 0 <= i <= |jobQueue|
        invariant State() == old(State())
        invariant forall k :: 0 <= k < i ==> jobQueue[k].id != jobID
      {
        if jobQueue[i].id == jobID {
          assert i == IndexOf(jobQueue, jobID);
          assert jobQueue[i] in jobQueue && IsFirst(jobQueue, jobID, i);
          jobQueue := jobQueue[..i] + jobQueue[i + 1..];
          nonQueuedActiveJobs := nonQueuedActiveJobs - {jobID};
          return true;
        }
        i := i + 1;
      }
      return false;
    }

    method ShouldSkipQueuedNixCacheJob() returns (skip: bool)
      ensures skip <==> LastIsNixCache(jobQueue)
    {
      if |jobQueue| == 0 {
        return false;
      }
      var lastQueued := jobQueue[|jobQueue| - 1];
      return lastQueued.action.UpdateNixCache?;
    }
  }

  // ------------------------------------------------------------------
  // Adjacent nix-cache jobs
  // ------------------------------------------------------------------

  ghost predicate NixAt(jobs: seq<Job>, i: int) {
    0 <= i < |jobs| && jobs[i].action.UpdateNixCache?
  }

  ghost predicate NoAdjacentNix(jobs: seq<Job>) {
    forall i :: NixAt(jobs, i) ==> !NixAt(jobs, i + 1)
  }

  lemma PopKeepsNoAdjacentNix(jobs: seq<Job>)
    requires jobs != [] && NoAdjacentNix(jobs)
    ensures NoAdjacentNix(jobs[1..])
    ensures LastIsNixCache(jobs[1..]) ==> LastIsNixCache(jobs)
  {
    forall i | NixAt(jobs[1..], i)
      ensures !NixAt(jobs[1..], i + 1)
    {
      assert NixAt(jobs, i + 1);
      assert !NixAt(jobs, i + 2);
    }
  }

  lemma AppendKeepsNoAdjacentNix(jobs: seq<Job>, j: Job)
    requires NoAdjacentNix(jobs)
    ensures NoAdjacentNix(jobs + [j]) <==> !(j.action.UpdateNixCache? && LastIsNixCache(jobs))
  {
    var all := jobs + [j];
    if j.action.UpdateNixCache? && LastIsNixCache(jobs) {
      assert NixAt(all, |jobs| - 1) && NixAt(all, |jobs| - 1 + 1);
    } else {
      forall i | NixAt(all, i)
        ensures !NixAt(all, i + 1)
      {
        if i + 1 < |jobs| {
          assert NixAt(jobs, i) && !NixAt(jobs, i + 1);
        }
      }
    }
  }

  /** Deleting a queued job brings two nix-cache jobs together exactly when it
      stood between two of them. */
  lemma RemovalKeepsNoAdjacentNix(jobs: seq<Job>, k: nat)
    requires NoAdjacentNix(jobs) && k < |jobs|
    ensures NoAdjacentNix(jobs[..k] + jobs[k + 1..]) <==> !(NixAt(jobs, k - 1) && NixAt(jobs, k + 1))
  {
    var left := jobs[..k] + jobs[k + 1..];
    forall i | 0 <= i < |left|
      ensures left[i] == jobs[if i < k then i else i + 1]
    {}
    if NixAt(jobs, k - 1) && NixAt(jobs, k + 1) {
      assert NixAt(left, k - 1) && NixAt(left, k - 1 + 1);
    } else {
      forall i | NixAt(left, i)
        ensures !NixAt(left, i + 1)
      {
        var at := if i < k then i else i + 1;
        assert NixAt(jobs, at) && !NixAt(jobs, at + 1);
      }
    }
  }
}
