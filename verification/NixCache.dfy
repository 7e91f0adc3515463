/** Nix-cache jobs in the pipeline: what the skip test loses, and when two of them
    can stand next to each other in the queue (pkg/dogeboxd.go, deleteJob in
    pkg/web/jobs.go). */
module NixCache {
  import opened Events
  import opened Jobs
  import opened Queue
  import opened Pipeline

  // ------------------------------------------------------------------
  // Skipped nix-cache jobs
  // ------------------------------------------------------------------

  lemma {:induction false} RunGrows(s: System, steps: seq<Step>, end: System)
    requires RunsTo(s, steps, end)
    ensures s.enqueued <= end.enqueued && s.removed <= end.removed
    decreases |steps|
  {
    if steps != [] {
      StepGrows(s, steps[0]);
      RunGrows(After(s, steps[0]), steps[1..], end);
    }
  }

  lemma StepGrows(s: System, step: Step)
    requires Enabled(s, step)
    ensures s.enqueued <= After(s, step).enqueued && s.removed <= After(s, step).removed
  {
    if Outside(step) {
      OutsideKeepsQueue(s, step);
    }
  }

  lemma {:induction false} KeptConcat(a: seq<Job>, b: seq<Job>, removed: set<JobId>)
    ensures Kept(a + b, removed) == Kept(a, removed) + Kept(b, removed)
  {
    if b == [] {
      assert a + b == a && Kept(a, removed) + [] == Kept(a, removed);
    } else {
      var front, j := b[..|b| - 1], b[|b| - 1];
      KeptConcat(a, front, removed);
      KeptSnoc(front, j, removed);
      KeptSnoc(a + front, j, removed);
      Regroup(a, front, [j]);
      assert b == front + [j];
      Regroup(Kept(a, removed), Kept(front, removed), if j.id in removed then [] else [j]);
    }
  }

  /** When an incoming nix-cache job is dropped, the one at the end of the queue
      covers it: at any later time, unless that one was deleted, it comes in the
      hand-over order after every undeleted job enqueued before the drop. */
  lemma SkippedNixJobIsCovered(s: System, job: Job, steps: seq<Step>, end: System)
    requires Reachable(s) && Enabled(s, SkipNixCache(job)) && RunsTo(s, steps, end)
    ensures var cover := s.q.jobs[|s.q.jobs| - 1];
            var before := Kept(s.enqueued, end.removed);
            && cover.action.UpdateNixCache?
            && (cover.id !in end.removed ==>
                  && before != [] && before[|before| - 1] == cover
                  && before <= end.handed + end.q.jobs)
  {
    SkipOrder(s, steps, end);
    var cover := s.q.jobs[|s.q.jobs| - 1];
    if cover.id !in end.removed {
      KeptPrefix(s.enqueued, end.enqueued, end.removed);
      assert (s.handed + s.q.jobs)[|s.handed + s.q.jobs| - 1] == cover;
      CoverIsLast(s.enqueued, s.removed, end.removed, s.handed + s.q.jobs);
    }
  }

  lemma SkipOrder(s: System, steps: seq<Step>, end: System)
    requires Reachable(s) && RunsTo(s, steps, end)
    ensures s.handed + s.q.jobs == Kept(s.enqueued, s.removed)
    ensures end.handed + end.q.jobs == Kept(end.enqueued, end.removed)
    ensures s.enqueued <= end.enqueued && s.removed <= end.removed
  {
    ReachableHasInv(s);
    RunKeepsInv(s, steps, end);
    RunGrows(s, steps, end);
  }

  lemma KeptPrefix(a: seq<Job>, b: seq<Job>, removed: set<JobId>)
    requires a <= b
    ensures Kept(a, removed) <= Kept(b, removed)
  {
    assert b == a + b[|a|..];
    KeptConcat(a, b[|a|..], removed);
  }

  lemma CoverIsLast(enqueued: seq<Job>, removed: set<JobId>, later: set<JobId>, kept: seq<Job>)
    requires kept == Kept(enqueued, removed) && kept != [] && removed <= later
    requires kept[|kept| - 1].id !in later
    ensures var before := Kept(enqueued, later);
            before != [] && before[|before| - 1] == kept[|kept| - 1]
  {
    assert removed + later == later;
    KeptTwice(enqueued, removed, later);
  }

  // ------------------------------------------------------------------
  // Adjacent nix-cache jobs
  // ------------------------------------------------------------------

  /** Jobs that passed the skip test and may still be appended to the queue. */
  ghost function ToEnqueue(m: MainLoop): seq<Job> {
    match m
    case Taken(rest) => rest
    case Marked(j, rest) => [j] + rest
    case Dispatching(j, rest) => [j] + rest
    case Finishing(_, rest, _) => rest
    case _ => []
  }

  ghost predicate HoldsNix(m: MainLoop) {
    exists j <- ToEnqueue(m) :: j.action.UpdateNixCache?
  }

  /** No two adjacent nix-cache jobs, and none about to be appended to another. */
  ghost predicate NixInv(s: System) {
    && NoAdjacentNix(s.q.jobs)
    && (HoldsNix(s.main) ==> |ToEnqueue(s.main)| == 1 && !LastIsNixCache(s.q.jobs))
  }

  lemma InitHasNixInv(s: System)
    requires Init(s)
    ensures NixInv(s)
  {}

  lemma StepKeepsNixInv(s: System, step: Step)
    requires NixInv(s) && Enabled(s, step) && !step.DeleteFromQueue?
    ensures NixInv(After(s, step))
  {
    if Outside(step) {
      OutsideKeepsQueue(s, step);
    } else if step.EnqueueJob? {
      NixEnqueue(s, step);
    } else if step.Pump? {
      PopKeepsNoAdjacentNix(s.q.jobs);
    } else if step.Take? {
      NixTake(s, step);
    } else {
      NixHeld(s, step);
    }
  }

  lemma NixEnqueue(s: System, step: Step)
    requires NixInv(s) && Enabled(s, step) && step.EnqueueJob?
    ensures NixInv(After(s, step))
  {
    assert s.main.job in ToEnqueue(s.main);
    assert forall j <- s.main.rest :: j in ToEnqueue(s.main);
    AppendKeepsNoAdjacentNix(s.q.jobs, s.main.job);
  }

  lemma NixTake(s: System, step: Step)
    requires NixInv(s) && Enabled(s, step) && step.Take?
    ensures NixInv(After(s, step))
  {}

  lemma NixHeld(s: System, step: Step)
    requires NixInv(s) && Enabled(s, step) && !Outside(step)
    requires !(step.EnqueueJob? || step.Pump? || step.Take? || step.DeleteFromQueue?)
    ensures NixInv(After(s, step))
  {
    var s' := After(s, step);
    assert s'.q.jobs == s.q.jobs;
    assert ToEnqueue(s'.main) == ToEnqueue(s.main)
           || (ToEnqueue(s.main) != [] && ToEnqueue(s'.main) == ToEnqueue(s.main)[1..]);
  }

  /** The job this deletion takes out of the queue does not stand between two
      nix-cache jobs, nor last behind one while the main loop holds another. */
  ghost predicate SafeDeletion(s: System, del: nat)
    requires del in s.deletions
  {
    var jobs, k := s.q.jobs, IndexOf(s.q.jobs, s.deletions[del].id);
    k < |jobs| && NixAt(jobs, k - 1) ==> !NixAt(jobs, k + 1) && !(k + 1 == |jobs| && HoldsNix(s.main))
  }

  /** A deletion keeps nix-cache jobs apart exactly when it is safe. */
  lemma DeletionKeepsNixInv(s: System, step: Step)
    requires NixInv(s) && Enabled(s, step) && step.DeleteFromQueue?
    ensures NixInv(After(s, step)) <==> SafeDeletion(s, step.del)
  {
    var jobs, id := s.q.jobs, s.deletions[step.del].id;
    var k := IndexOf(jobs, id);
    IndexFound(jobs, id);
    if k < |jobs| {
      RemovalKeepsNoAdjacentNix(jobs, k);
      LastAfterRemoval(jobs, k);
    }
  }

  lemma LastAfterRemoval(jobs: seq<Job>, k: nat)
    requires k < |jobs|
    ensures LastIsNixCache(jobs[..k] + jobs[k + 1..]) <==>
            if k + 1 == |jobs| then NixAt(jobs, k - 1) else LastIsNixCache(jobs)
  {
    var left := jobs[..k] + jobs[k + 1..];
    if left != [] {
      assert left[|left| - 1] == if k + 1 == |jobs| then jobs[k - 1] else jobs[|jobs| - 1];
    }
  }

  /** An unsafe one does bring two together, at once or when the main loop goes on. */
  lemma UnsafeDeletionJoins(s: System, step: Step) returns (steps: seq<Step>, end: System)
    requires NixInv(s) && Enabled(s, step) && step.DeleteFromQueue? && !SafeDeletion(s, step.del)
    ensures RunsTo(After(s, step), steps, end) && !NoAdjacentNix(end.q.jobs)
    ensures forall x <- steps :: Advances(x)
  {
    DeletionKeepsNixInv(s, step);
    var s' := After(s, step);
    if NoAdjacentNix(s'.q.jobs) {
      steps, end := EnqueueHeld(s');
    } else {
      steps, end := [], s';
    }
  }

  lemma TowardsQueue(s: System) returns (step: Step)
    requires HoldsNix(s.main) && |ToEnqueue(s.main)| == 1 && !s.main.Dispatching?
    ensures Enabled(s, step) && Advances(step)
    ensures var s' := After(s, step);
            s'.q.jobs == s.q.jobs && ToEnqueue(s'.main) == ToEnqueue(s.main) && MainWork(s'.main) < MainWork(s.main)
  {
    step := if s.main.Taken? then Mark else if s.main.Marked? then CreateRow("") else FinishStep(s.main.stage);
  }

  /** The main loop appends the one nix-cache job it holds behind another. */
  lemma EnqueueHeld(s: System) returns (steps: seq<Step>, end: System)
    requires NoAdjacentNix(s.q.jobs) && HoldsNix(s.main) && |ToEnqueue(s.main)| == 1 && LastIsNixCache(s.q.jobs)
    ensures RunsTo(s, steps, end) && !NoAdjacentNix(end.q.jobs)
    ensures forall x <- steps :: Advances(x)
    decreases MainWork(s.main)
  {
    if s.main.Dispatching? {
      end := After(s, EnqueueJob);
      steps := [EnqueueJob];
      AppendKeepsNoAdjacentNix(s.q.jobs, s.main.job);
    } else {
      var step := TowardsQueue(s);
      var more;
      more, end := EnqueueHeld(After(s, step));
      steps := [step] + more;
    }
  }

  // ------------------------------------------------------------------
  // Two unsafe deletions
  // ------------------------------------------------------------------

  lemma Onward(s: System, step: Step) returns (s': System)
    requires Reachable(s) && Enabled(s, step)
    ensures s' == After(s, step) && Reachable(s')
  {
    var start, steps :| Init(start) && RunsTo(start, steps, s);
    RunSnoc(start, steps, s, step);
    s' := After(s, step);
  }

  /** The main loop takes a job that is queued later, up to its row. */
  lemma HoldFresh(s: System, j: Job) returns (s': System)
    requires Reachable(s) && s.main.Selecting? && Unseen(s, j) && Dispatch(j.action).ToUpdater?
    requires !(j.action.UpdateNixCache? && LastIsNixCache(s.q.jobs))
    ensures Reachable(s') && s'.main == Dispatching(j, []) && Holds(s, s', j) && s'.q.jobs == s.q.jobs
  {
    var s1 := TakeFresh(s, j);
    var s2 := MarkFresh(s1, j);
    s' := Onward(s2, CreateRow(""));
  }

  lemma MarkFresh(s: System, j: Job) returns (s': System)
    requires Reachable(s) && s.main == Taken([j]) && Dispatch(j.action).ToUpdater?
    ensures Reachable(s') && s' == s.(main := Marked(j, []), q := s.q.(nonQueued := s.q.nonQueued + {j.id}))
  {
    QueuedActionsAreAnswered(j.action);
    assert [j][1..] == [];
    s' := Onward(s, Mark);
  }

  /** Deletions are where they were, and the job has its row. */
  ghost predicate Holds(s: System, s': System, j: Job) {
    && s'.deletions == s.deletions && s'.t.cache == s.t.cache[j.id := NewRecord(j, "")]
    && s'.created == s.created + {j.id} && s'.rowed == s.rowed + {j.id}
  }

  lemma TakeFresh(s: System, j: Job) returns (s': System)
    requires Reachable(s) && s.main.Selecting? && Unseen(s, j) && Dispatch(j.action).ToUpdater?
    requires !(j.action.UpdateNixCache? && LastIsNixCache(s.q.jobs))
    ensures Reachable(s') && s' == s.(main := Taken([j]), created := s.created + {j.id})
  {
    assert j in [j] && IdSet([j]) == {j.id};
    s' := Onward(s, Take(j, []));
  }

  lemma EnqueueFresh(s: System, j: Job) returns (s': System)
    requires Reachable(s) && s.main.Selecting? && Unseen(s, j) && Dispatch(j.action).ToUpdater?
    requires !(j.action.UpdateNixCache? && LastIsNixCache(s.q.jobs))
    ensures Reachable(s') && s'.main.Selecting? && Holds(s, s', j) && s'.q.jobs == s.q.jobs + [j]
  {
    var s1 := HoldFresh(s, j);
    s' := Onward(s1, EnqueueJob);
  }

  /** A deletion of a queued job gets as far as the queue. */
  lemma DeletionReachesQueue(s: System, id: JobId) returns (s': System)
    requires Reachable(s) && s.deletions == map[] && id in IdSet(s.q.jobs) && HasQueuedRow(s, id)
    ensures Reachable(s') && s' == s.(deletions := map[0 := SeenInRuntime(id)])
  {
    var s1 := Onward(s, DeleteCheck(0, id));
    SeenIn(s1, id);
    s' := Onward(s1, DeleteSeen(0));
  }

  lemma SeenIn(s: System, id: JobId)
    requires s.deletions == map[0 := StatusChecked(id)] && id in IdSet(s.q.jobs)
    ensures Enabled(s, DeleteSeen(0)) && After(s, DeleteSeen(0)) == s.(deletions := map[0 := SeenInRuntime(id)])
  {
    assert id in s.q.Runtime();
  }

  ghost predicate HasQueuedRow(s: System, id: JobId) {
    id in s.t.cache && s.t.cache[id].status == Queued
  }

  /** Three jobs, not seen before, of which the first and the third are nix-cache jobs. */
  ghost predicate NixTwice(s: System, a: Job, x: Job, b: Job) {
    && Init(s) && Unseen(s, a) && Unseen(s, x) && Unseen(s, b)
    && a.id != x.id && x.id != b.id && a.id != b.id
    && a.action.UpdateNixCache? && b.action.UpdateNixCache? && x.action.UpdateTimezone?
  }

  ghost predicate Unseen(s: System, j: Job) {
    j.id != "" && j.id !in s.created && j.id !in s.rowed
  }

  lemma InitIsReachable(s: System)
    requires Init(s)
    ensures Reachable(s)
  {
    assert RunsTo(s, [], s);
  }

  lemma FirstTwoQueued(s: System, a: Job, x: Job, b: Job) returns (s': System)
    requires NixTwice(s, a, x, b)
    ensures Reachable(s') && s'.main.Selecting? && s'.q.jobs == [a, x] && s'.deletions == map[]
    ensures HasQueuedRow(s', x.id) && Unseen(s', b)
  {
    InitIsReachable(s);
    var s1 := EnqueueFresh(s, a);
    s' := EnqueueFresh(s1, x);
    assert [] + [a] + [x] == [a, x];
  }

  lemma InThree(a: Job, x: Job, b: Job)
    ensures x.id in IdSet([a, x]) && x.id in IdSet([a, x, b])
    ensures !LastIsNixCache([a, x]) || x.action.UpdateNixCache?
  {
    assert [a, x][1] in [a, x] && [a, x, b][1] in [a, x, b];
  }

  /** From every start a run leads to a deletion of the job between two nix-cache jobs. */
  lemma DeletionCanJoinQueuedNixJobs(s: System, a: Job, x: Job, b: Job) returns (busy: System)
    requires NixTwice(s, a, x, b)
    ensures Reachable(busy) && Enabled(busy, DeleteFromQueue(0)) && busy.deletions[0].id == x.id
    ensures busy.q.jobs == [a, x, b] && !SafeDeletion(busy, 0)
  {
    var s3 := ThreeQueued(s, a, x, b);
    InThree(a, x, b);
    busy := DeletionReachesQueue(s3, x.id);
    MiddleIs(a, x, b);
  }

  lemma ThreeQueued(s: System, a: Job, x: Job, b: Job) returns (s': System)
    requires NixTwice(s, a, x, b)
    ensures Reachable(s') && s'.q.jobs == [a, x, b] && s'.deletions == map[] && HasQueuedRow(s', x.id)
  {
    var s2 := FirstTwoQueued(s, a, x, b);
    InThree(a, x, b);
    s' := EnqueueFresh(s2, b);
    assert [a, x] + [b] == [a, x, b];
  }

  lemma MiddleIs(a: Job, x: Job, b: Job)
    requires a.id != x.id && a.action.UpdateNixCache? && b.action.UpdateNixCache?
    ensures IndexOf([a, x, b], x.id) == IndexOf([a, x], x.id) == 1
    ensures NixAt([a, x, b], 0) && NixAt([a, x, b], 2) && NixAt([a, x], 0) && !NixAt([a, x], 2)
  {
    assert [a, x, b][1..] == [x, b] && [a, x][1..] == [x];
  }

  /** And another one to a deletion of the last queued job while the main loop, which
      looked at the queue when that job was there, holds a nix-cache job: the job
      deleted need not stand between two of them. */
  lemma DeletionCanJoinHeldNixJob(s: System, a: Job, x: Job, b: Job) returns (busy: System)
    requires NixTwice(s, a, x, b)
    ensures Reachable(busy) && Enabled(busy, DeleteFromQueue(0)) && busy.deletions[0].id == x.id
    ensures busy.q.jobs == [a, x] && busy.main == Dispatching(b, []) && !SafeDeletion(busy, 0)
  {
    var s2 := FirstTwoQueued(s, a, x, b);
    InThree(a, x, b);
    var s3 := DeletionReachesQueue(s2, x.id);
    busy := HoldFresh(s3, b);
    MiddleIs(a, x, b);
    HoldsOne(b);
  }

  lemma HoldsOne(b: Job)
    requires b.action.UpdateNixCache?
    ensures HoldsNix(Dispatching(b, []))
  {
    assert ToEnqueue(Dispatching(b, [])) == [b] && b in [b];
  }

  // ------------------------------------------------------------------
  // Runs
  // ------------------------------------------------------------------

  /** A run whose deletions are all safe where they happen. */
  ghost predicate SafeRun(s: System, steps: seq<Step>)
    decreases |steps|
  {
    steps == [] || (Enabled(s, steps[0]) && (steps[0].DeleteFromQueue? ==> SafeDeletion(s, steps[0].del)) &&
                    SafeRun(After(s, steps[0]), steps[1..]))
  }

  /** Over every run of every process, the queue holds no two adjacent nix-cache jobs
      as long as its deletions are safe; in particular without deletions. */
  lemma NixJobsStayApart(start: System, steps: seq<Step>, end: System)
    requires Init(start) && RunsTo(start, steps, end) && SafeRun(start, steps)
    ensures NixInv(end)
  {
    InitHasNixInv(start);
    SafeRunKeepsNixInv(start, steps, end);
  }

  lemma {:induction false} SafeRunKeepsNixInv(s: System, steps: seq<Step>, end: System)
    requires NixInv(s) && RunsTo(s, steps, end) && SafeRun(s, steps)
    ensures NixInv(end)
    decreases |steps|
  {
    if steps != [] {
      if steps[0].DeleteFromQueue? {
        DeletionKeepsNixInv(s, steps[0]);
      } else {
        StepKeepsNixInv(s, steps[0]);
      }
      SafeRunKeepsNixInv(After(s, steps[0]), steps[1..], end);
    }
  }
}
