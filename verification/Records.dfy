/** The rows that the operations of the job manager leave, field by field
    (pkg/jobs.go, and the completion branch of the main loop in pkg/dogeboxd.go). */
module Records {
  import opened Wrappers
  import opened Events
  import opened Jobs

  /** No row and no cached record of another job differs. */
  ghost predicate OnlyThisJob(t: Tables, t': Tables, id: JobId) {
    t'.store - {id} == t.store - {id} && t'.cache - {id} == t.cache - {id}
  }

  /** What a record keeps for ever. */
  ghost predicate SameJob(r: JobRecord, r': JobRecord) {
    && r'.id == r.id && r'.started == r.started && r'.displayName == r.displayName && r'.action == r.action
    && r'.targetVersion == r.targetVersion
  }

  // ------------------------------------------------------------------
  // One job
  // ------------------------------------------------------------------

  lemma PutTouchesOne(t: Tables, id: JobId, r: JobRecord)
    requires r.id == id
    ensures OnlyThisJob(t, Put(t, id, r), id) && OnlyThisJob(t, Retire(t, id, r), id)
  {
    assert t.store[id := r] - {id} == t.store - {id};
    assert t.cache[id := r] - {id} == t.cache - {id};
    assert t.cache - {id} - {id} == t.cache - {id};
  }

  /** A job completed with an error has failed, with that error and its progress as it
      was; without one it is completed, at 100. It leaves the cache. */
  lemma CompletionIsRecorded(t: Tables, id: JobId, err: string, now: int)
    requires t.Valid() && t.Lookup(id).Some?
    ensures var was, t' := t.Lookup(id).value, Apply(t, Complete(id, err, now));
            && id in t'.store && id !in t'.cache && OnlyThisJob(t, t', id)
            && var row := t'.store[id];
            && (row.status == Failed <==> err != "") && (row.status == Completed <==> err == "")
            && row.finished == Some(now)
            && (err != "" ==> row.error == err && row.progress == was.progress && row.summary == "Job failed")
            && (err == "" ==> row.error == was.error && row.progress == 100
                              && row.summary == "Job completed successfully")
            && SameJob(was, row) && row.pupID == was.pupID
  {
    PutTouchesOne(t, id, Finish(t.Lookup(id).value, err, now));
  }

  /** A report moves an active job to in progress and leaves a finished one finished; a
      progress above 0 counts, a pup is named once, an error sticks until the next. */
  lemma ReportIsRecorded(t: Tables, ap: ActionProgress)
    requires t.Valid() && t.Lookup(ap.actionID).Some?
    ensures var id, t' := ap.actionID, Apply(t, Progress(ap));
            var was := t.Lookup(id).value;
            && id in t'.store && id in t'.cache && t'.cache[id] == t'.store[id] && OnlyThisJob(t, t', id)
            && var row := t'.store[id];
            && (Active(was.status) ==> row.status == InProgress) && (!Active(was.status) ==> row.status == was.status)
            && (ap.progress > 0 ==> row.progress == ap.progress)
            && (ap.progress <= 0 ==> row.progress == was.progress)
            && (was.pupID != "" ==> row.pupID == was.pupID) && (was.pupID == "" ==> row.pupID == ap.pupID)
            && row.summary == ap.msg && (ap.error ==> row.error == ap.msg) && (!ap.error ==> row.error == was.error)
            && row.finished == was.finished && SameJob(was, row)
  {
    PutTouchesOne(t, ap.actionID, WithProgress(t.Lookup(ap.actionID).value, ap));
  }

  /** An active job that is marked has ended as an orphan; any other job stays as it
      is. */
  lemma OrphanIsRecorded(t: Tables, id: JobId, now: int)
    requires t.Valid() && t.Lookup(id).Some?
    ensures var was, t' := t.Lookup(id).value, Apply(t, MarkOrphaned(id, now));
            && (was.status != Queued && was.status != InProgress ==> t' == t)
            && (was.status == Queued || was.status == InProgress ==>
                  && id in t'.store && id !in t'.cache && OnlyThisJob(t, t', id)
                  && var row := t'.store[id];
                  && row.status == Orphaned && row.finished == Some(now)
                  && row.summary == "Job marked as orphaned" && row.error == "Job is no longer being processed"
                  && SameJob(was, row) && row.pupID == was.pupID && row.progress == was.progress)
  {
    PutTouchesOne(t, id, AsOrphan(t.Lookup(id).value, now));
  }

  /** A new record is queued and cached, with the target of a system update. */
  lemma CreationIsRecorded(t: Tables, j: Job, displayName: string)
    ensures var t' := Apply(t, Create(NewRecord(j, displayName)));
            && j.id in t'.store && j.id in t'.cache && t'.cache[j.id] == t'.store[j.id] && OnlyThisJob(t, t', j.id)
            && var row := t'.store[j.id];
            && row.id == j.id && row.started == j.start && row.status == Queued && row.finished == None
            && row.progress == 0 && row.displayName == displayName && row.action == ActionName(j.action)
            && row.summary == "Job queued" && row.error == "" && row.pupID == PupOf(j.action)
            && (j.action.SystemUpdate? ==> row.targetVersion == j.action.version)
            && (!j.action.SystemUpdate? ==> row.targetVersion == "")
  {
    PutTouchesOne(t, j.id, NewRecord(j, displayName));
  }

  lemma NamingIsRecorded(t: Tables, id: JobId, pupID: PupId)
    requires t.Valid() && t.Lookup(id).Some?
    ensures var was, t' := t.Lookup(id).value, Apply(t, SetPupID(id, pupID));
            && id in t'.store && id in t'.cache && t'.cache[id] == t'.store[id] && OnlyThisJob(t, t', id)
            && t'.store[id].pupID == pupID && t'.store[id] == was.(pupID := pupID)
  {
    PutTouchesOne(t, id, t.Lookup(id).value.(pupID := pupID));
  }

  lemma DeletionIsRecorded(t: Tables, id: JobId)
    ensures var t' := Apply(t, Delete(id));
            id !in t'.store && id !in t'.cache && OnlyThisJob(t, t', id)
  {
    assert t.store - {id} - {id} == t.store - {id} && t.cache - {id} - {id} == t.cache - {id};
  }

  /** An operation on a job that is neither cached nor stored changes nothing. */
  lemma UnknownJobChangesNothing(t: Tables, id: JobId, ap: ActionProgress, pupID: PupId, err: string, now: int)
    requires t.Lookup(id).None? && ap.actionID == id
    ensures t == Apply(t, Progress(ap)) == Apply(t, SetPupID(id, pupID)) == Apply(t, Complete(id, err, now))
              == Apply(t, MarkOrphaned(id, now)) == Apply(t, Delete(id))
  {
    assert t.store - {id} == t.store && t.cache - {id} == t.cache;
  }

  // ------------------------------------------------------------------
  // All jobs
  // ------------------------------------------------------------------

  /** Exactly the rows that ended before the cutoff go; the cache stays. */
  lemma ClearingKeepsTheRest(t: Tables, cutoff: int)
    requires t.Valid()
    ensures var t' := Apply(t, ClearCompleted(cutoff));
            && t'.cache == t.cache
            && (forall id :: id in t'.store <==>
                  id in t.store && (t.store[id].finished.None? || t.store[id].finished.value >= cutoff))
            && (forall id <- t'.store :: t'.store[id] == t.store[id])
  {
    forall id | id in t.store
      ensures Active(t.store[id].status) <==> t.store[id].finished.None?
    {
      assert Consistent(t.store[id]);
    }
  }

  /** Exactly the jobs queued or in progress that started before the cutoff fail, and
      leave the cache. */
  lemma StuckJobsFail(t: Tables, now: int, cutoff: int)
    requires t.Valid()
    ensures var t' := Apply(t, ClearOrphaned(now, cutoff));
            && t'.store.Keys == t.store.Keys
            && forall id <- t.store ::
                 var was, row := t.store[id], t'.store[id];
                 if (was.status == Queued || was.status == InProgress) && was.started < cutoff then
                   && row.status == Failed && row.finished == Some(now) && id !in t'.cache
                   && row.error == "Job was orphaned (stuck in queue)" && SameJob(was, row)
                   && row.progress == was.progress && row.pupID == was.pupID && row.summary == was.summary
                 else row == was && (id in t.cache ==> id in t'.cache && t'.cache[id] == t.cache[id])
  {
    var t' := Apply(t, ClearOrphaned(now, cutoff));
    forall id | id in t.store
      ensures t'.store[id] == if Stuck(t.store[id], cutoff) then AsStuck(t.store[id], now) else t.store[id]
      ensures id in t'.cache <==> id in t.cache && !Stuck(t.store[id], cutoff)
    {}
  }

  // ------------------------------------------------------------------
  // Interrupted system updates
  // ------------------------------------------------------------------

  /** `c` is white space, by its code point. */
  predicate WhiteSpace(c: char) {
    var n := c as int;
    || 9 <= n <= 13 || n == 32 || n == 0x85 || n == 0xA0 || n == 0x1680 || 0x2000 <= n <= 0x200A
    || n == 0x2028 || n == 0x2029 || n == 0x202F || n == 0x205F || n == 0x3000
  }

  lemma SpacesByCode(c: char)
    ensures IsSpace(c) <==> WhiteSpace(c)
  {
    var others := " \t\n\r\U{0B}\U{0C}\U{85}\U{A0}\U{1680}\U{2028}\U{2029}\U{202F}\U{205F}\U{3000}";
    forall i | 0 <= i < |others|
      ensures WhiteSpace(others[i])
    {}
    if 9 <= c as int <= 13 || c as int == 32 {
      assert c == others[0] || c == others[1] || c == others[2] || c == others[3] || c == others[4] || c == others[5];
    } else if WhiteSpace(c) && !(0x2000 <= c as int <= 0x200A) {
      assert c == others[6] || c == others[7] || c == others[8] || c == others[9] || c == others[10]
             || c == others[11] || c == others[12] || c == others[13];
    }
  }

  ghost predicate AllSpaces(s: string) {
    forall i :: 0 <= i < |s| ==> WhiteSpace(s[i])
  }

  /** Trimming takes off all white space at both ends, and nothing else. */
  lemma {:induction false} TrimTakesOffSpaces(s: string) returns (front: string, back: string)
    ensures s == front + TrimSpace(s) + back && AllSpaces(front) && AllSpaces(back)
    ensures var inner := TrimSpace(s);
            inner != "" ==> !WhiteSpace(inner[0]) && !WhiteSpace(inner[|inner| - 1])
    decreases |s|
  {
    front, back := "", "";
    if s != "" {
      var n := |s| - 1;
      SpacesByCode(s[0]);
      SpacesByCode(s[n]);
      if IsSpace(s[0]) {
        front, back := TrimTakesOffSpaces(s[1..]);
        FrontFirst(s, front, TrimSpace(s), back);
        front := [s[0]] + front;
      } else if IsSpace(s[n]) {
        front, back := TrimTakesOffSpaces(s[..n]);
        BackLast(s, front, TrimSpace(s), back);
        back := back + [s[n]];
      }
    }
  }

  lemma FrontFirst(s: string, a: string, b: string, c: string)
    requires s != "" && s[1..] == a + b + c
    ensures s == [s[0]] + a + b + c
  {
    assert s == [s[0]] + s[1..];
  }

  lemma BackLast(s: string, a: string, b: string, c: string)
    requires s != "" && s[..|s| - 1] == a + b + c
    ensures s == a + b + (c + [s[|s| - 1]])
  {
    assert s == s[..|s| - 1] + [s[|s| - 1]];
  }

  /** `c` is this lower-case letter or its capital, or this other character. */
  predicate IsLetter(c: char, lower: char) {
    c == lower || ('a' <= lower <= 'z' && c as int == lower as int - 32)
  }

  /** The action's name, or the display name in any mixture of cases, tells a system
      update. */
  lemma SystemJobsAreNamed(r: JobRecord)
    ensures IsSystemJob(r) <==>
            || r.action == "system-update"
            || (|r.displayName| == 13 && forall i :: 0 <= i < 13 ==> IsLetter(r.displayName[i], "system update"[i]))
  {
    var name, lower := r.displayName, ToLower(r.displayName);
    if |name| == 13 {
      forall i | 0 <= i < 13
        ensures lower[i] == "system update"[i] <==> IsLetter(name[i], "system update"[i])
      {
        CaseOf(name[i], "system update"[i]);
        assert "system update"[i] == ' ' || 'a' <= "system update"[i] <= 'z';
      }
      if forall i :: 0 <= i < 13 ==> IsLetter(name[i], "system update"[i]) {
        assert lower == "system update";
      }
    }
  }

  lemma CaseOf(c: char, lower: char)
    requires !('A' <= lower <= 'Z')
    ensures (if 'A' <= c <= 'Z' then c - 'A' + 'a' else c) == lower <==> IsLetter(c, lower)
  {}

  /** The version the host runs, as the release file and the flake both say. */
  ghost predicate HostRuns(host: HostState, v: string) {
    v != "" && TrimSpace(host.dbxRelease) == v && host.flakeVersion == Some(v)
  }

  /** The version the update was to install: the recorded one, or the one in its log if
      none is recorded. */
  ghost predicate WasToInstall(r: JobRecord, host: HostState, v: string) {
    if TrimSpace(r.targetVersion) != "" then TrimSpace(r.targetVersion) == v
    else r.id in host.logTargets && TrimSpace(host.logTargets[r.id]) == v
  }

  /** The row of a job after a start: a system update that was active is completed
      exactly when the host runs what it was to install, and failed otherwise; any other
      row is as it was. */
  ghost predicate StartedRow(was: JobRecord, row: JobRecord, host: HostState, now: int, later: int) {
    if (was.status == Queued || was.status == InProgress) && IsSystemJob(was) then
      && SameJob(was, row) && row.pupID == was.pupID
      && if exists v :: HostRuns(host, v) && WasToInstall(was, host, v) then
           && row.status == Completed && row.progress == 100 && row.finished == Some(now)
           && row.error == was.error && row.summary == "Job completed successfully"
         else
           && row.status == Failed && row.progress == was.progress && row.finished == Some(later)
           && row.error == "Job was interrupted by dogeboxd restart" && row.summary == "Job failed"
    else row == was
  }

  lemma StartSettlesUpdates(t: Tables, host: HostState, now: int, later: int)
    requires t.Valid()
    ensures var t' := Apply(Apply(t, Reconcile(host, now)), ClearInterrupted(later));
            && t'.store.Keys == t.store.Keys
            && forall id <- t.store :: StartedRow(t.store[id], t'.store[id], host, now, later)
  {
    StartupSettlesSystemJobs(t, host, now, later);
    var t' := Apply(Apply(t, Reconcile(host, now)), ClearInterrupted(later));
    forall id | id in t.store
      ensures StartedRow(t.store[id], t'.store[id], host, now, later)
    {
      StartSettlesOne(t, host, now, later, id);
    }
  }

  lemma StartSettlesOne(t: Tables, host: HostState, now: int, later: int, id: JobId)
    requires id in t.store
    ensures var t' := Apply(Apply(t, Reconcile(host, now)), ClearInterrupted(later));
            id in t'.store && StartedRow(t.store[id], t'.store[id], host, now, later)
  {
    StartupSettlesRow(t, host, now, later, id);
    InstalledMeans(t.store[id], host);
  }

  lemma InstalledMeans(r: JobRecord, host: HostState)
    ensures AlreadyInstalled(r, host) <==> exists v :: HostRuns(host, v) && WasToInstall(r, host, v)
  {
    if AlreadyInstalled(r, host) {
      var v := TargetVersion(r, host);
      assert HostRuns(host, v) && WasToInstall(r, host, v);
    }
  }

  // ------------------------------------------------------------------
  // The completion branch
  // ------------------------------------------------------------------

  /** However its last log lines went, and although a failed job is completed twice, a
      tracked job that the updater answered ends failed with the updater's error or
      completed without one, and leaves the cache. */
  lemma CompletionBranchIsRecorded(t: Tables, id: JobId, err: string, last: ActionProgress, errLine: ActionProgress,
                                   now: int)
    requires t.Valid() && t.Lookup(id).Some? && last.actionID == id == errLine.actionID
    ensures var (t1, again) := Completion(t, id, err, last, errLine, now);
            var t' := if again then Apply(t1, Complete(id, err, now)) else t1;
            && id in t'.store && id !in t'.cache && OnlyThisJob(t, t', id)
            && var row := t'.store[id];
            && (row.status == Failed <==> err != "") && (row.status == Completed <==> err == "")
            && row.finished == Some(now) && (err != "" ==> row.error == err) && (err == "" ==> row.progress == 100)
            && SameJob(t.Lookup(id).value, row)
  {
    var t1 := Apply(t, Progress(last));
    OpKeepsValid(t, Progress(last));
    ReportIsRecorded(t, last);
    var t2 := Apply(t1, Complete(id, err, now));
    OpKeepsValid(t1, Complete(id, err, now));
    CompletionIsRecorded(t1, id, err, now);
    if err != "" {
      var t3 := Apply(t2, Progress(errLine));
      OpKeepsValid(t2, Progress(errLine));
      ReportIsRecorded(t2, errLine);
      CompletionIsRecorded(t3, id, err, now);
    }
  }
}
