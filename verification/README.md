# A verified model of dogeboxd

dogeboxd manages a Dogebox: it queues jobs, runs them one at a time against the
operating system, keeps a database of them, and looks after the pups installed
on the machine. This project models the parts of it whose correctness depends on
state and order, and proves properties of that model with Dafny 4.11:

    dafny verify dfyconfig.toml

| file | what it models |
|---|---|
| `Events.dfy` | actions, and which thread answers them |
| `Jobs.dfy`, `Records.dfy` | the job store and its cache (`JobManager`), status machine, start-up clean-up; the rows each operation leaves, field by field |
| `Queue.dfy` | the job queue, the non-queued jobs, the current job and the in-progress lock |
| `Dogeboxd.dfy` | operations over queue and store together: completion, orphan detection, deletion |
| `Pipeline.dfy`, `NixCache.dfy` | the same steps interleaved by the main loop, the updater and any number of scanning, deleting and reporting threads; what becomes of nix-cache jobs there |
| `Threads.dfy` | each thread's steps undisturbed: together they do what the methods do |
| `LogTailer.dfy` | backward paging through a log file that is being appended to |
| `Pups.dfy`, `Updater.dfy`, `Outcomes.dfy`, `Lifecycle.dfy` | pups, the updater's jobs with every failure exit, what each exit leaves and in what order the steps come, and what holds over runs of them |
| `Allocators.dfy`, `Adoption.dfy` | addresses and ports handed to pups, for one call and over runs |
| `RingBuffer.dfy` | the history behind a pup metric |
| `Ordering.dfy`, `Versions.dfy` | sorting, lexicographic order, precedence of versions (section 11 of Semantic Versioning 2.0.0) |
| `Migration.dfy`, `Boots.dfy` | the release list, the start-up migration of the OS flake, and its behaviour over many boots |
| `ConfigEnv.dfy` | the printer of a pup's `config.env` and the reader of systemd's `EnvironmentFile=` |
| `Deps.dfy` | dependency reports |

## How the model is built

- Objects whose methods update fields are classes (`JobManager`, `SyncQueue`,
  `PupManager`, `SystemUpdater`, `Migrator`, `Buffer`, `LogFile`); loops are
  loops, with their invariants. Each method is tied to a function or a relation on values
  (`Apply`, `Enqueued`, `UpgradeDid`, `BootDid`, `IsTail`, ...), and the results
  about runs are lemmas about those.
- Downloads, `_dbxroot`, nix, git and file writes are calls that succeed or fail
  freely (`External`), so every result holds for every choice of failures.
  Which OS ports are free, what tags the repository answers and what the host
  runs after a restart are parameters. A clock reading is an integer parameter.
- Each job of the updater has a plan (`StepAt`), and a step can be carried out only
  when it is the plan's next. A successful job has carried out its whole plan, a
  failed one everything up to the step it failed at. In an upgrade no step is taken
  from a state whose version or manifest has changed without a snapshot to go back
  with (`Recoverable`).
- Rules that the source takes from elsewhere are stated again on their own and proved
  equal to what the code computes: precedence of versions (`Versions.Precedes`), the
  rows that operations leave (`Records`), what each exit of a job leaves (`Outcomes`).
- `Pipeline` uses one step for each stretch that the program runs under a lock. The
  main loop, the updater, any number of orphan scans and any number of deletions
  interleave freely; the database read, the runtime read and each mark of a scan
  are separate steps, and so are the checks of a deletion. Every lock-free
  stretch of the main loop between two of them is a control state.
- A job carries a copy of its pup taken when it is dispatched. `Lifecycle` keeps
  that copy next to the live pup. In the source the copy's config and provider maps
  are the live pup's own maps, which updates write into, unless the pup had no such
  map yet. So each is `NoSettings` or `Settings`; a copy shows its plain fields as
  they were and its maps as they are (`Shown`), and `MapsStay` proves that nothing
  replaces a map that is there while the process lives.
- State files are part of the state of `Lifecycle` and `Adoption`: a write of one may
  fail, and a restart, which is a step there, loads what they hold.

## Results that are not what one would expect of the code

Each is a lemma. Where a promised property fails, the exact condition under
which it holds is proved.

- A failed job is completed twice: logging its error puts the finished record back
  into the cache, where `sendFinishedJob` takes it for an active job
  (`Jobs.FailedJobLooksActiveAgain`).
- A log page is stable under concurrent appends exactly for requests without a
  cursor or with one inside the file (`LogTailer.PageStable`,
  `LogTailer.StableOnlyIfFixed`).
- A rollback returns to two different moments: version, manifest and enabled flag of
  the dispatch, but config and providers of the time the upgrade ran, because the
  copy shares those maps (`Lifecycle.RollbackOverRuns`,
  `Lifecycle.EditWhileQueuedComesBack`). With two upgrades queued at once it goes
  back past the first (`Lifecycle.QueuedUpgradesRollBackTooFar`).
- Deleting the only queued install of a pup leaves that pup installing
  (`Lifecycle.CancelKeepsIdleSafe`).
- A restart repairs only pups that were installing (`Lifecycle.RestartIsSafe`). Between
  jobs it is safe as long as each job's last write of the state file went through
  (`Lifecycle.SavingRunsAreIdleSafe`); after a purge that could not remove the file the
  pup comes back, purging (`Lifecycle.LeftoverComesBackPurging`).
- Deleting a queued job can bring two nix-cache jobs together, exactly when it stood
  between two of them in the queue, or last behind one while the main loop holds
  another that has passed the skip test (`NixCache.DeletionKeepsNixInv`,
  `NixCache.UnsafeDeletionJoins`). Both happen in runs from every start
  (`NixCache.DeletionCanJoinQueuedNixJobs`, `NixCache.DeletionCanJoinHeldNixJob`).
- The start-up scan ends at or above all stored addresses in every order exactly when
  one of them, or 10.69.0.1, is largest in every octet (`Adoption.EveryScanCoversIff`).
  With 10.69.0.2 and 10.69.1.0 in use it is not so, and a run is given in which the
  second one is then handed out again (`Adoption.AddressesCanMeetAfterRestart`). As long
  as 10.69.0.0/24 has room, and purges remove their files, restarts do no harm
  (`Adoption.CleanRunsStayClean`).
- After 2^32 adoptions the address counter restarts at 0.0.0.0 and the limit test
  accepts it (`Adoption.WrappedCounterStartsOver`).
- A pup can be assigned a web port that its own manifest exposes on the host; that is
  avoided exactly when enough free ports lie below (`Adoption.OwnHostPortsAvoidedIff`).
  It can also expose on the host a port that an earlier pup was assigned, when it is
  adopted or when it is upgraded (`Adoption.AdoptionKeepsHostPortsClearIff`,
  `Adoption.ChangeKeepsHostPortsClearIff`).
- A purge goes on when it cannot remove the state file, and the pup is back after a
  restart, with ports that may have been assigned again: in a run of four steps
  (`Adoption.PortsCanMeetAfterPurge`), and exactly when a later adoption could assign
  one of them and has too few others below it (`Adoption.AdoptionKeepsFilesApartIff`,
  `Adoption.EveryRestartKeepsNetInvIff`).
- The migration's run decides again without looking at the reason, so tags that
  change between its two reads let it queue a release older than the installed
  flake (`Boots.QueuedTargetIsNewerIff`, `Boots.ChangedTagsCanQueueAny`).
- The repair of a partial activation never succeeds: it queues the current
  release, and the update refuses a release that is not newer than the current
  one (`Boots.PartialActivationIsQueued`, `Boots.PartialActivationIsNeverRepaired`).
  The comment in `pkg/system/migrations/definitions/os_flake.go:212-214` expects
  otherwise; the model follows the code.
- A `config.env` value with a carriage return and nothing else that calls for
  quotes does not come back; every other value does (`ConfigEnv.RoundTrip`).

## Model

| member | source | states |
|---|---|---|
| `Events.QueuedActionsAreAnswered` | pkg/dogeboxd.go:481-598 | the dispatcher queues exactly the actions that the updater's switch answers, and tracks every one of them, so no queued job waits for ever or lacks a record |
| `Events.UntrackedActions` | pkg/dogeboxd.go:869-885 | exactly metrics, quick config and hook changes and batches leave no record; which actions are finished at once, dropped or expanded |
| `Queue.IndexOf` | pkg/dogeboxd.go:386-401 | the position at which the removal loop stops: the first job with the id, or none |
| `Queue.SyncQueue.PumpQueue` | pkg/dogeboxd.go:304-321 | takes the head of the queue and the in-progress lock together, exactly when the lock is free and the queue is not empty; otherwise nothing changes |
| `Queue.SyncQueue.Enqueue` | pkg/dogeboxd.go:325-330 | the job leaves the non-queued set and joins the end of the queue in one locked step |
| `Queue.SyncQueue.GetRuntimeJobIDs` | pkg/dogeboxd.go:368-384 | lists exactly the current id, the queued ids and the non-queued ids |
| `Queue.SyncQueue.RemoveFromQueue` | pkg/dogeboxd.go:386-401 | removes the first queued job with the id, and its non-queued mark, and reports whether there was one; otherwise changes nothing |
| `Queue.SyncQueue.ShouldSkipQueuedNixCacheJob` | pkg/dogeboxd.go:443-459 | true exactly when the last queued job is a nix-cache job |
| `Queue.PopKeepsNoAdjacentNix` | pkg/dogeboxd.go:304-321 | taking the head creates no adjacent nix-cache jobs and no new nix-cache tail |
| `Queue.AppendKeepsNoAdjacentNix` | pkg/dogeboxd.go:403-409 | appending keeps nix-cache jobs apart if and only if the skip test would not have dropped the job |
| `Queue.RemovalKeepsNoAdjacentNix` | pkg/dogeboxd.go:386-401 | taking one job out of the queue brings two nix-cache jobs of the queue together if and only if it stood between two of them |
| `Jobs.OpKeepsValid` | pkg/jobs.go:74-267 | every operation keeps cache and store in agreement: a cached record equals its row, an active cached record has a row, and `Finished` is set if and only if the status is terminal |
| `Jobs.OpKeepsQuiet` | pkg/jobs.go:315-486 | only creating a job with that id makes a row active that was not |
| `Jobs.OpKeepsCached` | pkg/jobs.go:74-267 | a row this process created is active only while it is cached |
| `Jobs.RunKeepsTables` | pkg/jobs.go:74-486 | the three invariants over every sequence of operations; no row leaves a terminal status for an active one |
| `Jobs.StartupSettlesSystemJobs` | cmd/dogeboxd/server.go:105-111 | after reconcile and clear-interrupted no system update is active; an interrupted one ends completed if and only if release, flake and target agree, failed otherwise; all other rows are unchanged |
| `Jobs.StartupSettlesRow` | pkg/jobs.go:380-486 | the final row of each job after both start-up steps, field by field |
| `Jobs.FailedJobLooksActiveAgain` | pkg/dogeboxd.go:838-867 | after the completion branch has completed a job, `sendFinishedJob` still finds it active if and only if it failed; the row stays terminal |
| `Records.CompletionIsRecorded` | pkg/jobs.go:183-230 | for every known job: failed if and only if there is an error, with it and with the progress kept; completed if and only if there is none, at 100; finished now, out of the cache, nothing else changed |
| `Records.CompletionBranchIsRecorded` | pkg/dogeboxd.go:258-280 | the same of the whole completion branch, although its log lines report again and a failed job is completed twice |
| `Records.ReportIsRecorded` | pkg/jobs.go:139-180 | a report moves an active job to in progress, never revives a finished one, names a pup once and keeps the last error; nothing else changes |
| `Records.OrphanIsRecorded` | pkg/jobs.go:233-267 | exactly a job queued or in progress becomes an orphan, finished now |
| `Records.CreationIsRecorded` | pkg/jobs.go:74-112 | the fields of a new record, and the target of a system update |
| `Records.ClearingKeepsTheRest` | pkg/jobs.go:315-325 | exactly the rows finished before the cutoff go |
| `Records.StuckJobsFail` | pkg/jobs.go:354-378 | exactly the active jobs started before the cutoff fail and leave the cache |
| `Records.TrimTakesOffSpaces` | pkg/jobs.go:521-528 | trimming removes all white space at both ends and nothing else |
| `Records.SystemJobsAreNamed` | pkg/jobs.go:488-499 | a system update is told by its action's name, or by its display name in any mixture of cases |
| `Records.StartSettlesUpdates` | cmd/dogeboxd/server.go:105-111 | after a start, an update that was active is completed if and only if release file and flake both say the version it was to install, recorded or else logged; otherwise it failed; field by field, and no other row changes |
| `Jobs.JobManager.constructor` | pkg/jobs.go:60-67 | starts with the stored rows and an empty cache |
| `Jobs.JobManager.CreateJobRecord` | pkg/jobs.go:74-112 | the new record (queued, unfinished, pup and target version from the action) is stored and cached |
| `Jobs.JobManager.Load` | pkg/jobs.go:116-135 | the cached record, or the stored one, which is then cached |
| `Jobs.JobManager.UpdateJobPupID` | pkg/jobs.go:116-135 | as the operation `SetPupID`; an error exactly for an unknown job |
| `Jobs.JobManager.UpdateJobProgress` | pkg/jobs.go:139-180 | as the operation `Progress`; an error exactly for an unknown job |
| `Jobs.JobManager.CompleteJob` | pkg/jobs.go:183-230 | as the operation `Complete`: failed with its error or completed at 100, out of the cache, into the store |
| `Jobs.JobManager.MarkJobOrphaned` | pkg/jobs.go:233-267 | as the operation `MarkOrphaned`: rechecks the status and changes nothing unless it is active |
| `Jobs.JobManager.GetJob` | pkg/jobs.go:270-285 | the cache first, then the store |
| `Jobs.JobManager.GetActiveJobs` | pkg/jobs.go:303-306 | each queued or in-progress row, once, in order of start |
| `Jobs.JobManager.DeleteJob` | pkg/jobs.go:344-350 | gone from cache and store |
| `Jobs.JobManager.ClearCompletedJobs` | pkg/jobs.go:315-324 | exactly the terminal rows finished before the cut-off go; the cache is not touched; the count is how many went |
| `Jobs.JobManager.ClearAllJobs` | pkg/jobs.go:327-341 | both tables empty; the count is how many rows there were |
| `Jobs.JobManager.ClearOrphanedJobs` | pkg/jobs.go:354-376 | exactly the active rows started before the cut-off fail and leave the cache; the count is how many |
| `Jobs.JobManager.DropFromCache` | pkg/jobs.go:367-373 | the loop that deletes from the cache it ranges over removes exactly the entries meant |
| `Jobs.JobManager.ReconcileCompletedSystemUpdateJobs` | pkg/jobs.go:380-414 | completes exactly the active system updates whose target the host already runs, and counts them; gives up when the flake cannot be read |
| `Jobs.JobManager.ReconcileEach` | pkg/jobs.go:392-411 | the same for the rows handed to the loop, against the tables before it |
| `Jobs.JobManager.ClearInterruptedSystemJobs` | pkg/jobs.go:419-446 | fails exactly the active system updates, drops them from the cache, and counts them |
| `Jobs.JobManager.InterruptAll` | pkg/jobs.go:429-434 | the same for the rows handed to the loop |
| `Dogeboxd.Dogeboxd.CreateTrackedJobRecord` | pkg/dogeboxd.go:352-366 | a tracked job is in the runtime before its row exists; an untracked one leaves no trace |
| `Dogeboxd.Dogeboxd.SendFinishedJob` | pkg/dogeboxd.go:838-867 | logs the error, completes the job only if it is cached, and forgets it in the runtime |
| `Dogeboxd.Dogeboxd.CompleteUpdaterJob` | pkg/dogeboxd.go:215-280 | the whole completion branch: row completed, job forgotten, current id cleared, lock released, the second completion of a failed job included |
| `Dogeboxd.Dogeboxd.DetectAndMarkOrphanedJobs` | pkg/dogeboxd.go:413-441 | undisturbed, marks and returns exactly the active rows that the runtime does not know |
| `Dogeboxd.Dogeboxd.DeleteJob` | pkg/web/jobs.go:155-197 | undisturbed, deletes exactly queued jobs that are in the queue or unknown to the runtime; replies not-found or conflict otherwise and changes nothing |
| `Pipeline.InitHasInv` | pkg/dogeboxd.go:87-127 | a process starting over any rows satisfies the invariant |
| `Pipeline.StepKeepsOrder` | pkg/dogeboxd.go:304-401 | every step of every thread keeps: ids are used once, and hand-overs followed by the queue are the enqueued jobs in order minus the deleted |
| `Pipeline.StepKeepsLock` | pkg/dogeboxd.go:215-321 | every step keeps: the lock is held exactly while a job is with the updater, and that job is the current one until cleared |
| `Pipeline.StepKeepsRows` | pkg/dogeboxd.go:352-441 | every step keeps: the active row of a job of this process is explained by the runtime or by a deletion from the queue |
| `Pipeline.StepKeepsThreads` | pkg/dogeboxd.go:413-441 | every step keeps: an id a scan still suspects, or a deletion is about to remove, is settled for good |
| `Pipeline.StepKeepsInv` | pkg/dogeboxd.go:137-441 | every enabled step keeps the whole invariant |
| `Pipeline.ReachableHasInv` | pkg/dogeboxd.go:137-441 | so it holds in every reachable state |
| `Pipeline.NoFalseOrphan` | pkg/dogeboxd.go:413-441 | in every interleaving, however stale a scan's two reads are, marking changes nothing for a job this process holds; what it changes is a row of an earlier process or of a job deleted from the queue |
| `Threads.ScanSuspectsTheUnknown` | pkg/dogeboxd.go:413-441 | whatever happens between a scan's two reads, its suspects are exactly the jobs active at the first that the runtime does not know at the second |
| `Threads.OrphanIsMarked` | pkg/dogeboxd.go:413-441 | from every state with valid tables, steps of one scan alone mark any given active row that the runtime does not know, and change no other row |
| `Threads.UndisturbedScan` | pkg/dogeboxd.go:413-441 | an undisturbed scan leaves exactly the tables of `DetectAndMarkOrphanedJobs` |
| `Threads.ScannedRows` | pkg/dogeboxd.go:413-441 | those tables row by row: orphaned and finished if active and unknown to the runtime, as before otherwise |
| `Threads.UndisturbedDeletion` | pkg/web/jobs.go:155-197 | an undisturbed deletion of a queued record does what `DeleteJob` does, or ends in a conflict without a change |
| `Threads.IncomingIsTakenOrDropped` | pkg/dogeboxd.go:403-459 | an idle main loop takes every new job but a nix-cache job behind another, which it drops |
| `Threads.NextJobIsTracked` | pkg/dogeboxd.go:352-366 | the next job gets its runtime mark and record if it is tracked, and neither otherwise |
| `Threads.FinishingSendsJob` | pkg/dogeboxd.go:838-867 | the steps of the main loop that finish a job do what `SendFinishedJob` does |
| `Threads.AnswerIsCompleted` | pkg/dogeboxd.go:215-283 | the steps of the main loop that take an answer do what `CompleteUpdaterJob` does, and leave it idle with the lock free |
| `Pipeline.SerialFifo` | pkg/dogeboxd.go:304-330 | at most one job is with the updater; hand-overs are in enqueue order minus deleted jobs, each once and a deleted one never; the lock is held exactly while a job is with the updater |
| `Pipeline.DeletionIsSafe` | pkg/web/jobs.go:178-189 | when a deletion reaches the row of a job of this process, the job was removed from the queue in time and is held by nobody, or its row is not active |
| `Pipeline.WorkDecreases` | pkg/dogeboxd.go:215-330 | without arrivals no step of any thread adds work and every step of the main loop and the updater does some |
| `Pipeline.NeverStuck` | pkg/system/updater.go:58-226 | while there is work some step of the main loop or the updater is possible: no job is left unanswered |
| `Pipeline.Drains` | pkg/dogeboxd.go:304-330 | from any such state the pipeline can finish by itself within `Work` steps |
| `Pipeline.EveryScheduleIsBounded` | pkg/dogeboxd.go:304-330 | without arrivals every schedule, with any steps of other threads in between, has at most `Work` pipeline steps |
| `Pipeline.OnlyDrainedIsQuiet` | pkg/dogeboxd.go:304-330 | a state where the pipeline cannot go on has an empty queue, a free lock, and every enqueued undeleted job handed over |
| `NixCache.SkippedNixJobIsCovered` | pkg/dogeboxd.go:403-459 | when a nix-cache job is dropped, another one stands in the hand-over order behind every undeleted job enqueued before, at any later time, unless it is deleted itself |
| `NixCache.DeletionKeepsNixInv` | pkg/web/jobs.go:178-189 | a deletion keeps nix-cache jobs apart, those about to be queued included, if and only if the job neither stands between two of them nor last behind one while the main loop holds another |
| `NixCache.UnsafeDeletionJoins` | pkg/web/jobs.go:178-189 | every other deletion does bring two together, at once or when the main loop goes on |
| `NixCache.DeletionCanJoinQueuedNixJobs` | pkg/dogeboxd.go:386-401 | from every start, for any three jobs not seen before of these kinds, a run leads to a deletion of the job between two queued nix-cache jobs |
| `NixCache.DeletionCanJoinHeldNixJob` | pkg/dogeboxd.go:443-459 | from every start, for any three jobs not seen before of these kinds, a run leads to a deletion of the last queued job, standing between no two of them, that is unsafe because the main loop holds a nix-cache job |
| `NixCache.NixJobsStayApart` | pkg/dogeboxd.go:403-459 | from the start of a process, over every run whose deletions are safe where they happen (any run without deletions is one), the queue never holds two adjacent nix-cache jobs |
| `LogTailer.UnlinesOfLines` | pkg/system/logtailer.go:275-291 | writing the lines back gives the text, completed by a newline if the last line had none |
| `LogTailer.LinesHaveNoNewline` | pkg/system/logtailer.go:275-291 | no line holds a newline |
| `LogTailer.LinesOfUnlines` | pkg/system/logtailer.go:275-291 | reading written lines gives the lines, so `Lines` is the only such splitting |
| `LogTailer.LinesConcat` | pkg/system/logtailer.go:261-267 | cutting a text just after a newline cuts its lines |
| `LogTailer.CountLines` | pkg/system/logtailer.go:225-228 | how many newlines the scan has to count for a number of lines |
| `LogTailer.SplitIsLines` | pkg/system/logtailer.go:275-291 | splitting at newlines gives the lines, with one empty part more exactly when the text ends a line |
| `LogTailer.SplitLogLines` | pkg/system/logtailer.go:275-291 | returns exactly the lines of the data |
| `LogTailer.TailIsUnique` | pkg/system/logtailer.go:198-273 | a prefix and a limit leave no choice of lines, start offset or more-flag |
| `LogTailer.BoundaryStartsTail` | pkg/system/logtailer.go:225-259 | the newline found by counting backwards starts exactly the last `limit` lines |
| `LogTailer.NoBoundaryMeansWhole` | pkg/system/logtailer.go:225-259 | too few newlines means the whole prefix |
| `LogTailer.ScanChunk` | pkg/system/logtailer.go:245-256 | the inner loop finds the wanted newline of a chunk from its end, or the number still wanted |
| `LogTailer.FindBoundary` | pkg/system/logtailer.go:230-259 | the chunked loop finds the wanted newline of the prefix for every chunk size, while the file grows |
| `LogTailer.ReadLastLinesBefore` | pkg/system/logtailer.go:198-273 | for every file, end offset, limit and positive chunk size: the last `limit` lines of the prefix seen at `Stat`, a start offset that is 0 or just after a newline; the trimming never fires |
| `LogTailer.GetPage` | pkg/system/logtailer.go:105-147 | the page is determined by the bytes at its two `Stat`s; no file gives the empty page, a limit not positive an error |
| `LogTailer.PageIsUnique` | pkg/system/logtailer.go:105-147 | those bytes, the cursor and the limit leave no choice of page |
| `LogTailer.PageCarries` | pkg/system/logtailer.go:105-147 | a page has a resume token, the first size, exactly without a cursor, and an older cursor, where its first line starts, exactly if something is older; then it is full |
| `LogTailer.PageStable` | pkg/system/logtailer.go:118-146 | without a cursor or with one inside the file, what is appended after the first `Stat` does not show |
| `LogTailer.StableOnlyIfFixed` | pkg/system/logtailer.go:118-146 | for any other cursor some append does show |
| `LogTailer.OlderPagesRebuild` | pkg/system/logtailer.go:105-147 | from any offset, however far a reader has followed the older cursors and however the file grows: the lines still unread followed by the pages read are the lines before the offset, and each request has moved back by at least a byte |
| `LogTailer.CursorsDecrease` | pkg/system/logtailer.go:105-147 | the cursors of all pages strictly decrease, finished or not |
| `LogTailer.PagingIsComplete` | pkg/system/logtailer.go:105-147 | from the newest page: at most one request more than the file had bytes at the first `Stat`, and once no older page remains, every line it held then, none lost, split or repeated |
| `LogTailer.ReadAllPages` | pkg/system/logtailer.go:105-147 | the reader that follows the cursors stops, with every line of the file at the first `Stat` |
| `Pups.MergeConfig` | pkg/pups.go:308-328 | submitted fields the manifest knows are overwritten, unknown ones ignored, the rest kept |
| `Pups.MergeProviders` | pkg/pups.go:330-340 | submitted providers replace, others are kept |
| `Pups.UpdatesKeepIdentity` | pkg/pups.go:291-373 | no sequence of updates changes a pup's address, assigned ports or source, or replaces a settings map that is there |
| `Pups.SettingsAreMerged` | pkg/pups.go:308-340 | key by key: a submitted value counts if the manifest knows the field, a provider always, the rest stays |
| `Pups.StartBreaksInstalls` | pkg/pup/manager.go:536-546 | a start makes exactly the installing pups broken with the download as the reason, and changes nothing else of them |
| `Pups.AdoptedOnce` | pkg/pup/actions.go:24-28 | an attempt is answered with an existing pup if and only if one has this name, version and source, and with that one |
| `Pups.NewPupIs` | pkg/pup/actions.go:54-120 | every field of a new pup; its ports are at least 10000, ascending, free, and neither assigned to nor exposed on the host by any pup |
| `Pups.ConsumedPortsAreHad` | pkg/pup/actions.go:263-278 | the ports avoided are exactly those assigned to a web interface or exposed on the host |
| `Pups.PupManager.constructor` | pkg/pup/manager.go:47-104 | interrupted installs are broken, and the files are as they were or say so; the address counter is what the scan gives for some order of the stored addresses, each taken once; with all of them in 10.69.0.0/24 it is at or above all |
| `Pups.PupManager.Addresses` | pkg/pup/manager.go:87-88 | the stored addresses, one for each pup, in any order |
| `Pups.PupManager.UpdatePup` | pkg/pup/actions.go:145-166 | the updates apply in order to that pup alone, and no other state file changes; a failed save is reported but does not undo them |
| `Pups.PupManager.AdoptPup` | pkg/pup/actions.go:22-138 | an adopted manifest is reported and changes nothing; any other attempt uses up the next address, is refused past 10.70.255.255, and on success adds the pup, and its state file, with that address and the first free ports |
| `Pups.PupManager.FindAdopted` | pkg/pup/actions.go:24-28 | finds a pup with this name, version and source if and only if there is one |
| `Pups.PupManager.ConsumedPorts` | pkg/pup/actions.go:263-278 | exactly the ports assigned to web interfaces or exposed on the host by pups |
| `Pups.PortsConsumedBy` | pkg/pup/actions.go:267-277 | the same for one pup |
| `Pups.PupManager.StopPup` | pkg/pup/manager.go:277-305 | an enabled pup is disabled, whatever fails afterwards; an unknown pup is an error, a stopped one is not |
| `Pups.PupManager.CreateSnapshot` | pkg/pup/manager.go:555-591 | the captured fields of the given copy, or no change |
| `Pups.PupManager.GetSnapshot` | pkg/pup/manager.go:593-614 | the stored snapshot, none, or a read error |
| `Pups.PupManager.DeleteSnapshot` | pkg/pup/manager.go:626-642 | gone, or no change on failure |
| `Pups.PupManager.RecoverStuckPups` | pkg/pup/manager.go:536-546 | exactly the pups left installing become broken, and the files are as they were or say so |
| `Updater.SystemUpdater.MarkPupBroken` | pkg/system/updater.go:246-256 | the pup is broken for the step's reason, in memory even if saving fails |
| `Updater.SystemUpdater.Take` | pkg/system/updater.go:822-991 | a step is carried out only as the plan's next, and in an upgrade only while a changed version or manifest can be rolled back |
| `Updater.SystemUpdater.InstallPup` | pkg/system/updater.go:302-399 | for every choice of failures: ready and enabled, or broken with the reason of the step that failed, enabled only from the enabling step on; no snapshot touched; the eleven steps in order, up to the one that failed |
| `Updater.SystemUpdater.UninstallPup` | pkg/system/updater.go:401-435 | uninstalled or broken, disabled either way; its steps in order |
| `Updater.SystemUpdater.PurgePup` | pkg/system/updater.go:437-489 | refused unless the copy is uninstalled; otherwise gone, or broken if the first update fails; every removal is tried, whichever fail |
| `Updater.SystemUpdater.EnablePup` | pkg/system/updater.go:491-544 | enabled or disabled in memory, whatever fails; its steps in order up to the one that failed; no pup is marked broken |
| `Updater.SystemUpdater.UpgradePup` | pkg/system/updater.go:822-991 | for every choice of failures: the snapshot is that of the copy, and the pup is at the target and ready, or broken with the reason of the failing step and the version it had reached; its steps in order; at no step has the live version or manifest changed without the snapshot being stored |
| `Updater.SystemUpdater.InstallTarget` | pkg/system/updater.go:848-991 | the part after the snapshot |
| `Updater.SystemUpdater.RollbackPupUpgrade` | pkg/system/updater.go:993-1094 | for every choice of failures: refused without a readable snapshot; otherwise restored and ready, or broken with what had been restored; the snapshot is gone if and only if the rollback succeeded and its deletion did; its steps in order |
| `Updater.SystemUpdater.RollBackTo` | pkg/system/updater.go:1010-1094 | the part after the snapshot is read |
| `Lifecycle.RollbackRestores` | pkg/system/updater.go:822-1094 | after an upgrade that succeeded or failed anywhere past the snapshot, and any change of settings, a successful rollback restores version and manifest of the copy made at dispatch; the enabled flag of the copy, and config and providers as they were when the upgrade ran, each if and only if a stated condition on the settings in between holds |
| `Lifecycle.EditWhileQueuedComesBack` | pkg/pups.go:308-328 | a setting changed while the upgrade waits in the queue is what comes back, because the copy shares the pup's map |
| `Lifecycle.MapsStay` | pkg/pups.go:308-340 | as long as the process lives a settings map that a pup has is never replaced |
| `Lifecycle.RollbackOverRuns` | pkg/dogeboxd.go:903-921 | the same over runs without a restart: dispatch, any steps, upgrade, any steps that spare the pup, rollback |
| `Lifecycle.UpgradeThenRollbackIsUndo` | pkg/system/updater.go:822-1094 | when the copy shows the live pup the rollback is an undo of the whole registry, up to the config counting as saved, both settings maps being made, the pup being ready and the recorded reason; the snapshot is gone if its deletion succeeded |
| `Lifecycle.QueuedUpgradesRollBackTooFar` | pkg/dogeboxd.go:903-921 | with two upgrades queued at once, rolling back the second skips the version of the first |
| `Lifecycle.JobSettlesItsPup` | pkg/system/updater.go:302-1094 | whatever fails, a job changes no other pup and leaves its own settled or as it was |
| `Lifecycle.SubmittedRunsWithItsCopy` | pkg/dogeboxd.go:903-921 | a submitted job, or the install of an adopted pup, runs with the copy taken then, once the jobs queued before it have run |
| `Outcomes.FailedJobLeavesBroken` | pkg/system/updater.go:246-256 | whichever step an install, uninstall, purge, upgrade or rollback fails at, a pup still known is broken, with the reason of that step |
| `Outcomes.SuccessShows` | pkg/system/updater.go:302-1094 | after an install, upgrade or rollback that was not refused the pup is ready if and only if it succeeded; uninstalled, or gone, if and only if an uninstall or purge did |
| `Outcomes.RefusedWhen` | pkg/system/updater.go:437-444 | a purge is refused if and only if the copy does not show an uninstalled pup, a rollback without a snapshot is; what a refused job leaves |
| `Outcomes.UnknownPupIsLeft` | pkg/system/updater.go:302-1094 | a job of an unknown pup does not succeed and changes no pup |
| `Outcomes.SimpleJobLeaves` | pkg/system/updater.go:302-544 | what an install, uninstall, purge or switch leaves of the enabled flag, exit by exit; version, manifest, settings, address and ports stay |
| `Outcomes.FailedUpgradeLeaves` | pkg/system/updater.go:822-991 | the version a failed upgrade leaves is the old one if and only if the manifest could not be fetched; it leaves the pup stopped unless it got as far as ready |
| `Outcomes.SuccessfulUpgradeLeaves` | pkg/system/updater.go:822-991 | the target, ready, enabled if it was, all else as before |
| `Outcomes.FailedRollbackLeaves` | pkg/system/updater.go:993-1094 | a failed rollback has changed nothing but the mark if it failed before the restore, and has put back version and manifest afterwards; the snapshot stays |
| `Outcomes.InstallOrder` | pkg/system/updater.go:302-399 | the eleven steps in order: the download is verified before anything is made of it, ready comes last |
| `Outcomes.UpgradeOrder` | pkg/system/updater.go:822-991 | the snapshot before anything else but the stop, the state before the files, ready before the container is put back |
| `Outcomes.RollbackOrder` | pkg/system/updater.go:993-1094 | the snapshot is read first and dropped last |
| `Outcomes.InstallFailsInPlan` | pkg/system/updater.go:302-399 | an install can fail at exactly the steps of its plan |
| `Outcomes.UpgradeFailsInPlan` | pkg/system/updater.go:822-991 | an upgrade at exactly those of its plan that are not tolerated or refused |
| `Outcomes.RollbackFailsInPlan` | pkg/system/updater.go:993-1094 | a rollback likewise |
| `Lifecycle.CancelKeepsIdleSafe` | pkg/web/jobs.go:155-197 | deleting a queued job is safe if and only if it is not an install that an installing pup waits for, or another install of that pup stands at another place in the queue |
| `Lifecycle.RunsAreIdleSafe` | pkg/system/updater.go:302-1094 | over every run, restarts included, whose deletions and restarts are safe where they happen: between jobs no pup is upgrading, uninstalling or purging, and an installing one has its install pending |
| `Lifecycle.RestartIsSafe` | pkg/pup/manager.go:536-546 | a restart gives such a state if and only if no state file was left upgrading, uninstalling or purging |
| `Lifecycle.SavingRunsAreIdleSafe` | pkg/system/updater.go:302-1094 | restarts may come at any time between jobs if each job leaves its pup's state file as the manager has the pup, or as the file was |
| `Lifecycle.SuccessLeavesFileIff` | pkg/system/updater.go:437-489 | a successful job leaves its pup's file so, unless it is a purge whose file is still there |
| `Lifecycle.LeftoverComesBackPurging` | pkg/system/updater.go:455-465 | after a purge that could not remove the state file, every restart brings the pup back, purging |
| `Lifecycle.WrittenSettingsSurvive` | pkg/pup/actions.go:145-166 | settings that were written are there after a restart, those that could not be are not |
| `Allocators.NumInjective` | pkg/pup/actions.go:39-47 | different addresses are different numbers |
| `Allocators.ClaimNextIP` | pkg/pup/actions.go:39-47 | the byte-wise loop is +1 on the big-endian number, modulo 2^32 |
| `Allocators.EdgeIsLimit` | pkg/pup/actions.go:50-52 | the refusal test means: above 10.70.255.255 |
| `Allocators.ScanAddresses` | pkg/pup/manager.go:85-98 | the nested loops as a fold that takes the other address as soon as one of its octets is larger |
| `Allocators.ScanFindsTop` | pkg/pup/manager.go:85-98 | an address largest in every octet, the start included, is found in any order |
| `Allocators.ScanCovers` | pkg/pup/manager.go:85-98 | if one of the addresses, or the start, is largest in every octet, the scan ends at or above all of them |
| `Allocators.ScanCanMissTop` | pkg/pup/manager.go:93-94 | if some address exceeds the largest in an octet, and the start does not hide both, the scan that meets these two last ends on the smaller one |
| `Allocators.ScanCoversFirstNet` | pkg/pup/manager.go:85-98 | inside 10.69.0.0/24 the result is the maximum |
| `Allocators.FirstFitIsUnique` | pkg/pup/actions.go:259-296 | "the smallest free ports in order" leaves no choice |
| `Allocators.SearchPort` | pkg/pup/actions.go:282-292 | one inner search ends on the smallest free port |
| `Allocators.PickPorts` | pkg/pup/actions.go:259-296 | with enough candidates: terminates with exactly the smallest free ports from 10000 up |
| `Allocators.PickedIff` | pkg/pup/actions.go:281-294 | a free port is handed out if and only if fewer free ports than wanted lie below it |
| `Allocators.SearchEndsIff` | pkg/pup/actions.go:281-294 | the search for one more port ends if and only if some free port is not handed out yet |
| `Adoption.AdoptedAddressIsFresh` | pkg/pup/actions.go:39-52 | an adopted pup's address is above every address in use and at most 10.70.255.255, short of wrapping |
| `Adoption.WrappedCounterStartsOver` | pkg/pup/actions.go:39-52 | at 2^32 the next adoption is accepted at 0.0.0.0, which breaks that invariant exactly when some pup has another address |
| `Adoption.AdoptedPortsAreFree` | pkg/pup/actions.go:54-72 | adopting keeps all assigned ports pairwise distinct |
| `Adoption.RunsKeepNetInv` | pkg/pup/actions.go:22-186 | as long as the process lives, over every run of adopt, update and purge with fewer than 2^32 attempts to adopt: live pups keep pairwise distinct addresses and ports, and the counter stays above all of them |
| `Adoption.GuardedRunsKeepFilesInv` | pkg/pup/manager.go:47-104 | the same over any number of restarts, if each adoption passes over the ports of files left by purges, and at each restart some stored address, or 10.69.0.1, is largest in every octet |
| `Adoption.CleanRunsStayClean` | pkg/pup/manager.go:47-104 | the same with restarts at any time and in any order, if every purge removes its file and 10.69.0.0/24 has an address for every attempt to adopt |
| `Adoption.EveryScanCoversIff` | pkg/pup/manager.go:85-98 | the scan ends at or above all stored addresses in every order of them if and only if one of them, or 10.69.0.1, is largest in every octet |
| `Adoption.EveryRestartKeepsNetInvIff` | pkg/pup/manager.go:47-104 | every restart of a state keeps the invariant if and only if no file left by a purge shares a port with another file and that condition holds of the stored addresses |
| `Adoption.RestartBringsLastWrite` | pkg/pup/manager.go:75-104 | a restart brings back each pup as it was last written, but for an interrupted install |
| `Adoption.AdoptionKeepsFilesApartIff` | pkg/system/updater.go:455-465 | an adoption keeps the files left by purges apart from all others if and only if each of their ports that is free has at least as many free ports below it as the new pup has web interfaces |
| `Adoption.PortsCanMeetAfterPurge` | pkg/system/updater.go:455-465 | a run of four steps from a new system after which two live pups have the same port: adopt, purge without removing the file, adopt, restart |
| `Adoption.AddressesCanMeetAfterRestart` | pkg/pup/manager.go:85-98 | a run from a new system, without a purge, in which the restart's scan misses 10.69.1.0 and that address is then handed out a second time |
| `Adoption.OwnHostPortsAvoidedIff` | pkg/pup/actions.go:54-72 | for every adoption: none of the assigned ports is one the pup itself exposes on the host, if and only if each such port that is free has at least as many free ports below it as the pup has web interfaces |
| `Adoption.OwnHostPortCanBeAssigned` | pkg/pup/actions.go:54-72 | it is assigned to every pup that exposes the smallest free port and has one web interface |
| `Adoption.AdoptionKeepsHostPortsClearIff` | pkg/pup/actions.go:259-296 | an adoption keeps assigned ports apart from all host ports if and only if no host port of the new pup has been assigned to an earlier one, and each that is free has at least as many free ports below it as the pup has web interfaces |
| `Adoption.ChangeKeepsHostPortsClearIff` | pkg/system/updater.go:848-868 | an update, such as an upgrade, does so if and only if the manifest it brings exposes no port on the host that a pup has been assigned |
| `RingBuffer.Buffer.constructor` | pkg/pups.go:175-180 | `n` zero values |
| `RingBuffer.Buffer.Add` | pkg/pups.go:182-185 | the oldest value goes, the new one is last |
| `RingBuffer.Buffer.GetValues` | pkg/pups.go:187-196 | a fresh array with the contents, oldest first |
| `RingBuffer.BufferKeepsLast` | pkg/pups.go:170-196 | after any adds: the last `n` of `n` zeros followed by everything added |
| `Ordering.SortedIsUnique` | cmd/_dbxroot/cmd/pup-write-config.go:73-78 | under a total order there is one sorted arrangement, so sorting makes the output deterministic |
| `Versions.CompareIsAntisymmetric` | pkg/system/upgrades.go:39-46 | any two versions compare, and tie if and only if they differ at most in what precedence ignores |
| `Versions.CompareIsTransitive` | pkg/system/upgrades.go:39-46 | precedence is transitive, strictly if either step is strict |
| `Versions.SectionElevenChain` | pkg/system/upgrades.go:39-46 | the example chain of section 11.4.4 of Semantic Versioning 2.0.0 is strictly increasing |
| `Versions.CompareIsPrecedence` | pkg/system/upgrades.go:39-46 | for all versions, comparing is precedence as sections 11.2 to 11.4 of Semantic Versioning 2.0.0 state it: the first different number decides, a pre-release comes before its release, identifiers by their first difference |
| `Migration.ListingHolds` | pkg/system/upgrades.go:126-152 | the list holds exactly the tags of higher precedence than the current release, pre-releases only if wanted; none comes after one of lower precedence |
| `Migration.UpgradableReleases` | pkg/system/upgrades.go:126-152 | the tags newer than the current release, pre-releases only if wanted, newest first, with their multiplicity |
| `Migration.Migrator.MarkCompleted` | pkg/system/migrations/core/state.go:110-122 | both flags of that record set, its config and all other records kept, or no change if saving fails |
| `Migration.Migrator.Requirements` | pkg/system/migrations/definitions/os_flake.go:103-128 | applies exactly when not in recovery and the decision is incomplete without a reason; a complete one is recorded |
| `Migration.Migrator.Run` | pkg/system/migrations/definitions/os_flake.go:130-163 | queues the target of its own decision, reason or not, unless an update is active |
| `Migration.Migrator.RunMigrations` | pkg/system/migrations/core/runner.go:59-130 | one start: nothing for a record that ran or must not run, the run only after the requirements, what is queued is returned |
| `Migration.DoSystemUpdate` | pkg/system/upgrades.go:279-337 | refused exactly when the tags cannot be read, the package is not "os", or the release is not among the tags or of no higher precedence than the current one |
| `Boots.TargetIs` | pkg/system/migrations/definitions/os_flake.go:198-240 | the target is the current release once that has reached the threshold, else the newest eligible one; no reason if and only if it is newer than the flake |
| `Boots.QueuedTargetIsNewer` | pkg/system/migrations/definitions/os_flake.go:103-240 | if both passes read the same tags, a queued target is strictly newer than the installed flake |
| `Boots.QueuedTargetIsNewerIff` | pkg/system/migrations/definitions/os_flake.go:130-163 | in general it is newer if and only if the run's own tags hold a newer eligible release or the current release is in range |
| `Boots.ChangedTagsCanQueueAny` | pkg/system/migrations/definitions/os_flake.go:130-163 | with tags that change between the passes any release newer than the current one can be queued |
| `Boots.EffectSettles` | pkg/system/upgrades.go:291-311 | an update that changes anything leaves a world in which none can |
| `Boots.SettledStays` | pkg/system/migrations/definitions/os_flake.go:165-240 | and that world stays so |
| `Boots.AtMostOneUpdate` | pkg/system/migrations/core/runner.go:59-130 | with fixed tags and setting, over any number of boots and failures at most one update changes anything |
| `Boots.CompletedIsFinal` | pkg/system/migrations/core/runner.go:105-130 | once recorded, no later boot queues or changes anything |
| `Boots.RecordedIffReached` | pkg/system/migrations/definitions/os_flake.go:82-128 | the record is written if and only if flake and release have both reached v0.9.0-rc.1, the machine is not in recovery, the flake can be read and the records can be written; then the migration may not run again and nothing is queued |
| `Boots.ReachedIsRecordedOnce` | pkg/system/migrations/core/runner.go:59-130 | over any boots once both have reached it: nothing is ever queued, and the migration stays allowed if and only if no boot could write the record |
| `Boots.QueuedIff` | pkg/system/migrations/definitions/os_flake.go:97-240 | when both passes see the same: an update is queued if and only if the migration is switched on, there is a newer release or an unfinished activation to install, the machine is not in recovery, and no system update is active |
| `Boots.DecisionIs` | pkg/system/migrations/definitions/os_flake.go:165-240 | every error, completion and every reason of a decision, each if and only if, by precedence alone |
| `Boots.PartialActivationIsQueued` | pkg/system/migrations/definitions/os_flake.go:207-217 | a partial activation queues the current release at every boot that can read the tags |
| `Boots.PartialActivationIsNeverRepaired` | pkg/system/upgrades.go:291-311 | and over every run of boots with any tags it is never repaired or recorded |
| `ConfigEnv.ReplacingTwiceEscapes` | cmd/_dbxroot/cmd/pup-write-config.go:88-89 | the two replacements are one escaping pass |
| `ConfigEnv.FileIsDetermined` | cmd/_dbxroot/cmd/pup-write-config.go:72-78 | the text depends on the map alone |
| `ConfigEnv.KeysAscend` | cmd/_dbxroot/cmd/pup-write-config.go:72-78 | keys ascend by the character where they first differ |
| `ConfigEnv.QuotedCharacters` | cmd/_dbxroot/cmd/pup-write-config.go:86-91 | exactly tab, newline, space, quotes, dollar, backslash and backquote call for quotes |
| `ConfigEnv.WriteConfig` | cmd/_dbxroot/cmd/pup-write-config.go:72-98 | one line for each key in order, quoted where needed, each with its newline; nothing for an empty map |
| `ConfigEnv.ReadQuoted` | cmd/_dbxroot/cmd/pup-write-config.go:86-91 | the reader undoes the escaping inside double quotes, for every text |
| `ConfigEnv.ReadLine` | cmd/_dbxroot/cmd/pup-write-config.go:81-98 | a line with a surviving value is read as that one assignment and does not reach into the next |
| `ConfigEnv.ReadBrokenLine` | cmd/_dbxroot/cmd/pup-write-config.go:81-98 | an unquoted value with a carriage return is never read back, and its line does not reach into the next |
| `ConfigEnv.RoundTrip` | cmd/_dbxroot/cmd/pup-write-config.go:72-98 | for every map with well-formed keys, reading the file gives back the map if and only if every value needs quotes or has no carriage return |
| `ConfigEnv.BareReturnIsLost` | cmd/_dbxroot/cmd/pup-write-config.go:81-98 | for every well-formed key, no value comes back that has a carriage return and none of those characters |
| `Deps.InstalledAreOffering` | pkg/pup/deps.go:69-84 | the pups listed as installed are exactly those offering the interface within the constraint |
| `Deps.FindInstalled` | pkg/pup/deps.go:69-84 | each listed once for every matching interface |
| `Deps.CalculateDeps` | pkg/pup/deps.go:51-166 | one report for each dependency in order; an unreadable constraint gives the bare report; the installable ones are exactly the matching source pups not installed by location and name, none twice, newest first where all versions can be read |
| `Deps.ReportSays` | pkg/pup/deps.go:51-166 | who is installed and what is installable, in terms of interfaces, names, versions and locations alone |
| `Deps.NewestProvidersFirst` | pkg/pup/deps.go:145-155 | where all versions can be read, none comes before one of higher precedence |
| `Deps.FindInstallable` | pkg/pup/deps.go:97-143 | the same before sorting |
| `Deps.AddPup` | pkg/pup/deps.go:100-141 | however many interfaces match, a source pup is added at most once |

## Left out

- Request handlers and user interfaces beyond the steps of `deleteJob`, and the code that talks to other programs or to hardware (key manager, package evaluation, repositories, storage, wireless, service manager): it keeps no state that the results depend on. A modelled function that calls it gets a success or a failure, either one.
- Errors of store reads and writes in `pkg/jobs.go` and of `Stat` and `ReadAt` in `pkg/system/logtailer.go`: assumed not to occur. SQLite, JSON and gob are a map and copies of values.
- Records of the job cache are values. The source hands out references to cached records, so a caller can see a later change of a record it holds; that aliasing is not captured.
- Times are integers; the source compares some of them as RFC 3339 text inside SQL.
- Job ids are taken to be fresh and not empty (random in the source), and the job manager to be set.
- `Pipeline` lets progress reports happen at any time and for any id instead of at the log lines of the source, which only adds interleavings. The periodic orphan scan of the main loop is one of the scanning threads there, which also only adds interleavings.
- `Lifecycle` runs one updater job as one step. Requests that change a pup's settings happen between jobs there, not in the middle of one. Of the state file of a job that failed it is only known that no other file changed, and restarts come between jobs (`Lifecycle.RestartIsSafe` holds of any files, so also of those a restart in the middle of a job finds). A manifest is a value: the source never writes into the slices of one.
- Pups.PupManager.AdoptPup: requires that enough ports are free, since the search of `nextAvailablePorts` has no upper end and does not return otherwise (`Allocators.SearchEndsIff` says exactly when it ends). A failure to read random bytes is not modelled.
- Health details (`NeedsConf`, `NeedsDeps`), hooks, skipped versions, metrics other than `Buffer`, development mode and its services: they do not interact with the properties proved.
- Migration: HasFullyConfigured and the start-up order are not modelled beyond one optional pass per boot. The DBX release file is read the same way throughout a boot. Between boots only the migration's own updates change versions; updates a user asks for are not part of the runs.
- Boots.AtMostOneUpdate: holds for fixed tags, as stated; tags that change can offer a further update.
- The version library's parsing of text is not modelled: versions are values, and `suffix` stands for what precedence ignores. `Deps` takes parsing and constraints as parameters.
- Deps.CalculateDeps: states no order for installable providers when some version cannot be read, because the comparison of the source is then not an order.
- ConfigEnv: systemd's own source is not part of this repository; the reader follows its parser of environment files. Its later checks of names and values, values with NUL characters, and the encoding of text as bytes are not modelled.
- Library sorts are an insertion sort here; what is stated of them is only that the result is sorted and a permutation.
- `createOrphanCandidateJob` breaks the runtime invariant on purpose, in development mode. `SyncWithActiveJobs`, display names, log text and event emission are bookkeeping without effect on the rest.
- The rollback of `pkg/system/nix/nix-patch.go:197-226`: the state is set to rolling back before the test for applying, so the restore does not run and failure atomicity does not hold of it.
- `LineWriter` in `pkg/action_logger.go:219-242` emits partial lines and buffers them again, and the live tail loop of `pkg/system/logtailer.go:64-81` drops bytes that come with the end of the file, so no complete line splitting holds of either.
- Config coercion (`pkg/config_fields.go`) turns submitted values into text before `SetPupConfig` sees them, and manifest validation (`pkg/manifest.go`) rejects manifests before a source offers them: the properties hold for any text and any manifest, so they do not depend on either.
- Source and session lists (`pkg/sources`, `pkg/web/session.go`) supply manifests and admit requests; here any manifest may be fetched and any request may come.
- `derivePupStatusFromProc` computes a display status from systemd's view, which nothing modelled reads. `importBlockchainData` changes only the enabled flag of one pup around an outside command, which `Lifecycle` allows at any time as an `Edit`.
