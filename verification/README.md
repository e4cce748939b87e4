# Job ingestion, verified

A Dafny model of a job-ingestion service and of the guarantees it is built on: writes that can be
repeated, crashes that can be repaired by running again, no record dropped without a reason, and
pages that neither skip nor repeat. `dafny verify dfyconfig.toml` checks all of it.

The worker's objects are classes with the fields the source keeps (`JobLoader`, `SyncRepository`,
`RejectionBuffer`, `IngestionPipeline`). Their methods follow the source's loops and are proved
against specification functions; the guarantees are theorems about those functions and about
histories of their steps. Pure services are functions.

| part | modules |
|---|---|
| tables and one load | `Schema`, `LoadSpec`, `Loader`, `LoadEffects`, `LoadDetails` |
| histories of loads and retention | `History`, `Origins`, `Reachable`, `EventLog`, `CrashRecovery`, `Retention` |
| runs, files, rejections | `Sync`, `RunLock`, `Preparation`, `Batching`, `Pipeline`, `Watcher` |
| reading | `Filters`, `Keyset`, `Base64`, `Cursors`, `Paging`, `Freshness` |
| matching | `Dedupe`, `ContentHashes`, `Urls` |
| placing | `ReferenceData`, `Location`, `FreeText`, `Placement` |
| shared | `Prelude`, `Sorting`, `Text`, `Words` |

A load is a relation: when several stored jobs carry a row's key, the query's row order decides
which one it joins, so the theorems hold for every choice. A history is a sequence of states in
which each step is a load, a rollback or a retention statement, in any order. Failures of the
worker are nondeterministic: an exception, an interrupt that handlers do not see, or a kill.

## Where the code and its words differ

The model follows the code. The differences below are theorems or clauses of theorems.

- A job seen again with the same content hash keeps its status and dates, whatever the new row
  says (`Origins.EqualHashFreezes`). The hash also misses changes when its separator stands in a
  field, except where white space guards it (`ContentHashes.ContentHashExactly`).
- Rows merged into one job overwrite each other's content on every replay
  (`Origins.MergedRowsFlipFlop`, `Reachable.FlipFlopIsReachable`); bindings never move
  (`History.BindingStable`).
- Only the last of several new rows with one key is offered to a stored job
  (`History.MergeExactly`, `Reachable.DuplicateIsReachable`).
- A failed file claims the one batch that was rolled back, if one was
  (`Pipeline.IngestionPipeline.ProcessFile`).
- A currency of three letters beyond A to Z is not turned into NULL and aborts the batch
  (`Preparation.HryvniaAbortsBatch`, `Reachable.HryvniaIsReachable`).
- A bucket does go back for a row whose update is dated ahead of the clock
  (`Freshness.BucketsOnlyAge`, `Freshness.BucketGoesBack`).
- The canonical URL depends on the fragment and is no fixed point when white space ends the path
  (`Urls.NoiseIsIgnored`, `Urls.CanonicalTwice`).
- PARTIAL cannot be reached, since the first failed file ends the run; an interrupted run writes
  PENDING and so keeps the lock (`Pipeline.IngestionPipeline.Run`, `RunLock.LateFinish`).
- A run that was reclaimed as FAILED while its worker was only slow turns SUCCEEDED later
  (`RunLock.SlowWorkerIsReclaimed`).
- A file without an etag is never planned (`Watcher.PendingExactly`), and `max_files=0` plans
  everything (`Watcher.PlanIsBounded`).
- The sample limit of detailed rejections holds per buffer, that is per file and not per run
  (`Sync.RejectionBuffer.Finalize`).
- With nothing out of window, retention skips the cleanup of orphaned events
  (`Retention.CleanupNeedsADelete`).
- Paging by a nullable key drops the rows without one beyond the first page
  (`Keyset.WalkIsComplete`).
- A city alone does make a job American when it is a state code or a metro shorthand
  (`Location.CityAlonePromotes`).
- A valid US state code is evidence of an Indian job when India has the same code
  (`Location.BareStateCode`, `Location.SharedCodes`); the late search for a remote-US phrase is
  dead code (`Location.LateStepIsDead`).
- Of the text "Remote - Detroit, MI" the city that is read is "Remote - Detroit"
  (`Placement.RemoteStaysInCity`).

## Model

| member | source | states |
|---|---|---|
| Loader.JobLoader.Load | workers/ingestion/ingestion/repositories/jobs.py:129-155 | One batch is one atomic step: with the merge targets the dedupe queries chose, the tables become exactly those `Loaded` names, which `LoadDetails` states column by column, and the counters match the four-way split; if any written row breaks a CHECK constraint nothing changes |
| Loader.JobLoader.LookUp | workers/ingestion/ingestion/repositories/jobs.py:337-357 | The level-one lookup returns exactly the batch rows already bound, with their job id, stored hash and status |
| Loader.JobLoader.FindMergeTargets | workers/ingestion/ingestion/repositories/jobs.py:606-648 | The two dictionary loops give a valid choice of targets: per URL hash only the last new row is offered, the fingerprint only to rows no URL claimed, any stored job with the key may answer |
| Loader.Split | workers/ingestion/ingestion/repositories/jobs.py:359-367 | The loop over the batch yields the insert, merge, changed and unchanged rows, each in order |
| Loader.JobLoader.InsertFresh | workers/ingestion/ingestion/repositories/jobs.py:369-463 | Each fresh row creates one job, its primary provenance row and one event, or the constraint refuses the batch |
| Loader.JobLoader.AttachMerges | workers/ingestion/ingestion/repositories/jobs.py:465-498 | Each merged row adds a non-primary provenance row recording the level, and one event; no job changes |
| Loader.JobLoader.TouchUnchanged | workers/ingestion/ingestion/repositories/jobs.py:501-519 | The loop over the unchanged rows leaves what `TouchAll` names: of each of their jobs last_seen_at moves and nothing else (after the whole load: LoadDetails.OldJobInFull) |
| Loader.JobLoader.ApplyChanges | workers/ingestion/ingestion/repositories/jobs.py:521-590 | A changed row overwrites the columns, keeps company, location and industry when it brings none, never touches first_seen_at, and writes the event its status transition calls for |
| Loader.JobLoader.RefreshSources | workers/ingestion/ingestion/repositories/jobs.py:592-602 | Exactly the provenance rows of the batch have last_seen_at refreshed |
| LoadEffects.LoadHasEffect | workers/ingestion/ingestion/repositories/jobs.py:325-602 | What a whole load does to every binding, key and job, stated entry by entry: old bindings stay, new rows are bound to the job they created or to their target, and an old job is written only through a changed row bound to it |
| LoadEffects.LoadEvents | workers/ingestion/ingestion/repositories/jobs.py:653-683 | A load appends exactly inserted + merged + updated events and rewrites none |
| EventLog.LoadKeepsLogged | workers/ingestion/ingestion/repositories/jobs.py:653-683 | A load logs each creation and each merge exactly once |
| EventLog.LogInvariant | workers/ingestion/ingestion/repositories/jobs.py:653-683 | In every state of every history of loads, rollbacks and retention that starts empty, each live job has exactly one creation event and exactly as many merge events as merged provenance rows |
| LoadDetails.OldJobInFull | workers/ingestion/ingestion/repositories/jobs.py:501-590 | Every stored job after a load: seen now if and only if a known row of the batch is bound to it; content, company, location and industry those of the last bound row that differs and brings one, updated now; all else kept |
| LoadDetails.NewJobInFull | workers/ingestion/ingestion/repositories/jobs.py:369-463 | Every new job after a load, column by column: the row’s content with titles cut to 500 characters, the ids the upserts returned, both detection times now, never updated; one job for each new row nothing claims, in order |
| LoadDetails.ProvenanceInFull | workers/ingestion/ingestion/repositories/jobs.py:369-602 | Every provenance row after a load: those of the batch are seen now, the others keep their instant; a new one is bound as primary to the job it created, or as an extra to its target’s with the level |
| LoadDetails.EventsInFull | workers/ingestion/ingestion/repositories/jobs.py:369-590 | The whole log after a load: what it was, then a creation for each inserted row, a merger for each merged one, and for each changed row EXPIRED, REACTIVATED or UPDATED by the job’s status and the row’s, carried in that order |
| LoadDetails.CountsInFull | workers/ingestion/ingestion/repositories/jobs.py:101-121 | The counters count the rows of each kind, kinds told by what the tables held before; as many jobs are new as were inserted |
| History.CountersPartition | workers/ingestion/ingestion/repositories/jobs.py:101-121 | inserted + updated + unchanged + merged is the size of the batch, for every state and every choice of targets |
| History.EffectKeepsConsistent | workers/ingestion/ingestion/repositories/jobs.py:369-498 | A load keeps: every job has exactly one primary provenance row and no provenance row dangles |
| History.StepPreserves | workers/ingestion/ingestion/repositories/jobs.py:325-602 | Every load, rollback and retention step keeps that invariant, detection times, job sources and the bindings of jobs that stay |
| History.HistoryInvariant | workers/ingestion/ingestion/repositories/jobs.py:369-590 | Over every history of loads (replays in any order), rollbacks and retention passes: one primary row a job, no dangling row, ids never reused, first_seen_at never changes, no row moves to another job |
| History.BindingStable | workers/ingestion/ingestion/repositories/jobs.py:337-367 | Once a source id is bound to a job no later load of any history rebinds it, and the job stays |
| History.KnownRowsAreQuiet | workers/ingestion/ingestion/repositories/jobs.py:359-367 | Loading rows that are all known inserts 0, merges 0 and creates neither job nor provenance row |
| History.ReloadIsQuiet | workers/ingestion/ingestion/repositories/jobs.py:337-498 | Loading a batch again at any later point of a history of loads inserts 0, merges 0, and leaves the sets of jobs and bindings alone |
| History.MergeSound | workers/ingestion/ingestion/repositories/jobs.py:606-648 | A new row is attached to an old job only if that job stored its URL hash (recorded as L2) or its fingerprint (recorded as L4) before the batch; otherwise it created its own job |
| History.MergeComplete | workers/ingestion/ingestion/repositories/jobs.py:606-648 | When the new rows of a batch have pairwise distinct keys, a row merges if and only if some stored job has its URL hash or fingerprint, and by URL if and only if a URL matches |
| History.MergeExactly | workers/ingestion/ingestion/repositories/jobs.py:606-648 | For every loadable batch: a new row is attached to an existing job if and only if it is the last with its URL hash and some job stores that (recorded as L2), or else the last with its fingerprint among the rows without such a match and some job stores that (recorded as L4) |
| History.EarlierTwinIsInserted | workers/ingestion/ingestion/repositories/jobs.py:622-634 | Of two new rows with one URL that a job stores, the earlier never joins by it: it becomes a job of its own unless its fingerprint hits |
| Reachable.DuplicateIsReachable | workers/ingestion/ingestion/repositories/jobs.py:622-634 | A history from empty tables in which exactly that happens: a second job is inserted beside the stored match |
| Origins.KeysHaveOrigin | workers/ingestion/ingestion/repositories/jobs.py:685-732 | In every history that starts empty each stored job carries the fingerprint, URL hash and content hash of some row an earlier step loaded |
| Origins.MergeJoinsEquals | workers/ingestion/ingestion/services/dedupe.py:191-202 | Over every such history, a row merged by fingerprint joins a job that carries the keys of a posting equal in company key, title key, country, state, city key and description digest; one merged by URL, of a posting with the same canonical URL |
| Origins.EqualHashFreezes | workers/ingestion/ingestion/repositories/jobs.py:501-519 | A load leaves a job’s columns alone if and only if every batch row bound to it has the stored content hash: a new status or new dates alone are never written |
| Origins.LoneRowDecides | workers/ingestion/ingestion/repositories/jobs.py:501-590 | The only row bound to a job writes the job’s columns exactly when its hash differs |
| Origins.MergedRowsFlipFlop | workers/ingestion/ingestion/repositories/jobs.py:521-590 | From any state, loading one and then the other of two rows bound to one job leaves the job alone the second time if and only if their hashes agree; otherwise it overwrites the job and reports an update |
| Reachable.FlipFlopIsReachable | workers/ingestion/ingestion/repositories/jobs.py:521-590 | A history from empty tables in which two rows with one URL, merged by it, overwrite their job in turn |
| CrashRecovery.ReplayAbsorbed | workers/ingestion/ingestion/repositories/jobs.py:501-590 | Replaying rows that were all just observed changes no fact, even when ids repeat among them with different contents |
| CrashRecovery.RestartAbsorbed | workers/ingestion/ingestion/pipeline/process.py:226-254 | A prefix observed, then the whole list: the same facts as the whole list alone |
| CrashRecovery.LoadTracks | workers/ingestion/ingestion/repositories/jobs.py:325-602 | For a merge-free file a load changes the job content and provenance seen at each source id exactly as its row, if any, says |
| CrashRecovery.StaysMergeFree | workers/ingestion/ingestion/repositories/jobs.py:606-648 | Merge-freedom is kept by loading the file’s own batches |
| CrashRecovery.HistoryTracks | workers/ingestion/ingestion/pipeline/process.py:226-254 | So after any history of loads and rollbacks the fact at each id is the fold of the rows loaded |
| CrashRecovery.AttemptsAbsorbed | workers/ingestion/ingestion/pipeline/process.py:226-254 | Any number of crashed attempts, each after any number of batches, followed by a complete one fold to the same fact as one pass |
| CrashRecovery.CrashEquivalence | workers/ingestion/ingestion/pipeline/process.py:209-254 | Crash equivalence over the real load transitions: any number of crashes after any prefixes, then a full run, leave the same columns and provenance at every source id as one uninterrupted run |
| Sync.SyncRepository.StartRun | workers/ingestion/ingestion/repositories/sync.py:144-193 | A run starts exactly when the source has no PENDING or RUNNING row; otherwise nothing changes |
| Sync.SyncRepository.ReclaimStaleRuns | workers/ingestion/ingestion/repositories/sync.py:226-257 | Exactly the active rows of the source older than the window become FAILED |
| Sync.SyncRepository.FinishRun | workers/ingestion/ingestion/repositories/sync.py:195-224 | A finish by anyone is written unless it would give the source a second active row |
| Sync.SyncRepository.StartFile | workers/ingestion/ingestion/repositories/sync.py:336-381 | A fresh RUNNING file row that claims 0 rows |
| Sync.SyncRepository.CheckpointFile | workers/ingestion/ingestion/repositories/sync.py:383-414 | Only the row count of that file changes |
| Sync.SyncRepository.FinishFile | workers/ingestion/ingestion/repositories/sync.py:416-443 | A file takes its final status and count; a second SUCCEEDED row of one path and version is refused |
| Sync.DoneExactly | workers/ingestion/ingestion/repositories/sync.py:313-334 | A version counts as done exactly if a file of the source at that path and version SUCCEEDED |
| Sync.SyncRepository.RecordRejections | workers/ingestion/ingestion/repositories/sync.py:473-509 | One example row per rejection, in order |
| Sync.SyncRepository.RecordRejectionCounts | workers/ingestion/ingestion/repositories/sync.py:511-535 | Each tallied reason is stored with its count, as no example |
| Sync.RejectionBuffer.Add | workers/ingestion/ingestion/repositories/sync.py:587-597 | After each add the buffer balances per reason (stored + pending + tallied = added), at most 100 examples are kept per reason, and fewer than 500 are pending |
| Sync.RejectionBuffer.Flush | workers/ingestion/ingestion/repositories/sync.py:599-603 | Moving the pending examples to the table keeps every balance |
| Sync.RejectionBuffer.Finalize | workers/ingestion/ingestion/repositories/sync.py:605-611 | Nothing stays behind: per reason the stored occurrences grew by exactly the number added, and the examples by at most 100 |
| RunLock.AtMostOneActive | workers/ingestion/ingestion/repositories/sync.py:144-257 | In every state reachable by starts, refusals, reclaims, crashes and finishes (late ones included) a source has at most one active row |
| RunLock.ReclaimThenStart | workers/ingestion/ingestion/repositories/sync.py:226-257 | Reclaim-then-start succeeds if and only if every active row of the source is past the window |
| RunLock.LockAlwaysRecovers | workers/ingestion/ingestion/pipeline/process.py:144-155 | Whatever happened up to a moment, once the clock is past it by more than the window and the source was not started again, reclaim-then-start succeeds |
| RunLock.OnlyTheNewestRuns | workers/ingestion/ingestion/repositories/sync.py:144-193 | In every state reachable without a finish that writes RUNNING, only the newest run of a source can be RUNNING |
| RunLock.LateFinish | workers/ingestion/ingestion/repositories/sync.py:195-224 | A late finish makes a free source active again exactly when it writes PENDING or RUNNING |
| RunLock.SlowWorkerIsReclaimed | workers/ingestion/ingestion/repositories/sync.py:226-257 | A reachable run of the machine in which a slow worker is reclaimed, a second run starts beside it, and the late finish turns FAILED into SUCCEEDED |
| Preparation.RejectionHasReason | workers/ingestion/ingestion/pipeline/process.py:302-436 | A record that is not kept left at least one reason; a kept one yields a row with its source and id |
| Preparation.PreparedRow | workers/ingestion/ingestion/pipeline/process.py:437-472 | What is stored of a kept record: EXPIRED exactly when its lower-cased raw status is closed, else ACTIVE; its own closing date, or the fetch time only for a closed record without any; the believable salaries in ascending order, a lone one as minimum; its posting date, trusted exactly between the first allowed instant and the last; a currency of three letters; all else as drafted |
| Preparation.KeptExactly | workers/ingestion/ingestion/pipeline/process.py:311-436 | A record is kept if and only if validation, country, age window and category all let it pass, and its reasons are those of the first that does not, behind that of a date not trusted |
| Preparation.PreparedMeetsChecks | workers/ingestion/ingestion/pipeline/process.py:437-472 | The prepared row meets the CHECK constraints if and only if it is not a closed record without any closing or fetch time, and neither its currency is three letters that are not A to Z nor its country other than two ASCII capitals: salaries, malformed currencies and dates never abort a batch |
| Preparation.AsciiCurrencyIsSafe | workers/ingestion/ingestion/pipeline/process.py:576-585 | A currency written in ASCII is never such a stray one |
| Preparation.AllowlistIsSafe | workers/ingestion/ingestion/pipeline/process.py:341-357 | A country allowlist of ASCII codes keeps stray countries out |
| Preparation.HryvniaAbortsBatch | workers/ingestion/ingestion/pipeline/process.py:576-585 | A kept record whose currency is written in Ukrainian makes every batch that would insert it one the constraints refuse |
| Reachable.HryvniaIsReachable | workers/ingestion/ingestion/pipeline/process.py:576-585 | Such a record exists: with an allowlist, the age gate and any clock it passes every stage, its batch on empty tables is one the loader takes, and the transaction is refused for every choice of merge targets |
| Preparation.GateAgreesWithRetention | workers/ingestion/ingestion/pipeline/process.py:388-412 | With the fallback on and equal windows the age gate passes a record if and only if retention would keep the job it becomes |
| Preparation.GateIsStricterWithoutFallback | workers/ingestion/ingestion/pipeline/process.py:388-412 | With the fallback off the gate passes exactly the records with a trusted date that retention would keep |
| Origins.GatedJobSurvives | scripts/enforce_retention.py:36-41 | End to end through a load: a job just inserted through the gate is not among the jobs retention removes at the same instant |
| Batching.FeedAllInvariant | workers/ingestion/ingestion/pipeline/process.py:256-298 | At every point of the stream: batches and open rows are the accepted rows in order, yielded batches have exactly the chunk size and no repeated id, refusals are covered by reasons |
| Batching.RefusedExactly | workers/ingestion/ingestion/pipeline/process.py:271-286 | A record is refused if and only if its stages rejected it or the batch being filled already holds its id |
| Batching.ReasonsExactly | workers/ingestion/ingestion/pipeline/process.py:271-290 | The reasons recorded are the records’ own in order, and the repeat for each record only that refused |
| Batching.BatchesPartition | workers/ingestion/ingestion/pipeline/process.py:256-298 | The batches partition the accepted rows in order into non-empty chunks of at most the chunk size; with the refused ones they are all the records |
| Batching.BatchesAreLoadable | workers/ingestion/ingestion/pipeline/process.py:278-298 | Every batch is one the loader accepts |
| Batching.YieldedStays | workers/ingestion/ingestion/pipeline/process.py:292-298 | The batches of a prefix of the records begin the batches of all |
| Pipeline.IngestionPipeline.CommitBatch | workers/ingestion/ingestion/pipeline/process.py:226-245 | Data and checkpoint move together or not at all; each write counter then grows by its own part of what the batch did, unless the worker is stopped after the commit |
| Pipeline.IngestionPipeline.BreakRecord | workers/ingestion/ingestion/pipeline/process.py:271-274 | A record broken off inside its stages is counted as processed, and some first of its reasons are recorded |
| Pipeline.IngestionPipeline.TakeRecord | workers/ingestion/ingestion/pipeline/process.py:271-290 | One turn of the generator: counters, reasons, open batch and seen ids follow the specified stream |
| Pipeline.IngestionPipeline.LoadRecords | workers/ingestion/ingestion/pipeline/process.py:226-245 | However it ends, the committed batches are a prefix of the file’s batches; counters and reasons are those of the decided records and the committed rows, but for the one batch committed and not counted or the one record counted and not decided; the worker’s own count is ahead by exactly the batch that was rolled back, if one was |
| Pipeline.IngestionPipeline.AttemptFile | workers/ingestion/ingestion/repositories/sync.py:554-568 | Exactly the reasons recorded are stored, per reason; if the process is killed, no more than those |
| Pipeline.IngestionPipeline.FinishAttempt | workers/ingestion/ingestion/pipeline/process.py:246-254 | A completed attempt may still fail at its last write; an interrupt leaves the row RUNNING |
| Pipeline.IngestionPipeline.ProcessFile | workers/ingestion/ingestion/pipeline/process.py:209-254 | Checkpoint truth at every way an attempt can end: a SUCCEEDED or RUNNING file claims exactly its committed rows, a FAILED one if and only if the exception did not come out of a batch’s transaction, and otherwise that batch on top; the loads form a recorded history from the state before |
| Pipeline.IngestionPipeline.ProcessPlan | workers/ingestion/ingestion/pipeline/process.py:180-183 | However it ends, the loads form one recorded history from the tables before to those after: its batches, the records counted and the reasons stored are a first part of those of the planned files in order. If all planned files complete they are all of them, exactly their versions are newly done and the run’s counters conserve records |
| Pipeline.IngestionPipeline.Run | workers/ingestion/ingestion/pipeline/process.py:132-199 | A run is refused exactly when another is active after the reclaim. Otherwise its row ends SUCCEEDED exactly if every planned file completed, FAILED after an exception, PENDING after an interrupt, RUNNING after a kill, never PARTIAL. What it wrote, counted and stored is a first part of the batches, records and reasons of the planned files in order, the write counters short of it by the last batch at most, and all of them in a success, which leaves processed = rejected + inserted + updated + unchanged + merged |
| Pipeline.RestartEquivalence | workers/ingestion/ingestion/pipeline/process.py:209-254 | Crash equivalence for the attempts the pipeline records: however often a merge-free file was broken off, a completed attempt leaves the content and provenance one undisturbed attempt would have left |
| Pipeline.CompletedConserves | workers/ingestion/ingestion/pipeline/process.py:256-298 | For a file that succeeds: rows processed = rows rejected + inserted + updated + unchanged + merged, and processed is the number of records |
| Watcher.PendingExactly | workers/ingestion/ingestion/pipeline/process.py:203-207 | A listed file is pending if and only if its version is not done and it has an etag (or a twin with an empty one): a file without an etag is never planned on its own account |
| Watcher.AnswerExactly | scripts/has_new_file.py:113-129 | The three answers: the watcher cannot tell exactly without a window or a listing; else it says nothing is new if and only if each of the newest files is done at its version, and else that something is |
| Watcher.WatcherConverges | scripts/has_new_file.py:106-129 | After a successful run that may take at least the window, the watcher says nothing is new if and only if every watched file was done or plannable |
| Watcher.BacklogShrinks | workers/ingestion/ingestion/pipeline/process.py:165-168 | With etags, each successful run removes exactly the newest min(max_files, pending) files from the pending list |
| Watcher.BacklogDrains | workers/ingestion/ingestion/pipeline/process.py:165-168 | After k successful runs max(0, pending - k * max_files) files are left |
| Watcher.RunsToDrain | workers/ingestion/ingestion/pipeline/process.py:165-168 | The backlog is empty after k runs if and only if k >= ceil(pending / max_files) |
| Watcher.PlanIsBounded | workers/ingestion/ingestion/pipeline/process.py:165-168 | The plan has at most max_files files if and only if max_files is at least 1, or 0 with nothing pending; 0 plans the whole list and a negative value all but the oldest |
| Retention.DeleteOldJobs | scripts/enforce_retention.py:129-163 | The batched loop terminates, deletes exactly the out-of-window jobs with their provenance rows, and counts them |
| Retention.ExpireOldJobs | scripts/enforce_retention.py:129-163 | The expire-only loop terminates, marks exactly the unexpired out-of-window jobs, and counts them |
| Retention.Enforce | scripts/enforce_retention.py:85-209 | The executed script: disabled, nothing to do, expire, or delete followed by the orphan cleanup |
| Retention.ExpiredIsExact | scripts/enforce_retention.py:129-163 | Expiring marks exactly the unexpired jobs older than the cutoff by their best date, keeps a closing date they have, and touches nothing else |
| Retention.DeletedIsExact | scripts/enforce_retention.py:190-209 | After a delete and its cleanup exactly the in-window jobs remain unchanged, with exactly their provenance rows and events |
| Retention.CleanupNeedsADelete | scripts/enforce_retention.py:114-116 | No event refers to a missing job afterwards if and only if the pass deleted something or there was no orphan before: with nothing out of window the script returns early |
| Freshness.ImplementationsAgree | apps/api/app/routers/jobs.py:128-158 | The API’s bucket and the service’s are the same for all rows and clocks, and neither is ever POSTED_TODAY |
| Freshness.ClassifyExactly | workers/ingestion/ingestion/services/freshness.py:103-147 | Each bucket by its bounds in microseconds and calendar days |
| Freshness.BucketsOnlyAge | workers/ingestion/ingestion/services/freshness.py:103-147 | As the clock advances over an unchanged row the bucket moves to an earlier one if and only if the row is live, was first seen at least six hours ago on another day, has no trusted posting younger than a day, and its update is dated on a later day than the earlier clock’s, which is the later clock’s |
| Freshness.BucketGoesBack | workers/ingestion/ingestion/services/freshness.py:103-147 | A concrete row that is old on one day and updated today on the next |
| Freshness.NoUpdateAhead | workers/ingestion/ingestion/services/freshness.py:103-147 | So it never moves back for a row whose last update is not after the clock |
| Filters.BuildWhere | apps/api/app/repositories/jobs.py:411-481 | In SQL’s three-valued logic the composed clause is true of exactly the rows that meet every set filter by a value they have |
| Filters.EachFilterAlone | apps/api/app/repositories/jobs.py:411-481 | What each filter asks of its own column when it alone is set; with none set every row is wanted |
| Filters.FiltersConjoin | apps/api/app/repositories/jobs.py:411-481 | All filters together ask what each asks alone |
| Filters.PrefixExactly | apps/api/app/repositories/jobs.py:428-431 | LIKE with an appended % is the prefix test for exactly the texts without LIKE’s own characters |
| Filters.CityIsPrefix | apps/api/app/repositories/jobs.py:428-431 | For a city without those characters the filter keeps exactly the rows whose city begins with it, in any case; for every other city it keeps some row whose city does not |
| Filters.FacetIsCount | apps/api/app/repositories/jobs.py:253-273 | A category facet’s number is the count of the listing narrowed to that category |
| Keyset.SortedIsOrdered | apps/api/app/repositories/jobs.py:34-53 | The ORDER BY is a strict total order on rows with distinct ids; its list is a permutation of the table |
| Keyset.FilterSorted | apps/api/app/repositories/jobs.py:153-171 | Selecting then sorting is sorting then selecting |
| Keyset.Search | apps/api/app/repositories/jobs.py:122-173 | A page by the column its sort names (posted_at, first_seen_at or salary_max): in descending order, rows without it last, ties by the greater id; only wanted rows after the cursor, and when one is left out the page is full and ranks before it; a cursor is minted exactly then, and holds the last row’s value of the column and its id |
| Keyset.RemainingAfter | apps/api/app/repositories/jobs.py:34-53 | After a cursor come exactly the later rows that have a key |
| Keyset.WalkExact | apps/api/app/routers/jobs.py:161-185 | Following next_cursor ends and yields, in order and once each, every row with a key, plus rows with a NULL key only as far as they fitted on the first page |
| Keyset.WalkIsComplete | apps/api/app/routers/jobs.py:161-185 | So the walk is the whole list if and only if it fits one page or every wanted row has a key; first_seen_desc always has |
| Base64.PaddingRestored | packages/schemas/jobplatform_schemas/pagination.py:45-63 | -len mod 4 restores exactly the stripped padding, and the bytes come back (section 5 of RFC 4648) |
| Base64.UnpaddedShape | packages/schemas/jobplatform_schemas/pagination.py:45-48 | A token has ceil(4n/3) characters, all URL-safe |
| Base64.RoundTrip | packages/schemas/jobplatform_schemas/pagination.py:45-68 | Decoding an encoding gives the bytes |
| Base64.Vectors | packages/schemas/jobplatform_schemas/pagination.py:45-48 | Test vectors of section 10 of RFC 4648, and both letters of the URL-safe alphabet |
| Cursors.StringRoundTrip | packages/schemas/jobplatform_schemas/pagination.py:45-48 | A JSON string of any characters, escaped to ASCII with surrogate pairs, is read back with what follows it |
| Cursors.EscapesWritten | packages/schemas/jobplatform_schemas/pagination.py:45-48 | How a quote, an accent and a character beyond the first plane are written |
| Cursors.TextOfOne | packages/schemas/jobplatform_schemas/pagination.py:45-48 | The JSON text of a cursor, letter by letter |
| Cursors.ValueRoundTrip | packages/schemas/jobplatform_schemas/pagination.py:28-40 | null, integers, strings and floats are read back as the same kind of value |
| Cursors.TextRoundTrip | packages/schemas/jobplatform_schemas/pagination.py:45-68 | Every valid cursor is read back from its JSON text |
| Cursors.CursorRoundTrip | packages/schemas/jobplatform_schemas/pagination.py:45-69 | decode(encode(c)) = c if and only if the text has at most 384 characters (the token at most 512); a longer one is refused, never cut |
| Cursors.TokensAreDistinct | packages/schemas/jobplatform_schemas/pagination.py:45-48 | Different cursors have different tokens |
| Cursors.NeverRestarts | apps/api/app/routers/jobs.py:188-204 | A token resumes at its position under its own sort, and is refused under another sort or when too long: never the first page |
| Paging.CursorFits | apps/api/app/routers/jobs.py:161-185 | The tokens the listing mints fit, for 64-bit ids and values spelled in at most 64 characters |
| Paging.MintedResumes | apps/api/app/routers/jobs.py:161-204 | A minted token leads the next request to the very position it was minted at |
| Paging.TokensCarryTheWalk | apps/api/app/routers/jobs.py:161-204 | The walk of a client that knows only tokens is the walk over positions |
| Paging.TokensCollect | apps/api/app/routers/jobs.py:161-204 | Such a client collects, in order and once each, every wanted row with a key, plus rows without one as far as they fitted on the first page |
| Dedupe.KeyIsNormalForm | workers/ingestion/ingestion/services/dedupe.py:320-322 | A normalized key consists of words of a-z and 0-9 with single spaces between them, and such a key is left alone |
| Dedupe.JoinInjective | workers/ingestion/ingestion/services/dedupe.py:191-202 | Joined fields can be told apart if no field but the last has a separator |
| Dedupe.SameKey | workers/ingestion/ingestion/services/dedupe.py:320-322 | Two texts have one key if and only if they have the same words of a-z and 0-9 once lower-cased |
| Words.SquashStripped | workers/ingestion/ingestion/services/dedupe.py:320-322 | Squashing what stands between words and stripping leaves the words with one space between them |
| Words.WordsApart | workers/ingestion/ingestion/services/dedupe.py:320-322 | The words of two texts with something else between them are those of the one and then those of the other |
| Dedupe.CompanyKeyIs | workers/ingestion/ingestion/services/dedupe.py:297-302 | The company key is the words of the name without its legal suffix, or the company’s id where there are none |
| Dedupe.TitleKeyIs | workers/ingestion/ingestion/services/dedupe.py:305-317 | The title key is the title’s words without noise, or all of them where only noise is left |
| Dedupe.DigestExactly | workers/ingestion/ingestion/services/dedupe.py:325-334 | Descriptions with the same words, in any case and however spaced, share a digest; where the digests tell texts apart, no others do within 4000 characters, and beyond that those that agree up to there; no text has the digest of none |
| Dedupe.FingerprintMeaning | workers/ingestion/ingestion/services/dedupe.py:191-202 | Fingerprints are equal if and only if company key, title key, country, state, city key and description digest all are |
| ContentHashes.ContentHashExactly | workers/ingestion/ingestion/services/dedupe.py:203-219 | A posting shares its content hash with no posting that differs in title, company key, country, state, city, salaries, types, URL or digest if and only if no field but title and city has a separator, each separator in the title follows white space and white space follows each in the city |
| ContentHashes.GuardedIsUnique | workers/ingestion/ingestion/services/dedupe.py:203-219 | The joined text of such a content can be read in no other way |
| ContentHashes.UnguardedIsShared | workers/ingestion/ingestion/services/dedupe.py:203-219 | The joined text of any other content is also that of a different one with the same salaries and digest |
| ContentHashes.ContentHashMeaning | workers/ingestion/ingestion/services/dedupe.py:203-219 | The hash of such a posting is another’s if and only if all of these agree |
| ContentHashes.CleanIsSafe | workers/ingestion/ingestion/services/dedupe.py:203-219 | A posting without separators is such a posting |
| ContentHashes.SpacedBarIsSafe | workers/ingestion/ingestion/services/dedupe.py:203-219 | A title “Nurse | Remote” is safe, “Nurse|Remote” is not |
| ContentHashes.ContentHashCollision | workers/ingestion/ingestion/services/dedupe.py:203-219 | Two postings that differ in title and employer have one content hash, whatever the digest |
| Sorting.SortOrders | workers/ingestion/ingestion/services/dedupe.py:290-290 | sorted(): in order, and a permutation |
| Sorting.FilterSort | apps/api/app/repositories/jobs.py:153-171 | Selecting and then sorting is sorting and then selecting, for every order |
| Sorting.OrderIsUnique | workers/ingestion/ingestion/services/dedupe.py:290-290 | There is one arrangement of given elements in an antisymmetric order |
| Urls.SortedDecides | workers/ingestion/ingestion/services/dedupe.py:285-290 | Query items sort alike exactly when they are the same items equally often |
| Urls.ItemsBack | workers/ingestion/ingestion/services/dedupe.py:285-290 | The items of a spelled query are parsed back in order |
| Urls.SpellBack | workers/ingestion/ingestion/services/dedupe.py:294-294 | A spelled canonical form splits into its own parts |
| Urls.HostExactly | workers/ingestion/ingestion/services/dedupe.py:279-283 | The host of the form is the lower-cased network location without one leading www. and without the default ports at its end |
| Urls.NamesThatTrack | workers/ingestion/ingestion/services/dedupe.py:285-289 | Tracking parameters are known in any case, and an id is none |
| Urls.CanonicalDecides | workers/ingestion/ingestion/services/dedupe.py:258-294 | Two texts have one canonical URL if and only if, once stripped, scheme, host, path and the multiset of identifying query items agree |
| Urls.QueryDecides | workers/ingestion/ingestion/services/dedupe.py:285-290 | At one address two queries give one form if and only if they hold the same identifying items, in any order |
| Urls.NoiseIsIgnored | workers/ingestion/ingestion/services/dedupe.py:268-294 | Adding a fragment, or a query without identifying items, leaves the form alone if and only if the address does not end in white space |
| Urls.NoiseInQuery | workers/ingestion/ingestion/services/dedupe.py:285-289 | A tracking parameter or a blank value may stand anywhere among the items |
| Urls.SpaceBeforeFragment | workers/ingestion/ingestion/services/dedupe.py:268-270 | At a URL with a space before its fragment the form does depend on the fragment |
| Urls.PathIsKept | workers/ingestion/ingestion/services/dedupe.py:288-292 | Of the split URL: trailing slashes do not count in the form, and the rest of the path is kept, case included |
| Urls.CanonicalTwice | workers/ingestion/ingestion/services/dedupe.py:268-294 | Canonicalising is idempotent if and only if the stripped host is non-empty, readable, starts with no www. and ends in no default port, and identifying items remain or the path does not end in white space |
| Urls.SpaceIsCutLater | workers/ingestion/ingestion/services/dedupe.py:268-270 | At a URL with a space before its fragment it is not |
| Location.CountryFromText | workers/ingestion/ingestion/services/location.py:465-483 | The two loops find a US name if one stands in the text, else the first by length of the other names |
| Location.LongestNameWins | workers/ingestion/ingestion/services/location.py:465-483 | No shorter name shadows a longer one, and no country is found only if no name is mentioned |
| Location.ReadStateAndCity | workers/ingestion/ingestion/services/location.py:291-316 | The step’s nested conditions give the one state and city of `StateAndCity`, which Placement.StateAndCityExactly states |
| FreeText.PairExactly | workers/ingestion/ingestion/services/location.py:493-517 | What is read of free text: a city is found if and only if the text, less outer spaces and dashes, ends in a city, a comma at least and the name or code of a state, with at most a ZIP code behind it and anything with a comma before it; then that city and that state; else a state only if the whole text is one |
| FreeText.BareIs | workers/ingestion/ingestion/services/location.py:499-499 | Outer spaces, dashes and the spaces inside those do not count |
| Placement.CityAndCode | workers/ingestion/ingestion/services/location.py:493-510 | City, comma, state code and perhaps a ZIP code are read as that city and that code, whatever stands before them |
| Placement.DetroitIsRead | workers/ingestion/ingestion/services/location.py:494-498 | “Detroit, MI” and “Building 4, Detroit, MI” are |
| Placement.RemoteStaysInCity | workers/ingestion/ingestion/services/location.py:494-510 | Of “Remote - Detroit, MI” the city is “Remote - Detroit” |
| Placement.FairbornIsRead | workers/ingestion/ingestion/services/location.py:199-204 | And “Fairborn, OH 45324” |
| Placement.StateSpelling | packages/schemas/jobplatform_schemas/us_states.py:453-477 | Neither case nor outer white space matters to what a state is called |
| Placement.StateExactly | packages/schemas/jobplatform_schemas/us_states.py:453-477 | A state is called by its two-letter code or by a name of the table |
| Placement.IndiaStateExactly | packages/schemas/jobplatform_schemas/india_states.py:164-176 | And so is an Indian subdivision |
| Placement.MichiganIsAState | packages/schemas/jobplatform_schemas/us_states.py:453-477 | Michigan, for instance, and mi |
| Placement.CityKeepsWords | workers/ingestion/ingestion/services/location.py:544-548 | A city that neither begins nor ends in a dash or comma is kept word for word, its white space evened; white space alone is none |
| Placement.CountryExactly | workers/ingestion/ingestion/services/location.py:256-262 | The country is that of its field, by name or by two letters that are no state’s code, or else the one its text mentions |
| Placement.StateAndCityExactly | workers/ingestion/ingestion/services/location.py:291-316 | State and city are those of the fields, each filled from the text; a code in place of the city is the state where none is said; a metro shorthand is its city, and its state where none is said |
| Placement.PlaceExactly | workers/ingestion/ingestion/services/location.py:237-430 | Where a job is, case by case: foreign subdivision, Indian, foreign city, other country, American with and without a state |
| Placement.TextAlonePlaces | workers/ingestion/ingestion/services/location.py:291-320 | A job that says where it is in its text alone is in the United States, in the state and the city of that text |
| Location.Normalize | workers/ingestion/ingestion/services/location.py:237-430 | The chain of guards and early returns computes the stated policy `Resolve`, which has no step for a late remote-US phrase (what it is: Placement.PlaceExactly) |
| Location.LateStepIsDead | workers/ingestion/ingestion/services/location.py:396-399 | The late remote-US step never finds a phrase |
| Location.AmericanIsSafe | workers/ingestion/ingestion/services/location.py:278-382 | A US result never has a foreign subdivision in its state field nor a foreign final city; without a state it has no ambiguous city and no employer abroad |
| Location.AmericanExactly | workers/ingestion/ingestion/services/location.py:278-382 | A job stated to be American is kept if and only if nothing of that contradicts it |
| Location.StateBelongsToCountry | workers/ingestion/ingestion/services/location.py:384-430 | A state code is present only for US and IN and is one of that country’s own |
| Location.StatedCountryStands | workers/ingestion/ingestion/services/location.py:256-276 | Later evidence never replaces the stated country by another, only withholds the job |
| Location.StateOfCity | workers/ingestion/ingestion/services/location.py:301-316 | What the city says when every other field is silent: a state code, a metro name, or nothing |
| Location.CityAlonePromotes | workers/ingestion/ingestion/services/location.py:400-416 | With no country, state or text, the city makes a job American if and only if its cleaned form is a US two-letter code or a metro shorthand |
| Location.BrooklynAlone | workers/ingestion/ingestion/services/location.py:160-185 | Brooklyn with nothing else is such a city |
| Location.BareStateCode | workers/ingestion/ingestion/services/location.py:273-276 | A bare American state code resolves to the US with that code, unless India has the code too: then to India |
| Location.SharedCodes | packages/schemas/jobplatform_schemas/india_states.py:34-73 | The shared codes are exactly AR, AS, CT, GA, LA, MN, MP and TN |

## Left out

- PostgreSQL: tables are maps with the constraints of the first migration; a load is one atomic step, the order in which a query returns several matching jobs is left open, and nothing is claimed about interleaving inside a transaction. Statements are not cut into chunks of 1000 rows; a company or location upsert is an arbitrary map from its key to an id.
- CrashRecovery.CrashEquivalence: compares columns and provenance per source id; company, location and industry, which an update keeps when the row brings none, clocks, surrogate ids and events are not compared. The attempts see the same prepared batches: with the age gate or the future-date check in between, a record may fall on either side of the clock.
- History.MergeComplete: needs distinct keys among the new rows; EarlierTwinIsInserted shows why.
- Pipeline.IngestionPipeline.ProcessFile: failures are nondeterministic choices before and inside each record and each transaction, and between a commit and its counting; the writes of rejections and of the final file status are assumed to reach the database, except that the unique index may refuse SUCCEEDED.
- Pipeline.IngestionPipeline.Run: the listing and the file contents are parameters; discovery order, the run’s saved counters and its counts of files are not modelled.
- Preparation.PreparedMeetsChecks: validation, location, role and dedupe services appear as fields of the record, and the interpreter’s strip, upper and isalpha as parameters; the employment, interval and industry tables are not modelled.
- Retention.Enforce: prompts, dry runs, reports and the trimming of old rejections are not modelled; one clock reading stands for the run.
- Freshness.ImplementationsAgree: timestamps are UTC microseconds; window_start is not modelled.
- Filters.BuildWhere: full-text search, the relevance sort and the SQL of companies and statistics are not modelled; text is ASCII.
- Sync.SyncRepository.FinishRun: the saved counters and the duration are left out.
- Sync.SyncRepository.StartFile: size, file date and row groups are left out.
- Sync.SyncRepository.CheckpointFile: the row-group count, which the pipeline always sets to 0, is left out.
- Sync.SyncRepository.FinishFile: the error message is left out, and so is a finish without a count, which the pipeline never makes.
- Sync.SyncRepository.RecordRejections: external id, file, message and payload are left out.
- Keyset.WalkExact: the table does not change during the walk; the walk over a changing table promises less.
- Cursors.CursorRoundTrip: floats are the texts Python’s repr gives; the decoder refuses texts that are not of the encoder’s shape (other key orders, spaces, raw non-ASCII, lone surrogates) and characters outside the alphabet, some of which the library accepts.
- Paging.MintedResumes: that a date or a number is spelled and read back exactly is an assumption on each value.
- Urls.CanonicalDecides: quote_plus, unquote_plus and the network locations urlsplit refuses are parameters with the properties stated; letters and white space are ASCII. Where stripping empties the host and the path begins with two slashes, interpreter versions spell the form differently; the model writes the two slashes of the empty host.
- Dedupe.FingerprintMeaning: SHA-256 is taken as injective, the legal-suffix and title-noise expressions as arbitrary functions, and text as ASCII; the digest of a description covers its first 4000 characters and is cut to 32.
- ContentHashes.ContentHashExactly: a posting may have any text in its country, state, type and URL fields, so the “only if” half may name a posting the pipeline does not produce; an absent salary and one of zero are one content, as in the source.
- Dedupe.DigestExactly: that the digests tell texts apart in the 32 characters kept is a condition.
- FreeText.PairExactly: text is ASCII, as elsewhere; the ZIP code is read past, not returned.
- Dedupe level three is computed by the source and never used by the loader.
- Location.Normalize: remote type, the normalized city key, the postal code and the reason texts are left out; letters beyond ASCII are compared without case folding, except that isalpha and upper of a country code are the interpreter’s.
- Network, Parquet and archive reading, object storage, Celery, logging, metrics, settings, the web interface and the ingest-request queue.
