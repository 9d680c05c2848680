# Verified model of the connection registry, CSV imports and datasource store

This project models four parts of the repository and proves what they promise.

**Customer connection registry** (`OrderedMaps`, `RegistryCore`, `ConnectionManager`, `Registry*`). The connection
manager keeps a bounded registry of data sources with in-flight deduplication, leases, eviction of the least recently
used, an idle sweep, invalidation and shutdown. `ConnectionManagers.ConnectionManager` is the object with its fields;
each method is the code between two awaits and is proved equal to a function of `RegistryCore`. `RegistryProtocol`
interleaves those functions: a step is the code between two awaits of any call, and a run is any sequence of enabled
steps. Three assumptions on a run can be switched on one by one. `prompt`: when an initialisation settles, the calls
awaiting it go on before anything else happens, as promise reactions do. `fifo`: capacity checks run in the order in
which the keys went in flight. `apart`: two invalidations of one datasource do not overlap. Leases, idle-only eviction
and tenant matching rest on none of them; deduplication rests on `prompt`. The bound holds under `prompt` and `fifo`,
and nothing is lost under `prompt` and `apart`; under `prompt` alone both are stated exactly: the bound is kept in
exactly the runs in which no guard of `ensureCapacity` undercounts, and nothing is lost in exactly the runs in which
no invalidation takes out an open entry it did not wait for. Without any assumption it is stated exactly when a call
comes to hold a closed entry. A concrete run shows each failure.

**CSV import protocol** (`ImportStatus`, `ImportProtocol`, `ImportOwners`, `ImportFlow`, `ImportSafety`,
`ImportEdges`, `ImportHarm`, `ImportStranding`, `ImportRaces`, `ImportQueue`, `ImportService`). Creators, workers,
retries, cancellations and deletions race on shared rows, each with its own copy of the entity, through conditional
updates, plain saves and a job queue. A step is one statement of one task; the partial unique index guards every write
of an indexed status. A step is a function on `Local` values (its task, its row, the history of its import), so that
the invariants are proved on values and then lifted to states. `quiet` assumes that a `fail` caused by a lost enqueue
finds the row QUEUED or FAILED; `booked` that saving the row errors of a committed COPY does not fail; `steady` that
no process dies and no other write is refused. These are sufficient, not necessary. What is necessary is stated too:
which steps break safety, which leave the status table and which strand an import, each as an if-and-only-if over all
steps and runs. `ImportService` holds the repository and the service as objects. A method is one statement, so that
others may come between two, and its contract says that it leaves the stored row as the step of its task does.
`ImportQueue` holds the queue, whose limit is checked and used in two statements, and the exact bound with any number
of enqueues in between.

**Row pipeline** (`JsText`, `CsvText`, `CsvPreview`, `ArrayText`, `CalendarDates`, `DateText`, `ValueTransformers`,
`CellConversions`, `ColumnMapping`, `RowValidation`, `CopyPipeline`, `ImportedRows`, `CopyTransaction`,
`ImportProgress`, `ImportExecution`). From the mapping of headers over the conversion of cells and the CSV text to one
COPY transaction with its byte meter, its progress updates and the stored totals. The readers are independent of the
writers: CSV after section 2 of RFC 4180 (records end in LF, an empty field without quotes is NULL), array literals
after section 8.15.6 of the PostgreSQL manual, day numbers after section 21.4.1 of ECMA-262.

**Datasource store** (`DatasourceConfig`, `DatasourceStore`). The row, the SSH row and the four kinds of secret of a
datasource under create, update, test and removal, against what the resolver reads back.

Some results contradict what one would expect of the code, and the code is modelled as it is:

- An update of an SSH datasource that keeps it one always rolls back. The SSH configuration is inserted, never
  updated, and the unique index on the datasource admits one row (`DatasourceStore.UpdatesCommitExactly`, and an input
  in `DatasourceStore.TunnelledUpdateLeavesNoTrace`).
- The stored `totalRows` of an import counts row errors, not failing records; it is the number of records exactly if
  no record has two errors (`CopyPipeline.TotalRowsCountsErrors`, and an input in
  `CopyPipeline.BlankRecordCountsTwice`).
- The queue exceeds its limit by all but one of the enqueues that are at once between their count and their add
  (`ImportQueues.QueueExceedsByTheCrowd`, and runs in `ImportQueues.OvershootingReachesTheBound`).
- A `fail` after a lost enqueue saves FAILED over whatever the row says by then, also over CANCELLED or a running
  import, and a worker then saves COMPLETED over FAILED (`ImportEdges.RunsFollowTableExactly`,
  `ImportSafety.RunsAreSafeExactly`, `ImportHarm.HarmLeadsToTwoCommits`, and runs in `ImportRaces`).
- A refresh, and after a deadline an invalidation or a drain, closes an entry that calls still hold
  (`RegistryHeld.HeldEntriesOpenExactly`, and a run in `RegistryRefreshed`).
- A capacity check that runs ahead of an earlier key can let one initialisation too many in, and an invalidation
  deletes by key whatever is registered by then (`RegistryCapacity.CapacityHoldsExactly`,
  `RegistryLeaks.NothingIsLostExactly`).

## Model

| member | source | states |
|---|---|---|
| ConnectionManagers.ConnectionManager.Acquire | apps/api/src/database-connections/database-connection.manager.ts:75-137 | The synchronous part of a call refuses, leases, joins, starts or refreshes, and leaves the fields as the step system assumes |
| ConnectionManagers.ConnectionManager.EnsureCapacity | apps/api/src/database-connections/database-connection.manager.ts:244-263 | The check counts earlier in-flight keys; a victim is held by no call and no other such entry was used less recently |
| ConnectionManagers.ConnectionManager.CleanupIdleDataSources | apps/api/src/database-connections/database-connection.manager.ts:160-172 | The loop over the registry takes out exactly the entries held by no call and idle for the timeout, and closes them |
| ConnectionManagers.ConnectionManager.Register | apps/api/src/database-connections/database-connection.manager.ts:226-237 | A new entry is held by no call and displaces no entry of another datasource |
| ConnectionManagers.ConnectionManager.LeaseEntry | apps/api/src/database-connections/database-connection.manager.ts:90-112 | A call takes an entry: the counts stay the numbers of holders, the entry is last used now if a time is given, and every other entry is untouched |
| ConnectionManagers.ConnectionManager.ReleaseEntry | apps/api/src/database-connections/database-connection.manager.ts:49-65 | A call gives its entry back: the counts stay the numbers of holders, the entry is last used now if a time is given, and every other entry is untouched |
| ConnectionManagers.ConnectionManager.DrainRegistry | apps/api/src/database-connections/database-connection.manager.ts:196-198 | Shutdown takes out exactly what was registered, and no count of a lease is lost |
| RegistryLeases.ResumeKeepsLeases | apps/api/src/database-connections/database-connection.manager.ts:95-112 | A call that goes on with the entry it waited for is counted in it, any other is not |
| RegistryLeases.FinishKeepsLeases | apps/api/src/database-connections/database-connection.manager.ts:60-66 | An operation that ends is no longer counted, and all other counts still are the numbers of holders |
| RegistryLeaks.DrainDropsNothing | apps/api/src/database-connections/database-connection.manager.ts:192-205 | What shutdown takes out of the registry is drained, and no earlier drain loses anything |
| RegistryCore.CleanupExactly | apps/api/src/database-connections/database-connection.manager.ts:160-172 | The sweep drops exactly the entries without leases that have been idle for the timeout, and closes those |
| RegistryCore.EvictsLeastRecent | apps/api/src/database-connections/database-connection.manager.ts:252-262 | Filtering and sorting pick an idle entry with the least last use |
| RegistryTenants.LeasesAndTenants | apps/api/src/database-connections/database-connection.manager.ts:49-115 | In every run an entry's active operations are exactly the calls holding it, all made for its organization and datasource |
| RegistryTenants.SweepTakesIdleOnly | apps/api/src/database-connections/database-connection.manager.ts:160-172 | In every run the sweep takes an entry if and only if no call holds it and it is idle long enough |
| RegistryTenants.EvictionTakesIdleOnly | apps/api/src/database-connections/database-connection.manager.ts:252-262 | In every run an evicted entry is held by no call, is closed, and is the least recently used of those |
| RegistryRecency.LastUsedIsTheLastUse | apps/api/src/database-connections/database-connection.manager.ts:49-237 | In every run `lastUsedAt` is the time of the entry's creation, or of the last call that took it registered or joined, or of the last operation that ended on it since |
| RegistryRecency.EndedOperationsAreUses | apps/api/src/database-connections/database-connection.manager.ts:60-66 | An operation that ends makes now the last use of its entry, and of no other |
| RegistryRecency.SweepTakesUnused | apps/api/src/database-connections/database-connection.manager.ts:160-172 | The sweep takes exactly the entries that no call holds and whose last use in the run is the timeout ago |
| RegistryRecency.EvictionTakesLeastUsed | apps/api/src/database-connections/database-connection.manager.ts:252-262 | The evicted entry is held by no call, and no other such entry had its last use in the run before it |
| RegistryOutcomes.CheckAnswers | apps/api/src/database-connections/database-connection.manager.ts:244-263 | A check finds room exactly below the maximum, and is exhausted exactly if there is none and calls hold every registered entry |
| RegistryOutcomes.RejectedExactly | apps/api/src/database-connections/database-connection.manager.ts:118-242 | An initialisation is rejected if and only if one of its steps failed in the run |
| RegistryOutcomes.ResolvedExactly | apps/api/src/database-connections/database-connection.manager.ts:226-237 | An initialisation yields an entry if and only if it connected with it |
| RegistryOutcomes.GoesOnExactly | apps/api/src/database-connections/database-connection.manager.ts:95-137 | A call in progress can go on if and only if the initialisation it started or joined has connected or failed |
| RegistryBlocking.BlockedAreInvalidated | apps/api/src/database-connections/database-connection.manager.ts:178-190 | In every run a blocked datasource is being invalidated |
| RegistryBlocking.BlockedExactly | apps/api/src/database-connections/database-connection.manager.ts:178-190 | While invalidations of one datasource do not overlap, exactly those being invalidated are blocked |
| RegistryBlocking.RefusedOnlyForReason | apps/api/src/database-connections/database-connection.manager.ts:75-89 | Before shutdown a call is refused only if its datasource is being invalidated or its entry is another organization's |
| RegistryBlocking.RefusedExactly | apps/api/src/database-connections/database-connection.manager.ts:75-89 | While invalidations of one datasource do not overlap, a call is refused if and only if that holds or shutdown has begun |
| RegistryBlocking.AnsweredExactly | apps/api/src/database-connections/database-connection.manager.ts:83-137 | Which of lease, refresh, join and start a call gets: a refresh exactly if the registered entry has a tunnel that is not healthy |
| RegistryBlocking.AcceptingUntilShutdown | apps/api/src/database-connections/database-connection.manager.ts:192-194 | Calls are accepted in exactly the runs in which closeAll was not called |
| RegistryOutcomes.InvalidationsTakeEffect | apps/api/src/database-connections/database-connection.manager.ts:178-190 | When an invalidation ends, no entry is registered that there was when it went on, in every run |
| RegistryOutcomes.InvalidationsClose | apps/api/src/database-connections/database-connection.manager.ts:181-186 | An invalidation that finds an entry closes exactly that one and unregisters the datasource |
| RegistryHeld.HeldClosedExactly | apps/api/src/database-connections/database-connection.manager.ts:75-205 | From a state in which no call holds a closed entry, a step leads to one in which one does if and only if a refresh, an invalidation or a drain closes a held entry, or a call goes on with one closed meanwhile |
| RegistryHeld.HeldEntriesOpenExactly | apps/api/src/database-connections/database-connection.manager.ts:75-205 | However calls are scheduled, no call ever holds a closed entry in exactly the runs without such a step |
| RegistryHeld.ResumedEntriesAreOpen | apps/api/src/database-connections/database-connection.manager.ts:95-112 | Under `prompt` a call that goes on with the entry it waited for finds it open |
| RegistryRefreshed.RefreshClosesAHeldEntry | apps/api/src/database-connections/database-connection.manager.ts:82-88 | A run in which a refresh closes an entry under the call that holds it |
| RegistryOrder.OneInitialisationPerDatasource | apps/api/src/database-connections/database-connection.manager.ts:95-137 | One initialisation runs per datasource, refreshes included, and calls that come meanwhile join it |
| RegistryOrder.RegistryAndInFlightDisjoint | apps/api/src/database-connections/database-connection.manager.ts:104-137 | Once promises have settled no datasource is both registered and in flight |
| RegistryOrder.JoinersShareTheEntry | apps/api/src/database-connections/database-connection.manager.ts:95-115 | A call that joined gets the entry of exactly that initialisation, made for its organization, and a lease on it |
| RegistryCapacity.CapacityIsRespected | apps/api/src/database-connections/database-connection.manager.ts:211-263 | With checks in in-flight order, registered entries and admitted initialisations never exceed the maximum |
| RegistryCapacity.BoundLostExactly | apps/api/src/database-connections/database-connection.manager.ts:245-251 | A step from within the bound leaves it if and only if the guard counts fewer keys ahead than there are admitted initialisations |
| RegistryCapacity.CapacityHoldsExactly | apps/api/src/database-connections/database-connection.manager.ts:244-263 | Whatever the order of checks, the bound is kept in exactly the runs in which no guard undercounts |
| RegistryReversed.ReversedChecksExceedTheBound | apps/api/src/database-connections/database-connection.manager.ts:244-263 | A run with two checks in the other order exceeds the maximum |
| RegistryLeaks.NothingIsLost | apps/api/src/database-connections/database-connection.manager.ts:75-242 | Without overlapping invalidations every entry is registered, closed or being drained, and every open tunnel has an owner |
| RegistryLeaks.LostExactly | apps/api/src/database-connections/database-connection.manager.ts:178-190 | A step loses an entry if and only if an invalidation deletes an open entry other than the one it waited for |
| RegistryLeaks.NothingIsLostExactly | apps/api/src/database-connections/database-connection.manager.ts:178-190 | However invalidations overlap, nothing is lost in exactly the runs without such a step |
| RegistryLeaks.ConnectOverwritesNothing | apps/api/src/database-connections/database-connection.manager.ts:226-237 | In every run a finished initialisation finds its datasource unregistered and adds exactly its entry |
| RegistryLeaks.ShutdownClosesEverything | apps/api/src/database-connections/database-connection.manager.ts:192-205 | When closeAll has returned, every entry ever created was closed or is being drained by another closeAll |
| RegistryLeaks.NothingOpensAfterShutdown | apps/api/src/database-connections/database-connection.manager.ts:192-242 | After shutdown has drained, no step creates an entry or a tunnel |
| RegistryOverlap.OverlappingInvalidationsLoseAnEntry | apps/api/src/database-connections/database-connection.manager.ts:178-190 | A run with two overlapping invalidations of one datasource loses a live entry |
| ImportStatus.CyclesPassThroughQueued | apps/api/src/imports/import-status.ts:3-27 | Along the table every return to a status passes through QUEUED |
| ImportStatus.CompletionIsFinal | apps/api/src/imports/import-status.ts:16-17 | Along the table COMPLETED and PARTIALLY_COMPLETED are absorbing |
| ImportStatus.UploadCheckAgainstIndex | apps/api/src/imports/hashing/duplicate-import.service.ts:10-37 | The check before an upload refuses exactly the indexed statuses but PARTIALLY_COMPLETED |
| ImportEdges.EdgesAreTaken | apps/api/src/imports/import-status.ts:3-27 | Every edge of the table is taken by some statement |
| ImportOwners.CreatorsAreAlone | apps/api/src/imports/imports.service.ts:61-118 | In every run no other task and no job touches an import before its creator queued or started it |
| ImportOwners.HistoriesRecordTheRows | apps/api/src/imports/imports.service.ts:142-211 | Claims, cancellations and queueings are counted exactly when the stored status changes so, commits exactly at COPY |
| ImportFlow.CreatorsGoOn | apps/api/src/imports/imports.service.ts:112-134 | A file is validated, prepared, and queued or executed; whatever fails on the way, the index included, leads to saving FAILED with no job to lose |
| ImportFlow.EnqueueingGoesOn | apps/api/src/imports/imports.service.ts:381-401 | What an enqueue does with its job, the row and its task, whether it adds, attaches or reads the row, or fails to |
| ImportFlow.AuditsGoOn | apps/api/src/imports/imports.service.ts:115-134 | A failing audit record leads to FAILED unless the import was seen completed or cancelled |
| ImportFlow.WorkersGoOn | apps/api/src/imports/imports.service.ts:137-160 | A worker claims exactly a QUEUED import, and ends in a commit, in nothing, or in saving FAILED for its run |
| ImportFlow.ControlsGoOn | apps/api/src/imports/imports.service.ts:162-230 | Retries and cancellations act exactly if the row still is what they read, removals whatever it is by then |
| ImportFlow.CausesAreTold | apps/api/src/imports/imports.service.ts:403-422 | In every run FAILED is about to be saved early by a creating call, for a lost enqueue by an enqueue, and for a failed run by an executing task |
| ImportFlow.JobsAreTaken | apps/api/src/imports/imports.service.ts:202-206 | A job leaves the queue exactly when it is delivered, removed by a cancellation, or removed by the enqueue that could not attach it |
| ImportOwners.ClaimsNeverExceedQueueings | apps/api/src/imports/imports.service.ts:142-211 | In every run, failures included, claims, cancellations and the present queueing never exceed the times an import entered QUEUED |
| ImportSafety.IndexedRowsAreUnique | apps/api/src/database/migrations/1788530000000-csv-import-transformation-engine.ts:33-37 | In every run no two rows of one organization, target and file carry an indexed status |
| ImportSafety.AtMostOneCommitPerKey | apps/api/src/imports/imports.service.ts:54-216 | Under `quiet` and `booked`, over the live rows at most one COPY commits per organization, target and file |
| ImportSafety.StepSafeExactly | apps/api/src/imports/imports.service.ts:335-422 | From a state in which owners, commits and statuses agree, a step breaks the agreement if and only if it loses row errors of a commit, or saves a lost FAILED over a committed or running import |
| ImportSafety.RunsAreSafeExactly | apps/api/src/imports/imports.service.ts:54-216 | Whatever fails, that agreement holds throughout exactly the runs without such a step |
| ImportSafety.HarmlessRunsCommitOnce | apps/api/src/imports/imports.service.ts:54-216 | In those runs, whatever else fails, at most one COPY commits per organization, target and file |
| ImportHarm.HarmLeadsToTwoCommits | apps/api/src/imports/imports.service.ts:137-199 | The first step that breaks the agreement can be continued by retries and workers to a stored import with two commits, if its row was stored or its key is free |
| ImportSafety.CommitsMatchStatus | apps/api/src/imports/imports.service.ts:310-367 | Under `quiet` and `booked`, completed rows have one commit, failed, cancelled and waiting ones none, and an executed import has one owner |
| ImportSafety.DuplicatesEndAtAdmission | apps/api/src/imports/hashing/duplicate-import.service.ts:10-37 | What the duplicate check misses is refused by the index before it is queued or started |
| ImportSafety.ProcessingRowsAreWorkedOn | apps/api/src/imports/imports.service.ts:137-160 | Under `steady` every PROCESSING row has a task executing it |
| ImportSafety.StepOrphansExactly | apps/api/src/imports/imports.service.ts:137-160 | A PROCESSING row is left alone if and only if the last task executing it dies |
| ImportEdges.StoredStatusFollowsTable | apps/api/src/imports/imports.service.ts:369-422 | Under `quiet`, whatever else fails, every step moves a stored status along an edge of the table, also where transition is bypassed |
| ImportEdges.StepFollowsTableExactly | apps/api/src/imports/imports.service.ts:351-422 | A step of any run leaves the table if and only if it saves FAILED over a completed or cancelled row, or a final status that the index admits over one that is neither PROCESSING nor has it |
| ImportEdges.RunsFollowTableExactly | apps/api/src/imports/imports.service.ts:351-422 | Whatever fails, stored statuses keep to the table throughout exactly the runs without such a save |
| ImportEdges.CompletedRowsStay | apps/api/src/imports/import-status.ts:16-17 | Under `quiet` a completed row keeps its status until it is deleted |
| ImportEdges.ReturningRowsWereQueued | apps/api/src/imports/imports.service.ts:162-199 | Under `quiet` a stored row that has a status again was QUEUED in between |
| ImportStranding.NoImportIsStranded | apps/api/src/imports/imports.service.ts:137-216 | Under `steady` a QUEUED row always has a waiting job or a task about to claim, enqueue, fail or cancel it |
| ImportStranding.NoneStrandedExactly | apps/api/src/imports/imports.service.ts:137-216 | Whatever dies, no QUEUED row is stranded in exactly the runs in which the last one to attend to it never dies |
| ImportStranding.CancelTakesTheJob | apps/api/src/imports/imports.service.ts:202-206 | Removing the job of a cancellation takes exactly the job of the stored row out of the waiting ones |
| ImportRaces.RefusedEnqueueCommitsTwice | apps/api/src/imports/imports.service.ts:381-422 | A run of cancel, retry and a refused enqueue commits one import twice |
| ImportRaces.LostFailLeavesTheTable | apps/api/src/imports/imports.service.ts:191-196 | A run in which a refused enqueue saves FAILED over CANCELLED, against the table but without harm to commits |
| ImportRaces.StaleWorkerLeavesTheTable | apps/api/src/imports/imports.service.ts:351-361 | A run in which a worker saves COMPLETED over the FAILED that a refused enqueue saved meanwhile |
| ImportRaces.LostRowErrorsHideACommit | apps/api/src/imports/imports.service.ts:335-358 | A run in which saving the row errors fails leaves a committed import FAILED |
| ImportService.ImportRepository.Save | apps/api/src/imports/imports.service.ts:369-379 | A save overwrites or inserts the row from the entity, unless the unique index refuses it |
| ImportService.ImportRepository.UpdateWhere | apps/api/src/imports/imports.service.ts:142-146 | A conditional update changes a row of the expected status that the index admits, and no other |
| ImportQueues.ImportQueue.FindRoom | apps/api/src/imports/queue/import-queue.service.ts:32-40 | An enqueue goes on exactly if fewer jobs than the maximum are waiting or active when it counts, which is a step of the load |
| ImportQueues.ImportQueue.Add | apps/api/src/imports/queue/import-queue.service.ts:42-58 | An enqueue adds its job whatever the number of jobs is by then, or fails to, which is a step of the load |
| ImportQueues.QueueExceedsByTheCrowd | apps/api/src/imports/queue/import-queue.service.ts:29-59 | Jobs and enqueues about to add stay within the maximum plus all but one of the enqueues that were at once past their count |
| ImportQueues.SingleEnqueuesKeepTheLimit | apps/api/src/imports/queue/import-queue.service.ts:29-59 | Enqueues one at a time never exceed the maximum |
| ImportQueues.OvershootingReachesTheBound | apps/api/src/imports/queue/import-queue.service.ts:29-59 | For every positive maximum and every crowd a run exceeds the maximum by all but one of the crowd |
| ImportQueues.LimitKeptExactly | apps/api/src/imports/queue/import-queue.service.ts:29-59 | All runs with at most so many enqueues at once past their count keep the maximum if and only if it is at most one, or the maximum is zero |
| ImportQueues.ImportQueue.Cancel | apps/api/src/imports/queue/import-queue.service.ts:61-66 | An absent job is no error, a waiting one is removed, an active one cannot be |
| ImportService.ImportsService.Transition | apps/api/src/imports/imports.service.ts:369-379 | The entity takes the new status and values even when the index then refuses the row |
| ImportService.ImportsService.Fail | apps/api/src/imports/imports.service.ts:403-422 | Saves FAILED with its error exactly from the statuses that lead to it, whatever the stored one is |
| ImportService.ImportsService.Validate | apps/api/src/imports/imports.service.ts:113 | An upload becomes VALIDATING as the step of its creator says |
| ImportService.ImportsService.Admit | apps/api/src/imports/imports.service.ts:115-127 | The row is queued or started as the step of its creator says, or refused exactly because another row of the key is indexed |
| ImportService.ImportsService.AdmitOrFail | apps/api/src/imports/imports.service.ts:115-134 | A refused import ends FAILED although its entity had been moved on |
| ImportService.ImportsService.Claim | apps/api/src/imports/imports.service.ts:142-146 | A claim takes exactly a QUEUED row and leaves it as the step of its worker does |
| ImportService.ImportsService.Requeue | apps/api/src/imports/imports.service.ts:170-185 | A retry queues exactly an unchanged row that the index admits; its error, times, rows, bytes and percentage are reset, its total is kept |
| ImportService.ImportsService.AttachJob | apps/api/src/imports/imports.service.ts:384-394 | The job id is attached to exactly a QUEUED row |
| ImportService.ImportsService.Reread | apps/api/src/imports/imports.service.ts:396 | What was not attached is read again, and a missing row leads to removing the job |
| ImportService.ImportsService.Complete | apps/api/src/imports/imports.service.ts:349-361 | The totals of the COPY and of the row errors are saved with the final status that follows from them, exactly if the index admits the row |
| ImportService.ImportsService.CancelRead | apps/api/src/imports/imports.service.ts:202-205 | Only a QUEUED import is cancelled, by the job id of its stored row |
| ImportService.ImportsService.CancelWrite | apps/api/src/imports/imports.service.ts:207-211 | After the job is removed, exactly a row still QUEUED becomes CANCELLED |
| ImportService.ImportsService.RemoveRead | apps/api/src/imports/imports.service.ts:219-222 | Completed, failed and cancelled imports may be removed, partially completed ones may not |
| ImportService.ImportsService.RemoveWrite | apps/api/src/imports/imports.service.ts:224 | The row is deleted whatever it says by then |
| CsvText.CopyBodyReadsBack | apps/api/src/imports/processors/csv-import.processor.ts:171-180 | A CSV reader gives exactly the rows the COPY body was written from, NULL and '' told apart |
| CsvPreview.SplitCsvLine | apps/web/lib/csv-preview.ts:32-60 | The index loop with its quote state computes the fields of the line, trimmed |
| CsvPreview.SplitUndoesWriter | apps/web/lib/csv-preview.ts:32-60 | Splitting a written line gives every field trimmed, NULL as '' |
| CsvPreview.RenderedLine | apps/web/lib/csv-preview.ts:32-60 | For every delimiter, and however values are quoted, splitting a line gives exactly its values |
| CsvPreview.LinesAre | apps/web/lib/csv-preview.ts:21-23 | Lines end at LF, CRLF or CR, and empty ones are dropped |
| CsvPreview.PreviewReadsWrittenFile | apps/web/lib/csv-preview.ts:21-30 | The preview shows the first two records of a written file whose first two lines are within the bytes read |
| ArrayText.JoinUndoesSplit | apps/api/src/imports/transformation/value-transformers.ts:106-114 | Splitting at any delimiter and joining again restores the text |
| ArrayText.PartsHoldNoDelimiter | apps/api/src/imports/transformation/value-transformers.ts:106-114 | No part of a split holds the delimiter |
| ArrayText.ArrayReadsBack | apps/api/src/imports/transformation/value-transformers.ts:106-114 | The array literal of a cell reads back as its trimmed parts |
| ArrayText.ArrayCellReadsBack | apps/api/src/imports/processors/csv-import.processor.ts:171-180 | Read as CSV and then as an array literal, a written cell gives its trimmed parts whatever they hold |
| CalendarDates.DateComesBack | apps/api/src/imports/transformation/value-transformers.ts:67-69 | A calendar date survives its day number |
| CalendarDates.UtcCheckIsExact | apps/api/src/imports/transformation/value-transformers.ts:64-72 | For all digit fields, months and days up to 99 included, the check accepts exactly the Gregorian dates from year 100 |
| DateText.DatesAcceptedExactly | apps/api/src/imports/transformation/value-transformers.ts:45-75 | A cell is accepted if and only if it writes such a date in the configured layout, and gives it in ISO form |
| DateText.DayMonthDashAccepts | apps/api/src/imports/transformation/value-transformers.ts:45-75 | DD-MM-YYYY accepts exactly the storable dates written day, month, year with dashes |
| DateText.DayMonthSlashAccepts | apps/api/src/imports/transformation/value-transformers.ts:45-75 | DD/MM/YYYY accepts exactly the storable dates written day, month, year with slashes |
| DateText.MonthDaySlashAccepts | apps/api/src/imports/transformation/value-transformers.ts:45-75 | MM/DD/YYYY accepts exactly the storable dates written month, day, year with slashes |
| DateText.IsoDashAccepts | apps/api/src/imports/transformation/value-transformers.ts:45-75 | YYYY-MM-DD accepts exactly the storable dates written year, month, day with dashes |
| DateText.DefaultAccepts | apps/api/src/imports/transformation/value-transformers.ts:52 | Without a format the cell is read as YYYY-MM-DD |
| DateText.OtherFormatsAreRefused | apps/api/src/imports/transformation/value-transformers.ts:53-56 | Every other format name is refused, whatever the cell |
| DateText.RefusalsAreTold | apps/api/src/imports/transformation/value-transformers.ts:57-71 | A cell with the digits and separators of the layout is refused as no calendar date, any other as not of the format |
| DateText.FormatsAgree | apps/api/src/imports/transformation/value-transformers.ts:45-75 | Day, month and year of one date, put in the order and between the separators of each of the four format names, give one ISO text |
| DateText.ResultsAreFixedPoints | apps/api/src/imports/transformation/value-transformers.ts:45-75 | A result converted again in the default layout is itself |
| ValueTransformers.TransformValue | apps/api/src/imports/transformation/datatype-transformer.service.ts:30-54 | The result is NULL if and only if the cell is a null token and the column may be null or has a default |
| CellConversions.NullTokensAre | apps/api/src/imports/transformation/value-transformers.ts:3-7 | The null tokens are blank cells, and null, n/a and na in any case and with any outer white space |
| CellConversions.DateCells | apps/api/src/imports/transformation/datatype-transformer.service.ts:43 | A date column stores exactly what the configured format makes of the cell |
| CellConversions.SlashedDayFirst | apps/api/src/imports/transformation/datatype-transformer.service.ts:43 | Under DD/MM/YYYY a cell with day, month and year between slashes is stored as that day in ISO form |
| CellConversions.ArrayCells | apps/api/src/imports/transformation/datatype-transformer.service.ts:47-52 | With a delimiter an array column stores a literal that reads back as the trimmed pieces, without one every cell is refused |
| CellConversions.NumericCells | apps/api/src/imports/transformation/value-transformers.ts:18-26 | A numeric column takes exactly the cells that are a plain number without their commas, and stores that number |
| CellConversions.BooleanCells | apps/api/src/imports/transformation/value-transformers.ts:28-36 | Which cells are true and which are false, in any case and with any outer white space |
| CellConversions.TextCells | apps/api/src/imports/transformation/value-transformers.ts:38-43 | Text is stored unchanged unless it is longer than its column |
| CellConversions.UuidCells | apps/api/src/imports/transformation/value-transformers.ts:86-94 | A UUID is taken in either case, trimmed, and stored in lower case |
| CellConversions.FailuresAreTold | apps/api/src/imports/transformation/datatype-transformer.service.ts:30-54 | A cell that does not convert fails for the reason of its column's type, and of no other |
| ColumnMapping.Validate | apps/api/src/imports/validators/postgres-column-mapping.validator.ts:12-54 | The errors in their order, and for an accepted mapping the target of every header |
| ColumnMapping.MappingsAcceptedExactly | apps/api/src/imports/validators/postgres-column-mapping.validator.ts:12-54 | A mapping is accepted if and only if its headers exist, its targets exist, are not generated and are distinct, and no column that needs a value is left out |
| ColumnMapping.MappingsRefusedInOrder | apps/api/src/imports/validators/postgres-column-mapping.validator.ts:12-54 | A refused mapping gets the error that comes first in that order |
| ColumnMapping.ValidMappingsAlign | apps/api/src/imports/validators/postgres-column-mapping.validator.ts:21-51 | An accepted mapping is injective, covers every required column and touches no generated one |
| RowValidation.ValidateRow | apps/api/src/imports/validation/import-validator.service.ts:24-57 | The loop over the cells gives all errors, or the values |
| RowValidation.ErrorsAreTheFailingCells | apps/api/src/imports/validation/import-validator.service.ts:43-53 | A rejected record reports each failing cell and nothing else, with its header and text, the mapped column and its type, and the failure of the conversion |
| RowValidation.AcceptedRowsAlign | apps/api/src/imports/processors/csv-import.processor.ts:120-128 | Field j of a COPY line is the conversion of the cell of header j to the column the mapping names for it, or else of its own name, NULL only for a null token where it is allowed |
| RowValidation.AcceptedRowsHaveTheTargets | apps/api/src/imports/validation/import-validator.service.ts:35-57 | An accepted record has a value for exactly the target columns |
| CopyPipeline.Generate | apps/api/src/imports/processors/csv-import.processor.ts:120-134 | The generator yields the lines of the accepted records, collects errors, or stops |
| CopyPipeline.YieldedInFull | apps/api/src/imports/processors/csv-import.processor.ts:120-134 | What came through are the lines of exactly the accepted records, in order, and all errors |
| CopyPipeline.StrictStopsAtTheFirst | apps/api/src/imports/processors/csv-import.processor.ts:130-132 | A strict import stops exactly if a record is rejected, with the errors of the first |
| CopyPipeline.ErrorsNameTheRejected | apps/api/src/imports/processors/csv-import.processor.ts:121-133 | Record i from 0 is named as row i + 2, and only rejected records are named |
| CopyPipeline.RecordsAreAccountedFor | apps/api/src/imports/processors/csv-import.processor.ts:120-134 | Rows and distinct row numbers of errors add up to the number of records |
| CopyPipeline.TotalRowsCountsErrors | apps/api/src/imports/imports.service.ts:349-359 | The stored total is at least the number of records, with equality exactly if no record has two errors |
| CopyPipeline.BlankRecordCountsTwice | apps/api/src/imports/imports.service.ts:349-359 | One record with two blank required cells makes a total of two |
| ImportedRows.AcceptedExactly | apps/api/src/imports/validation/import-validator.service.ts:24-57 | Under an accepted mapping a record is accepted if and only if the cell of every header converts to its column |
| ImportedRows.AcceptedRowsAreConverted | apps/api/src/imports/processors/csv-import.processor.ts:100-137 | Under an accepted mapping the rows made of a file are exactly those of the records that convert, field j the conversion of the cell of header j |
| CopyTransaction.Copy | apps/api/src/imports/postgres/postgres-copy.service.ts:27-67 | All rows of the streamed text are committed or none, whatever statement fails, and the meter is cumulative |
| CopyTransaction.Process | apps/api/src/imports/processors/csv-import.processor.ts:88-98 | Exactly when nothing goes wrong outside and, in a strict import, every record is accepted, the rows of exactly the accepted records are committed in order; otherwise nothing |
| CopyTransaction.Meter | apps/api/src/imports/postgres/postgres-copy.service.ts:37-50 | The meter sums the bytes of the chunks and reports at each as it passes |
| CopyTransaction.TotalIsTheLength | apps/api/src/imports/postgres/postgres-copy.service.ts:37-50 | The bytes counted are the length of the streamed text in UTF-8 |
| ImportExecution.Execute | apps/api/src/imports/imports.service.ts:310-367 | Exactly when an execution commits nothing, loses its row errors, loses its totals or finishes, and the rows, totals, status and progress writes each leaves |
| ImportExecution.Import | apps/api/src/imports/processors/csv-import.processor.ts:51-98 | An import whose mapping is accepted commits exactly the conversions of the cells of the records that convert, or nothing, and a refused one nothing |
| ImportProgress.ProgressReporter.Report | apps/api/src/imports/imports.service.ts:317-333 | An update is written unless both too few bytes and too little time have passed |
| ImportProgress.WritesAreBounded | apps/api/src/imports/imports.service.ts:315-333 | Written updates number at most one, plus one for every full MiB and every full two seconds |
| ImportProgress.WritesKeepUp | apps/api/src/imports/imports.service.ts:315-333 | Between two updates a MiB or two seconds apart at least one is written |
| ImportProgress.PercentIs | apps/api/src/imports/imports.service.ts:434-441 | The percentage is the share of the file in whole hundredths, and 99 exactly from there on |
| ImportProgress.PercentsAscend | apps/api/src/imports/imports.service.ts:434-441 | Written percentages never go back and stay below the final 100 |
| DatasourceStore.DatasourcesService.Create | apps/api/src/datasources/datasources.service.ts:64-101 | A connection that passed its test is stored with its secrets, any other leaves nothing |
| DatasourceStore.DatasourcesService.SaveSshConfig | apps/api/src/datasources/datasources.service.ts:324-339 | A second SSH configuration violates the unique index |
| DatasourceStore.DatasourcesService.UpdateSshConfig | apps/api/src/datasources/datasources.service.ts:373-384 | A direct connection drops its SSH row and secrets, an SSH one inserts a row |
| DatasourceStore.DatasourcesService.UpdateSecrets | apps/api/src/datasources/datasources.service.ts:386-419 | Given secrets replace the stored ones and those of the other authentication go |
| DatasourceStore.DatasourcesService.Update | apps/api/src/datasources/datasources.service.ts:142-215 | An update commits as a whole or leaves all three tables as they were |
| DatasourceStore.UpdatesCommitExactly | apps/api/src/datasources/datasources.service.ts:142-215 | An update commits if and only if a needed test passed and the connection is then direct to an admitted host, or was direct and is given an acceptable SSH connection |
| DatasourceStore.UpdatesStoreTheGiven | apps/api/src/datasources/datasources.service.ts:149-198 | A committed update stores each setting it gives, and keeps each it does not |
| DatasourceStore.UpdatesStoreTheGivenSecrets | apps/api/src/datasources/datasources.service.ts:373-419 | And the given password and SSH connection with its own secrets; a direct connection keeps none of SSH |
| DatasourceStore.OtherSecretsGo | apps/api/src/datasources/datasources.service.ts:386-419 | Whatever was stored, an SSH connection that is given leaves no secret of the other authentication |
| DatasourceStore.CandidatesAcceptedExactly | apps/api/src/datasources/datasources.service.ts:221-322 | Which modes, hosts and combinations of SSH secrets are acceptable |
| DatasourceStore.TestsAreNeededExactly | apps/api/src/datasources/datasources.service.ts:165-178 | An update needs a test unless it gives at most a status other than ACTIVE and declares nothing else |
| DatasourceStore.UpdatesTestWhatTheyStore | apps/api/src/datasources/datasources.service.ts:160-196 | What was tested are the settings and the password that are then stored |
| DatasourceStore.SshUpdatesRollBack | apps/api/src/datasources/datasources.service.ts:324-339 | No update of an SSH datasource that keeps it one commits |
| DatasourceStore.TunnelledUpdateLeavesNoTrace | apps/api/src/datasources/datasources.service.ts:142-215 | An SSH datasource and an update with nothing new that is rolled back |
| DatasourceStore.UntestedChangesNothing | apps/api/src/datasources/datasources.service.ts:160-178 | An update that needed no test keeps the connection as it was |
| DatasourceStore.ResolverReadsTheCandidate | apps/api/src/database-connections/datasource-config.resolver.ts:31-95 | The resolver gives back a stored candidate exactly if the network policy admits its hosts |
| DatasourceStore.ResolvesExactly | apps/api/src/database-connections/datasource-config.resolver.ts:31-95 | Whatever is stored: what the resolver needs to give a connection, and which one it gives |
| DatasourceStore.ResolveGivesTheLastTested | apps/api/src/database-connections/datasource-config.resolver.ts:31-95 | After any operations resolve gives the last tested candidate, and no stale secret is stored |

## Left out

- ConnectionManagers.ConnectionManager.Acquire: entries are values keyed by an identity and in-flight promises are named by the call that started them, so object aliasing is not modelled; the health of a tunnel is a parameter.
- ConnectionManagers.ConnectionManager.EnsureCapacity: an entry counts as closed when it is handed to closeEntry; the await inside closeEntry, and a tunnel closing after its data source, are not separate steps.
- RegistryOrder.OneInitialisationPerDatasource: promise settlement with its reactions is taken as one step (`prompt`); what holds without is in RegistryTenants.
- RegistryLeaks.ShutdownClosesEverything: waitForIdle has a deadline, so closing does not wait for leases; a second closeAll may still be draining.
- ImportSafety.AtMostOneCommitPerKey: assumes `quiet` and `booked`; ImportSafety.HarmlessRunsCommitOnce assumes only what ImportSafety.RunsAreSafeExactly shows to be necessary for the agreement behind it, and ImportHarm.HarmLeadsToTwoCommits for the commits. A COMMIT whose outcome the client does not learn, and a job delivered twice, are not modelled.
- ImportStranding.NoImportIsStranded: assumes `steady`; exactly when an import is stranded without is ImportStranding.NoneStrandedExactly.
- ImportService.ImportsService.Transition: columns an import keeps from its upload, the column mapping and the audit records are not modelled.
- ImportService.ImportsService.Fail: the code and message of an error are given, not derived from it, and a save that fails is a step that dies.
- ImportService.ImportsService.Requeue: that the stored file still exists is not modelled.
- ImportHarm.HarmLeadsToTwoCommits: does not cover an import whose row was deleted during its execution and whose key another import has taken meanwhile; it can be retried only once that import has given the key up.
- ImportService.ImportsService.Complete: a save refused for another reason than the index is a step that dies.
- ImportQueues.ImportQueue.Add: the queue's connection, retention of finished jobs and redelivery are not modelled.
- CsvText.CopyBodyReadsBack: a lone `\.` as the only field of a line is PostgreSQL's end marker and not part of the reader.
- CsvPreview.PreviewReadsWrittenFile: a byte order mark, which the browser drops, is not modelled.
- ArrayText.ArrayReadsBack: the reader knows one-dimensional literals only.
- ValueTransformers.TransformValue: integers, timestamps and JSON rest on the JavaScript library and are parameters; `toLowerCase` is modelled on Latin letters; a char is a Unicode scalar value, so a length counts characters where JavaScript counts UTF-16 units.
- DateText.DatesAcceptedExactly: a format name that is a property of every JavaScript object is not modelled.
- ColumnMapping.Validate: mappings and columns are maps and lists; a header that is a property of every JavaScript object is not modelled.
- ImportExecution.Import: reading the header, checking the file and creating the table come before and are not modelled.
- RowValidation.AcceptedRowsAlign: the record parser is not modelled; a record is its cells by header, in the order they are enumerated.
- CopyTransaction.Copy: type checks, constraints and triggers of the target table are one parameter, and so is a failing statement.
- ImportExecution.Execute: the conditional update that writes progress, and the audit record at the end, are not modelled as rows; a progress write that fails breaks the stream.
- ImportProgress.PercentsAscend: percentages are computed in exact arithmetic.
- DatasourceStore.ResolveGivesTheLastTested: operations run one at a time; that an update invalidates the open connection belongs to the registry; the network policy is a predicate on hosts that returns the host unchanged; encryption, audit and the names of datasources are not modelled.
- Header reading, table creation, file storage and its cleanup, SQL text and metadata queries, and the web pages are not part of this model.
