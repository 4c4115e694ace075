# Verified model of tc-backend's queue, feed and maintenance programs

A Dafny 4.11 model of the parts of the backend whose correctness spans many functions, and proofs about every run of them.
`dafny verify dfyconfig.toml` checks the whole project; nothing in it is executed.

**The Plate Solve queue.** `PlateSolveJobs` is the job table with the repository that changes its rows in place;
`PlateSolveProtocol` is the system of many workers, a paid-for and unreliable provider, administrators, clock and crashes,
one step per database transaction; `PlateSolveWorker` is the worker program, shown to take protocol steps only while
everybody else interferes between any two of its transactions, and to end a job as the provider's answers decide unless it
is disturbed. `ApiUsage` is the monthly quota, `ApiClients` the HTTP client that checks it before and charges it after a
request, `ProviderErrors` the classification of exception chains.

**AstroJournal records, feed, files and Reset.** `AstroStore` gives every service call as a transition of one database
value; `AstroSession` is the services changing the session's rows in place, each proved to commit exactly its call.
`ObservationRecords`, `AstroInvariants` and `StatusAgreement` prove what each call keeps, `AssetSafety` which files lose
stored assets, `AstroRuns` what holds after every run from the empty database, `ChangeFeed` what a paging client ends with,
`ResetContract` what Reset leaves behind, `AstroColumns` what each call writes, column by column; `AstroCounterexamples` are
two runs that go wrong. `PlateSolveSystem` puts the queue's workers and these services on one job table. `EquipmentSites`
does the same for equipment and observation sites.

**Source-year reconciliation.** `SourceYearAudit` and `SourceYearAuditor` classify scanned files, `SourceYearPlan` and
`SourceYearPlanner` turn audit rows into a plan, `PlanCsv` and `TextForms` print and reload it, `Reconciliation` and
`Reconciler` verify and apply it in batches that may be cut off anywhere, and `ReconciliationVerdicts` says what each status
means. `CaptureDates` is the date projection they share.

**Maintenance.** `CaptureDateBackfill` is the keyset-paged backfill, `SchemaOwnership` the split of the schema between
startup DDL and migrations, `RevisionGraph` the search for the baseline revision. `Options`, `Ordering` and `Tallies` are
small helpers.

Where the code does not do what its design suggests, the exact condition is proved and an input is given:

- The planner fails on audits whose deciding records are not exact dates, in particular on rows an earlier reconciliation
  reduced to their year, and on paths under year 0000 (`SourceYearAudit.PlannerIsTotal`, `PlannerFailsOn`).
- The ownership check complains about a projection that is otherwise fine when an index name is used on both sides, or when
  a column has a key of its own or is declared as a system column (`SchemaOwnership.ProjectionIsVerified`,
  `SharedNameIsReported`, `OwnKeyIsReported`).
- The search for the baseline refuses a revision whose last parent is unknown even if the baseline is reachable through
  another one (`RevisionGraph.LineageHolds`, `ParentOrderMatters`).
- A record stops showing its job's status after a second transaction of a claim that comes when the lease is over
  (`StatusAgreement.AgreementStep`, `AstroCounterexamples.LateSyncHappens`); until then it cannot
  (`PlateSolveSystem.WorkersShowTheirJobs`).
- A Reset whose storage fails after it deleted assets leaves active records on files without them. It can happen exactly to
  used Astro-only files whose first stored path is followed by another one, in the file or in an Astro-only file of larger id
  (`AssetSafety.WhenFilesCanBeStranded`, `StrandingCalls`, `AstroCounterexamples.FailedResetStrands`).
- Usage added after a provider call is not capped: with k callers a month reaches limit + k - 1 units and no more
  (`ApiUsage.LimitHoldsIffIncreasesFit`, `ApiClients.CheckSufficesForOneCaller`). Reservations keep the limit.
- The backfill's counter "no source" also counts rows that a source year decides
  (`CaptureDateBackfill.CountedAsNoSource`, `DatedFileCountedAsNoSource`).

## Model

| member | source | states |
|---|---|---|
| `PlateSolveJobs.FormPreserved` | app/astrojournal/repositories/plate_solve_job_repository.py:25-305 | every operation of the repository keeps one job per file, and a worker id and a lease on exactly the PROCESSING rows |
| `PlateSolveJobs.RunForm` | app/astrojournal/repositories/plate_solve_job_repository.py:25-305 | so does every run of operations from the empty table |
| `PlateSolveJobs.OwnerClaimed` | app/astrojournal/repositories/plate_solve_job_repository.py:65-101 | whoever owns a job in a run got it from the latest claim, with no claim or release since |
| `PlateSolveJobs.Fencing` | app/astrojournal/repositories/plate_solve_job_repository.py:103-241 | in every run an accepted touch, record or mark is made by the worker of the latest claim, with no release in between |
| `PlateSolveJobs.OneRelease` | app/astrojournal/repositories/plate_solve_job_repository.py:173-241 | between two accepted completions, failures or requeues of a job lies a new claim by the second releaser |
| `PlateSolveJobs.RowsLast` | app/astrojournal/repositories/plate_solve_job_repository.py:193-263 | jobs are never removed, keep their file, and a COMPLETED row changes in its record link only |
| `PlateSolveJobs.ByFile` | app/astrojournal/repositories/plate_solve_job_repository.py:58-63 | with one job per file, an operation addressed by file is an update of that one row |
| `PlateSolveJobs.PlateSolveJobRepository.GetByFile` | app/astrojournal/repositories/plate_solve_job_repository.py:58-63 | finds a job of the file exactly if there is one |
| `PlateSolveJobs.PlateSolveJobRepository.Enqueue` | app/astrojournal/repositories/plate_solve_job_repository.py:25-53 | creates a WAITING job unless the file has one, and then only fills a missing record link |
| `PlateSolveJobs.PlateSolveJobRepository.ClaimNext` | app/astrojournal/repositories/plate_solve_job_repository.py:65-101 | claims the oldest row that is WAITING or whose lease expired, skipping locked rows; finds none only if none is eligible; an attempt is counted exactly without saved provider ids |
| `PlateSolveJobs.PlateSolveJobRepository.TouchLease` | app/astrojournal/repositories/plate_solve_job_repository.py:103-125 | sets the lease of the owner's PROCESSING row to now + lease seconds, so that the job is claimable again exactly after that time, changes nothing else, and answers whether there was such a row |
| `PlateSolveJobs.PlateSolveJobRepository.RecordSubmission` | app/astrojournal/repositories/plate_solve_job_repository.py:127-139 | saves the submission id on the owner's row and on no other |
| `PlateSolveJobs.PlateSolveJobRepository.RecordProviderJob` | app/astrojournal/repositories/plate_solve_job_repository.py:141-153 | saves the provider job id on the owner's row and on no other |
| `PlateSolveJobs.PlateSolveJobRepository.RecordReplacementSubmission` | app/astrojournal/repositories/plate_solve_job_repository.py:155-171 | replaces the submission, clears provider job and WCS and counts one more attempt, for the owner only |
| `PlateSolveJobs.PlateSolveJobRepository.MarkRetryable` | app/astrojournal/repositories/plate_solve_job_repository.py:173-191 | puts the owner's row back to WAITING with the message, frees it and keeps its provider ids |
| `PlateSolveJobs.PlateSolveJobRepository.MarkCompleted` | app/astrojournal/repositories/plate_solve_job_repository.py:193-223 | completes the owner's row: status, provider job, solution and WCS of the answer, no error, worker or lease; nobody else's row changes |
| `PlateSolveJobs.PlateSolveJobRepository.MarkFailed` | app/astrojournal/repositories/plate_solve_job_repository.py:225-241 | fails the owner's row with the message and frees it; nobody else's row changes |
| `PlateSolveJobs.PlateSolveJobRepository.Retry` | app/astrojournal/services/plate_solve_queue_service.py:94-114 | returns a FAILED row to WAITING, clears its results and keeps its provider ids; refuses any other row |
| `PlateSolveJobs.PlateSolveJobRepository.FailWaitingForFile` | app/astrojournal/repositories/plate_solve_job_repository.py:265-278 | fails the file's job exactly if it is WAITING |
| `ApiUsage.UsageConserved` | app/common/repositories/api_usage_repository.py:46-154 | after any sequence of calls the used units of a month are the units granted, the remainder is exact, and a key charged by reservations only stays within its effective limit |
| `ApiUsage.EffectStep` | app/common/repositories/api_usage_repository.py:46-255 | each call adds to a month exactly what it granted and leaves every other month alone |
| `ApiUsage.LimitOfEachApi` | app/common/repositories/api_usage_repository.py:261-280 | each API is limited by its own setting, PLACES by that of GEOCODING, VISION by at most 900, an unknown API by zero |
| `ApiUsage.IncreaseFits` | app/common/repositories/api_usage_repository.py:46-82 | usage added after a call keeps a month that is not hard-capped within its limit if and only if the units still fit |
| `ApiUsage.LimitHoldsIffIncreasesFit` | app/common/repositories/api_usage_repository.py:46-209 | such a month is within its limit after every call of a run if and only if `can_use` would have allowed each addition to it at that moment |
| `ApiClients.BoundedStep` | app/common/services/api_clients/base_client.py:117-170 | a check, a charge, a failure or a new month keeps used units plus callers in flight within limit + callers - 1, and a limit of 0 at 0 |
| `ApiClients.MonthsStayBelowCeiling` | app/common/services/api_clients/base_client.py:117-170 | in every run of the shared client no month ever uses more than limit + callers - 1 units, whatever months pass between check and charge |
| `ApiClients.CeilingIsReached` | app/common/services/api_clients/base_client.py:117-170 | for every limit of at least 1 and every set of callers a run reaches that number: all see the last unit, then all use it |
| `ApiClients.CheckSufficesForOneCaller` | app/common/services/api_clients/base_client.py:155-159 | checking before the request keeps every month within its limit if and only if there is at most one caller or the limit is 0 |
| `ApiUsage.ApiUsageRepository.ReserveUsage` | app/common/repositories/api_usage_repository.py:84-154 | reserves the units exactly if they are at least one and keep the month within the effective limit; then the row has the new units, the limit and the exact remainder, and else nothing changes |
| `ApiUsage.ApiUsageRepository.GetOrCreate` | app/common/repositories/api_usage_repository.py:211-255 | creates the month's row empty with the effective limit, adjusts an active row's limit and remainder, and leaves a deleted row and every other row alone |
| `ApiUsage.ApiUsageRepository.IncreaseUsage` | app/common/repositories/api_usage_repository.py:46-82 | adds the units and cuts the remainder at zero, or for the hard-capped VISION month adds them exactly if they fit; a refusal changes nothing |
| `PlateSolveProtocol.QueueStep` | worker/plate_solve_worker.py:84-278 | every step of any worker, administrator, clock, crash or restart under a crashed worker's id keeps the queue invariant: row form, known holders, agreeing copies, recorded submissions within attempts |
| `PlateSolveProtocol.QuotaStep` | worker/plate_solve_worker.py:337-351 | every step keeps charged and outstanding submissions of a month within its reserved units and those within the limit |
| `PlateSolveProtocol.Reachable` | worker/plate_solve_worker.py:92-278 | both invariants hold in every state of every run |
| `PlateSolveProtocol.TablesRun` | app/astrojournal/repositories/plate_solve_job_repository.py:25-305 | the queue seen alone runs as the job table does |
| `PlateSolveProtocol.HeldSinceClaim` | app/astrojournal/repositories/plate_solve_job_repository.py:103-241 | fencing in the protocol: a worker whose writes are accepted claimed the job and has held it in every state since, and nobody claimed or released it in between, even if workers restart under a crashed worker's id |
| `PlateSolveProtocol.LetsGo` | worker/plate_solve_worker.py:84-278 | a job that carries the id of a worker which does not work on it was left by a crash of that worker, or of an earlier process under its id, and has lain there since |
| `PlateSolveProtocol.RequeuedIsResumable` | worker/plate_solve_worker.py:236-257 | every job a worker puts back to WAITING has a saved submission id |
| `PlateSolveProtocol.PollingCopies` | worker/plate_solve_worker.py:428-483 | while a worker that owns the row polls, its ids are the row's ids and the submission id is set |
| `PlateSolveProtocol.NeverForgotten` | app/astrojournal/repositories/plate_solve_job_repository.py:127-171 | a saved submission id never becomes null again, and from then on attempts and recorded submissions move together |
| `PlateSolveProtocol.SavedTogether` | app/astrojournal/repositories/plate_solve_job_repository.py:141-171 | a provider job id implies a submission id, and recorded submissions never exceed attempts |
| `PlateSolveProtocol.SubmissionsArePaid` | worker/plate_solve_worker.py:337-351 | over all workers the provider submissions charged to a month never exceed its reserved units, nor those its limit |
| `PlateSolveProtocol.MissingOrigin` | worker/plate_solve_worker.py:183-209 | a worker on the replacement path was told in this claim that the saved work does not exist |
| `PlateSolveProtocol.LaterSubmissionsReplaceMissingWork` | worker/plate_solve_worker.py:149-221 | every submission recorded after a job's first follows, in the same claim of the same worker, the provider's not-found answer for exactly the saved ids |
| `PlateSolveWorker.PlateSolveWorker.ProcessNext` | worker/plate_solve_worker.py:92-278 | against any interference and any provider script the program only takes protocol steps and terminates; without an eligible job it claims nothing, a completed job's row holds the provider job, solution and WCS of one completed answer in the script, a job given up waits or failed with the message, and which of these it is is decided by the script, the saved ids and the file alone unless a step after the call began raised, lost the row or found the month used up; it holds no job but one left by a crash before the call |
| `PlateSolveWorker.PlateSolveWorker.Poll` | worker/plate_solve_worker.py:428-483 | the polling loop leaves with the script's first answer that is more than a status, having consumed exactly the answers up to it, or with a loss after some trouble |
| `PlateSolveWorker.PlateSolveWorker.Ask` | worker/plate_solve_worker.py:449-476 | the provider is asked only under a lease that has just been extended by the full lease seconds; one status continues the loop with the ids that are also in the row, any other answer is the verdict |
| `PlateSolveWorker.PlateSolveWorker.Submit` | worker/plate_solve_worker.py:155-164 | a submission is paid for before it is made; the id the provider gave is in the row before polling starts; no id means no payment, a lost row, a refusal or an error |
| `PlateSolveWorker.PlateSolveWorker.Upload` | worker/plate_solve_worker.py:155-164 | the paid call is accepted with the id of the answer, or ends the attempt, and only a replacement that failed transiently is requeued |
| `PlateSolveWorker.PlateSolveWorker.Resume` | worker/plate_solve_worker.py:173-221 | saved work is polled; only a not-found answer leads to one replacement submission, whose polling decides the job |
| `PlateSolveWorker.PlateSolveWorker.Handle` | worker/plate_solve_worker.py:235-274 | the handler puts the owner's row back to WAITING or fails it, with the message and without worker and lease, or raises because the row is no longer the worker's |
| `PlateSolveWorker.PlateSolveWorker.Settle` | worker/plate_solve_worker.py:222-274 | a result is stored column by column as the provider gave it; anything else, or a completion that fails, gives the job up with the message |
| `PlateSolveWorker.PollingEnds` | worker/plate_solve_worker.py:428-483 | what polling comes to is decided by the first answer that is more than a status: a result, missing work or a failure, and no later answer is read |
| `PlateSolveWorker.SuccessIsAnAnswer` | worker/plate_solve_worker.py:173-230 | a job succeeds only with a result that the provider has given, on the first, the resumed and the replaced path |
| `PlateSolveWorker.World.Claim` | app/astrojournal/services/plate_solve_queue_service.py:140-160 | the first transaction of a claim is a protocol step and the worker's copies are the claimed row's ids; without a claim nothing unlocked was eligible |
| `PlateSolveWorker.World.Write` | app/astrojournal/services/plate_solve_queue_service.py:162-286 | each fenced write of the queue service is a protocol step that answers true exactly if the worker owned its job's row, and is the latest step of the history |
| `PlateSolveWorker.World.Raises` | worker/plate_solve_worker.py:235-274 | a transaction of the worker that raises commits nothing and leads to the exception handler, without a requeue |
| `ProviderErrors.IsTransientProviderError` | worker/plate_solve_worker.py:486-510 | the walk along causes and contexts terminates even on cyclic chains and answers true exactly if the chain holds a transient error |
| `ProviderErrors.KnownFailures` | worker/plate_solve_worker.py:479-510 | a passed polling deadline and an upload the provider did not take are transient, a work-not-found answer with its 404 cause is not |
| `ProviderErrors.TransientFailures` | worker/plate_solve_worker.py:494-509 | connection failures, timeouts, 408, 429, server errors and provider errors below 400 are transient, configuration, limit and other client errors are not |
| `ChangeFeed.PollConsumes` | app/common/repositories/change_event_repository.py:40-51 | one page takes a client to a later prefix of the log, and without further rows it has the whole log |
| `ChangeFeed.PageIs` | app/common/repositories/change_event_repository.py:40-51 | a page holds the first entries behind the cursor that belong to the service, ascending and up to the limit, and announces more exactly if one is left |
| `ChangeFeed.PagingIsReplay` | app/common/repositories/change_event_repository.py:18-51 | whatever is appended between pages and whatever the page sizes, a client that pages until no further rows are announced holds exactly the replay of the log, cleared at each Reset event |
| `ChangeFeed.ChangeEventRepository.Append` | app/common/repositories/change_event_repository.py:18-38 | appends one row behind all others |
| `ChangeFeed.ChangeEventRepository.Drain` | app/common/repositories/change_event_repository.py:40-51 | paging through the feed terminates with the replay of the log |
| `ObservationRecords.ReviseAll` | app/astrojournal/services/observation_record_service.py:104-108 | a batch of revisions with one UPDATE event each, in any row order, keeps the feed equal to the table |
| `ObservationRecords.DemotionClears` | app/astrojournal/repositories/observation_record_repository.py:61-83 | after clearing representatives no active one of that catalog object is left but the excepted record |
| `AstroInvariants.FeedStep` | app/astrojournal/services/observation_record_service.py:84-231 | every service call keeps: replaying the feed gives the table's revisions and tombstones, and each record's events are its revisions 1 to n |
| `AstroInvariants.RepresentativeStep` | app/astrojournal/services/observation_record_service.py:84-194 | every service call keeps at most one active representative per catalog object, each with a non-empty catalog id, also when a PATCH changes the catalog id |
| `AstroInvariants.FilesStep` | app/astrojournal/services/file_cleanup_service.py:79-256 | every service call keeps links on existing undeleted files, active records on linked files, and tombstoned files without paths |
| `AssetSafety.CleanupSparesUsedFiles` | app/astrojournal/services/file_cleanup_service.py:79-203 | a clean-up asks the storage exactly for existing files with something left that no other link and no running vision or waiting solve job needs, and no active record uses such a file whichever service acts |
| `AssetSafety.CleanedForGood` | app/astrojournal/services/file_cleanup_service.py:182-256 | a cleaned file is a tombstone without link, path or active record, and cleaning it again by any service finds it clean and changes nothing |
| `AssetSafety.FailedCleanupCanBeRetried` | app/astrojournal/services/file_cleanup_service.py:187-203 | a clean-up whose storage fails changes no row, and a retry whose storage succeeds cleans the file |
| `AssetSafety.SharedFilesArePreserved` | app/astrojournal/services/file_cleanup_service.py:106-146 | no call asks for the assets of a file another service links or removes another service's link, and only a Reset asks for the assets of a file an active record uses |
| `AssetSafety.UsedFilesInAReset` | app/astrojournal/services/reset_service.py:118-191 | a Reset that asked for a used file's assets leaves it an unused tombstone if it succeeds, and every row as it was if it fails |
| `AssetSafety.StrandingCalls` | app/astrojournal/services/reset_service.py:136-191 | a call deletes assets of a file that an active record still uses afterwards if and only if it is a Reset that reached the used file and then failed |
| `AssetSafety.WhenFilesCanBeStranded` | app/astrojournal/services/reset_service.py:103-145 | with a storage that may fail on stored paths only, some failing Reset strands a file if and only if nothing blocks a Reset, the file is used, Astro-only and has a stored path, and a second stored path follows in it or in an Astro-only file of larger id |
| `AstroInvariants.QueueStep` | app/astrojournal/services/plate_solve_queue_service.py:116-138 | every service call keeps the queue's form and a job for every record's file |
| `StatusAgreement.AgreementStep` | app/astrojournal/services/plate_solve_queue_service.py:94-313 | agreement of record status and job status survives a call if and only if the call is neither a late second transaction of a claim nor a PATCH that writes another status |
| `AstroCounterexamples.LateSyncHappens` | app/astrojournal/services/plate_solve_queue_service.py:140-160 | a concrete run in which a slow worker's second claim transaction commits after another worker completed the job: the record of a COMPLETED job says PROCESSING |
| `AstroCounterexamples.FailedResetStrands` | app/astrojournal/services/reset_service.py:136-145 | a concrete run in which a Reset deletes an original, fails at the preview and rolls back: an active record is left on a file whose original is gone |
| `AstroRuns.EveryStateIsSound` | app/astrojournal/services/observation_record_service.py:56-256 | feed, representative, file and queue invariants hold after every call of every run |
| `AstroRuns.RecordsAreChronicled` | app/astrojournal/services/observation_record_service.py:104-231 | in every run a record's events are exactly its revisions 1, 2, .., a CREATE first and a tombstone only last |
| `AstroRuns.ClientsCatchUp` | app/common/repositories/change_event_repository.py:40-51 | a client paging while calls keep committing ends with exactly the table's (id, revision, deleted) map |
| `AstroRuns.IndexNeverRejects` | app/astrojournal/repositories/observation_record_repository.py:61-110 | in serial runs the partial unique index accepts every intermediate and final state of a demotion |
| `AstroRuns.TombstonesStayUnreferenced` | app/astrojournal/services/file_cleanup_service.py:212-233 | in every run a deleted file row has no service link, no active record and no paths |
| `AstroRuns.SharedFilesSurvive` | app/astrojournal/services/file_cleanup_service.py:106-146 | in every run asset deletions spare files another service links, and used files but for a Reset, which ends their use or changes no row; links of other services stay |
| `AstroRuns.StillProcessing` | app/astrojournal/services/plate_solve_queue_service.py:153-159 | between a claim and its second transaction the job stays the claimer's unless it is claimed again |
| `AstroRuns.RecordsShowTheirJobs` | app/astrojournal/services/plate_solve_queue_service.py:94-313 | if claims settle before the job is claimed again and no PATCH writes the status, every active record of a job not being processed shows the job's status after every call |
| `AstroColumns.PatchIsAccepted` | app/astrojournal/services/observation_record_service.py:161-182 | a PATCH is accepted exactly for an active record of its revision, with usable equipment, no null status and an object for a resulting representative |
| `AstroColumns.PatchWrites` | app/astrojournal/repositories/observation_record_repository.py:85-103 | an accepted PATCH sets the columns it names, keeps file, client id, deletion mark and every other column, counts one revision, demotes exactly the other active representatives of the object the record then names, and leaves files, links and jobs alone |
| `AstroColumns.CreationIsAccepted` | app/astrojournal/services/observation_record_service.py:56-75 | a new record is accepted exactly for an unknown client id, an undeleted file, usable equipment and an object for a representative |
| `AstroColumns.CreationWrites` | app/astrojournal/services/observation_record_service.py:77-108 | an accepted creation stores the payload at revision 1, links the file, demotes exactly the object's other representatives and changes no other row |
| `AstroColumns.CreationQueues` | app/astrojournal/services/observation_record_service.py:97-102 | the file's job gets a missing record link or is created waiting, and the new record shows its status |
| `AstroColumns.DeletionWrites` | app/astrojournal/services/observation_record_service.py:215-231 | a deletion tombstones an active record once and fails the file's waiting job exactly if no other active record uses the file |
| `AstroColumns.CleanupGuards` | app/astrojournal/services/file_cleanup_service.py:79-200 | a clean-up answers with the first guard that applies: missing file, active record, another service's link, running vision, open solve job, nothing left, storage failure, success |
| `AstroColumns.CleanupWrites` | app/astrojournal/services/file_cleanup_service.py:106-256 | a cleaned file is an empty tombstone without link, metadata, tags and active vision jobs; a file another service keeps loses this service's link alone; any other outcome changes nothing |
| `AstroColumns.SubmissionWrites` | app/astrojournal/services/plate_solve_service.py:25-40 | a file submitted for solving gets a waiting job exactly if it has an original, an AstroJournal link and no job |
| `AstroColumns.StatusWrites` | app/astrojournal/services/plate_solve_queue_service.py:288-313 | after a settled claim, an owner's release or a retry exactly the file's active records with another status take the job's, one revision each |
| `AstroColumns.RefusedStatusWrites` | app/astrojournal/services/plate_solve_queue_service.py:228-286 | a release by anybody but the owner and a retry of a job that has not failed change no row |
| `PlateSolveSystem.OneTable` | app/astrojournal/services/plate_solve_queue_service.py:94-313 | workers and services that act on one database keep seeing one job table: a protocol step's transaction and its call on the records' database change the jobs alike |
| `PlateSolveSystem.SystemStep` | app/astrojournal/services/plate_solve_queue_service.py:94-313 | every action of a worker or a service keeps the invariants of the queue protocol and of the records' database together |
| `PlateSolveSystem.SystemIsSound` | worker/plate_solve_worker.py:84-278 | both hold after every run of workers, services, crashes and restarts over one job table |
| `PlateSolveSystem.WorkKeepsLeases` | app/astrojournal/repositories/plate_solve_job_repository.py:65-101 | until the lease of its latest claim or accepted touch ends, a working worker owns its job under that lease, whatever the others do |
| `PlateSolveSystem.LeaseProtects` | app/astrojournal/repositories/plate_solve_job_repository.py:65-125 | in every run with a clock that does not go back, a worker that touched or claimed a job holds it until that lease ends unless it finishes, gives up, touches again or crashes, and until then the job cannot be claimed |
| `PlateSolveSystem.AgreementAction` | app/astrojournal/services/plate_solve_queue_service.py:140-313 | an action of the whole system ends the agreement of records and jobs if and only if it is a late second claim transaction or an overwriting PATCH |
| `PlateSolveSystem.WorkersShowTheirJobs` | worker/plate_solve_worker.py:84-278 | in every run in which the clock does not go back, workers settle claims within their leases and no client writes the mirrored column, each active record shows its job's status unless that job is being processed |
| `AstroSession.AstroSession.ClearRepresentative` | app/astrojournal/repositories/observation_record_repository.py:61-83 | the loop demotes exactly the other active representatives of the catalog object, one revision each, and lists them |
| `AstroSession.AstroSession.AppendChanges` | app/astrojournal/services/observation_record_service.py:104-106 | appends one UPDATE event with the new revision per demoted record, in order |
| `AstroSession.AstroSession.Create` | app/astrojournal/services/observation_record_service.py:56-123 | commits the creation call: idempotent per client record id, refused with the reply of the first check that fails, else record, link, job, demotions and events together |
| `AstroSession.AstroSession.Update` | app/astrojournal/services/observation_record_service.py:161-213 | accepts a PATCH exactly if the revision matches and the values are allowed; then the record takes the patch's values, the object it then names has no other active representative, and every refusal and roll-back changes nothing and names its reason |
| `AstroSession.AstroSession.SoftDelete` | app/astrojournal/services/observation_record_service.py:215-235 | tombstones an active record once, fails its unreferenced waiting job and appends a DELETE tombstone event |
| `AstroSession.AstroSession.FailWaitingIfFileUnreferenced` | app/astrojournal/services/plate_solve_queue_service.py:116-138 | fails the file's waiting job exactly if no active record uses the file |
| `AstroSession.AstroSession.SyncObservationStatus` | app/astrojournal/services/plate_solve_queue_service.py:288-313 | gives exactly the file's active records with another status the job's status, one revision and one event each |
| `AstroSession.AstroSession.ClaimNext` | app/astrojournal/services/plate_solve_queue_service.py:140-156 | commits the first transaction of a claim |
| `AstroSession.AstroSession.SyncClaimed` | app/astrojournal/services/plate_solve_queue_service.py:157-160 | commits the second transaction of a claim |
| `AstroSession.AstroSession.Release` | app/astrojournal/services/plate_solve_queue_service.py:228-286 | completes, fails or requeues a job and its records together, or reports the lost lease and changes nothing |
| `AstroSession.AstroSession.Retry` | app/astrojournal/services/plate_solve_queue_service.py:94-114 | requeues a FAILED job and its records, and refuses every other job |
| `AstroSession.AstroSession.CleanupFile` | app/astrojournal/services/file_cleanup_service.py:79-256 | commits the clean-up call with the outcome its checks prescribe |
| `AstroSession.AstroSession.DeleteResetAssets` | app/astrojournal/services/file_cleanup_service.py:258-285 | the loop asks for a file exactly if all files of smaller id were deleted, succeeds exactly if every file's assets are gone, and then has counted the deletions of each kind |
| `AstroSession.AstroSession.DeleteUploadIncomingAssets` | app/astrojournal/services/reset_service.py:314-324 | succeeds exactly if no AstroJournal upload's incoming asset fails to be deleted |
| `AstroSession.AstroSession.StageDatabaseCleanup` | app/astrojournal/services/file_cleanup_service.py:287-325 | clears the Astro-only files' data, removes AstroJournal's links of the targets, and counts the links that are gone |
| `AstroSession.AstroSession.StageReset` | app/astrojournal/services/reset_service.py:146-157 | removes records, Astro-only files' data, AstroJournal links of the targets and its upload jobs, nothing else, and counts the records, links and uploads the tables lost |
| `AstroSession.AstroSession.ExecuteReset` | app/astrojournal/services/reset_service.py:103-191 | refused exactly if processing AstroJournal uploads, processing undeleted vision jobs of Astro-only files and processing solve jobs are not zero in sum, and otherwise done exactly if the storage refuses no asset; commits the Reset call, asks the storage exactly for the files the call reaches, and reports what the tables lost and the storage deleted: for rows and files what the preview announced, and with an honest storage no more assets than announced |
| `AstroSession.AstroSession.PreviewCounts` | app/astrojournal/services/reset_service.py:58-101 | every number of the preview is the size of a set of rows chosen by their columns, files by links and records alone |
| `AstroSession.ScopeIsCounted` | app/astrojournal/services/reset_service.py:146-178 | what a successful Reset takes from the upload table is what its scope announced, and its scope's files are tombstones or as they were |
| `AstroSession.DeletionsAreAnnounced` | app/astrojournal/services/reset_service.py:84-92 | with a storage that deletes stored paths only, deleted assets of each kind are bounded by the preview |
| `ResetContract.SuccessClearsAstroJournal` | app/astrojournal/services/reset_service.py:118-163 | a successful Reset leaves no record, no AstroJournal link or upload and no WAITING or PROCESSING job, tombstones exactly the Astro-only files and keeps all other links and files |
| `ResetContract.SharedFilesLoseTheLinkOnly` | app/astrojournal/services/file_cleanup_service.py:287-325 | a shared file keeps its row, metadata, tags, vision jobs and other links |
| `ResetContract.ResetIsFinal` | app/astrojournal/services/reset_service.py:154-163 | after a success the scope is empty and nothing blocks; exactly a success adds one event |
| `ResetContract.ScopeIs` | app/astrojournal/services/reset_service.py:193-236 | the scope is every existing file with an AstroJournal link or record, Astro-only without a link of another service, shared with one |
| `ResetContract.BlockedByProcessing` | app/astrojournal/services/reset_service.py:58-72 | a Reset is blocked exactly if the counted processing uploads, vision jobs and solve jobs are not zero in sum |
| `ResetContract.NothingRunningIsLost` | app/astrojournal/services/reset_service.py:97-118 | a Reset removes no upload that is being processed, marks no processing vision job deleted and leaves every processing solve job as it was |
| `ResetContract.ResetWrites` | app/astrojournal/services/reset_service.py:118-173 | each table after a success, on links and records: tombstones for Astro-only files, no AstroJournal link in scope, no AstroJournal upload, waiting jobs failed with the Reset's message and cut from their records, one event, and nothing else changed |
| `EquipmentSites.IntegrityStep` | app/astrojournal/services/observation_site_service.py:228-235 | every call of both services keeps: an active site names no missing or deleted equipment |
| `EquipmentSites.ToldStep` | app/astrojournal/services/equipment_service.py:169-212 | every call keeps each site's and equipment's events equal to its revisions 1 to n |
| `EquipmentSites.SitesNameActiveEquipment` | app/astrojournal/services/observation_site_service.py:45-195 | both hold after every sequence of calls |
| `EquipmentSites.DeletionDetachesItsUsers` | app/astrojournal/services/equipment_service.py:187-198 | deleting an equipment raises the revision of, and emits one event for, exactly the active sites that used it |
| `EquipmentSites.EquipmentCatalog.CreateEquipmentRow` | app/astrojournal/services/equipment_service.py:40-83 | creates the row at revision 1 with one event exactly for an unused id; a deleted id is refused |
| `EquipmentSites.EquipmentCatalog.UpdateEquipmentRow` | app/astrojournal/services/equipment_service.py:108-167 | replaces the details of an active row of the expected revision, one revision later with one event, and changes nothing else |
| `EquipmentSites.EquipmentCatalog.DeleteEquipmentRow` | app/astrojournal/services/equipment_service.py:169-212 | tombstones an active row of the expected revision and clears it from exactly the active sites that used it, in ascending order of their ids |
| `EquipmentSites.EquipmentCatalog.DetachInOrder` | app/astrojournal/services/equipment_service.py:187-198 | the loop clears the reference and raises the revision of each listed site and appends its event |
| `EquipmentSites.EquipmentCatalog.CreateSiteRow` | app/astrojournal/services/observation_site_service.py:45-83 | creates the site at revision 1 exactly for an unused id and an active default equipment |
| `EquipmentSites.EquipmentCatalog.UpdateSiteRow` | app/astrojournal/services/observation_site_service.py:108-162 | sets what the call names of an active site of the expected revision, keeps the rest, and only with an active resulting default equipment |
| `EquipmentSites.EquipmentCatalog.DeleteSiteRow` | app/astrojournal/services/observation_site_service.py:164-195 | tombstones an active site of the expected revision, one revision later with one event |
| `CaptureDates.Calculate` | app/memorykeeper/services/capture_date_service.py:38-102 | the projection's year is its date's year, only a source year gives a year without a date, USER means a user date, and a source year without user date decides the year |
| `CaptureDates.SourcesInOrder` | app/memorykeeper/services/capture_date_service.py:58-102 | the user's date precedes the source year, which keeps an EXIF date of that year exact; without them EXIF precedes the import and the import the creation, each with its precision and basis |
| `Reconciliation.ReadyBecomesApplied` | scripts/reconcile_memorykeeper_source_years.py:573-653 | an applied row verifies as ALREADY_APPLIED, one revision later, with the user's date untouched and the planned year |
| `Reconciliation.OthersUnchanged` | scripts/reconcile_memorykeeper_source_years.py:395-491 | applying one row does not change how another file's row verifies |
| `Reconciliation.AdvanceApplies` | scripts/reconcile_memorykeeper_source_years.py:293-321 | in a run over the ready rows each row is still ready when its turn comes |
| `Reconciliation.SuffixRemains` | scripts/reconcile_memorykeeper_source_years.py:254-303 | verifying again after part of a run leaves exactly the remaining rows ready, in the same order, and blocks as before |
| `Reconciliation.AttemptsAreAPrefix` | scripts/reconcile_memorykeeper_source_years.py:278-337 | after any attempts with any batch sizes and crashes the database is that of one run stopped after some row |
| `Reconciliation.AttemptsConverge` | scripts/reconcile_memorykeeper_source_years.py:278-337 | after any crashed attempts one attempt that gets through ends in the states, history and events of a single uninterrupted run |
| `Reconciliation.FinishedRun` | scripts/reconcile_memorykeeper_source_years.py:602-638 | a finished run raised every ready file's revision exactly once, with two history rows and one event each, changed no other state and has nothing left to do |
| `ReconciliationVerdicts.NothingToVerify` | scripts/reconcile_memorykeeper_source_years.py:400-416 | a row has no file, no link or no state exactly if the database has none, in this order |
| `ReconciliationVerdicts.UserDatesAreKept` | scripts/reconcile_memorykeeper_source_years.py:418-434 | KEEP_USER and USER_CONFLICT_REVIEW on the user's date, the planned year and the plan's own review mark: each exactly when |
| `ReconciliationVerdicts.StoredSources` | scripts/reconcile_memorykeeper_source_years.py:437-457 | stored provenance is ALREADY_APPLIED exactly with the planned year and the columns it implies, and otherwise a conflict |
| `ReconciliationVerdicts.StaleRows` | scripts/reconcile_memorykeeper_source_years.py:458-484 | STALE_REVISION exactly if the live revision differs from the planned one, SNAPSHOT_MISMATCH exactly if one of the six planned columns does |
| `ReconciliationVerdicts.ReadyRowsAre` | scripts/reconcile_memorykeeper_source_years.py:464-491 | a row is ready exactly if its file is live and linked, no user date, USER basis or source year is stored, revision and all planned columns are the live ones and the EXIF date agrees with the plan; which ready status names the plan's action and reason |
| `ReconciliationVerdicts.BlockingRowsAre` | scripts/reconcile_memorykeeper_source_years.py:94-104 | a plan is blocked exactly by a row that is neither ready, nor applied, nor left to the user |
| `ReconciliationVerdicts.ApplyWrites` | scripts/reconcile_memorykeeper_source_years.py:573-638 | applying a row writes the planned year and its provenance one revision later, keeps the user's columns, and appends two history rows and one event with these values |
| `ReconciliationVerdicts.StillOnlyPlanned` | scripts/reconcile_memorykeeper_source_years.py:301-331 | on any database the rows changed so far were written from plan rows whose revision and columns they had when the run began |
| `Reconciler.MemoryKeeperSourceYearReconciler.VerifyAll` | scripts/reconcile_memorykeeper_source_years.py:254-276 | one result per plan row in order: excluded rows unread, any other ready exactly if its file is live, undecided, as planned and in agreement with its EXIF date |
| `Reconciler.MemoryKeeperSourceYearReconciler.ApplyContext` | scripts/reconcile_memorykeeper_source_years.py:573-653 | writes exactly the planned row, whose state was undecided and of the planned revision, one revision later, with the two history rows and the event that tell it; its own consistency checks never fire |
| `Reconciler.MemoryKeeperSourceYearReconciler.ApplyBatch` | scripts/reconcile_memorykeeper_source_years.py:301-331 | a batch commits as a whole or rolls back; on rows found as verified it applies all of them in order, and on any database it writes planned rows only |
| `Reconciler.MemoryKeeperSourceYearReconciler.SortReady` | scripts/reconcile_memorykeeper_source_years.py:293-299 | the ready results in ascending order of file id |
| `Reconciler.MemoryKeeperSourceYearReconciler.ApplyVerified` | scripts/reconcile_memorykeeper_source_years.py:278-337 | refused exactly for a batch size outside 1 to 50 or a row that is neither ready, applied nor left to the user; on an unchanged database never fails and ends where the attempt with these batches ends; on any database each state that changed had the revision and columns of its plan row when the call began and ends one revision later, with two history rows and one event per applied row |
| `Reconciler.TodoAsExpected` | scripts/reconcile_memorykeeper_source_years.py:301-321 | on an unchanged database no row fails its second verification under lock |
| `SourceYearPlan.AnyRowComesFirst` | scripts/plan_memorykeeper_source_year_reconciliation.py:202-262 | the verdict on a group does not depend on its first row |
| `SourceYearPlan.RejectedGroups` | scripts/plan_memorykeeper_source_year_reconciliation.py:202-262 | a group is rejected exactly for differing snapshots, a missing year, differing or ungroupable statuses of an undisputed year, or an exact date that is incomplete, contradicts its status or has an unknown basis |
| `SourceYearPlan.AcceptedGroups` | scripts/plan_memorykeeper_source_year_reconciliation.py:202-488 | action, reason, year and review mark of an accepted group, by its status and the basis of its date; a disputed year is excluded as ambiguous |
| `SourceYearPlan.ExclusionNames` | scripts/plan_memorykeeper_source_year_reconciliation.py:261-270 | a row without a digest is excluded under its own status with the year of its path |
| `SourceYearPlan.KeyOrder` | scripts/plan_memorykeeper_source_year_reconciliation.py:521-527 | the sort key orders by digest with absent ones last, then by year, then by reason |
| `SourceYearPlan.TextOrder` | scripts/plan_memorykeeper_source_year_reconciliation.py:521-527 | reasons are compared lexicographically: at the first difference, a proper prefix first |
| `SourceYearPlan.OrderDoesNotMatter` | scripts/plan_memorykeeper_source_year_reconciliation.py:181-287 | any permutation of the audit rows is accepted or rejected alike and gives the same rows with a digest in the same order and the same rows over all |
| `SourceYearPlan.PlanShape` | scripts/plan_memorykeeper_source_year_reconciliation.py:181-287 | the plan is one row per digest in digest order, then one row per row without digest |
| `SourceYearPlan.PathsAreConserved` | scripts/plan_memorykeeper_source_year_reconciliation.py:181-287 | the source path counts sum to the number of audit rows |
| `SourceYearPlan.SortedIsAPermutation` | scripts/plan_memorykeeper_source_year_reconciliation.py:272-272 | the stable sort orders the rows by the sort key and keeps them all |
| `SourceYearPlanner.ClassifyGroup` | scripts/plan_memorykeeper_source_year_reconciliation.py:202-262 | judges a group as the order-free verdict does |
| `SourceYearPlanner.GroupRows` | scripts/plan_memorykeeper_source_year_reconciliation.py:183-193 | groups the rows by digest and keeps the others, or rejects a row that must have a digest |
| `SourceYearPlanner.JudgeGroups` | scripts/plan_memorykeeper_source_year_reconciliation.py:201-260 | judges the groups in ascending order of their digests and keeps the counters in step |
| `SourceYearPlanner.AddStandalone` | scripts/plan_memorykeeper_source_year_reconciliation.py:261-270 | adds one exclusion per row without a digest and keeps the counters in step |
| `SourceYearPlanner.CountsArePositions` | scripts/plan_memorykeeper_source_year_reconciliation.py:195-259 | each counter of the plan is the number of rows with that action, reason, year or review mark |
| `SourceYearPlanner.BuildPlan` | scripts/plan_memorykeeper_source_year_reconciliation.py:181-287 | succeeds exactly on accepted rows, returns the plan with a counter for every action, reason and year that tallies its rows, and its two total checks never fire |
| `Tallies.BumpAddsOne` | scripts/plan_memorykeeper_source_year_reconciliation.py:276-280 | counting one more raises the sum of a counter by one |
| `SourceYearPlanner.SortRows` | scripts/plan_memorykeeper_source_year_reconciliation.py:272-272 | the loop sorts stably by the sort key |
| `SourceYearAudit.PlannerIsTotal` | scripts/audit_memorykeeper_original_years.py:359-391 | on audit output the planner succeeds if and only if no path lies under year 0000 and every record that decides a row is coherent |
| `SourceYearAudit.PlannerFailsOn` | scripts/audit_memorykeeper_original_years.py:359-391 | two concrete audits without a plan: one path under year 0000, and one record that was reduced to its year |
| `SourceYearAudit.AuditedRow` | scripts/audit_memorykeeper_original_years.py:359-419 | status, year, digest and snapshot of each audit row, by the path year, the digest, the record and the other files of that digest |
| `SourceYearAudit.VerdictLoads` | scripts/reconcile_memorykeeper_source_years.py:738-892 | the loader accepts a planned row exactly if it is excluded or its record is exact |
| `SourceYearAudit.PlansLoad` | scripts/reconcile_memorykeeper_source_years.py:219-242 | the loader accepts a whole plan exactly if its actionable rows are exact, and then every digest is unique and every row actionable |
| `SourceYearAudit.PlanDigestsDiffer` | scripts/reconcile_memorykeeper_source_years.py:233-241 | the loader's check for duplicate digests never fires on a plan |
| `SourceYearAudit.ProjectedStatesPlan` | app/memorykeeper/services/capture_date_service.py:113-171 | a state the projection wrote without source year is exact, and coherent as soon as it has a date |
| `SourceYearAudit.ReducedRowsCannotBePlanned` | scripts/plan_memorykeeper_source_year_reconciliation.py:413-430 | after reconciling, a row is plannable again exactly if it kept its EXIF date; a row reduced to its year is not |
| `SourceYearAuditor.Scan` | scripts/audit_memorykeeper_original_years.py:279-345 | stops in front of the first dated path beyond the limit, with progress counters that add up and every hashed file under its digest |
| `SourceYearAuditor.ClassifyDigest` | scripts/audit_memorykeeper_original_years.py:359-391 | gives every file of a digest its audit row, ambiguous exactly if two of them lie under different years |
| `SourceYearAuditor.AuditSources` | scripts/audit_memorykeeper_original_years.py:263-356 | one row per scanned file in scan order, classified as the audit prescribes |
| `TextForms.IntRoundTrip` | scripts/reconcile_memorykeeper_source_years.py:950-959 | a printed integer reads back as itself |
| `TextForms.HexRoundTrip` | scripts/reconcile_memorykeeper_source_years.py:110-110 | the fixed-width hexadecimal text of a digest reads back as the digest |
| `TextForms.DecimalRoundTrip` | scripts/reconcile_memorykeeper_source_years.py:950-992 | fixed-width decimal digits read back as the number |
| `TextForms.DateRoundTrip` | scripts/reconcile_memorykeeper_source_years.py:962-971 | a calendar date is printed as year, month and day and reads back as itself |
| `TextForms.DateTimeRoundTrip` | scripts/reconcile_memorykeeper_source_years.py:974-992 | a printed date and time, with or without microseconds, reads back as itself |
| `TextForms.DateTimeLayout` | scripts/plan_memorykeeper_source_year_reconciliation.py:124-153 | a date and time is printed as date, T, clock and, only if there are any, six digits of microseconds |
| `PlanCsv.PrintedValues` | scripts/plan_memorykeeper_source_year_reconciliation.py:124-153 | a printed row is readable and its values are the row's, but for a year 0, which prints as blank |
| `PlanCsv.ColumnTexts` | scripts/plan_memorykeeper_source_year_reconciliation.py:31-41 | the texts of the action, reason and review columns |
| `PlanCsv.ColumnValues` | scripts/plan_memorykeeper_source_year_reconciliation.py:124-153 | each value is printed in the column of its name |
| `PlanCsv.RoundTrip` | scripts/reconcile_memorykeeper_source_years.py:738-892 | printing and loading returns the row if and only if the loader accepts it and no year is 0; other spellings that Python would read are outside |
| `PlanCsv.PlanRowsSurvive` | scripts/reconcile_memorykeeper_source_years.py:738-892 | every row of a plan survives the trip through the plan file exactly if it is excluded or exact |
| `PlanCsv.LoadedTextsAreNormal` | scripts/plan_memorykeeper_source_year_reconciliation.py:530-543 | what the audit loader makes of a text cell is trimmed and upper-case or absent |
| `CaptureDateBackfill.DryRunIsFaithful` | scripts/backfill_capture_dates.py:430-545 | the update changes a row exactly if the dry run announces it, and else leaves it as it was |
| `CaptureDateBackfill.ScanOutcomes` | scripts/backfill_capture_dates.py:397-427 | each outcome of the scan exactly when, by the stored date, the mode, the path and the storage's answer; only a date found in the original is used |
| `CaptureDateBackfill.AnnouncedRows` | scripts/backfill_capture_dates.py:430-482 | a row is announced unless it has a state that shows the projection of its sources in every column and nothing was found |
| `CaptureDateBackfill.WrittenRows` | scripts/backfill_capture_dates.py:485-545 | an update stores a found EXIF date and the projection of the sources with its generated day and year, and never the user's columns, the source year or the revision |
| `CaptureDateBackfill.UseIs` | scripts/backfill_capture_dates.py:726-736 | which source counter a projected row adds to, by the dates of its sources |
| `CaptureDateBackfill.UpdatedRowsAreDone` | scripts/backfill_capture_dates.py:430-545 | an updated row is announced again exactly if the storage finds a date it did not find before |
| `CaptureDateBackfill.ResumedRunsAddUp` | scripts/backfill_capture_dates.py:142-237 | a limited run and one resumed behind its last file visit together what one full run visits |
| `CaptureDateBackfill.CountedAsNoSource` | scripts/backfill_capture_dates.py:726-736 | a row is counted as having no source if and only if no user date exists and either a source year decides without an EXIF date of that year or there is no date at all |
| `CaptureDateBackfill.DatedFileCountedAsNoSource` | scripts/backfill_capture_dates.py:726-736 | a concrete row with an EXIF date, an import date and a source year is counted as having no source |
| `CaptureDateBackfill.CaptureDateBackfill.LoadBatch` | scripts/backfill_capture_dates.py:311-326 | the next active files behind the cursor, ascending, up to the limit |
| `CaptureDateBackfill.CaptureDateBackfill.HighWater` | scripts/backfill_capture_dates.py:301-308 | the largest id of an active file, absent exactly without active files |
| `CaptureDateBackfill.CaptureDateBackfill.RecordDryRunRow` | scripts/backfill_capture_dates.py:430-482 | keeps each reason counter the number of visited files with that scan outcome, each source counter the number of those whose date would come from it, and announces the row exactly if it would be updated |
| `CaptureDateBackfill.CaptureDateBackfill.ApplySnapshot` | scripts/backfill_capture_dates.py:485-545 | skips a file that became inactive, rolls a failing one back, and else writes it and counts it exactly if it changed |
| `CaptureDateBackfill.CaptureDateBackfill.RunBatches` | scripts/backfill_capture_dates.py:170-235 | the cursor loop terminates and visits the active files behind the start, each once, ascending, up to the limit, whatever the batch size |
| `CaptureDateBackfill.CaptureDateBackfill.Run` | scripts/backfill_capture_dates.py:142-237 | the whole run: which options are refused, the high-water mark, what is visited, every counter as the number of files it stands for, what is written, and without failures as many updates as announcements |
| `SchemaOwnership.ProjectionIsVerified` | scripts/db_migrate.py:174-241 | the verifier accepts the startup projection if and only if no bootstrap-owned index shares its name with a migration-owned index of the same bootstrap table and every bootstrap-owned column's name is the key of a column not declared as a system column; the latter holds whenever keys are names and no column is declared system |
| `SchemaOwnership.OwnKeyIsReported` | scripts/db_migrate.py:211-218 | a concrete column under a key of its own that the projection accepts and the check misses |
| `SchemaOwnership.SharedNameIsReported` | scripts/db_migrate.py:174-241 | a concrete table whose projection raises nothing, drops both indexes of one name and is reported |
| `SchemaOwnership.FilterIs` | migrations/ownership.py:17-50 | the Alembic filter by kind of object: a table with anything marked, a marked column or index and nothing else, and a reflected object as the model object beside it |
| `SchemaOwnership.ColumnsAreSplit` | app/common/schema_sync.py:78-131 | a column is created by exactly one of startup DDL and Alembic if and only if its own system flag or a migration-owned name equal to its key marks it exactly when a migration owns it, as always in plain tables |
| `SchemaOwnership.IndexesAreSplit` | migrations/ownership.py:17-50 | no index is created by both, and each by one of them unless its name is shared across the boundary |
| `SchemaOwnership.NothingRefersToOmittedColumns` | app/common/schema_sync.py:413-456 | the startup DDL keeps no constraint and no index over a migration-owned column, and in plain tables leaves out exactly those columns |
| `SchemaOwnership.MarkColumns` | app/common/schema_sync.py:93-111 | marks exactly the migration-owned columns of the copy as system columns |
| `SchemaOwnership.RemoveIndexes` | app/common/schema_sync.py:126-128 | removes exactly the indexes whose name is a migration-owned one's |
| `SchemaOwnership.ProjectTable` | app/common/schema_sync.py:98-128 | projects a bootstrap table, or raises exactly for an unknown owner, an unnamed migration index, or a constraint or index over an omitted column |
| `SchemaOwnership.BootstrapProjection` | app/common/schema_sync.py:78-130 | projects exactly the bootstrap-owned tables, or raises |
| `SchemaOwnership.TableConflicts` | scripts/db_migrate.py:198-233 | lists exactly the columns and named indexes on the wrong side of the projection, or the table itself, and so nothing exactly if they all agree |
| `SchemaOwnership.VerifyOwnershipBoundary` | scripts/db_migrate.py:163-241 | the boundary check is silent exactly on verifiable metadata, on plain tables exactly if no index name crosses the boundary, and reports exactly the lost columns and the crossing index names |
| `RevisionGraph.DescendsFromBaseline` | scripts/db_migrate.py:129-155 | terminates on any graph, answers true only for descendants of the baseline, for all of them on a parent-closed graph, and on an acyclic one whenever last parents lead on |
| `RevisionGraph.NothingPending` | scripts/db_migrate.py:129-155 | when the worklist runs empty the baseline is no ancestor |
| `RevisionGraph.LineageHolds` | scripts/db_migrate.py:107-120 | accepts only graphs with baseline and head in which every other revision descends from the baseline; an acyclic graph if and only if every other revision has the baseline among its parents or a known last parent, a parent-closed graph if and only if all descend |
| `RevisionGraph.UnknownParents` | scripts/db_migrate.py:139-155 | an unknown parent is no reason to refuse by itself: a merge of the baseline and an unknown revision descends from the baseline, an orphan of an unknown parent does not |
| `RevisionGraph.ParentOrderMatters` | scripts/db_migrate.py:139-155 | two concrete graphs in which the baseline is reachable through known parents: refused with the unknown parent last, accepted with it first |

## Left out

- Plumbing: HTTP routers, request validation, dependency wiring, argument parsing, logging, heartbeats and timers; a call here is a service call with values that passed validation.
- PostgreSQL: a transaction is one atomic step, event ids grow at commit, advisory and row locks appear as the rows a claim skips; isolation anomalies, savepoint internals and lost races on unique keys are outside.
- `ensure_link` (`app/common/repositories/file_service_repository.py:57-58`) may commit early during record creation, and an upload restore commits row and link separately (`worker/plugins/storage_plugin.py:97` and `:277`): both are taken as one atomic call, and an upload is the abstract `Upload` call, without its duplicate and mobile rejections (`worker/plugins/hash_plugin.py:60-121`).
- The observation record table holds AstroJournal records only, primary keys drawn for new rows are new, and the configured monthly limits do not change during a run.
- Workers that run at the same time have distinct ids and are sequential. A transaction of the worker may raise anywhere before the exception handler; a handler whose own transaction raises, or a claim whose second one does, is a crash with a restart under the same id. Sending the provider request, polling intervals and the monitor are not modelled; a polling deadline is the end of the provider's script, which raises a timeout.
- IncreaseUsage: the row is read, changed and written in one transaction without a lock (`app/common/repositories/api_usage_repository.py:72-80`); two additions that overlap and record one charge only are serialised here.
- Queue fairness: a requeued job keeps its creation time and may be chosen again at once, so nothing is said about starvation.
- AgreementStep: a client PATCH of the mirrored status may write any text, so the run-level agreement excludes it by a condition on the call.
- SharedFilesArePreserved: about delete requests, the storage's answers and database rows; whether a stored path still has a file on disk is otherwise left open, as partial storage failures are allowed by design.
- WhenFilesCanBeStranded: the cause is a storage failure; a database statement of a Reset that raises after the assets are gone, which would strand files as well, is outside.
- ExecuteReset: the count of tombstoned files is the number of Astro-only files in scope, as in the source, so files that were tombstones before are counted too.
- Equipment checks of a record (`_prepare_created_equipment`, `_prepare_updated_equipment`) are a parameter of the call; descriptive columns, solved coordinates and other floats are carried as opaque values; timestamps other than leases and creation order are dropped.
- Eyepieces, exposure capabilities, horizon points and blocked ranges are part of the opaque details of equipment and sites; two transactions that race an equipment deletion against a site update are serialised.
- The Reset preview's `plate_solve_result_count` and `photo_object_count` are constants in the source, and `preserved_shared_file_count` repeats the shared files; they are left out.
- `calculate_capture_date_projection` is modelled on naive wall-clock times; imported and created instants are taken after their conversion to UTC, and a time-zone-aware value, which raises, does not occur.
- SHA-256 digests are numbers; ordering numbers is ordering their 64-digit texts. Hashing, directory walking and the audit's own CSV layer are left out: the planner takes audit rows whose texts are already trimmed and upper-case.
- RoundTrip: `int`, `date.fromisoformat` and `datetime.fromisoformat` are modelled for the forms the planner prints (sign and digits, `YYYY-MM-DD`, `YYYY-MM-DDTHH:MM:SS` with optional microseconds), trimming and upper-casing for ASCII; other spellings Python would read are refused here. CSV quoting and the loader's final sort by reason and row number are left out.
- Report files, console summaries and the validation mode of the backfill only count what is modelled elsewhere.
- Backfill: the table changes by the run itself only; files that become inactive or fail to be written are given as sets. The metadata row's other columns and its history are not modelled.
- Schema ownership: SQLAlchemy's rendering, `create_all` and the migrations' DDL are outside; a column is created by the startup DDL when its copy is not a system column.
- The baseline checks around the revision search (single head, single root) only compare values and are left out. LineageHolds is exact on acyclic and on parent-closed graphs; Alembic refuses cycles while it loads the scripts.
- Image, EXIF, geocoding and astronomy normalisation, the Upload and Vision pipelines, provider clients and diagnostic scripts are not part of this model.
