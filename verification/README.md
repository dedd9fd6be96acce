# The extraction service, modelled and proved

The service turns a web site into exported records. A job moves QUEUED → PLANNING → BROWSER_INITIALIZING →
DISCOVERING → EXTRACTING → VALIDATING → EXPORTING → COMPLETED, or ends FAILED or CANCELLED. Its rows live in one
database; commands reach the workers through an outbox and a queue that delivers at least once; a worker holds a lease
while it works, and an expired lease is recovered. This project models those transactions and the components around
them, and proves what they promise.

## How it is built

Every service method is one transaction: it locks the job row, and an exception rolls everything back. Each transaction
is written twice. `Lifecycle`, `Frontier` and `Stages` give it as a function from rows to rows and a reply
(`Raised` is the exception). `JobServices.JobService` holds the rows as fields and updates them in place, with the
loops of the original. Each handler is proved equal to its function, with the same branches; the table lists only the
methods where the two forms differ, which are the loops (`PersistCandidates`, `StoreRecords`, `StoreResults`,
`QueueExports`) and what they are built from, and `JobService.Handle`, which covers all handlers at once.
`JobServices.Serve` shows that the states of such an object are a run, so the theorems about runs are theorems about the
object.

A *sound step* (`Lifecycle.StepOk`) is what every call guarantees from every state, for any arguments: the status moves
along the transition table or not at all, the progress follows the stage and never falls, the attempt counter moves by
at most one and stays within the budget unless the job fails, a terminal job is frozen, the plan is written once, and
the log is only extended and stays numbered 1..n. Such a row of the table below is the step invariant of that
transaction; its whole effect is fixed a second time by the method of `JobService` that computes the same rows in place,
in the order of the original, and by the lemmas of `Invariants`, `CrawlOrder` and `Liveness`. What the two transactions
that fill the tables store is stated a third time on the rows alone, independently of the functions that compute it:
`StoredRecords.CompletionStores` for records and `PersistedPages.VisitPersists` for pages; `NextWork` does so for what
they send.

There are four kinds of run:

| run | who acts | used for |
|---|---|---|
| `Runs.CallRun` | any call with any arguments in any order | legal runs, terminal freeze, retry budgets, event log |
| `Runs.QueueRun` | commands come from the outbox, results from workers that once claimed, however stale; redelivery, crashes, cancellation and recovery at any time | the invariant over all tables, crawl budget, record set, export completion, export keys |
| `CrawlOrder.ExclusiveRun` | the same, but a worker whose lease has expired, or who ended its work, takes no further step | crawl order, what recovery picks, the measure of the crawl |
| `Liveness.QuietRun` | no failure, crash, recovery or cancellation; commands may be delivered and granted any number of times, except that the first extraction command, which names no page, is granted once | no lost work, progress, completion |

| files | subject |
|---|---|
| `Domain`, `Rows` | transition table, rows, commands, settings |
| `Lifecycle`, `Frontier`, `Stages`, `Protocol` | the transactions and the protocol |
| `JobService` | the service object |
| `Discovery`, `FollowedLinks` | link analysis, and exactly which links are followed |
| `Inventory`, `PersistedPages` | what the page inventory keeps, and exactly which rows a visit adds |
| `StoredRecords` | exactly which records a completed extraction stores |
| `Invariants`, `Runs`, `Growth`, `Results` | the invariant, runs, what only grows, and what reachable states mean |
| `NextWork`, `Leases` | what a completed stage hands on; what a lease excludes, what can be claimed after a retry or a recovery |
| `ExportFiles`, `DuplicateFile` | how many files an export gets, and which configurations can give it two |
| `Stranding`, `SkippedPage`, `SkipCauses` | leaving the extraction stage, jobs that get stuck, runs that show both, and what makes a run skip a page |
| `CrawlOrder`, `Liveness`, `ValidatedRuns` | breadth-first order; no lost work and completion; which records stop a job |
| `RecoveryTick` | lease recovery of several jobs in one transaction |
| `ExportWorkers`, `ExportRun` | export workers against the artifact store |
| `StatusLog` | the event log tells the status |
| `EventStream`, `Decimals` | the polling stream and reconnection |
| `Outbox`, `RateLimiter` | publishing commands; the sliding window |
| `Extraction`, `Validation`, `Agreement` | the two modules and their agreement |
| `Sources`, `Readings`, `NumberTexts` | which raw value a field gets, and what a text reads as |
| `Verdicts`, `CodePoints` | when a field and a record pass, warn or fail; the order of texts |
| `Dataset` | the canonical export dataset |
| `Percent`, `Paths`, `Urls` | percent-encoding (RFC 3986, section 2.1), dot segments (section 5.2.4), canonical URLs (section 6.2.2) |
| `Decodings` | what percent-decoding reads, malformed bytes included (RFC 3629, section 3) |
| `CanonicalForms`, `LinkNoise` | canonical URLs character by character, which URLs are canonical already, and what of a link is dropped |

## What does not hold

Where a promise is false of the code, the model keeps the code, names the case and gives the exact condition.

- "Exactly one file per export" can fail, because `fail_export` does not look at the row's status: a retryable report
  within the budget puts an export that has completed back to QUEUED. A second file appears in a step if and only if the
  step commits a file for an export that has one (`ExportFiles.OneFileStep`), and in a run if and only if such a report
  is followed by such a commit (`ExportFiles.SecondFile`). The commit needs no new claim: any worker that has claimed
  the export may bring it. A report that is not retryable fails the job and adds no file.
  `DuplicateFile.SecondFileIsReachable` is a run that gets there under the default budget: a worker whose commit was not
  acknowledged reports a failure. Exactly the jobs of two or more formats under a budget of two or more have such a run
  (`DuplicateFile.DuplicatesExactly`).
- "On entering VALIDATING every VISITED page is EXTRACTED or PARTIAL" can fail, because the first extraction command
  names no page and, delivered again, claims another one. It holds if and only if every VISITED page other than the one
  just completed was EXTRACTED or PARTIAL before (`Stranding.EnteringValidation`); `SkippedPage.SkipsAPage` is a run in
  which a page is skipped, and failure-free runs that grant that command once skip none (`Liveness.NoLostWork`). Over
  any run, a page is skipped only after a second grant of that command, a repeated completion of an extracted page, or a
  retryable failure reported for one (`SkipCauses.SkipHasCause`).
- A job can get stuck in EXTRACTING: a retryable failure of that command leaves its page EXTRACTING and clears the
  lease.
  `Stranding.StuckInExtraction` and `Stranding.PagelessFailure` say exactly when, `SkippedPage.GetsStuck` is such a run.
- "An expired lease is recovered" can fail. The first recovery in PLANNING, BROWSER_INITIALIZING, EXTRACTING or
  VALIDATING repeats the operation key of an earlier command, and no other recovery does
  (`RecoveryTick.ClashesExactly`).
  All expired jobs are recovered in one transaction, so one such job blocks the recovery of every job, on every tick
  (`RecoveryTick.TickCommits`, `RecoveryTick.TicksAreBlocked`); it takes one claim and one crash
  (`RecoveryTick.FirstClaimBlocks`).
- Validation raises when two values that it compares have incomparable types: one is a string, the other a number or a
  boolean (`ValidatedRuns.RaisesExactly`). The job then never gets past VALIDATING (`Results.IncomparableNeverExports`,
  `ValidatedRuns.MixedNeverExports`). Before the export stage a failure-free run can be completed if and only if it has
  stored no such record (`ValidatedRuns.CompletableExactly`).
- The timeout of an export run can strike after its commit. The handler then deletes an object whose row is committed;
  this is the only move that breaks the agreement of store and rows, and it always does
  (`ExportWorkers.AgreementStep`, `ExportWorkers.LateTimeoutDangles`).
- A raw value that is falsy but not a string, such as 0 or false, is stored as an empty text, so validation fails the
  value that was extracted from it, and no other (`Agreement.ValidatorAgrees`).
- An integer field keeps a fractional number, which the type rule then fails (`Agreement.ExtractedType`).
- The stream reads the status after the log, so it can end before a job's last events; a reconnection delivers them
  (`EventStreams.StreamIsComplete`, `EventStreams.StreamEndsEarly`).
- Canonicalization is not idempotent on every link. It is if and only if the host text survives and the path of the
  result is clean and settled (`Urls.Idempotence`); for names outside ASCII the library has to be regular
  (`Urls.Regular`): what it lower-cases stays as it is, and stays acceptable; `Urls.FoldingAsciiIsRegular` gives one
  that is. A host of dots or an IPv6 literal never survives (`Urls.HostIsRefused`, `Urls.DotsLeaveNoHost`,
  `Urls.IpLiteralIsRefused`), while an IPvFuture literal with one colon may (`Urls.FutureLiteralStays`). A path is not
  clean when decoding uncovered a dot segment or a slash (`Urls.DotSegments`, `Urls.HiddenDots`). Its escapes are
  settled when each is the whole upper-case escape of a character that quoting escapes: %41 is not
  (`Urls.DoubleEscape`), %C3%A9 is (`Urls.EscapedEscapeStays`).
- "A record is left out only when the limit of stored records is reached" can fail. Both limits count the extracted
  records of a page before repeated identities are dropped, so repeats use them up
  (`StoredRecords.RepeatsUseUpTheLimit`). A record is left out if and only if its identity is neither in the table nor
  among the extracted records at positions within both limits (`StoredRecords.LeftOut`, `StoredRecords.StoredInRun`).
- A plan field with the name of a metadata column loses its cell to it when that column is asked for
  (`Datasets.DatasetExactly`).
- A window that is not positive leaves an admitted hit in the deque that its own window excludes
  (`RateLimiters.DequeIsRecent`); the settings exclude such windows.
- Different values can have one record identity (`Agreement.SeedsCollide`).

## Model

| member | source | states |
|---|---|---|
| Lifecycle.MaxSequence | services/api/src/wde_api/services.py:291-293 | the MAX over the sequence numbers of a numbered log is its length |
| Lifecycle.Append | services/api/src/wde_api/services.py:283-305 | appending extends the log and keeps its numbers exactly 1..n |
| Lifecycle.FindUrl | services/api/src/wde_api/services.py:849-851 | the lookup by canonical URL finds a page exactly when one is stored under it |
| Lifecycle.Least | services/api/src/wde_api/services.py:783-788 | ORDER BY depth, timestamp, id LIMIT 1: the row returned is eligible and no eligible row comes before it; none is returned exactly when none is eligible |
| Lifecycle.RetryOrFail | services/api/src/wde_api/services.py:545-569 | the common tail of the failure handlers is a sound step; a retryable error counts one attempt, is retried within the budget with only the job row and the log changed, and fails the job past it |
| Lifecycle.StoreCapture | services/api/src/wde_api/services.py:1836-1923 | a stored capture leaves exactly the found-or-inserted source page at depth 0 and its discovery command, and moves the job legally |
| Lifecycle.ClaimPlanning | services/api/src/wde_api/services.py:359-431 | claiming planning is a sound step from every state and for all arguments |
| Lifecycle.CompletePlanning | services/api/src/wde_api/services.py:433-511 | storing the plan is a sound step from every state and for all arguments |
| Lifecycle.FailPlanning | services/api/src/wde_api/services.py:513-569 | failing planning is a sound step from every state and for all arguments; it replies with a retry exactly when the attempt was counted and the job goes on |
| Lifecycle.PrepareBrowser | services/api/src/wde_api/services.py:571-612 | claiming the browser stage is a sound step from every state and for all arguments |
| Lifecycle.CompleteBrowser | services/api/src/wde_api/services.py:1809-1923 | storing the capture is a sound step from every state and for all arguments |
| Lifecycle.FailBrowser | services/api/src/wde_api/services.py:1925-1972 | failing the browser stage, also when the job is in another state is a sound step from every state and for all arguments |
| Lifecycle.Cancel | services/api/src/wde_api/services.py:1974-1994 | cancelling is a sound step from every state and for all arguments |
| Lifecycle.Recover | services/api/src/wde_api/services.py:2298-2400 | recovering the expired lease of one job, its direct write of FAILED included, is a sound step from every state and for all arguments |
| Frontier.ClaimDiscovery | services/api/src/wde_api/services.py:614-677 | claiming a page is a sound step from every state and for all arguments |
| Frontier.CompleteDiscovery | services/api/src/wde_api/services.py:679-824 | completing a page is a sound step from every state and for all arguments; the rows it leaves are fixed by PersistedPages.VisitPersists |
| Frontier.FailDiscovery | services/api/src/wde_api/services.py:950-1016 | failing a page is a sound step from every state and for all arguments; it replies with a retry exactly when the attempt was counted and the job goes on |
| Stages.ClaimExtraction | services/api/src/wde_api/services.py:1018-1082 | claiming a page for extraction is a sound step from every state and for all arguments |
| Stages.CompleteExtraction | services/api/src/wde_api/services.py:1084-1268 | storing the records of a page is a sound step from every state and for all arguments; the rows it leaves are fixed by StoredRecords.CompletionStores |
| Stages.FailExtraction | services/api/src/wde_api/services.py:1293-1355 | failing an extraction is a sound step from every state and for all arguments; it replies with a retry exactly when the attempt was counted and the job goes on |
| Stages.ClaimValidation | services/api/src/wde_api/services.py:1357-1407 | claiming a validation run is a sound step from every state and for all arguments |
| Stages.CompleteValidation | services/api/src/wde_api/services.py:1409-1553 | closing a validation run is a sound step from every state and for all arguments |
| Stages.FailValidation | services/api/src/wde_api/services.py:1761-1807 | failing a validation run is a sound step from every state and for all arguments; it replies with a retry exactly when the attempt was counted and the job goes on |
| Stages.ClaimExport | services/api/src/wde_api/services.py:1555-1594 | claiming an export is a sound step from every state and for all arguments |
| Stages.CompleteExport | services/api/src/wde_api/services.py:1640-1704 | committing an export is a sound step from every state and for all arguments |
| Stages.FailExport | services/api/src/wde_api/services.py:1706-1759 | failing an export is a sound step from every state and for all arguments; the rows it leaves are fixed by ExportFiles.ReportExactly |
| Protocol.Apply | services/api/src/wde_api/services.py:142-2400 | every call of the service is a sound step with the attempt budget of its stage |
| Discovery.DiscoveryService.Signals | services/api/src/wde_api/discovery_service.py:36-82 | the loop computes the specified decision over the first discovery_max_links_per_page links; its candidates are new, pairwise different, in scope and one level below the parent within the depth limit, and its rejected links are out of scope |
| Discovery.DiscoveryService.Sitemap | services/api/src/wde_api/discovery_service.py:84-125 | the same for sitemap locations |
| Discovery.FromSignalsIsSound | services/api/src/wde_api/discovery_service.py:50-82 | the decision over any links of any page is sound in that sense |
| Discovery.LocationsAreSound | services/api/src/wde_api/discovery_service.py:106-125 | so is the decision over any sitemap locations |
| FollowedLinks.SignalsExactly | services/api/src/wde_api/discovery_service.py:50-82 | which of the links within the limits become candidates and which are rejected, in order, on the links themselves: new, in scope and of a kind that the plan follows, the first with its URL, with method and depth; new and out of scope; the repeated ones are counted |
| FollowedLinks.LocationsExactly | services/api/src/wde_api/discovery_service.py:102-125 | the same for the locations of a sitemap, which are followed within the depth limit |
| FollowedLinks.CandidateExactly | services/api/src/wde_api/discovery_service.py:50-82 | a URL becomes a candidate of a page if and only if the page is within the depth and page limits and one of its bounded links has this new in-scope URL and a kind that the plan follows |
| Inventory.PersistKeeps | services/api/src/wde_api/services.py:836-914 | whatever candidates a page brings, the inventory keeps unique URLs, its parent tree, the depth and scope bounds, and the budget min(discovery_max_pages, plan max_pages), with pages_discovered as its counter |
| Inventory.PersistAppends | services/api/src/wde_api/services.py:847-871 | persisted candidates only append rows of the given depth that are DISCOVERED, REJECTED or SKIPPED |
| Inventory.ExpandKeeps | services/api/src/wde_api/services.py:702-779 | visiting a page and persisting its candidates, its rejected links and the sitemap probe keeps the inventory and appends rows one level below it |
| PersistedPages.VisitPersists | services/api/src/wde_api/services.py:679-779 | a completed visit marks its page and then takes one turn per candidate, rejected link and probe, in order: a known URL adds nothing; a new one adds one row with its own URL, depth, method and parent, REJECTED if its link was rejected, SKIPPED if and only if min(discovery_max_pages, max_pages) positions hold neither REJECTED nor DUPLICATE pages at that turn, DISCOVERED otherwise; pages_discovered grows by the rows that are DISCOVERED |
| PersistedPages.ExpandTurns | services/api/src/wde_api/services.py:826-914 | the same turns for visiting and persisting alone, from any rows |
| PersistedPages.SkippedOnlyWhenFull | services/api/src/wde_api/services.py:860-865 | over any run of the queue, redelivery, stale workers, failures and recovery included: if some page is SKIPPED, the pages that are DISCOVERED, QUEUED, VISITED or FAILED fill the budget exactly |
| StoredRecords.CompletionStores | services/api/src/wde_api/services.py:1108-1181 | a stored completion, on the rows alone: every extracted record within both limits has its identity in the table; the appended rows are, in extraction order, the first extracted records of their identities that the table lacked, with that identity and payload and the page of the work; records_found grows by their number, and the page is EXTRACTED if and only if there is one, PARTIAL otherwise; nothing else of the pages changes |
| StoredRecords.LeftOut | services/api/src/wde_api/services.py:1114-1165 | after a stored completion the table has an identity if and only if it had it before or an extracted record within the limits has it |
| StoredRecords.StoredInRun | services/api/src/wde_api/services.py:1084-1181 | over any run of the queue: an extracted record that is absent at any time after its completion stood at a position beyond what was left of one of the two limits |
| StoredRecords.RepeatsUseUpTheLimit | services/api/src/wde_api/services.py:1114-1117 | repeated identities use up the limit: from [a, a, b] under a limit of two only a is stored, and b is absent with one row stored |
| Invariants.InsertKeeps | services/api/src/wde_api/services.py:1118-1165 | savepoint inserts never repeat an identity and add at most the admitted records |
| Invariants.InsertResultsWorks | services/api/src/wde_api/services.py:1422-1480 | with distinct identities a run gets exactly one result per record, and this fails if and only if the validator raises on some record |
| Invariants.InsertExportsWorks | services/api/src/wde_api/services.py:1512-1542 | distinct formats get exactly one queued export each, with its first command, and no key clashes |
| Invariants.StoreValidationKeeps | services/api/src/wde_api/services.py:1418-1553 | closing the run of a VALIDATING job on whose records the validator does not raise never fails, keeps the invariant and leaves one result per record and one queued export per format |
| Invariants.CompleteValidationKeeps | services/api/src/wde_api/services.py:1409-1553 | closing a valid run of a VALIDATING job succeeds if and only if the validator raises on no record, and is rolled back otherwise |
| Invariants.CompleteDiscoveryKeeps | services/api/src/wde_api/services.py:679-824 | completing a page, however stale the worker, keeps the invariant |
| Invariants.CompleteExtractionKeeps | services/api/src/wde_api/services.py:1084-1268 | storing a page, however stale the worker, keeps the invariant |
| Invariants.CompleteExportKeeps | services/api/src/wde_api/services.py:1640-1704 | committing an export, however stale the worker, keeps the invariant |
| Invariants.FailExportKeeps | services/api/src/wde_api/services.py:1706-1759 | failing an export, however stale the report, keeps the invariant |
| Invariants.RecoverExportKeeps | services/api/src/wde_api/services.py:2361-2372 | a recovered export gets a key number above all its earlier ones, so the unique operation key never fires |
| Invariants.RecoverKeeps | services/api/src/wde_api/services.py:2298-2400 | recovery keeps the invariant, and never raises for an EXPORTING job |
| Runs.RunIsSound | services/api/src/wde_api/services.py:283-345 | over any run of any calls the job row is consistent and the log is numbered exactly 1..n in commit order |
| Runs.LegalRun | services/api/src/wde_api/domain.py:24-44 | over any run every status change is an edge of ALLOWED_TRANSITIONS, READY_FOR_EXPORT is never reached, and the progress is 0, 10, 20, 30, 40, 60 or 80 by stage, never falls, and is 100 exactly when the job is COMPLETED |
| Runs.CancelKeepsProgress | services/api/src/wde_api/services.py:329-335 | in every reachable live state cancelling succeeds and its minimum with 99 leaves the progress as it is |
| Runs.TerminalFreeze | services/api/src/wde_api/services.py:366-373 | between any two states of any run: once COMPLETED, FAILED or CANCELLED, status, progress, completed_at, attempt, plan, pages, records, runs, results, files and outbox never change again; the log only grows |
| Runs.SharedRetryBudget | services/api/src/wde_api/services.py:545-560 | over any run the stages and recovery together grant at most as many retries as the largest configured budget M; the attempt counter never passes M + 1 and reaches it only in a FAILED job |
| Runs.StageRetryBudget | services/api/src/wde_api/services.py:987-1007 | the four stages alone grant at most the largest of their own budgets, whatever is recovered in between |
| Runs.FailureIsCounted | services/api/src/wde_api/services.py:1779-1798 | a retryable failure of the current stage counts one attempt; it is retried if and only if the counter is below the budget of the stage, and is fatal otherwise |
| Runs.Reachable | services/api/src/wde_api/services.py:142-2400 | the invariant over all tables holds in every state reachable under redelivery, stale workers, crashes, failures, cancellation and recovery |
| Growth.StepGrows | services/api/src/wde_api/services.py:142-2400 | no call of the service, for any arguments, changes or removes a record or an outbox row, and every key it inserts is numbered by the counted attempts or the validation runs; keys of pages are inserted in EXTRACTING only |
| Growth.OnlyGrows | services/api/src/wde_api/services.py:1114-1165 | between any two states of any run the record table and the outbox only grow |
| Growth.KeysAreCounted | services/api/src/wde_api/services.py:2345-2372 | over any run the next recovery key of the crawl and the next validation key are new, and no phase key is numbered above the counted attempts, save the first ones |
| Growth.WorksAreCommanded | services/api/src/wde_api/services.py:359-1594 | every work that may still act came from a command that is in the outbox |
| NextWork.PlanOfRun | services/api/src/wde_api/services.py:433-511 | in every state of any run the job has a plan if and only if some planning was completed, and it is the plan that this completion brought |
| NextWork.CaptureStores | services/api/src/wde_api/services.py:1809-1923 | a stored capture leaves one page, the source at depth 0 and DISCOVERED, the counters of one page, and one command to visit it |
| NextWork.NextVisit | services/api/src/wde_api/services.py:780-824 | a completed visit releases the lease and sends one command: for the DISCOVERED page that is first by depth, time of discovery and identifier, or, when there is none, on entering EXTRACTING, the command without a page |
| NextWork.NextExtraction | services/api/src/wde_api/services.py:1200-1268 | a stored extraction does the same for the untouched VISITED page that is first by depth, time of visit and identifier, or enters VALIDATING with a new run and its command |
| Leases.PlanningIsExclusive | services/api/src/wde_api/services.py:359-431 | over any run of any calls with clocks that do not go back: while the lease of a planning worker runs no second planning claim is granted, except after a retryable failure of planning within its budget, or a retryable browser failure, which clears the lease in any state |
| Leases.RetryIsGranted | services/api/src/wde_api/services.py:513-1798 | over any run of the queue: after every failure report that is answered with a retry, in planning, discovery, extraction, validation or export, the command delivered again is granted for the same page, run or export; the one without a page if and only if some page needs extraction |
| Leases.RecoveryIsGranted | services/api/src/wde_api/services.py:2298-2400 | over any run of the queue: a recovery that goes on keeps the stage and sends exactly one new command, which is granted in PLANNING, BROWSER_INITIALIZING, DISCOVERING and EXPORTING, and in EXTRACTING and VALIDATING is a planning command that raises |
| Results.CrawlBudget | services/api/src/wde_api/services.py:836-881 | in every reachable state the DISCOVERED, QUEUED and VISITED pages are within min(discovery_max_pages, plan max_pages) and, unless the job failed, number pages_discovered; parents form a tree with depth = parent depth + 1, bounded by max(1, max_depth) |
| Results.RecordSet | services/api/src/wde_api/services.py:1114-1181 | in every reachable state the records are within min(plan max_records, server limit), number records_found and have distinct identities |
| Results.ReplayAddsNothing | services/api/src/wde_api/services.py:1114-1165 | inserting the same page result again, into any record table that extends the one it left, adds no record, even when the first delivery was cut off by the cap |
| Results.ReplayInRun | services/api/src/wde_api/services.py:1084-1181 | over any run of any calls: a completion that was stored once adds no record when it is delivered again at any later time |
| Results.IncomparableNeverExports | services/api/src/wde_api/services.py:1438 | over any run of any calls: once a record is stored on which the validator raises, the job never gets past VALIDATING |
| Results.ExportCompletion | services/api/src/wde_api/services.py:1664-1703 | a COMPLETED job has exactly one result per record and exactly one export per requested format, each completed and with a file; an exporting job is COMPLETED exactly when all its exports are |
| Results.NoExportClash | services/api/src/wde_api/services.py:1512-1542 | in every reachable state closing the current validation run fails if and only if the validator raises on some record, and recovering an export never clashes |
| Results.ExportKeyFreshness | services/api/src/wde_api/services.py:1731-1733 | between any two states of any run the outbox only grows, the attempt of an export never falls and every key it has gained has a larger number than all the keys it ever had before |
| ExportFiles.OneFileStep | services/api/src/wde_api/services.py:1664-1680 | "no export has two files" survives a step of any run if and only if the step does not commit a file for an export that has one already, as a guard on the rows before the call |
| ExportFiles.SecondFile | services/api/src/wde_api/services.py:1719-1742 | in any run an export has two files if and only if a retryable failure report within the budget hit it after it had completed, and a file was committed for it later |
| ExportFiles.ExactlyOneFile | services/api/src/wde_api/services.py:1664-1680 | without such reports every completed export has exactly one file |
| DuplicateFile.SecondFileIsReachable | services/api/src/wde_api/services.py:1719-1742 | for every job of two or more formats under an export budget of at least 2, a run reaches two files without any recovery: claim, commit, retryable report of the same worker, one more delivery, commit |
| DuplicateFile.ClaimsAreCounted | services/api/src/wde_api/services.py:1596-1680 | over any run, every export that a worker holds or that is completed has counted an attempt |
| DuplicateFile.DuplicatesExactly | services/api/src/wde_api/services.py:1719-1742 | a job can get an export with two files in some run if and only if it has two or more formats and the export budget is at least 2, which is the default |
| ExportFiles.ReportExactly | services/api/src/wde_api/services.py:1706-1742 | a report about an export of an EXPORTING job: within the budget and retryable, exactly this row goes back to QUEUED with one more attempt; otherwise exactly this row and the job become FAILED; files and outbox stay |
| Stranding.LeavingExtraction | services/api/src/wde_api/services.py:1200-1222 | completing a page leaves EXTRACTING if and only if no other page is untouched, and then every VISITED page is extracted if and only if every other one was before |
| Stranding.EnteringValidation | services/api/src/wde_api/services.py:1200-1268 | over any run of the queue the job enters VALIDATING by such a completion only, with every VISITED page EXTRACTED or PARTIAL if and only if all others were before |
| Stranding.StuckInExtraction | services/api/src/wde_api/services.py:1031-1052 | without workers an EXTRACTING job is stuck, short of a cancellation, if and only if no command can claim a page and no lease can be recovered without a key clash |
| Stranding.PagelessFailure | services/api/src/wde_api/services.py:1303-1330 | after a retryable failure of the command without a page, with no other worker left, the job is stuck if and only if no page needs extraction |
| SkippedPage.SkipsAPage | services/api/src/wde_api/services.py:1041-1052 | a run of the queue: the command without a page is granted twice, and completing the second page enters VALIDATING with the first one still EXTRACTING |
| SkippedPage.GetsStuck | services/api/src/wde_api/services.py:1303-1330 | a run of the queue that ends with a stuck job |
| SkipCauses.ChainHolds | services/api/src/wde_api/services.py:1041-1330 | over any run without the three breaking steps, at most one page is neither untouched nor extracted, and every command and worker of the stage is for that page or for an extracted one |
| SkipCauses.SkipHasCause | services/api/src/wde_api/services.py:1041-1330 | over any run, a page is skipped only after a grant of the command without a page when a page was touched already, a repeated completion of an extracted page, or a retryable failure reported for one |
| CrawlOrder.StepKeepsOrder | services/api/src/wde_api/services.py:614-1016 | every step of a lease-exclusive run keeps the frontier: at most one page QUEUED, the first one, and every outstanding command names it or nothing that can be claimed |
| CrawlOrder.BreadthFirst | services/api/src/wde_api/services.py:783-788 | in lease-exclusive runs with retries, crashes and recovery, pages are visited in non-decreasing depth |
| CrawlOrder.ShallowerFirst | services/api/src/wde_api/services.py:640-655 | a page is visited only while it is the QUEUED one, and every accepted page of a smaller depth has been VISITED |
| CrawlOrder.RecoveryRepicks | services/api/src/wde_api/services.py:2348-2360 | recovering an expired lease of the crawl within the budget never clashes: its key is new, and exactly the page that was QUEUED is put back, under a fresh command for it; a clash of another job in the same tick still rolls it back |
| RecoveryTick.RecoverAbandonedWork | services/api/src/wde_api/worker.py:91-96 | the loop over the expired jobs and the dispatch as one transaction: it commits if and only if no job clashes and the dispatch succeeds, and then every job is recovered, otherwise none |
| RecoveryTick.ClashesExactly | services/api/src/wde_api/services.py:2310-2372 | in every reachable state recovering a job clashes if and only if it is the first recovery of an expired lease in PLANNING, BROWSER_INITIALIZING, EXTRACTING or VALIDATING, with budget left |
| RecoveryTick.FirstClaimBlocks | services/api/src/wde_api/services.py:2310-2372 | every job with a recovery budget is one claim and one crash away from such a clash |
| RecoveryTick.TickCommits | services/api/src/wde_api/worker.py:91-96 | a tick over reachable jobs takes the lease from every expired one and counts an attempt, if and only if none of them is up for such a recovery and the dispatch succeeds; otherwise it leaves every row |
| RecoveryTick.TicksAreBlocked | services/api/src/wde_api/worker.py:91-96 | while one job is up for such a recovery, no number of later ticks recovers any job |
| CrawlOrder.CrawlMeasure | services/api/src/wde_api/services.py:702-712 | the completed visits number the VISITED pages, never exceed the budget, and grow by one with each completed visit and with nothing else |
| CrawlOrder.CrawlIsComplete | services/api/src/wde_api/services.py:789-824 | the job enters EXTRACTING by a completed visit, and then every accepted page is VISITED |
| Liveness.RefusedClaim | services/api/src/wde_api/services.py:359-1594 | a claim that is not granted changes nothing in a live job |
| Liveness.QuietStep | services/api/src/wde_api/services.py:142-1704 | every step of a failure-free run keeps the stage invariant and brings the job strictly closer to its end in (stages left, work left, commands waiting), except redeliveries: a refused one changes nothing, a granted one hands out the same work again |
| Liveness.NoLostWork | services/api/src/wde_api/services.py:493-511 | in every state of a failure-free run exactly one command is outstanding or exactly one claim is live, in EXPORTING one of the two for each unfinished export; in VALIDATING every VISITED page is EXTRACTED or PARTIAL; the job neither fails nor is cancelled |
| Liveness.NeverStuck | services/api/src/wde_api/services.py:783-824 | until the job ends some worker can finish or some claim will be granted for the first time, if the validator raises on no stored record |
| Liveness.Completable | services/api/src/wde_api/services.py:1200-1268 | from every such state some failure-free continuation ends COMPLETED, if the validator raises on no stored record |
| Liveness.EveryQuietRunCanComplete | services/api/src/wde_api/services.py:186-1704 | every failure-free run from the creation on whose records the validator does not raise can be continued to COMPLETED |
| ValidatedRuns.RaisesExactly | services/api/src/wde_api/validation_service.py:191-203 | validating a record raises if and only if one of the three compared pairs holds a string and a number or boolean, whatever the plan asks for |
| ValidatedRuns.MixedNeverExports | services/api/src/wde_api/services.py:1438 | over any run of any calls: once a record with such a pair is stored, the job never gets past VALIDATING |
| ValidatedRuns.CompletableExactly | services/api/src/wde_api/services.py:1438 | a failure-free run before the export stage can be continued to COMPLETED if and only if it has stored no record with such a pair |
| JobServices.JobService.constructor | services/api/src/wde_api/services.py:169-239 | the rows of a new job are those that create_job commits |
| JobServices.JobService.AppendEvent | services/api/src/wde_api/services.py:283-305 | the log row is appended with the next number |
| JobServices.JobService.Move | services/api/src/wde_api/services.py:307-357 | the transition, or nothing when it is illegal |
| JobServices.JobService.PersistCandidates | services/api/src/wde_api/services.py:826-914 | the loop over the candidates leaves exactly the rows, counters and events of its specification, whose rows PersistedPages.ExpandTurns fixes one turn at a time |
| JobServices.JobService.ExpandPage | services/api/src/wde_api/services.py:700-779 | visiting and persisting, in the order of the code, leaves exactly the specified rows |
| JobServices.JobService.StoreRecords | services/api/src/wde_api/services.py:1118-1165 | the savepoint loop inserts exactly the specified records and counts them; StoredRecords.CompletionStores says which these are |
| JobServices.JobService.StoreResults | services/api/src/wde_api/services.py:1426-1482 | the loop stores one result per record, or reports the raise of the validator or the violated constraint |
| JobServices.JobService.QueueExports | services/api/src/wde_api/services.py:1512-1542 | the loop stores one export and one command per format or reports the violated constraint |
| JobServices.JobService.Handle | services/api/src/wde_api/services.py:142-2400 | the object refines the protocol: any call, through its handler with the branches, loops and rollbacks of the code, leaves the rows and the reply of the protocol step |
| JobServices.Serve | services/api/src/wde_api/services.py:142-2400 | the states of an object between the calls it serves form a run, so every theorem over runs applies to it |
| ExportWorkers.CommitFiles | services/api/src/wde_api/services.py:1640-1680 | a commit with a fresh key is refused or adds exactly its file row |
| ExportWorkers.OthersKeepFiles | services/api/src/wde_api/services.py:142-2400 | no other call of the service writes file rows |
| ExportWorkers.AgreementStep | services/api/src/wde_api/worker.py:476-550 | the agreement of store and rows survives a move if and only if the move is not a timeout that strikes after the commit |
| ExportWorkers.StoreAgrees | services/api/src/wde_api/worker.py:476-550 | over every interleaving of any number of workers with all other calls, and with a failure at any step before a commit, the stored objects are those of the file rows and those a worker holds; when nobody holds one they are exactly those of the rows |
| ExportWorkers.LateTimeoutDangles | services/api/src/wde_api/worker.py:521-530 | after such a timeout the handler deletes an object whose row is committed |
| ExportRun.ExportWorker.Attempt | services/api/src/wde_api/worker.py:477-520 | what the guarded part leaves in the store, in the rows and in the local reference, at every point where it can be interrupted; undisturbed, it reaches the commit in the rows that it found, and a failure before the commit commits nothing |
| ExportRun.ExportWorker.RunExport | services/api/src/wde_api/worker.py:460-550 | one run, with arbitrary calls of other processes at its awaits, leaves no orphan object and no dangling row, exactly unless a timeout strikes after its commit; a refused claim commits nothing, a granted and undisturbed run commits its file, and a run that fails while it loads reports its failure |
| EventStreams.StreamEvents | services/api/src/wde_api/main.py:398-413 | the polling loop yields exactly the specified events |
| EventStreams.AfterIsSuffix | services/api/src/wde_api/services.py:2287-2296 | the events above a cursor of a numbered log are its suffix |
| EventStreams.StreamIsSegment | services/api/src/wde_api/main.py:398-413 | one connection delivers a gap-free, duplicate-free, ordered piece of the log starting at the cursor + 1 |
| EventStreams.IdentifierRoundTrip | services/api/src/wde_api/main.py:396-407 | the identifier of an event, sent back as Last-Event-ID, is parsed as the same cursor |
| EventStreams.ReconnectionIsGapFree | services/api/src/wde_api/main.py:386-413 | so do any number of connections, each cut anywhere, that reconnect with the identifier of the last event received |
| EventStreams.StreamReaches | services/api/src/wde_api/main.py:399-405 | a connection that stays up delivers everything that its last poll saw |
| EventStreams.StreamIsComplete | services/api/src/wde_api/main.py:400-411 | a stream that ends with its job has delivered the whole log if and only if its last poll saw it |
| EventStreams.StreamEndsEarly | services/api/src/wde_api/main.py:398-411 | a run whose stream ends without the last event, and the reconnection that delivers it |
| EventStreams.StreamOfRun | services/api/src/wde_api/main.py:386-413 | the same over the logs of any run of the job |
| StatusLog.StatusFollowsLog | services/api/src/wde_api/services.py:283-357 | over any run of any calls, replaying the event types of the log gives the status of the job, and replaying any beginning of it a status that the job had at that time or before |
| EventStreams.ClientShowsStatus | services/api/src/wde_api/main.py:386-413 | a client that replays what it received, over any number of connections, shows a status that the job has had, and the current one once it has the whole log |
| RateLimiters.SlidingWindowRateLimiter.Expire | services/api/src/wde_api/security.py:19-21 | the popleft loop keeps exactly the hits after the threshold |
| RateLimiters.SlidingWindowRateLimiter.Allow | services/api/src/wde_api/security.py:16-25 | a call is admitted if and only if fewer than limit admitted hits of its key lie in the window; every deque stays the window of the calls of its own key |
| RateLimiters.DequeIsRecent | services/api/src/wde_api/security.py:18-24 | the deque is exactly the admitted hits of (now - window, now] if and only if the window is positive or the call was refused |
| RateLimiters.AdmitsExactly | services/api/src/wde_api/security.py:16-25 | on the history alone: a call joins the admitted hits of its key if and only if fewer than limit of the earlier ones lie after now - window |
| RateLimiters.AdmittedRate | services/api/src/wde_api/security.py:16-25 | no half-open interval of the length of the window contains more than limit admitted hits |
| RateLimiters.ClosedIntervalExceeds | services/api/src/wde_api/security.py:20 | a closed interval can hold one more |
| Extractor.TextIsClean | services/api/src/wde_api/extraction_service.py:31-32 | collapsed text has single blanks between other characters only |
| Extractor.CleanIsFixed | services/api/src/wde_api/extraction_service.py:31-32 | collapsing leaves a text alone if and only if it is clean |
| Extractor.TextIsIdempotent | services/api/src/wde_api/extraction_service.py:31-32 | collapsing is idempotent |
| Extractor.NormalizeFactors | services/api/src/wde_api/extraction_service.py:39-80 | a value and its collapsed text normalize alike, for every field type |
| Extractor.ExtractionService.RecordFromMapping | services/api/src/wde_api/extraction_service.py:178-223 | the loop builds exactly one field per plan field from the looked-up raw value, with the identity of the values in plan order; Readings.RecordExactly says what these hold, Sources.FieldIsRead which raw value that is, and Readings and NumberTexts what it normalizes to |
| Readings.TextIsWords | services/api/src/wde_api/extraction_service.py:31-32 | collapsing a text gives its words, that is its longest pieces without whitespace, with single blanks between them |
| Readings.TextStrips | services/api/src/wde_api/extraction_service.py:31-32 | whitespace around a clean text is dropped and nothing else |
| Readings.StringIsRead | services/api/src/wde_api/extraction_service.py:41-45 | a text field is read as the words of the value, or as none if there is no word |
| Readings.TruthIsRead | services/api/src/wde_api/extraction_service.py:55-61 | a boolean field is read as true from true, yes, in stock, available and 1, as false from false, no, out of stock, unavailable and 0, in any case and between any whitespace, and as none from every other ASCII text |
| Readings.LinkIsRead | services/api/src/wde_api/extraction_service.py:62-64 | a URL field is read as the joined link if that begins with http:// or https://, and as none otherwise |
| Readings.RecordExactly | services/api/src/wde_api/extraction_service.py:178-223 | what a built record holds in every field, on the raw value found for it: its text, its normalized value, the first characters of the text as evidence up to the cap, and the location, or nothing at all without a raw value; and the identity, as the hash of page, URL and the values in plan order with bars between them, where falsy values are empty |
| NumberTexts.NumberIsRead | services/api/src/wde_api/extraction_service.py:46-54 | for every text with a number: sign, digits with commas anywhere after the first, point and fraction of its first number give the value sign (n + f / 10^k), an integer in an integer field when the fraction is zero; what stands before and after changes nothing |
| NumberTexts.NoNumberIsRead | services/api/src/wde_api/extraction_service.py:46-49 | a text without a digit gives no number |
| NumberTexts.NumeralIsRead | services/api/src/wde_api/extraction_service.py:46-54 | the decimal numeral of n reads as n in an integer field, with a minus sign as -n, and as the real n in a number field |
| NumberTexts.PriceIsRead | services/api/src/wde_api/extraction_service.py:46-54 | only $1,234.50 - each reads as 1234.5 |
| Sources.FieldIsRead | services/api/src/wde_api/extraction_service.py:188-193 | the raw value of a field from a mapping of texts: the first entry whose key, lower-cased and without @, contains the lower-cased name, label or an alias; without one, the non-empty text or url entry as the type allows, or none |
| Sources.FirstNamed | services/api/src/wde_api/extraction_service.py:236-257 | in nested data too: the first entry whose key names the field gives its unwrapped value, if no entry before it names the field at any depth |
| Sources.SilentEntries | services/api/src/wde_api/extraction_service.py:236-257 | data in which no key at any depth names the field give no value |
| Sources.UnwrapExactly | services/api/src/wde_api/extraction_service.py:242-246 | an object that is found stands for its price, value, name or url, the first of these that it has, and else for itself |
| Validator.StatusIsHomomorphism | services/api/src/wde_api/validation_service.py:18-28 | the status of a concatenation is the join of the statuses in SKIPPED < PASS < WARN < UNRESOLVED < FAIL |
| Validator.ValidationService.CheckField | services/api/src/wde_api/validation_service.py:66-122 | the outcome list of a field is exactly the specified one, in registry order, also when the value is missing; Verdicts.FieldStatusExactly says when its status is FAIL, WARN or PASS |
| Validator.ValidationService.CheckRecord | services/api/src/wde_api/validation_service.py:174-203 | the record rules are exactly the specified ones, and raise exactly when a compared pair has incomparable types |
| Validator.ValidationService.CheckFields | services/api/src/wde_api/validation_service.py:38-46 | the loop yields one result per field and all outcomes in plan order |
| Validator.ValidationService.Validate | services/api/src/wde_api/validation_service.py:34-63 | status, quality, summary and field results are those of the outcome list; it raises exactly when a comparison does |
| Verdicts.FieldStatusExactly | services/api/src/wde_api/validation_service.py:66-122 | for every field and stored candidate, on the values: without a value, or with a text of whitespace only, the status is FAIL if the field is required and WARN otherwise; with a value it is FAIL if and only if type, format, renormalization or evidence fail, WARN if the evidence is absent, and PASS otherwise |
| Verdicts.VerdictExactly | services/api/src/wde_api/validation_service.py:34-63 | a record that is validated is FAIL and INVALID if and only if some field fails in that sense, the provenance differs, or the low value of a pair exceeds the high one, as numbers or as strings; else WARN and MEDIUM if and only if a field warns; else PASS and HIGH |
| Verdicts.SummaryExactly | services/api/src/wde_api/validation_service.py:38-55 | the counters of a summary are the numbers of outcomes with each status |
| CodePoints.LessIsFirstDifference | services/api/src/wde_api/validation_service.py:191-203 | the order of two strings is decided at their first difference, or by which is a proper beginning of the other |
| Agreement.RawRenormalizes | services/api/src/wde_api/extraction_service.py:199-203 | the stored raw text normalizes to the extracted value if and only if the raw value was a string or truthy |
| Agreement.ExtractedType | services/api/src/wde_api/validation_service.py:125-145 | an extracted value has the declared type if and only if it is not a fractional number in an integer field |
| Agreement.ValidatorAgrees | services/api/src/wde_api/validation_service.py:84-122 | for every present field of every built record: normalization passes exactly for string or truthy raw values, evidence exactly within 500 characters at a named location (so for every cap up to 500), type exactly as above |
| Agreement.ProvenanceAgrees | services/api/src/wde_api/validation_service.py:174-189 | the provenance rule passes on a built record if and only if its page has an identifier |
| Agreement.SeedsCollide | services/api/src/wde_api/extraction_service.py:209-212 | two different value lists with one identity |
| Agreement.RecordStatusIsJoin | services/api/src/wde_api/validation_service.py:39-55 | the status of a record is the join of its field statuses and its record rules, and the quality is a function of the status |
| Agreement.RunTotals | services/api/src/wde_api/services.py:1423-1474 | the totals of a run are the counts over all outcomes of all its records |
| Datasets.BuildDataset | services/api/src/wde_api/export_service.py:144-181 | the loop builds exactly the specified dataset, or raises for too many records |
| Datasets.SortIncreases | services/api/src/wde_api/export_service.py:156 | records with distinct identities are sorted strictly |
| Datasets.PermutationInvariance | services/api/src/wde_api/export_service.py:144-181 | the dataset is the same for every permutation of records with distinct identities |
| Datasets.DatasetExactly | services/api/src/wde_api/export_service.py:144-181 | the dataset is refused exactly past the limit; otherwise its rows are, in increasing order of identity, those of exactly the records that the policy lets through, and in each row status, quality and identity are those of its record where asked for, and every other plan field holds the cell of this record or is absent |
| Datasets.RowKeys | services/api/src/wde_api/export_service.py:164-175 | the keys of every row are exactly the fields of the dataset |
| Datasets.PoliciesNest | services/api/src/wde_api/export_service.py:158-161 | VALID_ONLY rows are a subsequence of VALID_AND_WARNINGS rows, and these of ALL_RECORDS rows |
| Datasets.JoinIsExact | services/api/src/wde_api/services.py:1607-1619 | the join of records and results yields every record once |
| Datasets.RowCount | services/api/src/wde_api/services.py:1607-1634 | in every reachable state with exports, the export records made from the join have distinct identities; the dataset is refused exactly when records_found exceeds the limit, and otherwise has records_found rows under the default policy |
| Percent.Utf8RoundTrip | services/api/src/wde_api/discovery_policy.py:16-17 | decoding the UTF-8 encoding of a text gives the text |
| Decodings.DecodeExactly | services/api/src/wde_api/discovery_policy.py:16-17 | decoding bytes gives one text and no other: the character whose UTF-8 form begins here, or one U+FFFD for the longest beginning of a character, or for a single byte that begins none |
| Decodings.UnquoteExactly | services/api/src/wde_api/discovery_policy.py:16-17 | for every text, unquote is the only reading in which each run of ASCII characters is decoded from its bytes, escapes in either case replaced, and every other character stays |
| Percent.QuoteRoundTrip | services/api/src/wde_api/discovery_policy.py:16-17 | unquote(quote(s)) = s for every s when the percent sign is quoted, and for every s without an escape when it is kept |
| Percent.UnquoteShrinks | services/api/src/wde_api/discovery_policy.py:16-17 | where the percent sign is kept, unquote(quote(s)) is not longer than s, and as long only if s has no escape |
| Percent.SettledIsQuoted | services/api/src/wde_api/discovery_policy.py:16-17 | a text of safe characters whose escapes are settled is the quoted form of a text without escapes |
| Percent.QuotedIsSettled | services/api/src/wde_api/discovery_policy.py:16-17 | and the quoted form of such a text has settled escapes only |
| Paths.RenderIsFixed | services/api/src/wde_api/discovery_policy.py:34-39 | a clean path is its own normal form and has no dot segment |
| Paths.CleanShape | services/api/src/wde_api/discovery_policy.py:34-39 | normalizing any rooted path yields a clean path |
| Paths.QuoteClean | services/api/src/wde_api/discovery_policy.py:34-40 | cleaning a quoted path is quoting the clean path |
| Paths.CleanShrinks | services/api/src/wde_api/discovery_policy.py:34-39 | a clean path is not longer than the path, and as long only if it is the path |
| Paths.SecondPath | services/api/src/wde_api/discovery_policy.py:34-40 | a quoted path survives cleaning, decoding and quoting again if and only if it is clean and its escapes are settled |
| Paths.QuoteKeepsDots | services/api/src/wde_api/discovery_policy.py:40 | quoting a path neither adds nor removes a dot segment |
| Urls.CanonicalizeUrl | services/api/src/wde_api/discovery_policy.py:20-43 | the function with its reassigned locals computes the specified result, whose parts CanonicalForms.PartsExactly fixes character by character |
| Urls.NetlocRoundTrip | services/api/src/wde_api/discovery_policy.py:30-33 | a canonical authority is accepted and parses back to its host and port |
| Urls.HostShape | services/api/src/wde_api/discovery_policy.py:30-31 | the host of an accepted authority is a host text: lower case with every beginning of it, without a delimiter and without a dot at its end |
| Urls.AuthorityReturns | services/api/src/wde_api/discovery_policy.py:26-33 | the authority of a canonical URL comes back if and only if its host text is not empty, has no bracket, and has a colon only where it reads as a shown port |
| Urls.UrlRoundTrip | services/api/src/wde_api/discovery_policy.py:23-43 | an assembled URL splits back into its parts if its authority is accepted, and is refused otherwise |
| Urls.Idempotence | services/api/src/wde_api/discovery_policy.py:20-43 | for every link, with any path and any query, canonicalization is idempotent if and only if the host text survives and the path of the result is clean with all its escapes settled; outside ASCII the library has to be regular |
| Urls.HostIsRefused | services/api/src/wde_api/discovery_policy.py:30-33 | whatever the rest of the link: after a host of dots, an IPv6 literal or a bracket the second pass gives no URL |
| Urls.PercentFreeIdempotence | services/api/src/wde_api/discovery_policy.py:20-43 | canonicalization is idempotent on every link with an ordinary authority, international names included, a percent-free path and any query |
| Urls.NoFragment | services/api/src/wde_api/discovery_policy.py:20-43 | there is no number sign in any canonical URL |
| Urls.DotSegments | services/api/src/wde_api/discovery_policy.py:34-40 | for every accepted link, the path of the result has a dot segment if and only if decoding the cleaned path left one |
| Urls.CanonicalShape | services/api/src/wde_api/discovery_policy.py:30-43 | the result of an ordinary authority has no default port and no fragment, and a dot segment exactly when the decoded path has one, which no percent-free path has |
| CanonicalForms.PartsExactly | services/api/src/wde_api/discovery_policy.py:20-43 | for every accepted link the result is its scheme, canonical authority, the encoding of its decoded clean path and, if any, the encoding of its decoded query: letters, digits and -._~ are kept, with /%:@ in a path and =&;/?:@+$,[] in a query, and every other character becomes the upper-case escapes of its UTF-8 bytes |
| CanonicalForms.QueryStays | services/api/src/wde_api/discovery_policy.py:41-42 | a query of kept characters is the query of the result, character for character |
| CanonicalForms.PathStays | services/api/src/wde_api/discovery_policy.py:34-40 | a clean path of kept characters without an escape is the path of the result |
| CanonicalForms.DotSegmentsAreRemoved | services/api/src/wde_api/discovery_policy.py:34-39 | a segment "." goes, ".." takes the segment before it along, empty segments go, and ".." at the root does nothing; with Paths.RenderIsFixed these rules determine the clean path |
| CanonicalForms.AuthorityExactly | services/api/src/wde_api/discovery_policy.py:24-33 | for every ASCII host and port text: the host is lower-cased letter by letter without its final dots, a port above 65535 is refused, and the port is shown unless it is 0, 80 for http or 443 for https |
| CanonicalForms.FixedPoints | services/api/src/wde_api/discovery_policy.py:20-43 | an ASCII URL canonicalizes to itself if and only if it has this form: http or https, a host without capitals, delimiters and final dot, a decimal port other than 0 and the default one or none, a clean path and a query of kept characters and settled upper-case escapes, no fragment |
| CanonicalForms.ScopeExactly | services/api/src/wde_api/discovery_policy.py:46-86 | between such URLs: same origin is equal scheme, host and effective port; same site is equal scheme and equal last two labels; a list of domains admits exactly its hosts |
| LinkNoise.BlanksVanish | services/api/src/wde_api/discovery_policy.py:22-23 | blanks and controls in front of a link, and tabs and line breaks anywhere in it, change nothing |
| LinkNoise.FragmentVanishes | services/api/src/wde_api/discovery_policy.py:20-43 | a link with any fragment has the canonical URL of the link without it |
| LinkNoise.SchemeCase | services/api/src/wde_api/discovery_policy.py:24 | the scheme is read in any case |
| LinkNoise.UserIsNamed | services/api/src/wde_api/discovery_policy.py:25 | an authority is refused for a user or a password exactly when what stands before its last at sign is neither empty nor a colon |
| Urls.ScopeIsStable | services/api/src/wde_api/discovery_policy.py:46-86 | a canonical URL has the origin of its link, so every scope policy decides alike about both |
| Urls.DoubleEscape | services/api/src/wde_api/discovery_policy.py:40 | http://a/%2541 becomes http://a/%41, and that becomes http://a/A |
| Urls.EscapedEscapeStays | services/api/src/wde_api/discovery_policy.py:40 | http://a/%25C3%25A9 becomes http://a/%C3%A9, and that stays |
| Urls.HiddenDots | services/api/src/wde_api/discovery_policy.py:34-40 | http://a/%2e%2e/b becomes http://a/../b, and that becomes http://a/b |
| Urls.IpLiteralIsRefused | services/api/src/wde_api/discovery_policy.py:30-33 | http://[::1]/ becomes http://::1/, which the next pass refuses |
| Urls.FutureLiteralStays | services/api/src/wde_api/discovery_policy.py:30-33 | the literal [v1.a:8] reads as a host with a port afterwards, and stays |
| Urls.DotsLeaveNoHost | services/api/src/wde_api/discovery_policy.py:30-31 | http://../ becomes http:///, which the next pass refuses |
| Outboxes.OutboxDispatcher.DispatchPending | services/api/src/wde_api/queue.py:21-43 | the first limit due rows are handed over in order and marked; if the transport raises, no mark stays; nothing is marked that was not handed over |
| Outboxes.PublishAdvances | services/api/src/wde_api/queue.py:23-31 | publishing a beginning of the due rows leaves the others due, in order |
| Outboxes.PendingExactly | services/api/src/wde_api/queue.py:21-26 | the due rows are exactly those not published whose time has come |
| Outboxes.DispatchDrains | services/api/src/wde_api/queue.py:21-43 | enough dispatches publish every due row |

## Left out

- Several jobs: the rows are those of one job; the outbox keys of different jobs never meet, because they contain the
  job's or the export's identifier. What jobs share is the transaction of lease recovery, which `RecoveryTick` models
  over a list of jobs; runs of one job take every recovery that does not clash as committed.
- Creation: idempotency keys, projects and sources; a job starts with its rows committed, with distinct formats as the
  request schema demands.
- Lifecycle.FailBrowser: the number of browser retries is not bounded here, because the code compares the fixed attempt
  number of the command; its writes of error fields and retry events to jobs in other states are modelled, and only
  the log and the error fields are outside the terminal freeze.
- Lifecycle.Recover: recovery of EXTRACTING and VALIDATING sends a planning command, which no claim accepts in those
  stages; the invariant is proved for it, progress is not. It is the recovery of one job: a clash of another job in the
  same transaction rolls it back as well, which is the subject of RecoveryTick.TickCommits.
- Lifecycle.Cancel: it reads the row once before it locks it; the model makes it one atomic step.
- Runs.TerminalFreeze: export rows are not frozen, because a redelivered export command marks the export of a cancelled
  job CANCELLED.
- SkipCauses.SkipHasCause: the three kinds of steps are necessary for a skipped page; that one of them leads to a skip
  depends on what follows, which Stranding.EnteringValidation settles for the last step.
- Liveness.NoLostWork: it is about failure-free runs; after a worker crash, progress depends on the lease recovery, and
  the cases above show where it stops.
- Liveness.EveryQuietRunCanComplete: it says that completion stays possible and that every effective step comes closer;
  that the queue eventually delivers is an assumption about the transport.
- CrawlOrder.BreadthFirst: primary keys are taken to be distinct; in runs with stale workers a page can be completed
  twice, and the order is not claimed.
- ExportWorkers.StoreAgrees: the process of a worker may not vanish between its put and its commit, and `delete` may not
  fail; either leaves an orphan object until someone removes it. Expiry cleanup, which removes rows and objects, is not
  modelled.
- ExportRun.ExportWorker.RunExport: other workers commit no export during the run; full interleaving is the subject of
  ExportWorkers.StoreAgrees.
- Urls.Idempotence: lower case and Unicode normalization of host names outside ASCII, and which bracketed texts are IP
  literals, are functions given from outside; that the library is regular is a hypothesis, not proved of it. Links are
  already resolved against their base URL. `urlunsplit` is that of Python 3.12.4 and later, which keeps the two slashes
  of an empty authority.
- CanonicalForms.FixedPoints: it is about ASCII URLs; a host outside ASCII depends on the library.
- CanonicalForms.AuthorityExactly: hosts with a percent sign, which begins a zone, are left to Urls.HostShape.
- NumberTexts.NumberIsRead: the digits of the library are taken to be the ten of ASCII.
- Leases.PlanningIsExclusive: only planning claims look at the lease; the claims of the other stages do not, so two
  workers may hold one page or run, which `SkippedPage` shows.
- Readings.TruthIsRead: the library is taken to lower-case ASCII texts letter by letter, and the word to be ASCII.
- Sources.FieldIsRead: it is about mappings of texts, which is what tables, blocks and page metadata give; for nested
  data Sources.FirstNamed says which entry is read when none before it names the field.
- Stages.CompleteValidation: how a stored payload is decoded is a function given from outside; ValidatedRuns ties the
  raise to the validator for any such function. What the worker does next, a retryable failure report, is
  Stages.FailValidation.
- EventStreams.IdentifierRoundTrip: digits outside ASCII in the Last-Event-ID header are read as no number.
- Datasets.PermutationInvariance: records with equal identities keep their given order, as the stable sort does.
- Browser, DNS, HTTP, planner model and storage clients: a capture, a plan and an extraction result are arbitrary
  values; `put` and `delete` are atomic.
- Extraction strategies (structured data, tables, blocks) and header mapping: which source mapping they choose;
  `RecordFromMapping` takes any mapping.
- Dates, e-mail addresses, URL joining, lower case, text of values and SHA-256: functions given from outside.
- Rounding: numbers are reals.
- Renderers for the eight formats, authentication, sessions, CORS, paging, results views, migrations and the web
  client.
- Wall clocks: times are arguments of the calls; lease arithmetic is one integer.
- Plan versions: the planner may only use version 1, so a job has at most one plan.
