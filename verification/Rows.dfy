/** The rows the database keeps for one job (models.py), as values. */
module Rows {
  import opened Wrappers
  import opened Domain

  type Url = string

  type Positive = x: int | 0 < x witness 1

  datatype Format = Csv | Docx | Html | Json | Md | Pdf | Txt | Xlsx

  datatype Failure = Failure(code: string, retryable: bool)

  datatype Job = Job(
    status: JobStatus,
    statusVersion: nat,
    progress: int,
    attempt: nat,
    maxAttempts: nat,
    cancelRequested: bool,
    lease: Option<int>,
    startedAt: Option<int>,
    completedAt: Option<int>,
    pagesDiscovered: nat,
    pagesProcessed: nat,
    recordsFound: nat,
    lastError: Option<Failure>,
    formats: seq<Format>)

  datatype Plan = Plan(
    version: nat,
    maxPages: Positive,
    maxRecords: Positive,
    followPagination: bool,
    followRelevantLinks: bool)

  datatype PageStatus =
    | PageDiscovered
    | PageQueued
    | PageVisited
    | PageRejected
    | PageDuplicate
    | PageFailed
    | PageSkipped

  datatype ExtractionStatus =
    | PageExtracting
    | PageExtracted
    | PagePartial
    | PagePending
    | PageExtractionFailed
    | PageExtractionSkipped

  datatype DiscoveryMethod = FromSource | FromPagination | FromRelevantLink | FromSitemap

  /** A page's identifier is its position in the inventory; `uuid` only breaks ties of the ordering. */
  datatype Page = Page(
    url: Url,
    status: PageStatus,
    depth: nat,
    parent: Option<nat>,
    discoveredAt: int,
    uuid: int,
    via: DiscoveryMethod,
    visitedAt: Option<int>,
    extraction: Option<ExtractionStatus>)

  datatype Record = Record(identity: string, page: nat, payload: string)

  datatype RunStatus = RunQueued | RunRunning | RunCompleted

  datatype ValidationResult = ValidationResult(run: nat, record: string)

  datatype ExportStatus = ExportQueued | ExportRunning | ExportCompleted | ExportFailed | ExportCancelled

  datatype Export = Export(format: Format, run: nat, status: ExportStatus, attempt: nat)

  datatype GeneratedFile = GeneratedFile(exportId: nat, storageKey: string)

  datatype Phase = PlanningPhase | BrowserPhase | DiscoveryPhase

  /** The operation keys of the outbox; two rows clash exactly when these values are equal. */
  datatype Key =
    | PhaseKey(phase: Phase, attempt: nat)
    | DiscoverySourceKey
    | DiscoveryPageKey(page: nat)
    | ExtractionKey
    | ExtractionPageKey(page: nat, planVersion: nat)
    | ValidationKey(run: nat)
    | ExportKey(exportId: nat, attempt: nat)

  datatype CommandKind =
    | RunPlanning
    | RunBrowserCapture
    | RunDiscovery
    | RunExtraction
    | RunValidation
    | RunExport

  datatype Command = Command(
    kind: CommandKind,
    key: Key,
    attempt: nat,
    page: Option<nat>,
    run: Option<nat>,
    exportId: Option<nat>)

  datatype EventType =
    | OnJobQueued
    | OnPlanningStarted
    | OnPlanningCompleted
    | OnDiscoveryStarted
    | OnJobCancelled
    | OnJobFailed
    | OnJobCompleted
    | OnStateTransitioned
    | OnPlanningRetry
    | OnBrowserInitializing
    | OnBrowserLifecycle
    | OnBrowserCompleted
    | OnBrowserRetry
    | OnPageQueued(page: nat)
    | OnPageVisited(page: nat, depth: nat)
    | OnPageDuplicate
    | OnPageDiscovered(url: Url, depth: nat)
    | OnPageRejected
    | OnDiscoveryCompleted
    | OnDiscoveryRetry
    | OnDiscoveryFailed
    | OnExtractionStarted(page: nat)
    | OnRecordDuplicate
    | OnExtractionWarning
    | OnPageExtracted(page: nat)
    | OnExtractionCompleted
    | OnExtractionRetry
    | OnExtractionFailed
    | OnValidationStarted
    | OnRecordValidated(record: string)
    | OnValidationCompleted
    | OnValidationRetry
    | OnValidationFailed
    | OnExportsQueued
    | OnExportStarted
    | OnExportCompleted
    | OnExportRetry
    | OnExportFailed

  datatype Event = Event(sequenceNo: nat, eventType: EventType)

  datatype Db = Db(
    job: Job,
    plan: Option<Plan>,
    pages: seq<Page>,
    records: seq<Record>,
    runs: seq<RunStatus>,
    results: seq<ValidationResult>,
    exports: seq<Export>,
    files: seq<GeneratedFile>,
    outbox: map<Key, Command>,
    events: seq<Event>)

  /** What a successful claim hands to a worker. */
  datatype Work =
    | PlanningWork(cmd: Command)
    | BrowserWork(cmd: Command)
    | DiscoveryWork(cmd: Command, page: nat, plan: Plan)
    | ExtractionWork(cmd: Command, page: nat, plan: Plan)
    | ValidationWork(cmd: Command, run: nat, plan: Plan)
    | ExportWork(cmd: Command, exportId: nat)

  /** How a service call ends: `Raised` means that its transaction was rolled back. */
  datatype Reply =
    | Raised
    | Nothing
    | Done
    | Claimed(work: Work)
    | RetryAt(attempt: nat)
    | Recovered

  datatype Outcome = Outcome(db: Db, reply: Reply)

  /**
   * Server settings that the service methods read. `compares` tells whether the values of a record's payload that
   * validation compares have comparable types; the validator raises when they do not.
   */
  datatype Config = Config(
    discoveryMaxPages: Positive,
    discoveryMaxDepth: nat,
    maxLinksPerPage: nat,
    sitemapMaxUrls: nat,
    enableSitemaps: bool,
    sitemapUrl: Option<Url>,
    inScope: Url -> bool,
    uuid: nat -> int,
    plannerMaxRetries: nat,
    extractionMaxRetries: nat,
    validationMaxAttempts: nat,
    exportMaxRetries: nat,
    serverMaxRecords: Positive,
    compares: string -> bool)
}
