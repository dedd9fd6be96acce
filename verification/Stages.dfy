/** Extraction, validation and export transactions (services.py), as functions on the rows. */
module Stages {
  import opened Wrappers
  import opened Domain
  import opened Rows
  import opened Lifecycle
  import opened Frontier

  // Extraction

  predicate NeedsExtraction(p: Page) { p.status == PageVisited && p.extraction in {None, Some(PagePending)} }

  predicate NotExtracted(p: Page) { p.status == PageVisited && p.extraction == None }

  function SetExtraction(db: Db, i: nat, s: ExtractionStatus): Db
    requires i < |db.pages|
  {
    db.(pages := db.pages[i := db.pages[i].(extraction := Some(s))])
  }

  function ExtractionPage(pages: seq<Page>, requested: Option<nat>): (r: Option<nat>)
    ensures r.Some? ==> r.value < |pages| && NeedsExtraction(pages[r.value])
  {
    if requested.None? then Least(pages, NeedsExtraction, VisitedAt)
    else if requested.value < |pages| && NeedsExtraction(pages[requested.value]) then requested
    else None
  }

  function ClaimExtraction(db: Db, cmd: Command, now: int, until: int): (r: Outcome)
    ensures StepOk(db, r.db, 0)
  {
    if db.job.status == Cancelled || db.job.status == Failed then Outcome(db, Nothing)
    else if db.job.status != Extracting then Outcome(db, Raised)
    else if db.job.cancelRequested then Acknowledge(db, now)
    else
      match ExtractionPage(db.pages, cmd.page)
      case None => Outcome(db, Nothing)
      case Some(i) =>
        if db.plan.None? then Outcome(db, Raised)
        else
          Outcome(
            Append(Lease(SetExtraction(db, i, PageExtracting), until), OnExtractionStarted(i)),
            Claimed(ExtractionWork(cmd, i, db.plan.value)))
  }

  /** The records of a page and its warnings, as the extraction service returned them. */
  datatype Extract = Extract(records: seq<Record>, warnings: nat)

  predicate HasIdentity(records: seq<Record>, identity: string) {
    exists i :: 0 <= i < |records| && records[i].identity == identity
  }

  /** Insert records one savepoint at a time: a repeated identity only logs an event. */
  function InsertRecords(db: Db, page: nat, extracted: seq<Record>): (r: Db)
    ensures LogGrows(db, r) && db.records <= r.records
    ensures r == db.(events := r.events, records := r.records)
    decreases |extracted|
  {
    if extracted == [] then db
    else
      var r := extracted[0].(page := page);
      var db1 := if HasIdentity(db.records, r.identity) then Append(db, OnRecordDuplicate)
                 else db.(records := db.records + [r]);
      InsertRecords(db1, page, extracted[1..])
  }

  function RecordCap(cfg: Config, plan: Plan): int { Min(plan.maxRecords, cfg.serverMaxRecords) }

  /** The prefix of the extracted records that the remaining budget admits. */
  function Admitted(cfg: Config, plan: Plan, stored: nat, extracted: seq<Record>): seq<Record> {
    extracted[..Min(|extracted|, Max(0, RecordCap(cfg, plan) - stored))]
  }

  /** Persist one page's records with its counters and events. */
  function StoreExtract(cfg: Config, db: Db, plan: Plan, i: nat, extract: Extract): (r: Db)
    requires i < |db.pages|
    ensures LogGrows(db, r)
    ensures r == db.(pages := r.pages, events := r.events, records := r.records, job := r.job)
    ensures r.job == db.job.(recordsFound := r.job.recordsFound, pagesProcessed := r.job.pagesProcessed)
  {
    var db1 := InsertRecords(db, i, Admitted(cfg, plan, |db.records|, extract.records));
    var created := |db1.records| - |db.records|;
    var page := db.pages[i].(extraction := Some(if created > 0 then PageExtracted else PagePartial));
    var db2 := db1.(
      pages := db.pages[i := page],
      job := db1.job.(
        recordsFound := db1.job.recordsFound + created,
        pagesProcessed := db1.job.pagesProcessed + 1));
    Append(AppendMany(db2, OnExtractionWarning, Min(extract.warnings, 10)), OnPageExtracted(i))
  }

  function ValidationCommand(run: nat): Command {
    Command(RunValidation, ValidationKey(run), 1, None, Some(run), None)
  }

  /** Queue the next page, or leave the stage with a fresh validation run when there is none. */
  function AdvanceExtraction(db: Db, plan: Plan, now: int): (r: Option<Db>)
    ensures r.Some? ==> LogGrows(db, r.value)
    ensures r.Some? && JobOk(db.job) ==> JobStep(db.job, r.value.job)
    ensures r.Some? ==> r.value.job.attempt == db.job.attempt
    ensures r.Some? ==>
              r.value == db.(
                job := r.value.job, events := r.value.events, outbox := r.value.outbox, runs := r.value.runs)
  {
    match Least(db.pages, NotExtracted, VisitedAt)
    case Some(next) => Enqueue(db, ExtractionCommand(ExtractionPageKey(next, plan.version), Some(next)))
    case None =>
      var db1 := Append(RaiseProgress(db, 60), OnExtractionCompleted);
      var db2 :- Transition(db1, Extracting, Validating, now);
      Enqueue(db2.(runs := db2.runs + [RunQueued]), ValidationCommand(|db2.runs|))
  }

  function StorePage(cfg: Config, db: Db, work: Work, extract: Extract, now: int): (r: Option<Db>)
    requires work.ExtractionWork? && work.page < |db.pages|
    ensures r.Some? ==> LogGrows(db, r.value)
    ensures r.Some? && JobOk(db.job) ==> JobStep(db.job, r.value.job)
    ensures r.Some? ==> r.value.plan == db.plan && r.value.files == db.files && r.value.job.attempt == db.job.attempt
  {
    AdvanceExtraction(Release(StoreExtract(cfg, db, work.plan, work.page, extract)), work.plan, now)
  }

  function CompleteExtraction(cfg: Config, db: Db, work: Work, extract: Extract, now: int): (r: Outcome)
    requires work.ExtractionWork?
    ensures StepOk(db, r.db, 0)
  {
    hide StorePage, Append;
    if db.job.status == Cancelled || db.job.status == Failed then Outcome(db, Nothing)
    else if db.job.status != Extracting then Outcome(db, Raised)
    else if db.job.cancelRequested then Acknowledge(db, now)
    else if work.page >= |db.pages| then Outcome(db, Raised)
    else
      Commit(db, StorePage(cfg, db, work, extract, now), Done)
  }

  function MarkExtraction(db: Db, page: Option<nat>, status: ExtractionStatus): Db {
    if page.Some? && page.value < |db.pages| then SetExtraction(db, page.value, status) else db
  }

  function FailExtraction(db: Db, cmd: Command, error: Failure, budget: nat, now: int): (r: Outcome)
    ensures StepOk(db, r.db, budget)
    ensures r.reply.RetryAt? <==> r.db.job.attempt > db.job.attempt && r.db.job.status != Failed
  {
    if db.job.status != Extracting then Outcome(db, Nothing)
    else if db.job.cancelRequested then Acknowledge(MarkExtraction(db, cmd.page, PageExtractionSkipped), now)
    else
      RetryOrFail(
        db, RecordFailure(MarkExtraction(db, cmd.page, PagePending), error),
        RecordFailure(MarkExtraction(db, cmd.page, PageExtractionFailed), error),
        error, budget, OnExtractionRetry, Some(OnExtractionFailed), now)
  }

  // Validation

  function ClaimValidation(db: Db, cmd: Command, now: int, until: int): (r: Outcome)
    ensures StepOk(db, r.db, 0)
  {
    if cmd.run.None? || cmd.run.value >= |db.runs| || db.job.status != Validating
       || db.runs[cmd.run.value] == RunCompleted then Outcome(db, Nothing)
    else if db.job.cancelRequested then Acknowledge(db, now)
    else if db.plan.None? then Outcome(db, Raised)
    else
      Outcome(
        Append(Lease(db.(runs := db.runs[cmd.run.value := RunRunning]), until), OnValidationStarted),
        Claimed(ValidationWork(cmd, cmd.run.value, db.plan.value)))
  }

  /** The validator does not raise on any of the records. */
  ghost predicate Comparable(cfg: Config, records: seq<Record>) {
    forall i :: 0 <= i < |records| ==> cfg.compares(records[i].payload)
  }

  /**
   * One result row and one event per record; `None` is the TypeError of the validator, or a second result for one run
   * and record.
   */
  function InsertResults(cfg: Config, db: Db, run: nat, records: seq<Record>): (r: Option<Db>)
    ensures r.Some? ==> LogGrows(db, r.value) && db.results <= r.value.results
    ensures r.Some? ==> r.value == db.(events := r.value.events, results := r.value.results)
    decreases |records|
  {
    if records == [] then Some(db)
    else
      var row := ValidationResult(run, records[0].identity);
      if !cfg.compares(records[0].payload) || row in db.results then None
      else
        InsertResults(
          cfg, Append(db.(results := db.results + [row]), OnRecordValidated(row.record)), run, records[1..])
  }

  predicate HasExport(exports: seq<Export>, format: Format, run: nat) {
    exists i :: 0 <= i < |exports| && exports[i].format == format && exports[i].run == run
  }

  /** One export job and one command per requested format; `None` is a repeated format or operation key. */
  function InsertExports(db: Db, run: nat, formats: seq<Format>): (r: Option<Db>)
    ensures r.Some? ==> db.exports <= r.value.exports
    ensures r.Some? ==> r.value == db.(exports := r.value.exports, outbox := r.value.outbox)
    decreases |formats|
  {
    if formats == [] then Some(db)
    else if HasExport(db.exports, formats[0], run) then None
    else
      var id := |db.exports|;
      var db1 :- Enqueue(
                   db.(exports := db.exports + [Export(formats[0], run, ExportQueued, 0)]),
                   ExportCommand(id, 1, 1, run));
      InsertExports(db1, run, formats[1..])
  }

  /** Store the results of a run and enter the export stage. */
  function CloseRun(cfg: Config, db: Db, run: nat, now: int): (r: Option<Db>)
    requires run < |db.runs|
    ensures r.Some? ==> LogGrows(db, r.value)
    ensures r.Some? && JobOk(db.job) ==> JobStep(db.job, r.value.job)
    ensures r.Some? ==>
              r.value == db.(
                job := r.value.job, events := r.value.events, results := r.value.results, runs := r.value.runs)
    ensures r.Some? ==> r.value.job.attempt == db.job.attempt
  {
    var db1 :- InsertResults(cfg, db, run, db.records);
    var db2 := RaiseProgress(Release(db1.(runs := db1.runs[run := RunCompleted])), 80);
    Transition(Append(db2, OnValidationCompleted), Validating, Exporting, now)
  }

  function StoreValidation(cfg: Config, db: Db, run: nat, now: int): (r: Option<Db>)
    requires run < |db.runs|
    ensures r.Some? ==> LogGrows(db, r.value)
    ensures r.Some? && JobOk(db.job) ==> JobStep(db.job, r.value.job)
    ensures r.Some? ==>
              r.value.job.attempt == db.job.attempt && r.value.plan == db.plan && r.value.files == db.files
  {
    var db1 :- CloseRun(cfg, db, run, now);
    var db2 :- InsertExports(db1, run, db1.job.formats);
    Some(Append(db2, OnExportsQueued))
  }

  function CompleteValidation(cfg: Config, db: Db, work: Work, now: int): (r: Outcome)
    requires work.ValidationWork?
    ensures StepOk(db, r.db, 0)
  {
    if work.run >= |db.runs| || db.job.status != Validating then Outcome(db, Nothing)
    else if db.job.cancelRequested && db.records != [] then Acknowledge(db, now)
    else Commit(db, StoreValidation(cfg, db, work.run, now), Done)
  }

  function FailValidation(db: Db, error: Failure, budget: nat, now: int): (r: Outcome)
    ensures StepOk(db, r.db, budget)
    ensures r.reply.RetryAt? <==> r.db.job.attempt > db.job.attempt && r.db.job.status != Failed
  {
    if db.job.status != Validating then Outcome(db, Nothing)
    else
      var db1 := RecordFailure(db, error);
      RetryOrFail(db, db1, db1, error, budget, OnValidationRetry, Some(OnValidationFailed), now)
  }

  // Export

  function ClaimExport(db: Db, cmd: Command, now: int, until: int): (r: Outcome)
    ensures StepOk(db, r.db, 0)
  {
    if cmd.exportId.None? || cmd.exportId.value >= |db.exports|
       || db.exports[cmd.exportId.value].status == ExportCompleted then Outcome(db, Nothing)
    else
      var id := cmd.exportId.value;
      var row := db.exports[id];
      if db.job.status == Cancelled || db.job.cancelRequested then
        Outcome(SetExport(db, id, row.(status := ExportCancelled)), Nothing)
      else if db.job.status != Exporting || row.status != ExportQueued then Outcome(db, Nothing)
      else if row.run >= |db.runs| || db.runs[row.run] != RunCompleted then Outcome(db, Raised)
      else
        var claimed := row.(status := ExportRunning, attempt := Max(row.attempt, cmd.attempt));
        Outcome(
          Append(Lease(SetExport(db, id, claimed), until), OnExportStarted),
          Claimed(ExportWork(cmd, id)))
  }

  predicate AllExported(exports: seq<Export>) {
    exports != [] && forall i :: 0 <= i < |exports| ==> exports[i].status == ExportCompleted
  }

  function HasKey(files: seq<GeneratedFile>, key: string): bool {
    exists i :: 0 <= i < |files| && files[i].storageKey == key
  }

  /** Store the file row; the last export completes the job. `None` is a repeated storage key. */
  function StoreFile(db: Db, id: nat, storageKey: string, now: int): (r: Option<Db>)
    requires id < |db.exports|
    ensures r.Some? ==> LogGrows(db, r.value)
    ensures r.Some? && JobOk(db.job) ==> JobStep(db.job, r.value.job)
    ensures r.Some? ==> r.value.job.attempt == db.job.attempt
  {
    if HasKey(db.files, storageKey) then None
    else
      var row := db.exports[id].(status := ExportCompleted);
      var db1 := SetExport(db.(files := db.files + [GeneratedFile(id, storageKey)]), id, row);
      var db2 := Append(Release(db1), OnExportCompleted);
      if AllExported(db2.exports) then
        Transition(db2.(job := db2.job.(progress := 100)), Exporting, Completed, now)
      else Some(db2)
  }

  function CompleteExport(db: Db, work: Work, storageKey: string, now: int): (r: Outcome)
    requires work.ExportWork?
    ensures StepOk(db, r.db, 0)
  {
    if work.exportId >= |db.exports| || db.job.status == Cancelled || db.job.cancelRequested then Outcome(db, Nothing)
    else if db.job.status != Exporting || db.exports[work.exportId].status == ExportCompleted then Outcome(db, Nothing)
    else Commit(db, StoreFile(db, work.exportId, storageKey, now), Done)
  }

  function FailExport(db: Db, cmd: Command, error: Failure, budget: nat, now: int): (r: Outcome)
    ensures StepOk(db, r.db, 0)
  {
    if cmd.exportId.None? || cmd.exportId.value >= |db.exports| || db.job.status != Exporting then
      Outcome(db, Nothing)
    else
      var id := cmd.exportId.value;
      var row := db.exports[id];
      if db.job.cancelRequested then Outcome(SetExport(db, id, row.(status := ExportCancelled)), Nothing)
      else if error.retryable && row.attempt < budget then
        var retried := row.(attempt := row.attempt + 1, status := ExportQueued);
        Outcome(Append(SetExport(RecordFailure(db, error), id, retried), OnExportRetry), RetryAt(row.attempt + 1))
      else
        var db1 := Append(SetExport(RecordFailure(db, error), id, row.(status := ExportFailed)), OnExportFailed);
        Commit(db, Transition(db1, Exporting, Failed, now), Nothing)
  }
}
