/** What every reachable state of a job satisfies, whatever is redelivered, crashes, fails or is cancelled. */
module Invariants {
  import opened Wrappers
  import opened Domain
  import opened Rows
  import opened Lifecycle
  import opened Discovery
  import opened Frontier
  import opened Stages
  import opened Inventory
  import opened Protocol

  // The invariant, one table at a time

  /** Which rows may exist in which stage. */
  ghost predicate StageOk(db: Db) {
    var s := db.job.status;
    && (s == Queued || s == Planning ==> db.plan.None?)
    && (s == Queued || s == Planning || s == BrowserInitializing ==> db.pages == [])
    && (db.plan.None? ==> db.pages == [] && db.records == [])
    && (!Terminal(s) && s != Queued && s != Planning ==> db.plan.Some?)
    && (!Terminal(s) && s != Validating && s != Exporting ==> db.runs == [])
    && (s == Validating ==> |db.runs| == 1 && db.runs[0] != RunCompleted)
    && (!Terminal(s) && s != Exporting ==> db.results == [] && db.exports == [] && db.files == [])
    && (s == Exporting || s == Completed ==> db.exports != [] && (s == Completed <==> AllExported(db.exports)))
    && (s != Failed ==> forall i :: 0 <= i < |db.pages| ==> db.pages[i].status != PageFailed)
  }

  ghost predicate PagesOk(cfg: Config, plan: Option<Plan>, pages: seq<Page>, discovered: nat) {
    if plan.Some? then InventoryOk(cfg, pages, discovered, CrawlCap(cfg, plan.value))
    else pages == [] && discovered == 0
  }

  ghost predicate Identified(records: seq<Record>) {
    forall i, j :: 0 <= i < j < |records| ==> records[i].identity != records[j].identity
  }

  ghost predicate RecordsOk(cfg: Config, plan: Option<Plan>, records: seq<Record>, found: nat) {
    && |records| == found
    && Identified(records)
    && (plan.Some? ==> found <= RecordCap(cfg, plan.value))
  }

  /** Once there are exports: one per requested format, over the completed run with one result per record. */
  ghost predicate ExportsOk(db: Db) {
    db.exports != [] ==>
      && db.runs == [RunCompleted]
      && ResultsMatch(db.results, db.records)
      && |db.exports| == |db.job.formats|
      && (forall i :: 0 <= i < |db.exports| ==> db.exports[i].format == db.job.formats[i] && db.exports[i].run == 0)
  }

  ghost predicate ResultsMatch(results: seq<ValidationResult>, records: seq<Record>) {
    && |results| == |records|
    && forall i :: 0 <= i < |results| ==> results[i] == ValidationResult(0, records[i].identity)
  }

  ghost predicate HasFile(files: seq<GeneratedFile>, id: nat) {
    exists k :: 0 <= k < |files| && files[k].exportId == id
  }

  ghost predicate FilesOk(exports: seq<Export>, files: seq<GeneratedFile>) {
    && (forall k :: 0 <= k < |files| ==> files[k].exportId < |exports|)
    && (forall i: nat :: i < |exports| && exports[i].status == ExportCompleted ==> HasFile(files, i))
    && (forall i, j :: 0 <= i < j < |files| ==> files[i].storageKey != files[j].storageKey)
  }

  /** The operation key names the stage and the row of the command. */
  predicate KeyFits(cmd: Command) {
    match cmd.key
    case PhaseKey(PlanningPhase, _) => cmd.kind == RunPlanning
    case PhaseKey(BrowserPhase, _) => cmd.kind == RunBrowserCapture
    case PhaseKey(DiscoveryPhase, _) => cmd.kind == RunDiscovery
    case DiscoverySourceKey => cmd.kind == RunDiscovery
    case DiscoveryPageKey(p) => cmd.kind == RunDiscovery && cmd.page == Some(p)
    case ExtractionKey => cmd.kind == RunExtraction && cmd.page == None
    case ExtractionPageKey(p, _) => cmd.kind == RunExtraction && cmd.page == Some(p)
    case ValidationKey(r) => cmd.kind == RunValidation && cmd.run == Some(r)
    case ExportKey(id, _) => cmd.kind == RunExport && cmd.exportId == Some(id)
  }

  predicate CommandOk(pages: seq<Page>, cmd: Command) {
    && cmd.attempt >= 1 && KeyFits(cmd)
    && (cmd.kind == RunDiscovery ==> cmd.page.Some? && cmd.page.value < |pages| && InCrawl(pages[cmd.page.value]))
  }

  ghost predicate OutboxOk(pages: seq<Page>, outbox: map<Key, Command>) {
    forall k <- outbox :: outbox[k].key == k && CommandOk(pages, outbox[k])
  }

  predicate WorkOk(pages: seq<Page>, plan: Option<Plan>, w: Work) {
    && CommandOk(pages, w.cmd)
    && (w.DiscoveryWork? ==>
          w.cmd.kind == RunDiscovery && w.page < |pages| && InCrawl(pages[w.page]) && plan == Some(w.plan))
    && (w.ExtractionWork? ==> w.cmd.kind == RunExtraction && w.page < |pages| && plan == Some(w.plan))
  }

  ghost predicate WorksOk(pages: seq<Page>, plan: Option<Plan>, works: set<Work>) {
    forall w <- works :: WorkOk(pages, plan, w)
  }

  /** The keys of one export carry numbers that its attempt counter has already reached. */
  ghost predicate KeysOk(exports: seq<Export>, outbox: map<Key, Command>) {
    && (forall k <- outbox :: k.ExportKey? ==>
          k.exportId < |exports| && k.attempt <= Max(1, exports[k.exportId].attempt))
    && (forall i :: 0 <= i < |exports| && exports[i].status == ExportRunning ==> exports[i].attempt >= 1)
  }

  /** The request schema admits at least one output format, and no format twice. */
  ghost predicate FormatsOk(formats: seq<Format>) {
    formats != [] && forall i, j :: 0 <= i < j < |formats| ==> formats[i] != formats[j]
  }

  /** The part of the invariant that does not mention the stage. */
  ghost predicate TablesOk(cfg: Config, db: Db) {
    && PagesOk(cfg, db.plan, db.pages, db.job.pagesDiscovered)
    && RecordsOk(cfg, db.plan, db.records, db.job.recordsFound)
    && ExportsOk(db)
    && FilesOk(db.exports, db.files)
    && OutboxOk(db.pages, db.outbox)
    && KeysOk(db.exports, db.outbox)
  }

  ghost predicate RowsOk(cfg: Config, db: Db) {
    StageOk(db) && TablesOk(cfg, db)
  }

  ghost predicate DbOk(cfg: Config, db: Db) {
    && JobOk(db.job)
    && Numbered(db.events)
    && FormatsOk(db.job.formats)
    && RowsOk(cfg, db)
  }

  /** Pages stay in the inventory, and crawled pages stay crawled. */
  ghost predicate Retains(pages: seq<Page>, after: seq<Page>) {
    && |pages| <= |after|
    && forall i :: 0 <= i < |pages| && InCrawl(pages[i]) ==> InCrawl(after[i])
  }

  /** What one call keeps. */
  ghost predicate Keeps(cfg: Config, db: Db, after: Db) { RowsOk(cfg, after) && Retains(db.pages, after.pages) }

  /** Queueing a well-formed command of another stage keeps the rows. */
  lemma EnqueueKeeps(cfg: Config, db: Db, cmd: Command)
    requires RowsOk(cfg, db) && CommandOk(db.pages, cmd) && !cmd.key.ExportKey?
    ensures Enqueue(db, cmd).Some? ==> RowsOk(cfg, Enqueue(db, cmd).value)
  {
  }

  /** A step that only touches the job row and the log keeps the tables. */
  lemma TouchKeeps(cfg: Config, db: Db, after: Db)
    requires TablesOk(cfg, db) && JobAndLog(db, after)
    ensures TablesOk(cfg, after)
  {
  }

  lemma ReleaseKeeps(cfg: Config, db: Db)
    requires RowsOk(cfg, db)
    ensures RowsOk(cfg, Release(db))
  {
    hide TablesOk;
    TouchKeeps(cfg, db, Release(db));
  }

  // Planning and browser

  lemma ClaimPlanningKeeps(cfg: Config, db: Db, cmd: Command, now: int, until: int)
    requires DbOk(cfg, db) && CommandOk(db.pages, cmd)
    ensures Keeps(cfg, db, ClaimPlanning(db, cmd, now, until).db)
    ensures var r := ClaimPlanning(db, cmd, now, until);
            r.reply.Claimed? ==> WorkOk(r.db.pages, r.db.plan, r.reply.work)
  {
  }

  lemma CompletePlanningKeeps(cfg: Config, db: Db, plan: Plan, now: int)
    requires DbOk(cfg, db)
    ensures Keeps(cfg, db, CompletePlanning(db, plan, now).db)
  {
    hide StepOk, Numbered, FormatsOk, LogGrows, ExportsOk, FilesOk, RecordsOk, Append;
    var r := StorePlan(db, plan, now);
    if db.job.status == Planning && r.Some? { PlanKeeps(cfg, db, plan, now); }
  }

  lemma PlanKeeps(cfg: Config, db: Db, plan: Plan, now: int)
    requires DbOk(cfg, db) && db.job.status == Planning
    ensures var r := StorePlan(db, plan, now); r.Some? ==> RowsOk(cfg, r.value) && r.value.pages == db.pages
  {
    hide Numbered, FormatsOk, LogGrows, JobStep;
    EmptyInventory(cfg, CrawlCap(cfg, plan));
  }

  lemma EmptyInventory(cfg: Config, cap: int)
    requires 0 <= cap
    ensures InventoryOk(cfg, [], 0, cap)
  {
  }

  lemma FailPlanningKeeps(cfg: Config, db: Db, error: Failure, budget: nat, now: int)
    requires DbOk(cfg, db)
    ensures Keeps(cfg, db, FailPlanning(db, error, budget, now).db)
  {
  }

  lemma PrepareBrowserKeeps(cfg: Config, db: Db, cmd: Command, now: int)
    requires DbOk(cfg, db) && CommandOk(db.pages, cmd)
    ensures Keeps(cfg, db, PrepareBrowser(db, cmd, now).db)
    ensures var r := PrepareBrowser(db, cmd, now);
            r.reply.Claimed? ==> WorkOk(r.db.pages, r.db.plan, r.reply.work)
  {
  }

  lemma RetainsCommands(pages: seq<Page>, after: seq<Page>, outbox: map<Key, Command>)
    requires Retains(pages, after) && OutboxOk(pages, outbox)
    ensures OutboxOk(after, outbox)
  {
  }

  lemma RetainsWorks(pages: seq<Page>, after: seq<Page>, plan: Option<Plan>, works: set<Work>)
    requires Retains(pages, after) && WorksOk(pages, plan, works)
    ensures WorksOk(after, plan, works)
  {
  }

  lemma SourceKeeps(cfg: Config, plan: Plan, url: Url, now: int)
    ensures var (pages, i) := SourceInventory(cfg, [], url, now);
            && |pages| == 1 && i == 0 && pages[0].status == PageDiscovered && pages[0].extraction == None
            && pages[0].depth == 0
            && InventoryOk(cfg, pages, 1, CrawlCap(cfg, plan))
  {
    var (pages, i) := SourceInventory(cfg, [], url, now);
    assert pages[..0] == [];
    assert TreeNode(pages, 0);
  }

  lemma CaptureKeeps(cfg: Config, db: Db, finalUrl: Url, n: nat, now: int)
    requires DbOk(cfg, db) && db.job.status == BrowserInitializing
    ensures var r := StoreCapture(cfg, db, finalUrl, n, now); r.Some? ==> RowsOk(cfg, r.value)
  {
    var source := SourceInventory(cfg, db.pages, finalUrl, now).1;
    var db2 := CaptureRows(cfg, db, finalUrl, n, now);
    CaptureRowsKeep(cfg, db, finalUrl, n, now);
    hide TablesOk, CaptureRows, SourceInventory, DbOk, CaptureShape, LogGrows, JobStep;
    var db3 := Transition(RaiseProgress(db2, 30), BrowserInitializing, Discovering, now).value;
    TouchKeeps(cfg, db2, db3);
    assert RowsOk(cfg, db3);
    EnqueueKeeps(cfg, db3, DiscoveryCommand(DiscoverySourceKey, 1, source));
    var r := Enqueue(db3, DiscoveryCommand(DiscoverySourceKey, 1, source));
    if r.Some? { TouchKeeps(cfg, r.value, Release(r.value)); }
  }

  lemma NothingDiscovered(cfg: Config, discovered: nat, cap: int)
    requires InventoryOk(cfg, [], discovered, cap)
    ensures discovered == 0
  {
  }

  /** Before the transition, the captured page is the whole inventory. */
  lemma CaptureRowsKeep(cfg: Config, db: Db, finalUrl: Url, n: nat, now: int)
    requires DbOk(cfg, db) && db.job.status == BrowserInitializing
    ensures var after := CaptureRows(cfg, db, finalUrl, n, now);
            && TablesOk(cfg, after) && after.plan.Some? && after.job.status == BrowserInitializing
            && |after.pages| == 1 && after.pages[0].status == PageDiscovered
            && SourceInventory(cfg, db.pages, finalUrl, now).1 == 0
            && after.runs == [] && after.results == [] && after.exports == [] && after.files == []
            && after.records == db.records
  {
    hide CaptureRows, InventoryOk, RecordsOk, FilesOk, KeysOk;
    NothingDiscovered(cfg, db.job.pagesDiscovered, CrawlCap(cfg, db.plan.value));
    SourceKeeps(cfg, db.plan.value, finalUrl, now);
    RetainsCommands(db.pages, SourceInventory(cfg, [], finalUrl, now).0, db.outbox);
  }

  lemma CompleteBrowserKeeps(cfg: Config, db: Db, finalUrl: Url, n: nat, now: int)
    requires DbOk(cfg, db)
    ensures Keeps(cfg, db, CompleteBrowser(cfg, db, finalUrl, n, now).db)
  {
    if db.job.status == BrowserInitializing { CaptureKeeps(cfg, db, finalUrl, n, now); }
  }

  lemma FailBrowserKeeps(cfg: Config, db: Db, cmd: Command, error: Failure, cancelled: bool, now: int)
    requires DbOk(cfg, db)
    ensures Keeps(cfg, db, FailBrowser(db, cmd, error, cancelled, now).db)
  {
  }

  lemma CancelKeeps(cfg: Config, db: Db, now: int)
    requires DbOk(cfg, db)
    ensures Keeps(cfg, db, Cancel(db, now).db)
  {
  }

  // Discovery

  lemma ClaimDiscoveryKeeps(cfg: Config, db: Db, cmd: Command, now: int, until: int)
    requires DbOk(cfg, db) && CommandOk(db.pages, cmd) && cmd.kind == RunDiscovery
    ensures Keeps(cfg, db, ClaimDiscovery(db, cmd, now, until).db)
    ensures var r := ClaimDiscovery(db, cmd, now, until);
            r.reply.Claimed? ==> WorkOk(r.db.pages, r.db.plan, r.reply.work)
  {
    var page := DiscoveryPage(db.pages, cmd.page);
    if db.job.status == Discovering && page.Some? {
      MarkKeeps(cfg, db, page.value, PageQueued);
    }
  }

  /** Moving one crawled page between crawl states keeps the rows. */
  lemma MarkKeeps(cfg: Config, db: Db, i: nat, status: PageStatus)
    requires RowsOk(cfg, db) && db.plan.Some? && i < |db.pages| && InCrawl(db.pages[i])
    requires InCrawl(db.pages[i].(status := status))
    ensures var after := SetPageStatus(db, i, status);
            && PagesOk(cfg, after.plan, after.pages, after.job.pagesDiscovered)
            && Retains(db.pages, after.pages)
            && OutboxOk(after.pages, after.outbox)
  {
    var after := SetPageStatus(db, i, status);
    UpdateKeeps(cfg, db.pages, i, after.pages[i], db.job.pagesDiscovered, CrawlCap(cfg, db.plan.value));
    RetainsCommands(db.pages, after.pages, db.outbox);
  }

  lemma ExploreKeeps(cfg: Config, db: Db, work: Work, capture: Capture, now: int)
    requires DbOk(cfg, db) && db.job.status == Discovering
    requires work.DiscoveryWork? && work.page < |db.pages| && WorkOk(db.pages, db.plan, work)
    ensures var r := Explore(cfg, db, work, capture, now);
            r.Some? ==> RowsOk(cfg, r.value) && Retains(db.pages, r.value.pages)
  {
    hide Expand, Advance, StepOk, JobOk, Numbered, FormatsOk, LogGrows;
    var db1 := Expand(cfg, db, work.plan, work.page, capture, now);
    ExpandRows(cfg, db, work, capture, now);
    AdvanceKeeps(cfg, Release(db1), now);
  }

  /** The rows after a visit, before the stage advances. */
  lemma ExpandRows(cfg: Config, db: Db, work: Work, capture: Capture, now: int)
    requires DbOk(cfg, db) && db.job.status == Discovering
    requires work.DiscoveryWork? && work.page < |db.pages| && WorkOk(db.pages, db.plan, work)
    ensures var after := Release(Expand(cfg, db, work.plan, work.page, capture, now));
            RowsOk(cfg, after) && after.job.status == Discovering && Retains(db.pages, after.pages)
  {
    hide Expand, InventoryOk, JobOk, Numbered, FormatsOk, LogGrows, RecordsOk, FilesOk, KeysOk;
    var db1 := Expand(cfg, db, work.plan, work.page, capture, now);
    ExpandKeeps(cfg, db, work.plan, work.page, capture, now);
    RetainsCommands(db.pages, db1.pages, db.outbox);
  }

  lemma AdvanceKeeps(cfg: Config, db: Db, now: int)
    requires RowsOk(cfg, db) && db.job.status == Discovering
    ensures var r := Advance(db, now); r.Some? ==> RowsOk(cfg, r.value)
  {
    var next := Least(db.pages, IsDiscovered, DiscoveredAt);
    if next.Some? {
      EnqueueKeeps(cfg, db, DiscoveryCommand(DiscoveryPageKey(next.value), 1, next.value));
    } else {
      var db2 := Transition(Append(RaiseProgress(db, 40), OnDiscoveryCompleted), Discovering, Extracting, now).value;
      TouchKeeps(cfg, db, db2);
      EnqueueKeeps(cfg, db2, ExtractionCommand(ExtractionKey, None));
    }
  }

  lemma CompleteDiscoveryKeeps(cfg: Config, db: Db, work: Work, capture: Capture, now: int)
    requires DbOk(cfg, db) && work.DiscoveryWork? && WorkOk(db.pages, db.plan, work)
    ensures Keeps(cfg, db, CompleteDiscovery(cfg, db, work, capture, now).db)
  {
    hide Explore, StepOk, TablesOk, Numbered, FormatsOk;
    if db.job.status == Discovering && work.page < |db.pages| { ExploreKeeps(cfg, db, work, capture, now); }
  }

  /** A failed page is put back or marked; the rest is the job row and the log. */
  lemma FailDiscoveryShape(db: Db, cmd: Command, error: Failure, budget: nat, now: int)
    requires JobOk(db.job)
    ensures var r := FailDiscovery(db, cmd, error, budget, now);
            if db.job.status != Discovering then r == Outcome(db, Nothing)
            else
              && JobAndLog(MarkPage(db, cmd.page, if r.reply.RetryAt? then PageDiscovered else PageFailed), r.db)
              && r.db.job.status == if r.reply.RetryAt? then Discovering else Failed
  {
    hide RetryOrFail, MarkPage, StepOk, LogGrows;
  }

  lemma FailDiscoveryKeeps(cfg: Config, db: Db, cmd: Command, error: Failure, budget: nat, now: int)
    requires DbOk(cfg, db) && cmd.kind == RunDiscovery && CommandOk(db.pages, cmd)
    ensures Keeps(cfg, db, FailDiscovery(db, cmd, error, budget, now).db)
  {
    hide FailDiscovery, StepOk, Numbered, FormatsOk;
    FailDiscoveryShape(db, cmd, error, budget, now);
    if db.job.status == Discovering {
      var r := FailDiscovery(db, cmd, error, budget, now);
      var status := if r.reply.RetryAt? then PageDiscovered else PageFailed;
      MarkKeeps(cfg, db, cmd.page.value, status);
      TouchKeeps(cfg, MarkPage(db, cmd.page, status), r.db);
    }
  }

  // Extraction

  lemma ExtractionStatusKeeps(cfg: Config, db: Db, i: nat, s: ExtractionStatus)
    requires RowsOk(cfg, db) && i < |db.pages|
    ensures RowsOk(cfg, SetExtraction(db, i, s)) && Retains(db.pages, SetExtraction(db, i, s).pages)
  {
    var after := SetExtraction(db, i, s);
    UpdateKeeps(cfg, db.pages, i, after.pages[i], db.job.pagesDiscovered, CrawlCap(cfg, db.plan.value));
    RetainsCommands(db.pages, after.pages, db.outbox);
  }

  lemma ClaimExtractionKeeps(cfg: Config, db: Db, cmd: Command, now: int, until: int)
    requires DbOk(cfg, db) && CommandOk(db.pages, cmd) && cmd.kind == RunExtraction
    ensures Keeps(cfg, db, ClaimExtraction(db, cmd, now, until).db)
    ensures var r := ClaimExtraction(db, cmd, now, until);
            r.reply.Claimed? ==> WorkOk(r.db.pages, r.db.plan, r.reply.work)
  {
    var page := ExtractionPage(db.pages, cmd.page);
    if db.job.status == Extracting && page.Some? {
      ExtractionStatusKeeps(cfg, db, page.value, PageExtracting);
    }
  }

  lemma FailExtractionShape(db: Db, cmd: Command, error: Failure, budget: nat, now: int)
    requires JobOk(db.job)
    ensures var r := FailExtraction(db, cmd, error, budget, now);
            if db.job.status != Extracting then r == Outcome(db, Nothing)
            else
              && JobAndLog(
                   MarkExtraction(db, cmd.page, if r.reply.RetryAt? then PagePending else PageExtractionFailed), r.db)
              && r.db.job.status == if r.reply.RetryAt? then Extracting else Failed
  {
    hide RetryOrFail, MarkExtraction, StepOk, LogGrows;
  }

  lemma MarkExtractionKeeps(cfg: Config, db: Db, page: Option<nat>, status: ExtractionStatus)
    requires RowsOk(cfg, db)
    ensures RowsOk(cfg, MarkExtraction(db, page, status))
    ensures Retains(db.pages, MarkExtraction(db, page, status).pages)
    ensures MarkExtraction(db, page, status).job == db.job
  {
    if page.Some? && page.value < |db.pages| { ExtractionStatusKeeps(cfg, db, page.value, status); }
  }

  lemma FailExtractionKeeps(cfg: Config, db: Db, cmd: Command, error: Failure, budget: nat, now: int)
    requires DbOk(cfg, db)
    ensures Keeps(cfg, db, FailExtraction(db, cmd, error, budget, now).db)
  {
    hide FailExtraction, MarkExtraction, TablesOk, Numbered, FormatsOk, StepOk;
    FailExtractionShape(db, cmd, error, budget, now);
    if db.job.status == Extracting {
      var r := FailExtraction(db, cmd, error, budget, now);
      var status := if r.reply.RetryAt? then PagePending else PageExtractionFailed;
      MarkExtractionKeeps(cfg, db, cmd.page, status);
      TouchKeeps(cfg, MarkExtraction(db, cmd.page, status), r.db);
    }
  }

  /** Savepoint inserts never repeat an identity and never exceed the admitted records. */
  lemma {:induction false} InsertKeeps(db: Db, page: nat, extracted: seq<Record>)
    requires Identified(db.records)
    ensures var after := InsertRecords(db, page, extracted);
            Identified(after.records) && |after.records| <= |db.records| + |extracted|
    decreases |extracted|
  {
    if extracted != [] {
      var r := extracted[0].(page := page);
      var db1 := if HasIdentity(db.records, r.identity) then Append(db, OnRecordDuplicate)
                 else db.(records := db.records + [r]);
      InsertKeeps(db1, page, extracted[1..]);
    }
  }

  lemma StoreExtractKeeps(cfg: Config, db: Db, plan: Plan, i: nat, extract: Extract)
    requires RowsOk(cfg, db) && db.job.status == Extracting && i < |db.pages| && db.plan == Some(plan)
    ensures var after := StoreExtract(cfg, db, plan, i, extract);
            RowsOk(cfg, after) && Retains(db.pages, after.pages)
  {
    InsertKeeps(db, i, Admitted(cfg, plan, |db.records|, extract.records));
    ExtractionStatusKeeps(cfg, db, i, PageExtracted);
    ExtractionStatusKeeps(cfg, db, i, PagePartial);
  }

  lemma AdvanceExtractionKeeps(cfg: Config, db: Db, plan: Plan, now: int)
    requires RowsOk(cfg, db) && db.job.status == Extracting
    ensures var r := AdvanceExtraction(db, plan, now); r.Some? ==> RowsOk(cfg, r.value)
  {
    var next := Least(db.pages, NotExtracted, VisitedAt);
    if next.Some? {
      EnqueueKeeps(cfg, db, ExtractionCommand(ExtractionPageKey(next.value, plan.version), Some(next.value)));
    } else {
      var db2 := Transition(Append(RaiseProgress(db, 60), OnExtractionCompleted), Extracting, Validating, now).value;
      TouchKeeps(cfg, db, db2);
      EnqueueKeeps(cfg, db2.(runs := db2.runs + [RunQueued]), ValidationCommand(|db2.runs|));
    }
  }

  lemma CompleteExtractionKeeps(cfg: Config, db: Db, work: Work, extract: Extract, now: int)
    requires DbOk(cfg, db) && work.ExtractionWork? && WorkOk(db.pages, db.plan, work)
    ensures Keeps(cfg, db, CompleteExtraction(cfg, db, work, extract, now).db)
  {
    hide StoreExtract, AdvanceExtraction, StepOk, RowsOk, Numbered, FormatsOk;
    if db.job.status == Extracting && work.page < |db.pages| {
      var stored := StoreExtract(cfg, db, work.plan, work.page, extract);
      StoreExtractKeeps(cfg, db, work.plan, work.page, extract);
      ReleaseKeeps(cfg, stored);
      AdvanceExtractionKeeps(cfg, Release(stored), work.plan, now);
    }
  }

  // Validation

  lemma ClaimValidationKeeps(cfg: Config, db: Db, cmd: Command, now: int, until: int)
    requires DbOk(cfg, db) && CommandOk(db.pages, cmd)
    ensures Keeps(cfg, db, ClaimValidation(db, cmd, now, until).db)
    ensures var r := ClaimValidation(db, cmd, now, until);
            r.reply.Claimed? ==> WorkOk(r.db.pages, r.db.plan, r.reply.work)
  {
  }

  lemma FailValidationKeeps(cfg: Config, db: Db, error: Failure, budget: nat, now: int)
    requires DbOk(cfg, db)
    ensures Keeps(cfg, db, FailValidation(db, error, budget, now).db)
  {
    if db.job.status == Validating { TouchKeeps(cfg, db, FailValidation(db, error, budget, now).db); }
  }

  /** The result rows of one run over a record list. */
  function ResultRows(run: nat, records: seq<Record>): seq<ValidationResult> {
    seq(|records|, i requires 0 <= i < |records| => ValidationResult(run, records[i].identity))
  }

  /**
   * With distinct identities, a run without results so far gets exactly one result per record, unless the values of
   * some record do not compare.
   */
  lemma {:induction false} InsertResultsWorks(cfg: Config, db: Db, run: nat, records: seq<Record>)
    requires Identified(records)
    requires forall i :: 0 <= i < |records| ==> ValidationResult(run, records[i].identity) !in db.results
    ensures var r := InsertResults(cfg, db, run, records);
            && (r.Some? <==> Comparable(cfg, records))
            && (r.Some? ==> r.value.results == db.results + ResultRows(run, records))
    decreases |records|
  {
    if records != [] {
      var row := ValidationResult(run, records[0].identity);
      var db1 := Append(db.(results := db.results + [row]), OnRecordValidated(row.record));
      InsertResultsWorks(cfg, db1, run, records[1..]);
      ComparableHead(cfg, records);
      assert ResultRows(run, records) == [row] + ResultRows(run, records[1..]);
      assert db.results + ([row] + ResultRows(run, records[1..])) ==
             (db.results + [row]) + ResultRows(run, records[1..]);
    }
  }

  lemma ComparableHead(cfg: Config, records: seq<Record>)
    requires records != []
    ensures Comparable(cfg, records) <==> cfg.compares(records[0].payload) && Comparable(cfg, records[1..])
  {
    if cfg.compares(records[0].payload) && Comparable(cfg, records[1..]) {
      forall i | 0 <= i < |records|
        ensures cfg.compares(records[i].payload)
      {
        if i > 0 { assert records[i] == records[1..][i - 1]; }
      }
    }
  }

  /** The first command of an export is queued under its attempt number 1. */
  predicate FirstCommandQueued(outbox: map<Key, Command>, id: nat, run: nat) {
    ExportKey(id, 1) in outbox && outbox[ExportKey(id, 1)] == ExportCommand(id, 1, 1, run)
  }

  /** Outbox rows are never changed or removed. */
  ghost predicate Extends(before: map<Key, Command>, after: map<Key, Command>) {
    forall k <- before :: k in after && after[k] == before[k]
  }

  /** One queued export with its first command. */
  lemma AddExport(db: Db, run: nat, format: Format) returns (after: Db)
    requires KeysOk(db.exports, db.outbox) && OutboxOk(db.pages, db.outbox)
    ensures Enqueue(
              db.(exports := db.exports + [Export(format, run, ExportQueued, 0)]),
              ExportCommand(|db.exports|, 1, 1, run)) == Some(after)
    ensures KeysOk(after.exports, after.outbox) && OutboxOk(after.pages, after.outbox)
    ensures Extends(db.outbox, after.outbox) && FirstCommandQueued(after.outbox, |db.exports|, run)
  {
    var id := |db.exports|;
    var db0 := db.(exports := db.exports + [Export(format, run, ExportQueued, 0)]);
    after := Enqueue(db0, ExportCommand(id, 1, 1, run)).value;
  }

  /** Every export from `from` on is freshly queued for the matching format. */
  ghost predicate QueuedExports(db: Db, from: nat, run: nat, formats: seq<Format>) {
    && |db.exports| == from + |formats|
    && forall k: nat :: from <= k < |db.exports| ==>
         && db.exports[k] == Export(formats[k - from], run, ExportQueued, 0)
         && FirstCommandQueued(db.outbox, k, run)
  }

  /** Distinct formats get one queued export each, with its command, and no key ever clashes. */
  lemma {:induction false} InsertExportsWorks(db: Db, run: nat, formats: seq<Format>) returns (after: Db)
    requires KeysOk(db.exports, db.outbox) && OutboxOk(db.pages, db.outbox)
    requires forall i, j :: 0 <= i < j < |formats| ==> formats[i] != formats[j]
    requires forall i :: 0 <= i < |formats| ==> !HasExport(db.exports, formats[i], run)
    ensures InsertExports(db, run, formats) == Some(after)
    ensures KeysOk(after.exports, after.outbox) && OutboxOk(after.pages, after.outbox)
    ensures Extends(db.outbox, after.outbox) && QueuedExports(after, |db.exports|, run, formats)
    decreases |formats|
  {
    after := db;
    if formats != [] {
      var db1 := AddExport(db, run, formats[0]);
      assert forall i :: 0 <= i < |formats[1..]| ==> formats[1..][i] == formats[1 + i];
      after := InsertExportsWorks(db1, run, formats[1..]);
      QueuedExportsCons(db, db1, after, run, formats);
    }
  }

  lemma QueuedExportsCons(db: Db, db1: Db, after: Db, run: nat, formats: seq<Format>)
    requires formats != [] && QueuedExports(after, |db1.exports|, run, formats[1..])
    requires db1.exports == db.exports + [Export(formats[0], run, ExportQueued, 0)] && db1.exports <= after.exports
    requires FirstCommandQueued(db1.outbox, |db.exports|, run) && Extends(db1.outbox, after.outbox)
    ensures QueuedExports(after, |db.exports|, run, formats)
  {
    forall k: nat | |db.exports| <= k < |after.exports|
      ensures after.exports[k] == Export(formats[k - |db.exports|], run, ExportQueued, 0)
      ensures FirstCommandQueued(after.outbox, k, run)
    {
      if k == |db.exports| {
        assert after.exports[k] == db1.exports[k];
      } else {
        assert formats[1..][k - |db1.exports|] == formats[k - |db.exports|];
      }
    }
  }

  lemma CloseRunWorks(cfg: Config, db: Db, now: int) returns (after: Db)
    requires Comparable(cfg, db.records)
    requires db.job.status == Validating && |db.runs| == 1 && db.results == [] && Identified(db.records)
    ensures CloseRun(cfg, db, 0, now) == Some(after) && after.job.status == Exporting
    ensures after.runs == [RunCompleted] && ResultsMatch(after.results, db.records)
    ensures after.job.pagesDiscovered == db.job.pagesDiscovered && after.job.recordsFound == db.job.recordsFound
    ensures after.job.formats == db.job.formats
  {
    hide CloseRun, InsertResults;
    InsertResultsWorks(cfg, db, 0, db.records);
    ClosedRun(cfg, db, InsertResults(cfg, db, 0, db.records).value, now);
    after := CloseRun(cfg, db, 0, now).value;
  }

  /** After its results a run closes without fail. */
  lemma ClosedRun(cfg: Config, db: Db, db1: Db, now: int)
    requires db.job.status == Validating && |db.runs| == 1 && InsertResults(cfg, db, 0, db.records) == Some(db1)
    ensures var r := CloseRun(cfg, db, 0, now);
            && r.Some? && r.value.job.status == Exporting && r.value.runs == [RunCompleted]
            && r.value.results == db1.results && r.value.job.pagesDiscovered == db.job.pagesDiscovered
            && r.value.job.recordsFound == db.job.recordsFound && r.value.job.formats == db.job.formats
  {
    hide InsertResults, LogGrows;
  }

  /**
   * Completing the run of a VALIDATING job whose records compare never fails and leaves one result per record, one
   * export per format.
   */
  lemma StoreValidationKeeps(cfg: Config, db: Db, now: int) returns (after: Db)
    requires DbOk(cfg, db) && db.job.status == Validating && Comparable(cfg, db.records)
    ensures StoreValidation(cfg, db, 0, now) == Some(after)
    ensures RowsOk(cfg, after) && after.job.status == Exporting
    ensures after.pages == db.pages && after.records == db.records && after.plan == db.plan
    ensures QueuedExports(after, 0, 0, db.job.formats) && Extends(db.outbox, after.outbox)
    ensures after.files == [] && after.job.formats == db.job.formats
  {
    var db1 := CloseRunWorks(cfg, db, now);
    var db2 := InsertExportsWorks(db1, 0, db1.job.formats);
    after := Append(db2, OnExportsQueued);
    QueuedExportsOk(after);
  }

  /** A record whose values do not compare makes the whole run raise. */
  lemma ValidationRaises(cfg: Config, db: Db, now: int)
    requires DbOk(cfg, db) && db.job.status == Validating && !Comparable(cfg, db.records)
    ensures StoreValidation(cfg, db, 0, now) == None
  {
    hide InsertResults, InsertExports, Comparable;
    InsertResultsWorks(cfg, db, 0, db.records);
  }

  lemma QueuedExportsOk(db: Db)
    requires QueuedExports(db, 0, 0, db.job.formats) && FormatsOk(db.job.formats)
    requires db.runs == [RunCompleted] && ResultsMatch(db.results, db.records) && db.files == []
    ensures ExportsOk(db) && FilesOk(db.exports, db.files) && db.exports != [] && !AllExported(db.exports)
  {
    assert db.exports[0].status == ExportQueued;
  }

  lemma CompleteValidationKeeps(cfg: Config, db: Db, work: Work, now: int)
    requires DbOk(cfg, db) && work.ValidationWork?
    ensures Keeps(cfg, db, CompleteValidation(cfg, db, work, now).db)
    ensures db.job.status == Validating && work.run < |db.runs| ==>
              CompleteValidation(cfg, db, work, now).reply == if Comparable(cfg, db.records) then Done else Raised
  {
    if db.job.status == Validating && work.run < |db.runs| {
      assert work.run == 0 && !db.job.cancelRequested;
      if Comparable(cfg, db.records) {
        var after := StoreValidationKeeps(cfg, db, now);
        assert CompleteValidation(cfg, db, work, now) == Outcome(after, Done);
      } else {
        ValidationRaises(cfg, db, now);
        assert CompleteValidation(cfg, db, work, now) == Outcome(db, Raised);
      }
    }
  }

  // Export

  /** Changing one export row keeps the tables when its attempt does not fall and a completed row has its file. */
  lemma SetExportKeeps(cfg: Config, db: Db, i: nat, row: Export)
    requires TablesOk(cfg, db) && i < |db.exports|
    requires row.format == db.exports[i].format && row.run == db.exports[i].run
    requires row.attempt >= db.exports[i].attempt && (row.status == ExportRunning ==> row.attempt >= 1)
    requires row.status == ExportCompleted ==> HasFile(db.files, i)
    ensures TablesOk(cfg, SetExport(db, i, row))
  {
  }

  /** A row that is not completed keeps the job from being completed. */
  lemma StillExporting(exports: seq<Export>, i: nat, row: Export)
    requires i < |exports| && row.status != ExportCompleted
    ensures !AllExported(exports[i := row])
  {
    assert exports[i := row][i] == row;
  }

  lemma ClaimExportKeeps(cfg: Config, db: Db, cmd: Command, now: int, until: int)
    requires DbOk(cfg, db) && CommandOk(db.pages, cmd)
    ensures Keeps(cfg, db, ClaimExport(db, cmd, now, until).db)
    ensures var r := ClaimExport(db, cmd, now, until);
            r.reply.Claimed? ==> WorkOk(r.db.pages, r.db.plan, r.reply.work)
  {
    var after := ClaimExport(db, cmd, now, until).db;
    if after != db {
      var id := cmd.exportId.value;
      SetExportKeeps(cfg, db, id, after.exports[id]);
      StillExporting(db.exports, id, after.exports[id]);
      TouchKeeps(cfg, SetExport(db, id, after.exports[id]), after);
    }
  }

  lemma StoreFileKeeps(cfg: Config, db: Db, id: nat, key: string, now: int)
    requires DbOk(cfg, db) && db.job.status == Exporting && id < |db.exports|
    ensures var r := StoreFile(db, id, key, now);
            r.Some? ==> RowsOk(cfg, r.value) && r.value.pages == db.pages
  {
    var r := StoreFile(db, id, key, now);
    if r.Some? {
      var db0 := db.(files := db.files + [GeneratedFile(id, key)]);
      assert db0.files[|db.files|].exportId == id;
      FileAdded(db.exports, db.files, GeneratedFile(id, key));
      var row := db.exports[id].(status := ExportCompleted);
      SetExportKeeps(cfg, db0, id, row);
      TouchKeeps(cfg, SetExport(db0, id, row), r.value);
    }
  }

  lemma FileAdded(exports: seq<Export>, files: seq<GeneratedFile>, file: GeneratedFile)
    requires FilesOk(exports, files) && file.exportId < |exports| && !HasKey(files, file.storageKey)
    ensures FilesOk(exports, files + [file]) && HasFile(files + [file], file.exportId)
  {
    var after := files + [file];
    assert after[|files|] == file;
    forall i: nat | i < |exports| && exports[i].status == ExportCompleted
      ensures HasFile(after, i)
    {
      var k :| 0 <= k < |files| && files[k].exportId == i;
      assert after[k].exportId == i;
    }
  }

  lemma CompleteExportKeeps(cfg: Config, db: Db, work: Work, key: string, now: int)
    requires DbOk(cfg, db) && work.ExportWork?
    ensures Keeps(cfg, db, CompleteExport(db, work, key, now).db)
  {
    if db.job.status == Exporting && work.exportId < |db.exports| { StoreFileKeeps(cfg, db, work.exportId, key, now); }
  }

  lemma FailExportKeeps(cfg: Config, db: Db, cmd: Command, error: Failure, budget: nat, now: int)
    requires DbOk(cfg, db)
    ensures Keeps(cfg, db, FailExport(db, cmd, error, budget, now).db)
  {
    if db.job.status == Exporting && cmd.exportId.Some? && cmd.exportId.value < |db.exports| {
      var id := cmd.exportId.value;
      var after := FailExport(db, cmd, error, budget, now).db;
      SetExportKeeps(cfg, db, id, after.exports[id]);
      StillExporting(db.exports, id, after.exports[id]);
      TouchKeeps(cfg, SetExport(db, id, after.exports[id]), after);
    }
  }

  // Recovery

  lemma RecoverDiscoveryKeeps(cfg: Config, before: Db, db: Db)
    requires RowsOk(cfg, before) && RowsOk(cfg, db) && db.job.status == Discovering && db.job.attempt >= 1
    requires before.pages == db.pages
    ensures RowsOk(cfg, RecoverDiscovery(before, db).db)
    ensures Retains(db.pages, RecoverDiscovery(before, db).db.pages)
  {
    var i := Least(db.pages, IsOpen, DiscoveredAt);
    if i.Some? {
      MarkKeeps(cfg, db, i.value, PageDiscovered);
      var db1 := SetPageStatus(db, i.value, PageDiscovered);
      EnqueueKeeps(cfg, db1, DiscoveryCommand(PhaseKey(DiscoveryPhase, db.job.attempt), db.job.attempt, i.value));
    }
  }

  /** A new key of an export may carry any number that its counter has reached. */
  lemma EnqueueExportKeeps(cfg: Config, db: Db, id: nat, cmd: Command)
    requires RowsOk(cfg, db) && CommandOk(db.pages, cmd) && id < |db.exports|
    requires cmd.key.ExportKey? && cmd.key.exportId == id && cmd.key.attempt <= db.exports[id].attempt
    ensures Enqueue(db, cmd).Some? ==> RowsOk(cfg, Enqueue(db, cmd).value)
  {
  }

  /** The recovered export gets a key number above every number it used before, so the insert never fails. */
  lemma RecoverExportKeeps(cfg: Config, before: Db, db: Db, pick: nat)
    requires RowsOk(cfg, db) && db.job.status == Exporting && db.job.attempt >= 1
    ensures RowsOk(cfg, RecoverExport(before, db, pick).db)
    ensures RecoverExport(before, db, pick).db.pages == db.pages
    ensures RecoverExport(before, db, pick).reply != Raised
  {
    if pick < |db.exports| && db.exports[pick].status == ExportRunning {
      var next := Max(db.exports[pick].attempt, db.job.attempt) + 1;
      var row := db.exports[pick].(status := ExportQueued, attempt := next);
      SetExportKeeps(cfg, db, pick, row);
      StillExporting(db.exports, pick, row);
      FreshKey(db, pick, next);
      hide TablesOk, AllExported;
      var db1 := SetExport(db, pick, row);
      EnqueueExportKeeps(cfg, db1, pick, ExportCommand(pick, next, db.job.attempt, row.run));
    }
  }

  /** A number above the counter of an export was never used in its keys. */
  lemma FreshKey(db: Db, pick: nat, next: nat)
    requires KeysOk(db.exports, db.outbox) && pick < |db.exports| && next > Max(1, db.exports[pick].attempt)
    ensures ExportKey(pick, next) !in db.outbox
  {
  }

  lemma RecoverPhaseKeeps(cfg: Config, before: Db, db: Db)
    requires RowsOk(cfg, before) && RowsOk(cfg, db) && db.job.attempt >= 1 && before.pages == db.pages
    ensures RowsOk(cfg, RecoverPhase(before, db).db) && RecoverPhase(before, db).db.pages == db.pages
  {
    EnqueueKeeps(cfg, db, BrowserCommand(db.job.attempt));
    EnqueueKeeps(cfg, db, PlanningCommand(db.job.attempt));
  }

  /** Recovery counts an attempt first; beyond the budget the job fails, otherwise its stage decides. */
  lemma RecoverShape(db: Db, pick: nat, now: int)
    ensures var r := Recover(db, pick, now);
            var db1 := CountAttempt(Release(db));
            || r == Outcome(db, Nothing)
            || (db1.job.attempt > db1.job.maxAttempts && Active(db.job.status) && r.reply == Nothing
                && JobAndLog(db, r.db) && r.db.job.status == Failed)
            || (Active(db.job.status)
                && r == if db.job.status == Discovering then RecoverDiscovery(db, db1)
                        else if db.job.status == Exporting then RecoverExport(db, db1, pick)
                        else RecoverPhase(db, db1))
  {
    hide StepOk, RecoverDiscovery, RecoverExport, RecoverPhase;
  }

  lemma RecoverKeeps(cfg: Config, db: Db, pick: nat, now: int)
    requires DbOk(cfg, db)
    ensures Keeps(cfg, db, Recover(db, pick, now).db)
    ensures db.job.status == Exporting ==> Recover(db, pick, now).reply != Raised
  {
    hide Recover, RecoverDiscovery, RecoverExport, RecoverPhase, TablesOk, Numbered, FormatsOk, StepOk, JobOk;
    var db1 := CountAttempt(Release(db));
    RecoverShape(db, pick, now);
    TouchKeeps(cfg, db, db1);
    if db.job.status == Discovering {
      RecoverDiscoveryKeeps(cfg, db, db1);
    } else if db.job.status == Exporting {
      RecoverExportKeeps(cfg, db, db1, pick);
    } else {
      RecoverPhaseKeeps(cfg, db, db1);
    }
    if JobAndLog(db, Recover(db, pick, now).db) { TouchKeeps(cfg, db, Recover(db, pick, now).db); }
  }
}
