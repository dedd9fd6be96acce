/** What the reachable states mean: crawl budget, record set, export completion and export keys. */
module Results {
  import opened Wrappers
  import opened Domain
  import opened Rows
  import opened Lifecycle
  import opened Frontier
  import opened Stages
  import opened Inventory
  import opened Protocol
  import opened Invariants
  import opened Runs
  import opened Growth

  // The crawl budget

  function CountDiscovered(pages: seq<Page>): nat {
    if pages == [] then 0
    else
      var n := |pages| - 1;
      CountDiscovered(pages[..n]) + if Accepted(pages[n]) then 1 else 0
  }

  lemma {:induction false} DiscoveredAreCrawled(pages: seq<Page>)
    ensures CountDiscovered(pages) <= CountCrawl(pages)
    ensures (forall i :: 0 <= i < |pages| ==> pages[i].status != PageFailed) ==>
              CountDiscovered(pages) == CountCrawl(pages)
  {
    if pages != [] { DiscoveredAreCrawled(pages[..|pages| - 1]); }
  }

  /**
   * In every reachable state the DISCOVERED, QUEUED and VISITED pages number at most
   * min(discovery_max_pages, plan max_pages), and exactly pages_discovered unless the job failed; the parent links
   * form a tree with depth = parent's depth + 1, no page crawled below the source lies deeper than
   * max(1, max_depth), and every one of them is in scope or the configured sitemap.
   */
  lemma CrawlBudget(cfg: Config, trace: seq<System>, steps: seq<Step>, i: nat)
    requires QueueRun(cfg, trace, steps) && i <= |steps|
    ensures var db := trace[i].db;
            && (db.plan.Some? ==> CountDiscovered(db.pages) <= CrawlCap(cfg, db.plan.value))
            && (db.job.status != Failed ==> CountDiscovered(db.pages) == db.job.pagesDiscovered)
            && UrlsUnique(db.pages) && IsTree(db.pages) && CrawlAdmissible(cfg, db.pages)
  {
    hide Apply;
    Reachable(cfg, trace, steps, i);
    DiscoveredAreCrawled(trace[i].db.pages);
  }

  // The record set

  /** The record table never exceeds its cap, agrees with its counter and never repeats an identity. */
  lemma RecordSet(cfg: Config, trace: seq<System>, steps: seq<Step>, i: nat)
    requires QueueRun(cfg, trace, steps) && i <= |steps|
    ensures var db := trace[i].db;
            && |db.records| == db.job.recordsFound
            && Identified(db.records)
            && (db.plan.Some? ==> |db.records| <= Min(db.plan.value.maxRecords, cfg.serverMaxRecords))
            && (db.plan.None? ==> db.records == [])
  {
    hide Apply;
    Reachable(cfg, trace, steps, i);
  }

  ghost predicate AllStored(records: seq<Record>, extracted: seq<Record>) {
    forall k :: 0 <= k < |extracted| ==> HasIdentity(records, extracted[k].identity)
  }

  lemma {:induction false} InsertStores(db: Db, page: nat, extracted: seq<Record>)
    ensures var after := InsertRecords(db, page, extracted);
            AllStored(after.records, extracted) && db.records <= after.records
    decreases |extracted|
  {
    if extracted != [] {
      var r := extracted[0].(page := page);
      var db1 := if HasIdentity(db.records, r.identity) then Append(db, OnRecordDuplicate)
                 else db.(records := db.records + [r]);
      InsertStores(db1, page, extracted[1..]);
      var after := InsertRecords(db, page, extracted);
      assert HasIdentity(db1.records, r.identity) by {
        if !HasIdentity(db.records, r.identity) { assert db1.records[|db.records|] == r; }
      }
      var i :| 0 <= i < |db1.records| && db1.records[i].identity == r.identity;
      assert after.records[i].identity == r.identity;
      forall k | 0 <= k < |extracted|
        ensures HasIdentity(after.records, extracted[k].identity)
      {
        if k > 0 { assert extracted[k] == extracted[1..][k - 1]; }
      }
    }
  }

  lemma {:induction false} StoredInsertsNothing(db: Db, page: nat, extracted: seq<Record>)
    requires AllStored(db.records, extracted)
    ensures InsertRecords(db, page, extracted).records == db.records
    decreases |extracted|
  {
    if extracted != [] {
      assert HasIdentity(db.records, extracted[0].identity);
      StoredInsertsNothing(Append(db, OnRecordDuplicate), page, extracted[1..]);
    }
  }

  /** The more records are stored, the shorter the admitted prefix. */
  lemma AdmittedShrinks(cfg: Config, plan: Plan, stored: nat, more: nat, extracted: seq<Record>)
    requires stored <= more
    ensures Admitted(cfg, plan, more, extracted) <= Admitted(cfg, plan, stored, extracted)
  {
  }

  lemma StoredStays(records: seq<Record>, later: seq<Record>, extracted: seq<Record>, prefix: seq<Record>)
    requires AllStored(records, extracted) && records <= later && prefix <= extracted
    ensures AllStored(later, prefix)
  {
    forall k | 0 <= k < |prefix|
      ensures HasIdentity(later, prefix[k].identity)
    {
      assert prefix[k] == extracted[k];
      var i :| 0 <= i < |records| && records[i].identity == extracted[k].identity;
      assert later[i] == records[i];
    }
  }

  /** Whatever a later delivery would admit is already stored by the first one. */
  lemma AdmittedAgainIsStored(
    cfg: Config, plan: Plan, stored: nat, table: seq<Record>, later: seq<Record>, extracted: seq<Record>)
    requires stored <= |table| && table <= later
    requires AllStored(table, Admitted(cfg, plan, stored, extracted))
    ensures AllStored(later, Admitted(cfg, plan, |later|, extracted))
  {
    AdmittedShrinks(cfg, plan, stored, |later|, extracted);
    StoredStays(
      table, later, Admitted(cfg, plan, stored, extracted), Admitted(cfg, plan, |later|, extracted));
  }

  /**
   * Redelivering a page result adds no record at any later time, even when the first delivery was truncated by
   * the cap: `later` is any state whose record table extends the one that the first delivery left.
   */
  lemma {:induction false} ReplayAddsNothing(
    cfg: Config, plan: Plan, first: Db, later: Db, page: nat, extracted: seq<Record>)
    requires InsertRecords(first, page, Admitted(cfg, plan, |first.records|, extracted)).records <= later.records
    ensures InsertRecords(later, page, Admitted(cfg, plan, |later.records|, extracted)).records == later.records
  {
    hide InsertRecords, Admitted, AllStored;
    var once := Admitted(cfg, plan, |first.records|, extracted);
    InsertStores(first, page, once);
    AdmittedAgainIsStored(
      cfg, plan, |first.records|, InsertRecords(first, page, once).records, later.records, extracted);
    StoredInsertsNothing(later, page, Admitted(cfg, plan, |later.records|, extracted));
  }

  /** The record table after a completion: the admitted records inserted, or nothing when it did not commit. */
  lemma {:induction false} CompletionRecords(cfg: Config, db: Db, work: Work, extract: Extract, now: int)
    requires work.ExtractionWork?
    ensures var r := CompleteExtraction(cfg, db, work, extract, now);
            var inserted := InsertRecords(
                              db, work.page, Admitted(cfg, work.plan, |db.records|, extract.records)).records;
            if r.reply == Done then r.db.records == inserted else r.db.records == db.records
  {
  }

  /** The same at the level of the service call. */
  lemma ReplayedCompletion(cfg: Config, first: Db, later: Db, work: Work, extract: Extract, now: int, again: int)
    requires work.ExtractionWork? && CompleteExtraction(cfg, first, work, extract, now).reply == Done
    requires CompleteExtraction(cfg, first, work, extract, now).db.records <= later.records
    ensures CompleteExtraction(cfg, later, work, extract, again).db.records == later.records
  {
    hide CompleteExtraction, InsertRecords, Admitted;
    CompletionRecords(cfg, first, work, extract, now);
    CompletionRecords(cfg, later, work, extract, again);
    ReplayAddsNothing(cfg, work.plan, first, later, work.page, extract.records);
  }

  /**
   * Over any run of any calls: a completion that was stored once adds no record when it is delivered again at any
   * later time, whatever happened in between and even when the cap cut the first delivery off.
   */
  lemma ReplayInRun(cfg: Config, dbs: seq<Db>, steps: seq<Step>, i: nat, j: nat)
    requires CallRun(cfg, dbs, steps) && i < j < |steps|
    requires steps[i].call.CompleteExtractionCall? && steps[j].call == steps[i].call
    requires Apply(cfg, dbs[i], steps[i]).reply == Done
    ensures dbs[j + 1].records == dbs[j].records
  {
    hide Apply;
    var work, extract := steps[i].call.work, steps[i].call.extract;
    OnlyGrows(cfg, dbs, steps, i + 1, j);
    CompletionApplied(cfg, dbs[i], steps[i]);
    CompletionApplied(cfg, dbs[j], steps[j]);
    ReplayedCompletion(cfg, dbs[i], dbs[j], work, extract, steps[i].now, steps[j].now);
  }

  lemma CompletionApplied(cfg: Config, db: Db, step: Step)
    requires step.call.CompleteExtractionCall?
    ensures Apply(cfg, db, step) ==
            if step.call.work.ExtractionWork?
            then CompleteExtraction(cfg, db, step.call.work, step.call.extract, step.now) else Outcome(db, Raised)
  {
    hide CompleteExtraction, StepOk;
  }

  // Export completion

  /** Exactly one export of the format, and it is completed with a file. */
  ghost predicate ExportedOnce(db: Db, format: Format) {
    exists i: nat :: i < |db.exports| && OnlyExport(db, i, format)
  }

  ghost predicate OnlyExport(db: Db, i: nat, format: Format)
    requires i < |db.exports|
  {
    && db.exports[i].format == format && db.exports[i].status == ExportCompleted && HasFile(db.files, i)
    && forall j :: 0 <= j < |db.exports| && db.exports[j].format == format ==> j == i
  }

  /**
   * A COMPLETED job holds exactly one validation result per record and exactly one export per requested format,
   * all completed and each with a generated file, whatever was redelivered and in whatever order they completed.
   * The job leaves EXPORTING for COMPLETED at the last completion and never before.
   */
  lemma ExportCompletion(cfg: Config, trace: seq<System>, steps: seq<Step>, i: nat)
    requires QueueRun(cfg, trace, steps) && i <= |steps|
    ensures var db := trace[i].db;
            && (db.job.status == Completed ==>
                  && ResultsMatch(db.results, db.records) && Identified(db.records)
                  && |db.exports| == |db.job.formats|
                  && forall k :: 0 <= k < |db.job.formats| ==> ExportedOnce(db, db.job.formats[k]))
            && (db.job.status == Exporting || db.job.status == Completed ==>
                  (db.job.status == Completed <==> AllExported(db.exports)))
  {
    hide Apply;
    Reachable(cfg, trace, steps, i);
    var db := trace[i].db;
    if db.job.status == Completed { CompletedExports(cfg, db); }
  }

  lemma CompletedExports(cfg: Config, db: Db)
    requires DbOk(cfg, db) && db.job.status == Completed
    ensures forall k :: 0 <= k < |db.job.formats| ==> ExportedOnce(db, db.job.formats[k])
  {
    forall k | 0 <= k < |db.job.formats|
      ensures ExportedOnce(db, db.job.formats[k])
    {
      assert db.exports[k].format == db.job.formats[k];
      assert HasFile(db.files, k);
      assert OnlyExport(db, k, db.job.formats[k]);
    }
  }

  /**
   * Completing the run of a VALIDATING job fails exactly when the values of some record do not compare, and recovering
   * an EXPORTING job never fails: no result, format or operation key ever clashes.
   */
  lemma NoExportClash(cfg: Config, trace: seq<System>, steps: seq<Step>, i: nat, w: Work, pick: nat, now: int)
    requires QueueRun(cfg, trace, steps) && i <= |steps| && w.ValidationWork?
    ensures var db := trace[i].db;
            && (db.job.status == Validating && w.run < |db.runs| ==>
                  CompleteValidation(cfg, db, w, now).reply == if Comparable(cfg, db.records) then Done else Raised)
            && (db.job.status == Exporting ==> Recover(db, pick, now).reply != Raised)
  {
    hide Apply;
    Reachable(cfg, trace, steps, i);
    CompleteValidationKeeps(cfg, trace[i].db, w, now);
    RecoverKeeps(cfg, trace[i].db, pick, now);
  }

  // Values that do not compare

  lemma {:induction false} StoredRecordsCompare(cfg: Config, db: Db, run: nat, records: seq<Record>)
    requires InsertResults(cfg, db, run, records).Some?
    ensures Comparable(cfg, records)
    decreases |records|
  {
    if records != [] {
      var row := ValidationResult(run, records[0].identity);
      StoredRecordsCompare(
        cfg, Append(db.(results := db.results + [row]), OnRecordValidated(row.record)), run, records[1..]);
      ComparableHead(cfg, records);
    }
  }

  predicate HasExported(s: JobStatus) { s == Exporting || s == Completed }

  /** A VALIDATING job goes on by the end of its run only, and only when its records compare. */
  lemma ExportsAfterValidation(cfg: Config, db: Db, step: Step)
    requires JobOk(db.job) && !HasExported(db.job.status)
    requires HasExported(Apply(cfg, db, step).db.job.status)
    ensures Comparable(cfg, db.records)
  {
    hide ClaimPlanning, CompletePlanning, FailPlanning, PrepareBrowser, CompleteBrowser, FailBrowser;
    hide ClaimDiscovery, CompleteDiscovery, FailDiscovery, ClaimExtraction, CompleteExtraction, FailExtraction;
    hide ClaimValidation, CompleteValidation, FailValidation, ClaimExport, CompleteExport, FailExport;
    hide Cancel, Recover, LogGrows, Frozen;
    assert StepOk(db, Apply(cfg, db, step).db, Budget(cfg, db.job, step.call));
    assert db.job.status == Validating;
    OthersStayInValidation(cfg, db, step);
    ValidationCompares(cfg, db, step.call.work, step.now);
  }

  lemma ValidationCompares(cfg: Config, db: Db, work: Work, now: int)
    requires work.ValidationWork? && HasExported(CompleteValidation(cfg, db, work, now).db.job.status)
    requires db.job.status == Validating
    ensures Comparable(cfg, db.records)
  {
    hide StepOk, LogGrows, InsertResults, InsertExports;
    if InsertResults(cfg, db, work.run, db.records).Some? { StoredRecordsCompare(cfg, db, work.run, db.records); }
  }

  lemma OthersStayInValidation(cfg: Config, db: Db, step: Step)
    requires db.job.status == Validating && HasExported(Apply(cfg, db, step).db.job.status)
    ensures step.call.CompleteValidationCall? && step.call.work.ValidationWork?
    ensures Apply(cfg, db, step) == CompleteValidation(cfg, db, step.call.work, step.now)
  {
    hide CompleteValidation, StepOk, LogGrows, RetryOrFail, MaxSequence, StorePlan, StoreCapture, Explore, StorePage;
    hide StoreFile;
    if step.call.FailValidationCall? {
      FailureStaysInValidation(db, step.call.error, cfg.validationMaxAttempts, step.now);
    }
  }

  lemma FailureStaysInValidation(db: Db, error: Failure, budget: nat, now: int)
    requires db.job.status == Validating
    ensures !HasExported(FailValidation(db, error, budget, now).db.job.status)
  {
    hide RetryOrFail, StepOk, LogGrows;
  }

  /**
   * Over any run of any calls: once a record is stored whose values do not compare, the job never gets past VALIDATING.
   * With Liveness.EveryQuietRunCanComplete this is exact: a failure-free run can be completed if and only if the
   * records that it has stored compare.
   */
  lemma {:induction false} IncomparableNeverExports(cfg: Config, dbs: seq<Db>, steps: seq<Step>, i: nat, j: nat)
    requires CallRun(cfg, dbs, steps) && i <= j <= |steps|
    requires !HasExported(dbs[i].job.status) && !Comparable(cfg, dbs[i].records)
    ensures !HasExported(dbs[j].job.status)
    decreases j - i
  {
    hide Apply;
    if i < j {
      IncomparableNeverExports(cfg, dbs, steps, i, j - 1);
      OnlyGrows(cfg, dbs, steps, i, j - 1);
      var k :| 0 <= k < |dbs[i].records| && !cfg.compares(dbs[i].records[k].payload);
      assert !cfg.compares(dbs[j - 1].records[k].payload);
      RunIsSound(cfg, dbs, steps, j - 1);
      assert dbs[j] == Apply(cfg, dbs[j - 1], steps[j - 1]).db;
      if HasExported(dbs[j].job.status) { ExportsAfterValidation(cfg, dbs[j - 1], steps[j - 1]); }
    }
  }

  // Export keys

  predicate SameExport(k: Key, l: Key) { k.ExportKey? && l.ExportKey? && k.exportId == l.exportId }

  /** Attempts never fall, and a new key of an export carries a number above all its earlier ones. */
  ghost predicate KeysGrow(before: Db, after: Db) {
    && |before.exports| <= |after.exports|
    && (forall i :: 0 <= i < |before.exports| ==> before.exports[i].attempt <= after.exports[i].attempt)
    && (forall k, l :: k in after.outbox && l in before.outbox && k !in before.outbox && SameExport(k, l) ==>
          l.attempt < k.attempt)
  }

  /** Before there are exports there is nothing to compare with. */
  lemma KeysGrowFromNothing(cfg: Config, db: Db, after: Db)
    requires DbOk(cfg, db) && db.exports == []
    ensures KeysGrow(db, after)
  {
  }

  predicate ExportsKept(before: Db, after: Db) {
    after.outbox == before.outbox && after.exports == before.exports && after.files == before.files
  }

  lemma EarlyKeepsExports(cfg: Config, db: Db, step: Step)
    requires DbOk(cfg, db) && db.exports != []
    requires PlanningOrBrowser(step.call) || step.call.CancelCall?
    ensures ExportsKept(db, Apply(cfg, db, step).db)
  {
    hide ClaimDiscovery, CompleteDiscovery, FailDiscovery, ClaimExtraction, CompleteExtraction, FailExtraction;
    hide ClaimValidation, CompleteValidation, FailValidation, ClaimExport, CompleteExport, FailExport;
    hide Recover, StepOk, LogGrows, StorePlan, StoreCapture, RetryOrFail;
  }

  lemma PageKeepsExports(cfg: Config, db: Db, step: Step)
    requires DbOk(cfg, db) && db.exports != []
    requires CrawlCall(step.call) || ExtractOrValidate(step.call)
    ensures ExportsKept(db, Apply(cfg, db, step).db)
  {
    hide ClaimPlanning, CompletePlanning, FailPlanning, PrepareBrowser, CompleteBrowser, FailBrowser;
    hide Cancel, ClaimExport, CompleteExport, FailExport, Recover, StepOk, LogGrows, RetryOrFail;
    hide Explore, StorePage, StoreValidation;
  }

  /** A change of one export row: `row` replaces the row of `id`, and `files` may have grown. */
  ghost predicate RowChanged(before: Db, after: Db, id: nat) {
    && id < |before.exports|
    && after.outbox == before.outbox
    && |after.exports| == |before.exports|
    && after.exports == before.exports[id := after.exports[id]]
    && before.exports[id].attempt <= after.exports[id].attempt
  }

  lemma ClaimExportChange(db: Db, cmd: Command, now: int, until: int)
    ensures var after := ClaimExport(db, cmd, now, until).db;
            || ExportsKept(db, after)
            || (cmd.exportId.Some? && RowChanged(db, after, cmd.exportId.value) && after.files == db.files
                && db.exports[cmd.exportId.value].status != ExportCompleted
                && after.exports[cmd.exportId.value].status != ExportCompleted)
  {
  }

  lemma CompleteExportChange(db: Db, work: Work, key: string, now: int)
    requires work.ExportWork?
    ensures var after := CompleteExport(db, work, key, now).db;
            || ExportsKept(db, after)
            || (RowChanged(db, after, work.exportId)
                && after.files == db.files + [GeneratedFile(work.exportId, key)]
                && db.exports[work.exportId].status != ExportCompleted
                && after.exports[work.exportId].status == ExportCompleted)
  {
  }

  /** A failure report hits a row that is already COMPLETED: fail_export does not guard against it. */
  predicate StaleFailure(db: Db, call: Call) {
    && call.FailExportCall? && db.job.status == Exporting && !db.job.cancelRequested
    && call.work.cmd.exportId.Some? && call.work.cmd.exportId.value < |db.exports|
    && db.exports[call.work.cmd.exportId.value].status == ExportCompleted
  }

  lemma FailExportChange(db: Db, work: Work, error: Failure, budget: nat, now: int)
    ensures var after := FailExport(db, work.cmd, error, budget, now).db;
            || (ExportsKept(db, after) && !StaleFailure(db, FailExportCall(work, error)))
            || (work.cmd.exportId.Some? && RowChanged(db, after, work.cmd.exportId.value) && after.files == db.files
                && db.job.status == Exporting && after.exports[work.cmd.exportId.value].status != ExportCompleted
                && (after.job.status == Exporting && !db.job.cancelRequested ==>
                      error.retryable && db.exports[work.cmd.exportId.value].attempt < budget))
  {
    hide StepOk, LogGrows, EventFor, MaxSequence;
  }

  /** Recovery requeues one running export under a fresh key. */
  lemma RecoverExportChange(cfg: Config, db: Db, pick: nat, now: int)
    requires DbOk(cfg, db) && db.exports != []
    ensures var after := Recover(db, pick, now).db;
            || ExportsKept(db, after)
            || (pick < |db.exports| == |after.exports|
                && after.exports == db.exports[pick := after.exports[pick]] && after.files == db.files
                && db.exports[pick].status == ExportRunning && after.exports[pick].status == ExportQueued
                && db.exports[pick].attempt < after.exports[pick].attempt
                && after.outbox.Keys == db.outbox.Keys + {ExportKey(pick, after.exports[pick].attempt)})
  {
    hide TablesOk, Numbered, JobOk, Least, Before, RecoverDiscovery, RecoverPhase;
  }

  lemma ExportKeyStep(cfg: Config, trace: seq<System>, steps: seq<Step>, i: nat)
    requires QueueRun(cfg, trace, steps) && i < |steps|
    ensures KeysGrow(trace[i].db, trace[i + 1].db)
  {
    hide ClaimPlanning, CompletePlanning, FailPlanning, PrepareBrowser, CompleteBrowser, FailBrowser;
    hide Cancel, ClaimDiscovery, CompleteDiscovery, FailDiscovery, ClaimExtraction, CompleteExtraction;
    hide FailExtraction, ClaimValidation, CompleteValidation, FailValidation, ClaimExport, CompleteExport;
    hide FailExport, Recover;
    hide StageOk, PagesOk, RecordsOk, ExportsOk, FilesOk, OutboxOk, JobOk, Numbered, FormatsOk, WorksOk, StepOk;
    Reachable(cfg, trace, steps, i);
    var db := trace[i].db;
    var now := steps[i].now;
    if db.exports == [] {
      KeysGrowFromNothing(cfg, db, trace[i + 1].db);
    } else {
      match steps[i].call
      case ClaimExportCall(cmd, until) => ClaimExportChange(db, cmd, now, until);
      case CompleteExportCall(w, key) => CompleteExportChange(db, w, key, now);
      case FailExportCall(w, e) => FailExportChange(db, w, e, cfg.exportMaxRetries, now);
      case RecoverCall(pick) => RecoverExportChange(cfg, db, pick, now);
      case _ => OthersKeepExports(cfg, db, steps[i]);
    }
  }

  /**
   * Export key freshness: between any two reachable states of a run no export's attempt falls, and every key that an
   * export has gained has a larger number than all the keys it ever had before.
   */
  lemma {:induction false} ExportKeyFreshness(cfg: Config, trace: seq<System>, steps: seq<Step>, i: nat, j: nat)
    requires QueueRun(cfg, trace, steps) && i <= j <= |steps|
    ensures KeysGrow(trace[i].db, trace[j].db) && Extends(trace[i].db.outbox, trace[j].db.outbox)
    decreases j - i
  {
    hide Apply;
    QueueIsCalls(cfg, trace, steps);
    OnlyGrows(cfg, States(trace), steps, i, j);
    if i < j {
      ExportKeyFreshness(cfg, trace, steps, i, j - 1);
      ExportKeyStep(cfg, trace, steps, j - 1);
    }
  }

  lemma OthersKeepExports(cfg: Config, db: Db, step: Step)
    requires DbOk(cfg, db) && db.exports != []
    requires !ExportCall(step.call) && !step.call.RecoverCall?
    ensures ExportsKept(db, Apply(cfg, db, step).db)
  {
    hide Apply;
    if PlanningOrBrowser(step.call) || step.call.CancelCall? {
      EarlyKeepsExports(cfg, db, step);
    } else {
      PageKeepsExports(cfg, db, step);
    }
  }
}
