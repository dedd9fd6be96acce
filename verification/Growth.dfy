/** What only ever grows along a run: the records, the validation runs and the outbox; and which keys are still new. */
module Growth {
  import opened Wrappers
  import opened Domain
  import opened Rows
  import opened Lifecycle
  import opened Frontier
  import opened Stages
  import opened Protocol
  import opened Invariants
  import opened Runs

  /** What the step says that inserts the key. */
  predicate NewKey(before: Db, after: Db, k: Key) {
    match k
    case PhaseKey(phase, n) => n == after.job.attempt || (phase == BrowserPhase && n == 1)
    case ExtractionPageKey(_, _) => before.job.status == Extracting
    case ValidationKey(run) => run < |after.runs|
    case _ => true
  }

  /** Records, runs and commands are never changed or removed by a step, and an inserted key is numbered. */
  ghost predicate Grows(before: Db, after: Db) {
    && before.records <= after.records
    && |before.runs| <= |after.runs|
    && Extends(before.outbox, after.outbox)
    && forall k <- after.outbox :: k in before.outbox || NewKey(before, after, k)
  }

  predicate IsCompletion(c: Call) {
    || c.CompletePlanningCall? || c.CompleteBrowserCall? || c.CompleteDiscoveryCall?
    || c.CompleteExtractionCall? || c.CompleteValidationCall? || c.CompleteExportCall?
  }

  predicate IsFailure(c: Call) {
    || c.FailPlanningCall? || c.FailBrowserCall? || c.FailDiscoveryCall?
    || c.FailExtractionCall? || c.FailValidationCall? || c.FailExportCall?
  }

  lemma ClaimGrows(cfg: Config, db: Db, step: Step)
    requires IsClaim(step.call)
    ensures Grows(db, Apply(cfg, db, step).db)
  {
    hide CompletePlanning, FailPlanning, CompleteBrowser, FailBrowser, CompleteDiscovery, FailDiscovery;
    hide CompleteExtraction, FailExtraction, CompleteValidation, FailValidation, CompleteExport, FailExport;
    hide Cancel, Recover, StepOk, LogGrows, MaxSequence, Least, Moved;
  }

  lemma FailureGrows(cfg: Config, db: Db, step: Step)
    requires IsFailure(step.call)
    ensures Grows(db, Apply(cfg, db, step).db)
  {
    hide ClaimPlanning, CompletePlanning, PrepareBrowser, CompleteBrowser, ClaimDiscovery, CompleteDiscovery;
    hide ClaimExtraction, CompleteExtraction, ClaimValidation, CompleteValidation, ClaimExport, CompleteExport;
    hide Cancel, Recover, StepOk, LogGrows, MaxSequence, RetryOrFail, Moved, FailExport, FailDiscovery, FailExtraction;
    match step.call
    case FailExportCall(w, e) => ReportGrows(db, w.cmd, e, cfg.exportMaxRetries, step.now);
    case FailDiscoveryCall(w, e) => CrawlFailureGrows(db, w.cmd, e, cfg.plannerMaxRetries, step.now);
    case FailExtractionCall(w, e) => ExtractionFailureGrows(db, w.cmd, e, cfg.extractionMaxRetries, step.now);
    case _ =>
  }

  lemma CrawlFailureGrows(db: Db, cmd: Command, error: Failure, budget: nat, now: int)
    ensures Grows(db, FailDiscovery(db, cmd, error, budget, now).db)
  {
    hide StepOk, LogGrows, MaxSequence, RetryOrFail, Moved;
  }

  lemma ExtractionFailureGrows(db: Db, cmd: Command, error: Failure, budget: nat, now: int)
    ensures Grows(db, FailExtraction(db, cmd, error, budget, now).db)
  {
    hide StepOk, LogGrows, MaxSequence, RetryOrFail, Moved;
  }

  lemma ReportGrows(db: Db, cmd: Command, error: Failure, budget: nat, now: int)
    ensures Grows(db, FailExport(db, cmd, error, budget, now).db)
  {
    hide StepOk, LogGrows, MaxSequence, Moved;
  }

  lemma CaptureGrows(cfg: Config, db: Db, step: Step)
    requires step.call.CompletePlanningCall? || step.call.CompleteBrowserCall?
    ensures Grows(db, Apply(cfg, db, step).db)
  {
    hide ClaimPlanning, FailPlanning, PrepareBrowser, FailBrowser;
    hide ClaimDiscovery, CompleteDiscovery, FailDiscovery, ClaimExtraction, CompleteExtraction, FailExtraction;
    hide ClaimValidation, CompleteValidation, FailValidation, ClaimExport, CompleteExport, FailExport;
    hide Cancel, Recover, StepOk, LogGrows, MaxSequence, CaptureRows, SourceInventory, Moved;
  }

  lemma VisitGrows(cfg: Config, db: Db, work: Work, capture: Capture, now: int)
    requires work.DiscoveryWork?
    ensures Grows(db, CompleteDiscovery(cfg, db, work, capture, now).db)
  {
    hide StepOk, LogGrows, MaxSequence, Expand, Least, Moved;
  }

  lemma ExtractGrows(cfg: Config, db: Db, work: Work, extract: Extract, now: int)
    requires work.ExtractionWork?
    ensures Grows(db, CompleteExtraction(cfg, db, work, extract, now).db)
  {
    hide StepOk, LogGrows, AdvanceExtraction, InsertRecords, AppendMany, Moved;
    if db.job.status == Extracting && !db.job.cancelRequested && work.page < |db.pages| {
      var db1 := Release(StoreExtract(cfg, db, work.plan, work.page, extract));
      assert db.records <= db1.records && db1.outbox == db.outbox && db1.runs == db.runs;
      AdvanceGrows(db1, work.plan, now);
    }
  }

  lemma AdvanceGrows(db: Db, plan: Plan, now: int)
    requires db.job.status == Extracting
    ensures AdvanceExtraction(db, plan, now).Some? ==> Grows(db, AdvanceExtraction(db, plan, now).value)
  {
    hide LogGrows, MaxSequence, Least, Moved;
  }

  lemma ValidationGrows(cfg: Config, db: Db, work: Work, now: int)
    requires work.ValidationWork?
    ensures Grows(db, CompleteValidation(cfg, db, work, now).db)
  {
    hide StepOk, LogGrows, InsertExports, CloseRun, Moved;
    if work.run < |db.runs| {
      var db1 := CloseRun(cfg, db, work.run, now);
      if db1.Some? {
        CloseKeepsRuns(cfg, db, work.run, now);
        ExportsGrow(db1.value, work.run, db1.value.job.formats);
      }
    }
  }

  lemma CloseKeepsRuns(cfg: Config, db: Db, run: nat, now: int)
    requires run < |db.runs| && CloseRun(cfg, db, run, now).Some?
    ensures var r := CloseRun(cfg, db, run, now).value;
            |r.runs| == |db.runs| && r.outbox == db.outbox && r.records == db.records
  {
    hide LogGrows, InsertResults, MaxSequence, Moved;
  }

  lemma {:induction false} ExportsGrow(db: Db, run: nat, formats: seq<Format>)
    ensures var r := InsertExports(db, run, formats);
            r.Some? ==>
              && Extends(db.outbox, r.value.outbox)
              && forall k <- r.value.outbox :: k in db.outbox || k.ExportKey?
    decreases |formats|
  {
    if formats != [] && !HasExport(db.exports, formats[0], run) {
      var id := |db.exports|;
      var db1 := Enqueue(
        db.(exports := db.exports + [Export(formats[0], run, ExportQueued, 0)]), ExportCommand(id, 1, 1, run));
      if db1.Some? { ExportsGrow(db1.value, run, formats[1..]); }
    }
  }

  lemma CompletionGrows(cfg: Config, db: Db, step: Step)
    requires IsCompletion(step.call)
    ensures Grows(db, Apply(cfg, db, step).db)
  {
    hide ClaimPlanning, CompletePlanning, FailPlanning, PrepareBrowser, CompleteBrowser, FailBrowser;
    hide ClaimDiscovery, CompleteDiscovery, FailDiscovery, ClaimExtraction, CompleteExtraction, FailExtraction;
    hide ClaimValidation, CompleteValidation, FailValidation, ClaimExport, FailExport;
    hide Cancel, Recover, StepOk, LogGrows, MaxSequence, Moved;
    match step.call
    case CompleteDiscoveryCall(w, capture) => if w.DiscoveryWork? { VisitGrows(cfg, db, w, capture, step.now); }
    case CompleteExtractionCall(w, extract) => if w.ExtractionWork? { ExtractGrows(cfg, db, w, extract, step.now); }
    case CompleteValidationCall(w) => if w.ValidationWork? { ValidationGrows(cfg, db, w, step.now); }
    case CompleteExportCall(_, _) =>
    case _ => CaptureGrows(cfg, db, step);
  }

  lemma RecoveryGrows(cfg: Config, db: Db, step: Step)
    requires step.call.CancelCall? || step.call.RecoverCall?
    ensures Grows(db, Apply(cfg, db, step).db)
  {
    hide ClaimPlanning, CompletePlanning, FailPlanning, PrepareBrowser, CompleteBrowser, FailBrowser;
    hide ClaimDiscovery, CompleteDiscovery, FailDiscovery, ClaimExtraction, CompleteExtraction, FailExtraction;
    hide ClaimValidation, CompleteValidation, FailValidation, ClaimExport, CompleteExport, FailExport;
    hide StepOk, LogGrows, MaxSequence, Least, Moved;
  }

  lemma StepGrows(cfg: Config, db: Db, step: Step)
    ensures Grows(db, Apply(cfg, db, step).db)
  {
    hide Apply, Grows;
    if IsClaim(step.call) {
      ClaimGrows(cfg, db, step);
    } else if IsCompletion(step.call) {
      CompletionGrows(cfg, db, step);
    } else if IsFailure(step.call) {
      FailureGrows(cfg, db, step);
    } else {
      RecoveryGrows(cfg, db, step);
    }
  }

  /** Between any two states of any run, no record and no command is changed or removed. */
  lemma {:induction false} OnlyGrows(cfg: Config, dbs: seq<Db>, steps: seq<Step>, i: nat, j: nat)
    requires CallRun(cfg, dbs, steps) && i <= j <= |steps|
    ensures dbs[i].records <= dbs[j].records && Extends(dbs[i].outbox, dbs[j].outbox)
    decreases j - i
  {
    hide Apply;
    if i < j {
      OnlyGrows(cfg, dbs, steps, i, j - 1);
      assert dbs[j] == Apply(cfg, dbs[j - 1], steps[j - 1]).db;
      StepGrows(cfg, dbs[j - 1], steps[j - 1]);
    }
  }

  /**
   * Recovery keys are numbered by counted attempts, next to the first keys of planning and browser, and validation
   * keys by runs.
   */
  ghost predicate KeysCounted(db: Db) {
    forall k <- db.outbox ::
      && (k.PhaseKey? ==> k.attempt <= if k.phase == DiscoveryPhase then db.job.attempt else Max(1, db.job.attempt))
      && (k.ValidationKey? ==> k.run < |db.runs|)
  }

  /** So the key of the next recovery of the crawl, and of the next validation run, is new in every state of a run. */
  lemma {:induction false} KeysAreCounted(cfg: Config, dbs: seq<Db>, steps: seq<Step>, i: nat)
    requires CallRun(cfg, dbs, steps) && i <= |steps|
    ensures KeysCounted(dbs[i])
  {
    hide Apply;
    if i > 0 {
      KeysAreCounted(cfg, dbs, steps, i - 1);
      assert dbs[i] == Apply(cfg, dbs[i - 1], steps[i - 1]).db;
      StepGrows(cfg, dbs[i - 1], steps[i - 1]);
    }
  }

  /** The states of the database along a run of the queue. */
  function States(trace: seq<System>): (dbs: seq<Db>)
    ensures |dbs| == |trace| && forall i :: 0 <= i < |trace| ==> dbs[i] == trace[i].db
  {
    seq(|trace|, i requires 0 <= i < |trace| => trace[i].db)
  }

  /** A run of the queue is a run of calls. */
  lemma QueueIsCalls(cfg: Config, trace: seq<System>, steps: seq<Step>)
    requires QueueRun(cfg, trace, steps)
    ensures CallRun(cfg, States(trace), steps)
  {
    hide Apply;
    var dbs := States(trace);
    forall i | 0 <= i < |steps|
      ensures dbs[i + 1] == Apply(cfg, dbs[i], steps[i]).db
    {
      assert Next(cfg, trace[i], steps[i], trace[i + 1]);
    }
  }

  /** Every work that may still act came from a command that is in the outbox. */
  lemma {:induction false} WorksAreCommanded(cfg: Config, trace: seq<System>, steps: seq<Step>, i: nat)
    requires QueueRun(cfg, trace, steps) && i <= |steps|
    ensures forall w <- trace[i].works :: w.cmd.key in trace[i].db.outbox && trace[i].db.outbox[w.cmd.key] == w.cmd
  {
    hide Apply;
    if i > 0 {
      WorksAreCommanded(cfg, trace, steps, i - 1);
      var s, step, t := trace[i - 1], steps[i - 1], trace[i];
      assert Next(cfg, s, step, t);
      StepGrows(cfg, s.db, step);
      HandsOutTheCommand(cfg, s, step);
    }
  }

  /** A granted claim hands out the command it was delivered with. */
  lemma HandsOutTheCommand(cfg: Config, s: System, step: Step)
    requires Legit(s, step.call)
    ensures forall w <- HandedOut(step.call, Apply(cfg, s.db, step).reply) ::
              w.cmd.key in s.db.outbox && s.db.outbox[w.cmd.key] == w.cmd
  {
    hide CompletePlanning, FailPlanning, CompleteBrowser, FailBrowser, CompleteDiscovery, FailDiscovery;
    hide CompleteExtraction, FailExtraction, CompleteValidation, FailValidation, CompleteExport, FailExport;
    hide Cancel, Recover, StepOk;
  }
}
