/** The job as a protocol: every service call is one atomic step, and a run is any sequence of steps. */
module Protocol {
  import opened Wrappers
  import opened Domain
  import opened Rows
  import opened Lifecycle
  import opened Frontier
  import opened Stages

  datatype Call =
    | ClaimPlanningCall(cmd: Command, until: int)
    | CompletePlanningCall(work: Work, plan: Plan)
    | FailPlanningCall(work: Work, error: Failure)
    | PrepareBrowserCall(cmd: Command)
    | CompleteBrowserCall(work: Work, finalUrl: Url, lifecycleEvents: nat)
    | FailBrowserCall(work: Work, error: Failure, cancelled: bool)
    | ClaimDiscoveryCall(cmd: Command, until: int)
    | CompleteDiscoveryCall(work: Work, capture: Capture)
    | FailDiscoveryCall(work: Work, error: Failure)
    | ClaimExtractionCall(cmd: Command, until: int)
    | CompleteExtractionCall(work: Work, extract: Extract)
    | FailExtractionCall(work: Work, error: Failure)
    | ClaimValidationCall(cmd: Command, until: int)
    | CompleteValidationCall(work: Work)
    | FailValidationCall(work: Work, error: Failure)
    | ClaimExportCall(cmd: Command, until: int)
    | CompleteExportCall(work: Work, storageKey: string)
    | FailExportCall(work: Work, error: Failure)
    | CancelCall
    | RecoverCall(pick: nat)

  datatype Step = Step(call: Call, now: int)

  // Kinds of calls

  predicate IsClaim(call: Call) {
    || call.ClaimPlanningCall? || call.PrepareBrowserCall? || call.ClaimDiscoveryCall?
    || call.ClaimExtractionCall? || call.ClaimValidationCall? || call.ClaimExportCall?
  }

  predicate PlanningOrBrowser(call: Call) {
    || call.ClaimPlanningCall? || call.CompletePlanningCall? || call.FailPlanningCall?
    || call.PrepareBrowserCall? || call.CompleteBrowserCall? || call.FailBrowserCall?
  }

  predicate CrawlCall(call: Call) {
    call.ClaimDiscoveryCall? || call.CompleteDiscoveryCall? || call.FailDiscoveryCall?
  }

  predicate ExtractOrValidate(call: Call) {
    || call.ClaimExtractionCall? || call.CompleteExtractionCall? || call.FailExtractionCall?
    || call.ClaimValidationCall? || call.CompleteValidationCall? || call.FailValidationCall?
  }

  predicate ExportCall(call: Call) { call.ClaimExportCall? || call.CompleteExportCall? || call.FailExportCall? }

  /** The attempt budget that a call is checked against; 0 when the call never counts an attempt. */
  function Budget(cfg: Config, job: Job, call: Call): nat {
    match call
    case FailPlanningCall(_, _) => cfg.plannerMaxRetries
    case FailDiscoveryCall(_, _) => cfg.plannerMaxRetries
    case FailExtractionCall(_, _) => cfg.extractionMaxRetries
    case FailValidationCall(_, _) => cfg.validationMaxAttempts
    case RecoverCall(_) => job.maxAttempts
    case _ => 0
  }

  function Apply(cfg: Config, db: Db, step: Step): (r: Outcome)
    ensures StepOk(db, r.db, Budget(cfg, db.job, step.call))
  {
    hide ClaimPlanning, CompletePlanning, FailPlanning, PrepareBrowser, CompleteBrowser, FailBrowser;
    hide ClaimDiscovery, CompleteDiscovery, FailDiscovery, ClaimExtraction, CompleteExtraction, FailExtraction;
    hide ClaimValidation, CompleteValidation, FailValidation, ClaimExport, CompleteExport, FailExport;
    hide Cancel, Recover;
    var now := step.now;
    match step.call
    case ClaimPlanningCall(cmd, until) => ClaimPlanning(db, cmd, now, until)
    case CompletePlanningCall(_, plan) => CompletePlanning(db, plan, now)
    case FailPlanningCall(_, error) => FailPlanning(db, error, cfg.plannerMaxRetries, now)
    case PrepareBrowserCall(cmd) => PrepareBrowser(db, cmd, now)
    case CompleteBrowserCall(_, finalUrl, n) => CompleteBrowser(cfg, db, finalUrl, n, now)
    case FailBrowserCall(work, error, cancelled) => FailBrowser(db, work.cmd, error, cancelled, now)
    case ClaimDiscoveryCall(cmd, until) => ClaimDiscovery(db, cmd, now, until)
    case CompleteDiscoveryCall(work, capture) =>
      if work.DiscoveryWork? then CompleteDiscovery(cfg, db, work, capture, now) else Outcome(db, Raised)
    case FailDiscoveryCall(work, error) => FailDiscovery(db, work.cmd, error, cfg.plannerMaxRetries, now)
    case ClaimExtractionCall(cmd, until) => ClaimExtraction(db, cmd, now, until)
    case CompleteExtractionCall(work, extract) =>
      if work.ExtractionWork? then CompleteExtraction(cfg, db, work, extract, now) else Outcome(db, Raised)
    case FailExtractionCall(work, error) => FailExtraction(db, work.cmd, error, cfg.extractionMaxRetries, now)
    case ClaimValidationCall(cmd, until) => ClaimValidation(db, cmd, now, until)
    case CompleteValidationCall(work) =>
      if work.ValidationWork? then CompleteValidation(cfg, db, work, now) else Outcome(db, Raised)
    case FailValidationCall(_, error) => FailValidation(db, error, cfg.validationMaxAttempts, now)
    case ClaimExportCall(cmd, until) => ClaimExport(db, cmd, now, until)
    case CompleteExportCall(work, storageKey) =>
      if work.ExportWork? then CompleteExport(db, work, storageKey, now) else Outcome(db, Raised)
    case FailExportCall(work, error) => FailExport(db, work.cmd, error, cfg.exportMaxRetries, now)
    case CancelCall => Cancel(db, now)
    case RecoverCall(pick) => Recover(db, pick, now)
  }

  lemma RecoveryIs(cfg: Config, db: Db, step: Step)
    requires step.call.RecoverCall?
    ensures Apply(cfg, db, step) == Recover(db, step.call.pick, step.now)
  {
    hide Recover, StepOk;
  }
}
