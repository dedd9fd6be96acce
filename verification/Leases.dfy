/** Leases: whom a planning lease keeps out, and what can be claimed after a retry or a recovery. */
module Leases {
  import opened Wrappers
  import opened Domain
  import opened Rows
  import opened Lifecycle
  import opened Discovery
  import opened Frontier
  import opened Stages
  import opened Protocol
  import opened Invariants
  import opened Runs
  import opened Growth
  import opened SkipCauses

  // Planning: one worker at a time

  predicate PlansUntil(db: Db, until: int) { db.job.status == Planning && db.job.lease == Some(until) }

  predicate PastPlanning(s: JobStatus) { s != Queued && s != Planning }

  predicate GrantsPlanning(cfg: Config, db: Db, step: Step) {
    step.call.ClaimPlanningCall? && Apply(cfg, db, step).reply.Claimed?
  }

  /**
   * The two calls that take a running lease away in PLANNING, as guards on the row: a retryable failure of planning
   * within the budget, and a retryable browser failure, which is recorded in any state.
   */
  predicate TakesLease(cfg: Config, db: Db, step: Step) {
    match step.call
    case FailPlanningCall(_, error) => error.retryable && db.job.attempt < cfg.plannerMaxRetries
    case FailBrowserCall(work, error, cancelled) =>
      error.retryable && !cancelled && work.cmd.attempt < db.job.maxAttempts
    case _ => false
  }

  lemma PlanningStep(cfg: Config, db: Db, step: Step, until: int)
    requires PlansUntil(db, until) && JobOk(db.job) && step.now < until && !TakesLease(cfg, db, step)
    requires !step.call.RecoverCall?
    ensures var after := Apply(cfg, db, step).db; PlansUntil(after, until) || PastPlanning(after.job.status)
    ensures !GrantsPlanning(cfg, db, step)
  {
    hide StepOk, LogGrows, MaxSequence, StoreCapture, Explore, StorePage, StoreValidation, StoreFile, Recover;
  }

  lemma RecoveryWaits(cfg: Config, db: Db, step: Step, until: int)
    requires PlansUntil(db, until) && step.now < until && step.call.RecoverCall?
    ensures Apply(cfg, db, step).db == db
  {
    hide StepOk, LogGrows, MaxSequence;
    RecoveryIs(cfg, db, step);
  }

  lemma PastStays(cfg: Config, db: Db, step: Step)
    requires PastPlanning(db.job.status) && JobOk(db.job)
    ensures PastPlanning(Apply(cfg, db, step).db.job.status)
  {
    hide Apply;
    assert StepOk(db, Apply(cfg, db, step).db, Budget(cfg, db.job, step.call));
  }

  lemma GrantStarts(cfg: Config, db: Db, step: Step)
    requires GrantsPlanning(cfg, db, step)
    ensures PlansUntil(Apply(cfg, db, step).db, step.call.until) && !PastPlanning(db.job.status)
  {
    hide StepOk, LogGrows, MaxSequence;
  }

  ghost predicate TakenBetween(cfg: Config, dbs: seq<Db>, steps: seq<Step>, i: nat, j: nat)
    requires |dbs| == |steps| + 1 && j <= |steps|
  {
    exists k :: i < k < j && dbs[k].job.status == Planning && TakesLease(cfg, dbs[k], steps[k])
  }

  lemma {:induction false} LeaseHolds(cfg: Config, dbs: seq<Db>, steps: seq<Step>, i: nat, j: nat)
    requires CallRun(cfg, dbs, steps) && i < j <= |steps| && GrantsPlanning(cfg, dbs[i], steps[i])
    requires forall k :: i < k < j ==> steps[k].now < steps[i].call.until
    ensures TakenBetween(cfg, dbs, steps, i, j) || PlansUntil(dbs[j], steps[i].call.until)
            || PastPlanning(dbs[j].job.status)
    decreases j
  {
    hide Apply, TakesLease;
    assert dbs[j] == Apply(cfg, dbs[j - 1], steps[j - 1]).db;
    if j == i + 1 {
      GrantStarts(cfg, dbs[i], steps[i]);
    } else {
      var db, step, until := dbs[j - 1], steps[j - 1], steps[i].call.until;
      LeaseHolds(cfg, dbs, steps, i, j - 1);
      RunIsSound(cfg, dbs, steps, j - 1);
      if PastPlanning(db.job.status) {
        PastStays(cfg, db, step);
      } else if PlansUntil(db, until) && !TakesLease(cfg, db, step) {
        if step.call.RecoverCall? { RecoveryWaits(cfg, db, step, until); } else { PlanningStep(cfg, db, step, until); }
      }
    }
  }

  /**
   * Over any run of any calls with clocks that do not go back: while the lease of a planning worker runs, no second
   * planning claim is granted, except after one of those two calls took the lease away.
   */
  lemma PlanningIsExclusive(cfg: Config, dbs: seq<Db>, steps: seq<Step>, i: nat, j: nat)
    requires CallRun(cfg, dbs, steps) && i < j < |steps|
    requires forall a, b :: 0 <= a < b < |steps| ==> steps[a].now <= steps[b].now
    requires GrantsPlanning(cfg, dbs[i], steps[i]) && steps[j].now < steps[i].call.until
    ensures GrantsPlanning(cfg, dbs[j], steps[j]) ==> TakenBetween(cfg, dbs, steps, i, j)
  {
    var until := steps[i].call.until;
    hide Apply, TakesLease, GrantsPlanning;
    LeaseHolds(cfg, dbs, steps, i, j);
    if GrantsPlanning(cfg, dbs[j], steps[j]) {
      GrantStarts(cfg, dbs[j], steps[j]);
      if PlansUntil(dbs[j], until) { ClaimWaits(cfg, dbs[j], steps[j], until); }
    }
  }

  lemma ClaimWaits(cfg: Config, db: Db, step: Step, until: int)
    requires PlansUntil(db, until) && step.now < until
    ensures !GrantsPlanning(cfg, db, step)
  {
    hide StepOk, LogGrows, MaxSequence;
  }

  // Retries

  /** The redelivered command of a granted retry is granted, for the same work where it names one. */
  ghost predicate Regranted(db: Db, call: Call, now: int, until: int) {
    match call
    case FailPlanningCall(w, _) => ClaimPlanning(db, w.cmd, now, until).reply == Claimed(PlanningWork(w.cmd))
    case FailDiscoveryCall(w, _) =>
      && w.cmd.page.Some? && db.plan.Some?
      && ClaimDiscovery(db, w.cmd, now, until).reply == Claimed(DiscoveryWork(w.cmd, w.cmd.page.value, db.plan.value))
    case FailExtractionCall(w, _) =>
      && db.plan.Some?
      && var reply := ClaimExtraction(db, w.cmd, now, until).reply;
         if w.cmd.page.Some? then reply == Claimed(ExtractionWork(w.cmd, w.cmd.page.value, db.plan.value))
         else reply.Claimed? <==> exists p :: 0 <= p < |db.pages| && NeedsExtraction(db.pages[p])
    case FailValidationCall(w, _) =>
      && db.plan.Some?
      && ClaimValidation(db, w.cmd, now, until).reply == Claimed(ValidationWork(w.cmd, 0, db.plan.value))
    case FailExportCall(w, _) =>
      && w.cmd.exportId.Some?
      && ClaimExport(db, w.cmd, now, until).reply == Claimed(ExportWork(w.cmd, w.cmd.exportId.value))
    case _ => false
  }

  /** What a run knows about its commands and workers beyond the invariant. */
  ghost predicate Named(s: System) {
    && (forall k <- s.db.outbox :: k.ExtractionPageKey? ==>
          && !BeforeExtraction(s.db.job.status)
          && (s.db.job.status == Extracting ==> k.page < |s.db.pages| && s.db.pages[k.page].status == PageVisited))
    && (forall w <- s.works :: w.ValidationWork? ==> w.cmd.run.Some? && w.cmd.run.value < |s.db.runs|)
  }

  ghost predicate StatusesStay(db: Db, after: Db) {
    && |after.pages| == |db.pages|
    && (forall i :: 0 <= i < |db.pages| ==> after.pages[i].status == db.pages[i].status)
    && forall k <- after.outbox :: k.ExtractionPageKey? && k !in db.outbox ==>
         k.page < |after.pages| && after.pages[k.page].status == PageVisited
  }

  lemma MovesKeepStatuses(cfg: Config, db: Db, step: Step)
    requires DbOk(cfg, db) && db.job.status == Extracting
    requires step.call.ClaimExtractionCall? || step.call.FailExtractionCall?
    ensures StatusesStay(db, Apply(cfg, db, step).db)
  {
    hide Apply, ClaimExtraction, FailExtraction, TablesOk, Numbered, FormatsOk, StageOk;
    if step.call.ClaimExtractionCall? {
      ClaimApplied(cfg, db, step);
      ClaimKeepsStatuses(db, step.call.cmd, step.now, step.call.until);
    } else {
      FailureApplied(cfg, db, step);
      FailExtractionShape(db, step.call.work.cmd, step.call.error, cfg.extractionMaxRetries, step.now);
    }
  }

  lemma ClaimKeepsStatuses(db: Db, cmd: Command, now: int, until: int)
    ensures StatusesStay(db, ClaimExtraction(db, cmd, now, until).db)
  {
    hide StepOk, LogGrows, MaxSequence, Least;
  }

  lemma StoreKeepsStatuses(cfg: Config, db: Db, step: Step)
    requires DbOk(cfg, db) && db.job.status == Extracting && step.call.CompleteExtractionCall?
    ensures StatusesStay(db, Apply(cfg, db, step).db)
  {
    hide StoreExtract, TablesOk, Numbered, FormatsOk, StepOk, LogGrows, MaxSequence, Least;
    hide ClaimPlanning, CompletePlanning, FailPlanning, PrepareBrowser, CompleteBrowser, FailBrowser;
    hide ClaimDiscovery, CompleteDiscovery, FailDiscovery, ClaimExtraction, FailExtraction;
    hide ClaimValidation, CompleteValidation, FailValidation, ClaimExport, CompleteExport, FailExport, Cancel, Recover;
    var w, extract := step.call.work, step.call.extract;
    if w.ExtractionWork? && w.page < |db.pages| {
      Stranding.StoreExtractShape(cfg, db, w.plan, w.page, extract);
    }
  }

  lemma StageKeepsStatuses(cfg: Config, db: Db, step: Step)
    requires DbOk(cfg, db) && db.job.status == Extracting
    ensures StatusesStay(db, Apply(cfg, db, step).db)
  {
    hide Apply, RowsOk, Numbered, FormatsOk;
    if step.call.CompleteExtractionCall? {
      StoreKeepsStatuses(cfg, db, step);
    } else if step.call.ClaimExtractionCall? || step.call.FailExtractionCall? {
      MovesKeepStatuses(cfg, db, step);
    } else {
      OthersKeepPages(cfg, db, step);
    }
  }

  lemma HandsOutRuns(cfg: Config, s: System, step: Step)
    requires Legit(s, step.call)
    ensures var r := Apply(cfg, s.db, step);
            forall w <- HandedOut(step.call, r.reply) :: w.ValidationWork? ==>
              w.cmd.run.Some? && w.cmd.run.value < |r.db.runs|
  {
    hide CompletePlanning, FailPlanning, CompleteBrowser, FailBrowser, CompleteDiscovery, FailDiscovery;
    hide CompleteExtraction, FailExtraction, CompleteValidation, FailValidation, CompleteExport, FailExport;
    hide Cancel, Recover, StepOk, LogGrows, MaxSequence;
  }

  lemma StepKeepsNames(cfg: Config, s: System, step: Step, t: System)
    requires SystemOk(cfg, s) && Next(cfg, s, step, t) && Named(s)
    ensures Named(t)
  {
    hide Apply, RowsOk, Numbered, FormatsOk;
    StepGrows(cfg, s.db, step);
    HandsOutRuns(cfg, s, step);
    assert StepOk(s.db, t.db, Budget(cfg, s.db.job, step.call));
    if s.db.job.status == Extracting { StageKeepsStatuses(cfg, s.db, step); }
  }

  lemma {:induction false} NamedInRun(cfg: Config, trace: seq<System>, steps: seq<Step>, i: nat)
    requires QueueRun(cfg, trace, steps) && i <= |steps|
    ensures Named(trace[i])
  {
    hide Apply, SystemOk, Named;
    if i == 0 {
      NamedAtFirst(trace[0]);
    } else {
      NamedInRun(cfg, trace, steps, i - 1);
      Reachable(cfg, trace, steps, i - 1);
      assert Next(cfg, trace[i - 1], steps[i - 1], trace[i]);
      StepKeepsNames(cfg, trace[i - 1], steps[i - 1], trace[i]);
    }
  }

  lemma NamedAtFirst(s: System)
    requires Initial(s)
    ensures Named(s)
  {
  }

  lemma PlanningRetry(cfg: Config, db: Db, w: Work, error: Failure, at: int, now: int, until: int)
    requires FailPlanning(db, error, cfg.plannerMaxRetries, at).reply.RetryAt? && JobOk(db.job)
    ensures Regranted(FailPlanning(db, error, cfg.plannerMaxRetries, at).db, FailPlanningCall(w, error), now, until)
  {
    hide StepOk, LogGrows, MaxSequence;
  }

  lemma DiscoveryRetry(cfg: Config, db: Db, w: Work, error: Failure, at: int, now: int, until: int)
    requires DbOk(cfg, db) && WorkOk(db.pages, db.plan, w) && w.DiscoveryWork?
    requires FailDiscovery(db, w.cmd, error, cfg.plannerMaxRetries, at).reply.RetryAt?
    ensures Regranted(
              FailDiscovery(db, w.cmd, error, cfg.plannerMaxRetries, at).db, FailDiscoveryCall(w, error), now, until)
  {
    hide StepOk, LogGrows, MaxSequence, TablesOk, Numbered, FormatsOk;
  }

  lemma ExtractionRetry(cfg: Config, db: Db, w: Work, error: Failure, at: int, now: int, until: int)
    requires DbOk(cfg, db) && WorkOk(db.pages, db.plan, w) && w.ExtractionWork?
    requires w.cmd.page.Some? ==> w.cmd.page.value < |db.pages| && db.pages[w.cmd.page.value].status == PageVisited
    requires FailExtraction(db, w.cmd, error, cfg.extractionMaxRetries, at).reply.RetryAt?
    ensures var after := FailExtraction(db, w.cmd, error, cfg.extractionMaxRetries, at).db;
            Regranted(after, FailExtractionCall(w, error), now, until)
  {
    hide StepOk, LogGrows, MaxSequence, TablesOk, Numbered, FormatsOk, FailExtraction, Regranted;
    FailExtractionShape(db, w.cmd, error, cfg.extractionMaxRetries, at);
    var after := FailExtraction(db, w.cmd, error, cfg.extractionMaxRetries, at).db;
    StaysOk(db, after, cfg.extractionMaxRetries);
    PendingIsClaimed(after, w, error, now, until);
  }

  lemma StaysOk(db: Db, after: Db, budget: nat)
    requires JobOk(db.job) && StepOk(db, after, budget)
    ensures JobOk(after.job)
  {
  }

  lemma PendingIsClaimed(db: Db, w: Work, error: Failure, now: int, until: int)
    requires db.job.status == Extracting && !db.job.cancelRequested && db.plan.Some?
    requires w.cmd.page.Some? ==> w.cmd.page.value < |db.pages| && NeedsExtraction(db.pages[w.cmd.page.value])
    ensures Regranted(db, FailExtractionCall(w, error), now, until)
  {
    hide StepOk, LogGrows, MaxSequence;
  }

  lemma ValidationRetry(cfg: Config, db: Db, w: Work, error: Failure, at: int, now: int, until: int)
    requires DbOk(cfg, db) && w.cmd.run.Some? && w.cmd.run.value < |db.runs|
    requires FailValidation(db, error, cfg.validationMaxAttempts, at).reply.RetryAt?
    ensures Regranted(
              FailValidation(db, error, cfg.validationMaxAttempts, at).db, FailValidationCall(w, error), now, until)
  {
    hide StepOk, LogGrows, MaxSequence, TablesOk, Numbered, FormatsOk;
  }

  lemma ExportRetry(cfg: Config, db: Db, w: Work, error: Failure, at: int, now: int, until: int)
    requires DbOk(cfg, db) && FailExport(db, w.cmd, error, cfg.exportMaxRetries, at).reply.RetryAt?
    ensures Regranted(
              FailExport(db, w.cmd, error, cfg.exportMaxRetries, at).db, FailExportCall(w, error), now, until)
  {
    hide StepOk, LogGrows, MaxSequence, Numbered, FormatsOk;
  }

  lemma RetriesAreFailures(cfg: Config, db: Db, step: Step)
    requires Apply(cfg, db, step).reply.RetryAt?
    ensures IsFailure(step.call)
    ensures var r, e := Apply(cfg, db, step), step.call.error;
            match step.call
            case FailPlanningCall(w, _) => r == FailPlanning(db, e, cfg.plannerMaxRetries, step.now)
            case FailDiscoveryCall(w, _) => r == FailDiscovery(db, w.cmd, e, cfg.plannerMaxRetries, step.now)
            case FailExtractionCall(w, _) => r == FailExtraction(db, w.cmd, e, cfg.extractionMaxRetries, step.now)
            case FailValidationCall(w, _) => r == FailValidation(db, e, cfg.validationMaxAttempts, step.now)
            case FailExportCall(w, _) => r == FailExport(db, w.cmd, e, cfg.exportMaxRetries, step.now)
            case _ => false
  {
    hide FailPlanning, FailDiscovery, FailExtraction, FailValidation, FailExport, StepOk, LogGrows, MaxSequence;
  }

  /** The command of a worker that names a page names a VISITED one. */
  lemma PageIsVisited(cfg: Config, s: System, w: Work)
    requires SystemOk(cfg, s) && Named(s) && s.db.job.status == Extracting && w in s.works && w.ExtractionWork?
    requires w.cmd.key in s.db.outbox && s.db.outbox[w.cmd.key] == w.cmd
    ensures w.cmd.page.Some? ==>
              w.cmd.page.value < |s.db.pages| && s.db.pages[w.cmd.page.value].status == PageVisited
  {
    hide Numbered, FormatsOk, StageOk, TablesOk;
    if w.cmd.page.Some? { CommandNames(cfg, s, w.cmd); }
  }

  /**
   * Over any run of the queue: when a failure report is answered with a retry, the command, delivered again, is granted
   * for the same work. The first extraction command, which names no page, is granted if and only if some page needs
   * extraction.
   */
  lemma RetryIsGranted(cfg: Config, trace: seq<System>, steps: seq<Step>, i: nat, now: int, until: int)
    requires QueueRun(cfg, trace, steps) && i < |steps|
    requires Apply(cfg, trace[i].db, steps[i]).reply.RetryAt?
    ensures Regranted(trace[i + 1].db, steps[i].call, now, until)
  {
    hide Apply, Regranted, TablesOk, Numbered, FormatsOk, StageOk;
    hide FailPlanning, FailDiscovery, FailExtraction, FailValidation, FailExport;
    Reachable(cfg, trace, steps, i);
    NamedInRun(cfg, trace, steps, i);
    WorksAreCommanded(cfg, trace, steps, i);
    var s, step := trace[i], steps[i];
    assert Next(cfg, s, step, trace[i + 1]);
    RetriesAreFailures(cfg, s.db, step);
    var w, e := step.call.work, step.call.error;
    match step.call {
      case FailPlanningCall(_, _) => PlanningRetry(cfg, s.db, w, e, step.now, now, until);
      case FailDiscoveryCall(_, _) => DiscoveryRetry(cfg, s.db, w, e, step.now, now, until);
      case FailExtractionCall(_, _) =>
        FailExtractionShape(s.db, w.cmd, e, cfg.extractionMaxRetries, step.now);
        PageIsVisited(cfg, s, w);
        ExtractionRetry(cfg, s.db, w, e, step.now, now, until);
      case FailValidationCall(_, _) => ValidationRetry(cfg, s.db, w, e, step.now, now, until);
      case FailExportCall(_, _) => ExportRetry(cfg, s.db, w, e, step.now, now, until);
      case _ =>
    }
  }

  // Recoveries

  /** The new command of a recovery is granted in the stages that it names, and refused in the two that it does not. */
  ghost predicate Resumes(db: Db, cmd: Command, now: int, until: int) {
    match db.job.status
    case Planning => ClaimPlanning(db, cmd, now, until).reply == Claimed(PlanningWork(cmd))
    case BrowserInitializing => PrepareBrowser(db, cmd, now).reply == Claimed(BrowserWork(cmd))
    case Discovering =>
      && cmd.page.Some? && db.plan.Some?
      && ClaimDiscovery(db, cmd, now, until).reply == Claimed(DiscoveryWork(cmd, cmd.page.value, db.plan.value))
    case Exporting =>
      cmd.exportId.Some? && ClaimExport(db, cmd, now, until).reply == Claimed(ExportWork(cmd, cmd.exportId.value))
    case _ => cmd.kind == RunPlanning && ClaimPlanning(db, cmd, now, until) == Outcome(db, Raised)
  }

  lemma RecoveredRows(cfg: Config, db: Db, pick: nat, at: int, now: int, until: int) returns (cmd: Command)
    requires DbOk(cfg, db) && Recover(db, pick, at).reply == Recovered
    ensures var after := Recover(db, pick, at).db;
            && cmd.key !in db.outbox && after.outbox == db.outbox[cmd.key := cmd]
            && after.job.status == db.job.status && Resumes(after, cmd, now, until)
  {
    hide StepOk, LogGrows, MaxSequence, Numbered, FormatsOk, PagesOk, RecordsOk, FilesOk, OutboxOk, KeysOk;
    var after := Recover(db, pick, at).db;
    var k :| k in after.outbox && k !in db.outbox;
    cmd := after.outbox[k];
  }

  /**
   * Over any run of the queue: a recovery that goes on sends exactly one new command, and keeps the stage. Delivered,
   * the command is granted in PLANNING, BROWSER_INITIALIZING, DISCOVERING and EXPORTING, for the page or export that it
   * names; in EXTRACTING and VALIDATING it is a planning command, which raises and changes nothing.
   */
  lemma RecoveryIsGranted(cfg: Config, trace: seq<System>, steps: seq<Step>, i: nat, now: int, until: int)
    returns (cmd: Command)
    requires QueueRun(cfg, trace, steps) && i < |steps| && steps[i].call.RecoverCall?
    requires Apply(cfg, trace[i].db, steps[i]).reply == Recovered
    ensures var before, after := trace[i].db, trace[i + 1].db;
            && cmd.key !in before.outbox && after.outbox == before.outbox[cmd.key := cmd]
            && after.job.status == before.job.status && Resumes(after, cmd, now, until)
  {
    hide Apply, Recover, Resumes, RowsOk, Numbered, FormatsOk;
    Reachable(cfg, trace, steps, i);
    RecoveryIs(cfg, trace[i].db, steps[i]);
    assert Next(cfg, trace[i], steps[i], trace[i + 1]);
    cmd := RecoveredRows(cfg, trace[i].db, steps[i].call.pick, steps[i].now, now, until);
  }
}
