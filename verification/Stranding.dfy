/** What the first extraction command, which names no page, can do: a page that is skipped, a job that is stuck. */
module Stranding {
  import opened Wrappers
  import opened Domain
  import opened Rows
  import opened Lifecycle
  import opened Frontier
  import opened Stages
  import opened Inventory
  import opened Protocol
  import opened Invariants
  import opened Runs
  import opened Growth

  predicate Extracted(p: Page) { p.extraction in {Some(PageExtracted), Some(PagePartial)} }

  /** What entering VALIDATING promises: every VISITED page is EXTRACTED or PARTIAL. */
  ghost predicate AllExtracted(pages: seq<Page>) {
    forall i :: 0 <= i < |pages| && pages[i].status == PageVisited ==> Extracted(pages[i])
  }

  /** Every VISITED page but `p` is extracted. */
  ghost predicate OthersExtracted(pages: seq<Page>, p: nat) {
    forall i :: 0 <= i < |pages| && i != p && pages[i].status == PageVisited ==> Extracted(pages[i])
  }

  /** Some page other than `p` has not been touched by the extraction. */
  ghost predicate OtherWaits(pages: seq<Page>, p: nat) {
    exists i :: 0 <= i < |pages| && i != p && NotExtracted(pages[i])
  }

  // Leaving the extraction stage

  /** Storing a page's records settles that page and touches no other. */
  predicate Stored(pages: seq<Page>, i: nat, after: seq<Page>) {
    && i < |pages| == |after|
    && after == pages[i := pages[i].(extraction := after[i].extraction)]
    && Extracted(after[i])
  }

  lemma StoreExtractShape(cfg: Config, db: Db, plan: Plan, i: nat, extract: Extract)
    requires i < |db.pages|
    ensures var after := StoreExtract(cfg, db, plan, i, extract);
            && Stored(db.pages, i, after.pages)
            && after.outbox == db.outbox && after.runs == db.runs && after.job.status == db.job.status
            && after.plan == db.plan
  {
  }

  lemma AdvanceLeaves(db: Db, plan: Plan, now: int)
    requires db.job.status == Extracting && ValidationKey(|db.runs|) !in db.outbox
    ensures var a, next := AdvanceExtraction(db, plan, now), Least(db.pages, NotExtracted, VisitedAt);
            && (next.None? ==> a.Some? && a.value.job.status == Validating)
            && (next.Some? && a.Some? ==> a.value.job.status == Extracting)
            && (a.Some? ==> a.value.pages == db.pages)
  {
  }

  /**
   * Completing a page leaves the stage if and only if no other page is untouched, and then every VISITED page is
   * extracted if and only if every other one was before: a page that another worker still has in EXTRACTING is skipped.
   */
  lemma LeavingExtraction(cfg: Config, db: Db, w: Work, extract: Extract, now: int)
    requires DbOk(cfg, db) && db.job.status == Extracting && KeysCounted(db)
    requires w.ExtractionWork? && w.page < |db.pages|
    ensures var r := CompleteExtraction(cfg, db, w, extract, now);
            && (r.db.job.status == Validating <==> !OtherWaits(db.pages, w.page))
            && (r.db.job.status == Validating ==>
                  (AllExtracted(r.db.pages) <==> OthersExtracted(db.pages, w.page)))
  {
    hide StoreExtract, AdvanceExtraction, TablesOk, Numbered, FormatsOk, StepOk, KeysCounted;
    StoreExtractShape(cfg, db, w.plan, w.page, extract);
    var db1 := Release(StoreExtract(cfg, db, w.plan, w.page, extract));
    NextRunIsNew(db);
    AdvanceLeaves(db1, w.plan, now);
    NextUntouched(db.pages, w.page, db1.pages);
    SettledPage(db.pages, w.page, db1.pages);
  }

  lemma NextRunIsNew(db: Db)
    requires KeysCounted(db)
    ensures ValidationKey(|db.runs|) !in db.outbox
  {
  }

  lemma NextUntouched(pages: seq<Page>, p: nat, after: seq<Page>)
    requires Stored(pages, p, after)
    ensures Least(after, NotExtracted, VisitedAt).Some? <==> OtherWaits(pages, p)
  {
    var next := Least(after, NotExtracted, VisitedAt);
    if next.Some? { assert next.value != p && NotExtracted(pages[next.value]); }
    if OtherWaits(pages, p) {
      var i :| 0 <= i < |pages| && i != p && NotExtracted(pages[i]);
      assert NotExtracted(after[i]);
    }
  }

  lemma SettledPage(pages: seq<Page>, p: nat, after: seq<Page>)
    requires Stored(pages, p, after)
    ensures AllExtracted(after) <==> OthersExtracted(pages, p)
  {
    if AllExtracted(after) {
      forall i | 0 <= i < |pages| && i != p && pages[i].status == PageVisited
        ensures Extracted(pages[i])
      {
        assert after[i] == pages[i];
      }
    }
  }

  /** Nothing but the end of an extraction takes the job from EXTRACTING to VALIDATING. */
  lemma OnlyCompletionsLeave(cfg: Config, db: Db, step: Step)
    requires DbOk(cfg, db) && db.job.status == Extracting && Apply(cfg, db, step).db.job.status == Validating
    ensures step.call.CompleteExtractionCall? && step.call.work.ExtractionWork? && step.call.work.page < |db.pages|
    ensures Apply(cfg, db, step) == CompleteExtraction(cfg, db, step.call.work, step.call.extract, step.now)
  {
    hide StepOk, LogGrows, RetryOrFail, MaxSequence, StorePlan, StoreCapture, Explore, StorePage, StoreFile;
    hide StoreValidation, TablesOk, Numbered, FormatsOk;
    if step.call.FailExtractionCall? {
      FailExtractionShape(db, step.call.work.cmd, step.call.error, cfg.extractionMaxRetries, step.now);
    }
  }

  /**
   * Over any run of the queue, with stale workers, crashes and redelivery: the job enters VALIDATING by the end of an
   * extraction, when no other page is untouched, and then every VISITED page is EXTRACTED or PARTIAL if and only if
   * every VISITED page other than the one completed was so before.
   */
  lemma EnteringValidation(cfg: Config, trace: seq<System>, steps: seq<Step>, i: nat)
    requires QueueRun(cfg, trace, steps) && i < |steps|
    requires trace[i].db.job.status == Extracting && trace[i + 1].db.job.status == Validating
    ensures steps[i].call.CompleteExtractionCall? && steps[i].call.work.ExtractionWork?
    ensures var p := steps[i].call.work.page;
            && !OtherWaits(trace[i].db.pages, p)
            && (AllExtracted(trace[i + 1].db.pages) <==> OthersExtracted(trace[i].db.pages, p))
  {
    hide Apply, CompleteExtraction, KeysCounted, TablesOk, Numbered, FormatsOk;
    Reachable(cfg, trace, steps, i);
    QueueIsCalls(cfg, trace, steps);
    KeysAreCounted(cfg, States(trace), steps, i);
    assert Next(cfg, trace[i], steps[i], trace[i + 1]);
    OnlyCompletionsLeave(cfg, trace[i].db, steps[i]);
    LeavingExtraction(cfg, trace[i].db, steps[i].call.work, steps[i].call.extract, steps[i].now);
  }

  // A job that is stuck

  /** Nothing that can happen, short of a cancellation, changes a row. */
  ghost predicate Stuck(cfg: Config, s: System) {
    forall step: Step :: Legit(s, step.call) && !step.call.CancelCall? ==> Apply(cfg, s.db, step).db == s.db
  }

  /** A command of the outbox can claim a page. */
  ghost predicate Claimable(db: Db) {
    exists k ::
      k in db.outbox && db.outbox[k].kind == RunExtraction && ExtractionPage(db.pages, db.outbox[k].page).Some?
  }

  /** An expired lease is recovered, and the planning command that this sends does not clash with an earlier one. */
  predicate Recoverable(db: Db) {
    && db.job.lease.Some?
    && (db.job.attempt >= db.job.maxAttempts || PhaseKey(PlanningPhase, db.job.attempt + 1) !in db.outbox)
  }

  lemma ClaimsAreRefused(cfg: Config, db: Db, step: Step)
    requires DbOk(cfg, db) && db.job.status == Extracting && IsClaim(step.call) && !step.call.ClaimExtractionCall?
    ensures Apply(cfg, db, step).db == db
  {
    hide CompletePlanning, FailPlanning, CompleteBrowser, FailBrowser, CompleteDiscovery, FailDiscovery;
    hide ClaimExtraction, CompleteExtraction, FailExtraction, CompleteValidation, FailValidation, CompleteExport;
    hide FailExport, Cancel, Recover, TablesOk, Numbered, FormatsOk, StepOk;
  }

  lemma ClaimExtractionMoves(cfg: Config, db: Db, cmd: Command, now: int, until: int)
    requires DbOk(cfg, db) && db.job.status == Extracting
    ensures ClaimExtraction(db, cmd, now, until).db == db <==> ExtractionPage(db.pages, cmd.page).None?
  {
    hide TablesOk, Numbered, FormatsOk, StepOk, LogGrows;
    if ExtractionPage(db.pages, cmd.page).Some? {
      assert |ClaimExtraction(db, cmd, now, until).db.events| > |db.events|;
    }
  }

  lemma RecoveryMoves(cfg: Config, db: Db, pick: nat, now: int)
    requires DbOk(cfg, db) && db.job.status == Extracting
    ensures Recover(db, pick, now).db != db <==> Recoverable(db) && db.job.lease.value < now
  {
    hide TablesOk, Numbered, FormatsOk, StepOk, LogGrows, RecoverDiscovery, RecoverExport, Append;
  }

  /** Without workers an EXTRACTING job is stuck if and only if no command claims a page and no lease is recovered. */
  lemma StuckInExtraction(cfg: Config, s: System)
    requires SystemOk(cfg, s) && s.db.job.status == Extracting && s.works == {}
    ensures Stuck(cfg, s) <==> !Claimable(s.db) && !Recoverable(s.db)
  {
    hide Apply, TablesOk, Numbered, FormatsOk, Recoverable, ExtractionPage;
    if !Claimable(s.db) && !Recoverable(s.db) {
      forall step: Step | Legit(s, step.call) && !step.call.CancelCall?
        ensures Apply(cfg, s.db, step).db == s.db
      {
        StuckStep(cfg, s, step);
      }
    }
    if Claimable(s.db) { ClaimUnsticks(cfg, s); }
    if Recoverable(s.db) { RecoveryUnsticks(cfg, s); }
  }

  lemma StuckStep(cfg: Config, s: System, step: Step)
    requires SystemOk(cfg, s) && s.db.job.status == Extracting && s.works == {}
    requires !Claimable(s.db) && !Recoverable(s.db) && Legit(s, step.call) && !step.call.CancelCall?
    ensures Apply(cfg, s.db, step).db == s.db
  {
    hide ClaimPlanning, CompletePlanning, FailPlanning, PrepareBrowser, CompleteBrowser, FailBrowser;
    hide ClaimDiscovery, CompleteDiscovery, FailDiscovery, ClaimExtraction, CompleteExtraction, FailExtraction;
    hide ClaimValidation, CompleteValidation, FailValidation, ClaimExport, CompleteExport, FailExport;
    hide Cancel, Recover, StepOk, RowsOk, Numbered, FormatsOk, Recoverable, ExtractionPage;
    match step.call
    case ClaimExtractionCall(cmd, until) => ClaimExtractionMoves(cfg, s.db, cmd, step.now, until);
    case RecoverCall(pick) => RecoveryMoves(cfg, s.db, pick, step.now);
    case _ => ClaimsAreRefused(cfg, s.db, step);
  }

  lemma KeyOfCommand(cfg: Config, db: Db, k: Key)
    requires DbOk(cfg, db) && k in db.outbox
    ensures db.outbox[k].key == k
  {
  }

  lemma ClaimUnsticks(cfg: Config, s: System)
    requires SystemOk(cfg, s) && s.db.job.status == Extracting && Claimable(s.db)
    ensures !Stuck(cfg, s)
  {
    hide ClaimPlanning, CompletePlanning, FailPlanning, PrepareBrowser, CompleteBrowser, FailBrowser;
    hide ClaimDiscovery, CompleteDiscovery, FailDiscovery, ClaimExtraction, CompleteExtraction, FailExtraction;
    hide ClaimValidation, CompleteValidation, FailValidation, ClaimExport, CompleteExport, FailExport;
    hide Cancel, Recover, StepOk, ExtractionPage, RowsOk, Numbered, FormatsOk;
    var k :| k in s.db.outbox && s.db.outbox[k].kind == RunExtraction
             && ExtractionPage(s.db.pages, s.db.outbox[k].page).Some?;
    var step := Step(ClaimExtractionCall(s.db.outbox[k], 0), 0);
    ClaimExtractionMoves(cfg, s.db, s.db.outbox[k], 0, 0);
    assert s.db.outbox[k].key == k by { KeyOfCommand(cfg, s.db, k); }
    assert Legit(s, step.call) && Apply(cfg, s.db, step).db != s.db;
  }

  lemma RecoveryUnsticks(cfg: Config, s: System)
    requires SystemOk(cfg, s) && s.db.job.status == Extracting && Recoverable(s.db)
    ensures !Stuck(cfg, s)
  {
    hide ClaimPlanning, CompletePlanning, FailPlanning, PrepareBrowser, CompleteBrowser, FailBrowser;
    hide ClaimDiscovery, CompleteDiscovery, FailDiscovery, ClaimExtraction, CompleteExtraction, FailExtraction;
    hide ClaimValidation, CompleteValidation, FailValidation, ClaimExport, CompleteExport, FailExport;
    hide Cancel, Recover, StepOk;
    var step := Step(RecoverCall(0), s.db.job.lease.value + 1);
    RecoveryMoves(cfg, s.db, 0, step.now);
    assert Legit(s, step.call) && Apply(cfg, s.db, step).db != s.db;
  }

  /**
   * A retryable failure of the first extraction command within the budget, when no other worker is left: the page
   * stays EXTRACTING and the lease is cleared, so the job is stuck if and only if no page still needs extraction.
   */
  lemma PagelessFailure(cfg: Config, trace: seq<System>, steps: seq<Step>, i: nat)
    requires QueueRun(cfg, trace, steps) && i < |steps| && trace[i].db.job.status == Extracting
    requires steps[i].call.FailExtractionCall? && steps[i].call.error.retryable
    requires steps[i].call.work.cmd.page == None && trace[i].db.job.attempt < cfg.extractionMaxRetries
    requires trace[i + 1].works == {}
    ensures trace[i + 1].db.pages == trace[i].db.pages && trace[i + 1].db.job.status == Extracting
    ensures Stuck(cfg, trace[i + 1]) <==>
            forall p :: 0 <= p < |trace[i].db.pages| ==> !NeedsExtraction(trace[i].db.pages[p])
  {
    hide Apply, FailExtraction, TablesOk, Numbered, FormatsOk, Claimable, Stuck;
    var w, e := steps[i].call.work, steps[i].call.error;
    Reachable(cfg, trace, steps, i);
    Reachable(cfg, trace, steps, i + 1);
    WorksAreCommanded(cfg, trace, steps, i);
    assert Next(cfg, trace[i], steps[i], trace[i + 1]);
    PagelessFailureShape(cfg, trace[i].db, steps[i]);
    StuckInExtraction(cfg, trace[i + 1]);
    assert WorkOk(trace[i].db.pages, trace[i].db.plan, w) && w in trace[i].works;
    PagelessClaims(trace[i + 1].db, w.cmd);
  }

  lemma PagelessFailureShape(cfg: Config, db: Db, step: Step)
    requires JobOk(db.job) && db.job.status == Extracting && step.call.FailExtractionCall?
    requires step.call.error.retryable && step.call.work.cmd.page == None && db.job.attempt < cfg.extractionMaxRetries
    ensures var after := Apply(cfg, db, step).db;
            && after.pages == db.pages && after.outbox == db.outbox
            && after.job.status == Extracting && after.job.lease == None
  {
    hide ClaimPlanning, CompletePlanning, FailPlanning, PrepareBrowser, CompleteBrowser, FailBrowser;
    hide ClaimDiscovery, CompleteDiscovery, FailDiscovery, ClaimExtraction, CompleteExtraction;
    hide ClaimValidation, CompleteValidation, FailValidation, ClaimExport, CompleteExport, FailExport;
    hide Cancel, Recover, StepOk, LogGrows;
  }

  /** The command without a page claims whatever page needs extraction, and no command claims another one. */
  lemma PagelessClaims(db: Db, cmd: Command)
    requires cmd.key in db.outbox && db.outbox[cmd.key] == cmd && cmd.kind == RunExtraction && cmd.page == None
    ensures Claimable(db) <==> exists p :: 0 <= p < |db.pages| && NeedsExtraction(db.pages[p])
  {
    if p :| 0 <= p < |db.pages| && NeedsExtraction(db.pages[p]) {
      assert ExtractionPage(db.pages, db.outbox[cmd.key].page).Some?;
    }
    if Claimable(db) {
      var k :| k in db.outbox && db.outbox[k].kind == RunExtraction
               && ExtractionPage(db.pages, db.outbox[k].page).Some?;
      assert NeedsExtraction(db.pages[ExtractionPage(db.pages, db.outbox[k].page).value]);
    }
  }
}
