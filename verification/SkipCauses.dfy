/** Why a page can be skipped: the steps of a run that break the chain in which extraction works through the pages. */
module SkipCauses {
  import opened Wrappers
  import opened Domain
  import opened Rows
  import opened Lifecycle
  import opened Discovery
  import opened Frontier
  import opened Stages
  import opened Protocol
  import opened Invariants
  import opened Runs
  import opened Growth
  import opened Stranding

  // Three kinds of steps, as guards on the rows before the call

  predicate Untouched(p: Page) { p.extraction == None }

  ghost predicate AllUntouched(pages: seq<Page>) { forall i :: 0 <= i < |pages| ==> Untouched(pages[i]) }

  /** The command without a page is granted although the extraction has already touched a page. */
  ghost predicate SecondGrant(db: Db, call: Call) {
    && call.ClaimExtractionCall? && call.cmd.page.None? && db.job.status == Extracting
    && ExtractionPage(db.pages, None).Some? && !AllUntouched(db.pages)
  }

  /** A worker completes a page that is already extracted. */
  predicate RepeatedCompletion(db: Db, call: Call) {
    && call.CompleteExtractionCall? && call.work.ExtractionWork? && db.job.status == Extracting
    && call.work.page < |db.pages| && Extracted(db.pages[call.work.page])
  }

  /** A worker reports a retryable failure of the command for a page that is already extracted. */
  predicate LateFailure(db: Db, call: Call) {
    && call.FailExtractionCall? && call.error.retryable && db.job.status == Extracting
    && call.work.cmd.page.Some? && call.work.cmd.page.value < |db.pages|
    && Extracted(db.pages[call.work.cmd.page.value])
  }

  ghost predicate BreaksChain(db: Db, call: Call) {
    SecondGrant(db, call) || RepeatedCompletion(db, call) || LateFailure(db, call)
  }

  // The chain

  /**
   * At most one page is neither untouched nor extracted, and every command and worker of the stage is for that page
   * or for an extracted one.
   */
  ghost predicate Chain(s: System, at: Option<nat>) {
    var pages := s.db.pages;
    && (at.None? <==> AllUntouched(pages))
    && (forall i :: 0 <= i < |pages| && at != Some(i) ==> Untouched(pages[i]) || Extracted(pages[i]))
    && (forall w <- s.works :: w.ExtractionWork? ==> OnChain(pages, at, w.page))
    && (forall k <- s.db.outbox :: k.ExtractionPageKey? ==> OnChain(pages, at, k.page))
  }

  predicate OnChain(pages: seq<Page>, at: Option<nat>, p: nat) {
    p < |pages| && (at == Some(p) || Extracted(pages[p]))
  }

  /** The stages before extraction. */
  predicate BeforeExtraction(s: JobStatus) {
    s == Queued || s == Planning || s == BrowserInitializing || s == Discovering
  }

  // Before the stage

  lemma {:induction false} PersistUntouched(
    cfg: Config, db: Db, plan: Plan, parent: nat, cs: seq<Candidate>, rejected: bool, accepted: nat, now: int)
    requires AllUntouched(db.pages)
    ensures AllUntouched(PersistFrom(cfg, db, plan, parent, cs, rejected, accepted, now).pages)
    decreases |cs|
  {
    if cs != [] {
      var c := cs[0];
      if FindUrl(db.pages, c.url).Some? {
        PersistUntouched(cfg, Append(db, OnPageDuplicate), plan, parent, cs[1..], rejected, accepted, now);
      } else {
        var status := StatusFor(rejected, accepted, CrawlCap(cfg, plan));
        PersistUntouched(cfg, AddPage(cfg, db, parent, c, status, now), plan, parent, cs[1..], rejected,
          if status == PageDiscovered then accepted + 1 else accepted, now);
      }
    }
  }

  lemma ExpandUntouched(cfg: Config, db: Db, plan: Plan, i: nat, capture: Capture, now: int)
    requires i < |db.pages| && AllUntouched(db.pages)
    ensures AllUntouched(Expand(cfg, db, plan, i, capture, now).pages)
  {
    hide Decide, Probe, SeenUrls, PersistFrom, LogGrows, MaxSequence;
    var db1 := Visit(db, i, now);
    var seen := SeenUrls(db1.pages);
    var page := db1.pages[i];
    var d := Decide(cfg, plan, page, capture, seen);
    var db2 := PersistedUntouched(cfg, db1, plan, i, d.candidates, false, now);
    var db3 := PersistedUntouched(cfg, db2, plan, i, d.rejected, true, now);
    var db4 := if d.duplicates > 0 then Append(db3, OnPageDuplicate) else db3;
    var db5 := PersistedUntouched(cfg, db4, plan, i, Probe(cfg, page, seen), false, now);
  }

  lemma PersistedUntouched(
    cfg: Config, db: Db, plan: Plan, parent: nat, cs: seq<Candidate>, rejected: bool, now: int) returns (after: Db)
    requires AllUntouched(db.pages)
    ensures after == Persist(cfg, db, plan, parent, cs, rejected, now) && AllUntouched(after.pages)
  {
    after := Persist(cfg, db, plan, parent, cs, rejected, now);
    PersistUntouched(cfg, db, plan, parent, cs, rejected, CountAccepted(db.pages), now);
  }

  lemma VisitUntouched(cfg: Config, db: Db, work: Work, capture: Capture, now: int)
    requires work.DiscoveryWork? && AllUntouched(db.pages)
    ensures AllUntouched(CompleteDiscovery(cfg, db, work, capture, now).db.pages)
  {
    hide Expand, Advance, StepOk, LogGrows, JobStep, AllUntouched, MaxSequence;
    if db.job.status == Discovering && work.page < |db.pages| {
      ExpandUntouched(cfg, db, work.plan, work.page, capture, now);
    }
  }

  lemma CrawlUntouched(cfg: Config, db: Db, step: Step)
    requires AllUntouched(db.pages) && JobOk(db.job) && CrawlCall(step.call)
    ensures AllUntouched(Apply(cfg, db, step).db.pages)
  {
    hide ClaimPlanning, CompletePlanning, FailPlanning, PrepareBrowser, CompleteBrowser, FailBrowser;
    hide CompleteDiscovery, FailDiscovery, ClaimExtraction, CompleteExtraction, FailExtraction;
    hide ClaimValidation, CompleteValidation, FailValidation, ClaimExport, CompleteExport, FailExport;
    hide Cancel, Recover, StepOk, LogGrows, MaxSequence, Least;
    match step.call
    case CompleteDiscoveryCall(w, capture) => if w.DiscoveryWork? { VisitUntouched(cfg, db, w, capture, step.now); }
    case FailDiscoveryCall(w, e) => FailDiscoveryShape(db, w.cmd, e, cfg.plannerMaxRetries, step.now);
    case _ =>
  }

  lemma EarlyUntouched(cfg: Config, db: Db, step: Step)
    requires AllUntouched(db.pages) && JobOk(db.job)
    requires PlanningOrBrowser(step.call) || step.call.CancelCall?
    ensures AllUntouched(Apply(cfg, db, step).db.pages)
  {
    hide ClaimDiscovery, CompleteDiscovery, FailDiscovery, ClaimExtraction, CompleteExtraction, FailExtraction;
    hide ClaimValidation, CompleteValidation, FailValidation, ClaimExport, CompleteExport, FailExport;
    hide StepOk, LogGrows, MaxSequence, Least, RetryOrFail, CaptureRows, Recover;
  }

  lemma RecoveryUntouched(db: Db, pick: nat, now: int)
    requires AllUntouched(db.pages)
    ensures AllUntouched(Recover(db, pick, now).db.pages)
  {
    hide StepOk, LogGrows, MaxSequence, Least;
  }

  lemma LateUntouched(cfg: Config, db: Db, step: Step)
    requires AllUntouched(db.pages) && db.job.status != Extracting
    requires ExtractOrValidate(step.call) || ExportCall(step.call)
    ensures AllUntouched(Apply(cfg, db, step).db.pages)
  {
    hide ClaimPlanning, CompletePlanning, FailPlanning, PrepareBrowser, CompleteBrowser, FailBrowser;
    hide ClaimDiscovery, CompleteDiscovery, FailDiscovery, Cancel, Recover, StepOk, LogGrows, MaxSequence;
    hide StorePage, InsertResults, InsertExports;
  }

  lemma StaysUntouched(cfg: Config, db: Db, step: Step)
    requires AllUntouched(db.pages) && JobOk(db.job) && db.job.status != Extracting
    ensures AllUntouched(Apply(cfg, db, step).db.pages)
  {
    hide Apply, AllUntouched;
    if CrawlCall(step.call) {
      CrawlUntouched(cfg, db, step);
    } else if ExtractOrValidate(step.call) || ExportCall(step.call) {
      LateUntouched(cfg, db, step);
    } else if step.call.RecoverCall? {
      RecoveryIs(cfg, db, step);
      RecoveryUntouched(db, step.call.pick, step.now);
    } else {
      EarlyUntouched(cfg, db, step);
    }
  }

  /** Extraction works are handed out by granted claims of the stage only. */
  lemma HandsOutExtraction(cfg: Config, db: Db, step: Step)
    ensures forall w <- HandedOut(step.call, Apply(cfg, db, step).reply) :: w.ExtractionWork? ==>
              && step.call.ClaimExtractionCall? && db.job.status == Extracting
              && ExtractionPage(db.pages, step.call.cmd.page) == Some(w.page)
  {
    hide CompletePlanning, FailPlanning, CompleteBrowser, FailBrowser, CompleteDiscovery, FailDiscovery;
    hide CompleteExtraction, FailExtraction, CompleteValidation, FailValidation, CompleteExport, FailExport;
    hide Cancel, Recover, StepOk, LogGrows, MaxSequence, ExtractionPage;
  }

  lemma ChainBegins(cfg: Config, s: System, step: Step, t: System)
    requires Chain(s, None) && JobOk(s.db.job) && BeforeExtraction(s.db.job.status) && Next(cfg, s, step, t)
    ensures Chain(t, None)
  {
    hide Apply, Legit;
    StaysUntouched(cfg, s.db, step);
    StepGrows(cfg, s.db, step);
    HandsOutExtraction(cfg, s.db, step);
    assert forall k <- s.db.outbox :: !k.ExtractionPageKey?;
    assert forall w <- s.works :: !w.ExtractionWork?;
  }

  // In the stage

  /** A page on the chain stays on it when the page that the step touches is on it. */
  ghost predicate Touches(pages: seq<Page>, after: seq<Page>, p: nat) {
    && p < |pages| == |after| && !Untouched(after[p])
    && forall i :: 0 <= i < |pages| && i != p ==> after[i] == pages[i]
  }

  /** Granted: either nothing was touched before, or the command names the page of the chain. */
  lemma GrantKeepsChain(cfg: Config, s: System, at: Option<nat>, step: Step, t: System)
    requires Chain(s, at) && SystemOk(cfg, s) && s.db.job.status == Extracting && Next(cfg, s, step, t)
    requires step.call.ClaimExtractionCall? && !SecondGrant(s.db, step.call)
    requires ExtractionPage(s.db.pages, step.call.cmd.page).Some? && t.db.job.status == Extracting
    ensures Chain(t, ExtractionPage(s.db.pages, step.call.cmd.page))
  {
    hide Apply, TablesOk, Numbered, FormatsOk, StageOk;
    var cmd := step.call.cmd;
    var p := ExtractionPage(s.db.pages, cmd.page).value;
    GrantShape(cfg, s.db, step);
    HandsOutExtraction(cfg, s.db, step);
    if cmd.page.Some? {
      CommandNames(cfg, s, cmd);
      assert at == Some(p);
    }
  }

  lemma GrantShape(cfg: Config, db: Db, step: Step)
    requires DbOk(cfg, db) && db.job.status == Extracting && step.call.ClaimExtractionCall?
    requires ExtractionPage(db.pages, step.call.cmd.page).Some?
    ensures var after, p := Apply(cfg, db, step).db, ExtractionPage(db.pages, step.call.cmd.page).value;
            Touches(db.pages, after.pages, p) && after.outbox == db.outbox
  {
    hide TablesOk, Numbered, FormatsOk, StepOk, LogGrows, MaxSequence, ExtractionPage;
    hide CompletePlanning, FailPlanning, CompleteBrowser, FailBrowser, CompleteDiscovery, FailDiscovery;
    hide CompleteExtraction, FailExtraction, CompleteValidation, FailValidation, CompleteExport, FailExport;
    hide ClaimPlanning, PrepareBrowser, ClaimDiscovery, ClaimValidation, ClaimExport, Cancel, Recover;
  }

  /** The command of a page is stored under that page's key. */
  lemma CommandNames(cfg: Config, s: System, cmd: Command)
    requires DbOk(cfg, s.db) && Delivered(s.db, cmd, RunExtraction) && cmd.page.Some?
    ensures cmd.key.ExtractionPageKey? && cmd.key.page == cmd.page.value && cmd.key in s.db.outbox
  {
  }

  /** Completed: the page of the chain is extracted, and the next one, if any, is the new page of the chain. */
  lemma CompletionKeepsChain(cfg: Config, s: System, at: Option<nat>, step: Step, t: System)
    returns (next: Option<nat>)
    requires Chain(s, at) && SystemOk(cfg, s) && s.db.job.status == Extracting && Next(cfg, s, step, t)
    requires step.call.CompleteExtractionCall? && !RepeatedCompletion(s.db, step.call)
    ensures t.db.job.status == Extracting ==> Chain(t, next)
    ensures t.db.job.status == Validating ==> AllExtracted(t.db.pages)
  {
    hide Apply, TablesOk, Numbered, FormatsOk, StageOk;
    HandsOutExtraction(cfg, s.db, step);
    next := at;
    if t.db != s.db {
      next := CompletionShape(cfg, s.db, step);
      assert at == Some(step.call.work.page);
    }
  }

  /** A stored completion extracts its page and queues the least untouched one. */
  lemma CompletionShape(cfg: Config, db: Db, step: Step) returns (next: Option<nat>)
    requires DbOk(cfg, db) && db.job.status == Extracting && step.call.CompleteExtractionCall?
    requires Apply(cfg, db, step).db != db
    ensures step.call.work.ExtractionWork?
    ensures var after, p := Apply(cfg, db, step).db, step.call.work.page;
            && Touches(db.pages, after.pages, p) && Extracted(after.pages[p])
            && (after.job.status == Extracting ==>
                  && next.Some? && next.value < |after.pages| && NotExtracted(after.pages[next.value])
                  && forall k <- after.outbox :: k in db.outbox || (k.ExtractionPageKey? && k.page == next.value))
            && (after.job.status == Validating ==>
                  next.None? && forall i :: 0 <= i < |after.pages| ==> !NotExtracted(after.pages[i]))
  {
    hide StoreExtract, TablesOk, Numbered, FormatsOk, StepOk, LogGrows, MaxSequence, Least;
    hide ClaimPlanning, CompletePlanning, FailPlanning, PrepareBrowser, CompleteBrowser, FailBrowser;
    hide ClaimDiscovery, CompleteDiscovery, FailDiscovery, ClaimExtraction, FailExtraction;
    hide ClaimValidation, CompleteValidation, FailValidation, ClaimExport, CompleteExport, FailExport, Cancel, Recover;
    var w, extract := step.call.work, step.call.extract;
    StoreExtractShape(cfg, db, w.plan, w.page, extract);
    next := Least(StoreExtract(cfg, db, w.plan, w.page, extract).pages, NotExtracted, VisitedAt);
  }

  /** Failed: without a page nothing moves, and the page of the chain becomes pending. */
  lemma FailureKeepsChain(cfg: Config, s: System, at: Option<nat>, step: Step, t: System)
    requires Chain(s, at) && SystemOk(cfg, s) && s.db.job.status == Extracting && Next(cfg, s, step, t)
    requires step.call.FailExtractionCall? && !LateFailure(s.db, step.call)
    requires step.call.work.cmd.key in s.db.outbox && s.db.outbox[step.call.work.cmd.key] == step.call.work.cmd
    requires t.db.job.status == Extracting
    ensures Chain(t, at)
  {
    hide Apply, TablesOk, Numbered, FormatsOk, StageOk;
    var cmd := step.call.work.cmd;
    HandsOutExtraction(cfg, s.db, step);
    FailureShape(cfg, s.db, step);
    if cmd.page.Some? {
      CommandNames(cfg, s, cmd);
      assert at == Some(cmd.page.value);
    }
  }

  lemma FailureShape(cfg: Config, db: Db, step: Step)
    requires JobOk(db.job) && db.job.status == Extracting && step.call.FailExtractionCall?
    requires Apply(cfg, db, step).db.job.status == Extracting
    ensures var after, cmd := Apply(cfg, db, step).db, step.call.work.cmd;
            && step.call.error.retryable && after.outbox == db.outbox
            && if cmd.page.Some? && cmd.page.value < |db.pages| then Touches(db.pages, after.pages, cmd.page.value)
               else after.pages == db.pages
  {
    hide Apply, FailExtraction;
    var cmd, error, budget := step.call.work.cmd, step.call.error, cfg.extractionMaxRetries;
    FailureApplied(cfg, db, step);
    FailExtractionShape(db, cmd, error, budget, step.now);
    RetriesAreRetryable(db, cmd, error, budget, step.now);
  }

  lemma FailureApplied(cfg: Config, db: Db, step: Step)
    requires step.call.FailExtractionCall?
    ensures Apply(cfg, db, step) ==
            FailExtraction(db, step.call.work.cmd, step.call.error, cfg.extractionMaxRetries, step.now)
  {
    hide FailExtraction, StepOk;
  }

  lemma RetriesAreRetryable(db: Db, cmd: Command, error: Failure, budget: nat, now: int)
    requires FailExtraction(db, cmd, error, budget, now).reply.RetryAt?
    ensures error.retryable
  {
    hide StepOk, LogGrows, FailFrom, MarkExtraction;
  }

  /** The pages stay, and no command for a page is sent. */
  ghost predicate PagesKept(db: Db, after: Db) {
    after.pages == db.pages && forall k <- after.outbox :: k in db.outbox || !k.ExtractionPageKey?
  }

  lemma RecoveryKeepsPages(db: Db, pick: nat, now: int)
    requires db.job.status == Extracting
    ensures PagesKept(db, Recover(db, pick, now).db)
  {
    hide StepOk, LogGrows, MaxSequence, RecoverDiscovery, RecoverExport;
  }

  lemma CrawlKeepsPages(cfg: Config, db: Db, step: Step)
    requires db.job.status == Extracting && (PlanningOrBrowser(step.call) || CrawlCall(step.call))
    ensures PagesKept(db, Apply(cfg, db, step).db)
  {
    hide ClaimExtraction, CompleteExtraction, FailExtraction, ClaimValidation, CompleteValidation, FailValidation;
    hide ClaimExport, CompleteExport, FailExport, Cancel, Recover, StepOk, LogGrows, MaxSequence;
    hide StorePlan, StoreCapture, Explore, RetryOrFail;
  }

  lemma LaterKeepPages(cfg: Config, db: Db, step: Step)
    requires DbOk(cfg, db) && db.job.status == Extracting
    requires ExtractOrValidate(step.call) || ExportCall(step.call) || step.call.CancelCall?
    requires !step.call.ClaimExtractionCall? && !step.call.CompleteExtractionCall? && !step.call.FailExtractionCall?
    ensures PagesKept(db, Apply(cfg, db, step).db)
  {
    hide ClaimPlanning, CompletePlanning, FailPlanning, PrepareBrowser, CompleteBrowser, FailBrowser;
    hide ClaimDiscovery, CompleteDiscovery, FailDiscovery, Recover, StepOk, LogGrows, MaxSequence;
    hide TablesOk, Numbered, FormatsOk, StoreValidation, StoreFile, RetryOrFail;
  }

  /** No other call moves a page or sends a command of the stage. */
  lemma OthersKeepPages(cfg: Config, db: Db, step: Step)
    requires DbOk(cfg, db) && db.job.status == Extracting
    requires !step.call.ClaimExtractionCall? && !step.call.CompleteExtractionCall? && !step.call.FailExtractionCall?
    ensures PagesKept(db, Apply(cfg, db, step).db)
  {
    hide Apply, PagesKept, RowsOk, Numbered, FormatsOk;
    if step.call.RecoverCall? {
      RecoveryIs(cfg, db, step);
      RecoveryKeepsPages(db, step.call.pick, step.now);
    } else if PlanningOrBrowser(step.call) || CrawlCall(step.call) {
      CrawlKeepsPages(cfg, db, step);
    } else {
      LaterKeepPages(cfg, db, step);
    }
  }

  lemma OthersKeepChain(cfg: Config, s: System, at: Option<nat>, step: Step, t: System)
    requires Chain(s, at) && SystemOk(cfg, s) && s.db.job.status == Extracting && Next(cfg, s, step, t)
    requires !step.call.ClaimExtractionCall? && !step.call.CompleteExtractionCall? && !step.call.FailExtractionCall?
    ensures Chain(t, at)
  {
    hide Apply, TablesOk, Numbered, FormatsOk, StageOk;
    OthersKeepPages(cfg, s.db, step);
    HandsOutExtraction(cfg, s.db, step);
  }

  /** A refused claim keeps the rows. */
  lemma RefusedKeepsChain(cfg: Config, s: System, at: Option<nat>, step: Step, t: System)
    requires Chain(s, at) && SystemOk(cfg, s) && s.db.job.status == Extracting && Next(cfg, s, step, t)
    requires step.call.ClaimExtractionCall? && ExtractionPage(s.db.pages, step.call.cmd.page).None?
    ensures Chain(t, at)
  {
    hide Apply, TablesOk, Numbered, FormatsOk, StageOk;
    HandsOutExtraction(cfg, s.db, step);
    ClaimApplied(cfg, s.db, step);
    ClaimExtractionMoves(cfg, s.db, step.call.cmd, step.now, step.call.until);
  }

  lemma ClaimApplied(cfg: Config, db: Db, step: Step)
    requires step.call.ClaimExtractionCall?
    ensures Apply(cfg, db, step) == ClaimExtraction(db, step.call.cmd, step.now, step.call.until)
  {
    hide ClaimExtraction, StepOk;
  }

  /** One step of the stage that breaks nothing. */
  lemma ChainGoesOn(cfg: Config, s: System, at: Option<nat>, step: Step, t: System) returns (next: Option<nat>)
    requires Chain(s, at) && SystemOk(cfg, s) && s.db.job.status == Extracting && Next(cfg, s, step, t)
    requires !BreaksChain(s.db, step.call)
    requires forall w <- s.works :: w.cmd.key in s.db.outbox && s.db.outbox[w.cmd.key] == w.cmd
    ensures t.db.job.status == Extracting ==> Chain(t, next)
    ensures t.db.job.status == Validating ==> AllExtracted(t.db.pages)
  {
    hide Apply, SystemOk, Chain, SecondGrant, RepeatedCompletion, LateFailure;
    next := at;
    if t.db.job.status == Validating { OnlyCompletionLeaves(cfg, s, step, t); }
    if step.call.CompleteExtractionCall? {
      next := CompletionKeepsChain(cfg, s, at, step, t);
    } else if t.db.job.status == Extracting {
      if step.call.ClaimExtractionCall? {
        if ExtractionPage(s.db.pages, step.call.cmd.page).Some? {
          next := ExtractionPage(s.db.pages, step.call.cmd.page);
          GrantKeepsChain(cfg, s, at, step, t);
        } else {
          RefusedKeepsChain(cfg, s, at, step, t);
        }
      } else if step.call.FailExtractionCall? {
        FailureKeepsChain(cfg, s, at, step, t);
      } else {
        OthersKeepChain(cfg, s, at, step, t);
      }
    }
  }

  lemma OnlyCompletionLeaves(cfg: Config, s: System, step: Step, t: System)
    requires SystemOk(cfg, s) && s.db.job.status == Extracting && Next(cfg, s, step, t)
    requires t.db.job.status == Validating
    ensures step.call.CompleteExtractionCall?
  {
    hide Apply, RowsOk, Numbered, FormatsOk;
    OnlyCompletionsLeave(cfg, s.db, step);
  }

  // Whole runs

  /** The step from state `k` breaks the chain. */
  ghost predicate BrokenAt(trace: seq<System>, steps: seq<Step>, k: nat)
    requires k < |steps| && k < |trace|
  {
    BreaksChain(trace[k].db, steps[k].call)
  }

  lemma ChainAtFirst(s: System)
    requires Initial(s)
    ensures Chain(s, None) && s.db.job.status == Queued
  {
  }

  lemma {:induction false} ChainHolds(cfg: Config, trace: seq<System>, steps: seq<Step>, n: nat)
    returns (at: Option<nat>)
    requires QueueRun(cfg, trace, steps) && n <= |steps|
    requires BeforeExtraction(trace[n].db.job.status) || trace[n].db.job.status == Extracting
    requires forall k :: 0 <= k < n ==> !BrokenAt(trace, steps, k)
    ensures Chain(trace[n], at) && (BeforeExtraction(trace[n].db.job.status) ==> at.None?)
  {
    hide Apply, Chain, BreaksChain, Initial, RowsOk, Numbered, FormatsOk;
    at := None;
    if n == 0 {
      ChainAtFirst(trace[0]);
    } else {
      var s, step, t := trace[n - 1], steps[n - 1], trace[n];
      Reachable(cfg, trace, steps, n - 1);
      assert Next(cfg, s, step, t);
      assert JobStep(s.db.job, t.db.job);
      at := ChainHolds(cfg, trace, steps, n - 1);
      if BeforeExtraction(s.db.job.status) {
        ChainBegins(cfg, s, step, t);
      } else {
        WorksAreCommanded(cfg, trace, steps, n - 1);
        assert !BrokenAt(trace, steps, n - 1);
        at := ChainGoesOn(cfg, s, at, step, t);
      }
    }
  }

  /**
   * Over any run of the queue: when the job enters VALIDATING with a VISITED page neither EXTRACTED nor PARTIAL, some
   * step up to then granted the command without a page after a page had been touched, completed a page that was
   * extracted already, or reported a retryable failure of a page that was. A failure of the command without a page, a
   * crash, a recovery or a refused redelivery alone never skips a page.
   */
  lemma SkipHasCause(cfg: Config, trace: seq<System>, steps: seq<Step>, n: nat) returns (k: nat)
    requires QueueRun(cfg, trace, steps) && n < |steps|
    requires trace[n].db.job.status == Extracting && trace[n + 1].db.job.status == Validating
    requires !AllExtracted(trace[n + 1].db.pages)
    ensures k <= n && BrokenAt(trace, steps, k)
  {
    hide Apply, Chain, BreaksChain, Initial, AllExtracted, SystemOk;
    if forall j :: 0 <= j < n ==> !BrokenAt(trace, steps, j) {
      k := n;
      var at := ChainHolds(cfg, trace, steps, n);
      Reachable(cfg, trace, steps, n);
      WorksAreCommanded(cfg, trace, steps, n);
      assert Next(cfg, trace[n], steps[n], trace[n + 1]);
      if !BrokenAt(trace, steps, n) { at := ChainGoesOn(cfg, trace[n], at, steps[n], trace[n + 1]); }
    } else {
      k :| 0 <= k < n && BrokenAt(trace, steps, k);
    }
  }
}
