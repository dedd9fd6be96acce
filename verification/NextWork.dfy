/** What each completed stage hands on: the plan, the captured page, and the next page to visit or to extract. */
module NextWork {
  import opened Wrappers
  import opened Domain
  import opened Rows
  import opened Lifecycle
  import opened Discovery
  import opened Frontier
  import opened Stages
  import opened Protocol
  import opened Invariants
  import opened Runs

  // The plan

  ghost predicate Plans(cfg: Config, dbs: seq<Db>, steps: seq<Step>, i: nat, plan: Plan)
    requires |dbs| == |steps| + 1 && i < |steps|
  {
    && steps[i].call.CompletePlanningCall? && steps[i].call.plan == plan
    && Apply(cfg, dbs[i], steps[i]).reply == Done
  }

  lemma PlanStep(cfg: Config, db: Db, step: Step)
    ensures var r := Apply(cfg, db, step);
            if step.call.CompletePlanningCall? && r.reply == Done
            then db.plan == None && r.db.plan == Some(step.call.plan)
            else r.db.plan == db.plan
  {
    hide Apply;
    if step.call.CompletePlanningCall? {
      PlanningStores(cfg, db, step);
    } else if step.call.RecoverCall? {
      RecoveryIs(cfg, db, step);
      RecoveryKeepsPlan(db, step.call.pick, step.now);
    } else if PlanningOrBrowser(step.call) || CrawlCall(step.call) {
      EarlyKeepsPlan(cfg, db, step);
    } else if ExtractOrValidate(step.call) {
      LateKeepsPlan(cfg, db, step);
    } else {
      LastKeepsPlan(cfg, db, step);
    }
  }

  lemma PlanningStores(cfg: Config, db: Db, step: Step)
    requires step.call.CompletePlanningCall?
    ensures var r := Apply(cfg, db, step);
            if r.reply == Done then db.plan == None && r.db.plan == Some(step.call.plan) else r.db.plan == db.plan
  {
    hide StepOk, LogGrows, MaxSequence;
  }

  lemma RecoveryKeepsPlan(db: Db, pick: nat, now: int)
    ensures Recover(db, pick, now).db.plan == db.plan
  {
    hide StepOk, LogGrows, MaxSequence, Least;
  }

  lemma EarlyKeepsPlan(cfg: Config, db: Db, step: Step)
    requires !step.call.CompletePlanningCall? && (PlanningOrBrowser(step.call) || CrawlCall(step.call))
    ensures Apply(cfg, db, step).db.plan == db.plan
  {
    hide ClaimExtraction, CompleteExtraction, FailExtraction, ClaimValidation, CompleteValidation, FailValidation;
    hide ClaimExport, CompleteExport, FailExport, Cancel, Recover, CompletePlanning;
    hide StepOk, LogGrows, MaxSequence, JobStep, Least, Explore, RetryOrFail;
  }

  lemma LateKeepsPlan(cfg: Config, db: Db, step: Step)
    requires ExtractOrValidate(step.call)
    ensures Apply(cfg, db, step).db.plan == db.plan
  {
    hide ClaimPlanning, CompletePlanning, FailPlanning, PrepareBrowser, CompleteBrowser, FailBrowser;
    hide ClaimDiscovery, CompleteDiscovery, FailDiscovery, ClaimExport, CompleteExport, FailExport, Cancel, Recover;
    hide StepOk, LogGrows, MaxSequence, JobStep, Least, StorePage, StoreValidation, RetryOrFail;
  }

  lemma LastKeepsPlan(cfg: Config, db: Db, step: Step)
    requires ExportCall(step.call) || step.call.CancelCall?
    ensures Apply(cfg, db, step).db.plan == db.plan
  {
    hide ClaimPlanning, CompletePlanning, FailPlanning, PrepareBrowser, CompleteBrowser, FailBrowser;
    hide ClaimDiscovery, CompleteDiscovery, FailDiscovery, ClaimExtraction, CompleteExtraction, FailExtraction;
    hide ClaimValidation, CompleteValidation, FailValidation, Recover, StepOk, LogGrows, MaxSequence, JobStep;
  }

  /** In every state of any run the job has a plan if and only if some planning was completed, and it is that plan. */
  lemma {:induction false} PlanOfRun(cfg: Config, dbs: seq<Db>, steps: seq<Step>, n: nat, plan: Plan)
    requires CallRun(cfg, dbs, steps) && n <= |steps|
    ensures dbs[n].plan == Some(plan) <==> exists i :: 0 <= i < n && Plans(cfg, dbs, steps, i, plan)
  {
    hide Apply;
    if n > 0 {
      PlanOfRun(cfg, dbs, steps, n - 1, plan);
      PlanStep(cfg, dbs[n - 1], steps[n - 1]);
      assert dbs[n] == Apply(cfg, dbs[n - 1], steps[n - 1]).db;
      assert Plans(cfg, dbs, steps, n - 1, plan) || !Plans(cfg, dbs, steps, n - 1, plan);
    }
  }

  // The captured page

  /** A stored capture leaves one page, the source at depth 0, the counters of one page, and one command to visit it. */
  lemma CaptureStores(cfg: Config, db: Db, finalUrl: Url, n: nat, now: int)
    requires DbOk(cfg, db) && CompleteBrowser(cfg, db, finalUrl, n, now).reply == Done
    ensures var after := CompleteBrowser(cfg, db, finalUrl, n, now).db;
            var visit := Command(RunDiscovery, DiscoverySourceKey, 1, Some(0), None, None);
            && after.pages == [Page(finalUrl, PageDiscovered, 0, None, now, cfg.uuid(0), FromSource, None, None)]
            && DiscoverySourceKey !in db.outbox && after.outbox == db.outbox[DiscoverySourceKey := visit]
            && after.job.pagesDiscovered == Max(db.job.pagesDiscovered, 1)
            && after.job.pagesProcessed == Max(db.job.pagesProcessed, 1)
            && after.job.status == Discovering && after.job.lease == None
  {
    hide StepOk, LogGrows, MaxSequence, TablesOk, Numbered, FormatsOk;
    assert db.pages == [];
  }

  // The next page

  predicate Waiting(visited: bool, p: Page) {
    if visited then p.status == PageVisited && p.extraction == None else p.status == PageDiscovered
  }

  function Time(visited: bool, p: Page): int {
    if !visited then p.discoveredAt else if p.visitedAt.Some? then p.visitedAt.value else 0
  }

  /** The page waits, and no waiting page has a smaller depth, time and identifier, in this order of importance. */
  ghost predicate IsNext(pages: seq<Page>, visited: bool, p: nat) {
    && p < |pages| && Waiting(visited, pages[p])
    && forall q :: 0 <= q < |pages| && Waiting(visited, pages[q]) ==>
         || pages[p].depth < pages[q].depth
         || (pages[p].depth == pages[q].depth
             && (Time(visited, pages[p]) < Time(visited, pages[q])
                 || (Time(visited, pages[p]) == Time(visited, pages[q]) && pages[p].uuid <= pages[q].uuid)))
  }

  lemma LeastIsNext(pages: seq<Page>)
    ensures var p := Least(pages, IsDiscovered, DiscoveredAt);
            if p.Some? then IsNext(pages, false, p.value) else forall q <- pages :: !Waiting(false, q)
    ensures var p := Least(pages, NotExtracted, VisitedAt);
            if p.Some? then IsNext(pages, true, p.value) else forall q <- pages :: !Waiting(true, q)
  {
  }

  /** The rows before and after, up to the command that is sent. */
  ghost predicate Sends(db: Db, after: Db, cmd: Command) {
    cmd.key !in db.outbox && after.outbox == db.outbox[cmd.key := cmd]
  }

  /**
   * A completed visit sends one command: for the next DISCOVERED page while there is one, and otherwise, on entering
   * EXTRACTING, the extraction command that names no page.
   */
  lemma NextVisit(cfg: Config, db: Db, w: Work, capture: Capture, now: int) returns (p: nat)
    requires w.DiscoveryWork? && CompleteDiscovery(cfg, db, w, capture, now).reply == Done
    ensures var after := CompleteDiscovery(cfg, db, w, capture, now).db;
            && after.job.lease == None
            && if exists q :: q in after.pages && Waiting(false, q)
               then IsNext(after.pages, false, p) && after.job.status == Discovering
                    && Sends(db, after, Command(RunDiscovery, DiscoveryPageKey(p), 1, Some(p), None, None))
               else after.job.status == Extracting
                    && Sends(db, after, Command(RunExtraction, ExtractionKey, 1, None, None, None))
  {
    hide StepOk, LogGrows, MaxSequence, JobStep, Expand, Least, IsNext;
    if w.page < |db.pages| {
      var expanded := Expand(cfg, db, w.plan, w.page, capture, now);
      LeastIsNext(expanded.pages);
      var next := Least(expanded.pages, IsDiscovered, DiscoveredAt);
      p := if next.Some? then next.value else 0;
    }
  }

  /**
   * A stored extraction sends one command: for the next VISITED page that the extraction has not touched, while there
   * is one, and otherwise, on entering VALIDATING, for a new validation run.
   */
  lemma NextExtraction(cfg: Config, db: Db, w: Work, extract: Extract, now: int) returns (p: nat)
    requires w.ExtractionWork? && CompleteExtraction(cfg, db, w, extract, now).reply == Done
    ensures var after, version := CompleteExtraction(cfg, db, w, extract, now).db, w.plan.version;
            && after.job.lease == None
            && if exists q :: q in after.pages && Waiting(true, q)
               then IsNext(after.pages, true, p) && after.job.status == Extracting && after.runs == db.runs
                    && Sends(db, after, Command(RunExtraction, ExtractionPageKey(p, version), 1, Some(p), None, None))
               else after.job.status == Validating && after.runs == db.runs + [RunQueued]
                    && Sends(
                         db, after, Command(RunValidation, ValidationKey(|db.runs|), 1, None, Some(|db.runs|), None))
  {
    hide StepOk, LogGrows, MaxSequence, JobStep, StoreExtract, Least, IsNext;
    if w.page < |db.pages| {
      var stored := StoreExtract(cfg, db, w.plan, w.page, extract);
      LeastIsNext(stored.pages);
      var next := Least(stored.pages, NotExtracted, VisitedAt);
      p := if next.Some? then next.value else 0;
    }
  }
}
