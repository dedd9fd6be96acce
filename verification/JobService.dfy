/** The service object (services.py): rows updated in place, each method proved against its transaction. */
module JobServices {
  import opened Wrappers
  import opened Domain
  import opened Rows
  import opened Lifecycle
  import opened Discovery
  import opened Frontier
  import opened Stages
  import opened Protocol
  import opened Runs

  /**
   * The rows of one job. Every public method is one transaction that holds the job row's lock; where the original
   * raises an exception the method restores the rows it started from and replies `Raised`.
   */
  class JobService {
    const cfg: Config
    var job: Job
    var plan: Option<Plan>
    var pages: seq<Page>
    var records: seq<Record>
    var runs: seq<RunStatus>
    var results: seq<ValidationResult>
    var exports: seq<Export>
    var files: seq<GeneratedFile>
    var outbox: map<Key, Command>
    var events: seq<Event>

    function State(): Db
      reads this
    {
      Db(job, plan, pages, records, runs, results, exports, files, outbox, events)
    }

    /** create_job. */
    constructor (cfg: Config, formats: seq<Format>, maxAttempts: nat)
      ensures this.cfg == cfg && State() == Created(formats, maxAttempts)
    {
      this.cfg := cfg;
      job := Job(Queued, 0, 0, 0, maxAttempts, false, None, None, None, 0, 0, 0, None, formats);
      plan, pages, records, runs, results, exports, files := None, [], [], [], [], [], [];
      outbox := map[PhaseKey(PlanningPhase, 1) := PlanningCommand(1)];
      events := [];
      new;
      AppendEvent(OnJobQueued);
    }

    // Helpers of the transactions

    method Rollback(saved: Db)
      modifies this
      ensures State() == saved
    {
      job, plan, pages, records, runs := saved.job, saved.plan, saved.pages, saved.records, saved.runs;
      results, exports, files, outbox, events :=
        saved.results, saved.exports, saved.files, saved.outbox, saved.events;
    }

    method AppendEvent(e: EventType)
      modifies `events
      ensures State() == Append(old(State()), e)
    {
      events := events + [Event(MaxSequence(events) + 1, e)];
    }

    /** The fields of the job row that a transition writes. */
    method StampMove(target: JobStatus, now: int)
      modifies `job
      ensures job == Moved(old(job), target, now)
    {
      job := job.(status := target, statusVersion := job.statusVersion + 1);
      if target == Planning && job.startedAt.None? {
        job := job.(startedAt := Some(now));
      }
      if Terminal(target) {
        job := job.(completedAt := Some(now));
        if target == Cancelled {
          job := job.(progress := Min(job.progress, 99));
        }
      }
    }

    method Move(expected: JobStatus, target: JobStatus, now: int) returns (ok: bool)
      modifies `job, `events
      ensures Transition(old(State()), expected, target, now) == if ok then Some(State()) else None
      ensures !ok ==> State() == old(State())
    {
      hide Moved, EventFor, Append, LogGrows, Allowed;
      if !Allowed(expected, target) || job.status != expected || Terminal(job.status) {
        return false;
      }
      ghost var before := State();
      StampMove(target, now);
      assert State() == before.(job := Moved(before.job, target, now));
      AppendEvent(EventFor(expected, target));
      return true;
    }

    method Send(cmd: Command) returns (ok: bool)
      modifies `outbox
      ensures Enqueue(old(State()), cmd) == if ok then Some(State()) else None
      ensures !ok ==> State() == old(State())
    {
      ok := cmd.key !in outbox;
      if ok {
        outbox := outbox[cmd.key := cmd];
      }
    }

    method AcknowledgeCancel(now: int) returns (reply: Reply)
      modifies `job, `events
      ensures Outcome(State(), reply) == Acknowledge(old(State()), now)
    {
      var ok := Move(job.status, Cancelled, now);
      reply := if ok then Nothing else Raised;
    }

    // Planning

    method ClaimPlanningWork(cmd: Command, now: int, until: int) returns (reply: Reply)
      modifies this
      ensures Outcome(State(), reply) == ClaimPlanning(old(State()), cmd, now, until)
    {
      hide StepOk;
      if job.status == BrowserInitializing || job.status == Cancelled || job.status == Failed {
        return Nothing;
      }
      if job.status != Queued && job.status != Planning {
        return Raised;
      }
      if job.cancelRequested {
        reply := AcknowledgeCancel(now);
        return;
      }
      if job.status == Planning && job.lease.Some? && job.lease.value > now {
        return Nothing;
      }
      if job.status == Queued {
        job := job.(progress := Max(job.progress, 10));
        var _ := Move(Queued, Planning, now);
      }
      job := job.(lease := Some(until), lastError := None);
      return Claimed(PlanningWork(cmd));
    }

    method CompletePlanningWork(newPlan: Plan, now: int) returns (reply: Reply)
      modifies this
      ensures Outcome(State(), reply) == CompletePlanning(old(State()), newPlan, now)
    {
      hide StepOk;
      if job.status == BrowserInitializing || job.status == Cancelled {
        return Nothing;
      }
      if job.status != Planning {
        return Raised;
      }
      if job.cancelRequested {
        reply := AcknowledgeCancel(now);
        return;
      }
      if plan.Some? {
        return Raised;
      }
      var saved := State();
      plan := Some(newPlan);
      job := job.(progress := Max(job.progress, 20));
      var moved := Move(Planning, BrowserInitializing, now);
      var sent := Send(BrowserCommand(1));
      if !sent {
        Rollback(saved);
        return Raised;
      }
      job := job.(lease := None);
      return Done;
    }

    /** The error fields that every failure handler writes. */
    method NoteFailure(error: Failure)
      modifies `job
      ensures State() == RecordFailure(old(State()), error)
    {
      job := job.(lastError := Some(error));
      job := job.(lease := None);
    }

    /** A retryable error counts an attempt; the stage is tried again within the budget. */
    method CountFailure(error: Failure, budget: nat) returns (retry: bool)
      modifies `job
      ensures State() == if error.retryable then CountAttempt(old(State())) else old(State())
      ensures retry <==> error.retryable && old(job).attempt + 1 <= budget
    {
      retry := false;
      if error.retryable {
        job := job.(attempt := job.attempt + 1);
        retry := job.attempt <= budget;
      }
    }

    method FailPlanningWork(error: Failure, budget: nat, now: int) returns (reply: Reply)
      modifies this
      ensures Outcome(State(), reply) == FailPlanning(old(State()), error, budget, now)
    {
      hide StepOk;
      if job.status != Planning {
        return Nothing;
      }
      if job.cancelRequested {
        reply := AcknowledgeCancel(now);
        return;
      }
      NoteFailure(error);
      var retry := CountFailure(error, budget);
      if retry {
        AppendEvent(OnPlanningRetry);
        return RetryAt(job.attempt);
      }
      var _ := Move(Planning, Failed, now);
      return Nothing;
    }

    // Browser capture

    method PrepareBrowserWork(cmd: Command, now: int) returns (reply: Reply)
      modifies this
      ensures Outcome(State(), reply) == PrepareBrowser(old(State()), cmd, now)
    {
      hide StepOk;
      if job.status == Cancelled || job.status == Failed {
        return Nothing;
      }
      if job.status != BrowserInitializing {
        return Raised;
      }
      if job.cancelRequested {
        reply := AcknowledgeCancel(now);
        return;
      }
      job := job.(lease := Some(now + 120));
      AppendEvent(OnBrowserInitializing);
      return Claimed(BrowserWork(cmd));
    }

    /** The captured source page is found or inserted, then reset to the frontier's first page. */
    method StoreSource(finalUrl: Url, now: int) returns (source: nat)
      modifies `pages
      ensures (pages, source) == SourceInventory(cfg, old(pages), finalUrl, now)
      ensures State() == old(State()).(pages := pages)
    {
      var found := FindUrl(pages, finalUrl);
      if found.None? {
        pages := pages + [Page(finalUrl, PageDiscovered, 0, None, now, cfg.uuid(|pages|), FromSource, None, None)];
        return |pages| - 1;
      }
      source := found.value;
      pages := pages[source := pages[source].(status := PageDiscovered, depth := 0, via := FromSource)];
    }

    method AppendEvents(e: EventType, n: nat)
      modifies `events
      ensures State() == AppendMany(old(State()), e, n)
    {
      hide Append, LogGrows;
      for i := 0 to n
        invariant AppendMany(State(), e, n - i) == AppendMany(old(State()), e, n)
      {
        AppendEvent(e);
      }
    }

    method RecordCapture(finalUrl: Url, lifecycleEvents: nat, now: int) returns (source: nat)
      modifies `pages, `job, `events
      ensures State() == CaptureRows(cfg, old(State()), finalUrl, lifecycleEvents, now)
      ensures source == SourceInventory(cfg, old(pages), finalUrl, now).1
    {
      hide SourceInventory, LogGrows, Append, AppendMany;
      source := StoreSource(finalUrl, now);
      job := job.(pagesDiscovered := Max(job.pagesDiscovered, 1), pagesProcessed := Max(job.pagesProcessed, 1));
      AppendEvents(OnBrowserLifecycle, lifecycleEvents);
      AppendEvent(OnBrowserCompleted);
    }

    method CompleteBrowserWork(finalUrl: Url, lifecycleEvents: nat, now: int) returns (reply: Reply)
      modifies this
      ensures Outcome(State(), reply) == CompleteBrowser(cfg, old(State()), finalUrl, lifecycleEvents, now)
    {
      hide StepOk, SourceInventory, LogGrows, CaptureRows, CaptureShape, JobStep;
      if job.status == Cancelled || job.status == Failed {
        return Nothing;
      }
      if job.status != BrowserInitializing {
        return Raised;
      }
      if job.cancelRequested {
        reply := AcknowledgeCancel(now);
        return;
      }
      var saved := State();
      var source := RecordCapture(finalUrl, lifecycleEvents, now);
      job := job.(progress := Max(job.progress, 30));
      var moved := Move(BrowserInitializing, Discovering, now);
      if moved {
        var sent := Send(DiscoveryCommand(DiscoverySourceKey, 1, source));
        if sent {
          job := job.(lease := None);
          return Done;
        }
      }
      Rollback(saved);
      return Raised;
    }

    method FailBrowserWork(cmd: Command, error: Failure, cancelled: bool, now: int) returns (reply: Reply)
      modifies this
      ensures Outcome(State(), reply) == FailBrowser(old(State()), cmd, error, cancelled, now)
    {
      hide StepOk;
      if job.status == Cancelled {
        return Nothing;
      }
      if cancelled || job.cancelRequested {
        if job.status == BrowserInitializing {
          reply := AcknowledgeCancel(now);
          return;
        }
        return Nothing;
      }
      var saved := State();
      NoteFailure(error);
      if error.retryable && cmd.attempt < job.maxAttempts {
        AppendEvent(OnBrowserRetry);
        return Done;
      }
      var moved := Move(BrowserInitializing, Failed, now);
      if !moved {
        Rollback(saved);
        return Raised;
      }
      return Nothing;
    }

    // Discovery

    method ClaimDiscoveryWork(cmd: Command, now: int, until: int) returns (reply: Reply)
      modifies this
      ensures Outcome(State(), reply) == ClaimDiscovery(old(State()), cmd, now, until)
    {
      hide StepOk;
      if job.status == Cancelled || job.status == Failed {
        return Nothing;
      }
      if job.status != Discovering {
        return Raised;
      }
      if job.cancelRequested {
        reply := AcknowledgeCancel(now);
        return;
      }
      var page := DiscoveryPage(pages, cmd.page);
      if page.None? {
        return Nothing;
      }
      if plan.None? {
        return Raised;
      }
      pages := pages[page.value := pages[page.value].(status := PageQueued)];
      job := job.(lease := Some(until));
      AppendEvent(OnPageQueued(page.value));
      return Claimed(DiscoveryWork(cmd, page.value, plan.value));
    }

    method InsertPage(parent: nat, c: Candidate, status: PageStatus, now: int)
      modifies `pages, `job, `events
      ensures State() == AddPage(cfg, old(State()), parent, c, status, now)
    {
      pages := pages + [Page(c.url, status, c.depth, Some(parent), now, cfg.uuid(|pages|), c.via, None, None)];
      if status == PageDiscovered {
        job := job.(pagesDiscovered := job.pagesDiscovered + 1);
        AppendEvent(OnPageDiscovered(c.url, c.depth));
      } else {
        AppendEvent(OnPageRejected);
      }
    }

    /** _persist_discovery_candidates. */
    method PersistCandidates(limits: Plan, parent: nat, candidates: seq<Candidate>, rejected: bool, now: int)
      modifies `pages, `job, `events
      ensures State() == Persist(cfg, old(State()), limits, parent, candidates, rejected, now)
    {
      hide LogGrows, FindUrl, AddPage;
      var accepted: nat := CountAccepted(pages);
      for i := 0 to |candidates|
        invariant PersistFrom(cfg, State(), limits, parent, candidates[i..], rejected, accepted, now) ==
                  Persist(cfg, old(State()), limits, parent, candidates, rejected, now)
      {
        var c := candidates[i];
        assert candidates[i..][1..] == candidates[i + 1..];
        if FindUrl(pages, c.url).Some? {
          AppendEvent(OnPageDuplicate);
          continue;
        }
        var status := if rejected then PageRejected else PageDiscovered;
        if !rejected && accepted >= Min(cfg.discoveryMaxPages, limits.maxPages) {
          status := PageSkipped;
        }
        InsertPage(parent, c, status, now);
        if status == PageDiscovered {
          accepted := accepted + 1;
        }
      }
    }

    method VisitPage(i: nat, now: int)
      requires i < |pages|
      modifies `pages, `job, `events
      ensures State() == Visit(old(State()), i, now) && i < |pages|
    {
      pages := pages[i := pages[i].(status := PageVisited, visitedAt := Some(now))];
      job := job.(pagesProcessed := job.pagesProcessed + 1);
      AppendEvent(OnPageVisited(i, pages[i].depth));
    }

    /** The decision of a visited page: its links, and its locations when it is a sitemap. */
    method DecidePage(discovery: DiscoveryService, limits: Plan, page: Page, capture: Capture, seen: set<Url>)
      returns (d: Decision)
      requires discovery.cfg == cfg
      ensures d == Decide(cfg, limits, page, capture, seen)
    {
      hide FromSignals, SitemapCandidates, Sound;
      d := discovery.Signals(limits, page.depth, capture.links, seen);
      if page.via == FromSitemap && capture.locations.Some? {
        var s := discovery.Sitemap(page.depth, capture.locations.value, seen);
        d := Decision(d.candidates + s.candidates, d.rejected + s.rejected, d.duplicates + s.duplicates);
      }
    }

    method ExpandPage(discovery: DiscoveryService, limits: Plan, i: nat, capture: Capture, now: int)
      requires discovery.cfg == cfg && i < |pages|
      modifies `pages, `job, `events
      ensures State() == Expand(cfg, old(State()), limits, i, capture, now)
    {
      hide LogGrows, Visit, Persist, Decide, Probe, SeenUrls;
      VisitPage(i, now);
      var seen := SeenUrls(pages);
      var page := pages[i];
      var d := DecidePage(discovery, limits, page, capture, seen);
      PersistCandidates(limits, i, d.candidates, false, now);
      PersistCandidates(limits, i, d.rejected, true, now);
      if d.duplicates > 0 {
        AppendEvent(OnPageDuplicate);
      }
      PersistCandidates(limits, i, Probe(cfg, page, seen), false, now);
    }

    method AdvanceDiscovery(now: int) returns (ok: bool)
      modifies this
      ensures if ok then Advance(old(State()), now) == Some(State()) else Advance(old(State()), now) == None
    {
      hide LogGrows, JobStep;
      var next := Least(pages, IsDiscovered, DiscoveredAt);
      if next.Some? {
        ok := Send(DiscoveryCommand(DiscoveryPageKey(next.value), 1, next.value));
        return;
      }
      job := job.(progress := Max(job.progress, 40));
      AppendEvent(OnDiscoveryCompleted);
      ok := Move(Discovering, Extracting, now);
      if ok {
        ok := Send(ExtractionCommand(ExtractionKey, None));
      }
    }

    method CompleteDiscoveryWork(discovery: DiscoveryService, work: Work, capture: Capture, now: int)
      returns (reply: Reply)
      requires work.DiscoveryWork? && discovery.cfg == cfg
      modifies this
      ensures Outcome(State(), reply) == CompleteDiscovery(cfg, old(State()), work, capture, now)
    {
      hide StepOk, LogGrows, JobStep, Expand, Advance;
      if job.status == Cancelled || job.status == Failed {
        return Nothing;
      }
      if job.status != Discovering {
        return Raised;
      }
      if job.cancelRequested {
        reply := AcknowledgeCancel(now);
        return;
      }
      if work.page >= |pages| {
        return Raised;
      }
      var saved := State();
      ExpandPage(discovery, work.plan, work.page, capture, now);
      job := job.(lease := None);
      var ok := AdvanceDiscovery(now);
      if !ok {
        Rollback(saved);
        return Raised;
      }
      return Done;
    }

    method SetPage(page: Option<nat>, status: PageStatus)
      modifies `pages
      ensures State() == MarkPage(old(State()), page, status)
    {
      if page.Some? && page.value < |pages| {
        pages := pages[page.value := pages[page.value].(status := status)];
      }
    }

    method RetryDiscovery(cmd: Command, error: Failure, budget: nat, now: int) returns (reply: Reply)
      requires job.status == Discovering
      modifies this
      ensures Outcome(State(), reply) == RetryOrFail(
                old(State()), RecordFailure(MarkPage(old(State()), cmd.page, PageDiscovered), error),
                RecordFailure(MarkPage(old(State()), cmd.page, PageFailed), error),
                error, budget, OnDiscoveryRetry, Some(OnDiscoveryFailed), now)
    {
      hide StepOk, LogGrows, Append, Transition, MarkPage;
      SetPage(cmd.page, PageFailed);
      NoteFailure(error);
      var retry := CountFailure(error, budget);
      if retry {
        SetPage(cmd.page, PageDiscovered);
        RemarkPage(old(State()), error, cmd.page);
        AppendEvent(OnDiscoveryRetry);
        return RetryAt(job.attempt);
      }
      AppendEvent(OnDiscoveryFailed);
      var _ := Move(Discovering, Failed, now);
      return Nothing;
    }

    method FailDiscoveryWork(cmd: Command, error: Failure, budget: nat, now: int) returns (reply: Reply)
      modifies this
      ensures Outcome(State(), reply) == FailDiscovery(old(State()), cmd, error, budget, now)
    {
      hide StepOk, LogGrows, RetryOrFail, Acknowledge, MarkPage;
      if job.status != Discovering {
        return Nothing;
      }
      if job.cancelRequested {
        SetPage(cmd.page, PageSkipped);
        reply := AcknowledgeCancel(now);
        return;
      }
      reply := RetryDiscovery(cmd, error, budget, now);
    }

    /** The second status write replaces the first. */
    static lemma RemarkPage(db: Db, error: Failure, page: Option<nat>)
      ensures MarkPage(CountAttempt(RecordFailure(MarkPage(db, page, PageFailed), error)), page, PageDiscovered) ==
              CountAttempt(RecordFailure(MarkPage(db, page, PageDiscovered), error))
    {
      if page.Some? && page.value < |db.pages| {
        var p := db.pages[page.value];
        assert db.pages[page.value := p.(status := PageFailed)][page.value := p.(status := PageDiscovered)] ==
               db.pages[page.value := p.(status := PageDiscovered)];
      }
    }

    // Extraction

    method ClaimExtractionWork(cmd: Command, now: int, until: int) returns (reply: Reply)
      modifies this
      ensures Outcome(State(), reply) == ClaimExtraction(old(State()), cmd, now, until)
    {
      hide StepOk;
      if job.status == Cancelled || job.status == Failed {
        return Nothing;
      }
      if job.status != Extracting {
        return Raised;
      }
      if job.cancelRequested {
        reply := AcknowledgeCancel(now);
        return;
      }
      var page := ExtractionPage(pages, cmd.page);
      if page.None? {
        return Nothing;
      }
      if plan.None? {
        return Raised;
      }
      pages := pages[page.value := pages[page.value].(extraction := Some(PageExtracting))];
      job := job.(lease := Some(until));
      AppendEvent(OnExtractionStarted(page.value));
      return Claimed(ExtractionWork(cmd, page.value, plan.value));
    }

    /** The savepoint loop: a repeated identity is rolled back to its savepoint and only logged. */
    method StoreRecords(page: nat, extracted: seq<Record>) returns (created: nat)
      modifies `records, `events
      ensures State() == InsertRecords(old(State()), page, extracted)
      ensures created == |records| - |old(records)|
    {
      hide LogGrows, HasIdentity;
      created := 0;
      for i := 0 to |extracted|
        invariant InsertRecords(State(), page, extracted[i..]) == InsertRecords(old(State()), page, extracted)
        invariant created == |records| - |old(records)|
      {
        assert extracted[i..][1..] == extracted[i + 1..];
        if HasIdentity(records, extracted[i].identity) {
          AppendEvent(OnRecordDuplicate);
        } else {
          records := records + [extracted[i].(page := page)];
          created := created + 1;
        }
      }
    }

    method StorePageRecords(limits: Plan, i: nat, extract: Extract)
      requires i < |pages|
      modifies `pages, `job, `records, `events
      ensures State() == StoreExtract(cfg, old(State()), limits, i, extract)
    {
      hide LogGrows, InsertRecords, Append, AppendMany, HasIdentity;
      var allowed := Min(limits.maxRecords, cfg.serverMaxRecords);
      var existing := |records|;
      var created := StoreRecords(i, extract.records[..Min(|extract.records|, Max(0, allowed - existing))]);
      pages := pages[i := pages[i].(extraction := Some(if created > 0 then PageExtracted else PagePartial))];
      job := job.(recordsFound := job.recordsFound + created, pagesProcessed := job.pagesProcessed + 1);
      AppendEvents(OnExtractionWarning, Min(extract.warnings, 10));
      AppendEvent(OnPageExtracted(i));
    }

    method AdvanceRecords(limits: Plan, now: int) returns (ok: bool)
      modifies this
      ensures AdvanceExtraction(old(State()), limits, now) == if ok then Some(State()) else None
    {
      hide LogGrows, JobStep;
      var next := Least(pages, NotExtracted, VisitedAt);
      if next.Some? {
        ok := Send(ExtractionCommand(ExtractionPageKey(next.value, limits.version), Some(next.value)));
        return;
      }
      job := job.(progress := Max(job.progress, 60));
      AppendEvent(OnExtractionCompleted);
      ok := Move(Extracting, Validating, now);
      if ok {
        var run := |runs|;
        runs := runs + [RunQueued];
        ok := Send(ValidationCommand(run));
      }
    }

    method CompleteExtractionWork(work: Work, extract: Extract, now: int) returns (reply: Reply)
      requires work.ExtractionWork?
      modifies this
      ensures Outcome(State(), reply) == CompleteExtraction(cfg, old(State()), work, extract, now)
    {
      hide StepOk, LogGrows, JobStep, StoreExtract, AdvanceExtraction;
      if job.status == Cancelled || job.status == Failed {
        return Nothing;
      }
      if job.status != Extracting {
        return Raised;
      }
      if job.cancelRequested {
        reply := AcknowledgeCancel(now);
        return;
      }
      if work.page >= |pages| {
        return Raised;
      }
      var saved := State();
      StorePageRecords(work.plan, work.page, extract);
      job := job.(lease := None);
      var ok := AdvanceRecords(work.plan, now);
      if !ok {
        Rollback(saved);
        return Raised;
      }
      return Done;
    }

    method SetExtractionStatus(page: Option<nat>, status: ExtractionStatus)
      modifies `pages
      ensures State() == MarkExtraction(old(State()), page, status)
    {
      if page.Some? && page.value < |pages| {
        pages := pages[page.value := pages[page.value].(extraction := Some(status))];
      }
    }

    method RetryExtraction(cmd: Command, error: Failure, budget: nat, now: int) returns (reply: Reply)
      requires job.status == Extracting
      modifies this
      ensures Outcome(State(), reply) == RetryOrFail(
                old(State()), RecordFailure(MarkExtraction(old(State()), cmd.page, PagePending), error),
                RecordFailure(MarkExtraction(old(State()), cmd.page, PageExtractionFailed), error),
                error, budget, OnExtractionRetry, Some(OnExtractionFailed), now)
    {
      hide StepOk, LogGrows, Append, Transition, MarkExtraction;
      SetExtractionStatus(cmd.page, PageExtractionFailed);
      NoteFailure(error);
      var retry := CountFailure(error, budget);
      if retry {
        SetExtractionStatus(cmd.page, PagePending);
        RemarkExtraction(old(State()), error, cmd.page);
        AppendEvent(OnExtractionRetry);
        return RetryAt(job.attempt);
      }
      AppendEvent(OnExtractionFailed);
      var _ := Move(Extracting, Failed, now);
      return Nothing;
    }

    method FailExtractionWork(cmd: Command, error: Failure, budget: nat, now: int) returns (reply: Reply)
      modifies this
      ensures Outcome(State(), reply) == FailExtraction(old(State()), cmd, error, budget, now)
    {
      hide StepOk, LogGrows, RetryOrFail, Acknowledge, MarkExtraction;
      if job.status != Extracting {
        return Nothing;
      }
      if job.cancelRequested {
        SetExtractionStatus(cmd.page, PageExtractionSkipped);
        reply := AcknowledgeCancel(now);
        return;
      }
      reply := RetryExtraction(cmd, error, budget, now);
    }

    static lemma RemarkExtraction(db: Db, error: Failure, page: Option<nat>)
      ensures MarkExtraction(
                CountAttempt(RecordFailure(MarkExtraction(db, page, PageExtractionFailed), error)), page,
                PagePending) ==
              CountAttempt(RecordFailure(MarkExtraction(db, page, PagePending), error))
    {
      if page.Some? && page.value < |db.pages| {
        var p := db.pages[page.value];
        assert db.pages[page.value := p.(extraction := Some(PageExtractionFailed))]
                       [page.value := p.(extraction := Some(PagePending))] ==
               db.pages[page.value := p.(extraction := Some(PagePending))];
      }
    }

    // Validation

    method ClaimValidationWork(cmd: Command, now: int, until: int) returns (reply: Reply)
      modifies this
      ensures Outcome(State(), reply) == ClaimValidation(old(State()), cmd, now, until)
    {
      hide StepOk;
      if cmd.run.None? || cmd.run.value >= |runs| || job.status != Validating || runs[cmd.run.value] == RunCompleted {
        return Nothing;
      }
      if job.cancelRequested {
        reply := AcknowledgeCancel(now);
        return;
      }
      if plan.None? {
        return Raised;
      }
      runs := runs[cmd.run.value := RunRunning];
      job := job.(lease := Some(until));
      AppendEvent(OnValidationStarted);
      return Claimed(ValidationWork(cmd, cmd.run.value, plan.value));
    }

    /** One result row and one event per record; values that do not compare, or a second result, raise. */
    method StoreResults(run: nat) returns (ok: bool)
      modifies `results, `events
      ensures InsertResults(cfg, old(State()), run, old(records)) == if ok then Some(State()) else None
    {
      hide LogGrows;
      for i := 0 to |records|
        invariant InsertResults(cfg, State(), run, records[i..]) == InsertResults(cfg, old(State()), run, records)
      {
        assert records[i..][1..] == records[i + 1..];
        var row := ValidationResult(run, records[i].identity);
        if !cfg.compares(records[i].payload) || row in results {
          return false;
        }
        results := results + [row];
        AppendEvent(OnRecordValidated(row.record));
      }
      return true;
    }

    method CloseValidationRun(run: nat, now: int) returns (ok: bool)
      requires run < |runs|
      modifies this
      ensures CloseRun(cfg, old(State()), run, now) == if ok then Some(State()) else None
    {
      hide LogGrows, JobStep, InsertResults;
      ok := StoreResults(run);
      if ok {
        runs := runs[run := RunCompleted];
        job := job.(lease := None);
        job := job.(progress := Max(job.progress, 80));
        AppendEvent(OnValidationCompleted);
        ok := Move(Validating, Exporting, now);
      }
    }

    /** One export row and one command per requested format. */
    method QueueExports(run: nat) returns (ok: bool)
      modifies `exports, `outbox
      ensures InsertExports(old(State()), run, old(job.formats)) == if ok then Some(State()) else None
    {
      hide HasExport;
      for i := 0 to |job.formats|
        invariant InsertExports(State(), run, job.formats[i..]) == InsertExports(old(State()), run, job.formats)
      {
        assert job.formats[i..][1..] == job.formats[i + 1..];
        if HasExport(exports, job.formats[i], run) {
          return false;
        }
        var id := |exports|;
        exports := exports + [Export(job.formats[i], run, ExportQueued, 0)];
        var sent := Send(ExportCommand(id, 1, 1, run));
        if !sent {
          return false;
        }
      }
      return true;
    }

    method CompleteValidationWork(work: Work, now: int) returns (reply: Reply)
      requires work.ValidationWork?
      modifies this
      ensures Outcome(State(), reply) == CompleteValidation(cfg, old(State()), work, now)
    {
      hide StepOk, LogGrows, JobStep, CloseRun, InsertExports;
      if work.run >= |runs| || job.status != Validating {
        return Nothing;
      }
      if job.cancelRequested && records != [] {
        reply := AcknowledgeCancel(now);
        return;
      }
      var saved := State();
      var ok := CloseValidationRun(work.run, now);
      if ok {
        ok := QueueExports(work.run);
      }
      if !ok {
        Rollback(saved);
        return Raised;
      }
      AppendEvent(OnExportsQueued);
      return Done;
    }

    method FailValidationWork(error: Failure, budget: nat, now: int) returns (reply: Reply)
      modifies this
      ensures Outcome(State(), reply) == FailValidation(old(State()), error, budget, now)
    {
      hide StepOk;
      if job.status != Validating {
        return Nothing;
      }
      NoteFailure(error);
      var retry := CountFailure(error, budget);
      if retry {
        AppendEvent(OnValidationRetry);
        return RetryAt(job.attempt);
      }
      AppendEvent(OnValidationFailed);
      var _ := Move(Validating, Failed, now);
      return Nothing;
    }

    // Export

    method ClaimExportWork(cmd: Command, now: int, until: int) returns (reply: Reply)
      modifies this
      ensures Outcome(State(), reply) == ClaimExport(old(State()), cmd, now, until)
    {
      hide StepOk;
      if cmd.exportId.None? || cmd.exportId.value >= |exports|
         || exports[cmd.exportId.value].status == ExportCompleted {
        return Nothing;
      }
      var id := cmd.exportId.value;
      if job.status == Cancelled || job.cancelRequested {
        exports := exports[id := exports[id].(status := ExportCancelled)];
        return Nothing;
      }
      if job.status != Exporting || exports[id].status != ExportQueued {
        return Nothing;
      }
      if exports[id].run >= |runs| || runs[exports[id].run] != RunCompleted {
        return Raised;
      }
      exports := exports[id := exports[id].(status := ExportRunning, attempt := Max(exports[id].attempt, cmd.attempt))];
      job := job.(lease := Some(until));
      AppendEvent(OnExportStarted);
      return Claimed(ExportWork(cmd, id));
    }

    method StoreGeneratedFile(id: nat, storageKey: string, now: int) returns (ok: bool)
      requires id < |exports| && job.status == Exporting
      modifies this
      ensures StoreFile(old(State()), id, storageKey, now) == if ok then Some(State()) else None
    {
      hide LogGrows, JobStep, HasKey, AllExported;
      if HasKey(files, storageKey) {
        return false;
      }
      files := files + [GeneratedFile(id, storageKey)];
      exports := exports[id := exports[id].(status := ExportCompleted)];
      job := job.(lease := None);
      AppendEvent(OnExportCompleted);
      if AllExported(exports) {
        job := job.(progress := 100);
        ok := Move(Exporting, Completed, now);
        return;
      }
      return true;
    }

    method CompleteExportWork(work: Work, storageKey: string, now: int) returns (reply: Reply)
      requires work.ExportWork?
      modifies this
      ensures Outcome(State(), reply) == CompleteExport(old(State()), work, storageKey, now)
    {
      hide StepOk, LogGrows, JobStep, StoreFile;
      if work.exportId >= |exports| || job.status == Cancelled || job.cancelRequested {
        return Nothing;
      }
      if job.status != Exporting || exports[work.exportId].status == ExportCompleted {
        return Nothing;
      }
      var saved := State();
      var ok := StoreGeneratedFile(work.exportId, storageKey, now);
      if !ok {
        Rollback(saved);
        return Raised;
      }
      return Done;
    }

    method FailExportWork(cmd: Command, error: Failure, budget: nat, now: int) returns (reply: Reply)
      modifies this
      ensures Outcome(State(), reply) == FailExport(old(State()), cmd, error, budget, now)
    {
      hide StepOk, LogGrows, Append, Moved, EventFor;
      if cmd.exportId.None? || cmd.exportId.value >= |exports| || job.status != Exporting {
        return Nothing;
      }
      var id := cmd.exportId.value;
      if job.cancelRequested {
        exports := exports[id := exports[id].(status := ExportCancelled)];
        return Nothing;
      }
      NoteFailure(error);
      var attempt := exports[id].attempt;
      if error.retryable && attempt < budget {
        PutExport(id, exports[id].(attempt := attempt + 1, status := ExportQueued));
        AppendEvent(OnExportRetry);
        return RetryAt(attempt + 1);
      }
      PutExport(id, exports[id].(status := ExportFailed));
      AppendEvent(OnExportFailed);
      var _ := Move(Exporting, Failed, now);
      return Nothing;
    }

    method PutExport(id: nat, row: Export)
      requires id < |exports|
      modifies `exports
      ensures State() == SetExport(old(State()), id, row)
    {
      exports := exports[id := row];
    }

    // Cancellation and recovery

    method CancelJob(now: int) returns (reply: Reply)
      modifies this
      ensures Outcome(State(), reply) == Cancel(old(State()), now)
    {
      hide StepOk;
      if job.status == Completed || job.status == Failed {
        return Raised;
      }
      if job.status == Cancelled {
        return Nothing;
      }
      job := job.(cancelRequested := true);
      var _ := Move(job.status, Cancelled, now);
      return Done;
    }

    method RequeueDiscovery(saved: Db) returns (reply: Reply)
      modifies this
      ensures Outcome(State(), reply) == RecoverDiscovery(saved, old(State()))
    {
      var i := Least(pages, IsOpen, DiscoveredAt);
      if i.None? {
        return Nothing;
      }
      SetPage(i, PageDiscovered);
      var sent := Send(DiscoveryCommand(PhaseKey(DiscoveryPhase, job.attempt), job.attempt, i.value));
      if !sent {
        Rollback(saved);
        return Raised;
      }
      return Recovered;
    }

    method RequeueExport(saved: Db, pick: nat) returns (reply: Reply)
      modifies this
      ensures Outcome(State(), reply) == RecoverExport(saved, old(State()), pick)
    {
      if pick >= |exports| || exports[pick].status != ExportRunning {
        return Nothing;
      }
      var next := Max(exports[pick].attempt, job.attempt) + 1;
      exports := exports[pick := exports[pick].(status := ExportQueued, attempt := next)];
      var sent := Send(ExportCommand(pick, next, job.attempt, exports[pick].run));
      if !sent {
        Rollback(saved);
        return Raised;
      }
      return Recovered;
    }

    method RequeuePhase(saved: Db) returns (reply: Reply)
      modifies this
      ensures Outcome(State(), reply) == RecoverPhase(saved, old(State()))
    {
      var cmd := if job.status == BrowserInitializing then BrowserCommand(job.attempt)
                 else PlanningCommand(job.attempt);
      var sent := Send(cmd);
      if !sent {
        Rollback(saved);
        return Raised;
      }
      return Recovered;
    }

    /** The body of recover_expired_leases for this job. */
    method RecoverLease(pick: nat, now: int) returns (reply: Reply)
      modifies this
      ensures Outcome(State(), reply) == Recover(old(State()), pick, now)
    {
      hide StepOk, LogGrows, RecoverDiscovery, RecoverExport, RecoverPhase, Append;
      if !Active(job.status) || job.lease.None? || job.lease.value >= now || job.cancelRequested {
        return Nothing;
      }
      var saved := State();
      job := job.(lease := None, attempt := job.attempt + 1);
      if job.attempt > job.maxAttempts {
        job := job.(
          status := Failed, lastError := Some(Failure("INTERNAL_ERROR", Retryable(job))), completedAt := Some(now));
        AppendEvent(OnJobFailed);
        return Nothing;
      }
      if job.status == Discovering {
        reply := RequeueDiscovery(saved);
      } else if job.status == Exporting {
        reply := RequeueExport(saved, pick);
      } else {
        reply := RequeuePhase(saved);
      }
    }

    // The queue's entry point

    /** Any call of the protocol: the rows and the reply are those of the protocol step. */
    method Handle(discovery: DiscoveryService, step: Step) returns (reply: Reply)
      requires discovery.cfg == cfg
      modifies this
      ensures Outcome(State(), reply) == Apply(cfg, old(State()), step)
    {
      hide ClaimPlanning, CompletePlanning, FailPlanning, PrepareBrowser, CompleteBrowser, FailBrowser;
      hide ClaimDiscovery, CompleteDiscovery, FailDiscovery, ClaimExtraction, CompleteExtraction, FailExtraction;
      hide ClaimValidation, CompleteValidation, FailValidation, ClaimExport, CompleteExport, FailExport;
      hide Cancel, Recover, StepOk;
      var now := step.now;
      match step.call {
        case ClaimPlanningCall(cmd, until) => reply := ClaimPlanningWork(cmd, now, until);
        case CompletePlanningCall(_, plan) => reply := CompletePlanningWork(plan, now);
        case FailPlanningCall(_, error) => reply := FailPlanningWork(error, cfg.plannerMaxRetries, now);
        case PrepareBrowserCall(cmd) => reply := PrepareBrowserWork(cmd, now);
        case CompleteBrowserCall(_, finalUrl, n) => reply := CompleteBrowserWork(finalUrl, n, now);
        case FailBrowserCall(work, error, cancelled) => reply := FailBrowserWork(work.cmd, error, cancelled, now);
        case ClaimDiscoveryCall(cmd, until) => reply := ClaimDiscoveryWork(cmd, now, until);
        case CompleteDiscoveryCall(work, capture) =>
          if work.DiscoveryWork? {
            reply := CompleteDiscoveryWork(discovery, work, capture, now);
          } else {
            reply := Raised;
          }
        case FailDiscoveryCall(work, error) => reply := FailDiscoveryWork(work.cmd, error, cfg.plannerMaxRetries, now);
        case ClaimExtractionCall(cmd, until) => reply := ClaimExtractionWork(cmd, now, until);
        case CompleteExtractionCall(work, extract) =>
          if work.ExtractionWork? {
            reply := CompleteExtractionWork(work, extract, now);
          } else {
            reply := Raised;
          }
        case FailExtractionCall(work, error) =>
          reply := FailExtractionWork(work.cmd, error, cfg.extractionMaxRetries, now);
        case ClaimValidationCall(cmd, until) => reply := ClaimValidationWork(cmd, now, until);
        case CompleteValidationCall(work) =>
          if work.ValidationWork? {
            reply := CompleteValidationWork(work, now);
          } else {
            reply := Raised;
          }
        case FailValidationCall(_, error) => reply := FailValidationWork(error, cfg.validationMaxAttempts, now);
        case ClaimExportCall(cmd, until) => reply := ClaimExportWork(cmd, now, until);
        case CompleteExportCall(work, storageKey) =>
          if work.ExportWork? {
            reply := CompleteExportWork(work, storageKey, now);
          } else {
            reply := Raised;
          }
        case FailExportCall(work, error) => reply := FailExportWork(work.cmd, error, cfg.exportMaxRetries, now);
        case CancelCall => reply := CancelJob(now);
        case RecoverCall(pick) => reply := RecoverLease(pick, now);
      }
    }
  }

  /** A job served from its creation: the states between the calls are a run, so all that holds of runs holds here. */
  method Serve(cfg: Config, formats: seq<Format>, maxAttempts: nat, steps: seq<Step>)
    returns (service: JobService, ghost dbs: seq<Db>)
    ensures fresh(service) && CallRun(cfg, dbs, steps) && service.State() == dbs[|steps|]
    ensures JobOk(service.job) && Numbered(service.events)
  {
    hide Apply;
    var discovery := new DiscoveryService(cfg);
    service := new JobService(cfg, formats, maxAttempts);
    dbs := [service.State()];
    for i := 0 to |steps|
      invariant fresh(service) && service.cfg == cfg && CallRun(cfg, dbs, steps[..i]) && service.State() == dbs[i]
    {
      var _ := service.Handle(discovery, steps[i]);
      dbs := dbs + [service.State()];
      assert steps[..i + 1] == steps[..i] + [steps[i]];
    }
    assert steps[..|steps|] == steps;
    RunIsSound(cfg, dbs, steps, |steps|);
  }
}
