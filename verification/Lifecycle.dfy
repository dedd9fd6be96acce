/** Planning, browser, cancellation and lease-recovery transactions (services.py), as functions on the rows. */
module Lifecycle {
  import opened Wrappers
  import opened Domain
  import opened Rows

  // Building blocks shared by every transaction

  /** What the job row of every reachable state satisfies. */
  predicate JobOk(job: Job) {
    && (job.cancelRequested ==> job.status == Cancelled)
    && job.status != ReadyForExport
    && (job.completedAt.Some? <==> Terminal(job.status))
    && if job.status == Failed || job.status == Cancelled then 0 <= job.progress <= 80
       else job.progress == StagePercent(job.status)
  }

  /** One step of the job row: a legal move or none, with a progress that never falls. */
  predicate JobStep(before: Job, after: Job) {
    && JobOk(after)
    && (after.status == before.status || Allowed(before.status, after.status))
    && before.progress <= after.progress
    && after.formats == before.formats
    && after.maxAttempts == before.maxAttempts
  }

  /** The attempt counter moves by one, and within `budget` unless the job fails. */
  predicate AttemptStep(before: Job, after: Job, budget: nat) {
    || after.attempt == before.attempt
    || (after.attempt == before.attempt + 1 && (after.status == Failed || after.attempt <= budget))
  }

  /** What a terminal job keeps for ever. */
  predicate Frozen(before: Db, after: Db) {
    && after.job.status == before.job.status
    && after.job.progress == before.job.progress
    && after.job.completedAt == before.job.completedAt
    && after.job.attempt == before.job.attempt
    && after.plan == before.plan
    && after.pages == before.pages
    && after.records == before.records
    && after.runs == before.runs
    && after.results == before.results
    && after.files == before.files
    && after.outbox == before.outbox
  }

  /** What every single service call guarantees. */
  ghost predicate StepOk(before: Db, after: Db, budget: nat) {
    && LogGrows(before, after)
    && (JobOk(before.job) ==> JobStep(before.job, after.job))
    && AttemptStep(before.job, after.job, budget)
    && (Terminal(before.job.status) ==> Frozen(before, after))
    && (before.plan.Some? ==> after.plan == before.plan)
    && (before.job.status != Exporting ==> after.files == before.files)
  }

  /** Sequence numbers 1..n in commit order. */
  ghost predicate Numbered(events: seq<Event>) {
    forall i :: 0 <= i < |events| ==> events[i].sequenceNo == i + 1
  }

  /** MAX(sequence_no) over the job's events, 0 when there are none. */
  function MaxSequence(events: seq<Event>): (r: nat)
    ensures Numbered(events) ==> r == |events|
  {
    if events == [] then 0
    else Max(MaxSequence(events[..|events| - 1]), events[|events| - 1].sequenceNo)
  }

  /** `after` extends the event log of `before`, and keeps it numbered. */
  ghost predicate LogGrows(before: Db, after: Db) {
    && before.events <= after.events
    && (Numbered(before.events) ==> Numbered(after.events))
  }

  function Append(db: Db, e: EventType): (r: Db)
    ensures LogGrows(db, r)
  {
    db.(events := db.events + [Event(MaxSequence(db.events) + 1, e)])
  }

  function AppendMany(db: Db, e: EventType, n: nat): (r: Db)
    ensures LogGrows(db, r) && r == db.(events := r.events)
    decreases n
  {
    if n == 0 then db else AppendMany(Append(db, e), e, n - 1)
  }

  function EventFor(from: JobStatus, to: JobStatus): EventType {
    if from == Queued && to == Planning then OnPlanningStarted
    else if from == Planning && to == BrowserInitializing then OnPlanningCompleted
    else if from == BrowserInitializing && to == Discovering then OnDiscoveryStarted
    else if to == Cancelled then OnJobCancelled
    else if to == Failed then OnJobFailed
    else if to == Completed then OnJobCompleted
    else OnStateTransitioned
  }

  /** `None` is the InvalidTransition exception. */
  function Transition(db: Db, expected: JobStatus, target: JobStatus, now: int): Option<Db> {
    if !Allowed(expected, target) || db.job.status != expected || Terminal(db.job.status) then
      None
    else
      Some(Append(db.(job := Moved(db.job, target, now)), EventFor(expected, target)))
  }

  /** The job row after a transition to `target`. */
  function Moved(job: Job, target: JobStatus, now: int): Job {
    job.(
      status := target,
      statusVersion := job.statusVersion + 1,
      startedAt := if target == Planning && job.startedAt.None? then Some(now) else job.startedAt,
      completedAt := if Terminal(target) then Some(now) else job.completedAt,
      progress := if target == Cancelled then Min(job.progress, 99) else job.progress)
  }

  /** Insert an outbox row; `None` is the violation of the unique operation key. */
  function Enqueue(db: Db, cmd: Command): Option<Db> {
    if cmd.key in db.outbox then None else Some(db.(outbox := db.outbox[cmd.key := cmd]))
  }

  function RaiseProgress(db: Db, percent: int): Db {
    db.(job := db.job.(progress := Max(db.job.progress, percent)))
  }

  function Release(db: Db): Db { db.(job := db.job.(lease := None)) }

  function Lease(db: Db, until: int): Db { db.(job := db.job.(lease := Some(until))) }

  /** End a transaction: an exception rolls every change back. */
  function Commit(before: Db, after: Option<Db>, reply: Reply): Outcome {
    match after
    case None => Outcome(before, Raised)
    case Some(db) => Outcome(db, reply)
  }

  function Acknowledge(db: Db, now: int): (r: Outcome)
    ensures StepOk(db, r.db, 0)
  {
    Commit(db, Transition(db, db.job.status, Cancelled, now), Nothing)
  }

  function FailureNoted(job: Job, error: Failure): Job { job.(lastError := Some(error), lease := None) }

  function RecordFailure(db: Db, error: Failure): Db {
    db.(job := FailureNoted(db.job, error))
  }

  /** `after` differs from `before` in the job row and the log only, and keeps the row's counters. */
  predicate JobAndLog(before: Db, after: Db) {
    && after == before.(job := after.job, events := after.events)
    && after.job.pagesDiscovered == before.job.pagesDiscovered
    && after.job.recordsFound == before.job.recordsFound
    && after.job.formats == before.job.formats
  }

  /**
   * The common tail of the failure handlers: a retryable error counts an attempt; within the budget the stage
   * is retried from `onRetry`, otherwise the job fails from `onFail`.
   */
  function RetryOrFail(
    before: Db, onRetry: Db, onFail: Db, error: Failure, budget: nat,
    retryEvent: EventType, failEvent: Option<EventType>, now: int): (r: Outcome)
    requires onRetry.events == before.events == onFail.events
    requires onRetry.job == onFail.job == FailureNoted(before.job, error)
    requires onRetry.plan == before.plan == onFail.plan && onRetry.files == before.files == onFail.files
    requires !Terminal(before.job.status)
    ensures StepOk(before, r.db, budget)
    ensures r.reply.RetryAt? ==> JobAndLog(onRetry, r.db) && r.db.job.status == before.job.status
    ensures !r.reply.RetryAt? && Allowed(before.job.status, Failed) ==>
              JobAndLog(onFail, r.db) && r.db.job.status == Failed
    ensures r.reply.RetryAt? <==> r.db.job.attempt > before.job.attempt && r.db.job.status != Failed
    ensures error.retryable && Allowed(before.job.status, Failed) ==>
              && r.db.job.attempt == before.job.attempt + 1
              && if before.job.attempt < budget then r.reply == RetryAt(r.db.job.attempt) else r.db.job.status == Failed
  {
    hide Append, Transition;
    if error.retryable && before.job.attempt + 1 <= budget then
      Outcome(AppendTo(CountAttempt(onRetry), retryEvent), RetryAt(before.job.attempt + 1))
    else
      FailFrom(before, NoteEnd(onFail, error, failEvent), now)
  }

  /** Append, described by what it leaves alone. */
  function AppendTo(db: Db, e: EventType): (r: Db)
    ensures LogGrows(db, r) && r == db.(events := r.events)
  {
    Append(db, e)
  }

  /** The counted and logged failure, before the transition. */
  function NoteEnd(db: Db, error: Failure, failEvent: Option<EventType>): (r: Db)
    ensures LogGrows(db, r)
    ensures r == db.(job := db.job.(attempt := r.job.attempt), events := r.events)
    ensures r.job.attempt == db.job.attempt + if error.retryable then 1 else 0
  {
    var counted := if error.retryable then CountAttempt(db) else db;
    if failEvent.Some? then Append(counted, failEvent.value) else counted
  }

  /** The transition to FAILED; one that the table does not allow raises. */
  function FailFrom(before: Db, noted: Db, now: int): (r: Outcome)
    requires LogGrows(before, noted) && !Terminal(before.job.status)
    requires noted.job.status == before.job.status && noted.job.completedAt == before.job.completedAt
    requires noted.job.progress == before.job.progress && noted.job.cancelRequested == before.job.cancelRequested
    requires noted.job.formats == before.job.formats && noted.job.maxAttempts == before.job.maxAttempts
    requires before.job.attempt <= noted.job.attempt <= before.job.attempt + 1
    requires noted.plan == before.plan && noted.files == before.files
    ensures StepOk(before, r.db, 0)
    ensures if Allowed(before.job.status, Failed)
            then r.reply == Nothing && JobAndLog(noted, r.db) && r.db.job.status == Failed
                 && r.db.job.attempt == noted.job.attempt
            else r == Outcome(before, Raised)
  {
    Commit(before, Transition(noted, before.job.status, Failed, now), Nothing)
  }

  predicate Retryable(job: Job) { job.lastError.Some? && job.lastError.value.retryable }

  function CountAttempt(db: Db): Db { db.(job := db.job.(attempt := db.job.attempt + 1)) }

  // Creation

  function PlanningCommand(attempt: nat): Command {
    Command(RunPlanning, PhaseKey(PlanningPhase, attempt), attempt, None, None, None)
  }

  /** The rows right after create_job committed. */
  function Created(formats: seq<Format>, maxAttempts: nat): Db {
    var job := Job(Queued, 0, 0, 0, maxAttempts, false, None, None, None, 0, 0, 0, None, formats);
    var cmd := PlanningCommand(1);
    Append(Db(job, None, [], [], [], [], [], [], map[cmd.key := cmd], []), OnJobQueued)
  }

  // Planning

  function StartPlanning(db: Db, now: int): Option<Db> {
    if db.job.status == Queued then Transition(RaiseProgress(db, 10), Queued, Planning, now) else Some(db)
  }

  function ClaimPlanning(db: Db, cmd: Command, now: int, until: int): (r: Outcome)
    ensures StepOk(db, r.db, 0)
  {
    if db.job.status == BrowserInitializing || db.job.status == Cancelled || db.job.status == Failed then
      Outcome(db, Nothing)
    else if db.job.status != Queued && db.job.status != Planning then Outcome(db, Raised)
    else if db.job.cancelRequested then Acknowledge(db, now)
    else if db.job.status == Planning && db.job.lease.Some? && db.job.lease.value > now then Outcome(db, Nothing)
    else
      match StartPlanning(db, now)
      case None => Outcome(db, Raised)
      case Some(db1) =>
        Outcome(db1.(job := db1.job.(lease := Some(until), lastError := None)), Claimed(PlanningWork(cmd)))
  }

  function BrowserCommand(attempt: nat): Command {
    Command(RunBrowserCapture, PhaseKey(BrowserPhase, attempt), attempt, None, None, None)
  }

  function StorePlan(db: Db, plan: Plan, now: int): (r: Option<Db>)
    ensures r.Some? ==> LogGrows(db, r.value)
    ensures r.Some? && JobOk(db.job) ==> JobStep(db.job, r.value.job)
    ensures r.Some? ==> r.value.job.attempt == db.job.attempt
  {
    if db.plan.Some? then None
    else
      var db1 :- Transition(RaiseProgress(db.(plan := Some(plan)), 20), Planning, BrowserInitializing, now);
      var db2 :- Enqueue(db1, BrowserCommand(1));
      Some(Release(db2))
  }

  function CompletePlanning(db: Db, plan: Plan, now: int): (r: Outcome)
    ensures StepOk(db, r.db, 0)
  {
    if db.job.status == BrowserInitializing || db.job.status == Cancelled then Outcome(db, Nothing)
    else if db.job.status != Planning then Outcome(db, Raised)
    else if db.job.cancelRequested then Acknowledge(db, now)
    else Commit(db, StorePlan(db, plan, now), Done)
  }

  function FailPlanning(db: Db, error: Failure, budget: nat, now: int): (r: Outcome)
    ensures StepOk(db, r.db, budget)
    ensures r.reply.RetryAt? <==> r.db.job.attempt > db.job.attempt && r.db.job.status != Failed
  {
    if db.job.status != Planning then Outcome(db, Nothing)
    else if db.job.cancelRequested then Acknowledge(db, now)
    else
      var db1 := RecordFailure(db, error);
      RetryOrFail(db, db1, db1, error, budget, OnPlanningRetry, None, now)
  }

  // Browser capture

  function PrepareBrowser(db: Db, cmd: Command, now: int): (r: Outcome)
    ensures StepOk(db, r.db, 0)
  {
    if db.job.status == Cancelled || db.job.status == Failed then Outcome(db, Nothing)
    else if db.job.status != BrowserInitializing then Outcome(db, Raised)
    else if db.job.cancelRequested then Acknowledge(db, now)
    else Outcome(Append(Lease(db, now + 120), OnBrowserInitializing), Claimed(BrowserWork(cmd)))
  }

  ghost predicate HasUrl(pages: seq<Page>, url: Url) {
    exists i :: 0 <= i < |pages| && pages[i].url == url
  }

  /** The page stored under `url`, if any. */
  function FindUrl(pages: seq<Page>, url: Url): (r: Option<nat>)
    ensures r.Some? ==> r.value < |pages| && pages[r.value].url == url
    ensures r.None? <==> !HasUrl(pages, url)
  {
    if pages == [] then None
    else
      var n := |pages| - 1;
      if pages[n].url == url then Some(n) else FindUrl(pages[..n], url)
  }

  /** The captured source page: found or inserted, then reset to an undiscovered frontier of depth 0. */
  function SourceInventory(cfg: Config, pages: seq<Page>, url: Url, now: int): (r: (seq<Page>, nat))
    ensures r.1 < |r.0|
  {
    match FindUrl(pages, url)
    case Some(i) =>
      (pages[i := pages[i].(status := PageDiscovered, depth := 0, via := FromSource)], i)
    case None =>
      (pages + [Page(url, PageDiscovered, 0, None, now, cfg.uuid(|pages|), FromSource, None, None)], |pages|)
  }

  function DiscoveryCommand(key: Key, attempt: nat, page: nat): Command {
    Command(RunDiscovery, key, attempt, Some(page), None, None)
  }

  /** The rows that a capture leaves: the source page and its discovery command. */
  predicate CaptureShape(cfg: Config, db: Db, after: Db, finalUrl: Url, now: int) {
    var (pages, source) := SourceInventory(cfg, db.pages, finalUrl, now);
    && after.pages == pages
    && after.outbox == db.outbox[DiscoverySourceKey := DiscoveryCommand(DiscoverySourceKey, 1, source)]
  }

  /** The captured page, the counters and the lifecycle events. */
  function CaptureRows(cfg: Config, db: Db, finalUrl: Url, lifecycleEvents: nat, now: int): (r: Db)
    ensures LogGrows(db, r)
    ensures r == db.(
              pages := SourceInventory(cfg, db.pages, finalUrl, now).0, events := r.events,
              job := db.job.(
                pagesDiscovered := Max(db.job.pagesDiscovered, 1), pagesProcessed := Max(db.job.pagesProcessed, 1)))
  {
    var db1 := db.(
      pages := SourceInventory(cfg, db.pages, finalUrl, now).0,
      job := db.job.(
        pagesDiscovered := Max(db.job.pagesDiscovered, 1),
        pagesProcessed := Max(db.job.pagesProcessed, 1)));
    Append(AppendMany(db1, OnBrowserLifecycle, lifecycleEvents), OnBrowserCompleted)
  }

  function StoreCapture(cfg: Config, db: Db, finalUrl: Url, lifecycleEvents: nat, now: int): (r: Option<Db>)
    ensures r.Some? ==> LogGrows(db, r.value)
    ensures r.Some? && JobOk(db.job) ==> JobStep(db.job, r.value.job)
    ensures r.Some? ==> r.value.job.attempt == db.job.attempt && r.value.files == db.files
    ensures r.Some? ==> CaptureShape(cfg, db, r.value, finalUrl, now)
  {
    var source := SourceInventory(cfg, db.pages, finalUrl, now).1;
    var db2 := CaptureRows(cfg, db, finalUrl, lifecycleEvents, now);
    var db3 :- Transition(RaiseProgress(db2, 30), BrowserInitializing, Discovering, now);
    var db4 :- Enqueue(db3, DiscoveryCommand(DiscoverySourceKey, 1, source));
    Some(Release(db4))
  }

  function CompleteBrowser(cfg: Config, db: Db, finalUrl: Url, lifecycleEvents: nat, now: int): (r: Outcome)
    ensures StepOk(db, r.db, 0)
  {
    if db.job.status == Cancelled || db.job.status == Failed then Outcome(db, Nothing)
    else if db.job.status != BrowserInitializing then Outcome(db, Raised)
    else if db.job.cancelRequested then Acknowledge(db, now)
    else Commit(db, StoreCapture(cfg, db, finalUrl, lifecycleEvents, now), Done)
  }

  function FailBrowser(db: Db, cmd: Command, error: Failure, cancelled: bool, now: int): (r: Outcome)
    ensures StepOk(db, r.db, 0)
  {
    if db.job.status == Cancelled then Outcome(db, Nothing)
    else if cancelled || db.job.cancelRequested then
      if db.job.status == BrowserInitializing then Acknowledge(db, now) else Outcome(db, Nothing)
    else
      var db1 := RecordFailure(db, error);
      if error.retryable && cmd.attempt < db.job.maxAttempts then
        Outcome(Append(db1, OnBrowserRetry), Done)
      else
        Commit(db, Transition(db1, BrowserInitializing, Failed, now), Nothing)
  }

  // Cancellation

  function Cancel(db: Db, now: int): (r: Outcome)
    ensures StepOk(db, r.db, 0)
  {
    if db.job.status == Completed || db.job.status == Failed then Outcome(db, Raised)
    else if db.job.status == Cancelled then Outcome(db, Nothing)
    else
      var db1 := db.(job := db.job.(cancelRequested := true));
      Commit(db, Transition(db1, db.job.status, Cancelled, now), Done)
  }

  // Inventory queries

  predicate Before(a: Page, b: Page, stamp: Page -> int) {
    || a.depth < b.depth
    || (a.depth == b.depth && (stamp(a) < stamp(b) || (stamp(a) == stamp(b) && a.uuid < b.uuid)))
  }

  /** SELECT, ORDER BY depth, stamp, id LIMIT 1. */
  function Least(pages: seq<Page>, eligible: Page -> bool, stamp: Page -> int): (r: Option<nat>)
    ensures r.Some? ==> r.value < |pages| && eligible(pages[r.value])
    ensures r.Some? ==>
              forall j :: 0 <= j < |pages| && eligible(pages[j]) ==> !Before(pages[j], pages[r.value], stamp)
    ensures r.None? ==> forall j :: 0 <= j < |pages| ==> !eligible(pages[j])
  {
    if pages == [] then None
    else
      var n := |pages| - 1;
      var rest := Least(pages[..n], eligible, stamp);
      if eligible(pages[n]) && (rest.None? || Before(pages[n], pages[rest.value], stamp)) then Some(n) else rest
  }

  predicate IsDiscovered(p: Page) { p.status == PageDiscovered }

  predicate IsOpen(p: Page) { p.status == PageDiscovered || p.status == PageQueued }

  function DiscoveredAt(p: Page): int { p.discoveredAt }

  function VisitedAt(p: Page): int { if p.visitedAt.Some? then p.visitedAt.value else 0 }

  // Lease recovery

  function PhaseOf(s: JobStatus): Phase {
    if s == BrowserInitializing then BrowserPhase
    else if s == Discovering then DiscoveryPhase
    else PlanningPhase
  }

  function SetPageStatus(db: Db, i: nat, s: PageStatus): Db
    requires i < |db.pages|
  {
    db.(pages := db.pages[i := db.pages[i].(status := s)])
  }

  function SetExport(db: Db, i: nat, e: Export): Db
    requires i < |db.exports|
  {
    db.(exports := db.exports[i := e])
  }

  /** `db` already counts the new attempt and holds no lease. */
  function RecoverDiscovery(before: Db, db: Db): Outcome {
    match Least(db.pages, IsOpen, DiscoveredAt)
    case None => Outcome(db, Nothing)
    case Some(i) =>
      var cmd := DiscoveryCommand(PhaseKey(DiscoveryPhase, db.job.attempt), db.job.attempt, i);
      Commit(before, Enqueue(SetPageStatus(db, i, PageDiscovered), cmd), Recovered)
  }

  function ExportCommand(exportId: nat, keyAttempt: nat, attempt: nat, run: nat): Command {
    Command(RunExport, ExportKey(exportId, keyAttempt), attempt, None, Some(run), Some(exportId))
  }

  /** `pick` is the running export that the query returns; exports of one run share their creation time. */
  function RecoverExport(before: Db, db: Db, pick: nat): Outcome {
    if pick >= |db.exports| || db.exports[pick].status != ExportRunning then Outcome(db, Nothing)
    else
      var next := Max(db.exports[pick].attempt, db.job.attempt) + 1;
      var row := db.exports[pick].(status := ExportQueued, attempt := next);
      var cmd := ExportCommand(pick, next, db.job.attempt, row.run);
      Commit(before, Enqueue(SetExport(db, pick, row), cmd), Recovered)
  }

  function RecoverPhase(before: Db, db: Db): Outcome {
    var cmd := if PhaseOf(db.job.status) == BrowserPhase
               then BrowserCommand(db.job.attempt) else PlanningCommand(db.job.attempt);
    Commit(before, Enqueue(db, cmd), Recovered)
  }

  /** The job row after the last lease of its budget expired. */
  function ExpiredJob(job: Job, now: int): Job {
    job.(
      status := Failed, lastError := Some(Failure("INTERNAL_ERROR", Retryable(job))), completedAt := Some(now))
  }

  /** recover_expired_leases for this job. */
  function Recover(db: Db, pick: nat, now: int): (r: Outcome)
    ensures StepOk(db, r.db, db.job.maxAttempts)
  {
    hide Append, Least, MaxSequence;
    if !Active(db.job.status) || db.job.lease.None? || db.job.lease.value >= now || db.job.cancelRequested then
      Outcome(db, Nothing)
    else
      var db1 := CountAttempt(Release(db));
      if db1.job.attempt > db1.job.maxAttempts then
        Outcome(AppendTo(db1.(job := ExpiredJob(db1.job, now)), OnJobFailed), Nothing)
      else if db.job.status == Discovering then RecoverDiscovery(db, db1)
      else if db.job.status == Exporting then RecoverExport(db, db1, pick)
      else RecoverPhase(db, db1)
  }
}
