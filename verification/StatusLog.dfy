/** The event log tells the status: replaying it, as a client of the stream may do, gives the status of the job. */
module StatusLog {
  import opened Wrappers
  import opened Domain
  import opened Rows
  import opened Lifecycle
  import opened Discovery
  import opened Frontier
  import opened Stages
  import opened Protocol
  import opened Invariants
  import opened Runs

  // What an event says

  function NextStage(s: JobStatus): JobStatus {
    if s == Discovering then Extracting
    else if s == Extracting then Validating
    else if s == Validating then Exporting
    else s
  }

  /** The status after the event, for a client that knows the status before it. */
  function Told(s: JobStatus, e: EventType): JobStatus {
    match e
    case OnPlanningStarted => Planning
    case OnPlanningCompleted => BrowserInitializing
    case OnDiscoveryStarted => Discovering
    case OnStateTransitioned => NextStage(s)
    case OnJobCancelled => Cancelled
    case OnJobFailed => Failed
    case OnJobCompleted => Completed
    case _ => s
  }

  function Replay(s: JobStatus, events: seq<Event>): JobStatus {
    if events == [] then s
    else Told(Replay(s, events[..|events| - 1]), events[|events| - 1].eventType)
  }

  predicate Quiet(e: EventType) {
    && e != OnPlanningStarted && e != OnPlanningCompleted && e != OnDiscoveryStarted && e != OnStateTransitioned
    && e != OnJobCancelled && e != OnJobFailed && e != OnJobCompleted
  }

  /** The new events lead from the old status to the new one, by way of these two only. */
  ghost predicate Tells(before: Db, after: Db) {
    var n := |before.events|;
    && before.events <= after.events
    && after.job.status == Replay(before.job.status, after.events[n..])
    && forall m :: n <= m <= |after.events| ==>
         Replay(before.job.status, after.events[n..m]) in {before.job.status, after.job.status}
  }

  /** The status stays, and the new events do not speak of it. */
  ghost predicate Hushed(before: Db, after: Db) {
    && before.events <= after.events && after.job.status == before.job.status
    && forall k :: |before.events| <= k < |after.events| ==> Quiet(after.events[k].eventType)
  }

  lemma {:induction false} ReplayConcat(s: JobStatus, a: seq<Event>, b: seq<Event>)
    ensures Replay(s, a + b) == Replay(Replay(s, a), b)
    decreases |b|
  {
    if b == [] {
      assert a + b == a;
    } else {
      var n := |b| - 1;
      ReplayConcat(s, a, b[..n]);
      assert (a + b)[..|a + b| - 1] == a + b[..n];
    }
  }

  lemma {:induction false} QuietReplay(s: JobStatus, events: seq<Event>)
    requires forall k :: 0 <= k < |events| ==> Quiet(events[k].eventType)
    ensures Replay(s, events) == s
  {
    if events != [] { QuietReplay(s, events[..|events| - 1]); }
  }

  lemma HushedTells(before: Db, after: Db)
    requires Hushed(before, after)
    ensures Tells(before, after)
  {
    var n := |before.events|;
    forall m | n <= m <= |after.events|
      ensures Replay(before.job.status, after.events[n..m]) == before.job.status
    {
      QuietReplay(before.job.status, after.events[n..m]);
    }
    assert after.events[n..|after.events|] == after.events[n..];
  }

  lemma TellsMore(a: Db, b: Db, c: Db)
    requires Tells(a, b) && Tells(b, c) && (a.job.status == b.job.status || b.job.status == c.job.status)
    ensures Tells(a, c)
  {
    hide Replay;
    var n := |a.events|;
    forall m | n <= m <= |c.events|
      ensures Replay(a.job.status, c.events[n..m]) in {a.job.status, c.job.status}
      ensures m == |c.events| ==> Replay(a.job.status, c.events[n..m]) == c.job.status
    {
      TellsUpTo(a, b, c, m);
    }
    assert c.events[n..|c.events|] == c.events[n..];
  }

  lemma TellsUpTo(a: Db, b: Db, c: Db, m: nat)
    requires Tells(a, b) && Tells(b, c) && |a.events| <= m <= |c.events|
    ensures var k, s := |b.events|, Replay(a.job.status, c.events[|a.events|..m]);
            && (m < k ==> s in {a.job.status, b.job.status})
            && (m >= k ==> s in {b.job.status, c.job.status})
            && (m == |c.events| ==> s == c.job.status)
  {
    hide Replay;
    var n, k := |a.events|, |b.events|;
    if m < k {
      assert c.events[n..m] == b.events[n..m];
    } else {
      assert c.events[n..m] == b.events[n..] + c.events[k..m];
      ReplayConcat(a.job.status, b.events[n..], c.events[k..m]);
      assert c.events[k..|c.events|] == c.events[k..];
    }
  }

  lemma HushedMore(a: Db, b: Db, c: Db)
    requires Hushed(a, b) && Hushed(b, c)
    ensures Hushed(a, c)
  {
    forall k | |a.events| <= k < |c.events|
      ensures Quiet(c.events[k].eventType)
    {
      if k < |b.events| { assert c.events[k] == b.events[k]; }
    }
  }

  // Building blocks

  lemma OneEvent(before: Db, after: Db, e: EventType)
    requires exists n :: after.events == before.events + [Event(n, e)]
    requires after.job.status == Told(before.job.status, e)
    ensures Tells(before, after)
  {
    var n :| after.events == before.events + [Event(n, e)];
    var k := |before.events|;
    assert after.events[k..] == [Event(n, e)] && after.events[k..k] == [];
    assert after.events[k..k + 1] == [Event(n, e)] && [Event(n, e)][..0] == [];
    assert Replay(before.job.status, []) == before.job.status;
    assert Replay(before.job.status, [Event(n, e)]) == after.job.status;
  }

  lemma TransitionTells(db: Db, from: JobStatus, to: JobStatus, now: int)
    requires from != ReadyForExport && to != ReadyForExport && !(from == Validating && to == Completed)
    ensures Transition(db, from, to, now).Some? ==> Tells(db, Transition(db, from, to, now).value)
  {
    hide Tells, MaxSequence;
    if Transition(db, from, to, now).Some? { OneEvent(db, Transition(db, from, to, now).value, EventFor(from, to)); }
  }

  /** The events and the status that an outcome leaves are those of another. */
  lemma SameLog(a: Db, b: Db, c: Db)
    requires Tells(a, b) && c.events == b.events && c.job.status == b.job.status
    ensures Tells(a, c)
  {
  }

  lemma AcknowledgeTells(db: Db, now: int)
    requires JobOk(db.job)
    ensures Tells(db, Acknowledge(db, now).db)
  {
    hide Tells, Transition, StepOk;
    TransitionTells(db, db.job.status, Cancelled, now);
    HushedTells(db, db);
  }

  /** Quiet events, and then a transition. */
  lemma TransitionAfter(db: Db, quiet: Db, from: JobStatus, to: JobStatus, now: int)
    requires Hushed(db, quiet)
    requires from != ReadyForExport && to != ReadyForExport && !(from == Validating && to == Completed)
    ensures Transition(quiet, from, to, now).Some? ==> Tells(db, Transition(quiet, from, to, now).value)
  {
    hide Tells, Transition, Hushed;
    HushedTells(db, quiet);
    TransitionTells(quiet, from, to, now);
    if Transition(quiet, from, to, now).Some? {
      StatusStays(db, quiet);
      TellsMore(db, quiet, Transition(quiet, from, to, now).value);
    }
  }

  lemma StatusStays(before: Db, after: Db)
    requires Hushed(before, after)
    ensures after.job.status == before.job.status
  {
  }

  lemma RetryTells(
    before: Db, onRetry: Db, onFail: Db, error: Failure, budget: nat, retryEvent: EventType,
    failEvent: Option<EventType>, now: int)
    requires onRetry.events == before.events == onFail.events
    requires onRetry.job == onFail.job == FailureNoted(before.job, error)
    requires onRetry.plan == before.plan == onFail.plan && onRetry.files == before.files == onFail.files
    requires !Terminal(before.job.status) && before.job.status != ReadyForExport && Quiet(retryEvent)
    requires failEvent.Some? ==> Quiet(failEvent.value)
    ensures Tells(before, RetryOrFail(before, onRetry, onFail, error, budget, retryEvent, failEvent, now).db)
  {
    hide Tells, Transition, StepOk, LogGrows, MaxSequence, Quiet;
    var r := RetryOrFail(before, onRetry, onFail, error, budget, retryEvent, failEvent, now);
    if error.retryable && before.job.attempt + 1 <= budget {
      HushedTells(before, r.db);
    } else {
      var noted := NoteEnd(onFail, error, failEvent);
      TransitionAfter(before, noted, before.job.status, Failed, now);
      HushedTells(before, before);
    }
  }

  lemma {:induction false} ManyHushed(db: Db, e: EventType, n: nat)
    requires Quiet(e)
    ensures Hushed(db, AppendMany(db, e, n))
    decreases n
  {
    hide LogGrows, MaxSequence;
    if n > 0 {
      ManyHushed(Append(db, e), e, n - 1);
      HushedMore(db, Append(db, e), AppendMany(db, e, n));
    }
  }

  // Loops that append quiet events

  lemma {:induction false} PersistHushed(
    cfg: Config, db: Db, plan: Plan, parent: nat, cs: seq<Candidate>, rejected: bool, accepted: nat, now: int)
    ensures Hushed(db, PersistFrom(cfg, db, plan, parent, cs, rejected, accepted, now))
    decreases |cs|
  {
    hide LogGrows, MaxSequence, FindUrl;
    if cs != [] {
      var status := StatusFor(rejected, accepted, CrawlCap(cfg, plan));
      var known := FindUrl(db.pages, cs[0].url).Some?;
      var db1 := if known then Append(db, OnPageDuplicate) else AddPage(cfg, db, parent, cs[0], status, now);
      var n := if !known && status == PageDiscovered then accepted + 1 else accepted;
      PersistHushed(cfg, db1, plan, parent, cs[1..], rejected, n, now);
      HushedMore(db, db1, PersistFrom(cfg, db1, plan, parent, cs[1..], rejected, n, now));
    }
  }

  lemma PersistedHushed(
    cfg: Config, first: Db, db: Db, plan: Plan, parent: nat, cs: seq<Candidate>, rejected: bool, now: int)
    returns (after: Db)
    requires Hushed(first, db)
    ensures after == Persist(cfg, db, plan, parent, cs, rejected, now) && Hushed(first, after)
  {
    after := Persist(cfg, db, plan, parent, cs, rejected, now);
    PersistHushed(cfg, db, plan, parent, cs, rejected, CountAccepted(db.pages), now);
    HushedMore(first, db, after);
  }

  lemma AppendHushed(first: Db, db: Db, e: EventType)
    requires Hushed(first, db) && Quiet(e)
    ensures Hushed(first, Append(db, e))
  {
  }

  lemma ExpandHushed(cfg: Config, db: Db, plan: Plan, i: nat, capture: Capture, now: int)
    requires i < |db.pages|
    ensures Hushed(db, Expand(cfg, db, plan, i, capture, now))
  {
    hide Decide, Probe, SeenUrls, PersistFrom, LogGrows, MaxSequence;
    var db1 := Visit(db, i, now);
    var seen := SeenUrls(db1.pages);
    var page := db1.pages[i];
    var d := Decide(cfg, plan, page, capture, seen);
    assert Hushed(db, db1);
    hide Hushed;
    var db2 := PersistedHushed(cfg, db, db1, plan, i, d.candidates, false, now);
    var db3 := PersistedHushed(cfg, db, db2, plan, i, d.rejected, true, now);
    AppendHushed(db, db3, OnPageDuplicate);
    var db4 := if d.duplicates > 0 then Append(db3, OnPageDuplicate) else db3;
    var db5 := PersistedHushed(cfg, db, db4, plan, i, Probe(cfg, page, seen), false, now);
  }

  lemma SameQuiet(a: Db, b: Db, c: Db)
    requires Hushed(a, b) && c.events == b.events && c.job.status == b.job.status
    ensures Hushed(a, c)
  {
  }

  lemma {:induction false} RecordsHushed(db: Db, page: nat, extracted: seq<Record>)
    ensures Hushed(db, InsertRecords(db, page, extracted))
    decreases |extracted|
  {
    hide LogGrows, MaxSequence, HasIdentity;
    if extracted != [] {
      var r := extracted[0].(page := page);
      var db1 := if HasIdentity(db.records, r.identity) then Append(db, OnRecordDuplicate)
                 else db.(records := db.records + [r]);
      RecordsHushed(db1, page, extracted[1..]);
      HushedMore(db, db1, InsertRecords(db1, page, extracted[1..]));
    }
  }

  /** The rows to which the events of a stored page are appended. */
  lemma ExtractedRows(cfg: Config, db: Db, plan: Plan, i: nat, extract: Extract) returns (rows: Db)
    requires i < |db.pages|
    ensures StoreExtract(cfg, db, plan, i, extract) ==
            Append(AppendMany(rows, OnExtractionWarning, Min(extract.warnings, 10)), OnPageExtracted(i))
    ensures rows.job.status == db.job.status
    ensures rows.events == InsertRecords(db, i, Admitted(cfg, plan, |db.records|, extract.records)).events
  {
    hide InsertRecords, Admitted, LogGrows, AppendMany, Append;
    var db1 := InsertRecords(db, i, Admitted(cfg, plan, |db.records|, extract.records));
    var created := |db1.records| - |db.records|;
    var page := db.pages[i].(extraction := Some(if created > 0 then PageExtracted else PagePartial));
    rows := db1.(
      pages := db.pages[i := page],
      job := db1.job.(
        recordsFound := db1.job.recordsFound + created, pagesProcessed := db1.job.pagesProcessed + 1));
  }

  lemma ExtractHushed(cfg: Config, db: Db, plan: Plan, i: nat, extract: Extract)
    requires i < |db.pages|
    ensures Hushed(db, StoreExtract(cfg, db, plan, i, extract))
  {
    hide InsertRecords, Admitted, AppendMany, Append, Hushed, StoreExtract;
    var rows := ExtractedRows(cfg, db, plan, i, extract);
    var slice, n := Admitted(cfg, plan, |db.records|, extract.records), Min(extract.warnings, 10);
    RecordsHushed(db, i, slice);
    SameQuiet(db, InsertRecords(db, i, slice), rows);
    ManyHushed(rows, OnExtractionWarning, n);
    HushedMore(db, rows, AppendMany(rows, OnExtractionWarning, n));
    AppendHushed(db, AppendMany(rows, OnExtractionWarning, n), OnPageExtracted(i));
  }

  lemma {:induction false} ResultsHushed(cfg: Config, db: Db, run: nat, records: seq<Record>)
    ensures var r := InsertResults(cfg, db, run, records); r.Some? ==> Hushed(db, r.value)
    decreases |records|
  {
    hide LogGrows, MaxSequence;
    if records != [] && InsertResults(cfg, db, run, records).Some? {
      var row := ValidationResult(run, records[0].identity);
      var db1 := Append(db.(results := db.results + [row]), OnRecordValidated(row.record));
      ResultsHushed(cfg, db1, run, records[1..]);
      HushedMore(db, db1, InsertResults(cfg, db1, run, records[1..]).value);
    }
  }

  // The transactions

  lemma ClaimPlanningTells(db: Db, cmd: Command, now: int, until: int)
    requires JobOk(db.job)
    ensures Tells(db, ClaimPlanning(db, cmd, now, until).db)
  {
    hide StepOk, LogGrows, MaxSequence, Transition, Acknowledge, Replay;
    HushedTells(db, db);
    AcknowledgeTells(db, now);
    TransitionAfter(db, RaiseProgress(db, 10), Queued, Planning, now);
  }

  lemma CompletePlanningTells(db: Db, plan: Plan, now: int)
    requires JobOk(db.job)
    ensures Tells(db, CompletePlanning(db, plan, now).db)
  {
    hide Tells, StepOk, LogGrows, MaxSequence, Transition, Acknowledge;
    HushedTells(db, db);
    AcknowledgeTells(db, now);
    var planned := RaiseProgress(db.(plan := Some(plan)), 20);
    TransitionAfter(db, planned, Planning, BrowserInitializing, now);
    var moved := Transition(planned, Planning, BrowserInitializing, now);
    if moved.Some? && StorePlan(db, plan, now).Some? { SameLog(db, moved.value, StorePlan(db, plan, now).value); }
  }

  lemma PrepareBrowserTells(db: Db, cmd: Command, now: int)
    requires JobOk(db.job)
    ensures Tells(db, PrepareBrowser(db, cmd, now).db)
  {
    hide Tells, StepOk, LogGrows, MaxSequence, Acknowledge;
    HushedTells(db, db);
    AcknowledgeTells(db, now);
    HushedTells(db, Append(Lease(db, now + 120), OnBrowserInitializing));
  }

  lemma CaptureHushed(cfg: Config, db: Db, finalUrl: Url, n: nat, now: int)
    ensures Hushed(db, RaiseProgress(CaptureRows(cfg, db, finalUrl, n, now), 30))
  {
    hide LogGrows, MaxSequence, SourceInventory, AppendMany;
    var pages := SourceInventory(cfg, db.pages, finalUrl, now).0;
    var db1 := db.(
      pages := pages,
      job := db.job.(
        pagesDiscovered := Max(db.job.pagesDiscovered, 1), pagesProcessed := Max(db.job.pagesProcessed, 1)));
    ManyHushed(db1, OnBrowserLifecycle, n);
  }

  lemma CompleteBrowserTells(cfg: Config, db: Db, finalUrl: Url, n: nat, now: int)
    requires JobOk(db.job)
    ensures Tells(db, CompleteBrowser(cfg, db, finalUrl, n, now).db)
  {
    hide Tells, StepOk, LogGrows, MaxSequence, Transition, Acknowledge, CaptureRows, SourceInventory, CaptureShape;
    hide JobStep;
    HushedTells(db, db);
    AcknowledgeTells(db, now);
    var captured := RaiseProgress(CaptureRows(cfg, db, finalUrl, n, now), 30);
    CaptureHushed(cfg, db, finalUrl, n, now);
    TransitionAfter(db, captured, BrowserInitializing, Discovering, now);
    var moved := Transition(captured, BrowserInitializing, Discovering, now);
    var stored := StoreCapture(cfg, db, finalUrl, n, now);
    if moved.Some? && stored.Some? { SameLog(db, moved.value, stored.value); }
  }

  lemma FailBrowserTells(db: Db, cmd: Command, error: Failure, cancelled: bool, now: int)
    requires JobOk(db.job)
    ensures Tells(db, FailBrowser(db, cmd, error, cancelled, now).db)
  {
    hide Tells, StepOk, LogGrows, MaxSequence, Transition, Acknowledge;
    HushedTells(db, db);
    AcknowledgeTells(db, now);
    HushedTells(db, Append(RecordFailure(db, error), OnBrowserRetry));
    TransitionAfter(db, RecordFailure(db, error), BrowserInitializing, Failed, now);
  }

  lemma ClaimDiscoveryTells(db: Db, cmd: Command, now: int, until: int)
    requires JobOk(db.job)
    ensures Tells(db, ClaimDiscovery(db, cmd, now, until).db)
  {
    hide Tells, StepOk, LogGrows, MaxSequence, Acknowledge, Least;
    HushedTells(db, db);
    AcknowledgeTells(db, now);
    var p := DiscoveryPage(db.pages, cmd.page);
    if p.Some? {
      HushedTells(db, Append(Lease(SetPageStatus(db, p.value, PageQueued), until), OnPageQueued(p.value)));
    }
  }

  lemma ClaimExtractionTells(db: Db, cmd: Command, now: int, until: int)
    requires JobOk(db.job)
    ensures Tells(db, ClaimExtraction(db, cmd, now, until).db)
  {
    hide Tells, StepOk, LogGrows, MaxSequence, Acknowledge, Least;
    HushedTells(db, db);
    AcknowledgeTells(db, now);
    var p := ExtractionPage(db.pages, cmd.page);
    if p.Some? {
      HushedTells(db, Append(Lease(SetExtraction(db, p.value, PageExtracting), until), OnExtractionStarted(p.value)));
    }
  }

  lemma AdvanceTells(first: Db, db: Db, now: int)
    requires Hushed(first, db)
    ensures Advance(db, now).Some? ==> Tells(first, Advance(db, now).value)
  {
    hide Tells, LogGrows, MaxSequence, Transition, Least, JobStep;
    HushedTells(first, db);
    var quiet := Append(RaiseProgress(db, 40), OnDiscoveryCompleted);
    assert Hushed(first, quiet);
    TransitionAfter(first, quiet, Discovering, Extracting, now);
    var moved, after := Transition(quiet, Discovering, Extracting, now), Advance(db, now);
    if after.Some? {
      if Least(db.pages, IsDiscovered, DiscoveredAt).Some? {
        SameLog(first, db, after.value);
      } else {
        SameLog(first, moved.value, after.value);
      }
    }
  }

  lemma CompleteDiscoveryTells(cfg: Config, db: Db, w: Work, capture: Capture, now: int)
    requires JobOk(db.job) && w.DiscoveryWork?
    ensures Tells(db, CompleteDiscovery(cfg, db, w, capture, now).db)
  {
    hide Tells, StepOk, LogGrows, JobStep, Acknowledge, Expand, Advance;
    HushedTells(db, db);
    AcknowledgeTells(db, now);
    if w.page < |db.pages| {
      ExpandHushed(cfg, db, w.plan, w.page, capture, now);
      AdvanceTells(db, Release(Expand(cfg, db, w.plan, w.page, capture, now)), now);
    }
  }

  lemma AdvanceExtractionTells(first: Db, db: Db, plan: Plan, now: int)
    requires Hushed(first, db)
    ensures AdvanceExtraction(db, plan, now).Some? ==> Tells(first, AdvanceExtraction(db, plan, now).value)
  {
    hide Tells, LogGrows, MaxSequence, Transition, Least, JobStep;
    HushedTells(first, db);
    var quiet := Append(RaiseProgress(db, 60), OnExtractionCompleted);
    assert Hushed(first, quiet);
    TransitionAfter(first, quiet, Extracting, Validating, now);
    var moved, after := Transition(quiet, Extracting, Validating, now), AdvanceExtraction(db, plan, now);
    if after.Some? {
      if Least(db.pages, NotExtracted, VisitedAt).Some? {
        SameLog(first, db, after.value);
      } else {
        SameLog(first, moved.value, after.value);
      }
    }
  }

  lemma CompleteExtractionTells(cfg: Config, db: Db, w: Work, extract: Extract, now: int)
    requires JobOk(db.job) && w.ExtractionWork?
    ensures Tells(db, CompleteExtraction(cfg, db, w, extract, now).db)
  {
    hide Tells, StepOk, LogGrows, JobStep, Acknowledge, StoreExtract, AdvanceExtraction;
    HushedTells(db, db);
    AcknowledgeTells(db, now);
    if w.page < |db.pages| {
      ExtractHushed(cfg, db, w.plan, w.page, extract);
      AdvanceExtractionTells(db, Release(StoreExtract(cfg, db, w.plan, w.page, extract)), w.plan, now);
    }
  }

  lemma FailuresTell(cfg: Config, db: Db, error: Failure, now: int)
    requires JobOk(db.job)
    ensures Tells(db, FailPlanning(db, error, cfg.plannerMaxRetries, now).db)
    ensures Tells(db, FailValidation(db, error, cfg.validationMaxAttempts, now).db)
  {
    hide Tells, StepOk, LogGrows, Acknowledge, RetryOrFail;
    HushedTells(db, db);
    AcknowledgeTells(db, now);
    var db1 := RecordFailure(db, error);
    if db.job.status == Planning {
      RetryTells(db, db1, db1, error, cfg.plannerMaxRetries, OnPlanningRetry, None, now);
    }
    if db.job.status == Validating {
      RetryTells(
        db, db1, db1, error, cfg.validationMaxAttempts, OnValidationRetry, Some(OnValidationFailed), now);
    }
  }

  lemma FailDiscoveryTells(cfg: Config, db: Db, cmd: Command, error: Failure, now: int)
    requires JobOk(db.job)
    ensures Tells(db, FailDiscovery(db, cmd, error, cfg.plannerMaxRetries, now).db)
  {
    hide Tells, StepOk, LogGrows, Acknowledge, RetryOrFail, MarkPage;
    HushedTells(db, db);
    if db.job.status == Discovering {
      MarksPage(db, cmd.page, PageSkipped);
      MarksPage(db, cmd.page, PageDiscovered);
      MarksPage(db, cmd.page, PageFailed);
      MarkedTells(db, MarkPage(db, cmd.page, PageSkipped), now);
      RetryTells(
        db, RecordFailure(MarkPage(db, cmd.page, PageDiscovered), error),
        RecordFailure(MarkPage(db, cmd.page, PageFailed), error), error, cfg.plannerMaxRetries,
        OnDiscoveryRetry, Some(OnDiscoveryFailed), now);
    }
  }

  lemma MarksPage(db: Db, page: Option<nat>, status: PageStatus)
    ensures MarkPage(db, page, status) == db.(pages := MarkPage(db, page, status).pages)
  {
  }

  lemma FailExtractionTells(cfg: Config, db: Db, cmd: Command, error: Failure, now: int)
    requires JobOk(db.job)
    ensures Tells(db, FailExtraction(db, cmd, error, cfg.extractionMaxRetries, now).db)
  {
    hide Tells, StepOk, LogGrows, Acknowledge, RetryOrFail, MarkExtraction;
    HushedTells(db, db);
    if db.job.status == Extracting {
      MarksExtraction(db, cmd.page, PageExtractionSkipped);
      MarksExtraction(db, cmd.page, PagePending);
      MarksExtraction(db, cmd.page, PageExtractionFailed);
      MarkedTells(db, MarkExtraction(db, cmd.page, PageExtractionSkipped), now);
      RetryTells(
        db, RecordFailure(MarkExtraction(db, cmd.page, PagePending), error),
        RecordFailure(MarkExtraction(db, cmd.page, PageExtractionFailed), error), error, cfg.extractionMaxRetries,
        OnExtractionRetry, Some(OnExtractionFailed), now);
    }
  }

  lemma MarksExtraction(db: Db, page: Option<nat>, status: ExtractionStatus)
    ensures MarkExtraction(db, page, status) == db.(pages := MarkExtraction(db, page, status).pages)
  {
  }

  /** A cancellation acknowledged after the page was marked. */
  lemma MarkedTells(db: Db, marked: Db, now: int)
    requires JobOk(db.job) && marked.job == db.job && marked.events == db.events
    ensures Tells(db, Acknowledge(marked, now).db)
  {
    hide Acknowledge, Replay;
    AcknowledgeTells(marked, now);
  }

  lemma ClaimValidationTells(db: Db, cmd: Command, now: int, until: int)
    requires JobOk(db.job)
    ensures Tells(db, ClaimValidation(db, cmd, now, until).db)
  {
    hide Tells, StepOk, LogGrows, MaxSequence, Acknowledge;
    HushedTells(db, db);
    AcknowledgeTells(db, now);
    if cmd.run.Some? && cmd.run.value < |db.runs| {
      var claimed := Lease(db.(runs := db.runs[cmd.run.value := RunRunning]), until);
      HushedTells(db, Append(claimed, OnValidationStarted));
    }
  }

  lemma CloseRunTells(cfg: Config, db: Db, run: nat, now: int)
    requires run < |db.runs|
    ensures CloseRun(cfg, db, run, now).Some? ==> Tells(db, CloseRun(cfg, db, run, now).value)
  {
    hide Tells, LogGrows, MaxSequence, Transition, InsertResults, JobStep;
    ResultsHushed(cfg, db, run, db.records);
    var r := InsertResults(cfg, db, run, db.records);
    if r.Some? {
      var closed := RaiseProgress(Release(r.value.(runs := r.value.runs[run := RunCompleted])), 80);
      assert Hushed(db, Append(closed, OnValidationCompleted));
      TransitionAfter(db, Append(closed, OnValidationCompleted), Validating, Exporting, now);
    }
  }

  lemma CompleteValidationTells(cfg: Config, db: Db, w: Work, now: int)
    requires JobOk(db.job) && w.ValidationWork?
    ensures Tells(db, CompleteValidation(cfg, db, w, now).db)
  {
    hide Tells, StepOk, LogGrows, JobStep, MaxSequence, Acknowledge, CloseRun, InsertExports;
    HushedTells(db, db);
    AcknowledgeTells(db, now);
    if w.run < |db.runs| && StoreValidation(cfg, db, w.run, now).Some? {
      CloseRunTells(cfg, db, w.run, now);
      var closed := CloseRun(cfg, db, w.run, now).value;
      HushedTells(closed, StoreValidation(cfg, db, w.run, now).value);
      TellsMore(db, closed, StoreValidation(cfg, db, w.run, now).value);
    }
  }

  lemma ClaimExportTells(db: Db, cmd: Command, now: int, until: int)
    requires JobOk(db.job)
    ensures Tells(db, ClaimExport(db, cmd, now, until).db)
  {
    hide Tells, StepOk, LogGrows, MaxSequence;
    HushedTells(db, ClaimExport(db, cmd, now, until).db);
  }

  lemma FileTells(db: Db, id: nat, key: string, now: int)
    requires id < |db.exports|
    ensures StoreFile(db, id, key, now).Some? ==> Tells(db, StoreFile(db, id, key, now).value)
  {
    hide Tells, LogGrows, MaxSequence, Transition, JobStep, HasKey, AllExported;
    var row := db.exports[id].(status := ExportCompleted);
    var stored := SetExport(db.(files := db.files + [GeneratedFile(id, key)]), id, row);
    var quiet := Append(Release(stored), OnExportCompleted);
    var full := quiet.(job := quiet.job.(progress := 100));
    assert Hushed(db, quiet) && Hushed(db, full);
    hide Hushed;
    HushedTells(db, quiet);
    TransitionAfter(db, full, Exporting, Completed, now);
  }

  lemma CompleteExportTells(db: Db, w: Work, key: string, now: int)
    requires w.ExportWork?
    ensures Tells(db, CompleteExport(db, w, key, now).db)
  {
    hide Tells, StepOk, StoreFile, LogGrows, JobStep;
    HushedTells(db, db);
    if w.exportId < |db.exports| { FileTells(db, w.exportId, key, now); }
  }

  lemma ReportTells(db: Db, id: nat, error: Failure, now: int)
    requires id < |db.exports|
    ensures var row := db.exports[id];
            var failed := Append(SetExport(RecordFailure(db, error), id, row.(status := ExportFailed)), OnExportFailed);
            Transition(failed, Exporting, Failed, now).Some? ==>
              Tells(db, Transition(failed, Exporting, Failed, now).value)
  {
    hide Tells, LogGrows, MaxSequence, Transition;
    var row := db.exports[id];
    var failed := Append(SetExport(RecordFailure(db, error), id, row.(status := ExportFailed)), OnExportFailed);
    TransitionAfter(db, failed, Exporting, Failed, now);
  }

  lemma FailExportTells(db: Db, cmd: Command, error: Failure, budget: nat, now: int)
    ensures Tells(db, FailExport(db, cmd, error, budget, now).db)
  {
    hide Tells, StepOk, LogGrows, MaxSequence, Transition;
    HushedTells(db, db);
    if cmd.exportId.Some? && cmd.exportId.value < |db.exports| {
      var row := db.exports[cmd.exportId.value];
      if db.job.cancelRequested || (error.retryable && row.attempt < budget) {
        HushedTells(db, FailExport(db, cmd, error, budget, now).db);
      } else {
        ReportTells(db, cmd.exportId.value, error, now);
      }
    }
  }

  lemma CancelTells(db: Db, now: int)
    requires JobOk(db.job)
    ensures Tells(db, Cancel(db, now).db)
  {
    hide Tells, StepOk, LogGrows, MaxSequence, Transition;
    HushedTells(db, db);
    TransitionAfter(db, db.(job := db.job.(cancelRequested := true)), db.job.status, Cancelled, now);
  }

  lemma RecoverTells(db: Db, pick: nat, now: int)
    requires JobOk(db.job)
    ensures Tells(db, Recover(db, pick, now).db)
  {
    hide Tells, StepOk, LogGrows, MaxSequence, Least, Replay;
    var r := Recover(db, pick, now);
    HushedTells(db, db);
    if r.db.job.status == Failed && r.db != db {
      OneEvent(db, r.db, OnJobFailed);
    } else {
      HushedTells(db, r.db);
    }
  }

  lemma EarlyTells(cfg: Config, db: Db, step: Step)
    requires JobOk(db.job) && IsEarly(step.call)
    ensures Tells(db, Apply(cfg, db, step).db)
  {
    hide Tells, StepOk, ClaimPlanning, CompletePlanning, FailPlanning, PrepareBrowser, CompleteBrowser, FailBrowser;
    hide ClaimDiscovery, CompleteDiscovery, FailDiscovery, ClaimExtraction, CompleteExtraction, FailExtraction;
    hide ClaimValidation, CompleteValidation, FailValidation, ClaimExport, CompleteExport, FailExport;
    hide Cancel, Recover;
    var now := step.now;
    HushedTells(db, db);
    match step.call {
      case ClaimPlanningCall(cmd, until) => ClaimPlanningTells(db, cmd, now, until);
      case CompletePlanningCall(_, plan) => CompletePlanningTells(db, plan, now);
      case FailPlanningCall(_, error) => FailuresTell(cfg, db, error, now);
      case PrepareBrowserCall(cmd) => PrepareBrowserTells(db, cmd, now);
      case CompleteBrowserCall(_, url, n) => CompleteBrowserTells(cfg, db, url, n, now);
      case FailBrowserCall(w, error, cancelled) => FailBrowserTells(db, w.cmd, error, cancelled, now);
      case ClaimDiscoveryCall(cmd, until) => ClaimDiscoveryTells(db, cmd, now, until);
      case CompleteDiscoveryCall(w, capture) =>
        if w.DiscoveryWork? { CompleteDiscoveryTells(cfg, db, w, capture, now); }
      case FailDiscoveryCall(w, error) => FailDiscoveryTells(cfg, db, w.cmd, error, now);
      case CancelCall => CancelTells(db, now);
    }
  }

  lemma LateTells(cfg: Config, db: Db, step: Step)
    requires JobOk(db.job) && !IsEarly(step.call)
    ensures Tells(db, Apply(cfg, db, step).db)
  {
    hide Tells, StepOk, ClaimPlanning, CompletePlanning, FailPlanning, PrepareBrowser, CompleteBrowser, FailBrowser;
    hide ClaimDiscovery, CompleteDiscovery, FailDiscovery, ClaimExtraction, CompleteExtraction, FailExtraction;
    hide ClaimValidation, CompleteValidation, FailValidation, ClaimExport, CompleteExport, FailExport;
    hide Cancel, Recover;
    var now := step.now;
    HushedTells(db, db);
    match step.call {
      case ClaimExtractionCall(cmd, until) => ClaimExtractionTells(db, cmd, now, until);
      case CompleteExtractionCall(w, extract) =>
        if w.ExtractionWork? { CompleteExtractionTells(cfg, db, w, extract, now); }
      case FailExtractionCall(w, error) => FailExtractionTells(cfg, db, w.cmd, error, now);
      case ClaimValidationCall(cmd, until) => ClaimValidationTells(db, cmd, now, until);
      case CompleteValidationCall(w) => if w.ValidationWork? { CompleteValidationTells(cfg, db, w, now); }
      case FailValidationCall(_, error) => FailuresTell(cfg, db, error, now);
      case ClaimExportCall(cmd, until) => ClaimExportTells(db, cmd, now, until);
      case CompleteExportCall(w, key) => if w.ExportWork? { CompleteExportTells(db, w, key, now); }
      case FailExportCall(w, error) => FailExportTells(db, w.cmd, error, cfg.exportMaxRetries, now);
      case RecoverCall(pick) => RecoverTells(db, pick, now);
    }
  }

  // Whole runs

  /**
   * Over any run of any calls: replaying the log gives the status of the job, and replaying any beginning of it gives a
   * status that the job had at that time or before, so a client of the stream never shows a status that never was.
   */
  lemma {:induction false} StatusFollowsLog(cfg: Config, dbs: seq<Db>, steps: seq<Step>, i: nat, n: nat)
    requires CallRun(cfg, dbs, steps) && i <= |steps| && n <= |dbs[i].events|
    ensures Replay(Queued, dbs[i].events) == dbs[i].job.status
    ensures exists j :: 0 <= j <= i && Replay(Queued, dbs[i].events[..n]) == dbs[j].job.status
  {
    hide Apply, Tells;
    if i == 0 {
      FirstEvent(dbs[0], n);
    } else {
      var db, after := dbs[i - 1], dbs[i];
      RunIsSound(cfg, dbs, steps, i - 1);
      assert after == Apply(cfg, db, steps[i - 1]).db;
      if IsEarly(steps[i - 1].call) { EarlyTells(cfg, db, steps[i - 1]); } else { LateTells(cfg, db, steps[i - 1]); }
      StatusFollowsLog(cfg, dbs, steps, i - 1, Min(n, |db.events|));
      TellsFrom(db, after, n);
    }
  }

  lemma FirstEvent(db: Db, n: nat)
    requires (exists formats, maxAttempts :: db == Created(formats, maxAttempts)) && n <= |db.events|
    ensures Replay(Queued, db.events) == Replay(Queued, db.events[..n]) == db.job.status
  {
    assert |db.events| == 1 && db.events[0].eventType == OnJobQueued;
    QuietReplay(Queued, db.events);
    QuietReplay(Queued, db.events[..n]);
  }

  lemma TellsFrom(before: Db, after: Db, n: nat)
    requires Tells(before, after) && Replay(Queued, before.events) == before.job.status && n <= |after.events|
    ensures Replay(Queued, after.events) == after.job.status
    ensures n >= |before.events| ==> Replay(Queued, after.events[..n]) in {before.job.status, after.job.status}
    ensures n < |before.events| ==> after.events[..n] == before.events[..n]
  {
    hide Replay;
    var k := |before.events|;
    assert after.events == before.events + after.events[k..];
    ReplayConcat(Queued, before.events, after.events[k..]);
    if n >= k {
      assert after.events[..n] == before.events + after.events[k..n];
      ReplayConcat(Queued, before.events, after.events[k..n]);
    }
  }
}
