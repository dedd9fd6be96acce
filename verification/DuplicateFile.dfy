/** Which configurations have a run that gives an export two files. */
module DuplicateFile {
  import opened Wrappers
  import opened Domain
  import opened Rows
  import opened Lifecycle
  import opened Frontier
  import opened Stages
  import opened Protocol
  import opened Invariants
  import opened Runs
  import opened CrawlOrder
  import opened Liveness
  import opened Results
  import opened ExportFiles

  // A failure-free run up to the export stage

  /** A reachable state of a job of these formats that nothing has gone wrong with. */
  ghost predicate Smooth(cfg: Config, q: Quiet, formats: seq<Format>, maxAttempts: nat) {
    && QuietState(cfg, q) && Reaches(cfg, System(q.run.db, q.run.live))
    && Comparable(cfg, q.run.db.records) && !Terminal(q.run.db.job.status)
    && q.run.db.job.attempt == 0 && q.run.db.job.formats == formats && q.run.db.job.maxAttempts == maxAttempts
  }

  lemma StartsSmooth(cfg: Config, formats: seq<Format>, maxAttempts: nat) returns (q: Quiet)
    requires DistinctKeys(cfg) && FormatsOk(formats)
    ensures Smooth(cfg, q, formats, maxAttempts) && q.run.db.job.status == Queued
  {
    hide Reaches, QuietState;
    var db := Created(formats, maxAttempts);
    q := Quiet(Exclusive(db, {}, []), {});
    ReachesFirst(cfg, formats, maxAttempts);
    FirstIsQuiet(cfg, q);
  }

  lemma NextIsServed(cfg: Config, q: Quiet, step: Step, r: Quiet)
    requires Reaches(cfg, System(q.run.db, q.run.live)) && NextQuiet(cfg, q, step, r)
    ensures Reaches(cfg, System(r.run.db, r.run.live))
  {
    hide Apply, Reaches;
    ReachesNext(cfg, System(q.run.db, q.run.live), step, System(r.run.db, r.run.live));
  }

  /** A forward step counts no attempt and moves the status by at most one stage. */
  lemma ForwardMoves(cfg: Config, q: Quiet, step: Step, r: Quiet)
    requires JobOk(q.run.db.job) && NextQuiet(cfg, q, step, r) && r.run.db.job.status != Failed
    ensures r.run.db.job.attempt == q.run.db.job.attempt && r.run.db.job.formats == q.run.db.job.formats
    ensures r.run.db.job.maxAttempts == q.run.db.job.maxAttempts
    ensures r.run.db.job.status == q.run.db.job.status || Allowed(q.run.db.job.status, r.run.db.job.status)
  {
    hide Apply;
  }

  lemma StateOf(cfg: Config, q: Quiet)
    requires QuietState(cfg, q)
    ensures DbOk(cfg, q.run.db)
  {
  }

  /** One advancing step of a smooth run. */
  lemma GoesOn(cfg: Config, q: Quiet, formats: seq<Format>, maxAttempts: nat) returns (step: Step, r: Quiet)
    requires Smooth(cfg, q, formats, maxAttempts) && Rank(q.run.db.job.status) >= 2
    ensures NextQuiet(cfg, q, step, r) && Descends(cfg, q, r) && Smooth(cfg, r, formats, maxAttempts)
    ensures r.run.db.job.status == q.run.db.job.status || Allowed(q.run.db.job.status, r.run.db.job.status)
  {
    hide Apply, QuietState, NextQuiet, Advances, Descends, Reaches, Comparable;
    step := NeverStuck(cfg, q);
    r := AdvanceQuietly(cfg, q, step);
    StateOf(cfg, q);
    QuietEndsCompleted(cfg, r);
    ForwardMoves(cfg, q, step, r);
    NextIsServed(cfg, q, step, r);
    if r.run.db.job.status == Completed { NotYetCompleted(cfg, q, step, r); }
  }

  /** A job completes by its last export only, and enters the export stage with open exports. */
  lemma NotYetCompleted(cfg: Config, q: Quiet, step: Step, r: Quiet)
    requires QuietState(cfg, q) && NextQuiet(cfg, q, step, r) && Rank(q.run.db.job.status) >= 2
    requires Allowed(q.run.db.job.status, r.run.db.job.status) && Comparable(cfg, q.run.db.records)
    ensures r.run.db.job.status != Completed
  {
    hide Apply, SystemOk, OrderOk, QuietOk, CompleteValidation;
    StateOf(cfg, q);
    if r.run.db.job.status == Completed {
      OthersStayInValidation(cfg, q.run.db, step);
      ValidationEnds(cfg, q.run.db, step.call.work, step.now);
    }
  }

  lemma ValidationEnds(cfg: Config, db: Db, work: Work, now: int)
    requires DbOk(cfg, db) && db.job.status == Validating && Comparable(cfg, db.records) && work.ValidationWork?
    ensures var after := CompleteValidation(cfg, db, work, now).db;
            after == db ||
            (after.job.status == Exporting && QueuedExports(after, 0, 0, db.job.formats) && after.files == [])
  {
    hide StoreValidation, TablesOk, Numbered, FormatsOk, StepOk;
    if work.run < |db.runs| {
      assert work.run == 0 && !db.job.cancelRequested;
      var after := StoreValidationKeeps(cfg, db, now);
    }
  }

  lemma {:induction false} ReachValidation(cfg: Config, q: Quiet, formats: seq<Format>, maxAttempts: nat)
    returns (r: Quiet)
    requires Smooth(cfg, q, formats, maxAttempts) && Rank(q.run.db.job.status) >= 2
    ensures Smooth(cfg, r, formats, maxAttempts) && r.run.db.job.status == Validating
    decreases Rank(q.run.db.job.status), Left(cfg, q.run), |Unspent(q)|
  {
    hide Smooth, NextQuiet, Left, Unspent;
    r := q;
    if q.run.db.job.status != Validating {
      var step, next := GoesOn(cfg, q, formats, maxAttempts);
      LiveStatus(cfg, next, formats, maxAttempts);
      r := ReachValidation(cfg, next, formats, maxAttempts);
    }
  }

  lemma LiveStatus(cfg: Config, q: Quiet, formats: seq<Format>, maxAttempts: nat)
    requires Smooth(cfg, q, formats, maxAttempts)
    ensures !Terminal(q.run.db.job.status)
  {
    hide QuietState, Reaches;
  }

  /** The export stage as it is entered: every export queued, with its first command, and no file. */
  ghost predicate Entered(cfg: Config, s: System, formats: seq<Format>, maxAttempts: nat) {
    && Reaches(cfg, s) && s.db.job.status == Exporting && QueuedExports(s.db, 0, 0, formats) && s.db.files == []
    && s.db.job.formats == formats && s.db.job.maxAttempts == maxAttempts
  }

  lemma {:induction false} ReachExports(cfg: Config, q: Quiet, formats: seq<Format>, maxAttempts: nat)
    returns (s: System)
    requires Smooth(cfg, q, formats, maxAttempts) && q.run.db.job.status == Validating
    ensures Entered(cfg, s, formats, maxAttempts)
    decreases Left(cfg, q.run), |Unspent(q)|
  {
    hide NextQuiet, Left, Unspent, QuietState, Reaches, QueuedExports, Comparable;
    var step, r := GoesOn(cfg, q, formats, maxAttempts);
    if r.run.db.job.status == Validating {
      s := ReachExports(cfg, r, formats, maxAttempts);
    } else {
      ExportsEntered(cfg, q, step, r);
      s := System(r.run.db, r.run.live);
    }
  }

  lemma ExportsEntered(cfg: Config, q: Quiet, step: Step, r: Quiet)
    requires QuietState(cfg, q) && NextQuiet(cfg, q, step, r) && Comparable(cfg, q.run.db.records)
    requires q.run.db.job.status == Validating && r.run.db.job.status != Validating
    requires !Terminal(r.run.db.job.status) && Allowed(q.run.db.job.status, r.run.db.job.status)
    ensures r.run.db.job.status == Exporting && QueuedExports(r.run.db, 0, 0, q.run.db.job.formats)
    ensures r.run.db.files == []
  {
    hide Apply, SystemOk, OrderOk, QuietOk, CompleteValidation, QueuedExports;
    StateOf(cfg, q);
    NoReadyForExport(cfg, q, step, r);
    OthersStayInValidation(cfg, q.run.db, step);
    ValidationEnds(cfg, q.run.db, step.call.work, step.now);
  }

  lemma NoReadyForExport(cfg: Config, q: Quiet, step: Step, r: Quiet)
    requires JobOk(q.run.db.job) && NextQuiet(cfg, q, step, r)
    ensures r.run.db.job.status != ReadyForExport
  {
    hide Apply;
  }

  // Two workers for one export

  /** The first export's row and files, while the second export keeps the job in the stage. */
  ghost predicate FirstRow(db: Db, status: ExportStatus, attempt: nat, files: seq<GeneratedFile>) {
    && db.job.status == Exporting && !db.job.cancelRequested && db.runs == [RunCompleted]
    && |db.exports| >= 2 && db.exports[1].status == ExportQueued
    && db.exports[0].status == status && db.exports[0].attempt == attempt && db.exports[0].run == 0
    && db.files == files
  }

  /** The first command of the first export. */
  const FIRST := ExportCommand(0, 1, 1, 0)

  lemma IsClaimed(db: Db, n: nat, files: seq<GeneratedFile>)
    requires FirstRow(db, ExportQueued, n, files)
    ensures var r := ClaimExport(db, FIRST, 0, 1);
            && FirstRow(r.db, ExportRunning, Max(n, 1), files) && r.reply == Claimed(ExportWork(FIRST, 0))
            && r.db.outbox == db.outbox
  {
    hide StepOk, LogGrows, MaxSequence;
  }

  lemma IsCommitted(db: Db, n: nat, files: seq<GeneratedFile>, key: string)
    requires FirstRow(db, ExportRunning, n, files) && !HasKey(files, key)
    ensures var r := CompleteExport(db, ExportWork(FIRST, 0), key, 0);
            && FirstRow(r.db, ExportCompleted, n, files + [GeneratedFile(0, key)]) && r.db.outbox == db.outbox
  {
    hide StepOk, LogGrows, MaxSequence, HasKey;
    var row := db.exports[0].(status := ExportCompleted);
    assert db.exports[0 := row][1].status == ExportQueued;
  }

  lemma IsRequeued(db: Db, budget: nat, files: seq<GeneratedFile>)
    requires FirstRow(db, ExportCompleted, 1, files) && budget >= 2
    ensures var r := FailExport(db, FIRST, Failure("TIMEOUT", true), budget, 0);
            FirstRow(r.db, ExportQueued, 2, files) && r.db.outbox == db.outbox
  {
    hide StepOk, LogGrows, MaxSequence;
  }

  lemma ExportApplied(cfg: Config, db: Db, step: Step)
    ensures match step.call
            case ClaimExportCall(cmd, until) => Apply(cfg, db, step) == ClaimExport(db, cmd, step.now, until)
            case CompleteExportCall(w, key) =>
              w.ExportWork? ==> Apply(cfg, db, step) == CompleteExport(db, w, key, step.now)
            case FailExportCall(w, e) =>
              Apply(cfg, db, step) == FailExport(db, w.cmd, e, cfg.exportMaxRetries, step.now)
            case _ => true
  {
    hide ClaimPlanning, CompletePlanning, FailPlanning, PrepareBrowser, CompleteBrowser, FailBrowser;
    hide ClaimDiscovery, CompleteDiscovery, FailDiscovery, ClaimExtraction, CompleteExtraction, FailExtraction;
    hide ClaimValidation, CompleteValidation, FailValidation, ClaimExport, CompleteExport, FailExport;
    hide Cancel, Recover, StepOk;
  }

  lemma EnteredRow(cfg: Config, s: System, formats: seq<Format>, maxAttempts: nat)
    requires Entered(cfg, s, formats, maxAttempts) && |formats| >= 2
    ensures FirstRow(s.db, ExportQueued, 0, []) && Delivered(s.db, FIRST, RunExport)
  {
    hide Reaches;
    ReachableIsOk(cfg, s);
  }

  /** No step changes what the client asked for. */
  lemma KeepsRequest(cfg: Config, s: System, step: Step, t: System)
    requires Reaches(cfg, s) && Next(cfg, s, step, t)
    ensures t.db.job.formats == s.db.job.formats && t.db.job.maxAttempts == s.db.job.maxAttempts
  {
    hide Apply, Reaches;
    ReachableIsOk(cfg, s);
  }

  /** The first command claims the export, and the worker commits a file: one more. */
  lemma ClaimAndCommit(cfg: Config, s: System, n: nat, files: seq<GeneratedFile>, key: string) returns (t: System)
    requires Reaches(cfg, s) && FirstRow(s.db, ExportQueued, n, files) && !HasKey(files, key)
    requires Delivered(s.db, FIRST, RunExport)
    ensures Reaches(cfg, t) && FirstRow(t.db, ExportCompleted, Max(n, 1), files + [GeneratedFile(0, key)])
    ensures Delivered(t.db, FIRST, RunExport) && ExportWork(FIRST, 0) in t.works
    ensures t.db.job.formats == s.db.job.formats && t.db.job.maxAttempts == s.db.job.maxAttempts
  {
    hide Apply, Reaches, Next, FirstRow, ClaimExport, CompleteExport;
    var claim := Step(ClaimExportCall(FIRST, 1), 0);
    IsClaimed(s.db, n, files);
    ExportApplied(cfg, s.db, claim);
    var u := Serves(cfg, s, claim);
    KeepsRequest(cfg, s, claim, u);
    var commit := Step(CompleteExportCall(ExportWork(FIRST, 0), key), 0);
    IsCommitted(u.db, Max(n, 1), files, key);
    ExportApplied(cfg, u.db, commit);
    t := Serves(cfg, u, commit);
    KeepsRequest(cfg, u, commit, t);
  }

  /** The same worker, which did not see its commit acknowledged, reports a retryable failure. */
  lemma LateReport(cfg: Config, s: System, files: seq<GeneratedFile>) returns (t: System)
    requires Reaches(cfg, s) && FirstRow(s.db, ExportCompleted, 1, files) && cfg.exportMaxRetries >= 2
    requires ExportWork(FIRST, 0) in s.works && Delivered(s.db, FIRST, RunExport)
    ensures Reaches(cfg, t) && FirstRow(t.db, ExportQueued, 2, files) && Delivered(t.db, FIRST, RunExport)
    ensures t.db.job.formats == s.db.job.formats && t.db.job.maxAttempts == s.db.job.maxAttempts
  {
    hide Apply, Reaches, Next, FirstRow, FailExport;
    var report := Step(FailExportCall(ExportWork(FIRST, 0), Failure("TIMEOUT", true)), 0);
    IsRequeued(s.db, cfg.exportMaxRetries, files);
    ExportApplied(cfg, s.db, report);
    t := Serves(cfg, s, report);
    KeepsRequest(cfg, s, report, t);
  }

  /**
   * Every job of two or more formats has a run in which an export gets two files, when the export budget is at least
   * two and the primary keys are distinct: one worker claims and commits the export and then reports a retryable
   * failure, because the acknowledgement of its commit was lost; the command is delivered once more.
   */
  lemma SecondFileIsReachable(cfg: Config, formats: seq<Format>, maxAttempts: nat) returns (t: System)
    requires DistinctKeys(cfg) && cfg.exportMaxRetries >= 2 && FormatsOk(formats) && |formats| >= 2
    ensures Reaches(cfg, t) && t.db.job.formats == formats && t.db.job.maxAttempts == maxAttempts
    ensures t.db.job.status == Exporting && TwoFiles(t.db.files, 0)
    ensures t.db.exports != [] && t.db.exports[0].status == ExportCompleted
  {
    hide Reaches, Smooth, Entered, HasKey, FormatsOk, Rank;
    var q := StartsSmooth(cfg, formats, maxAttempts);
    assert Rank(Queued) >= 2 by { RankOfQueued(); }
    q := ReachValidation(cfg, q, formats, maxAttempts);
    var s := ReachExports(cfg, q, formats, maxAttempts);
    EnteredRow(cfg, s, formats, maxAttempts);
    assert s.db.job.formats == formats && s.db.job.maxAttempts == maxAttempts && Reaches(cfg, s) by {
      AsRequested(cfg, s, formats, maxAttempts);
    }
    KeysDiffer();
    s := ClaimAndCommit(cfg, s, 0, [], "k");
    var once := [] + [GeneratedFile(0, "k")];
    s := LateReport(cfg, s, once);
    t := ClaimAndCommit(cfg, s, 2, once, "l");
    assert t.db.files[0].exportId == t.db.files[1].exportId == 0;
  }

  lemma AsRequested(cfg: Config, s: System, formats: seq<Format>, maxAttempts: nat)
    requires Entered(cfg, s, formats, maxAttempts)
    ensures Reaches(cfg, s) && s.db.job.formats == formats && s.db.job.maxAttempts == maxAttempts
  {
    hide Reaches;
  }

  lemma RankOfQueued()
    ensures Rank(Queued) == 7
  {
  }

  lemma KeysDiffer()
    ensures !HasKey([], "k") && !HasKey([] + [GeneratedFile(0, "k")], "l")
  {
    assert "k"[0] != "l"[0];
  }

  // No other configuration has one

  /** Exports that a worker holds, and exports that are completed, have been claimed. */
  ghost predicate ClaimsCounted(s: System) {
    && (forall w <- s.works :: w.ExportWork? ==>
          w.exportId < |s.db.exports| && s.db.exports[w.exportId].attempt >= 1)
    && (forall id :: 0 <= id < |s.db.exports| && s.db.exports[id].status == ExportCompleted ==>
          s.db.exports[id].attempt >= 1)
  }

  /** An export is completed by the commit of a worker that holds it, and by nothing else. */
  lemma OnlyCommitsComplete(cfg: Config, trace: seq<System>, steps: seq<Step>, i: nat, id: nat)
    requires QueueRun(cfg, trace, steps) && i < |steps| && id < |trace[i + 1].db.exports|
    requires trace[i + 1].db.exports[id].status == ExportCompleted
    ensures id < |trace[i].db.exports|
    ensures trace[i].db.exports[id].status == ExportCompleted || Commits(trace[i].db, steps[i].call, id)
  {
    hide ClaimPlanning, CompletePlanning, FailPlanning, PrepareBrowser, CompleteBrowser, FailBrowser;
    hide Cancel, ClaimDiscovery, CompleteDiscovery, FailDiscovery, ClaimExtraction, CompleteExtraction;
    hide FailExtraction, ClaimValidation, CompleteValidation, FailValidation, ClaimExport, CompleteExport;
    hide FailExport, Recover;
    hide StageOk, PagesOk, RecordsOk, ExportsOk, KeysOk, OutboxOk, Numbered, FormatsOk, WorksOk, HasKey, StepOk;
    Reachable(cfg, trace, steps, i);
    Reachable(cfg, trace, steps, i + 1);
    assert Next(cfg, trace[i], steps[i], trace[i + 1]);
    var db, now := trace[i].db, steps[i].now;
    if db.exports == [] {
      NoFilesYet(cfg, db, steps[i]);
    } else {
      match steps[i].call
      case ClaimExportCall(cmd, until) => ClaimExportChange(db, cmd, now, until);
      case CompleteExportCall(w, key) =>
        if w.ExportWork? {
          CompleteExportChange(db, w, key, now);
          CommitStep(db, w, key, now);
        }
      case FailExportCall(w, e) => FailExportChange(db, w, e, cfg.exportMaxRetries, now);
      case RecoverCall(pick) => RecoverExportChange(cfg, db, pick, now);
      case _ => OthersKeepExports(cfg, db, steps[i]);
    }
  }

  /** A granted claim leaves the export with at least one attempt. */
  lemma ClaimCounts(cfg: Config, s: System, step: Step)
    requires Legit(s, step.call) && OutboxOk(s.db.pages, s.db.outbox)
    ensures var r := Apply(cfg, s.db, step);
            forall w <- HandedOut(step.call, r.reply) :: w.ExportWork? ==>
              w.exportId < |r.db.exports| && r.db.exports[w.exportId].attempt >= 1
  {
    hide CompletePlanning, FailPlanning, CompleteBrowser, FailBrowser, CompleteDiscovery, FailDiscovery;
    hide CompleteExtraction, FailExtraction, CompleteValidation, FailValidation, CompleteExport, FailExport;
    hide Cancel, Recover, StepOk, LogGrows, MaxSequence;
  }

  lemma {:induction false} ClaimsAreCounted(cfg: Config, trace: seq<System>, steps: seq<Step>, i: nat)
    requires QueueRun(cfg, trace, steps) && i <= |steps|
    ensures ClaimsCounted(trace[i])
  {
    hide Apply, Legit, StageOk, PagesOk, RecordsOk, ExportsOk, KeysOk, Numbered, FormatsOk, WorksOk, OutboxOk;
    if i > 0 {
      ClaimsAreCounted(cfg, trace, steps, i - 1);
      var s, step, t := trace[i - 1], steps[i - 1], trace[i];
      Reachable(cfg, trace, steps, i - 1);
      assert Next(cfg, s, step, t);
      ClaimCounts(cfg, s, step);
      ExportKeyStep(cfg, trace, steps, i - 1);
      forall id | 0 <= id < |t.db.exports| && t.db.exports[id].status == ExportCompleted
        ensures t.db.exports[id].attempt >= 1
      {
        OnlyCommitsComplete(cfg, trace, steps, i - 1, id);
        if Commits(s.db, step.call, id) { CommitterHolds(s, step.call, id); }
      }
    }
  }

  lemma CommitterHolds(s: System, call: Call, id: nat)
    requires Legit(s, call) && Commits(s.db, call, id)
    ensures call.work in s.works && call.work.ExportWork? && call.work.exportId == id
  {
  }

  /** So a completed export can be requeued under a budget of two or more only, and next to an open export only. */
  lemma RequeueNeeds(cfg: Config, trace: seq<System>, steps: seq<Step>, i: nat, id: nat)
    requires QueueRun(cfg, trace, steps) && i < |steps| && RequeuedAt(cfg, trace, steps, i, id)
    ensures cfg.exportMaxRetries >= 2 && |trace[i].db.job.formats| >= 2
  {
    hide Initial, Next, PagesOk, RecordsOk, FilesOk, KeysOk, Numbered, FormatsOk, WorksOk, OutboxOk;
    Reachable(cfg, trace, steps, i);
    ClaimsAreCounted(cfg, trace, steps, i);
    var exports := trace[i].db.exports;
    assert |exports| == 1 ==> AllExported(exports);
  }

  lemma {:induction false} RequestIsKept(cfg: Config, trace: seq<System>, steps: seq<Step>, i: nat, j: nat)
    requires QueueRun(cfg, trace, steps) && i <= j <= |steps|
    ensures trace[j].db.job.formats == trace[i].db.job.formats
    decreases j - i
  {
    hide Apply, RowsOk, Numbered, FormatsOk, WorksOk;
    if i < j {
      RequestIsKept(cfg, trace, steps, i, j - 1);
      Reachable(cfg, trace, steps, j - 1);
      assert Next(cfg, trace[j - 1], steps[j - 1], trace[j]);
    }
  }

  /** Some run of a job with these formats and this recovery budget gives an export two files. */
  ghost predicate Duplicates(cfg: Config, formats: seq<Format>, maxAttempts: nat) {
    exists s: System, id: nat ::
      && Reaches(cfg, s) && s.db.job.formats == formats && s.db.job.maxAttempts == maxAttempts
      && TwoFiles(s.db.files, id)
  }

  /**
   * Exactly the jobs of two or more formats under an export budget of two or more can get an export with two files.
   * The default budget is two.
   */
  lemma DuplicatesExactly(cfg: Config, formats: seq<Format>, maxAttempts: nat)
    requires DistinctKeys(cfg) && FormatsOk(formats)
    ensures Duplicates(cfg, formats, maxAttempts) <==> cfg.exportMaxRetries >= 2 && |formats| >= 2
  {
    hide TwoFiles, FormatsOk, Initial, Next, RequeuedAt, CommittedAt;
    if cfg.exportMaxRetries >= 2 && |formats| >= 2 {
      var t := SecondFileIsReachable(cfg, formats, maxAttempts);
    }
    if s: System, id: nat :| Reaches(cfg, s) && s.db.job.formats == formats && TwoFiles(s.db.files, id) {
      var trace, steps :| QueueRun(cfg, trace, steps) && trace[|steps|] == s;
      SecondFile(cfg, trace, steps, |steps|, id);
      var i, j :| 0 <= i < j < |steps| && RequeuedAt(cfg, trace, steps, i, id) && CommittedAt(trace, steps, j, id);
      RequeueNeeds(cfg, trace, steps, i, id);
      RequestIsKept(cfg, trace, steps, i, |steps|);
    }
  }
}
