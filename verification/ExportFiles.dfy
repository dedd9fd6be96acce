/** How many files an export gets: exactly when a second file appears, in one step and over a whole run. */
module ExportFiles {
  import opened Wrappers
  import opened Domain
  import opened Rows
  import opened Lifecycle
  import opened Frontier
  import opened Stages
  import opened Protocol
  import opened Invariants
  import opened Runs
  import opened Results

  ghost predicate AtMostOneFile(files: seq<GeneratedFile>) {
    forall k, l :: 0 <= k < l < |files| ==> files[k].exportId != files[l].exportId
  }

  ghost predicate TwoFiles(files: seq<GeneratedFile>, id: nat) {
    exists k, l :: 0 <= k < l < |files| && files[k].exportId == id && files[l].exportId == id
  }

  // The two calls that matter, as guards on the rows before the call

  /** complete_export stores a file for export `id`: the job is exporting, the row is open and the key is new. */
  predicate Commits(db: Db, call: Call, id: nat) {
    && call.CompleteExportCall? && call.work.ExportWork? && call.work.exportId == id < |db.exports|
    && db.job.status == Exporting && !db.job.cancelRequested && db.exports[id].status != ExportCompleted
    && !HasKey(db.files, call.storageKey)
  }

  /** fail_export requeues export `id` although it has completed: it does not look at the row's status. */
  predicate Requeues(cfg: Config, db: Db, call: Call, id: nat) {
    && StaleFailure(db, call) && call.work.cmd.exportId == Some(id)
    && call.error.retryable && db.exports[id].attempt < cfg.exportMaxRetries
  }

  /** A commit for an export that has a file already. */
  ghost predicate CommitsAgain(db: Db, call: Call) {
    exists id: nat :: Commits(db, call, id) && HasFile(db.files, id)
  }

  // One step

  lemma CommitStep(db: Db, work: Work, key: string, now: int)
    requires work.ExportWork?
    ensures var after := CompleteExport(db, work, key, now).db;
            if Commits(db, CompleteExportCall(work, key), work.exportId)
            then after.files == db.files + [GeneratedFile(work.exportId, key)] else after.files == db.files
  {
    hide StepOk, LogGrows;
  }

  /** What a step does to the files, and to the completed rows. */
  ghost predicate FilesMove(cfg: Config, before: Db, call: Call, after: Db) {
    && (if call.CompleteExportCall? && call.work.ExportWork? && Commits(before, call, call.work.exportId)
        then after.files == before.files + [GeneratedFile(call.work.exportId, call.storageKey)]
             && |after.exports| == |before.exports| && after.exports[call.work.exportId].status == ExportCompleted
        else after.files == before.files)
    && forall id: nat | id < |before.exports| && id < |after.exports| ::
         before.exports[id].status == ExportCompleted && after.exports[id].status != ExportCompleted ==>
           after.job.status != Exporting || Requeues(cfg, before, call, id)
  }

  lemma ClaimMovesFiles(cfg: Config, db: Db, cmd: Command, now: int, until: int)
    ensures FilesMove(cfg, db, ClaimExportCall(cmd, until), ClaimExport(db, cmd, now, until).db)
  {
    hide ClaimExport, HasKey;
    ClaimExportChange(db, cmd, now, until);
  }

  lemma RecoveryMovesFiles(cfg: Config, db: Db, pick: nat, now: int)
    requires DbOk(cfg, db) && db.exports != []
    ensures FilesMove(cfg, db, RecoverCall(pick), Recover(db, pick, now).db)
  {
    hide Recover, HasKey, DbOk;
    RecoverExportChange(cfg, db, pick, now);
  }

  lemma NothingMovesFiles(cfg: Config, db: Db, call: Call, after: Db)
    requires ExportsKept(db, after) && !call.CompleteExportCall?
    ensures FilesMove(cfg, db, call, after)
  {
  }

  lemma NothingToMove(cfg: Config, db: Db, call: Call, after: Db)
    requires db.exports == [] && after.files == db.files
    ensures FilesMove(cfg, db, call, after)
  {
  }

  lemma CommitMovesFiles(cfg: Config, db: Db, work: Work, key: string, now: int)
    requires work.ExportWork?
    ensures FilesMove(cfg, db, CompleteExportCall(work, key), CompleteExport(db, work, key, now).db)
  {
    hide CompleteExport, HasKey;
    CompleteExportChange(db, work, key, now);
    CommitStep(db, work, key, now);
  }

  lemma ReportMovesFiles(cfg: Config, db: Db, work: Work, error: Failure, now: int)
    requires JobOk(db.job)
    ensures var after := FailExport(db, work.cmd, error, cfg.exportMaxRetries, now).db;
            FilesMove(cfg, db, FailExportCall(work, error), after)
  {
    hide FailExport, HasKey;
    FailExportChange(db, work, error, cfg.exportMaxRetries, now);
  }

  lemma StepMovesFiles(cfg: Config, trace: seq<System>, steps: seq<Step>, i: nat)
    requires QueueRun(cfg, trace, steps) && i < |steps|
    ensures FilesMove(cfg, trace[i].db, steps[i].call, trace[i + 1].db)
  {
    hide ClaimPlanning, CompletePlanning, FailPlanning, PrepareBrowser, CompleteBrowser, FailBrowser;
    hide Cancel, ClaimDiscovery, CompleteDiscovery, FailDiscovery, ClaimExtraction, CompleteExtraction;
    hide FailExtraction, ClaimValidation, CompleteValidation, FailValidation, ClaimExport, CompleteExport;
    hide FailExport, Recover;
    hide RowsOk, Numbered, FormatsOk, WorksOk, HasKey, FilesMove, StepOk, ExportsKept;
    Reachable(cfg, trace, steps, i);
    assert Next(cfg, trace[i], steps[i], trace[i + 1]);
    var db := trace[i].db;
    var now := steps[i].now;
    if db.exports == [] {
      NoFilesYet(cfg, db, steps[i]);
      NothingToMove(cfg, db, steps[i].call, trace[i + 1].db);
    } else {
      match steps[i].call
      case ClaimExportCall(cmd, until) => ClaimMovesFiles(cfg, db, cmd, now, until);
      case CompleteExportCall(w, key) => CommitMovesFiles(cfg, db, w, key, now);
      case FailExportCall(w, e) => ReportMovesFiles(cfg, db, w, e, now);
      case RecoverCall(pick) => RecoveryMovesFiles(cfg, db, pick, now);
      case _ =>
        OthersKeepExports(cfg, db, steps[i]);
        NothingMovesFiles(cfg, db, steps[i].call, trace[i + 1].db);
    }
  }

  /** No file is written before there are exports. */
  lemma NoFilesYet(cfg: Config, db: Db, step: Step)
    requires DbOk(cfg, db) && db.exports == []
    ensures db.files == Apply(cfg, db, step).db.files == []
  {
    hide Apply, Numbered, FormatsOk, LogGrows, JobStep, Frozen;
    assert db.files != [] ==> db.files[0].exportId < |db.exports|;
  }

  /**
   * "No export has two files" survives a step if and only if the step does not commit a file for an export that has
   * one already.
   */
  lemma OneFileStep(cfg: Config, trace: seq<System>, steps: seq<Step>, i: nat)
    requires QueueRun(cfg, trace, steps) && i < |steps| && AtMostOneFile(trace[i].db.files)
    ensures AtMostOneFile(trace[i + 1].db.files) <==> !CommitsAgain(trace[i].db, steps[i].call)
  {
    hide Initial, Next, HasKey, Requeues;
    StepMovesFiles(cfg, trace, steps, i);
    var before, call := trace[i].db, steps[i].call;
    if call.CompleteExportCall? && call.work.ExportWork? && Commits(before, call, call.work.exportId) {
      AppendedFile(before.files, GeneratedFile(call.work.exportId, call.storageKey));
    }
  }

  lemma AppendedFile(files: seq<GeneratedFile>, f: GeneratedFile)
    requires AtMostOneFile(files)
    ensures AtMostOneFile(files + [f]) <==> !HasFile(files, f.exportId)
  {
    var after := files + [f];
    if HasFile(files, f.exportId) {
      var k :| 0 <= k < |files| && files[k].exportId == f.exportId;
      assert after[k].exportId == after[|files|].exportId;
    }
  }

  /**
   * A failure report to a live export, exactly: within the budget a retryable one counts an attempt and queues the row
   * again, and the job goes on; any other fails the row and the job. The file rows stay.
   */
  lemma ReportExactly(db: Db, cmd: Command, error: Failure, budget: nat, now: int)
    requires JobOk(db.job) && db.job.status == Exporting && cmd.exportId.Some? && cmd.exportId.value < |db.exports|
    ensures var r := FailExport(db, cmd, error, budget, now);
            var id, row := cmd.exportId.value, db.exports[cmd.exportId.value];
            && r.db.files == db.files && r.db.outbox == db.outbox
            && if error.retryable && row.attempt < budget
               then r.reply == RetryAt(row.attempt + 1) && r.db.job.status == Exporting
                    && r.db.exports == db.exports[id := row.(status := ExportQueued, attempt := row.attempt + 1)]
               else r.reply == Nothing && r.db.job.status == Failed
                    && r.db.exports == db.exports[id := row.(status := ExportFailed)]
  {
    hide StepOk, LogGrows, MaxSequence;
  }

  // Whole runs

  lemma {:induction false} FilesGrow(cfg: Config, trace: seq<System>, steps: seq<Step>, i: nat, j: nat)
    requires QueueRun(cfg, trace, steps) && i <= j <= |steps|
    ensures trace[i].db.files <= trace[j].db.files
    decreases j - i
  {
    hide Initial, Next, Commits, Requeues;
    if i < j {
      FilesGrow(cfg, trace, steps, i, j - 1);
      StepMovesFiles(cfg, trace, steps, j - 1);
    }
  }

  /** Some completed export was requeued at step `i`. */
  ghost predicate RequeuedAt(cfg: Config, trace: seq<System>, steps: seq<Step>, i: nat, id: nat)
    requires i < |steps| && i < |trace|
  {
    Requeues(cfg, trace[i].db, steps[i].call, id)
  }

  ghost predicate CommittedAt(trace: seq<System>, steps: seq<Step>, j: nat, id: nat)
    requires j < |steps| && j < |trace|
  {
    Commits(trace[j].db, steps[j].call, id)
  }

  /** An exporting job with files was exporting before. */
  lemma WasExporting(cfg: Config, trace: seq<System>, steps: seq<Step>, i: nat, id: nat)
    requires QueueRun(cfg, trace, steps) && i < |steps| && trace[i + 1].db.job.status == Exporting
    requires HasFile(trace[i].db.files, id)
    ensures trace[i].db.job.status == Exporting && id < |trace[i].db.exports| <= |trace[i + 1].db.exports|
  {
    hide Apply, PagesOk, RecordsOk, ExportsOk, KeysOk, OutboxOk, Numbered, FormatsOk, WorksOk;
    Reachable(cfg, trace, steps, i);
    assert Next(cfg, trace[i], steps[i], trace[i + 1]);
    assert StepOk(trace[i].db, trace[i + 1].db, Budget(cfg, trace[i].db.job, steps[i].call));
    ExportKeyStep(cfg, trace, steps, i);
  }

  /** While the job is exporting, an open export that has a file has been requeued after it completed. */
  lemma {:induction false} OpenWithFile(cfg: Config, trace: seq<System>, steps: seq<Step>, n: nat, id: nat)
    returns (i: nat)
    requires QueueRun(cfg, trace, steps) && n <= |steps| && trace[n].db.job.status == Exporting
    requires id < |trace[n].db.exports| && trace[n].db.exports[id].status != ExportCompleted
    requires HasFile(trace[n].db.files, id)
    ensures i < n && RequeuedAt(cfg, trace, steps, i, id)
  {
    hide Initial, Next, Commits, Requeues, HasFile;
    i := n;
    if n == 0 {
      NothingAtFirst(cfg, trace, steps);
    } else {
      i := n - 1;
      StepMovesFiles(cfg, trace, steps, i);
      if HasFile(trace[i].db.files, id) {
        WasExporting(cfg, trace, steps, i, id);
        if trace[i].db.exports[id].status != ExportCompleted { i := OpenWithFile(cfg, trace, steps, i, id); }
      } else {
        NewFile(trace[i].db.files, trace[n].db.files, id);
      }
    }
  }

  lemma NothingAtFirst(cfg: Config, trace: seq<System>, steps: seq<Step>)
    requires QueueRun(cfg, trace, steps)
    ensures forall id :: !HasFile(trace[0].db.files, id)
    ensures trace[0].db.files == []
  {
  }

  lemma NewFile(before: seq<GeneratedFile>, after: seq<GeneratedFile>, id: nat)
    requires !HasFile(before, id) && HasFile(after, id)
    ensures before != after
    ensures forall f :: after == before + [f] ==> f.exportId == id
  {
    var k :| 0 <= k < |after| && after[k].exportId == id;
    assert forall m :: 0 <= m < |before| ==> before[m].exportId != id;
  }

  /** A completed export that is requeued and committed again has two files from then on. */
  lemma RequeuedHasTwo(
    cfg: Config, trace: seq<System>, steps: seq<Step>, n: nat, id: nat, i: nat, j: nat)
    requires QueueRun(cfg, trace, steps) && i < j < n <= |steps|
    requires RequeuedAt(cfg, trace, steps, i, id) && CommittedAt(trace, steps, j, id)
    ensures TwoFiles(trace[n].db.files, id)
  {
    hide Apply, PagesOk, RecordsOk, ExportsOk, KeysOk, OutboxOk, Numbered, FormatsOk, WorksOk, StageOk;
    Reachable(cfg, trace, steps, i);
    assert HasFile(trace[i].db.files, id);
    hide Initial, Next, SystemOk, HasKey;
    FilesGrow(cfg, trace, steps, i, j);
    StepMovesFiles(cfg, trace, steps, j);
    FilesGrow(cfg, trace, steps, j + 1, n);
    var k :| 0 <= k < |trace[i].db.files| && trace[i].db.files[k].exportId == id;
    assert trace[n].db.files[k].exportId == trace[n].db.files[|trace[j].db.files|].exportId == id;
  }

  lemma {:induction false} TwoWereRequeued(cfg: Config, trace: seq<System>, steps: seq<Step>, n: nat, id: nat)
    returns (i: nat, j: nat)
    requires QueueRun(cfg, trace, steps) && n <= |steps| && TwoFiles(trace[n].db.files, id)
    ensures i < j < n && RequeuedAt(cfg, trace, steps, i, id) && CommittedAt(trace, steps, j, id)
  {
    hide Initial, Next, Requeues, HasKey;
    if n == 0 {
      NothingAtFirst(cfg, trace, steps);
    } else if TwoFiles(trace[n - 1].db.files, id) {
      i, j := TwoWereRequeued(cfg, trace, steps, n - 1, id);
    } else {
      j := n - 1;
      StepMovesFiles(cfg, trace, steps, j);
      var k, l :| 0 <= k < l < |trace[n].db.files| && trace[n].db.files[k].exportId == id
                  && trace[n].db.files[l].exportId == id;
      assert l == |trace[j].db.files| && trace[j].db.files[k].exportId == id;
      assert HasFile(trace[j].db.files, id);
      i := OpenWithFile(cfg, trace, steps, j, id);
    }
  }

  /**
   * An export has two files if and only if a retryable failure report within the budget hit it after it had completed,
   * and a file was committed for it afterwards. The second commit needs a redelivered command or another worker that
   * had claimed the export before: complete_export does not ask for a new claim.
   */
  lemma SecondFile(cfg: Config, trace: seq<System>, steps: seq<Step>, n: nat, id: nat)
    requires QueueRun(cfg, trace, steps) && n <= |steps|
    ensures TwoFiles(trace[n].db.files, id) <==>
            exists i, j :: 0 <= i < j < n && RequeuedAt(cfg, trace, steps, i, id) && CommittedAt(trace, steps, j, id)
  {
    hide Initial, Next, Requeues, Commits, TwoFiles;
    if TwoFiles(trace[n].db.files, id) {
      var i, j := TwoWereRequeued(cfg, trace, steps, n, id);
    }
    if i, j :| 0 <= i < j < n && RequeuedAt(cfg, trace, steps, i, id) && CommittedAt(trace, steps, j, id) {
      RequeuedHasTwo(cfg, trace, steps, n, id, i, j);
    }
  }

  ghost predicate OnlyFile(files: seq<GeneratedFile>, k: nat, id: nat) {
    k < |files| && forall l :: 0 <= l < |files| ==> (files[l].exportId == id <==> l == k)
  }

  /** Exactly one file for a completed export, when no report ever requeues a completed one. */
  lemma ExactlyOneFile(cfg: Config, trace: seq<System>, steps: seq<Step>, n: nat, id: nat)
    requires QueueRun(cfg, trace, steps) && n <= |steps|
    requires id < |trace[n].db.exports| && trace[n].db.exports[id].status == ExportCompleted
    requires forall i :: 0 <= i < n ==> !RequeuedAt(cfg, trace, steps, i, id)
    ensures exists k :: OnlyFile(trace[n].db.files, k, id)
  {
    hide Apply, PagesOk, RecordsOk, ExportsOk, KeysOk, OutboxOk, Numbered, FormatsOk, WorksOk, StageOk;
    Reachable(cfg, trace, steps, n);
    assert HasFile(trace[n].db.files, id);
    hide Initial, Next, SystemOk, RequeuedAt, CommittedAt;
    SecondFile(cfg, trace, steps, n, id);
    FirstIsOnly(trace[n].db.files, id);
  }

  lemma FirstIsOnly(files: seq<GeneratedFile>, id: nat)
    requires HasFile(files, id) && !TwoFiles(files, id)
    ensures exists k :: OnlyFile(files, k, id)
  {
    var k :| 0 <= k < |files| && files[k].exportId == id;
    assert OnlyFile(files, k, id);
  }
}
