/** Whole runs: what holds in every reachable state and between any two states of one job. */
module Runs {
  import opened Wrappers
  import opened Domain
  import opened Rows
  import opened Lifecycle
  import opened Frontier
  import opened Stages
  import opened Inventory
  import opened Protocol
  import opened Invariants

  // Runs of arbitrary calls: any method, any argument, any time

  /** The states of one job under any sequence of service calls. */
  ghost predicate CallRun(cfg: Config, dbs: seq<Db>, steps: seq<Step>) {
    && |dbs| == |steps| + 1
    && (exists formats, maxAttempts :: dbs[0] == Created(formats, maxAttempts))
    && forall i :: 0 <= i < |steps| ==> dbs[i + 1] == Apply(cfg, dbs[i], steps[i]).db
  }

  lemma PrefixRun(cfg: Config, dbs: seq<Db>, steps: seq<Step>)
    requires CallRun(cfg, dbs, steps) && steps != []
    ensures CallRun(cfg, dbs[..|steps|], steps[..|steps| - 1])
  {
    hide Apply;
    assert dbs[..|steps|][0] == dbs[0];
  }

  /** The job row and the log are sound in every state; the log is numbered 1..n. */
  lemma {:induction false} RunIsSound(cfg: Config, dbs: seq<Db>, steps: seq<Step>, i: nat)
    requires CallRun(cfg, dbs, steps) && i <= |steps|
    ensures JobOk(dbs[i].job) && Numbered(dbs[i].events)
  {
    hide Apply;
    if i > 0 {
      RunIsSound(cfg, dbs, steps, i - 1);
      assert dbs[i] == Apply(cfg, dbs[i - 1], steps[i - 1]).db;
    }
  }

  /** The percentage of a live stage. */
  predicate Shows(s: JobStatus, percent: int) {
    match s
    case Queued => percent == 0
    case Planning => percent == 10
    case BrowserInitializing => percent == 20
    case Discovering => percent == 30
    case Extracting => percent == 40
    case Validating => percent == 60
    case _ => percent == 80
  }

  /**
   * Legal runs: every change of status, recovery's direct write of FAILED included, is an edge of the transition
   * table; the progress is the stage's percentage, never falls, and is 100 exactly when the job is COMPLETED.
   */
  lemma LegalRun(cfg: Config, dbs: seq<Db>, steps: seq<Step>, i: nat)
    requires CallRun(cfg, dbs, steps) && i < |steps|
    ensures dbs[i + 1].job.status == dbs[i].job.status || Allowed(dbs[i].job.status, dbs[i + 1].job.status)
    ensures dbs[i].job.progress <= dbs[i + 1].job.progress
    ensures !Terminal(dbs[i].job.status) ==> Shows(dbs[i].job.status, dbs[i].job.progress)
    ensures dbs[i].job.progress == 100 <==> dbs[i].job.status == Completed
    ensures dbs[i].job.status != ReadyForExport
  {
    hide Apply;
    RunIsSound(cfg, dbs, steps, i);
    assert dbs[i + 1] == Apply(cfg, dbs[i], steps[i]).db;
  }

  /** Cancelling never lowers the progress: the minimum with 99 is the stage's own percentage. */
  lemma CancelKeepsProgress(cfg: Config, dbs: seq<Db>, steps: seq<Step>, i: nat, now: int)
    requires CallRun(cfg, dbs, steps) && i <= |steps| && !Terminal(dbs[i].job.status)
    ensures var r := Cancel(dbs[i], now);
            r.reply == Done && r.db.job.status == Cancelled && r.db.job.progress == dbs[i].job.progress
  {
    hide Apply;
    RunIsSound(cfg, dbs, steps, i);
  }

  /** What two states of one run, an earlier and a later one, have to do with each other. */
  ghost predicate Later(before: Db, after: Db) {
    && (Terminal(before.job.status) ==> Frozen(before, after))
    && before.events <= after.events
    && before.job.progress <= after.job.progress
  }

  lemma LaterIsTransitive(a: Db, b: Db, c: Db)
    requires Later(a, b) && Later(b, c)
    ensures Later(a, c)
  {
  }

  lemma StepIsLater(before: Db, after: Db, budget: nat)
    requires JobOk(before.job) && StepOk(before, after, budget)
    ensures Later(before, after)
  {
  }

  /** Terminal freeze, and an append-only log: what no later step of any kind changes. */
  lemma {:induction false} TerminalFreeze(cfg: Config, dbs: seq<Db>, steps: seq<Step>, i: nat, j: nat)
    requires CallRun(cfg, dbs, steps) && i <= j <= |steps|
    ensures Later(dbs[i], dbs[j])
    decreases j - i
  {
    hide Apply;
    if i < j {
      TerminalFreeze(cfg, dbs, steps, i, j - 1);
      RunIsSound(cfg, dbs, steps, j - 1);
      assert dbs[j] == Apply(cfg, dbs[j - 1], steps[j - 1]).db;
      StepIsLater(dbs[j - 1], dbs[j], Budget(cfg, dbs[j - 1].job, steps[j - 1].call));
      LaterIsTransitive(dbs[i], dbs[j - 1], dbs[j]);
    }
  }

  // The shared retry budget

  /** A step grants a retry when it counts an attempt and the job goes on. */
  predicate Granted(before: Db, after: Db) { after.job.attempt > before.job.attempt && after.job.status != Failed }

  function Grants(dbs: seq<Db>): nat {
    if |dbs| <= 1 then 0
    else
      var n := |dbs| - 1;
      Grants(dbs[..n]) + if Granted(dbs[n - 1], dbs[n]) then 1 else 0
  }

  function LargestBudget(cfg: Config, maxAttempts: nat): nat {
    Max(Max(cfg.plannerMaxRetries, cfg.extractionMaxRetries), Max(cfg.validationMaxAttempts, maxAttempts))
  }

  /**
   * Planning, discovery, extraction, validation and lease recovery share one attempt counter: together they grant
   * at most as many retries as the largest configured budget, and the counter passes it only in a failed job.
   */
  lemma {:induction false} SharedRetryBudget(cfg: Config, dbs: seq<Db>, steps: seq<Step>)
    requires CallRun(cfg, dbs, steps)
    ensures var m := LargestBudget(cfg, dbs[0].job.maxAttempts);
            var last := dbs[|steps|].job;
            && last.maxAttempts == dbs[0].job.maxAttempts
            && Grants(dbs) <= m && Grants(dbs) <= last.attempt <= m + 1
            && (last.attempt == m + 1 ==> last.status == Failed)
    decreases |steps|
  {
    hide Apply;
    var n := |steps|;
    if n > 0 {
      PrefixRun(cfg, dbs, steps);
      SharedRetryBudget(cfg, dbs[..n], steps[..n - 1]);
      RunIsSound(cfg, dbs, steps, n - 1);
      assert dbs[n] == Apply(cfg, dbs[n - 1], steps[n - 1]).db;
    }
  }

  predicate IsStageCall(call: Call) {
    call.FailPlanningCall? || call.FailDiscoveryCall? || call.FailExtractionCall? || call.FailValidationCall?
  }

  /** The retries that the four stages granted. */
  function StageGrants(dbs: seq<Db>, steps: seq<Step>): nat
    requires |dbs| == |steps| + 1
  {
    if steps == [] then 0
    else
      var n := |steps|;
      StageGrants(dbs[..n], steps[..n - 1])
      + if IsStageCall(steps[n - 1].call) && Granted(dbs[n - 1], dbs[n]) then 1 else 0
  }

  /** The four stages alone grant at most the largest of their own budgets, however many leases are recovered. */
  lemma {:induction false} StageRetryBudget(cfg: Config, dbs: seq<Db>, steps: seq<Step>)
    requires CallRun(cfg, dbs, steps)
    ensures StageGrants(dbs, steps) <= dbs[|steps|].job.attempt
    ensures StageGrants(dbs, steps) <=
            Max(Max(cfg.plannerMaxRetries, cfg.extractionMaxRetries), cfg.validationMaxAttempts)
    decreases |steps|
  {
    hide Apply;
    var n := |steps|;
    if n > 0 {
      PrefixRun(cfg, dbs, steps);
      StageRetryBudget(cfg, dbs[..n], steps[..n - 1]);
      RunIsSound(cfg, dbs, steps, n - 1);
      assert dbs[n] == Apply(cfg, dbs[n - 1], steps[n - 1]).db;
    }
  }

  predicate IsStageFailure(call: Call, s: JobStatus) {
    match call
    case FailPlanningCall(_, e) => e.retryable && s == Planning
    case FailDiscoveryCall(_, e) => e.retryable && s == Discovering
    case FailExtractionCall(_, e) => e.retryable && s == Extracting
    case FailValidationCall(_, e) => e.retryable && s == Validating
    case _ => false
  }

  /** A retryable failure of the current stage counts; it is retried within the stage's budget and fatal past it. */
  lemma FailureIsCounted(cfg: Config, db: Db, step: Step)
    requires JobOk(db.job) && IsStageFailure(step.call, db.job.status)
    ensures var r := Apply(cfg, db, step);
            if db.job.attempt < Budget(cfg, db.job, step.call)
            then r.reply == RetryAt(db.job.attempt + 1) && r.db.job.attempt == db.job.attempt + 1
                 && r.db.job.status == db.job.status
            else r.db.job.status == Failed && r.db.job.attempt == db.job.attempt + 1
  {
    hide RetryOrFail, StepOk, LogGrows, ClaimPlanning, CompletePlanning, PrepareBrowser, CompleteBrowser, FailBrowser;
    hide ClaimDiscovery, CompleteDiscovery, ClaimExtraction, CompleteExtraction, ClaimValidation, CompleteValidation;
    hide ClaimExport, CompleteExport, FailExport, Cancel, Recover;
  }

  // Runs of the queue: commands come from the outbox, results from workers that claimed

  /** A job with the works that were handed out and may still act, any number of times, however stale. */
  datatype System = System(db: Db, works: set<Work>)

  predicate Delivered(db: Db, cmd: Command, kind: CommandKind) {
    cmd.key in db.outbox && db.outbox[cmd.key] == cmd && cmd.kind == kind
  }

  predicate Legit(s: System, call: Call) {
    match call
    case ClaimPlanningCall(cmd, _) => Delivered(s.db, cmd, RunPlanning)
    case CompletePlanningCall(w, _) => w in s.works && w.PlanningWork?
    case FailPlanningCall(w, _) => w in s.works && w.PlanningWork?
    case PrepareBrowserCall(cmd) => Delivered(s.db, cmd, RunBrowserCapture)
    case CompleteBrowserCall(w, _, _) => w in s.works && w.BrowserWork?
    case FailBrowserCall(w, _, _) => w in s.works && w.BrowserWork?
    case ClaimDiscoveryCall(cmd, _) => Delivered(s.db, cmd, RunDiscovery)
    case CompleteDiscoveryCall(w, _) => w in s.works && w.DiscoveryWork?
    case FailDiscoveryCall(w, _) => w in s.works && w.DiscoveryWork?
    case ClaimExtractionCall(cmd, _) => Delivered(s.db, cmd, RunExtraction)
    case CompleteExtractionCall(w, _) => w in s.works && w.ExtractionWork?
    case FailExtractionCall(w, _) => w in s.works && w.ExtractionWork?
    case ClaimValidationCall(cmd, _) => Delivered(s.db, cmd, RunValidation)
    case CompleteValidationCall(w) => w in s.works && w.ValidationWork?
    case FailValidationCall(w, _) => w in s.works && w.ValidationWork?
    case ClaimExportCall(cmd, _) => Delivered(s.db, cmd, RunExport)
    case CompleteExportCall(w, _) => w in s.works && w.ExportWork?
    case FailExportCall(w, _) => w in s.works && w.ExportWork?
    case CancelCall => true
    case RecoverCall(_) => true
  }

  function HandedOut(call: Call, reply: Reply): set<Work> {
    if IsClaim(call) && reply.Claimed? then {reply.work} else {}
  }

  /** One step; works may also vanish, because a worker may crash or lose its lease. */
  ghost predicate Next(cfg: Config, s: System, step: Step, t: System) {
    var r := Apply(cfg, s.db, step);
    && Legit(s, step.call)
    && t.db == r.db
    && t.works <= s.works + HandedOut(step.call, r.reply)
  }

  ghost predicate Initial(s: System) {
    && s.works == {}
    && exists formats, maxAttempts :: FormatsOk(formats) && s.db == Created(formats, maxAttempts)
  }

  ghost predicate QueueRun(cfg: Config, trace: seq<System>, steps: seq<Step>) {
    && |trace| == |steps| + 1
    && Initial(trace[0])
    && forall i :: 0 <= i < |steps| ==> Next(cfg, trace[i], steps[i], trace[i + 1])
  }

  ghost predicate SystemOk(cfg: Config, s: System) {
    DbOk(cfg, s.db) && WorksOk(s.db.pages, s.db.plan, s.works)
  }

  /** What one call keeps, and that a claim hands out a work that agrees with the rows. */
  ghost predicate StepHolds(cfg: Config, db: Db, call: Call, r: Outcome) {
    && Keeps(cfg, db, r.db)
    && forall w <- HandedOut(call, r.reply) :: WorkOk(r.db.pages, r.db.plan, w)
  }

  predicate IsEarly(call: Call) { PlanningOrBrowser(call) || CrawlCall(call) || call.CancelCall? }

  lemma EarlyCallKeeps(cfg: Config, s: System, step: Step)
    requires SystemOk(cfg, s) && Legit(s, step.call) && IsEarly(step.call)
    ensures StepHolds(cfg, s.db, step.call, Apply(cfg, s.db, step))
  {
    hide ClaimPlanning, CompletePlanning, FailPlanning, PrepareBrowser, CompleteBrowser, FailBrowser, ClaimDiscovery;
    hide CompleteDiscovery, FailDiscovery, ClaimExtraction, CompleteExtraction, FailExtraction, ClaimValidation;
    hide CompleteValidation, FailValidation, ClaimExport, CompleteExport, FailExport, Cancel, Recover;
    hide StageOk, PagesOk, RecordsOk, ExportsOk, FilesOk, KeysOk, Keeps, JobOk, Numbered, StepOk, FormatsOk;
    var now := step.now;
    match step.call {
      case ClaimPlanningCall(cmd, until) => ClaimPlanningKeeps(cfg, s.db, cmd, now, until);
      case CompletePlanningCall(_, plan) => CompletePlanningKeeps(cfg, s.db, plan, now);
      case FailPlanningCall(_, e) => FailPlanningKeeps(cfg, s.db, e, cfg.plannerMaxRetries, now);
      case PrepareBrowserCall(cmd) => PrepareBrowserKeeps(cfg, s.db, cmd, now);
      case CompleteBrowserCall(_, url, n) => CompleteBrowserKeeps(cfg, s.db, url, n, now);
      case FailBrowserCall(w, e, cancelled) => FailBrowserKeeps(cfg, s.db, w.cmd, e, cancelled, now);
      case ClaimDiscoveryCall(cmd, until) => ClaimDiscoveryKeeps(cfg, s.db, cmd, now, until);
      case CompleteDiscoveryCall(w, capture) => CompleteDiscoveryKeeps(cfg, s.db, w, capture, now);
      case FailDiscoveryCall(w, e) => FailDiscoveryKeeps(cfg, s.db, w.cmd, e, cfg.plannerMaxRetries, now);
      case CancelCall => CancelKeeps(cfg, s.db, now);
    }
  }

  lemma LateCallKeeps(cfg: Config, s: System, step: Step)
    requires SystemOk(cfg, s) && Legit(s, step.call) && !IsEarly(step.call)
    ensures StepHolds(cfg, s.db, step.call, Apply(cfg, s.db, step))
  {
    hide ClaimPlanning, CompletePlanning, FailPlanning, PrepareBrowser, CompleteBrowser, FailBrowser, ClaimDiscovery;
    hide CompleteDiscovery, FailDiscovery, ClaimExtraction, CompleteExtraction, FailExtraction, ClaimValidation;
    hide CompleteValidation, FailValidation, ClaimExport, CompleteExport, FailExport, Cancel, Recover;
    hide StageOk, PagesOk, RecordsOk, ExportsOk, FilesOk, KeysOk, Keeps, JobOk, Numbered, StepOk, FormatsOk;
    var now := step.now;
    match step.call {
      case ClaimExtractionCall(cmd, until) => ClaimExtractionKeeps(cfg, s.db, cmd, now, until);
      case CompleteExtractionCall(w, extract) => CompleteExtractionKeeps(cfg, s.db, w, extract, now);
      case FailExtractionCall(w, e) => FailExtractionKeeps(cfg, s.db, w.cmd, e, cfg.extractionMaxRetries, now);
      case ClaimValidationCall(cmd, until) => ClaimValidationKeeps(cfg, s.db, cmd, now, until);
      case CompleteValidationCall(w) => CompleteValidationKeeps(cfg, s.db, w, now);
      case FailValidationCall(_, e) => FailValidationKeeps(cfg, s.db, e, cfg.validationMaxAttempts, now);
      case ClaimExportCall(cmd, until) => ClaimExportKeeps(cfg, s.db, cmd, now, until);
      case CompleteExportCall(w, key) => CompleteExportKeeps(cfg, s.db, w, key, now);
      case FailExportCall(w, e) => FailExportKeeps(cfg, s.db, w.cmd, e, cfg.exportMaxRetries, now);
      case RecoverCall(pick) => RecoverKeeps(cfg, s.db, pick, now);
    }
  }

  lemma CallKeeps(cfg: Config, s: System, step: Step)
    requires SystemOk(cfg, s) && Legit(s, step.call)
    ensures StepHolds(cfg, s.db, step.call, Apply(cfg, s.db, step))
  {
    hide Apply, SystemOk, StepHolds;
    if IsEarly(step.call) {
      EarlyCallKeeps(cfg, s, step);
    } else {
      LateCallKeeps(cfg, s, step);
    }
  }

  lemma StepKeeps(cfg: Config, s: System, step: Step, t: System)
    requires SystemOk(cfg, s) && Next(cfg, s, step, t)
    ensures SystemOk(cfg, t)
  {
    hide Apply;
    CallKeeps(cfg, s, step);
    RetainsWorks(s.db.pages, t.db.pages, s.db.plan, s.works);
  }

  lemma InitialIsOk(cfg: Config, s: System)
    requires Initial(s)
    ensures SystemOk(cfg, s)
  {
    var formats, maxAttempts :| FormatsOk(formats) && s.db == Created(formats, maxAttempts);
    assert CountCrawl([]) == 0;
  }

  /** The invariant of every reachable state, under redelivery, stale workers, crashes, failures and recovery. */
  lemma {:induction false} Reachable(cfg: Config, trace: seq<System>, steps: seq<Step>, i: nat)
    requires QueueRun(cfg, trace, steps) && i <= |steps|
    ensures SystemOk(cfg, trace[i])
  {
    hide Apply;
    if i == 0 {
      InitialIsOk(cfg, trace[0]);
    } else {
      Reachable(cfg, trace, steps, i - 1);
      StepKeeps(cfg, trace[i - 1], steps[i - 1], trace[i]);
    }
  }

  /** Some run of the queue leads to `s`. */
  ghost predicate Reaches(cfg: Config, s: System) {
    exists trace, steps :: QueueRun(cfg, trace, steps) && trace[|steps|] == s
  }

  lemma ReachesFirst(cfg: Config, formats: seq<Format>, maxAttempts: nat)
    requires FormatsOk(formats)
    ensures Reaches(cfg, System(Created(formats, maxAttempts), {}))
  {
    var s := System(Created(formats, maxAttempts), {});
    var steps: seq<Step> := [];
    assert QueueRun(cfg, [s], steps) && [s][|steps|] == s;
  }

  lemma ReachesNext(cfg: Config, s: System, step: Step, t: System)
    requires Reaches(cfg, s) && Next(cfg, s, step, t)
    ensures Reaches(cfg, t)
  {
    hide Apply, Next, Initial;
    var trace, steps :| QueueRun(cfg, trace, steps) && trace[|steps|] == s;
    var longer, more := trace + [t], steps + [step];
    forall i | 0 <= i < |more|
      ensures Next(cfg, longer[i], more[i], longer[i + 1])
    {
      if i < |steps| { assert Next(cfg, trace[i], steps[i], trace[i + 1]); }
    }
    assert QueueRun(cfg, longer, more) && longer[|more|] == t;
  }

  /** The step that the queue takes when no worker crashes. */
  lemma Serves(cfg: Config, s: System, step: Step) returns (t: System)
    requires Reaches(cfg, s) && Legit(s, step.call)
    ensures Reaches(cfg, t) && Next(cfg, s, step, t)
    ensures t == System(Apply(cfg, s.db, step).db, s.works + HandedOut(step.call, Apply(cfg, s.db, step).reply))
  {
    hide Apply;
    t := System(Apply(cfg, s.db, step).db, s.works + HandedOut(step.call, Apply(cfg, s.db, step).reply));
    ReachesNext(cfg, s, step, t);
  }

  lemma ReachableIsOk(cfg: Config, s: System)
    requires Reaches(cfg, s)
    ensures SystemOk(cfg, s)
  {
    hide Next, Initial, SystemOk;
    var trace, steps :| QueueRun(cfg, trace, steps) && trace[|steps|] == s;
    Reachable(cfg, trace, steps, |steps|);
  }
}
