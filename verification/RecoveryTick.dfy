/** One tick of lease recovery (worker.py, recover_abandoned_work): every expired job in one transaction. */
module RecoveryTick {
  import opened Wrappers
  import opened Domain
  import opened Rows
  import opened Lifecycle
  import opened Frontier
  import opened Stages
  import opened Protocol
  import opened Invariants
  import opened Runs
  import opened Growth
  import opened Results

  /** Recovering the job repeats an operation key of its outbox. */
  predicate Clashes(db: Db, pick: nat, now: int) { Recover(db, pick, now).reply == Raised }

  /**
   * A tick over the jobs that the query returned: the running export that it finds for each of them, whether
   * dispatching the outbox succeeds, which is part of the same transaction, and the time.
   */
  datatype Tick = Tick(picks: seq<nat>, handedOver: bool, now: int)

  ghost predicate NoneClashes(jobs: seq<Db>, tick: Tick)
    requires |tick.picks| == |jobs|
  {
    forall i :: 0 <= i < |jobs| ==> !Clashes(jobs[i], tick.picks[i], tick.now)
  }

  /** All or nothing: an exception anywhere rolls every job back. */
  ghost function AfterTick(jobs: seq<Db>, tick: Tick): (r: seq<Db>)
    requires |tick.picks| == |jobs|
    ensures |r| == |jobs|
  {
    if tick.handedOver && NoneClashes(jobs, tick)
    then seq(|jobs|, i requires 0 <= i < |jobs| => Recover(jobs[i], tick.picks[i], tick.now).db) else jobs
  }

  method RecoverAbandonedWork(jobs: seq<Db>, tick: Tick) returns (after: seq<Db>, committed: bool)
    requires |tick.picks| == |jobs|
    ensures committed <==> tick.handedOver && NoneClashes(jobs, tick)
    ensures after == AfterTick(jobs, tick)
  {
    hide Recover;
    after := [];
    for i := 0 to |jobs|
      invariant |after| == i
      invariant forall k :: 0 <= k < i ==> !Clashes(jobs[k], tick.picks[k], tick.now)
      invariant forall k :: 0 <= k < i ==> after[k] == Recover(jobs[k], tick.picks[k], tick.now).db
    {
      var recovered := Recover(jobs[i], tick.picks[i], tick.now);
      if recovered.reply == Raised {
        return jobs, false;
      }
      after := after + [recovered.db];
    }
    committed := tick.handedOver;
    if !committed { after := jobs; }
  }

  /** recover_expired_leases looks at the job. */
  predicate Expired(db: Db, now: int) {
    Active(db.job.status) && db.job.lease.Some? && db.job.lease.value < now && !db.job.cancelRequested
  }

  /** The stages whose recovery key carries the phase of planning or browser. */
  predicate EarlyKeyed(s: JobStatus) {
    s == Planning || s == BrowserInitializing || s == Extracting || s == Validating
  }

  /** The first recovery of a job in one of these stages, with budget left: its key is the first key of the phase. */
  predicate FirstRecovery(db: Db, now: int) {
    Expired(db, now) && EarlyKeyed(db.job.status) && db.job.attempt == 0 < db.job.maxAttempts
  }

  // When a recovery clashes

  /** The keys that the first commands of planning and browser use up. */
  ghost predicate FirstKeysUsed(db: Db) {
    && PhaseKey(PlanningPhase, 1) in db.outbox
    && (db.job.status == BrowserInitializing ==> PhaseKey(BrowserPhase, 1) in db.outbox)
  }

  lemma FirstKeyStep(cfg: Config, db: Db, step: Step)
    requires JobOk(db.job) && FirstKeysUsed(db)
    ensures FirstKeysUsed(Apply(cfg, db, step).db)
  {
    hide Apply;
    StepGrows(cfg, db, step);
    var after := Apply(cfg, db, step).db;
    assert JobStep(db.job, after.job);
    if after.job.status == BrowserInitializing && db.job.status != BrowserInitializing { BrowserKey(cfg, db, step); }
  }

  /** The browser stage is entered by storing a plan, with the first browser command. */
  lemma BrowserKey(cfg: Config, db: Db, step: Step)
    requires db.job.status == Planning && Apply(cfg, db, step).db.job.status == BrowserInitializing
    ensures PhaseKey(BrowserPhase, 1) in Apply(cfg, db, step).db.outbox
  {
    hide StepOk, LogGrows, RetryOrFail, MaxSequence, StoreCapture, Explore, StorePage, StoreFile, StoreValidation;
    hide RecoverDiscovery, RecoverExport;
    if step.call.FailPlanningCall? { PlanningFailureStays(db, step.call.error, cfg.plannerMaxRetries, step.now); }
  }

  lemma PlanningFailureStays(db: Db, error: Failure, budget: nat, now: int)
    requires db.job.status == Planning
    ensures FailPlanning(db, error, budget, now).db.job.status != BrowserInitializing
  {
    hide RetryOrFail, StepOk, LogGrows;
  }

  lemma {:induction false} FirstKeysAreUsed(cfg: Config, dbs: seq<Db>, steps: seq<Step>, i: nat)
    requires CallRun(cfg, dbs, steps) && i <= |steps|
    ensures FirstKeysUsed(dbs[i])
  {
    hide Apply;
    if i > 0 {
      FirstKeysAreUsed(cfg, dbs, steps, i - 1);
      RunIsSound(cfg, dbs, steps, i - 1);
      assert dbs[i] == Apply(cfg, dbs[i - 1], steps[i - 1]).db;
      FirstKeyStep(cfg, dbs[i - 1], steps[i - 1]);
    }
  }

  /**
   * In every reachable state, recovering a job clashes if and only if it is the first recovery of an expired lease in
   * PLANNING, BROWSER_INITIALIZING, EXTRACTING or VALIDATING, with budget left.
   */
  lemma ClashesExactly(cfg: Config, trace: seq<System>, steps: seq<Step>, i: nat, pick: nat, now: int)
    requires QueueRun(cfg, trace, steps) && i <= |steps|
    ensures Clashes(trace[i].db, pick, now) <==> FirstRecovery(trace[i].db, now)
  {
    hide Apply, Recover, RowsOk, Numbered, FormatsOk, KeysCounted, FirstKeysUsed;
    QueueIsCalls(cfg, trace, steps);
    RunIsSound(cfg, States(trace), steps, i);
    KeysAreCounted(cfg, States(trace), steps, i);
    FirstKeysAreUsed(cfg, States(trace), steps, i);
    if trace[i].db.job.status == Exporting {
      NoRecoveryClash(cfg, trace, steps, i, pick, now);
    } else {
      KeyClash(trace[i].db, pick, now);
    }
  }

  lemma NoRecoveryClash(cfg: Config, trace: seq<System>, steps: seq<Step>, i: nat, pick: nat, now: int)
    requires QueueRun(cfg, trace, steps) && i <= |steps| && trace[i].db.job.status == Exporting
    ensures !Clashes(trace[i].db, pick, now)
  {
    hide Apply, Recover, TablesOk, Numbered, FormatsOk;
    Reachable(cfg, trace, steps, i);
    RecoverKeeps(cfg, trace[i].db, pick, now);
  }

  lemma KeyClash(db: Db, pick: nat, now: int)
    requires db.job.status != Exporting && JobOk(db.job) && KeysCounted(db) && FirstKeysUsed(db)
    ensures Clashes(db, pick, now) <==> FirstRecovery(db, now)
  {
    hide StepOk, LogGrows, MaxSequence, Least;
  }

  /** Such a recovery is one claim away: a job whose first planner crashes blocks every tick after its lease. */
  lemma FirstClaimBlocks(cfg: Config, formats: seq<Format>, maxAttempts: nat, until: int) returns (t: System)
    requires FormatsOk(formats) && maxAttempts >= 1
    ensures Reaches(cfg, t) && t.works == {} && forall now :: until < now ==> FirstRecovery(t.db, now)
  {
    hide Apply, Reaches, Next, FormatsOk;
    ReachesFirst(cfg, formats, maxAttempts);
    var s := System(Created(formats, maxAttempts), {});
    var claim := Step(ClaimPlanningCall(PlanningCommand(1), until), 0);
    ClaimsFirst(cfg, formats, maxAttempts, claim);
    t := System(Apply(cfg, s.db, claim).db, {});
    assert Legit(s, claim.call);
    assert Next(cfg, s, claim, t) by { CrashesAfterClaim(cfg, s, claim); }
    ReachesNext(cfg, s, claim, t);
  }

  lemma CrashesAfterClaim(cfg: Config, s: System, step: Step)
    requires Legit(s, step.call)
    ensures Next(cfg, s, step, System(Apply(cfg, s.db, step).db, {}))
  {
    hide Apply;
  }

  lemma ClaimsFirst(cfg: Config, formats: seq<Format>, maxAttempts: nat, step: Step)
    requires step.call.ClaimPlanningCall? && maxAttempts >= 1
    ensures var after := Apply(cfg, Created(formats, maxAttempts), step).db;
            forall now :: step.call.until < now ==> FirstRecovery(after, now)
  {
    hide PrepareBrowser, ClaimDiscovery, ClaimExtraction, ClaimValidation, ClaimExport, StepOk, LogGrows;
    hide CompletePlanning, FailPlanning, CompleteBrowser, FailBrowser, CompleteDiscovery, FailDiscovery;
    hide CompleteExtraction, FailExtraction, CompleteValidation, FailValidation, CompleteExport, FailExport;
    hide Cancel, Recover, MaxSequence;
  }

  // Ticks over several jobs

  /** The rows of a job in some reachable state. */
  ghost predicate ReachableRows(cfg: Config, db: Db) { exists works :: Reaches(cfg, System(db, works)) }

  lemma ClashesInReach(cfg: Config, db: Db, pick: nat, now: int)
    requires ReachableRows(cfg, db)
    ensures Clashes(db, pick, now) <==> FirstRecovery(db, now)
  {
    hide Next, Initial, Clashes, FirstRecovery;
    var works :| Reaches(cfg, System(db, works));
    var trace, steps :| QueueRun(cfg, trace, steps) && trace[|steps|] == System(db, works);
    ClashesExactly(cfg, trace, steps, |steps|, pick, now);
  }

  /** Recovery that does not clash takes the lease from an expired job and counts an attempt. */
  lemma RecoveryCounts(db: Db, pick: nat, now: int)
    requires Expired(db, now) && !Clashes(db, pick, now)
    ensures var after := Recover(db, pick, now).db;
            after.job.attempt == db.job.attempt + 1 && after.job.lease.None?
  {
    hide StepOk, LogGrows, MaxSequence, Least;
  }

  /**
   * A tick over reachable jobs recovers every expired one, if and only if none of them is up for its first recovery in
   * such a stage and the dispatch succeeds; otherwise it leaves every row of every job as it was.
   */
  lemma TickCommits(cfg: Config, jobs: seq<Db>, tick: Tick)
    requires |tick.picks| == |jobs| && forall i :: 0 <= i < |jobs| ==> ReachableRows(cfg, jobs[i])
    ensures NoneClashes(jobs, tick) <==> forall i :: 0 <= i < |jobs| ==> !FirstRecovery(jobs[i], tick.now)
    ensures var after := AfterTick(jobs, tick);
            if tick.handedOver && (forall i :: 0 <= i < |jobs| ==> !FirstRecovery(jobs[i], tick.now))
            then forall i :: 0 <= i < |jobs| && Expired(jobs[i], tick.now) ==>
                   after[i].job.attempt == jobs[i].job.attempt + 1 && after[i].job.lease.None?
            else after == jobs
  {
    hide Clashes, FirstRecovery, ReachableRows, Recover, Expired;
    forall i | 0 <= i < |jobs|
      ensures Clashes(jobs[i], tick.picks[i], tick.now) <==> FirstRecovery(jobs[i], tick.now)
    {
      ClashesInReach(cfg, jobs[i], tick.picks[i], tick.now);
    }
    if NoneClashes(jobs, tick) {
      forall i | 0 <= i < |jobs| && Expired(jobs[i], tick.now)
        ensures var after := Recover(jobs[i], tick.picks[i], tick.now).db;
                after.job.attempt == jobs[i].job.attempt + 1 && after.job.lease.None?
      {
        RecoveryCounts(jobs[i], tick.picks[i], tick.now);
      }
    }
  }

  /** The rows after ticks that follow one another, with nothing else happening in between. */
  ghost function AfterTicks(jobs: seq<Db>, ticks: seq<Tick>): seq<Db>
    requires forall t <- ticks :: |t.picks| == |jobs|
    decreases |ticks|
  {
    if ticks == [] then jobs else AfterTicks(AfterTick(jobs, ticks[0]), ticks[1..])
  }

  lemma StillFirst(db: Db, now: int, later: int)
    requires FirstRecovery(db, now) && now <= later
    ensures FirstRecovery(db, later)
  {
  }

  /** Once one job is up for such a recovery, no later tick recovers any job until something else moves that one. */
  lemma {:induction false} TicksAreBlocked(cfg: Config, jobs: seq<Db>, blocked: nat, since: int, ticks: seq<Tick>)
    requires blocked < |jobs| && ReachableRows(cfg, jobs[blocked]) && FirstRecovery(jobs[blocked], since)
    requires forall t <- ticks :: |t.picks| == |jobs| && since <= t.now
    ensures AfterTicks(jobs, ticks) == jobs
    decreases |ticks|
  {
    hide Clashes, FirstRecovery, ReachableRows, Recover;
    if ticks != [] {
      StillFirst(jobs[blocked], since, ticks[0].now);
      ClashesInReach(cfg, jobs[blocked], ticks[0].picks[blocked], ticks[0].now);
      TicksAreBlocked(cfg, jobs, blocked, since, ticks[1..]);
    }
  }
}
