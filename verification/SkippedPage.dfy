/** A run in which the first extraction command, delivered twice, makes the job skip a page; and one that gets stuck. */
module SkippedPage {
  import opened Wrappers
  import opened Domain
  import opened Rows
  import opened Lifecycle
  import opened Discovery
  import opened Frontier
  import opened Stages
  import opened Protocol
  import opened Invariants
  import opened Runs
  import opened Growth
  import opened Stranding

  // A site of two pages, one format, everything in scope

  const SMALL := Config(2, 1, 1, 0, false, None, (_: Url) => true, (i: nat) => i, 3, 3, 3, 3, 1, (_: string) => true)

  const SITE := Plan(1, 2, 1, true, true)

  const SOURCE_PAGE := Page("a", PageDiscovered, 0, None, 0, 0, FromSource, None, None)

  const LINKED_PAGE := Page("b", PageDiscovered, 1, Some(0), 0, 1, FromRelevantLink, None, None)

  const SOURCE_COMMAND := DiscoveryCommand(DiscoverySourceKey, 1, 0)

  const LINKED_COMMAND := DiscoveryCommand(DiscoveryPageKey(1), 1, 1)

  const FIRST_EXTRACTION := ExtractionCommand(ExtractionKey, None)

  /** The rows without the log. */
  function Shown(db: Db): Db { db.(events := []) }

  function JobAt(status: JobStatus, version: nat, lease: Option<int>, discovered: nat, processed: nat): Job {
    Job(status, version, StagePercent(status), 0, 3, false, lease, if status == Queued then None else Some(0), None,
        discovered, processed, 0, None, [Csv])
  }

  function RowsAt(job: Job, plan: Option<Plan>, pages: seq<Page>, outbox: map<Key, Command>): Db {
    Db(job, plan, pages, [], [], [], [], [], outbox, [])
  }

  const OUTBOX_0 := map[PhaseKey(PlanningPhase, 1) := PlanningCommand(1)]

  const OUTBOX_1 := OUTBOX_0[PhaseKey(BrowserPhase, 1) := BrowserCommand(1)]

  const OUTBOX_2 := OUTBOX_1[DiscoverySourceKey := SOURCE_COMMAND]

  const OUTBOX_3 := OUTBOX_2[DiscoveryPageKey(1) := LINKED_COMMAND]

  const OUTBOX_4 := OUTBOX_3[ExtractionKey := FIRST_EXTRACTION]

  const START := RowsAt(JobAt(Queued, 0, None, 0, 0), None, [], OUTBOX_0)

  const AT_PLANNING := RowsAt(JobAt(Planning, 1, Some(1), 0, 0), None, [], OUTBOX_0)

  const AT_BROWSER := RowsAt(JobAt(BrowserInitializing, 2, None, 0, 0), Some(SITE), [], OUTBOX_1)

  const IN_BROWSER := AT_BROWSER.(job := JobAt(BrowserInitializing, 2, Some(120), 0, 0))

  const AT_SOURCE := RowsAt(JobAt(Discovering, 3, None, 1, 1), Some(SITE), [SOURCE_PAGE], OUTBOX_2)

  const IN_SOURCE := RowsAt(
    JobAt(Discovering, 3, Some(1), 1, 1), Some(SITE), [SOURCE_PAGE.(status := PageQueued)], OUTBOX_2)

  const SOURCE_VISITED := SOURCE_PAGE.(status := PageVisited, visitedAt := Some(0))

  const AT_LINK := RowsAt(JobAt(Discovering, 3, None, 2, 2), Some(SITE), [SOURCE_VISITED, LINKED_PAGE], OUTBOX_3)

  const IN_LINK := RowsAt(
    JobAt(Discovering, 3, Some(1), 2, 2), Some(SITE), [SOURCE_VISITED, LINKED_PAGE.(status := PageQueued)], OUTBOX_3)

  const LINK_VISITED := LINKED_PAGE.(status := PageVisited, visitedAt := Some(0))

  const AT_EXTRACTION := RowsAt(JobAt(Extracting, 4, None, 2, 3), Some(SITE), [SOURCE_VISITED, LINK_VISITED], OUTBOX_4)

  const HELD: Option<ExtractionStatus> := Some(PageExtracting)

  const FIRST_HELD := RowsAt(
    JobAt(Extracting, 4, Some(1), 2, 3), Some(SITE), [SOURCE_VISITED.(extraction := HELD), LINK_VISITED], OUTBOX_4)

  const BOTH_HELD := FIRST_HELD.(pages := [SOURCE_VISITED.(extraction := HELD), LINK_VISITED.(extraction := HELD)])

  // One call each

  lemma PlanningIsClaimed(db: Db)
    requires Shown(db) == START
    ensures var r := ClaimPlanning(db, PlanningCommand(1), 0, 1);
            Shown(r.db) == AT_PLANNING && r.reply == Claimed(PlanningWork(PlanningCommand(1)))
  {
    hide StepOk, LogGrows, MaxSequence;
  }

  lemma PlanningCompletes(db: Db)
    requires Shown(db) == AT_PLANNING
    ensures Shown(CompletePlanning(db, SITE, 0).db) == AT_BROWSER
  {
    hide StepOk, LogGrows, MaxSequence;
  }

  lemma BrowserIsClaimed(db: Db)
    requires Shown(db) == AT_BROWSER
    ensures var r := PrepareBrowser(db, BrowserCommand(1), 0);
            Shown(r.db) == IN_BROWSER && r.reply == Claimed(BrowserWork(BrowserCommand(1)))
  {
    hide StepOk, LogGrows, MaxSequence;
  }

  lemma BrowserCompletes(db: Db)
    requires Shown(db) == IN_BROWSER
    ensures Shown(CompleteBrowser(SMALL, db, "a", 0, 0).db) == AT_SOURCE
  {
    hide StepOk, LogGrows, MaxSequence;
  }

  lemma SourceIsClaimed(db: Db)
    requires Shown(db) == AT_SOURCE
    ensures var r := ClaimDiscovery(db, SOURCE_COMMAND, 0, 1);
            Shown(r.db) == IN_SOURCE && r.reply == Claimed(DiscoveryWork(SOURCE_COMMAND, 0, SITE))
  {
    hide StepOk, LogGrows, MaxSequence;
  }

  /** The source page links to one other page, which is stored below it. */
  lemma SourceDecides(seen: set<Url>)
    requires "b" !in seen
    ensures Decide(SMALL, SITE, SOURCE_VISITED, Capture([Link(Some("b"), false)], None), seen) ==
            Decision([Candidate("b", FromRelevantLink, 1)], [], 0)
    ensures Probe(SMALL, SOURCE_VISITED, seen) == []
  {
    var links := [Link(Some("b"), false)];
    assert links[..1] == links && links[1..] == [];
    assert !Listed([], "b");
    var d := ConsiderSignal(SMALL, SITE, 1, seen, links[0], NO_DECISION);
    assert d.candidates == [Candidate("b", FromRelevantLink, 1)];
    assert ConsiderSignals(SMALL, SITE, 1, seen, [], d) == d;
  }

  lemma LinkIsStored(db: Db)
    requires db.pages == [SOURCE_VISITED]
    ensures var after := Persist(SMALL, db, SITE, 0, [Candidate("b", FromRelevantLink, 1)], false, 0);
            Shown(after) == Shown(db).(
              pages := [SOURCE_VISITED, LINKED_PAGE],
              job := db.job.(pagesDiscovered := db.job.pagesDiscovered + 1))
  {
    hide LogGrows, MaxSequence;
    assert CountAccepted(db.pages) == 1 by { assert db.pages[..0] == []; }
    assert FindUrl(db.pages, "b").None? by { assert db.pages[..0] == []; }
    assert db.pages + [LINKED_PAGE] == [SOURCE_VISITED, LINKED_PAGE];
  }

  lemma SourceExpands(db: Db)
    requires Shown(db) == IN_SOURCE
    ensures var capture := Capture([Link(Some("b"), false)], None);
            Shown(Expand(SMALL, db, SITE, 0, capture, 0)) ==
            AT_LINK.(job := JobAt(Discovering, 3, Some(1), 2, 2), outbox := OUTBOX_2)
  {
    hide LogGrows, MaxSequence, Decide, Probe, PersistFrom;
    var db1 := Visit(db, 0, 0);
    assert db1.pages == [SOURCE_VISITED];
    var seen := SeenUrls(db1.pages);
    assert "b" !in seen;
    SourceDecides(seen);
    LinkIsStored(db1);
    var db2 := Persist(SMALL, db1, SITE, 0, [Candidate("b", FromRelevantLink, 1)], false, 0);
    NothingPersisted(db2, [], true);
    NothingPersisted(db2, [], false);
  }

  lemma NothingPersisted(db: Db, cs: seq<Candidate>, rejected: bool)
    requires cs == []
    ensures forall parent :: Persist(SMALL, db, SITE, parent, cs, rejected, 0) == db
  {
  }

  lemma SourceCompletes(db: Db)
    requires Shown(db) == IN_SOURCE
    ensures var capture := Capture([Link(Some("b"), false)], None);
            Shown(CompleteDiscovery(SMALL, db, DiscoveryWork(SOURCE_COMMAND, 0, SITE), capture, 0).db) == AT_LINK
  {
    hide StepOk, LogGrows, MaxSequence, Expand;
    SourceExpands(db);
    var db1 := Release(Expand(SMALL, db, SITE, 0, Capture([Link(Some("b"), false)], None), 0));
    LeastOfTwo(SOURCE_VISITED, LINKED_PAGE, IsDiscovered, DiscoveredAt);
  }

  /** A query over two pages of which only the second one is eligible. */
  lemma LeastOfTwo(a: Page, b: Page, eligible: Page -> bool, stamp: Page -> int)
    requires !eligible(a) && eligible(b)
    ensures Least([a, b], eligible, stamp) == Some(1)
  {
    assert [a, b][..1] == [a] && [a][..0] == [];
  }

  lemma LinkIsClaimed(db: Db)
    requires Shown(db) == AT_LINK
    ensures var r := ClaimDiscovery(db, LINKED_COMMAND, 0, 1);
            Shown(r.db) == IN_LINK && r.reply == Claimed(DiscoveryWork(LINKED_COMMAND, 1, SITE))
  {
    hide StepOk, LogGrows, MaxSequence;
  }

  lemma LinkExpands(db: Db)
    requires Shown(db) == IN_LINK
    ensures Shown(Expand(SMALL, db, SITE, 1, Capture([], None), 0)) ==
            AT_EXTRACTION.(job := JobAt(Discovering, 3, Some(1), 2, 3), outbox := OUTBOX_3)
  {
    hide LogGrows, MaxSequence, PersistFrom;
    var db1 := Visit(db, 1, 0);
    assert db1.pages == [SOURCE_VISITED, LINK_VISITED];
    var seen := SeenUrls(db1.pages);
    var d := Decide(SMALL, SITE, db1.pages[1], Capture([], None), seen);
    assert d == NO_DECISION;
    NothingPersisted(db1, d.candidates, false);
    NothingPersisted(db1, d.rejected, true);
    NothingPersisted(db1, Probe(SMALL, db1.pages[1], seen), false);
  }

  lemma LinkCompletes(db: Db)
    requires Shown(db) == IN_LINK
    ensures Shown(CompleteDiscovery(SMALL, db, DiscoveryWork(LINKED_COMMAND, 1, SITE), Capture([], None), 0).db) ==
            AT_EXTRACTION
  {
    hide StepOk, LogGrows, MaxSequence, Expand;
    LinkExpands(db);
    var next := Least(AT_EXTRACTION.pages, IsDiscovered, DiscoveredAt);
    assert next.None?;
  }

  /** The command without a page is granted for the first page. */
  lemma FirstIsClaimed(db: Db)
    requires Shown(db) == AT_EXTRACTION
    ensures var r := ClaimExtraction(db, FIRST_EXTRACTION, 0, 1);
            Shown(r.db) == FIRST_HELD && r.reply == Claimed(ExtractionWork(FIRST_EXTRACTION, 0, SITE))
  {
    hide StepOk, LogGrows, MaxSequence;
    LeastIsFirst(SOURCE_VISITED, LINK_VISITED);
  }

  lemma LeastIsFirst(a: Page, b: Page)
    requires NeedsExtraction(a) && NeedsExtraction(b) && !Before(b, a, VisitedAt)
    ensures Least([a, b], NeedsExtraction, VisitedAt) == Some(0)
  {
    assert [a, b][..1] == [a] && [a][..0] == [];
  }

  /** Delivered again, it is granted for the other page. */
  lemma SecondIsClaimed(db: Db)
    requires Shown(db) == FIRST_HELD
    ensures var r := ClaimExtraction(db, FIRST_EXTRACTION, 0, 1);
            Shown(r.db) == BOTH_HELD && r.reply == Claimed(ExtractionWork(FIRST_EXTRACTION, 1, SITE))
  {
    hide StepOk, LogGrows, MaxSequence;
    LeastOfTwo(SOURCE_VISITED.(extraction := HELD), LINK_VISITED, NeedsExtraction, VisitedAt);
  }

  // The runs

  lemma Applied(db: Db, step: Step)
    ensures match step.call
            case ClaimPlanningCall(cmd, until) => Apply(SMALL, db, step) == ClaimPlanning(db, cmd, step.now, until)
            case CompletePlanningCall(_, plan) => Apply(SMALL, db, step) == CompletePlanning(db, plan, step.now)
            case PrepareBrowserCall(cmd) => Apply(SMALL, db, step) == PrepareBrowser(db, cmd, step.now)
            case CompleteBrowserCall(_, url, n) =>
              Apply(SMALL, db, step) == CompleteBrowser(SMALL, db, url, n, step.now)
            case ClaimDiscoveryCall(cmd, until) => Apply(SMALL, db, step) == ClaimDiscovery(db, cmd, step.now, until)
            case CompleteDiscoveryCall(w, capture) =>
              w.DiscoveryWork? ==> Apply(SMALL, db, step) == CompleteDiscovery(SMALL, db, w, capture, step.now)
            case ClaimExtractionCall(cmd, until) =>
              Apply(SMALL, db, step) == ClaimExtraction(db, cmd, step.now, until)
            case CompleteExtractionCall(w, extract) =>
              w.ExtractionWork? ==> Apply(SMALL, db, step) == CompleteExtraction(SMALL, db, w, extract, step.now)
            case _ => true
  {
    hide ClaimPlanning, CompletePlanning, FailPlanning, PrepareBrowser, CompleteBrowser, FailBrowser;
    hide ClaimDiscovery, CompleteDiscovery, FailDiscovery, ClaimExtraction, CompleteExtraction, FailExtraction;
    hide ClaimValidation, CompleteValidation, FailValidation, ClaimExport, CompleteExport, FailExport;
    hide Cancel, Recover, StepOk, SMALL;
  }

  lemma Serve(s: System, step: Step) returns (t: System)
    requires Reaches(SMALL, s) && Legit(s, step.call)
    ensures Reaches(SMALL, t) && t.db == Apply(SMALL, s.db, step).db
    ensures t.works == s.works + HandedOut(step.call, Apply(SMALL, s.db, step).reply)
  {
    hide Apply, Reaches, Next;
    t := Serves(SMALL, s, step);
  }

  lemma ReachBrowser() returns (s: System)
    ensures Reaches(SMALL, s) && Shown(s.db) == AT_BROWSER
  {
    hide Apply, Reaches, ClaimPlanning, CompletePlanning;
    ReachesFirst(SMALL, [Csv], 3);
    s := System(Created([Csv], 3), {});
    var claim := Step(ClaimPlanningCall(PlanningCommand(1), 1), 0);
    PlanningIsClaimed(s.db);
    Applied(s.db, claim);
    s := Serve(s, claim);
    var complete := Step(CompletePlanningCall(PlanningWork(PlanningCommand(1)), SITE), 0);
    PlanningCompletes(s.db);
    Applied(s.db, complete);
    s := Serve(s, complete);
  }

  lemma ReachSource() returns (s: System)
    ensures Reaches(SMALL, s) && Shown(s.db) == AT_SOURCE
  {
    hide Apply, Reaches, PrepareBrowser, CompleteBrowser;
    s := ReachBrowser();
    var claim := Step(PrepareBrowserCall(BrowserCommand(1)), 0);
    BrowserIsClaimed(s.db);
    Applied(s.db, claim);
    s := Serve(s, claim);
    var complete := Step(CompleteBrowserCall(BrowserWork(BrowserCommand(1)), "a", 0), 0);
    BrowserCompletes(s.db);
    Applied(s.db, complete);
    s := Serve(s, complete);
  }

  lemma ReachLink() returns (s: System)
    ensures Reaches(SMALL, s) && Shown(s.db) == AT_LINK
  {
    hide Apply, Reaches, ClaimDiscovery, CompleteDiscovery;
    s := ReachSource();
    var claim := Step(ClaimDiscoveryCall(SOURCE_COMMAND, 1), 0);
    SourceIsClaimed(s.db);
    Applied(s.db, claim);
    s := Serve(s, claim);
    var capture := Capture([Link(Some("b"), false)], None);
    var complete := Step(CompleteDiscoveryCall(DiscoveryWork(SOURCE_COMMAND, 0, SITE), capture), 0);
    SourceCompletes(s.db);
    Applied(s.db, complete);
    s := Serve(s, complete);
  }

  lemma ReachExtraction() returns (s: System)
    ensures Reaches(SMALL, s) && Shown(s.db) == AT_EXTRACTION
  {
    hide Apply, Reaches, ClaimDiscovery, CompleteDiscovery;
    s := ReachLink();
    var claim := Step(ClaimDiscoveryCall(LINKED_COMMAND, 1), 0);
    LinkIsClaimed(s.db);
    Applied(s.db, claim);
    s := Serve(s, claim);
    var complete := Step(CompleteDiscoveryCall(DiscoveryWork(LINKED_COMMAND, 1, SITE), Capture([], None)), 0);
    LinkCompletes(s.db);
    Applied(s.db, complete);
    s := Serve(s, complete);
  }

  /** The one command is granted twice: two workers hold the two pages. */
  lemma ReachBothHeld() returns (s: System)
    ensures Reaches(SMALL, s) && Shown(s.db) == BOTH_HELD
    ensures ExtractionWork(FIRST_EXTRACTION, 0, SITE) in s.works && ExtractionWork(FIRST_EXTRACTION, 1, SITE) in s.works
  {
    hide Apply, Reaches, ClaimExtraction;
    s := ReachExtraction();
    var claim := Step(ClaimExtractionCall(FIRST_EXTRACTION, 1), 0);
    FirstIsClaimed(s.db);
    Applied(s.db, claim);
    s := Serve(s, claim);
    SecondIsClaimed(s.db);
    Applied(s.db, claim);
    s := Serve(s, claim);
  }

  /**
   * The promise of EXTRACTING can fail: page "a" is claimed by the command without a page, the command is delivered
   * again and claims page "b", and completing "b" moves the job to VALIDATING while "a" is still EXTRACTING.
   */
  lemma SkipsAPage() returns (s: System, step: Step, t: System)
    ensures Reaches(SMALL, s) && Next(SMALL, s, step, t)
    ensures s.db.job.status == Extracting && t.db.job.status == Validating && !AllExtracted(t.db.pages)
  {
    hide Apply, Reaches, CompleteExtraction, AllExtracted, OthersExtracted, OtherWaits, SystemOk;
    s := ReachBothHeld();
    var w := ExtractionWork(FIRST_EXTRACTION, 1, SITE);
    step := Step(CompleteExtractionCall(w, Extract([], 0)), 0);
    t := System(Apply(SMALL, s.db, step).db, s.works);
    ReachableIsOk(SMALL, s);
    ReachedKeys(s);
    SystemHolds(s);
    LeavingExtraction(SMALL, s.db, w, Extract([], 0), 0);
    OneIsHeld(s.db.pages);
    Applied(s.db, step);
  }

  lemma SystemHolds(s: System)
    requires SystemOk(SMALL, s)
    ensures DbOk(SMALL, s.db)
  {
  }

  lemma ReachedKeys(s: System)
    requires Reaches(SMALL, s)
    ensures KeysCounted(s.db)
  {
    hide Next, Initial, KeysCounted;
    var trace, steps :| QueueRun(SMALL, trace, steps) && trace[|steps|] == s;
    QueueIsCalls(SMALL, trace, steps);
    KeysAreCounted(SMALL, States(trace), steps, |steps|);
  }

  lemma OneIsHeld(pages: seq<Page>)
    requires pages == BOTH_HELD.pages
    ensures !OtherWaits(pages, 1) && !OthersExtracted(pages, 1)
  {
    assert pages[0].status == PageVisited && !Extracted(pages[0]);
  }

  /**
   * And a job can get stuck: both workers lose their pages, one by a retryable failure of the command without a page,
   * which clears the lease and leaves the page EXTRACTING, and one by a crash.
   */
  lemma GetsStuck() returns (s: System, step: Step, t: System)
    ensures Reaches(SMALL, s) && Next(SMALL, s, step, t)
    ensures t.db.job.status == Extracting && Stuck(SMALL, t)
  {
    hide Apply, Reaches, Stuck, Next;
    s := ReachBothHeld();
    var w := ExtractionWork(FIRST_EXTRACTION, 0, SITE);
    step := Step(FailExtractionCall(w, Failure("TIMEOUT", true)), 0);
    t := System(Apply(SMALL, s.db, step).db, {});
    assert Next(SMALL, s, step, t) by { CrashIsNext(s, step, t); }
    StuckAfterFailure(s, step, t);
  }

  lemma CrashIsNext(s: System, step: Step, t: System)
    requires Legit(s, step.call) && t == System(Apply(SMALL, s.db, step).db, {})
    ensures Next(SMALL, s, step, t)
  {
    hide Apply;
  }

  lemma StuckAfterFailure(s: System, step: Step, t: System)
    requires Reaches(SMALL, s) && Next(SMALL, s, step, t) && t.works == {} && Shown(s.db) == BOTH_HELD
    requires step.call.FailExtractionCall? && step.call.error.retryable && step.call.work.cmd == FIRST_EXTRACTION
    ensures t.db.job.status == Extracting && Stuck(SMALL, t)
  {
    hide Apply, Stuck, Next, Initial;
    var trace, steps :| QueueRun(SMALL, trace, steps) && trace[|steps|] == s;
    var longer, more := trace + [t], steps + [step];
    forall i | 0 <= i < |more|
      ensures Next(SMALL, longer[i], more[i], longer[i + 1])
    {
      if i < |steps| { assert Next(SMALL, trace[i], steps[i], trace[i + 1]); }
    }
    PagelessFailure(SMALL, longer, more, |steps|);
  }
}
