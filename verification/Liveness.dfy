/** No lost work: failure-free runs always have exactly one thing to do next, and they end COMPLETED. */
module Liveness {
  import opened Wrappers
  import opened Domain
  import opened Rows
  import opened Lifecycle
  import opened Frontier
  import opened Stages
  import opened Inventory
  import opened Protocol
  import opened Invariants
  import opened Runs
  import opened CrawlOrder
  import opened Stranding

  /** A lease-exclusive job together with the commands whose delivery has been granted. */
  datatype Quiet = Quiet(run: Exclusive, spent: set<Key>)

  function Unspent(q: Quiet): set<Key> { q.run.db.outbox.Keys - q.spent }

  predicate Forward(call: Call) {
    || IsClaim(call)
    || call.CompletePlanningCall? || call.CompleteBrowserCall? || call.CompleteDiscoveryCall?
    || call.CompleteExtractionCall? || call.CompleteValidationCall? || call.CompleteExportCall?
  }

  predicate Granted(call: Call, reply: Reply) { IsClaim(call) && reply.Claimed? }

  /**
   * A failure-free step: a claim or a completion. Every command may be delivered any number of times, before and after
   * it was granted; only the first extraction command, which names no page, is granted once. No worker crashes, the
   * validator raises on no record, and the artifact store hands out fresh keys.
   */
  ghost predicate NextQuiet(cfg: Config, q: Quiet, step: Step, r: Quiet) {
    var reply := Apply(cfg, q.run.db, step).reply;
    && NextExclusive(cfg, q.run, step, r.run)
    && Forward(step.call)
    && r.run.live == LiveAfter(q.run.live, step.call, Apply(cfg, q.run.db, step), r.run.db != q.run.db)
    && (Granted(step.call, reply) && step.call.cmd.key == ExtractionKey ==> ExtractionKey !in q.spent)
    && r.spent == q.spent + (if Granted(step.call, reply) then {step.call.cmd.key} else {})
    && (step.call.CompleteValidationCall? ==> Comparable(cfg, q.run.db.records))
    && (step.call.CompleteExportCall? ==> !HasKey(q.run.db.files, step.call.storageKey))
  }

  ghost predicate QuietRun(cfg: Config, trace: seq<Quiet>, steps: seq<Step>) {
    && |trace| == |steps| + 1
    && Initial(System(trace[0].run.db, trace[0].run.live)) && trace[0].run.visits == [] && trace[0].spent == {}
    && forall i :: 0 <= i < |steps| ==> NextQuiet(cfg, trace[i], steps[i], trace[i + 1])
  }

  // What is outstanding in each stage

  /** One command waits for its delivery, and nobody works. */
  ghost predicate Waits(q: Quiet, k: Key) {
    q.run.live == {} && Unspent(q) == {k}
  }

  /** One worker works, and no command waits. */
  ghost predicate Works(q: Quiet, w: Work) {
    q.run.live == {w} && Unspent(q) == {}
  }

  ghost predicate PlanningReady(q: Quiet) { Works(q, PlanningWork(PlanningCommand(1))) }

  ghost predicate BrowserReady(q: Quiet) {
    Waits(q, PhaseKey(BrowserPhase, 1)) || Works(q, BrowserWork(BrowserCommand(1)))
  }

  predicate NamesDiscovered(pages: seq<Page>, cmd: Command) {
    && cmd.kind == RunDiscovery && cmd.page.Some? && cmd.page.value < |pages|
    && pages[cmd.page.value].status == PageDiscovered
  }

  ghost predicate Untouched(pages: seq<Page>) { forall i :: 0 <= i < |pages| ==> pages[i].extraction == None }

  ghost predicate DiscoveryReady(q: Quiet) {
    && Untouched(q.run.db.pages) && SpentAreClaimed(q)
    && ((exists k :: Waits(q, k) && NamesDiscovered(q.run.db.pages, q.run.db.outbox[k]))
        || exists w :: Works(q, w) && w.DiscoveryWork?)
  }

  /** A granted crawl command names a page that has left the frontier. */
  ghost predicate SpentAreClaimed(q: Quiet) {
    forall k <- q.spent :: k in q.run.db.outbox && q.run.db.outbox[k].kind == RunDiscovery ==>
      NotDiscovered(q.run.db.pages, q.run.db.outbox[k].page)
  }

  /** Every VISITED page is untouched or extracted, except the page under work. */
  ghost predicate Settled(pages: seq<Page>, busy: Option<nat>) {
    forall i: nat :: i < |pages| && pages[i].status == PageVisited ==>
      if busy == Some(i) then pages[i].extraction == Some(PageExtracting)
      else pages[i].extraction == None || Extracted(pages[i])
  }

  predicate NamesUnextracted(pages: seq<Page>, cmd: Command) {
    && cmd.kind == RunExtraction
    && if cmd.page.None? then exists i :: 0 <= i < |pages| && NotExtracted(pages[i])
       else cmd.page.value < |pages| && NotExtracted(pages[cmd.page.value])
  }

  ghost predicate ExtractionReady(q: Quiet) {
    var pages := q.run.db.pages;
    || (Settled(pages, None) && exists k :: Waits(q, k) && NamesUnextracted(pages, q.run.db.outbox[k]))
    || exists w :: Works(q, w) && Extracts(pages, w)
  }

  ghost predicate Extracts(pages: seq<Page>, w: Work) {
    && w.ExtractionWork? && w.page < |pages|
    && pages[w.page].status == PageVisited && Settled(pages, Some(w.page))
  }

  ghost predicate ValidationReady(q: Quiet) {
    && AllExtracted(q.run.db.pages)
    && (|| (q.run.db.runs == [RunQueued] && Waits(q, ValidationKey(0)))
        || (q.run.db.runs == [RunRunning] && q.run.db.plan.Some?
            && Works(q, ValidationWork(ValidationCommand(0), 0, q.run.db.plan.value))))
  }

  function FirstExportCommand(id: nat): Command { ExportCommand(id, 1, 1, 0) }

  function ExportWorkOf(id: nat): Work { ExportWork(FirstExportCommand(id), id) }

  /** Each unfinished export has exactly one command waiting or exactly one worker; nothing else is outstanding. */
  ghost predicate ExportsReady(q: Quiet) {
    var db := q.run.db;
    && (forall i: nat :: i < |db.exports| ==> ExportReady(q, i))
    && (forall k <- Unspent(q) :: k.ExportKey? && k.exportId < |db.exports|)
    && (forall k <- db.outbox :: k.ExportKey? ==> k.attempt == 1)
    && (forall w <- q.run.live :: w.ExportWork? && w.exportId < |db.exports| && w == ExportWorkOf(w.exportId))
  }

  ghost predicate ExportReady(q: Quiet, i: nat)
    requires i < |q.run.db.exports|
  {
    var status := q.run.db.exports[i].status;
    && FirstCommandQueued(q.run.db.outbox, i, 0)
    && (status == ExportQueued || status == ExportRunning || status == ExportCompleted)
    && (status == ExportQueued <==> ExportKey(i, 1) in Unspent(q))
    && (status == ExportRunning <==> ExportWorkOf(i) in q.run.live)
  }

  /** Which operation keys are still unused. */
  ghost predicate KeysFresh(q: Quiet) {
    var db := q.run.db;
    var s := db.job.status;
    && (s == Queued || s == Planning ==> PhaseKey(BrowserPhase, 1) !in db.outbox)
    && (BeforeDiscovery(s) ==> DiscoverySourceKey !in db.outbox && NoPageKeys(db.outbox))
    && (BeforeDiscovery(s) || s == Discovering ==> ExtractionKey !in db.outbox && NoExtractionKeys(db.outbox))
    && (s == Extracting ==> ExtractionKeysSpent(q))
    && (BeforeDiscovery(s) || s == Discovering || s == Extracting ==> ValidationKey(0) !in db.outbox)
    && FirstCommands(db.outbox)
  }

  /** Without recovery every stage has the one command that the stage before it queued. */
  ghost predicate FirstCommands(outbox: map<Key, Command>) {
    forall k <- outbox ::
      && (k.PhaseKey? ==> k.phase != DiscoveryPhase && outbox[k] == FirstCommand(k.phase))
      && (k.ValidationKey? ==> outbox[k] == ValidationCommand(0))
  }

  function FirstCommand(phase: Phase): Command {
    if phase == BrowserPhase then BrowserCommand(1) else PlanningCommand(1)
  }

  ghost predicate KeysFit(outbox: map<Key, Command>) { forall k <- outbox :: outbox[k].key == k && KeyFits(outbox[k]) }

  lemma OutboxFits(cfg: Config, db: Db)
    requires DbOk(cfg, db)
    ensures KeysFit(db.outbox)
    ensures db.pages == [] ==> forall k <- db.outbox :: db.outbox[k].kind != RunDiscovery
  {
    assert forall k <- db.outbox :: CommandOk(db.pages, db.outbox[k]);
  }

  ghost predicate NoPageKeys(outbox: map<Key, Command>) { forall k <- outbox :: !k.DiscoveryPageKey? }

  ghost predicate NoExtractionKeys(outbox: map<Key, Command>) { forall k <- outbox :: !k.ExtractionPageKey? }

  ghost predicate ExtractionKeysSpent(q: Quiet) {
    forall k <- q.run.db.outbox :: k.ExtractionPageKey? ==>
      k in Unspent(q) || (k.page < |q.run.db.pages| && q.run.db.pages[k.page].extraction != None)
  }

  ghost predicate StageReady(q: Quiet) {
    match q.run.db.job.status
    case Queued => Waits(q, PhaseKey(PlanningPhase, 1))
    case Planning => PlanningReady(q)
    case BrowserInitializing => BrowserReady(q)
    case Discovering => DiscoveryReady(q)
    case Extracting => ExtractionReady(q)
    case Validating => ValidationReady(q)
    case Exporting => ExportsReady(q)
    case Completed => true
    case _ => false
  }

  ghost predicate QuietOk(q: Quiet) {
    && q.spent <= q.run.db.outbox.Keys
    && KeysFresh(q)
    && StageReady(q)
  }

  // The measure

  function Rank(s: JobStatus): nat {
    match s
    case Queued => 7
    case Planning => 6
    case BrowserInitializing => 5
    case Discovering => 4
    case Extracting => 3
    case Validating => 2
    case ReadyForExport => 1
    case Exporting => 1
    case _ => 0
  }

  predicate Unextracted(p: Page) { p.status == PageVisited && !Extracted(p) }

  function CountUnextracted(pages: seq<Page>): nat {
    if pages == [] then 0
    else
      var n := |pages| - 1;
      CountUnextracted(pages[..n]) + if Unextracted(pages[n]) then 1 else 0
  }

  function CountUnfinished(exports: seq<Export>): nat {
    if exports == [] then 0
    else
      var n := |exports| - 1;
      CountUnfinished(exports[..n]) + if exports[n].status != ExportCompleted then 1 else 0
  }

  /** What the current stage has left to do. */
  function Left(cfg: Config, s: Exclusive): nat {
    match s.db.job.status
    case Discovering => if s.db.plan.Some? then Max(0, CrawlCap(cfg, s.db.plan.value) - |s.visits|) else 0
    case Extracting => CountUnextracted(s.db.pages)
    case Exporting => CountUnfinished(s.db.exports)
    case _ => 0
  }

  /** The lexicographic order on (stages left, work left in the stage, commands waiting). */
  predicate Descends(cfg: Config, q: Quiet, r: Quiet) {
    var (a, b) := (Rank(q.run.db.job.status), Rank(r.run.db.job.status));
    var (c, d) := (Left(cfg, q.run), Left(cfg, r.run));
    b < a || (b == a && (d < c || (d == c && |Unspent(r)| < |Unspent(q)|)))
  }

  // Refused claims

  lemma RefusedEarly(cfg: Config, db: Db, step: Step)
    requires DbOk(cfg, db) && !Terminal(db.job.status) && !Apply(cfg, db, step).reply.Claimed?
    requires step.call.ClaimPlanningCall? || step.call.PrepareBrowserCall? || step.call.ClaimDiscoveryCall?
    ensures Apply(cfg, db, step).db == db
  {
    hide CompletePlanning, FailPlanning, CompleteBrowser, FailBrowser, CompleteDiscovery, FailDiscovery;
    hide ClaimExtraction, CompleteExtraction, FailExtraction, ClaimValidation, CompleteValidation, FailValidation;
    hide ClaimExport, CompleteExport, FailExport, Cancel, Recover, TablesOk, Numbered, FormatsOk, StepOk;
  }

  lemma RefusedLate(cfg: Config, db: Db, step: Step)
    requires DbOk(cfg, db) && !Terminal(db.job.status) && !Apply(cfg, db, step).reply.Claimed?
    requires step.call.ClaimExtractionCall? || step.call.ClaimValidationCall? || step.call.ClaimExportCall?
    ensures Apply(cfg, db, step).db == db
  {
    hide ClaimPlanning, CompletePlanning, FailPlanning, PrepareBrowser, CompleteBrowser, FailBrowser;
    hide ClaimDiscovery, CompleteDiscovery, FailDiscovery, CompleteExtraction, FailExtraction;
    hide CompleteValidation, FailValidation, CompleteExport, FailExport, Cancel, Recover;
    hide TablesOk, Numbered, FormatsOk, StepOk;
  }

  /** A claim that is not granted changes nothing. */
  lemma RefusedClaim(cfg: Config, db: Db, step: Step)
    requires DbOk(cfg, db) && !Terminal(db.job.status) && IsClaim(step.call) && !Apply(cfg, db, step).reply.Claimed?
    ensures Apply(cfg, db, step).db == db
  {
    hide Apply, DbOk;
    if step.call.ClaimPlanningCall? || step.call.PrepareBrowserCall? || step.call.ClaimDiscoveryCall? {
      RefusedEarly(cfg, db, step);
    } else {
      RefusedLate(cfg, db, step);
    }
  }

  // The steps of each stage

  /** `r` is what a granted claim leaves. */
  ghost predicate Takes(q: Quiet, cmd: Command, o: Outcome, r: Quiet) {
    && cmd.key in Unspent(q) && q.run.db.outbox[cmd.key] == cmd
    && o.reply.Claimed? && r.run.db == o.db && r.run.visits == q.run.visits
    && r.spent == q.spent + {cmd.key}
    && r.run.live == Joined(q.run.live, o.reply.work)
  }

  /** `r` is what the end of work `w` leaves. */
  ghost predicate Ends(q: Quiet, w: Work, o: Outcome, r: Quiet) {
    && w in q.run.live
    && r.run.db == o.db && r.spent == q.spent
    && (o.reply != Raised ==> r.run.live == q.run.live - {w})
    && (!w.DiscoveryWork? || o.reply != Done ==> r.run.visits == q.run.visits)
  }

  ghost predicate Good(cfg: Config, q: Quiet, r: Quiet) { QuietOk(r) && Descends(cfg, q, r) }

  lemma SpendLast(q: Quiet, k: Key, r: Quiet)
    requires Unspent(q) == {k} && r.run.db.outbox == q.run.db.outbox && r.spent == q.spent + {k}
    requires q.spent <= q.run.db.outbox.Keys
    ensures Unspent(r) == {} && r.spent <= r.run.db.outbox.Keys
  {
  }

  lemma QueueNext(q: Quiet, k: Key, cmd: Command, r: Quiet)
    requires Unspent(q) == {} && k !in q.run.db.outbox && r.run.db.outbox == q.run.db.outbox[k := cmd]
    requires r.spent == q.spent <= q.run.db.outbox.Keys
    ensures Unspent(r) == {k} && r.spent <= r.run.db.outbox.Keys
  {
  }

  lemma ClaimPlanningShape(db: Db, cmd: Command, now: int, until: int)
    requires ClaimPlanning(db, cmd, now, until).reply.Claimed?
    ensures var o := ClaimPlanning(db, cmd, now, until);
            && (db.job.status == Queued || db.job.status == Planning)
            && o.db.job.status == Planning && o.db.outbox == db.outbox && o.reply.work == PlanningWork(cmd)
  {
  }

  lemma ClaimPlanningGood(cfg: Config, q: Quiet, cmd: Command, now: int, until: int, r: Quiet)
    requires QuietOk(q) && Takes(q, cmd, ClaimPlanning(q.run.db, cmd, now, until), r)
    ensures Good(cfg, q, r)
  {
    hide ClaimPlanning;
    ClaimPlanningShape(q.run.db, cmd, now, until);
    SpendLast(q, cmd.key, r);
    assert Works(r, PlanningWork(PlanningCommand(1)));
  }

  lemma CompletePlanningShape(db: Db, plan: Plan, now: int)
    requires db.job.status == Planning && !db.job.cancelRequested && db.plan.None?
    requires PhaseKey(BrowserPhase, 1) !in db.outbox
    ensures var o := CompletePlanning(db, plan, now);
            && o.reply == Done && o.db.job.status == BrowserInitializing
            && o.db.outbox == db.outbox[PhaseKey(BrowserPhase, 1) := BrowserCommand(1)]
  {
  }

  lemma CompletePlanningGood(cfg: Config, q: Quiet, w: Work, plan: Plan, now: int, r: Quiet)
    requires DbOk(cfg, q.run.db) && QuietOk(q) && q.run.db.job.status == Planning
    requires w.PlanningWork? && Ends(q, w, CompletePlanning(q.run.db, plan, now), r)
    ensures CompletePlanning(q.run.db, plan, now).reply == Done && Good(cfg, q, r)
  {
    hide CompletePlanning, TablesOk, Numbered, FormatsOk;
    CompletePlanningShape(q.run.db, plan, now);
    QueueNext(q, PhaseKey(BrowserPhase, 1), BrowserCommand(1), r);
    assert Waits(r, PhaseKey(BrowserPhase, 1));
  }

  lemma PrepareBrowserGood(cfg: Config, q: Quiet, cmd: Command, now: int, r: Quiet)
    requires QuietOk(q) && Takes(q, cmd, PrepareBrowser(q.run.db, cmd, now), r)
    ensures Good(cfg, q, r)
  {
    assert q.run.db.job.status == BrowserInitializing && r.run.db.outbox == q.run.db.outbox;
    SpendLast(q, cmd.key, r);
    assert Works(r, BrowserWork(BrowserCommand(1)));
  }

  lemma CompleteBrowserGood(cfg: Config, q: Quiet, w: Work, url: Url, n: nat, now: int, r: Quiet)
    requires DbOk(cfg, q.run.db) && QuietOk(q) && q.run.db.job.status == BrowserInitializing
    requires w.BrowserWork? && Ends(q, w, CompleteBrowser(cfg, q.run.db, url, n, now), r)
    ensures CompleteBrowser(cfg, q.run.db, url, n, now).reply == Done && Good(cfg, q, r)
  {
    hide CompleteBrowser, TablesOk, Numbered, FormatsOk, StepOk;
    CompleteBrowserShape(cfg, q.run.db, url, n, now);
    OutboxFits(cfg, q.run.db);
    QueueNext(q, DiscoverySourceKey, DiscoveryCommand(DiscoverySourceKey, 1, 0), r);
    assert Waits(r, DiscoverySourceKey);
  }

  lemma CompleteBrowserShape(cfg: Config, db: Db, url: Url, n: nat, now: int)
    requires db.job.status == BrowserInitializing && !db.job.cancelRequested && db.pages == []
    requires DiscoverySourceKey !in db.outbox
    ensures var o := CompleteBrowser(cfg, db, url, n, now);
            && o.reply == Done && o.db.job.status == Discovering && |o.db.pages| == 1
            && o.db.pages[0].status == PageDiscovered && o.db.pages[0].extraction == None
            && o.db.outbox == db.outbox[DiscoverySourceKey := DiscoveryCommand(DiscoverySourceKey, 1, 0)]
  {
    hide StepOk, LogGrows, AppendMany, MaxSequence;
  }

  // Discovery

  lemma ClaimDiscoveryShape(db: Db, cmd: Command, now: int, until: int)
    requires ClaimDiscovery(db, cmd, now, until).reply.Claimed?
    ensures var o := ClaimDiscovery(db, cmd, now, until);
            && db.job.status == Discovering == o.db.job.status && o.reply.work.DiscoveryWork?
            && o.db.outbox == db.outbox && o.db.plan == db.plan
            && var p := DiscoveryPage(db.pages, cmd.page);
               p.Some? && o.db.pages == db.pages[p.value := db.pages[p.value].(status := PageQueued)]
  {
  }

  lemma ClaimDiscoveryGood(cfg: Config, q: Quiet, cmd: Command, now: int, until: int, r: Quiet)
    requires QuietOk(q) && Takes(q, cmd, ClaimDiscovery(q.run.db, cmd, now, until), r)
    ensures Good(cfg, q, r)
  {
    hide ClaimDiscovery, KeysFresh, SpentAreClaimed;
    ClaimDiscoveryShape(q.run.db, cmd, now, until);
    SpendLast(q, cmd.key, r);
    assert Works(r, ClaimDiscovery(q.run.db, cmd, now, until).reply.work);
    SameOutbox(q, r);
    ClaimedPage(q, cmd, DiscoveryPage(q.run.db.pages, cmd.page).value, r);
  }

  /** No command is queued in the crawl stage by a claim. */
  lemma SameOutbox(q: Quiet, r: Quiet)
    requires KeysFresh(q) && q.run.db.job.status == Discovering == r.run.db.job.status
    requires r.run.db.outbox == q.run.db.outbox
    ensures KeysFresh(r)
  {
  }

  /** The granted command names the page that has just left the frontier. */
  lemma ClaimedPage(q: Quiet, cmd: Command, p: nat, r: Quiet)
    requires SpentAreClaimed(q) && r.run.db.outbox == q.run.db.outbox && r.spent == q.spent + {cmd.key}
    requires cmd.key in q.run.db.outbox && q.run.db.outbox[cmd.key] == cmd
    requires cmd.page == Some(p) && p < |q.run.db.pages|
    requires r.run.db.pages == q.run.db.pages[p := q.run.db.pages[p].(status := PageQueued)]
    ensures SpentAreClaimed(r)
  {
  }

  /** No queued command names the next page, so the insert cannot fail. */
  lemma AdvanceShape(db: Db, now: int)
    requires db.job.status == Discovering && ExtractionKey !in db.outbox
    requires KeysFit(db.outbox) && CommandsSpent(db.pages, db.outbox)
    ensures var a, next := Advance(db, now), Least(db.pages, IsDiscovered, DiscoveredAt);
            && a.Some? && a.value.pages == db.pages && a.value.plan == db.plan
            && if next.Some? then
                 var k := DiscoveryPageKey(next.value);
                 && k !in db.outbox && a.value.job == db.job
                 && a.value.outbox == db.outbox[k := DiscoveryCommand(k, 1, next.value)]
               else
                 && a.value.job.status == Extracting
                 && a.value.outbox == db.outbox[ExtractionKey := ExtractionCommand(ExtractionKey, None)]
  {
    var next := Least(db.pages, IsDiscovered, DiscoveredAt);
    if next.Some? {
      var k := DiscoveryPageKey(next.value);
      assert k in db.outbox ==> NotDiscovered(db.pages, db.outbox[k].page);
    }
  }

  /** `after` is what visiting the page of `w` leaves, before the next command is queued. */
  ghost predicate Expands(cfg: Config, q: Quiet, w: Work, after: Db)
    requires w.DiscoveryWork?
  {
    && Busy(q.run, w.page) && Expanded(cfg, q.run.db.pages, after.pages, w.page)
    && NoneQueued(after.pages) && CommandsSpent(after.pages, after.outbox)
    && after.outbox == q.run.db.outbox && after.job.status == Discovering && after.plan == q.run.db.plan
  }

  lemma ExpandsQuietly(cfg: Config, q: Quiet, w: Work, capture: Capture, now: int) returns (after: Db)
    requires DistinctKeys(cfg) && DbOk(cfg, q.run.db) && OrderOk(cfg, q.run) && q.run.db.job.status == Discovering
    requires w in q.run.live && w.DiscoveryWork? && WorkOk(q.run.db.pages, q.run.db.plan, w)
    ensures after == Release(Expand(cfg, q.run.db, w.plan, w.page, capture, now)) && Expands(cfg, q, w, after)
  {
    hide Expand, StepOk, RowsOk, Numbered, FormatsOk, CompleteDiscovery;
    CompleteKeepsOrder(cfg, q.run, w, capture, now);
    after := Release(Expand(cfg, q.run.db, w.plan, w.page, capture, now));
    ExpandsFrontier(cfg, q.run.db, w.plan, w.page, capture, now);
    ExpandedFrontier(cfg, q.run, after.pages, w.page);
  }

  lemma DiscoveryContinues(cfg: Config, q: Quiet, p: nat, r: Quiet)
    requires QuietOk(q) && q.run.db.job.status == Discovering == r.run.db.job.status && Unspent(q) == {}
    requires Untouched(r.run.db.pages) && p < |r.run.db.pages| && r.run.db.pages[p].status == PageDiscovered
    requires CommandsSpent(r.run.db.pages, q.run.db.outbox)
    requires var k := DiscoveryPageKey(p);
             && k !in q.run.db.outbox && r.run.live == {} && r.spent == q.spent && r.run.db.plan == q.run.db.plan
             && r.run.db.outbox == q.run.db.outbox[k := DiscoveryCommand(k, 1, p)]
    requires |r.run.visits| == |q.run.visits| + 1 && VisitsCapped(cfg, r.run.db.plan, r.run.visits)
    ensures Good(cfg, q, r)
  {
    hide KeysFresh, SpentAreClaimed, CommandsSpent, Untouched;
    var k := DiscoveryPageKey(p);
    QueueNext(q, k, DiscoveryCommand(k, 1, p), r);
    assert Waits(r, k) && NamesDiscovered(r.run.db.pages, r.run.db.outbox[k]);
    NextPageQueued(q, k, DiscoveryCommand(k, 1, p), r);
    SpentStayClaimed(q, k, r);
  }

  lemma NextPageQueued(q: Quiet, k: Key, cmd: Command, r: Quiet)
    requires KeysFresh(q) && q.run.db.job.status == Discovering == r.run.db.job.status
    requires k.DiscoveryPageKey? && r.run.db.outbox == q.run.db.outbox[k := cmd]
    ensures KeysFresh(r)
  {
  }

  lemma SpentStayClaimed(q: Quiet, k: Key, r: Quiet)
    requires CommandsSpent(r.run.db.pages, q.run.db.outbox) && k !in q.run.db.outbox && r.spent <= q.run.db.outbox.Keys
    requires k in r.run.db.outbox && r.run.db.outbox == q.run.db.outbox[k := r.run.db.outbox[k]]
    ensures SpentAreClaimed(r)
  {
  }

  lemma DiscoveryLeaves(cfg: Config, q: Quiet, p: nat, r: Quiet)
    requires QuietOk(q) && q.run.db.job.status == Discovering && r.run.db.job.status == Extracting
    requires Untouched(r.run.db.pages) && p < |r.run.db.pages| && NotExtracted(r.run.db.pages[p])
    requires Unspent(q) == {} && r.run.live == {} && r.spent == q.spent
    requires r.run.db.outbox == q.run.db.outbox[ExtractionKey := ExtractionCommand(ExtractionKey, None)]
    ensures Good(cfg, q, r)
  {
    QueueNext(q, ExtractionKey, ExtractionCommand(ExtractionKey, None), r);
    assert Waits(r, ExtractionKey) && NamesUnextracted(r.run.db.pages, r.run.db.outbox[ExtractionKey]);
  }

  lemma DiscoveryAdvances(cfg: Config, q: Quiet, w: Work, db1: Db, now: int, r: Quiet)
    requires QuietOk(q) && q.run.db.job.status == Discovering && KeysFit(q.run.db.outbox)
    requires w in q.run.live && w.DiscoveryWork? && Expands(cfg, q, w, db1)
    requires Advance(db1, now).Some? ==>
               && r.run.db == Advance(db1, now).value && r.run.live == q.run.live - {w} && r.spent == q.spent
               && |r.run.visits| == |q.run.visits| + 1
               && VisitsCapped(cfg, r.run.db.plan, r.run.visits)
    ensures Advance(db1, now).Some? && Good(cfg, q, r)
  {
    hide Advance, Expanded, Busy, CommandsSpent, NoneQueued, VisitsCapped, Good, KeysFit;
    AdvanceShape(db1, now);
    ExpandedUntouched(cfg, q.run.db.pages, db1.pages, w.page);
    assert Unspent(q) == {} && q.run.live == {w};
    var next := Least(db1.pages, IsDiscovered, DiscoveredAt);
    if next.Some? {
      DiscoveryContinues(cfg, q, next.value, r);
    } else {
      DiscoveryLeaves(cfg, q, w.page, r);
    }
  }

  lemma ExpandedUntouched(cfg: Config, pages: seq<Page>, after: seq<Page>, q: nat)
    requires Expanded(cfg, pages, after, q) && Untouched(pages)
    ensures q < |after| && Untouched(after) && NotExtracted(after[q])
  {
    forall i | 0 <= i < |after|
      ensures after[i].extraction == None
    {
      if i < |pages| && i != q { assert after[i] == pages[i]; }
    }
  }

  lemma CompleteDiscoveryGood(cfg: Config, q: Quiet, w: Work, capture: Capture, now: int, r: Quiet)
    requires DistinctKeys(cfg) && DbOk(cfg, q.run.db) && OrderOk(cfg, q.run) && q.run.db.job.status == Discovering
    requires w.DiscoveryWork? && WorkOk(q.run.db.pages, q.run.db.plan, w)
    requires QuietOk(q) && Ends(q, w, CompleteDiscovery(cfg, q.run.db, w, capture, now), r)
    requires OrderOk(cfg, r.run)
    requires CompleteDiscovery(cfg, q.run.db, w, capture, now).reply == Done ==> |r.run.visits| == |q.run.visits| + 1
    ensures CompleteDiscovery(cfg, q.run.db, w, capture, now).reply == Done && Good(cfg, q, r)
  {
    hide Expand, Advance, StepOk, RowsOk, Numbered, FormatsOk, QuietOk, Good;
    assert VisitsCapped(cfg, r.run.db.plan, r.run.visits);
    var db1 := ExpandsQuietly(cfg, q, w, capture, now);
    OutboxFits(cfg, q.run.db);
    assert CompleteDiscovery(cfg, q.run.db, w, capture, now) == Commit(q.run.db, Advance(db1, now), Done);
    DiscoveryAdvances(cfg, q, w, db1, now, r);
  }

  // Extraction

  lemma {:induction false} UnextractedAfterChange(pages: seq<Page>, i: nat, p: Page)
    requires i < |pages|
    ensures CountUnextracted(pages[i := p]) ==
            CountUnextracted(pages) + (if Unextracted(p) then 1 else 0) - (if Unextracted(pages[i]) then 1 else 0)
  {
    var n := |pages| - 1;
    if i < n {
      assert pages[i := p][..n] == pages[..n][i := p];
      UnextractedAfterChange(pages[..n], i, p);
    } else {
      assert pages[i := p][..n] == pages[..n];
    }
  }

  lemma ClaimExtractionShape(db: Db, cmd: Command, now: int, until: int)
    requires ClaimExtraction(db, cmd, now, until).reply.Claimed?
    ensures var o, p := ClaimExtraction(db, cmd, now, until), ExtractionPage(db.pages, cmd.page);
            && db.job.status == Extracting == o.db.job.status && p.Some? && db.plan.Some?
            && o.reply.work == ExtractionWork(cmd, p.value, db.plan.value)
            && o.db.outbox == db.outbox && o.db.runs == db.runs
            && o.db.pages == db.pages[p.value := db.pages[p.value].(extraction := Some(PageExtracting))]
  {
  }

  lemma ClaimExtractionGood(cfg: Config, q: Quiet, cmd: Command, now: int, until: int, r: Quiet)
    requires QuietOk(q) && Takes(q, cmd, ClaimExtraction(q.run.db, cmd, now, until), r) && KeyFits(cmd)
    ensures Good(cfg, q, r)
  {
    hide ClaimExtraction, CountUnextracted;
    ClaimExtractionShape(q.run.db, cmd, now, until);
    SpendLast(q, cmd.key, r);
    var p := ExtractionPage(q.run.db.pages, cmd.page).value;
    UnextractedAfterChange(q.run.db.pages, p, r.run.db.pages[p]);
    assert Settled(q.run.db.pages, None);
    ExtractionStarts(q, cmd, p, ExtractionWork(cmd, p, q.run.db.plan.value), r);
  }

  lemma ExtractionStarts(q: Quiet, cmd: Command, p: nat, w: Work, r: Quiet)
    requires Settled(q.run.db.pages, None) && KeysFresh(q) && q.run.db.job.status == Extracting
    requires Waits(q, cmd.key) && q.run.db.outbox[cmd.key] == cmd && (cmd.page == None || cmd.page == Some(p))
    requires KeyFits(cmd)
    requires w.ExtractionWork? && w.page == p < |q.run.db.pages| && NeedsExtraction(q.run.db.pages[p])
    requires r.run.db.job.status == Extracting && r.run.db.outbox == q.run.db.outbox && r.run.live == {w}
    requires r.run.db.pages == q.run.db.pages[p := q.run.db.pages[p].(extraction := Some(PageExtracting))]
    requires Unspent(r) == {} && r.spent <= r.run.db.outbox.Keys
    ensures QuietOk(r)
  {
    assert Works(r, w) && Extracts(r.run.db.pages, w);
  }

  lemma AdvanceExtractionShape(db: Db, plan: Plan, now: int)
    requires db.job.status == Extracting && db.runs == [] && ValidationKey(0) !in db.outbox
    requires forall k <- db.outbox :: k.ExtractionPageKey? ==>
               k.page < |db.pages| && db.pages[k.page].extraction != None
    ensures var a, next := AdvanceExtraction(db, plan, now), Least(db.pages, NotExtracted, VisitedAt);
            && a.Some? && a.value.pages == db.pages
            && if next.Some? then
                 var k := ExtractionPageKey(next.value, plan.version);
                 && k !in db.outbox && a.value.job == db.job
                 && a.value.outbox == db.outbox[k := ExtractionCommand(k, Some(next.value))]
               else
                 && a.value.job.status == Validating && a.value.runs == [RunQueued]
                 && a.value.outbox == db.outbox[ValidationKey(0) := ValidationCommand(0)]
  {
  }

  lemma ExtractionContinues(cfg: Config, q: Quiet, w: Work, p: nat, version: nat, r: Quiet)
    requires QuietOk(q) && q.run.db.job.status == Extracting == r.run.db.job.status && Unspent(q) == {}
    requires Extracts(q.run.db.pages, w) && Stored(q.run.db.pages, w.page, r.run.db.pages)
    requires p < |r.run.db.pages| && NotExtracted(r.run.db.pages[p])
    requires var k := ExtractionPageKey(p, version);
             && k !in q.run.db.outbox && r.run.live == {} && r.spent == q.spent
             && r.run.db.outbox == q.run.db.outbox[k := ExtractionCommand(k, Some(p))]
    ensures Good(cfg, q, r)
  {
    hide KeysFresh, CountUnextracted;
    var k := ExtractionPageKey(p, version);
    QueueNext(q, k, ExtractionCommand(k, Some(p)), r);
    UnextractedAfterChange(q.run.db.pages, w.page, r.run.db.pages[w.page]);
    assert Waits(r, k) && NamesUnextracted(r.run.db.pages, r.run.db.outbox[k]);
    ExtractionQueued(q, w.page, k, ExtractionCommand(k, Some(p)), r);
  }

  lemma ExtractionQueued(q: Quiet, page: nat, k: Key, cmd: Command, r: Quiet)
    requires KeysFresh(q) && q.run.db.job.status == Extracting == r.run.db.job.status && Unspent(q) == {}
    requires Stored(q.run.db.pages, page, r.run.db.pages) && Unspent(r) == {k} && r.spent == q.spent
    requires k.ExtractionPageKey? && k !in q.run.db.outbox && r.run.db.outbox == q.run.db.outbox[k := cmd]
    ensures KeysFresh(r)
  {
    forall l <- r.run.db.outbox | l.ExtractionPageKey?
      ensures l in Unspent(r) || (l.page < |r.run.db.pages| && r.run.db.pages[l.page].extraction != None)
    {
      if l != k { assert l in q.run.db.outbox && l !in Unspent(q); }
    }
  }

  lemma ExtractionLeaves(cfg: Config, q: Quiet, w: Work, r: Quiet)
    requires QuietOk(q) && q.run.db.job.status == Extracting && r.run.db.job.status == Validating && Unspent(q) == {}
    requires Extracts(q.run.db.pages, w) && Stored(q.run.db.pages, w.page, r.run.db.pages)
    requires forall i :: 0 <= i < |r.run.db.pages| ==> !NotExtracted(r.run.db.pages[i])
    requires r.run.live == {} && r.spent == q.spent && r.run.db.runs == [RunQueued]
    requires r.run.db.outbox == q.run.db.outbox[ValidationKey(0) := ValidationCommand(0)]
    ensures Good(cfg, q, r)
  {
    QueueNext(q, ValidationKey(0), ValidationCommand(0), r);
    forall i | 0 <= i < |r.run.db.pages| && r.run.db.pages[i].status == PageVisited
      ensures Extracted(r.run.db.pages[i])
    {
      assert !NotExtracted(r.run.db.pages[i]);
    }
  }

  lemma CompleteExtractionGood(cfg: Config, q: Quiet, w: Work, extract: Extract, now: int, r: Quiet)
    requires DbOk(cfg, q.run.db) && q.run.db.job.status == Extracting
    requires w.ExtractionWork? && QuietOk(q) && Ends(q, w, CompleteExtraction(cfg, q.run.db, w, extract, now), r)
    ensures CompleteExtraction(cfg, q.run.db, w, extract, now).reply == Done && Good(cfg, q, r)
  {
    hide StoreExtract, AdvanceExtraction, Good, TablesOk, Numbered, FormatsOk, StepOk;
    assert Unspent(q) == {} && q.run.live == {w} && Extracts(q.run.db.pages, w);
    StoreExtractShape(cfg, q.run.db, w.plan, w.page, extract);
    var db1 := Release(StoreExtract(cfg, q.run.db, w.plan, w.page, extract));
    AdvanceExtractionShape(db1, w.plan, now);
    var next := Least(db1.pages, NotExtracted, VisitedAt);
    if next.Some? {
      ExtractionContinues(cfg, q, w, next.value, w.plan.version, r);
    } else {
      ExtractionLeaves(cfg, q, w, r);
    }
  }

  // Validation and export

  lemma ClaimValidationShape(db: Db, cmd: Command, now: int, until: int)
    requires ClaimValidation(db, cmd, now, until).reply.Claimed?
    ensures var o := ClaimValidation(db, cmd, now, until);
            && db.job.status == Validating == o.db.job.status && cmd.run.Some? && cmd.run.value < |db.runs|
            && db.plan.Some? && o.db.plan == db.plan
            && o.reply.work == ValidationWork(cmd, cmd.run.value, db.plan.value)
            && o.db.runs == db.runs[cmd.run.value := RunRunning] && o.db.outbox == db.outbox && o.db.pages == db.pages
  {
  }

  lemma ClaimValidationGood(cfg: Config, q: Quiet, cmd: Command, now: int, until: int, r: Quiet)
    requires QuietOk(q) && Takes(q, cmd, ClaimValidation(q.run.db, cmd, now, until), r)
    ensures Good(cfg, q, r)
  {
    hide ClaimValidation;
    ClaimValidationShape(q.run.db, cmd, now, until);
    SpendLast(q, cmd.key, r);
    assert Works(r, ClaimValidation(q.run.db, cmd, now, until).reply.work);
  }

  /** Queueing the exports adds their first keys and no others. */
  lemma {:induction false} InsertExportsKeys(db: Db, run: nat, formats: seq<Format>)
    requires InsertExports(db, run, formats).Some?
    ensures var after := InsertExports(db, run, formats).value;
            && db.outbox.Keys <= after.outbox.Keys
            && forall k <- after.outbox :: k in db.outbox ||
                 (k.ExportKey? && k.attempt == 1 && |db.exports| <= k.exportId < |after.exports|)
    decreases |formats|
  {
    if formats != [] {
      var id := |db.exports|;
      var db1 := Enqueue(
        db.(exports := db.exports + [Export(formats[0], run, ExportQueued, 0)]), ExportCommand(id, 1, 1, run)).value;
      InsertExportsKeys(db1, run, formats[1..]);
    }
  }

  lemma StoreValidationKeys(cfg: Config, db: Db, now: int)
    requires |db.runs| == 1 && db.exports == [] && StoreValidation(cfg, db, 0, now).Some?
    ensures var after := StoreValidation(cfg, db, 0, now).value;
            && db.outbox.Keys <= after.outbox.Keys
            && forall k <- after.outbox :: k in db.outbox ||
                 (k.ExportKey? && k.attempt == 1 && k.exportId < |after.exports|)
  {
    hide InsertExports, CloseRun;
    var db1 := CloseRun(cfg, db, 0, now).value;
    InsertExportsKeys(db1, 0, db1.job.formats);
  }

  lemma CompleteValidationGood(cfg: Config, q: Quiet, w: Work, now: int, r: Quiet)
    requires DbOk(cfg, q.run.db) && q.run.db.job.status == Validating && Comparable(cfg, q.run.db.records)
    requires w.ValidationWork? && QuietOk(q) && Ends(q, w, CompleteValidation(cfg, q.run.db, w, now), r)
    ensures CompleteValidation(cfg, q.run.db, w, now).reply == Done && Good(cfg, q, r)
  {
    hide StoreValidation, PagesOk, RecordsOk, ExportsOk, FilesOk, OutboxOk, Numbered, StepOk;
    var db := q.run.db;
    assert Unspent(q) == {} && q.run.live == {w} && w.run == 0 && db.exports == [];
    var after := StoreValidationKeeps(cfg, db, now);
    StoreValidationKeys(cfg, db, now);
    assert r.run.db == after;
    ExportsAreQueued(q, after, r);
  }

  lemma ExportsAreQueued(q: Quiet, after: Db, r: Quiet)
    requires Unspent(q) == {} && q.spent <= q.run.db.outbox.Keys && KeysOk([], q.run.db.outbox)
    requires QueuedExports(after, 0, 0, after.job.formats) && q.run.db.outbox.Keys <= after.outbox.Keys
    requires forall k <- after.outbox :: k in q.run.db.outbox ||
               (k.ExportKey? && k.attempt == 1 && k.exportId < |after.exports|)
    requires r.run.db == after && r.spent == q.spent && r.run.live == {}
    requires Extends(q.run.db.outbox, after.outbox) && FirstCommands(q.run.db.outbox)
    ensures ExportsReady(r) && r.spent <= after.outbox.Keys && FirstCommands(after.outbox)
  {
    assert forall k <- q.run.db.outbox :: k in q.spent || k in Unspent(q);
    forall i: nat | i < |after.exports|
      ensures ExportReady(r, i)
    {
      assert after.exports[i].status == ExportQueued && FirstCommandQueued(after.outbox, i, 0);
      assert ExportKey(i, 1) !in q.run.db.outbox;
    }
  }

  lemma {:induction false} UnfinishedAfterChange(exports: seq<Export>, i: nat, e: Export)
    requires i < |exports|
    ensures CountUnfinished(exports[i := e]) == CountUnfinished(exports)
            + (if e.status != ExportCompleted then 1 else 0) - (if exports[i].status != ExportCompleted then 1 else 0)
  {
    var n := |exports| - 1;
    if i < n {
      assert exports[i := e][..n] == exports[..n][i := e];
      UnfinishedAfterChange(exports[..n], i, e);
    } else {
      assert exports[i := e][..n] == exports[..n];
    }
  }

  lemma ClaimExportShape(db: Db, cmd: Command, now: int, until: int)
    requires ClaimExport(db, cmd, now, until).reply.Claimed?
    ensures var o := ClaimExport(db, cmd, now, until);
            && db.job.status == Exporting == o.db.job.status && cmd.exportId.Some? && cmd.exportId.value < |db.exports|
            && var id := cmd.exportId.value;
               && o.reply.work == ExportWork(cmd, id) && |o.db.exports| == |db.exports|
               && db.exports[id].status == ExportQueued && o.db.exports[id].status == ExportRunning
               && o.db.exports == db.exports[id := o.db.exports[id]] && o.db.outbox == db.outbox
  {
  }

  lemma ClaimExportGood(cfg: Config, q: Quiet, cmd: Command, now: int, until: int, r: Quiet)
    requires QuietOk(q) && Takes(q, cmd, ClaimExport(q.run.db, cmd, now, until), r)
    ensures Good(cfg, q, r)
  {
    hide ClaimExport;
    ClaimExportShape(q.run.db, cmd, now, until);
    var id := cmd.exportId.value;
    UnfinishedAfterChange(q.run.db.exports, id, r.run.db.exports[id]);
    assert Unspent(r) == Unspent(q) - {cmd.key};
    assert ExportReady(q, cmd.key.exportId) && cmd == FirstExportCommand(id);
    forall i: nat | i < |r.run.db.exports|
      ensures ExportReady(r, i)
    {
      assert ExportReady(q, i);
    }
  }

  lemma StoreFileShape(db: Db, id: nat, key: string, now: int)
    requires db.job.status == Exporting && id < |db.exports| && !HasKey(db.files, key)
    ensures var a := StoreFile(db, id, key, now);
            && a.Some? && a.value.outbox == db.outbox
            && a.value.exports == db.exports[id := db.exports[id].(status := ExportCompleted)]
            && (a.value.job.status == Exporting || a.value.job.status == Completed)
  {
  }

  lemma CompleteExportGood(cfg: Config, q: Quiet, w: Work, key: string, now: int, r: Quiet)
    requires DbOk(cfg, q.run.db) && q.run.db.job.status == Exporting && !HasKey(q.run.db.files, key)
    requires w.ExportWork? && QuietOk(q) && Ends(q, w, CompleteExport(q.run.db, w, key, now), r)
    ensures CompleteExport(q.run.db, w, key, now).reply == Done && Good(cfg, q, r)
  {
    hide StoreFile, RowsOk, Numbered, FormatsOk, StepOk;
    var db, id := q.run.db, w.exportId;
    assert w == ExportWorkOf(id) && ExportReady(q, id);
    StoreFileShape(db, id, key, now);
    UnfinishedAfterChange(db.exports, id, r.run.db.exports[id]);
    if r.run.db.job.status == Exporting {
      forall i: nat | i < |r.run.db.exports|
        ensures ExportReady(r, i)
      {
        assert ExportReady(q, i);
      }
    }
  }

  // Commands that are granted again

  /** A command that is granted again hands out the same work: only the lease, the last error and the log move. */
  ghost predicate Redelivered(q: Quiet, r: Quiet) {
    && r.spent == q.spent && r.run.live == q.run.live && r.run.visits == q.run.visits
    && r.run.db == q.run.db.(
         job := q.run.db.job.(lease := r.run.db.job.lease, lastError := r.run.db.job.lastError),
         events := r.run.db.events)
  }

  /** `r` is what a claim leaves whose command had been granted before. */
  ghost predicate TakesAgain(q: Quiet, cmd: Command, o: Outcome, r: Quiet) {
    && cmd.key in q.spent && cmd.key in q.run.db.outbox && q.run.db.outbox[cmd.key] == cmd && KeyFits(cmd)
    && o.reply.Claimed? && r.run.db == o.db && r.run.visits == q.run.visits && r.spent == q.spent
    && r.run.live == Joined(q.run.live, o.reply.work)
  }

  lemma ClaimPlanningAgain(q: Quiet, cmd: Command, now: int, until: int, r: Quiet)
    requires QuietOk(q) && cmd.kind == RunPlanning && TakesAgain(q, cmd, ClaimPlanning(q.run.db, cmd, now, until), r)
    ensures Redelivered(q, r)
  {
    assert cmd.key.PhaseKey? && cmd == PlanningCommand(1);
  }

  lemma PrepareBrowserAgain(q: Quiet, cmd: Command, now: int, r: Quiet)
    requires QuietOk(q) && cmd.kind == RunBrowserCapture && TakesAgain(q, cmd, PrepareBrowser(q.run.db, cmd, now), r)
    ensures Redelivered(q, r)
  {
    assert cmd.key.PhaseKey? && cmd == BrowserCommand(1);
  }

  lemma ClaimValidationAgain(q: Quiet, cmd: Command, now: int, until: int, r: Quiet)
    requires QuietOk(q) && cmd.kind == RunValidation
    requires TakesAgain(q, cmd, ClaimValidation(q.run.db, cmd, now, until), r)
    ensures Redelivered(q, r)
  {
    hide ClaimValidation;
    ClaimValidationChange(q.run.db, cmd, now, until);
    assert cmd.key.ValidationKey? && cmd == ValidationCommand(0);
  }

  lemma ClaimValidationChange(db: Db, cmd: Command, now: int, until: int)
    requires ClaimValidation(db, cmd, now, until).reply.Claimed?
    ensures var o := ClaimValidation(db, cmd, now, until);
            && db.job.status == Validating && cmd.run.Some? && cmd.run.value < |db.runs| && db.plan.Some?
            && o.reply.work == ValidationWork(cmd, cmd.run.value, db.plan.value)
            && o.db == db.(
                 runs := db.runs[cmd.run.value := RunRunning], events := o.db.events,
                 job := db.job.(lease := o.db.job.lease))
  {
  }

  /** A page command is granted once: its page has left the status that the claim asks for. */
  lemma ClaimDiscoveryOnce(q: Quiet, cmd: Command, now: int, until: int)
    requires QuietOk(q) && cmd.key in q.spent && cmd.key in q.run.db.outbox && q.run.db.outbox[cmd.key] == cmd
    requires cmd.kind == RunDiscovery && cmd.page.Some?
    ensures !ClaimDiscovery(q.run.db, cmd, now, until).reply.Claimed?
  {
  }

  lemma ClaimExtractionOnce(q: Quiet, cmd: Command, now: int, until: int)
    requires QuietOk(q) && cmd.key in q.spent && cmd.key in q.run.db.outbox && q.run.db.outbox[cmd.key] == cmd
    requires cmd.kind == RunExtraction && KeyFits(cmd) && cmd.key != ExtractionKey
    ensures !ClaimExtraction(q.run.db, cmd, now, until).reply.Claimed?
  {
    if q.run.db.job.status == Extracting {
      var p := cmd.key.page;
      assert cmd.key.ExtractionPageKey? && cmd.page == Some(p);
      assert p < |q.run.db.pages| && q.run.db.pages[p].extraction != None;
    }
  }

  lemma ClaimExportOnce(q: Quiet, cmd: Command, now: int, until: int)
    requires QuietOk(q) && cmd.key in q.spent && cmd.key in q.run.db.outbox && q.run.db.outbox[cmd.key] == cmd
    requires cmd.kind == RunExport && KeyFits(cmd) && q.run.db.job.status == Exporting
    requires cmd.key.exportId < |q.run.db.exports|
    ensures !ClaimExport(q.run.db, cmd, now, until).reply.Claimed?
  {
    assert ExportReady(q, cmd.key.exportId);
  }

  // Whole runs

  /** Everything that is known of a reachable state of a failure-free run. */
  ghost predicate QuietState(cfg: Config, q: Quiet) {
    && DistinctKeys(cfg) && SystemOk(cfg, System(q.run.db, q.run.live)) && OrderOk(cfg, q.run) && QuietOk(q)
  }

  lemma ClaimFits(cfg: Config, q: Quiet, call: Call)
    requires QuietState(cfg, q) && Legit(System(q.run.db, q.run.live), call) && IsClaim(call)
    ensures KeyFits(call.cmd) && (call.cmd.kind == RunDiscovery ==> call.cmd.page.Some?)
  {
    hide OrderOk, QuietOk, StageOk, PagesOk, RecordsOk, ExportsOk, FilesOk, KeysOk, Numbered, FormatsOk;
    assert CommandOk(q.run.db.pages, q.run.db.outbox[call.cmd.key]);
  }

  lemma GrantedAgain(cfg: Config, q: Quiet, step: Step, r: Quiet)
    requires QuietState(cfg, q) && NextQuiet(cfg, q, step, r) && Granted(step.call, Apply(cfg, q.run.db, step).reply)
    requires step.call.cmd.key in q.spent
    ensures Redelivered(q, r)
  {
    hide ClaimPlanning, CompletePlanning, FailPlanning, PrepareBrowser, CompleteBrowser, FailBrowser, ClaimDiscovery;
    hide CompleteDiscovery, FailDiscovery, ClaimExtraction, CompleteExtraction, FailExtraction, ClaimValidation;
    hide CompleteValidation, FailValidation, ClaimExport, CompleteExport, FailExport, Cancel, Recover;
    hide SystemOk, OrderOk, QuietOk, Redelivered, StepOk, KeyFits;
    ClaimFits(cfg, q, step.call);
    match step.call {
      case ClaimPlanningCall(cmd, until) => ClaimPlanningAgain(q, cmd, step.now, until, r);
      case PrepareBrowserCall(cmd) => PrepareBrowserAgain(q, cmd, step.now, r);
      case ClaimDiscoveryCall(cmd, until) => ClaimDiscoveryOnce(q, cmd, step.now, until);
      case ClaimExtractionCall(cmd, until) => ClaimExtractionOnce(q, cmd, step.now, until);
      case ClaimValidationCall(cmd, until) => ClaimValidationAgain(q, cmd, step.now, until, r);
      case ClaimExportCall(cmd, until) => ExportGrantedOnce(q, cmd, step.now, until);
    }
  }

  lemma ExportGrantedOnce(q: Quiet, cmd: Command, now: int, until: int)
    requires QuietOk(q) && cmd.key in q.spent && cmd.key in q.run.db.outbox && q.run.db.outbox[cmd.key] == cmd
    requires cmd.kind == RunExport && KeyFits(cmd)
    ensures !ClaimExport(q.run.db, cmd, now, until).reply.Claimed?
  {
    hide ClaimExport, QuietOk;
    if ClaimExport(q.run.db, cmd, now, until).reply.Claimed? {
      ClaimExportShape(q.run.db, cmd, now, until);
      ClaimExportOnce(q, cmd, now, until);
    }
  }

  /** Redelivery leaves everything that the stages wait for. */
  lemma RedeliveredIsOk(q: Quiet, r: Quiet)
    requires QuietOk(q) && Redelivered(q, r)
    ensures QuietOk(r)
  {
    assert Unspent(r) == Unspent(q);
    if q.run.db.job.status == Exporting {
      forall i: nat | i < |r.run.db.exports|
        ensures ExportReady(r, i)
      {
        assert ExportReady(q, i);
      }
    }
  }

  lemma ClaimIsGood(cfg: Config, q: Quiet, step: Step, r: Quiet)
    requires QuietState(cfg, q) && NextQuiet(cfg, q, step, r) && Granted(step.call, Apply(cfg, q.run.db, step).reply)
    requires step.call.cmd.key !in q.spent
    ensures Good(cfg, q, r)
  {
    hide ClaimPlanning, CompletePlanning, FailPlanning, PrepareBrowser, CompleteBrowser, FailBrowser, ClaimDiscovery;
    hide CompleteDiscovery, FailDiscovery, ClaimExtraction, CompleteExtraction, FailExtraction, ClaimValidation;
    hide CompleteValidation, FailValidation, ClaimExport, CompleteExport, FailExport, Cancel, Recover;
    hide SystemOk, OrderOk, QuietOk, Good, StepOk, KeyFits;
    ClaimFits(cfg, q, step.call);
    match step.call {
      case ClaimPlanningCall(cmd, until) => ClaimPlanningGood(cfg, q, cmd, step.now, until, r);
      case PrepareBrowserCall(cmd) => PrepareBrowserGood(cfg, q, cmd, step.now, r);
      case ClaimDiscoveryCall(cmd, until) => ClaimDiscoveryGood(cfg, q, cmd, step.now, until, r);
      case ClaimExtractionCall(cmd, until) => ClaimExtractionGood(cfg, q, cmd, step.now, until, r);
      case ClaimValidationCall(cmd, until) => ClaimValidationGood(cfg, q, cmd, step.now, until, r);
      case ClaimExportCall(cmd, until) => ClaimExportGood(cfg, q, cmd, step.now, until, r);
    }
  }

  /** The live work belongs to the current stage. */
  lemma LiveFits(q: Quiet, w: Work)
    requires QuietOk(q) && !Terminal(q.run.db.job.status) && w in q.run.live
    ensures match q.run.db.job.status
            case Planning => w.PlanningWork?
            case BrowserInitializing => w.BrowserWork?
            case Discovering => w.DiscoveryWork?
            case Extracting => w.ExtractionWork?
            case Validating => w.ValidationWork?
            case Exporting => w.ExportWork?
            case _ => false
  {
  }

  lemma CompletionIsGood(cfg: Config, q: Quiet, step: Step, r: Quiet)
    requires QuietState(cfg, q) && NextQuiet(cfg, q, step, r) && OrderOk(cfg, r.run)
    requires !Terminal(q.run.db.job.status) && !IsClaim(step.call)
    ensures Apply(cfg, q.run.db, step).reply == Done && Good(cfg, q, r)
  {
    hide ClaimPlanning, CompletePlanning, FailPlanning, PrepareBrowser, CompleteBrowser, FailBrowser, ClaimDiscovery;
    hide CompleteDiscovery, FailDiscovery, ClaimExtraction, CompleteExtraction, FailExtraction, ClaimValidation;
    hide CompleteValidation, FailValidation, ClaimExport, CompleteExport, FailExport, Cancel, Recover;
    hide RowsOk, Numbered, FormatsOk, OrderOk, QuietOk, Good, StepOk;
    LiveFits(q, step.call.work);
    match step.call {
      case CompletePlanningCall(w, plan) => CompletePlanningGood(cfg, q, w, plan, step.now, r);
      case CompleteBrowserCall(w, url, n) => CompleteBrowserGood(cfg, q, w, url, n, step.now, r);
      case CompleteDiscoveryCall(w, capture) => CompleteDiscoveryGood(cfg, q, w, capture, step.now, r);
      case CompleteExtractionCall(w, extract) => CompleteExtractionGood(cfg, q, w, extract, step.now, r);
      case CompleteValidationCall(w) => CompleteValidationGood(cfg, q, w, step.now, r);
      case CompleteExportCall(w, key) => CompleteExportGood(cfg, q, w, key, step.now, r);
    }
  }

  /**
   * Every step of a failure-free run brings the job strictly closer to its end, except redeliveries: one that is
   * refused changes nothing, and one that is granted hands out the same work again.
   */
  lemma QuietStep(cfg: Config, q: Quiet, step: Step, r: Quiet)
    requires QuietState(cfg, q) && NextQuiet(cfg, q, step, r) && !Terminal(q.run.db.job.status)
    ensures QuietState(cfg, r)
    ensures Redelivered(q, r) || Descends(cfg, q, r)
    ensures IsClaim(step.call) && !Apply(cfg, q.run.db, step).reply.Claimed? ==> r == q
    ensures !IsClaim(step.call) || (Apply(cfg, q.run.db, step).reply.Claimed? && step.call.cmd.key !in q.spent) ==>
              Descends(cfg, q, r)
  {
    hide Apply, SystemOk, OrderOk, QuietOk, Descends, Good, Redelivered;
    StepKeepsOrder(cfg, q.run, step, r.run);
    StepKeeps(cfg, System(q.run.db, q.run.live), step, System(r.run.db, r.run.live));
    if !IsClaim(step.call) {
      CompletionIsGood(cfg, q, step, r);
      IsGood(cfg, q, r);
    } else if !Apply(cfg, q.run.db, step).reply.Claimed? {
      SystemIsOk(cfg, System(q.run.db, q.run.live));
      RefusedClaim(cfg, q.run.db, step);
      assert r.spent == q.spent && r.run == q.run;
      NothingMoves(q);
    } else if step.call.cmd.key !in q.spent {
      ClaimIsGood(cfg, q, step, r);
      IsGood(cfg, q, r);
    } else {
      GrantedAgain(cfg, q, step, r);
      RedeliveredIsOk(q, r);
    }
  }

  lemma IsGood(cfg: Config, q: Quiet, r: Quiet)
    requires Good(cfg, q, r)
    ensures QuietOk(r) && Descends(cfg, q, r)
  {
  }

  lemma NothingMoves(q: Quiet)
    ensures Redelivered(q, q)
  {
  }

  lemma {:induction false} QuietReachable(cfg: Config, trace: seq<Quiet>, steps: seq<Step>, i: nat)
    requires DistinctKeys(cfg) && QuietRun(cfg, trace, steps) && i <= |steps|
    ensures trace[i].run.db.job.status == Completed || QuietState(cfg, trace[i])
    ensures Terminal(trace[i].run.db.job.status) ==> trace[i].run.db.job.status == Completed
  {
    hide Apply, SystemOk, OrderOk, QuietOk, Descends, NextQuiet;
    if i == 0 {
      FirstIsQuiet(cfg, trace[0]);
    } else {
      QuietReachable(cfg, trace, steps, i - 1);
      assert NextQuiet(cfg, trace[i - 1], steps[i - 1], trace[i]);
      if Terminal(trace[i - 1].run.db.job.status) {
        TerminalStays(cfg, trace[i - 1], steps[i - 1], trace[i]);
      } else {
        QuietStep(cfg, trace[i - 1], steps[i - 1], trace[i]);
      }
      QuietEndsCompleted(cfg, trace[i]);
    }
  }

  lemma QuietEndsCompleted(cfg: Config, q: Quiet)
    ensures QuietState(cfg, q) && Terminal(q.run.db.job.status) ==> q.run.db.job.status == Completed
  {
    hide SystemOk, OrderOk, KeysFresh;
  }

  lemma TerminalStays(cfg: Config, q: Quiet, step: Step, r: Quiet)
    requires NextQuiet(cfg, q, step, r) && Terminal(q.run.db.job.status)
    ensures r.run.db.job.status == q.run.db.job.status
  {
    hide Apply;
  }

  lemma FirstIsQuiet(cfg: Config, q: Quiet)
    requires DistinctKeys(cfg) && Initial(System(q.run.db, q.run.live)) && q.run.visits == [] && q.spent == {}
    ensures QuietState(cfg, q)
  {
    InitialIsOk(cfg, System(q.run.db, q.run.live));
    assert Unspent(q) == {PhaseKey(PlanningPhase, 1)};
  }

  /**
   * No lost work. Before the export stage exactly one command is outstanding or exactly one claim is live; in the
   * export stage every unfinished export has exactly one command outstanding or exactly one claim live. A
   * failure-free run neither fails nor is cancelled.
   */
  lemma NoLostWork(cfg: Config, trace: seq<Quiet>, steps: seq<Step>, i: nat)
    requires DistinctKeys(cfg) && QuietRun(cfg, trace, steps) && i <= |steps|
    ensures var q := trace[i];
            var s := q.run.db.job.status;
            && (!Terminal(s) && s != Exporting ==> |Unspent(q)| + |q.run.live| == 1)
            && (s == Exporting ==> forall j: nat :: j < |q.run.db.exports| ==> OneOutstanding(q, j))
            && (s == Validating ==> AllExtracted(q.run.db.pages))
            && s != Failed && s != Cancelled
  {
    hide Apply, SystemOk, OrderOk;
    QuietReachable(cfg, trace, steps, i);
    var q := trace[i];
    if q.run.db.job.status == Exporting {
      forall j: nat | j < |q.run.db.exports|
        ensures OneOutstanding(q, j)
      {
        assert ExportReady(q, j);
      }
    }
  }

  ghost predicate OneOutstanding(q: Quiet, j: nat)
    requires j < |q.run.db.exports|
  {
    q.run.db.exports[j].status != ExportCompleted ==>
      (ExportKey(j, 1) in Unspent(q)) != (ExportWorkOf(j) in q.run.live)
  }

  // Every failure-free run can be completed

  /** The state after `step`. */
  ghost function After(cfg: Config, q: Quiet, step: Step): Quiet {
    var o := Apply(cfg, q.run.db, step);
    Quiet(
      Full(q.run, step.call, o),
      q.spent + if Granted(step.call, o.reply) then {step.call.cmd.key} else {})
  }

  /** A step that is possible now, is a completion or the first grant of a command, and adds no record. */
  ghost predicate Advances(cfg: Config, q: Quiet, step: Step) {
    && NextQuiet(cfg, q, step, After(cfg, q, step))
    && (!IsClaim(step.call) || (Apply(cfg, q.run.db, step).reply.Claimed? && step.call.cmd.key !in q.spent))
    && Apply(cfg, q.run.db, step).db.records == q.run.db.records
  }

  function FreshKey(files: seq<GeneratedFile>): (key: string)
    ensures forall k :: 0 <= k < |files| ==> |files[k].storageKey| < |key|
  {
    if files == [] then "f"
    else
      var n := |files| - 1;
      FreshKey(files[..n]) + files[n].storageKey + "f"
  }

  const ANY_PLAN := Plan(1, 1, 1, true, true)

  /** The end of the work of a live worker. */
  function Completion(w: Work, files: seq<GeneratedFile>): Call {
    match w
    case PlanningWork(_) => CompletePlanningCall(w, ANY_PLAN)
    case BrowserWork(_) => CompleteBrowserCall(w, "", 0)
    case DiscoveryWork(_, _, _) => CompleteDiscoveryCall(w, Capture([], None))
    case ExtractionWork(_, _, _) => CompleteExtractionCall(w, Extract([], 0))
    case ValidationWork(_, _, _) => CompleteValidationCall(w)
    case ExportWork(_, _) => CompleteExportCall(w, FreshKey(files))
  }

  function Claim(cmd: Command): Call {
    match cmd.kind
    case RunPlanning => ClaimPlanningCall(cmd, 0)
    case RunBrowserCapture => PrepareBrowserCall(cmd)
    case RunDiscovery => ClaimDiscoveryCall(cmd, 0)
    case RunExtraction => ClaimExtractionCall(cmd, 0)
    case RunValidation => ClaimValidationCall(cmd, 0)
    case RunExport => ClaimExportCall(cmd, 0)
  }

  /** A live worker can always finish. */
  lemma WorkerAdvances(cfg: Config, q: Quiet, w: Work)
    requires w in q.run.live && Comparable(cfg, q.run.db.records)
    ensures Advances(cfg, q, Step(Completion(w, q.run.db.files), 0))
  {
    hide Apply;
    NoNewRecords(cfg, q.run.db, Step(Completion(w, q.run.db.files), 0));
  }

  /** Only the end of an extraction adds records, and not without any. */
  lemma NoNewRecords(cfg: Config, db: Db, step: Step)
    requires Forward(step.call) && (step.call.CompleteExtractionCall? ==> step.call.extract.records == [])
    ensures Apply(cfg, db, step).db.records == db.records
  {
    hide ClaimPlanning, PrepareBrowser, ClaimDiscovery, ClaimExtraction, ClaimValidation, ClaimExport;
    hide FailPlanning, FailBrowser, FailDiscovery, FailExtraction, FailValidation, FailExport;
    hide Cancel, Recover, Expand, StepOk, LogGrows, AppendMany, Least, MaxSequence, CaptureRows;
    if IsClaim(step.call) { ClaimsKeepRecords(cfg, db, step); }
  }

  lemma ClaimsKeepRecords(cfg: Config, db: Db, step: Step)
    requires IsClaim(step.call)
    ensures Apply(cfg, db, step).db.records == db.records
  {
    hide CompletePlanning, FailPlanning, CompleteBrowser, FailBrowser, CompleteDiscovery, FailDiscovery;
    hide CompleteExtraction, FailExtraction, CompleteValidation, FailValidation, CompleteExport, FailExport;
    hide Cancel, Recover, StepOk, LogGrows, MaxSequence, Least, Moved;
  }

  /** The command that a stage waits for. */
  ghost predicate Awaited(q: Quiet, k: Key) {
    && k in Unspent(q) && !Terminal(q.run.db.job.status) && q.run.db.outbox[k].key == k
    && var cmd := q.run.db.outbox[k];
       match q.run.db.job.status
       case Queued => cmd.kind == RunPlanning
       case BrowserInitializing => cmd.kind == RunBrowserCapture
       case Discovering => NamesDiscovered(q.run.db.pages, cmd)
       case Extracting => NamesUnextracted(q.run.db.pages, cmd)
       case Validating => cmd == ValidationCommand(0) && q.run.db.runs == [RunQueued]
       case Exporting =>
         && cmd.kind == RunExport && cmd.exportId.Some? && cmd.exportId.value < |q.run.db.exports|
         && q.run.db.exports[cmd.exportId.value].status == ExportQueued
       case _ => false
  }

  lemma AwaitedIsGranted(cfg: Config, q: Quiet, k: Key)
    requires DbOk(cfg, q.run.db) && Awaited(q, k)
    ensures Apply(cfg, q.run.db, Step(Claim(q.run.db.outbox[k]), 0)).reply.Claimed?
  {
    hide CompletePlanning, FailPlanning, CompleteBrowser, FailBrowser, CompleteDiscovery, FailDiscovery;
    hide CompleteExtraction, FailExtraction, CompleteValidation, FailValidation, CompleteExport, FailExport;
    hide Cancel, Recover, TablesOk, Numbered, FormatsOk, StepOk;
    assert ExportsOk(q.run.db) by { TableExports(cfg, q.run.db); }
  }

  lemma TableExports(cfg: Config, db: Db)
    requires TablesOk(cfg, db)
    ensures ExportsOk(db)
  {
  }

  lemma FirstCommandsOf(q: Quiet)
    requires QuietOk(q)
    ensures FirstCommands(q.run.db.outbox)
  {
    hide StageReady;
  }

  lemma WaitingIsAwaited(cfg: Config, q: Quiet) returns (k: Key)
    requires SystemOk(cfg, System(q.run.db, q.run.live)) && QuietOk(q)
    requires !Terminal(q.run.db.job.status) && q.run.live == {}
    ensures Awaited(q, k)
  {
    hide WorksOk, Numbered, FormatsOk, PagesOk, RecordsOk, ExportsOk, FilesOk, KeysOk;
    hide JobOk, KeysFresh, Settled, Untouched, AllExtracted, SpentAreClaimed;
    assert FirstCommands(q.run.db.outbox) by { FirstCommandsOf(q); }
    if q.run.db.job.status == Exporting {
      var exports := q.run.db.exports;
      assert exports != [] && !AllExported(exports);
      var i: nat :| i < |exports| && exports[i].status != ExportCompleted;
      assert ExportReady(q, i);
      k := ExportKey(i, 1);
    } else {
      assert exists k :: Waits(q, k);
      k :| Waits(q, k);
      assert k in Unspent(q);
    }
  }

  /**
   * A failure-free run whose records compare is never stuck: until the job ends, some worker can finish or some claim
   * is granted for the first time.
   */
  lemma NeverStuck(cfg: Config, q: Quiet) returns (step: Step)
    requires QuietState(cfg, q) && !Terminal(q.run.db.job.status) && Comparable(cfg, q.run.db.records)
    ensures Advances(cfg, q, step)
  {
    hide Apply, RowsOk, Numbered, FormatsOk, OrderOk, QuietOk, NextQuiet, WorksOk, Comparable;
    if w :| w in q.run.live {
      step := Step(Completion(w, q.run.db.files), 0);
      WorkerAdvances(cfg, q, w);
    } else {
      var k := WaitingIsAwaited(cfg, q);
      step := Step(Claim(q.run.db.outbox[k]), 0);
      AwaitedIsGranted(cfg, q, k);
      AwaitedAdvances(cfg, q, k);
    }
  }

  lemma AwaitedAdvances(cfg: Config, q: Quiet, k: Key)
    requires Awaited(q, k)
    requires Apply(cfg, q.run.db, Step(Claim(q.run.db.outbox[k]), 0)).reply.Claimed?
    ensures Advances(cfg, q, Step(Claim(q.run.db.outbox[k]), 0))
  {
    hide Apply;
    NoNewRecords(cfg, q.run.db, Step(Claim(q.run.db.outbox[k]), 0));
  }

  /** A failure-free run from `q` to the end. */
  ghost predicate QuietPath(cfg: Config, q: Quiet, trace: seq<Quiet>, steps: seq<Step>) {
    && |trace| == |steps| + 1 && trace[0] == q
    && forall i :: 0 <= i < |steps| ==> NextQuiet(cfg, trace[i], steps[i], trace[i + 1])
  }

  /**
   * From every state of a failure-free run whose records compare the job can be brought to COMPLETED without any
   * failure. A record whose values do not compare excludes it (Results.IncomparableNeverExports).
   */
  lemma {:induction false} Completable(cfg: Config, q: Quiet) returns (trace: seq<Quiet>, steps: seq<Step>)
    requires q.run.db.job.status == Completed || (QuietState(cfg, q) && Comparable(cfg, q.run.db.records))
    ensures QuietPath(cfg, q, trace, steps) && trace[|steps|].run.db.job.status == Completed
    decreases Rank(q.run.db.job.status), Left(cfg, q.run), |Unspent(q)|
  {
    hide Apply, QuietState, NextQuiet, After, QuietPath, Advances, Rank, Left, Unspent, Comparable;
    QuietEndsCompleted(cfg, q);
    if Terminal(q.run.db.job.status) {
      trace, steps := [q], [];
      EmptyPath(cfg, q);
    } else {
      var step := NeverStuck(cfg, q);
      var r := AdvanceQuietly(cfg, q, step);
      var rest, more := Completable(cfg, r);
      trace, steps := [q] + rest, [step] + more;
      PathCons(cfg, q, step, r, rest, more);
    }
  }

  lemma AdvanceQuietly(cfg: Config, q: Quiet, step: Step) returns (r: Quiet)
    requires QuietState(cfg, q) && !Terminal(q.run.db.job.status) && Advances(cfg, q, step)
    ensures NextQuiet(cfg, q, step, r) && QuietState(cfg, r) && Descends(cfg, q, r)
    ensures r.run.db.records == q.run.db.records
  {
    hide Apply, QuietState, NextQuiet, Descends;
    r := After(cfg, q, step);
    QuietStep(cfg, q, step, r);
  }

  lemma EmptyPath(cfg: Config, q: Quiet)
    ensures QuietPath(cfg, q, [q], [])
  {
  }

  lemma PathCons(cfg: Config, q: Quiet, step: Step, r: Quiet, rest: seq<Quiet>, more: seq<Step>)
    requires NextQuiet(cfg, q, step, r) && QuietPath(cfg, r, rest, more)
    ensures QuietPath(cfg, q, [q] + rest, [step] + more)
    ensures ([q] + rest)[|[step] + more|] == rest[|more|]
  {
    hide NextQuiet, Apply;
    var trace, steps := [q] + rest, [step] + more;
    forall i | 0 <= i < |steps|
      ensures NextQuiet(cfg, trace[i], steps[i], trace[i + 1])
    {
      if i > 0 { assert NextQuiet(cfg, rest[i - 1], more[i - 1], rest[i]); }
    }
  }

  /** The theorem from the start: every failure-free run so far, if its records compare, can still be completed. */
  lemma EveryQuietRunCanComplete(cfg: Config, trace: seq<Quiet>, steps: seq<Step>)
    returns (rest: seq<Quiet>, more: seq<Step>)
    requires DistinctKeys(cfg) && QuietRun(cfg, trace, steps) && Comparable(cfg, trace[|steps|].run.db.records)
    ensures QuietPath(cfg, trace[|steps|], rest, more) && rest[|more|].run.db.job.status == Completed
  {
    hide Apply, QuietState, NextQuiet;
    QuietReachable(cfg, trace, steps, |steps|);
    rest, more := Completable(cfg, trace[|steps|]);
  }
}
