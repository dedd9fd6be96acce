/** Breadth-first order of the crawl in lease-exclusive runs, with retries, crashes and lease recovery. */
module CrawlOrder {
  import opened Wrappers
  import opened Domain
  import opened Rows
  import opened Lifecycle
  import opened Frontier
  import opened Stages
  import opened Inventory
  import opened Protocol
  import opened Invariants
  import opened Runs
  import opened Growth

  /**
   * A job whose workers stop when they lose the lease: `live` holds the works that may still act, `visits` the
   * depths of the pages visited so far, in order.
   */
  datatype Exclusive = Exclusive(db: Db, live: set<Work>, visits: seq<nat>)

  predicate IsFinish(call: Call) { !IsClaim(call) && !call.CancelCall? && !call.RecoverCall? }

  /** The works of crawl workers. */
  function Crawlers(live: set<Work>): set<Work> { set w <- live | w.DiscoveryWork? }

  /**
   * Who may act after a call: planning is granted only when no lease is running, so it retires the earlier worker;
   * every other claim adds one. An end of work retires its worker, and a recovery those whose lease has expired: in the
   * crawl stage the crawl workers, although a browser worker of the stage before may still be around.
   */
  function LiveAfter(live: set<Work>, call: Call, r: Outcome, changed: bool): set<Work> {
    if IsClaim(call) && r.reply.Claimed? then Joined(live, r.reply.work)
    else if IsFinish(call) && r.reply != Raised then live - {call.work}
    else if call.RecoverCall? && changed then if r.db.job.status == Discovering then live - Crawlers(live) else {}
    else live
  }

  function Joined(live: set<Work>, work: Work): set<Work> { if work.PlanningWork? then {work} else live + {work} }

  function VisitsAfter(visits: seq<nat>, db: Db, call: Call, r: Outcome): seq<nat> {
    if call.CompleteDiscoveryCall? && r.reply == Done && call.work.DiscoveryWork? && call.work.page < |db.pages| then
      visits + [db.pages[call.work.page].depth]
    else visits
  }

  /** The state that a step leaves before any worker crashes. */
  ghost function Full(s: Exclusive, call: Call, r: Outcome): Exclusive {
    Exclusive(r.db, LiveAfter(s.live, call, r, r.db != s.db), VisitsAfter(s.visits, s.db, call, r))
  }

  ghost predicate NextExclusive(cfg: Config, s: Exclusive, step: Step, t: Exclusive) {
    var r := Apply(cfg, s.db, step);
    && Legit(System(s.db, s.live), step.call)
    && t == Full(s, step.call, r).(live := t.live)
    && t.live <= Full(s, step.call, r).live
  }

  ghost predicate ExclusiveRun(cfg: Config, trace: seq<Exclusive>, steps: seq<Step>) {
    && |trace| == |steps| + 1
    && Initial(System(trace[0].db, trace[0].live))
    && trace[0].visits == []
    && forall i :: 0 <= i < |steps| ==> NextExclusive(cfg, trace[i], steps[i], trace[i + 1])
  }

  /** Primary keys are distinct. */
  ghost predicate DistinctKeys(cfg: Config) { forall i: nat, j: nat :: cfg.uuid(i) == cfg.uuid(j) ==> i == j }

  // The frontier

  ghost predicate KeyedBy(cfg: Config, pages: seq<Page>) {
    forall i :: 0 <= i < |pages| ==> pages[i].uuid == cfg.uuid(i)
  }

  /** Page `p` comes strictly before every other DISCOVERED page. */
  ghost predicate First(pages: seq<Page>, p: nat)
    requires p < |pages|
  {
    forall j :: 0 <= j < |pages| && j != p && pages[j].status == PageDiscovered ==>
      Before(pages[p], pages[j], DiscoveredAt)
  }

  ghost predicate NoneQueued(pages: seq<Page>) {
    forall i :: 0 <= i < |pages| ==> pages[i].status != PageQueued
  }

  ghost predicate OneQueued(pages: seq<Page>, q: nat)
    requires q < |pages|
  {
    && pages[q].status == PageQueued
    && First(pages, q)
    && forall i :: 0 <= i < |pages| && i != q ==> pages[i].status != PageQueued
  }

  /** A discovery command names a page that is past the frontier or the first one on it. */
  ghost predicate CommandsFirst(pages: seq<Page>, outbox: map<Key, Command>) {
    forall k <- outbox :: outbox[k].kind == RunDiscovery ==> NamesFirst(pages, outbox[k].page)
  }

  ghost predicate NamesFirst(pages: seq<Page>, page: Option<nat>) {
    page.Some? && page.value < |pages| && (pages[page.value].status == PageDiscovered ==> First(pages, page.value))
  }

  ghost predicate CommandsSpent(pages: seq<Page>, outbox: map<Key, Command>) {
    forall k <- outbox :: outbox[k].kind == RunDiscovery ==> NotDiscovered(pages, outbox[k].page)
  }

  predicate NotDiscovered(pages: seq<Page>, page: Option<nat>) {
    page.Some? && page.value < |pages| && pages[page.value].status != PageDiscovered
  }

  ghost predicate VisitsBelow(visits: seq<nat>, pages: seq<Page>) {
    forall d <- visits, i | 0 <= i < |pages| && IsOpen(pages[i]) :: d <= pages[i].depth
  }

  ghost predicate Sorted(visits: seq<nat>) { forall i, j :: 0 <= i < j < |visits| ==> visits[i] <= visits[j] }

  /** No page is claimed, and every live command names the first page. */
  ghost predicate Idle(s: Exclusive) {
    NoneQueued(s.db.pages) && Crawlers(s.live) == {} && CommandsFirst(s.db.pages, s.db.outbox)
  }

  /** The first page is claimed, every command is spent, and only its worker may act. */
  ghost predicate Busy(s: Exclusive, q: nat) {
    && q < |s.db.pages| && OneQueued(s.db.pages, q)
    && ClaimedBy(Crawlers(s.live), q)
    && CommandsSpent(s.db.pages, s.db.outbox)
  }

  ghost predicate FrontierOk(s: Exclusive) {
    VisitsBelow(s.visits, s.db.pages) && (Idle(s) || exists q: nat :: Busy(s, q))
  }

  ghost predicate ClaimedBy(live: set<Work>, q: nat) {
    Single(live) && forall w <- live :: w.DiscoveryWork? && w.page == q && w.cmd.page == Some(q)
  }

  ghost predicate Single(live: set<Work>) { forall v <- live, w <- live :: v == w }

  predicate BeforeDiscovery(s: JobStatus) { s == Queued || s == Planning || s == BrowserInitializing }

  predicate Matches(w: Work, s: JobStatus) {
    match s
    case Planning => w.PlanningWork?
    case BrowserInitializing => w.BrowserWork?
    case Discovering => w.DiscoveryWork?
    case _ => false
  }

  function CountVisited(pages: seq<Page>): nat {
    if pages == [] then 0
    else
      var n := |pages| - 1;
      CountVisited(pages[..n]) + if pages[n].status == PageVisited then 1 else 0
  }

  /** The pages completed so far fit the crawl budget. */
  predicate VisitsCapped(cfg: Config, plan: Option<Plan>, visits: seq<nat>) {
    |visits| <= if plan.Some? then CrawlCap(cfg, plan.value) else 0
  }

  ghost predicate OrderOk(cfg: Config, s: Exclusive) {
    && Sorted(s.visits)
    && VisitsCapped(cfg, s.db.plan, s.visits)
    && (BeforeDiscovery(s.db.job.status) ==> s.visits == [])
    && (BeforeDiscovery(s.db.job.status) ==>
          (forall v <- s.live :: Matches(v, s.db.job.status)) && (s.db.job.status == Planning ==> Single(s.live)))
    && (s.db.job.status == Discovering ==>
          FrontierOk(s) && KeyedBy(cfg, s.db.pages) && |s.visits| == CountVisited(s.db.pages))
  }

  lemma {:induction false} CountAfterChange(pages: seq<Page>, i: nat, p: Page)
    requires i < |pages| && pages[i].status != PageVisited
    ensures CountVisited(pages[i := p]) == CountVisited(pages) + if p.status == PageVisited then 1 else 0
  {
    var n := |pages| - 1;
    if i < n {
      assert pages[i := p][..n] == pages[..n][i := p];
      CountAfterChange(pages[..n], i, p);
    } else {
      assert pages[i := p][..n] == pages[..n];
    }
  }

  lemma {:induction false} AppendedAreUnvisited(cfg: Config, pages: seq<Page>, from: nat, depth: nat)
    requires from <= |pages| && Appended(cfg, pages, from, depth)
    ensures CountVisited(pages) == CountVisited(pages[..from])
    decreases |pages|
  {
    var n := |pages| - 1;
    if from <= n {
      AppendedAreUnvisited(cfg, pages[..n], from, depth);
      assert pages[..n][..from] == pages[..from];
    } else {
      assert pages[..from] == pages;
    }
  }

  lemma {:induction false} VisitedAreCrawled(pages: seq<Page>)
    ensures CountVisited(pages) <= CountCrawl(pages)
  {
    if pages != [] { VisitedAreCrawled(pages[..|pages| - 1]); }
  }

  // The four discovery steps

  /** With distinct keys the least row of a query is strictly first. */
  lemma LeastIsFirst(cfg: Config, pages: seq<Page>, eligible: Page -> bool, p: nat)
    requires DistinctKeys(cfg) && KeyedBy(cfg, pages)
    requires Least(pages, eligible, DiscoveredAt) == Some(p)
    ensures p < |pages| && eligible(pages[p])
    ensures forall j :: 0 <= j < |pages| && j != p && eligible(pages[j]) ==> Before(pages[p], pages[j], DiscoveredAt)
  {
    forall j | 0 <= j < |pages| && j != p && eligible(pages[j])
      ensures Before(pages[p], pages[j], DiscoveredAt)
    {
      assert cfg.uuid(p) != cfg.uuid(j);
    }
  }

  lemma ClaimFrontier(db: Db, key: Key, p: nat)
    requires key in db.outbox && db.outbox[key].kind == RunDiscovery && db.outbox[key].page == Some(p)
    requires p < |db.pages| && db.pages[p].status == PageDiscovered
    requires CommandsFirst(db.pages, db.outbox) && NoneQueued(db.pages)
    ensures var pages := SetPageStatus(db, p, PageQueued).pages;
            OneQueued(pages, p) && CommandsSpent(pages, db.outbox)
  {
    assert NamesFirst(db.pages, Some(p));
    var pages := SetPageStatus(db, p, PageQueued).pages;
    forall k <- db.outbox | db.outbox[k].kind == RunDiscovery
      ensures NotDiscovered(pages, db.outbox[k].page)
    {
      assert NamesFirst(db.pages, db.outbox[k].page);
    }
  }

  /** Crashes only shrink the set of live works, and in the crawl stage only the crawl workers matter. */
  lemma CrashKeepsOrder(cfg: Config, s: Exclusive, live: set<Work>)
    requires OrderOk(cfg, s)
    requires live <= s.live || (s.db.job.status == Discovering && Crawlers(live) <= Crawlers(s.live))
    ensures OrderOk(cfg, s.(live := live))
  {
    assert live <= s.live ==> Crawlers(live) <= Crawlers(s.live);
    if s.db.job.status == Discovering && !Idle(s) {
      var q: nat :| Busy(s, q);
      assert Busy(s.(live := live), q);
    }
  }

  lemma ClaimKeepsOrder(cfg: Config, s: Exclusive, cmd: Command, now: int, until: int)
    requires DbOk(cfg, s.db) && OrderOk(cfg, s) && s.db.job.status == Discovering
    requires Delivered(s.db, cmd, RunDiscovery)
    ensures var r := ClaimDiscovery(s.db, cmd, now, until);
            OrderOk(cfg, Exclusive(r.db, if r.reply.Claimed? then {r.reply.work} else s.live, s.visits))
    ensures ClaimDiscovery(s.db, cmd, now, until).reply.Claimed? ==> Crawlers(s.live) == {}
  {
    hide TablesOk, OrderOk;
    var r := ClaimDiscovery(s.db, cmd, now, until);
    var page := DiscoveryPage(s.db.pages, cmd.page);
    if page.Some? {
      assert CommandOk(s.db.pages, cmd) by { CommandsAreOk(cfg, s.db, cmd.key); }
      ClaimFirst(cfg, s, cmd, page.value, r.db, r.reply.work);
    } else {
      assert r.db == s.db;
    }
  }

  lemma ClaimFirst(cfg: Config, s: Exclusive, cmd: Command, p: nat, after: Db, work: Work)
    requires p < |s.db.pages| && IsDiscovered(s.db.pages[p]) && cmd.page == Some(p)
    requires after == SetPageStatus(s.db, p, PageQueued).(job := after.job, events := after.events)
    requires OrderOk(cfg, s) && s.db.job.status == Discovering && Delivered(s.db, cmd, RunDiscovery)
    requires after.job.status == Discovering && work.DiscoveryWork? && work.cmd == cmd && work.page == p
    ensures OrderOk(cfg, Exclusive(after, {work}, s.visits)) && Crawlers(s.live) == {}
  {
    assert Crawlers({work}) == {work};
    assert NamesFirst(s.db.pages, Some(p)) && Idle(s) by {
      assert s.db.outbox[cmd.key].page == Some(p);
    }
    ClaimFrontier(s.db, cmd.key, p);
    CountAfterChange(s.db.pages, p, after.pages[p]);
    assert Busy(Exclusive(after, {work}, s.visits), p);
  }

  lemma CommandsAreOk(cfg: Config, db: Db, key: Key)
    requires DbOk(cfg, db) && key in db.outbox
    ensures CommandOk(db.pages, db.outbox[key])
  {
  }

  // Completion

  /** What visiting page `q` does to the inventory. */
  ghost predicate Expanded(cfg: Config, pages: seq<Page>, after: seq<Page>, q: nat) {
    && q < |pages| <= |after|
    && (forall i :: 0 <= i < |pages| && i != q ==> after[i] == pages[i])
    && after[q] == pages[q].(status := PageVisited, visitedAt := after[q].visitedAt)
    && Appended(cfg, after, |pages|, pages[q].depth + 1)
  }

  lemma ExpandShape(cfg: Config, db: Db, plan: Plan, q: nat, capture: Capture, now: int)
    requires q < |db.pages| && InCrawl(db.pages[q])
    requires InventoryOk(cfg, db.pages, db.job.pagesDiscovered, CrawlCap(cfg, plan))
    ensures Expanded(cfg, db.pages, Expand(cfg, db, plan, q, capture, now).pages, q)
  {
    hide Expand, InventoryOk, Appended;
    ExpandKeeps(cfg, db, plan, q, capture, now);
    var after := Expand(cfg, db, plan, q, capture, now).pages;
    var visited := Visit(db, q, now).pages;
    forall i | 0 <= i < |db.pages|
      ensures after[i] == visited[i]
    {
    }
  }

  /** After the first page is visited no page is claimed and no old command can claim one. */
  lemma ExpandedFrontier(cfg: Config, s: Exclusive, after: seq<Page>, q: nat)
    requires Busy(s, q) && KeyedBy(cfg, s.db.pages) && Expanded(cfg, s.db.pages, after, q)
    ensures NoneQueued(after) && KeyedBy(cfg, after) && CommandsSpent(after, s.db.outbox)
  {
    var pages := s.db.pages;
    forall i | 0 <= i < |after|
      ensures after[i].status != PageQueued && after[i].uuid == cfg.uuid(i)
    {
      if i < |pages| && i != q { assert after[i] == pages[i]; }
    }
    forall k <- s.db.outbox | s.db.outbox[k].kind == RunDiscovery
      ensures NotDiscovered(after, s.db.outbox[k].page)
    {
      assert NotDiscovered(pages, s.db.outbox[k].page);
    }
  }

  /** The depth of the visited page extends the sorted history, and every open page lies at it or below. */
  lemma ExpandedDepths(cfg: Config, s: Exclusive, after: seq<Page>, q: nat)
    requires Busy(s, q) && VisitsBelow(s.visits, s.db.pages) && Sorted(s.visits)
    requires Expanded(cfg, s.db.pages, after, q)
    ensures var visits := s.visits + [s.db.pages[q].depth];
            Sorted(visits) && VisitsBelow(visits, after)
  {
    var pages := s.db.pages;
    var depth := pages[q].depth;
    assert IsOpen(pages[q]);
    forall i | 0 <= i < |after| && IsOpen(after[i])
      ensures depth <= after[i].depth
    {
      if i < |pages| { assert after[i] == pages[i]; }
    }
    forall d <- s.visits + [depth], i | 0 <= i < |after| && IsOpen(after[i])
      ensures d <= after[i].depth
    {
      if d in s.visits { assert d <= depth; }
    }
    forall i | 0 <= i < |s.visits|
      ensures s.visits[i] <= depth
    {
      assert s.visits[i] in s.visits;
    }
  }

  /** Visiting the claimed page counts one more visited page, within the budget. */
  lemma ExpandedCount(cfg: Config, s: Exclusive, plan: Plan, after: Db, q: nat)
    requires Busy(s, q) && Expanded(cfg, s.db.pages, after.pages, q)
    requires InventoryOk(cfg, after.pages, after.job.pagesDiscovered, CrawlCap(cfg, plan))
    ensures CountVisited(after.pages) == CountVisited(s.db.pages) + 1 <= CrawlCap(cfg, plan)
  {
    var pages := s.db.pages;
    CountAfterChange(pages, q, after.pages[q]);
    AppendedAreUnvisited(cfg, after.pages, |pages|, pages[q].depth + 1);
    assert after.pages[..|pages|] == pages[q := after.pages[q]];
    VisitedAreCrawled(after.pages);
  }

  /** Queueing the next page names the first one. */
  lemma AdvanceKeepsOrder(cfg: Config, db: Db, visits: seq<nat>, now: int)
    requires DistinctKeys(cfg) && KeyedBy(cfg, db.pages) && db.job.status == Discovering
    requires NoneQueued(db.pages) && CommandsSpent(db.pages, db.outbox)
    requires Sorted(visits) && VisitsBelow(visits, db.pages)
    requires VisitsCapped(cfg, db.plan, visits) && |visits| == CountVisited(db.pages)
    ensures var r := Advance(db, now); r.Some? ==> OrderOk(cfg, Exclusive(r.value, {}, visits))
  {
    var next := Least(db.pages, IsDiscovered, DiscoveredAt);
    var r := Advance(db, now);
    if r.Some? && next.Some? {
      LeastIsFirst(cfg, db.pages, IsDiscovered, next.value);
      assert First(db.pages, next.value);
      forall k <- r.value.outbox | r.value.outbox[k].kind == RunDiscovery
        ensures NamesFirst(db.pages, r.value.outbox[k].page)
      {
        if k in db.outbox && r.value.outbox[k] == db.outbox[k] {
          assert NotDiscovered(db.pages, db.outbox[k].page);
        }
      }
      assert Crawlers({}) == {};
      assert Idle(Exclusive(r.value, {}, visits));
    }
  }

  /** A crawl worker is the only one, and works on the claimed page. */
  lemma WorkerIsBusy(cfg: Config, s: Exclusive, w: Work)
    requires OrderOk(cfg, s) && s.db.job.status == Discovering && w in s.live && w.DiscoveryWork?
    ensures Busy(s, w.page) && w.cmd.page == Some(w.page) && Crawlers(s.live - {w}) == {}
  {
    hide OneQueued, CommandsSpent, CommandsFirst, NoneQueued, VisitsBelow, Sorted, VisitsCapped, KeyedBy, CountVisited;
    assert w in Crawlers(s.live);
    var q: nat :| Busy(s, q);
    assert q == w.page;
  }

  lemma HistoryOf(cfg: Config, s: Exclusive)
    requires OrderOk(cfg, s) && s.db.job.status == Discovering
    ensures VisitsBelow(s.visits, s.db.pages) && Sorted(s.visits) && KeyedBy(cfg, s.db.pages)
    ensures |s.visits| == CountVisited(s.db.pages) && VisitsCapped(cfg, s.db.plan, s.visits)
  {
  }

  lemma VisitKeeps(cfg: Config, db: Db, w: Work, capture: Capture, now: int)
    requires DbOk(cfg, db) && w.DiscoveryWork? && WorkOk(db.pages, db.plan, w)
    ensures var after := Expand(cfg, db, w.plan, w.page, capture, now);
            && Expanded(cfg, db.pages, after.pages, w.page)
            && InventoryOk(cfg, after.pages, after.job.pagesDiscovered, CrawlCap(cfg, w.plan))
  {
    hide Expand, InventoryOk, Expanded, Numbered, FormatsOk;
    ExpandShape(cfg, db, w.plan, w.page, capture, now);
    ExpandKeeps(cfg, db, w.plan, w.page, capture, now);
  }

  lemma CompleteKeepsOrder(cfg: Config, s: Exclusive, w: Work, capture: Capture, now: int)
    requires DistinctKeys(cfg) && DbOk(cfg, s.db) && OrderOk(cfg, s) && s.db.job.status == Discovering
    requires w in s.live && w.DiscoveryWork? && s.db.plan == Some(w.plan) && WorkOk(s.db.pages, s.db.plan, w)
    ensures Busy(s, w.page) && Crawlers(s.live - {w}) == {}
    ensures var r := CompleteDiscovery(cfg, s.db, w, capture, now);
            if r.reply == Done then OrderOk(cfg, Exclusive(r.db, {}, s.visits + [s.db.pages[w.page].depth]))
            else r.db == s.db
  {
    hide Crawlers, ClaimedBy, Single, Advance, StepOk, Numbered, FormatsOk, OrderOk, Busy;
    WorkerIsBusy(cfg, s, w);
    HistoryOf(cfg, s);
    var q := w.page;
    var db1 := Expand(cfg, s.db, w.plan, q, capture, now);
    VisitKeeps(cfg, s.db, w, capture, now);
    hide RowsOk, Expand, Expanded;
    ExpandedFrontier(cfg, s, db1.pages, q);
    ExpandedDepths(cfg, s, db1.pages, q);
    ExpandedCount(cfg, s, w.plan, db1, q);
    AdvanceKeepsOrder(cfg, Release(db1), s.visits + [s.db.pages[q].depth], now);
  }

  lemma CompletionKeepsOrder(cfg: Config, s: Exclusive, w: Work, capture: Capture, now: int)
    requires DistinctKeys(cfg) && DbOk(cfg, s.db) && OrderOk(cfg, s) && s.db.job.status == Discovering
    requires w in s.live && w.DiscoveryWork? && s.db.plan == Some(w.plan) && WorkOk(s.db.pages, s.db.plan, w)
    ensures var r := CompleteDiscovery(cfg, s.db, w, capture, now);
            var call := CompleteDiscoveryCall(w, capture);
            OrderOk(cfg, Full(s, call, r))
  {
    hide CompleteDiscovery, OrderOk;
    CompleteKeepsOrder(cfg, s, w, capture, now);
    var r := CompleteDiscovery(cfg, s.db, w, capture, now);
    var t := Full(s, CompleteDiscoveryCall(w, capture), r);
    if r.reply != Done {
      CrashKeepsOrder(cfg, s, t.live);
    } else {
      NoCrawlers(cfg, t);
    }
  }

  /** Who else is around does not matter to a frontier that nobody works on. */
  lemma NoCrawlers(cfg: Config, t: Exclusive)
    requires OrderOk(cfg, t.(live := {})) && Crawlers(t.live) == {} && !BeforeDiscovery(t.db.job.status)
    ensures OrderOk(cfg, t)
  {
    assert Crawlers({}) == {};
    if t.db.job.status == Discovering {
      CrashKeepsOrder(cfg, t.(live := {}), t.live);
      assert t.(live := {}).(live := t.live) == t;
    }
  }

  // Failure and recovery

  /** Putting the claimed page back makes it the first page again. */
  lemma ReopenKeepsOrder(cfg: Config, s: Exclusive, q: nat, t: Exclusive)
    requires OrderOk(cfg, s) && s.db.job.status == Discovering && Busy(s, q)
    requires t.db.job.status == Discovering && t.visits == s.visits && Crawlers(t.live) == {}
    requires t.db.plan == s.db.plan
    requires t.db.pages == s.db.pages[q := s.db.pages[q].(status := PageDiscovered)]
    requires forall k <- t.db.outbox :: t.db.outbox[k].kind == RunDiscovery ==>
               (k in s.db.outbox && t.db.outbox[k] == s.db.outbox[k]) || t.db.outbox[k].page == Some(q)
    ensures OrderOk(cfg, t)
  {
    var pages := t.db.pages;
    assert IsOpen(s.db.pages[q]);
    assert First(pages, q);
    CountAfterChange(s.db.pages, q, pages[q]);
    forall k <- t.db.outbox | t.db.outbox[k].kind == RunDiscovery
      ensures NamesFirst(pages, t.db.outbox[k].page)
    {
      if k in s.db.outbox && t.db.outbox[k] == s.db.outbox[k] {
        assert NotDiscovered(s.db.pages, s.db.outbox[k].page);
      }
    }
    assert Idle(t);
  }

  lemma FailKeepsOrder(cfg: Config, s: Exclusive, w: Work, error: Failure, budget: nat, now: int)
    requires DbOk(cfg, s.db) && OrderOk(cfg, s) && s.db.job.status == Discovering
    requires w in s.live && w.DiscoveryWork?
    ensures var r := FailDiscovery(s.db, w.cmd, error, budget, now);
            OrderOk(cfg, Exclusive(r.db, s.live - {w}, s.visits))
  {
    hide Crawlers, ClaimedBy, Single, StepOk, RowsOk, Numbered, FormatsOk, FailDiscovery;
    WorkerIsBusy(cfg, s, w);
    FailDiscoveryShape(s.db, w.cmd, error, budget, now);
    var q := w.page;
    var r := FailDiscovery(s.db, w.cmd, error, budget, now);
    if r.reply.RetryAt? {
      ReopenKeepsOrder(cfg, s, q, Exclusive(r.db, s.live - {w}, s.visits));
    }
  }

  /**
   * Recovery of a claimed page puts back exactly that page, with a command for it; with no page claimed it queues
   * the first page once more.
   */
  lemma RecoverRepicks(cfg: Config, s: Exclusive, q: nat, db: Db)
    requires DistinctKeys(cfg) && KeyedBy(cfg, s.db.pages) && Busy(s, q) && db.pages == s.db.pages
    ensures Least(db.pages, IsOpen, DiscoveredAt) == Some(q)
    ensures RecoverDiscovery(s.db, db).reply == Recovered ==>
              var after := RecoverDiscovery(s.db, db).db;
              && after.pages == s.db.pages[q := s.db.pages[q].(status := PageDiscovered)]
              && var key := PhaseKey(DiscoveryPhase, db.job.attempt);
                 key in after.outbox && after.outbox[key].page == Some(q)
  {
    assert IsOpen(s.db.pages[q]);
    var p := Least(db.pages, IsOpen, DiscoveredAt).value;
    LeastIsFirst(cfg, db.pages, IsOpen, p);
  }

  lemma RecoverKeepsOrder(cfg: Config, s: Exclusive, pick: nat, now: int)
    requires DistinctKeys(cfg) && OrderOk(cfg, s) && s.db.job.status == Discovering
    ensures var r := Recover(s.db, pick, now);
            OrderOk(cfg, Full(s, RecoverCall(pick), r))
  {
    var r := Recover(s.db, pick, now);
    var db1 := CountAttempt(Release(s.db));
    if r.db.job.status == Discovering && r.db != s.db {
      var t := Full(s, RecoverCall(pick), r);
      assert Crawlers(t.live) == {};
      if Idle(s) {
        RecoverIdle(cfg, s, db1);
        NoCrawlers(cfg, t);
      } else {
        var q: nat :| Busy(s, q);
        RecoverRepicks(cfg, s, q, db1);
        ReopenKeepsOrder(cfg, s, q, t);
      }
    }
  }

  lemma RecoverIdle(cfg: Config, s: Exclusive, db: Db)
    requires DistinctKeys(cfg) && OrderOk(cfg, s) && s.db.job.status == Discovering && Idle(s)
    requires db.pages == s.db.pages && db.outbox == s.db.outbox && db.plan == s.db.plan && db.job.status == Discovering
    ensures OrderOk(cfg, Exclusive(RecoverDiscovery(s.db, db).db, {}, s.visits))
  {
    var p := Least(db.pages, IsOpen, DiscoveredAt);
    var after := RecoverDiscovery(s.db, db).db;
    if p.Some? {
      LeastIsFirst(cfg, db.pages, IsOpen, p.value);
      assert db.pages[p.value := db.pages[p.value].(status := PageDiscovered)] == db.pages;
      assert First(db.pages, p.value);
    }
    assert Crawlers({}) == {};
    assert Idle(Exclusive(after, {}, s.visits));
  }

  // The other steps

  /** In the discovery stage every other call either leaves the stage or changes nothing. */
  predicate LeavesOrKeeps(db: Db, r: Outcome) {
    (r.db == db && !r.reply.Claimed?) || Terminal(r.db.job.status)
  }

  lemma EarlyCallsInDiscovery(cfg: Config, db: Db, step: Step)
    requires JobOk(db.job) && db.job.status == Discovering && !step.call.FailBrowserCall?
    requires PlanningOrBrowser(step.call) || step.call.CancelCall?
    ensures LeavesOrKeeps(db, Apply(cfg, db, step))
  {
    hide ClaimDiscovery, CompleteDiscovery, FailDiscovery, ClaimExtraction, CompleteExtraction, FailExtraction;
    hide ClaimValidation, CompleteValidation, FailValidation, ClaimExport, CompleteExport, FailExport;
    hide Recover, StorePlan, StoreCapture;
  }

  predicate LaterStage(call: Call) { ExtractOrValidate(call) || ExportCall(call) }

  lemma LaterCallsInDiscovery(cfg: Config, db: Db, step: Step)
    requires JobOk(db.job) && db.job.status == Discovering && db.exports == [] && LaterStage(step.call)
    ensures LeavesOrKeeps(db, Apply(cfg, db, step))
  {
    hide ClaimPlanning, CompletePlanning, FailPlanning, PrepareBrowser, CompleteBrowser, FailBrowser;
    hide ClaimDiscovery, CompleteDiscovery, FailDiscovery, Cancel, Recover;
  }

  /** Before discovery: a claim fits its stage, and a stage is left by the end of its one live work. */
  ghost predicate EarlyStep(cfg: Config, db: Db, call: Call, r: Outcome) {
    && (IsClaim(call) && r.reply.Claimed? ==>
          && Matches(r.reply.work, r.db.job.status) && r.db.job.status != Discovering
          && (r.db.job.status == db.job.status || db.job.status == Queued))
    && (call.CompleteDiscoveryCall? ==> r.reply != Done)
    && (r.db.job.status != db.job.status && !Terminal(r.db.job.status) ==>
          (IsClaim(call) && r.reply.Claimed?) || (PlanningOrBrowser(call) && IsFinish(call) && r.reply == Done))
    && (r.db.job.status == Discovering ==> SourceFrontier(cfg, r.db))
  }

  ghost predicate SourceFrontier(cfg: Config, after: Db) {
    && |after.pages| == 1 && after.pages[0].status == PageDiscovered && after.pages[0].uuid == cfg.uuid(0)
    && forall k <- after.outbox :: after.outbox[k].kind == RunDiscovery ==> after.outbox[k].page == Some(0)
  }

  /** The only way into the discovery stage: one source page, and one command for it. */
  lemma CaptureIsEarly(cfg: Config, db: Db, w: Work, url: Url, n: nat, now: int)
    requires DbOk(cfg, db) && BeforeDiscovery(db.job.status)
    ensures EarlyStep(cfg, db, CompleteBrowserCall(w, url, n), CompleteBrowser(cfg, db, url, n, now))
  {
    hide PagesOk, RecordsOk, ExportsOk, FilesOk, KeysOk, Numbered, FormatsOk, AppendMany, LogGrows, StepOk;
    hide StoreCapture;
    assert forall k <- db.outbox :: CommandOk(db.pages, db.outbox[k]);
    var r := CompleteBrowser(cfg, db, url, n, now);
    if r.db.job.status == Discovering {
      assert CaptureShape(cfg, db, r.db, url, now) && SourceInventory(cfg, [], url, now).1 == 0;
    }
  }

  lemma PlanningIsEarly(cfg: Config, db: Db, step: Step)
    requires DbOk(cfg, db) && BeforeDiscovery(db.job.status) && !step.call.CompleteBrowserCall?
    requires PlanningOrBrowser(step.call) || step.call.CancelCall? || step.call.RecoverCall?
    ensures EarlyStep(cfg, db, step.call, Apply(cfg, db, step))
  {
    hide ClaimDiscovery, CompleteDiscovery, FailDiscovery, ClaimExtraction, CompleteExtraction, FailExtraction;
    hide ClaimValidation, CompleteValidation, FailValidation, ClaimExport, CompleteExport, FailExport;
    hide RecoverDiscovery, RecoverExport, StepOk, LogGrows, MaxSequence;
    hide PagesOk, RecordsOk, ExportsOk, FilesOk, KeysOk, Numbered, FormatsOk;
  }

  lemma OthersAreEarly(cfg: Config, db: Db, step: Step)
    requires DbOk(cfg, db) && BeforeDiscovery(db.job.status)
    requires LaterStage(step.call) || step.call.ClaimDiscoveryCall? || step.call.CompleteDiscoveryCall?
             || step.call.FailDiscoveryCall?
    ensures EarlyStep(cfg, db, step.call, Apply(cfg, db, step))
  {
    hide ClaimPlanning, CompletePlanning, FailPlanning, PrepareBrowser, CompleteBrowser, FailBrowser;
    hide Cancel, Recover, StorePage, StoreValidation, StoreFile, Explore;
    hide PagesOk, RecordsOk, ExportsOk, FilesOk, KeysOk, Numbered, FormatsOk;
  }

  /** Before the crawl only workers of the current stage act, and no crawl worker is left when it begins. */
  ghost predicate StageWorkers(live: set<Work>, s: JobStatus) {
    (forall v <- live :: Matches(v, s)) && (s == Planning ==> Single(live))
  }

  lemma EarlyWorkers(s: Exclusive, call: Call, r: Outcome, live: set<Work>)
    requires BeforeDiscovery(s.db.job.status) && StageWorkers(s.live, s.db.job.status)
    requires Legit(System(s.db, s.live), call) && live <= LiveAfter(s.live, call, r, r.db != s.db)
    requires IsClaim(call) && r.reply.Claimed? ==>
               && Matches(r.reply.work, r.db.job.status) && r.db.job.status != Discovering
               && (r.db.job.status == s.db.job.status || s.db.job.status == Queued)
    requires r.db.job.status == s.db.job.status || Allowed(s.db.job.status, r.db.job.status)
    requires r.db.job.status != s.db.job.status && !Terminal(r.db.job.status) ==>
               (IsClaim(call) && r.reply.Claimed?) || (PlanningOrBrowser(call) && IsFinish(call) && r.reply == Done)
    ensures BeforeDiscovery(r.db.job.status) ==> StageWorkers(live, r.db.job.status)
    ensures r.db.job.status == Discovering ==> Crawlers(live) == {}
  {
  }

  lemma EarlyShape(cfg: Config, s: Exclusive, call: Call, r: Outcome, t: Exclusive)
    requires OrderOk(cfg, s) && BeforeDiscovery(s.db.job.status) && Legit(System(s.db, s.live), call)
    requires EarlyStep(cfg, s.db, call, r) && JobStep(s.db.job, r.db.job)
    requires t.db == r.db && t.live <= LiveAfter(s.live, call, r, r.db != s.db)
    requires t.visits == VisitsAfter(s.visits, s.db, call, r)
    ensures OrderOk(cfg, t)
  {
    hide Crawlers, LiveAfter, Legit, StageWorkers, CommandsFirst, Numbered;
    assert StageWorkers(s.live, s.db.job.status) by { StageWorkersOf(cfg, s); }
    EarlyWorkers(s, call, r, t.live);
    if t.db.job.status == Discovering {
      SourceIsIdle(cfg, t);
    } else if BeforeDiscovery(t.db.job.status) {
      StageWorkersHold(t.live, t.db.job.status);
    }
  }

  lemma StageWorkersOf(cfg: Config, s: Exclusive)
    requires OrderOk(cfg, s) && BeforeDiscovery(s.db.job.status)
    ensures StageWorkers(s.live, s.db.job.status)
  {
  }

  lemma StageWorkersHold(live: set<Work>, s: JobStatus)
    requires StageWorkers(live, s)
    ensures (forall v <- live :: Matches(v, s)) && (s == Planning ==> Single(live))
  {
  }

  lemma SourceIsIdle(cfg: Config, t: Exclusive)
    requires SourceFrontier(cfg, t.db) && Crawlers(t.live) == {} && t.visits == []
    ensures FrontierOk(t) && KeyedBy(cfg, t.db.pages) && CountVisited(t.db.pages) == 0
  {
    hide Crawlers;
    assert t.db.pages[..0] == [];
    assert Idle(t);
  }

  lemma EarlyKeepsOrder(cfg: Config, s: Exclusive, step: Step, t: Exclusive)
    requires DbOk(cfg, s.db) && OrderOk(cfg, s) && NextExclusive(cfg, s, step, t)
    requires BeforeDiscovery(s.db.job.status)
    ensures OrderOk(cfg, t)
  {
    hide ClaimPlanning, CompletePlanning, FailPlanning, PrepareBrowser, CompleteBrowser, FailBrowser;
    hide ClaimDiscovery, CompleteDiscovery, FailDiscovery, ClaimExtraction, CompleteExtraction, FailExtraction;
    hide ClaimValidation, CompleteValidation, FailValidation, ClaimExport, CompleteExport, FailExport;
    hide Cancel, Recover;
    hide OrderOk, EarlyStep, RowsOk, Numbered, FormatsOk;
    if step.call.CompleteBrowserCall? {
      CaptureIsEarly(cfg, s.db, step.call.work, step.call.finalUrl, step.call.lifecycleEvents, step.now);
    } else if PlanningOrBrowser(step.call) || step.call.CancelCall? || step.call.RecoverCall? {
      PlanningIsEarly(cfg, s.db, step);
    } else {
      OthersAreEarly(cfg, s.db, step);
    }
    EarlyShape(cfg, s, step.call, Apply(cfg, s.db, step), t);
  }

  /** The plan is written once, so the budget of the visits made so far does not move. */
  lemma CappedStays(cfg: Config, before: Db, after: Db, budget: nat, visits: seq<nat>)
    requires StepOk(before, after, budget) && VisitsCapped(cfg, before.plan, visits)
    ensures VisitsCapped(cfg, after.plan, visits)
  {
  }

  /** A browser worker of the stage before may still report: its report touches the job row and the log only. */
  lemma LateBrowserFailure(cfg: Config, db: Db, step: Step)
    requires db.job.status == Discovering && step.call.FailBrowserCall?
    ensures SameFrontier(db, Apply(cfg, db, step).db) && !Apply(cfg, db, step).reply.Claimed?
  {
    hide ClaimPlanning, CompletePlanning, FailPlanning, PrepareBrowser, CompleteBrowser;
    hide ClaimDiscovery, CompleteDiscovery, FailDiscovery, ClaimExtraction, CompleteExtraction, FailExtraction;
    hide ClaimValidation, CompleteValidation, FailValidation, ClaimExport, CompleteExport, FailExport;
    hide Cancel, Recover, StepOk, LogGrows, MaxSequence;
  }

  lemma SameFrontierKeeps(cfg: Config, s: Exclusive, t: Exclusive)
    requires OrderOk(cfg, s) && s.db.job.status == Discovering && SameFrontier(s.db, t.db)
    requires t.live <= s.live && t.visits == s.visits
    ensures OrderOk(cfg, t)
  {
    hide Crawlers, ClaimedBy, OneQueued, CommandsSpent, CommandsFirst, NoneQueued, VisitsBelow, Sorted, VisitsCapped;
    hide KeyedBy, CountVisited;
    CrashKeepsOrder(cfg, s, t.live);
    var u := s.(live := t.live);
    if !Idle(u) {
      var q: nat :| Busy(u, q);
      assert Busy(t, q);
    }
  }

  predicate SameFrontier(before: Db, after: Db) {
    && after.job.status == before.job.status && after.pages == before.pages
    && after.outbox == before.outbox && after.plan == before.plan
  }

  lemma OthersKeepOrder(cfg: Config, s: Exclusive, step: Step, r: Outcome)
    requires DbOk(cfg, s.db) && OrderOk(cfg, s) && s.db.job.status == Discovering
    requires Legit(System(s.db, s.live), step.call) && r == Apply(cfg, s.db, step)
    requires PlanningOrBrowser(step.call) || step.call.CancelCall? || LaterStage(step.call)
    ensures OrderOk(cfg, Full(s, step.call, r))
  {
    hide Apply, TablesOk, Numbered, FormatsOk, StepOk, VisitsCapped;
    CappedStays(cfg, s.db, r.db, Budget(cfg, s.db.job, step.call), s.visits);
    if LaterStage(step.call) {
      LaterCallsInDiscovery(cfg, s.db, step);
    } else if !step.call.FailBrowserCall? {
      EarlyCallsInDiscovery(cfg, s.db, step);
    } else {
      LateBrowserFailure(cfg, s.db, step);
    }
    var t := Full(s, step.call, r);
    if t.db.job.status == Discovering {
      assert t.live <= s.live && SameFrontier(s.db, t.db);
      SameFrontierKeeps(cfg, s, t);
    }
  }

  lemma OwnCallsKeepOrder(cfg: Config, s: Exclusive, step: Step, r: Outcome)
    requires DistinctKeys(cfg) && SystemOk(cfg, System(s.db, s.live)) && OrderOk(cfg, s)
    requires s.db.job.status == Discovering && Legit(System(s.db, s.live), step.call)
    requires !(PlanningOrBrowser(step.call) || step.call.CancelCall? || LaterStage(step.call))
    requires r == Apply(cfg, s.db, step)
    ensures OrderOk(cfg, Full(s, step.call, r))
  {
    hide ClaimPlanning, CompletePlanning, FailPlanning, PrepareBrowser, CompleteBrowser, FailBrowser;
    hide ClaimDiscovery, CompleteDiscovery, FailDiscovery, ClaimExtraction, CompleteExtraction, FailExtraction;
    hide ClaimValidation, CompleteValidation, FailValidation, ClaimExport, CompleteExport, FailExport;
    hide Cancel, Recover;
    hide OrderOk, RowsOk, Numbered, FormatsOk, StepOk;
    match step.call
    case ClaimDiscoveryCall(cmd, until) =>
      ClaimKeepsOrder(cfg, s, cmd, step.now, until);
      ClaimsDiscovery(s.db, cmd, step.now, until);
      if r.reply.Claimed? {
        var t := Full(s, step.call, r);
        assert Crawlers(t.live) == Crawlers({r.reply.work});
        CrashKeepsOrder(cfg, t.(live := {r.reply.work}), t.live);
        assert t.(live := {r.reply.work}).(live := t.live) == t;
      }
    case CompleteDiscoveryCall(w, capture) => CompletionKeepsOrder(cfg, s, w, capture, step.now);
    case FailDiscoveryCall(w, e) =>
      FailKeepsOrder(cfg, s, w, e, cfg.plannerMaxRetries, step.now);
      FailureReplies(s.db, w.cmd, e, cfg.plannerMaxRetries, step.now);
    case RecoverCall(pick) => RecoverKeepsOrder(cfg, s, pick, step.now);
  }

  lemma ClaimsDiscovery(db: Db, cmd: Command, now: int, until: int)
    ensures var r := ClaimDiscovery(db, cmd, now, until);
            r.reply.Claimed? ==> r.reply.work.DiscoveryWork? && r.db.job.status == Discovering
  {
  }

  lemma FailureReplies(db: Db, cmd: Command, error: Failure, budget: nat, now: int)
    requires db.job.status == Discovering
    ensures FailDiscovery(db, cmd, error, budget, now).reply != Raised
  {
  }

  lemma DiscoveryKeepsOrder(cfg: Config, s: Exclusive, step: Step, t: Exclusive)
    requires DistinctKeys(cfg) && SystemOk(cfg, System(s.db, s.live)) && OrderOk(cfg, s)
    requires NextExclusive(cfg, s, step, t) && s.db.job.status == Discovering
    ensures OrderOk(cfg, t)
  {
    hide Apply, OrderOk, SystemOk, StepOk;
    var r := Apply(cfg, s.db, step);
    if PlanningOrBrowser(step.call) || step.call.CancelCall? || LaterStage(step.call) {
      assert DbOk(cfg, s.db) by { SystemIsOk(cfg, System(s.db, s.live)); }
      OthersKeepOrder(cfg, s, step, r);
    } else {
      OwnCallsKeepOrder(cfg, s, step, r);
    }
    CrashKeepsOrder(cfg, Full(s, step.call, r), t.live);
  }

  lemma SystemIsOk(cfg: Config, s: System)
    requires SystemOk(cfg, s)
    ensures DbOk(cfg, s.db)
  {
  }

  /** After discovery the history is final. */
  lemma HistoryIsFinal(cfg: Config, db: Db, step: Step)
    requires db.job.status != Discovering && step.call.CompleteDiscoveryCall?
    ensures Apply(cfg, db, step).reply != Done
  {
    hide ClaimPlanning, CompletePlanning, FailPlanning, PrepareBrowser, CompleteBrowser, FailBrowser;
    hide ClaimDiscovery, FailDiscovery, Explore, ClaimExtraction, CompleteExtraction, FailExtraction;
    hide ClaimValidation, CompleteValidation, FailValidation, ClaimExport, CompleteExport, FailExport;
    hide Cancel, Recover;
  }

  lemma StepKeepsOrder(cfg: Config, s: Exclusive, step: Step, t: Exclusive)
    requires DistinctKeys(cfg) && SystemOk(cfg, System(s.db, s.live)) && OrderOk(cfg, s)
    requires NextExclusive(cfg, s, step, t)
    ensures OrderOk(cfg, t)
  {
    hide Apply, RowsOk, Numbered, FormatsOk;
    if BeforeDiscovery(s.db.job.status) {
      EarlyKeepsOrder(cfg, s, step, t);
    } else if s.db.job.status == Discovering {
      DiscoveryKeepsOrder(cfg, s, step, t);
    } else {
      if step.call.CompleteDiscoveryCall? { HistoryIsFinal(cfg, s.db, step); }
      assert JobStep(s.db.job, t.db.job);
    }
  }

  // Theorems over lease-exclusive runs

  lemma InitialIsOrdered(cfg: Config, s: Exclusive)
    requires Initial(System(s.db, s.live)) && s.visits == []
    ensures OrderOk(cfg, s)
  {
  }

  lemma {:induction false} ExclusiveReachable(cfg: Config, trace: seq<Exclusive>, steps: seq<Step>, i: nat)
    requires DistinctKeys(cfg) && ExclusiveRun(cfg, trace, steps) && i <= |steps|
    ensures SystemOk(cfg, System(trace[i].db, trace[i].live)) && OrderOk(cfg, trace[i])
  {
    hide Apply, SystemOk, OrderOk, Initial;
    if i == 0 {
      InitialIsOk(cfg, System(trace[0].db, trace[0].live));
      InitialIsOrdered(cfg, trace[0]);
    } else {
      ExclusiveReachable(cfg, trace, steps, i - 1);
      StepKeepsOrder(cfg, trace[i - 1], steps[i - 1], trace[i]);
      StepKeeps(
        cfg, System(trace[i - 1].db, trace[i - 1].live), steps[i - 1], System(trace[i].db, trace[i].live));
    }
  }

  /** Pages are visited in non-decreasing depth. */
  lemma BreadthFirst(cfg: Config, trace: seq<Exclusive>, steps: seq<Step>, i: nat)
    requires DistinctKeys(cfg) && ExclusiveRun(cfg, trace, steps) && i <= |steps|
    ensures Sorted(trace[i].visits)
  {
    hide Apply;
    ExclusiveReachable(cfg, trace, steps, i);
  }

  /** Step `i` completes the visit of a page. */
  ghost predicate Visits(cfg: Config, trace: seq<Exclusive>, steps: seq<Step>, i: nat)
    requires i < |steps| && i < |trace|
  {
    steps[i].call.CompleteDiscoveryCall? && Apply(cfg, trace[i].db, steps[i]).reply == Done
  }

  lemma VisitingStep(cfg: Config, trace: seq<Exclusive>, steps: seq<Step>, i: nat)
    requires DistinctKeys(cfg) && ExclusiveRun(cfg, trace, steps) && i < |steps| && Visits(cfg, trace, steps, i)
    ensures SystemOk(cfg, System(trace[i].db, trace[i].live)) && OrderOk(cfg, trace[i])
    ensures var w := steps[i].call.work;
            && w in trace[i].live && w.DiscoveryWork? && trace[i].db.job.status == Discovering
            && Busy(trace[i], w.page) && trace[i].db.plan == Some(w.plan)
            && trace[i + 1].db == CompleteDiscovery(cfg, trace[i].db, w, steps[i].call.capture, steps[i].now).db
            && trace[i + 1].visits == trace[i].visits + [trace[i].db.pages[w.page].depth]
  {
    hide CompleteDiscovery, RowsOk, Numbered, FormatsOk, StepOk;
    ExclusiveReachable(cfg, trace, steps, i);
    if trace[i].db.job.status != Discovering {
      HistoryIsFinal(cfg, trace[i].db, steps[i]);
    } else {
      assert NextExclusive(cfg, trace[i], steps[i], trace[i + 1]);
      assert Legit(System(trace[i].db, trace[i].live), steps[i].call);
      CompleteKeepsOrder(cfg, trace[i], steps[i].call.work, steps[i].call.capture, steps[i].now);
    }
  }

  /** When a page of depth k is visited it was the claimed one, and every accepted page above depth k is VISITED. */
  lemma ShallowerFirst(cfg: Config, trace: seq<Exclusive>, steps: seq<Step>, i: nat)
    requires DistinctKeys(cfg) && ExclusiveRun(cfg, trace, steps) && i < |steps| && Visits(cfg, trace, steps, i)
    ensures var pages, q := trace[i].db.pages, steps[i].call.work.page;
            && q < |pages| && pages[q].status == PageQueued
            && forall j :: 0 <= j < |pages| && Accepted(pages[j]) && pages[j].depth < pages[q].depth ==>
                 pages[j].status == PageVisited
  {
    hide Apply, CompleteDiscovery;
    VisitingStep(cfg, trace, steps, i);
  }

  /** The states of the database along a lease-exclusive run. */
  function CrawlStates(trace: seq<Exclusive>): (dbs: seq<Db>)
    ensures |dbs| == |trace| && forall i :: 0 <= i < |trace| ==> dbs[i] == trace[i].db
  {
    seq(|trace|, i requires 0 <= i < |trace| => trace[i].db)
  }

  lemma ExclusiveIsCalls(cfg: Config, trace: seq<Exclusive>, steps: seq<Step>)
    requires ExclusiveRun(cfg, trace, steps)
    ensures CallRun(cfg, CrawlStates(trace), steps)
  {
    hide Apply;
    var dbs := CrawlStates(trace);
    forall i | 0 <= i < |steps|
      ensures dbs[i + 1] == Apply(cfg, dbs[i], steps[i]).db
    {
      assert NextExclusive(cfg, trace[i], steps[i], trace[i + 1]);
    }
  }

  /**
   * An expired lease of the discovery stage, within the budget, never clashes: the recovery key is new, and exactly the
   * page that was QUEUED is put back, with a command for it. A clash of another job in the same tick still rolls this
   * back (RecoveryTick.TickCommits).
   */
  lemma RecoveryRepicks(cfg: Config, trace: seq<Exclusive>, steps: seq<Step>, i: nat, q: nat)
    requires DistinctKeys(cfg) && ExclusiveRun(cfg, trace, steps) && i < |steps|
    requires steps[i].call.RecoverCall? && trace[i].db.job.status == Discovering
    requires trace[i].db.job.lease.Some? && trace[i].db.job.lease.value < steps[i].now
    requires trace[i].db.job.attempt < trace[i].db.job.maxAttempts
    requires q < |trace[i].db.pages| && trace[i].db.pages[q].status == PageQueued
    ensures Apply(cfg, trace[i].db, steps[i]).reply == Recovered
    ensures var before, after := trace[i].db, trace[i + 1].db;
            && after.pages == before.pages[q := before.pages[q].(status := PageDiscovered)]
            && exists k :: k in after.outbox && k !in before.outbox && after.outbox[k].page == Some(q)
  {
    hide RecoverDiscovery, Least, Numbered, FormatsOk, StepOk, RowsOk;
    ExclusiveReachable(cfg, trace, steps, i);
    var db := trace[i].db;
    var db1 := CountAttempt(Release(db));
    assert Busy(trace[i], q);
    ExclusiveIsCalls(cfg, trace, steps);
    KeysAreCounted(cfg, CrawlStates(trace), steps, i);
    assert PhaseKey(DiscoveryPhase, db.job.attempt + 1) !in db.outbox by { NextAttemptIsNew(db); }
    OpenIsRecovered(db, db1, q);
    assert trace[i + 1].db == RecoverDiscovery(db, db1).db;
    RecoverRepicks(cfg, trace[i], q, db1);
  }

  lemma NextAttemptIsNew(db: Db)
    requires KeysCounted(db)
    ensures PhaseKey(DiscoveryPhase, db.job.attempt + 1) !in db.outbox
  {
  }

  lemma OpenIsRecovered(before: Db, db: Db, q: nat)
    requires q < |db.pages| && IsOpen(db.pages[q]) && PhaseKey(DiscoveryPhase, db.job.attempt) !in db.outbox
    ensures RecoverDiscovery(before, db).reply == Recovered
    ensures PhaseKey(DiscoveryPhase, db.job.attempt) in RecoverDiscovery(before, db).db.outbox
  {
  }

  /**
   * The measure of the discovery stage: min(discovery_max_pages, plan max_pages) minus the VISITED pages is never
   * negative, falls by one with every completed visit and moves with nothing else.
   */
  lemma CrawlMeasure(cfg: Config, trace: seq<Exclusive>, steps: seq<Step>, i: nat)
    requires DistinctKeys(cfg) && ExclusiveRun(cfg, trace, steps) && i < |steps|
    ensures trace[i].db.job.status == Discovering ==>
              trace[i].db.plan.Some? && |trace[i].visits| == CountVisited(trace[i].db.pages)
    ensures var s, t := trace[i], trace[i + 1];
            && (t.db.plan.Some? ==> |t.visits| <= CrawlCap(cfg, t.db.plan.value))
            && |t.visits| == |s.visits| + if Visits(cfg, trace, steps, i) then 1 else 0
  {
    hide Apply, CompleteDiscovery, TablesOk, Numbered, FormatsOk;
    ExclusiveReachable(cfg, trace, steps, i);
    ExclusiveReachable(cfg, trace, steps, i + 1);
    if Visits(cfg, trace, steps, i) { VisitingStep(cfg, trace, steps, i); }
  }

  /** What a completed visit leaves when no page is left: every accepted page is VISITED. */
  lemma AdvanceEnds(cfg: Config, s: Exclusive, w: Work, capture: Capture, now: int)
    requires w.DiscoveryWork? && s.db.plan == Some(w.plan) && s.db.job.status == Discovering
    requires Busy(s, w.page) && DbOk(cfg, s.db) && OrderOk(cfg, s)
    ensures var after := CompleteDiscovery(cfg, s.db, w, capture, now).db;
            after.job.status == Extracting ==>
              forall j :: 0 <= j < |after.pages| && Accepted(after.pages[j]) ==> after.pages[j].status == PageVisited
  {
    hide Expand, StepOk, RowsOk, Numbered, FormatsOk;
    var db1 := Expand(cfg, s.db, w.plan, w.page, capture, now);
    assert Expanded(cfg, s.db.pages, db1.pages, w.page) by { ExpandsFrontier(cfg, s.db, w.plan, w.page, capture, now); }
    ExpandedFrontier(cfg, s, db1.pages, w.page);
  }

  lemma ExpandsFrontier(cfg: Config, db: Db, plan: Plan, q: nat, capture: Capture, now: int)
    requires DbOk(cfg, db) && db.plan == Some(plan) && q < |db.pages| && InCrawl(db.pages[q])
    ensures Expanded(cfg, db.pages, Expand(cfg, db, plan, q, capture, now).pages, q)
  {
    hide Expand;
    ExpandShape(cfg, db, plan, q, capture, now);
  }

  /** The job leaves the discovery stage for extraction exactly when every accepted page is VISITED. */
  lemma CrawlIsComplete(cfg: Config, trace: seq<Exclusive>, steps: seq<Step>, i: nat)
    requires DistinctKeys(cfg) && ExclusiveRun(cfg, trace, steps) && i < |steps|
    requires trace[i].db.job.status == Discovering && trace[i + 1].db.job.status == Extracting
    ensures Visits(cfg, trace, steps, i)
    ensures var pages := trace[i + 1].db.pages;
            forall j :: 0 <= j < |pages| && Accepted(pages[j]) ==> pages[j].status == PageVisited
  {
    hide Apply, CompleteDiscovery, RowsOk, Numbered, FormatsOk, StepOk;
    ExclusiveReachable(cfg, trace, steps, i);
    OnlyVisitsLeave(cfg, trace[i].db, steps[i]);
    VisitingStep(cfg, trace, steps, i);
    AdvanceEnds(cfg, trace[i], steps[i].call.work, steps[i].call.capture, steps[i].now);
  }

  lemma OnlyVisitsLeave(cfg: Config, db: Db, step: Step)
    requires DbOk(cfg, db) && db.job.status == Discovering
    requires Apply(cfg, db, step).db.job.status == Extracting
    ensures step.call.CompleteDiscoveryCall? && Apply(cfg, db, step).reply == Done
  {
    hide ClaimPlanning, CompletePlanning, FailPlanning, PrepareBrowser, CompleteBrowser, FailBrowser;
    hide Explore, ClaimExtraction, CompleteExtraction, FailExtraction;
    hide ClaimValidation, CompleteValidation, FailValidation, ClaimExport, CompleteExport, FailExport;
    hide Cancel, TablesOk, StepOk;
    if step.call.FailBrowserCall? {
      assert Apply(cfg, db, step) ==
             FailBrowser(db, step.call.work.cmd, step.call.error, step.call.cancelled, step.now);
      BrowserFailureStays(db, step);
    } else if LaterStage(step.call) {
      LaterCallsInDiscovery(cfg, db, step);
    } else if PlanningOrBrowser(step.call) || step.call.CancelCall? {
      EarlyCallsInDiscovery(cfg, db, step);
    }
  }

  lemma BrowserFailureStays(db: Db, step: Step)
    requires step.call.FailBrowserCall?
    ensures var after := FailBrowser(db, step.call.work.cmd, step.call.error, step.call.cancelled, step.now).db;
            after.job.status == db.job.status || Terminal(after.job.status)
  {
  }
}
