/** The crawl frontier kept as inventory rows: claim, complete and fail one discovery page (services.py). */
module Frontier {
  import opened Wrappers
  import opened Domain
  import opened Rows
  import opened Lifecycle
  import opened Discovery

  /** What the browser brought back: the page's links and, for a sitemap page, its parsed locations. */
  datatype Capture = Capture(links: seq<Link>, locations: Option<seq<Link>>)

  function ClaimDiscovery(db: Db, cmd: Command, now: int, until: int): (r: Outcome)
    ensures StepOk(db, r.db, 0)
  {
    if db.job.status == Cancelled || db.job.status == Failed then Outcome(db, Nothing)
    else if db.job.status != Discovering then Outcome(db, Raised)
    else if db.job.cancelRequested then Acknowledge(db, now)
    else
      match DiscoveryPage(db.pages, cmd.page)
      case None => Outcome(db, Nothing)
      case Some(i) =>
        if db.plan.None? then Outcome(db, Raised)
        else
          Outcome(
            Append(Lease(SetPageStatus(db, i, PageQueued), until), OnPageQueued(i)),
            Claimed(DiscoveryWork(cmd, i, db.plan.value)))
  }

  /** The DISCOVERED page a command may claim: the requested one, or the least one. */
  function DiscoveryPage(pages: seq<Page>, requested: Option<nat>): (r: Option<nat>)
    ensures r.Some? ==> r.value < |pages| && IsDiscovered(pages[r.value])
  {
    if requested.None? then Least(pages, IsDiscovered, DiscoveredAt)
    else if requested.value < |pages| && IsDiscovered(pages[requested.value]) then requested
    else None
  }

  /** Pages that are neither REJECTED nor DUPLICATE, as the budget query counts them. */
  function CountAccepted(pages: seq<Page>): nat {
    if pages == [] then 0
    else
      var n := |pages| - 1;
      CountAccepted(pages[..n]) + if pages[n].status in {PageRejected, PageDuplicate} then 0 else 1
  }

  function CrawlCap(cfg: Config, plan: Plan): int { Min(cfg.discoveryMaxPages, plan.maxPages) }

  /** One new inventory row, with its event and counter. */
  function AddPage(cfg: Config, db: Db, parent: nat, c: Candidate, status: PageStatus, now: int): Db {
    var page := Page(c.url, status, c.depth, Some(parent), now, cfg.uuid(|db.pages|), c.via, None, None);
    var db1 := db.(
      pages := db.pages + [page],
      job := if status == PageDiscovered then db.job.(pagesDiscovered := db.job.pagesDiscovered + 1) else db.job);
    Append(db1, if status == PageDiscovered then OnPageDiscovered(c.url, c.depth) else OnPageRejected)
  }

  function StatusFor(rejected: bool, accepted: nat, cap: int): PageStatus {
    if rejected then PageRejected else if accepted >= cap then PageSkipped else PageDiscovered
  }

  /** The loop of _persist_discovery_candidates; `accepted` is its running count. */
  function PersistFrom(
    cfg: Config, db: Db, plan: Plan, parent: nat, candidates: seq<Candidate>, rejected: bool, accepted: nat, now: int):
    (r: Db)
    ensures LogGrows(db, r) && db.pages <= r.pages
    ensures r == db.(events := r.events, pages := r.pages, job := db.job.(pagesDiscovered := r.job.pagesDiscovered))
    decreases |candidates|
  {
    if candidates == [] then db
    else
      var c := candidates[0];
      if FindUrl(db.pages, c.url).Some? then
        PersistFrom(cfg, Append(db, OnPageDuplicate), plan, parent, candidates[1..], rejected, accepted, now)
      else
        var status := StatusFor(rejected, accepted, CrawlCap(cfg, plan));
        PersistFrom(cfg, AddPage(cfg, db, parent, c, status, now), plan, parent, candidates[1..], rejected,
          if status == PageDiscovered then accepted + 1 else accepted, now)
  }

  function Persist(
    cfg: Config, db: Db, plan: Plan, parent: nat, candidates: seq<Candidate>, rejected: bool, now: int): Db
  {
    PersistFrom(cfg, db, plan, parent, candidates, rejected, CountAccepted(db.pages), now)
  }

  function SeenUrls(pages: seq<Page>): set<Url> { set p | p in pages :: p.url }

  /** The decision of a page: its links, then the sitemap locations of a sitemap page. */
  function Decide(cfg: Config, plan: Plan, page: Page, capture: Capture, seen: set<Url>): Decision {
    var d := FromSignals(cfg, plan, page.depth, capture.links, seen);
    if page.via == FromSitemap && capture.locations.Some? then
      var s := SitemapCandidates(cfg, page.depth, capture.locations.value, seen);
      Decision(d.candidates + s.candidates, d.rejected + s.rejected, d.duplicates + s.duplicates)
    else d
  }

  /** The candidate of the configured sitemap probe, if the page triggers it. */
  function Probe(cfg: Config, page: Page, seen: set<Url>): seq<Candidate> {
    if cfg.enableSitemaps && page.depth == 0 && cfg.sitemapUrl.Some? && cfg.sitemapUrl.value !in seen then
      [Candidate(cfg.sitemapUrl.value, FromSitemap, 1)]
    else []
  }

  function Visit(db: Db, i: nat, now: int): Db
    requires i < |db.pages|
  {
    var page := db.pages[i].(status := PageVisited, visitedAt := Some(now));
    var db1 := db.(
      pages := db.pages[i := page], job := db.job.(pagesProcessed := db.job.pagesProcessed + 1));
    Append(db1, OnPageVisited(i, page.depth))
  }

  /** Visit the page and persist everything it discovered. */
  function Expand(cfg: Config, db: Db, plan: Plan, i: nat, capture: Capture, now: int): (r: Db)
    requires i < |db.pages|
    ensures LogGrows(db, r)
    ensures r == db.(pages := r.pages, events := r.events, job := r.job)
    ensures r.job == db.job.(pagesDiscovered := r.job.pagesDiscovered, pagesProcessed := r.job.pagesProcessed)
  {
    var db1 := Visit(db, i, now);
    var seen := SeenUrls(db1.pages);
    var page := db1.pages[i];
    var d := Decide(cfg, plan, page, capture, seen);
    var db2 := Persist(cfg, db1, plan, i, d.candidates, false, now);
    var db3 := Persist(cfg, db2, plan, i, d.rejected, true, now);
    var db4 := if d.duplicates > 0 then Append(db3, OnPageDuplicate) else db3;
    Persist(cfg, db4, plan, i, Probe(cfg, page, seen), false, now)
  }

  function ExtractionCommand(key: Key, page: Option<nat>): Command {
    Command(RunExtraction, key, 1, page, None, None)
  }

  /** Queue the next frontier page, or leave the stage when there is none. */
  function Advance(db: Db, now: int): (r: Option<Db>)
    ensures r.Some? ==> LogGrows(db, r.value)
    ensures r.Some? && JobOk(db.job) ==> JobStep(db.job, r.value.job)
    ensures r.Some? ==> r.value.job.attempt == db.job.attempt
    ensures r.Some? ==> r.value == db.(job := r.value.job, events := r.value.events, outbox := r.value.outbox)
  {
    match Least(db.pages, IsDiscovered, DiscoveredAt)
    case Some(next) => Enqueue(db, DiscoveryCommand(DiscoveryPageKey(next), 1, next))
    case None =>
      var db1 := Append(RaiseProgress(db, 40), OnDiscoveryCompleted);
      var db2 :- Transition(db1, Discovering, Extracting, now);
      Enqueue(db2, ExtractionCommand(ExtractionKey, None))
  }

  function Explore(cfg: Config, db: Db, work: Work, capture: Capture, now: int): (r: Option<Db>)
    requires work.DiscoveryWork? && work.page < |db.pages|
    ensures r.Some? ==> LogGrows(db, r.value)
    ensures r.Some? && JobOk(db.job) ==> JobStep(db.job, r.value.job)
    ensures r.Some? ==> r.value.plan == db.plan && r.value.files == db.files && r.value.job.attempt == db.job.attempt
  {
    Advance(Release(Expand(cfg, db, work.plan, work.page, capture, now)), now)
  }

  function CompleteDiscovery(cfg: Config, db: Db, work: Work, capture: Capture, now: int): (r: Outcome)
    requires work.DiscoveryWork?
    ensures StepOk(db, r.db, 0)
  {
    hide Explore, Append;
    if db.job.status == Cancelled || db.job.status == Failed then Outcome(db, Nothing)
    else if db.job.status != Discovering then Outcome(db, Raised)
    else if db.job.cancelRequested then Acknowledge(db, now)
    else if work.page >= |db.pages| then Outcome(db, Raised)
    else Commit(db, Explore(cfg, db, work, capture, now), Done)
  }

  /** Set the status of a page that a command may or may not name. */
  function MarkPage(db: Db, page: Option<nat>, status: PageStatus): Db {
    if page.Some? && page.value < |db.pages| then SetPageStatus(db, page.value, status) else db
  }

  function FailDiscovery(db: Db, cmd: Command, error: Failure, budget: nat, now: int): (r: Outcome)
    ensures StepOk(db, r.db, budget)
    ensures r.reply.RetryAt? <==> r.db.job.attempt > db.job.attempt && r.db.job.status != Failed
  {
    if db.job.status != Discovering then Outcome(db, Nothing)
    else if db.job.cancelRequested then Acknowledge(MarkPage(db, cmd.page, PageSkipped), now)
    else
      RetryOrFail(
        db, RecordFailure(MarkPage(db, cmd.page, PageDiscovered), error),
        RecordFailure(MarkPage(db, cmd.page, PageFailed), error),
        error, budget, OnDiscoveryRetry, Some(OnDiscoveryFailed), now)
  }
}
