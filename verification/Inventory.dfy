/** What the page inventory keeps: the crawl budget, the parent tree, the depth bound, the scope and unique URLs. */
module Inventory {
  import opened Wrappers
  import opened Rows
  import opened Lifecycle
  import opened Discovery
  import opened Frontier

  /** Pages that are or were part of the crawl. */
  predicate InCrawl(p: Page) {
    p.status == PageDiscovered || p.status == PageQueued || p.status == PageVisited || p.status == PageFailed
  }

  /** Pages that count against the crawl budget while the job is live. */
  predicate Accepted(p: Page) {
    p.status == PageDiscovered || p.status == PageQueued || p.status == PageVisited
  }

  function CountCrawl(pages: seq<Page>): nat {
    if pages == [] then 0
    else
      var n := |pages| - 1;
      CountCrawl(pages[..n]) + if InCrawl(pages[n]) then 1 else 0
  }

  ghost predicate UrlsUnique(pages: seq<Page>) {
    forall i, j :: 0 <= i < j < |pages| ==> pages[i].url != pages[j].url
  }

  /** Parents come first and lie one level above. */
  predicate TreeNode(pages: seq<Page>, i: nat)
    requires i < |pages|
  {
    match pages[i].parent
    case None => i == 0 && pages[i].depth == 0
    case Some(q) => q < i && pages[i].depth == pages[q].depth + 1
  }

  /** The parent links form a tree below the source page. */
  ghost predicate IsTree(pages: seq<Page>) {
    forall i: nat {:trigger TreeNode(pages, i)} :: i < |pages| ==> TreeNode(pages, i)
  }

  predicate Admissible(cfg: Config, url: Url, depth: nat) {
    depth <= Max(1, cfg.discoveryMaxDepth) && (cfg.inScope(url) || cfg.sitemapUrl == Some(url))
  }

  /** Every crawled page below the source is within the depth bound, and in scope or the sitemap probe. */
  ghost predicate CrawlAdmissible(cfg: Config, pages: seq<Page>) {
    forall i :: 0 <= i < |pages| && InCrawl(pages[i]) && pages[i].parent.Some? ==>
      Admissible(cfg, pages[i].url, pages[i].depth)
  }

  ghost predicate InventoryOk(cfg: Config, pages: seq<Page>, discovered: nat, cap: int) {
    && UrlsUnique(pages)
    && IsTree(pages)
    && CrawlAdmissible(cfg, pages)
    && CountCrawl(pages) == discovered <= cap
  }

  lemma {:induction false} CrawlIsAccepted(pages: seq<Page>)
    ensures CountCrawl(pages) <= CountAccepted(pages)
  {
    if pages != [] { CrawlIsAccepted(pages[..|pages| - 1]); }
  }

  lemma {:induction false} CountAfterUpdate(pages: seq<Page>, i: nat, p: Page)
    requires i < |pages| && InCrawl(p) == InCrawl(pages[i])
    ensures CountCrawl(pages[i := p]) == CountCrawl(pages)
  {
    var n := |pages| - 1;
    if i < n {
      assert pages[i := p][..n] == pages[..n][i := p];
      CountAfterUpdate(pages[..n], i, p);
    } else {
      assert pages[i := p][..n] == pages[..n];
    }
  }

  lemma {:induction false} CountAfterAppend(pages: seq<Page>, p: Page)
    ensures CountCrawl(pages + [p]) == CountCrawl(pages) + if InCrawl(p) then 1 else 0
  {
    assert (pages + [p])[..|pages|] == pages;
  }

  /** A status change inside the crawl keeps the inventory. */
  lemma UpdateKeeps(cfg: Config, pages: seq<Page>, i: nat, p: Page, discovered: nat, cap: int)
    requires InventoryOk(cfg, pages, discovered, cap)
    requires i < |pages| && InCrawl(p) == InCrawl(pages[i])
    requires p.url == pages[i].url && p.depth == pages[i].depth && p.parent == pages[i].parent
    ensures InventoryOk(cfg, pages[i := p], discovered, cap)
  {
    CountAfterUpdate(pages, i, p);
    var after := pages[i := p];
    forall k: nat | k < |after|
      ensures TreeNode(after, k)
    {
      assert TreeNode(pages, k);
    }
  }

  /** What a candidate must satisfy to be persisted below `parent`. */
  predicate Fits(cfg: Config, depth: nat, c: Candidate, rejected: bool) {
    c.depth == depth + 1 && (rejected || Admissible(cfg, c.url, c.depth))
  }

  ghost predicate AllFit(cfg: Config, depth: nat, cs: seq<Candidate>, rejected: bool) {
    forall k :: 0 <= k < |cs| ==> Fits(cfg, depth, cs[k], rejected)
  }

  lemma AppendKeeps(cfg: Config, pages: seq<Page>, p: Page, discovered: nat, cap: int)
    requires InventoryOk(cfg, pages, discovered, cap)
    requires !HasUrl(pages, p.url)
    requires p.parent.Some? && p.parent.value < |pages| && p.depth == pages[p.parent.value].depth + 1
    requires InCrawl(p) ==> Admissible(cfg, p.url, p.depth) && discovered < cap
    ensures InventoryOk(cfg, pages + [p], if InCrawl(p) then discovered + 1 else discovered, cap)
  {
    CountAfterAppend(pages, p);
    var after := pages + [p];
    forall k: nat | k < |after|
      ensures TreeNode(after, k)
    {
      if k < |pages| { assert TreeNode(pages, k); }
    }
  }

  /** The rows that _persist_discovery_candidates adds, and the budget it respects. */
  lemma {:induction false} PersistKeeps(
    cfg: Config, db: Db, plan: Plan, parent: nat, cs: seq<Candidate>, rejected: bool, accepted: nat, now: int)
    requires InventoryOk(cfg, db.pages, db.job.pagesDiscovered, CrawlCap(cfg, plan))
    requires parent < |db.pages| && db.job.pagesDiscovered <= accepted
    requires AllFit(cfg, db.pages[parent].depth, cs, rejected)
    ensures var after := PersistFrom(cfg, db, plan, parent, cs, rejected, accepted, now);
            InventoryOk(cfg, after.pages, after.job.pagesDiscovered, CrawlCap(cfg, plan))
    decreases |cs|
  {
    if cs != [] {
      var c := cs[0];
      if FindUrl(db.pages, c.url).Some? {
        PersistKeeps(cfg, Append(db, OnPageDuplicate), plan, parent, cs[1..], rejected, accepted, now);
      } else {
        var status := StatusFor(rejected, accepted, CrawlCap(cfg, plan));
        var page := Page(c.url, status, c.depth, Some(parent), now, cfg.uuid(|db.pages|), c.via, None, None);
        AppendKeeps(cfg, db.pages, page, db.job.pagesDiscovered, CrawlCap(cfg, plan));
        PersistKeeps(cfg, AddPage(cfg, db, parent, c, status, now), plan, parent, cs[1..], rejected,
          if status == PageDiscovered then accepted + 1 else accepted, now);
      }
    }
  }

  /** Rows a persisted candidate list appends: one level below the parent, never visited. */
  ghost predicate Appended(cfg: Config, pages: seq<Page>, from: nat, depth: nat) {
    forall j :: from <= j < |pages| ==>
      && pages[j].depth == depth
      && pages[j].extraction == None
      && pages[j].uuid == cfg.uuid(j)
      && (pages[j].status == PageDiscovered || pages[j].status == PageRejected || pages[j].status == PageSkipped)
  }

  lemma {:induction false} PersistAppends(
    cfg: Config, db: Db, plan: Plan, parent: nat, cs: seq<Candidate>, rejected: bool, accepted: nat, now: int,
    from: nat, depth: nat)
    requires Appended(cfg, db.pages, from, depth) && from <= |db.pages|
    requires forall k :: 0 <= k < |cs| ==> cs[k].depth == depth
    ensures var after := PersistFrom(cfg, db, plan, parent, cs, rejected, accepted, now);
            Appended(cfg, after.pages, from, depth)
    decreases |cs|
  {
    if cs != [] {
      var c := cs[0];
      if FindUrl(db.pages, c.url).Some? {
        PersistAppends(cfg, Append(db, OnPageDuplicate), plan, parent, cs[1..], rejected, accepted, now, from, depth);
      } else {
        var status := StatusFor(rejected, accepted, CrawlCap(cfg, plan));
        PersistAppends(cfg, AddPage(cfg, db, parent, c, status, now), plan, parent, cs[1..], rejected,
          if status == PageDiscovered then accepted + 1 else accepted, now, from, depth);
      }
    }
  }

  /** Every candidate list that a page produces fits below that page. */
  lemma DecisionFits(cfg: Config, plan: Plan, page: Page, capture: Capture, seen: set<Url>)
    ensures var d := Decide(cfg, plan, page, capture, seen);
            && AllFit(cfg, page.depth, d.candidates, false)
            && AllFit(cfg, page.depth, d.rejected, true)
    ensures AllFit(cfg, page.depth, Probe(cfg, page, seen), false)
  {
    FromSignalsIsSound(cfg, plan, page.depth, capture.links, seen);
    if page.via == FromSitemap && capture.locations.Some? {
      var locations := capture.locations.value;
      LocationsAreSound(
        cfg, page.depth + 1, seen, locations[..Min(|locations|, cfg.sitemapMaxUrls)], NO_DECISION);
    }
  }

  /** Visiting a crawled page and persisting its discoveries keeps the inventory and only appends rows. */
  lemma ExpandKeeps(cfg: Config, db: Db, plan: Plan, i: nat, capture: Capture, now: int)
    requires i < |db.pages| && InCrawl(db.pages[i])
    requires InventoryOk(cfg, db.pages, db.job.pagesDiscovered, CrawlCap(cfg, plan))
    ensures var after := Expand(cfg, db, plan, i, capture, now);
            && InventoryOk(cfg, after.pages, after.job.pagesDiscovered, CrawlCap(cfg, plan))
            && Visit(db, i, now).pages <= after.pages
            && Appended(cfg, after.pages, |db.pages|, db.pages[i].depth + 1)
  {
    hide InventoryOk, AllFit, Decide, Probe, SeenUrls, PersistFrom, LogGrows;
    var cap := CrawlCap(cfg, plan);
    var db1 := Visit(db, i, now);
    UpdateKeeps(cfg, db.pages, i, db1.pages[i], db.job.pagesDiscovered, cap);
    var seen := SeenUrls(db1.pages);
    var page := db1.pages[i];
    var depth := page.depth + 1;
    var d := Decide(cfg, plan, page, capture, seen);
    DecisionFits(cfg, plan, page, capture, seen);
    var db2 := PersistAll(cfg, db1, plan, i, d.candidates, false, now, |db.pages|);
    var db3 := PersistAll(cfg, db2, plan, i, d.rejected, true, now, |db.pages|);
    var db4 := if d.duplicates > 0 then Append(db3, OnPageDuplicate) else db3;
    var db5 := PersistAll(cfg, db4, plan, i, Probe(cfg, page, seen), false, now, |db.pages|);
  }

  lemma PersistAll(
    cfg: Config, db: Db, plan: Plan, parent: nat, cs: seq<Candidate>, rejected: bool, now: int, from: nat)
    returns (after: Db)
    requires parent < from <= |db.pages|
    requires InventoryOk(cfg, db.pages, db.job.pagesDiscovered, CrawlCap(cfg, plan))
    requires Appended(cfg, db.pages, from, db.pages[parent].depth + 1)
    requires AllFit(cfg, db.pages[parent].depth, cs, rejected)
    ensures after == Persist(cfg, db, plan, parent, cs, rejected, now)
    ensures InventoryOk(cfg, after.pages, after.job.pagesDiscovered, CrawlCap(cfg, plan))
    ensures db.pages <= after.pages && Appended(cfg, after.pages, from, db.pages[parent].depth + 1)
  {
    after := Persist(cfg, db, plan, parent, cs, rejected, now);
    CrawlIsAccepted(db.pages);
    PersistKeeps(cfg, db, plan, parent, cs, rejected, CountAccepted(db.pages), now);
    PersistAppends(
      cfg, db, plan, parent, cs, rejected, CountAccepted(db.pages), now, from, db.pages[parent].depth + 1);
  }
}
