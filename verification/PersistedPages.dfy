/** Which pages a visit adds (services.py, _persist_discovery_candidates), in terms of the rows alone. */
module PersistedPages {
  import opened Wrappers
  import opened Domain
  import opened Rows
  import opened Lifecycle
  import opened Discovery
  import opened Frontier
  import opened Stages
  import opened Inventory
  import opened Protocol
  import opened Invariants
  import opened Runs
  import opened Growth

  /** The positions that count against the budget: neither REJECTED nor DUPLICATE. */
  ghost function Counted(pages: seq<Page>): set<int> {
    set i | 0 <= i < |pages| && pages[i].status != PageRejected && pages[i].status != PageDuplicate
  }

  ghost predicate Known(pages: seq<Page>, url: Url) { exists i :: 0 <= i < |pages| && pages[i].url == url }

  /** A candidate that is offered to the inventory, and whether its link was rejected. */
  datatype Offer = Offer(candidate: Candidate, rejected: bool)

  /** The status of a new page: the budget is min(discovery_max_pages, the plan's max_pages). */
  ghost predicate RightStatus(cfg: Config, plan: Plan, pages: seq<Page>, rejected: bool, status: PageStatus) {
    if rejected then status == PageRejected
    else if |Counted(pages)| >= plan.maxPages || |Counted(pages)| >= cfg.discoveryMaxPages then status == PageSkipped
    else status == PageDiscovered
  }

  /** One turn: a known URL adds nothing, and a new one a row with the candidate's own URL, depth, method and parent. */
  ghost predicate Turn(cfg: Config, plan: Plan, parent: nat, now: int, before: seq<Page>, o: Offer, after: seq<Page>) {
    if Known(before, o.candidate.url) then after == before
    else
      && |after| == |before| + 1 && before <= after
      && var page := after[|before|];
         && page.url == o.candidate.url && page.depth == o.candidate.depth && page.via == o.candidate.via
         && page.parent == Some(parent) && page.discoveredAt == now && page.uuid == cfg.uuid(|before|)
         && page.visitedAt == None && page.extraction == None
         && RightStatus(cfg, plan, before, o.rejected, page.status)
  }

  /** One turn per offer, in order. */
  ghost predicate Turns(
    cfg: Config, plan: Plan, parent: nat, now: int, offers: seq<Offer>, states: seq<seq<Page>>)
  {
    && |states| == |offers| + 1
    && forall k :: 0 <= k < |offers| ==> Turn(cfg, plan, parent, now, states[k], offers[k], states[k + 1])
  }

  lemma TurnsConcat(
    cfg: Config, plan: Plan, parent: nat, now: int, a: seq<Offer>, s: seq<seq<Page>>, b: seq<Offer>, t: seq<seq<Page>>)
    requires Turns(cfg, plan, parent, now, a, s) && Turns(cfg, plan, parent, now, b, t) && s[|a|] == t[0]
    ensures Turns(cfg, plan, parent, now, a + b, s + t[1..])
    ensures (s + t[1..])[0] == s[0] && (s + t[1..])[|a + b|] == t[|b|]
  {
    hide Turn;
    var offers, states := a + b, s + t[1..];
    forall k | 0 <= k < |offers|
      ensures Turn(cfg, plan, parent, now, states[k], offers[k], states[k + 1])
    {
      if k >= |a| { assert offers[k] == b[k - |a|] && states[k + 1] == t[k - |a| + 1]; }
    }
  }

  // One list of candidates

  function Offers(cs: seq<Candidate>, rejected: bool): (r: seq<Offer>)
    ensures |r| == |cs| && forall k :: 0 <= k < |cs| ==> r[k] == Offer(cs[k], rejected)
  {
    seq(|cs|, k requires 0 <= k < |cs| => Offer(cs[k], rejected))
  }

  lemma {:induction false} CountIsCounted(pages: seq<Page>)
    ensures CountAccepted(pages) == |Counted(pages)|
  {
    if pages != [] {
      var n := |pages| - 1;
      CountIsCounted(pages[..n]);
      CountedLast(pages[..n], pages[n]);
      assert pages == pages[..n] + [pages[n]];
    }
  }

  lemma CountedLast(pages: seq<Page>, p: Page)
    ensures Counted(pages + [p]) ==
            Counted(pages) + if p.status != PageRejected && p.status != PageDuplicate then {|pages|} else {}
    ensures |Counted(pages + [p])| ==
            |Counted(pages)| + if p.status != PageRejected && p.status != PageDuplicate then 1 else 0
  {
    var after := pages + [p];
    assert forall i :: 0 <= i < |pages| ==> after[i] == pages[i];
    assert Counted(after) ==
           Counted(pages) + if p.status != PageRejected && p.status != PageDuplicate then {|pages|} else {};
  }

  /** The running count of the loop and the true one: they differ by pages that were skipped, past the budget. */
  ghost predicate CountsRight(cfg: Config, plan: Plan, pages: seq<Page>, accepted: nat) {
    || accepted == |Counted(pages)|
    || (CrawlCap(cfg, plan) <= accepted && CrawlCap(cfg, plan) <= |Counted(pages)|)
  }

  /** The row, and the running count, after one candidate. */
  ghost function AfterOne(
    cfg: Config, db: Db, plan: Plan, parent: nat, c: Candidate, rejected: bool, accepted: nat, now: int): (Db, nat)
  {
    var status := StatusFor(rejected, accepted, CrawlCap(cfg, plan));
    if FindUrl(db.pages, c.url).Some? then (Append(db, OnPageDuplicate), accepted)
    else (AddPage(cfg, db, parent, c, status, now), if status == PageDiscovered then accepted + 1 else accepted)
  }

  lemma OneTurn(
    cfg: Config, db: Db, plan: Plan, parent: nat, c: Candidate, rejected: bool, accepted: nat, now: int)
    requires CountsRight(cfg, plan, db.pages, accepted)
    ensures var (db1, accepted1) := AfterOne(cfg, db, plan, parent, c, rejected, accepted, now);
            && Turn(cfg, plan, parent, now, db.pages, Offer(c, rejected), db1.pages)
            && CountsRight(cfg, plan, db1.pages, accepted1)
  {
    hide LogGrows, MaxSequence, Counted, Known, FindUrl;
    var (db1, accepted1) := AfterOne(cfg, db, plan, parent, c, rejected, accepted, now);
    KnownIsFound(db.pages, c.url);
    if !Known(db.pages, c.url) { CountedLast(db.pages, db1.pages[|db.pages|]); }
  }

  lemma {:induction false} PersistTurns(
    cfg: Config, db: Db, plan: Plan, parent: nat, cs: seq<Candidate>, rejected: bool, accepted: nat, now: int)
    returns (states: seq<seq<Page>>)
    requires CountsRight(cfg, plan, db.pages, accepted)
    ensures Turns(cfg, plan, parent, now, Offers(cs, rejected), states)
    ensures states[0] == db.pages
    ensures states[|cs|] == PersistFrom(cfg, db, plan, parent, cs, rejected, accepted, now).pages
    decreases |cs|
  {
    hide LogGrows, MaxSequence, CountsRight, Turn, StatusFor, AddPage, Append, FindUrl;
    if cs == [] {
      states := [db.pages];
    } else {
      var (db1, accepted1) := AfterOne(cfg, db, plan, parent, cs[0], rejected, accepted, now);
      OneTurn(cfg, db, plan, parent, cs[0], rejected, accepted, now);
      var rest := PersistTurns(cfg, db1, plan, parent, cs[1..], rejected, accepted1, now);
      states := [db.pages] + rest;
      FirstTurn(cfg, plan, parent, now, cs, rejected, db.pages, rest);
    }
  }

  lemma KnownIsFound(pages: seq<Page>, url: Url)
    ensures FindUrl(pages, url).Some? <==> Known(pages, url)
  {
    assert HasUrl(pages, url) <==> Known(pages, url);
  }

  lemma FirstTurn(
    cfg: Config, plan: Plan, parent: nat, now: int, cs: seq<Candidate>, rejected: bool, pages: seq<Page>,
    rest: seq<seq<Page>>)
    requires cs != [] && Turns(cfg, plan, parent, now, Offers(cs[1..], rejected), rest)
    requires Turn(cfg, plan, parent, now, pages, Offer(cs[0], rejected), rest[0])
    ensures Turns(cfg, plan, parent, now, Offers(cs, rejected), [pages] + rest)
  {
    hide Turn;
    var states := [pages] + rest;
    forall k | 0 <= k < |cs|
      ensures Turn(cfg, plan, parent, now, states[k], Offers(cs, rejected)[k], states[k + 1])
    {
      if k > 0 { assert Offers(cs, rejected)[k] == Offers(cs[1..], rejected)[k - 1]; }
    }
  }

  // One visit

  /** What the page offers, in the order of the visit: its candidates, its rejected links, and the sitemap probe. */
  ghost function VisitOffers(cfg: Config, plan: Plan, pages: seq<Page>, i: nat, capture: Capture): seq<Offer>
    requires i < |pages|
  {
    var page, seen := pages[i], set p | p in pages :: p.url;
    var links := FromSignals(cfg, plan, page.depth, capture.links, seen);
    var sitemap := if page.via == FromSitemap && capture.locations.Some?
                   then SitemapCandidates(cfg, page.depth, capture.locations.value, seen) else NO_DECISION;
    Offers(links.candidates + sitemap.candidates, false) + Offers(links.rejected + sitemap.rejected, true)
    + if cfg.enableSitemaps && page.depth == 0 && cfg.sitemapUrl.Some? && !Known(pages, cfg.sitemapUrl.value)
      then [Offer(Candidate(cfg.sitemapUrl.value, FromSitemap, 1), false)] else []
  }

  lemma OffersAre(cfg: Config, plan: Plan, pages: seq<Page>, i: nat, capture: Capture)
    requires i < |pages|
    ensures var seen := SeenUrls(pages);
            var d := Decide(cfg, plan, pages[i], capture, seen);
            VisitOffers(cfg, plan, pages, i, capture) ==
            Offers(d.candidates, false) + Offers(d.rejected, true) + Offers(Probe(cfg, pages[i], seen), false)
  {
    hide FromSignals, SitemapCandidates;
    var seen := SeenUrls(pages);
    forall url: Url
      ensures url in seen <==> Known(pages, url)
    {
      if Known(pages, url) {
        var k :| 0 <= k < |pages| && pages[k].url == url;
        assert pages[k] in pages;
      }
    }
    var d := FromSignals(cfg, plan, pages[i].depth, capture.links, seen);
    assert d.candidates + NO_DECISION.candidates == d.candidates && d.rejected + NO_DECISION.rejected == d.rejected;
    var probe := Probe(cfg, pages[i], seen);
    assert Offers(probe, false) == if probe == [] then [] else [Offer(probe[0], false)];
  }

  lemma ListTurns(cfg: Config, db: Db, plan: Plan, parent: nat, cs: seq<Candidate>, rejected: bool, now: int)
    returns (states: seq<seq<Page>>)
    ensures Turns(cfg, plan, parent, now, Offers(cs, rejected), states) && states[0] == db.pages
    ensures states[|cs|] == Persist(cfg, db, plan, parent, cs, rejected, now).pages
  {
    CountIsCounted(db.pages);
    states := PersistTurns(cfg, db, plan, parent, cs, rejected, CountAccepted(db.pages), now);
  }

  lemma ExpandTurns(cfg: Config, db: Db, plan: Plan, i: nat, capture: Capture, now: int)
    returns (states: seq<seq<Page>>)
    requires i < |db.pages|
    ensures var visited := db.pages[i := db.pages[i].(status := PageVisited, visitedAt := Some(now))];
            var offers := VisitOffers(cfg, plan, visited, i, capture);
            && Turns(cfg, plan, i, now, offers, states) && states[0] == visited
            && states[|offers|] == Expand(cfg, db, plan, i, capture, now).pages
  {
    hide Decide, Probe, SeenUrls, PersistFrom, LogGrows, MaxSequence, Turns, VisitOffers;
    var db1 := Visit(db, i, now);
    var seen := SeenUrls(db1.pages);
    var page := db1.pages[i];
    var d := Decide(cfg, plan, page, capture, seen);
    var s := ListTurns(cfg, db1, plan, i, d.candidates, false, now);
    var db2 := Persist(cfg, db1, plan, i, d.candidates, false, now);
    var t := ListTurns(cfg, db2, plan, i, d.rejected, true, now);
    var db3 := Persist(cfg, db2, plan, i, d.rejected, true, now);
    var db4 := if d.duplicates > 0 then Append(db3, OnPageDuplicate) else db3;
    var u := ListTurns(cfg, db4, plan, i, Probe(cfg, page, seen), false, now);
    assert |s| > 0 && |t| > 0 && |u| > 0 by { TurnsStart(cfg, plan, i, now, s, t, u, d, Probe(cfg, page, seen)); }
    TurnsConcat(cfg, plan, i, now, Offers(d.candidates, false), s, Offers(d.rejected, true), t);
    var st := s + t[1..];
    TurnsConcat(
      cfg, plan, i, now, Offers(d.candidates, false) + Offers(d.rejected, true), st,
      Offers(Probe(cfg, page, seen), false), u);
    states := st + u[1..];
    OffersAre(cfg, plan, db1.pages, i, capture);
  }

  lemma TurnsStart(
    cfg: Config, plan: Plan, parent: nat, now: int, s: seq<seq<Page>>, t: seq<seq<Page>>, u: seq<seq<Page>>,
    d: Decision, probe: seq<Candidate>)
    requires Turns(cfg, plan, parent, now, Offers(d.candidates, false), s)
    requires Turns(cfg, plan, parent, now, Offers(d.rejected, true), t)
    requires Turns(cfg, plan, parent, now, Offers(probe, false), u)
    ensures |s| == |d.candidates| + 1 && |t| == |d.rejected| + 1 && |u| == |probe| + 1
  {
  }

  /** The new pages that the crawl will visit. */
  ghost function Found(pages: seq<Page>, from: nat): set<int> {
    set i | from <= i < |pages| && pages[i].status == PageDiscovered
  }

  lemma FoundLast(pages: seq<Page>, p: Page, from: nat)
    requires from <= |pages|
    ensures |Found(pages + [p], from)| == |Found(pages, from)| + if p.status == PageDiscovered then 1 else 0
  {
    var after := pages + [p];
    assert forall i :: 0 <= i < |pages| ==> after[i] == pages[i];
    assert Found(after, from) == Found(pages, from) + if p.status == PageDiscovered then {|pages|} else {};
  }

  lemma {:induction false} PersistCounts(
    cfg: Config, db: Db, plan: Plan, parent: nat, cs: seq<Candidate>, rejected: bool, accepted: nat, now: int,
    from: nat)
    requires from <= |db.pages|
    ensures var after := PersistFrom(cfg, db, plan, parent, cs, rejected, accepted, now);
            after.job.pagesDiscovered - db.job.pagesDiscovered == |Found(after.pages, from)| - |Found(db.pages, from)|
    decreases |cs|
  {
    hide LogGrows, MaxSequence, FindUrl, Found;
    if cs != [] {
      var (db1, accepted1) := AfterOne(cfg, db, plan, parent, cs[0], rejected, accepted, now);
      if |db1.pages| > |db.pages| { FoundLast(db.pages, db1.pages[|db.pages|], from); }
      PersistCounts(cfg, db1, plan, parent, cs[1..], rejected, accepted1, now, from);
    }
  }

  lemma ExpandCounts(cfg: Config, db: Db, plan: Plan, i: nat, capture: Capture, now: int)
    requires i < |db.pages|
    ensures var after := Expand(cfg, db, plan, i, capture, now);
            after.job.pagesDiscovered == db.job.pagesDiscovered + |Found(after.pages, |db.pages|)|
  {
    hide Decide, Probe, SeenUrls, PersistFrom, LogGrows, MaxSequence, Found, CountAccepted;
    var n := |db.pages|;
    var db1 := Visit(db, i, now);
    var seen := SeenUrls(db1.pages);
    var page := db1.pages[i];
    var d := Decide(cfg, plan, page, capture, seen);
    var db2 := Persist(cfg, db1, plan, i, d.candidates, false, now);
    PersistCounts(cfg, db1, plan, i, d.candidates, false, CountAccepted(db1.pages), now, n);
    var db3 := Persist(cfg, db2, plan, i, d.rejected, true, now);
    PersistCounts(cfg, db2, plan, i, d.rejected, true, CountAccepted(db2.pages), now, n);
    var db4 := if d.duplicates > 0 then Append(db3, OnPageDuplicate) else db3;
    PersistCounts(cfg, db4, plan, i, Probe(cfg, page, seen), false, CountAccepted(db4.pages), now, n);
    assert |Found(db1.pages, n)| == 0 by { NothingFound(db1.pages); }
  }

  lemma NothingFound(pages: seq<Page>)
    ensures |Found(pages, |pages|)| == 0
  {
    assert Found(pages, |pages|) == {};
  }

  /**
   * What a completed visit does to the inventory: the page becomes VISITED, and then every offer gets its turn, in
   * which the budget decides against the rows as they are then; pages_discovered grows by the new DISCOVERED rows.
   */
  lemma VisitPersists(cfg: Config, db: Db, w: Work, capture: Capture, now: int) returns (states: seq<seq<Page>>)
    requires w.DiscoveryWork? && CompleteDiscovery(cfg, db, w, capture, now).reply == Done
    ensures w.page < |db.pages|
    ensures var visited := db.pages[w.page := db.pages[w.page].(status := PageVisited, visitedAt := Some(now))];
            var offers := VisitOffers(cfg, w.plan, visited, w.page, capture);
            var after := CompleteDiscovery(cfg, db, w, capture, now).db;
            && Turns(cfg, w.plan, w.page, now, offers, states) && states[0] == visited
            && states[|offers|] == after.pages
            && after.job.pagesDiscovered == db.job.pagesDiscovered + |Found(after.pages, |db.pages|)|
  {
    hide Expand, LogGrows, StepOk, JobStep, MaxSequence, Turns, Found, VisitOffers, Least;
    if w.page < |db.pages| {
      states := ExpandTurns(cfg, db, w.plan, w.page, capture, now);
      ExpandCounts(cfg, db, w.plan, w.page, capture, now);
    }
  }

  // Whole runs

  /** Pages that are or were part of the crawl: what the budget is for. */
  ghost function Crawled(pages: seq<Page>): set<int> {
    set i | 0 <= i < |pages| && pages[i].status in {PageDiscovered, PageQueued, PageVisited, PageFailed}
  }

  ghost predicate Skips(pages: seq<Page>) { exists i :: 0 <= i < |pages| && pages[i].status == PageSkipped }

  /** As long as no page is skipped, the pages that count are those of the crawl. */
  lemma {:induction false} CountedIsCrawled(pages: seq<Page>)
    ensures CountAccepted(pages) >= CountCrawl(pages) == |Crawled(pages)|
    ensures !Skips(pages) ==> CountAccepted(pages) == CountCrawl(pages)
  {
    if pages != [] {
      var n := |pages| - 1;
      CountedIsCrawled(pages[..n]);
      assert Crawled(pages) == Crawled(pages[..n]) + if InCrawl(pages[n]) then {n} else {};
      if !Skips(pages) { assert !Skips(pages[..n]); }
    } else {
      assert Crawled(pages) == {};
    }
  }

  /** Every page that counts is paid for by a crawled page once a page has been skipped. */
  ghost predicate FullWhenSkipping(cfg: Config, db: Db) {
    Skips(db.pages) ==> db.plan.Some? && |Crawled(db.pages)| >= CrawlCap(cfg, db.plan.value)
  }

  lemma CrawledGrows(pages: seq<Page>, after: seq<Page>)
    requires Retains(pages, after)
    ensures |Crawled(pages)| <= |Crawled(after)|
  {
    assert Crawled(pages) <= Crawled(after);
    SubsetIsSmaller(Crawled(pages), Crawled(after));
  }

  lemma SubsetIsSmaller(a: set<int>, b: set<int>)
    requires a <= b
    ensures |a| <= |b|
  {
    assert b == a + (b - a);
  }

  /** The first turn that skips finds the budget used up by crawled pages. */
  lemma {:induction false} TurnsFill(
    cfg: Config, plan: Plan, parent: nat, now: int, offers: seq<Offer>, states: seq<seq<Page>>, k: nat)
    requires Turns(cfg, plan, parent, now, offers, states) && k <= |offers|
    requires !Skips(states[0]) && Skips(states[k])
    ensures |Crawled(states[k])| >= CrawlCap(cfg, plan)
  {
    hide Crawled, Counted, Known;
    var before, after := states[k - 1], states[k];
    assert Turn(cfg, plan, parent, now, before, offers[k - 1], after);
    TurnRetains(cfg, plan, parent, now, before, offers[k - 1], after);
    CrawledGrows(before, after);
    if Skips(before) {
      TurnsFill(cfg, plan, parent, now, offers, states, k - 1);
    } else {
      CountedIsCrawled(before);
      CountIsCounted(before);
      TurnSkips(cfg, plan, parent, now, before, offers[k - 1], after);
    }
  }

  lemma TurnRetains(cfg: Config, plan: Plan, parent: nat, now: int, before: seq<Page>, o: Offer, after: seq<Page>)
    requires Turn(cfg, plan, parent, now, before, o, after)
    ensures Retains(before, after) && before <= after
  {
    hide RightStatus, Known;
  }

  lemma TurnSkips(cfg: Config, plan: Plan, parent: nat, now: int, before: seq<Page>, o: Offer, after: seq<Page>)
    requires Turn(cfg, plan, parent, now, before, o, after) && !Skips(before) && Skips(after)
    ensures |Counted(before)| >= CrawlCap(cfg, plan)
  {
    hide Counted, Known;
    var i :| 0 <= i < |after| && after[i].status == PageSkipped;
    assert i == |before|;
  }

  lemma VisitFills(cfg: Config, db: Db, w: Work, capture: Capture, now: int)
    requires DbOk(cfg, db) && w.DiscoveryWork? && WorkOk(db.pages, db.plan, w) && FullWhenSkipping(cfg, db)
    requires CompleteDiscovery(cfg, db, w, capture, now).reply == Done
    ensures FullWhenSkipping(cfg, CompleteDiscovery(cfg, db, w, capture, now).db)
  {
    hide CompleteDiscovery, Turn, Crawled, VisitOffers, TablesOk, Numbered, FormatsOk, JobOk, StageOk;
    var after := CompleteDiscovery(cfg, db, w, capture, now).db;
    var states := VisitPersists(cfg, db, w, capture, now);
    var visited := states[0];
    var offers := VisitOffers(cfg, w.plan, visited, w.page, capture);
    CompleteDiscoveryKeeps(cfg, db, w, capture, now);
    CrawledGrows(db.pages, after.pages);
    if Skips(after.pages) && !Skips(db.pages) {
      assert !Skips(visited);
      TurnsFill(cfg, w.plan, w.page, now, offers, states, |offers|);
    }
    assert after.plan == db.plan by { VisitKeepsPlan(cfg, db, w, capture, now); }
  }

  lemma VisitKeepsPlan(cfg: Config, db: Db, w: Work, capture: Capture, now: int)
    requires w.DiscoveryWork? && CompleteDiscovery(cfg, db, w, capture, now).reply == Done
    ensures CompleteDiscovery(cfg, db, w, capture, now).db.plan == db.plan
  {
    hide Explore, StepOk, LogGrows, JobStep;
  }

  /** No other call skips a page. */
  ghost predicate SkipsNothing(db: Db, after: Db) {
    forall i :: 0 <= i < |after.pages| && after.pages[i].status == PageSkipped ==>
      i < |db.pages| && db.pages[i].status == PageSkipped
  }

  lemma EarlySkipsNothing(cfg: Config, db: Db, step: Step)
    requires PlanningOrBrowser(step.call) || step.call.CancelCall?
    ensures SkipsNothing(db, Apply(cfg, db, step).db)
  {
    hide ClaimDiscovery, CompleteDiscovery, FailDiscovery, ClaimExtraction, CompleteExtraction, FailExtraction;
    hide ClaimValidation, CompleteValidation, FailValidation, ClaimExport, CompleteExport, FailExport;
    hide StepOk, LogGrows, MaxSequence, Least, RetryOrFail, CaptureRows, Recover;
  }

  lemma CrawlSkipsNothing(cfg: Config, db: Db, step: Step)
    requires JobOk(db.job) && (step.call.ClaimDiscoveryCall? || step.call.FailDiscoveryCall?)
    ensures SkipsNothing(db, Apply(cfg, db, step).db)
  {
    hide ClaimPlanning, CompletePlanning, FailPlanning, PrepareBrowser, CompleteBrowser, FailBrowser;
    hide CompleteDiscovery, FailDiscovery, ClaimExtraction, CompleteExtraction, FailExtraction;
    hide ClaimValidation, CompleteValidation, FailValidation, ClaimExport, CompleteExport, FailExport;
    hide Cancel, Recover, StepOk, LogGrows, MaxSequence, Least;
    match step.call
    case FailDiscoveryCall(w, e) => FailDiscoveryShape(db, w.cmd, e, cfg.plannerMaxRetries, step.now);
    case _ =>
  }

  lemma RecoverySkipsNothing(db: Db, pick: nat, now: int)
    ensures SkipsNothing(db, Recover(db, pick, now).db)
  {
    hide StepOk, LogGrows, MaxSequence, Least;
  }

  lemma LaterSkipNothing(cfg: Config, db: Db, step: Step)
    requires ExtractOrValidate(step.call) || ExportCall(step.call)
    ensures SkipsNothing(db, Apply(cfg, db, step).db)
  {
    hide ClaimPlanning, CompletePlanning, FailPlanning, PrepareBrowser, CompleteBrowser, FailBrowser;
    hide ClaimDiscovery, CompleteDiscovery, FailDiscovery, CompleteExtraction, FailExtraction, Cancel, Recover;
    hide StepOk, LogGrows, MaxSequence, InsertResults, InsertExports;
    match step.call
    case CompleteExtractionCall(w, extract) =>
      if w.ExtractionWork? { ExtractionSkipsNothing(cfg, db, w, extract, step.now); }
    case FailExtractionCall(w, e) => FailureSkipsNothing(db, w.cmd, e, cfg.extractionMaxRetries, step.now);
    case _ =>
  }

  lemma ExtractionSkipsNothing(cfg: Config, db: Db, w: Work, extract: Extract, now: int)
    requires w.ExtractionWork?
    ensures SkipsNothing(db, CompleteExtraction(cfg, db, w, extract, now).db)
  {
    hide StepOk, LogGrows, MaxSequence, AdvanceExtraction, InsertRecords, Admitted, AppendMany;
  }

  lemma FailureSkipsNothing(db: Db, cmd: Command, error: Failure, budget: nat, now: int)
    ensures SkipsNothing(db, FailExtraction(db, cmd, error, budget, now).db)
  {
    hide StepOk, LogGrows, MaxSequence, RetryOrFail;
  }

  lemma StepKeepsFull(cfg: Config, s: System, step: Step, t: System)
    requires SystemOk(cfg, s) && Next(cfg, s, step, t) && FullWhenSkipping(cfg, s.db)
    ensures FullWhenSkipping(cfg, t.db)
  {
    hide Apply, RowsOk, Crawled, Numbered, FormatsOk;
    CallKeeps(cfg, s, step);
    CrawledGrows(s.db.pages, t.db.pages);
    assert StepOk(s.db, t.db, Budget(cfg, s.db.job, step.call));
    if step.call.CompleteDiscoveryCall? {
      CompletionFills(cfg, s, step, t);
    } else {
      if PlanningOrBrowser(step.call) || step.call.CancelCall? {
        EarlySkipsNothing(cfg, s.db, step);
      } else if CrawlCall(step.call) {
        CrawlSkipsNothing(cfg, s.db, step);
      } else if step.call.RecoverCall? {
        RecoveryIs(cfg, s.db, step);
        RecoverySkipsNothing(s.db, step.call.pick, step.now);
      } else {
        LaterSkipNothing(cfg, s.db, step);
      }
      if Skips(t.db.pages) { assert Skips(s.db.pages); }
    }
  }

  lemma CompletionFills(cfg: Config, s: System, step: Step, t: System)
    requires SystemOk(cfg, s) && Next(cfg, s, step, t) && FullWhenSkipping(cfg, s.db)
    requires step.call.CompleteDiscoveryCall?
    ensures FullWhenSkipping(cfg, t.db)
  {
    hide CompleteDiscovery, RowsOk, Crawled, Numbered, FormatsOk, StepOk;
    var w, capture := step.call.work, step.call.capture;
    assert WorkOk(s.db.pages, s.db.plan, w);
    var r := CompleteDiscovery(cfg, s.db, w, capture, step.now);
    if r.reply == Done { VisitFills(cfg, s.db, w, capture, step.now); } else { NotDoneKeepsPages(cfg, s.db, step); }
  }

  lemma NotDoneKeepsPages(cfg: Config, db: Db, step: Step)
    requires step.call.CompleteDiscoveryCall? && step.call.work.DiscoveryWork?
    ensures var r := CompleteDiscovery(cfg, db, step.call.work, step.call.capture, step.now);
            r.reply != Done ==> r.db.pages == db.pages && r.db.plan == db.plan
  {
    hide Explore, StepOk, LogGrows, JobStep;
  }

  lemma {:induction false} FullInRun(cfg: Config, trace: seq<System>, steps: seq<Step>, i: nat)
    requires QueueRun(cfg, trace, steps) && i <= |steps|
    ensures FullWhenSkipping(cfg, trace[i].db)
  {
    hide Apply, SystemOk, FullWhenSkipping;
    if i == 0 {
      assert FullWhenSkipping(cfg, trace[0].db) by { NothingSkipped(cfg, trace[0]); }
    } else {
      FullInRun(cfg, trace, steps, i - 1);
      Reachable(cfg, trace, steps, i - 1);
      StepKeepsFull(cfg, trace[i - 1], steps[i - 1], trace[i]);
    }
  }

  lemma NothingSkipped(cfg: Config, s: System)
    requires Initial(s)
    ensures FullWhenSkipping(cfg, s.db)
  {
  }

  /**
   * In every reachable state, a page has been skipped only if the crawl has used its budget up exactly: the DISCOVERED,
   * QUEUED, VISITED and FAILED pages number min(discovery_max_pages, the plan's max_pages).
   */
  lemma SkippedOnlyWhenFull(cfg: Config, trace: seq<System>, steps: seq<Step>, i: nat)
    requires QueueRun(cfg, trace, steps) && i <= |steps| && Skips(trace[i].db.pages)
    ensures trace[i].db.plan.Some?
    ensures var n, plan := |Crawled(trace[i].db.pages)|, trace[i].db.plan.value;
            && n <= plan.maxPages && n <= cfg.discoveryMaxPages
            && (n == plan.maxPages || n == cfg.discoveryMaxPages)
  {
    hide Apply, RecordsOk, ExportsOk, FilesOk, KeysOk, Numbered, FormatsOk, OutboxOk, Crawled, StageOk;
    Reachable(cfg, trace, steps, i);
    FullInRun(cfg, trace, steps, i);
    CountedIsCrawled(trace[i].db.pages);
  }
}
