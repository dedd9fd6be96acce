/** Which links of a page become candidates, exactly (discovery_service.py). */
module FollowedLinks {
  import opened Wrappers
  import opened Rows
  import opened Discovery

  /** Where the links come from: the navigation signals of a page, or the locations of a sitemap. */
  datatype Kind = SignalLinks(plan: Plan) | SitemapLinks

  /** The kind of the link is followed: pagination or a relevant link, as the plan says, or a sitemap in depth. */
  predicate Follows(cfg: Config, kind: Kind, depth: nat, link: Link) {
    match kind
    case SignalLinks(plan) => if link.pagination then plan.followPagination else plan.followRelevantLinks
    case SitemapLinks => depth <= cfg.discoveryMaxDepth
  }

  function Method(kind: Kind, link: Link): DiscoveryMethod {
    match kind
    case SignalLinks(_) => if link.pagination then FromPagination else FromRelevantLink
    case SitemapLinks => FromSitemap
  }

  /** A canonical URL that the inventory does not have. */
  predicate IsNew(seen: set<Url>, link: Link) { link.canonical.Some? && link.canonical.value !in seen }

  predicate Eligible(cfg: Config, kind: Kind, depth: nat, seen: set<Url>, link: Link) {
    IsNew(seen, link) && cfg.inScope(link.canonical.value) && Follows(cfg, kind, depth, link)
  }

  /** An eligible link before position `k` has this URL. */
  ghost predicate Taken(cfg: Config, kind: Kind, depth: nat, seen: set<Url>, links: seq<Link>, k: nat, url: Url)
    requires k <= |links|
  {
    exists i :: 0 <= i < k && Eligible(cfg, kind, depth, seen, links[i]) && links[i].canonical == Some(url)
  }

  /** Eligible links whose URL no eligible link before them has. */
  ghost function ChosenAt(cfg: Config, kind: Kind, depth: nat, seen: set<Url>, links: seq<Link>, n: nat): set<int>
    requires n <= |links|
  {
    set k | 0 <= k < n && Eligible(cfg, kind, depth, seen, links[k])
            && !Taken(cfg, kind, depth, seen, links, k, links[k].canonical.value)
  }

  /** New links that are out of scope. */
  ghost function RefusedAt(cfg: Config, seen: set<Url>, links: seq<Link>, n: nat): set<int>
    requires n <= |links|
  {
    set k | 0 <= k < n && IsNew(seen, links[k]) && !cfg.inScope(links[k].canonical.value)
  }

  /** Links whose URL is in the inventory, or was taken by a link before them. */
  ghost function RepeatedAt(cfg: Config, kind: Kind, depth: nat, seen: set<Url>, links: seq<Link>, n: nat): set<int>
    requires n <= |links|
  {
    set k | 0 <= k < n && links[k].canonical.Some?
            && (links[k].canonical.value in seen
                || Taken(cfg, kind, depth, seen, links, k, links[k].canonical.value))
  }

  /** `order` lists the positions from left to right. */
  ghost predicate InOrder(order: seq<nat>, positions: set<int>) {
    && (forall i, j :: 0 <= i < j < |order| ==> order[i] < order[j])
    && (forall k :: k in order <==> k in positions)
  }

  /** The candidates are those of the links at these positions, in order. */
  ghost predicate Lists(kind: Kind, depth: nat, links: seq<Link>, order: seq<nat>, cs: seq<Candidate>) {
    && |cs| == |order|
    && forall j :: 0 <= j < |order| ==>
         && order[j] < |links| && links[order[j]].canonical.Some?
         && cs[j] == Candidate(links[order[j]].canonical.value, Method(kind, links[order[j]]), depth)
  }

  /** What the decision about the first `n` links is. */
  ghost predicate Decided(
    cfg: Config, kind: Kind, depth: nat, seen: set<Url>, links: seq<Link>, n: nat, d: Decision,
    chosen: seq<nat>, refused: seq<nat>)
    requires n <= |links|
  {
    && InOrder(chosen, ChosenAt(cfg, kind, depth, seen, links, n)) && Lists(kind, depth, links, chosen, d.candidates)
    && InOrder(refused, RefusedAt(cfg, seen, links, n)) && Lists(kind, depth, links, refused, d.rejected)
    && d.duplicates == |RepeatedAt(cfg, kind, depth, seen, links, n)|
  }

  // One link

  /** What both loops do with a link. */
  ghost function Considered(cfg: Config, kind: Kind, depth: nat, seen: set<Url>, link: Link, d: Decision): Decision {
    match kind
    case SignalLinks(plan) => ConsiderSignal(cfg, plan, depth, seen, link, d)
    case SitemapLinks => ConsiderLocation(cfg, depth, seen, link, d)
  }

  lemma OneMore(order: seq<nat>, positions: set<int>, n: nat)
    requires InOrder(order, positions) && forall k <- positions :: k < n
    ensures InOrder(order + [n], positions + {n})
  {
    var after := order + [n];
    assert after[|order|] == n;
    forall i | 0 <= i < |order|
      ensures order[i] < n
    {
      assert order[i] in positions;
    }
  }

  lemma TakenIsListed(
    cfg: Config, kind: Kind, depth: nat, seen: set<Url>, links: seq<Link>, n: nat, d: Decision, chosen: seq<nat>,
    url: Url)
    requires n <= |links| && InOrder(chosen, ChosenAt(cfg, kind, depth, seen, links, n))
    requires Lists(kind, depth, links, chosen, d.candidates)
    ensures Listed(d.candidates, url) <==> Taken(cfg, kind, depth, seen, links, n, url)
  {
    hide Eligible;
    if Listed(d.candidates, url) {
      var j :| 0 <= j < |d.candidates| && d.candidates[j].url == url;
      assert chosen[j] in ChosenAt(cfg, kind, depth, seen, links, n);
    }
    if Taken(cfg, kind, depth, seen, links, n, url) {
      var k := FirstTaken(cfg, kind, depth, seen, links, n, url);
      assert k in ChosenAt(cfg, kind, depth, seen, links, n);
      var j :| 0 <= j < |chosen| && chosen[j] == k;
      assert d.candidates[j].url == url;
    }
  }

  lemma {:induction false} FirstTaken(
    cfg: Config, kind: Kind, depth: nat, seen: set<Url>, links: seq<Link>, n: nat, url: Url) returns (k: nat)
    requires n <= |links| && Taken(cfg, kind, depth, seen, links, n, url)
    ensures k < n && Eligible(cfg, kind, depth, seen, links[k]) && links[k].canonical == Some(url)
    ensures !Taken(cfg, kind, depth, seen, links, k, url)
  {
    hide Eligible;
    var i :| 0 <= i < n && Eligible(cfg, kind, depth, seen, links[i]) && links[i].canonical == Some(url);
    k := i;
    if Taken(cfg, kind, depth, seen, links, i, url) { k := FirstTaken(cfg, kind, depth, seen, links, i, url); }
  }

  /** The three sets after one more link. */
  lemma SetsGrow(cfg: Config, kind: Kind, depth: nat, seen: set<Url>, links: seq<Link>, n: nat)
    requires n < |links|
    ensures var link := links[n];
            && ChosenAt(cfg, kind, depth, seen, links, n + 1) == ChosenAt(cfg, kind, depth, seen, links, n)
                 + (if Eligible(cfg, kind, depth, seen, link)
                       && !Taken(cfg, kind, depth, seen, links, n, link.canonical.value) then {n} else {})
            && RefusedAt(cfg, seen, links, n + 1) == RefusedAt(cfg, seen, links, n)
                 + (if IsNew(seen, link) && !cfg.inScope(link.canonical.value) then {n} else {})
            && RepeatedAt(cfg, kind, depth, seen, links, n + 1) == RepeatedAt(cfg, kind, depth, seen, links, n)
                 + (if link.canonical.Some?
                       && (link.canonical.value in seen
                           || Taken(cfg, kind, depth, seen, links, n, link.canonical.value)) then {n} else {})
  {
    hide Taken, Follows;
  }

  /** A taken URL is new and in scope. */
  lemma TakenIsNew(cfg: Config, kind: Kind, depth: nat, seen: set<Url>, links: seq<Link>, n: nat, url: Url)
    requires n <= |links| && Taken(cfg, kind, depth, seen, links, n, url)
    ensures url !in seen && cfg.inScope(url)
  {
  }

  lemma ListsMore(kind: Kind, depth: nat, links: seq<Link>, order: seq<nat>, cs: seq<Candidate>, n: nat)
    requires Lists(kind, depth, links, order, cs) && n < |links| && links[n].canonical.Some?
    ensures var c := Candidate(links[n].canonical.value, Method(kind, links[n]), depth);
            Lists(kind, depth, links, order + [n], cs + [c])
  {
  }

  /** Both loops take the same turn. */
  lemma ConsideredIs(cfg: Config, kind: Kind, depth: nat, seen: set<Url>, link: Link, d: Decision)
    ensures Considered(cfg, kind, depth, seen, link, d) ==
            if link.canonical.None? then d
            else
              var url := link.canonical.value;
              var c := Candidate(url, Method(kind, link), depth);
              if url in seen || Listed(d.candidates, url) then d.(duplicates := d.duplicates + 1)
              else if !cfg.inScope(url) then d.(rejected := d.rejected + [c])
              else if Follows(cfg, kind, depth, link) then d.(candidates := d.candidates + [c])
              else d
  {
    hide Listed;
  }

  lemma ChosenNext(
    cfg: Config, kind: Kind, depth: nat, seen: set<Url>, links: seq<Link>, n: nat, d: Decision, chosen: seq<nat>)
    returns (chosen1: seq<nat>)
    requires n < |links| && InOrder(chosen, ChosenAt(cfg, kind, depth, seen, links, n))
    requires Lists(kind, depth, links, chosen, d.candidates)
    ensures InOrder(chosen1, ChosenAt(cfg, kind, depth, seen, links, n + 1))
    ensures Lists(kind, depth, links, chosen1, Considered(cfg, kind, depth, seen, links[n], d).candidates)
  {
    hide ChosenAt, RefusedAt, RepeatedAt, Taken, InOrder, Listed, Lists, Considered, Follows, Method;
    SetsGrow(cfg, kind, depth, seen, links, n);
    SetsAreBelow(cfg, kind, depth, seen, links, n);
    ConsideredIs(cfg, kind, depth, seen, links[n], d);
    chosen1 := chosen;
    var before := ChosenAt(cfg, kind, depth, seen, links, n);
    assert before + {} == before;
    if links[n].canonical.Some? {
      var url := links[n].canonical.value;
      TakenIsListed(cfg, kind, depth, seen, links, n, d, chosen, url);
      if Eligible(cfg, kind, depth, seen, links[n]) && !Taken(cfg, kind, depth, seen, links, n, url) {
        chosen1 := chosen + [n];
        OneMore(chosen, before, n);
        ListsMore(kind, depth, links, chosen, d.candidates, n);
      }
    }
  }

  lemma RefusedNext(
    cfg: Config, kind: Kind, depth: nat, seen: set<Url>, links: seq<Link>, n: nat, d: Decision,
    chosen: seq<nat>, refused: seq<nat>) returns (refused1: seq<nat>)
    requires n < |links| && Decided(cfg, kind, depth, seen, links, n, d, chosen, refused)
    ensures InOrder(refused1, RefusedAt(cfg, seen, links, n + 1))
    ensures Lists(kind, depth, links, refused1, Considered(cfg, kind, depth, seen, links[n], d).rejected)
  {
    hide ChosenAt, RefusedAt, RepeatedAt, Taken, InOrder, Listed, Lists, Considered, Follows, Method, Eligible;
    SetsGrow(cfg, kind, depth, seen, links, n);
    SetsAreBelow(cfg, kind, depth, seen, links, n);
    ConsideredIs(cfg, kind, depth, seen, links[n], d);
    refused1 := refused;
    var before := RefusedAt(cfg, seen, links, n);
    assert before + {} == before;
    if links[n].canonical.Some? {
      var url := links[n].canonical.value;
      TakenIsListed(cfg, kind, depth, seen, links, n, d, chosen, url);
      if Taken(cfg, kind, depth, seen, links, n, url) { TakenIsNew(cfg, kind, depth, seen, links, n, url); }
      if url !in seen && !cfg.inScope(url) {
        refused1 := refused + [n];
        OneMore(refused, before, n);
        ListsMore(kind, depth, links, refused, d.rejected, n);
      }
    }
  }

  lemma RepeatedNext(
    cfg: Config, kind: Kind, depth: nat, seen: set<Url>, links: seq<Link>, n: nat, d: Decision,
    chosen: seq<nat>, refused: seq<nat>)
    requires n < |links| && Decided(cfg, kind, depth, seen, links, n, d, chosen, refused)
    ensures Considered(cfg, kind, depth, seen, links[n], d).duplicates ==
            |RepeatedAt(cfg, kind, depth, seen, links, n + 1)|
  {
    hide ChosenAt, RefusedAt, RepeatedAt, Taken, InOrder, Listed, Lists, Considered, Follows, Method;
    SetsGrow(cfg, kind, depth, seen, links, n);
    SetsAreBelow(cfg, kind, depth, seen, links, n);
    ConsideredIs(cfg, kind, depth, seen, links[n], d);
    if links[n].canonical.Some? {
      TakenIsListed(cfg, kind, depth, seen, links, n, d, chosen, links[n].canonical.value);
    }
  }

  lemma DecidesNext(
    cfg: Config, kind: Kind, depth: nat, seen: set<Url>, links: seq<Link>, n: nat, d: Decision,
    chosen: seq<nat>, refused: seq<nat>) returns (chosen1: seq<nat>, refused1: seq<nat>)
    requires n < |links| && Decided(cfg, kind, depth, seen, links, n, d, chosen, refused)
    ensures Decided(
              cfg, kind, depth, seen, links, n + 1, Considered(cfg, kind, depth, seen, links[n], d), chosen1, refused1)
  {
    hide ChosenAt, RefusedAt, RepeatedAt, InOrder, Lists, Considered;
    chosen1 := ChosenNext(cfg, kind, depth, seen, links, n, d, chosen);
    refused1 := RefusedNext(cfg, kind, depth, seen, links, n, d, chosen, refused);
    RepeatedNext(cfg, kind, depth, seen, links, n, d, chosen, refused);
  }

  lemma SetsAreBelow(cfg: Config, kind: Kind, depth: nat, seen: set<Url>, links: seq<Link>, n: nat)
    requires n < |links|
    ensures forall k <- ChosenAt(cfg, kind, depth, seen, links, n) :: k < n
    ensures forall k <- RefusedAt(cfg, seen, links, n) :: k < n
    ensures n !in RepeatedAt(cfg, kind, depth, seen, links, n)
  {
  }

  // All links

  /** The loops, from left to right. */
  ghost function ConsideredAll(cfg: Config, kind: Kind, depth: nat, seen: set<Url>, links: seq<Link>): Decision {
    match kind
    case SignalLinks(plan) => ConsiderSignals(cfg, plan, depth, seen, links, NO_DECISION)
    case SitemapLinks => ConsiderLocations(cfg, depth, seen, links, NO_DECISION)
  }

  lemma {:induction false} SignalsSnoc(
    cfg: Config, plan: Plan, depth: nat, seen: set<Url>, links: seq<Link>, link: Link, d: Decision)
    ensures ConsiderSignals(cfg, plan, depth, seen, links + [link], d) ==
            ConsiderSignal(cfg, plan, depth, seen, link, ConsiderSignals(cfg, plan, depth, seen, links, d))
    decreases |links|
  {
    hide ConsiderSignal;
    if links == [] {
      assert links + [link] == [link] && [link][1..] == [];
    } else {
      assert (links + [link])[1..] == links[1..] + [link];
      SignalsSnoc(
        cfg, plan, depth, seen, links[1..], link, ConsiderSignal(cfg, plan, depth, seen, links[0], d));
    }
  }

  lemma {:induction false} LocationsSnoc(
    cfg: Config, depth: nat, seen: set<Url>, links: seq<Link>, link: Link, d: Decision)
    ensures ConsiderLocations(cfg, depth, seen, links + [link], d) ==
            ConsiderLocation(cfg, depth, seen, link, ConsiderLocations(cfg, depth, seen, links, d))
    decreases |links|
  {
    hide ConsiderLocation;
    if links == [] {
      assert links + [link] == [link] && [link][1..] == [];
    } else {
      assert (links + [link])[1..] == links[1..] + [link];
      LocationsSnoc(cfg, depth, seen, links[1..], link, ConsiderLocation(cfg, depth, seen, links[0], d));
    }
  }

  lemma {:induction false} DecidesAll(
    cfg: Config, kind: Kind, depth: nat, seen: set<Url>, links: seq<Link>, n: nat)
    returns (chosen: seq<nat>, refused: seq<nat>)
    requires n <= |links|
    ensures Decided(
              cfg, kind, depth, seen, links, n, ConsideredAll(cfg, kind, depth, seen, links[..n]), chosen, refused)
  {
    if n == 0 {
      chosen, refused := [], [];
    } else {
      hide Decided, ConsiderSignal, ConsiderLocation;
      chosen, refused := DecidesAll(cfg, kind, depth, seen, links, n - 1);
      assert links[..n] == links[..n - 1] + [links[n - 1]];
      match kind {
        case SignalLinks(plan) => SignalsSnoc(cfg, plan, depth, seen, links[..n - 1], links[n - 1], NO_DECISION);
        case SitemapLinks => LocationsSnoc(cfg, depth, seen, links[..n - 1], links[n - 1], NO_DECISION);
      }
      chosen, refused := DecidesNext(
        cfg, kind, depth, seen, links, n - 1, ConsideredAll(cfg, kind, depth, seen, links[..n - 1]), chosen, refused);
    }
  }

  /**
   * The decision about the signals of a page, exactly. Links are looked at within the limit per page, and not at all
   * when the page is too deep. The candidates are the new, in-scope links of a followed kind, each URL once, with its
   * method and one level below; the rejected ones are the new links out of scope; the duplicates are the links whose
   * URL the inventory has or an earlier candidate took.
   */
  lemma SignalsExactly(cfg: Config, plan: Plan, parentDepth: nat, links: seq<Link>, seen: set<Url>)
    returns (n: nat, chosen: seq<nat>, refused: seq<nat>)
    ensures n <= |links| && n <= cfg.maxLinksPerPage
    ensures if parentDepth >= plan.maxPages || parentDepth >= cfg.discoveryMaxDepth then n == 0
            else n == |links| || n == cfg.maxLinksPerPage
    ensures Decided(
              cfg, SignalLinks(plan), parentDepth + 1, seen, links, n,
              FromSignals(cfg, plan, parentDepth, links, seen), chosen, refused)
  {
    n := if SignalsFollowed(cfg, plan, parentDepth) then Min(|links|, cfg.maxLinksPerPage) else 0;
    chosen, refused := DecidesAll(cfg, SignalLinks(plan), parentDepth + 1, seen, links, n);
  }

  /** The same for the locations of a sitemap: in scope and within the depth limit. */
  lemma LocationsExactly(cfg: Config, parentDepth: nat, links: seq<Link>, seen: set<Url>)
    returns (n: nat, chosen: seq<nat>, refused: seq<nat>)
    ensures n <= |links| && n <= cfg.sitemapMaxUrls && (n == |links| || n == cfg.sitemapMaxUrls)
    ensures Decided(
              cfg, SitemapLinks, parentDepth + 1, seen, links, n,
              SitemapCandidates(cfg, parentDepth, links, seen), chosen, refused)
  {
    n := Min(|links|, cfg.sitemapMaxUrls);
    chosen, refused := DecidesAll(cfg, SitemapLinks, parentDepth + 1, seen, links, n);
  }

  /** A URL becomes a candidate if and only if an eligible link within the limits has it. */
  lemma CandidateExactly(cfg: Config, plan: Plan, parentDepth: nat, links: seq<Link>, seen: set<Url>, url: Url)
    ensures Listed(FromSignals(cfg, plan, parentDepth, links, seen).candidates, url) <==>
            && parentDepth < plan.maxPages && parentDepth < cfg.discoveryMaxDepth
            && url !in seen && cfg.inScope(url)
            && exists k :: 0 <= k < |links| && k < cfg.maxLinksPerPage && links[k].canonical == Some(url)
                 && if links[k].pagination then plan.followPagination else plan.followRelevantLinks
  {
    hide Decided, ConsiderSignals;
    var n, chosen, refused := SignalsExactly(cfg, plan, parentDepth, links, seen);
    assert Listed(FromSignals(cfg, plan, parentDepth, links, seen).candidates, url) <==>
           Taken(cfg, SignalLinks(plan), parentDepth + 1, seen, links, n, url) by {
      DecidedTakes(
        cfg, SignalLinks(plan), parentDepth + 1, seen, links, n, FromSignals(cfg, plan, parentDepth, links, seen),
        chosen, refused, url);
    }
    if k :| 0 <= k < |links| && k < cfg.maxLinksPerPage && links[k].canonical == Some(url)
            && if links[k].pagination then plan.followPagination else plan.followRelevantLinks {
      assert parentDepth < plan.maxPages && parentDepth < cfg.discoveryMaxDepth ==> k < n;
    }
  }

  lemma DecidedTakes(
    cfg: Config, kind: Kind, depth: nat, seen: set<Url>, links: seq<Link>, n: nat, d: Decision,
    chosen: seq<nat>, refused: seq<nat>, url: Url)
    requires n <= |links| && Decided(cfg, kind, depth, seen, links, n, d, chosen, refused)
    ensures Listed(d.candidates, url) <==> Taken(cfg, kind, depth, seen, links, n, url)
  {
    TakenIsListed(cfg, kind, depth, seen, links, n, d, chosen, url);
  }
}
