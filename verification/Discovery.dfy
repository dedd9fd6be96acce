/** Navigation-candidate analysis (discovery_service.py): which links of a page become crawl candidates. */
module Discovery {
  import opened Wrappers
  import opened Rows

  /** One signal or sitemap location: its canonical URL, if it has one, and whether it looks like pagination. */
  datatype Link = Link(canonical: Option<Url>, pagination: bool)

  datatype Candidate = Candidate(url: Url, via: DiscoveryMethod, depth: nat)

  datatype Decision = Decision(candidates: seq<Candidate>, rejected: seq<Candidate>, duplicates: nat)

  const NO_DECISION := Decision([], [], 0)

  predicate Listed(candidates: seq<Candidate>, url: Url) {
    exists i :: 0 <= i < |candidates| && candidates[i].url == url
  }

  function AddCandidate(d: Decision, c: Candidate): Decision { d.(candidates := d.candidates + [c]) }

  function AddRejected(d: Decision, c: Candidate): Decision { d.(rejected := d.rejected + [c]) }

  /** What one navigation signal adds to the decision. */
  function ConsiderSignal(cfg: Config, plan: Plan, depth: nat, seen: set<Url>, link: Link, d: Decision): Decision {
    if link.canonical.None? then d
    else
      var url := link.canonical.value;
      var c := Candidate(url, if link.pagination then FromPagination else FromRelevantLink, depth);
      if url in seen || Listed(d.candidates, url) then d.(duplicates := d.duplicates + 1)
      else if !cfg.inScope(url) then AddRejected(d, c)
      else if link.pagination && plan.followPagination then AddCandidate(d, c)
      else if !link.pagination && plan.followRelevantLinks then AddCandidate(d, c)
      else d
  }

  function ConsiderSignals(cfg: Config, plan: Plan, depth: nat, seen: set<Url>, links: seq<Link>, d: Decision):
    Decision
  {
    if links == [] then d
    else ConsiderSignals(cfg, plan, depth, seen, links[1..], ConsiderSignal(cfg, plan, depth, seen, links[0], d))
  }

  predicate SignalsFollowed(cfg: Config, plan: Plan, parentDepth: nat) {
    parentDepth < Min(plan.maxPages, cfg.discoveryMaxDepth)
  }

  function FromSignals(cfg: Config, plan: Plan, parentDepth: nat, links: seq<Link>, seen: set<Url>): Decision {
    if !SignalsFollowed(cfg, plan, parentDepth) then NO_DECISION
    else
      ConsiderSignals(cfg, plan, parentDepth + 1, seen, links[..Min(|links|, cfg.maxLinksPerPage)], NO_DECISION)
  }

  /** What one sitemap location adds to the decision. */
  function ConsiderLocation(cfg: Config, depth: nat, seen: set<Url>, link: Link, d: Decision): Decision {
    if link.canonical.None? then d
    else
      var url := link.canonical.value;
      var c := Candidate(url, FromSitemap, depth);
      if url in seen || Listed(d.candidates, url) then d.(duplicates := d.duplicates + 1)
      else if cfg.inScope(url) && depth <= cfg.discoveryMaxDepth then AddCandidate(d, c)
      else if !cfg.inScope(url) then AddRejected(d, c)
      else d
  }

  function ConsiderLocations(cfg: Config, depth: nat, seen: set<Url>, links: seq<Link>, d: Decision): Decision {
    if links == [] then d
    else ConsiderLocations(cfg, depth, seen, links[1..], ConsiderLocation(cfg, depth, seen, links[0], d))
  }

  function SitemapCandidates(cfg: Config, parentDepth: nat, links: seq<Link>, seen: set<Url>): Decision {
    ConsiderLocations(cfg, parentDepth + 1, seen, links[..Min(|links|, cfg.sitemapMaxUrls)], NO_DECISION)
  }

  /**
   * What every decision promises: candidates are new, pairwise different, in scope and one level below their
   * parent within the depth limit; rejected links are out of scope.
   */
  ghost predicate Sound(cfg: Config, depth: nat, seen: set<Url>, d: Decision) {
    && (forall i :: 0 <= i < |d.candidates| ==>
          && d.candidates[i].url !in seen
          && cfg.inScope(d.candidates[i].url)
          && d.candidates[i].depth == depth <= cfg.discoveryMaxDepth)
    && (forall i, j :: 0 <= i < j < |d.candidates| ==> d.candidates[i].url != d.candidates[j].url)
    && (forall i :: 0 <= i < |d.rejected| ==>
          !cfg.inScope(d.rejected[i].url) && d.rejected[i].url !in seen && d.rejected[i].depth == depth)
  }

  lemma {:induction false} SignalsAreSound(
    cfg: Config, plan: Plan, depth: nat, seen: set<Url>, links: seq<Link>, d: Decision)
    requires depth <= cfg.discoveryMaxDepth && Sound(cfg, depth, seen, d)
    ensures Sound(cfg, depth, seen, ConsiderSignals(cfg, plan, depth, seen, links, d))
    decreases |links|
  {
    if links != [] {
      SignalsAreSound(cfg, plan, depth, seen, links[1..], ConsiderSignal(cfg, plan, depth, seen, links[0], d));
    }
  }

  lemma FromSignalsIsSound(cfg: Config, plan: Plan, parentDepth: nat, links: seq<Link>, seen: set<Url>)
    ensures Sound(cfg, parentDepth + 1, seen, FromSignals(cfg, plan, parentDepth, links, seen))
  {
    if SignalsFollowed(cfg, plan, parentDepth) {
      SignalsAreSound(cfg, plan, parentDepth + 1, seen, links[..Min(|links|, cfg.maxLinksPerPage)], NO_DECISION);
    }
  }

  lemma {:induction false} LocationsAreSound(cfg: Config, depth: nat, seen: set<Url>, links: seq<Link>, d: Decision)
    requires Sound(cfg, depth, seen, d)
    ensures Sound(cfg, depth, seen, ConsiderLocations(cfg, depth, seen, links, d))
    decreases |links|
  {
    if links != [] {
      LocationsAreSound(cfg, depth, seen, links[1..], ConsiderLocation(cfg, depth, seen, links[0], d));
    }
  }

  /** The loops of DiscoveryService; each computes the decision specified above. */
  class DiscoveryService {
    const cfg: Config

    constructor (cfg: Config)
      ensures this.cfg == cfg
    {
      this.cfg := cfg;
    }

    method Signals(plan: Plan, parentDepth: nat, links: seq<Link>, seen: set<Url>) returns (d: Decision)
      ensures d == FromSignals(cfg, plan, parentDepth, links, seen)
      ensures Sound(cfg, parentDepth + 1, seen, d)
    {
      FromSignalsIsSound(cfg, plan, parentDepth, links, seen);
      d := NO_DECISION;
      if parentDepth >= Min(plan.maxPages, cfg.discoveryMaxDepth) || parentDepth + 1 > cfg.discoveryMaxDepth {
        return;
      }
      var bounded := links[..Min(|links|, cfg.maxLinksPerPage)];
      for i := 0 to |bounded|
        invariant ConsiderSignals(cfg, plan, parentDepth + 1, seen, bounded[i..], d) ==
                  ConsiderSignals(cfg, plan, parentDepth + 1, seen, bounded, NO_DECISION)
      {
        assert bounded[i..][1..] == bounded[i + 1..];
        var link := bounded[i];
        if link.canonical.Some? {
          var url := link.canonical.value;
          var c := Candidate(url, if link.pagination then FromPagination else FromRelevantLink, parentDepth + 1);
          if url in seen || Listed(d.candidates, url) {
            d := d.(duplicates := d.duplicates + 1);
          } else if !cfg.inScope(url) {
            d := d.(rejected := d.rejected + [c]);
          } else if link.pagination && plan.followPagination {
            d := d.(candidates := d.candidates + [c]);
          } else if !link.pagination && plan.followRelevantLinks {
            d := d.(candidates := d.candidates + [c]);
          }
        }
      }
    }

    method Sitemap(parentDepth: nat, locations: seq<Link>, seen: set<Url>) returns (d: Decision)
      ensures d == SitemapCandidates(cfg, parentDepth, locations, seen)
      ensures Sound(cfg, parentDepth + 1, seen, d)
    {
      d := NO_DECISION;
      var bounded := locations[..Min(|locations|, cfg.sitemapMaxUrls)];
      LocationsAreSound(cfg, parentDepth + 1, seen, bounded, NO_DECISION);
      for i := 0 to |bounded|
        invariant ConsiderLocations(cfg, parentDepth + 1, seen, bounded[i..], d) ==
                  ConsiderLocations(cfg, parentDepth + 1, seen, bounded, NO_DECISION)
      {
        assert bounded[i..][1..] == bounded[i + 1..];
        var link := bounded[i];
        if link.canonical.Some? {
          var url := link.canonical.value;
          var c := Candidate(url, FromSitemap, parentDepth + 1);
          if url in seen || Listed(d.candidates, url) {
            d := d.(duplicates := d.duplicates + 1);
          } else if cfg.inScope(url) && parentDepth + 1 <= cfg.discoveryMaxDepth {
            d := d.(candidates := d.candidates + [c]);
          } else if !cfg.inScope(url) {
            d := d.(rejected := d.rejected + [c]);
          }
        }
      }
    }
  }
}
