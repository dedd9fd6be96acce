/** Path normalization of rooted paths: dot segments, repeated slashes and the trailing slash. */
module Paths {
  import opened Wrappers
  import opened Percent

  // Scanning

  /** The characters up to the first one in `stop`. */
  function Before(s: string, stop: set<char>): (r: string)
    ensures |r| <= |s| && s[..|r|] == r
    ensures forall c <- r :: c !in stop
    ensures |r| == |s| || s[|r|] in stop
  {
    if s == "" || s[0] in stop then ""
    else
      var r := Before(s[1..], stop);
      assert s == [s[0]] + s[1..];
      [s[0]] + r
  }

  function From(s: string, stop: set<char>): string { s[|Before(s, stop)|..] }

  lemma {:induction false} BeforeConcat(a: string, b: string, stop: set<char>)
    requires forall c <- a :: c !in stop
    requires b == "" || b[0] in stop
    ensures Before(a + b, stop) == a && From(a + b, stop) == b
  {
    if a == "" {
      assert a + b == b;
    } else {
      assert (a + b)[1..] == a[1..] + b;
      BeforeConcat(a[1..], b, stop);
      assert a == [a[0]] + a[1..];
    }
  }

  // normpath

  function Push(comps: seq<string>, segment: string): seq<string> {
    if segment == "" || segment == "." then comps
    else if segment == ".." then if comps == [] then [] else comps[..|comps| - 1]
    else comps + [segment]
  }

  const SLASH: set<char> := {'/'}

  /** The components that remain, after those collected so far. */
  function Components(path: string, comps: seq<string>): seq<string>
    decreases |path|
  {
    var segment := Before(path, SLASH);
    var rest := From(path, SLASH);
    if rest == "" then Push(comps, segment) else Components(rest[1..], Push(comps, segment))
  }

  function JoinPath(comps: seq<string>): string {
    if comps == [] then "" else if |comps| == 1 then comps[0] else comps[0] + "/" + JoinPath(comps[1..])
  }

  predicate Rooted(path: string) { path != "" && path[0] == '/' }

  /** Two leading slashes stay two; any other number becomes one. */
  function Lead(path: string): string {
    if "//" <= path && !("///" <= path) then "//" else "/"
  }

  /** posixpath.normpath of a rooted path. */
  function NormPath(path: string): string { Lead(path) + JoinPath(Components(path, [])) }

  predicate EndsInSlash(s: string) { s != "" && s[|s| - 1] == '/' }

  /** normpath, with the trailing slash put back. */
  function CleanPath(path: string): string {
    var n := NormPath(path);
    if EndsInSlash(path) && !EndsInSlash(n) then n + "/" else n
  }

  // Clean paths

  predicate Plain(segment: string) { segment != "" && segment != "." && segment != ".." && '/' !in segment }

  predicate AllPlain(comps: seq<string>) { forall i :: 0 <= i < |comps| ==> Plain(comps[i]) }

  /** The text of a clean path. */
  function Render(lead: string, comps: seq<string>, trail: bool): string {
    lead + JoinPath(comps) + if trail then "/" else ""
  }

  /** No segment is "." or "..". */
  predicate DotFree(path: string)
    decreases |path|
  {
    var segment := Before(path, SLASH);
    var rest := From(path, SLASH);
    segment != "." && segment != ".." && (rest == "" || DotFree(rest[1..]))
  }

  lemma {:induction false} ComponentsArePlain(path: string, comps: seq<string>)
    requires AllPlain(comps)
    ensures AllPlain(Components(path, comps))
    decreases |path|
  {
    var segment, rest := Before(path, SLASH), From(path, SLASH);
    assert AllPlain(Push(comps, segment));
    if rest != "" { ComponentsArePlain(rest[1..], Push(comps, segment)); }
  }

  lemma {:induction false} JoinEnds(comps: seq<string>)
    requires AllPlain(comps)
    ensures comps != [] ==> JoinPath(comps) != "" && JoinPath(comps)[0] != '/' && !EndsInSlash(JoinPath(comps))
  {
    if |comps| == 1 {
      assert comps[0][0] in comps[0] && comps[0][|comps[0]| - 1] in comps[0];
    } else if comps != [] {
      assert comps[0][0] in comps[0];
      JoinEnds(comps[1..]);
    }
  }

  /** What cleaning yields, and that nothing but a clean path is left alone. */
  lemma CleanShape(path: string)
    requires Rooted(path)
    ensures var comps := Components(path, []);
            && AllPlain(comps)
            && CleanPath(path) == Render(Lead(path), comps, EndsInSlash(path) && comps != [])
  {
    var comps := Components(path, []);
    ComponentsArePlain(path, []);
    JoinEnds(comps);
    var n := NormPath(path);
    if comps == [] {
      assert n == Lead(path);
    } else {
      assert n[|n| - 1] == JoinPath(comps)[|JoinPath(comps)| - 1];
    }
    assert n + "" == n;
  }

  /** Reading one plain segment. */
  lemma ReadSegment(segment: string, more: string, acc: seq<string>)
    requires Plain(segment) && (more == "" || more[0] == '/')
    ensures Components(segment + more, acc) ==
            if more == "" then acc + [segment] else Components(more[1..], acc + [segment])
    ensures DotFree(segment + more) == (more == "" || DotFree(more[1..]))
  {
    BeforeConcat(segment, more, SLASH);
  }

  /** What follows the first component of a joined path. */
  function Following(comps: seq<string>, trail: string): string
    requires comps != []
  {
    if |comps| == 1 then trail else "/" + (JoinPath(comps[1..]) + trail)
  }

  lemma JoinUnfolds(comps: seq<string>, trail: string)
    requires comps != []
    ensures JoinPath(comps) + trail == comps[0] + Following(comps, trail)
  {
  }

  lemma {:induction false} ComponentsOfJoin(comps: seq<string>, trail: string, acc: seq<string>)
    requires AllPlain(comps) && (trail == "" || trail == "/")
    ensures Components(JoinPath(comps) + trail, acc) == acc + comps
    ensures DotFree(JoinPath(comps) + trail)
    decreases |comps|
  {
    hide Components, DotFree, Plain;
    if comps == [] {
      assert JoinPath(comps) + trail == trail && acc + comps == acc;
      EmptyTail(trail, acc);
    } else {
      var more := Following(comps, trail);
      JoinUnfolds(comps, trail);
      ReadSegment(comps[0], more, acc);
      if |comps| == 1 {
        EmptyTail("", acc + [comps[0]]);
        assert trail == "/" ==> trail[1..] == "";
        assert acc + comps == acc + [comps[0]];
      } else {
        ComponentsOfJoin(comps[1..], trail, acc + [comps[0]]);
        assert more[1..] == JoinPath(comps[1..]) + trail;
        assert acc + comps == (acc + [comps[0]]) + comps[1..];
      }
    }
  }

  lemma EmptyTail(trail: string, acc: seq<string>)
    requires trail == "" || trail == "/"
    ensures Components(trail, acc) == acc && DotFree(trail)
  {
    assert Components("", acc) == acc && DotFree("");
    BeforeConcat("", trail, SLASH);
  }

  lemma SkipSlash(path: string, acc: seq<string>)
    ensures Components("/" + path, acc) == Components(path, acc)
    ensures DotFree("/" + path) == DotFree(path)
  {
    BeforeConcat("", "/" + path, SLASH);
    assert "" + ("/" + path) == "/" + path;
  }

  lemma ReadLead(lead: string, tail: string, acc: seq<string>)
    requires lead == "/" || lead == "//"
    ensures Components(lead + tail, acc) == Components(tail, acc) && DotFree(lead + tail) == DotFree(tail)
  {
    hide Components, DotFree;
    SkipSlash(tail, acc);
    if lead == "//" {
      SkipSlash("/" + tail, acc);
      assert lead + tail == "/" + ("/" + tail);
    }
  }

  lemma LeadOfRender(lead: string, tail: string)
    requires lead == "/" || lead == "//"
    requires tail != "" ==> tail[0] != '/'
    ensures Lead(lead + tail) == lead
  {
    var path := lead + tail;
    assert |path| >= 2 && lead == "/" ==> path[1] == tail[0] != "//"[1];
    assert |path| >= 3 && lead == "//" ==> path[2] == tail[0] != "///"[2];
    assert lead == "//" ==> path[..2] == "//";
  }

  /** A clean path is its own normal form, and has no dot segments. */
  lemma RenderIsFixed(lead: string, comps: seq<string>, trail: bool)
    requires (lead == "/" || lead == "//") && AllPlain(comps) && (trail ==> comps != [])
    ensures var path := Render(lead, comps, trail);
            Rooted(path) && CleanPath(path) == path && DotFree(path) && Components(path, []) == comps
  {
    hide Components, DotFree, Plain, Lead, JoinPath, CleanPath;
    var end := if trail then "/" else "";
    var path := Render(lead, comps, trail);
    assert path == lead + (JoinPath(comps) + end);
    JoinEnds(comps);
    ComponentsOfJoin(comps, end, []);
    assert [] + comps == comps;
    ReadLead(lead, JoinPath(comps) + end, []);
    assert comps == [] ==> JoinPath(comps) == "" by { JoinNothing(); }
    LeadOfRender(lead, JoinPath(comps) + end);
    CleanShape(path);
    if comps != [] && !trail { assert path[|path| - 1] == JoinPath(comps)[|JoinPath(comps)| - 1]; }
  }

  lemma JoinNothing()
    ensures JoinPath([]) == ""
  {
  }

  // Cleaning commutes with quoting

  lemma {:induction false} QuoteConcat(safe: set<char>, a: string, b: string)
    ensures Quote(safe, a + b) == Quote(safe, a) + Quote(safe, b)
  {
    if a == "" {
      assert a + b == b;
    } else {
      assert (a + b)[1..] == a[1..] + b;
      QuoteConcat(safe, a[1..], b);
    }
  }

  /** The sets of safe characters of paths keep slashes and dots. */
  predicate KeepsPaths(safe: set<char>) { '/' in safe && '.' in safe }

  lemma {:induction false} EscapeHasNoSlash(bytes: seq<Byte>)
    ensures '/' !in Escape(bytes) && '.' !in Escape(bytes)
  {
    if bytes != [] { EscapeHasNoSlash(bytes[1..]); }
  }

  /** A quoted segment has no slash, and is empty or a dot segment only if the segment is. */
  lemma {:induction false} QuoteSegment(safe: set<char>, s: string)
    requires KeepsPaths(safe) && '/' !in s
    ensures '/' !in Quote(safe, s) && |Quote(safe, s)| >= |s|
  {
    if s != "" {
      EscapeHasNoSlash(EncodeChar(s[0]));
      QuoteSegment(safe, s[1..]);
    }
  }

  lemma QuoteDots(safe: set<char>, s: string)
    requires KeepsPaths(safe) && '/' !in s
    ensures Quote(safe, s) == "" <==> s == ""
    ensures Quote(safe, s) == "." <==> s == "."
    ensures Quote(safe, s) == ".." <==> s == ".."
  {
    QuoteSegment(safe, s);
    QuoteOfDots(safe);
    if Quote(safe, s) == "." {
      QuoteHead(safe, s);
    } else if Quote(safe, s) == ".." {
      QuoteHead(safe, s);
      QuoteHead(safe, s[1..]);
      assert s == [s[0]] + s[1..];
    }
  }

  lemma QuoteOfDots(safe: set<char>)
    requires KeepsPaths(safe)
    ensures Quote(safe, "") == "" && Quote(safe, ".") == "." && Quote(safe, "..") == ".." && Quote(safe, "/") == "/"
    ensures Quote(safe, "//") == "//"
  {
    assert "."[1..] == "" && ".."[1..] == "." && "/"[1..] == "" && "//"[1..] == "/";
  }

  function QuoteAll(safe: set<char>, comps: seq<string>): (r: seq<string>)
    ensures |r| == |comps| && forall i :: 0 <= i < |r| ==> r[i] == Quote(safe, comps[i])
  {
    seq(|comps|, i requires 0 <= i < |comps| => Quote(safe, comps[i]))
  }

  lemma QuotePush(safe: set<char>, comps: seq<string>, segment: string)
    requires KeepsPaths(safe) && '/' !in segment
    ensures QuoteAll(safe, Push(comps, segment)) == Push(QuoteAll(safe, comps), Quote(safe, segment))
  {
    QuoteDots(safe, segment);
  }

  lemma {:induction false} QuoteComponents(safe: set<char>, path: string, comps: seq<string>)
    requires KeepsPaths(safe)
    ensures Components(Quote(safe, path), QuoteAll(safe, comps)) == QuoteAll(safe, Components(path, comps))
    decreases |path|
  {
    var segment, rest := Before(path, SLASH), From(path, SLASH);
    assert path == segment + rest;
    QuoteConcat(safe, segment, rest);
    QuoteSegment(safe, segment);
    QuotePush(safe, comps, segment);
    if rest != "" { assert Quote(safe, rest) == "/" + Quote(safe, rest[1..]); }
    BeforeConcat(Quote(safe, segment), Quote(safe, rest), SLASH);
    if rest != "" {
      QuoteComponents(safe, rest[1..], Push(comps, segment));
      assert Quote(safe, rest)[1..] == Quote(safe, rest[1..]);
    }
  }

  /** Quoting neither hides nor makes a dot segment. */
  lemma {:induction false} QuoteKeepsDots(safe: set<char>, path: string)
    requires KeepsPaths(safe)
    ensures DotFree(Quote(safe, path)) <==> DotFree(path)
    decreases |path|
  {
    var segment, rest := Before(path, SLASH), From(path, SLASH);
    assert path == segment + rest;
    QuoteConcat(safe, segment, rest);
    QuoteSegment(safe, segment);
    QuoteDots(safe, segment);
    if rest != "" { assert Quote(safe, rest) == "/" + Quote(safe, rest[1..]); }
    BeforeConcat(Quote(safe, segment), Quote(safe, rest), SLASH);
    if rest != "" {
      QuoteKeepsDots(safe, rest[1..]);
      assert Quote(safe, rest)[1..] == Quote(safe, rest[1..]);
    }
  }

  lemma {:induction false} QuoteJoin(safe: set<char>, comps: seq<string>)
    requires KeepsPaths(safe)
    ensures Quote(safe, JoinPath(comps)) == JoinPath(QuoteAll(safe, comps))
  {
    QuoteOfDots(safe);
    if |comps| > 1 {
      QuoteConcat(safe, comps[0] + "/", JoinPath(comps[1..]));
      QuoteConcat(safe, comps[0], "/");
      QuoteJoin(safe, comps[1..]);
      assert QuoteAll(safe, comps)[1..] == QuoteAll(safe, comps[1..]);
    }
  }

  lemma {:induction false} QuoteEnd(safe: set<char>, s: string)
    requires KeepsPaths(safe)
    ensures EndsInSlash(Quote(safe, s)) <==> EndsInSlash(s)
  {
    if s != "" {
      var n := |s| - 1;
      assert s == s[..n] + [s[n]];
      QuoteConcat(safe, s[..n], [s[n]]);
      assert Quote(safe, [s[n]]) == QuoteChar(safe, s[n]);
      EscapeHasNoSlash(EncodeChar(s[n]));
      var q := QuoteChar(safe, s[n]);
      assert q[|q| - 1] in q;
    }
  }

  lemma QuoteLead(safe: set<char>, path: string)
    requires KeepsPaths(safe) && Rooted(path)
    ensures Rooted(Quote(safe, path)) && Lead(Quote(safe, path)) == Lead(path)
  {
    var q := Quote(safe, path);
    assert q == "/" + Quote(safe, path[1..]);
    SlashFirst(safe, path[1..]);
    if |path| > 1 && path[1] == '/' {
      assert q[1..] == "/" + Quote(safe, path[1..][1..]);
      SlashFirst(safe, path[1..][1..]);
    }
  }

  lemma SlashFirst(safe: set<char>, s: string)
    requires KeepsPaths(safe)
    ensures Rooted(Quote(safe, s)) <==> Rooted(s)
    ensures Rooted(s) ==> Quote(safe, s) == "/" + Quote(safe, s[1..])
  {
    if s != "" {
      EscapeHasNoSlash(EncodeChar(s[0]));
      assert Quote(safe, s)[0] == QuoteChar(safe, s[0])[0];
    }
  }

  /** Cleaning a quoted path is quoting the clean path. */
  lemma QuoteClean(safe: set<char>, path: string)
    requires KeepsPaths(safe) && Rooted(path)
    ensures CleanPath(Quote(safe, path)) == Quote(safe, CleanPath(path))
  {
    hide Components, JoinPath, CleanPath, Quote;
    var q := Quote(safe, path);
    var comps := Components(path, []);
    QuoteLead(safe, path);
    QuoteEnd(safe, path);
    assert QuoteAll(safe, []) == [];
    QuoteComponents(safe, path, []);
    CleanShape(path);
    CleanShape(q);
    QuoteRender(safe, Lead(path), comps, EndsInSlash(path) && comps != []);
  }

  lemma QuoteRender(safe: set<char>, lead: string, comps: seq<string>, trail: bool)
    requires KeepsPaths(safe) && (lead == "/" || lead == "//")
    ensures Quote(safe, Render(lead, comps, trail)) == Render(lead, QuoteAll(safe, comps), trail)
  {
    hide Quote, JoinPath;
    QuoteOfDots(safe);
    QuoteJoin(safe, comps);
    QuoteConcat(safe, lead, JoinPath(comps));
    QuoteConcat(safe, lead + JoinPath(comps), if trail then "/" else "");
  }

  // Cleaning only removes characters

  /** The components, each with a slash after it. */
  function Flat(comps: seq<string>): string {
    if comps == [] then "" else comps[0] + "/" + Flat(comps[1..])
  }

  lemma {:induction false} FlatSnoc(comps: seq<string>, segment: string)
    ensures Flat(comps + [segment]) == Flat(comps) + segment + "/"
  {
    if comps != [] {
      FlatSnoc(comps[1..], segment);
      assert (comps + [segment])[1..] == comps[1..] + [segment];
    }
  }

  lemma {:induction false} FlatIsJoin(comps: seq<string>)
    requires comps != []
    ensures Flat(comps) == JoinPath(comps) + "/"
  {
    if |comps| == 1 {
      assert Flat(comps[1..]) == "";
    } else {
      FlatIsJoin(comps[1..]);
    }
  }

  /** Collecting a segment never adds more than its text, and less unless it is kept. */
  lemma PushShrinks(comps: seq<string>, segment: string)
    ensures |Flat(Push(comps, segment))| <= |Flat(comps)| + |segment| + 1
    ensures |Flat(Push(comps, segment))| == |Flat(comps)| + |segment| + 1 ==>
              Flat(Push(comps, segment)) == Flat(comps) + segment + "/"
  {
    if segment == ".." && comps != [] {
      var n := |comps| - 1;
      assert comps == comps[..n] + [comps[n]];
      FlatSnoc(comps[..n], comps[n]);
    } else if segment != "" && segment != "." && segment != ".." {
      FlatSnoc(comps, segment);
    }
  }

  lemma Regroup(a: string, segment: string, rest: string)
    ensures (a + segment + "/") + rest + "/" == a + (segment + "/" + rest) + "/"
  {
  }

  /** One step of the scan: the first segment, and what follows its slash. */
  lemma ReadFirst(path: string, comps: seq<string>) returns (segment: string, more: Option<string>)
    ensures more.None? ==> path == segment && '/' !in segment && Components(path, comps) == Push(comps, segment)
    ensures more.Some? ==>
              && path == segment + "/" + more.value && '/' !in segment
              && Components(path, comps) == Components(more.value, Push(comps, segment))
  {
    segment := Before(path, SLASH);
    var rest := From(path, SLASH);
    if rest == "" {
      more := None;
    } else {
      more := Some(rest[1..]);
      assert path == segment + rest;
    }
  }

  lemma {:induction false} ComponentsShrink(path: string, comps: seq<string>)
    ensures |Flat(Components(path, comps))| <= |Flat(comps)| + |path| + 1
    ensures |Flat(Components(path, comps))| == |Flat(comps)| + |path| + 1 ==>
              Flat(Components(path, comps)) == Flat(comps) + path + "/"
    decreases |path|
  {
    hide Push, Flat;
    var segment, more := ReadFirst(path, comps);
    PushShrinks(comps, segment);
    if more.Some? {
      ComponentsShrink(more.value, Push(comps, segment));
      Regroup(Flat(comps), segment, more.value);
    }
  }

  lemma ScanSlash(segment: string, rest: string, comps: seq<string>)
    requires '/' !in segment
    ensures Components(segment + "/" + rest, comps) == Components(rest, Push(comps, segment))
  {
    BeforeConcat(segment, "/" + rest, SLASH);
    assert segment + "/" + rest == segment + ("/" + rest);
  }

  /** A slash at the end adds no component. */
  lemma {:induction false} ComponentsOfSlashed(path: string, comps: seq<string>)
    ensures Components(path + "/", comps) == Components(path, comps)
    decreases |path|
  {
    hide Components;
    var segment, more := ReadFirst(path, comps);
    var rest := if more.Some? then more.value + "/" else "";
    ScanSlash(segment, rest, comps);
    assert path + "/" == segment + "/" + rest;
    if more.Some? {
      ComponentsOfSlashed(more.value, Push(comps, segment));
    } else {
      EmptyTail("", Push(comps, segment));
    }
  }

  lemma LeadSplits(path: string) returns (tail: string)
    requires Rooted(path)
    ensures path == Lead(path) + tail && Components(path, []) == Components(tail, [])
  {
    tail := path[|Lead(path)|..];
    assert path == Lead(path) + tail;
    ReadLead(Lead(path), tail, []);
  }

  lemma NoComponents(comps: seq<string>)
    requires comps == []
    ensures JoinPath(comps) == "" && Flat(comps) == ""
  {
  }

  /** A clean path is not longer than the path, and as long only if it is the path. */
  lemma CleanShrinks(path: string)
    requires Rooted(path)
    ensures |CleanPath(path)| <= |path|
    ensures |CleanPath(path)| == |path| ==> CleanPath(path) == path
  {
    hide Components, CleanPath, JoinPath, Flat, Lead, DotFree;
    var tail := LeadSplits(path);
    var comps := Components(path, []);
    CleanShape(path);
    NoComponents([]);
    if comps == [] {
      assert |tail| == 0 ==> path == Lead(path);
    } else {
      FlatIsJoin(comps);
      if EndsInSlash(path) {
        assert tail != "" by { EmptyTail("", []); }
        var body := tail[..|tail| - 1];
        assert tail == body + "/" by { assert tail[|tail| - 1] == path[|path| - 1]; }
        ComponentsOfSlashed(body, []);
        ComponentsShrink(body, []);
        assert "" + body + "/" == tail;
        assert CleanPath(path) == Lead(path) + Flat(comps);
      } else {
        ComponentsShrink(tail, []);
        assert "" + tail + "/" == tail + "/";
        assert CleanPath(path) == Lead(path) + JoinPath(comps);
        if |Flat(comps)| == |tail| + 1 { assert JoinPath(comps) == Flat(comps)[..|tail|] == tail; }
      }
    }
  }

  // The paths that a second normalization leaves alone

  /**
   * A quoted path survives cleaning and another decoding and quoting if and only if it is clean and its escapes are
   * settled.
   */
  lemma SecondPath(safe: set<char>, path: string)
    requires KeepsPaths(safe) && KeepsEscapes(safe) && Rooted(path)
    ensures var q := Quote(safe, path);
            Quote(safe, Unquote(CleanPath(q))) == q <==> CleanPath(q) == q && Settled(safe, q)
  {
    hide Unquote, CleanPath, Components, Settled, EscapeFree;
    var q := Quote(safe, path);
    if CleanPath(q) == q && Settled(safe, q) {
      QuotedIsSafe(safe, path);
      QuoteIsAscii(safe, path);
      var t := SettledIsQuoted(safe, q);
      QuoteRoundTrip(safe, t);
    }
    if Quote(safe, Unquote(CleanPath(q))) == q {
      QuoteLead(safe, path);
      FixedIsClean(safe, q);
    }
  }

  /** Decoding and cleaning lose characters, so a path that comes back has lost none. */
  lemma FixedIsClean(safe: set<char>, q: string)
    requires KeepsPaths(safe) && KeepsEscapes(safe) && Rooted(q)
    requires Quote(safe, Unquote(CleanPath(q))) == q
    ensures CleanPath(q) == q && Settled(safe, q)
  {
    hide Unquote, CleanPath, Components, Settled, EscapeFree, Quote;
    var t := Unquote(CleanPath(q));
    assert Rooted(t) by { SlashFirst(safe, t); }
    QuoteClean(safe, t);
    UnquoteShrinks(safe, CleanPath(t));
    CleanShrinks(t);
    QuotedIsSettled(safe, t);
  }

  lemma {:induction false} QuotedIsSafe(safe: set<char>, s: string)
    requires KeepsEscapes(safe)
    ensures forall i :: 0 <= i < |Quote(safe, s)| ==> Quote(safe, s)[i] in safe
  {
    if s != "" {
      QuotedIsSafe(safe, s[1..]);
      EscapeIsSafe(safe, EncodeChar(s[0]));
    }
  }

  lemma {:induction false} EscapeIsSafe(safe: set<char>, bytes: seq<Byte>)
    requires KeepsEscapes(safe)
    ensures forall i :: 0 <= i < |Escape(bytes)| ==> Escape(bytes)[i] in safe
  {
    if bytes != [] {
      EscapeIsSafe(safe, bytes[1..]);
      assert IsHex(HexDigit(bytes[0] / 16)) && IsHex(HexDigit(bytes[0] % 16));
    }
  }
}
