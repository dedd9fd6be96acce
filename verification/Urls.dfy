/** URL canonicalization and crawl scope (discovery_policy.py). */
module Urls {
  import opened Wrappers
  import opened Decimals
  import opened Percent
  import opened Paths

  /** Library decisions about host names that are not plain ASCII or are IP literals. */
  datatype Net = Net(lower: string -> string, normalized: string -> bool, ipLiteral: string -> bool)

  datatype Split = Split(scheme: string, netloc: string, path: string, query: string)

  // Splitting

  const BREAKS: set<char> := {'\t', '\r', '\n'}

  function WithoutBreaks(s: string): string {
    if s == "" then "" else if s[0] in BREAKS then WithoutBreaks(s[1..]) else [s[0]] + WithoutBreaks(s[1..])
  }

  function SkipControls(s: string): string { if s != "" && s[0] <= ' ' then SkipControls(s[1..]) else s }

  predicate IsLetter(c: char) { 'a' <= c <= 'z' || 'A' <= c <= 'Z' }

  predicate IsSchemeChar(c: char) { IsLetter(c) || IsDigit(c) || c == '+' || c == '-' || c == '.' }

  predicate IsScheme(s: string) { s != "" && IsLetter(s[0]) && forall i :: 0 <= i < |s| ==> IsSchemeChar(s[i]) }

  function LowerChar(c: char): char { if 'A' <= c <= 'Z' then (c as int + 32) as char else c }

  function LowerAscii(s: string): (r: string)
    ensures |r| == |s| && forall i :: 0 <= i < |s| ==> r[i] == LowerChar(s[i])
  {
    seq(|s|, i requires 0 <= i < |s| => LowerChar(s[i]))
  }

  function Lower(net: Net, s: string): string { if AllAscii(s) then LowerAscii(s) else net.lower(s) }

  /** The scheme and what follows its colon. */
  function SplitScheme(s: string): (string, string) {
    var head := Before(s, {':'});
    if |head| < |s| && IsScheme(head) then (LowerAscii(head), s[|head| + 1..]) else ("", s)
  }

  const NETLOC_END: set<char> := {'/', '?', '#'}

  /** What follows the first character of `rest`. */
  function Dropped(rest: string): string { if rest == "" then "" else rest[1..] }

  predicate NetlocOk(net: Net, netloc: string) {
    && ('[' in netloc <==> ']' in netloc)
    && ('[' in netloc ==> net.ipLiteral(netloc))
    && (AllAscii(netloc) || net.normalized(netloc))
  }

  /** urlsplit without the fragment; `None` is its ValueError. */
  function SplitUrl(net: Net, url: string): Option<Split> {
    var (scheme, rest) := SplitScheme(WithoutBreaks(SkipControls(url)));
    var netloc := if "//" <= rest then Before(rest[2..], NETLOC_END) else "";
    var tail := if "//" <= rest then From(rest[2..], NETLOC_END) else rest;
    if !NetlocOk(net, netloc) then None
    else
      var body := Before(tail, {'#'});
      Some(Split(scheme, netloc, Before(body, {'?'}), Dropped(From(body, {'?'}))))
  }

  // The authority

  function AfterLast(s: string, c: char): string
    decreases |s|
  {
    var rest := From(s, {c});
    if rest == "" then s else AfterLast(rest[1..], c)
  }

  /** A user name or a password is given. */
  predicate HasUser(netloc: string) {
    var n := |netloc| - |AfterLast(netloc, '@')|;
    n > 0 && netloc[..n] != "@" && netloc[..n] != ":@"
  }

  /** The host and port texts of the authority, brackets removed. */
  function HostInfo(netloc: string): (string, string) {
    var info := AfterLast(netloc, '@');
    if '[' in info then
      var inner := Dropped(From(info, {'['}));
      (Before(inner, {']'}), Dropped(From(Dropped(From(inner, {']'})), {':'})))
    else (Before(info, {':'}), Dropped(From(info, {':'})))
  }

  /** parsed.hostname: lower case up to a zone identifier. */
  function HostName(net: Net, netloc: string): string {
    var h := HostInfo(netloc).0;
    Lower(net, Before(h, {'%'})) + From(h, {'%'})
  }

  function StripDots(s: string): string { if s != "" && s[|s| - 1] == '.' then StripDots(s[..|s| - 1]) else s }

  function Host(net: Net, netloc: string): string { StripDots(Lower(net, HostName(net, netloc))) }

  /** parsed.port: `None` is its ValueError, 0 stands for no port, which the code does not tell from port 0. */
  function Port(netloc: string): Option<nat> {
    var text := HostInfo(netloc).1;
    if text == "" then Some(0)
    else if IsDigits(text) && FromDecimal(text) <= 65535 then Some(FromDecimal(text))
    else None
  }

  function DefaultPort(scheme: string): nat { if scheme == "https" then 443 else 80 }

  predicate Supported(scheme: string) { scheme == "http" || scheme == "https" }

  // Canonicalization

  predicate IsUnreserved(c: char) { IsLetter(c) || IsDigit(c) || c == '-' || c == '.' || c == '_' || c == '~' }

  const UNRESERVED: set<char> := set c: char | IsUnreserved(c)

  const PATH_SAFE: set<char> := {'/', '%', ':', '@'} + UNRESERVED

  const QUERY_SAFE: set<char> := {'=', '&', ';', '/', '?', ':', '@', '+', '$', ',', '[', ']'} + UNRESERVED

  datatype Canonical = Raises | Rejected | Url(text: string)

  function Netloc(scheme: string, host: string, port: nat): string {
    if port != 0 && port != DefaultPort(scheme) then host + ":" + Decimal(port) else host
  }

  function QueryText(query: string): string { if query == "" then "" else "?" + query }

  /** urlunsplit without a fragment, for a path that begins with a slash: an empty authority keeps its two slashes. */
  function Unsplit(scheme: string, netloc: string, path: string, query: string): string {
    scheme + ":" + ("//" + (netloc + (path + QueryText(query))))
  }

  function RawPath(p: Split): string { if p.path == "" then "/" else p.path }

  /** canonicalize_url of a link that has been resolved against its base. */
  function Canonicalize(net: Net, url: string): Canonical {
    var split := SplitUrl(net, url);
    if split.None? then Raises
    else
      var p := split.value;
      if !Supported(p.scheme) || HostName(net, p.netloc) == "" || HasUser(p.netloc) then Rejected
      else
        var port := Port(p.netloc);
        if port.None? then Rejected
        else
          Url(Unsplit(
            p.scheme, Netloc(p.scheme, Host(net, p.netloc), port.value),
            NormalizePercent(PATH_SAFE, CleanPath(RawPath(p))), NormalizePercent(QUERY_SAFE, p.query)))
  }

  /** canonicalize_url, with its reassigned locals. */
  method CanonicalizeUrl(net: Net, resolved: string) returns (r: Canonical)
    ensures r == Canonicalize(net, resolved)
  {
    hide CleanPath, NormalizePercent, SplitUrl, HostName, HasUser, Port;
    var split := SplitUrl(net, resolved);
    if split.None? {
      return Raises;
    }
    var p := split.value;
    if !Supported(p.scheme) || HostName(net, p.netloc) == "" || HasUser(p.netloc) {
      return Rejected;
    }
    var port := Port(p.netloc);
    if port.None? {
      return Rejected;
    }
    var host := Host(net, p.netloc);
    var netloc := host;
    if port.value != 0 && !((p.scheme == "http" && port.value == 80) || (p.scheme == "https" && port.value == 443)) {
      netloc := host + ":" + Decimal(port.value);
    }
    var rawPath := if p.path == "" then "/" else p.path;
    var path := NormPath(rawPath);
    if EndsInSlash(rawPath) && !EndsInSlash(path) {
      path := path + "/";
    }
    CleansPath(rawPath);
    path := NormalizePercent(PATH_SAFE, path);
    var query := NormalizePercent(QUERY_SAFE, p.query);
    return Url(Unsplit(p.scheme, netloc, path, query));
  }

  lemma CleansPath(path: string)
    ensures var n := NormPath(path); CleanPath(path) == if EndsInSlash(path) && !EndsInSlash(n) then n + "/" else n
  {
  }

  // Which characters a part may hold

  ghost predicate Avoids(s: string, bad: set<char>) { forall i :: 0 <= i < |s| ==> s[i] !in bad }

  lemma BeforeAvoids(s: string, stop: set<char>, bad: set<char>)
    requires Avoids(s, bad)
    ensures Avoids(Before(s, stop), bad + stop) && Avoids(From(s, stop), bad)
  {
    var r := Before(s, stop);
    forall i | 0 <= i < |r|
      ensures r[i] !in bad + stop
    {
      assert r[i] == s[i] && r[i] in r;
    }
  }

  lemma {:induction false} AfterLastAvoids(s: string, c: char, bad: set<char>)
    requires Avoids(s, bad)
    ensures Avoids(AfterLast(s, c), bad + {c})
    decreases |s|
  {
    var rest := From(s, {c});
    if rest == "" {
      BeforeAvoids(s, {c}, bad);
      assert Before(s, {c}) == s;
    } else {
      BeforeAvoids(s, {c}, bad);
      AfterLastAvoids(rest[1..], c, bad);
    }
  }

  lemma {:induction false} WithoutBreaksAvoids(s: string)
    ensures Avoids(WithoutBreaks(s), BREAKS)
  {
    if s != "" { WithoutBreaksAvoids(s[1..]); }
  }

  lemma {:induction false} NothingToDrop(s: string)
    requires Avoids(s, BREAKS)
    ensures WithoutBreaks(s) == s
  {
    if s != "" {
      NothingToDrop(s[1..]);
      assert s == [s[0]] + s[1..];
    }
  }

  lemma NoStop(s: string, stop: set<char>)
    requires Avoids(s, stop)
    ensures Before(s, stop) == s && From(s, stop) == ""
  {
    assert s + "" == s;
    BeforeConcat(s, "", stop);
  }

  lemma NoneAfterLast(s: string, c: char)
    requires Avoids(s, {c})
    ensures AfterLast(s, c) == s
  {
    NoStop(s, {c});
  }

  // Canonical hosts

  /** What no host text has: delimiters of the authority, a user name, or a closing bracket. */
  const HOST_STOPS: set<char> := {'/', '?', '#', '@', ']', '\t', '\r', '\n'}

  /** Lower-casing `s` adds no delimiter, and what it gives is lower case, as is every beginning of it. */
  ghost predicate LowersOnce(net: Net, s: string) {
    var r := net.lower(s);
    && (forall n :: 0 <= n <= |r| ==> net.lower(r[..n]) == r[..n])
    && (forall i :: 0 <= i < |r| ==> LowerChar(r[i]) == r[i] && (r[i] in HOST_STOPS ==> r[i] in s))
  }

  /** What is asked of the library for names outside ASCII: an accepted authority stays accepted in canonical form. */
  ghost predicate Regular(net: Net) {
    && (forall s :: LowersOnce(net, s))
    && (forall netloc, scheme, port: nat ::
          net.normalized(netloc) ==> net.normalized(Netloc(scheme, Host(net, netloc), port)))
  }

  /** A library that folds ASCII letters only, and accepts every name, is regular. */
  lemma FoldingAsciiIsRegular(ipLiteral: string -> bool)
    ensures Regular(Net(LowerAscii, _ => true, ipLiteral))
  {
    var net := Net(LowerAscii, _ => true, ipLiteral);
    forall s
      ensures LowersOnce(net, s)
    {
      var r := LowerAscii(s);
      forall i | 0 <= i < |r|
        ensures LowerChar(r[i]) == r[i] && (r[i] in HOST_STOPS ==> r[i] in s)
      {
        assert s[i] in s && (r[i] in HOST_STOPS ==> r[i] == s[i]);
      }
    }
  }

  /** The authority is ASCII, or the library is regular. */
  ghost predicate Foldable(net: Net, netloc: string) { AllAscii(netloc) || Regular(net) }

  /** A lower-case text without a dot at its end, in which a colon or an opening bracket may be left. */
  ghost predicate HostText(net: Net, host: string) {
    && Avoids(host, HOST_STOPS) && (host != "" ==> host[|host| - 1] != '.')
    && (forall n :: 0 <= n <= |host| ==> Lower(net, host[..n]) == host[..n])
    && (AllAscii(host) || forall scheme, port: nat :: net.normalized(Netloc(scheme, host, port)))
  }

  /** A host text that parses back as itself. */
  ghost predicate CanonicalHost(net: Net, host: string) {
    host != "" && HostText(net, host) && ':' !in host && '[' !in host
  }

  lemma AsciiText(net: Net, host: string)
    requires AllAscii(host) && Avoids(host, HOST_STOPS) && (host != "" ==> host[|host| - 1] != '.')
    requires forall i :: 0 <= i < |host| ==> LowerChar(host[i]) == host[i]
    ensures HostText(net, host)
  {
    forall n | 0 <= n <= |host|
      ensures Lower(net, host[..n]) == host[..n]
    {
      LowerFixed(net, host[..n]);
    }
  }

  lemma LowerFixed(net: Net, s: string)
    requires AllAscii(s) && forall i :: 0 <= i < |s| ==> LowerChar(s[i]) == s[i]
    ensures Lower(net, s) == s
  {
  }

  lemma {:induction false} StripDotsPrefix(s: string)
    ensures StripDots(s) <= s && (StripDots(s) != "" ==> StripDots(s)[|StripDots(s)| - 1] != '.')
  {
    if s != "" && s[|s| - 1] == '.' { StripDotsPrefix(s[..|s| - 1]); }
  }

  /** Lower case adds no delimiter. */
  lemma LowerAvoids(net: Net, s: string)
    requires Foldable(net, s) && Avoids(s, HOST_STOPS)
    ensures Avoids(Lower(net, s), HOST_STOPS) && (AllAscii(s) ==> AllAscii(Lower(net, s)))
  {
    if !AllAscii(s) { assert LowersOnce(net, s); }
  }

  /** Every beginning of a lower-case text is lower case. */
  lemma LowerSettles(net: Net, s: string, n: nat)
    requires Foldable(net, s) && n <= |Lower(net, s)|
    ensures Lower(net, Lower(net, s)[..n]) == Lower(net, s)[..n]
  {
    if !AllAscii(s) { assert LowersOnce(net, s); }
    var front := Lower(net, s)[..n];
    if AllAscii(front) { LowerFixed(net, front); }
  }

  lemma {:induction false} AfterLastSuffix(s: string, c: char)
    ensures |AfterLast(s, c)| <= |s| && s[|s| - |AfterLast(s, c)|..] == AfterLast(s, c)
    decreases |s|
  {
    var rest := From(s, {c});
    if rest != "" {
      AfterLastSuffix(rest[1..], c);
      assert rest[1..] == s[|s| - |rest[1..]|..];
    }
  }

  /** Without a user name, brackets can only stand in the part that is read for the host. */
  lemma BracketsInInfo(netloc: string)
    requires !HasUser(netloc) && ('[' in netloc <==> ']' in netloc)
    ensures var info := AfterLast(netloc, '@'); ']' in info ==> '[' in info
  {
    var info := AfterLast(netloc, '@');
    AfterLastSuffix(netloc, '@');
    var n := |netloc| - |info|;
    assert netloc == netloc[..n] + info;
  }

  /** The raw host text: between the brackets, or up to the colon. */
  lemma RawHost(netloc: string)
    requires Avoids(netloc, NETLOC_END + BREAKS) && !HasUser(netloc)
    requires '[' in netloc <==> ']' in netloc
    ensures Avoids(HostInfo(netloc).0, HOST_STOPS) && (AllAscii(netloc) ==> AllAscii(HostInfo(netloc).0))
  {
    var info := AfterLast(netloc, '@');
    BracketsInInfo(netloc);
    AfterLastAvoids(netloc, '@', NETLOC_END + BREAKS);
    if AllAscii(netloc) { AfterLastAscii(netloc, '@'); }
    if '[' in info {
      BeforeAvoids(info, {'['}, NETLOC_END + BREAKS + {'@'});
      var inner := Dropped(From(info, {'['}));
      assert Avoids(inner, NETLOC_END + BREAKS + {'@'});
      BeforeAvoids(inner, {']'}, NETLOC_END + BREAKS + {'@'});
    } else {
      BeforeAvoids(info, {':'}, NETLOC_END + BREAKS + {'@'});
      assert Avoids(info, {']'});
      BeforeAvoids(info, {':'}, {']'});
    }
  }

  /** The host of an accepted authority. */
  lemma HostShape(net: Net, netloc: string)
    requires Foldable(net, netloc) && Avoids(netloc, NETLOC_END + BREAKS) && !HasUser(netloc) && NetlocOk(net, netloc)
    ensures HostText(net, Host(net, netloc)) && (AllAscii(netloc) ==> AllAscii(Host(net, netloc)))
  {
    hide HostInfo, HasUser, Before, StripDots, Avoids, AllAscii;
    RawHost(netloc);
    NameAvoids(net, HostInfo(netloc).0);
    NameStrips(net, HostName(net, netloc));
  }

  lemma NameStrips(net: Net, name: string)
    requires Foldable(net, name) && Avoids(name, HOST_STOPS)
    ensures var host := StripDots(Lower(net, name));
            && Avoids(host, HOST_STOPS) && (host != "" ==> host[|host| - 1] != '.')
            && (forall n :: 0 <= n <= |host| ==> Lower(net, host[..n]) == host[..n])
            && (AllAscii(name) ==> AllAscii(host))
  {
    hide Lower, Foldable;
    LowerAvoids(net, name);
    StripDotsPrefix(Lower(net, name));
    var host := StripDots(Lower(net, name));
    forall n | 0 <= n <= |host|
      ensures Lower(net, host[..n]) == host[..n]
    {
      assert host[..n] == Lower(net, name)[..n];
      LowerSettles(net, name, n);
    }
  }

  lemma {:induction false} AfterLastAscii(s: string, c: char)
    requires AllAscii(s)
    ensures AllAscii(AfterLast(s, c))
    decreases |s|
  {
    var rest := From(s, {c});
    if rest != "" { AfterLastAscii(rest[1..], c); }
  }

  lemma NameAvoids(net: Net, h: string)
    requires Foldable(net, h) && Avoids(h, HOST_STOPS)
    ensures var name := Lower(net, Before(h, {'%'})) + From(h, {'%'});
            Avoids(name, HOST_STOPS) && (AllAscii(h) ==> AllAscii(name))
  {
    BeforeAvoids(h, {'%'}, HOST_STOPS);
    var front := Before(h, {'%'});
    assert AllAscii(h) ==> AllAscii(front);
    assert Avoids(front, HOST_STOPS);
    LowerAvoids(net, front);
  }

  function PortText(digits: string): string { if digits == "" then "" else ":" + digits }

  /** A canonical host with a port text splits where it should. */
  lemma NetlocInfo(net: Net, host: string, digits: string)
    requires CanonicalHost(net, host) && (digits == "" || IsDigits(digits))
    ensures var netloc := host + PortText(digits);
            && Avoids(netloc, NETLOC_END + BREAKS + {'[', ']'}) && !HasUser(netloc)
            && HostInfo(netloc) == (host, digits)
  {
    var tail := PortText(digits);
    if digits != "" { DigitsAvoid(digits); }
    assert Avoids(host + tail, NETLOC_END + BREAKS + {'[', ']', '@'});
    assert '[' !in host + tail;
    assert forall c <- host :: c !in {':'};
    hide AfterLast, Before;
    NoneAfterLast(host + tail, '@');
    BeforeConcat(host, tail, {':'});
    assert Dropped(tail) == digits;
  }

  /** Canonical authorities parse back. */
  lemma NetlocRoundTrip(net: Net, scheme: string, host: string, port: nat)
    requires CanonicalHost(net, host) && Supported(scheme) && port <= 65535
    ensures var netloc := Netloc(scheme, host, port);
            && NetlocOk(net, netloc) && Avoids(netloc, NETLOC_END + BREAKS + {'[', ']'}) && !HasUser(netloc)
            && HostName(net, netloc) == host && Host(net, netloc) == host
            && Port(netloc).Some? && Netloc(scheme, host, Port(netloc).value) == netloc
            && (Port(netloc).value == port || (Port(netloc).value == 0 && port in {0, DefaultPort(scheme)}))
  {
    hide CanonicalHost, HostInfo, HasUser, Decimal, FromDecimal, Avoids, StripDots, Lower, NetlocOk;
    var shown := port != 0 && port != DefaultPort(scheme);
    var digits := if shown then Decimal(port) else "";
    DecimalRoundTrip(port);
    assert host + "" == host;
    assert Netloc(scheme, host, port) == host + PortText(digits);
    NetlocInfo(net, host, digits);
    HostReads(net, host);
    CanonicalIsOk(net, scheme, host, port);
  }

  lemma DigitsAvoid(s: string)
    requires IsDigits(s)
    ensures AllAscii(s) && Avoids(s, NETLOC_END + BREAKS + {'[', ']', '@', '%'})
  {
  }

  lemma CanonicalIsOk(net: Net, scheme: string, host: string, port: nat)
    requires CanonicalHost(net, host)
    ensures NetlocOk(net, Netloc(scheme, host, port))
  {
    NetlocAvoids(net, scheme, host, port);
  }

  lemma HostReads(net: Net, host: string)
    requires CanonicalHost(net, host)
    ensures Lower(net, Before(host, {'%'})) + From(host, {'%'}) == host && StripDots(Lower(net, host)) == host
  {
    hide Lower, Avoids;
    assert host[..|host|] == host;
    FrontReads(net, host);
    StripsNothing(host);
  }

  lemma SplitsAt(s: string, stop: set<char>)
    ensures s == Before(s, stop) + From(s, stop) && Before(s, stop) == s[..|Before(s, stop)|]
  {
    hide Before;
    assert s == s[..|Before(s, stop)|] + s[|Before(s, stop)|..];
  }

  /** A text whose beginnings are lower case keeps them up to its zone. */
  lemma FrontReads(net: Net, host: string)
    requires forall n :: 0 <= n <= |host| ==> Lower(net, host[..n]) == host[..n]
    ensures Lower(net, Before(host, {'%'})) + From(host, {'%'}) == host
  {
    hide Lower, Before, From;
    SplitsAt(host, {'%'});
  }

  lemma StripsNothing(s: string)
    requires s != "" && s[|s| - 1] != '.'
    ensures StripDots(s) == s
  {
  }

  // Canonical URLs parse back

  lemma {:induction false} EscapeAvoids(bytes: seq<Byte>, bad: set<char>)
    requires forall c <- bad :: c != '%' && !IsHex(c)
    ensures Avoids(Escape(bytes), bad)
  {
    if bytes != [] { EscapeAvoids(bytes[1..], bad); }
  }

  lemma {:induction false} QuoteAvoids(safe: set<char>, s: string, bad: set<char>)
    requires bad !! safe && forall c <- bad :: c != '%' && !IsHex(c)
    ensures Avoids(Quote(safe, s), bad)
  {
    if s != "" {
      QuoteAvoids(safe, s[1..], bad);
      EscapeAvoids(EncodeChar(s[0]), bad);
    }
  }

  lemma SchemeReads(scheme: string, rest: string)
    requires Supported(scheme)
    ensures SplitScheme(scheme + ":" + rest) == (scheme, rest)
    ensures SkipControls(scheme + ":" + rest) == scheme + ":" + rest
  {
    var s := scheme + ":" + rest;
    assert Avoids(scheme, {':'});
    assert s == scheme + (":" + rest);
    BeforeConcat(scheme, ":" + rest, {':'});
    assert LowerAscii(scheme) == scheme;
    assert s[0] == 'h';
    assert s[|scheme| + 1..] == rest;
  }

  lemma TailReads(path: string, query: string)
    requires Rooted(path) && Avoids(path, {'?', '#'}) && Avoids(query, {'#'})
    ensures var body := Before(path + QueryText(query), {'#'});
            Before(body, {'?'}) == path && Dropped(From(body, {'?'})) == query
  {
    var tail := path + QueryText(query);
    NoStop(tail, {'#'});
    BeforeConcat(path, QueryText(query), {'?'});
  }

  lemma AuthorityReads(netloc: string, tail: string)
    requires Avoids(netloc, NETLOC_END) && (tail == "" || tail[0] in NETLOC_END)
    ensures var rest := "//" + (netloc + tail);
            "//" <= rest && Before(rest[2..], NETLOC_END) == netloc && From(rest[2..], NETLOC_END) == tail
  {
    var rest := "//" + (netloc + tail);
    assert rest[..2] == "//" && rest[2..] == netloc + tail;
    BeforeConcat(netloc, tail, NETLOC_END);
  }

  lemma AvoidsConcat(a: string, b: string, bad: set<char>)
    requires Avoids(a, bad) && Avoids(b, bad)
    ensures Avoids(a + b, bad)
  {
  }

  lemma AvoidsFewer(s: string, bad: set<char>, fewer: set<char>)
    requires Avoids(s, bad) && fewer <= bad
    ensures Avoids(s, fewer)
  {
  }

  /** An assembled URL splits back into its parts, if its authority is accepted. */
  lemma UrlRoundTrip(net: Net, scheme: string, netloc: string, path: string, query: string)
    requires Supported(scheme) && Avoids(netloc, NETLOC_END + BREAKS)
    requires Rooted(path) && Avoids(path, {'?', '#'} + BREAKS) && Avoids(query, {'#'} + BREAKS)
    ensures SplitUrl(net, Unsplit(scheme, netloc, path, query)) ==
            if NetlocOk(net, netloc) then Some(Split(scheme, netloc, path, query)) else None
  {
    var tail := path + QueryText(query);
    var rest := "//" + (netloc + tail);
    assert Avoids(QueryText(query), BREAKS) && Avoids(scheme + ":", BREAKS) && Avoids("//", BREAKS);
    AvoidsFewer(netloc, NETLOC_END + BREAKS, NETLOC_END);
    AvoidsFewer(netloc, NETLOC_END + BREAKS, BREAKS);
    AvoidsFewer(path, {'?', '#'} + BREAKS, {'?', '#'});
    AvoidsFewer(path, {'?', '#'} + BREAKS, BREAKS);
    AvoidsFewer(query, {'#'} + BREAKS, {'#'});
    hide Avoids, SplitScheme, SkipControls, WithoutBreaks, QueryText, NetlocOk;
    AvoidsConcat(path, QueryText(query), BREAKS);
    AvoidsConcat(netloc, tail, BREAKS);
    AvoidsConcat("//", netloc + tail, BREAKS);
    AvoidsConcat(scheme + ":", rest, BREAKS);
    SchemeReads(scheme, rest);
    NothingToDrop(scheme + ":" + rest);
    AuthorityReads(netloc, tail);
    TailReads(path, query);
  }

  // The first canonicalization

  /** The parts of a split authority avoid the delimiters. */
  lemma SplitAvoids(net: Net, url: string)
    requires SplitUrl(net, url).Some?
    ensures var p := SplitUrl(net, url).value;
            && Avoids(p.netloc, NETLOC_END + BREAKS)
            && (p.netloc != "" ==> p.path == "" || Rooted(p.path))
  {
    var clean := WithoutBreaks(SkipControls(url));
    WithoutBreaksAvoids(SkipControls(url));
    var (scheme, rest) := SplitScheme(clean);
    assert Avoids(rest, BREAKS);
    if "//" <= rest {
      BeforeAvoids(rest[2..], NETLOC_END, BREAKS);
      var tail := From(rest[2..], NETLOC_END);
      PathStarts(tail);
    }
  }

  lemma PathStarts(tail: string)
    requires tail == "" || tail[0] in NETLOC_END
    ensures var path := Before(Before(tail, {'#'}), {'?'}); path == "" || Rooted(path)
  {
  }

  lemma UnquoteRooted(s: string)
    requires Rooted(s)
    ensures Rooted(Unquote(s))
  {
    if '%' in s {
      var n := AsciiRun(s);
      assert n > 0 && s[..n][0] == '/';
      var bytes := UnquoteBytes(s[..n]);
      assert bytes[0] == '/' as int;
      assert Decode(bytes)[0] == '/';
    }
  }

  lemma CleanIsRooted(path: string)
    requires Rooted(path)
    ensures Rooted(CleanPath(path))
  {
  }

  lemma NoHostWithoutNetloc(net: Net)
    ensures HostName(net, "") == ""
  {
    NoneAfterLast("", '@');
    NoStop("", {':'});
    NoStop("", {'%'});
    hide AfterLast, Before, From, Lower;
    LowerFixed(net, "");
  }

  /** An ordinary authority: its host is more than dots and no IPv6 literal. */
  ghost predicate Ordinary(net: Net, netloc: string) {
    Foldable(net, netloc) && Host(net, netloc) != "" && ':' !in Host(net, netloc) && '[' !in Host(net, netloc)
  }

  /** The decoded path and query of a link. */
  function DecodedPath(p: Split): string { Unquote(CleanPath(RawPath(p))) }

  function CanonicalNetloc(net: Net, p: Split): string
    requires Port(p.netloc).Some?
  {
    Netloc(p.scheme, Host(net, p.netloc), Port(p.netloc).value)
  }

  /** The path text of the canonical URL. */
  function PathText(p: Split): string { NormalizePercent(PATH_SAFE, CleanPath(RawPath(p))) }

  /** What an accepted link is: its parts, and how its canonical URL is put together. */
  lemma Accepts(net: Net, url: string)
    requires Canonicalize(net, url).Url?
    ensures SplitUrl(net, url).Some?
    ensures var p := SplitUrl(net, url).value;
            && Supported(p.scheme) && HostName(net, p.netloc) != "" && !HasUser(p.netloc)
            && Port(p.netloc).Some? && Port(p.netloc).value <= 65535 && NetlocOk(net, p.netloc)
            && ('[' in p.netloc <==> ']' in p.netloc)
            && Canonicalize(net, url).text ==
               Unsplit(p.scheme, CanonicalNetloc(net, p), PathText(p), NormalizePercent(QUERY_SAFE, p.query))
  {
    hide HostName, HasUser, Host, Unsplit, CleanPath, Unquote, Quote, SplitScheme, Before;
  }

  /** The parts of a canonical URL, whatever its host: how its text is put together, and how it splits. */
  lemma FirstPass(net: Net, url: string)
    requires Canonicalize(net, url).Url? && Foldable(net, SplitUrl(net, url).value.netloc)
    ensures var p := SplitUrl(net, url).value;
            && Supported(p.scheme) && Port(p.netloc).Some? && Port(p.netloc).value <= 65535
            && HostText(net, Host(net, p.netloc)) && Foldable(net, CanonicalNetloc(net, p))
            && Rooted(DecodedPath(p)) && PathText(p) == Quote(PATH_SAFE, DecodedPath(p)) && Rooted(PathText(p))
            && Canonicalize(net, url).text ==
               Unsplit(p.scheme, CanonicalNetloc(net, p), PathText(p), Quote(QUERY_SAFE, Unquote(p.query)))
            && var v := SplitUrl(net, Canonicalize(net, url).text);
               v == if NetlocOk(net, CanonicalNetloc(net, p))
                    then Some(Split(
                      p.scheme, CanonicalNetloc(net, p), PathText(p), Quote(QUERY_SAFE, Unquote(p.query)))) else None
  {
    hide SplitUrl, CleanPath, Unquote, Quote, HostName, HasUser, Host, Unsplit, NetlocOk, HostText, Canonicalize, Port;
    hide Regular;
    Accepts(net, url);
    var p := SplitUrl(net, url).value;
    hide Avoids, AllAscii, Netloc;
    SplitAvoids(net, url);
    NoHostWithoutNetloc(net);
    SafeSets();
    HostShape(net, p.netloc);
    CleanIsRooted(RawPath(p));
    UnquoteRooted(CleanPath(RawPath(p)));
    QuoteLead(PATH_SAFE, DecodedPath(p));
    QuoteAvoids(PATH_SAFE, DecodedPath(p), {'?', '#'} + BREAKS);
    QuoteAvoids(QUERY_SAFE, Unquote(p.query), {'#'} + BREAKS);
    NetlocAvoids(net, p.scheme, Host(net, p.netloc), Port(p.netloc).value);
    UrlRoundTrip(
      net, p.scheme, CanonicalNetloc(net, p), Quote(PATH_SAFE, DecodedPath(p)), Quote(QUERY_SAFE, Unquote(p.query)));
  }

  lemma NetlocAvoids(net: Net, scheme: string, host: string, port: nat)
    requires HostText(net, host)
    ensures AllAscii(host) ==> AllAscii(Netloc(scheme, host, port))
    ensures Avoids(Netloc(scheme, host, port), NETLOC_END + BREAKS + {'@', ']'})
    ensures Avoids(Netloc(scheme, host, port), NETLOC_END + BREAKS)
    ensures '[' in Netloc(scheme, host, port) <==> '[' in host
  {
    hide Decimal;
    DecimalRoundTrip(port);
    DigitsAvoid(Decimal(port));
    var bad := NETLOC_END + BREAKS + {'@', ']'};
    assert Avoids(host, bad) by { TextAvoids(net, host, bad); }
    assert Avoids(Decimal(port), bad) && Avoids(":", bad);
    hide Avoids;
    AvoidsConcat(host, ":", bad);
    AvoidsConcat(host + ":", Decimal(port), bad);
    AvoidsFewer(Netloc(scheme, host, port), bad, NETLOC_END + BREAKS);
  }

  lemma TextAvoids(net: Net, host: string, bad: set<char>)
    requires HostText(net, host) && bad <= HOST_STOPS
    ensures Avoids(host, bad)
  {
  }

  /** The characters that quoting keeps. */
  lemma SafeSets()
    ensures KeepsPaths(PATH_SAFE) && KeepsEscapes(PATH_SAFE) && '%' !in QUERY_SAFE
    ensures {'?', '#'} + BREAKS !! PATH_SAFE && {'#'} + BREAKS !! QUERY_SAFE
    ensures forall c <- {'?', '#'} + BREAKS :: c != '%' && !IsHex(c)
  {
  }

  /** What the canonical URL of an ordinary authority parses to. */
  lemma CanonicalParts(net: Net, url: string)
    requires Canonicalize(net, url).Url? && Ordinary(net, SplitUrl(net, url).value.netloc)
    ensures var p := SplitUrl(net, url).value;
            && Supported(p.scheme) && Port(p.netloc).Some? && Port(p.netloc).value <= 65535
            && CanonicalHost(net, Host(net, p.netloc))
            && Rooted(DecodedPath(p)) && Rooted(PathText(p))
            && SplitUrl(net, Canonicalize(net, url).text) == Some(Split(
                 p.scheme, CanonicalNetloc(net, p), PathText(p), Quote(QUERY_SAFE, Unquote(p.query))))
  {
    hide SplitUrl, CleanPath, Unquote, Quote, HostName, HasUser, Host, Unsplit, HostText, Netloc, Canonicalize;
    hide CanonicalHost, PathText, DecodedPath, Port;
    Accepts(net, url);
    var p := SplitUrl(net, url).value;
    FirstPass(net, url);
    assert CanonicalHost(net, Host(net, p.netloc)) by { OrdinaryHost(net, p.netloc); }
    NetlocRoundTrip(net, p.scheme, Host(net, p.netloc), Port(p.netloc).value);
  }

  lemma OrdinaryHost(net: Net, netloc: string)
    requires Ordinary(net, netloc) && HostText(net, Host(net, netloc))
    ensures CanonicalHost(net, Host(net, netloc))
  {
  }

  // The second canonicalization

  /** The part before a colon and the part after it, where `host` would be read for a host and a port. */
  function NamePart(host: string): string { Before(host, {':'}) }

  function PortPart(host: string): string { Dropped(From(host, {':'})) }

  /** A host text with one colon that reads as a host with a shown port. */
  predicate ReadsAsPort(scheme: string, host: string) {
    var name, text := NamePart(host), PortPart(host);
    && name != "" && name[|name| - 1] != '.'
    && IsDigits(text) && 0 < FromDecimal(text) <= 65535 && FromDecimal(text) != DefaultPort(scheme)
    && text == Decimal(FromDecimal(text))
  }

  /** The host text survives: it is not empty, has no bracket, and a colon only where it reads as a shown port. */
  predicate HostStays(scheme: string, host: string, port: nat) {
    && host != "" && '[' !in host
    && (':' in host ==> ReadsAsPort(scheme, host) && (port == 0 || port == DefaultPort(scheme)))
  }

  /** What the second canonicalization makes of the authority. */
  datatype Authority = Refused | Reads(netloc: string)

  function ReadAuthority(net: Net, scheme: string, netloc: string): Authority {
    if !NetlocOk(net, netloc) || HostName(net, netloc) == "" || HasUser(netloc) || Port(netloc).None? then Refused
    else Reads(Netloc(scheme, Host(net, netloc), Port(netloc).value))
  }

  lemma NoHostIsRefused(net: Net, scheme: string, port: nat)
    ensures ReadAuthority(net, scheme, Netloc(scheme, "", port)).Refused?
  {
    var netloc := Netloc(scheme, "", port);
    DecimalRoundTrip(port);
    DigitsAvoid(Decimal(port));
    assert Avoids(netloc, {'@', '['}) && "" + netloc == netloc;
    NoneAfterLast(netloc, '@');
    BeforeConcat("", netloc, {':'});
    assert HostInfo(netloc).0 == "";
    NoHostWithoutNetloc(net);
  }

  lemma BracketIsRefused(net: Net, scheme: string, host: string, port: nat)
    requires HostText(net, host) && '[' in host
    ensures ReadAuthority(net, scheme, Netloc(scheme, host, port)).Refused?
    ensures !NetlocOk(net, Netloc(scheme, host, port))
  {
    NetlocAvoids(net, scheme, host, port);
  }

  /** A text splits at its first colon. */
  lemma ColonParts(host: string)
    requires ':' in host
    ensures ':' !in NamePart(host) && NamePart(host) <= host && host == NamePart(host) + (":" + PortPart(host))
  {
    var n := |Before(host, {':'})|;
    assert host[..n] == Before(host, {':'}) && ':' !in host[..n];
    hide Before;
    assert host[..|host|] == host;
    assert n < |host|;
    assert host[n..] == ":" + host[n..][1..];
    assert host == host[..n] + host[n..];
  }

  /** An authority without a user and brackets is read up to its first colon. */
  lemma ColonInfo(host: string, tail: string)
    requires ':' in host && Avoids(host, {'@'}) && '[' !in host && Avoids(tail, {'@'}) && '[' !in tail
    ensures HostInfo(host + tail) == (NamePart(host), PortPart(host) + tail) && !HasUser(host + tail)
  {
    hide NamePart, PortPart, AfterLast, Before, From;
    ColonParts(host);
    var netloc := host + tail;
    assert Avoids(netloc, {'@'}) && '[' !in netloc;
    NoneAfterLast(netloc, '@');
    assert netloc == NamePart(host) + (":" + (PortPart(host) + tail));
    ColonRest(NamePart(host), PortPart(host) + tail);
  }

  lemma ColonRest(name: string, text: string)
    requires ':' !in name
    ensures var s := name + (":" + text); Before(s, {':'}) == name && Dropped(From(s, {':'})) == text
  {
    BeforeConcat(name, ":" + text, {':'});
    assert (":" + text)[1..] == text;
  }

  /** No user name in a host text. */
  lemma TextHasNoUser(net: Net, host: string)
    requires HostText(net, host)
    ensures Avoids(host, {'@'})
  {
  }

  /** The name part of a host text reads as itself. */
  lemma NameReads(net: Net, host: string, netloc: string)
    requires HostText(net, host) && HostInfo(netloc).0 == NamePart(host) && NamePart(host) <= host
    ensures HostName(net, netloc) == NamePart(host) && Host(net, netloc) == StripDots(NamePart(host))
  {
    hide HostInfo, StripDots, Lower, Before, From;
    var name := NamePart(host);
    assert forall n :: 0 <= n <= |name| ==> name[..n] == host[..n];
    FrontReads(net, name);
    assert name == host[..|name|];
  }

  /** With a port shown behind it, the text after the first colon is no port. */
  lemma ShownColonIsRefused(net: Net, scheme: string, host: string, port: nat)
    requires HostText(net, host) && '[' !in host && ':' in host && port != 0 && port != DefaultPort(scheme)
    ensures ReadAuthority(net, scheme, Netloc(scheme, host, port)).Refused?
  {
    hide HostInfo, HasUser, HostText, NamePart, PortPart, Decimal, HostName, NetlocOk;
    var tail := ":" + Decimal(port);
    PortTail(port);
    TextHasNoUser(net, host);
    ColonInfo(host, tail);
    assert host + tail == Netloc(scheme, host, port);
    var text := PortPart(host) + tail;
    assert text[|PortPart(host)|] == ':';
    assert !IsDigits(text) && text != "";
  }

  lemma PortTail(port: nat)
    ensures Avoids(":" + Decimal(port), {'@'}) && '[' !in ":" + Decimal(port)
  {
    DecimalRoundTrip(port);
    DigitsAvoid(Decimal(port));
  }

  lemma StripsToPrefix(s: string)
    ensures StripDots(s) <= s && (StripDots(s) == s <==> s == "" || s[|s| - 1] != '.')
  {
    StripDotsPrefix(s);
  }

  /** Without one, the text comes back if and only if it reads as a host with a shown port. */
  lemma ColonReads(net: Net, scheme: string, host: string)
    requires HostText(net, host) && '[' !in host && ':' in host && Supported(scheme)
    ensures ReadAuthority(net, scheme, host) == Reads(host) <==> ReadsAsPort(scheme, host)
  {
    hide HostInfo, StripDots, HasUser, Decimal, FromDecimal, HostText, NamePart, PortPart, Lower, HostName, Host;
    hide NetlocOk, Netloc;
    var name, text := NamePart(host), PortPart(host);
    ColonFacts(net, host);
    StripsToPrefix(name);
    assert ':' !in StripDots(name) by { StripDotsPrefix(name); }
    var port := if text == "" then 0 else FromDecimal(text);
    NetlocSplits(scheme, StripDots(name), port, name, text);
  }

  /** What a host text with a colon is read as. */
  lemma ColonFacts(net: Net, host: string)
    requires HostText(net, host) && '[' !in host && ':' in host
    ensures NetlocOk(net, host) && !HasUser(host) && ':' !in NamePart(host)
    ensures HostInfo(host).1 == PortPart(host) && host == NamePart(host) + ":" + PortPart(host)
    ensures HostName(net, host) == NamePart(host) && Host(net, host) == StripDots(NamePart(host))
  {
    hide HostInfo, StripDots, HasUser, HostText, NamePart, PortPart, Lower, HostName, Host, NetlocOk;
    assert host + "" == host && PortPart(host) + "" == PortPart(host);
    TextHasNoUser(net, host);
    ColonParts(host);
    ColonInfo(host, "");
    NameReads(net, host, host);
    TextIsOk(net, host);
    assert NamePart(host) + (":" + PortPart(host)) == NamePart(host) + ":" + PortPart(host);
  }

  lemma TextIsOk(net: Net, host: string)
    requires HostText(net, host) && '[' !in host
    ensures NetlocOk(net, host)
  {
    assert Netloc("http", host, 0) == host;
  }

  /** An authority of a host and a port equals a host text if and only if both parts do. */
  lemma NetlocSplits(scheme: string, host: string, port: nat, name: string, text: string)
    requires ':' !in host && ':' !in name
    ensures Netloc(scheme, host, port) == name + ":" + text <==>
            port != 0 && port != DefaultPort(scheme) && host == name && Decimal(port) == text
  {
    hide Decimal;
    ColonSplit(host, Decimal(port), name, text);
    assert (name + ":" + text)[|name|] == ':';
  }

  lemma ColonSplit(a: string, b: string, c: string, d: string)
    requires ':' !in a && ':' !in c
    ensures a + ":" + b == c + ":" + d <==> a == c && b == d
  {
    if a + ":" + b == c + ":" + d {
      ColonIndex(a, b);
      ColonIndex(c, d);
    }
  }

  /** The first colon is where the first part ends. */
  lemma ColonIndex(a: string, b: string)
    requires ':' !in a
    ensures var s := a + ":" + b; Before(s, {':'}) == a && s[|a| + 1..] == b
  {
    BeforeConcat(a, ":" + b, {':'});
    assert a + ":" + b == a + (":" + b);
  }

  /** The authority of a canonical URL comes back if and only if its host text survives. */
  lemma AuthorityReturns(net: Net, scheme: string, host: string, port: nat)
    requires HostText(net, host) && Supported(scheme) && port <= 65535
    ensures var netloc := Netloc(scheme, host, port);
            ReadAuthority(net, scheme, netloc) == Reads(netloc) <==> HostStays(scheme, host, port)
  {
    hide HostText, HostName, Host, HasUser, NetlocOk, Decimal, FromDecimal, ReadsAsPort;
    if host == "" {
      NoHostIsRefused(net, scheme, port);
    } else if '[' in host {
      BracketIsRefused(net, scheme, host, port);
    } else if ':' !in host {
      assert CanonicalHost(net, host);
      NetlocRoundTrip(net, scheme, host, port);
    } else if port != 0 && port != DefaultPort(scheme) {
      ShownColonIsRefused(net, scheme, host, port);
    } else {
      ColonReads(net, scheme, host);
    }
  }

  /** The second canonicalization: what it makes of the authority, and of the path; the query comes back. */
  lemma SecondPass(net: Net, url: string)
    requires Canonicalize(net, url).Url? && Foldable(net, SplitUrl(net, url).value.netloc)
    ensures var p := SplitUrl(net, url).value;
            var again := Canonicalize(net, Canonicalize(net, url).text);
            match ReadAuthority(net, p.scheme, CanonicalNetloc(net, p))
            case Refused => !again.Url?
            case Reads(netloc) =>
              again == Url(Unsplit(
                p.scheme, netloc, Quote(PATH_SAFE, Unquote(CleanPath(PathText(p)))),
                Quote(QUERY_SAFE, Unquote(p.query))))
  {
    hide SplitUrl, CleanPath, Unquote, Quote, HostName, HasUser, Host, Unsplit, NetlocOk, Netloc, Port, HostText;
    hide DecodedPath, PathText;
    var p := SplitUrl(net, url).value;
    FirstPass(net, url);
    SafeSets();
    QuoteRoundTrip(QUERY_SAFE, Unquote(p.query));
    assert PathText(p) != "";
  }

  lemma DropFront(front: string, x: string, y: string)
    ensures front + x == front + y <==> x == y
  {
    if front + x == front + y {
      assert (front + x)[|front|..] == x && (front + y)[|front|..] == y;
    }
  }

  lemma DropEnd(x: string, y: string, end: string)
    ensures x + end == y + end <==> x == y
  {
    if x + end == y + end {
      assert (x + end)[..|x|] == x && (y + end)[..|y|] == y;
    }
  }

  /** Two assembled URLs of one scheme and query are equal only if their authorities and paths are. */
  lemma UnsplitIsInjective(scheme: string, n: string, m: string, x: string, y: string, query: string)
    requires Avoids(n, {'/'}) && Avoids(m, {'/'}) && Rooted(x) && Rooted(y)
    ensures Unsplit(scheme, n, x, query) == Unsplit(scheme, m, y, query) <==> n == m && x == y
  {
    var k := QueryText(query);
    DropFront(scheme + ":", "//" + (n + (x + k)), "//" + (m + (y + k)));
    DropFront("//", n + (x + k), m + (y + k));
    if n + (x + k) == m + (y + k) {
      BeforeConcat(n, x + k, {'/'});
      BeforeConcat(m, y + k, {'/'});
      DropEnd(x, y, k);
    }
  }

  lemma ReadAvoids(net: Net, scheme: string, netloc: string)
    requires Foldable(net, netloc) && Avoids(netloc, NETLOC_END + BREAKS)
    requires ReadAuthority(net, scheme, netloc).Reads?
    ensures Avoids(ReadAuthority(net, scheme, netloc).netloc, {'/'})
  {
    hide HostName, HasUser, Host, Netloc, Port, HostText, Foldable;
    HostShape(net, netloc);
    NetlocAvoids(net, scheme, Host(net, netloc), Port(netloc).value);
    AvoidsFewer(Netloc(scheme, Host(net, netloc), Port(netloc).value), NETLOC_END + BREAKS, {'/'});
  }

  /**
   * Canonicalization of a link is idempotent if and only if the host text survives, and the path of the result is clean
   * with all its escapes settled; outside ASCII the library has to be regular. So it fails, whatever the rest of the
   * link is, on hosts of dots, on IPv6 literals, on escapes that hide a dot segment or a slash, and on escaped escapes
   * of characters that need none; an escaped escape that quoting would write itself survives.
   */
  lemma Idempotence(net: Net, url: string)
    requires Canonicalize(net, url).Url? && Foldable(net, SplitUrl(net, url).value.netloc)
    ensures var p := SplitUrl(net, url).value;
            Canonicalize(net, Canonicalize(net, url).text) == Canonicalize(net, url) <==>
              && Port(p.netloc).Some? && HostStays(p.scheme, Host(net, p.netloc), Port(p.netloc).value)
              && CleanPath(PathText(p)) == PathText(p) && Settled(PATH_SAFE, PathText(p))
  {
    hide SplitUrl, CleanPath, Unquote, Quote, HostName, HasUser, Host, Unsplit, NetlocOk, Netloc, Port, HostText;
    hide Canonicalize, DecodedPath, HostStays, ReadAuthority, Settled, PathText;
    Accepts(net, url);
    var p := SplitUrl(net, url).value;
    var host, port := Host(net, p.netloc), Port(p.netloc).value;
    var netloc := CanonicalNetloc(net, p);
    FirstPass(net, url);
    SecondPass(net, url);
    SafeSets();
    AuthorityReturns(net, p.scheme, host, port);
    SecondPath(PATH_SAFE, DecodedPath(p));
    NetlocAvoids(net, p.scheme, host, port);
    if ReadAuthority(net, p.scheme, netloc).Reads? {
      ReadAvoids(net, p.scheme, netloc);
      AvoidsFewer(netloc, NETLOC_END + BREAKS, {'/'});
      var again := Quote(PATH_SAFE, Unquote(CleanPath(PathText(p))));
      AgainIsRooted(PathText(p));
      UnsplitIsInjective(
        p.scheme, ReadAuthority(net, p.scheme, netloc).netloc, netloc, again, PathText(p),
        Quote(QUERY_SAFE, Unquote(p.query)));
    }
  }

  lemma AgainIsRooted(path: string)
    requires Rooted(path)
    ensures Rooted(Quote(PATH_SAFE, Unquote(CleanPath(path))))
  {
    hide CleanPath, Unquote, Quote;
    CleanIsRooted(path);
    UnquoteRooted(CleanPath(path));
    SafeSets();
    QuoteLead(PATH_SAFE, Unquote(CleanPath(path)));
  }

  /** A host of dots, a host text with two colons, as every IPv6 literal has, or a bracket: the second pass refuses. */
  lemma HostIsRefused(net: Net, url: string)
    requires Canonicalize(net, url).Url? && Foldable(net, SplitUrl(net, url).value.netloc)
    requires var host := Host(net, SplitUrl(net, url).value.netloc);
             host == "" || '[' in host || (':' in host && ':' in PortPart(host))
    ensures !Canonicalize(net, Canonicalize(net, url).text).Url?
  {
    hide SplitUrl, CleanPath, Unquote, Quote, HostName, HasUser, Host, Unsplit, Netloc, Port, HostText;
    hide Canonicalize, DecodedPath, PathText, ReadAuthority, PortPart;
    Accepts(net, url);
    var p := SplitUrl(net, url).value;
    var host, port := Host(net, p.netloc), Port(p.netloc).value;
    FirstPass(net, url);
    SecondPass(net, url);
    if host == "" {
      NoHostIsRefused(net, p.scheme, port);
    } else if '[' in host {
      BracketIsRefused(net, p.scheme, host, port);
    } else {
      ColonsAreRefused(net, p.scheme, host, port);
    }
  }

  lemma ColonsAreRefused(net: Net, scheme: string, host: string, port: nat)
    requires HostText(net, host) && '[' !in host && ':' in host && ':' in PortPart(host)
    ensures ReadAuthority(net, scheme, Netloc(scheme, host, port)).Refused?
  {
    hide HostInfo, HasUser, HostText, NamePart, PortPart, Decimal, HostName, NetlocOk;
    var tail := if port != 0 && port != DefaultPort(scheme) then ":" + Decimal(port) else "";
    PortTail(port);
    TextHasNoUser(net, host);
    assert host + tail == Netloc(scheme, host, port);
    ColonInfo(host, tail);
    ColonIsNoDigit(PortPart(host), tail);
  }

  lemma ColonIsNoDigit(a: string, b: string)
    requires ':' in a
    ensures a + b != "" && !IsDigits(a + b)
  {
    var i :| 0 <= i < |a| && a[i] == ':';
    assert (a + b)[i] == ':';
  }

  lemma {:induction false} ComponentsAvoid(path: string, comps: seq<string>, c: char)
    requires c !in path && forall i :: 0 <= i < |comps| ==> c !in comps[i]
    ensures forall i :: 0 <= i < |Components(path, comps)| ==> c !in Components(path, comps)[i]
    decreases |path|
  {
    var segment, rest := Before(path, SLASH), From(path, SLASH);
    assert path == segment + rest;
    if rest != "" { ComponentsAvoid(rest[1..], Push(comps, segment), c); }
  }

  lemma {:induction false} JoinAvoids(comps: seq<string>, c: char)
    requires c != '/' && forall i :: 0 <= i < |comps| ==> c !in comps[i]
    ensures c !in JoinPath(comps)
  {
    if |comps| > 1 { JoinAvoids(comps[1..], c); }
  }

  /** A percent-free path stays percent-free, so decoding leaves its clean form alone. */
  lemma PercentFreePath(path: string)
    requires Rooted(path) && '%' !in path
    ensures var clean := CleanPath(path);
            Unquote(clean) == clean && EscapeFree(clean) && CleanPath(clean) == clean && DotFree(clean)
  {
    hide Components, JoinPath, CleanPath, UnquoteRuns, DotFree;
    var comps := Components(path, []);
    CleanShape(path);
    ComponentsAvoid(path, [], '%');
    JoinAvoids(comps, '%');
    var trail := EndsInSlash(path) && comps != [];
    assert '%' !in Render(Lead(path), comps, trail);
    RenderIsFixed(Lead(path), comps, trail);
  }

  /** Canonicalization is idempotent on every link with an ordinary authority, a percent-free path and any query. */
  lemma PercentFreeIdempotence(net: Net, url: string)
    requires Canonicalize(net, url).Url? && Ordinary(net, SplitUrl(net, url).value.netloc)
    requires '%' !in SplitUrl(net, url).value.path
    ensures Canonicalize(net, Canonicalize(net, url).text) == Canonicalize(net, url)
  {
    hide SplitUrl, CleanPath, Unquote, Quote, HostName, HasUser, Host, Unsplit, Netloc, Port, EscapeFree, Settled;
    var p := SplitUrl(net, url).value;
    PathOfLink(net, url);
    PercentFreePath(RawPath(p));
    SafeSets();
    CleanIsRooted(RawPath(p));
    QuoteClean(PATH_SAFE, CleanPath(RawPath(p)));
    QuotedIsSettled(PATH_SAFE, CleanPath(RawPath(p)));
    Idempotence(net, url);
  }

  lemma PathOfLink(net: Net, url: string)
    requires Canonicalize(net, url).Url?
    ensures Rooted(RawPath(SplitUrl(net, url).value))
  {
    hide SplitUrl;
    SplitAvoids(net, url);
    NoHostWithoutNetloc(net);
  }

  // The shape of the result

  /** No canonical URL has a fragment: there is no '#' in it. */
  lemma NoFragment(net: Net, url: string)
    requires Canonicalize(net, url).Url? && Foldable(net, SplitUrl(net, url).value.netloc)
    ensures '#' !in Canonicalize(net, url).text
  {
    hide SplitUrl, CleanPath, Unquote, Quote, HostName, HasUser, Host, Netloc, Canonicalize, Port, HostText;
    Accepts(net, url);
    var p := SplitUrl(net, url).value;
    FirstPass(net, url);
    SafeSets();
    NetlocAvoids(net, p.scheme, Host(net, p.netloc), Port(p.netloc).value);
    QuoteAvoids(PATH_SAFE, DecodedPath(p), {'?', '#'} + BREAKS);
    QuoteAvoids(QUERY_SAFE, Unquote(p.query), {'#'} + BREAKS);
    NoHashIn(p.scheme, CanonicalNetloc(net, p), PathText(p), Quote(QUERY_SAFE, Unquote(p.query)));
  }

  lemma NoHashIn(scheme: string, netloc: string, path: string, query: string)
    requires Supported(scheme) && Avoids(netloc, NETLOC_END + BREAKS)
    requires Avoids(path, {'?', '#'} + BREAKS) && Avoids(query, {'#'} + BREAKS)
    ensures '#' !in Unsplit(scheme, netloc, path, query)
  {
    assert '#' !in netloc && '#' !in path && '#' !in query && '#' !in scheme;
  }

  /** The path of a canonical URL has a dot segment if and only if decoding the cleaned path left or uncovered one. */
  lemma DotSegments(net: Net, url: string)
    requires Canonicalize(net, url).Url?
    ensures var p := SplitUrl(net, url).value; DotFree(PathText(p)) <==> DotFree(DecodedPath(p))
  {
    hide SplitUrl, CleanPath, Unquote, Quote, DotFree, Canonicalize;
    Accepts(net, url);
    SafeSets();
    QuoteKeepsDots(PATH_SAFE, DecodedPath(SplitUrl(net, url).value));
  }

  /**
   * A canonical URL of an ordinary authority has no default port and no fragment, and no dot segment exactly when the
   * decoded path has none, as is the case for every percent-free path.
   */
  lemma CanonicalShape(net: Net, url: string)
    requires Canonicalize(net, url).Url? && Ordinary(net, SplitUrl(net, url).value.netloc)
    ensures var p, v := SplitUrl(net, url).value, Canonicalize(net, url).text;
            && '#' !in v
            && SplitUrl(net, v).Some?
            && Port(SplitUrl(net, v).value.netloc).Some?
            && Port(SplitUrl(net, v).value.netloc).value != DefaultPort(SplitUrl(net, v).value.scheme)
            && (DotFree(SplitUrl(net, v).value.path) <==> DotFree(DecodedPath(p)))
            && ('%' !in p.path ==> DotFree(SplitUrl(net, v).value.path))
  {
    hide SplitUrl, CleanPath, Unquote, Quote, HostName, HasUser, Host, Unsplit, CanonicalHost, Port, EscapeFree;
    hide DotFree, Canonicalize;
    Accepts(net, url);
    var p := SplitUrl(net, url).value;
    CanonicalParts(net, url);
    NoFragment(net, url);
    DotSegments(net, url);
    NoDefaultPort(net, p.scheme, Host(net, p.netloc), Port(p.netloc).value);
    if '%' !in p.path {
      PathOfLink(net, url);
      PercentFreePath(RawPath(p));
    }
  }

  lemma NoDefaultPort(net: Net, scheme: string, host: string, port: nat)
    requires CanonicalHost(net, host) && Supported(scheme) && port <= 65535
    ensures var shown := Port(Netloc(scheme, host, port)); shown.Some? && shown.value != DefaultPort(scheme)
  {
    hide CanonicalHost, HostInfo, Decimal, FromDecimal;
    DecimalRoundTrip(port);
    assert host + "" == host;
    var digits := if port != 0 && port != DefaultPort(scheme) then Decimal(port) else "";
    assert Netloc(scheme, host, port) == host + PortText(digits);
    NetlocInfo(net, host, digits);
  }

  // Origins and the crawl scope

  /** origin: scheme, host and effective port; `None` when there is none. */
  function Origin(net: Net, url: string): Option<(string, string, nat)> {
    var split := SplitUrl(net, url);
    if split.None? then None
    else
      var p := split.value;
      var port := Port(p.netloc);
      if !Supported(p.scheme) || HostName(net, p.netloc) == "" || port.None? then None
      else Some((p.scheme, Host(net, p.netloc), if port.value == 0 then DefaultPort(p.scheme) else port.value))
  }

  /** The last two labels of a host, or all of it. */
  function RegistrableSite(host: string): string { LastLabels(host, 2) }

  function LastLabels(host: string, n: nat): string
    requires n > 0
    decreases |host|
  {
    if host == "" then ""
    else
      var c := host[|host| - 1];
      if c == '.' && n == 1 then "" else LastLabels(host[..|host| - 1], if c == '.' then n - 1 else n) + [c]
  }

  datatype ScopePolicy = SameOrigin | SameSite | AllowedDomains(domains: set<string>)

  function Allows(net: Net, policy: ScopePolicy, source: string, url: string): bool {
    var s, c := Origin(net, source), Origin(net, url);
    if s.None? || c.None? then false
    else
      match policy
      case SameOrigin => c == s
      case SameSite => c.value.0 == s.value.0 && RegistrableSite(c.value.1) == RegistrableSite(s.value.1)
      case AllowedDomains(domains) => c.value.1 in domains
  }

  /** Canonicalization keeps the origin, so every scope decides about the canonical URL as about the link. */
  lemma ScopeIsStable(net: Net, policy: ScopePolicy, source: string, url: string)
    requires Canonicalize(net, url).Url? && Ordinary(net, SplitUrl(net, url).value.netloc)
    ensures Origin(net, Canonicalize(net, url).text) == Origin(net, url)
    ensures Allows(net, policy, source, Canonicalize(net, url).text) == Allows(net, policy, source, url)
  {
    hide SplitUrl, CleanPath, Unquote, Quote, HostName, HasUser, Host, Unsplit, CanonicalHost, Netloc, Port;
    hide RegistrableSite;
    var p := SplitUrl(net, url).value;
    CanonicalParts(net, url);
    NetlocRoundTrip(net, p.scheme, Host(net, p.netloc), Port(p.netloc).value);
    assert Host(net, p.netloc) != "";
  }

  // Where idempotence fails

  lemma {:induction false} PlainBytes(s: string)
    requires AllAscii(s) && '%' !in s
    ensures UnquoteBytes(s) == Encode(s)
  {
    if s != "" { PlainBytes(s[1..]); }
  }

  lemma {:induction false} QuoteSafe(safe: set<char>, s: string)
    requires AllAscii(s) && forall i :: 0 <= i < |s| ==> s[i] in safe
    ensures Quote(safe, s) == s
  {
    if s != "" {
      QuoteSafe(safe, s[1..]);
      assert s == [s[0]] + s[1..];
    }
  }

  /** An escape of an ASCII character after a slash is decoded. */
  lemma UnquoteOne(a: char, b: char, rest: string)
    requires IsHex(a) && IsHex(b) && HexValue(a) * 16 + HexValue(b) < 0x80 && AllAscii(rest) && '%' !in rest
    ensures Unquote(['/', '%', a, b] + rest) == ['/', (HexValue(a) * 16 + HexValue(b)) as char] + rest
  {
    var s := ['/', '%', a, b] + rest;
    var c := (HexValue(a) * 16 + HexValue(b)) as char;
    PlainBytes(rest);
    assert s[1..][1..] == [a, b] + rest && s[1..][3..] == rest;
    assert UnquoteBytes(s[1..]) == [c as int] + Encode(rest);
    assert Encode(['/', c] + rest) == EncodeChar('/') + (EncodeChar(c) + Encode(rest)) by {
      assert (['/', c] + rest)[1..] == [c] + rest && ([c] + rest)[1..] == rest;
    }
    UnquoteAscii(s);
    Utf8RoundTrip(['/', c] + rest);
    assert s[1] == '%';
  }

  /** A path with one escape of a safe character loses the escape. */
  lemma DecodesOne(a: char, b: char, c: char, rest: string)
    requires IsHex(a) && IsHex(b) && HexValue(a) * 16 + HexValue(b) == c as int < 0x80
    requires c in PATH_SAFE && AllAscii(rest) && '%' !in rest && forall i :: 0 <= i < |rest| ==> rest[i] in PATH_SAFE
    ensures NormalizePercent(PATH_SAFE, ['/', '%', a, b] + rest) == ['/', c] + rest
  {
    hide UnquoteRuns, Unquote, Quote, HexValue;
    UnquoteOne(a, b, rest);
    assert '/' in PATH_SAFE;
    QuoteSafe(PATH_SAFE, ['/', c] + rest);
  }

  /** The canonical URL of a simple link. */
  lemma SimpleUrl(net: Net, netloc: string, path: string)
    requires Avoids(netloc, NETLOC_END + BREAKS) && NetlocOk(net, netloc) && !HasUser(netloc)
    requires HostName(net, netloc) != "" && Port(netloc) == Some(0)
    requires Rooted(path) && Avoids(path, {'?', '#'} + BREAKS)
    ensures SplitUrl(net, "http://" + netloc + path) == Some(Split("http", netloc, path, ""))
    ensures Canonicalize(net, "http://" + netloc + path) ==
            Url("http://" + Host(net, netloc) + NormalizePercent(PATH_SAFE, CleanPath(path)))
  {
    hide SplitUrl, HostName, HasUser, Host, Unsplit, NetlocOk, Port, CleanPath, Unquote;
    UrlRoundTrip(net, "http", netloc, path, "");
    PlainText(netloc, path);
    PlainText(Host(net, netloc), NormalizePercent(PATH_SAFE, CleanPath(path)));
    assert NormalizePercent(QUERY_SAFE, "") == "" by { assert Unquote("") == "" by { NothingToDecode(); } }
    assert path != "";
  }

  lemma NothingToDecode()
    ensures Unquote("") == ""
  {
  }

  lemma PlainText(netloc: string, path: string)
    ensures Unsplit("http", netloc, path, "") == "http://" + netloc + path
  {
    assert "http" + ":" + ("//" + (netloc + (path + ""))) == "http" + ":" + "//" + netloc + path;
    assert "http" + ":" + "//" == "http://";
  }

  /** A host of letters is its own authority. */
  lemma LetterHost(net: Net)
    ensures var a := "a";
            && Avoids(a, NETLOC_END + BREAKS) && NetlocOk(net, a) && !HasUser(a)
            && HostName(net, a) == a && Host(net, a) == a && Port(a) == Some(0)
  {
    assert "a" + "" == "a" && Netloc("http", "a", 0) == "a";
    AsciiText(net, "a");
    NetlocRoundTrip(net, "http", "a", 0);
    NetlocInfo(net, "a", "");
  }

  lemma OneSegment(segment: string)
    requires Plain(segment)
    ensures CleanPath("/" + segment) == "/" + segment
  {
    assert "/" + segment == Render("/", [segment], false);
    RenderIsFixed("/", [segment], false);
  }

  /** The canonical URL of a link to one segment. */
  lemma SegmentUrl(net: Net, segment: string, result: string)
    requires Plain(segment) && Avoids(segment, {'?', '#'} + BREAKS)
    requires NormalizePercent(PATH_SAFE, "/" + segment) == "/" + result
    ensures Canonicalize(net, "http://a/" + segment) == Url("http://a/" + result)
  {
    hide Unquote, Quote, Canonicalize, SplitUrl, HostName, HasUser, Host, NetlocOk, Port, CleanPath;
    LetterHost(net);
    OneSegment(segment);
    SimpleUrl(net, "a", "/" + segment);
    assert "http://" + "a" + ("/" + segment) == "http://a/" + segment;
    assert "http://" + "a" + ("/" + result) == "http://a/" + result;
  }

  /** An escaped escape of a character that needs none is decoded once more by every pass. */
  lemma DoubleEscape(net: Net)
    ensures Canonicalize(net, "http://a/%2541") == Url("http://a/%41")
    ensures Canonicalize(net, "http://a/%41") == Url("http://a/A")
  {
    hide UnquoteRuns, Unquote, Quote, Canonicalize;
    DecodesOne('2', '5', '%', "41");
    DecodesOne('4', '1', 'A', "");
    assert "/" + "%2541" == ['/', '%', '2', '5'] + "41" && "/" + "%41" == ['/', '%', '4', '1'] + "";
    assert "/" + "%41" == ['/', '%'] + "41" && "/" + "A" == ['/', 'A'] + "";
    SegmentUrl(net, "%2541", "%41");
    SegmentUrl(net, "%41", "A");
    assert "http://a/" + "%2541" == "http://a/%2541" && "http://a/" + "%41" == "http://a/%41";
    assert "http://a/" + "A" == "http://a/A";
  }

  ghost predicate Decodes(x: string, y: string) { AllAscii(x) && UnquoteBytes(x) == Encode(y) }

  lemma DecodesPlain(c: char, x: string, y: string)
    requires Decodes(x, y) && c != '%' && Ascii(c)
    ensures Decodes([c] + x, [c] + y)
  {
    assert ([c] + x)[1..] == x && ([c] + y)[1..] == y;
  }

  lemma DecodesPercent(x: string, y: string)
    requires Decodes(x, y)
    ensures Decodes("%25" + x, "%" + y)
  {
    UnquoteTriple(0x25, x);
    assert ['%', '2', '5'] + x == "%25" + x && ("%" + y)[1..] == y;
  }

  /** An escaped escape that quoting would write itself is kept: "/%25C3%25A9" becomes "/%C3%A9" and stays so. */
  lemma EscapedEscapeStays(net: Net)
    ensures Canonicalize(net, "http://a/%25C3%25A9") == Url("http://a/%C3%A9")
    ensures Canonicalize(net, "http://a/%C3%A9") == Url("http://a/%C3%A9")
  {
    hide UnquoteRuns, Unquote, Quote, Canonicalize;
    EscapedOnce();
    EscapeIsSettled();
    assert "/" + "%25C3%25A9" == "/%25C3%25A9" && "/" + "%C3%A9" == "/%C3%A9";
    SegmentUrl(net, "%25C3%25A9", "%C3%A9");
    SegmentUrl(net, "%C3%A9", "%C3%A9");
    assert "http://a/" + "%25C3%25A9" == "http://a/%25C3%25A9" && "http://a/" + "%C3%A9" == "http://a/%C3%A9";
  }

  lemma EscapedTail()
    ensures Decodes("%25A9", "%A9")
  {
    assert Decodes("", "");
    hide Decodes;
    DecodesPlain('9', "", "");
    DecodesPlain('A', ['9'] + "", ['9'] + "");
    assert ['A'] + (['9'] + "") == "A9";
    DecodesPercent("A9", "A9");
    assert "%25" + "A9" == "%25A9" && "%" + "A9" == "%A9";
  }

  lemma EscapedTwice()
    ensures Decodes("/%25C3%25A9", "/%C3%A9")
  {
    hide Decodes;
    EscapedTail();
    DecodesPlain('3', "%25A9", "%A9");
    DecodesPlain('C', ['3'] + "%25A9", ['3'] + "%A9");
    var x, y := ['C'] + (['3'] + "%25A9"), ['C'] + (['3'] + "%A9");
    DecodesPercent(x, y);
    DecodesPlain('/', "%25" + x, "%" + y);
    assert ['/'] + ("%25" + x) == "/%25C3%25A9" && ['/'] + ("%" + y) == "/%C3%A9";
  }

  /** A text that decodes to safe characters is replaced by them. */
  lemma DecodedIsSafe(x: string, y: string)
    requires Decodes(x, y) && |x| > 1 && x[1] == '%' && AllAscii(y) && forall i :: 0 <= i < |y| ==> y[i] in PATH_SAFE
    ensures NormalizePercent(PATH_SAFE, x) == y
  {
    hide Quote, UnquoteBytes, Encode, UnquoteRuns;
    UnquoteAscii(x);
    Utf8RoundTrip(y);
    QuoteSafe(PATH_SAFE, y);
  }

  lemma EscapedOnce()
    ensures NormalizePercent(PATH_SAFE, "/%25C3%25A9") == "/%C3%A9"
  {
    hide Decodes, Unquote, Quote;
    EscapedTwice();
    DecodedIsSafe("/%25C3%25A9", "/%C3%A9");
  }

  /** The escape is that of one character, which is not safe, so decoding and quoting give it back. */
  lemma EscapeIsSettled()
    ensures NormalizePercent(PATH_SAFE, "/%C3%A9") == "/%C3%A9"
  {
    var c := 0xE9 as char;
    var text := ['/', c];
    assert text[1..] == [c] && [c][1..] == "";
    assert EncodeChar(c) == [0xC3, 0xA9];
    assert [0xC3, 0xA9][1..] == [0xA9] && [0xA9][1..] == [];
    assert QuoteChar(PATH_SAFE, c) == "%C3%A9";
    assert Quote(PATH_SAFE, [c]) == "%C3%A9" + "";
    assert '/' in PATH_SAFE && Quote(PATH_SAFE, text) == ['/'] + ("%C3%A9" + "");
    assert ['/'] + ("%C3%A9" + "") == "/%C3%A9";
    hide Quote, UnquoteRuns, Unquote;
    QuoteRoundTrip(PATH_SAFE, text);
  }

  /** An escape that hides a dot segment is uncovered by the first pass and removed by the second. */
  lemma HiddenDots(net: Net)
    ensures Canonicalize(net, "http://a/%2e%2e/b") == Url("http://a/../b")
    ensures Canonicalize(net, "http://a/../b") == Url("http://a/b")
  {
    hide UnquoteRuns, Unquote, Quote, Canonicalize, SplitUrl, HostName, HasUser, Host, NetlocOk, Port, CleanPath;
    hide UnquoteBytes, Decodes;
    LetterHost(net);
    EscapedDotsAreClean();
    DotsAreRemoved();
    DotsAreDecoded();
    DecodedIsSafe("/%2e%2e/b", "/../b");
    assert NormalizePercent(PATH_SAFE, "/b") == "/b" by {
      assert Unquote("/b") == "/b" by { PlainIsDecoded("/b"); }
      QuoteSafe(PATH_SAFE, "/b");
    }
    SimpleUrl(net, "a", "/%2e%2e/b");
    SimpleUrl(net, "a", "/../b");
    assert "http://" + "a" + "/%2e%2e/b" == "http://a/%2e%2e/b" && "http://" + "a" + "/../b" == "http://a/../b";
    assert "http://" + "a" + "/b" == "http://a/b";
  }

  lemma DecodesDot(x: string, y: string)
    requires Decodes(x, y)
    ensures Decodes("%2e" + x, "." + y)
  {
    var s := "%2e" + x;
    assert s[3..] == x && s[1..][0] == '2' && s[1..][1] == 'e' && ("." + y)[1..] == y;
    assert HexValue('2') * 16 + HexValue('e') == 0x2E;
  }

  lemma DotsAreDecoded()
    ensures Decodes("/%2e%2e/b", "/../b")
  {
    assert Decodes("", "");
    hide Decodes;
    DecodesPlain('b', "", "");
    DecodesPlain('/', ['b'] + "", ['b'] + "");
    var tail := ['/'] + (['b'] + "");
    DecodesDot(tail, tail);
    DecodesDot("%2e" + tail, "." + tail);
    DecodesPlain('/', "%2e" + ("%2e" + tail), "." + ("." + tail));
    assert ['/'] + ("%2e" + ("%2e" + tail)) == "/%2e%2e/b" && ['/'] + ("." + ("." + tail)) == "/../b";
  }

  lemma PlainIsDecoded(s: string)
    requires '%' !in s
    ensures Unquote(s) == s
  {
  }

  lemma EscapedDotsAreClean()
    ensures CleanPath("/%2e%2e/b") == "/%2e%2e/b"
  {
    hide CleanPath;
    var comps := ["%2e%2e", "b"];
    assert comps[1..] == ["b"] && JoinPath(comps) == "%2e%2e" + "/" + "b";
    assert Render("/", comps, false) == "/%2e%2e/b";
    RenderIsFixed("/", comps, false);
  }

  lemma DotsAreRemoved()
    ensures CleanPath("/../b") == "/b"
  {
    hide CleanPath, Components;
    assert "/" + "../b" == "/../b" && ".." + "/" + "b" == "../b";
    SkipSlash("../b", []);
    ScanSlash("..", "b", []);
    ReadSegment("b", "", []);
    assert "b" + "" == "b" && [] + ["b"] == ["b"];
    CleanShape("/../b");
    assert Lead("/../b") == "/" by { assert "/../b"[1] == '.'; }
    assert JoinPath(["b"]) == "b" && "/" + "b" + "" == "/b";
  }

  /** What stands between brackets is the host text. */
  lemma LiteralInfo(inner: string)
    requires Avoids(inner, {'@', '[', ']'})
    ensures HostInfo("[" + inner + "]") == (inner, "") && !HasUser("[" + inner + "]")
  {
    hide AfterLast, Before;
    var netloc := "[" + inner + "]";
    NoneAfterLast(netloc, '@');
    assert netloc == "" + netloc && netloc[1..] == inner + "]";
    BeforeConcat("", netloc, {'['});
    BeforeConcat(inner, "]", {']'});
    assert "]"[1..] == "";
  }

  lemma LiteralIsOk(net: Net, inner: string)
    requires Avoids(inner, HOST_STOPS) && AllAscii(inner) && net.ipLiteral("[" + inner + "]")
    ensures Avoids("[" + inner + "]", NETLOC_END + BREAKS) && NetlocOk(net, "[" + inner + "]")
  {
    var netloc := "[" + inner + "]";
    assert netloc[0] == '[' && netloc[|netloc| - 1] == ']';
  }

  /** A link to a lower-case literal host and the root path. */
  lemma LiteralUrl(net: Net, inner: string)
    requires HostText(net, inner) && AllAscii(inner) && inner != "" && '[' !in inner && '%' !in inner
    requires net.ipLiteral("[" + inner + "]")
    ensures SplitUrl(net, "http://[" + inner + "]/") == Some(Split("http", "[" + inner + "]", "/", ""))
    ensures Host(net, "[" + inner + "]") == inner && Port("[" + inner + "]") == Some(0)
    ensures Canonicalize(net, "http://[" + inner + "]/") == Url("http://" + inner + "/")
  {
    hide SplitUrl, HasUser, HostInfo, StripDots, Lower, Canonicalize, CleanPath, Unquote, NetlocOk;
    var netloc := "[" + inner + "]";
    LiteralInfo(inner);
    assert inner[..|inner|] == inner;
    PlainName(net, netloc);
    StripsNothing(inner);
    LiteralIsOk(net, inner);
    RootIsClean();
    SimpleUrl(net, netloc, "/");
    assert "http://" + netloc + "/" == "http://[" + inner + "]/";
  }

  lemma RootIsClean()
    ensures CleanPath("/") == "/" && NormalizePercent(PATH_SAFE, "/") == "/" && Settled(PATH_SAFE, "/")
  {
    hide CleanPath, Unquote;
    JoinNothing();
    assert Render("/", [], false) == "/";
    RenderIsFixed("/", [], false);
    PlainIsDecoded("/");
    QuoteSafe(PATH_SAFE, "/");
  }

  /** A lower-case host text without a zone is the host name. */
  lemma PlainName(net: Net, netloc: string)
    requires var h := HostInfo(netloc).0; Avoids(h, {'%'}) && Lower(net, h) == h
    ensures HostName(net, netloc) == HostInfo(netloc).0
  {
    hide HostInfo;
    var h := HostInfo(netloc).0;
    NoStop(h, {'%'});
    assert h + "" == h;
  }

  /** An IPv6 literal loses its brackets, and the second pass refuses what is left. */
  lemma IpLiteralIsRefused(net: Net)
    requires net.ipLiteral("[::1]")
    ensures Canonicalize(net, "http://[::1]/") == Url("http://::1/") && !Canonicalize(net, "http://::1/").Url?
  {
    hide SplitUrl, Canonicalize, Host, Port;
    assert "[" + "::1" + "]" == "[::1]" && "http://[" + "::1" + "]/" == "http://[::1]/";
    assert "http://" + "::1" + "/" == "http://::1/";
    AsciiText(net, "::1");
    LiteralUrl(net, "::1");
    assert ':' in PortPart("::1") by {
      BeforeConcat("", "::1", {':'});
      assert "" + "::1" == "::1" && "::1"[1..] == ":1" && ":1"[0] == ':';
    }
    assert "::1"[0] == ':';
    HostIsRefused(net, "http://[::1]/");
  }

  /** A literal of a later version can read as a host with a port: then it comes back, as another authority. */
  lemma FutureLiteralStays(net: Net)
    requires net.ipLiteral("[v1.a:8]")
    ensures Canonicalize(net, "http://[v1.a:8]/") == Url("http://v1.a:8/")
    ensures Canonicalize(net, "http://v1.a:8/") == Url("http://v1.a:8/")
  {
    hide SplitUrl, Canonicalize, Host, Port, CleanPath, Settled, Unquote, Quote, HostText, HostStays;
    var literal := "v1.a:8";
    assert "[" + literal + "]" == "[v1.a:8]" && "http://[" + literal + "]/" == "http://[v1.a:8]/";
    assert "http://" + literal + "/" == "http://v1.a:8/";
    FutureText(net);
    LiteralUrl(net, literal);
    assert HostStays("http", literal, 0) by { PortText8(); }
    RootIsClean();
    Idempotence(net, "http://[v1.a:8]/");
  }

  lemma FutureText(net: Net)
    ensures var literal := "v1.a:8"; HostText(net, literal) && AllAscii(literal) && '[' !in literal && '%' !in literal
  {
    AsciiText(net, "v1.a:8");
  }

  lemma PortText8()
    ensures HostStays("http", "v1.a:8", 0)
  {
    ColonIndex("v1.a", "8");
    assert "v1.a" + ":" + "8" == "v1.a:8";
    hide Before;
    assert "8"[..0] == "" && FromDecimal("8") == 8 && Decimal(8) == "8";
  }

  /** A host of dots only leaves no authority behind, and the second pass refuses that. */
  lemma DotsLeaveNoHost(net: Net)
    ensures Canonicalize(net, "http://../") == Url("http:///") && !Canonicalize(net, "http:///").Url?
  {
    hide SplitUrl, Canonicalize, AfterLast, Before, StripDots, CleanPath, Unquote;
    NoneAfterLast("..", '@');
    NoStop("..", {':'});
    NoStop("..", {'%'});
    LowerFixed(net, "..");
    assert ".." + "" == "..";
    assert StripDots("..") == "" by { DotsStrip(); }
    RootIsClean();
    SimpleUrl(net, "..", "/");
    assert "http://" + ".." + "/" == "http://../" && "http://" + "" + "/" == "http:///";
    HostIsRefused(net, "http://../");
  }

  lemma DotsStrip()
    ensures StripDots("..") == ""
  {
    assert ".."[..1] == "." && "."[..0] == "";
  }
}
