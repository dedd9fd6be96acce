/** Canonical URLs character by character (discovery_policy.py, canonicalize_url). */
module CanonicalForms {
  import opened Wrappers
  import opened Decimals
  import opened Percent
  import opened Paths
  import opened Urls

  // Which characters are kept, written out

  predicate WordChar(c: char) {
    || 'a' <= c <= 'z' || 'A' <= c <= 'Z' || '0' <= c <= '9'
    || c == '-' || c == '.' || c == '_' || c == '~'
  }

  predicate QueryChar(c: char) {
    || WordChar(c) || c == '=' || c == '&' || c == ';' || c == '/' || c == '?' || c == ':' || c == '@' || c == '+'
    || c == '$' || c == ',' || c == '[' || c == ']'
  }

  predicate PathChar(c: char) { WordChar(c) || c == '/' || c == '%' || c == ':' || c == '@' }

  datatype Part = InPath | InQuery

  predicate Kept(part: Part, c: char) { if part == InPath then PathChar(c) else QueryChar(c) }

  // Percent-encoding, written out

  /** The bytes of a code point in UTF-8: RFC 3629, section 3. */
  predicate IsUtf8(n: nat, b: seq<int>) {
    if n < 0x80 then |b| == 1 && b[0] == n
    else if n < 0x800 then |b| == 2 && n == (b[0] - 0xC0) * 0x40 + Low(b[1]) && Tail(b[1])
    else if n < 0x10000 then
      |b| == 3 && n == (b[0] - 0xE0) * 0x1000 + Low(b[1]) * 0x40 + Low(b[2]) && Tail(b[1]) && Tail(b[2])
    else
      && |b| == 4 && n == (b[0] - 0xF0) * 0x40000 + Low(b[1]) * 0x1000 + Low(b[2]) * 0x40 + Low(b[3])
      && Tail(b[1]) && Tail(b[2]) && Tail(b[3])
  }

  /** A byte that continues a code point, and the six bits that it carries. */
  predicate Tail(b: int) { 0x80 <= b < 0xC0 }

  function Low(b: int): int { b - 0x80 }

  predicate IsUpperHex(c: char, n: int) {
    if n < 10 then c as int == '0' as int + n else n < 16 && c as int == 'A' as int + n - 10
  }

  /** Three characters for each byte: a percent sign and two upper-case digits. */
  ghost predicate IsEscape(b: seq<int>, t: string) {
    && |t| == 3 * |b|
    && forall k :: 0 <= k < |b| ==>
         t[3 * k] == '%' && IsUpperHex(t[3 * k + 1], b[k] / 16) && IsUpperHex(t[3 * k + 2], b[k] % 16)
  }

  ghost predicate IsEscapeOf(c: char, t: string) { exists b: seq<int> :: IsUtf8(c as int, b) && IsEscape(b, t) }

  /** `t` is `s` with every character kept, or replaced by the escape of its bytes. */
  ghost predicate Encodes(part: Part, s: string, t: string) {
    if s == "" then t == ""
    else
      exists n: nat :: n <= |t| && Encodes(part, s[1..], t[n..])
        && if Kept(part, s[0]) then t[..n] == [s[0]] else IsEscapeOf(s[0], t[..n])
  }

  // What quoting does

  function Safe(part: Part): set<char> { if part == InPath then PATH_SAFE else QUERY_SAFE }

  lemma KeptIsSafe(part: Part, c: char)
    ensures Kept(part, c) <==> c in Safe(part) && Ascii(c)
  {
    assert c in UNRESERVED <==> WordChar(c);
  }

  lemma Utf8Is(c: char)
    ensures IsUtf8(c as int, EncodeChar(c))
  {
    var n := c as int;
    Base64Digits(n);
  }

  /** The digits of a number in base 64 are its only ones. */
  lemma Digit64(n: nat, q: int, r: int)
    requires n == q * 64 + r && 0 <= r < 64
    ensures n / 64 == q && n % 64 == r
  {
  }

  lemma Utf8IsUnique(c: char, b: seq<int>)
    requires IsUtf8(c as int, b)
    ensures b == EncodeChar(c)
  {
    var n := c as int;
    if 0x80 <= n < 0x800 {
      Digit64(n, b[0] - 0xC0, Low(b[1]));
    } else if 0x800 <= n < 0x10000 {
      Digit64(n, (b[0] - 0xE0) * 64 + Low(b[1]), Low(b[2]));
      Digit64(n / 64, b[0] - 0xE0, Low(b[1]));
      assert n / 64 / 64 == n / 4096;
    } else if n >= 0x10000 {
      Digit64(n, (b[0] - 0xF0) * 4096 + Low(b[1]) * 64 + Low(b[2]), Low(b[3]));
      Digit64(n / 64, (b[0] - 0xF0) * 64 + Low(b[1]), Low(b[2]));
      Digit64(n / 64 / 64, b[0] - 0xF0, Low(b[1]));
      assert n / 64 / 64 == n / 4096 && n / 4096 / 64 == n / 262144;
    }
  }

  lemma {:induction false} EscapeIs(b: seq<Byte>)
    ensures IsEscape(b, Escape(b))
  {
    if b != [] {
      EscapeIs(b[1..]);
      var t, rest := Escape(b), Escape(b[1..]);
      forall k | 0 <= k < |b|
        ensures t[3 * k] == '%' && IsUpperHex(t[3 * k + 1], b[k] / 16) && IsUpperHex(t[3 * k + 2], b[k] % 16)
      {
        if k > 0 {
          assert t[3 * k] == rest[3 * (k - 1)] && t[3 * k + 1] == rest[3 * (k - 1) + 1];
          assert t[3 * k + 2] == rest[3 * (k - 1) + 2];
        }
      }
    }
  }

  lemma HexIsUnique(c: char, d: char, n: int)
    requires IsUpperHex(c, n) && IsUpperHex(d, n)
    ensures c == d
  {
  }

  lemma EscapeIsUnique(b: seq<int>, t: string, u: string)
    requires IsEscape(b, t) && IsEscape(b, u)
    ensures t == u
  {
    hide IsUpperHex;
    forall i | 0 <= i < |t|
      ensures t[i] == u[i]
    {
      var k := i / 3;
      assert i == 3 * k || i == 3 * k + 1 || i == 3 * k + 2;
      HexIsUnique(t[3 * k + 1], u[3 * k + 1], b[k] / 16);
      HexIsUnique(t[3 * k + 2], u[3 * k + 2], b[k] % 16);
    }
  }

  lemma QuoteCharIs(part: Part, c: char)
    ensures if Kept(part, c) then QuoteChar(Safe(part), c) == [c] else IsEscapeOf(c, QuoteChar(Safe(part), c))
  {
    KeptIsSafe(part, c);
    Utf8Is(c);
    EscapeIs(EncodeChar(c));
    hide IsUtf8, IsEscape, EncodeChar, Escape, Safe, Kept;
    var b: seq<int> := EncodeChar(c);
    assert IsUtf8(c as int, b) && IsEscape(b, Escape(EncodeChar(c)));
  }

  lemma {:induction false} QuoteEncodes(part: Part, s: string)
    ensures Encodes(part, s, Quote(Safe(part), s))
  {
    hide Kept, Safe, IsEscapeOf, QuoteChar;
    if s != "" {
      var head, t := QuoteChar(Safe(part), s[0]), Quote(Safe(part), s);
      QuoteCharIs(part, s[0]);
      QuoteEncodes(part, s[1..]);
      assert t[..|head|] == head && t[|head|..] == Quote(Safe(part), s[1..]);
    }
  }

  lemma EscapeOfIsUnique(c: char, t: string)
    requires IsEscapeOf(c, t)
    ensures t == Escape(EncodeChar(c))
  {
    hide IsUtf8, IsEscape, EncodeChar, Escape;
    var b: seq<int> :| IsUtf8(c as int, b) && IsEscape(b, t);
    Utf8IsUnique(c, b);
    EscapeIs(EncodeChar(c));
    EscapeIsUnique(b, t, Escape(EncodeChar(c)));
  }

  lemma {:induction false} EncodesIsQuote(part: Part, s: string, t: string)
    requires Encodes(part, s, t)
    ensures t == Quote(Safe(part), s)
  {
    hide Kept, Safe, IsEscapeOf, EncodeChar, Escape;
    if s != "" {
      var n: nat :| n <= |t| && Encodes(part, s[1..], t[n..])
                    && if Kept(part, s[0]) then t[..n] == [s[0]] else IsEscapeOf(s[0], t[..n]);
      EncodesIsQuote(part, s[1..], t[n..]);
      KeptIsSafe(part, s[0]);
      if !Kept(part, s[0]) { EscapeOfIsUnique(s[0], t[..n]); }
      assert t == t[..n] + t[n..];
    }
  }

  // The parts of the result

  /** The text of a URL: scheme, authority, path, and a query if there is one. */
  function UrlText(scheme: string, authority: string, path: string, query: string): string {
    scheme + "://" + authority + path + if query == "" then "" else "?" + query
  }

  lemma UnsplitIsText(scheme: string, netloc: string, path: string, query: string)
    ensures Unsplit(scheme, netloc, path, query) == UrlText(scheme, netloc, path, query)
  {
    assert scheme + ":" + ("//" + (netloc + (path + QueryText(query))))
        == scheme + (":" + "//") + netloc + path + QueryText(query);
    assert ":" + "//" == "://";
  }

  /**
   * The path and the query of the result of every accepted link: the decoded ones, in which the characters written out
   * above are kept and every other one is percent-encoded.
   */
  lemma PartsExactly(net: Net, url: string) returns (path: string, query: string)
    requires Canonicalize(net, url).Url?
    ensures SplitUrl(net, url).Some?
    ensures var p := SplitUrl(net, url).value;
            && Port(p.netloc).Some?
            && Encodes(InPath, DecodedPath(p), path) && Encodes(InQuery, Unquote(p.query), query)
            && Canonicalize(net, url).text == UrlText(p.scheme, CanonicalNetloc(net, p), path, query)
  {
    hide SplitUrl, CleanPath, Unquote, Quote, Canonicalize, UrlText, Unsplit, Encodes, CanonicalNetloc;
    Accepts(net, url);
    var p := SplitUrl(net, url).value;
    path, query := PathText(p), NormalizePercent(QUERY_SAFE, p.query);
    QuoteEncodes(InPath, DecodedPath(p));
    QuoteEncodes(InQuery, Unquote(p.query));
    UnsplitIsText(p.scheme, CanonicalNetloc(net, p), path, query);
  }

  /** A text of kept characters is left alone. */
  lemma {:induction false} QuoteKept(part: Part, s: string)
    requires forall i :: 0 <= i < |s| ==> Kept(part, s[i])
    ensures Quote(Safe(part), s) == s
  {
    hide Kept, Safe;
    if s != "" {
      KeptIsSafe(part, s[0]);
      QuoteKept(part, s[1..]);
      assert s == [s[0]] + s[1..];
    }
  }

  /** A query of these characters is the query of the result, character for character. */
  lemma QueryStays(net: Net, url: string)
    requires Canonicalize(net, url).Url?
    requires forall c <- SplitUrl(net, url).value.query :: QueryChar(c)
    ensures var p := SplitUrl(net, url).value;
            Canonicalize(net, url).text == UrlText(p.scheme, CanonicalNetloc(net, p), PathText(p), p.query)
  {
    hide SplitUrl, CleanPath, UnquoteRuns, Quote, Canonicalize, UrlText, Unsplit, CanonicalNetloc, PathText;
    Accepts(net, url);
    var p := SplitUrl(net, url).value;
    hide QueryChar, Canonicalize;
    assert '%' !in p.query by { NoPercent(p.query); }
    QuoteKept(InQuery, p.query);
    UnsplitIsText(p.scheme, CanonicalNetloc(net, p), PathText(p), p.query);
  }

  lemma NoPercent(s: string)
    requires forall c <- s :: QueryChar(c)
    ensures '%' !in s
  {
  }

  /** Segments between slashes, none empty, "." or "..", after one slash or two and perhaps with one at the end. */
  ghost predicate CleanForm(path: string) {
    exists lead, comps, trail :: (lead == "/" || lead == "//") && AllPlain(comps) && (trail ==> comps != [])
      && path == Render(lead, comps, trail)
  }

  lemma CleanFormIs(path: string)
    requires Rooted(path)
    ensures CleanForm(path) <==> CleanPath(path) == path
  {
    hide CleanPath, Components;
    if CleanForm(path) {
      var lead, comps, trail :| (lead == "/" || lead == "//") && AllPlain(comps) && (trail ==> comps != [])
                                && path == Render(lead, comps, trail);
      RenderIsFixed(lead, comps, trail);
    }
    CleanShape(path);
  }

  /** A clean path of these characters, in which no percent sign begins an escape, is the path of the result. */
  lemma PathStays(net: Net, url: string)
    requires Canonicalize(net, url).Url?
    requires var path := SplitUrl(net, url).value.path;
             CleanForm(path) && EscapeFree(path) && forall c <- path :: PathChar(c)
    ensures PathText(SplitUrl(net, url).value) == SplitUrl(net, url).value.path
  {
    hide SplitUrl, CleanPath, Unquote, Quote, Canonicalize, EscapeFree;
    Accepts(net, url);
    PathOfLink(net, url);
    var path := SplitUrl(net, url).value.path;
    assert path != "" by { FormIsRooted(path); }
    CleanFormIs(path);
    QuoteKept(InPath, path);
    QuoteRoundTrip(PATH_SAFE, path);
  }

  // Dot segments, written out

  /** Reading goes on after a slash with the components collected so far. */
  lemma {:induction false} ComponentsConcat(a: string, b: string, comps: seq<string>)
    ensures Components(a + "/" + b, comps) == Components(b, Components(a, comps))
    decreases |a|
  {
    hide Components, Push;
    var segment, more := ReadFirst(a, comps);
    if more.Some? {
      ComponentsConcat(more.value, b, Push(comps, segment));
      ScanSlash(segment, more.value + "/" + b, comps);
      assert a + "/" + b == segment + "/" + (more.value + "/" + b);
    } else {
      ScanSlash(segment, b, comps);
    }
  }

  /** A "." or an empty segment is passed over. */
  lemma PassedOver(front: string, rest: string)
    ensures Components(front + "/" + ("./" + rest), []) == Components(front + "/" + rest, [])
    ensures Components(front + "/" + ("/" + rest), []) == Components(front + "/" + rest, [])
  {
    hide Components;
    var comps := Components(front, []);
    ComponentsConcat(front, "./" + rest, []);
    ComponentsConcat(front, "/" + rest, []);
    ComponentsConcat(front, rest, []);
    ScanSlash(".", rest, comps);
    ScanSlash("", rest, comps);
    assert "." + "/" + rest == "./" + rest && "" + "/" + rest == "/" + rest;
  }

  /** A ".." takes the segment before it back. */
  lemma TakenBack(front: string, x: string, rest: string)
    requires Plain(x)
    ensures Components(front + "/" + (x + "/" + ("../" + rest)), []) == Components(front + "/" + rest, [])
  {
    hide Components, Plain;
    var comps := Components(front, []);
    ComponentsConcat(front, x + "/" + ("../" + rest), []);
    ComponentsConcat(front, rest, []);
    assert '/' !in x && Push(comps, x) == comps + [x] by { PlainIsPushed(comps, x); }
    ScanSlash(x, "../" + rest, comps);
    ScanSlash("..", rest, comps + [x]);
    assert ".." + "/" + rest == "../" + rest && (comps + [x])[..|comps|] == comps;
  }

  lemma PlainIsPushed(comps: seq<string>, x: string)
    requires Plain(x)
    ensures '/' !in x && Push(comps, x) == comps + [x]
  {
  }

  /** At the root there is nothing to take back. */
  lemma NothingTakenBack(rest: string)
    ensures Components("/../" + rest, []) == Components("/" + rest, [])
  {
    hide Components;
    SkipSlash("../" + rest, []);
    SkipSlash(rest, []);
    ScanSlash("..", rest, []);
    assert "/" + ("../" + rest) == "/../" + rest && ".." + "/" + rest == "../" + rest;
  }

  /**
   * Cleaning removes dot segments (RFC 3986, section 5.2.4): behind any beginning of a path, "./", a second slash, and
   * a segment with "../" behind it can be left out, and "../" at the root. With Paths.RenderIsFixed, by which a path
   * without such segments stays as it is, these rules determine the result.
   */
  lemma DotSegmentsAreRemoved(front: string, x: string, rest: string)
    requires Rooted(front) && front != "/" && Plain(x)
    ensures CleanPath(front + "/" + ("./" + rest)) == CleanPath(front + "/" + rest)
    ensures CleanPath(front + "/" + (x + "/" + ("../" + rest))) == CleanPath(front + "/" + rest)
    ensures front != "//" ==> CleanPath(front + "/" + ("/" + rest)) == CleanPath(front + "/" + rest)
    ensures Rooted(rest) || CleanPath("/../" + rest) == CleanPath("/" + rest)
  {
    hide Components, CleanPath;
    PassedOver(front, rest);
    TakenBack(front, x, rest);
    NothingTakenBack(rest);
    var to := front + "/" + rest;
    SameShape(front + "/" + ("./" + rest), to);
    SameShape(front + "/" + (x + "/" + ("../" + rest)), to);
    if front != "//" { SameShape(front + "/" + ("/" + rest), to); }
    if !Rooted(rest) {
      assert ("/../" + rest)[1] == '.';
      SameShape("/../" + rest, "/" + rest);
    }
  }

  lemma SameShape(path: string, other: string)
    requires Rooted(path) && Rooted(other) && Components(path, []) == Components(other, [])
    requires EndsInSlash(path) == EndsInSlash(other) && Lead(path) == Lead(other)
    ensures CleanPath(path) == CleanPath(other)
  {
    hide Components, CleanPath, Lead;
    CleanShape(path);
    CleanShape(other);
  }

  // The authority

  /** A host text before it is lower-cased: no delimiter in it. */
  predicate HostChar(c: char) {
    c != '/' && c != '?' && c != '#' && c != '@' && c != ':' && c != '[' && c != ']'
    && c != '\t' && c != '\r' && c != '\n'
  }

  /** 'A' to 'Z' become 'a' to 'z', and nothing else changes. */
  predicate Lowered(c: char, l: char) { if 'A' <= c <= 'Z' then l as int == c as int + 32 else l == c }

  /** `host` is `given` in lower case, without the dots at its end. */
  ghost predicate HostOf(given: string, host: string) {
    && |host| <= |given|
    && (forall i :: 0 <= i < |host| ==> Lowered(given[i], host[i]))
    && (forall i :: |host| <= i < |given| ==> given[i] == '.')
    && (host != "" ==> host[|host| - 1] != '.')
  }

  lemma {:induction false} StripsDots(s: string, n: nat)
    requires n <= |s| && (forall i :: n <= i < |s| ==> s[i] == '.') && (n > 0 ==> s[n - 1] != '.')
    ensures StripDots(s) == s[..n]
    decreases |s|
  {
    if n < |s| {
      StripsDots(s[..|s| - 1], n);
      assert s[..|s| - 1][..n] == s[..n];
    }
  }

  lemma HostOfIs(net: Net, given: string, host: string)
    requires AllAscii(given) && HostOf(given, host)
    ensures StripDots(Lower(net, Lower(net, given))) == host
  {
    var l := LowerAscii(given);
    assert AllAscii(l);
    assert Lower(net, l) == l by { LowerFixed(net, l); }
    StripsDots(l, |host|);
    assert l[..|host|] == host;
  }

  /** What an ordinary ASCII authority is read as. */
  lemma AuthorityReads(net: Net, given: string, digits: string, host: string)
    requires AllAscii(given) && given != "" && (forall c <- given :: HostChar(c) && c != '%') && HostOf(given, host)
    requires digits == "" || IsDigits(digits)
    ensures var netloc := given + PortText(digits);
            && Avoids(netloc, NETLOC_END + BREAKS) && NetlocOk(net, netloc) && !HasUser(netloc)
            && HostName(net, netloc) != "" && Host(net, netloc) == host
            && Port(netloc) == if FromDecimal(digits) <= 65535 then Some(FromDecimal(digits)) else None
  {
    hide HostOf, HostName, StripDots;
    var netloc := given + PortText(digits);
    GivenInfo(given, digits);
    HostOfIs(net, given, host);
    GivenName(net, netloc, given);
    assert digits == "" ==> FromDecimal(digits) == 0;
  }

  lemma GivenInfo(given: string, digits: string)
    requires AllAscii(given) && (forall c <- given :: HostChar(c)) && (digits == "" || IsDigits(digits))
    ensures var netloc := given + PortText(digits);
            && AllAscii(netloc) && Avoids(netloc, NETLOC_END + BREAKS + {'[', ']'}) && !HasUser(netloc)
            && Avoids(netloc, NETLOC_END + BREAKS) && '[' !in netloc && ']' !in netloc
            && HostInfo(netloc) == (given, digits)
  {
    var tail := PortText(digits);
    if digits != "" { DigitsAvoid(digits); }
    var netloc := given + tail;
    assert Avoids(given, NETLOC_END + BREAKS + {'[', ']', '@', ':'}) by {
      forall i | 0 <= i < |given|
        ensures HostChar(given[i])
      {
        assert given[i] in given;
      }
    }
    assert Avoids(netloc, NETLOC_END + BREAKS + {'[', ']', '@'}) && '[' !in netloc && ']' !in netloc;
    assert forall c <- given :: c !in {':'};
    hide AfterLast, Before;
    NoneAfterLast(netloc, '@');
    BeforeConcat(given, tail, {':'});
    assert Dropped(tail) == digits;
  }

  lemma GivenName(net: Net, netloc: string, given: string)
    requires HostInfo(netloc).0 == given && '%' !in given && given != "" && AllAscii(given)
    ensures HostName(net, netloc) == Lower(net, given) && HostName(net, netloc) != ""
  {
    assert Avoids(given, {'%'});
    NoStop(given, {'%'});
    assert Lower(net, given) + "" == Lower(net, given);
  }

  /**
   * A link with an ordinary authority, by its parts: it is accepted exactly when the port is at most 65535, and then
   * its host is lower-cased and loses the dots at its end, and its port is shown unless it is 0, 80 for http or 443 for
   * https.
   */
  lemma AuthorityExactly(
    net: Net, scheme: string, given: string, digits: string, path: string, query: string, host: string)
    requires scheme == "http" || scheme == "https"
    requires AllAscii(given) && given != "" && (forall c <- given :: HostChar(c) && c != '%') && HostOf(given, host)
    requires digits == "" || IsDigits(digits)
    requires Rooted(path) && Avoids(path, {'?', '#'} + BREAKS) && Avoids(query, {'#'} + BREAKS)
    ensures var url := UrlText(scheme, given + (if digits == "" then "" else ":" + digits), path, query);
            var port := FromDecimal(digits);
            Canonicalize(net, url) ==
            if port > 65535 then Rejected
            else
              var shown := port != 0 && !(scheme == "http" && port == 80) && !(scheme == "https" && port == 443);
              Url(UrlText(
                scheme, host + (if shown then ":" + Decimal(port) else ""),
                NormalizePercent(PATH_SAFE, CleanPath(path)), NormalizePercent(QUERY_SAFE, query)))
  {
    hide SplitUrl, CleanPath, Unquote, Quote, HostName, HasUser, Host, NetlocOk, Port, UrlText, Unsplit, HostOf;
    hide FromDecimal, Avoids, HostChar;
    var netloc := given + PortText(digits);
    AuthorityReads(net, given, digits, host);
    UrlRoundTrip(net, scheme, netloc, path, query);
    UnsplitIsText(scheme, netloc, path, query);
    var port := FromDecimal(digits);
    var shown := if port != 0 && port != DefaultPort(scheme) then ":" + Decimal(port) else "";
    assert host + "" == host && host + ":" + Decimal(port) == host + (":" + Decimal(port));
    UnsplitIsText(
      scheme, host + shown, NormalizePercent(PATH_SAFE, CleanPath(path)), NormalizePercent(QUERY_SAFE, query));
  }

  // Exactly the URLs that are left alone

  /** The parts of a URL, and the texts that its path and query encode. */
  datatype Form = Form(
    scheme: string, host: string, port: nat, path: string, query: string, decodedPath: string, decodedQuery: string)

  /**
   * A lower-case scheme and host, no delimiter and no dot at the host's end, no port or a shown one, a clean path that
   * encodes a text without escapes, and a query that encodes some text.
   */
  ghost predicate IsForm(url: string, f: Form) {
    && url == UrlText(f.scheme, f.host + (if f.port == 0 then "" else ":" + Decimal(f.port)), f.path, f.query)
    && (f.scheme == "http" || f.scheme == "https")
    && f.host != "" && AllAscii(f.host) && f.host[|f.host| - 1] != '.'
    && (forall c <- f.host :: HostChar(c) && !('A' <= c <= 'Z'))
    && f.port <= 65535 && !(f.scheme == "http" && f.port == 80) && !(f.scheme == "https" && f.port == 443)
    && CleanForm(f.path) && EscapeFree(f.decodedPath) && Encodes(InPath, f.decodedPath, f.path)
    && Encodes(InQuery, f.decodedQuery, f.query)
  }

  lemma FormHost(net: Net, f: Form, url: string)
    requires IsForm(url, f)
    ensures CanonicalHost(net, f.host) && f.host != ""
  {
    hide CleanForm, EscapeFree, Encodes, UrlText;
    forall i | 0 <= i < |f.host|
      ensures HostChar(f.host[i]) && LowerChar(f.host[i]) == f.host[i]
    {
      assert f.host[i] in f.host;
    }
    AsciiText(net, f.host);
  }

  /** The path and the query of a form: what normalization makes of them, and which characters they have. */
  lemma FormParts(f: Form, url: string)
    requires IsForm(url, f)
    ensures Rooted(f.path) && CleanPath(f.path) == f.path && NormalizePercent(PATH_SAFE, f.path) == f.path
    ensures NormalizePercent(QUERY_SAFE, f.query) == f.query
    ensures Avoids(f.path, {'?', '#'} + BREAKS) && Avoids(f.query, {'#'} + BREAKS)
    ensures AllAscii(f.path) && AllAscii(f.query)
  {
    hide CleanForm, EscapeFree, Encodes, UrlText, Unquote, Quote, CleanPath, Avoids, HostChar;
    EncodesIsQuote(InPath, f.decodedPath, f.path);
    EncodesIsQuote(InQuery, f.decodedQuery, f.query);
    FormIsRooted(f.path);
    CleanFormIs(f.path);
    SafeSets();
    QuoteRoundTrip(PATH_SAFE, f.decodedPath);
    QuoteRoundTrip(QUERY_SAFE, f.decodedQuery);
    QuoteAvoids(PATH_SAFE, f.decodedPath, {'?', '#'} + BREAKS);
    QuoteAvoids(QUERY_SAFE, f.decodedQuery, {'#'} + BREAKS);
    QuoteIsAscii(PATH_SAFE, f.decodedPath);
    QuoteIsAscii(QUERY_SAFE, f.decodedQuery);
  }

  lemma FormIsRooted(path: string)
    requires CleanForm(path)
    ensures Rooted(path)
  {
  }

  lemma FormNetloc(scheme: string, host: string, port: nat)
    requires scheme == "http" || scheme == "https"
    requires !(scheme == "http" && port == 80) && !(scheme == "https" && port == 443)
    ensures Netloc(scheme, host, port) == host + if port == 0 then "" else ":" + Decimal(port)
  {
    assert host + "" == host && host + ":" + Decimal(port) == host + (":" + Decimal(port));
  }

  /** A URL whose parts are read as themselves is left alone. */
  lemma PartsAreFixed(net: Net, scheme: string, netloc: string, path: string, query: string)
    requires Supported(scheme) && Avoids(netloc, NETLOC_END + BREAKS) && NetlocOk(net, netloc)
    requires HostName(net, netloc) != "" && !HasUser(netloc) && Port(netloc).Some?
    requires Netloc(scheme, Host(net, netloc), Port(netloc).value) == netloc
    requires Rooted(path) && Avoids(path, {'?', '#'} + BREAKS) && Avoids(query, {'#'} + BREAKS)
    requires CleanPath(path) == path && NormalizePercent(PATH_SAFE, path) == path
    requires NormalizePercent(QUERY_SAFE, query) == query
    ensures Canonicalize(net, UrlText(scheme, netloc, path, query)) == Url(UrlText(scheme, netloc, path, query))
  {
    hide SplitUrl, CleanPath, Unquote, Quote, HostName, HasUser, Host, NetlocOk, Port, UrlText, Unsplit, Avoids, Netloc;
    UrlRoundTrip(net, scheme, netloc, path, query);
    UnsplitIsText(scheme, netloc, path, query);
  }

  /** The authority of a form. */
  lemma FormAuthority(url: string, f: Form)
    requires IsForm(url, f)
    ensures Supported(f.scheme) && f.port <= 65535
    ensures url == UrlText(f.scheme, Netloc(f.scheme, f.host, f.port), f.path, f.query)
  {
    hide CleanForm, EscapeFree, Encodes, HostChar, UrlText, Decimal, Netloc;
    FormNetloc(f.scheme, f.host, f.port);
  }

  /** A form is left alone. */
  lemma FormIsFixed(net: Net, url: string, f: Form)
    requires IsForm(url, f)
    ensures Canonicalize(net, url) == Url(url)
  {
    FormHost(net, f, url);
    FormParts(f, url);
    FormAuthority(url, f);
    hide IsForm, CleanPath, Unquote, Quote, HostName, HasUser, Host, NetlocOk, Port, UrlText, Avoids, CanonicalHost;
    hide Canonicalize, Netloc, Supported;
    NetlocRoundTrip(net, f.scheme, f.host, f.port);
    var netloc := Netloc(f.scheme, f.host, f.port);
    AvoidsFewer(netloc, NETLOC_END + BREAKS + {'[', ']'}, NETLOC_END + BREAKS);
    PartsAreFixed(net, f.scheme, netloc, f.path, f.query);
  }

  lemma FormIsAscii(url: string, f: Form)
    requires IsForm(url, f)
    ensures AllAscii(url)
  {
    FormParts(f, url);
    DecimalRoundTrip(f.port);
    DigitsAvoid(Decimal(f.port));
    SchemeIsAscii(f.scheme);
    hide CleanForm, EscapeFree, Encodes, HostChar, Decimal, AllAscii, UrlText;
    var shown := if f.port == 0 then "" else ":" + Decimal(f.port);
    ShownIsAscii(f.host, f.port);
    TextIsAscii(f.scheme, f.host + shown, f.path, f.query);
  }

  lemma SchemeIsAscii(scheme: string)
    ensures scheme == "http" || scheme == "https" ==> AllAscii(scheme)
  {
  }

  lemma ShownIsAscii(host: string, port: nat)
    requires AllAscii(host) && AllAscii(Decimal(port))
    ensures AllAscii(host + if port == 0 then "" else ":" + Decimal(port))
  {
    hide Decimal;
  }

  lemma TextIsAscii(scheme: string, authority: string, path: string, query: string)
    requires AllAscii(scheme) && AllAscii(authority) && AllAscii(path) && AllAscii(query)
    ensures AllAscii(UrlText(scheme, authority, path, query))
  {
    hide Ascii;
    assert AllAscii("://") && AllAscii("?") by { Delimiters(); }
    var end := if query == "" then "" else "?" + query;
    assert AllAscii(end);
    assert AllAscii(scheme + "://");
    assert AllAscii(scheme + "://" + authority);
    assert AllAscii(scheme + "://" + authority + path);
  }

  lemma Delimiters()
    ensures AllAscii("://") && AllAscii("?")
  {
  }

  /** The pieces of an ASCII URL are ASCII. */
  lemma SplitIsAscii(net: Net, url: string)
    requires AllAscii(url) && SplitUrl(net, url).Some?
    ensures AllAscii(SplitUrl(net, url).value.netloc)
  {
    var s := WithoutBreaks(SkipControls(url));
    SkipIsAscii(url);
    BreaksAreAscii(SkipControls(url));
    assert AllAscii(SplitScheme(s).1);
  }

  lemma {:induction false} SkipIsAscii(s: string)
    requires AllAscii(s)
    ensures AllAscii(SkipControls(s))
  {
    if s != "" && s[0] <= ' ' { SkipIsAscii(s[1..]); }
  }

  lemma {:induction false} BreaksAreAscii(s: string)
    requires AllAscii(s)
    ensures AllAscii(WithoutBreaks(s))
  {
    if s != "" { BreaksAreAscii(s[1..]); }
  }

  /** A canonical host is one of a form. */
  lemma HostIsForm(net: Net, host: string)
    requires CanonicalHost(net, host) && AllAscii(host)
    ensures host[|host| - 1] != '.' && forall c <- host :: HostChar(c) && !('A' <= c <= 'Z')
  {
    forall c <- host
      ensures HostChar(c) && !('A' <= c <= 'Z')
    {
      var i :| 0 <= i < |host| && host[i] == c;
      assert host[..|host|] == host && Lower(net, host) == host;
    }
  }

  /** A URL that is left alone has no bracket in its authority, so no colon in its host. */
  lemma FixedHost(net: Net, url: string)
    requires AllAscii(url) && Canonicalize(net, url) == Url(url)
    ensures SplitUrl(net, url).Some?
    ensures var p := SplitUrl(net, url).value;
            && Port(p.netloc).Some? && AllAscii(p.netloc) && AllAscii(Host(net, p.netloc))
            && CanonicalHost(net, Host(net, p.netloc))
  {
    hide SplitUrl, CleanPath, Unquote, Quote, HostName, HasUser, Host, Unsplit, NetlocOk, Netloc, Port, HostText;
    hide Canonicalize, DecodedPath, Settled, PathText, ReadsAsPort;
    Accepts(net, url);
    SplitIsAscii(net, url);
    var p := SplitUrl(net, url).value;
    FirstPass(net, url);
    Idempotence(net, url);
    var host, port := Host(net, p.netloc), Port(p.netloc).value;
    assert HostStays(p.scheme, host, port);
    assert '[' !in p.netloc by { NetlocAvoids(net, p.scheme, host, port); }
    assert ':' !in host by { PlainHasNoColon(net, p.netloc); }
    HostIsAscii(net, url);
  }

  lemma HostIsAscii(net: Net, url: string)
    requires Canonicalize(net, url).Url? && AllAscii(SplitUrl(net, url).value.netloc)
    ensures AllAscii(Host(net, SplitUrl(net, url).value.netloc))
  {
    hide SplitUrl, CleanPath, Unquote, Quote, HostName, HasUser, Host, Unsplit, NetlocOk, Netloc, Port, HostText;
    hide Canonicalize, AllAscii;
    Accepts(net, url);
    SplitAvoids(net, url);
    NoHostWithoutNetloc(net);
    HostShape(net, SplitUrl(net, url).value.netloc);
  }

  lemma PlainHasNoColon(net: Net, netloc: string)
    requires AllAscii(netloc) && '[' !in netloc
    ensures ':' !in Host(net, netloc)
  {
    AfterLastAscii(netloc, '@');
    AfterLastSuffix(netloc, '@');
    var info := AfterLast(netloc, '@');
    assert '[' !in info;
    var h := HostInfo(netloc).0;
    assert ':' !in h && AllAscii(h);
    var name := HostName(net, netloc);
    hide Before, AfterLast, StripDots;
    assert AllAscii(name) && ':' !in name by { NameHasNoColon(net, h); }
    assert ':' !in LowerAscii(name);
    StripDotsPrefix(LowerAscii(name));
  }

  lemma NameHasNoColon(net: Net, h: string)
    requires AllAscii(h) && ':' !in h
    ensures var name := Lower(net, Before(h, {'%'})) + From(h, {'%'}); AllAscii(name) && ':' !in name
  {
    var front := Before(h, {'%'});
    assert AllAscii(front) && ':' !in front;
    assert ':' !in LowerAscii(front);
  }

  /** The path of a URL that is left alone. */
  lemma FixedPath(net: Net, url: string) returns (decoded: string)
    requires AllAscii(url) && Canonicalize(net, url) == Url(url)
    ensures SplitUrl(net, url).Some?
    ensures var path := PathText(SplitUrl(net, url).value);
            CleanForm(path) && EscapeFree(decoded) && Encodes(InPath, decoded, path)
  {
    hide SplitUrl, CleanPath, Unquote, Quote, HostName, HasUser, Host, Unsplit, NetlocOk, Port, HostText, Netloc;
    hide Canonicalize, DecodedPath, Settled, CleanForm, Encodes, EscapeFree, HostStays;
    Accepts(net, url);
    SplitIsAscii(net, url);
    FirstPass(net, url);
    Idempotence(net, url);
    var p := SplitUrl(net, url).value;
    SafeSets();
    CleanFormIs(PathText(p));
    QuotedIsSafe(PATH_SAFE, DecodedPath(p));
    QuoteIsAscii(PATH_SAFE, DecodedPath(p));
    decoded := SettledIsQuoted(PATH_SAFE, PathText(p));
    QuoteEncodes(InPath, decoded);
  }

  /** The port that is shown. */
  function Shown(scheme: string, port: nat): nat { if port == DefaultPort(scheme) then 0 else port }

  lemma ShownIs(scheme: string, host: string, port: nat)
    requires Supported(scheme)
    ensures var shown := Shown(scheme, port);
            && Netloc(scheme, host, port) == host + (if shown == 0 then "" else ":" + Decimal(shown))
            && !(scheme == "http" && shown == 80) && !(scheme == "https" && shown == 443) && shown <= port
  {
    hide Decimal;
    assert host + "" == host && host + ":" + Decimal(port) == host + (":" + Decimal(port));
  }

  lemma FixedText(net: Net, url: string)
    requires Canonicalize(net, url) == Url(url)
    ensures SplitUrl(net, url).Some?
    ensures var p := SplitUrl(net, url).value;
            && Supported(p.scheme) && Port(p.netloc).Some? && Port(p.netloc).value <= 65535
            && url == UrlText(p.scheme, CanonicalNetloc(net, p), PathText(p), NormalizePercent(QUERY_SAFE, p.query))
  {
    hide SplitUrl, HostName, HasUser, Host, Unsplit, NetlocOk, Port, UrlText, CanonicalNetloc, Canonicalize, PathText;
    hide NormalizePercent;
    Accepts(net, url);
    var p := SplitUrl(net, url).value;
    UnsplitIsText(p.scheme, CanonicalNetloc(net, p), PathText(p), NormalizePercent(QUERY_SAFE, p.query));
  }

  /** What is left alone is a form. */
  lemma FixedIsForm(net: Net, url: string) returns (f: Form)
    requires AllAscii(url) && Canonicalize(net, url) == Url(url)
    ensures IsForm(url, f)
  {
    FixedHost(net, url);
    FixedText(net, url);
    hide SplitUrl, CleanPath, Unquote, Quote, Host, Port, UrlText, Netloc, HostText, HostChar, Shown, Decimal;
    hide Canonicalize, DecodedPath, PathText, CleanForm, Encodes, EscapeFree, DefaultPort;
    var p := SplitUrl(net, url).value;
    var host, port := Host(net, p.netloc), Port(p.netloc).value;
    HostIsForm(net, host);
    var decoded := FixedPath(net, url);
    QuoteEncodes(InQuery, Unquote(p.query));
    ShownIs(p.scheme, host, port);
    f := Form(
      p.scheme, host, Shown(p.scheme, port), PathText(p), NormalizePercent(QUERY_SAFE, p.query), decoded,
      Unquote(p.query));
  }

  /** Exactly the forms: an ASCII URL is left alone if and only if it has one. */
  lemma FixedPoints(net: Net, url: string)
    ensures AllAscii(url) && Canonicalize(net, url) == Url(url) <==> exists f :: IsForm(url, f)
  {
    hide IsForm, Canonicalize;
    if AllAscii(url) && Canonicalize(net, url) == Url(url) { var f := FixedIsForm(net, url); }
    if f :| IsForm(url, f) {
      FormIsFixed(net, url, f);
      FormIsAscii(url, f);
    }
  }

  // Origins and scopes of such URLs

  /** The port that a form stands for. */
  function EffectivePort(f: Form): nat {
    if f.port != 0 then f.port else if f.scheme == "https" then 443 else 80
  }

  lemma OriginOfForm(net: Net, url: string, f: Form)
    requires IsForm(url, f)
    ensures Origin(net, url) == Some((f.scheme, f.host, EffectivePort(f)))
  {
    FormHost(net, f, url);
    FormParts(f, url);
    FormAuthority(url, f);
    FormPort(f, url);
    hide IsForm, CleanPath, Unquote, Quote, HostName, HasUser, Host, NetlocOk, Port, UrlText, Avoids, CanonicalHost;
    hide SplitUrl, Netloc;
    NetlocRoundTrip(net, f.scheme, f.host, f.port);
    var netloc := Netloc(f.scheme, f.host, f.port);
    AvoidsFewer(netloc, NETLOC_END + BREAKS + {'[', ']'}, NETLOC_END + BREAKS);
    UrlRoundTrip(net, f.scheme, netloc, f.path, f.query);
    UnsplitIsText(f.scheme, netloc, f.path, f.query);
  }

  lemma FormPort(f: Form, url: string)
    requires IsForm(url, f)
    ensures f.port != DefaultPort(f.scheme)
  {
    hide CleanForm, EscapeFree, Encodes, HostChar, UrlText, Decimal;
  }

  /** `site` is the last two labels of `host`, or all of it. */
  ghost predicate IsSite(host: string, site: string) {
    || (site == host && Dots(host) <= 1)
    || (Dots(site) == 1 && exists front :: host == front + "." + site)
  }

  function Dots(s: string): nat {
    if s == "" then 0 else Dots(s[..|s| - 1]) + if s[|s| - 1] == '.' then 1 else 0
  }

  /** `n` labels from the right: they have `n` - 1 dots between them, and a dot before them if there is more. */
  lemma {:induction false} LastLabelsAre(host: string, n: nat)
    requires n > 0
    ensures var site := LastLabels(host, n);
            if Dots(host) < n then site == host
            else Dots(site) == n - 1 && exists front :: host == front + "." + site
    decreases |host|
  {
    if host != "" {
      var m := |host| - 1;
      var c := host[m];
      assert host == host[..m] + [c];
      if c == '.' && n == 1 {
        assert host == host[..m] + "." + "";
      } else {
        var k := if c == '.' then n - 1 else n;
        LastLabelsAre(host[..m], k);
        var inner := LastLabels(host[..m], k);
        assert (inner + [c])[..|inner|] == inner;
        if Dots(host) >= n {
          var front :| host[..m] == front + "." + inner;
          assert host == front + "." + (inner + [c]);
        }
      }
    }
  }

  lemma SiteIs(host: string)
    ensures IsSite(host, RegistrableSite(host))
  {
    LastLabelsAre(host, 2);
  }

  /**
   * The scope of a crawl on canonical URLs: the same origin means the same scheme, host and port; the same site means
   * the same scheme and the same last two labels of the host; a list of domains admits exactly the hosts in it.
   */
  lemma ScopeExactly(net: Net, source: string, s: Form, url: string, f: Form, domains: set<string>)
    requires IsForm(source, s) && IsForm(url, f)
    ensures Allows(net, SameOrigin, source, url) <==>
            s.scheme == f.scheme && s.host == f.host && EffectivePort(s) == EffectivePort(f)
    ensures Allows(net, AllowedDomains(domains), source, url) <==> f.host in domains
    ensures Allows(net, SameSite, source, url) <==>
            s.scheme == f.scheme && exists site :: IsSite(s.host, site) && IsSite(f.host, site)
  {
    hide IsForm, Origin, RegistrableSite, IsSite;
    OriginOfForm(net, source, s);
    OriginOfForm(net, url, f);
    SiteIs(s.host);
    SiteIs(f.host);
    if site :| IsSite(s.host, site) && IsSite(f.host, site) {
      SiteIsUnique(s.host, site, RegistrableSite(s.host));
      SiteIsUnique(f.host, site, RegistrableSite(f.host));
    }
  }

  lemma {:induction false} DotsConcat(a: string, b: string)
    ensures Dots(a + b) == Dots(a) + Dots(b)
  {
    if b == "" {
      assert a + b == a;
    } else {
      assert (a + b)[..|a + b| - 1] == a + b[..|b| - 1];
      DotsConcat(a, b[..|b| - 1]);
    }
  }

  /** The longer end of a host ends with a dot and the shorter end. */
  lemma LongerEnd(front: string, site: string, other: string, end: string) returns (x: string)
    requires front + "." + site == other + "." + end && |site| < |end|
    ensures end == x + "." + site
  {
    var host := front + "." + site;
    var n := |end| - |site| - 1;
    x := end[..n];
    forall k | 0 <= k < |end|
      ensures end[k] == host[|host| - |end| + k]
    {
      assert host[|host| - |end| + k] == (other + "." + end)[|other| + 1 + k];
    }
    assert |end| == |x + "." + site|;
  }

  /** Two ends of a host with a dot before them and as many dots inside are the same. */
  lemma SameEnd(front: string, site: string, other: string, end: string)
    requires front + "." + site == other + "." + end && Dots(site) == Dots(end) && |site| <= |end|
    ensures site == end
  {
    hide Dots;
    if |site| < |end| {
      var x := LongerEnd(front, site, other, end);
      DotsConcat(x + ".", site);
      DotsConcat(x, ".");
      OneDot();
    } else {
      assert site == (front + "." + site)[|front| + 1..] && end == (other + "." + end)[|other| + 1..];
    }
  }

  lemma OneDot()
    ensures Dots(".") == 1
  {
    assert "."[..0] == "" && Dots("") == 0;
  }

  lemma SiteIsUnique(host: string, site: string, other: string)
    requires IsSite(host, site) && IsSite(host, other)
    ensures site == other
  {
    OneDot();
    if site == host && Dots(host) <= 1 {
      if other != host {
        var front :| host == front + "." + other;
        DotsConcat(front + ".", other);
        DotsConcat(front, ".");
      }
    } else {
      var front :| host == front + "." + site;
      DotsConcat(front + ".", site);
      DotsConcat(front, ".");
      var rest :| host == rest + "." + other;
      if |site| <= |other| { SameEnd(front, site, rest, other); } else { SameEnd(rest, other, front, site); }
    }
  }
}
