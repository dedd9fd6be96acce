/** What of a link does not reach its canonical URL: controls, line breaks, fragments, the case of the scheme. */
module LinkNoise {
  import opened Wrappers
  import opened Paths
  import opened Urls

  predicate IsBreak(c: char) { c == '\t' || c == '\n' || c == '\r' }

  lemma {:induction false} ControlsGo(a: string, c: char, b: string)
    requires IsBreak(c)
    ensures WithoutBreaks(SkipControls(a + [c] + b)) == WithoutBreaks(SkipControls(a + b))
  {
    if a == "" {
      assert a + [c] + b == [c] + b && a + b == b && ([c] + b)[1..] == b;
    } else if a[0] <= ' ' {
      ControlsGo(a[1..], c, b);
      assert (a + [c] + b)[1..] == a[1..] + [c] + b && (a + b)[1..] == a[1..] + b;
    } else {
      BreakGoes(a, c, b);
    }
  }

  lemma {:induction false} BreakGoes(a: string, c: char, b: string)
    requires IsBreak(c)
    ensures WithoutBreaks(a + [c] + b) == WithoutBreaks(a + b)
  {
    if a == "" {
      assert a + [c] + b == [c] + b && a + b == b && ([c] + b)[1..] == b;
    } else {
      BreakGoes(a[1..], c, b);
      assert (a + [c] + b)[1..] == a[1..] + [c] + b && (a + b)[1..] == a[1..] + b;
    }
  }

  /** Spaces and control characters in front of a link, and tabs and line breaks anywhere in it, change nothing. */
  lemma BlanksVanish(net: Net, c: char, a: string, b: string)
    ensures c <= ' ' ==> Canonicalize(net, [c] + b) == Canonicalize(net, b)
    ensures IsBreak(c) ==> Canonicalize(net, a + [c] + b) == Canonicalize(net, a + b)
  {
    hide SplitScheme, NetlocOk, Before, CleanPath, HostName, HasUser, Port;
    assert ([c] + b)[1..] == b;
    if IsBreak(c) { ControlsGo(a, c, b); }
  }

  // Fragments

  lemma {:induction false} BreaksConcat(a: string, b: string)
    ensures WithoutBreaks(a + b) == WithoutBreaks(a) + WithoutBreaks(b)
  {
    if a == "" {
      assert a + b == b;
    } else {
      BreaksConcat(a[1..], b);
      assert (a + b)[1..] == a[1..] + b;
    }
  }

  /** What is left of the text in front of a number sign, and of the number sign with what follows. */
  lemma {:induction false} Trimmed(a: string, f: string) returns (x: string, y: string)
    ensures WithoutBreaks(SkipControls(a)) == x && WithoutBreaks(SkipControls(a + "#" + f)) == x + "#" + y
  {
    if a == "" {
      x, y := "", WithoutBreaks(f);
      assert a + "#" + f == ['#'] + f && (['#'] + f)[1..] == f;
    } else if a[0] <= ' ' {
      x, y := Trimmed(a[1..], f);
      assert (a + "#" + f)[1..] == a[1..] + "#" + f;
    } else {
      x, y := WithoutBreaks(a), WithoutBreaks(f);
      BreaksConcat(a, "#" + f);
      assert a + "#" + f == a + ("#" + f) && ("#" + f)[1..] == f;
      assert x + "#" + y == x + ("#" + y) && "#" + y == ['#'] + y;
    }
  }

  /** A text is read up to the first of the stops, wherever it ends after that. */
  lemma BeforeSharp(s: string, y: string, stop: set<char>)
    requires '#' in stop
    ensures Before(s + "#" + y, stop) == Before(s, stop)
    ensures From(s + "#" + y, stop) == From(s, stop) + "#" + y
  {
    var head, tail := Before(s, stop), From(s, stop);
    assert s == head + tail;
    BeforeConcat(head, tail + "#" + y, stop);
    assert head + (tail + "#" + y) == s + "#" + y;
  }

  lemma SchemeBeforeSharp(x: string, y: string)
    ensures SplitScheme(x + "#" + y) == (SplitScheme(x).0, SplitScheme(x).1 + "#" + y)
  {
    var head := Before(x, {':'});
    if |head| < |x| {
      BeforeConcat(head, x[|head|..] + "#" + y, {':'});
      assert head + (x[|head|..] + "#" + y) == x + "#" + y;
      assert (x + "#" + y)[|head| + 1..] == x[|head| + 1..] + "#" + y;
    } else {
      var longer := Before(x + "#" + y, {':'});
      assert |longer| > |x|;
      assert longer[|x|] == (x + "#" + y)[|x|] == '#';
      assert !IsScheme(longer);
    }
  }

  lemma NoSlashes(rest: string, y: string)
    requires !("//" <= rest)
    ensures !("//" <= rest + "#" + y)
  {
    var longer := rest + "#" + y;
    assert |rest| < 2 ==> longer[|rest|] == '#';
    assert |rest| >= 2 ==> longer[0] == rest[0] && longer[1] == rest[1] && rest[..2] == [rest[0], rest[1]];
  }

  /** A fragment, whatever it holds, changes nothing. */
  lemma FragmentVanishes(net: Net, a: string, f: string)
    ensures Canonicalize(net, a + "#" + f) == Canonicalize(net, a)
  {
    hide CleanPath, HostName, HasUser, Port, NetlocOk, SkipControls, SplitScheme, WithoutBreaks, Canonicalize;
    var x, y := Trimmed(a, f);
    SchemeBeforeSharp(x, y);
    var (scheme, rest) := SplitScheme(x);
    var longer := rest + "#" + y;
    if "//" <= rest {
      BeforeSharp(rest[2..], y, NETLOC_END);
      assert longer[2..] == rest[2..] + "#" + y && "//" <= longer;
      BeforeSharp(From(rest[2..], NETLOC_END), y, {'#'});
    } else {
      NoSlashes(rest, y);
      BeforeSharp(rest, y, {'#'});
    }
    SameSplit(net, a + "#" + f, a);
  }

  lemma SameSplit(net: Net, url: string, other: string)
    requires SplitUrl(net, url) == SplitUrl(net, other)
    ensures Canonicalize(net, url) == Canonicalize(net, other)
  {
    hide SplitUrl, CleanPath, HostName, HasUser, Port;
  }

  // The scheme and the user

  predicate SameLetters(s: string, t: string) {
    |s| == |t| && forall i :: 0 <= i < |s| ==> LowerChar(s[i]) == LowerChar(t[i])
  }

  /** The scheme is read in any case. */
  lemma SchemeCase(net: Net, s: string, t: string, rest: string)
    requires IsScheme(s) && SameLetters(s, t)
    ensures Canonicalize(net, s + ":" + rest) == Canonicalize(net, t + ":" + rest)
  {
    hide CleanPath, HostName, HasUser, Port, NetlocOk, Canonicalize;
    assert IsScheme(t);
    SchemeIsRead(s, rest);
    SchemeIsRead(t, rest);
    assert LowerAscii(s) == LowerAscii(t);
    SameSplit(net, s + ":" + rest, t + ":" + rest);
  }

  lemma SchemeIsRead(s: string, rest: string)
    requires IsScheme(s)
    ensures var text := WithoutBreaks(SkipControls(s + ":" + rest));
            SplitScheme(text) == (LowerAscii(s), WithoutBreaks(rest))
  {
    hide WithoutBreaks;
    var text := s + ":" + WithoutBreaks(rest);
    BreaksConcat(s, ":" + rest);
    BreaksConcat(":", rest);
    assert s + ":" + rest == s + (":" + rest);
    assert WithoutBreaks(s) == s && WithoutBreaks(":") == ":" by {
      NothingToDrop(s);
      NothingToDrop(":");
    }
    assert text == s + (":" + WithoutBreaks(rest));
    BeforeConcat(s, ":" + WithoutBreaks(rest), {':'});
    assert text[|s| + 1..] == WithoutBreaks(rest);
  }

  /** An authority names a user or a password exactly when what stands before its last at sign is not "" or ":". */
  lemma UserIsNamed(info: string, host: string)
    requires '@' !in host
    ensures !HasUser(host) && (HasUser(info + "@" + host) <==> info != "" && info != ":")
  {
    NoneAfterLast(host, '@');
    LastAt(info, host);
    var netloc := info + "@" + host;
    assert netloc[..|info| + 1] == info + "@";
    if info + "@" == "@" { assert |info| == 0; }
    if info + "@" == ":@" { assert info == (info + "@")[..1] == ":"; }
  }

  lemma {:induction false} LastAt(info: string, host: string)
    requires '@' !in host
    ensures AfterLast(info + "@" + host, '@') == host
    decreases |info|
  {
    var netloc, head := info + "@" + host, Before(info, {'@'});
    BeforeConcat(head, info[|head|..] + "@" + host, {'@'});
    assert head + (info[|head|..] + "@" + host) == netloc;
    var rest := From(netloc, {'@'});
    if |head| == |info| {
      assert rest == "@" + host && rest[1..] == host;
      NoneAfterLast(host, '@');
    } else {
      assert rest[1..] == info[|head| + 1..] + "@" + host;
      LastAt(info[|head| + 1..], host);
    }
  }
}
