/** What percent-decoding reads, byte by byte: unquote of urllib.parse, decoding UTF-8 with replacement. */
module Decodings {
  import opened Percent
  import opened CanonicalForms

  const REPLACEMENT: char := 0xFFFD as char

  // UTF-8 with replacement

  /** The bytes of a character. */
  predicate Writes(c: char, u: seq<int>) { IsUtf8(c as int, u) }

  /** The bytes begin those of some character, and are not all of them. */
  ghost predicate Begins(b: seq<int>) { exists c: char, u: seq<int> :: Writes(c, u) && b < u }

  /** No character begins here, and the first `n` bytes are the longest beginning of one, or a single byte. */
  ghost predicate Malformed(b: seq<int>, n: nat)
    requires n <= |b|
  {
    && (forall k: nat, c: char :: k <= |b| ==> !Writes(c, b[..k]))
    && (n == 1 || Begins(b[..n]))
    && forall m: nat :: n < m <= |b| ==> !Begins(b[..m])
  }

  /** Character by character, with one replacement character for each malformed beginning. */
  ghost predicate Decodes(b: seq<int>, t: string)
    decreases |b|
  {
    if b == [] || t == "" then b == [] && t == ""
    else
      exists n: nat :: 1 <= n <= |b| && Decodes(b[n..], t[1..])
        && (Writes(t[0], b[..n]) || (t[0] == REPLACEMENT && Malformed(b, n)))
  }

  lemma WellFormedIsUtf8(b: seq<Byte>)
    requires WellFormed(b) > 0
    ensures Writes(DecodeChar(b), b[..WellFormed(b)])
  {
  }

  lemma Utf8IsWellFormed(b: seq<Byte>, k: nat, c: char)
    requires k <= |b| && Writes(c, b[..k])
    ensures WellFormed(b) == k > 0 && DecodeChar(b) == c
  {
    hide WellFormed, DecodeChar;
    Utf8IsUnique(c, b[..k]);
    CharRoundTrip(c, b[k..]);
    assert b == b[..k] + b[k..];
  }

  /** Which bytes begin a character, written out. */
  predicate Opens(b: seq<Byte>) {
    && 1 <= |b| <= 3 && 0xC2 <= b[0] <= 0xF4
    && (|b| >= 2 ==> b[0] >= 0xE0 && Second(b[0], b[1]))
    && (|b| == 3 ==> b[0] >= 0xF0 && Continues(b[2]))
  }

  lemma BeginsOpens(b: seq<Byte>)
    requires b != [] && Begins(b)
    ensures Opens(b)
  {
    var c: char, u: seq<int> :| Writes(c, u) && b < u;
    Utf8IsUnique(c, u);
    var full := EncodeChar(c);
    hide EncodeChar;
    CharRoundTrip(c, []);
    assert full + [] == full && b == full[..|b|];
  }

  lemma OpensBegins(b: seq<Byte>)
    requires Opens(b)
    ensures Begins(b)
  {
    var tail: seq<Byte> :=
      if b[0] < 0xE0 then [0x80]
      else if |b| >= 2 then if b[0] >= 0xF0 && |b| == 2 then [0x80, 0x80] else [0x80]
      else if b[0] >= 0xF0 then [0x90 - (if b[0] == 0xF4 then 0x10 else 0), 0x80, 0x80]
      else [if b[0] == 0xE0 then 0xA0 else 0x80, 0x80];
    var u := b + tail;
    assert WellFormed(u) == |u|;
    WellFormedIsUtf8(u);
    assert u[..|u|] == u && b < u;
  }

  lemma SkippedIsMalformed(b: seq<Byte>)
    requires b != [] && WellFormed(b) == 0
    ensures Malformed(b, Skipped(b))
  {
    hide Begins, Writes;
    forall k: nat, c: char | k <= |b|
      ensures !Writes(c, b[..k])
    {
      if Writes(c, b[..k]) { Utf8IsWellFormed(b, k, c); }
    }
    var n := Skipped(b);
    if n > 1 { OpensBegins(b[..n]); }
    forall m: nat | n < m <= |b|
      ensures !Begins(b[..m])
    {
      if Begins(b[..m]) { BeginsOpens(b[..m]); }
    }
  }

  lemma {:induction false} DecodeDecodes(b: seq<Byte>)
    ensures Decodes(b, Decode(b))
    decreases |b|
  {
    hide WellFormed, DecodeChar, Skipped, Malformed, Writes;
    if b != [] {
      var n := if WellFormed(b) > 0 then WellFormed(b) else Skipped(b);
      if WellFormed(b) > 0 { WellFormedIsUtf8(b); } else { SkippedIsMalformed(b); }
      DecodeDecodes(b[n..]);
      assert Decode(b)[1..] == Decode(b[n..]);
    }
  }

  lemma MalformedIsUnique(b: seq<int>, m: nat, n: nat)
    requires m <= |b| && n <= |b| && m > 0 && n > 0 && Malformed(b, m) && Malformed(b, n)
    ensures m == n
  {
  }

  /** Decoding is the only reading of the bytes. */
  lemma {:induction false} DecodeExactly(b: seq<Byte>, t: string)
    ensures Decodes(b, t) <==> t == Decode(b)
    decreases |b|
  {
    hide WellFormed, DecodeChar, Skipped, Malformed, Writes;
    DecodeDecodes(b);
    if Decodes(b, t) && b != [] {
      var n: nat :| 1 <= n <= |b| && Decodes(b[n..], t[1..])
                    && (Writes(t[0], b[..n]) || (t[0] == REPLACEMENT && Malformed(b, n)));
      DecodeExactly(b[n..], t[1..]);
      if Writes(t[0], b[..n]) {
        Utf8IsWellFormed(b, n, t[0]);
      } else {
        NothingBegins(b, n);
        SkippedIsMalformed(b);
        MalformedIsUnique(b, n, Skipped(b));
      }
      assert t == [t[0]] + t[1..];
    }
  }

  lemma NothingBegins(b: seq<Byte>, n: nat)
    requires n <= |b| && Malformed(b, n)
    ensures WellFormed(b) == 0
  {
    if WellFormed(b) > 0 { WellFormedIsUtf8(b); }
  }

  // Escapes

  /** The value of a hexadecimal digit, in either case. */
  predicate IsHexOf(c: char, n: int) {
    if n < 10 then c as int == '0' as int + n
    else n < 16 && (c as int == 'A' as int + n - 10 || c as int == 'a' as int + n - 10)
  }

  predicate IsByteEscape(s: string, n: int) {
    |s| >= 3 && s[0] == '%' && 0 <= n < 256 && IsHexOf(s[1], n / 16) && IsHexOf(s[2], n % 16)
  }

  /** `b` are the bytes of the text with every escape, from left to right, replaced by its byte. */
  ghost predicate Unescapes(s: string, b: seq<int>) {
    if s == "" || b == [] then s == "" && b == []
    else if exists n :: IsByteEscape(s, n) then IsByteEscape(s, b[0]) && Unescapes(s[3..], b[1..])
    else b[0] == s[0] as int && Unescapes(s[1..], b[1..])
  }

  lemma EscapeHere(s: string)
    ensures (exists n :: IsByteEscape(s, n)) <==> s != "" && s[0] == '%' && HexPair(s[1..])
    ensures s != "" && s[0] == '%' && HexPair(s[1..]) ==>
              forall n :: IsByteEscape(s, n) <==> n == HexValue(s[1]) * 16 + HexValue(s[2])
  {
    if s != "" && s[0] == '%' && HexPair(s[1..]) {
      var h, l := HexValue(s[1]), HexValue(s[2]);
      HexIs(s[1]);
      HexIs(s[2]);
      assert (h * 16 + l) / 16 == h && (h * 16 + l) % 16 == l;
      assert IsByteEscape(s, h * 16 + l);
      forall n | IsByteEscape(s, n)
        ensures n == h * 16 + l
      {
        assert n == n / 16 * 16 + n % 16;
      }
    }
  }

  lemma HexIs(c: char)
    ensures IsHex(c) ==> forall n :: IsHexOf(c, n) && n >= 0 <==> n == HexValue(c)
  {
  }

  lemma {:induction false} BytesUnescape(s: string, b: seq<int>)
    requires AllAscii(s)
    ensures Unescapes(s, b) <==> b == UnquoteBytes(s)
  {
    hide IsByteEscape, HexValue, HexPair;
    if s != "" {
      EscapeHere(s);
      var n := if s[0] == '%' && HexPair(s[1..]) then 3 else 1;
      assert n <= |s| by { if n == 3 { PairIsLong(s[1..]); } }
      BytesUnescape(s[n..], if b == [] then [] else b[1..]);
      if b != [] { assert b == [b[0]] + b[1..]; }
    }
  }

  lemma PairIsLong(s: string)
    requires HexPair(s)
    ensures |s| >= 2
  {
  }

  // Whole texts

  /** The first `n` characters are all the ASCII characters at the beginning. */
  ghost predicate IsAsciiRun(s: string, n: nat) { n <= |s| && AllAscii(s[..n]) && (n == |s| || !Ascii(s[n])) }

  /** Each run of ASCII characters is decoded from its bytes, and every other character stays. */
  ghost predicate Unquotes(s: string, t: string)
    decreases |s|
  {
    if s == "" then t == ""
    else if !Ascii(s[0]) then t != "" && t[0] == s[0] && Unquotes(s[1..], t[1..])
    else
      exists n: nat, k: nat :: 0 < n <= |s| && k <= |t| && Reads(s, n, t[..k]) && Unquotes(s[n..], t[k..])
  }

  /** The first `n` characters are such a run, and read as this text. */
  ghost predicate Reads(s: string, n: nat, t: string) {
    IsAsciiRun(s, n) && exists b: seq<int> :: Unescapes(s[..n], b) && Decodes(b, t)
  }

  lemma RunReads(s: string, n: nat, t: string)
    requires s != "" && Ascii(s[0])
    ensures Reads(s, n, t) <==> n == AsciiRun(s) && t == Decode(UnquoteBytes(s[..AsciiRun(s)]))
  {
    hide Unescapes, Decodes, IsAsciiRun, AllAscii, UnquoteBytes;
    var run := AsciiRun(s);
    var bytes: seq<int> := UnquoteBytes(s[..run]);
    RunIsAscii(s);
    BytesUnescape(s[..run], bytes);
    DecodeExactly(UnquoteBytes(s[..run]), t);
    if Reads(s, n, t) {
      AsciiRunIs(s, n);
      var b: seq<int> :| Unescapes(s[..n], b) && Decodes(b, t);
      BytesUnescape(s[..n], b);
    }
  }

  lemma {:induction false} AsciiRunIs(s: string, n: nat)
    requires IsAsciiRun(s, n)
    ensures n == AsciiRun(s)
  {
    if n > 0 {
      assert s[..n][0] == s[0];
      assert s[1..][..n - 1] == s[..n][1..];
      AsciiRunIs(s[1..], n - 1);
    }
  }

  lemma {:induction false} RunIsAscii(s: string)
    ensures IsAsciiRun(s, AsciiRun(s))
  {
    if s != "" && Ascii(s[0]) { RunIsAscii(s[1..]); }
  }

  lemma {:induction false} RunsUnquote(s: string, t: string)
    ensures Unquotes(s, t) <==> t == UnquoteRuns(s)
    decreases |s|
  {
    hide Reads, Decode, UnquoteBytes, AsciiRun;
    if s != "" && !Ascii(s[0]) {
      if t != "" {
        RunsUnquote(s[1..], t[1..]);
        assert t == [t[0]] + t[1..];
      }
    } else if s != "" {
      var n, head := AsciiRun(s), Decode(UnquoteBytes(s[..AsciiRun(s)]));
      RunReads(s, n, head);
      assert n > 0 by { RunIsSome(s); }
      if t == UnquoteRuns(s) {
        assert t[..|head|] == head && t[|head|..] == UnquoteRuns(s[n..]);
        RunsUnquote(s[n..], t[|head|..]);
      }
      forall m: nat, k: nat | 0 < m <= |s| && k <= |t| && Reads(s, m, t[..k]) && Unquotes(s[m..], t[k..])
        ensures t == UnquoteRuns(s)
      {
        RunReads(s, m, t[..k]);
        RunsUnquote(s[m..], t[k..]);
        assert t == t[..k] + t[k..];
      }
    }
  }

  lemma RunIsSome(s: string)
    requires s != "" && Ascii(s[0])
    ensures AsciiRun(s) > 0
  {
  }

  lemma {:induction false} PlainRuns(s: string)
    requires '%' !in s
    ensures UnquoteRuns(s) == s
  {
    if s != "" {
      hide Decode;
      if Ascii(s[0]) {
        var n := AsciiRun(s);
        PlainBytes(s[..n]);
        PlainRuns(s[n..]);
        assert s == s[..n] + s[n..];
      } else {
        PlainRuns(s[1..]);
      }
    }
  }

  lemma {:induction false} PlainBytes(s: string)
    requires '%' !in s && AllAscii(s)
    ensures Decode(UnquoteBytes(s)) == s
  {
    if s != "" {
      PlainBytes(s[1..]);
      assert UnquoteBytes(s)[1..] == UnquoteBytes(s[1..]);
    }
  }

  /** For every text: percent-decoding gives this reading of it and no other. */
  lemma UnquoteExactly(s: string, t: string)
    ensures Unquotes(s, t) <==> t == Unquote(s)
  {
    RunsUnquote(s, t);
    if '%' !in s { PlainRuns(s); }
  }
}
