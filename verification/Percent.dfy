/** Percent-encoding over UTF-8 (RFC 3986, section 2.1), as the URL policy uses it. */
module Percent {

  type Byte = b: int | 0 <= b < 256

  // UTF-8

  function EncodeChar(c: char): seq<Byte> {
    var n := c as int;
    if n < 0x80 then [n]
    else if n < 0x800 then [0xC0 + n / 64, 0x80 + n % 64]
    else if n < 0x10000 then [0xE0 + n / 4096, 0x80 + n / 64 % 64, 0x80 + n % 64]
    else [0xF0 + n / 262144, 0x80 + n / 4096 % 64, 0x80 + n / 64 % 64, 0x80 + n % 64]
  }

  function Encode(s: string): seq<Byte> {
    if s == "" then [] else EncodeChar(s[0]) + Encode(s[1..])
  }

  predicate Continues(b: Byte) { 0x80 <= b < 0xC0 }

  /** The second byte that a leading byte of a three- or four-byte sequence admits. */
  predicate Second(lead: Byte, b: Byte) {
    && Continues(b)
    && (lead == 0xE0 ==> b >= 0xA0) && (lead == 0xED ==> b < 0xA0)
    && (lead == 0xF0 ==> b >= 0x90) && (lead == 0xF4 ==> b < 0x90)
  }

  /** The length of the well-formed sequence at the beginning, 0 when there is none. */
  function WellFormed(b: seq<Byte>): (n: nat)
    ensures n <= |b| && n <= 4
  {
    if b == [] then 0
    else if b[0] < 0x80 then 1
    else if 0xC2 <= b[0] < 0xE0 then if |b| >= 2 && Continues(b[1]) then 2 else 0
    else if 0xE0 <= b[0] < 0xF0 then
      if |b| >= 3 && Second(b[0], b[1]) && Continues(b[2]) then 3 else 0
    else if 0xF0 <= b[0] <= 0xF4 then
      if |b| >= 4 && Second(b[0], b[1]) && Continues(b[2]) && Continues(b[3]) then 4 else 0
    else 0
  }

  /** How many bytes one replacement character stands for: the longest beginning of a well-formed sequence. */
  function Skipped(b: seq<Byte>): (n: nat)
    requires b != []
    ensures 1 <= n <= |b|
  {
    if 0xE0 <= b[0] <= 0xF4 && |b| >= 2 && Second(b[0], b[1]) then
      if b[0] >= 0xF0 && |b| >= 3 && Continues(b[2]) then 3 else 2
    else 1
  }

  function Bits(b: Byte): int { b as int % 64 }

  function DecodeChar(b: seq<Byte>): char
    requires WellFormed(b) > 0
  {
    var n := WellFormed(b);
    var lead: int := b[0];
    if n == 1 then lead as char
    else if n == 2 then ((lead - 0xC0) * 64 + Bits(b[1])) as char
    else if n == 3 then ((lead - 0xE0) * 4096 + Bits(b[1]) * 64 + Bits(b[2])) as char
    else ((lead - 0xF0) * 262144 + Bits(b[1]) * 4096 + Bits(b[2]) * 64 + Bits(b[3])) as char
  }

  /** Decoding with replacement of malformed sequences. */
  function Decode(b: seq<Byte>): string {
    if b == [] then ""
    else if WellFormed(b) > 0 then [DecodeChar(b)] + Decode(b[WellFormed(b)..])
    else [0xFFFD as char] + Decode(b[Skipped(b)..])
  }

  /** The base-64 digits of a code point. */
  lemma Base64Digits(n: nat)
    ensures n == n / 64 * 64 + n % 64
    ensures n / 64 == n / 4096 * 64 + n / 64 % 64
    ensures n / 4096 == n / 262144 * 64 + n / 4096 % 64
  {
  }

  lemma TwoBytes(n: nat, rest: seq<Byte>)
    requires 0x80 <= n < 0x800
    ensures WellFormed([0xC0 + n / 64, 0x80 + n % 64] + rest) == 2
    ensures DecodeChar([0xC0 + n / 64, 0x80 + n % 64] + rest) as int == n
  {
    Base64Digits(n);
  }

  lemma ThreeBytes(n: nat, rest: seq<Byte>)
    requires 0x800 <= n < 0xD800 || 0xE000 <= n < 0x10000
    ensures var b := [0xE0 + n / 4096, 0x80 + n / 64 % 64, 0x80 + n % 64] + rest;
            WellFormed(b) == 3 && DecodeChar(b) as int == n
  {
    var b: seq<Byte> := [0xE0 + n / 4096, 0x80 + n / 64 % 64, 0x80 + n % 64] + rest;
    Base64Digits(n);
    assert Second(b[0], b[1]) && Continues(b[2]);
  }

  /** The digits of a code point above 0xFFFF, and the limits of the first two. */
  lemma FourDigits(n: nat)
    requires 0x10000 <= n < 0x110000
    ensures var (a, b, c, d) := (n / 262144, n / 4096 % 64, n / 64 % 64, n % 64);
            n == a * 262144 + b * 4096 + c * 64 + d && a <= 4 && (a == 0 ==> b >= 16) && (a == 4 ==> b < 16)
  {
    Base64Digits(n);
  }

  lemma FourBytesDecode(b: seq<Byte>, a: nat, x: nat, y: nat, z: nat)
    requires |b| >= 4 && b[0] == 0xF0 + a && b[1] == 0x80 + x && b[2] == 0x80 + y && b[3] == 0x80 + z
    requires a <= 4 && x < 64 && y < 64 && z < 64 && (a == 0 ==> x >= 16) && (a == 4 ==> x < 16)
    ensures WellFormed(b) == 4 && DecodeChar(b) as int == a * 262144 + x * 4096 + y * 64 + z
  {
    assert Second(b[0], b[1]) && Continues(b[2]) && Continues(b[3]);
  }

  lemma FourBytes(n: nat, rest: seq<Byte>)
    requires 0x10000 <= n < 0x110000
    ensures var b := [0xF0 + n / 262144, 0x80 + n / 4096 % 64, 0x80 + n / 64 % 64, 0x80 + n % 64] + rest;
            WellFormed(b) == 4 && DecodeChar(b) as int == n
  {
    hide WellFormed, DecodeChar;
    var b: seq<Byte> := [0xF0 + n / 262144, 0x80 + n / 4096 % 64, 0x80 + n / 64 % 64, 0x80 + n % 64] + rest;
    FourDigits(n);
    FourBytesDecode(b, n / 262144, n / 4096 % 64, n / 64 % 64, n % 64);
  }

  lemma CharRoundTrip(c: char, rest: seq<Byte>)
    ensures var b := EncodeChar(c) + rest;
            WellFormed(b) == |EncodeChar(c)| && DecodeChar(b) == c
  {
    hide WellFormed, DecodeChar;
    var n := c as int;
    if n < 0x80 {
      OneByte(n, rest);
    } else if n < 0x800 {
      TwoBytes(n, rest);
    } else if n < 0x10000 {
      ThreeBytes(n, rest);
    } else {
      FourBytes(n, rest);
    }
  }

  lemma OneByte(n: nat, rest: seq<Byte>)
    requires n < 0x80
    ensures WellFormed([n] + rest) == 1 && DecodeChar([n] + rest) as int == n
  {
  }

  lemma {:induction false} Utf8RoundTrip(s: string)
    ensures Decode(Encode(s)) == s
  {
    if s != "" {
      CharRoundTrip(s[0], Encode(s[1..]));
      Utf8RoundTrip(s[1..]);
      assert Encode(s)[|EncodeChar(s[0])|..] == Encode(s[1..]);
      assert s == [s[0]] + s[1..];
    }
  }

  // Quoting and unquoting

  predicate Ascii(c: char) { c as int < 0x80 }

  predicate AllAscii(s: string) { forall i :: 0 <= i < |s| ==> Ascii(s[i]) }

  predicate IsHex(c: char) { '0' <= c <= '9' || 'A' <= c <= 'F' || 'a' <= c <= 'f' }

  function HexValue(c: char): (n: nat)
    requires IsHex(c)
    ensures n < 16
  {
    if c <= '9' then c as int - '0' as int
    else if c <= 'F' then c as int - 'A' as int + 10
    else c as int - 'a' as int + 10
  }

  function HexDigit(n: nat): (c: char)
    requires n < 16
    ensures IsHex(c) && HexValue(c) == n
  {
    if n < 10 then ('0' as int + n) as char else ('A' as int + n - 10) as char
  }

  /** Two hexadecimal digits begin here. */
  predicate HexPair(s: string) { |s| >= 2 && IsHex(s[0]) && IsHex(s[1]) }

  function Escape(bytes: seq<Byte>): string {
    if bytes == [] then ""
    else ['%', HexDigit(bytes[0] / 16), HexDigit(bytes[0] % 16)] + Escape(bytes[1..])
  }

  function QuoteChar(safe: set<char>, c: char): (q: string)
    ensures q != "" && (q == [c] || q[0] == '%')
  {
    if c in safe && Ascii(c) then [c] else Escape(EncodeChar(c))
  }

  function Quote(safe: set<char>, s: string): string {
    if s == "" then "" else QuoteChar(safe, s[0]) + Quote(safe, s[1..])
  }

  /** The bytes of an ASCII text with its escapes replaced. */
  function UnquoteBytes(s: string): seq<Byte>
    requires AllAscii(s)
  {
    if s == "" then []
    else if s[0] == '%' && HexPair(s[1..]) then [HexValue(s[1]) * 16 + HexValue(s[2])] + UnquoteBytes(s[3..])
    else [s[0] as int] + UnquoteBytes(s[1..])
  }

  /** The length of the ASCII run at the beginning. */
  function AsciiRun(s: string): (n: nat)
    ensures n <= |s| && AllAscii(s[..n])
  {
    if s != "" && Ascii(s[0]) then
      var n := AsciiRun(s[1..]);
      assert forall i :: 0 < i < n + 1 ==> s[i] == s[1..][..n][i - 1];
      n + 1
    else 0
  }

  /** Each ASCII run is decoded on its own. */
  function UnquoteRuns(s: string): string
    decreases |s|
  {
    if s == "" then ""
    else if !Ascii(s[0]) then [s[0]] + UnquoteRuns(s[1..])
    else
      var n := AsciiRun(s);
      Decode(UnquoteBytes(s[..n])) + UnquoteRuns(s[n..])
  }

  function Unquote(s: string): string { if '%' !in s then s else UnquoteRuns(s) }

  /** _normalize_percent. */
  function NormalizePercent(safe: set<char>, s: string): string { Quote(safe, Unquote(s)) }

  // Unquoting undoes quoting

  /** No escape begins in `s`. */
  ghost predicate EscapeFree(s: string) {
    forall i :: 0 <= i < |s| && s[i] == '%' ==> !HexPair(s[i + 1..])
  }

  lemma {:induction false} EscapeIsAscii(bytes: seq<Byte>)
    ensures AllAscii(Escape(bytes))
  {
    if bytes != [] { EscapeIsAscii(bytes[1..]); }
  }

  lemma {:induction false} QuoteIsAscii(safe: set<char>, s: string)
    ensures AllAscii(Quote(safe, s))
  {
    if s != "" {
      EscapeIsAscii(EncodeChar(s[0]));
      QuoteIsAscii(safe, s[1..]);
    }
  }

  lemma EscapeUnfolds(bytes: seq<Byte>, rest: string)
    requires bytes != []
    ensures Escape(bytes) + rest ==
            ['%', HexDigit(bytes[0] / 16), HexDigit(bytes[0] % 16)] + (Escape(bytes[1..]) + rest)
  {
  }

  lemma SplitHead(a: seq<Byte>, b: seq<Byte>)
    requires a != []
    ensures a + b == [a[0]] + (a[1..] + b)
  {
  }

  lemma UnquoteTriple(b: Byte, tail: string)
    requires AllAscii(tail)
    ensures var s := ['%', HexDigit(b / 16), HexDigit(b % 16)] + tail;
            AllAscii(s) && UnquoteBytes(s) == [b] + UnquoteBytes(tail)
  {
    var s := ['%', HexDigit(b / 16), HexDigit(b % 16)] + tail;
    assert s[3..] == tail && s[1..][0] == s[1] && s[1..][1] == s[2];
  }

  lemma {:induction false} UnquoteEscape(bytes: seq<Byte>, rest: string)
    requires AllAscii(Escape(bytes)) && AllAscii(rest)
    ensures AllAscii(Escape(bytes) + rest) && UnquoteBytes(Escape(bytes) + rest) == bytes + UnquoteBytes(rest)
  {
    if bytes == [] {
      assert Escape(bytes) + rest == rest && bytes + UnquoteBytes(rest) == UnquoteBytes(rest);
    } else {
      hide UnquoteBytes, HexDigit, AllAscii, Escape;
      EscapeIsAscii(bytes[1..]);
      UnquoteEscape(bytes[1..], rest);
      UnquoteTriple(bytes[0], Escape(bytes[1..]) + rest);
      EscapeUnfolds(bytes, rest);
      SplitHead(bytes, UnquoteBytes(rest));
    }
  }

  /** A quoted text begins with two hexadecimal digits only if the text does. */
  lemma QuoteHexPair(safe: set<char>, s: string)
    requires HexPair(Quote(safe, s))
    ensures HexPair(s)
  {
    QuoteHead(safe, s);
    QuoteHead(safe, s[1..]);
  }

  /** A quoted text that does not begin with an escape begins with the text's own first character. */
  lemma QuoteHead(safe: set<char>, s: string)
    requires Quote(safe, s) != "" && Quote(safe, s)[0] != '%'
    ensures s != "" && Quote(safe, s)[0] == s[0] && Quote(safe, s)[1..] == Quote(safe, s[1..])
  {
    assert Quote(safe, s)[0] == QuoteChar(safe, s[0])[0];
  }

  lemma EscapeFreeTail(s: string)
    requires s != "" && EscapeFree(s)
    ensures EscapeFree(s[1..])
  {
    forall i | 0 <= i < |s[1..]| && s[1..][i] == '%'
      ensures !HexPair(s[1..][i + 1..])
    {
      assert s[1..][i + 1..] == s[i + 2..];
    }
  }

  /** Escapes come from quoting only, when the percent sign is quoted or begins no escape. */
  lemma {:induction false} UnquoteBytesOfQuote(safe: set<char>, s: string)
    requires '%' !in safe || EscapeFree(s)
    ensures AllAscii(Quote(safe, s)) && UnquoteBytes(Quote(safe, s)) == Encode(s)
  {
    QuoteIsAscii(safe, s);
    if s != "" {
      var c, rest := s[0], Quote(safe, s[1..]);
      if '%' in safe { EscapeFreeTail(s); }
      UnquoteBytesOfQuote(safe, s[1..]);
      if c in safe && Ascii(c) {
        assert Quote(safe, s)[1..] == rest;
        if c == '%' && HexPair(rest) { QuoteHexPair(safe, s[1..]); }
        assert EncodeChar(c) == [c as int];
      } else {
        EscapeIsAscii(EncodeChar(c));
        UnquoteEscape(EncodeChar(c), rest);
      }
    }
  }

  lemma {:induction false} WholeRun(s: string)
    requires AllAscii(s)
    ensures AsciiRun(s) == |s|
  {
    if s != "" { WholeRun(s[1..]); }
  }

  lemma UnquoteAscii(s: string)
    requires AllAscii(s) && s != ""
    ensures UnquoteRuns(s) == Decode(UnquoteBytes(s))
  {
    hide Decode, UnquoteBytes;
    WholeRun(s);
    assert s[..|s|] == s && s[|s|..] == "";
    assert UnquoteRuns("") == "";
  }

  /** A text whose quoted form has no percent sign is not changed by quoting. */
  lemma {:induction false} QuoteKeeps(safe: set<char>, s: string)
    requires '%' !in Quote(safe, s)
    ensures Quote(safe, s) == s
  {
    if s != "" {
      assert Quote(safe, s) == QuoteChar(safe, s[0]) + Quote(safe, s[1..]);
      assert Quote(safe, s)[0] == QuoteChar(safe, s[0])[0];
      QuoteKeeps(safe, s[1..]);
      assert s == [s[0]] + s[1..];
    }
  }

  /** The round trip: unquote(quote(s)) = s. */
  lemma QuoteRoundTrip(safe: set<char>, s: string)
    requires '%' !in safe || EscapeFree(s)
    ensures Unquote(Quote(safe, s)) == s
  {
    var q := Quote(safe, s);
    if '%' !in q {
      QuoteKeeps(safe, s);
    } else {
      UnquoteBytesOfQuote(safe, s);
      UnquoteAscii(q);
      Utf8RoundTrip(s);
    }
  }

  // The texts that normalization leaves alone

  /** The characters that quoting keeps include the percent sign and the hexadecimal digits. */
  ghost predicate KeepsEscapes(safe: set<char>) { '%' in safe && forall c :: IsHex(c) ==> c in safe }

  /** `s` begins with the whole upper-case escape of a character that quoting escapes. */
  predicate BeginsEscaped(safe: set<char>, s: string, c: char) {
    !(c in safe && Ascii(c)) && QuoteChar(safe, c) <= s
  }

  /** Every escape in `s` is one of those: none of a safe character, none in lower case, none malformed. */
  ghost predicate Settled(safe: set<char>, s: string)
    decreases |s|
  {
    if s == "" then true
    else if s[0] == '%' && HexPair(s[1..]) then
      exists c :: BeginsEscaped(safe, s, c) && Settled(safe, s[|QuoteChar(safe, c)|..])
    else Settled(safe, s[1..])
  }

  lemma EscapeFreeCons(c: char, s: string)
    requires EscapeFree(s) && (c == '%' ==> !HexPair(s))
    ensures EscapeFree([c] + s)
  {
    forall i | 0 <= i < |[c] + s| && ([c] + s)[i] == '%'
      ensures !HexPair(([c] + s)[i + 1..])
    {
      assert ([c] + s)[i + 1..] == s[i..];
      if i > 0 { assert s[i..] == s[i - 1 + 1..]; } else { assert s[0..] == s; }
    }
  }

  /** A pair of hexadecimal digits at the beginning is kept. */
  lemma HexPairKept(safe: set<char>, s: string)
    requires KeepsEscapes(safe) && HexPair(s)
    ensures HexPair(Quote(safe, s)) && Quote(safe, s)[0] == s[0] && Quote(safe, s)[1] == s[1]
    ensures Quote(safe, s)[2..] == Quote(safe, s[2..])
  {
    assert s[1..][1..] == s[2..];
    assert Quote(safe, s[1..]) == [s[1]] + Quote(safe, s[2..]);
    assert Quote(safe, s) == [s[0]] + ([s[1]] + Quote(safe, s[2..]));
  }

  /** A settled text of safe characters is the quoted form of a text without escapes. */
  lemma {:induction false} SettledIsQuoted(safe: set<char>, s: string) returns (t: string)
    requires KeepsEscapes(safe) && Settled(safe, s) && AllAscii(s) && forall i :: 0 <= i < |s| ==> s[i] in safe
    ensures EscapeFree(t) && Quote(safe, t) == s
    decreases |s|
  {
    if s == "" {
      t := "";
    } else if s[0] == '%' && HexPair(s[1..]) {
      var c :| BeginsEscaped(safe, s, c) && Settled(safe, s[|QuoteChar(safe, c)|..]);
      var rest := s[|QuoteChar(safe, c)|..];
      t := SettledIsQuoted(safe, rest);
      EscapeFreeCons(c, t);
      t := [c] + t;
      assert t[1..] == t[1..] && Quote(safe, t) == QuoteChar(safe, c) + rest;
    } else {
      var c := s[0];
      t := SettledIsQuoted(safe, s[1..]);
      if HexPair(t) { HexPairKept(safe, t); }
      EscapeFreeCons(c, t);
      t := [c] + t;
      assert Quote(safe, t) == [c] + s[1..];
    }
  }

  /** And the quoted form of a text without escapes is settled. */
  lemma {:induction false} QuotedIsSettled(safe: set<char>, t: string)
    requires EscapeFree(t)
    ensures Settled(safe, Quote(safe, t))
  {
    if t != "" {
      var c, q := t[0], Quote(safe, t);
      EscapeFreeTail(t);
      QuotedIsSettled(safe, t[1..]);
      if c in safe && Ascii(c) {
        assert q[1..] == Quote(safe, t[1..]);
        if c == '%' && HexPair(q[1..]) {
          QuoteHexPair(safe, t[1..]);
        }
      } else {
        EscapeBegins(EncodeChar(c), Quote(safe, t[1..]));
        assert BeginsEscaped(safe, q, c) && q[|QuoteChar(safe, c)|..] == Quote(safe, t[1..]);
      }
    }
  }

  lemma EscapeBegins(bytes: seq<Byte>, rest: string)
    requires bytes != []
    ensures var q := Escape(bytes) + rest; q[0] == '%' && HexPair(q[1..])
  {
    EscapeUnfolds(bytes, rest);
  }

  /** Continuation bytes at the beginning are replaced one by one. */
  lemma {:induction false} SkipsContinuations(b: seq<Byte>, k: nat)
    requires k <= |b| && forall i :: 0 <= i < k ==> Continues(b[i])
    ensures |Decode(b)| == k + |Decode(b[k..])|
  {
    if k == 0 {
      assert b[0..] == b;
    } else {
      SkipsContinuations(b[1..], k - 1);
      assert Continues(b[0]) && WellFormed(b) == 0 && Skipped(b) == 1;
      assert b[1..][k - 1..] == b[k..];
    }
  }

  /** The bytes that decode to the first character: all but the first are continuation bytes. */
  lemma FirstUnit(s: seq<Byte>) returns (n: nat)
    requires s != []
    ensures 1 <= n <= |s| && |Decode(s)| == 1 + |Decode(s[n..])|
    ensures forall i :: 1 <= i < n ==> Continues(s[i])
  {
    n := if WellFormed(s) > 0 then WellFormed(s) else Skipped(s);
    UnitContinues(s);
  }

  lemma UnitContinues(s: seq<Byte>)
    requires s != []
    ensures forall i :: 1 <= i < WellFormed(s) ==> Continues(s[i])
    ensures forall i :: 1 <= i < Skipped(s) ==> Continues(s[i])
  {
  }

  /** One more byte in front decodes to at most one more character. */
  lemma PrependedByte(x: Byte, b: seq<Byte>)
    ensures |Decode([x] + b)| <= 1 + |Decode(b)|
  {
    hide Decode, WellFormed, Skipped, Continues;
    var s := [x] + b;
    var n := FirstUnit(s);
    assert forall i :: 0 <= i < n - 1 ==> b[i] == s[i + 1];
    SkipsContinuations(b, n - 1);
    assert s[n..] == b[n - 1..];
  }

  /** Decoding a quoted text gives no more characters, and fewer when the text has an escape of its own. */
  lemma {:induction false} DecodeShrinks(safe: set<char>, t: string)
    requires KeepsEscapes(safe)
    ensures AllAscii(Quote(safe, t))
    ensures |Decode(UnquoteBytes(Quote(safe, t)))| <= |t|
    ensures |Decode(UnquoteBytes(Quote(safe, t)))| == |t| ==> EscapeFree(t)
  {
    QuoteIsAscii(safe, t);
    if t != "" {
      var c, rest := t[0], Quote(safe, t[1..]);
      if c == '%' && HexPair(t[1..]) {
        DecodeShrinks(safe, t[1..][2..]);
        HexPairKept(safe, t[1..]);
        var q := Quote(safe, t);
        assert q == ['%'] + rest && q[3..] == rest[2..] && q[1] == rest[0] && q[2] == rest[1];
        PrependedByte(HexValue(q[1]) * 16 + HexValue(q[2]), UnquoteBytes(q[3..]));
      } else {
        DecodeShrinks(safe, t[1..]);
        QuotedBytes(safe, t);
        CharRoundTrip(c, UnquoteBytes(rest));
        DecodeFirst(c, UnquoteBytes(rest));
        if EscapeFree(t[1..]) {
          EscapeFreeCons(c, t[1..]);
          assert [c] + t[1..] == t;
        }
      }
    }
  }

  lemma DecodeFirst(c: char, b: seq<Byte>)
    ensures Decode(EncodeChar(c) + b) == [c] + Decode(b)
  {
    CharRoundTrip(c, b);
    assert (EncodeChar(c) + b)[|EncodeChar(c)|..] == b;
  }

  /** A character that begins no escape contributes its own bytes. */
  lemma QuotedBytes(safe: set<char>, t: string)
    requires t != "" && !(t[0] == '%' && HexPair(t[1..]))
    ensures AllAscii(Quote(safe, t)) && AllAscii(Quote(safe, t[1..]))
    ensures UnquoteBytes(Quote(safe, t)) == EncodeChar(t[0]) + UnquoteBytes(Quote(safe, t[1..]))
  {
    var c, rest := t[0], Quote(safe, t[1..]);
    QuoteIsAscii(safe, t);
    QuoteIsAscii(safe, t[1..]);
    if c in safe && Ascii(c) {
      assert Quote(safe, t)[1..] == rest;
      if c == '%' && HexPair(rest) { QuoteHexPair(safe, t[1..]); }
      assert EncodeChar(c) == [c as int];
    } else {
      EscapeIsAscii(EncodeChar(c));
      UnquoteEscape(EncodeChar(c), rest);
    }
  }

  lemma UnquoteShrinks(safe: set<char>, t: string)
    requires KeepsEscapes(safe)
    ensures |Unquote(Quote(safe, t))| <= |t|
    ensures |Unquote(Quote(safe, t))| == |t| ==> EscapeFree(t)
  {
    var q := Quote(safe, t);
    if '%' !in q {
      QuoteKeeps(safe, t);
    } else {
      DecodeShrinks(safe, t);
      UnquoteAscii(q);
    }
  }
}
