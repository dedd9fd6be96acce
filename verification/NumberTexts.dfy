/** The number that a text reads as: its first number, whatever stands around it (extraction_service.py, normalize). */
module NumberTexts {
  import opened Wrappers
  import opened Extractor
  import opened Readings
  import D = Decimals

  /** The digits of the library are '0' to '9'. */
  ghost predicate AsciiDigits(lib: Library) {
    forall c: char :: lib.digit(c) == if '0' <= c <= '9' then Some(c as int - '0' as int) else None
  }

  ghost predicate NoDigit(s: string) { forall i :: 0 <= i < |s| ==> !D.IsDigit(s[i]) }

  ghost predicate AllDigits(s: string) { forall i :: 0 <= i < |s| ==> D.IsDigit(s[i]) }

  predicate IsSign(c: char) { c == '+' || c == '-' }

  /** Commas aside, the text does not end in a sign. */
  predicate EndsWithoutSign(s: string) {
    s == "" || if s[|s| - 1] == ',' then EndsWithoutSign(s[..|s| - 1]) else !IsSign(s[|s| - 1])
  }

  /** Commas aside, the text does not go on with a digit, nor, if `point`, with a point and a digit. */
  predicate Stops(s: string, point: bool) {
    s == "" || if s[0] == ',' then Stops(s[1..], point)
               else if s[0] == '.' && point then Stops(s[1..], false)
               else !D.IsDigit(s[0])
  }

  /** Digits with commas between and after them. */
  ghost predicate Grouped(s: string) {
    s != "" && D.IsDigit(s[0]) && forall i :: 0 <= i < |s| ==> D.IsDigit(s[i]) || s[i] == ','
  }

  function PointText(fraction: string): string { if fraction == "" then "" else "." + fraction }

  /** The first number of a text, and what stands before and after it. */
  datatype Parts = Parts(before: string, sign: string, whole: string, fraction: string, after: string)

  function TextOfParts(p: Parts): string { p.before + (p.sign + p.whole + PointText(p.fraction)) + p.after }

  ghost predicate NumberIn(value: string, p: Parts) {
    && value == TextOfParts(p)
    && NoDigit(p.before) && (p.sign == "" ==> EndsWithoutSign(p.before))
    && (p.sign == "" || p.sign == "+" || p.sign == "-")
    && Grouped(p.whole) && AllDigits(p.fraction) && Stops(p.after, p.fraction == "")
  }

  // Commas

  lemma {:induction false} CommasConcat(a: string, b: string)
    ensures WithoutCommas(a + b) == WithoutCommas(a) + WithoutCommas(b)
  {
    if a == "" {
      assert a + b == b;
    } else {
      assert (a + b)[1..] == a[1..] + b;
      CommasConcat(a[1..], b);
    }
  }

  lemma {:induction false} NoCommas(s: string)
    requires ',' !in s
    ensures WithoutCommas(s) == s
  {
    if s != "" { NoCommas(s[1..]); }
  }

  lemma {:induction false} DigitsLeft(s: string)
    requires forall i :: 0 <= i < |s| ==> D.IsDigit(s[i]) || s[i] == ','
    ensures AllDigits(WithoutCommas(s))
  {
    if s != "" { DigitsLeft(s[1..]); }
  }

  lemma {:induction false} NoneLeft(s: string)
    requires NoDigit(s)
    ensures NoDigit(WithoutCommas(s))
  {
    if s != "" { NoneLeft(s[1..]); }
  }

  /** What is before the number ends without a sign, and so does its text without commas. */
  lemma {:induction false} EndLeft(s: string)
    requires EndsWithoutSign(s)
    ensures var t := WithoutCommas(s); t == "" || !IsSign(t[|t| - 1])
    decreases |s|
  {
    if s != "" {
      var n := |s| - 1;
      assert s == s[..n] + [s[n]];
      CommasConcat(s[..n], [s[n]]);
      if s[n] == ',' {
        assert WithoutCommas([s[n]]) == "";
        EndLeft(s[..n]);
      } else {
        NoCommas([s[n]]);
      }
    }
  }

  /** The same from the left: what is after the number. */
  ghost predicate StopsPlain(s: string, point: bool) {
    && (s != "" ==> !D.IsDigit(s[0]))
    && (point && |s| > 1 && s[0] == '.' ==> !D.IsDigit(s[1]))
  }

  lemma {:induction false} StopsLeft(s: string, point: bool)
    requires Stops(s, point)
    ensures StopsPlain(WithoutCommas(s), point)
    decreases |s|
  {
    if s != "" {
      if s[0] == ',' {
        StopsLeft(s[1..], point);
      } else if s[0] == '.' && point {
        StopsLeft(s[1..], false);
      }
    }
  }

  // Matching

  lemma {:induction false} ReadsDigits(lib: Library, s: string)
    requires AsciiDigits(lib) && AllDigits(s)
    ensures DigitsValue(lib, s) == D.FromDecimal(s)
  {
    if s != "" { ReadsDigits(lib, s[..|s| - 1]); }
  }

  lemma {:induction false} RunsDigits(lib: Library, s: string, rest: string)
    requires AsciiDigits(lib) && AllDigits(s) && (rest != "" ==> !D.IsDigit(rest[0]))
    ensures DigitRun(lib, s + rest) == |s|
  {
    if s == "" {
      assert s + rest == rest;
    } else {
      assert (s + rest)[1..] == s[1..] + rest;
      RunsDigits(lib, s[1..], rest);
    }
  }

  /** The digits at the beginning of a text without commas. */
  lemma MatchesWhole(lib: Library, digits: string, after: string)
    requires AsciiDigits(lib) && digits != "" && AllDigits(digits) && StopsPlain(after, true) && ',' !in after
    ensures MatchNumber(lib, digits + after) == Some(Decimal(false, D.FromDecimal(digits), 0))
  {
    hide DigitRun, DigitsValue, D.FromDecimal, AllDigits;
    var body := digits + after;
    assert body[0] == digits[0] && D.IsDigit(digits[0]) by { FirstDigit(digits); }
    RunsDigits(lib, digits, after);
    assert body[..|digits|] == digits && body[|digits|..] == after;
    if after != "" && after[0] == '.' { NoRun(lib, after[1..]); }
    assert digits + "" == digits;
    ReadsDigits(lib, digits);
  }

  lemma MatchesPoint(lib: Library, digits: string, fraction: string, after: string)
    requires AsciiDigits(lib) && digits != "" && AllDigits(digits) && fraction != "" && AllDigits(fraction)
    requires after != "" ==> !D.IsDigit(after[0])
    ensures MatchNumber(lib, digits + ("." + fraction + after)) ==
            Some(Decimal(false, D.FromDecimal(digits + fraction), |fraction|))
  {
    hide DigitRun, DigitsValue, D.FromDecimal, AllDigits;
    var rest := "." + fraction + after;
    var body := digits + rest;
    assert body[0] == digits[0] && D.IsDigit(digits[0]) by { FirstDigit(digits); }
    RunsDigits(lib, digits, rest);
    assert body[..|digits|] == digits && body[|digits|..] == rest;
    assert rest[1..] == fraction + after;
    RunsDigits(lib, fraction, after);
    assert rest[1..|fraction| + 1] == fraction;
    assert AllDigits(digits + fraction) by { BothDigits(digits, fraction); }
    ReadsDigits(lib, digits + fraction);
  }

  lemma FirstDigit(s: string)
    requires s != "" && AllDigits(s)
    ensures D.IsDigit(s[0])
  {
  }

  lemma BothDigits(a: string, b: string)
    requires AllDigits(a) && AllDigits(b)
    ensures AllDigits(a + b)
  {
  }

  lemma MatchesUnsigned(lib: Library, digits: string, fraction: string, after: string)
    requires AsciiDigits(lib) && digits != "" && AllDigits(digits) && AllDigits(fraction)
    requires StopsPlain(after, fraction == "") && ',' !in after
    ensures MatchNumber(lib, digits + (PointText(fraction) + after)) ==
            Some(Decimal(false, D.FromDecimal(digits + fraction), |fraction|))
  {
    hide MatchNumber, D.FromDecimal;
    if fraction == "" {
      assert PointText(fraction) + after == after && digits + "" == digits;
      MatchesWhole(lib, digits, after);
    } else {
      MatchesPoint(lib, digits, fraction, after);
    }
  }

  lemma MatchesSigned(lib: Library, sign: string, body: string)
    requires (sign == "" || sign == "+" || sign == "-") && body != "" && D.IsDigit(body[0])
    requires MatchNumber(lib, body).Some? && !MatchNumber(lib, body).value.negative
    ensures MatchNumber(lib, sign + body) == Some(MatchNumber(lib, body).value.(negative := sign == "-"))
  {
    hide DigitRun, DigitsValue;
    if sign == "" {
      assert sign + body == body;
    } else {
      assert (sign + body)[1..] == body && (sign + body)[0] == sign[0];
    }
  }

  lemma NoRun(lib: Library, s: string)
    requires AsciiDigits(lib) && (s != "" ==> !D.IsDigit(s[0]))
    ensures DigitRun(lib, s) == 0
  {
  }

  lemma NothingMatches(lib: Library, s: string)
    requires AsciiDigits(lib) && (s != "" ==> !D.IsDigit(s[0]))
    requires s != "" && IsSign(s[0]) && |s| > 1 ==> !D.IsDigit(s[1])
    ensures MatchNumber(lib, s).None?
  {
    NoRun(lib, s);
    if s != "" && IsSign(s[0]) { NoRun(lib, s[1..]); }
  }

  /** The search skips what has no digit. */
  lemma {:induction false} SkipsTo(lib: Library, before: string, number: string)
    requires AsciiDigits(lib) && NoDigit(before) && number != "" && MatchNumber(lib, number).Some?
    requires D.IsDigit(number[0]) ==> before == "" || !IsSign(before[|before| - 1])
    ensures SearchNumber(lib, before + number) == MatchNumber(lib, number)
  {
    hide MatchNumber;
    if before == "" {
      assert before + number == number;
    } else {
      var s := before + number;
      assert s[1..] == before[1..] + number;
      assert |before| > 1 ==> s[1] == before[1];
      NothingMatches(lib, s);
      SkipsTo(lib, before[1..], number);
    }
  }

  lemma {:induction false} NothingToFind(lib: Library, s: string)
    requires AsciiDigits(lib) && NoDigit(s)
    ensures SearchNumber(lib, s).None?
  {
    hide MatchNumber;
    NothingMatches(lib, s);
    if s != "" { NothingToFind(lib, s[1..]); }
  }

  // Whitespace

  lemma {:induction false} CollapseLast(s: string, c: char, inRun: bool)
    ensures Collapse(s + [c], inRun) ==
            Collapse(s, inRun) + if !IsSpace(c) then [c]
                                 else if (if s == "" then inRun else IsSpace(s[|s| - 1])) then "" else " "
  {
    if s == "" {
      assert s + [c] == [c] && [c][1..] == "";
    } else {
      assert (s + [c])[1..] == s[1..] + [c];
      CollapseLast(s[1..], c, IsSpace(s[0]));
    }
  }

  /** A text without digits keeps its end, commas and blanks aside, when whitespace is collapsed before it. */
  lemma {:induction false} EndCollapses(s: string, inRun: bool)
    requires EndsWithoutSign(s)
    ensures EndsWithoutSign(Collapse(s, inRun))
    ensures s != "" && IsSpace(s[|s| - 1]) && Collapse(s, inRun) != "" ==>
              Collapse(s, inRun)[|Collapse(s, inRun)| - 1] == ' '
    decreases |s|
  {
    if s != "" {
      var n := |s| - 1;
      assert s == s[..n] + [s[n]];
      CollapseLast(s[..n], s[n], inRun);
      var front := Collapse(s[..n], inRun);
      if s[n] == ',' {
        EndCollapses(s[..n], inRun);
        assert (front + [','])[..|front|] == front;
      } else if IsSpace(s[n]) {
        LastBlank(s[..n], inRun);
      }
    }
  }

  lemma {:induction false} LastBlank(s: string, inRun: bool)
    ensures s != "" && IsSpace(s[|s| - 1]) && Collapse(s, inRun) != "" ==>
              Collapse(s, inRun)[|Collapse(s, inRun)| - 1] == ' '
    ensures s == "" ==> Collapse(s, inRun) == ""
    decreases |s|
  {
    if s != "" {
      var n := |s| - 1;
      assert s == s[..n] + [s[n]];
      CollapseLast(s[..n], s[n], inRun);
      LastBlank(s[..n], inRun);
    }
  }

  lemma {:induction false} EndTail(s: string)
    requires s != "" && IsSpace(s[0]) && EndsWithoutSign(s)
    ensures EndsWithoutSign(s[1..])
  {
    var n := |s| - 1;
    if n > 0 && s[n] == ',' {
      EndTail(s[..n]);
      assert s[..n][1..] == s[1..][..n - 1];
    }
  }

  lemma {:induction false} EndStrips(s: string)
    requires EndsWithoutSign(s)
    ensures EndsWithoutSign(StripLeft(s))
  {
    if s != "" && IsSpace(s[0]) {
      EndTail(s);
      EndStrips(s[1..]);
    }
  }

  lemma {:induction false} NoDigitCollapses(s: string, inRun: bool)
    requires NoDigit(s)
    ensures NoDigit(Collapse(s, inRun))
  {
    if s != "" { NoDigitCollapses(s[1..], IsSpace(s[0])); }
  }

  lemma {:induction false} NoDigitStrips(s: string)
    requires NoDigit(s)
    ensures NoDigit(StripLeft(s))
  {
    if s != "" && IsSpace(s[0]) { NoDigitStrips(s[1..]); }
  }

  lemma {:induction false} StopsCollapses(s: string, point: bool)
    requires Stops(s, point)
    ensures Stops(Collapse(s, false), point)
    decreases |s|
  {
    if s != "" && (s[0] == ',' || s[0] == '.') {
      assert Collapse(s, false)[1..] == Collapse(s[1..], false);
      if s[0] == ',' {
        StopsCollapses(s[1..], point);
      } else if point {
        StopsCollapses(s[1..], false);
      }
    }
  }

  lemma {:induction false} StopsPrefix(s: string, n: nat, point: bool)
    requires Stops(s, point) && n <= |s|
    ensures Stops(s[..n], point)
    decreases n
  {
    if n > 0 {
      assert s[..n][1..] == s[1..][..n - 1];
      if s[0] == ',' {
        StopsPrefix(s[1..], n - 1, point);
      } else if s[0] == '.' && point {
        StopsPrefix(s[1..], n - 1, false);
      }
    }
  }

  lemma {:induction false} StripRightPrefix(s: string)
    ensures |StripRight(s)| <= |s| && StripRight(s) == s[..|StripRight(s)|]
  {
    if s != "" && IsSpace(s[|s| - 1]) { StripRightPrefix(s[..|s| - 1]); }
  }

  lemma {:induction false} CollapseConcat(a: string, b: string, inRun: bool)
    requires b != "" && !IsSpace(b[0])
    ensures Collapse(a + b, inRun) == Collapse(a, inRun) + Collapse(b, false)
  {
    if a == "" {
      assert a + b == b;
    } else {
      assert (a + b)[1..] == a[1..] + b;
      CollapseConcat(a[1..], b, IsSpace(a[0]));
    }
  }

  lemma {:induction false} StripLeftConcat(a: string, b: string)
    requires b != "" && !IsSpace(b[0])
    ensures StripLeft(a + b) == StripLeft(a) + b
  {
    if a == "" {
      assert a + b == b;
    } else {
      assert (a + b)[1..] == a[1..] + b;
      StripLeftConcat(a[1..], b);
    }
  }

  lemma {:induction false} StripRightConcat(a: string, b: string)
    requires a != "" && !IsSpace(a[|a| - 1])
    ensures StripRight(a + b) == a + StripRight(b)
  {
    if b == "" {
      assert a + b == a;
    } else {
      assert (a + b)[..|a + b| - 1] == a + b[..|b| - 1];
      StripRightConcat(a, b[..|b| - 1]);
    }
  }

  /** Collapsing treats what is before and after a number apart. */
  lemma TextAround(before: string, number: string, after: string)
    requires number != "" && Solid(number)
    ensures Text(before + number + after) ==
            StripLeft(Collapse(before, false)) + number + StripRight(Collapse(after, false))
  {
    hide Collapse, StripLeft, StripRight, IsSpace;
    var tail := number + after;
    assert before + number + after == before + tail && tail[..|number|] == number && tail[|number|..] == after;
    CollapseConcat(before, tail, false);
    CollapseWord(tail, |number|, false);
    var c := Collapse(after, false);
    StripLeftConcat(Collapse(before, false), number + c);
    var front := StripLeft(Collapse(before, false)) + number;
    assert front + c == StripLeft(Collapse(before, false)) + (number + c);
    StripRightConcat(front, c);
  }

  // Values

  lemma {:induction false} ValueConcat(a: string, b: string)
    ensures D.FromDecimal(a + b) == D.FromDecimal(a) * Pow10(|b|) + D.FromDecimal(b)
  {
    if b == "" {
      assert a + b == a;
    } else {
      var n := |b| - 1;
      assert (a + b)[..|a + b| - 1] == a + b[..n];
      ValueConcat(a, b[..n]);
      Distributes(D.FromDecimal(a), Pow10(n), D.FromDecimal(b[..n]), D.DigitValue(b[n]));
    }
  }

  lemma Distributes(a: nat, p: nat, b: nat, d: nat)
    ensures (a * p + b) * 10 + d == a * (10 * p) + (b * 10 + d)
  {
  }

  lemma {:induction false} ValueIsSmall(s: string)
    ensures D.FromDecimal(s) < Pow10(|s|)
  {
    if s != "" { ValueIsSmall(s[..|s| - 1]); }
  }

  /** A whole part and a decimal part over a power of ten. */
  lemma Divides(n: nat, f: nat, p: nat)
    requires 0 < p && f < p
    ensures (n * p + f) % p == 0 <==> f == 0
    ensures f == 0 ==> (n * p + f) / p == n
    ensures (n * p + f) as real / p as real == n as real + f as real / p as real
  {
    DividesInt(n, f, p);
    DividesReal(n as real, f as real, p as real);
    assert (n * p) as real == n as real * p as real;
  }

  lemma AtLeast(p: int, d: int)
    requires p > 0 && d >= 1
    ensures d * p >= p
  {
  }

  lemma DividesInt(n: nat, f: nat, p: nat)
    requires 0 < p && f < p
    ensures (n * p + f) / p == n && (n * p + f) % p == f
  {
    var x := n * p + f;
    var q, r := x / p, x % p;
    assert x == q * p + r && 0 <= r < p;
    Difference(q, n, p);
    if q > n { AtLeast(p, q - n); }
    if q < n { AtLeast(p, n - q); }
  }

  lemma Difference(q: int, n: int, p: int)
    ensures (q - n) * p == q * p - n * p && (n - q) * p == n * p - q * p
  {
  }

  lemma DividesReal(n: real, f: real, p: real)
    requires p > 0.0
    ensures (n * p + f) / p == n + f / p
  {
  }

  /** The value of a number as it is written: digits before and after the point, and a sign. */
  function Written(sign: string, whole: nat, fraction: string): real {
    var x := whole as real + D.FromDecimal(fraction) as real / Pow10(|fraction|) as real;
    if sign == "-" then -x else x
  }

  lemma WrittenIs(sign: string, digits: string, fraction: string, integer: bool)
    ensures var d := Decimal(sign == "-", D.FromDecimal(digits + fraction), |fraction|);
            var n: int := D.FromDecimal(digits);
            NumberValue(d, integer) ==
            if integer && D.FromDecimal(fraction) == 0 then Int(if sign == "-" then -n else n)
            else Num(Written(sign, D.FromDecimal(digits), fraction))
  {
    hide D.FromDecimal, Pow10;
    ValueConcat(digits, fraction);
    ValueIsSmall(fraction);
    Divides(D.FromDecimal(digits), D.FromDecimal(fraction), Pow10(|fraction|));
  }

  // The first number of a text

  lemma FindsParts(lib: Library, p: Parts)
    requires AsciiDigits(lib) && NumberIn(TextOfParts(p), p)
    ensures var digits := WithoutCommas(p.whole);
            SearchNumber(lib, WithoutCommas(TextOfParts(p))) ==
            Some(Decimal(p.sign == "-", D.FromDecimal(digits + p.fraction), |p.fraction|))
  {
    hide MatchNumber, SearchNumber, D.FromDecimal, WithoutCommas, Stops, EndsWithoutSign;
    var digits, rest := WithoutCommas(p.whole), WithoutCommas(p.after);
    WithoutCommasOf(p);
    DigitsLeft(p.whole);
    WholeHasDigits(p.whole);
    NoneLeft(p.before);
    StopsLeft(p.after, p.fraction == "");
    CommaFree(p.after);
    var body := digits + (PointText(p.fraction) + rest);
    MatchesUnsigned(lib, digits, p.fraction, rest);
    assert D.IsDigit(body[0]) by { FirstDigit(digits); }
    MatchesSigned(lib, p.sign, body);
    if p.sign == "" { EndLeft(p.before); }
    SkipsTo(lib, WithoutCommas(p.before), p.sign + body);
    assert WithoutCommas(p.before) + (p.sign + body)
        == WithoutCommas(p.before) + (p.sign + digits + PointText(p.fraction)) + rest;
  }

  lemma {:induction false} CommaFree(s: string)
    ensures ',' !in WithoutCommas(s)
  {
    if s != "" { CommaFree(s[1..]); }
  }

  lemma WholeHasDigits(s: string)
    requires Grouped(s)
    ensures WithoutCommas(s) != ""
  {
  }

  lemma WithoutCommasOf(p: Parts)
    requires NumberIn(TextOfParts(p), p)
    ensures WithoutCommas(TextOfParts(p)) ==
            WithoutCommas(p.before) + (p.sign + WithoutCommas(p.whole) + PointText(p.fraction)) + WithoutCommas(p.after)
  {
    hide WithoutCommas, Stops, EndsWithoutSign;
    var number := p.sign + p.whole + PointText(p.fraction);
    CommasConcat(p.before + number, p.after);
    CommasConcat(p.before, number);
    CommasConcat(p.sign + p.whole, PointText(p.fraction));
    CommasConcat(p.sign, p.whole);
    NoCommas(p.sign);
    NoCommas(PointText(p.fraction));
  }

  /** Whitespace is collapsed around the number only. */
  lemma TextKeepsParts(p: Parts) returns (q: Parts)
    requires NumberIn(TextOfParts(p), p)
    ensures NumberIn(Text(TextOfParts(p)), q)
    ensures q.sign == p.sign && q.whole == p.whole && q.fraction == p.fraction
  {
    hide Collapse, StripLeft, StripRight, Stops, EndsWithoutSign, NoDigit, IsSpace;
    var number := p.sign + p.whole + PointText(p.fraction);
    NumberIsSolid(p);
    TextAround(p.before, number, p.after);
    q := p.(before := StripLeft(Collapse(p.before, false)), after := StripRight(Collapse(p.after, false)));
    NoDigitCollapses(p.before, false);
    NoDigitStrips(Collapse(p.before, false));
    if p.sign == "" {
      EndCollapses(p.before, false);
      EndStrips(Collapse(p.before, false));
    }
    StopsCollapses(p.after, p.fraction == "");
    StripRightPrefix(Collapse(p.after, false));
    StopsPrefix(Collapse(p.after, false), |q.after|, p.fraction == "");
  }

  lemma NumberIsSolid(p: Parts)
    requires NumberIn(TextOfParts(p), p)
    ensures var number := p.sign + p.whole + PointText(p.fraction); number != "" && Solid(number)
  {
    hide Stops, EndsWithoutSign;
    assert Solid(p.sign) && Solid(p.whole) && Solid(PointText(p.fraction));
  }

  /**
   * The first number of a text, whatever stands around it: an integer field reads it as an integer when its decimal
   * part is zero, and as a number otherwise, like number and currency fields. Commas between the digits do not count.
   */
  lemma NumberIsRead(lib: Library, p: Parts, t: FieldType, base: string)
    requires AsciiDigits(lib) && NumberIn(TextOfParts(p), p)
    requires t == IntegerType || t == NumberType || t == CurrencyType
    ensures var n: int := D.FromDecimal(WithoutCommas(p.whole));
            Normalize(lib, TextOfParts(p), t, base) ==
            Some(if t == IntegerType && D.FromDecimal(p.fraction) == 0 then Int(if p.sign == "-" then -n else n)
                 else Num(Written(p.sign, D.FromDecimal(WithoutCommas(p.whole)), p.fraction)))
  {
    hide Text, SearchNumber, D.FromDecimal, WithoutCommas, NumberValue, Written;
    var q := TextKeepsParts(p);
    assert Text(TextOfParts(p)) == TextOfParts(q);
    FindsParts(lib, q);
    WrittenIs(p.sign, WithoutCommas(p.whole), p.fraction, t == IntegerType);
    assert TextOfParts(q) != "" by { NotEmpty(q); }
  }

  lemma NotEmpty(p: Parts)
    requires NumberIn(TextOfParts(p), p)
    ensures TextOfParts(p) != ""
  {
  }

  /** A text without a digit has no number. */
  lemma NoNumberIsRead(lib: Library, value: string, t: FieldType, base: string)
    requires AsciiDigits(lib) && NoDigit(value)
    requires t == IntegerType || t == NumberType || t == CurrencyType
    ensures Normalize(lib, value, t, base) == None
  {
    hide SearchNumber, Collapse, StripLeft, StripRight, NoDigit;
    NoDigitCollapses(value, false);
    NoDigitStrips(Collapse(value, false));
    var text := StripLeft(Collapse(value, false));
    StripRightPrefix(text);
    assert NoDigit(StripRight(text)) by { NoDigitPrefix(text, |StripRight(text)|); }
    NoneLeft(Text(value));
    NothingToFind(lib, WithoutCommas(Text(value)));
  }

  lemma NoDigitPrefix(s: string, n: nat)
    requires NoDigit(s) && n <= |s|
    ensures NoDigit(s[..n])
  {
  }

  /** A decimal numeral is read as its number, and with a minus sign as the opposite one. */
  lemma NumeralIsRead(lib: Library, n: nat, base: string)
    requires AsciiDigits(lib)
    ensures Normalize(lib, D.Decimal(n), IntegerType, base) == Some(Int(n))
    ensures var m: int := n; Normalize(lib, "-" + D.Decimal(n), IntegerType, base) == Some(Int(-m))
    ensures Normalize(lib, D.Decimal(n), NumberType, base) == Some(Num(n as real))
  {
    hide Normalize, D.FromDecimal, D.Decimal, WithoutCommas;
    D.DecimalRoundTrip(n);
    var whole := D.Decimal(n);
    NoCommas(whole);
    assert D.FromDecimal("") == 0 by { NothingIsZero(); }
    var p, m := Parts("", "", whole, "", ""), Parts("", "-", whole, "", "");
    assert TextOfParts(p) == whole && TextOfParts(m) == "-" + whole;
    NumberIsRead(lib, p, IntegerType, base);
    NumberIsRead(lib, m, IntegerType, base);
    NumberIsRead(lib, p, NumberType, base);
  }

  lemma NothingIsZero()
    ensures D.FromDecimal("") == 0
  {
  }

  /** A price as it is written on a page. */
  lemma PriceIsRead(lib: Library, base: string)
    requires AsciiDigits(lib)
    ensures Normalize(lib, "only $1,234.50 - each", CurrencyType, base) == Some(Num(1234.5))
  {
    hide Normalize, D.FromDecimal, WithoutCommas, Pow10;
    var p := Parts("only $", "", "1,234", "50", " - each");
    assert TextOfParts(p) == "only $1,234.50 - each";
    assert EndsWithoutSign("only $") && Stops(" - each", false);
    NumberIsRead(lib, p, CurrencyType, base);
    PriceValue();
  }

  lemma PriceValue()
    ensures D.FromDecimal(WithoutCommas("1,234")) == 1234 && D.FromDecimal("50") == 50 && Pow10(2) == 100
  {
    assert WithoutCommas("1,234") == "1234" by {
      CommasConcat("1", ",234");
      CommasConcat(",", "234");
      NoCommas("1");
      NoCommas("234");
      assert WithoutCommas(",") == "" && "," + "234" == ",234" && "1" + ",234" == "1,234" && "1" + "234" == "1234";
    }
    assert "1234"[..3] == "123" && "123"[..2] == "12" && "12"[..1] == "1" && "1"[..0] == "" && "50"[..1] == "5";
    assert "5"[..0] == "";
  }
}
