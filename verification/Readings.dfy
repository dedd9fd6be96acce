/** What normalization reads out of a text: its words, its first number, its truth word or its link. */
module Readings {
  import opened Wrappers
  import opened Extractor
  import P = Percent
  import U = Urls

  // Words

  ghost predicate Solid(s: string) { forall i :: 0 <= i < |s| ==> !IsSpace(s[i]) }

  /** The length of the first word. */
  function WordLength(s: string): (n: nat)
    ensures n <= |s| && Solid(s[..n]) && (n == |s| || IsSpace(s[n]))
  {
    if s == "" || IsSpace(s[0]) then 0
    else
      var n := WordLength(s[1..]);
      assert s[..n + 1] == [s[0]] + s[1..][..n];
      n + 1
  }

  /** The maximal runs of characters that are not whitespace. */
  function Words(s: string): seq<string> {
    if s == "" then []
    else if IsSpace(s[0]) then Words(s[1..])
    else [s[..WordLength(s)]] + Words(s[WordLength(s)..])
  }

  function Spaced(words: seq<string>): string {
    if words == [] then "" else if |words| == 1 then words[0] else words[0] + " " + Spaced(words[1..])
  }

  lemma {:induction false} CollapseWord(s: string, n: nat, inRun: bool)
    requires n <= |s| && Solid(s[..n]) && n > 0
    ensures Collapse(s, inRun) == s[..n] + Collapse(s[n..], false)
  {
    assert s[0] == s[..n][0] && s[1..][n - 1..] == s[n..];
    if n > 1 {
      assert s[1..][..n - 1] == s[..n][1..];
      CollapseWord(s[1..], n - 1, false);
      assert s[..n] == [s[0]] + s[1..][..n - 1];
    } else {
      assert s[..1] == [s[0]];
    }
  }

  /** Collapsing after a blank leaves the words, and perhaps a blank at the end. */
  lemma {:induction false} CollapseJoins(s: string) returns (tail: string)
    ensures Collapse(s, true) == Spaced(Words(s)) + tail && (tail == "" || (tail == " " && Words(s) != []))
    decreases |s|
  {
    if s == "" {
      tail := "";
    } else if IsSpace(s[0]) {
      tail := CollapseJoins(s[1..]);
    } else {
      var n := WordLength(s);
      CollapseWord(s, n, true);
      if n == |s| {
        tail := "";
      } else {
        assert s[n..][1..] == s[n + 1..];
        tail := CollapseJoins(s[n + 1..]);
        var rest := Words(s[n + 1..]);
        assert Words(s[n..]) == rest && Words(s) == [s[..n]] + rest;
        if rest == [] {
          tail := " ";
          assert Spaced(Words(s)) == s[..n];
        } else {
          assert Words(s)[1..] == rest;
          assert s[..n] + ([' '] + (Spaced(rest) + tail)) == s[..n] + " " + Spaced(rest) + tail;
        }
      }
    }
  }

  lemma {:induction false} WordsEndSolid(s: string)
    ensures Words(s) != [] ==> Spaced(Words(s)) != "" && !IsSpace(Spaced(Words(s))[|Spaced(Words(s))| - 1])
    decreases |s|
  {
    if s != "" {
      if IsSpace(s[0]) {
        WordsEndSolid(s[1..]);
      } else {
        var n := WordLength(s);
        WordsEndSolid(s[n..]);
        assert s[..n][n - 1] == s[n - 1];
        assert Words(s)[1..] == Words(s[n..]);
      }
    }
  }

  lemma StripsBlank(s: string, tail: string)
    requires tail == "" || tail == " "
    requires s == "" ==> tail == ""
    requires s != "" ==> !IsSpace(s[|s| - 1])
    ensures StripRight(s + tail) == s
  {
    assert (s + tail)[..|s|] == s;
  }

  /** Collapsed text is the words of the original, with single blanks between them. */
  lemma TextIsWords(s: string)
    ensures Text(s) == Spaced(Words(s))
  {
    hide StripRight, Words, Spaced;
    var tail := CollapseJoins(s);
    WordsEndSolid(s);
    assert Words(s) == [] ==> Spaced(Words(s)) == "" by { NothingSpaced(); }
    StripsBlank(Spaced(Words(s)), tail);
    StripsLeft(s);
  }

  lemma NothingSpaced()
    ensures Spaced([]) == ""
  {
  }

  lemma StripsLeft(s: string)
    ensures StripLeft(Collapse(s, false)) == Collapse(s, true)
  {
    hide Single;
    CollapseIsSingle(s, true);
    if s != "" && IsSpace(s[0]) { assert ([' '] + Collapse(s[1..], true))[1..] == Collapse(s, true); }
  }

  /** A clean text between whitespace. */
  lemma TextStrips(before: string, word: string, after: string)
    requires Blanks(before) && Blanks(after) && Clean(word)
    ensures Text(before + word + after) == word
  {
    hide IsSpace;
    BlanksCollapse(before, word + after);
    assert before + word + after == before + (word + after);
    StripsLeft(before + (word + after));
    StripsLeft(word + after);
    CollapseEnds(word, after);
  }

  ghost predicate Blanks(s: string) { forall i :: 0 <= i < |s| ==> IsSpace(s[i]) }

  lemma {:induction false} BlanksCollapse(before: string, s: string)
    requires Blanks(before)
    ensures Collapse(before + s, true) == Collapse(s, true)
  {
    if before == "" {
      assert before + s == s;
    } else {
      assert (before + s)[1..] == before[1..] + s;
      BlanksCollapse(before[1..], s);
    }
  }

  lemma {:induction false} BlanksVanish(s: string)
    requires Blanks(s)
    ensures Collapse(s, true) == ""
  {
    if s != "" { BlanksVanish(s[1..]); }
  }

  lemma {:induction false} CollapseFront(word: string, after: string, inRun: bool)
    requires Single(word) && (inRun && word != "" ==> !IsSpace(word[0])) && word != "" && !IsSpace(word[|word| - 1])
    ensures Collapse(word + after, inRun) == word + Collapse(after, false)
    decreases |word|
  {
    assert (word + after)[1..] == word[1..] + after;
    if |word| == 1 {
      assert word[1..] + after == after && word == [word[0]];
    } else {
      CollapseFront(word[1..], after, IsSpace(word[0]));
      assert word == [word[0]] + word[1..];
    }
  }

  lemma CollapseEnds(word: string, after: string)
    requires Clean(word) && Blanks(after)
    ensures StripRight(Collapse(word + after, true)) == word
  {
    if word == "" {
      assert word + after == after;
      BlanksVanish(after);
    } else {
      CollapseFront(word, after, true);
      var tail := Collapse(after, false);
      if after != "" { BlanksVanish(after[1..]); }
      StripsBlank(word, tail);
    }
  }

  // Truth words and links

  /** The library lower-cases ASCII texts letter by letter. */
  ghost predicate LowersAscii(lib: Library) {
    forall s: string :: P.AllAscii(s) ==> lib.lower(s) == U.LowerAscii(s)
  }

  /** A boolean field is read exactly from the ten words, in any case and between any whitespace. */
  lemma TruthIsRead(lib: Library, before: string, word: string, after: string, base: string)
    requires LowersAscii(lib) && Blanks(before) && Blanks(after) && Clean(word) && P.AllAscii(word)
    ensures var lowered := U.LowerAscii(word);
            Normalize(lib, before + word + after, BooleanType, base) ==
            if lowered == "true" || lowered == "yes" || lowered == "in stock" || lowered == "available"
               || lowered == "1"
            then Some(Bool(true))
            else if lowered == "false" || lowered == "no" || lowered == "out of stock" || lowered == "unavailable"
                    || lowered == "0"
            then Some(Bool(false))
            else None
  {
    TextStrips(before, word, after);
    hide Text, Clean, Blanks;
    if word == "" { assert U.LowerAscii(word) == ""; }
  }

  /** A link field is read exactly when the text, joined with the page, is a web address. */
  lemma LinkIsRead(lib: Library, value: string, base: string)
    ensures var joined := lib.join(base, Spaced(Words(value)));
            Normalize(lib, value, UrlType, base) ==
            if Words(value) != [] && ("http://" <= joined || "https://" <= joined) then Some(Str(joined)) else None
  {
    TextIsWords(value);
    WordsEndSolid(value);
    NothingSpaced();
    hide Text, Words, Spaced;
  }

  /** A string or text field holds the words of the text, with single blanks. */
  lemma StringIsRead(lib: Library, value: string, t: FieldType, base: string)
    requires t == StringType || t == TextType
    ensures Normalize(lib, value, t, base) == if Words(value) != [] then Some(Str(Spaced(Words(value)))) else None
  {
    TextIsWords(value);
    WordsEndSolid(value);
    NothingSpaced();
    hide Text, Words, Spaced;
  }

  // Records

  predicate Falsy(v: Option<Value>) {
    v == None || v == Some(Str("")) || v == Some(Int(0)) || v == Some(Num(0.0)) || v == Some(Bool(false))
  }

  /** The texts with bars between them. */
  function Barred(parts: seq<string>): string {
    if parts == [] then "" else if |parts| == 1 then parts[0] else parts[0] + "|" + Barred(parts[1..])
  }

  /** The raw text of a value: nothing for null, false, zero and empty values. */
  function RawText(lib: Library, j: Json): string {
    if j == JNull || j == JBool(false) || (j.JNumber? && j.zero) || j == JArray([]) || j == JObject([]) then ""
    else Spaced(Words(if j.JString? then j.s else lib.repr(j)))
  }

  /** What a field stores of the raw value that was found for it. */
  predicate Stores(lib: Library, cap: nat, f: PlanField, raw: Json, o: Origin, field: ExtractedField) {
    && field.fieldType == f.fieldType && field.strategy == o.strategy && field.missing == field.value.None?
    && if raw == JNull then field.raw == None && field.value == None && field.evidence == None
       else
         && field.raw == Some(RawText(lib, raw))
         && field.value == Normalize(lib, if raw.JString? then raw.s else lib.repr(raw), f.fieldType, o.pageUrl)
         && field.evidence.Some? && field.evidence.value.location == o.location
         && field.evidence.value.sourceText <= field.raw.value
         && |field.evidence.value.sourceText| == if |field.raw.value| < cap then |field.raw.value| else cap
  }

  lemma FieldStores(lib: Library, cap: nat, f: PlanField, source: seq<Entry>, o: Origin)
    ensures Stores(lib, cap, f, RawValue(lib, f, source), o, BuildField(lib, cap, f, source, o))
  {
    hide RawValue, Normalize, Text, Words;
    var raw := RawValue(lib, f, source);
    if raw.JString? {
      TextIsWords(raw.s);
      if raw.s == "" { NoWords(); }
    } else {
      TextIsWords(lib.repr(raw));
    }
  }

  lemma NoWords()
    ensures Spaced(Words("")) == ""
  {
    NothingSpaced();
  }

  lemma {:induction false} SeedIsBarred(lib: Library, values: seq<Option<Value>>) returns (parts: seq<string>)
    ensures |parts| == |values| && Seed(lib, values) == Barred(parts)
    ensures forall i :: 0 <= i < |parts| ==> parts[i] == if Falsy(values[i]) then "" else lib.show(values[i].value)
  {
    if values == [] {
      parts := [];
    } else {
      var rest := SeedIsBarred(lib, values[1..]);
      parts := [SeedPart(lib, values[0])] + rest;
    }
  }

  /**
   * A record built from a mapping: every plan field stores what was found for it, and no other field is there; the
   * identity hashes page, URL and the values in plan order, where a falsy value counts as empty.
   */
  lemma RecordExactly(
    lib: Library, cap: nat, fields: seq<PlanField>, source: seq<Entry>, o: Origin, r: ExtractedRecord)
    returns (parts: seq<string>)
    requires Built(lib, cap, fields, source, o, r)
    ensures forall name :: name in r.fields <==> exists i :: 0 <= i < |fields| && fields[i].name == name
    ensures forall i :: 0 <= i < |fields| ==>
              Stores(lib, cap, fields[i], RawValue(lib, fields[i], source), o, r.fields[fields[i].name])
    ensures |parts| == |fields| && forall i :: 0 <= i < |fields| ==>
              var value := r.fields[fields[i].name].value;
              parts[i] == if Falsy(value) then "" else lib.show(value.value)
    ensures r.identity == lib.sha256(o.pageId + "|" + o.pageUrl + "|" + Barred(parts))
    ensures r.strategy == o.strategy && r.provenance == Provenance(o.pageUrl, o.pageId, o.planVersion)
  {
    hide BuildField, RawValue, Seed, Barred, Stores, Falsy;
    parts := SeedIsBarred(lib, Values(lib, cap, fields, source, o));
    forall i | 0 <= i < |fields|
      ensures Stores(lib, cap, fields[i], RawValue(lib, fields[i], source), o, r.fields[fields[i].name])
    {
      FieldStores(lib, cap, fields[i], source, o);
    }
  }
}
