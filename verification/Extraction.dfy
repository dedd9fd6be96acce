/** Deterministic extraction (extraction_service.py): text collapsing, normalization and record building. */
module Extractor {
  import opened Wrappers

  datatype FieldType =
    | StringType
    | TextType
    | IntegerType
    | NumberType
    | CurrencyType
    | BooleanType
    | UrlType
    | EmailType
    | DateType
    | DatetimeType

  datatype PlanField = PlanField(
    name: string, labelText: string, fieldType: FieldType, required: bool, aliases: seq<string>)

  datatype Value = Str(s: string) | Int(i: int) | Num(r: real) | Bool(b: bool)

  /** A decoded JSON value; `text` is what the number reads as. */
  datatype Json =
    | JNull
    | JBool(b: bool)
    | JNumber(text: string, zero: bool)
    | JString(s: string)
    | JArray(items: seq<Json>)
    | JObject(entries: seq<Entry>)

  /** One key of an object, in the order of the document. */
  datatype Entry = Entry(key: string, value: Json)

  /** Library functions that the extraction calls; `digit` is the decimal value of a Unicode digit. */
  datatype Library = Library(
    lower: string -> string,
    repr: Json -> string,
    digit: char -> Option<nat>,
    join: (string, string) -> string,
    email: string -> Option<string>,
    date: string -> Option<string>,
    datetime: string -> Option<string>,
    show: Value -> string,
    sha256: string -> string)

  // Collapsing whitespace

  /** The characters that `\s` matches and `strip` removes. */
  predicate IsSpace(c: char) {
    var n := c as int;
    || 9 <= n <= 13 || 28 <= n <= 32 || n == 0x85 || n == 0xA0 || n == 0x1680 || 0x2000 <= n <= 0x200A
    || n == 0x2028 || n == 0x2029 || n == 0x202F || n == 0x205F || n == 0x3000
  }

  /** Every run of whitespace becomes one blank; `inRun` says that the run has begun before `s`. */
  function Collapse(s: string, inRun: bool): string {
    if s == "" then ""
    else if !IsSpace(s[0]) then [s[0]] + Collapse(s[1..], false)
    else if inRun then Collapse(s[1..], true)
    else [' '] + Collapse(s[1..], true)
  }

  function StripLeft(s: string): string {
    if s != "" && IsSpace(s[0]) then StripLeft(s[1..]) else s
  }

  function StripRight(s: string): string {
    if s != "" && IsSpace(s[|s| - 1]) then StripRight(s[..|s| - 1]) else s
  }

  function Text(s: string): string { StripRight(StripLeft(Collapse(s, false))) }

  /** Whitespace occurs as single blanks between other characters only. */
  predicate Clean(s: string) {
    && (forall i :: 0 <= i < |s| && IsSpace(s[i]) ==> s[i] == ' ' && 0 < i < |s| - 1)
    && (forall i :: 0 < i < |s| && IsSpace(s[i]) ==> !IsSpace(s[i - 1]))
  }

  /** The same, except that a blank may begin or end the text. */
  predicate Single(s: string) {
    && (forall i :: 0 <= i < |s| && IsSpace(s[i]) ==> s[i] == ' ')
    && (forall i :: 0 < i < |s| && IsSpace(s[i]) ==> !IsSpace(s[i - 1]))
  }

  lemma {:induction false} CollapseIsSingle(s: string, inRun: bool)
    ensures Single(Collapse(s, inRun))
    ensures inRun && Collapse(s, true) != "" ==> !IsSpace(Collapse(s, true)[0])
  {
    if s != "" { CollapseIsSingle(s[1..], IsSpace(s[0])); }
  }

  lemma {:induction false} StripLeftCleans(s: string)
    requires Single(s)
    ensures Single(StripLeft(s)) && (StripLeft(s) != "" ==> !IsSpace(StripLeft(s)[0]))
  {
    if s != "" && IsSpace(s[0]) { StripLeftCleans(s[1..]); }
  }

  lemma {:induction false} StripRightCleans(s: string)
    requires Single(s) && (s != "" ==> !IsSpace(s[0]))
    ensures Clean(StripRight(s))
  {
    if s != "" && IsSpace(s[|s| - 1]) { StripRightCleans(s[..|s| - 1]); }
  }

  lemma {:induction false} CleanCollapses(s: string, inRun: bool)
    requires Single(s) && (inRun && s != "" ==> !IsSpace(s[0]))
    ensures Collapse(s, inRun) == s
  {
    if s != "" {
      CleanCollapses(s[1..], IsSpace(s[0]));
      assert s == [s[0]] + s[1..];
    }
  }

  /** Collapsing yields clean text, and clean text is what collapsing leaves alone. */
  lemma TextIsClean(s: string)
    ensures Clean(Text(s))
  {
    CollapseIsSingle(s, false);
    StripLeftCleans(Collapse(s, false));
    StripRightCleans(StripLeft(Collapse(s, false)));
  }

  lemma CleanIsFixed(s: string)
    ensures Text(s) == s <==> Clean(s)
  {
    if Clean(s) { CleanCollapses(s, false); } else { TextIsClean(s); }
  }

  /** Whitespace collapsing is idempotent. */
  lemma TextIsIdempotent(s: string)
    ensures Text(Text(s)) == Text(s)
  {
    TextIsClean(s);
    CleanIsFixed(Text(s));
  }

  // Normalization

  function WithoutCommas(s: string): string {
    if s == "" then "" else if s[0] == ',' then WithoutCommas(s[1..]) else [s[0]] + WithoutCommas(s[1..])
  }

  /** The number of leading digits. */
  function DigitRun(lib: Library, s: string): (n: nat)
    ensures n <= |s|
  {
    if s != "" && lib.digit(s[0]).Some? then 1 + DigitRun(lib, s[1..]) else 0
  }

  function DigitsValue(lib: Library, s: string): nat {
    if s == "" then 0
    else
      var n := |s| - 1;
      DigitsValue(lib, s[..n]) * 10 + match lib.digit(s[n]) case Some(d) => d case None => 0
  }

  /** digits / 10^places, with a sign. */
  datatype Decimal = Decimal(negative: bool, digits: nat, places: nat)

  function Pow10(n: nat): (r: nat)
    ensures r >= 1
  {
    if n == 0 then 1 else 10 * Pow10(n - 1)
  }

  /** A match of the number pattern at the beginning of `s`: a sign, digits, and a decimal part. */
  function MatchNumber(lib: Library, s: string): Option<Decimal> {
    var signed := s != "" && (s[0] == '-' || s[0] == '+');
    var body := if signed then s[1..] else s;
    var n := DigitRun(lib, body);
    if n == 0 then None
    else
      var rest := body[n..];
      var m := if rest != "" && (rest[0] == '.' || rest[0] == ',') then DigitRun(lib, rest[1..]) else 0;
      var fraction := if m > 0 then rest[1..m + 1] else "";
      Some(Decimal(signed && s[0] == '-', DigitsValue(lib, body[..n] + fraction), m))
  }

  /** The leftmost match. */
  function SearchNumber(lib: Library, s: string): Option<Decimal> {
    var here := MatchNumber(lib, s);
    if here.Some? then here else if s == "" then None else SearchNumber(lib, s[1..])
  }

  function NumberValue(d: Decimal, integer: bool): Value {
    if integer && d.digits % Pow10(d.places) == 0 then
      var n := d.digits / Pow10(d.places);
      Int(if d.negative then -n else n)
    else
      var x := d.digits as real / Pow10(d.places) as real;
      Num(if d.negative then -x else x)
  }

  predicate StartsWith(s: string, prefix: string) { prefix <= s }

  function Optional(s: Option<string>): Option<Value> { if s.Some? then Some(Str(s.value)) else None }

  /** normalize, after its text has been collapsed. */
  function NormalizeText(lib: Library, text: string, t: FieldType, base: string): Option<Value> {
    if text == "" then None
    else
      match t
      case StringType => Some(Str(text))
      case TextType => Some(Str(text))
      case IntegerType => NumberOf(lib, text, true)
      case NumberType => NumberOf(lib, text, false)
      case CurrencyType => NumberOf(lib, text, false)
      case BooleanType => BooleanOf(lib.lower(text))
      case UrlType => UrlOf(lib.join(base, text))
      case EmailType =>
        (var e := lib.email(text); if e.Some? then Some(Str(lib.lower(e.value))) else None)
      case DateType => Optional(lib.date(text))
      case DatetimeType => Optional(lib.datetime(text))
  }

  function NumberOf(lib: Library, text: string, integer: bool): Option<Value> {
    var d := SearchNumber(lib, WithoutCommas(text));
    if d.Some? then Some(NumberValue(d.value, integer)) else None
  }

  function BooleanOf(lowered: string): Option<Value> {
    if lowered in ["true", "yes", "in stock", "available", "1"] then Some(Bool(true))
    else if lowered in ["false", "no", "out of stock", "unavailable", "0"] then Some(Bool(false))
    else None
  }

  function UrlOf(candidate: string): Option<Value> {
    if StartsWith(candidate, "https://") || StartsWith(candidate, "http://") then Some(Str(candidate)) else None
  }

  function Normalize(lib: Library, value: string, t: FieldType, base: string): Option<Value> {
    NormalizeText(lib, Text(value), t, base)
  }

  /** Normalization factors through collapsing: the stored raw text normalizes to the value of the original. */
  lemma NormalizeFactors(lib: Library, value: string, t: FieldType, base: string)
    ensures Normalize(lib, Text(value), t, base) == Normalize(lib, value, t, base)
  {
    TextIsIdempotent(value);
  }

  // Building a record

  predicate Truthy(j: Json) {
    match j
    case JNull => false
    case JBool(b) => b
    case JNumber(_, zero) => !zero
    case JString(s) => s != ""
    case JArray(items) => items != []
    case JObject(entries) => entries != []
  }

  /** str(j). */
  function Show(lib: Library, j: Json): string { if j.JString? then j.s else lib.repr(j) }

  /** _text(j): a falsy value has no text. */
  function TextOf(lib: Library, j: Json): string { if Truthy(j) then Text(Show(lib, j)) else "" }

  function Get(entries: seq<Entry>, key: string): Json {
    if entries == [] then JNull else if entries[0].key == key then entries[0].value else Get(entries[1..], key)
  }

  predicate HasEntry(entries: seq<Entry>, key: string) {
    exists i :: 0 <= i < |entries| && entries[i].key == key
  }

  predicate Contains(s: string, part: string) {
    part <= s || (s != "" && Contains(s[1..], part))
  }

  function WithoutAt(s: string): string {
    if s == "" then "" else if s[0] == '@' then WithoutAt(s[1..]) else [s[0]] + WithoutAt(s[1..])
  }

  function Aliases(lib: Library, f: PlanField): set<string> {
    set a | a in [f.name, f.labelText] + f.aliases && a != "" :: lib.lower(a)
  }

  predicate Names(lib: Library, aliases: set<string>, key: string) {
    var normalized := WithoutAt(lib.lower(key));
    exists alias <- aliases :: Contains(normalized, alias)
  }

  /** The value of a matching entry: the first of four usual keys of an object, or the value itself. */
  function Unwrap(j: Json): Json {
    if !j.JObject? then j
    else if HasEntry(j.entries, "price") then Get(j.entries, "price")
    else if HasEntry(j.entries, "value") then Get(j.entries, "value")
    else if HasEntry(j.entries, "name") then Get(j.entries, "name")
    else if HasEntry(j.entries, "url") then Get(j.entries, "url")
    else j
  }

  /** _lookup; `JNull` is None. */
  function Lookup(lib: Library, aliases: set<string>, source: seq<Entry>): Json
    decreases source
  {
    if source == [] then JNull
    else
      var value := source[0].value;
      if Names(lib, aliases, source[0].key) then Unwrap(value)
      else
        var nested := if value.JObject? then Lookup(lib, aliases, value.entries)
                      else if value.JArray? then LookupItems(lib, aliases, value.items)
                      else JNull;
        if nested != JNull then nested else Lookup(lib, aliases, source[1..])
  }

  function LookupItems(lib: Library, aliases: set<string>, items: seq<Json>): Json
    decreases items
  {
    if items == [] then JNull
    else
      var nested := if items[0].JObject? then Lookup(lib, aliases, items[0].entries) else JNull;
      if nested != JNull then nested else LookupItems(lib, aliases, items[1..])
  }

  /** The raw value of a field, with the fallbacks of text and url fields. */
  function RawValue(lib: Library, f: PlanField, source: seq<Entry>): Json {
    var found := Lookup(lib, Aliases(lib, f), source);
    if found != JNull then found
    else if (f.fieldType == StringType || f.fieldType == TextType) && Truthy(Get(source, "text")) then
      JString(Show(lib, Get(source, "text")))
    else if f.fieldType == UrlType && Truthy(Get(source, "url")) then JString(Show(lib, Get(source, "url")))
    else JNull
  }

  datatype Evidence = Evidence(sourceText: string, location: string)

  datatype ExtractedField = ExtractedField(
    raw: Option<string>, value: Option<Value>, fieldType: FieldType, strategy: string, missing: bool,
    evidence: Option<Evidence>)

  datatype Provenance = Provenance(canonicalUrl: string, pageId: string, planVersion: nat)

  datatype ExtractedRecord = ExtractedRecord(
    identity: string, strategy: string, fields: map<string, ExtractedField>, provenance: Provenance)

  /** Where a record comes from. */
  datatype Origin = Origin(pageUrl: string, pageId: string, planVersion: nat, strategy: string, location: string)

  function BuildField(lib: Library, cap: nat, f: PlanField, source: seq<Entry>, o: Origin): ExtractedField {
    var raw := RawValue(lib, f, source);
    if raw == JNull then ExtractedField(None, None, f.fieldType, o.strategy, true, None)
    else
      var value := Normalize(lib, Show(lib, raw), f.fieldType, o.pageUrl);
      var text := TextOf(lib, raw);
      ExtractedField(
        Some(text), value, f.fieldType, o.strategy, value.None?, Some(Evidence(text[..Min(cap, |text|)], o.location)))
  }

  /** Python's truth of a value. */
  predicate TruthyValue(v: Value) {
    match v
    case Str(s) => s != ""
    case Int(i) => i != 0
    case Num(r) => r != 0.0
    case Bool(b) => b
  }

  function SeedPart(lib: Library, value: Option<Value>): string {
    if value.Some? && TruthyValue(value.value) then lib.show(value.value) else ""
  }

  function Seed(lib: Library, values: seq<Option<Value>>): string {
    if values == [] then ""
    else if |values| == 1 then SeedPart(lib, values[0])
    else SeedPart(lib, values[0]) + "|" + Seed(lib, values[1..])
  }

  function Identity(lib: Library, o: Origin, values: seq<Option<Value>>): string {
    lib.sha256(o.pageId + "|" + o.pageUrl + "|" + Seed(lib, values))
  }

  predicate DistinctNames(fields: seq<PlanField>) {
    forall i, j :: 0 <= i < j < |fields| ==> fields[i].name != fields[j].name
  }

  function Values(lib: Library, cap: nat, fields: seq<PlanField>, source: seq<Entry>, o: Origin):
    seq<Option<Value>>
  {
    seq(|fields|, i requires 0 <= i < |fields| => BuildField(lib, cap, fields[i], source, o).value)
  }

  /** What a record built from `source` satisfies: one field per plan field, and the identity of its values. */
  ghost predicate Built(
    lib: Library, cap: nat, fields: seq<PlanField>, source: seq<Entry>, o: Origin, r: ExtractedRecord)
  {
    && (forall i :: 0 <= i < |fields| ==>
          fields[i].name in r.fields && r.fields[fields[i].name] == BuildField(lib, cap, fields[i], source, o))
    && (forall name <- r.fields :: exists i :: 0 <= i < |fields| && fields[i].name == name)
    && r.identity == Identity(lib, o, Values(lib, cap, fields, source, o))
    && r.strategy == o.strategy
    && r.provenance == Provenance(o.pageUrl, o.pageId, o.planVersion)
  }

  class ExtractionService {
    const lib: Library
    const maxEvidenceChars: nat

    constructor (lib: Library, maxEvidenceChars: nat)
      ensures this.lib == lib && this.maxEvidenceChars == maxEvidenceChars
    {
      this.lib, this.maxEvidenceChars := lib, maxEvidenceChars;
    }

    /** The loop of _record_from_mapping; a plan's field names are distinct. */
    method RecordFromMapping(fields: seq<PlanField>, source: seq<Entry>, o: Origin)
      returns (r: ExtractedRecord)
      requires DistinctNames(fields)
      ensures Built(lib, maxEvidenceChars, fields, source, o, r)
    {
      hide BuildField, Seed;
      var built: map<string, ExtractedField> := map[];
      var values: seq<Option<Value>> := [];
      for i := 0 to |fields|
        invariant forall k :: 0 <= k < i ==>
          fields[k].name in built && built[fields[k].name] == BuildField(lib, maxEvidenceChars, fields[k], source, o)
        invariant forall name <- built :: exists k :: 0 <= k < i && fields[k].name == name
      {
        var f := fields[i];
        built := built[f.name := BuildField(lib, maxEvidenceChars, f, source, o)];
        assert forall k :: 0 <= k < i ==> fields[k].name != f.name;
      }
      for i := 0 to |fields|
        invariant values == Values(lib, maxEvidenceChars, fields, source, o)[..i]
      {
        values := values + [built[fields[i].name].value];
      }
      assert values == Values(lib, maxEvidenceChars, fields, source, o);
      r := ExtractedRecord(
        Identity(lib, o, values), o.strategy, built, Provenance(o.pageUrl, o.pageId, o.planVersion));
    }
  }
}
