/** What the validator's answer means, spelled out on the stored values (validation_service.py). */
module Verdicts {
  import opened Wrappers
  import opened CodePoints
  import opened Extractor
  import opened Validator

  // One field

  ghost predicate OnlySpaces(s: string) { forall i :: 0 <= i < |s| ==> IsSpace(s[i]) }

  /** No value, or a text of whitespace only. */
  ghost predicate IsMissing(value: Option<Value>) {
    value.None? || (value.value.Str? && OnlySpaces(value.value.s))
  }

  /** The value has not the type that the plan declares. */
  predicate WrongType(t: FieldType, v: Value) {
    if t == IntegerType then !v.Int?
    else if t == NumberType || t == CurrencyType then !v.Int? && !v.Num?
    else if t == BooleanType then !v.Bool?
    else !v.Str?
  }

  /** The text of the value has not the format of its type; numbers and booleans have none. */
  ghost predicate WrongFormat(r: Rules, t: FieldType, v: Value) {
    var text := if v.Str? then v.s else r.lib.show(v);
    || (t == UrlType && !r.checks.isUrl(text))
    || (t == EmailType && !r.checks.isEmail(text))
    || (t == DateType && !r.checks.isDate(text))
    || (t == DatetimeType && !r.checks.isDatetime(text))
    || ((t == StringType || t == TextType) && OnlySpaces(text))
  }

  /** The numbers and booleans, as numbers: 1, 1.0 and true are the same. */
  function AsReal(v: Value): real
    requires !v.Str?
  {
    if v.Int? then v.i as real else if v.Num? then v.r else if v.b then 1.0 else 0.0
  }

  /** The value is not what its raw text normalizes to: another text, or another number. */
  predicate Diverges(r: Rules, f: PlanField, c: Candidate, base: string)
    requires c.value.Some?
  {
    c.raw.Some? &&
    var expected := Normalize(r.lib, c.raw.value, f.fieldType, base);
    || expected.None?
    || expected.value.Str? != c.value.value.Str?
    || (expected.value.Str? && expected.value.s != c.value.value.s)
    || (!expected.value.Str? && AsReal(expected.value) != AsReal(c.value.value))
  }

  /** There is evidence, and it is not a text of at most 500 characters with a location. */
  predicate BadEvidence(e: StoredEvidence) {
    match e
    case NoEvidence => false
    case MalformedEvidence => true
    case StoredEvidence(text, location) =>
      text.None? || |text.value| > 500 || location.None? || location.value == ""
  }

  ghost predicate FieldFails(r: Rules, f: PlanField, c: Candidate, base: string) {
    if IsMissing(c.value) then f.required
    else
      || WrongType(f.fieldType, c.value.value)
      || WrongFormat(r, f.fieldType, c.value.value)
      || Diverges(r, f, c, base)
      || BadEvidence(c.evidence)
  }

  /** An optional value is missing, or a value has no evidence. */
  ghost predicate FieldWarns(f: PlanField, c: Candidate) {
    if IsMissing(c.value) then !f.required else c.evidence.NoEvidence?
  }

  ghost function FieldVerdict(r: Rules, f: PlanField, c: Candidate, base: string): Status {
    if FieldFails(r, f, c, base) then Fail else if FieldWarns(f, c) then Warn else Pass
  }

  lemma {:induction false} StripLeftBlank(s: string)
    ensures StripLeft(s) == "" <==> OnlySpaces(s)
    ensures StripLeft(s) != "" ==> !IsSpace(StripLeft(s)[0])
  {
    hide IsSpace;
    if s != "" && IsSpace(s[0]) {
      StripLeftBlank(s[1..]);
      assert forall i :: 1 <= i < |s| ==> s[i] == s[1..][i - 1];
    }
  }

  lemma {:induction false} StripRightKeeps(s: string)
    requires s != "" && !IsSpace(s[0])
    ensures StripRight(s) != ""
  {
    hide IsSpace;
    if IsSpace(s[|s| - 1]) { StripRightKeeps(s[..|s| - 1]); }
  }

  lemma BlankIsSpaces(s: string)
    ensures Blank(s) <==> OnlySpaces(s)
  {
    hide IsSpace, OnlySpaces;
    StripLeftBlank(s);
    if StripLeft(s) != "" { StripRightKeeps(StripLeft(s)); }
  }

  lemma MissingIs(value: Option<Value>)
    ensures Missing(value) <==> IsMissing(value)
  {
    hide Blank, OnlySpaces;
    if value.Some? && value.value.Str? { BlankIsSpaces(value.value.s); }
  }

  /** The status of one outcome is in the list. */
  lemma HasAt(outcomes: seq<RuleOutcome>, k: nat)
    requires k < |outcomes|
    ensures HasStatus(outcomes, outcomes[k].status)
  {
  }

  lemma FormatIs(r: Rules, t: FieldType, v: Value)
    ensures FormatStatus(r, t, v) == Fail <==> WrongFormat(r, t, v)
    ensures FormatStatus(r, t, v) in {Fail, Pass, Skipped}
  {
    hide Blank, OnlySpaces;
    var text := if v.Str? then v.s else r.lib.show(v);
    assert text == ValueText(r.lib, v);
    BlankIsSpaces(text);
  }

  /** The outcomes of a value that is there. */
  lemma PresentVerdict(r: Rules, f: PlanField, c: Candidate, base: string)
    requires !IsMissing(c.value)
    ensures StatusOf(FieldRules(r, f, c, base)) == FieldVerdict(r, f, c, base)
  {
    hide Normalize, FormatStatus, WrongFormat, Blank, IsMissing, HasStatus;
    MissingIs(c.value);
    var v := c.value.value;
    FormatIs(r, f.fieldType, v);
    var outcomes := FieldRules(r, f, c, base);
    var tail := |outcomes| - 1;
    assert outcomes[1] == RuleOutcome(TypeRule, Check(RightType(f.fieldType, v)));
    assert outcomes[2] == RuleOutcome(FormatRule, FormatStatus(r, f.fieldType, v));
    assert outcomes[tail] == RuleOutcome(EvidenceRule, EvidenceStatus(c.evidence));
    assert c.raw.Some? ==> outcomes[3].status == if Diverges(r, f, c, base) then Fail else Pass;
    assert tail == if c.raw.Some? then 4 else 3;
    Statuses(outcomes);
  }

  /** Which statuses a short list has, one position after the other. */
  lemma Statuses(outcomes: seq<RuleOutcome>)
    requires 4 <= |outcomes| <= 5
    ensures forall s :: HasStatus(outcomes, s) <==>
              || outcomes[0].status == s || outcomes[1].status == s || outcomes[2].status == s
              || outcomes[3].status == s || (|outcomes| == 5 && outcomes[4].status == s)
  {
    forall k | 0 <= k < |outcomes|
      ensures HasStatus(outcomes, outcomes[k].status)
    {
      HasAt(outcomes, k);
    }
  }

  lemma MissingVerdict(r: Rules, f: PlanField, c: Candidate, base: string)
    requires IsMissing(c.value)
    ensures StatusOf(FieldRules(r, f, c, base)) == FieldVerdict(r, f, c, base)
  {
    hide Blank;
    MissingIs(c.value);
    var outcomes := FieldRules(r, f, c, base);
    HasAt(outcomes, |outcomes| - 1);
  }

  lemma FieldVerdictIs(r: Rules, f: PlanField, c: Candidate, base: string)
    ensures StatusOf(FieldRules(r, f, c, base)) == FieldVerdict(r, f, c, base)
  {
    hide FieldRules, StatusOf, FieldVerdict, IsMissing;
    if IsMissing(c.value) { MissingVerdict(r, f, c, base); } else { PresentVerdict(r, f, c, base); }
  }

  /**
   * The status of a field in a validated record: a missing value fails exactly when it is required and warns otherwise;
   * a present one fails exactly by its type, its format, its raw text or its evidence, and warns without evidence.
   */
  lemma FieldStatusExactly(r: Rules, p: Payload, v: RecordValidation, i: nat)
    requires Validated(r, p, v) && i < |r.fields|
    ensures var f := r.fields[i];
            && f.name in v.fields
            && v.fields[f.name].status == FieldVerdict(r, f, CandidateOf(p, f.name), p.canonicalUrl)
  {
    hide FieldRules, StatusOf, FieldVerdict, FieldOutcomes, RecordRules, CandidateOf;
    var f := r.fields[i];
    assert FieldResult(r, p, f, v.fields);
    FieldVerdictIs(r, f, CandidateOf(p, f.name), p.canonicalUrl);
  }

  // The record

  /** Both values are there, both strings or both not, and the first is the greater one. */
  predicate Exceeds(p: Payload, low: string, high: string) {
    && low in p.fields && high in p.fields && p.fields[low].value.Some? && p.fields[high].value.Some?
    && var a, b := p.fields[low].value.value, p.fields[high].value.value;
       a.Str? == b.Str? && if a.Str? then Less(b.s, a.s) else AsReal(a) > AsReal(b)
  }

  predicate WrongOrder(p: Payload) {
    || Exceeds(p, "start_date", "end_date")
    || Exceeds(p, "min_price", "max_price")
    || Exceeds(p, "discounted_price", "original_price")
  }

  /** The record was not extracted under this plan version, or from no page. */
  predicate ForeignProvenance(r: Rules, p: Payload) {
    p.planVersion.None? || p.planVersion.value != r.checks.versionText(r.planVersion) || p.pageId == ""
  }

  ghost predicate RecordFails(r: Rules, p: Payload) {
    || (exists i :: 0 <= i < |r.fields| && FieldFails(r, r.fields[i], CandidateOf(p, r.fields[i].name), p.canonicalUrl))
    || ForeignProvenance(r, p)
    || WrongOrder(p)
  }

  ghost predicate RecordWarns(r: Rules, p: Payload) {
    exists i :: 0 <= i < |r.fields| && FieldWarns(r.fields[i], CandidateOf(p, r.fields[i].name))
  }

  lemma {:induction false} FieldsHave(r: Rules, p: Payload, fields: seq<PlanField>, s: Status)
    ensures HasStatus(FieldOutcomes(r, p, fields), s) <==>
            exists i :: 0 <= i < |fields|
              && HasStatus(FieldRules(r, fields[i], CandidateOf(p, fields[i].name), p.canonicalUrl), s)
  {
    hide FieldRules, CandidateOf;
    if fields != [] {
      hide HasStatus;
      var n := |fields| - 1;
      FieldsHave(r, p, fields[..n], s);
      HasStatusConcat(
        FieldOutcomes(r, p, fields[..n]), FieldRules(r, fields[n], CandidateOf(p, fields[n].name), p.canonicalUrl), s);
    }
  }

  lemma PairHas(r: Rules, p: Payload, low: string, high: string)
    requires PairRules(r, p, low, high).Some?
    ensures PairRules(r, p, low, high).value ==
            if Exceeds(p, low, high) then [RuleOutcome(CrossField(low, high), Fail)] else []
  {
    hide Less;
  }

  lemma PairsSnoc(r: Rules, p: Payload, pairs: seq<(string, string)>, low: string, high: string)
    ensures var last := PairRules(r, p, low, high);
            PairsRules(r, p, pairs + [(low, high)]) ==
            if PairsRules(r, p, pairs).None? || last.None? then None
            else Some(PairsRules(r, p, pairs).value + last.value)
  {
    hide PairRules;
    assert (pairs + [(low, high)])[..|pairs|] == pairs;
  }

  lemma ThreePairs(r: Rules, p: Payload)
    requires RecordRules(r, p).Some?
    ensures PairRules(r, p, "start_date", "end_date").Some? && PairRules(r, p, "min_price", "max_price").Some?
    ensures PairRules(r, p, "discounted_price", "original_price").Some?
    ensures RecordRules(r, p).value ==
            [RuleOutcome(ProvenanceRule, ProvenanceStatus(r, p))]
            + (PairRules(r, p, "start_date", "end_date").value
               + PairRules(r, p, "min_price", "max_price").value
               + PairRules(r, p, "discounted_price", "original_price").value)
  {
    hide PairRules, ProvenanceStatus, PairsRules;
    var one := [] + [("start_date", "end_date")];
    var two := one + [("min_price", "max_price")];
    assert PAIRS == two + [("discounted_price", "original_price")];
    PairsSnoc(r, p, [], "start_date", "end_date");
    PairsSnoc(r, p, one, "min_price", "max_price");
    PairsSnoc(r, p, two, "discounted_price", "original_price");
    assert PairsRules(r, p, []) == Some([]) by { NoPairs(r, p); }
    assert [] + PairRules(r, p, "start_date", "end_date").value == PairRules(r, p, "start_date", "end_date").value;
  }

  lemma NoPairs(r: Rules, p: Payload)
    ensures PairsRules(r, p, []) == Some([])
  {
  }

  /** The record rules fail exactly by the provenance or by a pair, and pass otherwise. */
  lemma RecordRulesHave(r: Rules, p: Payload)
    requires RecordRules(r, p).Some?
    ensures var rules := RecordRules(r, p).value;
            && (HasStatus(rules, Fail) <==> ForeignProvenance(r, p) || WrongOrder(p))
            && (!HasStatus(rules, Fail) ==> HasStatus(rules, Pass))
            && !HasStatus(rules, Warn) && !HasStatus(rules, Unresolved)
  {
    hide Exceeds, PairRules, RecordRules, HasStatus;
    ThreePairs(r, p);
    PairHas(r, p, "start_date", "end_date");
    PairHas(r, p, "min_price", "max_price");
    PairHas(r, p, "discounted_price", "original_price");
    var first := [RuleOutcome(ProvenanceRule, ProvenanceStatus(r, p))];
    var a := PairRules(r, p, "start_date", "end_date").value;
    var b := PairRules(r, p, "min_price", "max_price").value;
    var c := PairRules(r, p, "discounted_price", "original_price").value;
    forall s
      ensures HasStatus(first + (a + b + c), s) <==>
              s == ProvenanceStatus(r, p) || (s == Fail && WrongOrder(p))
    {
      HasStatusConcat(first, a + b + c, s);
      HasStatusConcat(a + b, c, s);
      HasStatusConcat(a, b, s);
      OneOrNone(first, s);
      OneOrNone(a, s);
      OneOrNone(b, s);
      OneOrNone(c, s);
    }
  }

  lemma OneOrNone(outcomes: seq<RuleOutcome>, s: Status)
    requires |outcomes| <= 1
    ensures HasStatus(outcomes, s) <==> outcomes != [] && outcomes[0].status == s
  {
  }

  /** What a field adds to the record. */
  lemma FieldHas(r: Rules, f: PlanField, c: Candidate, base: string)
    ensures var rules := FieldRules(r, f, c, base);
            && (HasStatus(rules, Fail) <==> FieldFails(r, f, c, base))
            && (!FieldFails(r, f, c, base) ==>
                  (HasStatus(rules, Warn) <==> FieldWarns(f, c)) && !HasStatus(rules, Unresolved))
  {
    hide FieldRules, FieldFails, FieldWarns, HasStatus;
    FieldVerdictIs(r, f, c, base);
  }

  /** What all fields together add. */
  lemma AllFieldsHave(r: Rules, p: Payload)
    ensures var rules := FieldOutcomes(r, p, r.fields);
            var fails := exists i :: 0 <= i < |r.fields|
                           && FieldFails(r, r.fields[i], CandidateOf(p, r.fields[i].name), p.canonicalUrl);
            && (HasStatus(rules, Fail) <==> fails)
            && (!fails ==> (HasStatus(rules, Warn) <==> RecordWarns(r, p)) && !HasStatus(rules, Unresolved))
  {
    hide FieldRules, FieldFails, FieldWarns, HasStatus, FieldOutcomes, CandidateOf;
    FieldsHave(r, p, r.fields, Fail);
    FieldsHave(r, p, r.fields, Warn);
    FieldsHave(r, p, r.fields, Unresolved);
    forall i | 0 <= i < |r.fields|
      ensures var f := r.fields[i];
              var c := CandidateOf(p, f.name);
              && (HasStatus(FieldRules(r, f, c, p.canonicalUrl), Fail) <==> FieldFails(r, f, c, p.canonicalUrl))
              && (!FieldFails(r, f, c, p.canonicalUrl) ==>
                    (HasStatus(FieldRules(r, f, c, p.canonicalUrl), Warn) <==> FieldWarns(f, c))
                    && !HasStatus(FieldRules(r, f, c, p.canonicalUrl), Unresolved))
    {
      FieldHas(r, r.fields[i], CandidateOf(p, r.fields[i].name), p.canonicalUrl);
    }
  }

  /**
   * The status of a validated record: FAIL exactly when a required value is missing, a present one fails its type,
   * format, normalization or evidence rule, the provenance is foreign or a compared pair is in the wrong order; WARN
   * exactly when nothing fails and an optional value is missing or evidence is absent; PASS otherwise.
   */
  lemma VerdictExactly(r: Rules, p: Payload, v: RecordValidation)
    requires Validated(r, p, v)
    ensures v.status == if RecordFails(r, p) then Fail else if RecordWarns(r, p) then Warn else Pass
    ensures v.quality == if RecordFails(r, p) then Invalid else if RecordWarns(r, p) then Medium else High
  {
    hide FieldRules, CandidateOf, FieldOutcomes, RecordRules, ForeignProvenance, WrongOrder, FieldFails, FieldWarns;
    hide Summarize, HasStatus, FieldResults;
    var record := RecordRules(r, p).value;
    RecordRulesHave(r, p);
    assert Outcomes(r, p) == Some(FieldOutcomes(r, p, r.fields) + record);
    forall s
      ensures HasStatus(FieldOutcomes(r, p, r.fields) + record, s) <==>
              HasStatus(FieldOutcomes(r, p, r.fields), s) || HasStatus(record, s)
    {
      HasStatusConcat(FieldOutcomes(r, p, r.fields), record, s);
    }
    AllFieldsHave(r, p);
  }

  // The summary

  ghost function At(outcomes: seq<RuleOutcome>, s: Status): set<int> {
    set k | 0 <= k < |outcomes| && outcomes[k].status == s
  }

  /** The counters of a summary are the numbers of outcomes with each status. */
  lemma {:induction false} CountsAt(outcomes: seq<RuleOutcome>, s: Status)
    ensures CountStatus(outcomes, s) == |At(outcomes, s)|
  {
    if outcomes == [] {
      assert At(outcomes, s) == {};
    } else {
      var n := |outcomes| - 1;
      CountsAt(outcomes[..n], s);
      AtLast(outcomes[..n], outcomes[n], s);
      assert outcomes == outcomes[..n] + [outcomes[n]];
    }
  }

  lemma AtLast(outcomes: seq<RuleOutcome>, last: RuleOutcome, s: Status)
    ensures |At(outcomes + [last], s)| == |At(outcomes, s)| + if last.status == s then 1 else 0
  {
    var all := outcomes + [last];
    assert forall k :: 0 <= k < |outcomes| ==> all[k] == outcomes[k];
    assert At(all, s) == At(outcomes, s) + if last.status == s then {|outcomes|} else {};
  }

  lemma SummaryExactly(r: Rules, p: Payload, v: RecordValidation)
    requires Validated(r, p, v)
    ensures var all := Outcomes(r, p).value;
            && v.summary.passed == |At(all, Pass)| && v.summary.failed == |At(all, Fail)|
            && v.summary.warnings == |At(all, Warn)| && v.summary.unresolved == |At(all, Unresolved)|
  {
    hide Outcomes, StatusOf, QualityOf, FieldResults, RecordRules;
    CountsAt(Outcomes(r, p).value, Pass);
    CountsAt(Outcomes(r, p).value, Fail);
    CountsAt(Outcomes(r, p).value, Warn);
    CountsAt(Outcomes(r, p).value, Unresolved);
  }
}
