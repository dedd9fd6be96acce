/** Validation of stored records (validation_service.py), and its agreement with the extractor. */
module Validator {
  import opened Wrappers
  import opened CodePoints
  import opened Extractor

  datatype Status = Skipped | Pass | Warn | Unresolved | Fail

  datatype Rule =
    | Required
    | OptionalMissing
    | TypeRule
    | FormatRule
    | NormalizationRule
    | EvidenceRule
    | ProvenanceRule
    | CrossField(low: string, high: string)

  datatype RuleOutcome = RuleOutcome(rule: Rule, status: Status)

  /** The stored evidence of a field: absent, an object whose members may have any type, or something else. */
  datatype StoredEvidence =
    | NoEvidence
    | StoredEvidence(sourceText: Option<string>, location: Option<string>)
    | MalformedEvidence

  datatype Candidate = Candidate(raw: Option<string>, value: Option<Value>, evidence: StoredEvidence)

  const NO_CANDIDATE := Candidate(None, None, NoEvidence)

  /** A stored record; `None` in the provenance is a missing key. */
  datatype Payload = Payload(
    fields: map<string, Candidate>, canonicalUrl: string, pageId: string, planVersion: Option<string>)

  /** Library checks that the format rules call, and the text of a plan version. */
  datatype Checks = Checks(
    isUrl: string -> bool,
    isEmail: string -> bool,
    isDate: string -> bool,
    isDatetime: string -> bool,
    versionText: nat -> string)

  datatype Rules = Rules(lib: Library, checks: Checks, planVersion: nat, fields: seq<PlanField>)

  datatype FieldValidation = FieldValidation(status: Status, rules: seq<RuleOutcome>)

  datatype Quality = High | Medium | Low | Invalid | UnresolvedQuality

  datatype Summary = Summary(passed: nat, failed: nat, warnings: nat, unresolved: nat)

  datatype RecordValidation = RecordValidation(
    status: Status, quality: Quality, fields: map<string, FieldValidation>, recordRules: seq<RuleOutcome>,
    summary: Summary)

  // The status of a list of outcomes

  predicate HasStatus(outcomes: seq<RuleOutcome>, s: Status) {
    exists i :: 0 <= i < |outcomes| && outcomes[i].status == s
  }

  function StatusOf(outcomes: seq<RuleOutcome>): Status {
    if HasStatus(outcomes, Fail) then Fail
    else if HasStatus(outcomes, Unresolved) then Unresolved
    else if HasStatus(outcomes, Warn) then Warn
    else if HasStatus(outcomes, Pass) then Pass
    else Skipped
  }

  /** Severity: SKIPPED < PASS < WARN < UNRESOLVED < FAIL. */
  function Severity(s: Status): nat {
    match s
    case Skipped => 0
    case Pass => 1
    case Warn => 2
    case Unresolved => 3
    case Fail => 4
  }

  function Join(a: Status, b: Status): Status { if Severity(a) < Severity(b) then b else a }

  lemma HasStatusConcat(a: seq<RuleOutcome>, b: seq<RuleOutcome>, s: Status)
    ensures HasStatus(a + b, s) <==> HasStatus(a, s) || HasStatus(b, s)
  {
    if HasStatus(a, s) {
      var i :| 0 <= i < |a| && a[i].status == s;
      assert (a + b)[i].status == s;
    } else if HasStatus(b, s) {
      var i :| 0 <= i < |b| && b[i].status == s;
      assert (a + b)[|a| + i].status == s;
    }
  }

  /** The status of a concatenation is the join of the statuses. */
  lemma StatusIsHomomorphism(a: seq<RuleOutcome>, b: seq<RuleOutcome>)
    ensures StatusOf(a + b) == Join(StatusOf(a), StatusOf(b))
  {
    forall s
      ensures HasStatus(a + b, s) <==> HasStatus(a, s) || HasStatus(b, s)
    {
      HasStatusConcat(a, b, s);
    }
  }

  function QualityOf(outcomes: seq<RuleOutcome>): Quality {
    if HasStatus(outcomes, Fail) then Invalid
    else if HasStatus(outcomes, Unresolved) then UnresolvedQuality
    else if HasStatus(outcomes, Warn) then Medium
    else High
  }

  /** The quality that goes with a status. */
  function QualityOfStatus(s: Status): Quality {
    match s
    case Fail => Invalid
    case Unresolved => UnresolvedQuality
    case Warn => Medium
    case Pass => High
    case Skipped => High
  }

  function CountStatus(outcomes: seq<RuleOutcome>, s: Status): nat {
    if outcomes == [] then 0
    else
      var n := |outcomes| - 1;
      CountStatus(outcomes[..n], s) + if outcomes[n].status == s then 1 else 0
  }

  function Summarize(outcomes: seq<RuleOutcome>): Summary {
    Summary(
      CountStatus(outcomes, Pass), CountStatus(outcomes, Fail), CountStatus(outcomes, Warn),
      CountStatus(outcomes, Unresolved))
  }

  // The rules of one field

  predicate Blank(s: string) { StripRight(StripLeft(s)) == "" }

  predicate Missing(value: Option<Value>) { value.None? || (value.value.Str? && Blank(value.value.s)) }

  predicate RightType(t: FieldType, v: Value) {
    match t
    case StringType => v.Str?
    case TextType => v.Str?
    case IntegerType => v.Int?
    case NumberType => v.Int? || v.Num?
    case CurrencyType => v.Int? || v.Num?
    case BooleanType => v.Bool?
    case UrlType => v.Str?
    case EmailType => v.Str?
    case DateType => v.Str?
    case DatetimeType => v.Str?
  }

  function Check(ok: bool): Status { if ok then Pass else Fail }

  /** str(value). */
  function ValueText(lib: Library, v: Value): string { if v.Str? then v.s else lib.show(v) }

  function FormatStatus(r: Rules, t: FieldType, v: Value): Status {
    var text := ValueText(r.lib, v);
    match t
    case UrlType => Check(r.checks.isUrl(text))
    case EmailType => Check(r.checks.isEmail(text))
    case DateType => Check(r.checks.isDate(text))
    case DatetimeType => Check(r.checks.isDatetime(text))
    case StringType => Check(!Blank(text))
    case TextType => Check(!Blank(text))
    case _ => Skipped
  }

  function EvidenceStatus(e: StoredEvidence): Status {
    match e
    case NoEvidence => Warn
    case MalformedEvidence => Fail
    case StoredEvidence(text, location) =>
      Check(text.Some? && |text.value| <= 500 && location.Some? && location.value != "")
  }

  /** Numbers compare by value, and booleans are the numbers 0 and 1. */
  function Number(v: Value): real
    requires !v.Str?
  {
    match v
    case Int(i) => i as real
    case Num(r) => r
    case Bool(b) => if b then 1.0 else 0.0
  }

  /** `a == b` in Python: numbers and booleans are compared as numbers. */
  predicate SameValue(a: Value, b: Value) {
    a.Str? == b.Str? && if a.Str? then a == b else Number(a) == Number(b)
  }

  /** The raw text normalizes to the stored value. */
  predicate Renormalizes(r: Rules, f: PlanField, raw: string, v: Value, base: string) {
    var expected := Normalize(r.lib, raw, f.fieldType, base);
    expected.Some? && SameValue(expected.value, v)
  }

  function PresentRules(r: Rules, f: PlanField, c: Candidate, v: Value, base: string): seq<RuleOutcome> {
    [RuleOutcome(TypeRule, Check(RightType(f.fieldType, v))), RuleOutcome(FormatRule, FormatStatus(r, f.fieldType, v))]
    + (if c.raw.Some? then
         [RuleOutcome(NormalizationRule, Check(Renormalizes(r, f, c.raw.value, v, base)))]
       else [])
    + [RuleOutcome(EvidenceRule, EvidenceStatus(c.evidence))]
  }

  function FieldRules(r: Rules, f: PlanField, c: Candidate, base: string): seq<RuleOutcome> {
    if Missing(c.value) then
      [RuleOutcome(Required, Check(!f.required))]
      + if f.required then [] else [RuleOutcome(OptionalMissing, Warn)]
    else
      [RuleOutcome(Required, Pass)] + PresentRules(r, f, c, c.value.value, base)
  }

  function CandidateOf(p: Payload, name: string): Candidate {
    if name in p.fields then p.fields[name] else NO_CANDIDATE
  }

  // The rules of the record

  /** `left > right`; `None` is the TypeError of values that do not compare. */
  function Greater(left: Value, right: Value): Option<bool> {
    if left.Str? && right.Str? then Some(Less(right.s, left.s))
    else if !left.Str? && !right.Str? then Some(Number(left) > Number(right))
    else None
  }

  const PAIRS: seq<(string, string)> := [
    ("start_date", "end_date"), ("min_price", "max_price"), ("discounted_price", "original_price")]

  function PairRules(r: Rules, p: Payload, low: string, high: string): Option<seq<RuleOutcome>> {
    if low in p.fields && high in p.fields && p.fields[low].value.Some? && p.fields[high].value.Some? then
      var greater :- Greater(p.fields[low].value.value, p.fields[high].value.value);
      Some(if greater then [RuleOutcome(CrossField(low, high), Fail)] else [])
    else Some([])
  }

  function PairsRules(r: Rules, p: Payload, pairs: seq<(string, string)>): Option<seq<RuleOutcome>> {
    if pairs == [] then Some([])
    else
      var n := |pairs| - 1;
      var earlier :- PairsRules(r, p, pairs[..n]);
      var last :- PairRules(r, p, pairs[n].0, pairs[n].1);
      Some(earlier + last)
  }

  function ProvenanceStatus(r: Rules, p: Payload): Status {
    Check(p.planVersion == Some(r.checks.versionText(r.planVersion)) && p.pageId != "")
  }

  function RecordRules(r: Rules, p: Payload): Option<seq<RuleOutcome>> {
    var pairs :- PairsRules(r, p, PAIRS);
    Some([RuleOutcome(ProvenanceRule, ProvenanceStatus(r, p))] + pairs)
  }

  /** The outcomes of the fields up to a point, in plan order. */
  function FieldOutcomes(r: Rules, p: Payload, fields: seq<PlanField>): seq<RuleOutcome> {
    if fields == [] then []
    else
      var n := |fields| - 1;
      FieldOutcomes(r, p, fields[..n]) + FieldRules(r, fields[n], CandidateOf(p, fields[n].name), p.canonicalUrl)
  }

  function Outcomes(r: Rules, p: Payload): Option<seq<RuleOutcome>> {
    var record :- RecordRules(r, p);
    Some(FieldOutcomes(r, p, r.fields) + record)
  }

  /** What validate returns for a record whose values compare. */
  ghost predicate Validated(r: Rules, p: Payload, v: RecordValidation) {
    var all := Outcomes(r, p);
    && all.Some?
    && v.status == StatusOf(all.value) && v.quality == QualityOf(all.value) && v.summary == Summarize(all.value)
    && RecordRules(r, p) == Some(v.recordRules)
    && FieldResults(r, p, r.fields, v.fields)
  }

  /** Exactly one result per field. */
  ghost predicate FieldResults(r: Rules, p: Payload, fields: seq<PlanField>, results: map<string, FieldValidation>) {
    && (forall i :: 0 <= i < |fields| ==> fields[i].name in results && FieldResult(r, p, fields[i], results))
    && (forall name <- results :: exists i :: 0 <= i < |fields| && fields[i].name == name)
  }

  predicate FieldResult(r: Rules, p: Payload, f: PlanField, results: map<string, FieldValidation>)
    requires f.name in results
  {
    var rules := FieldRules(r, f, CandidateOf(p, f.name), p.canonicalUrl);
    results[f.name] == FieldValidation(StatusOf(rules), rules)
  }

  class ValidationService {
    const rules: Rules

    constructor (rules: Rules)
      ensures this.rules == rules
    {
      this.rules := rules;
    }

    /** _field_rules: appends to one outcome list. */
    method CheckField(f: PlanField, c: Candidate, base: string) returns (outcomes: seq<RuleOutcome>)
      ensures outcomes == FieldRules(rules, f, c, base)
    {
      hide Normalize, Blank;
      var missing := Missing(c.value);
      outcomes := [RuleOutcome(Required, if f.required && missing then Fail else Pass)];
      if missing {
        if !f.required {
          outcomes := outcomes + [RuleOutcome(OptionalMissing, Warn)];
        }
        return;
      }
      var value := c.value.value;
      outcomes := outcomes + [RuleOutcome(TypeRule, Check(RightType(f.fieldType, value)))];
      outcomes := outcomes + [RuleOutcome(FormatRule, FormatStatus(rules, f.fieldType, value))];
      if c.raw.Some? {
        var expected := Normalize(rules.lib, c.raw.value, f.fieldType, base);
        var same := expected.Some? && SameValue(expected.value, value);
        outcomes := outcomes + [RuleOutcome(NormalizationRule, Check(same))];
      }
      outcomes := outcomes + [RuleOutcome(EvidenceRule, EvidenceStatus(c.evidence))];
    }

    /** _record_rules; `None` is the TypeError of a comparison. */
    method CheckRecord(p: Payload) returns (found: Option<seq<RuleOutcome>>)
      ensures found == RecordRules(rules, p)
    {
      hide ProvenanceStatus, PairRules;
      var pairs: seq<RuleOutcome> := [];
      for i := 0 to |PAIRS|
        invariant PairsRules(rules, p, PAIRS[..i]) == Some(pairs)
      {
        assert PAIRS[..i + 1][..i] == PAIRS[..i];
        var more := PairRules(rules, p, PAIRS[i].0, PAIRS[i].1);
        if more.None? {
          PairsFail(rules, p, PAIRS, i + 1);
          return None;
        }
        pairs := pairs + more.value;
      }
      assert PAIRS[..|PAIRS|] == PAIRS;
      return Some([RuleOutcome(ProvenanceRule, ProvenanceStatus(rules, p))] + pairs);
    }

    /** The loop over the plan's fields. */
    method CheckFields(p: Payload) returns (fields: map<string, FieldValidation>, all: seq<RuleOutcome>)
      requires DistinctNames(rules.fields)
      ensures all == FieldOutcomes(rules, p, rules.fields) && FieldResults(rules, p, rules.fields, fields)
    {
      hide FieldRules, CandidateOf, StatusOf, FieldResults;
      fields, all := map[], [];
      NoResults(rules, p);
      for i := 0 to |rules.fields|
        invariant all == FieldOutcomes(rules, p, rules.fields[..i])
        invariant FieldResults(rules, p, rules.fields[..i], fields)
      {
        var f := rules.fields[i];
        assert rules.fields[..i + 1] == rules.fields[..i] + [f];
        var outcomes := CheckField(f, CandidateOf(p, f.name), p.canonicalUrl);
        ResultAdded(rules, p, rules.fields[..i], fields, f);
        fields := fields[f.name := FieldValidation(StatusOf(outcomes), outcomes)];
        all := all + outcomes;
      }
      assert rules.fields[..|rules.fields|] == rules.fields;
    }

    /** validate. */
    method Validate(p: Payload) returns (v: Option<RecordValidation>)
      requires DistinctNames(rules.fields)
      ensures v.Some? ==> Validated(rules, p, v.value)
      ensures v.None? <==> Outcomes(rules, p).None?
    {
      hide FieldOutcomes, FieldResults, RecordRules, StatusOf, QualityOf, Summarize;
      var fields, all := CheckFields(p);
      var record := CheckRecord(p);
      if record.None? {
        return None;
      }
      all := all + record.value;
      v := Some(RecordValidation(StatusOf(all), QualityOf(all), fields, record.value, Summarize(all)));
    }
  }

  lemma NoResults(r: Rules, p: Payload)
    ensures FieldResults(r, p, [], map[])
  {
  }

  lemma ResultAdded(
    r: Rules, p: Payload, fields: seq<PlanField>, results: map<string, FieldValidation>, f: PlanField)
    requires FieldResults(r, p, fields, results) && forall i :: 0 <= i < |fields| ==> fields[i].name != f.name
    ensures var rules := FieldRules(r, f, CandidateOf(p, f.name), p.canonicalUrl);
            FieldResults(r, p, fields + [f], results[f.name := FieldValidation(StatusOf(rules), rules)])
  {
    hide FieldRules, CandidateOf, StatusOf;
    var rules := FieldRules(r, f, CandidateOf(p, f.name), p.canonicalUrl);
    var after := results[f.name := FieldValidation(StatusOf(rules), rules)];
    forall i | 0 <= i < |fields + [f]|
      ensures (fields + [f])[i].name in after && FieldResult(r, p, (fields + [f])[i], after)
    {
      if i < |fields| { assert FieldResult(r, p, fields[i], results); }
    }
    forall name <- after
      ensures exists i :: 0 <= i < |fields + [f]| && (fields + [f])[i].name == name
    {
      if name in results {
        var i :| 0 <= i < |fields| && fields[i].name == name;
        assert (fields + [f])[i].name == name;
      } else {
        assert (fields + [f])[|fields|].name == name;
      }
    }
  }

  lemma {:induction false} PairsFail(r: Rules, p: Payload, pairs: seq<(string, string)>, i: nat)
    requires i <= |pairs| && PairsRules(r, p, pairs[..i]).None?
    ensures PairsRules(r, p, pairs).None?
    decreases |pairs| - i
  {
    if i < |pairs| {
      assert pairs[..i + 1][..i] == pairs[..i];
      PairsFail(r, p, pairs, i + 1);
    } else {
      assert pairs[..i] == pairs;
    }
  }
}
