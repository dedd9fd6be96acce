/** The validator re-derives what the extractor stored, and its findings aggregate. */
module Agreement {
  import opened Wrappers
  import opened Extractor
  import opened Validator

  // Agreement of the two modules

  function Stored(e: Option<Evidence>): StoredEvidence {
    if e.Some? then StoredEvidence(Some(e.value.sourceText), Some(e.value.location)) else NoEvidence
  }

  /** The payload that complete_extraction_page stores for a record. */
  function PayloadOf(checks: Checks, r: ExtractedRecord): Payload {
    Payload(
      map name <- r.fields :: Candidate(r.fields[name].raw, r.fields[name].value, Stored(r.fields[name].evidence)),
      r.provenance.canonicalUrl, r.provenance.pageId, Some(checks.versionText(r.provenance.planVersion)))
  }

  /** The rule was evaluated, and always with this status. */
  ghost predicate Reports(outcomes: seq<RuleOutcome>, rule: Rule, s: Status) {
    && (exists i :: 0 <= i < |outcomes| && outcomes[i].rule == rule)
    && forall i :: 0 <= i < |outcomes| && outcomes[i].rule == rule ==> outcomes[i].status == s
  }

  /** The stored raw text normalizes to the extracted value exactly for strings and truthy values. */
  lemma RawRenormalizes(lib: Library, raw: Json, t: FieldType, base: string)
    requires Normalize(lib, Show(lib, raw), t, base).Some?
    ensures Normalize(lib, TextOf(lib, raw), t, base) == Normalize(lib, Show(lib, raw), t, base) <==>
            raw.JString? || Truthy(raw)
  {
    if Truthy(raw) {
      NormalizeFactors(lib, Show(lib, raw), t, base);
    } else {
      assert Text("") == "";
    }
  }

  /** So the validator's comparison succeeds exactly then. */
  lemma RawIsTheSame(r: Rules, f: PlanField, raw: Json, base: string)
    requires Normalize(r.lib, Show(r.lib, raw), f.fieldType, base).Some?
    ensures Renormalizes(
              r, f, TextOf(r.lib, raw), Normalize(r.lib, Show(r.lib, raw), f.fieldType, base).value, base) <==>
            raw.JString? || Truthy(raw)
  {
    RawRenormalizes(r.lib, raw, f.fieldType, base);
    if !Truthy(raw) { assert Text("") == ""; }
    hide NormalizeText;
  }

  /** An extracted value has its field's type, except that an integer field keeps a fractional number. */
  lemma ExtractedType(lib: Library, text: string, t: FieldType, base: string)
    requires Normalize(lib, text, t, base).Some?
    ensures var v := Normalize(lib, text, t, base).value;
            RightType(t, v) <==> !(t == IntegerType && v.Num?)
  {
    hide Text, SearchNumber, WithoutCommas;
  }

  /**
   * For every field that is present in a record built from any source: the normalization rule passes exactly when
   * the raw value was a string or truthy, the evidence rule exactly when the stored text is within 500 characters
   * (so for every cap up to 500) and the location is named, and the type rule exactly when an integer field did not
   * get a fractional number.
   */
  lemma ValidatorAgrees(
    r: Rules, cap: nat, source: seq<Entry>, o: Origin, record: ExtractedRecord, i: nat)
    requires Built(r.lib, cap, r.fields, source, o, record) && i < |r.fields|
    requires !Missing(record.fields[r.fields[i].name].value)
    ensures var f := r.fields[i];
            var p := PayloadOf(r.checks, record);
            var raw := RawValue(r.lib, f, source);
            var outcomes := FieldRules(r, f, CandidateOf(p, f.name), p.canonicalUrl);
            && Reports(outcomes, NormalizationRule, Check(raw.JString? || Truthy(raw)))
            && Reports(
                 outcomes, EvidenceRule, Check(Min(cap, |TextOf(r.lib, raw)|) <= 500 && o.location != ""))
            && Reports(
                 outcomes, TypeRule,
                 Check(!(f.fieldType == IntegerType && record.fields[f.name].value.value.Num?)))
  {
    hide RawValue, Normalize, TextOf, RightType, FormatStatus, Blank, Renormalizes, FieldRules, Reports, Show;
    var f := r.fields[i];
    var raw := RawValue(r.lib, f, source);
    var built := BuildField(r.lib, cap, f, source, o);
    assert record.fields[f.name] == built;
    RawIsTheSame(r, f, raw, o.pageUrl);
    ExtractedType(r.lib, Show(r.lib, raw), f.fieldType, o.pageUrl);
    var c := Candidate(built.raw, built.value, Stored(built.evidence));
    assert CandidateOf(PayloadOf(r.checks, record), f.name) == c;
    FourRules(r, f, c, o.pageUrl);
  }

  /** The outcomes of a present field with raw text, one for each rule. */
  lemma FourRules(r: Rules, f: PlanField, c: Candidate, base: string)
    requires !Missing(c.value) && c.raw.Some?
    ensures var outcomes := FieldRules(r, f, c, base);
            && Reports(outcomes, NormalizationRule, Check(Renormalizes(r, f, c.raw.value, c.value.value, base)))
            && Reports(outcomes, EvidenceRule, EvidenceStatus(c.evidence))
            && Reports(outcomes, TypeRule, Check(RightType(f.fieldType, c.value.value)))
  {
    hide Renormalizes, RightType, FormatStatus, EvidenceStatus;
    var outcomes := FieldRules(r, f, c, base);
    assert outcomes[1].rule == TypeRule && outcomes[3].rule == NormalizationRule && outcomes[4].rule == EvidenceRule;
  }

  /** The provenance rule passes exactly when the record's page has an identifier. */
  lemma ProvenanceAgrees(r: Rules, cap: nat, source: seq<Entry>, o: Origin, record: ExtractedRecord)
    requires Built(r.lib, cap, r.fields, source, o, record) && o.planVersion == r.planVersion
    ensures ProvenanceStatus(r, PayloadOf(r.checks, record)) == Check(o.pageId != "")
  {
    hide BuildField, Values, Seed;
  }

  /** The identity of a record does not determine its values: the seed joins them with an unescaped bar. */
  lemma SeedsCollide(lib: Library, o: Origin)
    requires forall s :: lib.show(Str(s)) == s
    ensures var a, b := [Some(Str("x|y")), Some(Str("z"))], [Some(Str("x")), Some(Str("y|z"))];
            a != b && Identity(lib, o, a) == Identity(lib, o, b)
  {
    var a, b := [Some(Str("x|y")), Some(Str("z"))], [Some(Str("x")), Some(Str("y|z"))];
    assert a[0] != b[0];
    assert a[1..] == [Some(Str("z"))] && b[1..] == [Some(Str("y|z"))];
    assert Seed(lib, a) == "x|y" + "|" + "z" == "x|y|z";
    assert Seed(lib, b) == "x" + "|" + "y|z" == "x|y|z";
  }

  // Aggregation

  /** The join of the field statuses, in plan order. */
  function JoinFields(fields: seq<PlanField>, results: map<string, FieldValidation>): Status
    requires forall i :: 0 <= i < |fields| ==> fields[i].name in results
  {
    if fields == [] then Skipped
    else
      var n := |fields| - 1;
      Join(JoinFields(fields[..n], results), results[fields[n].name].status)
  }

  lemma {:induction false} FieldStatusesJoin(
    r: Rules, p: Payload, fields: seq<PlanField>, results: map<string, FieldValidation>)
    requires forall i :: 0 <= i < |fields| ==> fields[i].name in results && FieldResult(r, p, fields[i], results)
    ensures JoinFields(fields, results) == StatusOf(FieldOutcomes(r, p, fields))
  {
    hide FieldRules, CandidateOf;
    if fields != [] {
      hide StatusOf, Join;
      var n := |fields| - 1;
      FieldStatusesJoin(r, p, fields[..n], results);
      assert FieldResult(r, p, fields[n], results);
      StatusIsHomomorphism(
        FieldOutcomes(r, p, fields[..n]), FieldRules(r, fields[n], CandidateOf(p, fields[n].name), p.canonicalUrl));
    }
  }

  /**
   * The status of a record is the join of its field statuses and of its record rules, and the quality is a function of
   * that status (LOW never occurs).
   */
  lemma RecordStatusIsJoin(r: Rules, p: Payload, v: RecordValidation)
    requires Validated(r, p, v)
    ensures v.status == Join(JoinFields(r.fields, v.fields), StatusOf(v.recordRules))
    ensures v.quality == QualityOfStatus(v.status) && v.quality != Low
  {
    hide FieldRules, CandidateOf, Summarize, PairsRules, ProvenanceStatus;
    FieldStatusesJoin(r, p, r.fields, v.fields);
    StatusIsHomomorphism(FieldOutcomes(r, p, r.fields), v.recordRules);
  }

  // Totals of a validation run

  const NO_TOTALS := Summary(0, 0, 0, 0)

  function Plus(a: Summary, b: Summary): Summary {
    Summary(a.passed + b.passed, a.failed + b.failed, a.warnings + b.warnings, a.unresolved + b.unresolved)
  }

  /** All outcomes of all records of a run, in order. */
  function AllOutcomes(records: seq<seq<RuleOutcome>>): seq<RuleOutcome> {
    if records == [] then []
    else
      var n := |records| - 1;
      AllOutcomes(records[..n]) + records[n]
  }

  lemma {:induction false} CountsAdd(a: seq<RuleOutcome>, b: seq<RuleOutcome>, s: Status)
    ensures CountStatus(a + b, s) == CountStatus(a, s) + CountStatus(b, s)
    decreases |b|
  {
    if b == [] {
      assert a + b == a;
    } else {
      var n := |b| - 1;
      CountsAdd(a, b[..n], s);
      assert (a + b)[..|a| + n] == a + b[..n];
    }
  }

  lemma SummariesAdd(a: seq<RuleOutcome>, b: seq<RuleOutcome>)
    ensures Summarize(a + b) == Plus(Summarize(a), Summarize(b))
  {
    CountsAdd(a, b, Pass);
    CountsAdd(a, b, Fail);
    CountsAdd(a, b, Warn);
    CountsAdd(a, b, Unresolved);
  }

  /**
   * The loop of complete_validation_run that adds up the record summaries: the totals are the counts over all
   * outcomes of all records.
   */
  method RunTotals(summaries: seq<Summary>, ghost records: seq<seq<RuleOutcome>>) returns (totals: Summary)
    requires |records| == |summaries|
    requires forall i :: 0 <= i < |records| ==> summaries[i] == Summarize(records[i])
    ensures totals == Summarize(AllOutcomes(records))
  {
    hide Summarize;
    totals := NO_TOTALS;
    assert NO_TOTALS == Summarize([]) by { NothingSums(); }
    for i := 0 to |summaries|
      invariant totals == Summarize(AllOutcomes(records[..i]))
    {
      assert records[..i + 1][..i] == records[..i];
      SummariesAdd(AllOutcomes(records[..i]), records[i]);
      totals := totals.(passed := totals.passed + summaries[i].passed);
      totals := totals.(failed := totals.failed + summaries[i].failed);
      totals := totals.(warnings := totals.warnings + summaries[i].warnings);
      totals := totals.(unresolved := totals.unresolved + summaries[i].unresolved);
    }
    assert records[..|records|] == records;
  }

  lemma NothingSums()
    ensures Summarize([]) == NO_TOTALS
  {
  }
}
