/** The canonical export dataset (export_service.py): ordering, filtering and projection of validated records. */
module Datasets {
  import opened Wrappers
  import opened CodePoints
  import opened Domain
  import opened Rows
  import opened Lifecycle
  import opened Inventory
  import opened Protocol
  import opened Invariants
  import opened Runs

  datatype Policy = AllRecords | ValidOnly | ValidAndWarnings

  datatype Options = Options(policy: Policy, validationMetadata: bool, provenanceMetadata: bool)

  /** A cell; `Absent` is None. */
  datatype Cell = Absent | Cell(text: string)

  /** A record with its validation result; `cells` holds the values of well-formed fields. */
  datatype ExportRecord = ExportRecord(identity: string, cells: map<string, Cell>, status: string, quality: string)

  datatype Dataset = Dataset(fields: seq<string>, rows: seq<map<string, Cell>>)

  // Sorting

  /** Insert after every record that is not greater: the sort is stable. */
  function Insert(sorted: seq<ExportRecord>, r: ExportRecord): seq<ExportRecord> {
    if sorted == [] then [r]
    else
      var n := |sorted| - 1;
      if Less(r.identity, sorted[n].identity) then Insert(sorted[..n], r) + [sorted[n]] else sorted + [r]
  }

  function Sort(records: seq<ExportRecord>): seq<ExportRecord> {
    if records == [] then [] else Insert(Sort(records[..|records| - 1]), records[|records| - 1])
  }

  ghost predicate Increasing(records: seq<ExportRecord>) {
    forall i, j :: 0 <= i < j < |records| ==> Less(records[i].identity, records[j].identity)
  }

  ghost predicate DistinctIdentities(records: seq<ExportRecord>) {
    forall i, j :: 0 <= i < j < |records| ==> records[i].identity != records[j].identity
  }

  lemma {:induction false} InsertContents(sorted: seq<ExportRecord>, r: ExportRecord)
    ensures multiset(Insert(sorted, r)) == multiset(sorted) + multiset{r}
    ensures |Insert(sorted, r)| == |sorted| + 1
  {
    if sorted != [] {
      var n := |sorted| - 1;
      InsertContents(sorted[..n], r);
      assert sorted == sorted[..n] + [sorted[n]];
    }
  }

  lemma {:induction false} SortContents(records: seq<ExportRecord>)
    ensures multiset(Sort(records)) == multiset(records) && |Sort(records)| == |records|
  {
    if records != [] {
      var n := |records| - 1;
      SortContents(records[..n]);
      InsertContents(Sort(records[..n]), records[n]);
      assert records == records[..n] + [records[n]];
    }
  }

  lemma InsertMember(sorted: seq<ExportRecord>, r: ExportRecord, x: ExportRecord)
    requires x in Insert(sorted, r)
    ensures x == r || x in sorted
  {
    InsertContents(sorted, r);
    assert x in multiset(Insert(sorted, r));
    assert x in multiset(sorted) + multiset{r};
  }

  lemma IncreasingAppend(sorted: seq<ExportRecord>, x: ExportRecord)
    requires Increasing(sorted) && forall s <- sorted :: Less(s.identity, x.identity)
    ensures Increasing(sorted + [x])
  {
    var after := sorted + [x];
    forall i, j | 0 <= i < j < |after|
      ensures Less(after[i].identity, after[j].identity)
    {
      assert sorted[i] in sorted;
    }
  }

  lemma {:induction false} InsertIncreases(sorted: seq<ExportRecord>, r: ExportRecord)
    requires Increasing(sorted) && forall s <- sorted :: s.identity != r.identity
    ensures Increasing(Insert(sorted, r))
  {
    if sorted == [] {
      assert Insert(sorted, r) == [r];
    } else {
      var n := |sorted| - 1;
      var last := sorted[n];
      LessIsTotal(r.identity, last.identity);
      if Less(r.identity, last.identity) {
        InsertIncreases(sorted[..n], r);
        forall s <- Insert(sorted[..n], r)
          ensures Less(s.identity, last.identity)
        {
          InsertMember(sorted[..n], r, s);
          if s != r {
            var i :| 0 <= i < n && sorted[i] == s;
          }
        }
        IncreasingAppend(Insert(sorted[..n], r), last);
      } else {
        forall s <- sorted
          ensures Less(s.identity, r.identity)
        {
          var i :| 0 <= i < |sorted| && sorted[i] == s;
          if i < n { LessIsTransitive(s.identity, last.identity, r.identity); }
        }
        IncreasingAppend(sorted, r);
      }
    }
  }

  lemma {:induction false} SortIncreases(records: seq<ExportRecord>)
    requires DistinctIdentities(records)
    ensures Increasing(Sort(records))
  {
    if records != [] {
      var n := |records| - 1;
      SortIncreases(records[..n]);
      SortContents(records[..n]);
      forall s <- Sort(records[..n])
        ensures s.identity != records[n].identity
      {
        assert s in multiset(Sort(records[..n]));
        assert s in multiset(records[..n]);
      }
      InsertIncreases(Sort(records[..n]), records[n]);
    }
  }

  /** The last record of an increasing sequence is the greatest. */
  lemma LastIsGreatest(a: seq<ExportRecord>, x: ExportRecord)
    requires Increasing(a) && x in a
    ensures x == a[|a| - 1] || Less(x.identity, a[|a| - 1].identity)
  {
    var i :| 0 <= i < |a| && a[i] == x;
  }

  lemma LastIsSame(a: seq<ExportRecord>, b: seq<ExportRecord>)
    requires a != [] && b != [] && Increasing(a) && Increasing(b) && multiset(a) == multiset(b)
    ensures a[|a| - 1] == b[|b| - 1]
  {
    var x, y := a[|a| - 1], b[|b| - 1];
    assert x in multiset(b) && y in multiset(a);
    LastIsGreatest(b, x);
    LastIsGreatest(a, y);
    LessIsTotal(x.identity, y.identity);
  }

  lemma FrontContents(a: seq<ExportRecord>)
    requires a != []
    ensures multiset(a[..|a| - 1]) == multiset(a) - multiset{a[|a| - 1]}
    ensures a == a[..|a| - 1] + [a[|a| - 1]]
    ensures Increasing(a) ==> Increasing(a[..|a| - 1])
  {
    hide Less;
    assert a == a[..|a| - 1] + [a[|a| - 1]];
  }

  /** An increasing sequence is determined by its contents. */
  lemma {:induction false} IncreasingIsUnique(a: seq<ExportRecord>, b: seq<ExportRecord>)
    requires Increasing(a) && Increasing(b) && multiset(a) == multiset(b)
    ensures a == b
    decreases |a|
  {
    hide Increasing;
    assert |a| == |multiset(a)| == |multiset(b)| == |b|;
    if a != [] {
      var n := |a| - 1;
      LastIsSame(a, b);
      FrontContents(a);
      FrontContents(b);
      IncreasingIsUnique(a[..n], b[..n]);
    }
  }

  // Building

  predicate Admits(policy: Policy, status: string) {
    match policy
    case AllRecords => true
    case ValidOnly => status == "PASS"
    case ValidAndWarnings => status == "PASS" || status == "WARN"
  }

  function Extras(o: Options): seq<string> {
    (if o.validationMetadata then ["validation_status", "quality"] else [])
    + if o.provenanceMetadata then ["record_identity"] else []
  }

  function RowOf(fields: seq<string>, o: Options, r: ExportRecord): map<string, Cell> {
    var row := map f | f in fields :: if f in r.cells then r.cells[f] else Absent;
    var row1 := if o.validationMetadata then row["validation_status" := Cell(r.status)]["quality" := Cell(r.quality)]
                else row;
    if o.provenanceMetadata then row1["record_identity" := Cell(r.identity)] else row1
  }

  function RowsOf(fields: seq<string>, o: Options, records: seq<ExportRecord>): seq<map<string, Cell>> {
    if records == [] then []
    else
      var n := |records| - 1;
      var earlier := RowsOf(fields, o, records[..n]);
      if Admits(o.policy, records[n].status) then earlier + [RowOf(fields, o, records[n])] else earlier
  }

  /** `None` is ExportTooLarge. */
  function Build(fields: seq<string>, records: seq<ExportRecord>, o: Options, maxRecords: int): Option<Dataset> {
    if |records| > maxRecords then None
    else Some(Dataset(fields + Extras(o), RowsOf(fields, o, Sort(records))))
  }

  /** The loop of build_dataset. */
  method BuildDataset(fields: seq<string>, records: seq<ExportRecord>, o: Options, maxRecords: int)
    returns (d: Option<Dataset>)
    ensures d == Build(fields, records, o, maxRecords)
  {
    if |records| > maxRecords {
      return None;
    }
    hide RowOf;
    var sorted := Sort(records);
    var rows: seq<map<string, Cell>> := [];
    for i := 0 to |sorted|
      invariant rows == RowsOf(fields, o, sorted[..i])
    {
      assert sorted[..i + 1][..i] == sorted[..i];
      if o.policy == ValidOnly && sorted[i].status != "PASS" {
        continue;
      }
      if o.policy == ValidAndWarnings && sorted[i].status != "PASS" && sorted[i].status != "WARN" {
        continue;
      }
      rows := rows + [RowOf(fields, o, sorted[i])];
    }
    assert sorted[..|sorted|] == sorted;
    return Some(Dataset(fields + Extras(o), rows));
  }

  // What the dataset promises

  /** The dataset depends on the set of records only. */
  lemma PermutationInvariance(
    fields: seq<string>, a: seq<ExportRecord>, b: seq<ExportRecord>, o: Options, maxRecords: int)
    requires multiset(a) == multiset(b) && DistinctIdentities(a)
    ensures Build(fields, a, o, maxRecords) == Build(fields, b, o, maxRecords)
  {
    SameDistinct(a, b);
    SortIncreases(a);
    SortIncreases(b);
    SortContents(a);
    SortContents(b);
    IncreasingIsUnique(Sort(a), Sort(b));
  }

  lemma SameDistinct(a: seq<ExportRecord>, b: seq<ExportRecord>)
    requires multiset(a) == multiset(b) && DistinctIdentities(a)
    ensures DistinctIdentities(b) && |a| == |b|
  {
    assert |a| == |multiset(a)| == |multiset(b)| == |b|;
    forall i, j | 0 <= i < j < |b|
      ensures b[i].identity != b[j].identity
    {
      assert b == b[..j] + [b[j]] + b[j + 1..];
      assert b[i] in multiset(a) && b[j] in multiset(a);
      var k :| 0 <= k < |a| && a[k] == b[i];
      var l :| 0 <= l < |a| && a[l] == b[j];
      if k == l {
        assert b[..j][i] == b[j];
        assert multiset(b)[b[j]] >= 2;
        OccursOnce(a, k);
      }
    }
  }

  lemma OccursOnce(a: seq<ExportRecord>, k: nat)
    requires k < |a| && DistinctIdentities(a)
    ensures multiset(a)[a[k]] == 1
  {
    assert a == a[..k] + [a[k]] + a[k + 1..];
    assert a[k] !in a[..k] && a[k] !in a[k + 1..];
  }

  /** Every row has exactly the dataset's fields. */
  lemma {:induction false} RowKeys(fields: seq<string>, o: Options, records: seq<ExportRecord>)
    ensures forall row <- RowsOf(fields, o, records) :: row.Keys == set f | f in fields + Extras(o)
  {
    if records != [] {
      var n := |records| - 1;
      RowKeys(fields, o, records[..n]);
    }
  }

  ghost predicate Subsequence<T>(a: seq<T>, b: seq<T>) {
    if a == [] then true
    else if b == [] then false
    else
      || (a[|a| - 1] == b[|b| - 1] && Subsequence(a[..|a| - 1], b[..|b| - 1]))
      || Subsequence(a, b[..|b| - 1])
  }

  predicate Stricter(a: Policy, b: Policy) { a == b || a == ValidOnly || b == AllRecords }

  /** Rows of VALID_ONLY are a subsequence of those of VALID_AND_WARNINGS, and these of those of ALL_RECORDS. */
  lemma {:induction false} PoliciesNest(
    fields: seq<string>, strict: Options, lax: Options, records: seq<ExportRecord>)
    requires Stricter(strict.policy, lax.policy) && lax == strict.(policy := lax.policy)
    ensures Subsequence(RowsOf(fields, strict, records), RowsOf(fields, lax, records))
  {
    if records != [] {
      hide RowOf;
      var n := |records| - 1;
      PoliciesNest(fields, strict, lax, records[..n]);
      SameRow(fields, strict, lax, records[n]);
      var a, b := RowsOf(fields, strict, records[..n]), RowsOf(fields, lax, records[..n]);
      var x := RowOf(fields, strict, records[n]);
      assert (a + [x])[..|a|] == a && (b + [x])[..|b|] == b;
    }
  }

  lemma SameRow(fields: seq<string>, a: Options, b: Options, r: ExportRecord)
    requires b == a.(policy := b.policy)
    ensures RowOf(fields, a, r) == RowOf(fields, b, r)
  {
  }

  lemma {:induction false} AllRecordsKept(fields: seq<string>, o: Options, records: seq<ExportRecord>)
    requires o.policy == AllRecords
    ensures |RowsOf(fields, o, records)| == |records|
  {
    if records != [] { AllRecordsKept(fields, o, records[..|records| - 1]); }
  }

  // Every cell

  /** The record policy of the options, on the stored status. */
  predicate Exported(o: Options, r: ExportRecord) {
    || o.policy == AllRecords
    || r.status == "PASS"
    || (o.policy == ValidAndWarnings && r.status == "WARN")
  }

  /** The columns that the metadata options write over. */
  predicate Overwritten(o: Options, f: string) {
    || (o.validationMetadata && (f == "validation_status" || f == "quality"))
    || (o.provenanceMetadata && f == "record_identity")
  }

  /** The row of a record: its own cell in every field, its own status, quality and identity in the metadata columns. */
  ghost predicate CellsOf(fields: seq<string>, o: Options, r: ExportRecord, row: map<string, Cell>) {
    && (forall f :: f in row <==> f in fields || Overwritten(o, f))
    && (forall f <- fields :: !Overwritten(o, f) ==> row[f] == if f in r.cells then r.cells[f] else Absent)
    && (o.validationMetadata ==> row["validation_status"] == Cell(r.status) && row["quality"] == Cell(r.quality))
    && (o.provenanceMetadata ==> row["record_identity"] == Cell(r.identity))
  }

  lemma RowHasCells(fields: seq<string>, o: Options, r: ExportRecord)
    ensures CellsOf(fields, o, r, RowOf(fields, o, r))
  {
    assert "validation_status" != "quality" by { assert |"validation_status"| == 17 && |"quality"| == 7; }
    assert |"record_identity"| == 15;
  }

  /** `kept` are the exported ones of `records`, in their order. */
  ghost predicate KeptOf(o: Options, records: seq<ExportRecord>, kept: seq<ExportRecord>) {
    && (forall r :: r in kept <==> r in records && Exported(o, r))
    && (Increasing(records) ==> Increasing(kept))
  }

  lemma {:induction false} RowsKept(fields: seq<string>, o: Options, records: seq<ExportRecord>)
    returns (kept: seq<ExportRecord>)
    ensures KeptOf(o, records, kept) && |RowsOf(fields, o, records)| == |kept|
    ensures forall k :: 0 <= k < |kept| ==> CellsOf(fields, o, kept[k], RowsOf(fields, o, records)[k])
  {
    hide RowOf, CellsOf, Less;
    if records == [] {
      kept := [];
    } else {
      var n := |records| - 1;
      var earlier := RowsKept(fields, o, records[..n]);
      RowHasCells(fields, o, records[n]);
      assert records == records[..n] + [records[n]];
      kept := if Exported(o, records[n]) then earlier + [records[n]] else earlier;
      KeptNext(o, records[..n], earlier, records[n]);
    }
  }

  lemma KeptNext(o: Options, records: seq<ExportRecord>, kept: seq<ExportRecord>, r: ExportRecord)
    requires KeptOf(o, records, kept)
    ensures KeptOf(o, records + [r], if Exported(o, r) then kept + [r] else kept)
  {
    hide Less, Exported;
    var all := records + [r];
    if Increasing(all) {
      forall i, j | 0 <= i < j < |records|
        ensures Less(records[i].identity, records[j].identity)
      {
        assert all[i] == records[i] && all[j] == records[j];
      }
      forall s <- kept
        ensures Less(s.identity, r.identity)
      {
        var i :| 0 <= i < |records| && records[i] == s;
        assert all[i] == s && all[|records|] == r;
      }
      IncreasingAppend(kept, r);
    }
  }

  /**
   * The dataset, cell by cell: it is refused exactly past the limit; its rows are those of the records that the policy
   * exports, ordered by identity, and each row holds the cells, the status, the quality and the identity of its own
   * record. A plan field that is named like a metadata column loses its cell to the metadata.
   */
  lemma DatasetExactly(fields: seq<string>, records: seq<ExportRecord>, o: Options, maxRecords: int)
    returns (kept: seq<ExportRecord>)
    requires DistinctIdentities(records)
    ensures Build(fields, records, o, maxRecords).None? <==> |records| > maxRecords
    ensures Build(fields, records, o, maxRecords).Some? ==>
              var d := Build(fields, records, o, maxRecords).value;
              && d.fields == fields
                   + (if o.validationMetadata then ["validation_status", "quality"] else [])
                   + (if o.provenanceMetadata then ["record_identity"] else [])
              && (forall r :: r in kept <==> r in records && Exported(o, r)) && Increasing(kept)
              && |d.rows| == |kept| && forall k :: 0 <= k < |kept| ==> CellsOf(fields, o, kept[k], d.rows[k])
  {
    hide RowOf, CellsOf, Less, Exported;
    kept := RowsKept(fields, o, Sort(records));
    SortIncreases(records);
    SortContents(records);
    forall r
      ensures r in Sort(records) <==> r in records
    {
      assert r in Sort(records) <==> r in multiset(Sort(records));
      assert r in records <==> r in multiset(records);
    }
  }

  // The records of a job

  /** The inner join of records and results of one run, one entry per match. */
  function Joined(records: seq<Record>, results: seq<ValidationResult>, run: nat): seq<Record> {
    if records == [] then []
    else
      var n := |records| - 1;
      Joined(records[..n], results, run) + Matches(records[n], results, run)
  }

  function Matches(r: Record, results: seq<ValidationResult>, run: nat): seq<Record> {
    if results == [] then []
    else
      var n := |results| - 1;
      var earlier := Matches(r, results[..n], run);
      if results[n] == ValidationResult(run, r.identity) then earlier + [r] else earlier
  }

  lemma {:induction false} NoMatches(r: Record, results: seq<ValidationResult>, run: nat)
    requires ValidationResult(run, r.identity) !in results
    ensures Matches(r, results, run) == []
  {
    if results != [] {
      var n := |results| - 1;
      assert results[n] in results;
      NoMatches(r, results[..n], run);
    }
  }

  lemma {:induction false} OneMatch(r: Record, results: seq<ValidationResult>, run: nat, k: nat)
    requires k < |results| && results[k] == ValidationResult(run, r.identity)
    requires forall i :: 0 <= i < |results| && i != k ==> results[i] != ValidationResult(run, r.identity)
    ensures Matches(r, results, run) == [r]
  {
    var n := |results| - 1;
    if k == n {
      NoMatches(r, results[..n], run);
    } else {
      OneMatch(r, results[..n], run, k);
    }
  }

  lemma {:induction false} JoinIsExact(records: seq<Record>, all: seq<Record>, results: seq<ValidationResult>)
    requires records <= all && ResultsMatch(results, all) && Identified(all)
    ensures Joined(records, results, 0) == records
  {
    if records != [] {
      var n := |records| - 1;
      JoinIsExact(records[..n], all, results);
      assert records[n] == all[n];
      OneMatch(records[n], results, 0, n);
      assert records == records[..n] + [records[n]];
    }
  }

  /** How the fields, the status and the quality of an exported record are read from its joined row. */
  datatype View = View(cells: Record -> map<string, Cell>, status: Record -> string, quality: Record -> string)

  /** load_export_dataset: one export record per joined row. */
  function ExportRecords(v: View, joined: seq<Record>): (r: seq<ExportRecord>)
    ensures |r| == |joined| && forall i :: 0 <= i < |r| ==> r[i].identity == joined[i].identity
  {
    seq(|joined|, i requires 0 <= i < |joined| =>
      ExportRecord(joined[i].identity, v.cells(joined[i]), v.status(joined[i]), v.quality(joined[i])))
  }

  /**
   * In every reachable state with exports, the export's join yields every record of the job once, with distinct
   * identities. So the dataset is refused exactly when records_found exceeds the limit, and otherwise has as many rows
   * under the default policy.
   */
  lemma RowCount(
    cfg: Config, trace: seq<System>, steps: seq<Step>, i: nat, v: View, fields: seq<string>, o: Options,
    maxRecords: int)
    requires QueueRun(cfg, trace, steps) && i <= |steps| && trace[i].db.exports != []
    ensures var db := trace[i].db;
            var joined := Joined(db.records, db.results, 0);
            && joined == db.records && DistinctIdentities(ExportRecords(v, joined))
            && match Build(fields, ExportRecords(v, joined), o, maxRecords)
               case None => db.job.recordsFound > maxRecords
               case Some(d) =>
                 db.job.recordsFound <= maxRecords && (o.policy == AllRecords ==> |d.rows| == db.job.recordsFound)
  {
    hide Apply;
    Reachable(cfg, trace, steps, i);
    var db := trace[i].db;
    JoinIsExact(db.records, db.records, db.results);
    var records := ExportRecords(v, db.records);
    SortContents(records);
    if o.policy == AllRecords { AllRecordsKept(fields, o, Sort(records)); }
  }
}
