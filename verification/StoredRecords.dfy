/** Which records a completed page adds (services.py, complete_extraction_page), in terms of the rows alone. */
module StoredRecords {
  import opened Wrappers
  import opened Domain
  import opened Rows
  import opened Lifecycle
  import opened Frontier
  import opened Stages
  import opened Protocol
  import opened Invariants
  import opened Runs
  import opened Growth

  ghost predicate Holds(records: seq<Record>, identity: string) {
    exists i :: 0 <= i < |records| && records[i].identity == identity
  }

  /** Record `k` of a page is within both limits, counted from the records stored before. */
  predicate WithinLimits(cfg: Config, plan: Plan, stored: nat, k: nat) {
    stored + k < plan.maxRecords && stored + k < cfg.serverMaxRecords
  }

  /** The first of the extracted records with its identity. */
  ghost predicate FirstOfItsKind(extracted: seq<Record>, k: nat)
    requires k < |extracted|
  {
    forall i :: 0 <= i < k ==> extracted[i].identity != extracted[k].identity
  }

  /** The table `after` is `before` and, in order, the extracted records at the positions `source`, on page `page`. */
  ghost predicate AppendedFrom(
    before: seq<Record>, extracted: seq<Record>, source: seq<nat>, page: nat, after: seq<Record>)
  {
    && before <= after && |after| == |before| + |source|
    && (forall j :: 0 <= j < |source| ==> source[j] < |extracted|)
    && (forall i, j :: 0 <= i < j < |source| ==> source[i] < source[j])
    && (forall j :: 0 <= j < |source| ==>
          after[|before| + j] == Record(extracted[source[j]].identity, page, extracted[source[j]].payload))
  }

  // One insertion after the other

  lemma {:induction false} Inserts(db: Db, page: nat, extracted: seq<Record>) returns (source: seq<nat>)
    ensures var after := InsertRecords(db, page, extracted).records;
            && AppendedFrom(db.records, extracted, source, page, after)
            && (forall j :: 0 <= j < |source| ==>
                  FirstOfItsKind(extracted, source[j]) && !Holds(db.records, extracted[source[j]].identity))
            && (forall k :: 0 <= k < |extracted| ==> Holds(after, extracted[k].identity))
    decreases |extracted|
  {
    if extracted == [] {
      source := [];
    } else {
      var r := extracted[0].(page := page);
      var rest := extracted[1..];
      var isNew := !HasIdentity(db.records, r.identity);
      var db1 := if isNew then db.(records := db.records + [r]) else Append(db, OnRecordDuplicate);
      var tail := Inserts(db1, page, rest);
      source := (if isNew then [0] else []) + seq(|tail|, j requires 0 <= j < |tail| => tail[j] + 1);
      var after := InsertRecords(db, page, extracted).records;
      FirstIsHeld(db.records, db1.records, r);
      Shifted(db.records, db1.records, extracted, tail, source, page, after);
      ShiftedKinds(db.records, db1.records, extracted, tail, source, page);
      HoldsMore(db1.records, after, r.identity);
      assert forall k :: 1 <= k < |extracted| ==> extracted[k] == rest[k - 1];
    }
  }

  /** After its turn the first identity is held. */
  lemma FirstIsHeld(records: seq<Record>, after: seq<Record>, r: Record)
    requires after == if HasIdentity(records, r.identity) then records else records + [r]
    ensures Holds(after, r.identity)
    ensures forall id :: Holds(after, id) <==> Holds(records, id) || id == r.identity
  {
    if !HasIdentity(records, r.identity) { assert after[|records|] == r; }
    forall id | Holds(records, id)
      ensures Holds(after, id)
    {
      var i :| 0 <= i < |records| && records[i].identity == id;
      assert after[i].identity == id;
    }
  }

  /** What the first extracted record adds, and what the positions in the rest become. */
  ghost predicate OneMore(
    records: seq<Record>, middle: seq<Record>, extracted: seq<Record>, tail: seq<nat>, source: seq<nat>, page: nat)
  {
    && extracted != []
    && middle == (if Holds(records, extracted[0].identity) then records else records + [extracted[0].(page := page)])
    && source == (if Holds(records, extracted[0].identity) then [] else [0])
                 + seq(|tail|, j requires 0 <= j < |tail| => tail[j] + 1)
  }

  lemma Shifted(
    records: seq<Record>, middle: seq<Record>, extracted: seq<Record>, tail: seq<nat>, source: seq<nat>, page: nat,
    after: seq<Record>)
    requires OneMore(records, middle, extracted, tail, source, page)
    requires AppendedFrom(middle, extracted[1..], tail, page, after)
    ensures AppendedFrom(records, extracted, source, page, after)
  {
    hide Holds;
  }

  lemma ShiftedKinds(
    records: seq<Record>, middle: seq<Record>, extracted: seq<Record>, tail: seq<nat>, source: seq<nat>, page: nat)
    requires OneMore(records, middle, extracted, tail, source, page)
    requires forall id :: Holds(middle, id) <==> Holds(records, id) || id == extracted[0].identity
    requires forall j :: 0 <= j < |tail| ==> tail[j] < |extracted| - 1
    requires forall j :: 0 <= j < |tail| ==>
               FirstOfItsKind(extracted[1..], tail[j]) && !Holds(middle, extracted[1..][tail[j]].identity)
    ensures forall j :: 0 <= j < |source| ==> source[j] < |extracted|
    ensures forall j :: 0 <= j < |source| ==>
              FirstOfItsKind(extracted, source[j]) && !Holds(records, extracted[source[j]].identity)
  {
    hide Holds;
    var n := |source| - |tail|;
    forall j | n <= j < |source|
      ensures FirstOfItsKind(extracted, source[j]) && !Holds(records, extracted[source[j]].identity)
    {
      assert extracted[source[j]] == extracted[1..][tail[j - n]];
      forall i | 0 < i < source[j]
        ensures extracted[i].identity != extracted[source[j]].identity
      {
        assert extracted[i] == extracted[1..][i - 1];
      }
    }
  }

  lemma HoldsMore(records: seq<Record>, after: seq<Record>, id: string)
    requires records <= after && Holds(records, id)
    ensures Holds(after, id)
  {
    var i :| 0 <= i < |records| && records[i].identity == id;
    assert after[i] == records[i];
  }

  // One completion

  /** The records of the page that are within the limits. */
  ghost predicate Sliced(cfg: Config, plan: Plan, stored: nat, all: seq<Record>, slice: seq<Record>) {
    && slice <= all
    && (forall k :: 0 <= k < |all| ==> (k < |slice| <==> WithinLimits(cfg, plan, stored, k)))
  }

  lemma AdmitsTheSlice(cfg: Config, plan: Plan, stored: nat, all: seq<Record>)
    ensures Sliced(cfg, plan, stored, all, Admitted(cfg, plan, stored, all))
  {
  }

  /** The rows after the records of the page, in terms of the records before and after. */
  ghost predicate PageStored(before: Db, page: nat, after: Db) {
    && page < |before.pages| && |before.records| <= |after.records|
    && after.job.recordsFound == before.job.recordsFound + |after.records| - |before.records|
    && after.job.pagesProcessed == before.job.pagesProcessed + 1
    && after.pages == before.pages[page := before.pages[page].(
         extraction := Some(if |after.records| > |before.records| then PageExtracted else PagePartial))]
  }

  lemma StoreRows(cfg: Config, db: Db, plan: Plan, i: nat, extract: Extract)
    requires i < |db.pages|
    ensures var after := StoreExtract(cfg, db, plan, i, extract);
            && PageStored(db, i, after)
            && after.records == InsertRecords(db, i, Admitted(cfg, plan, |db.records|, extract.records)).records
  {
    hide InsertRecords, Admitted, AppendMany, MaxSequence;
  }

  lemma AdvanceKeepsCounters(db: Db, plan: Plan, now: int)
    ensures var r := AdvanceExtraction(db, plan, now);
            r.Some? ==>
              && r.value.pages == db.pages && r.value.records == db.records && r.value.job.lease == db.job.lease
              && r.value.job.recordsFound == db.job.recordsFound
              && r.value.job.pagesProcessed == db.job.pagesProcessed
  {
    hide LogGrows, MaxSequence, Least;
  }

  /** A stored completion, as a change of rows. */
  lemma CompletionRows(cfg: Config, db: Db, w: Work, extract: Extract, now: int)
    requires w.ExtractionWork? && CompleteExtraction(cfg, db, w, extract, now).reply == Done
    ensures var after := CompleteExtraction(cfg, db, w, extract, now).db;
            && PageStored(db, w.page, after) && after.job.lease == None
            && after.records == InsertRecords(
                 db, w.page, Admitted(cfg, w.plan, |db.records|, extract.records)).records
  {
    hide StepOk, LogGrows, JobStep, InsertRecords, Admitted, StoreExtract, AdvanceExtraction;
    if w.page < |db.pages| {
      StoreRows(cfg, db, w.plan, w.page, extract);
      AdvanceKeepsCounters(Release(StoreExtract(cfg, db, w.plan, w.page, extract)), w.plan, now);
    }
  }

  /**
   * What a completed page stores, in terms of the rows. Every extracted record within the limits has its identity in
   * the new table. The new rows are extracted records within the limits, in their order, each the first of its identity
   * on the page and new to the table, stored under the page with its payload. The counter grows by their number, and
   * the page is EXTRACTED if there is one and PARTIAL otherwise. `source` are their positions in the extracted records.
   */
  lemma CompletionStores(cfg: Config, db: Db, w: Work, extract: Extract, now: int) returns (source: seq<nat>)
    requires w.ExtractionWork? && CompleteExtraction(cfg, db, w, extract, now).reply == Done
    ensures var after := CompleteExtraction(cfg, db, w, extract, now).db;
            && AppendedFrom(db.records, extract.records, source, w.page, after.records)
            && (forall k :: 0 <= k < |extract.records| && WithinLimits(cfg, w.plan, |db.records|, k) ==>
                  Holds(after.records, extract.records[k].identity))
            && (forall j :: 0 <= j < |source| ==>
                  && WithinLimits(cfg, w.plan, |db.records|, source[j])
                  && FirstOfItsKind(extract.records, source[j])
                  && !Holds(db.records, extract.records[source[j]].identity))
            && after.job.recordsFound == db.job.recordsFound + |source|
            && after.job.pagesProcessed == db.job.pagesProcessed + 1 && after.job.lease == None
            && w.page < |db.pages|
            && after.pages == db.pages[w.page := db.pages[w.page].(
                 extraction := Some(if source != [] then PageExtracted else PagePartial))]
  {
    hide CompleteExtraction, InsertRecords, Admitted, Holds;
    CompletionRows(cfg, db, w, extract, now);
    var slice := Admitted(cfg, w.plan, |db.records|, extract.records);
    AdmitsTheSlice(cfg, w.plan, |db.records|, extract.records);
    source := Inserts(db, w.page, slice);
    forall j | 0 <= j < |source|
      ensures FirstOfItsKind(extract.records, source[j])
    {
      assert FirstOfItsKind(slice, source[j]);
    }
  }

  /** A stored completion leaves out a record exactly when neither the table nor the slice has it. */
  lemma LeftOut(cfg: Config, db: Db, w: Work, extract: Extract, now: int, id: string)
    requires w.ExtractionWork? && CompleteExtraction(cfg, db, w, extract, now).reply == Done
    ensures Holds(CompleteExtraction(cfg, db, w, extract, now).db.records, id) <==>
            || Holds(db.records, id)
            || exists k :: 0 <= k < |extract.records| && WithinLimits(cfg, w.plan, |db.records|, k)
                 && extract.records[k].identity == id
  {
    hide CompleteExtraction, WithinLimits;
    var after := CompleteExtraction(cfg, db, w, extract, now).db.records;
    var source := CompletionStores(cfg, db, w, extract, now);
    if Holds(db.records, id) { HoldsMore(db.records, after, id); }
    if Holds(after, id) && !Holds(db.records, id) {
      var i :| 0 <= i < |after| && after[i].identity == id;
      assert i >= |db.records|;
      assert extract.records[source[i - |db.records|]].identity == id;
    }
  }

  /**
   * Over any run of the queue: after the stored completion of step `i`, an extracted record is missing at a later time
   * only if its position is past a limit of the job's plan or of the server, counted from the records stored before.
   */
  lemma StoredInRun(cfg: Config, trace: seq<System>, steps: seq<Step>, i: nat, j: nat, k: nat)
    requires QueueRun(cfg, trace, steps) && i < j <= |steps| && steps[i].call.CompleteExtractionCall?
    requires Apply(cfg, trace[i].db, steps[i]).reply == Done && k < |steps[i].call.extract.records|
    ensures trace[i].db.plan.Some?
    ensures var plan, stored := trace[i].db.plan.value, |trace[i].db.records|;
            !Holds(trace[j].db.records, steps[i].call.extract.records[k].identity) ==>
              stored + k >= plan.maxRecords || stored + k >= cfg.serverMaxRecords
  {
    hide Apply, CompleteExtraction, Holds;
    var w, extract := steps[i].call.work, steps[i].call.extract;
    CompletionWork(cfg, trace, steps, i);
    var source := CompletionStores(cfg, trace[i].db, w, extract, steps[i].now);
    QueueIsCalls(cfg, trace, steps);
    OnlyGrows(cfg, States(trace), steps, i + 1, j);
    var id := extract.records[k].identity;
    if Holds(trace[i + 1].db.records, id) { HoldsMore(trace[i + 1].db.records, trace[j].db.records, id); }
  }

  /** A stored completion comes from a worker that holds the job's own plan. */
  lemma CompletionWork(cfg: Config, trace: seq<System>, steps: seq<Step>, i: nat)
    requires QueueRun(cfg, trace, steps) && i < |steps| && steps[i].call.CompleteExtractionCall?
    requires Apply(cfg, trace[i].db, steps[i]).reply == Done
    ensures steps[i].call.work.ExtractionWork? && trace[i].db.plan == Some(steps[i].call.work.plan)
    ensures var r := CompleteExtraction(cfg, trace[i].db, steps[i].call.work, steps[i].call.extract, steps[i].now);
            r.reply == Done && trace[i + 1].db == r.db
  {
    hide CompleteExtraction, RowsOk, Numbered, FormatsOk, StepOk;
    Reachable(cfg, trace, steps, i);
    assert Next(cfg, trace[i], steps[i], trace[i + 1]);
    assert WorkOk(trace[i].db.pages, trace[i].db.plan, steps[i].call.work);
  }

  lemma {:induction false} IncreasingGrows(source: seq<nat>, j: nat)
    requires j < |source| && forall i, k :: 0 <= i < k < |source| ==> source[i] < source[k]
    ensures source[j] >= j
  {
    if j > 0 { IncreasingGrows(source, j - 1); }
  }

  /**
   * Repeated identities on a page use up the limit: the third record is left out although only one record is stored and
   * the limit is two.
   */
  lemma RepeatsUseUpTheLimit(cfg: Config, db: Db, w: Work, now: int)
    requires w.ExtractionWork? && w.plan.maxRecords == 2 && cfg.serverMaxRecords >= 2 && db.records == []
    requires var extract := Extract([Record("a", 0, "x"), Record("a", 0, "x"), Record("b", 0, "y")], 0);
             CompleteExtraction(cfg, db, w, extract, now).reply == Done
    ensures var extract := Extract([Record("a", 0, "x"), Record("a", 0, "x"), Record("b", 0, "y")], 0);
            CompleteExtraction(cfg, db, w, extract, now).db.records == [Record("a", w.page, "x")]
  {
    hide CompleteExtraction;
    var extract := Extract([Record("a", 0, "x"), Record("a", 0, "x"), Record("b", 0, "y")], 0);
    var after := CompleteExtraction(cfg, db, w, extract, now).db.records;
    var source := CompletionStores(cfg, db, w, extract, now);
    assert WithinLimits(cfg, w.plan, 0, 0) && extract.records[0].identity == "a";
    assert extract.records[1].identity == extract.records[0].identity;
    assert source != [] by { assert Holds(after, extract.records[0].identity); }
    assert !FirstOfItsKind(extract.records, 1) && !WithinLimits(cfg, w.plan, 0, 2);
    IncreasingGrows(source, |source| - 1);
    assert source[0] == 0 && after[|db.records| + 0] == Record(extract.records[0].identity, w.page, "x");
  }
}
