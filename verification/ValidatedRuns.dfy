/** Which jobs the validator stops: the raise of its comparisons (validation_service.py), over whole runs. */
module ValidatedRuns {
  import opened Wrappers
  import opened Domain
  import opened Rows
  import opened Lifecycle
  import opened Stages
  import opened Protocol
  import opened Invariants
  import opened Runs
  import opened Growth
  import opened Results
  import opened CrawlOrder
  import opened Liveness
  import V = Validator

  // When the validator raises

  predicate Present(p: V.Payload, name: string) { name in p.fields && p.fields[name].value.Some? }

  /** One of the two compared values is a string and the other one a number or a boolean. */
  predicate MixedPair(p: V.Payload, low: string, high: string) {
    && Present(p, low) && Present(p, high)
    && p.fields[low].value.value.Str? != p.fields[high].value.value.Str?
  }

  ghost predicate Mixed(p: V.Payload) {
    exists k :: 0 <= k < |V.PAIRS| && MixedPair(p, V.PAIRS[k].0, V.PAIRS[k].1)
  }

  lemma {:induction false} PairsRaise(r: V.Rules, p: V.Payload, pairs: seq<(string, string)>)
    ensures V.PairsRules(r, p, pairs).None? <==>
            exists k :: 0 <= k < |pairs| && MixedPair(p, pairs[k].0, pairs[k].1)
  {
    if pairs != [] {
      var n := |pairs| - 1;
      PairsRaise(r, p, pairs[..n]);
      assert V.PairRules(r, p, pairs[n].0, pairs[n].1).None? <==> MixedPair(p, pairs[n].0, pairs[n].1);
    }
  }

  /** Validating a record raises if and only if some compared pair is mixed, whatever the plan asks for. */
  lemma RaisesExactly(r: V.Rules, p: V.Payload)
    ensures V.Outcomes(r, p).None? <==> Mixed(p)
  {
    hide V.FieldOutcomes, V.ProvenanceStatus, V.PairsRules, MixedPair;
    PairsRaise(r, p, V.PAIRS);
  }

  // Runs that the validator judges

  /** The raise that the protocol asks about is the validator's; `read` decodes a stored payload. */
  ghost predicate Judges(cfg: Config, rules: V.Rules, read: string -> V.Payload) {
    forall text :: cfg.compares(text) <==> V.Outcomes(rules, read(text)).Some?
  }

  ghost predicate HoldsMixed(records: seq<Record>, read: string -> V.Payload) {
    exists k :: 0 <= k < |records| && Mixed(read(records[k].payload))
  }

  lemma ComparableExactly(cfg: Config, rules: V.Rules, read: string -> V.Payload, records: seq<Record>)
    requires Judges(cfg, rules, read)
    ensures Comparable(cfg, records) <==> !HoldsMixed(records, read)
  {
    hide V.Outcomes, Mixed;
    forall k | 0 <= k < |records|
      ensures cfg.compares(records[k].payload) <==> !Mixed(read(records[k].payload))
    {
      RaisesExactly(rules, read(records[k].payload));
    }
  }

  /** Over any run of any calls: a stored record with a mixed pair keeps the job from getting past VALIDATING. */
  lemma MixedNeverExports(
    cfg: Config, rules: V.Rules, read: string -> V.Payload, dbs: seq<Db>, steps: seq<Step>, i: nat, j: nat)
    requires Judges(cfg, rules, read) && CallRun(cfg, dbs, steps) && i <= j <= |steps|
    requires !HasExported(dbs[i].job.status) && HoldsMixed(dbs[i].records, read)
    ensures !HasExported(dbs[j].job.status)
  {
    hide Apply, Judges, HoldsMixed;
    ComparableExactly(cfg, rules, read, dbs[i].records);
    IncomparableNeverExports(cfg, dbs, steps, i, j);
  }

  /** A state from which no call gets the job past VALIDATING. */
  ghost predicate Behind(cfg: Config, db: Db) {
    JobOk(db.job) && !HasExported(db.job.status) && !Comparable(cfg, db.records)
  }

  lemma StepStaysBehind(cfg: Config, db: Db, step: Step)
    requires Behind(cfg, db)
    ensures Behind(cfg, Apply(cfg, db, step).db)
  {
    hide Apply;
    var after := Apply(cfg, db, step).db;
    StepGrows(cfg, db, step);
    var k :| 0 <= k < |db.records| && !cfg.compares(db.records[k].payload);
    assert !cfg.compares(after.records[k].payload);
    if HasExported(after.job.status) { ExportsAfterValidation(cfg, db, step); }
  }

  lemma {:induction false} PathStaysBehind(cfg: Config, q: Quiet, rest: seq<Quiet>, more: seq<Step>, n: nat)
    requires QuietPath(cfg, q, rest, more) && Behind(cfg, q.run.db) && n <= |more|
    ensures Behind(cfg, rest[n].run.db)
  {
    hide Apply, Behind;
    if n > 0 {
      PathStaysBehind(cfg, q, rest, more, n - 1);
      assert NextQuiet(cfg, rest[n - 1], more[n - 1], rest[n]);
      StepStaysBehind(cfg, rest[n - 1].run.db, more[n - 1]);
    }
  }

  ghost predicate Completes(cfg: Config, q: Quiet, rest: seq<Quiet>, more: seq<Step>) {
    QuietPath(cfg, q, rest, more) && rest[|more|].run.db.job.status == Completed
  }

  ghost predicate CanComplete(cfg: Config, q: Quiet) { exists rest, more :: Completes(cfg, q, rest, more) }

  /**
   * A failure-free run that has not reached the export stage can be brought to COMPLETED without a failure if and only
   * if no record that it has stored pairs a string with a number in one of the three compared pairs.
   */
  lemma CompletableExactly(
    cfg: Config, rules: V.Rules, read: string -> V.Payload, trace: seq<Quiet>, steps: seq<Step>)
    requires DistinctKeys(cfg) && Judges(cfg, rules, read) && QuietRun(cfg, trace, steps)
    requires !HasExported(trace[|steps|].run.db.job.status)
    ensures CanComplete(cfg, trace[|steps|]) <==> !HoldsMixed(trace[|steps|].run.db.records, read)
  {
    hide Apply, Judges, HoldsMixed, QuietState, NextQuiet, QuietPath, Initial, Comparable;
    var q := trace[|steps|];
    ComparableExactly(cfg, rules, read, q.run.db.records);
    if Comparable(cfg, q.run.db.records) {
      var rest, more := EveryQuietRunCanComplete(cfg, trace, steps);
      assert Completes(cfg, q, rest, more);
    } else if rest, more :| Completes(cfg, q, rest, more) {
      QuietReachable(cfg, trace, steps, |steps|);
      SoundRow(cfg, q);
      PathStaysBehind(cfg, q, rest, more, |more|);
    }
  }

  lemma SoundRow(cfg: Config, q: Quiet)
    requires QuietState(cfg, q)
    ensures JobOk(q.run.db.job)
  {
  }
}
