/** Export workers and the artifact store (worker.py): stored objects and generated-file rows agree. */
module ExportWorkers {
  import opened Wrappers
  import opened Domain
  import opened Rows
  import opened Lifecycle
  import opened Frontier
  import opened Stages
  import opened Protocol

  /** Where one run of run_export stands; `reference` is the stored object it knows of. */
  datatype Phase =
    | Rendering(work: Work)
    | Stored(work: Work, reference: string)
    | Committed(work: Work, reference: string)
    | Discarding(work: Work, reference: string, cause: Option<Failure>)
    | Reporting(work: Work, error: Failure)

  /** The rows, the store's objects, every key the store ever issued, and the running workers. */
  datatype Shop = Shop(db: Db, store: set<string>, issued: set<string>, workers: map<nat, Phase>)

  datatype Move =
    | Begin(id: nat, cmd: Command, until: int, now: int)
    | Leave(id: nat)
    | Put(id: nat, key: string)
    | Commit(id: nat, now: int)
    | Break(id: nat, error: Failure)
    | Delete(id: nat)
    | Report(id: nat, budget: nat, now: int)
    | Finish(id: nat)
    | LateTimeout(id: nat, error: Failure)
    | Other(step: Step)

  const INFRASTRUCTURE := Failure("EXPORT_INFRASTRUCTURE_ERROR", true)

  function Without(workers: map<nat, Phase>, id: nat): map<nat, Phase> { workers - {id} }

  /** Which moves are possible: `Other` is any service call except the commit of an export. */
  predicate Enabled(shop: Shop, m: Move) {
    match m
    case Begin(id, _, _, _) => id !in shop.workers
    case Leave(id) => id in shop.workers && shop.workers[id].Rendering?
    case Put(id, key) => id in shop.workers && shop.workers[id].Rendering? && key !in shop.issued
    case Commit(id, _) => id in shop.workers && shop.workers[id].Stored? && shop.workers[id].work.ExportWork?
    case Break(id, _) => id in shop.workers && (shop.workers[id].Rendering? || shop.workers[id].Stored?)
    case Delete(id) => id in shop.workers && shop.workers[id].Discarding?
    case Report(id, _, _) => id in shop.workers && shop.workers[id].Reporting?
    case Finish(id) => id in shop.workers && shop.workers[id].Committed?
    case LateTimeout(id, _) => id in shop.workers && shop.workers[id].Committed?
    case Other(step) => !step.call.CompleteExportCall?
  }

  function Perform(cfg: Config, shop: Shop, m: Move): Shop
    requires Enabled(shop, m)
  {
    match m
    case Begin(id, cmd, until, now) =>
      var r := ClaimExport(shop.db, cmd, now, until);
      shop.(
        db := r.db,
        workers := if r.reply.Claimed? then shop.workers[id := Rendering(r.reply.work)] else shop.workers)
    case Leave(id) => shop.(workers := Without(shop.workers, id))
    case Put(id, key) =>
      shop.(
        store := shop.store + {key}, issued := shop.issued + {key},
        workers := shop.workers[id := Stored(shop.workers[id].work, key)])
    case Commit(id, now) =>
      var w := shop.workers[id];
      var r := CompleteExport(shop.db, w.work, w.reference, now);
      var next := if r.reply == Done then Committed(w.work, w.reference)
                  else if r.reply == Raised then Discarding(w.work, w.reference, Some(INFRASTRUCTURE))
                  else Discarding(w.work, w.reference, None);
      shop.(db := r.db, workers := shop.workers[id := next])
    case Break(id, error) =>
      var w := shop.workers[id];
      var next := if w.Stored? then Discarding(w.work, w.reference, Some(error)) else Reporting(w.work, error);
      shop.(workers := shop.workers[id := next])
    case Delete(id) =>
      var w := shop.workers[id];
      shop.(
        store := shop.store - {w.reference},
        workers := if w.cause.Some? then shop.workers[id := Reporting(w.work, w.cause.value)]
                   else Without(shop.workers, id))
    case Report(id, budget, now) =>
      var w := shop.workers[id];
      shop.(db := FailExport(shop.db, w.work.cmd, w.error, budget, now).db, workers := Without(shop.workers, id))
    case Finish(id) => shop.(workers := Without(shop.workers, id))
    case LateTimeout(id, error) =>
      var w := shop.workers[id];
      shop.(workers := shop.workers[id := Discarding(w.work, w.reference, Some(error))])
    case Other(step) => shop.(db := Apply(cfg, shop.db, step).db)
  }

  // Agreement

  /** Worker `id` knows of a stored object that no row references yet. */
  predicate Holds(workers: map<nat, Phase>, id: nat, key: string) {
    id in workers && (workers[id].Stored? || workers[id].Discarding?) && workers[id].reference == key
  }

  ghost predicate Held(workers: map<nat, Phase>, key: string) { exists i: nat :: Holds(workers, i, key) }

  /**
   * The store holds exactly the objects of generated files and those a worker still holds; no object is both, no two
   * workers hold one object, and a committed worker's file row exists.
   */
  ghost predicate Agree(shop: Shop) {
    && (forall k :: k in shop.store <==> HasKey(shop.db.files, k) || Held(shop.workers, k))
    && (forall k :: HasKey(shop.db.files, k) ==> !Held(shop.workers, k))
    && (forall i: nat, j: nat, k :: Holds(shop.workers, i, k) && Holds(shop.workers, j, k) ==> i == j)
    && CommittedHaveRows(shop)
    && shop.store <= shop.issued
  }

  ghost predicate CommittedHaveRows(shop: Shop) {
    forall i <- shop.workers :: shop.workers[i].Committed? ==> HasKey(shop.db.files, shop.workers[i].reference)
  }

  /** Nobody holds an object: every worker has returned or has not stored anything. */
  ghost predicate Quiescent(shop: Shop) { forall k :: !Held(shop.workers, k) }

  /** In the export stage the calls of the earlier stages are turned away or only touch the job row and the log. */
  lemma EarlyKeepFiles(cfg: Config, db: Db, step: Step)
    requires db.job.status == Exporting && (PlanningOrBrowser(step.call) || CrawlCall(step.call))
    ensures Apply(cfg, db, step).db.files == db.files
  {
    hide ClaimExtraction, CompleteExtraction, FailExtraction, ClaimValidation, CompleteValidation, FailValidation;
    hide ClaimExport, CompleteExport, FailExport, Cancel, Recover, Explore, StoreCapture, StorePlan, StepOk;
  }

  lemma LateKeepFiles(cfg: Config, db: Db, step: Step)
    requires db.job.status == Exporting && !PlanningOrBrowser(step.call) && !CrawlCall(step.call)
    requires !step.call.CompleteExportCall?
    ensures Apply(cfg, db, step).db.files == db.files
  {
    hide ClaimPlanning, CompletePlanning, FailPlanning, PrepareBrowser, CompleteBrowser, FailBrowser;
    hide ClaimDiscovery, CompleteDiscovery, FailDiscovery, StorePage, StoreValidation, StepOk;
  }

  /** Only the commit of an export writes file rows. */
  lemma OthersKeepFiles(cfg: Config, db: Db, step: Step)
    requires !step.call.CompleteExportCall?
    ensures Apply(cfg, db, step).db.files == db.files
  {
    hide Apply;
    if db.job.status == Exporting {
      if PlanningOrBrowser(step.call) || CrawlCall(step.call) {
        EarlyKeepFiles(cfg, db, step);
      } else {
        LateKeepFiles(cfg, db, step);
      }
    }
  }

  /** What a commit attempt does to the file rows. */
  lemma CommitFiles(db: Db, w: Work, key: string, now: int)
    requires w.ExportWork? && !HasKey(db.files, key)
    ensures var r := CompleteExport(db, w, key, now);
            && (r.reply == Done || r.reply == Nothing)
            && r.db.files == if r.reply == Done then db.files + [GeneratedFile(w.exportId, key)] else db.files
  {
  }

  lemma KeysAfterCommit(files: seq<GeneratedFile>, id: nat, key: string, k: string)
    ensures HasKey(files + [GeneratedFile(id, key)], k) <==> HasKey(files, k) || k == key
  {
    var after := files + [GeneratedFile(id, key)];
    assert after[|files|].storageKey == key;
    if HasKey(files, k) {
      var i :| 0 <= i < |files| && files[i].storageKey == k;
      assert after[i].storageKey == k;
    }
  }

  /** A move that leaves files, objects and holders alone. */
  lemma KeepAgree(shop: Shop, after: Shop)
    requires Agree(shop) && CommittedHaveRows(after)
    requires after.db.files == shop.db.files && after.store == shop.store && after.issued == shop.issued
    requires forall i: nat, k :: Holds(after.workers, i, k) <==> Holds(shop.workers, i, k)
    ensures Agree(after)
  {
    hide HasKey, Holds;
    assert forall k :: Held(after.workers, k) <==> Held(shop.workers, k);
  }

  /** A worker stores a fresh object. */
  lemma PutAgree(shop: Shop, after: Shop, id: nat, key: string)
    requires Agree(shop) && key !in shop.issued && CommittedHaveRows(after)
    requires after.db.files == shop.db.files
    requires after.store == shop.store + {key} && after.issued == shop.issued + {key}
    requires forall i: nat, k :: Holds(after.workers, i, k) <==> Holds(shop.workers, i, k) || (i == id && k == key)
    ensures Agree(after)
  {
    hide HasKey, Holds;
    assert forall k :: Held(after.workers, k) <==> Held(shop.workers, k) || k == key by {
      assert Holds(after.workers, id, key);
    }
  }

  /** A held object gets its file row. */
  lemma CommitAgree(shop: Shop, after: Shop, id: nat, key: string)
    requires Agree(shop) && Holds(shop.workers, id, key) && CommittedHaveRows(after)
    requires forall k :: HasKey(after.db.files, k) <==> HasKey(shop.db.files, k) || k == key
    requires after.store == shop.store && after.issued == shop.issued
    requires forall i: nat, k :: Holds(after.workers, i, k) <==> Holds(shop.workers, i, k) && i != id
    requires forall k :: Holds(shop.workers, id, k) ==> k == key
    ensures Agree(after)
  {
    hide HasKey, Holds;
    assert forall k :: Held(after.workers, k) <==> Held(shop.workers, k) && k != key;
  }

  /** A held object is deleted. */
  lemma DropAgree(shop: Shop, after: Shop, id: nat, key: string)
    requires Agree(shop) && Holds(shop.workers, id, key) && CommittedHaveRows(after)
    requires after.db.files == shop.db.files && after.store == shop.store - {key} && after.issued == shop.issued
    requires forall i: nat, k :: Holds(after.workers, i, k) <==> Holds(shop.workers, i, k) && i != id
    requires forall k :: Holds(shop.workers, id, k) ==> k == key
    ensures Agree(after)
  {
    hide HasKey, Holds;
    assert forall k :: Held(after.workers, k) <==> Held(shop.workers, k) && k != key;
  }

  lemma ClaimFiles(db: Db, cmd: Command, now: int, until: int)
    ensures ClaimExport(db, cmd, now, until).db.files == db.files
  {
  }

  lemma FailureFiles(db: Db, cmd: Command, error: Failure, budget: nat, now: int)
    ensures FailExport(db, cmd, error, budget, now).db.files == db.files
  {
  }

  /** Every move of every interleaving keeps the agreement, except a timeout that strikes after the commit. */
  lemma MoveKeepsAgreement(cfg: Config, shop: Shop, m: Move)
    requires Agree(shop) && Enabled(shop, m) && !m.LateTimeout?
    ensures Agree(Perform(cfg, shop, m))
  {
    hide ClaimExport, CompleteExport, FailExport, Apply, HasKey, Held, Agree;
    var after := Perform(cfg, shop, m);
    assert CommittedHaveRows(shop) by { AgreeRows(shop); }
    match m {
      case Begin(id, cmd, until, now) =>
        ClaimFiles(shop.db, cmd, now, until);
        KeepAgree(shop, after);
      case Put(id, key) => PutAgree(shop, after, id, key);
      case Commit(id, now) => CommitMove(cfg, shop, id, now);
      case Delete(id) => DropAgree(shop, after, id, shop.workers[id].reference);
      case Report(id, budget, now) =>
        FailureFiles(shop.db, shop.workers[id].work.cmd, shop.workers[id].error, budget, now);
        KeepAgree(shop, after);
      case Other(step) =>
        OthersKeepFiles(cfg, shop.db, step);
        KeepAgree(shop, after);
      case _ => KeepAgree(shop, after);
    }
  }

  lemma AgreeRows(shop: Shop)
    requires Agree(shop)
    ensures CommittedHaveRows(shop)
  {
  }

  lemma HeldHasNoRow(shop: Shop, id: nat, key: string)
    requires Agree(shop) && Holds(shop.workers, id, key)
    ensures !HasKey(shop.db.files, key)
  {
    assert Held(shop.workers, key);
  }

  lemma CommitMove(cfg: Config, shop: Shop, id: nat, now: int)
    requires Agree(shop) && Enabled(shop, Commit(id, now))
    ensures Agree(Perform(cfg, shop, Commit(id, now)))
  {
    hide CompleteExport, HasKey, Held, Agree;
    var after := Perform(cfg, shop, Commit(id, now));
    var w := shop.workers[id];
    HeldHasNoRow(shop, id, w.reference);
    CommitFiles(shop.db, w.work, w.reference, now);
    AgreeRows(shop);
    if CompleteExport(shop.db, w.work, w.reference, now).reply == Done {
      forall k
        ensures HasKey(after.db.files, k) <==> HasKey(shop.db.files, k) || k == w.reference
      {
        KeysAfterCommit(shop.db.files, w.work.exportId, w.reference, k);
      }
      CommitAgree(shop, after, id, w.reference);
    } else {
      KeepAgree(shop, after);
    }
  }

  /** The exact condition: one move breaks the agreement, and it always does. */
  lemma AgreementStep(cfg: Config, shop: Shop, m: Move)
    requires Agree(shop) && Enabled(shop, m)
    ensures Agree(Perform(cfg, shop, m)) <==> !m.LateTimeout?
  {
    hide Apply;
    if m.LateTimeout? {
      var after := Perform(cfg, shop, m);
      var key := shop.workers[m.id].reference;
      assert HasKey(after.db.files, key) && Holds(after.workers, m.id, key);
      assert Held(after.workers, key);
    } else {
      MoveKeepsAgreement(cfg, shop, m);
    }
  }

  /** What the late timeout costs: the handler deletes an object whose file row is already committed. */
  lemma LateTimeoutDangles(cfg: Config, shop: Shop, id: nat, error: Failure)
    requires Agree(shop) && Enabled(shop, LateTimeout(id, error))
    ensures var key := shop.workers[id].reference;
            var broken := Perform(cfg, shop, LateTimeout(id, error));
            var after := Perform(cfg, broken, Delete(id));
            HasKey(after.db.files, key) && key !in after.store
  {
  }

  // Runs

  ghost predicate ShopRun(cfg: Config, shops: seq<Shop>, moves: seq<Move>) {
    && |shops| == |moves| + 1
    && shops[0].db.files == [] && shops[0].store == {} && shops[0].workers == map[]
    && forall i :: 0 <= i < |moves| ==>
         Enabled(shops[i], moves[i]) && shops[i + 1] == Perform(cfg, shops[i], moves[i])
  }

  /**
   * Store and metadata agree: over every interleaving of any number of workers with each other, with cancellation,
   * recovery and every other service call, and with a failure at any step before a commit, the stored objects are
   * those of the generated files and those that a worker still holds; when nobody holds one, they are exactly those of
   * the generated files.
   */
  lemma {:induction false} StoreAgrees(cfg: Config, shops: seq<Shop>, moves: seq<Move>, i: nat)
    requires ShopRun(cfg, shops, moves) && i <= |moves|
    requires forall j :: 0 <= j < i ==> !moves[j].LateTimeout?
    ensures Agree(shops[i])
    ensures Quiescent(shops[i]) ==> shops[i].store == set f | f in shops[i].db.files :: f.storageKey
  {
    hide Perform, Enabled;
    if i == 0 {
      assert forall k :: !HasKey([], k);
    } else {
      StoreAgrees(cfg, shops, moves, i - 1);
      MoveKeepsAgreement(cfg, shops[i - 1], moves[i - 1]);
    }
    if Quiescent(shops[i]) {
      forall k
        ensures HasKey(shops[i].db.files, k) <==> k in set f | f in shops[i].db.files :: f.storageKey
      {
        if HasKey(shops[i].db.files, k) {
          var n :| 0 <= n < |shops[i].db.files| && shops[i].db.files[n].storageKey == k;
          assert shops[i].db.files[n] in shops[i].db.files;
        }
      }
    }
  }
}
