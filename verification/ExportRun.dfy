/** One run of run_export (worker.py) as the worker executes it, with compensation in its failure handlers. */
module ExportRun {
  import opened Wrappers
  import opened Rows
  import opened Lifecycle
  import opened Discovery
  import opened Stages
  import opened Protocol
  import opened ExportWorkers
  import opened JobServices

  /** The artifact store: `put` and `delete` are atomic. */
  class ArtifactStore {
    var objects: set<string>

    constructor ()
      ensures objects == {}
    {
      objects := {};
    }

    method Put(key: string)
      modifies this
      ensures objects == old(objects) + {key}
    {
      objects := objects + {key};
    }

    method Delete(key: string)
      modifies this
      ensures objects == old(objects) - {key}
    {
      objects := objects - {key};
    }
  }

  /** Where an exception or the timeout strikes. */
  datatype Point = Nowhere | AtLoad | AtRender | AtPut | AtCommit | AfterCommit

  datatype Fault = Fault(point: Point, error: Failure, timeout: bool)

  /** What other processes do at the awaits of a run: any service calls, except that they commit no export. */
  datatype Others = Others(
    atLoad: seq<Step>, atRender: seq<Step>, atPut: seq<Step>, atCommit: seq<Step>, atFailure: seq<Step>)

  /** Nobody else acts during the run. */
  predicate Calm(o: Others) {
    o.atLoad == [] && o.atRender == [] && o.atPut == [] && o.atCommit == [] && o.atFailure == []
  }

  predicate BeforeCommit(p: Point) { p == AtLoad || p == AtRender || p == AtPut || p == AtCommit }

  predicate IsCancelled(db: Db) { db.job.status.Cancelled? || db.job.cancelRequested }

  /** A claimed export of a job that nobody else touches can be committed under a new key. */
  lemma CalmCommit(db: Db, cmd: Command, key: string, now: int, until: int)
    requires ClaimExport(db, cmd, now, until).reply.Claimed? && !HasKey(db.files, key)
    ensures var claimed := ClaimExport(db, cmd, now, until);
            && claimed.reply.work.ExportWork? && !IsCancelled(claimed.db)
            && CompleteExport(claimed.db, claimed.reply.work, key, now).reply == Done
  {
    hide StepOk, LogGrows, MaxSequence, HasKey;
  }

  /** The failure that the handlers report: a timeout is not retryable. */
  function Reported(fault: Fault): Failure {
    if fault.timeout || fault.point == AfterCommit then fault.error.(retryable := false) else fault.error
  }

  /** The objects are those of the generated files and those of other workers. */
  ghost predicate Accounted(objects: set<string>, files: seq<GeneratedFile>, others: set<string>) {
    && (forall k :: k in objects <==> HasKey(files, k) || k in others)
    && (forall k <- others :: !HasKey(files, k))
  }

  class ExportWorker {
    const service: JobService
    const store: ArtifactStore
    const discovery: DiscoveryService

    constructor (service: JobService, store: ArtifactStore, discovery: DiscoveryService)
      requires discovery.cfg == service.cfg
      ensures this.service == service && this.store == store && this.discovery == discovery
    {
      this.service, this.store, this.discovery := service, store, discovery;
    }

    ghost predicate Valid() { discovery.cfg == service.cfg }

    method Interfere(steps: seq<Step>)
      requires Valid()
      modifies service
      ensures service.files == old(service.files)
      ensures steps == [] ==> service.State() == old(service.State())
    {
      for i := 0 to |steps|
        invariant service.files == old(service.files)
        invariant i == 0 ==> service.State() == old(service.State())
      {
        if !steps[i].call.CompleteExportCall? {
          ghost var before := service.State();
          OthersKeepFiles(service.cfg, before, steps[i]);
          var _ := service.Handle(discovery, steps[i]);
        }
      }
    }

    method Cancelled() returns (r: bool)
      ensures r == IsCancelled(service.State())
    {
      r := service.job.status.Cancelled? || service.job.cancelRequested;
    }

    /**
     * The guarded part of a run: load, render, store and commit. `reference` is the stored object that the failure
     * handlers see, `failed` says that they run, and `found` are the rows that the commit finds, if it is reached.
     */
    method Attempt(work: Work, key: string, fault: Fault, others: Others, now: int)
      returns (failed: bool, reference: Option<string>, committed: bool, ghost found: Option<Db>)
      requires Valid() && work.ExportWork? && !HasKey(service.files, key) && key !in store.objects
      modifies service, store
      ensures service.files ==
              if committed then old(service.files) + [GeneratedFile(work.exportId, key)] else old(service.files)
      ensures reference == None || reference == Some(key)
      ensures store.objects == old(store.objects) + if committed || reference.Some? then {key} else {}
      ensures found.Some? ==>
                var r := CompleteExport(found.value, work, key, now);
                service.State() == r.db && (committed <==> r.reply == Done)
      ensures found.None? ==> !committed
      ensures Calm(others) && !IsCancelled(old(service.State())) && !BeforeCommit(fault.point) ==>
                found == Some(old(service.State()))
      ensures Calm(others) && found.None? ==> service.State() == old(service.State())
      ensures fault.point == AtLoad ==> failed
      ensures failed && !committed ==> BeforeCommit(fault.point)
      ensures committed && failed <==> committed && fault.point == AfterCommit
      ensures failed && committed ==> reference.Some?
      ensures !failed && !committed ==> reference.None?
    {
      hide ClaimExport, CompleteExport, FailExport, StepOk, HasKey;
      failed, reference, committed, found := true, None, false, None;
      Interfere(others.atLoad);
      if fault.point == AtLoad {
        return;
      }
      var cancelled := Cancelled();
      if cancelled {
        failed := false;
        return;
      }
      Interfere(others.atRender);
      if fault.point == AtRender {
        return;
      }
      cancelled := Cancelled();
      if cancelled {
        failed := false;
        return;
      }
      Interfere(others.atPut);
      if fault.point == AtPut {
        return;
      }
      store.Put(key);
      reference := Some(key);
      Interfere(others.atCommit);
      if fault.point == AtCommit {
        return;
      }
      found := Some(service.State());
      CommitFiles(service.State(), work, key, now);
      var reply := service.CompleteExportWork(work, key, now);
      committed := reply == Done;
      if !committed {
        store.Delete(key);
        reference := None;
      }
      failed := committed && fault.point == AfterCommit;
    }

    /**
     * `key` is the fresh key that `put` will return. However the run ends, and whatever happens at its awaits, it
     * leaves neither an orphan object nor a dangling row, exactly unless a timeout strikes after its commit. A granted
     * run that nothing disturbs commits its file; a run that fails reports it, to the rows `told`.
     */
    method RunExport(
        cmd: Command, key: string, fault: Fault, others: Others, budget: nat, now: int, until: int,
        ghost held: set<string>)
      returns (retry: Option<nat>, committed: bool, ghost told: Option<Db>)
      requires Valid() && Accounted(store.objects, service.files, held)
      requires key !in store.objects
      modifies service, store
      ensures committed ==> exists id :: service.files == old(service.files) + [GeneratedFile(id, key)]
      ensures !committed ==> service.files == old(service.files)
      ensures Accounted(store.objects, service.files, held) <==> !(committed && fault.point == AfterCommit)
      ensures var claim := ClaimExport(old(service.State()), cmd, now, until);
              && (!claim.reply.Claimed? ==> !committed && told.None? && service.State() == claim.db)
              && (claim.reply.Claimed? && Calm(others) && fault.point == Nowhere ==>
                    committed && told.None?
                    && service.State() == CompleteExport(claim.db, claim.reply.work, key, now).db)
              && (claim.reply.Claimed? && fault.point == AtLoad ==> told.Some?)
      ensures committed && fault.point == AfterCommit ==> told.Some?
      ensures fault.point == Nowhere ==> told.None?
      ensures match told
              case None => retry.None?
              case Some(db) =>
                var r := FailExport(db, cmd, Reported(fault), budget, now);
                service.State() == r.db && retry == if r.reply.RetryAt? then Some(r.reply.attempt) else None
    {
      hide ClaimExport, CompleteExport, FailExport, StepOk, HasKey;
      retry, committed, told := None, false, None;
      ghost var before := service.State();
      ClaimFiles(service.State(), cmd, now, until);
      var claim := service.ClaimExportWork(cmd, now, until);
      if claim.Claimed? { CalmCommit(before, cmd, key, now, until); }
      if !claim.Claimed? || !claim.work.ExportWork? {
        return;
      }
      var work := claim.work;
      var failed, reference;
      ghost var found;
      failed, reference, committed, found := Attempt(work, key, fault, others, now);
      KeyRows(old(service.files), service.files, work.exportId, key, committed);
      if failed {
        if reference.Some? {
          store.Delete(reference.value);
        }
        Interfere(others.atFailure);
        var error := Reported(fault);
        told := Some(service.State());
        FailureFiles(service.State(), cmd, error, budget, now);
        var reply := service.FailExportWork(cmd, error, budget, now);
        retry := if reply.RetryAt? then Some(reply.attempt) else None;
      }
    }

    static lemma KeyRows(before: seq<GeneratedFile>, after: seq<GeneratedFile>, id: nat, key: string, committed: bool)
      requires after == if committed then before + [GeneratedFile(id, key)] else before
      ensures forall k :: HasKey(after, k) <==> HasKey(before, k) || (committed && k == key)
    {
      if committed {
        forall k
          ensures HasKey(after, k) <==> HasKey(before, k) || k == key
        {
          KeysAfterCommit(before, id, key, k);
        }
      }
    }
  }
}
