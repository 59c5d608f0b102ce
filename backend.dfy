// DefaultLuceneBackend: the two lease factories over the engine, the
// `search`/`update` shortcuts of LuceneBackend, and the ordered shutdown.

module Backend {
  import opened Outcomes
  import opened Leases
  import opened Index

  /** The update lease's value: the long-lived writer, taxonomy writer and facet config, all held by the engine. */
  datatype UpdateComponents = UpdateComponents

  /** Search supplier: `searcherTaxonomyManager.acquire()` on the current snapshot. */
  function SearchSupplier(e: Engine): Ran<Searcher, Engine>
  {
    var a := Attempt(e, AcquireSearcher);
    if a.outcome.Thrown? then Ran(Thrown(a.outcome.exn), a.heap) else Ran(Ok(Searcher(e.visible)), a.heap)
  }

  /** Search releaser: `searcherTaxonomyManager.release(pair)` of the pair that was leased. */
  function SearchReleaser(s: Searcher, e: Engine): Ran<(), Engine>
  {
    Attempt(e, ReleaseSearcher)
  }

  /** Update supplier: the same long-lived components every time; nothing is acquired. */
  function UpdateSupplier(e: Engine): Ran<UpdateComponents, Engine>
  {
    Ran(Ok(UpdateComponents), e)
  }

  /** Update releaser: writer commit, then taxonomy commit, then maybeRefresh; a failure stops the rest. */
  function UpdateReleaser(u: UpdateComponents, e: Engine): Ran<(), Engine>
  {
    var c := Commit(e);
    if c.outcome.Thrown? then c
    else
      var t := Attempt(c.heap, TaxonomyCommit);
      if t.outcome.Thrown? then t else Refresh(t.heap)
  }

  const SearcherLeases: LeaseFactory<Searcher, Engine> := LeaseFactory(SearchSupplier, SearchReleaser)

  const UpdateLeases: LeaseFactory<UpdateComponents, Engine> := LeaseFactory(UpdateSupplier, UpdateReleaser)

  /** The calls an update release makes, in order, up to and including the first that fails. */
  function ReleaseCalls(faults: set<Call>): seq<Call>
  {
    if WriterCommit in faults then [WriterCommit]
    else if TaxonomyCommit in faults then [WriterCommit, TaxonomyCommit]
    else [WriterCommit, TaxonomyCommit, MaybeRefresh]
  }

  /**
   * Releasing an update lease commits, commits the taxonomy and refreshes, in
   * that order; the first failing step ends the sequence. Only a complete
   * sequence publishes the writer's documents to new searchers.
   */
  lemma UpdateReleaseOrder(u: UpdateComponents, e: Engine)
    ensures UpdateReleaser(u, e).heap.log == e.log + ReleaseCalls(e.faults)
    ensures UpdateReleaser(u, e).outcome.Ok? <==> ReleaseCalls(e.faults) == [WriterCommit, TaxonomyCommit, MaybeRefresh] && MaybeRefresh !in e.faults
    ensures UpdateReleaser(u, e).heap.writer == e.writer
    ensures UpdateReleaser(u, e).heap.committed == if WriterCommit in e.faults then e.committed else e.writer
    ensures UpdateReleaser(u, e).heap.visible ==
      if UpdateReleaser(u, e).outcome.Ok? then e.writer else e.visible
  {
  }

  /**
   * update(fn) is the commit/refresh boundary: when the release steps succeed,
   * searchers acquired afterwards see exactly the writer's documents as fn left them.
   */
  lemma UpdatePublishesWrites<R>(fn: LeaseFunction<UpdateComponents, R, Engine>, e: Engine)
    requires var x := fn(UpdateComponents, e).heap;
      WriterCommit !in x.faults && TaxonomyCommit !in x.faults && MaybeRefresh !in x.faults
    ensures UpdateLeases.WithLease(fn, e).heap.visible == fn(UpdateComponents, e).heap.writer
    ensures UpdateLeases.WithLease(fn, e).heap.committed == fn(UpdateComponents, e).heap.writer
    ensures UpdateLeases.WithLease(fn, e).heap.log ==
      fn(UpdateComponents, e).heap.log + [WriterCommit, TaxonomyCommit, MaybeRefresh]
  {
    UpdateReleaseOrder(UpdateComponents, fn(UpdateComponents, e).heap);
  }

  /**
   * search(fn) hands fn a searcher over the snapshot current at acquisition and
   * releases that searcher once afterwards; if acquisition fails fn never runs.
   */
  lemma SearchLeaseProtocol<R>(fn: LeaseFunction<Searcher, R, Engine>, e: Engine)
    ensures AcquireSearcher in e.faults ==>
      SearcherLeases.WithLease(fn, e).heap == e.(log := e.log + [AcquireSearcher])
      && SearcherLeases.WithLease(fn, e).outcome.Thrown?
    ensures AcquireSearcher !in e.faults ==>
      var x := fn(Searcher(e.visible), e.(log := e.log + [AcquireSearcher]));
      SearcherLeases.WithLease(fn, e).heap == x.heap.(log := x.heap.log + [ReleaseSearcher])
  {
  }

  /** The calls close() makes, in order: the engine steps up to the first failure, then both writer closes. */
  function ShutdownCalls(faults: set<Call>): seq<Call>
  {
    if Flush in faults then [Flush]
    else if ForceMerge in faults then [Flush, ForceMerge]
    else if ManagerClose in faults then [Flush, ForceMerge, ManagerClose]
    else [Flush, ForceMerge, ManagerClose, WriterClose, TaxonomyClose]
  }

  class DefaultLuceneBackend {
    var engine: Engine
    const searcherLeaseFactory: LeaseFactory<Searcher, Engine>
    const updateLeaseFactory: LeaseFactory<UpdateComponents, Engine>

    /** The factories are built once, so every accessor call returns the same ones. */
    constructor (e: Engine)
      ensures engine == e
      ensures searcherLeaseFactory == SearcherLeases && updateLeaseFactory == UpdateLeases
    {
      engine := e;
      searcherLeaseFactory := SearcherLeases;
      updateLeaseFactory := UpdateLeases;
    }

    /** search(fn): lease, execute, close; the LeaseException propagates and the lease is still closed. */
    method Search<R>(fn: LeaseFunction<Searcher, R, Engine>) returns (r: Outcome<R>)
      modifies this
      ensures Ran(r, engine) == searcherLeaseFactory.WithLease(fn, old(engine))
    {
      var acquired, e1 := searcherLeaseFactory.Lease(engine);
      engine := e1;
      if acquired.Thrown? {
        r := Thrown(acquired.exn);
        return;
      }
      var lease := acquired.value;
      var x := lease.Execute(fn, engine);
      engine := lease.Close(x.heap);
      r := x.outcome;
    }

    /** update(fn): the same with the update lease; closing it commits and refreshes. */
    method Update<R>(fn: LeaseFunction<UpdateComponents, R, Engine>) returns (r: Outcome<R>)
      modifies this
      ensures Ran(r, engine) == updateLeaseFactory.WithLease(fn, old(engine))
    {
      var acquired, e1 := updateLeaseFactory.Lease(engine);
      engine := e1;
      if acquired.Thrown? {
        r := Thrown(acquired.exn);
        return;
      }
      var lease := acquired.value;
      var x := lease.Execute(fn, engine);
      engine := lease.Close(x.heap);
      r := x.outcome;
    }

    /**
     * close(): flush, forceMerge(1), close the manager (an IOException from any
     * of these propagates and stops the rest), then close the index writer and
     * the taxonomy writer, each failure logged at WARN and the next step still run.
     * Closing the index writer commits it.
     */
    method Close() returns (r: Outcome<()>, warnings: seq<string>)
      modifies this
      ensures engine.log == old(engine.log) + ShutdownCalls(old(engine.faults))
      ensures engine.faults == old(engine.faults) && engine.visible == old(engine.visible)
      ensures engine.writer == old(engine.writer) && engine.facets == old(engine.facets)
      ensures r.Ok? <==> Flush !in engine.faults && ForceMerge !in engine.faults && ManagerClose !in engine.faults
      ensures r.Thrown? ==> r.exn.kind == IOEx && warnings == [] && engine.writerOpen == old(engine.writerOpen)
      ensures r.Ok? ==> !engine.managerOpen
      ensures r.Ok? ==> (engine.writerOpen <==> old(engine.writerOpen) && WriterClose in engine.faults)
      ensures r.Ok? ==> (engine.taxonomyOpen <==> old(engine.taxonomyOpen) && TaxonomyClose in engine.faults)
      ensures r.Ok? && WriterClose !in engine.faults ==> engine.committed == engine.writer
      ensures r.Ok? ==>
        warnings == (if WriterClose in engine.faults then ["Failed to close index writer: " + EngineFailure] else [])
                    + (if TaxonomyClose in engine.faults then ["Failed to close taxonomy writer: " + EngineFailure] else [])
    {
      warnings := [];
      r := StopManager();
      if r.Thrown? { return; }
      warnings := CloseWriters();
      r := Ok(());
    }

    /** The first half of close(): flush, forceMerge(1) and the manager's close, stopping at the first IOException. */
    method StopManager() returns (r: Outcome<()>)
      modifies this
      ensures engine == old(engine).(log := engine.log, managerOpen := engine.managerOpen)
      ensures r.Ok? <==> Flush !in engine.faults && ForceMerge !in engine.faults && ManagerClose !in engine.faults
      ensures r.Thrown? ==> r.exn.kind == IOEx && engine.managerOpen == old(engine.managerOpen)
      ensures r.Ok? ==> !engine.managerOpen && engine.log == old(engine.log) + [Flush, ForceMerge, ManagerClose]
      ensures r.Thrown? ==> engine.log == old(engine.log) + ShutdownCalls(old(engine.faults))
    {
      var s := Attempt(engine, Flush);
      engine := s.heap;
      if s.outcome.Thrown? { r := Thrown(s.outcome.exn); return; }
      s := Attempt(engine, ForceMerge);
      engine := s.heap;
      if s.outcome.Thrown? {
        assert engine.log == old(engine.log) + [Flush, ForceMerge];
        r := Thrown(s.outcome.exn); return;
      }
      s := Attempt(engine, ManagerClose);
      engine := s.heap;
      assert engine.log == old(engine.log) + [Flush, ForceMerge, ManagerClose];
      if s.outcome.Thrown? { r := Thrown(s.outcome.exn); return; }
      engine := engine.(managerOpen := false);
      r := Ok(());
    }

    /** The second half of close(): both writers closed, each failure a warning. */
    method CloseWriters() returns (warnings: seq<string>)
      modifies this
      ensures engine == old(engine).(log := engine.log, writerOpen := engine.writerOpen,
                                     taxonomyOpen := engine.taxonomyOpen, committed := engine.committed)
      ensures engine.log == old(engine.log) + [WriterClose, TaxonomyClose]
      ensures engine.writerOpen <==> old(engine.writerOpen) && WriterClose in engine.faults
      ensures engine.taxonomyOpen <==> old(engine.taxonomyOpen) && TaxonomyClose in engine.faults
      ensures WriterClose !in engine.faults ==> engine.committed == engine.writer
      ensures warnings == (if WriterClose in engine.faults then ["Failed to close index writer: " + EngineFailure] else [])
                          + (if TaxonomyClose in engine.faults then ["Failed to close taxonomy writer: " + EngineFailure] else [])
    {
      warnings := [];
      var s := Attempt(engine, WriterClose);
      engine := s.heap;
      if s.outcome.Thrown? {
        warnings := warnings + ["Failed to close index writer: " + s.outcome.exn.message];
      } else {
        engine := engine.(writerOpen := false, committed := engine.writer);
      }

      s := Attempt(engine, TaxonomyClose);
      engine := s.heap;
      assert engine.log == old(engine.log) + [WriterClose, TaxonomyClose];
      if s.outcome.Thrown? {
        warnings := warnings + ["Failed to close taxonomy writer: " + s.outcome.exn.message];
      } else {
        engine := engine.(taxonomyOpen := false);
      }
    }
  }
}
