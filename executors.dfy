// QueryExecutor and PagedQueryExecutor: the default execute, withOptions and
// the Wrapper record that keeps option overrides from nesting, withIterator,
// and DefaultQueryExecutor's bounded search over a search lease.

module Executors {
  import opened Outcomes
  import opened Leases
  import opened Index
  import opened Results
  import opened Backend
  import QueryFactories

  /** QueryOptions: the number of hits a result (or a page) holds at most. */
  datatype QueryOptions = QueryOptions(maxHits: int)

  const DEFAULT: QueryOptions := QueryOptions(10)

  /** Only the highest ranked document. */
  const TOP_HIT: QueryOptions := QueryOptions(1)

  /**
   * A query executor whose execute yields an R: a ResultView for a
   * QueryExecutor, a paged result for a PagedQueryExecutor. It is either an
   * implementation, given by what its `execute(query, options)` does to the
   * engine, or the Wrapper record.
   */
  datatype Executor<!K, R> =
    | Root(run: (K, QueryOptions, Engine) -> Ran<R, Engine>)
    | Wrapper(delegate: Executor<K, R>, options: QueryOptions)
  {
    /** `execute(query, options)`; a Wrapper ignores the options it is given and passes on its own. */
    function Execute(q: K, o: QueryOptions, h: Engine): Ran<R, Engine>
      decreases this
    {
      match this
      case Root(run) => run(q, o, h)
      case Wrapper(d, opts) => d.Execute(q, opts, h)
    }

    /** `execute(query)`: the default options. */
    function ExecuteDefault(q: K, h: Engine): Ran<R, Engine>
    {
      Execute(q, DEFAULT, h)
    }

    /** `withOptions(o)`: a Wrapper of this, or of this Wrapper's delegate. */
    function WithOptions(o: QueryOptions): Executor<K, R>
    {
      if Wrapper? then Wrapper(delegate, o) else Wrapper(this, o)
    }

    /** How many Wrappers are stacked on the implementation. */
    function Depth(): nat
      decreases this
    {
      if Wrapper? then 1 + delegate.Depth() else 0
    }
  }

  /** At most one Wrapper on top of an implementation: what withOptions alone builds. */
  predicate Flat<K, R>(x: Executor<K, R>)
  {
    x.Depth() <= 1
  }

  /** The implementation under a flat executor. */
  function Base<K, R>(x: Executor<K, R>): Executor<K, R>
  {
    if x.Wrapper? then x.delegate else x
  }

  /** withOptions applied once per entry of `os`, in order. */
  function ApplyOptions<K, R>(x: Executor<K, R>, os: seq<QueryOptions>): Executor<K, R>
    decreases |os|
  {
    if os == [] then x else ApplyOptions(x.WithOptions(os[0]), os[1..])
  }

  /** withOptions never adds a level: an implementation gets one Wrapper, a Wrapper stays as deep as it was. */
  lemma WithOptionsNeverNests<K, R>(x: Executor<K, R>, o: QueryOptions)
    ensures x.WithOptions(o).Depth() == if x.Wrapper? then x.Depth() else 1
    ensures x.WithOptions(o).options == o
    ensures Base(x.WithOptions(o)) == if x.Wrapper? then x.delegate else x
  {
  }

  /** A Wrapper runs its delegate with its stored options, whatever options it is called with. */
  lemma WrapperIgnoresOptions<K, R>(d: Executor<K, R>, stored: QueryOptions, q: K, o: QueryOptions, h: Engine)
    ensures Wrapper(d, stored).Execute(q, o, h) == d.Execute(q, stored, h)
    ensures Wrapper(d, stored).ExecuteDefault(q, h) == d.Execute(q, stored, h)
  {
  }

  /** execute(query) is execute(query, DEFAULT), ten hits. */
  lemma ExecuteDefaultIsTen<K, R>(x: Executor<K, R>, q: K, h: Engine)
    ensures x.ExecuteDefault(q, h) == x.Execute(q, QueryOptions(10), h)
  {
  }

  /**
   * Any chain of withOptions calls on a flat executor leaves one Wrapper over
   * the same implementation, and the last options win: the implementation
   * runs with them whatever options execute is called with.
   */
  lemma {:induction false} LastOptionsWin<K, R>(x: Executor<K, R>, os: seq<QueryOptions>, q: K, o: QueryOptions, h: Engine)
    requires Flat(x) && |os| >= 1
    ensures ApplyOptions(x, os) == Wrapper(Base(x), os[|os| - 1])
    ensures Flat(ApplyOptions(x, os))
    ensures ApplyOptions(x, os).Execute(q, o, h) == Base(x).Execute(q, os[|os| - 1], h)
    decreases |os|
  {
    var y := x.WithOptions(os[0]);
    assert y == Wrapper(Base(x), os[0]);
    if |os| > 1 {
      LastOptionsWin(y, os[1..], q, o, h);
    }
  }

  /** `withIterator(factory)` on a QueryExecutor: execute with the same query and options, then adapt the result. */
  function WithResultIterator<K, A, B>(x: Executor<K, ResultView<A>>, factory: IteratorFactory<A, B>): Executor<K, ResultView<B>>
  {
    Root((q: K, o: QueryOptions, h: Engine) =>
      var r := x.Execute(q, o, h);
      Ran(if r.outcome.Ok? then Ok(WithIterator(r.outcome.value, factory)) else Thrown(r.outcome.exn), r.heap))
  }

  /** The adapted executor runs the original with the options it is given and forwards totalHits and close. */
  lemma WithResultIteratorPasses<K, A, B>(x: Executor<K, ResultView<A>>, factory: IteratorFactory<A, B>, q: K, o: QueryOptions, h: Engine)
    ensures var r := WithResultIterator(x, factory).Execute(q, o, h);
      var base := x.Execute(q, o, h);
      && r.heap == base.heap
      && (r.outcome.Ok? <==> base.outcome.Ok?)
      && (base.outcome.Thrown? ==> r.outcome.exn == base.outcome.exn)
      && (base.outcome.Ok? ==>
            && r.outcome.value.totalHits == base.outcome.value.totalHits
            && r.outcome.value.closer == base.outcome.value.closer
            && r.outcome.value.hits == factory(base.outcome.value.hits))
  {
  }

  /**
   * withIterator builds a new implementation, not a Wrapper, so options set
   * before it win over options set after it: the outer Wrapper passes its
   * options to the adapter, which hands them to the inner Wrapper, which
   * ignores them.
   */
  lemma InnerOptionsWin<K, A, B>(x: Executor<K, ResultView<A>>, inner: QueryOptions, factory: IteratorFactory<A, B>,
                                 outer: QueryOptions, q: K, o: QueryOptions, h: Engine)
    ensures WithResultIterator(x.WithOptions(inner), factory).WithOptions(outer).Execute(q, o, h)
         == WithResultIterator(x.WithOptions(inner), factory).Execute(q, inner, h)
    ensures WithResultIterator(x.WithOptions(inner), factory).WithOptions(outer).Execute(q, o, h).heap
         == Base(x.WithOptions(inner)).Execute(q, inner, h).heap
  {
  }

  /** Adapting an executor by `mapping(f)` and then by `mapping(g)` runs like adapting it once by the composition. */
  lemma AdaptersCompose<K, A, B, C>(x: Executor<K, ResultView<A>>, f: A -> B, g: B -> C, k: A -> C, q: K, o: QueryOptions, h: Engine)
    requires forall a :: k(a) == g(f(a))
    ensures WithResultIterator(WithResultIterator(x, Mapping(f)), Mapping(g)).Execute(q, o, h)
         == WithResultIterator(x, Mapping(k)).Execute(q, o, h)
  {
    var r := x.Execute(q, o, h);
    if r.outcome.Ok? {
      MappedTwice(r.outcome.value, f, g, k);
    }
  }

  // ---------------------------------------------------- DefaultQueryExecutor

  /** `components -> components.indexSearcher().search(query, n)`. */
  function SearchFn(lq: Query, n: int): LeaseFunction<Searcher, TopDocs, Engine>
  {
    (s: Searcher, e: Engine) => Ran(Search(s, lq, n), e)
  }

  /**
   * What DefaultQueryExecutor.execute does: lease a searcher, translate the
   * query (a failure here propagates as it is and the lease is never
   * released), search for at most `maxHits` hits through the lease (a failure
   * propagates wrapped, the lease again unreleased), and hand the open lease to
   * the result, whose close releases it.
   */
  function DefaultQueryRun<K>(queryFactory: K -> Outcome<Query>, leases: LeaseFactory<Searcher, Engine>,
                              q: K, o: QueryOptions, h: Engine): Ran<ResultView<Document>, Engine>
  {
    var a := leases.Acquire(h);
    if a.outcome.Thrown? then Ran(Thrown(a.outcome.exn), a.heap)
    else
      var s := a.outcome.value;
      var lq := queryFactory(q);
      if lq.Thrown? then Ran(Thrown(lq.exn), a.heap)
      else
        var x := ExecuteOn(s, SearchFn(lq.value, o.maxHits), a.heap);
        if x.outcome.Thrown? then Ran(Thrown(x.outcome.exn), x.heap)
        else Ran(Ok(ResultView(FetchHits(s, x.outcome.value.scoreDocs), x.outcome.value.totalHits,
                               Release(leases.releaser, s))), x.heap)
  }

  /** The first `n` hits of the query, in document order. */
  function TopIds(s: Searcher, q: Query, n: nat): (r: seq<nat>)
    ensures |r| == if Count(s, q) <= n then Count(s, q) else n
    ensures forall i :: 0 <= i < |r| ==> r[i] == Hits(s, q)[i]
  {
    var all := Hits(s, q);
    if |all| <= n then all else all[..n]
  }

  /** The hit of document `n` as a result yields it: the engine's score and the stored fields. */
  function StoredHit(s: Searcher, n: nat): Hit<Document>
    requires n < |s.docs|
  {
    Hit(HitScore, StoredFields(s.docs[n]))
  }

  class DefaultQueryExecutor<K> {
    const queryFactory: K -> Outcome<Query>
    const searcherLeaseFactory: LeaseFactory<Searcher, Engine>

    constructor (queryFactory: K -> Outcome<Query>, searcherLeaseFactory: LeaseFactory<Searcher, Engine>)
      ensures this.queryFactory == queryFactory && this.searcherLeaseFactory == searcherLeaseFactory
    {
      this.queryFactory := queryFactory;
      this.searcherLeaseFactory := searcherLeaseFactory;
    }

    /** execute(query, options): one new lease per call, held open by the result it returns. */
    method Execute(q: K, o: QueryOptions, h: Engine) returns (r: Outcome<DefaultResult>, h': Engine)
      ensures var run := DefaultQueryRun(queryFactory, searcherLeaseFactory, q, o, h);
        && h' == run.heap
        && (r.Ok? <==> run.outcome.Ok?)
        && (r.Ok? ==> fresh(r.value) && fresh(r.value.lease) && r.value.View() == run.outcome.value
                      && r.value.closes && r.value.lease.releases == [])
        && (r.Thrown? ==> r.exn == run.outcome.exn)
    {
      var acquired, e1 := searcherLeaseFactory.Lease(h);
      if acquired.Thrown? {
        r, h' := Thrown(acquired.exn), e1;
        return;
      }
      var lease := acquired.value;
      var lq := queryFactory(q);
      if lq.Thrown? {
        r, h' := Thrown(lq.exn), e1;
        return;
      }
      var x := lease.Execute(SearchFn(lq.value, o.maxHits), e1);
      if x.outcome.Thrown? {
        r, h' := Thrown(x.outcome.exn), x.heap;
        return;
      }
      var result := new DefaultResult(x.outcome.value, lease, true);
      r, h' := Ok(result), x.heap;
    }
  }

  /**
   * On the backend's search leases, a query that translates and a positive
   * `maxHits`: the result holds the first `maxHits` matching documents (all of
   * them when there are fewer), each with its stored fields, reports the total
   * number of matches in the snapshot, and keeps its lease open; listing it
   * releases that lease once.
   */
  lemma DefaultQueryBounded<K>(queryFactory: K -> Outcome<Query>, q: K, lq: Query, o: QueryOptions, h: Engine)
    requires AcquireSearcher !in h.faults && queryFactory(q) == Ok(lq) && o.maxHits >= 1
    ensures var run := DefaultQueryRun(queryFactory, SearcherLeases, q, o, h);
      var s := Searcher(h.visible);
      var top := TopIds(s, lq, o.maxHits);
      && run.outcome.Ok?
      && run.heap.log == h.log + [AcquireSearcher]
      && run.outcome.value.totalHits == Count(s, lq)
      && run.outcome.value.hits.Ok?
      && |run.outcome.value.hits.value| == |top|
      && (forall i :: 0 <= i < |top| ==> run.outcome.value.hits.value[i] == StoredHit(s, top[i]))
      && ListOf(run.outcome.value, run.heap).heap.log == h.log + [AcquireSearcher, ReleaseSearcher]
  {
    var s := Searcher(h.visible);
    var top := TopIds(s, lq, o.maxHits);
    var h1 := h.(log := h.log + [AcquireSearcher]);
    assert SearcherLeases.Acquire(h) == Ran(Ok(s), h1);
    assert Search(s, lq, o.maxHits) == Ok(TopDocs(Count(s, lq), ToScoreDocs(top)));
    assert ExecuteOn(s, SearchFn(lq, o.maxHits), h1) == Ran(Ok(TopDocs(Count(s, lq), ToScoreDocs(top))), h1);
    var sds := ToScoreDocs(top);
    forall i | 0 <= i < |sds|
      ensures sds[i].doc < |s.docs|
    {
      assert sds[i].doc == Hits(s, lq)[i];
    }
    var hits := FetchHits(s, sds);
    assert DefaultQueryRun(queryFactory, SearcherLeases, q, o, h)
        == Ran(Ok(ResultView(hits, Count(s, lq), Release(SearchReleaser, s))), h1);
  }

  /** With more matches than `maxHits`, the result holds exactly `maxHits` hits. */
  lemma DefaultQueryFull<K>(queryFactory: K -> Outcome<Query>, q: K, lq: Query, o: QueryOptions, h: Engine)
    requires AcquireSearcher !in h.faults && queryFactory(q) == Ok(lq) && o.maxHits >= 1
    requires Count(Searcher(h.visible), lq) >= o.maxHits
    ensures var run := DefaultQueryRun(queryFactory, SearcherLeases, q, o, h);
      run.outcome.Ok? && run.outcome.value.hits.Ok? && |run.outcome.value.hits.value| == o.maxHits
  {
    DefaultQueryBounded(queryFactory, q, lq, o, h);
  }

  /**
   * An executor over `lucene()` searches for the very query it is given: it
   * never fails to translate, and its result holds that query's first
   * `maxHits` matches and its total.
   */
  lemma LuceneQueryRun(q: Query, o: QueryOptions, h: Engine)
    requires AcquireSearcher !in h.faults && o.maxHits >= 1
    ensures var run := DefaultQueryRun(QueryFactories.Lucene(), SearcherLeases, q, o, h);
      var s := Searcher(h.visible);
      var top := TopIds(s, q, o.maxHits);
      && run.outcome.Ok?
      && run.outcome.value.totalHits == Count(s, q)
      && run.outcome.value.hits.Ok?
      && |run.outcome.value.hits.value| == |top|
      && (forall i :: 0 <= i < |top| ==> run.outcome.value.hits.value[i] == StoredHit(s, top[i]))
  {
    QueryFactories.LuceneIdentity(q);
    DefaultQueryBounded(QueryFactories.Lucene(), q, q, o, h);
  }

  /**
   * A query that fails to translate propagates its own exception, unwrapped,
   * after the lease was acquired; the lease is then never released.
   */
  lemma DefaultQueryLeaksOnTranslation<K>(queryFactory: K -> Outcome<Query>, q: K, o: QueryOptions, h: Engine)
    requires AcquireSearcher !in h.faults && queryFactory(q).Thrown?
    ensures var run := DefaultQueryRun(queryFactory, SearcherLeases, q, o, h);
      && run.outcome == Thrown(queryFactory(q).exn)
      && run.heap == h.(log := h.log + [AcquireSearcher])
  {
  }

  /** A search that fails (no hits asked for) comes out wrapped by the lease, which is again left unreleased. */
  lemma DefaultQueryLeaksOnSearch<K>(queryFactory: K -> Outcome<Query>, q: K, lq: Query, o: QueryOptions, h: Engine)
    requires AcquireSearcher !in h.faults && queryFactory(q) == Ok(lq) && o.maxHits <= 0
    ensures var run := DefaultQueryRun(queryFactory, SearcherLeases, q, o, h);
      && run.outcome == Thrown(LeaseError("Failed to execute function with lease",
                                          Error(IllegalArgument, "numHits must be > 0")))
      && run.heap == h.(log := h.log + [AcquireSearcher])
  {
  }

  /** Failing to acquire a searcher stops before translation: the acquisition failure, wrapped. */
  lemma DefaultQueryNoLease<K>(queryFactory: K -> Outcome<Query>, q: K, o: QueryOptions, h: Engine)
    requires AcquireSearcher in h.faults
    ensures var run := DefaultQueryRun(queryFactory, SearcherLeases, q, o, h);
      && run.outcome == Thrown(LeaseError("Failed to acquire lease", IOError(EngineFailure)))
      && run.heap == h.(log := h.log + [AcquireSearcher])
  {
  }
}
