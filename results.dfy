// Query results: the Result interface's defaults and adapters (list,
// withIterator, IteratorFactory.mapping) over result values, and
// DefaultResult with its index-based iterator over a search lease.

module Results {
  import opened Outcomes
  import opened Numbers
  import opened Leases
  import opened Index

  /** `Hit`/`HitRecord`: a score and a value. */
  datatype Hit<V> = Hit(score: int, value: V)

  /** What closing a result does: nothing, or release the search lease it holds. */
  datatype Closer = Keep | Release(releaser: (Searcher, Engine) -> Ran<(), Engine>, lease: Searcher)

  function CloseOn(c: Closer, h: Engine): Engine
  {
    match c
    case Keep => h
    case Release(releaser, s) => ReleaseOn(releaser, s, h)
  }

  /**
   * A result as its users see it: what iterating it to the end yields (every
   * hit in iteration order, or the exception that stopped the iteration), the
   * engine's total, and what closing it does.
   */
  datatype ResultView<V> = ResultView(hits: Outcome<seq<Hit<V>>>, totalHits: int, closer: Closer)

  /** A Result that supplies only its iterator and keeps the interface defaults. */
  function Plain<V>(hits: seq<Hit<V>>): ResultView<V>
  {
    ResultView(Ok(hits), 0, Keep)
  }

  /**
   * `list()`: collect the stream, which try-with-resources then closes; closing
   * the stream closes the result, once, whether iteration finished or threw.
   */
  function ListOf<V>(r: ResultView<V>, h: Engine): Ran<seq<Hit<V>>, Engine>
  {
    Ran(r.hits, CloseOn(r.closer, h))
  }

  /** The defaults: no total, and listing leaves the engine as it was. */
  lemma PlainDefaults<V>(hits: seq<Hit<V>>, h: Engine)
    ensures Plain(hits).totalHits == 0
    ensures ListOf(Plain(hits), h) == Ran(Ok(hits), h)
  {
  }

  /** An iterator factory, seen through the whole run of the iterator it wraps. */
  type IteratorFactory<!A, B> = Outcome<seq<Hit<A>>> -> Outcome<seq<Hit<B>>>

  /** Each hit with the same score and its value mapped. */
  function MapHits<A, B>(f: A -> B, hits: seq<Hit<A>>): (r: seq<Hit<B>>)
    ensures |r| == |hits|
    ensures forall i :: 0 <= i < |r| ==> r[i].score == hits[i].score && r[i].value == f(hits[i].value)
  {
    if hits == [] then [] else [Hit(hits[0].score, f(hits[0].value))] + MapHits(f, hits[1..])
  }

  /** `IteratorFactory.mapping(f)`: next() takes the wrapped iterator's hit and maps its value; its exceptions pass through. */
  function Mapping<A, B>(f: A -> B): IteratorFactory<A, B>
  {
    (o: Outcome<seq<Hit<A>>>) => if o.Ok? then Ok(MapHits(f, o.value)) else Thrown(o.exn)
  }

  /** `withIterator(factory)`: iterate through the factory's iterator; totalHits and close are the original's. */
  function WithIterator<A, B>(r: ResultView<A>, factory: IteratorFactory<A, B>): ResultView<B>
  {
    ResultView(factory(r.hits), r.totalHits, r.closer)
  }

  /** withIterator forwards totalHits, and listing the adapter closes the original exactly as listing the original does. */
  lemma WithIteratorForwards<A, B>(r: ResultView<A>, factory: IteratorFactory<A, B>, h: Engine)
    ensures WithIterator(r, factory).totalHits == r.totalHits
    ensures ListOf(WithIterator(r, factory), h).heap == ListOf(r, h).heap
    ensures ListOf(WithIterator(r, factory), h).outcome == factory(ListOf(r, h).outcome)
  {
  }

  /**
   * A mapped result yields as many hits as the original, with the same scores
   * and mapped values, fails exactly when the original does, and closes the same.
   */
  lemma MappedList<A, B>(r: ResultView<A>, f: A -> B, h: Engine)
    ensures var m := ListOf(WithIterator(r, Mapping(f)), h);
      var o := ListOf(r, h);
      && m.heap == o.heap
      && (m.outcome.Ok? <==> o.outcome.Ok?)
      && (o.outcome.Thrown? ==> m.outcome.exn == o.outcome.exn)
      && (o.outcome.Ok? ==>
            && |m.outcome.value| == |o.outcome.value|
            && forall i :: 0 <= i < |o.outcome.value| ==>
                 m.outcome.value[i] == Hit(o.outcome.value[i].score, f(o.outcome.value[i].value)))
  {
  }

  /** Mapping twice is mapping by the composition. */
  lemma {:induction false} MapHitsCompose<A, B, C>(f: A -> B, g: B -> C, hits: seq<Hit<A>>)
    ensures MapHits(g, MapHits(f, hits)) == MapHits((x: A) => g(f(x)), hits)
    decreases |hits|
  {
    if hits != [] {
      MapHitsCompose(f, g, hits[1..]);
      assert MapHits(f, hits)[1..] == MapHits(f, hits[1..]);
    }
  }

  /** Mapping by `f` and then by `g` maps by any `k` that is their composition. */
  lemma {:induction false} MapHitsThrough<A, B, C>(f: A -> B, g: B -> C, k: A -> C, hits: seq<Hit<A>>)
    requires forall x :: k(x) == g(f(x))
    ensures MapHits(g, MapHits(f, hits)) == MapHits(k, hits)
    decreases |hits|
  {
    if hits != [] {
      MapHitsThrough(f, g, k, hits[1..]);
      assert MapHits(f, hits)[1..] == MapHits(f, hits[1..]);
    }
  }

  /**
   * Adapting a result by `mapping(f)` and the adapter by `mapping(g)` is
   * adapting it once by the composition: the same hits, total and close.
   */
  lemma MappedTwice<A, B, C>(r: ResultView<A>, f: A -> B, g: B -> C, k: A -> C)
    requires forall x :: k(x) == g(f(x))
    ensures WithIterator(WithIterator(r, Mapping(f)), Mapping(g)) == WithIterator(r, Mapping(k))
  {
    if r.hits.Ok? {
      MapHitsThrough(f, g, k, r.hits.value);
    }
  }

  // ------------------------------------------------------------ DefaultResult

  /** `components -> components.indexSearcher().doc(n)`: reads the searcher, changes nothing. */
  function FetchDoc(n: nat): LeaseFunction<Searcher, Document, Engine>
  {
    (s: Searcher, e: Engine) => Ran(DocAt(s, n), e)
  }

  /** The failure of fetching a document the searcher does not have, as the lease wraps it. */
  const FetchFailed: Exn := LeaseError("Failed to execute function with lease",
                                       Error(IllegalArgument, "docID must be >= 0 and < maxDoc"))

  /** One `next()` of DefaultResult's iterator on a ScoreDoc: its score and the stored document fetched through the lease. */
  function FetchHit(s: Searcher, sd: ScoreDoc, h: Engine): (r: Ran<Hit<Document>, Engine>)
    ensures r.heap == h
    ensures sd.doc < |s.docs| ==> r.outcome == Ok(Hit(sd.score, StoredFields(s.docs[sd.doc])))
    ensures sd.doc >= |s.docs| ==> r.outcome == Thrown(FetchFailed)
  {
    var x := ExecuteOn(s, FetchDoc(sd.doc), h);
    if x.outcome.Ok? then Ran(Ok(Hit(sd.score, x.outcome.value)), x.heap) else Ran(Thrown(x.outcome.exn), x.heap)
  }

  /** Every hit of the score docs in order, or the failure of the first fetch that fails. */
  function FetchHits(s: Searcher, sds: seq<ScoreDoc>): (r: Outcome<seq<Hit<Document>>>)
    ensures r.Ok? <==> forall i :: 0 <= i < |sds| ==> sds[i].doc < |s.docs|
    ensures r.Ok? ==>
      && |r.value| == |sds|
      && forall i :: 0 <= i < |sds| ==> r.value[i] == Hit(sds[i].score, StoredFields(s.docs[sds[i].doc]))
    ensures r.Thrown? ==> r.exn == FetchFailed
  {
    if sds == [] then Ok([])
    else
      var init := FetchHits(s, sds[..|sds| - 1]);
      var last := sds[|sds| - 1];
      if init.Thrown? then init
      else if last.doc >= |s.docs| then Thrown(FetchFailed)
      else Ok(init.value + [Hit(last.score, StoredFields(s.docs[last.doc]))])
  }

  /** The message of Java's ArrayIndexOutOfBoundsException. */
  function OutOfBounds(index: int, length: int): Exn
  {
    Error(IndexOutOfBounds, "Index " + IntToString(index) + " out of bounds for length " + IntToString(length))
  }

  /**
   * DefaultResult: the TopDocs of one search and the lease it ran on. A page of
   * the paged executor is a DefaultResult whose close does nothing (`closes`
   * false); every other one releases the lease when closed.
   */
  class DefaultResult {
    const topDocs: TopDocs
    const lease: DefaultLease<Searcher, Engine>
    const closes: bool

    constructor (topDocs: TopDocs, lease: DefaultLease<Searcher, Engine>, closes: bool)
      ensures this.topDocs == topDocs && this.lease == lease && this.closes == closes
    {
      this.topDocs := topDocs;
      this.lease := lease;
      this.closes := closes;
    }

    /** What this result yields: the fetched hits, the engine total, and the lease release (if it closes). */
    function View(): ResultView<Document>
    {
      ResultView(FetchHits(lease.value, topDocs.scoreDocs), topDocs.totalHits,
                 if closes then Release(lease.releaser, lease.value) else Keep)
    }

    /** close(): lease.close(), or nothing for a page. */
    method Close(h: Engine) returns (h': Engine)
      modifies lease
      ensures h' == CloseOn(View().closer, h)
      ensures closes ==> lease.releases == old(lease.releases) + [lease.value]
      ensures !closes ==> lease.releases == old(lease.releases) && lease.warnings == old(lease.warnings)
    {
      if closes {
        h' := lease.Close(h);
      } else {
        h' := h;
      }
    }

    /** iterator(): a new iterator, starting at index 0 each time. */
    method Iterator() returns (it: HitIterator)
      ensures fresh(it) && it.result == this && it.index == 0
    {
      it := new HitIterator(this);
    }

    /**
     * The default list(): drain a new iterator (stopping at the first exception),
     * then close, as try-with-resources does on either path.
     */
    method List(h: Engine) returns (r: Outcome<seq<Hit<Document>>>, h': Engine)
      modifies lease
      ensures Ran(r, h') == ListOf(View(), h)
      ensures closes ==> lease.releases == old(lease.releases) + [lease.value]
      ensures !closes ==> lease.releases == old(lease.releases)
    {
      var sds := topDocs.scoreDocs;
      var s := lease.value;
      var it := Iterator();
      var acc: seq<Hit<Document>> := [];
      var failed := false;
      var e := h;
      while !failed && it.HasNext()
        modifies it
        invariant it.result == this && it.index <= |sds|
        invariant e == h
        invariant !failed ==> FetchHits(s, sds[..it.index]) == Ok(acc)
        invariant failed ==> FetchHits(s, sds) == Thrown(FetchFailed)
        decreases |sds| - it.index, if failed then 0 else 1
      {
        ghost var i := it.index;
        var x, e1 := it.Next(e);
        e := e1;
        assert sds[..i + 1] == sds[..i] + [sds[i]];
        assert sds[..i + 1][..i] == sds[..i];
        if x.Ok? {
          acc := acc + [x.value];
        } else {
          failed := true;
          assert sds[i].doc >= |s.docs|;
        }
      }
      if !failed {
        assert sds[..it.index] == sds;
      }
      h' := Close(e);
      r := if failed then Thrown(FetchFailed) else Ok(acc);
    }
  }

  /** DefaultResult's iterator: a position in the score docs, advanced by every next(). */
  class HitIterator {
    const result: DefaultResult
    var index: nat

    constructor (result: DefaultResult)
      ensures this.result == result && index == 0
    {
      this.result := result;
      index := 0;
    }

    predicate HasNext()
      reads this
    {
      index < |result.topDocs.scoreDocs|
    }

    /**
     * next(): `scoreDocs[index++]`, so the index moves on even when it was past
     * the end and the access throws; otherwise the hit fetched through the lease.
     */
    method Next(h: Engine) returns (r: Outcome<Hit<Document>>, h': Engine)
      modifies this
      ensures index == old(index) + 1
      ensures h' == h
      ensures old(index) < |result.topDocs.scoreDocs| ==>
        r == FetchHit(result.lease.value, result.topDocs.scoreDocs[old(index)], h).outcome
      ensures old(index) >= |result.topDocs.scoreDocs| ==>
        r == Thrown(OutOfBounds(old(index), |result.topDocs.scoreDocs|))
    {
      var i := index;
      var sds := result.topDocs.scoreDocs;
      index := index + 1;
      if i < |sds| {
        var sd := sds[i];
        var x := result.lease.Execute(FetchDoc(sd.doc), h);
        r := if x.outcome.Ok? then Ok(Hit(sd.score, x.outcome.value)) else Thrown(x.outcome.exn);
        h' := x.heap;
      } else {
        r := Thrown(OutOfBounds(i, |sds|));
        h' := h;
      }
    }
  }
}
