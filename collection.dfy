// AbstractLuceneCollection: java.util.Collection over one backend. Every
// mutator runs one update-policy function on an update lease (whose release
// commits and refreshes); every query counts on a search lease. LuceneCollection
// wires the collection-like policy, LuceneSet the set-like one.

module Collections {
  import opened Outcomes
  import opened Leases
  import opened Index
  import opened Backend
  import opened Domain
  import opened Updates

  // --------------------------------------------------------- what each call does

  /** A mutator's answer: the lease's failure, or `answer`. */
  function Answer<R>(x: Ran<R, Engine>, answer: bool): Ran<bool, Engine>
  {
    if x.outcome.Thrown? then Ran(Thrown(x.outcome.exn), x.heap) else Ran(Ok(answer), x.heap)
  }

  /** `var operation = …; backend.updateLeaseFactory().execute(operation); return answer;` */
  function Mutation<R>(leases: LeaseFactory<UpdateComponents, Engine>,
                       op: Outcome<LeaseFunction<UpdateComponents, R, Engine>>, answer: bool, h: Engine): Ran<bool, Engine>
  {
    if op.Thrown? then Ran(Thrown(op.exn), h) else Answer(leases.Run(op.value, h), answer)
  }

  function AddRun<V>(ops: UpdateOperations<V>, leases: LeaseFactory<UpdateComponents, Engine>, v: V, h: Engine): Ran<bool, Engine>
  {
    Mutation(leases, ops.add(v), true, h)
  }

  function AddAllRun<V>(ops: UpdateOperations<V>, leases: LeaseFactory<UpdateComponents, Engine>, values: seq<V>, h: Engine): Ran<bool, Engine>
  {
    Mutation(leases, ops.AddAll(values), true, h)
  }

  function RemoveRun<V>(ops: UpdateOperations<V>, leases: LeaseFactory<UpdateComponents, Engine>, v: V, h: Engine): Ran<bool, Engine>
  {
    Mutation(leases, ops.delete(v), true, h)
  }

  function RemoveAllRun<V>(ops: UpdateOperations<V>, leases: LeaseFactory<UpdateComponents, Engine>, values: seq<V>, h: Engine): Ran<bool, Engine>
  {
    Mutation(leases, ops.deleteAll(values), |values| > 0, h)
  }

  /** `components -> components.indexWriter().deleteDocuments(query)`. */
  function DeleteMatching(q: Query): LeaseFunction<UpdateComponents, (), Engine>
  {
    (u: UpdateComponents, h: Engine) => DeleteDocuments(h, q)
  }

  /**
   * queryForCollection: the ids of the values, without repeats, one SHOULD
   * `_id` term each, at least one of which must match.
   */
  function CollectionQuery<V>(dom: DomainOperations<V>, c: seq<V>): Outcome<Query>
  {
    var ids := Requests(c, dom.id);
    if ids.Thrown? then Thrown(ids.exn) else Ok(IdsQuery(Distinct(ids.value)).(minShould := 1))
  }

  /** retainAll's deletion: everything (MUST match-all) that matches none of the ids (MUST_NOT). */
  function RetainQuery(q: Query): Query
  {
    BoolQuery([MatchAll], [], [q], 0)
  }

  function RetainAllRun<V>(dom: DomainOperations<V>, leases: LeaseFactory<UpdateComponents, Engine>, c: seq<V>, h: Engine): Ran<bool, Engine>
  {
    var q := CollectionQuery(dom, c);
    if q.Thrown? then Ran(Thrown(q.exn), h) else Mutation(leases, Ok(DeleteMatching(RetainQuery(q.value))), true, h)
  }

  function ClearRun(leases: LeaseFactory<UpdateComponents, Engine>, h: Engine): Ran<(), Engine>
  {
    leases.Run(DeleteMatching(MatchAll), h)
  }

  function SizeRun(searches: LeaseFactory<Searcher, Engine>, h: Engine): Ran<int, Engine>
  {
    searches.Run(CountOf(MatchAll), h)
  }

  function IsEmptyRun(searches: LeaseFactory<Searcher, Engine>, h: Engine): Ran<bool, Engine>
  {
    var n := SizeRun(searches, h);
    if n.outcome.Thrown? then Ran(Thrown(n.outcome.exn), n.heap) else Ran(Ok(n.outcome.value == 0), n.heap)
  }

  /** contains: the id is computed first, then the documents with it are counted on a search lease. */
  function ContainsRun<V>(dom: DomainOperations<V>, searches: LeaseFactory<Searcher, Engine>, v: V, h: Engine): Ran<bool, Engine>
  {
    var id := dom.id(v);
    if id.Thrown? then Ran(Thrown(id.exn), h)
    else
      var n := searches.Run(CountOf(IdTerm(id.value)), h);
      if n.outcome.Thrown? then Ran(Thrown(n.outcome.exn), n.heap) else Ran(Ok(n.outcome.value > 0), n.heap)
  }

  /** containsAll as written: the documents matching any of the ids are counted and compared with the number of ids. */
  function ContainsAllAsWrittenRun<V>(dom: DomainOperations<V>, searches: LeaseFactory<Searcher, Engine>, c: seq<V>, h: Engine): Ran<bool, Engine>
  {
    var q := CollectionQuery(dom, c);
    if q.Thrown? then Ran(Thrown(q.exn), h)
    else
      var n := searches.Run(CountOf(q.value), h);
      if n.outcome.Thrown? then Ran(Thrown(n.outcome.exn), n.heap)
      else Ran(Ok(n.outcome.value == ClauseCount(q.value)), n.heap)
  }

  /** Whether every id has a document on the searcher. */
  function AllPresent(s: Searcher, ids: seq<string>): (r: bool)
    ensures r <==> forall i :: 0 <= i < |ids| ==> Count(s, IdTerm(ids[i])) > 0
  {
    if ids == [] then true else Count(s, IdTerm(ids[0])) > 0 && AllPresent(s, ids[1..])
  }

  /** `components -> terms.stream().allMatch(t -> components.indexSearcher().count(new TermQuery(t)) > 0)`. */
  function AllPresentOf(ids: seq<string>): LeaseFunction<Searcher, bool, Engine>
  {
    (s: Searcher, e: Engine) => Ran(Ok(AllPresent(s, ids)), e)
  }

  /** containsAll as intended: on one search lease, every distinct id has a document. */
  function ContainsAllRun<V>(dom: DomainOperations<V>, searches: LeaseFactory<Searcher, Engine>, c: seq<V>, h: Engine): Ran<bool, Engine>
  {
    var ids := Requests(c, dom.id);
    if ids.Thrown? then Ran(Thrown(ids.exn), h) else searches.Run(AllPresentOf(Distinct(ids.value)), h)
  }

  /** `new UnsupportedOperationException()`: no message. */
  const ToArrayRefused: Exn := Error(Unsupported, "")

  // ------------------------------------------------------------------ the class

  class AbstractLuceneCollection<V> {
    const domainOperations: DomainOperations<V>
    const backend: DefaultLuceneBackend
    const updateOperations: UpdateOperations<V>

    constructor (dom: DomainOperations<V>, backend: DefaultLuceneBackend, ops: UpdateOperations<V>)
      ensures domainOperations == dom && this.backend == backend && updateOperations == ops
    {
      domainOperations := dom;
      this.backend := backend;
      updateOperations := ops;
    }

    /** `new LuceneCollection<>(dom, backend)`: duplicates allowed, removed one copy at a time. */
    static method LuceneCollection(dom: DomainOperations<V>, backend: DefaultLuceneBackend) returns (c: AbstractLuceneCollection<V>)
      ensures fresh(c)
      ensures c.domainOperations == dom && c.backend == backend
      ensures c.updateOperations == CollectionLike(dom, backend.searcherLeaseFactory)
    {
      c := new AbstractLuceneCollection(dom, backend, CollectionLike(dom, backend.searcherLeaseFactory));
    }

    /** `new LuceneSet<>(dom, backend)`: a value whose id is already indexed is refused. */
    static method LuceneSet(dom: DomainOperations<V>, backend: DefaultLuceneBackend) returns (c: AbstractLuceneCollection<V>)
      ensures fresh(c)
      ensures c.domainOperations == dom && c.backend == backend
      ensures c.updateOperations == SetLike(dom, backend.searcherLeaseFactory)
    {
      c := new AbstractLuceneCollection(dom, backend, SetLike(dom, backend.searcherLeaseFactory));
    }

    /** Request the operation, run it on an update lease, then answer. */
    method Mutate<R>(op: Outcome<LeaseFunction<UpdateComponents, R, Engine>>, answer: bool) returns (r: Outcome<bool>)
      modifies backend
      ensures Ran(r, backend.engine) == Mutation(backend.updateLeaseFactory, op, answer, old(backend.engine))
    {
      if op.Thrown? {
        r := Thrown(op.exn);
        return;
      }
      var x, lease := backend.updateLeaseFactory.Execute(op.value, backend.engine);
      backend.engine := x.heap;
      r := if x.outcome.Thrown? then Thrown(x.outcome.exn) else Ok(answer);
    }

    method Add(v: V) returns (r: Outcome<bool>)
      modifies backend
      ensures Ran(r, backend.engine) == AddRun(updateOperations, backend.updateLeaseFactory, v, old(backend.engine))
    {
      r := Mutate(updateOperations.add(v), true);
    }

    method AddAll(values: seq<V>) returns (r: Outcome<bool>)
      modifies backend
      ensures Ran(r, backend.engine) == AddAllRun(updateOperations, backend.updateLeaseFactory, values, old(backend.engine))
    {
      r := Mutate(updateOperations.AddAll(values), true);
    }

    method Remove(v: V) returns (r: Outcome<bool>)
      modifies backend
      ensures Ran(r, backend.engine) == RemoveRun(updateOperations, backend.updateLeaseFactory, v, old(backend.engine))
    {
      r := Mutate(updateOperations.delete(v), true);
    }

    method RemoveAll(values: seq<V>) returns (r: Outcome<bool>)
      modifies backend
      ensures Ran(r, backend.engine) == RemoveAllRun(updateOperations, backend.updateLeaseFactory, values, old(backend.engine))
    {
      r := Mutate(updateOperations.deleteAll(values), |values| > 0);
    }

    /** queryForCollection: the distinct ids, then one SHOULD clause per id added to the builder in a loop. */
    method QueryForCollection(c: seq<V>) returns (r: Outcome<Query>)
      ensures r == CollectionQuery(domainOperations, c)
    {
      var ids := Requests(c, domainOperations.id);
      if ids.Thrown? {
        r := Thrown(ids.exn);
        return;
      }
      var terms := Distinct(ids.value);
      var should: seq<Query> := [];
      var i := 0;
      while i < |terms|
        invariant 0 <= i <= |terms|
        invariant |should| == i && forall j :: 0 <= j < i ==> should[j] == IdTerm(terms[j])
      {
        should := should + [IdTerm(terms[i])];
        i := i + 1;
      }
      assert should == IdsQuery(terms).should;
      r := Ok(BoolQuery([], should, [], 1));
    }

    method RetainAll(c: seq<V>) returns (r: Outcome<bool>)
      modifies backend
      ensures Ran(r, backend.engine) == RetainAllRun(domainOperations, backend.updateLeaseFactory, c, old(backend.engine))
    {
      var q := QueryForCollection(c);
      if q.Thrown? {
        r := Thrown(q.exn);
        return;
      }
      r := Mutate(Ok(DeleteMatching(RetainQuery(q.value))), true);
    }

    method Clear() returns (r: Outcome<()>)
      modifies backend
      ensures Ran(r, backend.engine) == ClearRun(backend.updateLeaseFactory, old(backend.engine))
    {
      var x, lease := backend.updateLeaseFactory.Execute(DeleteMatching(MatchAll), backend.engine);
      backend.engine := x.heap;
      r := x.outcome;
    }

    method Size() returns (r: Outcome<int>)
      modifies backend
      ensures Ran(r, backend.engine) == SizeRun(backend.searcherLeaseFactory, old(backend.engine))
    {
      var x, lease := backend.searcherLeaseFactory.Execute(CountOf(MatchAll), backend.engine);
      backend.engine := x.heap;
      r := x.outcome;
    }

    method IsEmpty() returns (r: Outcome<bool>)
      modifies backend
      ensures Ran(r, backend.engine) == IsEmptyRun(backend.searcherLeaseFactory, old(backend.engine))
    {
      var n := Size();
      r := if n.Thrown? then Thrown(n.exn) else Ok(n.value == 0);
    }

    method Contains(v: V) returns (r: Outcome<bool>)
      modifies backend
      ensures Ran(r, backend.engine) == ContainsRun(domainOperations, backend.searcherLeaseFactory, v, old(backend.engine))
    {
      var id := domainOperations.id(v);
      if id.Thrown? {
        r := Thrown(id.exn);
        return;
      }
      var x, lease := backend.searcherLeaseFactory.Execute(CountOf(IdTerm(id.value)), backend.engine);
      backend.engine := x.heap;
      r := if x.outcome.Thrown? then Thrown(x.outcome.exn) else Ok(x.outcome.value > 0);
    }

    /**
     * containsAll: the collection query, then the documents matching it counted
     * on a search lease and compared with its number of clauses.
     */
    method ContainsAll(c: seq<V>) returns (r: Outcome<bool>)
      modifies backend
      ensures Ran(r, backend.engine) == ContainsAllAsWrittenRun(domainOperations, backend.searcherLeaseFactory, c, old(backend.engine))
    {
      var q := QueryForCollection(c);
      if q.Thrown? {
        r := Thrown(q.exn);
        return;
      }
      var x, lease := backend.searcherLeaseFactory.Execute(CountOf(q.value), backend.engine);
      backend.engine := x.heap;
      r := if x.outcome.Thrown? then Thrown(x.outcome.exn) else Ok(x.outcome.value == ClauseCount(q.value));
    }

    /** All three toArray overloads: refused, nothing touched. */
    method ToArray() returns (r: Outcome<seq<V>>)
      ensures r == Thrown(ToArrayRefused) && r.exn.kind == Unsupported
    {
      r := Thrown(ToArrayRefused);
    }
  }

  // ----------------------------------------------------------------- counting

  lemma {:induction false} HitsFromAll(docs: seq<Document>, k: nat)
    requires k <= |docs|
    ensures |HitsFrom(docs, MatchAll, k)| == |docs| - k
    decreases |docs| - k
  {
    if k < |docs| {
      HitsFromAll(docs, k + 1);
    }
  }

  /** Counting everything counts the snapshot. */
  lemma CountAll(s: Searcher)
    ensures Count(s, MatchAll) == |s.docs|
  {
    HitsFromAll(s.docs, 0);
  }

  /** A count is positive exactly when some document of the snapshot matches. */
  lemma CountPositive(s: Searcher, q: Query)
    ensures Count(s, q) > 0 <==> exists n :: 0 <= n < |s.docs| && Matches(q, s.docs[n])
  {
    if Count(s, q) > 0 {
      HitsFromMatch(s.docs, q, 0, Hits(s, q)[0]);
    } else {
      forall n | 0 <= n < |s.docs|
        ensures !Matches(q, s.docs[n])
      {
        HitsFromMatch(s.docs, q, 0, n);
      }
    }
  }

  /** Some document of the snapshot carries the id. */
  predicate Present(docs: seq<Document>, id: string)
  {
    exists n :: 0 <= n < |docs| && HasId(docs[n], id)
  }

  /** Counting on a lease of the search factory: the count over the snapshot at acquisition. */
  lemma CountRun(q: Query, h: Engine)
    requires AcquireSearcher !in h.faults
    ensures SearcherLeases.Run(CountOf(q), h) ==
      Ran(Ok(Count(Searcher(h.visible), q)), h.(log := h.log + [AcquireSearcher, ReleaseSearcher]))
  {
    CountOnSnapshot(q, h);
  }

  // --------------------------------------------------------------- properties

  /** add, addAll and remove answer true whenever they do not throw; removeAll answers whether it was given anything. */
  lemma MutatorsAnswer<V>(ops: UpdateOperations<V>, leases: LeaseFactory<UpdateComponents, Engine>, v: V, values: seq<V>, h: Engine)
    ensures AddRun(ops, leases, v, h).outcome.Ok? ==> AddRun(ops, leases, v, h).outcome.value
    ensures AddAllRun(ops, leases, values, h).outcome.Ok? ==> AddAllRun(ops, leases, values, h).outcome.value
    ensures RemoveRun(ops, leases, v, h).outcome.Ok? ==> RemoveRun(ops, leases, v, h).outcome.value
    ensures RemoveAllRun(ops, leases, values, h).outcome.Ok? ==> (RemoveAllRun(ops, leases, values, h).outcome.value <==> |values| > 0)
  {
  }

  /** A mutation's failure is the request's own exception, or the lease's "Failed to execute lease" around the function's. */
  lemma MutationFailure<R>(op: Outcome<LeaseFunction<UpdateComponents, R, Engine>>, answer: bool, h: Engine)
    ensures op.Thrown? ==> Mutation(UpdateLeases, op, answer, h) == Ran(Thrown(op.exn), h)
    ensures op.Ok? ==>
      var x := op.value(UpdateComponents, h);
      && (x.outcome.Thrown? ==>
            Mutation(UpdateLeases, op, answer, h).outcome ==
              Thrown(LeaseError("Failed to execute lease", LeaseError("Failed to execute function with lease", x.outcome.exn))))
      && (x.outcome.Ok? ==> Mutation(UpdateLeases, op, answer, h).outcome == Ok(answer))
      && Mutation(UpdateLeases, op, answer, h).heap == UpdateReleaser(UpdateComponents, x.heap).heap
  {
  }

  /** size is the number of documents in the search snapshot; isEmpty is size() == 0. */
  lemma SizeCounts(h: Engine)
    requires AcquireSearcher !in h.faults
    ensures SizeRun(SearcherLeases, h).outcome == Ok(|h.visible|)
    ensures IsEmptyRun(SearcherLeases, h).outcome == Ok(h.visible == [])
  {
    CountRun(MatchAll, h);
    CountAll(Searcher(h.visible));
  }

  /** isEmpty answers true exactly when size answers 0, with the same effects. */
  lemma IsEmptyIsSizeZero(searches: LeaseFactory<Searcher, Engine>, h: Engine)
    ensures IsEmptyRun(searches, h).outcome == Ok(true) <==> SizeRun(searches, h).outcome == Ok(0)
    ensures IsEmptyRun(searches, h).outcome.Thrown? <==> SizeRun(searches, h).outcome.Thrown?
    ensures IsEmptyRun(searches, h).heap == SizeRun(searches, h).heap
  {
  }

  /** contains(v) holds exactly when a document of the search snapshot has v's id. */
  lemma ContainsIff<V>(dom: DomainOperations<V>, v: V, id: string, h: Engine)
    requires dom.id(v) == Ok(id) && AcquireSearcher !in h.faults
    ensures ContainsRun(dom, SearcherLeases, v, h).outcome == Ok(Present(h.visible, id))
  {
    CountRun(IdTerm(id), h);
    CountPositive(Searcher(h.visible), IdTerm(id));
  }

  /** Asking for one SHOULD match changes nothing in a query without MUST clauses, which needs one anyway. */
  lemma MinShouldOne(q: Query, d: Document)
    requires q.BoolQuery? && q.must == [] && q.minShould == 0
    ensures Matches(q.(minShould := 1), d) == Matches(q, d)
  {
    var q1 := q.(minShould := 1);
  }

  /** A document carrying one of the distinct ids carries one of the ids, and the other way round. */
  lemma SomeIdDistinct(d: Document, ids: seq<string>)
    ensures (exists j :: 0 <= j < |Distinct(ids)| && HasId(d, Distinct(ids)[j])) <==> (exists i :: 0 <= i < |ids| && HasId(d, ids[i]))
  {
    var t := Distinct(ids);
    if i :| 0 <= i < |ids| && HasId(d, ids[i]) {
      assert ids[i] in ids;
      assert ids[i] in t;
      var j :| 0 <= j < |t| && t[j] == ids[i];
    }
    if j :| 0 <= j < |t| && HasId(d, t[j]) {
      IdOfDistinct(d, ids, j);
    }
  }

  /** The id at a position of Distinct(ids) is at some position of ids. */
  lemma IdOfDistinct(d: Document, ids: seq<string>, j: int)
    requires 0 <= j < |Distinct(ids)| && HasId(d, Distinct(ids)[j])
    ensures exists i :: 0 <= i < |ids| && HasId(d, ids[i])
  {
    var x := Distinct(ids)[j];
    assert x in Distinct(ids);
    assert x in ids;
    var i :| 0 <= i < |ids| && ids[i] == x;
  }

  /** The collection query matches exactly the documents with one of the ids, and has one clause per distinct id. */
  lemma CollectionQueryMatches<V>(dom: DomainOperations<V>, c: seq<V>, ids: seq<string>, d: Document)
    requires Requests(c, dom.id) == Ok(ids)
    ensures CollectionQuery(dom, c).Ok?
    ensures ClauseCount(CollectionQuery(dom, c).value) == |Distinct(ids)|
    ensures Matches(CollectionQuery(dom, c).value, d) <==> exists i :: 0 <= i < |ids| && HasId(d, ids[i])
  {
    IdsQueryMatches(Distinct(ids), d);
    MinShouldOne(IdsQuery(Distinct(ids)), d);
    SomeIdDistinct(d, ids);
  }

  /** An update lease whose release steps all succeed publishes what its function left in the writer. */
  lemma MutationPublishes<R>(fn: LeaseFunction<UpdateComponents, R, Engine>, answer: bool, h: Engine)
    requires var x := fn(UpdateComponents, h).heap;
      WriterCommit !in x.faults && TaxonomyCommit !in x.faults && MaybeRefresh !in x.faults
    ensures var m := Mutation(UpdateLeases, Ok(fn), answer, h);
      && m.heap.writer == fn(UpdateComponents, h).heap.writer
      && m.heap.visible == fn(UpdateComponents, h).heap.writer
      && m.heap.faults == fn(UpdateComponents, h).heap.faults
  {
    UpdateReleaseOrder(UpdateComponents, fn(UpdateComponents, h).heap);
  }

  /** Deleting by match-all leaves nothing. */
  lemma {:induction false} RemoveEverything(docs: seq<Document>)
    ensures Remove(docs, MatchAll) == []
    decreases |docs|
  {
    if docs != [] {
      RemoveEverything(docs[1..]);
    }
  }

  /** retainAll's query matches exactly the documents the collection query does not. */
  lemma RetainQueryMatches(q: Query, d: Document)
    ensures Matches(RetainQuery(q), d) <==> !Matches(q, d)
  {
    var r := RetainQuery(q);
    assert r.must[0] == MatchAll && r.mustNot[0] == q;
    assert CountTrue(seq(|r.should|, i requires 0 <= i < |r.should| => Matches(r.should[i], d))) == 0;
  }

  /** After clear, with no failing call, the writer and the search snapshot are empty, so size() is 0 and isEmpty() holds. */
  lemma ClearEmpties(h: Engine)
    requires h.faults == {}
    ensures ClearRun(UpdateLeases, h).outcome == Ok(())
    ensures var h1 := ClearRun(UpdateLeases, h).heap;
      && h1.writer == [] && h1.visible == []
      && SizeRun(SearcherLeases, h1).outcome == Ok(0)
      && IsEmptyRun(SearcherLeases, h1).outcome == Ok(true)
  {
    var fn := DeleteMatching(MatchAll);
    var x := fn(UpdateComponents, h);
    RemoveEverything(h.writer);
    UpdateReleaseOrder(UpdateComponents, x.heap);
    SizeCounts(ClearRun(UpdateLeases, h).heap);
  }

  /**
   * retainAll keeps, in the writer and then in the search snapshot, exactly the
   * documents carrying one of the ids; the others are deleted.
   */
  lemma RetainAllKeeps<V>(dom: DomainOperations<V>, c: seq<V>, ids: seq<string>, h: Engine, d: Document)
    requires Requests(c, dom.id) == Ok(ids) && h.faults == {}
    ensures var r := RetainAllRun(dom, UpdateLeases, c, h);
      && r.outcome == Ok(true)
      && r.heap.visible == r.heap.writer
      && (d in r.heap.writer <==> d in h.writer && exists i :: 0 <= i < |ids| && HasId(d, ids[i]))
  {
    CollectionQueryMatches(dom, c, ids, d);
    var q := RetainQuery(CollectionQuery(dom, c).value);
    var x := DeleteMatching(q)(UpdateComponents, h);
    UpdateReleaseOrder(UpdateComponents, x.heap);
    RemoveMembers(h.writer, q, d);
    RetainQueryMatches(CollectionQuery(dom, c).value, d);
  }

  /**
   * A LuceneSet's add of an id not in the search snapshot, with no failing call,
   * writes one document carrying the id and publishes it, so contains(v) then
   * holds; an id already there is refused with the lease's wrapping and the writer is unchanged.
   */
  lemma SetAddThenContains<V>(dom: DomainOperations<V>, v: V, id: string, d: Document, h: Engine)
    requires dom.id(v) == Ok(id) && dom.createDocument(v) == Ok(d) && h.faults == {}
    ensures var a := AddRun(SetLike(dom, SearcherLeases), UpdateLeases, v, h);
      && (!Present(h.visible, id) ==>
            && a.outcome == Ok(true)
            && a.heap.visible == h.writer + [d + [IdFieldOf(id)]]
            && ContainsRun(dom, SearcherLeases, v, a.heap).outcome == Ok(true))
      && (Present(h.visible, id) ==>
            && a.outcome == Thrown(LeaseError("Failed to execute lease", LeaseError("Failed to execute function with lease", AlreadyExists)))
            && a.heap.writer == h.writer)
  {
    var ops := SetLike(dom, SearcherLeases);
    SetLikeRequests(dom, SearcherLeases, v, UpdateComponents, h);
    CountPositive(Searcher(h.visible), IdTerm(id));
    var x := SetAddRun(dom, SearcherLeases, v, h);
    if Present(h.visible, id) {
      SetAddRefusesDuplicate(dom, v, id, h);
      UpdateReleaseOrder(UpdateComponents, x.heap);
    } else {
      SetAddWrites(dom, v, id, d, h);
      MutationPublishes(ops.add(v).value, true, h);
      var h1 := AddRun(ops, UpdateLeases, v, h).heap;
      ContainsIff(dom, v, id, h1);
      var w := h.writer + [d + [IdFieldOf(id)]];
      assert h1.visible == w;
      assert w[|w| - 1] == d + [IdFieldOf(id)];
      assert Present(w, id);
    }
  }

  /**
   * A LuceneCollection's add, with no failing call, always writes one tagged
   * copy and publishes it, so contains(v) then holds.
   */
  lemma CollectionAddThenContains<V>(dom: DomainOperations<V>, v: V, id: string, d: Document, h: Engine)
    requires dom.id(v) == Ok(id) && dom.createDocument(v) == Ok(d) && h.faults == {}
    ensures var a := AddRun(CollectionLike(dom, SearcherLeases), UpdateLeases, v, h);
      && a.outcome == Ok(true)
      && a.heap.visible == h.writer + [Tagged(d, id, h.serial)]
      && ContainsRun(dom, SearcherLeases, v, a.heap).outcome == Ok(true)
  {
    var ops := CollectionLike(dom, SearcherLeases);
    CollectionLikeRequests(dom, SearcherLeases, v, UpdateComponents, h);
    CollectionAddTags(dom, v, id, h);
    MutationPublishes(ops.add(v).value, true, h);
    var h1 := AddRun(ops, UpdateLeases, v, h).heap;
    ContainsIff(dom, v, id, h1);
    var w := h.writer + [Tagged(d, id, h.serial)];
    var t := Tagged(d, id, h.serial);
    assert h1.visible == w;
    assert w[|w| - 1] == t && t[|d|] == IdFieldOf(id);
    assert HasId(t, id);
    assert Present(w, id);
  }

  /** The intended check on a search lease: over the snapshot at acquisition. */
  lemma AllPresentRun(t: seq<string>, h: Engine)
    requires AcquireSearcher !in h.faults
    ensures SearcherLeases.Run(AllPresentOf(t), h).outcome == Ok(AllPresent(Searcher(h.visible), t))
  {
  }

  /** Every id of the list is present in the snapshot. */
  predicate PresentAll(docs: seq<Document>, ids: seq<string>)
  {
    forall i :: 0 <= i < |ids| ==> Present(docs, ids[i])
  }

  /** Counting each id finds them all exactly when they are all present. */
  lemma AllPresentIsPresentAll(docs: seq<Document>, t: seq<string>)
    ensures AllPresent(Searcher(docs), t) <==> PresentAll(docs, t)
  {
    forall i | 0 <= i < |t|
      ensures Count(Searcher(docs), IdTerm(t[i])) > 0 <==> Present(docs, t[i])
    {
      CountPositive(Searcher(docs), IdTerm(t[i]));
    }
  }

  /** Every distinct id is present exactly when every id is. */
  lemma PresentAllDistinct(docs: seq<Document>, ids: seq<string>)
    ensures PresentAll(docs, Distinct(ids)) <==> PresentAll(docs, ids)
  {
    var t := Distinct(ids);
    if PresentAll(docs, t) {
      forall i | 0 <= i < |ids|
        ensures Present(docs, ids[i])
      {
        assert ids[i] in t;
        var j :| 0 <= j < |t| && t[j] == ids[i];
      }
    }
    if PresentAll(docs, ids) {
      forall j | 0 <= j < |t|
        ensures Present(docs, t[j])
      {
        assert t[j] in ids;
        var i :| 0 <= i < |ids| && ids[i] == t[j];
      }
    }
  }

  /** containsAll, as intended, holds exactly when every value's id is in the search snapshot. */
  lemma ContainsAllIff<V>(dom: DomainOperations<V>, c: seq<V>, ids: seq<string>, h: Engine)
    requires Requests(c, dom.id) == Ok(ids) && AcquireSearcher !in h.faults
    ensures ContainsAllRun(dom, SearcherLeases, c, h).outcome == Ok(PresentAll(h.visible, ids))
  {
    AllPresentRun(Distinct(ids), h);
    AllPresentIsPresentAll(h.visible, Distinct(ids));
    PresentAllDistinct(h.visible, ids);
  }

  /** containsAll, as intended, holds exactly when contains holds for each value. */
  lemma ContainsAllIsEachContains<V>(dom: DomainOperations<V>, c: seq<V>, h: Engine)
    requires Requests(c, dom.id).Ok? && AcquireSearcher !in h.faults
    ensures ContainsAllRun(dom, SearcherLeases, c, h).outcome == Ok(true) <==>
      forall i :: 0 <= i < |c| ==> ContainsRun(dom, SearcherLeases, c[i], h).outcome == Ok(true)
  {
    var ids := Requests(c, dom.id).value;
    ContainsAllIff(dom, c, ids, h);
    forall i | 0 <= i < |c|
      ensures ContainsRun(dom, SearcherLeases, c[i], h).outcome == Ok(Present(h.visible, ids[i]))
    {
      ContainsIff(dom, c[i], ids[i], h);
    }
  }

  /** Two copies of a matching document count twice. */
  lemma CountTwoCopies(da: Document, q: Query)
    requires Matches(q, da)
    ensures Count(Searcher([da, da]), q) == 2
  {
    var docs := [da, da];
    assert HitsFrom(docs, q, 2) == [];
    assert HitsFrom(docs, q, 1) == [1] + HitsFrom(docs, q, 2);
    assert HitsFrom(docs, q, 0) == [0] + HitsFrom(docs, q, 1);
  }

  /** Two values with different ids: two ids, both distinct. */
  lemma TwoIds<V>(dom: DomainOperations<V>, va: V, vb: V, a: string, b: string)
    requires dom.id(va) == Ok(a) && dom.id(vb) == Ok(b) && a != b
    ensures Requests([va, vb], dom.id) == Ok([a, b]) && Distinct([a, b]) == [a, b]
  {
    var r := Requests([va, vb], dom.id);
    assert [va, vb][0] == va && [va, vb][1] == vb;
    assert r.value == [a, b];
    assert [a, b][..1] == [a];
    assert Distinct([a]) == [a];
  }

  /**
   * containsAll as written counts documents, not ids: with two copies of a and
   * no b in the search snapshot, containsAll([a, b]) answers true though
   * contains(b) answers false; the intended containsAll answers false.
   */
  lemma ContainsAllCountsCopies<V>(dom: DomainOperations<V>, va: V, vb: V, a: string, b: string, da: Document, h: Engine)
    requires dom.id(va) == Ok(a) && dom.id(vb) == Ok(b) && a != b
    requires HasId(da, a) && !HasId(da, b)
    requires h.visible == [da, da] && AcquireSearcher !in h.faults
    ensures ContainsAllAsWrittenRun(dom, SearcherLeases, [va, vb], h).outcome == Ok(true)
    ensures ContainsRun(dom, SearcherLeases, vb, h).outcome == Ok(false)
    ensures ContainsAllRun(dom, SearcherLeases, [va, vb], h).outcome == Ok(false)
  {
    TwoIds(dom, va, vb, a, b);
    var q := CollectionQuery(dom, [va, vb]).value;
    CollectionQueryMatches(dom, [va, vb], [a, b], da);
    CountTwoCopies(da, q);
    CountRun(q, h);
    ContainsIff(dom, vb, b, h);
    ContainsAllIff(dom, [va, vb], [a, b], h);
    assert !Present(h.visible, [a, b][1]);
  }

  // ------------------------------------------------------ containsAll as written

  /**
   * containsAll as written, for every collection whose ids can be computed:
   * it answers whether the snapshot's documents carrying any of the ids are as
   * many as the distinct ids, taking and releasing one searcher.
   */
  lemma ContainsAllAsWrittenAnswers<V>(dom: DomainOperations<V>, c: seq<V>, ids: seq<string>, h: Engine)
    requires Requests(c, dom.id) == Ok(ids) && AcquireSearcher !in h.faults
    ensures CollectionQuery(dom, c).Ok?
    ensures ContainsAllAsWrittenRun(dom, SearcherLeases, c, h) ==
      Ran(Ok(Count(Searcher(h.visible), CollectionQuery(dom, c).value) == |Distinct(ids)|),
          h.(log := h.log + [AcquireSearcher, ReleaseSearcher]))
  {
    CollectionQueryMatches(dom, c, ids, []);
    CountRun(CollectionQuery(dom, c).value, h);
  }

  /** Both forms of containsAll throw an id's failure before any lease is taken. */
  lemma ContainsAllIdFailure<V>(dom: DomainOperations<V>, searches: LeaseFactory<Searcher, Engine>, c: seq<V>, h: Engine)
    requires Requests(c, dom.id).Thrown?
    ensures ContainsAllAsWrittenRun(dom, searches, c, h) == Ran(Thrown(Requests(c, dom.id).exn), h)
    ensures ContainsAllRun(dom, searches, c, h) == ContainsAllAsWrittenRun(dom, searches, c, h)
  {
  }

  /**
   * Each document carries at most one id and no id is carried by two
   * documents: a set-like index into which no batch wrote an id twice.
   */
  ghost predicate OneCopyEach(docs: seq<Document>)
  {
    && (forall n, x, y :: 0 <= n < |docs| && HasId(docs[n], x) && HasId(docs[n], y) ==> x == y)
    && (forall m, n, x :: 0 <= m < n < |docs| && HasId(docs[m], x) ==> !HasId(docs[n], x))
  }

  /** The ids of `t` that some document from position `k` on carries. */
  ghost function CarriedFrom(docs: seq<Document>, t: set<string>, k: nat): set<string>
  {
    set x | x in t && exists n :: k <= n < |docs| && HasId(docs[n], x)
  }

  /** With one copy each, the documents matching any id of `t` are as many as the ids of `t` they carry. */
  lemma {:induction false} HitsCountCarried(docs: seq<Document>, q: Query, t: set<string>, k: nat)
    requires OneCopyEach(docs)
    requires forall n :: 0 <= n < |docs| ==> (Matches(q, docs[n]) <==> exists x :: x in t && HasId(docs[n], x))
    ensures |HitsFrom(docs, q, k)| == |CarriedFrom(docs, t, k)|
    decreases |docs| - k
  {
    if k >= |docs| {
      assert CarriedFrom(docs, t, k) == {};
    } else {
      HitsCountCarried(docs, q, t, k + 1);
      var rest := CarriedFrom(docs, t, k + 1);
      assert HitsFrom(docs, q, k) == (if Matches(q, docs[k]) then [k] else []) + HitsFrom(docs, q, k + 1);
      if Matches(q, docs[k]) {
        var x0 :| x0 in t && HasId(docs[k], x0);
        CarriedStepCarrying(docs, t, k, x0);
      } else {
        CarriedStepNone(docs, t, k);
      }
    }
  }

  /** A document carrying `x0` adds `x0`, which no later document carries, and nothing else. */
  lemma CarriedStepCarrying(docs: seq<Document>, t: set<string>, k: nat, x0: string)
    requires OneCopyEach(docs) && k < |docs| && x0 in t && HasId(docs[k], x0)
    ensures x0 !in CarriedFrom(docs, t, k + 1)
    ensures CarriedFrom(docs, t, k) == CarriedFrom(docs, t, k + 1) + {x0}
  {
    var rest := CarriedFrom(docs, t, k + 1);
    forall n | k + 1 <= n < |docs|
      ensures !HasId(docs[n], x0)
    {
    }
    forall y | y in CarriedFrom(docs, t, k)
      ensures y in rest || y == x0
    {
      var n :| k <= n < |docs| && HasId(docs[n], y);
      if n > k {
        assert y in rest;
      }
    }
  }

  /** A document carrying no id of `t` adds nothing. */
  lemma CarriedStepNone(docs: seq<Document>, t: set<string>, k: nat)
    requires k < |docs| && !exists x :: x in t && HasId(docs[k], x)
    ensures CarriedFrom(docs, t, k) == CarriedFrom(docs, t, k + 1)
  {
    forall y | y in CarriedFrom(docs, t, k)
      ensures y in CarriedFrom(docs, t, k + 1)
    {
      var n :| k <= n < |docs| && HasId(docs[n], y);
      assert n != k;
    }
  }

  lemma {:induction false} SubsetCardLe(a: set<string>, b: set<string>)
    requires a <= b
    ensures |a| <= |b|
    decreases |a|
  {
    if a != {} {
      var x :| x in a;
      SubsetCardLe(a - {x}, b - {x});
    }
  }

  /** A subset as large as the set is the set. */
  lemma SubsetCardEq(a: set<string>, b: set<string>)
    requires a <= b && |a| == |b|
    ensures a == b
  {
    if a != b {
      var t :| t in b && t !in a;
      SubsetCardLe(a, b - {t});
    }
  }

  /** A list without repeats has as many elements as its set. */
  lemma {:induction false} DistinctCard(s: seq<string>)
    requires forall i, j :: 0 <= i < j < |s| ==> s[i] != s[j]
    ensures |set x | x in s| == |s|
  {
    if s != [] {
      var r := s[1..];
      assert forall i, j :: 0 <= i < j < |r| ==> r[i] != r[j] by {
        forall i, j | 0 <= i < j < |r| ensures r[i] != r[j] {
          assert r[i] == s[i + 1] && r[j] == s[j + 1];
        }
      }
      DistinctCard(r);
      assert s[0] !in r;
      assert (set x | x in s) == {s[0]} + (set x | x in r);
    }
  }

  /** Every id is present exactly when every id is carried. */
  lemma CarriedAll(docs: seq<Document>, ids: seq<string>)
    ensures CarriedFrom(docs, set x | x in ids, 0) == (set x | x in ids) <==> PresentAll(docs, ids)
  {
    var t := set x | x in ids;
    if PresentAll(docs, ids) {
      forall x | x in t ensures x in CarriedFrom(docs, t, 0) {
        var i :| 0 <= i < |ids| && ids[i] == x;
        assert Present(docs, ids[i]);
      }
    }
    if CarriedFrom(docs, t, 0) == t {
      forall i | 0 <= i < |ids| ensures Present(docs, ids[i]) {
        assert ids[i] in CarriedFrom(docs, t, 0);
      }
    }
  }

  /**
   * With one copy of each id and one id per document, as in a set, containsAll
   * as written answers what the intended containsAll answers.
   */
  lemma ContainsAllAgreesOnOneCopy<V>(dom: DomainOperations<V>, c: seq<V>, ids: seq<string>, h: Engine)
    requires Requests(c, dom.id) == Ok(ids) && AcquireSearcher !in h.faults && OneCopyEach(h.visible)
    ensures ContainsAllAsWrittenRun(dom, SearcherLeases, c, h).outcome == ContainsAllRun(dom, SearcherLeases, c, h).outcome
  {
    var docs := h.visible;
    var q := CollectionQuery(dom, c).value;
    var t := set x | x in ids;
    ContainsAllAsWrittenAnswers(dom, c, ids, h);
    ContainsAllIff(dom, c, ids, h);
    forall n | 0 <= n < |docs|
      ensures Matches(q, docs[n]) <==> exists x :: x in t && HasId(docs[n], x)
    {
      CollectionQueryMatches(dom, c, ids, docs[n]);
      if x :| x in t && HasId(docs[n], x) {
        var i :| 0 <= i < |ids| && ids[i] == x;
        assert HasId(docs[n], ids[i]);
      }
    }
    HitsCountCarried(docs, q, t, 0);
    DistinctCard(Distinct(ids));
    assert (set x | x in Distinct(ids)) == t;
    CarriedAll(docs, ids);
    if |CarriedFrom(docs, t, 0)| == |t| {
      SubsetCardEq(CarriedFrom(docs, t, 0), t);
    }
  }
}
