// Update policies: how adding, updating and deleting domain values becomes
// lease functions over the update components. `chain` folds per-value
// functions into one; BucketUpdateOperations only appends;
// SetLikeUpdateOperations keeps one document per `_id`;
// CollectionLikeUpdateOperations allows copies and tells them apart by a
// `_serial` of the form `<id>.<n>`.

module Updates {
  import opened Outcomes
  import opened Numbers
  import opened Leases
  import opened Index
  import opened Results
  import opened Backend
  import opened Executors
  import opened Domain

  /** `LeaseFunction<UpdateComponents, Void>`. */
  type UpdateFn = LeaseFunction<UpdateComponents, (), Engine>

  /** `LeaseFunction<UpdateComponents, Integer>`. */
  type CountFn = LeaseFunction<UpdateComponents, int, Engine>

  /** Asking a policy for the operation on a value: the function, or what the request itself throws. */
  type Request<!V> = V -> Outcome<UpdateFn>

  /** UpdateOperations: the per-value requests, and the batch deletion (the one batch a policy may override). */
  datatype UpdateOperations<!V> = UpdateOperations(
    add: Request<V>,
    update: Request<V>,
    delete: Request<V>,
    deleteAll: seq<V> -> Outcome<CountFn>)
  {
    /** addAll: the default, `chain(values, this::add)`. */
    function AddAll(values: seq<V>): Outcome<CountFn>
    {
      Chain(values, add)
    }

    /** updateAll: the default, `chain(values, this::update)`. */
    function UpdateAll(values: seq<V>): Outcome<CountFn>
    {
      Chain(values, update)
    }
  }

  /** The interface defaults of update and delete: the request throws at once, whatever the value. */
  function Refuse<V>(name: string): Request<V>
  {
    (v: V) => Thrown(Error(Unsupported, name))
  }

  /** The default deleteAll: `chain(values, this::delete)`. */
  function ChainDelete<V>(delete: Request<V>): seq<V> -> Outcome<CountFn>
  {
    (values: seq<V>) => Chain(values, delete)
  }

  /** clear(): no policy overrides the default, so requesting it always throws. */
  const ClearRequest: Outcome<UpdateFn> := Thrown(Error(Unsupported, "clear"))

  // ------------------------------------------------------------------ chain

  /** `values.stream().map(operation)` run to the end: every request in order; the first that throws ends it. */
  function Requests<V, F>(values: seq<V>, op: V -> Outcome<F>): (r: Outcome<seq<F>>)
    ensures r.Ok? <==> forall i :: 0 <= i < |values| ==> op(values[i]).Ok?
    ensures r.Ok? ==> |r.value| == |values| && forall i :: 0 <= i < |values| ==> op(values[i]) == Ok(r.value[i])
  {
    if values == [] then Ok([])
    else
      var head := op(values[0]);
      if head.Thrown? then Thrown(head.exn)
      else
        var rest := Requests(values[1..], op);
        if rest.Thrown? then rest else Ok([head.value] + rest.value)
  }

  /** Requesting for a value twice gives its function twice. */
  lemma RequestsTwice<V, F>(v: V, op: V -> Outcome<F>)
    requires op(v).Ok?
    ensures Requests([v, v], op) == Ok([op(v).value, op(v).value])
  {
    var r := Requests([v, v], op);
    assert [v, v][0] == v && [v, v][1] == v;
    assert r.value == [op(v).value, op(v).value];
  }

  /**
   * `.map(LeaseFunction::chainable).reduce(value -> value, LeaseFunction::compose)`:
   * a left fold, so each later function ends up inside the earlier ones.
   */
  function Fold<T, H>(fs: seq<LeaseFunction<T, (), H>>): LeaseFunction<T, T, H>
    decreases |fs|
  {
    if fs == [] then Identity() else Compose(Fold(fs[..|fs| - 1]), Chainable(fs[|fs| - 1]))
  }

  /** chain(values, operation): request every operation now; the function folds them and then answers `values.size()`. */
  function Chain<V, T, H>(values: seq<V>, op: V -> Outcome<LeaseFunction<T, (), H>>): Outcome<LeaseFunction<T, int, H>>
  {
    var fs := Requests(values, op);
    if fs.Thrown? then Thrown(fs.exn) else Ok(AndThen(Fold(fs.value), Constant(|values|)))
  }

  /** The reference: run the functions first to last on one leased value and hand it back; the first that throws ends the run. */
  function RunInOrder<T, H>(fs: seq<LeaseFunction<T, (), H>>, t: T, h: H): Ran<T, H>
    decreases |fs|
  {
    if fs == [] then Ran(Ok(t), h)
    else
      var r := fs[0](t, h);
      if r.outcome.Thrown? then Ran(Thrown(r.outcome.exn), r.heap) else RunInOrder(fs[1..], t, r.heap)
  }

  function Reverse<A>(s: seq<A>): (r: seq<A>)
    ensures |r| == |s|
    ensures forall i :: 0 <= i < |s| ==> r[i] == s[|s| - 1 - i]
    decreases |s|
  {
    if s == [] then [] else [s[|s| - 1]] + Reverse(s[..|s| - 1])
  }

  /** The fold runs the functions last to first. */
  lemma {:induction false} FoldRunsReversed<T, H>(fs: seq<LeaseFunction<T, (), H>>, t: T, h: H)
    ensures Fold(fs)(t, h) == RunInOrder(Reverse(fs), t, h)
    decreases |fs|
  {
    if fs != [] {
      var init := fs[..|fs| - 1];
      var last := fs[|fs| - 1];
      assert Reverse(fs)[0] == last;
      assert Reverse(fs)[1..] == Reverse(init);
      var r := last(t, h);
      if r.outcome.Ok? {
        FoldRunsReversed(init, t, r.heap);
      }
    }
  }

  /**
   * A chain whose requests all succeed runs every operation once, on the same
   * components, in reverse order of the values; if one throws the rest do not
   * run and its exception comes out; otherwise the answer is the number of values.
   */
  lemma ChainRunsReversed<V, T, H>(values: seq<V>, op: V -> Outcome<LeaseFunction<T, (), H>>, t: T, h: H)
    requires Requests(values, op).Ok?
    ensures Chain(values, op).Ok?
    ensures var r := RunInOrder(Reverse(Requests(values, op).value), t, h);
      Chain(values, op).value(t, h) ==
        if r.outcome.Ok? then Ran(Ok(|values|), r.heap) else Ran(Thrown(r.outcome.exn), r.heap)
  {
    FoldRunsReversed(Requests(values, op).value, t, h);
  }

  /** Chaining nothing: the identity, then 0; nothing runs. */
  lemma ChainEmpty<V, T, H>(op: V -> Outcome<LeaseFunction<T, (), H>>, t: T, h: H)
    ensures Chain([], op).Ok? && Chain([], op).value(t, h) == Ran(Ok(0), h)
  {
  }

  /** Chaining one value twice runs its function twice, on the heap the first run leaves. */
  lemma ChainTwice<V, T, H>(v: V, op: V -> Outcome<LeaseFunction<T, (), H>>, t: T, h: H)
    requires op(v).Ok?
    ensures Chain([v, v], op).Ok?
    ensures var f := op(v).value;
      var r1 := f(t, h);
      var r2 := f(t, r1.heap);
      Chain([v, v], op).value(t, h) ==
        if r1.outcome.Thrown? then Ran(Thrown(r1.outcome.exn), r1.heap)
        else if r2.outcome.Thrown? then Ran(Thrown(r2.outcome.exn), r2.heap)
        else Ran(Ok(2), r2.heap)
  {
    var f := op(v).value;
    RequestsTwice(v, op);
    ChainRunsReversed([v, v], op, t, h);
    assert Reverse([f, f]) == [f, f];
    assert [f, f][1..] == [f] && [f][1..] == [];
    var r1 := f(t, h);
    if r1.outcome.Ok? {
      assert RunInOrder([f, f], t, h) == RunInOrder([f], t, r1.heap);
      var r2 := f(t, r1.heap);
      assert RunInOrder([f], t, r1.heap) ==
        if r2.outcome.Thrown? then Ran(Thrown(r2.outcome.exn), r2.heap) else Ran(Ok(t), r2.heap);
      assert |[v, v]| == 2;
    }
  }

  /** The requests are made when the chain is built: the first that throws is what building it throws. */
  lemma {:induction false} ChainRequestFails<V, T, H>(values: seq<V>, op: V -> Outcome<LeaseFunction<T, (), H>>, i: nat)
    requires i < |values| && op(values[i]).Thrown?
    requires forall j :: 0 <= j < i ==> op(values[j]).Ok?
    ensures Requests(values, op) == Thrown(op(values[i]).exn)
    ensures Chain(values, op) == Thrown(op(values[i]).exn)
    decreases i
  {
    if i > 0 {
      assert op(values[0]).Ok?;
      ChainRequestFails(values[1..], op, i - 1);
    }
  }

  /** A policy that keeps the interface defaults refuses update and delete, and their batch forms on any non-empty batch. */
  lemma DefaultsRefuse<V>(values: seq<V>, t: UpdateComponents, h: Engine)
    ensures Chain(values, Refuse<V>("update")).Thrown? <==> |values| > 0
    ensures |values| > 0 ==> Chain(values, Refuse<V>("delete")) == Thrown(Exn(Unsupported, "delete", None))
    ensures |values| == 0 ==> Chain(values, Refuse<V>("delete")).Ok? && Chain(values, Refuse<V>("delete")).value(t, h) == Ran(Ok(0), h)
  {
    if |values| > 0 {
      ChainRequestFails(values, Refuse<V>("update"), 0);
      ChainRequestFails(values, Refuse<V>("delete"), 0);
    }
  }

  function Repeat<A>(x: A, n: nat): (r: seq<A>)
    ensures |r| == n && forall i :: 0 <= i < n ==> r[i] == x
  {
    if n == 0 then [] else [x] + Repeat(x, n - 1)
  }

  // ----------------------------------------------------------------- bucket

  /** What BucketUpdateOperations.add's function does: append `createDocument(v)` as it is. */
  function BucketAddRun<V>(dom: DomainOperations<V>, v: V, h: Engine): Ran<(), Engine>
  {
    var d := dom.createDocument(v);
    if d.Thrown? then Ran(Thrown(d.exn), h) else AddDocument(h, d.value)
  }

  /** BucketUpdateOperations.add: nothing happens until the function runs. */
  function BucketAdd<V>(dom: DomainOperations<V>): Request<V>
  {
    (v: V) => Ok((u: UpdateComponents, h: Engine) => BucketAddRun(dom, v, h))
  }

  function Bucket<V>(dom: DomainOperations<V>): UpdateOperations<V>
  {
    UpdateOperations(BucketAdd(dom), Refuse("update"), Refuse("delete"), ChainDelete(Refuse("delete")))
  }

  /** One add appends exactly `createDocument(v)`, with no bookkeeping field; a document that cannot be built writes nothing. */
  lemma BucketAddAppends<V>(dom: DomainOperations<V>, v: V, u: UpdateComponents, h: Engine)
    requires AddDoc !in h.faults
    ensures Bucket(dom).add(v).Ok? && Bucket(dom).add(v).value(u, h) == BucketAddRun(dom, v, h)
    ensures var d := dom.createDocument(v);
      BucketAddRun(dom, v, h) ==
        if d.Ok? then Ran(Ok(()), h.(writer := h.writer + [d.value], log := h.log + [AddDoc]))
        else Ran(Thrown(d.exn), h)
  {
  }

  /** Running a run of adds appends their documents in run order. */
  lemma {:induction false} BucketRunAppends<V>(dom: DomainOperations<V>, ws: seq<V>, docs: seq<Document>,
                                               fs: seq<UpdateFn>, u: UpdateComponents, h: Engine)
    requires |fs| == |ws| == |docs| && AddDoc !in h.faults
    requires forall i :: 0 <= i < |ws| ==> Bucket(dom).add(ws[i]) == Ok(fs[i]) && dom.createDocument(ws[i]) == Ok(docs[i])
    ensures RunInOrder(fs, u, h) == Ran(Ok(u), h.(writer := h.writer + docs, log := h.log + Repeat(AddDoc, |docs|)))
    decreases |fs|
  {
    if fs == [] {
      assert h.writer + docs == h.writer && h.log + Repeat(AddDoc, |docs|) == h.log;
    } else {
      var h1 := h.(writer := h.writer + [docs[0]], log := h.log + [AddDoc]);
      BucketAddAppends(dom, ws[0], u, h);
      assert dom.createDocument(ws[0]) == Ok(docs[0]);
      assert fs[0](u, h) == Ran(Ok(()), h1);
      BucketRunAppends(dom, ws[1..], docs[1..], fs[1..], u, h1);
      assert h.writer + [docs[0]] + docs[1..] == h.writer + docs;
      assert [AddDoc] + Repeat(AddDoc, |docs| - 1) == Repeat(AddDoc, |docs|);
      assert h.log + [AddDoc] + Repeat(AddDoc, |docs| - 1) == h.log + Repeat(AddDoc, |docs|);
    }
  }

  /**
   * addAll of n values adds n documents and answers n, with no duplicate
   * check; because chain runs backwards, the documents land in reverse order.
   */
  lemma BucketAddAllReversed<V>(dom: DomainOperations<V>, values: seq<V>, docs: seq<Document>, u: UpdateComponents, h: Engine)
    requires |docs| == |values| && AddDoc !in h.faults
    requires forall i :: 0 <= i < |values| ==> dom.createDocument(values[i]) == Ok(docs[i])
    ensures Bucket(dom).AddAll(values).Ok?
    ensures Bucket(dom).AddAll(values).value(u, h) ==
      Ran(Ok(|values|), h.(writer := h.writer + Reverse(docs), log := h.log + Repeat(AddDoc, |values|)))
  {
    var fs := Requests(values, Bucket(dom).add).value;
    ChainRunsReversed(values, Bucket(dom).add, u, h);
    BucketRunAppends(dom, Reverse(values), Reverse(docs), Reverse(fs), u, h);
  }

  // ---------------------------------------------------------------- set-like

  const IdName: string := "_id"

  /** `new StringField("_id", id, Field.Store.YES)`. */
  function IdFieldOf(id: string): Field
  {
    Field(IdName, StringField, true, Text(id))
  }

  /** `new TermQuery(new Term("_id", id))`. */
  function IdTerm(id: string): Query
  {
    TermQuery(IdName, id)
  }

  /** Whether a document carries the id term. */
  predicate HasId(d: Document, id: string)
  {
    exists j :: 0 <= j < |d| && HasTerm(d[j], IdName, id)
  }

  /** `components -> components.indexSearcher().count(query)`. */
  function CountOf(q: Query): LeaseFunction<Searcher, int, Engine>
  {
    (s: Searcher, e: Engine) => Ran(Ok(Count(s, q)), e)
  }

  /** Counting on a lease of its own: the count over the search snapshot; the searcher is taken and released. */
  lemma CountOnSnapshot(q: Query, h: Engine)
    requires AcquireSearcher !in h.faults
    ensures SearcherLeases.WithLease(CountOf(q), h) ==
      Ran(Ok(Count(Searcher(h.visible), q)), h.(log := h.log + [AcquireSearcher, ReleaseSearcher]))
  {
    assert h.log + [AcquireSearcher] + [ReleaseSearcher] == h.log + [AcquireSearcher, ReleaseSearcher];
  }

  const AlreadyExists: Exn := Error(IllegalArgument, "Value already exists")

  /**
   * What SetLikeUpdateOperations.add's function does: compute the id, count the
   * documents with it on a search lease of its own (released before going on),
   * refuse if there are any, else append the document with its `_id` field.
   */
  function SetAddRun<V>(dom: DomainOperations<V>, searches: LeaseFactory<Searcher, Engine>, v: V, h: Engine): Ran<(), Engine>
  {
    var id := dom.id(v);
    if id.Thrown? then Ran(Thrown(id.exn), h)
    else
      var c := searches.WithLease(CountOf(IdTerm(id.value)), h);
      if c.outcome.Thrown? then Ran(Thrown(c.outcome.exn), c.heap)
      else if c.outcome.value != 0 then Ran(Thrown(AlreadyExists), c.heap)
      else
        var d := dom.createDocument(v);
        if d.Thrown? then Ran(Thrown(d.exn), c.heap)
        else AddDocument(c.heap, d.value + [IdFieldOf(id.value)])
  }

  /** What SetLikeUpdateOperations.update's function does: replace every document with the id by the new one, unchecked. */
  function SetUpdateRun<V>(dom: DomainOperations<V>, v: V, h: Engine): Ran<(), Engine>
  {
    var id := dom.id(v);
    if id.Thrown? then Ran(Thrown(id.exn), h)
    else
      var d := dom.createDocument(v);
      if d.Thrown? then Ran(Thrown(d.exn), h)
      else UpdateDocument(h, IdName, id.value, d.value + [IdFieldOf(id.value)])
  }

  /** What SetLikeUpdateOperations.delete's function does: delete by the id term, with no check that it exists. */
  function SetDeleteRun<V>(dom: DomainOperations<V>, v: V, h: Engine): Ran<(), Engine>
  {
    var id := dom.id(v);
    if id.Thrown? then Ran(Thrown(id.exn), h) else DeleteDocuments(h, IdTerm(id.value))
  }

  /** The deletion query of deleteAll: one SHOULD clause per id, in order, duplicates kept. */
  function IdsQuery(ids: seq<string>): (q: Query)
    ensures q.BoolQuery? && q.must == [] && q.mustNot == [] && q.minShould == 0
    ensures |q.should| == |ids| && forall i :: 0 <= i < |ids| ==> q.should[i] == IdTerm(ids[i])
  {
    BoolQuery([], seq(|ids|, i requires 0 <= i < |ids| => IdTerm(ids[i])), [], 0)
  }

  /** The ids, without repeats, in order of first occurrence (`Stream.distinct`). */
  function Distinct(s: seq<string>): (r: seq<string>)
    ensures forall x :: x in r <==> x in s
    ensures forall i, j :: 0 <= i < j < |r| ==> r[i] != r[j]
    ensures |r| <= |s|
    decreases |s|
  {
    if s == [] then []
    else
      var d := Distinct(s[..|s| - 1]);
      if s[|s| - 1] in d then d else d + [s[|s| - 1]]
  }

  /** Delete the matches of `q`, then answer `n`. */
  function DeleteAnsweringRun(q: Query, n: int, h: Engine): Ran<int, Engine>
  {
    var d := DeleteDocuments(h, q);
    if d.outcome.Thrown? then Ran(Thrown(d.outcome.exn), d.heap) else Ran(Ok(n), d.heap)
  }

  function DeleteAnswering(q: Query, n: int): CountFn
  {
    (u: UpdateComponents, h: Engine) => DeleteAnsweringRun(q, n, h)
  }

  /**
   * deleteAll as written (both policies): the ids are computed when the
   * operation is built; the function deletes every document with any of them
   * and answers the number of clauses, one per value.
   */
  function DeleteAllAsWritten<V>(dom: DomainOperations<V>, values: seq<V>): Outcome<CountFn>
  {
    var ids := Requests(values, dom.id);
    if ids.Thrown? then Thrown(ids.exn)
    else Ok(DeleteAnswering(IdsQuery(ids.value), ClauseCount(IdsQuery(ids.value))))
  }

  /** deleteAll as documented (the corrected form): the same deletion, answering the number of distinct terms. */
  function DeleteAll<V>(dom: DomainOperations<V>, values: seq<V>): Outcome<CountFn>
  {
    var ids := Requests(values, dom.id);
    if ids.Thrown? then Thrown(ids.exn)
    else Ok(DeleteAnswering(IdsQuery(ids.value), |Distinct(ids.value)|))
  }

  function SetLike<V>(dom: DomainOperations<V>, searches: LeaseFactory<Searcher, Engine>): UpdateOperations<V>
  {
    UpdateOperations(
      (v: V) => Ok((u: UpdateComponents, h: Engine) => SetAddRun(dom, searches, v, h)),
      (v: V) => Ok((u: UpdateComponents, h: Engine) => SetUpdateRun(dom, v, h)),
      (v: V) => Ok((u: UpdateComponents, h: Engine) => SetDeleteRun(dom, v, h)),
      (values: seq<V>) => DeleteAllAsWritten(dom, values))
  }

  /** Requesting a set-like operation does no work: each request is the function of its run. */
  lemma SetLikeRequests<V>(dom: DomainOperations<V>, searches: LeaseFactory<Searcher, Engine>, v: V, u: UpdateComponents, h: Engine)
    ensures SetLike(dom, searches).add(v).Ok? && SetLike(dom, searches).add(v).value(u, h) == SetAddRun(dom, searches, v, h)
    ensures SetLike(dom, searches).update(v).Ok? && SetLike(dom, searches).update(v).value(u, h) == SetUpdateRun(dom, v, h)
    ensures SetLike(dom, searches).delete(v).Ok? && SetLike(dom, searches).delete(v).value(u, h) == SetDeleteRun(dom, v, h)
  {
  }

  /** An id already in the search snapshot is refused, after the count's lease is released: nothing is written. */
  lemma SetAddRefusesDuplicate<V>(dom: DomainOperations<V>, v: V, id: string, h: Engine)
    requires dom.id(v) == Ok(id) && AcquireSearcher !in h.faults
    requires Count(Searcher(h.visible), IdTerm(id)) != 0
    ensures SetAddRun(dom, SearcherLeases, v, h) ==
      Ran(Thrown(AlreadyExists), h.(log := h.log + [AcquireSearcher, ReleaseSearcher]))
  {
    CountOnSnapshot(IdTerm(id), h);
  }

  /** An id absent from the search snapshot: one document is appended, carrying the `_id` field. */
  lemma SetAddWrites<V>(dom: DomainOperations<V>, v: V, id: string, d: Document, h: Engine)
    requires dom.id(v) == Ok(id) && dom.createDocument(v) == Ok(d)
    requires AcquireSearcher !in h.faults && AddDoc !in h.faults
    requires Count(Searcher(h.visible), IdTerm(id)) == 0
    ensures var r := SetAddRun(dom, SearcherLeases, v, h);
      && r.outcome == Ok(())
      && r.heap == h.(writer := h.writer + [d + [IdFieldOf(id)]], log := h.log + [AcquireSearcher, ReleaseSearcher, AddDoc])
      && HasId(d + [IdFieldOf(id)], id)
  {
    CountOnSnapshot(IdTerm(id), h);
    assert h.log + [AcquireSearcher, ReleaseSearcher] + [AddDoc] == h.log + [AcquireSearcher, ReleaseSearcher, AddDoc];
    var nd := d + [IdFieldOf(id)];
    assert HasTerm(nd[|nd| - 1], IdName, id);
  }

  /**
   * The duplicate check looks only at the search snapshot, which the writes of
   * the same batch do not reach, so addAll of one value twice writes two
   * documents with the same id.
   */
  lemma SetBatchAdmitsDuplicates<V>(dom: DomainOperations<V>, v: V, id: string, d: Document, u: UpdateComponents, h: Engine)
    requires dom.id(v) == Ok(id) && dom.createDocument(v) == Ok(d)
    requires AcquireSearcher !in h.faults && AddDoc !in h.faults
    requires Count(Searcher(h.visible), IdTerm(id)) == 0
    ensures SetLike(dom, SearcherLeases).AddAll([v, v]).Ok?
    ensures var r := SetLike(dom, SearcherLeases).AddAll([v, v]).value(u, h);
      r.outcome == Ok(2) && r.heap.writer == h.writer + [d + [IdFieldOf(id)], d + [IdFieldOf(id)]]
  {
    var ops := SetLike(dom, SearcherLeases);
    SetLikeRequests(dom, SearcherLeases, v, u, h);
    ChainTwice(v, ops.add, u, h);
    SetAddWrites(dom, v, id, d, h);
    var h1 := SetAddRun(dom, SearcherLeases, v, h).heap;
    SetLikeRequests(dom, SearcherLeases, v, u, h1);
    SetAddWrites(dom, v, id, d, h1);
    var nd := d + [IdFieldOf(id)];
    assert h.writer + [nd] + [nd] == h.writer + [nd, nd];
  }

  /**
   * update is an upsert: every document with the id is dropped, the new one
   * appended, and afterwards it is the only document in the writer with the id.
   */
  lemma SetUpdateUpserts<V>(dom: DomainOperations<V>, v: V, id: string, d: Document, h: Engine)
    requires dom.id(v) == Ok(id) && dom.createDocument(v) == Ok(d) && UpdateDoc !in h.faults
    ensures var r := SetUpdateRun(dom, v, h);
      && r.outcome == Ok(())
      && r.heap.writer == Remove(h.writer, IdTerm(id)) + [d + [IdFieldOf(id)]]
      && forall i :: 0 <= i < |r.heap.writer| ==> (HasId(r.heap.writer[i], id) <==> i == |r.heap.writer| - 1)
  {
    var rest := Remove(h.writer, IdTerm(id));
    var nd := d + [IdFieldOf(id)];
    var w := rest + [nd];
    assert HasTerm(nd[|nd| - 1], IdName, id);
    forall i | 0 <= i < |w| - 1
      ensures !HasId(w[i], id)
    {
      assert w[i] == rest[i];
      assert !Matches(IdTerm(id), rest[i]);
    }
  }

  /** delete removes every document with the id and keeps every other one; an absent id changes nothing but the log. */
  lemma SetDeleteRemoves<V>(dom: DomainOperations<V>, v: V, id: string, h: Engine, other: Document)
    requires dom.id(v) == Ok(id) && DeleteDocs !in h.faults
    ensures var r := SetDeleteRun(dom, v, h);
      && r.outcome == Ok(())
      && r.heap.writer == Remove(h.writer, IdTerm(id))
      && (forall i :: 0 <= i < |r.heap.writer| ==> !HasId(r.heap.writer[i], id))
      && (other in r.heap.writer <==> other in h.writer && !HasId(other, id))
  {
    RemoveMembers(h.writer, IdTerm(id), other);
    var w := Remove(h.writer, IdTerm(id));
    forall i | 0 <= i < |w|
      ensures !HasId(w[i], id)
    {
      assert !Matches(IdTerm(id), w[i]);
    }
  }

  /** A document matches the deletion query exactly when it carries one of the ids. */
  lemma IdsQueryMatches(ids: seq<string>, d: Document)
    ensures Matches(IdsQuery(ids), d) <==> exists i :: 0 <= i < |ids| && HasId(d, ids[i])
  {
    var q := IdsQuery(ids);
    var s := seq(|q.should|, i requires 0 <= i < |q.should| => Matches(q.should[i], d));
    CountTruePositive(s);
    assert forall i :: 0 <= i < |ids| ==> (s[i] <==> HasId(d, ids[i]));
  }

  /**
   * deleteAll removes the documents carrying any of the ids (computed up
   * front) and answers the number of distinct ids; an id that cannot be
   * computed makes building the operation throw.
   */
  lemma DeleteAllRemoves<V>(dom: DomainOperations<V>, values: seq<V>, ids: seq<string>, u: UpdateComponents, h: Engine, other: Document)
    requires Requests(values, dom.id) == Ok(ids) && DeleteDocs !in h.faults
    ensures DeleteAll(dom, values).Ok?
    ensures var r := DeleteAll(dom, values).value(u, h);
      && r.outcome == Ok(|Distinct(ids)|)
      && r.heap.writer == Remove(h.writer, IdsQuery(ids))
      && (other in r.heap.writer <==> other in h.writer && forall i :: 0 <= i < |ids| ==> !HasId(other, ids[i]))
  {
    assert DeleteAll(dom, values) == Ok(DeleteAnswering(IdsQuery(ids), |Distinct(ids)|));
    RemoveMembers(h.writer, IdsQuery(ids), other);
    IdsQueryMatches(ids, other);
  }

  /**
   * deleteAll as written, which both policies run: it removes the documents
   * carrying any of the ids and answers the number of values passed in.
   */
  lemma DeleteAllAsWrittenRemoves<V>(dom: DomainOperations<V>, values: seq<V>, ids: seq<string>, u: UpdateComponents, h: Engine, other: Document)
    requires Requests(values, dom.id) == Ok(ids) && DeleteDocs !in h.faults
    ensures DeleteAllAsWritten(dom, values).Ok?
    ensures var r := DeleteAllAsWritten(dom, values).value(u, h);
      && r.outcome == Ok(|values|)
      && r.heap.writer == Remove(h.writer, IdsQuery(ids))
      && (other in r.heap.writer <==> other in h.writer && forall i :: 0 <= i < |ids| ==> !HasId(other, ids[i]))
  {
    assert ClauseCount(IdsQuery(ids)) == |values|;
    assert DeleteAllAsWritten(dom, values) == Ok(DeleteAnswering(IdsQuery(ids), |values|));
    RemoveMembers(h.writer, IdsQuery(ids), other);
    IdsQueryMatches(ids, other);
  }

  /** Building deleteAll fails exactly when some id cannot be computed, before anything runs. */
  lemma DeleteAllEager<V>(dom: DomainOperations<V>, values: seq<V>)
    ensures DeleteAllAsWritten(dom, values).Thrown? <==> exists i :: 0 <= i < |values| && dom.id(values[i]).Thrown?
    ensures DeleteAll(dom, values).Thrown? <==> DeleteAllAsWritten(dom, values).Thrown?
  {
  }

  /** deleteAll as written answers one per value, so a repeated value is counted twice though it adds no term. */
  lemma DeleteAllCountsValues<V>(dom: DomainOperations<V>, v: V, id: string, u: UpdateComponents, h: Engine)
    requires dom.id(v) == Ok(id) && DeleteDocs !in h.faults
    ensures DeleteAllAsWritten(dom, [v, v]).Ok? && DeleteAllAsWritten(dom, [v, v]).value(u, h).outcome == Ok(2)
    ensures DeleteAll(dom, [v, v]).Ok? && DeleteAll(dom, [v, v]).value(u, h).outcome == Ok(1)
  {
    RequestsTwice(v, dom.id);
    assert [id, id][..1] == [id];
    assert Distinct([id]) == [id];
    assert |Distinct([id, id])| == 1;
    assert ClauseCount(IdsQuery([id, id])) == 2;
    assert DeleteAll(dom, [v, v]) == Ok(DeleteAnswering(IdsQuery([id, id]), 1));
    assert DeleteAllAsWritten(dom, [v, v]) == Ok(DeleteAnswering(IdsQuery([id, id]), 2));
  }

  /** Without repeated ids the written count is the documented one. */
  lemma DeleteAllAgreesOnDistinct<V>(dom: DomainOperations<V>, values: seq<V>, ids: seq<string>)
    requires Requests(values, dom.id) == Ok(ids)
    requires forall i, j :: 0 <= i < j < |ids| ==> ids[i] != ids[j]
    ensures DeleteAll(dom, values) == DeleteAllAsWritten(dom, values)
  {
    DistinctOfDistinct(ids);
    assert ClauseCount(IdsQuery(ids)) == |ids|;
  }

  lemma {:induction false} DistinctOfDistinct(s: seq<string>)
    requires forall i, j :: 0 <= i < j < |s| ==> s[i] != s[j]
    ensures Distinct(s) == s
    decreases |s|
  {
    if s != [] {
      var init := s[..|s| - 1];
      DistinctOfDistinct(init);
      assert s[|s| - 1] !in init;
      assert init + [s[|s| - 1]] == s;
    }
  }

  // --------------------------------------------------------- collection-like

  const SerialName: string := "_serial"

  /** `"%s.%s".formatted(id, n)`. */
  function Serial(id: string, n: nat): string
  {
    id + "." + NatToString(n)
  }

  function SerialFieldOf(s: string): Field
  {
    Field(SerialName, StringField, true, Text(s))
  }

  /** The exception of a term built on a missing stored value, or of adding a missing field. */
  const Missing: Exn := Error(NullPointer, "")

  /** The document add writes: the domain's fields, then `_id`, then `_serial`. */
  function Tagged(d: Document, id: string, n: nat): Document
  {
    d + [IdFieldOf(id), SerialFieldOf(Serial(id, n))]
  }

  /**
   * What CollectionLikeUpdateOperations.add's function does: compute the id,
   * take the next counter value (before the document is built, so the counter
   * moves on even when that fails), and append the tagged document.
   */
  function CollectionAddRun<V>(dom: DomainOperations<V>, v: V, h: Engine): Ran<(), Engine>
  {
    var id := dom.id(v);
    if id.Thrown? then Ran(Thrown(id.exn), h)
    else
      var h1 := h.(serial := h.serial + 1);
      var d := dom.createDocument(v);
      if d.Thrown? then Ran(Thrown(d.exn), h1)
      else AddDocument(h1, Tagged(d.value, id.value, h.serial))
  }

  /** `value -> new TermQuery(new Term("_id", id(value)))`. */
  function IdQuery<V>(dom: DomainOperations<V>): V -> Outcome<Query>
  {
    (v: V) => var id := dom.id(v); if id.Thrown? then Thrown(id.exn) else Ok(IdTerm(id.value))
  }

  function LookupRun<V>(dom: DomainOperations<V>, searches: LeaseFactory<Searcher, Engine>, v: V, o: QueryOptions, h: Engine): Ran<ResultView<Document>, Engine>
  {
    DefaultQueryRun(IdQuery(dom), searches, v, o, h)
  }

  /** The lookup executor: a DefaultQueryExecutor on the id query and the search leases, `withOptions(TOP_HIT)`. */
  function Lookup<V>(dom: DomainOperations<V>, searches: LeaseFactory<Searcher, Engine>): Executor<V, ResultView<Document>>
  {
    Root((v: V, o: QueryOptions, h: Engine) => LookupRun(dom, searches, v, o, h)).WithOptions(TOP_HIT)
  }

  /** `result.totalHits() > 0 ? result.iterator().next().value() : nothing`. */
  function FirstHit(r: ResultView<Document>): Outcome<Option<Document>>
  {
    if r.totalHits <= 0 then Ok(None)
    else if r.hits.Thrown? then Thrown(r.hits.exn)
    else if r.hits.value == [] then Thrown(OutOfBounds(0, 0))
    else Ok(Some(r.hits.value[0].value))
  }

  /** The body of update on the lookup's result: replace the first copy, keeping its `_id` and `_serial`, or add. */
  function ReplaceFirst<V>(dom: DomainOperations<V>, v: V, r: ResultView<Document>, h: Engine): Ran<(), Engine>
  {
    var first := FirstHit(r);
    if first.Thrown? then Ran(Thrown(first.exn), h)
    else if first.value.None? then CollectionAddRun(dom, v, h)
    else
      var cur := first.value.value;
      var ser := Get(cur, SerialName);
      if ser.None? then Ran(Thrown(Missing), h)
      else
        var d := dom.createDocument(v);
        if d.Thrown? then Ran(Thrown(d.exn), h)
        else
          var idf := GetField(cur, IdName);
          if idf.None? then Ran(Thrown(Missing), h)
          else UpdateDocument(h, SerialName, ser.value, d.value + [idf.value, GetFields(cur, SerialName)[0]])
  }

  /** The body of delete on the lookup's result: delete the first copy by its serial, or nothing. */
  function DeleteFirst(r: ResultView<Document>, h: Engine): Ran<(), Engine>
  {
    var first := FirstHit(r);
    if first.Thrown? then Ran(Thrown(first.exn), h)
    else if first.value.None? then Ran(Ok(()), h)
    else
      var ser := Get(first.value.value, SerialName);
      if ser.None? then Ran(Thrown(Missing), h) else DeleteDocuments(h, TermQuery(SerialName, ser.value))
  }

  /** update's function, `try (var result = queryExecutor.execute(value)) { body }`: the lookup, the body, then the result closed. */
  function CollectionUpdateRun<V>(dom: DomainOperations<V>, searches: LeaseFactory<Searcher, Engine>, v: V, h: Engine): Ran<(), Engine>
  {
    var run := Lookup(dom, searches).ExecuteDefault(v, h);
    if run.outcome.Thrown? then Ran(Thrown(run.outcome.exn), run.heap)
    else
      var b := ReplaceFirst(dom, v, run.outcome.value, run.heap);
      Ran(b.outcome, CloseOn(run.outcome.value.closer, b.heap))
  }

  /** delete's function: the lookup, the body, then the result closed. */
  function CollectionDeleteRun<V>(dom: DomainOperations<V>, searches: LeaseFactory<Searcher, Engine>, v: V, h: Engine): Ran<(), Engine>
  {
    var run := Lookup(dom, searches).ExecuteDefault(v, h);
    if run.outcome.Thrown? then Ran(Thrown(run.outcome.exn), run.heap)
    else
      var b := DeleteFirst(run.outcome.value, run.heap);
      Ran(b.outcome, CloseOn(run.outcome.value.closer, b.heap))
  }

  function CollectionLike<V>(dom: DomainOperations<V>, searches: LeaseFactory<Searcher, Engine>): UpdateOperations<V>
  {
    UpdateOperations(
      (v: V) => Ok((u: UpdateComponents, h: Engine) => CollectionAddRun(dom, v, h)),
      (v: V) => Ok((u: UpdateComponents, h: Engine) => CollectionUpdateRun(dom, searches, v, h)),
      (v: V) => Ok((u: UpdateComponents, h: Engine) => CollectionDeleteRun(dom, searches, v, h)),
      (values: seq<V>) => DeleteAllAsWritten(dom, values))
  }

  /** Requesting a collection-like operation does no work: each request is the function of its run. */
  lemma CollectionLikeRequests<V>(dom: DomainOperations<V>, searches: LeaseFactory<Searcher, Engine>, v: V, u: UpdateComponents, h: Engine)
    ensures CollectionLike(dom, searches).add(v).Ok? && CollectionLike(dom, searches).add(v).value(u, h) == CollectionAddRun(dom, v, h)
    ensures CollectionLike(dom, searches).update(v).Ok? && CollectionLike(dom, searches).update(v).value(u, h) == CollectionUpdateRun(dom, searches, v, h)
    ensures CollectionLike(dom, searches).delete(v).Ok? && CollectionLike(dom, searches).delete(v).value(u, h) == CollectionDeleteRun(dom, searches, v, h)
  {
  }

  /**
   * add always appends one document tagged with `_id` and with `_serial` built
   * from the counter, which moves on by one; if the document cannot be built
   * the counter still moves on and nothing is written.
   */
  lemma CollectionAddTags<V>(dom: DomainOperations<V>, v: V, id: string, h: Engine)
    requires dom.id(v) == Ok(id) && AddDoc !in h.faults
    ensures var r := CollectionAddRun(dom, v, h);
      var d := dom.createDocument(v);
      && r.heap.serial == h.serial + 1
      && (d.Ok? ==> r == Ran(Ok(()), h.(writer := h.writer + [Tagged(d.value, id, h.serial)],
                                         log := h.log + [AddDoc], serial := h.serial + 1)))
      && (d.Thrown? ==> r == Ran(Thrown(d.exn), h.(serial := h.serial + 1)))
  {
  }

  /** Two splits of one string at a dot: the dot of the shorter tail lies inside the longer one. */
  lemma DotInLonger(s: string, a: string, t: string, b: string, w: string)
    requires s == a + "." + t && s == b + "." + w && |t| > |w|
    ensures t[|t| - |w| - 1] == '.'
  {
    assert s[|s| - |w| - 1] == '.';
  }

  /** Distinct (id, counter) pairs give distinct serials: the part after the last dot is the counter in decimal. */
  lemma SerialInjective(id1: string, n1: nat, id2: string, n2: nat)
    requires Serial(id1, n1) == Serial(id2, n2)
    ensures id1 == id2 && n1 == n2
  {
    var t1, t2 := NatToString(n1), NatToString(n2);
    var s := Serial(id1, n1);
    assert s == id1 + "." + t1 && s == id2 + "." + t2;
    if |t1| > |t2| {
      DotInLonger(s, id1, t1, id2, t2);
      assert false;
    } else if |t2| > |t1| {
      DotInLonger(s, id2, t2, id1, t1);
      assert false;
    }
    assert id1 == s[..|id1|] == id2;
    assert t1 == s[|id1| + 1..] == t2;
    DigitsOfNat(n1);
    DigitsOfNat(n2);
  }

  /**
   * Adding the same value twice writes two copies, told apart by their serials:
   * the counter never issues a serial twice.
   */
  lemma CollectionAddTwice<V>(dom: DomainOperations<V>, v: V, id: string, d: Document, u: UpdateComponents, h: Engine)
    requires dom.id(v) == Ok(id) && dom.createDocument(v) == Ok(d) && AddDoc !in h.faults
    ensures CollectionLike(dom, SearcherLeases).AddAll([v, v]).Ok?
    ensures var r := CollectionLike(dom, SearcherLeases).AddAll([v, v]).value(u, h);
      && r.outcome == Ok(2)
      && r.heap.writer == h.writer + [Tagged(d, id, h.serial), Tagged(d, id, h.serial + 1)]
      && Serial(id, h.serial) != Serial(id, h.serial + 1)
  {
    var ops := CollectionLike(dom, SearcherLeases);
    CollectionLikeRequests(dom, SearcherLeases, v, u, h);
    ChainTwice(v, ops.add, u, h);
    CollectionAddTags(dom, v, id, h);
    var h1 := CollectionAddRun(dom, v, h).heap;
    CollectionLikeRequests(dom, SearcherLeases, v, u, h1);
    CollectionAddTags(dom, v, id, h1);
    assert h.writer + [Tagged(d, id, h.serial)] + [Tagged(d, id, h.serial + 1)] == h.writer + [Tagged(d, id, h.serial), Tagged(d, id, h.serial + 1)];
    if Serial(id, h.serial) == Serial(id, h.serial + 1) {
      SerialInjective(id, h.serial, id, h.serial + 1);
    }
  }

  /**
   * The lookup is a top-1 search for the id on the search snapshot: its total is
   * the number of documents there with the id, its first hit the stored fields
   * of the earliest of them, and closing it releases the searcher.
   */
  lemma LookupTopHit<V>(dom: DomainOperations<V>, v: V, id: string, h: Engine)
    requires dom.id(v) == Ok(id) && AcquireSearcher !in h.faults
    ensures var run := Lookup(dom, SearcherLeases).ExecuteDefault(v, h);
      var s := Searcher(h.visible);
      && run.outcome.Ok?
      && run.heap == h.(log := h.log + [AcquireSearcher])
      && run.outcome.value.totalHits == Count(s, IdTerm(id))
      && run.outcome.value.closer == Release(SearchReleaser, s)
      && FirstHit(run.outcome.value) ==
           if Count(s, IdTerm(id)) == 0 then Ok(None) else Ok(Some(StoredFields(h.visible[Hits(s, IdTerm(id))[0]])))
  {
    assert Lookup(dom, SearcherLeases).ExecuteDefault(v, h) == LookupRun(dom, SearcherLeases, v, TOP_HIT, h);
    DefaultQueryBounded(IdQuery(dom), v, IdTerm(id), TOP_HIT, h);
  }

  /**
   * delete with no copy in the search snapshot only takes and releases a
   * searcher; with one, it deletes the documents carrying the first copy's
   * serial and keeps every other document, other copies included.
   */
  lemma CollectionDeleteOne<V>(dom: DomainOperations<V>, v: V, id: string, h: Engine, other: Document)
    requires dom.id(v) == Ok(id) && AcquireSearcher !in h.faults && DeleteDocs !in h.faults
    ensures var r := CollectionDeleteRun(dom, SearcherLeases, v, h);
      var s := Searcher(h.visible);
      && (Count(s, IdTerm(id)) == 0 ==> r == Ran(Ok(()), h.(log := h.log + [AcquireSearcher, ReleaseSearcher])))
      && (Count(s, IdTerm(id)) > 0 ==>
            var first := StoredFields(h.visible[Hits(s, IdTerm(id))[0]]);
            Get(first, SerialName).Some? ==>
              var q := TermQuery(SerialName, Get(first, SerialName).value);
              && r.outcome == Ok(())
              && r.heap.writer == Remove(h.writer, q)
              && (other in r.heap.writer <==> other in h.writer && !Matches(q, other)))
  {
    LookupTopHit(dom, v, id, h);
    var s := Searcher(h.visible);
    if Count(s, IdTerm(id)) == 0 {
      assert h.log + [AcquireSearcher] + [ReleaseSearcher] == h.log + [AcquireSearcher, ReleaseSearcher];
    } else {
      var first := StoredFields(h.visible[Hits(s, IdTerm(id))[0]]);
      if Get(first, SerialName).Some? {
        RemoveMembers(h.writer, TermQuery(SerialName, Get(first, SerialName).value), other);
      }
    }
  }

  /**
   * update with no copy in the search snapshot is add (inside the lookup's
   * lease); with one, it replaces the documents carrying the first copy's
   * serial by the new document with that copy's `_id` and `_serial` fields.
   */
  lemma CollectionUpdateOne<V>(dom: DomainOperations<V>, v: V, id: string, d: Document, h: Engine)
    requires dom.id(v) == Ok(id) && dom.createDocument(v) == Ok(d)
    requires AcquireSearcher !in h.faults && UpdateDoc !in h.faults && AddDoc !in h.faults
    ensures var r := CollectionUpdateRun(dom, SearcherLeases, v, h);
      var s := Searcher(h.visible);
      && (Count(s, IdTerm(id)) == 0 ==>
            r == Ran(Ok(()), h.(writer := h.writer + [Tagged(d, id, h.serial)],
                                log := h.log + [AcquireSearcher, AddDoc, ReleaseSearcher], serial := h.serial + 1)))
      && (Count(s, IdTerm(id)) > 0 ==>
            var first := StoredFields(h.visible[Hits(s, IdTerm(id))[0]]);
            Get(first, SerialName).Some? && GetField(first, IdName).Some? ==>
              && r.outcome == Ok(())
              && r.heap.serial == h.serial
              && r.heap.writer == Remove(h.writer, TermQuery(SerialName, Get(first, SerialName).value))
                                  + [d + [GetField(first, IdName).value, GetField(first, SerialName).value]])
  {
    LookupTopHit(dom, v, id, h);
    var s := Searcher(h.visible);
    if Count(s, IdTerm(id)) == 0 {
      var h1 := h.(log := h.log + [AcquireSearcher]);
      CollectionAddTags(dom, v, id, h1);
      assert h.log + [AcquireSearcher] + [AddDoc] + [ReleaseSearcher] == h.log + [AcquireSearcher, AddDoc, ReleaseSearcher];
    }
  }
}
