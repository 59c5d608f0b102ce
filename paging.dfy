// DefaultPagedQueryExecutor: one search lease shared by every page, pages
// fetched with searchAfter from the last hit of the previous page, and the
// paging iterator that stops once the hits seen reach the engine total.

module Paging {
  import opened Outcomes
  import opened Leases
  import opened Index
  import opened Results
  import opened Executors

  // ------------------------------------------------------------ the index side

  /** Which documents match, one flag per document. */
  function Mask(docs: seq<Document>, q: Query): (m: seq<bool>)
    ensures |m| == |docs|
    ensures forall i :: 0 <= i < |docs| ==> m[i] == Matches(q, docs[i])
  {
    seq(|docs|, i requires 0 <= i < |docs| => Matches(q, docs[i]))
  }

  /** The positions from `k` on whose flag is set, ascending. */
  function Select(m: seq<bool>, k: nat): (r: seq<nat>)
    ensures forall i :: 0 <= i < |r| ==> k <= r[i] < |m|
    decreases |m| - k
  {
    if k >= |m| then [] else (if m[k] then [k] else []) + Select(m, k + 1)
  }

  /** HitsFrom selects the matching positions. */
  lemma {:induction false} HitsFromSelect(docs: seq<Document>, q: Query, k: nat)
    ensures HitsFrom(docs, q, k) == Select(Mask(docs, q), k)
    decreases |docs| - k
  {
    if k < |docs| {
      HitsFromSelect(docs, q, k + 1);
    }
  }

  /** Resuming after the selected position `j` gives the positions selected after it. */
  lemma {:induction false} SelectAfter(m: seq<bool>, k: nat, j: nat)
    requires j < |Select(m, k)|
    ensures Select(m, Select(m, k)[j] + 1) == Select(m, k)[j + 1..]
    decreases |m| - k
  {
    var all := Select(m, k);
    var rest := Select(m, k + 1);
    assert k < |m|;
    if !m[k] {
      assert all == rest;
      SelectAfter(m, k + 1, j);
    } else {
      assert all == [k] + rest;
      if j > 0 {
        SelectAfter(m, k + 1, j - 1);
        assert all[j] == rest[j - 1];
        assert all[j + 1..] == rest[j..];
      }
    }
  }

  /** The resumed search skips exactly the hits seen so far. */
  lemma HitsAfterSeen(s: Searcher, q: Query, c: nat)
    requires 0 < c <= |Hits(s, q)|
    ensures HitsFrom(s.docs, q, Hits(s, q)[c - 1] + 1) == Hits(s, q)[c..]
  {
    var m := Mask(s.docs, q);
    var all := Hits(s, q);
    HitsFromSelect(s.docs, q, 0);
    assert all == Select(m, 0);
    SelectAfter(m, 0, c - 1);
    HitsFromSelect(s.docs, q, all[c - 1] + 1);
  }

  // ----------------------------------------------------------------- the pages

  /** The pages of `all` from offset `p` in pages of `n`: always at least one, the last possibly short or empty. */
  function PageIds(all: seq<nat>, p: nat, n: nat): (r: seq<seq<nat>>)
    requires n >= 1 && p <= |all|
    ensures |r| >= 1
    decreases |all| - p
  {
    if p + n >= |all| then [all[p..]] else [all[p..p + n]] + PageIds(all, p + n, n)
  }

  function Concat(pages: seq<seq<nat>>): seq<nat>
  {
    if pages == [] then [] else pages[0] + Concat(pages[1..])
  }

  /** Pages needed for `k` hits, `n` to a page, counting the one page an empty result still has. */
  function PageCount(k: nat, n: nat): (c: nat)
    requires n >= 1
    ensures c >= 1
    decreases k
  {
    if k <= n then 1 else 1 + PageCount(k - n, n)
  }

  /** The pages cover the hits exactly, in order. */
  lemma {:induction false} PagesCover(all: seq<nat>, p: nat, n: nat)
    requires n >= 1 && p <= |all|
    ensures Concat(PageIds(all, p, n)) == all[p..]
    decreases |all| - p
  {
    if p + n < |all| {
      PagesCover(all, p + n, n);
      var pages := PageIds(all, p, n);
      assert pages[1..] == PageIds(all, p + n, n);
      assert all[p..] == all[p..p + n] + all[p + n..];
    } else {
      assert Concat([all[p..]]) == all[p..] + Concat([]);
    }
  }

  /** Every page holds `n` hits except the last, which holds at most `n`. */
  lemma {:induction false} PageSizes(all: seq<nat>, p: nat, n: nat)
    requires n >= 1 && p <= |all|
    ensures var pages := PageIds(all, p, n);
      && |pages[|pages| - 1]| <= n
      && forall i :: 0 <= i < |pages| - 1 ==> |pages[i]| == n
    decreases |all| - p
  {
    if p + n < |all| {
      PageSizes(all, p + n, n);
      var pages := PageIds(all, p, n);
      var rest := PageIds(all, p + n, n);
      assert pages == [all[p..p + n]] + rest;
      forall i | 0 <= i < |pages| - 1
        ensures |pages[i]| == n
      {
        if i > 0 {
          assert pages[i] == rest[i - 1];
        }
      }
    }
  }

  /** The number of pages is PageCount of the hits left. */
  lemma {:induction false} PagesCount(all: seq<nat>, p: nat, n: nat)
    requires n >= 1 && p <= |all|
    ensures |PageIds(all, p, n)| == PageCount(|all| - p, n)
    decreases |all| - p
  {
    if p + n < |all| {
      PagesCount(all, p + n, n);
    }
  }

  lemma MulStepRight(c: int, n: int)
    ensures (c + 1) * n == c * n + n
  {
  }

  lemma {:induction false} DivBetween(a: int, n: int, c: int)
    requires n > 0 && c * n <= a < c * n + n
    ensures a / n == c
  {
    var q, r := a / n, a % n;
    assert a == q * n + r && 0 <= r < n;
    if q < c {
      assert q * n + n <= c * n by {
        MulStepRight(q, n);
        MulMono(q + 1, c, n);
      }
    } else if q > c {
      assert c * n + n <= q * n by {
        MulStepRight(c, n);
        MulMono(c + 1, q, n);
      }
    }
  }

  lemma MulMono(x: int, y: int, n: int)
    requires x <= y && n > 0
    ensures x * n <= y * n
  {
    assert y * n - x * n == (y - x) * n;
  }

  /** PageCount is the ceiling of k/n, and 1 for no hits at all. */
  lemma {:induction false} PageCountIsCeiling(k: nat, n: nat)
    requires n >= 1
    ensures PageCount(k, n) == if k == 0 then 1 else (k + n - 1) / n
    ensures k >= 1 ==> (PageCount(k, n) - 1) * n < k <= PageCount(k, n) * n
    decreases k
  {
    var c := PageCount(k, n);
    if k > n {
      PageCountIsCeiling(k - n, n);
      var c' := PageCount(k - n, n);
      assert c == c' + 1;
      MulStepRight(c', n);
      MulStepRight(c' - 1, n);
      assert (c - 1) * n < k <= c * n;
    } else if k >= 1 {
      assert c == 1;
    }
    if k >= 1 {
      MulStepRight(c - 1, n);
      DivBetween(k + n - 1, n, c);
    }
  }

  /** A worked case: 31 hits in pages of 10 make 4 pages, the last holding one. */
  lemma ThirtyOneHits(all: seq<nat>)
    requires |all| == 31
    ensures |PageIds(all, 0, 10)| == 4
    ensures |PageIds(all, 0, 10)[3]| == 1
  {
    assert PageIds(all, 30, 10) == [all[30..]];
    assert PageIds(all, 20, 10) == [all[20..30]] + PageIds(all, 30, 10);
    assert PageIds(all, 10, 10) == [all[10..20]] + PageIds(all, 20, 10);
    assert PageIds(all, 0, 10) == [all[..10]] + PageIds(all, 10, 10);
  }

  // ------------------------------------------------------------- the executor

  /** The hits of the given documents, each with the engine's score and its stored fields. */
  function StoredHits(s: Searcher, ids: seq<nat>): (r: seq<Hit<Document>>)
    requires forall i :: 0 <= i < |ids| ==> ids[i] < |s.docs|
    ensures |r| == |ids|
    ensures forall i :: 0 <= i < |ids| ==> r[i] == StoredHit(s, ids[i])
  {
    if ids == [] then [] else [StoredHit(s, ids[0])] + StoredHits(s, ids[1..])
  }

  /** The page factory: `searchAfter(last, query, maxHits)` through the shared lease. */
  function SearchAfterFn(last: Option<ScoreDoc>, lq: Query, n: int): LeaseFunction<Searcher, TopDocs, Engine>
  {
    (s: Searcher, e: Engine) => Ran(SearchAfter(s, last, lq, n), e)
  }

  /** The failure of asking for pages of no hits, as the lease wraps it. */
  const PageFailed: Exn := LeaseError("Failed to execute function with lease", Error(IllegalArgument, "numHits must be > 0"))

  /** `lastDoc(docs)`: null before the first page, else the page's last ScoreDoc (an exception on an empty page). */
  function LastDoc(docs: Option<TopDocs>): Outcome<Option<ScoreDoc>>
  {
    if docs.None? then Ok(None)
    else if |docs.value.scoreDocs| == 0 then Thrown(OutOfBounds(-1, 0))
    else Ok(Some(docs.value.scoreDocs[|docs.value.scoreDocs| - 1]))
  }

  /** Where the next page ends: `n` further hits, or the rest. */
  function PageEnd(c: nat, n: nat, k: nat): nat
  {
    if c + n <= k then c + n else k
  }

  /**
   * The page the iterator fetches after seeing `c` of the matches: resuming
   * after the last one seen (or from the start), the next `n` matches.
   */
  lemma NextPageIs(s: Searcher, q: Query, n: nat, last: Option<ScoreDoc>, c: nat)
    requires n >= 1 && c <= Count(s, q)
    requires c == 0 ==> last.None?
    requires c > 0 ==> last == Some(ScoreDoc(Hits(s, q)[c - 1], HitScore))
    ensures var all := Hits(s, q);
      SearchAfter(s, last, q, n) == Ok(TopDocs(|all|, ToScoreDocs(all[c..PageEnd(c, n, |all|)])))
  {
    var all := Hits(s, q);
    var after := if last.Some? then last.value.doc + 1 else 0;
    var ids := HitsFrom(s.docs, q, after);
    assert ids == all[c..] by {
      if c > 0 {
        HitsAfterSeen(s, q, c);
      }
    }
    var top := if |ids| <= n then ids else ids[..n];
    assert top == all[c..PageEnd(c, n, |all|)];
    SearchAfterTop(s, last, q, n);
  }

  lemma SearchAfterTop(s: Searcher, last: Option<ScoreDoc>, q: Query, n: nat)
    requires n >= 1
    ensures var ids := HitsFrom(s.docs, q, if last.Some? then last.value.doc + 1 else 0);
      SearchAfter(s, last, q, n) == Ok(TopDocs(Count(s, q), ToScoreDocs(if |ids| <= n then ids else ids[..n])))
  {
  }

  /** PageIds from the start of a page: that page, then the pages after it. */
  lemma PageIdsUnfold(all: seq<nat>, c: nat, n: nat)
    requires n >= 1 && c < |all|
    ensures PageIds(all, c, n) ==
      [all[c..PageEnd(c, n, |all|)]] + (if PageEnd(c, n, |all|) < |all| then PageIds(all, PageEnd(c, n, |all|), n) else [])
  {
    assert all[c..] == all[c..|all|];
  }

  /** One more page keeps the pages seen, followed by the pages still to come, equal to all the pages. */
  lemma PagesStep(all: seq<nat>, c: nat, n: nat, pages: seq<seq<nat>>, started: bool)
    requires n >= 1 && c <= |all|
    requires started ==> c < |all| && pages + PageIds(all, c, n) == PageIds(all, 0, n)
    requires !started ==> c == 0 && pages == []
    ensures var c' := PageEnd(c, n, |all|);
      (pages + [all[c..c']]) + (if c' < |all| then PageIds(all, c', n) else []) == PageIds(all, 0, n)
  {
    var c' := PageEnd(c, n, |all|);
    var rest := if c' < |all| then PageIds(all, c', n) else [];
    if c < |all| {
      PageIdsUnfold(all, c, n);
      assert PageIds(all, c, n) == [all[c..c']] + rest;
      assert (pages + [all[c..c']]) + rest == pages + ([all[c..c']] + rest);
    } else {
      assert all[c..c'] == all[c..];
    }
  }

  /** Appending a page's fetched hits extends the hits of the matches seen by that page. */
  lemma AppendPage(s: Searcher, all: seq<nat>, c: nat, c': nat, acc: seq<Hit<Document>>, hits: seq<Hit<Document>>)
    requires c <= c' <= |all|
    requires forall i :: 0 <= i < |all| ==> all[i] < |s.docs|
    requires |acc| == c && forall i :: 0 <= i < c ==> acc[i] == StoredHit(s, all[i])
    requires FetchHits(s, ToScoreDocs(all[c..c'])) == Ok(hits)
    ensures |acc + hits| == c' && forall i :: 0 <= i < c' ==> (acc + hits)[i] == StoredHit(s, all[i])
  {
    var sds := ToScoreDocs(all[c..c']);
    assert |hits| == c' - c;
    forall i | 0 <= i < c'
      ensures (acc + hits)[i] == StoredHit(s, all[i])
    {
      if i >= c {
        assert all[c..c'][i - c] == all[i];
        assert sds[i - c] == ScoreDoc(all[i], HitScore);
        assert (acc + hits)[i] == hits[i - c];
      } else {
        assert (acc + hits)[i] == acc[i];
      }
    }
  }

  /**
   * Where Stream stands in the matches: the last page fetched (none yet at
   * first) is the matches from `p` to `c`, the hits collected are the stored
   * hits of the first `c` matches, and the pages so far followed by the pages
   * from `c` are all the pages.
   */
  ghost predicate Seen(s: Searcher, q: Query, n: int, last: Option<TopDocs>, c: int, p: nat,
                       acc: seq<Hit<Document>>, pages: seq<seq<nat>>)
  {
    var all := Hits(s, q);
    var k := |all|;
    && 0 <= c <= k
    && (last.None? ==> c == 0 && pages == [])
    && (last.Some? ==>
          && n >= 1 && p <= c && (p < c || k == 0)
          && last.value == TopDocs(k, ToScoreDocs(all[p..c]))
          && pages + (if c < k then PageIds(all, c, n) else []) == PageIds(all, 0, n))
    && |acc| == c
    && forall i :: 0 <= i < |acc| ==> acc[i] == StoredHit(s, all[i])
  }

  /** From a Seen state with more to come, lastDoc succeeds and the page after it is the next `n` matches. */
  lemma SeenNext(s: Searcher, q: Query, n: int, last: Option<TopDocs>, c: int, p: nat,
                 acc: seq<Hit<Document>>, pages: seq<seq<nat>>)
    requires Seen(s, q, n, last, c, p, acc, pages)
    requires n >= 1 && (last.None? || c < last.value.totalHits)
    ensures var all := Hits(s, q);
      && LastDoc(last).Ok?
      && SearchAfter(s, LastDoc(last).value, q, n) == Ok(TopDocs(|all|, ToScoreDocs(all[c..PageEnd(c, n, |all|)])))
      && FetchHits(s, ToScoreDocs(all[c..PageEnd(c, n, |all|)])).Ok?
  {
    var all := Hits(s, q);
    var sds := ToScoreDocs(all[c..PageEnd(c, n, |all|)]);
    forall i | 0 <= i < |sds|
      ensures sds[i].doc < |s.docs|
    {
      assert sds[i].doc == all[c + i];
    }
    if last.Some? {
      assert ToScoreDocs(all[p..c])[c - p - 1] == ScoreDoc(all[c - 1], HitScore);
      assert LastDoc(last) == Ok(Some(ScoreDoc(all[c - 1], HitScore)));
    }
    NextPageIs(s, q, n, LastDoc(last).value, c);
  }

  /** Taking that page and its fetched hits moves the Seen state on by one page. */
  lemma SeenStep(s: Searcher, q: Query, n: int, last: Option<TopDocs>, c: int, p: nat,
                 acc: seq<Hit<Document>>, pages: seq<seq<nat>>, hits: seq<Hit<Document>>)
    requires Seen(s, q, n, last, c, p, acc, pages)
    requires n >= 1 && (last.None? || c < last.value.totalHits)
    requires var all := Hits(s, q);
      FetchHits(s, ToScoreDocs(all[c..PageEnd(c, n, |all|)])) == Ok(hits)
    ensures var all := Hits(s, q);
      var c' := PageEnd(c, n, |all|);
      Seen(s, q, n, Some(TopDocs(|all|, ToScoreDocs(all[c..c']))), c', c, acc + hits, pages + [all[c..c']])
  {
    var all := Hits(s, q);
    var c' := PageEnd(c, n, |all|);
    AppendPage(s, all, c, c', acc, hits);
    PagesStep(all, c, n, pages, last.Some?);
  }

  /** The paged result as a value: its searcher, query and page size, and what closing it does. */
  datatype PagedValue = PagedValue(searcher: Searcher, query: Query, maxHits: int, closer: Closer)

  /**
   * `stream()` consumed and closed: every page's hits in page order (pages of
   * no hits at all fail), then the lease released.
   */
  function PagedStream(v: PagedValue, h: Engine): Ran<seq<Hit<Document>>, Engine>
  {
    var all := Hits(v.searcher, v.query);
    Ran(if v.maxHits >= 1 then Ok(StoredHits(v.searcher, all)) else Thrown(PageFailed), CloseOn(v.closer, h))
  }

  /**
   * What DefaultPagedQueryExecutor.execute does: lease a searcher, translate
   * the query (a failure leaks the lease, as in DefaultQueryExecutor), and
   * hand both to the paged result. No search runs until it is iterated.
   */
  function DefaultPagedRun<K>(queryFactory: K -> Outcome<Query>, leases: LeaseFactory<Searcher, Engine>,
                              q: K, o: QueryOptions, h: Engine): Ran<PagedValue, Engine>
  {
    var a := leases.Acquire(h);
    if a.outcome.Thrown? then Ran(Thrown(a.outcome.exn), a.heap)
    else
      var lq := queryFactory(q);
      if lq.Thrown? then Ran(Thrown(lq.exn), a.heap)
      else Ran(Ok(PagedValue(a.outcome.value, lq.value, o.maxHits, Release(leases.releaser, a.outcome.value))), a.heap)
  }

  class DefaultPagedQueryExecutor<K> {
    const queryFactory: K -> Outcome<Query>
    const searcherLeaseFactory: LeaseFactory<Searcher, Engine>

    constructor (queryFactory: K -> Outcome<Query>, searcherLeaseFactory: LeaseFactory<Searcher, Engine>)
      ensures this.queryFactory == queryFactory && this.searcherLeaseFactory == searcherLeaseFactory
    {
      this.queryFactory := queryFactory;
      this.searcherLeaseFactory := searcherLeaseFactory;
    }

    /** execute(query, options): the lease and the translated query are taken once, for all pages. */
    method Execute(q: K, o: QueryOptions, h: Engine) returns (r: Outcome<PagedResultImpl>, h': Engine)
      ensures var run := DefaultPagedRun(queryFactory, searcherLeaseFactory, q, o, h);
        && h' == run.heap
        && (r.Ok? <==> run.outcome.Ok?)
        && (r.Ok? ==> fresh(r.value) && fresh(r.value.lease) && r.value.View() == run.outcome.value
                      && r.value.lease.releases == [])
        && (r.Thrown? ==> r.exn == run.outcome.exn)
    {
      var acquired, e1 := searcherLeaseFactory.Lease(h);
      if acquired.Thrown? {
        r, h' := Thrown(acquired.exn), e1;
        return;
      }
      var lq := queryFactory(q);
      if lq.Thrown? {
        r, h' := Thrown(lq.exn), e1;
        return;
      }
      var paged := new PagedResultImpl(acquired.value, lq.value, o.maxHits);
      r, h' := Ok(paged), e1;
    }
  }

  /** PagedResultImpl: the shared lease and the page factory's query and page size. */
  class PagedResultImpl {
    const lease: DefaultLease<Searcher, Engine>
    const query: Query
    const maxHits: int

    constructor (lease: DefaultLease<Searcher, Engine>, query: Query, maxHits: int)
      ensures this.lease == lease && this.query == query && this.maxHits == maxHits
    {
      this.lease := lease;
      this.query := query;
      this.maxHits := maxHits;
    }

    function View(): PagedValue
    {
      PagedValue(lease.value, query, maxHits, Release(lease.releaser, lease.value))
    }

    /** The page factory: the next page after `last`, searched through the shared lease. */
    function NextPage(last: Option<ScoreDoc>, h: Engine): (r: Ran<TopDocs, Engine>)
      ensures r.heap == h
      ensures var page := SearchAfter(lease.value, last, query, maxHits);
        r.outcome == if page.Ok? then page else Thrown(LeaseError("Failed to execute function with lease", page.exn))
    {
      ExecuteOn(lease.value, SearchAfterFn(last, query, maxHits), h)
    }

    /** close(): the only place the shared lease is released. */
    method Close(h: Engine) returns (h': Engine)
      modifies lease
      ensures h' == CloseOn(View().closer, h)
      ensures lease.releases == old(lease.releases) + [lease.value]
    {
      h' := lease.Close(h);
    }

    /** iterator(): paging starts again from the first page each time. */
    method Iterator() returns (it: PageIterator)
      ensures fresh(it) && it.paged == this && it.lastDocs.None? && it.currentIndex == 0
    {
      it := new PageIterator(this);
    }

    /**
     * The default stream() of PagedResult, collected and then closed: every
     * page from a new iterator, each page's hits listed (and the page closed,
     * which does nothing), then this result closed. With a positive page size
     * the pages are exactly PageIds of the matches, so every match appears once
     * and in order; otherwise the first page fails.
     */
    method Stream(h: Engine) returns (r: Outcome<seq<Hit<Document>>>, h': Engine, ghost pages: seq<seq<nat>>)
      modifies lease
      ensures Ran(r, h') == PagedStream(View(), h)
      ensures maxHits >= 1 ==> pages == PageIds(Hits(lease.value, query), 0, maxHits)
      ensures lease.releases == old(lease.releases) + [lease.value]
    {
      var s := lease.value;
      ghost var all := Hits(s, query);
      ghost var k := |all|;
      var it := Iterator();
      var acc: seq<Hit<Document>> := [];
      var failed := false;
      ghost var p: nat := 0;
      pages := [];
      while !failed && it.HasNext()
        invariant it.paged == this
        invariant lease.releases == old(lease.releases)
        invariant failed ==> maxHits < 1
        invariant Seen(s, query, maxHits, it.lastDocs, it.currentIndex, p, acc, pages)
        decreases if failed then 0 else 1, if it.lastDocs.None? then k + 1 else k - it.currentIndex
      {
        failed, acc, p, pages := Turn(it, h, p, acc, pages);
      }
      h' := Close(h);
      r := if failed then Thrown(PageFailed) else Ok(acc);
      if !failed {
        assert acc == StoredHits(s, all);
      }
    }

    /** One element of the stream: the iterator's next page, listed (its close does nothing). */
    method Turn(it: PageIterator, h: Engine, ghost p: nat, acc: seq<Hit<Document>>, ghost pages: seq<seq<nat>>)
      returns (failed: bool, acc': seq<Hit<Document>>, ghost p': nat, ghost pages': seq<seq<nat>>)
      requires it.paged == this && it.HasNext()
      requires Seen(lease.value, query, maxHits, it.lastDocs, it.currentIndex, p, acc, pages)
      modifies it, lease
      ensures lease.releases == old(lease.releases)
      ensures Seen(lease.value, query, maxHits, it.lastDocs, it.currentIndex, p', acc', pages')
      ensures failed ==> maxHits < 1
      ensures !failed ==> it.lastDocs.Some? && (old(it.lastDocs).None? || old(it.currentIndex) < it.currentIndex)
    {
      var s := lease.value;
      ghost var all := Hits(s, query);
      ghost var c := it.currentIndex;
      ghost var last := it.lastDocs;
      if maxHits >= 1 {
        ghost var c' := PageEnd(c, maxHits, |all|);
        SeenNext(s, query, maxHits, last, c, p, acc, pages);
        var page, e1 := it.Next(h);
        assert it.lastDocs == Some(TopDocs(|all|, ToScoreDocs(all[c..c'])));
        assert it.currentIndex == c';
        var hits, e2 := page.value.List(e1);
        SeenStep(s, query, maxHits, last, c, p, acc, pages, hits.value);
        failed, acc', p', pages' := false, acc + hits.value, c, pages + [all[c..c']];
      } else {
        assert LastDoc(last) == Ok(None);
        var page, e1 := it.Next(h);
        failed, acc', p', pages' := true, acc, p, pages;
      }
    }
  }

  /**
   * The paging iterator: the last page fetched (none yet at first) and the
   * number of hits seen. It has a next page before the first one, and then
   * while the hits seen are fewer than the engine total.
   */
  class PageIterator {
    const paged: PagedResultImpl
    var lastDocs: Option<TopDocs>
    var currentIndex: int

    constructor (paged: PagedResultImpl)
      ensures this.paged == paged && lastDocs.None? && currentIndex == 0
    {
      this.paged := paged;
      lastDocs := None;
      currentIndex := 0;
    }

    predicate HasNext()
      reads this
    {
      lastDocs.None? || currentIndex < lastDocs.value.totalHits
    }

    /**
     * next(): fetch the page after the last hit of the previous one, remember
     * it, count its hits, and return it as a DefaultResult on the shared lease
     * whose close does nothing. A failure leaves the iterator as it was.
     */
    method Next(h: Engine) returns (r: Outcome<DefaultResult>, h': Engine)
      modifies this
      ensures h' == h
      ensures var last := LastDoc(old(lastDocs));
        last.Thrown? ==>
          r == Thrown(last.exn) && lastDocs == old(lastDocs) && currentIndex == old(currentIndex)
      ensures var last := LastDoc(old(lastDocs));
        last.Ok? && paged.NextPage(last.value, h).outcome.Thrown? ==>
          r == Thrown(paged.NextPage(last.value, h).outcome.exn)
          && lastDocs == old(lastDocs) && currentIndex == old(currentIndex)
      ensures var last := LastDoc(old(lastDocs));
        last.Ok? && paged.NextPage(last.value, h).outcome.Ok? ==>
          var page := paged.NextPage(last.value, h).outcome.value;
          && lastDocs == Some(page)
          && currentIndex == old(currentIndex) + |page.scoreDocs|
          && r.Ok? && fresh(r.value)
          && r.value.topDocs == page && r.value.lease == paged.lease && !r.value.closes
    {
      var last := LastDoc(lastDocs);
      if last.Thrown? {
        r, h' := Thrown(last.exn), h;
        return;
      }
      var x := paged.lease.Execute(SearchAfterFn(last.value, paged.query, paged.maxHits), h);
      h' := x.heap;
      if x.outcome.Thrown? {
        r := Thrown(x.outcome.exn);
        return;
      }
      lastDocs := Some(x.outcome.value);
      currentIndex := currentIndex + |x.outcome.value.scoreDocs|;
      var page := new DefaultResult(x.outcome.value, paged.lease, false);
      r := Ok(page);
    }
  }
}
