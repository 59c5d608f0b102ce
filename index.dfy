// An abstract stand-in for the Lucene index underneath the library.
// Documents are sequences of physical fields; the index writer holds a
// sequence of documents; a commit copies the writer's documents into the
// committed state, and a refresh makes the writer's documents the snapshot
// that newly acquired searchers see. Every engine call is logged, and the calls in
// `faults` throw an IOException, so that failure paths can be followed.

module Index {
  import opened Outcomes

  /** The Lucene field classes the library creates. */
  datatype FieldKind =
    | StoredField | TextField | StringField | FacetField | NumericDocValuesField | IntPoint | LongPoint

  datatype FieldValue = Text(s: string) | Number(n: int)

  /** One physical field of a document. */
  datatype Field = Field(name: string, kind: FieldKind, stored: bool, value: FieldValue)

  type Document = seq<Field>

  /** `document.getFields(name)`: the fields with that name, in document order. */
  function GetFields(d: Document, name: string): (r: seq<Field>)
    ensures |r| <= |d|
    ensures forall i :: 0 <= i < |r| ==> r[i].name == name
  {
    if d == [] then [] else (if d[0].name == name then [d[0]] else []) + GetFields(d[1..], name)
  }

  /** A field is among those with the name exactly when the document has it and it carries the name. */
  lemma {:induction false} GetFieldsMembers(d: Document, name: string, f: Field)
    ensures f in GetFields(d, name) <==> f in d && f.name == name
    decreases |d|
  {
    if d != [] {
      GetFieldsMembers(d[1..], name, f);
      assert d == [d[0]] + d[1..];
    }
  }

  /** A one-field document: the field when it carries the name, nothing otherwise. */
  lemma GetFieldsOne(f: Field, name: string)
    ensures GetFields([f], name) == if f.name == name then [f] else []
  {
    assert [f][1..] == [];
  }

  lemma {:induction false} GetFieldsConcat(a: Document, b: Document, name: string)
    ensures GetFields(a + b, name) == GetFields(a, name) + GetFields(b, name)
    decreases |a|
  {
    if a == [] {
      assert a + b == b;
    } else {
      assert (a + b)[1..] == a[1..] + b;
      GetFieldsConcat(a[1..], b, name);
    }
  }

  /** A document none of whose fields carries the name contributes nothing. */
  lemma {:induction false} GetFieldsNone(d: Document, name: string)
    requires forall i :: 0 <= i < |d| ==> d[i].name != name
    ensures GetFields(d, name) == []
    decreases |d|
  {
    if d != [] {
      GetFieldsNone(d[1..], name);
    }
  }

  /** `document.get(name)`: the text of the first field with the name, if any. */
  function Get(d: Document, name: string): Option<string>
  {
    var fs := GetFields(d, name);
    if fs == [] then None
    else match fs[0].value
      case Text(s) => Some(s)
      case Number(n) => None
  }

  /** `document.getField(name)`: the first field with the name, if any. */
  function GetField(d: Document, name: string): Option<Field>
  {
    var fs := GetFields(d, name);
    if fs == [] then None else Some(fs[0])
  }

  /** What a searcher hands back for a document: its stored fields only. */
  function StoredFields(d: Document): (r: Document)
    ensures forall i :: 0 <= i < |r| ==> r[i].stored
  {
    if d == [] then [] else (if d[0].stored then [d[0]] else []) + StoredFields(d[1..])
  }

  /** A field is handed back exactly when the document has it and it is stored. */
  lemma {:induction false} StoredFieldsMembers(d: Document, f: Field)
    ensures f in StoredFields(d) <==> f in d && f.stored
    decreases |d|
  {
    if d != [] {
      StoredFieldsMembers(d[1..], f);
      assert d == [d[0]] + d[1..];
    }
  }

  /**
   * When every field with the name is stored, what a searcher hands back has
   * the same fields with that name, in the same order, as what was written.
   */
  lemma {:induction false} StoredFieldsKeep(d: Document, name: string)
    requires forall i :: 0 <= i < |d| && d[i].name == name ==> d[i].stored
    ensures GetFields(StoredFields(d), name) == GetFields(d, name)
    decreases |d|
  {
    if d != [] {
      StoredFieldsKeep(d[1..], name);
      var head := if d[0].stored then [d[0]] else [];
      GetFieldsConcat(head, StoredFields(d[1..]), name);
      if d[0].stored {
        GetFieldsOne(d[0], name);
      }
    }
  }

  // ------------------------------------------------------------------ queries

  /** The queries the library builds; a boolean query lists its MUST, SHOULD and MUST_NOT clauses. */
  datatype Query =
    | MatchAll
    | TermQuery(field: string, text: string)
    | PointRange(field: string, lower: int, upper: int)
    | BoolQuery(must: seq<Query>, should: seq<Query>, mustNot: seq<Query>, minShould: nat)

  /** `query.clauses().size()`. */
  function ClauseCount(q: Query): nat
  {
    if q.BoolQuery? then |q.must| + |q.should| + |q.mustNot| else 0
  }

  function CountTrue(s: seq<bool>): (n: nat)
    ensures n <= |s|
  {
    if s == [] then 0 else (if s[0] then 1 else 0) + CountTrue(s[1..])
  }

  /** Some entry holds exactly when the count is positive. */
  lemma {:induction false} CountTruePositive(s: seq<bool>)
    ensures CountTrue(s) > 0 <==> exists i :: 0 <= i < |s| && s[i]
    decreases |s|
  {
    if s != [] {
      CountTruePositive(s[1..]);
      if exists i :: 0 <= i < |s| - 1 && s[1..][i] {
        var i :| 0 <= i < |s| - 1 && s[1..][i];
        assert s[i + 1];
      }
      if i :| 0 <= i < |s| && s[i] {
        if i > 0 {
          assert s[1..][i - 1];
        }
      }
    }
  }

  /** Every entry holds exactly when the count is the length. */
  lemma {:induction false} CountTrueAll(s: seq<bool>)
    ensures CountTrue(s) == |s| <==> forall i :: 0 <= i < |s| ==> s[i]
    decreases |s|
  {
    if s != [] {
      CountTrueAll(s[1..]);
      if forall i :: 0 <= i < |s| ==> s[i] {
        forall i | 0 <= i < |s| - 1
          ensures s[1..][i]
        {
          assert s[i + 1];
        }
      }
      if CountTrue(s) == |s| {
        forall i | 0 <= i < |s|
          ensures s[i]
        {
          if i > 0 {
            assert s[1..][i - 1];
          }
        }
      }
    }
  }

  /** An untokenised indexed term: what a TermQuery finds. */
  predicate HasTerm(f: Field, field: string, text: string)
  {
    f.name == field && f.kind == StringField && f.value == Text(text)
  }

  /** An indexed point inside a range. */
  predicate HasPointIn(f: Field, field: string, lower: int, upper: int)
  {
    f.name == field && (f.kind == IntPoint || f.kind == LongPoint) && f.value.Number?
      && lower <= f.value.n <= upper
  }

  /**
   * Whether a document matches a query. A boolean query needs every MUST clause,
   * no MUST_NOT clause, at least `minShould` SHOULD clauses and, when it has no
   * MUST clause, at least one SHOULD clause; so one without positive clauses
   * matches nothing.
   */
  predicate Matches(q: Query, d: Document)
    decreases q
  {
    match q
    case MatchAll => true
    case TermQuery(field, text) => exists i :: 0 <= i < |d| && HasTerm(d[i], field, text)
    case PointRange(field, lower, upper) => exists i :: 0 <= i < |d| && HasPointIn(d[i], field, lower, upper)
    case BoolQuery(must, should, mustNot, minShould) =>
      var hits := CountTrue(seq(|should|, i requires 0 <= i < |should| => Matches(should[i], d)));
      && (forall i :: 0 <= i < |must| ==> Matches(must[i], d))
      && (forall i :: 0 <= i < |mustNot| ==> !Matches(mustNot[i], d))
      && hits >= minShould
      && (|must| > 0 || hits >= 1)
  }

  /** The documents that do not match: what a delete-by-query leaves behind. */
  function Remove(docs: seq<Document>, q: Query): (r: seq<Document>)
    ensures |r| <= |docs|
    ensures forall i :: 0 <= i < |r| ==> !Matches(q, r[i])
  {
    if docs == [] then [] else (if Matches(q, docs[0]) then [] else [docs[0]]) + Remove(docs[1..], q)
  }

  /** A document survives a delete-by-query exactly when it was there and does not match. */
  lemma {:induction false} RemoveMembers(docs: seq<Document>, q: Query, d: Document)
    ensures d in Remove(docs, q) <==> d in docs && !Matches(q, d)
    decreases |docs|
  {
    if docs != [] {
      RemoveMembers(docs[1..], q, d);
      assert docs == [docs[0]] + docs[1..];
    }
  }

  // ----------------------------------------------------------------- searching

  /** A searcher over the snapshot it was acquired on. */
  datatype Searcher = Searcher(docs: seq<Document>)

  /** A hit: document number and score. Scores are opaque; the engine gives every hit the same one. */
  datatype ScoreDoc = ScoreDoc(doc: nat, score: int)

  datatype TopDocs = TopDocs(totalHits: nat, scoreDocs: seq<ScoreDoc>)

  const HitScore: int := 1

  /** Numbers of the matching documents from `k` on, ascending. */
  function HitsFrom(docs: seq<Document>, q: Query, k: nat): (r: seq<nat>)
    ensures forall i :: 0 <= i < |r| ==> k <= r[i] < |docs|
    decreases |docs| - k
  {
    if k >= |docs| then [] else (if Matches(q, docs[k]) then [k] else []) + HitsFrom(docs, q, k + 1)
  }

  /** The hits come in document order, each document once. */
  lemma {:induction false} HitsFromAscending(docs: seq<Document>, q: Query, k: nat)
    ensures forall i, j :: 0 <= i < j < |HitsFrom(docs, q, k)| ==> HitsFrom(docs, q, k)[i] < HitsFrom(docs, q, k)[j]
    decreases |docs| - k
  {
    if k < |docs| {
      HitsFromAscending(docs, q, k + 1);
      var r := HitsFrom(docs, q, k);
      var rest := HitsFrom(docs, q, k + 1);
      var head := if Matches(q, docs[k]) then [k] else [];
      assert r == head + rest;
      forall i, j | 0 <= i < j < |r|
        ensures r[i] < r[j]
      {
        if i >= |head| {
          assert r[i] == rest[i - |head|] && r[j] == rest[j - |head|];
          assert rest[i - |head|] < rest[j - |head|];
        } else {
          assert r[i] == k && r[j] == rest[j - 1];
          assert k + 1 <= rest[j - 1];
        }
      }
    }
  }

  /** A document is among the hits from `k` exactly when it is at `k` or later and matches. */
  lemma {:induction false} HitsFromMatch(docs: seq<Document>, q: Query, k: nat, n: nat)
    ensures n in HitsFrom(docs, q, k) <==> k <= n < |docs| && Matches(q, docs[n])
    decreases |docs| - k
  {
    if k < |docs| {
      HitsFromMatch(docs, q, k + 1, n);
    }
  }

  function Hits(s: Searcher, q: Query): seq<nat>
  {
    HitsFrom(s.docs, q, 0)
  }

  /** `indexSearcher.count(query)`. */
  function Count(s: Searcher, q: Query): nat
  {
    |Hits(s, q)|
  }

  function ToScoreDocs(ids: seq<nat>): (r: seq<ScoreDoc>)
    ensures |r| == |ids|
    ensures forall i :: 0 <= i < |r| ==> r[i] == ScoreDoc(ids[i], HitScore)
  {
    if ids == [] then [] else [ScoreDoc(ids[0], HitScore)] + ToScoreDocs(ids[1..])
  }

  /**
   * `indexSearcher.searchAfter(after, query, n)`: the first `n` hits after the
   * given one, with the total over all hits; `search(query, n)` is the same with
   * no `after`. Asking for no hits is an IllegalArgumentException.
   */
  function SearchAfter(s: Searcher, after: Option<ScoreDoc>, q: Query, n: int): Outcome<TopDocs>
  {
    if n <= 0 then Thrown(Error(IllegalArgument, "numHits must be > 0"))
    else
      var ids := HitsFrom(s.docs, q, if after.Some? then after.value.doc + 1 else 0);
      var top := if |ids| <= n then ids else ids[..n];
      Ok(TopDocs(Count(s, q), ToScoreDocs(top)))
  }

  function Search(s: Searcher, q: Query, n: int): Outcome<TopDocs>
  {
    SearchAfter(s, None, q, n)
  }

  /** `indexSearcher.doc(n)`: the stored fields of document `n`. */
  function DocAt(s: Searcher, n: nat): Outcome<Document>
  {
    if n < |s.docs| then Ok(StoredFields(s.docs[n]))
    else Thrown(Error(IllegalArgument, "docID must be >= 0 and < maxDoc"))
  }

  // -------------------------------------------------------------------- engine

  /** The facet configuration: dimension to index field name, and name to multi-valued flag. */
  datatype FacetsConfig = FacetsConfig(indexFieldNames: map<string, string>, multiValued: map<string, bool>)

  /** The engine calls the library makes. */
  datatype Call =
    | AddDoc | UpdateDoc | DeleteDocs
    | WriterCommit | TaxonomyCommit | MaybeRefresh
    | AcquireSearcher | ReleaseSearcher
    | Flush | ForceMerge | ManagerClose | WriterClose | TaxonomyClose

  /**
   * The index and everything around it. `serial` is the counter of the
   * collection-like update operations bound to this index (an AtomicLong
   * starting at 0 in the source).
   */
  datatype Engine = Engine(
    writer: seq<Document>,
    committed: seq<Document>,
    visible: seq<Document>,
    facets: FacetsConfig,
    log: seq<Call>,
    faults: set<Call>,
    writerOpen: bool,
    taxonomyOpen: bool,
    managerOpen: bool,
    serial: nat)

  /** A fresh, empty, open index with the given failing calls. */
  function EmptyEngine(faults: set<Call>): Engine
  {
    Engine([], [], [], FacetsConfig(map[], map[]), [], faults, true, true, true, 0)
  }

  const EngineFailure: string := "engine call failed"

  /** Log the call; throw an IOException if it is one of the failing calls. */
  function Attempt(e: Engine, c: Call): (r: Ran<(), Engine>)
    ensures r.heap == e.(log := e.log + [c])
    ensures r.outcome.Ok? <==> c !in e.faults
  {
    var e1 := e.(log := e.log + [c]);
    if c in e.faults then Ran(Thrown(IOError(EngineFailure)), e1) else Ran(Ok(()), e1)
  }

  /** `indexWriter.addDocument(d)`. */
  function AddDocument(e: Engine, d: Document): Ran<(), Engine>
  {
    var a := Attempt(e, AddDoc);
    if a.outcome.Thrown? then a else Ran(Ok(()), a.heap.(writer := e.writer + [d]))
  }

  /** `indexWriter.updateDocument(term, d)`: drop every document with the term, then append `d`. */
  function UpdateDocument(e: Engine, field: string, text: string, d: Document): Ran<(), Engine>
  {
    var a := Attempt(e, UpdateDoc);
    if a.outcome.Thrown? then a
    else Ran(Ok(()), a.heap.(writer := Remove(e.writer, TermQuery(field, text)) + [d]))
  }

  /** `indexWriter.deleteDocuments(query)` (a term is its TermQuery). */
  function DeleteDocuments(e: Engine, q: Query): Ran<(), Engine>
  {
    var a := Attempt(e, DeleteDocs);
    if a.outcome.Thrown? then a else Ran(Ok(()), a.heap.(writer := Remove(e.writer, q)))
  }

  /** `indexWriter.commit()`. */
  function Commit(e: Engine): Ran<(), Engine>
  {
    var a := Attempt(e, WriterCommit);
    if a.outcome.Thrown? then a else Ran(Ok(()), a.heap.(committed := e.writer))
  }

  /**
   * `searcherTaxonomyManager.maybeRefresh()`: the manager is opened on the writer
   * (near-real-time), so new searchers see the writer's documents.
   */
  function Refresh(e: Engine): Ran<(), Engine>
  {
    var a := Attempt(e, MaybeRefresh);
    if a.outcome.Thrown? then a else Ran(Ok(()), a.heap.(visible := e.writer))
  }
}
