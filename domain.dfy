// Domain operations: how a domain value becomes a document, is read back from
// one, and is identified. MapDomainOperations does this for maps from field
// names to values, driven by a document descriptor.

module Domain {
  import opened Outcomes
  import opened Numbers
  import opened Index
  import opened Schema
  import opened Builders

  /** The operations an update policy needs from the domain type. */
  datatype DomainOperations<!V> = DomainOperations(
    id: V -> Outcome<string>,
    createDocument: V -> Outcome<Document>,
    readDocument: Document -> Outcome<V>)

  /**
   * The interface's default `id`: a NullPointerException for a null value,
   * else the decimal text of the value's hash code (`None` stands for null).
   */
  function DefaultId(hashCode: Option<int>): Outcome<string>
  {
    if hashCode.None? then Thrown(Error(NullPointer, "value cannot be null"))
    else Ok(IntToString(hashCode.value))
  }

  /** The default id gives the hash code back when parsed, so distinct hash codes give distinct ids. */
  lemma DefaultIdRoundTrip(h: int, k: int)
    requires IsInt(h) && IsInt(k)
    ensures DefaultId(Some(h)).Ok? && ParseInt(DefaultId(Some(h)).value) == Ok(h)
    ensures DefaultId(Some(h)) == DefaultId(Some(k)) ==> h == k
    ensures DefaultId(None).Thrown? && DefaultId(None).exn.kind == NullPointer
  {
    ParseIntToString(h);
    ParseIntToString(k);
  }

  // --------------------------------------------------------- key ordering

  /** `String.compareTo(...) < 0`: lexicographic order on characters, a proper prefix first. */
  predicate LexLess(a: string, b: string)
    decreases |a|
  {
    if |a| == 0 then |b| > 0
    else if |b| == 0 then false
    else if a[0] != b[0] then a[0] < b[0]
    else LexLess(a[1..], b[1..])
  }

  lemma {:induction false} LexIrreflexive(a: string)
    ensures !LexLess(a, a)
    decreases |a|
  {
    if |a| > 0 {
      LexIrreflexive(a[1..]);
    }
  }

  lemma {:induction false} LexTransitive(a: string, b: string, c: string)
    requires LexLess(a, b) && LexLess(b, c)
    ensures LexLess(a, c)
    decreases |a|
  {
    if |a| > 0 && a[0] == b[0] && b[0] == c[0] {
      LexTransitive(a[1..], b[1..], c[1..]);
    }
  }

  lemma {:induction false} LexTotal(a: string, b: string)
    requires a != b
    ensures LexLess(a, b) || LexLess(b, a)
    decreases |a|
  {
    if |a| > 0 && |b| > 0 && a[0] == b[0] {
      assert a == [a[0]] + a[1..] && b == [b[0]] + b[1..];
      assert a[1..] != b[1..];
      LexTotal(a[1..], b[1..]);
    }
  }

  predicate SortedStrict(s: seq<string>)
  {
    forall i, j :: 0 <= i < j < |s| ==> LexLess(s[i], s[j])
  }

  predicate DistinctStrings(s: seq<string>)
  {
    forall i, j :: 0 <= i < j < |s| ==> s[i] != s[j]
  }

  function Insert(x: string, s: seq<string>): seq<string>
  {
    if s == [] then [x] else if LexLess(s[0], x) then [s[0]] + Insert(x, s[1..]) else [x] + s
  }

  /** `sorted(Map.Entry.comparingByKey())` on keys that are distinct. */
  function SortStrings(s: seq<string>): seq<string>
  {
    if s == [] then [] else Insert(s[0], SortStrings(s[1..]))
  }

  lemma {:induction false} InsertMultiset(x: string, s: seq<string>)
    ensures multiset(Insert(x, s)) == multiset(s) + multiset{x}
    decreases |s|
  {
    if s != [] && LexLess(s[0], x) {
      InsertMultiset(x, s[1..]);
      assert s == [s[0]] + s[1..];
    }
  }

  lemma ConsSorted(a: string, t: seq<string>)
    requires SortedStrict(t)
    requires forall k :: 0 <= k < |t| ==> LexLess(a, t[k])
    ensures SortedStrict([a] + t)
  {
    var r := [a] + t;
    forall i, j | 0 <= i < j < |r| ensures LexLess(r[i], r[j]) {
      assert r[j] == t[j - 1];
      if i > 0 { assert r[i] == t[i - 1]; }
    }
  }

  lemma {:induction false} InsertSorted(x: string, s: seq<string>)
    requires SortedStrict(s) && x !in s
    ensures SortedStrict(Insert(x, s))
    ensures multiset(Insert(x, s)) == multiset(s) + multiset{x}
    decreases |s|
  {
    InsertMultiset(x, s);
    if s != [] {
      if LexLess(s[0], x) {
        assert x !in s[1..];
        InsertSorted(x, s[1..]);
        InsertMembers(x, s[1..]);
        var t := Insert(x, s[1..]);
        forall k | 0 <= k < |t| ensures LexLess(s[0], t[k]) {
          assert t[k] in t;
          if t[k] != x {
            var m :| 0 <= m < |s[1..]| && s[1..][m] == t[k];
            assert s[m + 1] == t[k];
          }
        }
        ConsSorted(s[0], t);
      } else {
        LexTotal(x, s[0]);
        forall k | 0 <= k < |s| ensures LexLess(x, s[k]) {
          if k > 0 { LexTransitive(x, s[0], s[k]); }
        }
        ConsSorted(x, s);
      }
    }
  }

  /** Sorting distinct keys gives them strictly ascending, and the same keys. */
  lemma {:induction false} SortStringsSorted(s: seq<string>)
    requires DistinctStrings(s)
    ensures SortedStrict(SortStrings(s))
    ensures multiset(SortStrings(s)) == multiset(s)
    decreases |s|
  {
    if s != [] {
      SortStringsSorted(s[1..]);
      assert s[0] !in s[1..];
      assert s[0] !in multiset(SortStrings(s[1..]));
      InsertSorted(s[0], SortStrings(s[1..]));
      assert s == [s[0]] + s[1..];
    }
  }

  /** Two strictly ascending sequences with the same elements are equal. */
  lemma {:induction false} SortedUnique(a: seq<string>, b: seq<string>)
    requires SortedStrict(a) && SortedStrict(b)
    requires forall x :: x in a <==> x in b
    ensures a == b
    decreases |a|
  {
    if a != [] {
      assert a[0] in a;
    }
    if b != [] {
      assert b[0] in b;
    }
    if a != [] && b != [] {
      var ka :| 0 <= ka < |b| && b[ka] == a[0];
      var kb :| 0 <= kb < |a| && a[kb] == b[0];
      LexIrreflexive(a[0]);
      assert ka > 0 ==> LexLess(b[0], a[0]);
      assert kb > 0 ==> LexLess(a[0], b[0]);
      if ka > 0 && kb > 0 {
        LexTransitive(a[0], b[0], a[0]);
      }
      assert a[0] == b[0];
      forall x ensures x in a[1..] <==> x in b[1..] {
        if x in a[1..] {
          var i :| 0 <= i < |a[1..]| && a[1..][i] == x;
          assert LexLess(a[0], a[i + 1]);
          if x == b[0] { LexIrreflexive(x); }
          assert x in b;
        }
        if x in b[1..] {
          var i :| 0 <= i < |b[1..]| && b[1..][i] == x;
          assert LexLess(b[0], b[i + 1]);
          if x == a[0] { LexIrreflexive(x); }
          assert x in a;
        }
      }
      SortedUnique(a[1..], b[1..]);
      assert a == [a[0]] + a[1..] && b == [b[0]] + b[1..];
    }
  }

  // ------------------------------------------------------------------ ids

  type Entity = map<string, Value>

  /** `String.join(sep, parts)`. */
  function Join(sep: string, parts: seq<string>): string
  {
    if parts == [] then "" else if |parts| == 1 then parts[0] else parts[0] + sep + Join(sep, parts[1..])
  }

  /** `toString()` of a scalar (dates by the stand-in rendering). */
  function ScalarText(x: Scalar): string
  {
    match x
    case Str(s) => s
    case IntV(i) => IntToString(i)
    case LongV(l) => IntToString(l)
    case Date(m) => DateText(m)
  }

  /** `toString()` of a value: a list renders as `[a, b]`; null has none. */
  function ValueText(v: Value): Outcome<string>
  {
    match v
    case Null => Thrown(Error(NullPointer, ""))
    case One(x) => Ok(ScalarText(x))
    case Many(xs) => Ok("[" + Join(", ", seq(|xs|, i requires 0 <= i < |xs| => ScalarText(xs[i]))) + "]")
  }

  /** The names of the id descriptors that the map has a key for, in descriptor order. */
  function IdKeys(fds: seq<FieldDescriptor>, m: Entity): (r: seq<string>)
    ensures forall k :: k in r <==> exists i :: 0 <= i < |fds| && fds[i].id && fds[i].name in m && fds[i].name == k
    ensures (forall i :: 0 <= i < |fds| ==> !(fds[i].id && fds[i].name in m)) ==> r == []
  {
    if fds == [] then []
    else (if fds[0].id && fds[0].name in m then [fds[0].name] else []) + IdKeys(fds[1..], m)
  }

  /** The text of each key's value, in the given order; the first null is a NullPointerException. */
  function IdTexts(keys: seq<string>, m: Entity): Outcome<seq<string>>
    requires forall i :: 0 <= i < |keys| ==> keys[i] in m
  {
    if keys == [] then Ok([])
    else
      var t := ValueText(m[keys[0]]);
      var rest := IdTexts(keys[1..], m);
      if t.Thrown? then Thrown(t.exn) else if rest.Thrown? then Thrown(rest.exn) else Ok([t.value] + rest.value)
  }

  /**
   * `MapDomainOperations.id`: the values of the id fields the map has, in
   * ascending order of field name, joined with "."; a RuntimeException when
   * that text is empty.
   */
  function MapId(fds: seq<FieldDescriptor>, m: Entity): Outcome<string>
  {
    var keys := SortStrings(IdKeys(fds, m));
    assert forall i :: 0 <= i < |keys| ==> keys[i] in m by {
      SortMembers(IdKeys(fds, m));
      forall i | 0 <= i < |keys| ensures keys[i] in m {
        assert keys[i] in keys;
      }
    }
    var texts := IdTexts(keys, m);
    if texts.Thrown? then Thrown(texts.exn)
    else
      var joined := Join(".", texts.value);
      if |joined| == 0 then Thrown(Error(RuntimeEx, "No fields available to create id")) else Ok(joined)
  }

  lemma {:induction false} InsertMembers(x: string, s: seq<string>)
    ensures forall y :: y in Insert(x, s) <==> y == x || y in s
    decreases |s|
  {
    if s != [] && LexLess(s[0], x) {
      InsertMembers(x, s[1..]);
      assert s == [s[0]] + s[1..];
    }
  }

  lemma {:induction false} SortMembers(s: seq<string>)
    ensures forall y :: y in SortStrings(s) <==> y in s
    decreases |s|
  {
    if s != [] {
      SortMembers(s[1..]);
      InsertMembers(s[0], SortStrings(s[1..]));
      assert s == [s[0]] + s[1..];
    }
  }

  lemma {:induction false} IdKeysDistinct(fds: seq<FieldDescriptor>, m: Entity)
    requires DistinctNames(fds)
    ensures DistinctStrings(IdKeys(fds, m))
    decreases |fds|
  {
    if fds != [] {
      IdKeysDistinct(fds[1..], m);
      var rest := IdKeys(fds[1..], m);
      assert forall i :: 0 <= i < |fds[1..]| ==> fds[1..][i].name != fds[0].name by {
        forall i | 0 <= i < |fds[1..]| ensures fds[1..][i].name != fds[0].name {
          assert fds[1..][i] == fds[i + 1];
        }
      }
      assert fds[0].name !in rest;
    }
  }

  /**
   * The id does not depend on the order the descriptor map iterates its
   * entries in: any arrangement of the same descriptors gives the same id.
   */
  lemma IdIndependentOfOrder(fds: seq<FieldDescriptor>, other: seq<FieldDescriptor>, m: Entity)
    requires DistinctNames(fds) && DistinctNames(other)
    requires multiset(fds) == multiset(other)
    ensures MapId(fds, m) == MapId(other, m)
  {
    IdKeysDistinct(fds, m);
    IdKeysDistinct(other, m);
    SortStringsSorted(IdKeys(fds, m));
    SortStringsSorted(IdKeys(other, m));
    SortMembers(IdKeys(fds, m));
    SortMembers(IdKeys(other, m));
    IdKeysWithin(fds, other, m);
    IdKeysWithin(other, fds, m);
    SortedUnique(SortStrings(IdKeys(fds, m)), SortStrings(IdKeys(other, m)));
  }

  /** Every id key of some descriptors is an id key of descriptors that include them. */
  lemma IdKeysWithin(fds: seq<FieldDescriptor>, other: seq<FieldDescriptor>, m: Entity)
    requires multiset(fds) <= multiset(other)
    ensures forall k :: k in IdKeys(fds, m) ==> k in IdKeys(other, m)
  {
    forall k | k in IdKeys(fds, m) ensures k in IdKeys(other, m) {
      var i :| 0 <= i < |fds| && fds[i].id && fds[i].name in m && fds[i].name == k;
      assert fds[i] in multiset(other);
      var j :| 0 <= j < |other| && other[j] == fds[i];
    }
  }

  /** Without any id field in the map there is no id. */
  lemma NoIdFields(fds: seq<FieldDescriptor>, m: Entity)
    requires forall i :: 0 <= i < |fds| && fds[i].id ==> fds[i].name !in m
    ensures MapId(fds, m) == Thrown(Error(RuntimeEx, "No fields available to create id"))
  {
    assert IdKeys(fds, m) == [];
  }

  lemma {:induction false} IdKeysSingle(fds: seq<FieldDescriptor>, m: Entity, i: nat)
    requires i < |fds| && fds[i].id && fds[i].name in m
    requires forall k :: 0 <= k < |fds| && fds[k].id && fds[k].name in m ==> k == i
    ensures IdKeys(fds, m) == [fds[i].name]
    decreases i
  {
    assert forall k :: 0 <= k < |fds[1..]| ==> fds[1..][k] == fds[k + 1];
    if i > 0 {
      IdKeysSingle(fds[1..], m, i - 1);
    }
  }

  /** A single id field with a non-empty text is its own id. */
  lemma SingleIdField(fds: seq<FieldDescriptor>, m: Entity, i: nat, s: string)
    requires i < |fds| && fds[i].id && fds[i].name in m && m[fds[i].name] == One(Str(s)) && |s| > 0
    requires forall k :: 0 <= k < |fds| && fds[k].id && fds[k].name in m ==> k == i
    ensures MapId(fds, m) == Ok(s)
  {
    var n := fds[i].name;
    IdKeysSingle(fds, m, i);
    assert SortStrings([n]) == [n];
    var one: seq<string> := [n];
    assert one[1..] == [];
    assert IdTexts(one[1..], m) == Ok([]);
    assert ValueText(m[one[0]]) == Ok(s);
    assert [s] + [] == [s];
    assert IdTexts(one, m) == Ok([s]);
  }

  // ------------------------------------------------------- create and read

  /**
   * `createDocument`, as a value: for each descriptor in turn whose name the
   * map has as a key, the fields of that key's value; entries of the map
   * that no descriptor names are not indexed.
   */
  function DocumentOf(fds: seq<FieldDescriptor>, m: Entity): Outcome<Document>
  {
    if fds == [] then Ok([])
    else
      var before := DocumentOf(fds[..|fds| - 1], m);
      var fd := fds[|fds| - 1];
      if before.Thrown? || fd.name !in m then before
      else
        var fs := Fields(fd, m[fd.name]);
        if fs.Thrown? then Thrown(fs.exn) else Ok(before.value + fs.value)
  }

  /** `MapDomainOperations.createDocument`: the fields appended one descriptor at a time. */
  method CreateDocument(dd: DocumentDescriptor, m: Entity) returns (r: Outcome<Document>)
    ensures r == DocumentOf(dd.fields, m)
  {
    var fds := dd.fields;
    var document: Document := [];
    var i := 0;
    while i < |fds|
      invariant 0 <= i <= |fds|
      invariant DocumentOf(fds[..i], m) == Ok(document)
    {
      assert fds[..i + 1][..i] == fds[..i];
      var fd := fds[i];
      if fd.name in m {
        var fs := Fields(fd, m[fd.name]);
        if fs.Thrown? {
          assert DocumentOf(fds[..i + 1], m) == Thrown(fs.exn);
          FailureSticks(fds, m, i + 1);
          assert fds[..|fds|] == fds;
          return Thrown(fs.exn);
        }
        document := document + fs.value;
      }
      i := i + 1;
    }
    assert fds[..i] == fds;
    r := Ok(document);
  }

  /** Once a descriptor's fields fail, the whole document fails with that exception. */
  lemma {:induction false} FailureSticks(fds: seq<FieldDescriptor>, m: Entity, i: nat)
    requires i <= |fds| && DocumentOf(fds[..i], m).Thrown?
    ensures DocumentOf(fds, m) == DocumentOf(fds[..i], m)
    decreases |fds| - i
  {
    if i < |fds| {
      assert fds[..i + 1][..i] == fds[..i];
      FailureSticks(fds, m, i + 1);
    } else {
      assert fds[..i] == fds;
    }
  }

  /** Map entries without a descriptor change nothing: only the described keys matter. */
  lemma {:induction false} UndescribedKeysIgnored(fds: seq<FieldDescriptor>, m: Entity, m': Entity)
    requires forall i :: 0 <= i < |fds| ==> (fds[i].name in m <==> fds[i].name in m')
    requires forall i :: 0 <= i < |fds| && fds[i].name in m ==> m[fds[i].name] == m'[fds[i].name]
    ensures DocumentOf(fds, m) == DocumentOf(fds, m')
    decreases |fds|
  {
    if fds != [] {
      UndescribedKeysIgnored(fds[..|fds| - 1], m, m');
    }
  }

  /**
   * `readDocument`, as a value: each descriptor reads the document; null
   * reads are left out of the map; the first failing read throws.
   */
  function ReadDocument(fds: seq<FieldDescriptor>, d: Document): Outcome<Entity>
  {
    if fds == [] then Ok(map[])
    else
      var before := ReadDocument(fds[..|fds| - 1], d);
      var fd := fds[|fds| - 1];
      var v := Read(fd, d);
      if before.Thrown? then before
      else if v.Thrown? then Thrown(v.exn)
      else if v.value.Null? then before
      else Ok(before.value[fd.name := v.value])
  }

  /** The read fails exactly when some reader fails. */
  lemma {:induction false} ReadDocumentOk(fds: seq<FieldDescriptor>, d: Document)
    ensures ReadDocument(fds, d).Ok? <==> forall i :: 0 <= i < |fds| ==> Read(fds[i], d).Ok?
    decreases |fds|
  {
    if fds != [] {
      var init := fds[..|fds| - 1];
      ReadDocumentOk(init, d);
      ReadDocumentStep(fds, d);
      AllReadsStep(fds, d);
    }
  }

  lemma ReadDocumentStep(fds: seq<FieldDescriptor>, d: Document)
    requires fds != []
    ensures ReadDocument(fds, d).Ok? <==> ReadDocument(fds[..|fds| - 1], d).Ok? && Read(fds[|fds| - 1], d).Ok?
  {
  }

  lemma AllReadsStep(fds: seq<FieldDescriptor>, d: Document)
    requires fds != []
    ensures var init := fds[..|fds| - 1];
      (forall i :: 0 <= i < |fds| ==> Read(fds[i], d).Ok?) <==>
      (forall i :: 0 <= i < |init| ==> Read(init[i], d).Ok?) && Read(fds[|fds| - 1], d).Ok?
  {
    var init := fds[..|fds| - 1];
    assert forall i :: 0 <= i < |init| ==> init[i] == fds[i];
  }

  /** The read map has no key that no descriptor names. */
  lemma {:induction false} ReadDocumentKeys(fds: seq<FieldDescriptor>, d: Document)
    requires ReadDocument(fds, d).Ok?
    ensures forall k :: k in ReadDocument(fds, d).value ==> exists i :: 0 <= i < |fds| && fds[i].name == k
    decreases |fds|
  {
    if fds != [] {
      var init := fds[..|fds| - 1];
      ReadDocumentKeys(init, d);
      var r := ReadDocument(fds, d).value;
      forall k | k in r ensures exists i :: 0 <= i < |fds| && fds[i].name == k {
        if k != fds[|fds| - 1].name {
          var i :| 0 <= i < |init| && init[i].name == k;
          assert fds[i].name == k;
        }
      }
    }
  }

  /**
   * A descriptor's name is in the read map exactly when its reader found a
   * value, and then maps to that value.
   */
  lemma {:induction false} ReadDocumentEntry(fds: seq<FieldDescriptor>, d: Document, i: nat)
    requires DistinctNames(fds) && i < |fds| && ReadDocument(fds, d).Ok?
    ensures Read(fds[i], d).Ok?
    ensures fds[i].name in ReadDocument(fds, d).value <==> !Read(fds[i], d).value.Null?
    ensures fds[i].name in ReadDocument(fds, d).value ==> ReadDocument(fds, d).value[fds[i].name] == Read(fds[i], d).value
    decreases |fds|
  {
    var init := fds[..|fds| - 1];
    var last := fds[|fds| - 1];
    ReadDocumentUnfold(fds, d);
    if i < |fds| - 1 {
      assert init[i] == fds[i];
      assert fds[i].name != last.name;
      DistinctNamesInit(fds);
      ReadDocumentEntry(init, d, i);
    } else {
      ReadDocumentLastFresh(fds, d);
    }
  }

  /** A successful read is the read of all but the last descriptor, with the last one's value added unless it is null. */
  lemma ReadDocumentUnfold(fds: seq<FieldDescriptor>, d: Document)
    requires fds != [] && ReadDocument(fds, d).Ok?
    ensures var init := ReadDocument(fds[..|fds| - 1], d);
      var v := Read(fds[|fds| - 1], d);
      && init.Ok? && v.Ok?
      && ReadDocument(fds, d).value == if v.value.Null? then init.value else init.value[fds[|fds| - 1].name := v.value]
  {
  }

  lemma DistinctNamesInit(fds: seq<FieldDescriptor>)
    requires fds != [] && DistinctNames(fds)
    ensures DistinctNames(fds[..|fds| - 1])
  {
    var init := fds[..|fds| - 1];
    assert forall a :: 0 <= a < |init| ==> init[a] == fds[a];
  }

  /** With distinct names, the last descriptor's name is not among the keys read before it. */
  lemma ReadDocumentLastFresh(fds: seq<FieldDescriptor>, d: Document)
    requires fds != [] && DistinctNames(fds) && ReadDocument(fds[..|fds| - 1], d).Ok?
    ensures fds[|fds| - 1].name !in ReadDocument(fds[..|fds| - 1], d).value
  {
    var init := fds[..|fds| - 1];
    ReadDocumentKeys(init, d);
    assert forall a :: 0 <= a < |init| ==> init[a] == fds[a];
  }

  /** A multi-valued reader never reads null, so its name is always in the read map. */
  lemma MultiValuedAlwaysRead(fds: seq<FieldDescriptor>, d: Document, i: nat)
    requires DistinctNames(fds) && i < |fds| && fds[i].reader.MultiReader?
    requires ReadDocument(fds, d).Ok?
    ensures fds[i].name in ReadDocument(fds, d).value && ReadDocument(fds, d).value[fds[i].name].Many?
  {
    ReadDocumentEntry(fds, d, i);
  }

  /** `new MapDomainOperations(descriptor)`. */
  function MapDomain(dd: DocumentDescriptor): DomainOperations<Entity>
  {
    DomainOperations(
      (m: Entity) => MapId(dd.fields, m),
      (m: Entity) => DocumentOf(dd.fields, m),
      (d: Document) => ReadDocument(dd.fields, d))
  }

  // ------------------------------------------------------------ round trip

  /** No sub-field of any descriptor other than `i` is named `rn`. */
  predicate OnlyDescriptorNames(fds: seq<FieldDescriptor>, i: nat, rn: string)
  {
    forall k, j :: 0 <= k < |fds| && k != i && 0 <= j < |fds[k].subFields| ==> fds[k].subFields[j].name != rn
  }

  /** Exactly sub-field `p` is named `rn`. */
  predicate UniqueSub(subs: seq<SubField>, p: nat, rn: string)
  {
    p < |subs| && subs[p].name == rn && forall j :: 0 <= j < |subs| && j != p ==> subs[j].name != rn
  }

  lemma {:induction false} ScalarFieldsOmit(subs: seq<SubField>, x: Scalar, rn: string)
    requires FieldsOfScalar(subs, x).Ok?
    requires forall j :: 0 <= j < |subs| ==> subs[j].name != rn
    ensures GetFields(FieldsOfScalar(subs, x).value, rn) == []
  {
    GetFieldsNone(FieldsOfScalar(subs, x).value, rn);
  }

  lemma {:induction false} AllFieldsOmit(subs: seq<SubField>, xs: seq<Scalar>, rn: string)
    requires FieldsOfAll(subs, xs).Ok?
    requires forall j :: 0 <= j < |subs| ==> subs[j].name != rn
    ensures GetFields(FieldsOfAll(subs, xs).value, rn) == []
    decreases |xs|
  {
    if xs != [] {
      ScalarFieldsOmit(subs, xs[0], rn);
      AllFieldsOmit(subs, xs[1..], rn);
      GetFieldsConcat(FieldsOfScalar(subs, xs[0]).value, FieldsOfAll(subs, xs[1..]).value, rn);
    }
  }

  lemma FieldsOmit(fd: FieldDescriptor, v: Value, rn: string)
    requires Fields(fd, v).Ok?
    requires forall j :: 0 <= j < |fd.subFields| ==> fd.subFields[j].name != rn
    ensures GetFields(Fields(fd, v).value, rn) == []
  {
    match v
    case Null =>
    case One(x) => ScalarFieldsOmit(fd.subFields, x, rn);
    case Many(xs) => AllFieldsOmit(fd.subFields, xs, rn);
  }

  /** A document made from descriptors none of which has a sub-field named `rn` has no field `rn`. */
  lemma {:induction false} DocumentOmits(fds: seq<FieldDescriptor>, m: Entity, rn: string)
    requires DocumentOf(fds, m).Ok?
    requires forall k, j :: 0 <= k < |fds| && 0 <= j < |fds[k].subFields| ==> fds[k].subFields[j].name != rn
    ensures GetFields(DocumentOf(fds, m).value, rn) == []
    decreases |fds|
  {
    if fds != [] {
      var init := fds[..|fds| - 1];
      var fd := fds[|fds| - 1];
      assert forall k :: 0 <= k < |init| ==> init[k] == fds[k];
      DocumentOmits(init, m, rn);
      if fd.name in m {
        FieldsOmit(fd, m[fd.name], rn);
        GetFieldsConcat(DocumentOf(init, m).value, Fields(fd, m[fd.name]).value, rn);
      }
    }
  }

  /** Only descriptor `i` contributes fields named `rn`. */
  lemma {:induction false} DocumentFieldsFrom(fds: seq<FieldDescriptor>, m: Entity, i: nat, rn: string)
    requires DocumentOf(fds, m).Ok? && i < |fds| && fds[i].name in m
    requires OnlyDescriptorNames(fds, i, rn)
    ensures Fields(fds[i], m[fds[i].name]).Ok?
    ensures GetFields(DocumentOf(fds, m).value, rn) == GetFields(Fields(fds[i], m[fds[i].name]).value, rn)
    decreases |fds|
  {
    var init := fds[..|fds| - 1];
    var fd := fds[|fds| - 1];
    assert forall k :: 0 <= k < |init| ==> init[k] == fds[k];
    if i == |fds| - 1 {
      DocumentOmits(init, m, rn);
      GetFieldsConcat(DocumentOf(init, m).value, Fields(fd, m[fd.name]).value, rn);
    } else {
      DocumentFieldsFrom(init, m, i, rn);
      if fd.name in m {
        FieldsOmit(fd, m[fd.name], rn);
        GetFieldsConcat(DocumentOf(init, m).value, Fields(fd, m[fd.name]).value, rn);
      }
    }
  }

  lemma {:induction false} ScalarFieldsSelf(subs: seq<SubField>, x: Scalar, p: nat, rn: string)
    requires FieldsOfScalar(subs, x).Ok? && UniqueSub(subs, p, rn)
    ensures GetFields(FieldsOfScalar(subs, x).value, rn) == [FieldOf(subs[p], x).value]
    decreases |subs|
  {
    var rest := FieldsOfScalar(subs[1..], x);
    var head := FieldOf(subs[0], x).value;
    assert FieldsOfScalar(subs, x).value == [head] + rest.value;
    GetFieldsConcat([head], rest.value, rn);
    GetFieldsOne(head, rn);
    if p == 0 {
      assert forall j :: 0 <= j < |subs[1..]| ==> subs[1..][j] == subs[j + 1];
      ScalarFieldsOmit(subs[1..], x, rn);
    } else {
      assert forall j :: 0 <= j < |subs[1..]| ==> subs[1..][j] == subs[j + 1];
      ScalarFieldsSelf(subs[1..], x, p - 1, rn);
    }
  }

  lemma {:induction false} AllFieldsSelf(subs: seq<SubField>, xs: seq<Scalar>, p: nat, rn: string)
    requires FieldsOfAll(subs, xs).Ok? && UniqueSub(subs, p, rn)
    ensures |GetFields(FieldsOfAll(subs, xs).value, rn)| == |xs|
    ensures forall k :: 0 <= k < |xs| ==> FieldOf(subs[p], xs[k]).Ok?
    ensures forall k :: 0 <= k < |xs| ==> GetFields(FieldsOfAll(subs, xs).value, rn)[k] == FieldOf(subs[p], xs[k]).value
    decreases |xs|
  {
    if xs != [] {
      var head := FieldsOfScalar(subs, xs[0]).value;
      var rest := FieldsOfAll(subs, xs[1..]).value;
      assert FieldsOfAll(subs, xs).value == head + rest;
      ScalarFieldsSelf(subs, xs[0], p, rn);
      AllFieldsSelf(subs, xs[1..], p, rn);
      GetFieldsConcat(head, rest, rn);
      var g := GetFields(FieldsOfAll(subs, xs).value, rn);
      assert g == [FieldOf(subs[p], xs[0]).value] + GetFields(rest, rn);
      forall k | 1 <= k < |xs|
        ensures FieldOf(subs[p], xs[k]).Ok? && g[k] == FieldOf(subs[p], xs[k]).value
      {
        assert xs[1..][k - 1] == xs[k];
      }
    }
  }

  /**
   * The reader of descriptor `fd` recovers a value stored through its
   * sub-field `p`: the sub-field `p` is the only one named like the
   * reader's field, and parsing its field gives each element back.
   */
  predicate ReadsBack(fd: FieldDescriptor, v: Value, p: nat)
  {
    && UniqueSub(fd.subFields, p, fd.reader.name)
    && match v
       case Null => false
       case One(x) =>
         fd.reader.SingleReader? && FieldOf(fd.subFields[p], x).Ok?
         && Parse(fd.reader.parser, FieldOf(fd.subFields[p], x).value) == Ok(x)
       case Many(xs) =>
         fd.reader.MultiReader?
         && (forall k :: 0 <= k < |xs| ==>
              FieldOf(fd.subFields[p], xs[k]).Ok? && Parse(fd.reader.parser, FieldOf(fd.subFields[p], xs[k]).value) == Ok(xs[k]))
  }

  /**
   * Round trip: reading a created document gives back each value whose
   * descriptor reads what it stores, when no other descriptor writes a field
   * of the reader's name.
   */
  lemma RoundTrip(fds: seq<FieldDescriptor>, m: Entity, i: nat, p: nat)
    requires DocumentOf(fds, m).Ok? && i < |fds| && fds[i].name in m
    requires OnlyDescriptorNames(fds, i, fds[i].reader.name)
    requires ReadsBack(fds[i], m[fds[i].name], p)
    ensures Read(fds[i], DocumentOf(fds, m).value) == Ok(m[fds[i].name])
  {
    var fd := fds[i];
    var rn := fd.reader.name;
    var d := DocumentOf(fds, m).value;
    DocumentFieldsFrom(fds, m, i, rn);
    match m[fd.name]
    case One(x) =>
      ScalarFieldsSelf(fd.subFields, x, p, rn);
    case Many(xs) =>
      AllFieldsSelf(fd.subFields, xs, p, rn);
      var fs := GetFields(d, rn);
      var parsed := ParseAll(fd.reader.parser, fs);
      assert parsed.Ok?;
      assert parsed.value == xs;
  }

  /**
   * Round trip through a searcher: when the sub-field the reader reads is a
   * stored one, reading the stored fields of a created document, which is
   * what a search hands back, gives the value back too.
   */
  lemma RoundTripStored(fds: seq<FieldDescriptor>, m: Entity, i: nat, p: nat)
    requires DocumentOf(fds, m).Ok? && i < |fds| && fds[i].name in m
    requires OnlyDescriptorNames(fds, i, fds[i].reader.name)
    requires ReadsBack(fds[i], m[fds[i].name], p)
    requires FieldType(fds[i].subFields[p].kind) == StoredField
    ensures Read(fds[i], StoredFields(DocumentOf(fds, m).value)) == Ok(m[fds[i].name])
  {
    RoundTrip(fds, m, i, p);
    ReaderFieldsStored(fds, m, i, p);
    ReadStored(fds[i], DocumentOf(fds, m).value);
  }

  /** Every field of a created document named like the reader's field comes from the stored sub-field `p`. */
  lemma ReaderFieldsStored(fds: seq<FieldDescriptor>, m: Entity, i: nat, p: nat)
    requires DocumentOf(fds, m).Ok? && i < |fds| && fds[i].name in m
    requires OnlyDescriptorNames(fds, i, fds[i].reader.name)
    requires ReadsBack(fds[i], m[fds[i].name], p)
    requires FieldType(fds[i].subFields[p].kind) == StoredField
    ensures var d := DocumentOf(fds, m).value;
      forall j :: 0 <= j < |d| && d[j].name == fds[i].reader.name ==> d[j].stored
  {
    var rn := fds[i].reader.name;
    var d := DocumentOf(fds, m).value;
    DocumentFieldsFrom(fds, m, i, rn);
    SelfFieldsStored(fds[i], m[fds[i].name], p);
    forall j | 0 <= j < |d| && d[j].name == rn
      ensures d[j].stored
    {
      GetFieldsMembers(d, rn, d[j]);
    }
  }

  /** The fields a descriptor writes under its reader's name come from sub-field `p`, so they are stored when it is. */
  lemma SelfFieldsStored(fd: FieldDescriptor, v: Value, p: nat)
    requires Fields(fd, v).Ok? && ReadsBack(fd, v, p)
    requires FieldType(fd.subFields[p].kind) == StoredField
    ensures forall f :: f in GetFields(Fields(fd, v).value, fd.reader.name) ==> f.stored
  {
    var rn := fd.reader.name;
    var fs := GetFields(Fields(fd, v).value, rn);
    if v.One? {
      ScalarFieldsSelf(fd.subFields, v.x, p, rn);
      assert fs == [FieldOf(fd.subFields[p], v.x).value];
    } else {
      AllFieldsSelf(fd.subFields, v.xs, p, rn);
      forall f | f in fs
        ensures f.stored
      {
        var k :| 0 <= k < |fs| && fs[k] == f;
        assert f == FieldOf(fd.subFields[p], v.xs[k]).value;
      }
    }
  }

  /** The stored sub-field and parser of every builder type read a well-typed value back. */
  lemma StoredReadsBack(t: ValueType, name: string, x: Scalar)
    requires match t
      case StringType => x.Str?
      case IntType => x.IntV? && IsInt(x.i)
      case LongType => x.LongV? && IsLong(x.l)
      case DateType => x.Date? && IsLong(x.millis)
    ensures var sf := CreateField(InitialFactories(t, false)[|InitialFactories(t, false)| - 1], name);
      && sf.name == ReaderFor(t, name, false).name
      && FieldOf(sf, x).Ok?
      && FieldOf(sf, x).value.stored
      && Parse(ParserFor(t), FieldOf(sf, x).value) == Ok(x)
  {
  }
}
