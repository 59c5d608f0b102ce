// The builders: FieldDescriptorBuilder and its typed builders collect lazy
// sub-field factories and produce a field descriptor; DocumentDescriptorBuilder
// collects field descriptors, rejects duplicate names and registers the
// facet sub-fields with the backend's facet configuration.

module Builders {
  import opened Outcomes
  import opened Index
  import opened Schema
  import Backend

  /** The value type a typed builder is for. */
  datatype ValueType = StringType | IntType | LongType | DateType

  /** A sub-field descriptor still waiting for the field's name (`LazySubField`). */
  datatype LazySubField =
    | StoredStringOf | StoredIntOf | StoredLongOf
    | TextOf | KeywordOf | StringFacetOf
    | AliasTo(alias: string)   // `alias(...)`: the alias is fixed when the factory is added
    | AliasToName              // an excluded string field: an alias to the field's own name
    | NumericFacetOf | IntegerPointOf | LongPointOfName
    | DateTextOf | DateMillisOf | DateFacetOf | DatePointOf

  /** `factory.createField(name)`, called by `build()` with the builder's name. */
  function CreateField(f: LazySubField, name: string): SubField
  {
    match f
    case StoredStringOf => StoredStringSub(name)
    case StoredIntOf => StoredIntSub(name)
    case StoredLongOf => StoredLongSub(name)
    case TextOf => TextSub(name)
    case KeywordOf => KeywordSub(name)
    case StringFacetOf => StringFacetSub(name)
    case AliasTo(alias) => AliasSub(name, alias)
    case AliasToName => AliasSub(name, name)
    case NumericFacetOf => NumericFacetSub(name)
    case IntegerPointOf => IntegerPointSub(name)
    case LongPointOfName => LongPointSub(name)
    case DateTextOf => Compose(StoredStringSub(name), IsoText)
    case DateMillisOf => Compose(StoredLongSub(name + ".millis"), ToMillis)
    case DateFacetOf => Compose(NumericFacetSub(name), ToMillis)
    case DatePointOf => Compose(LongPointSub(name), ToMillis)
  }

  /** What a typed builder's constructor registers, given `exclude` at that moment. */
  function InitialFactories(t: ValueType, exclude: bool): seq<LazySubField>
  {
    match t
    case StringType => if exclude then [AliasToName] else [StoredStringOf]
    case IntType => if exclude then [] else [StoredIntOf]
    case LongType => if exclude then [] else [StoredLongOf]
    case DateType => if exclude then [] else [DateTextOf, DateMillisOf]
  }

  function ParserFor(t: ValueType): Parser
  {
    match t
    case StringType => StringValue
    case IntType => IntValue
    case LongType => LongValue
    case DateType => DateValue
  }

  /** `fieldReader()`: dates always read the single `.millis` field; the others follow multiValue. */
  function ReaderFor(t: ValueType, name: string, multiValue: bool): Reader
  {
    if t == DateType then SingleReader(name + ".millis", DateValue)
    else if multiValue then MultiReader(name, ParserFor(t))
    else SingleReader(name, ParserFor(t))
  }

  /** FieldDescriptorBuilder: the settings shared by the typed builders it creates. */
  class FieldDescriptorBuilder {
    var name: Option<string>
    var id: bool
    var multiValue: bool
    var exclude: bool

    constructor ()
      ensures name == None && !id && !multiValue && !exclude
    {
      name := None;
      id := false;
      multiValue := false;
      exclude := false;
    }

    method Name(n: string)
      modifies this
      ensures name == Some(n) && id == old(id) && multiValue == old(multiValue) && exclude == old(exclude)
    {
      name := Some(n);
    }

    method Id()
      modifies this
      ensures id && name == old(name) && multiValue == old(multiValue) && exclude == old(exclude)
    {
      id := true;
    }

    method MultiValue()
      modifies this
      ensures multiValue && name == old(name) && id == old(id) && exclude == old(exclude)
    {
      multiValue := true;
    }

    method Exclude()
      modifies this
      ensures exclude && name == old(name) && id == old(id) && multiValue == old(multiValue)
    {
      exclude := true;
    }

    method StringField() returns (b: TypedFieldDescriptorBuilder)
      ensures fresh(b) && b.outer == this && b.valueType == StringType
      ensures b.factories == if exclude then [AliasToName] else [StoredStringOf]
    {
      b := new TypedFieldDescriptorBuilder(this, StringType);
    }

    method IntField() returns (b: TypedFieldDescriptorBuilder)
      ensures fresh(b) && b.outer == this && b.valueType == IntType
      ensures b.factories == if exclude then [] else [StoredIntOf]
    {
      b := new TypedFieldDescriptorBuilder(this, IntType);
    }

    method LongField() returns (b: TypedFieldDescriptorBuilder)
      ensures fresh(b) && b.outer == this && b.valueType == LongType
      ensures b.factories == if exclude then [] else [StoredLongOf]
    {
      b := new TypedFieldDescriptorBuilder(this, LongType);
    }

    method ZonedDateTime() returns (b: TypedFieldDescriptorBuilder)
      ensures fresh(b) && b.outer == this && b.valueType == DateType
      ensures b.factories == if exclude then [] else [DateTextOf, DateMillisOf]
    {
      b := new TypedFieldDescriptorBuilder(this, DateType);
    }
  }

  /**
   * The typed builders (String, Int, Long and ZonedDateTime). Their options
   * append factories; `name`, `id` and `multiValue` live in the outer builder
   * and are read when the descriptor is built.
   */
  class TypedFieldDescriptorBuilder {
    const outer: FieldDescriptorBuilder
    const valueType: ValueType
    var factories: seq<LazySubField>

    constructor (outer: FieldDescriptorBuilder, t: ValueType)
      ensures this.outer == outer && valueType == t
      ensures factories == InitialFactories(t, outer.exclude)
    {
      this.outer := outer;
      valueType := t;
      factories := InitialFactories(t, outer.exclude);
    }

    /** `text()`: ignored on an excluded field. */
    method Text()
      requires valueType == StringType
      modifies this
      ensures factories == old(factories) + if outer.exclude then [] else [TextOf]
    {
      if !outer.exclude {
        factories := factories + [TextOf];
      }
    }

    method Keyword()
      requires valueType == StringType
      modifies this
      ensures factories == old(factories) + [KeywordOf]
    {
      factories := factories + [KeywordOf];
    }

    /** `facet()`: a string facet for strings, a numeric doc-values field otherwise. */
    method Facet()
      modifies this
      ensures factories == old(factories) + [match valueType
        case StringType => StringFacetOf
        case IntType => NumericFacetOf
        case LongType => NumericFacetOf
        case DateType => DateFacetOf]
    {
      var f := match valueType
        case StringType => StringFacetOf
        case IntType => NumericFacetOf
        case LongType => NumericFacetOf
        case DateType => DateFacetOf;
      factories := factories + [f];
    }

    method Point()
      requires valueType != StringType
      modifies this
      ensures factories == old(factories) + [match valueType
        case IntType => IntegerPointOf
        case LongType => LongPointOfName
        case _ => DatePointOf]
    {
      var f := match valueType
        case IntType => IntegerPointOf
        case LongType => LongPointOfName
        case _ => DatePointOf;
      factories := factories + [f];
    }

    /** `alias(fields...)`: one alias factory per name, in order. */
    method Alias(fields: seq<string>)
      requires valueType == StringType
      modifies this
      ensures |factories| == |old(factories)| + |fields|
      ensures factories[..|old(factories)|] == old(factories)
      ensures forall i :: 0 <= i < |fields| ==> factories[|old(factories)| + i] == AliasTo(fields[i])
    {
      for i := 0 to |fields|
        invariant |factories| == |old(factories)| + i
        invariant factories[..|old(factories)|] == old(factories)
        invariant forall k :: 0 <= k < i ==> factories[|old(factories)| + k] == AliasTo(fields[k])
      {
        factories := factories + [AliasTo(fields[i])];
      }
    }

    method Name(n: string)
      modifies outer
      ensures outer.name == Some(n) && outer.id == old(outer.id)
      ensures outer.multiValue == old(outer.multiValue) && outer.exclude == old(outer.exclude)
    {
      outer.name := Some(n);
    }

    /**
     * `build()`: a NullPointerException without a name; otherwise the
     * descriptor with every factory applied to the name, facetable exactly
     * for strings, and the reader its type and multiValue call for.
     */
    method Build() returns (r: Outcome<FieldDescriptor>)
      ensures outer.name.None? <==> r.Thrown?
      ensures r.Thrown? ==> r.exn.kind == NullPointer
      ensures r.Ok? ==> r.value.name == outer.name.value && r.value.id == outer.id
      ensures r.Ok? ==> r.value.multiValue == outer.multiValue
      ensures r.Ok? ==> (r.value.facetable <==> valueType == StringType)
      ensures r.Ok? ==> r.value.reader.parser == ParserFor(valueType)
      ensures r.Ok? ==> r.value.reader.name == if valueType == DateType then outer.name.value + ".millis" else outer.name.value
      ensures r.Ok? ==> (r.value.reader.MultiReader? <==> outer.multiValue && valueType != DateType)
      ensures r.Ok? ==> |r.value.subFields| == |factories|
      ensures r.Ok? ==> forall i :: 0 <= i < |factories| ==> r.value.subFields[i] == CreateField(factories[i], outer.name.value)
    {
      if outer.name.None? {
        return Thrown(Error(NullPointer, ""));
      }
      var n := outer.name.value;
      var fs := factories;
      var subs := seq(|fs|, i requires 0 <= i < |fs| => CreateField(fs[i], n));
      r := Ok(FieldDescriptor(n, outer.id, valueType == StringType, outer.multiValue,
        ReaderFor(valueType, n, outer.multiValue), subs));
    }
  }

  function Names(fds: seq<FieldDescriptor>): seq<string>
  {
    seq(|fds|, i requires 0 <= i < |fds| => fds[i].name)
  }

  predicate DistinctNames(fds: seq<FieldDescriptor>)
  {
    forall i, j :: 0 <= i < j < |fds| ==> fds[i].name != fds[j].name
  }

  /** The first name that repeats an earlier one or one in `seen`: the key `Collectors.toMap` reports. */
  function FirstRepeat(names: seq<string>, seen: set<string>): (r: Option<string>)
    ensures r.Some? ==> r.value in seen || r.value in names
  {
    if names == [] then None
    else if names[0] in seen then Some(names[0])
    else FirstRepeat(names[1..], seen + {names[0]})
  }

  lemma {:induction false} FirstRepeatNone(names: seq<string>, seen: set<string>)
    ensures FirstRepeat(names, seen).None? <==>
      (forall i :: 0 <= i < |names| ==> names[i] !in seen) && (forall i, j :: 0 <= i < j < |names| ==> names[i] != names[j])
    decreases |names|
  {
    if names != [] {
      FirstRepeatNone(names[1..], seen + {names[0]});
      if FirstRepeat(names, seen).None? {
        forall i, j | 0 <= i < j < |names| ensures names[i] != names[j] {
          if i > 0 {
            assert names[1..][i - 1] == names[i] && names[1..][j - 1] == names[j];
          } else {
            assert names[1..][j - 1] == names[j];
          }
        }
      } else if names[0] !in seen {
        var k :| 0 <= k < |names[1..]| && (names[1..][k] in seen + {names[0]} ||
          exists j :: k < j < |names[1..]| && names[1..][k] == names[1..][j]);
        assert names[1..][k] == names[k + 1];
        if names[k + 1] !in seen {
          if names[k + 1] == names[0] {
            assert names[0] == names[k + 1];
          } else {
            var j :| k < j < |names[1..]| && names[1..][k] == names[1..][j];
            assert names[k + 1] == names[j + 1];
          }
        }
      }
    }
  }

  /** The duplicate check rejects exactly the descriptor lists with a repeated name. */
  lemma DuplicateCheck(fds: seq<FieldDescriptor>)
    ensures FirstRepeat(Names(fds), {}).None? <==> DistinctNames(fds)
  {
    var names := Names(fds);
    FirstRepeatNone(names, {});
    assert forall i :: 0 <= i < |fds| ==> names[i] == fds[i].name;
  }

  /** A document descriptor: the field descriptors by name, in the map's iteration order. */
  datatype DocumentDescriptor = DocumentDescriptor(fields: seq<FieldDescriptor>)

  /** `fieldMap()`. */
  function FieldMap(fds: seq<FieldDescriptor>): map<string, FieldDescriptor>
  {
    if fds == [] then map[] else FieldMap(fds[..|fds| - 1])[fds[|fds| - 1].name := fds[|fds| - 1]]
  }

  /** With distinct names the field map holds every descriptor under its own name and nothing else. */
  lemma {:induction false} FieldMapContents(fds: seq<FieldDescriptor>)
    requires DistinctNames(fds)
    ensures forall k :: k in FieldMap(fds) <==> exists i :: 0 <= i < |fds| && fds[i].name == k
    ensures forall i :: 0 <= i < |fds| ==> fds[i].name in FieldMap(fds) && FieldMap(fds)[fds[i].name] == fds[i]
    decreases |fds|
  {
    if fds != [] {
      var init := fds[..|fds| - 1];
      assert DistinctNames(init) by {
        forall i, j | 0 <= i < j < |init| ensures init[i].name != init[j].name {
          assert init[i] == fds[i] && init[j] == fds[j];
        }
      }
      FieldMapContents(init);
      assert fds == init + [fds[|fds| - 1]];
      FieldMapKeysStep(init, fds[|fds| - 1]);
      FieldMapValuesStep(fds);
    }
  }

  /** One more descriptor adds its own name to the keys of the map over the ones before it. */
  lemma FieldMapKeysStep(init: seq<FieldDescriptor>, last: FieldDescriptor)
    requires forall k :: k in FieldMap(init) <==> exists i :: 0 <= i < |init| && init[i].name == k
    ensures forall k :: k in FieldMap(init + [last]) <==> exists i :: 0 <= i < |init + [last]| && (init + [last])[i].name == k
  {
    var fds := init + [last];
    assert fds[..|fds| - 1] == init;
    assert FieldMap(fds) == FieldMap(init)[last.name := last];
    forall k ensures k in FieldMap(fds) <==> exists i :: 0 <= i < |fds| && fds[i].name == k {
      if k in FieldMap(init) {
        var i :| 0 <= i < |init| && init[i].name == k;
        assert fds[i] == init[i];
      }
      if i :| 0 <= i < |fds| && fds[i].name == k {
        if i < |init| { assert init[i] == fds[i]; } else { assert fds[i] == last; }
      }
    }
  }

  /** With distinct names, one more descriptor leaves the entries of the ones before it in place. */
  lemma FieldMapValuesStep(fds: seq<FieldDescriptor>)
    requires fds != [] && DistinctNames(fds)
    requires var init := fds[..|fds| - 1];
      forall i :: 0 <= i < |init| ==> init[i].name in FieldMap(init) && FieldMap(init)[init[i].name] == init[i]
    ensures forall i :: 0 <= i < |fds| ==> fds[i].name in FieldMap(fds) && FieldMap(fds)[fds[i].name] == fds[i]
  {
    var init := fds[..|fds| - 1];
    forall i | 0 <= i < |fds| ensures fds[i].name in FieldMap(fds) && FieldMap(fds)[fds[i].name] == fds[i] {
      if i < |init| {
        assert init[i] == fds[i] && fds[i].name != fds[|fds| - 1].name;
      }
    }
  }

  // --------------------------------------------------------- facet registration

  /** A sub-field whose class is FacetField. */
  predicate IsFacetSub(sf: SubField)
  {
    FieldType(sf.kind) == FacetField
  }

  /** `setMultiValued(sub.name, multiValue)` then `setIndexFieldName(name, sub.name)`. */
  function RegisterPair(c: FacetsConfig, fd: FieldDescriptor, sf: SubField): FacetsConfig
  {
    FacetsConfig(c.indexFieldNames[fd.name := sf.name], c.multiValued[sf.name := fd.multiValue])
  }

  /** Every FacetField sub-field of one descriptor, in order. */
  function RegisterSubs(c: FacetsConfig, fd: FieldDescriptor, subs: seq<SubField>): FacetsConfig
  {
    if subs == [] then c
    else
      var before := RegisterSubs(c, fd, subs[..|subs| - 1]);
      if IsFacetSub(subs[|subs| - 1]) then RegisterPair(before, fd, subs[|subs| - 1]) else before
  }

  /** Only facetable descriptors register. */
  function RegisterDescriptor(c: FacetsConfig, fd: FieldDescriptor): FacetsConfig
  {
    if fd.facetable then RegisterSubs(c, fd, fd.subFields) else c
  }

  function RegisterFacets(c: FacetsConfig, fds: seq<FieldDescriptor>): FacetsConfig
  {
    if fds == [] then c else RegisterDescriptor(RegisterFacets(c, fds[..|fds| - 1]), fds[|fds| - 1])
  }

  /** A descriptor with no facet sub-field, or one that is not facetable, leaves the configuration alone. */
  lemma {:induction false} NoFacetNoChange(c: FacetsConfig, fd: FieldDescriptor, subs: seq<SubField>)
    requires forall j :: 0 <= j < |subs| ==> !IsFacetSub(subs[j])
    ensures RegisterSubs(c, fd, subs) == c
    decreases |subs|
  {
    if subs != [] {
      NoFacetNoChange(c, fd, subs[..|subs| - 1]);
    }
  }

  /** Whether some sub-field is a facet. */
  predicate HasFacetSub(subs: seq<SubField>)
  {
    exists j :: 0 <= j < |subs| && IsFacetSub(subs[j])
  }

  /** A facet sub-field registers its dimension under the descriptor's name and its own multi-value flag. */
  lemma {:induction false} SubsValue(c: FacetsConfig, fd: FieldDescriptor, subs: seq<SubField>, j: nat)
    requires j < |subs| && IsFacetSub(subs[j])
    requires forall k :: 0 <= k < |subs| && k != j ==> !IsFacetSub(subs[k])
    ensures fd.name in RegisterSubs(c, fd, subs).indexFieldNames
    ensures RegisterSubs(c, fd, subs).indexFieldNames[fd.name] == subs[j].name
    ensures subs[j].name in RegisterSubs(c, fd, subs).multiValued
    ensures RegisterSubs(c, fd, subs).multiValued[subs[j].name] == fd.multiValue
    decreases |subs|
  {
    var init := subs[..|subs| - 1];
    if j == |subs| - 1 {
      NoFacetNoChange(c, fd, init);
    } else {
      assert init[j] == subs[j];
      SubsValue(c, fd, init, j);
    }
  }

  /** Registering one descriptor's sub-fields touches only its own dimension and facet sub-field names. */
  lemma {:induction false} SubsPreserve(c: FacetsConfig, fd: FieldDescriptor, subs: seq<SubField>, dim: string, sub: string)
    requires dim != fd.name
    requires forall k :: 0 <= k < |subs| && IsFacetSub(subs[k]) ==> subs[k].name != sub
    ensures (dim in RegisterSubs(c, fd, subs).indexFieldNames) == (dim in c.indexFieldNames)
    ensures dim in c.indexFieldNames ==> RegisterSubs(c, fd, subs).indexFieldNames[dim] == c.indexFieldNames[dim]
    ensures (sub in RegisterSubs(c, fd, subs).multiValued) == (sub in c.multiValued)
    ensures sub in c.multiValued ==> RegisterSubs(c, fd, subs).multiValued[sub] == c.multiValued[sub]
    decreases |subs|
  {
    if subs != [] {
      SubsPreserve(c, fd, subs[..|subs| - 1], dim, sub);
    }
  }

  /**
   * After registration, a facetable descriptor with one facet sub-field maps
   * its name to that sub-field's name, and the sub-field's name to the
   * descriptor's multi-value flag, provided the names are distinct and no
   * other descriptor registers a facet sub-field of the same name.
   */
  lemma {:induction false} RegisteredFacet(c: FacetsConfig, fds: seq<FieldDescriptor>, i: nat, j: nat)
    requires DistinctNames(fds) && i < |fds| && fds[i].facetable
    requires j < |fds[i].subFields| && IsFacetSub(fds[i].subFields[j])
    requires forall k :: 0 <= k < |fds[i].subFields| && k != j ==> !IsFacetSub(fds[i].subFields[k])
    requires forall m, k :: 0 <= m < |fds| && m != i && 0 <= k < |fds[m].subFields| && IsFacetSub(fds[m].subFields[k]) ==>
      fds[m].subFields[k].name != fds[i].subFields[j].name
    ensures fds[i].name in RegisterFacets(c, fds).indexFieldNames
    ensures RegisterFacets(c, fds).indexFieldNames[fds[i].name] == fds[i].subFields[j].name
    ensures fds[i].subFields[j].name in RegisterFacets(c, fds).multiValued
    ensures RegisterFacets(c, fds).multiValued[fds[i].subFields[j].name] == fds[i].multiValue
    decreases |fds|
  {
    var init := fds[..|fds| - 1];
    var last := fds[|fds| - 1];
    if i == |fds| - 1 {
      SubsValue(RegisterFacets(c, init), last, last.subFields, j);
    } else {
      assert init[i] == fds[i];
      forall m, k | 0 <= m < |init| && m != i && 0 <= k < |init[m].subFields| && IsFacetSub(init[m].subFields[k])
        ensures init[m].subFields[k].name != init[i].subFields[j].name
      {
        assert init[m] == fds[m];
      }
      RegisteredFacet(c, init, i, j);
      if last.facetable {
        SubsPreserve(RegisterFacets(c, init), last, last.subFields, fds[i].name, fds[i].subFields[j].name);
      }
    }
  }

  /**
   * DocumentDescriptorBuilder. `field` collects descriptors; `build` fails on
   * a repeated name before touching the backend, and otherwise registers
   * every facet sub-field of every facetable descriptor.
   */
  class DocumentDescriptorBuilder {
    const backend: Backend.DefaultLuceneBackend
    var descriptors: seq<FieldDescriptor>

    constructor (backend: Backend.DefaultLuceneBackend)
      ensures this.backend == backend && descriptors == []
    {
      this.backend := backend;
      descriptors := [];
    }

    method Field(fd: FieldDescriptor)
      modifies this
      ensures descriptors == old(descriptors) + [fd]
    {
      descriptors := descriptors + [fd];
    }

    method Build() returns (r: Outcome<DocumentDescriptor>)
      modifies backend
      ensures !DistinctNames(descriptors) ==>
        && r.Thrown? && r.exn.kind == IllegalState
        && FirstRepeat(Names(descriptors), {}).Some?
        && r.exn.message == "Duplicate key " + FirstRepeat(Names(descriptors), {}).value
        && backend.engine == old(backend.engine)
      ensures DistinctNames(descriptors) ==>
        && r == Ok(DocumentDescriptor(descriptors))
        && backend.engine == old(backend.engine).(facets := RegisterFacets(old(backend.engine.facets), descriptors))
    {
      DuplicateCheck(descriptors);
      var dup := FirstRepeat(Names(descriptors), {});
      if dup.Some? {
        return Thrown(Error(IllegalState, "Duplicate key " + dup.value));
      }
      var e0 := backend.engine;
      var i := 0;
      while i < |descriptors|
        invariant 0 <= i <= |descriptors|
        invariant backend.engine == e0.(facets := RegisterFacets(e0.facets, descriptors[..i]))
      {
        var fd := descriptors[i];
        assert descriptors[..i + 1][..i] == descriptors[..i];
        if fd.facetable {
          var start := backend.engine.facets;
          var j := 0;
          while j < |fd.subFields|
            invariant 0 <= j <= |fd.subFields|
            invariant backend.engine == e0.(facets := RegisterSubs(start, fd, fd.subFields[..j]))
          {
            assert fd.subFields[..j + 1][..j] == fd.subFields[..j];
            var sf := fd.subFields[j];
            if IsFacetSub(sf) {
              backend.engine := backend.engine.(facets := RegisterPair(backend.engine.facets, fd, sf));
            }
            j := j + 1;
          }
          assert fd.subFields[..j] == fd.subFields;
        }
        i := i + 1;
      }
      assert descriptors[..i] == descriptors;
      r := Ok(DocumentDescriptor(descriptors));
    }
  }

  // ------------------------------------------------------------ worked examples

  /**
   * A string id field with two aliases, a keyword, text and a facet: six
   * sub-fields (stored, two aliases, keyword, text, facet), in that order.
   */
  method StringFieldExample() returns (r: Outcome<FieldDescriptor>)
    ensures r.Ok? && |r.value.subFields| == 6 && r.value.id && r.value.facetable
    ensures r.value.subFields[0].name == "foo" && r.value.subFields[1].name == "_alias1"
    ensures r.value.subFields[3].name == "foo.keyword" && r.value.subFields[4].name == "foo.text"
    ensures r.value.subFields[5].name == "foo.value" && IsFacetSub(r.value.subFields[5])
  {
    var b := new FieldDescriptorBuilder();
    b.Name("foo");
    b.Id();
    var t := b.StringField();
    assert |t.factories| == 1;
    var aliases := ["_alias1", "_alias2"];
    t.Alias(aliases);
    assert t.factories[1] == AliasTo(aliases[0]);
    t.Keyword();
    t.Text();
    t.Facet();
    r := t.Build();
  }

  /** An excluded string field keeps one sub-field, an unstored alias to its own name; `text()` adds nothing. */
  method ExcludedFieldExample() returns (r: Outcome<FieldDescriptor>)
    ensures r.Ok? && |r.value.subFields| == 1
    ensures r.value.subFields[0] == SubField("foo", Alias, AsIs)
    ensures FieldType(r.value.subFields[0].kind) == TextField
  {
    var b := new FieldDescriptorBuilder();
    b.Name("foo");
    b.Exclude();
    var t := b.StringField();
    t.Text();
    r := t.Build();
  }

  /** An int field named after its options: stored, numeric facet and point, and not facetable. */
  method IntFieldExample() returns (r: Outcome<FieldDescriptor>)
    ensures r.Ok? && |r.value.subFields| == 3 && !r.value.facetable
    ensures r.value.subFields[1].name == "foo.value" && r.value.subFields[2].name == "foo.point"
    ensures r.value.reader == SingleReader("foo", IntValue)
  {
    var b := new FieldDescriptorBuilder();
    b.Id();
    var t := b.IntField();
    t.Facet();
    t.Point();
    t.Name("foo");
    r := t.Build();
  }

  /** A date field: stored text, stored `.millis`, point and facet; it reads `.millis`. */
  method DateFieldExample() returns (r: Outcome<FieldDescriptor>)
    ensures r.Ok? && |r.value.subFields| == 4
    ensures r.value.subFields[0].name == "foo" && r.value.subFields[1].name == "foo.millis"
    ensures r.value.subFields[2].name == "foo.point" && r.value.subFields[3].name == "foo.value"
    ensures r.value.reader == SingleReader("foo.millis", DateValue)
  {
    var b := new FieldDescriptorBuilder();
    var t := b.ZonedDateTime();
    t.Point();
    t.Facet();
    t.Name("foo");
    r := t.Build();
  }

  /** Building without a name fails. */
  method UnnamedFieldExample() returns (r: Outcome<FieldDescriptor>)
    ensures r.Thrown? && r.exn.kind == NullPointer
  {
    var b := new FieldDescriptorBuilder();
    var t := b.LongField();
    r := t.Build();
  }
}
