// The document schema: sub-field descriptors (how one logical value becomes
// physical fields), field descriptors, the field readers, and the expansion
// of a logical value into physical fields.

module Schema {
  import opened Outcomes
  import opened Numbers
  import opened Index

  /** A domain scalar. A date is its instant in epoch milliseconds. */
  datatype Scalar = Str(s: string) | IntV(i: int) | LongV(l: int) | Date(millis: int)

  /** A map entry's value: Java null, one value, or a Collection of values. */
  datatype Value = Null | One(x: Scalar) | Many(xs: seq<Scalar>)

  predicate ValidScalar(x: Scalar)
  {
    match x
    case Str(_) => true
    case IntV(i) => IsInt(i)
    case LongV(l) => IsLong(l)
    case Date(m) => IsLong(m)
  }

  /**
   * The text standing in for a date's ISO-8601 rendering. The formatter is not
   * modelled; the stand-in is the decimal epoch milliseconds.
   */
  function DateText(millis: int): string
  {
    IntToString(millis)
  }

  // ------------------------------------------------------- sub-field descriptors

  /** The factories of SubFieldDescriptors. */
  datatype SubFieldKind =
    | StoredString | StoredInt | StoredLong | Analyzed | Keyword | StringFacet | Alias
    | NumericFacet | IntegerPoint | LongPointOf

  /** What a date sub-field applies to the date before the factory's function (`compose`). */
  datatype Conversion = AsIs | IsoText | ToMillis

  /** A sub-field descriptor: the physical name, the factory, and an optional date conversion. */
  datatype SubField = SubField(name: string, kind: SubFieldKind, conversion: Conversion)

  /** `fieldType()`: the class of the physical field the factory creates. */
  function FieldType(k: SubFieldKind): FieldKind
  {
    match k
    case StoredString => StoredField
    case StoredInt => StoredField
    case StoredLong => StoredField
    case Analyzed => TextField
    case Alias => TextField
    case Keyword => StringField
    case StringFacet => FacetField
    case NumericFacet => NumericDocValuesField
    case IntegerPoint => IntPoint
    case LongPointOf => LongPoint
  }

  function StoredStringSub(field: string): SubField { SubField(field, StoredString, AsIs) }
  function StoredIntSub(field: string): SubField { SubField(field, StoredInt, AsIs) }
  function StoredLongSub(field: string): SubField { SubField(field, StoredLong, AsIs) }
  function TextSub(field: string): SubField { SubField(field + ".text", Analyzed, AsIs) }
  function KeywordSub(field: string): SubField { SubField(field + ".keyword", Keyword, AsIs) }
  function StringFacetSub(field: string): SubField { SubField(field + ".value", StringFacet, AsIs) }
  function AliasSub(ignored: string, alias: string): SubField { SubField(alias, Alias, AsIs) }
  function NumericFacetSub(field: string): SubField { SubField(field + ".value", NumericFacet, AsIs) }
  function IntegerPointSub(field: string): SubField { SubField(field + ".point", IntegerPoint, AsIs) }
  function LongPointSub(field: string): SubField { SubField(field + ".point", LongPointOf, AsIs) }

  /** `descriptor.compose(conversion)`: same name and field class, the conversion applied first. */
  function Compose(sf: SubField, c: Conversion): SubField { sf.(conversion := c) }

  function CastError(): Exn { Error(ClassCast, "value cannot be cast to the sub-field's type") }

  /** The value after the date conversion; a conversion on a non-date is a failed cast. */
  function Converted(c: Conversion, x: Scalar): Outcome<Scalar>
  {
    match c
    case AsIs => Ok(x)
    case IsoText => if x.Date? then Ok(Str(DateText(x.millis))) else Thrown(CastError())
    case ToMillis => if x.Date? then Ok(LongV(x.millis)) else Thrown(CastError())
  }

  /** What the factory's function stores, or the ClassCastException its cast raises. */
  function Payload(k: SubFieldKind, x: Scalar): Outcome<FieldValue>
  {
    match k
    case StoredString => if x.Str? then Ok(Index.Text(x.s)) else Thrown(CastError())
    case Analyzed => if x.Str? then Ok(Index.Text(x.s)) else Thrown(CastError())
    case Keyword => if x.Str? then Ok(Index.Text(x.s)) else Thrown(CastError())
    case StringFacet => if x.Str? then Ok(Index.Text(x.s)) else Thrown(CastError())
    case Alias => if x.Str? then Ok(Index.Text(x.s)) else Thrown(CastError())
    case StoredInt => if x.IntV? then Ok(Number(x.i)) else Thrown(CastError())
    case IntegerPoint => if x.IntV? then Ok(Number(x.i)) else Thrown(CastError())
    case StoredLong => if x.LongV? then Ok(Number(x.l)) else Thrown(CastError())
    case LongPointOf => if x.LongV? then Ok(Number(x.l)) else Thrown(CastError())
    case NumericFacet =>
      if x.IntV? then Ok(Number(x.i)) else if x.LongV? then Ok(Number(x.l)) else Thrown(CastError())
  }

  /** `subField.field(value)`: the physical field, named by the descriptor; only stored sub-fields store. */
  function FieldOf(sf: SubField, x: Scalar): (r: Outcome<Field>)
    ensures r.Ok? ==> r.value.name == sf.name && r.value.kind == FieldType(sf.kind)
    ensures r.Ok? ==> (r.value.stored <==> FieldType(sf.kind) == StoredField)
  {
    var c := Converted(sf.conversion, x);
    if c.Thrown? then Thrown(c.exn)
    else
      var p := Payload(sf.kind, c.value);
      if p.Thrown? then Thrown(p.exn)
      else Ok(Field(sf.name, FieldType(sf.kind), FieldType(sf.kind) == StoredField, p.value))
  }

  /**
   * The naming and field classes of every factory: stored sub-fields take the
   * plain name, the others the `.text`, `.keyword`, `.value` and `.point`
   * suffixes; an alias takes exactly the alias and ignores the field name;
   * only the stored factories store; numeric facets keep the long value.
   */
  lemma SubFieldFactories(field: string, other: string, alias: string, s: string)
    ensures FieldOf(StoredStringSub(field), Str(s)) == Ok(Field(field, StoredField, true, Index.Text(s)))
    ensures FieldOf(TextSub(field), Str(s)) == Ok(Field(field + ".text", TextField, false, Index.Text(s)))
    ensures FieldOf(KeywordSub(field), Str(s)) == Ok(Field(field + ".keyword", StringField, false, Index.Text(s)))
    ensures FieldOf(StringFacetSub(field), Str(s)) == Ok(Field(field + ".value", FacetField, false, Index.Text(s)))
    ensures FieldOf(AliasSub(other, alias), Str(s)) == Ok(Field(alias, TextField, false, Index.Text(s)))
  {
  }

  /** The numeric sub-field factories, as above; a stored int sub-field refuses a long. */
  lemma NumericSubFieldFactories(field: string, i: int, l: int)
    ensures FieldOf(StoredIntSub(field), IntV(i)) == Ok(Field(field, StoredField, true, Number(i)))
    ensures FieldOf(StoredLongSub(field), LongV(l)) == Ok(Field(field, StoredField, true, Number(l)))
    ensures FieldOf(NumericFacetSub(field), IntV(i)) == Ok(Field(field + ".value", NumericDocValuesField, false, Number(i)))
    ensures FieldOf(NumericFacetSub(field), LongV(l)) == Ok(Field(field + ".value", NumericDocValuesField, false, Number(l)))
    ensures FieldOf(IntegerPointSub(field), IntV(i)) == Ok(Field(field + ".point", IntPoint, false, Number(i)))
    ensures FieldOf(LongPointSub(field), LongV(l)) == Ok(Field(field + ".point", LongPoint, false, Number(l)))
    ensures FieldOf(StoredIntSub(field), LongV(l)).Thrown? && FieldOf(StoredIntSub(field), LongV(l)).exn.kind == ClassCast
  {
  }

  // ---------------------------------------------------------- field descriptors

  /** The parser a typed builder supplies. */
  datatype Parser = StringValue | IntValue | LongValue | DateValue

  /** SingleValueFieldReader / MultiValueFieldReader, with the name they read. */
  datatype Reader = SingleReader(name: string, parser: Parser) | MultiReader(name: string, parser: Parser)

  datatype FieldDescriptor = FieldDescriptor(
    name: string,
    id: bool,
    facetable: bool,
    multiValue: bool,
    reader: Reader,
    subFields: seq<SubField>)

  /**
   * `parser.parse(field)`: `stringValue()` renders numbers as text;
   * `numericValue()` of a text field is null, so the numeric parsers throw a
   * NullPointerException; `intValue()` narrows to 32 bits.
   */
  function Parse(p: Parser, f: Field): Outcome<Scalar>
  {
    match p
    case StringValue => (match f.value
      case Text(s) => Ok(Str(s))
      case Number(n) => Ok(Str(IntToString(n))))
    case IntValue => if f.value.Number? then Ok(IntV(WrapInt(f.value.n))) else Thrown(Error(NullPointer, ""))
    case LongValue => if f.value.Number? then Ok(LongV(WrapLong(f.value.n))) else Thrown(Error(NullPointer, ""))
    case DateValue => if f.value.Number? then Ok(Date(WrapLong(f.value.n))) else Thrown(Error(NullPointer, ""))
  }

  /** SingleValueFieldReader.read: the parse of the first field with the name, or null without one. */
  function SingleRead(name: string, p: Parser, d: Document): (r: Outcome<Value>)
    ensures GetFields(d, name) == [] ==> r == Ok(Null)
    ensures GetFields(d, name) != [] ==>
      var x := Parse(p, GetFields(d, name)[0]);
      (x.Ok? ==> r == Ok(One(x.value))) && (x.Thrown? ==> r == Thrown(x.exn))
  {
    var fs := GetFields(d, name);
    if fs == [] then Ok(Null)
    else
      var x := Parse(p, fs[0]);
      if x.Thrown? then Thrown(x.exn) else Ok(One(x.value))
  }

  /** The array-based MultiValueFieldReader.read: the parse of every field, in order. */
  function ParseAll(p: Parser, fields: seq<Field>): (r: Outcome<seq<Scalar>>)
    ensures r.Ok? <==> forall i :: 0 <= i < |fields| ==> Parse(p, fields[i]).Ok?
    ensures r.Ok? ==> |r.value| == |fields|
    ensures r.Ok? ==> forall i :: 0 <= i < |fields| ==> r.value[i] == Parse(p, fields[i]).value
  {
    if fields == [] then Ok([])
    else
      var x := Parse(p, fields[0]);
      var rest := ParseAll(p, fields[1..]);
      if x.Thrown? then Thrown(x.exn)
      else if rest.Thrown? then Thrown(rest.exn)
      else Ok([x.value] + rest.value)
  }

  /** MultiValueFieldReader.read: the parse of every field with the name, never null. */
  function MultiRead(name: string, p: Parser, d: Document): (r: Outcome<Value>)
    ensures r.Ok? ==> r.value.Many?
  {
    var xs := ParseAll(p, GetFields(d, name));
    if xs.Thrown? then Thrown(xs.exn) else Ok(Many(xs.value))
  }

  /** The named reader is the array reader applied to the fields that carry the name. */
  lemma MultiReadIsArrayRead(name: string, p: Parser, d: Document)
    ensures MultiRead(name, p, d).Ok? <==> ParseAll(p, GetFields(d, name)).Ok?
    ensures MultiRead(name, p, d).Ok? ==> MultiRead(name, p, d).value.xs == ParseAll(p, GetFields(d, name)).value
  {
  }

  /** `descriptor.read(document)`. */
  function Read(fd: FieldDescriptor, d: Document): Outcome<Value>
  {
    match fd.reader
    case SingleReader(name, p) => SingleRead(name, p, d)
    case MultiReader(name, p) => MultiRead(name, p, d)
  }

  /**
   * A reader whose fields are all stored reads from what a searcher hands back
   * (the stored fields) what it reads from the document as written.
   */
  lemma ReadStored(fd: FieldDescriptor, d: Document)
    requires forall j :: 0 <= j < |d| && d[j].name == fd.reader.name ==> d[j].stored
    ensures Read(fd, StoredFields(d)) == Read(fd, d)
  {
    StoredFieldsKeep(d, fd.reader.name);
    ReadsFieldsOnly(fd, StoredFields(d), d);
  }

  /** A reader sees only the fields that carry its name. */
  lemma ReadsFieldsOnly(fd: FieldDescriptor, d: Document, e: Document)
    requires GetFields(d, fd.reader.name) == GetFields(e, fd.reader.name)
    ensures Read(fd, d) == Read(fd, e)
  {
    match fd.reader
    case SingleReader(name, p) =>
      assert SingleRead(name, p, d) == SingleRead(name, p, e);
    case MultiReader(name, p) =>
      assert MultiRead(name, p, d) == MultiRead(name, p, e);
  }

  // ------------------------------------------------------------ field expansion

  /** One value through every sub-field, in sub-field order; the first failing cast throws. */
  function FieldsOfScalar(subs: seq<SubField>, x: Scalar): (r: Outcome<seq<Field>>)
    ensures r.Ok? <==> forall j :: 0 <= j < |subs| ==> FieldOf(subs[j], x).Ok?
    ensures r.Ok? ==> |r.value| == |subs|
    ensures r.Ok? ==> forall j :: 0 <= j < |subs| ==> r.value[j] == FieldOf(subs[j], x).value
  {
    if subs == [] then Ok([])
    else
      var f := FieldOf(subs[0], x);
      var rest := FieldsOfScalar(subs[1..], x);
      if f.Thrown? then Thrown(f.exn)
      else if rest.Thrown? then Thrown(rest.exn)
      else Ok([f.value] + rest.value)
  }

  /** Every element in turn, each through every sub-field. */
  function FieldsOfAll(subs: seq<SubField>, xs: seq<Scalar>): (r: Outcome<seq<Field>>)
    ensures r.Ok? <==> forall i :: 0 <= i < |xs| ==> FieldsOfScalar(subs, xs[i]).Ok?
    ensures r.Ok? ==> |r.value| == Block(|xs|, |subs|)
  {
    if xs == [] then Ok([])
    else
      var f := FieldsOfScalar(subs, xs[0]);
      var rest := FieldsOfAll(subs, xs[1..]);
      assert forall i :: 1 <= i < |xs| ==> xs[1..][i - 1] == xs[i];
      if f.Thrown? then Thrown(f.exn)
      else if rest.Thrown? then Thrown(rest.exn)
      else Ok(f.value + rest.value)
  }

  /** `descriptor.fields(value)`: nothing for null, each element of a collection, else the value itself. */
  function Fields(fd: FieldDescriptor, v: Value): Outcome<seq<Field>>
  {
    match v
    case Null => Ok([])
    case One(x) => FieldsOfScalar(fd.subFields, x)
    case Many(xs) => FieldsOfAll(fd.subFields, xs)
  }

  /**
   * Element-major order: field `j` of element `i` of a collection sits at
   * position `i * |subFields| + j`, and is that sub-field applied to that element.
   */
  lemma FieldsOfAllAt(subs: seq<SubField>, xs: seq<Scalar>, i: nat, j: nat)
    requires FieldsOfAll(subs, xs).Ok? && i < |xs| && j < |subs|
    ensures i * |subs| + j < |FieldsOfAll(subs, xs).value|
    ensures FieldsOfAll(subs, xs).value[i * |subs| + j] == FieldOf(subs[j], xs[i]).value
  {
    var all := FieldsOfAll(subs, xs).value;
    var k := Block(i, |subs|) + j;
    FieldsAtBlock(subs, xs, i, j);
    BlockIsProduct(i, |subs|);
    assert k == i * |subs| + j;
    assert k < |all| && all[k] == FieldsOfScalar(subs, xs[i]).value[j];
  }

  /** The start of block `i` of blocks of `n`, counted by addition. */
  function Block(i: nat, n: nat): nat
  {
    if i == 0 then 0 else n + Block(i - 1, n)
  }

  lemma {:induction false} BlockIsProduct(i: nat, n: nat)
    ensures Block(i, n) == i * n
  {
    if i > 0 {
      BlockIsProduct(i - 1, n);
      MulStep(i, n);
    }
  }

  lemma {:induction false} FieldsAtBlock(subs: seq<SubField>, xs: seq<Scalar>, i: nat, j: nat)
    requires FieldsOfAll(subs, xs).Ok? && i < |xs| && j < |subs|
    ensures FieldsOfScalar(subs, xs[i]).Ok?
    ensures Block(i, |subs|) + j < |FieldsOfAll(subs, xs).value|
    ensures FieldsOfAll(subs, xs).value[Block(i, |subs|) + j] == FieldsOfScalar(subs, xs[i]).value[j]
    decreases i
  {
    var n := |subs|;
    FieldsOfAllSplit(subs, xs);
    var head := FieldsOfScalar(subs, xs[0]).value;
    var rest := FieldsOfAll(subs, xs[1..]).value;
    if i > 0 {
      FieldsAtBlock(subs, xs[1..], i - 1, j);
      assert xs[1..][i - 1] == xs[i];
      assert (head + rest)[n + Block(i - 1, n) + j] == rest[Block(i - 1, n) + j];
    }
  }

  /** A successful expansion is the first element's fields followed by the rest's. */
  lemma FieldsOfAllSplit(subs: seq<SubField>, xs: seq<Scalar>)
    requires FieldsOfAll(subs, xs).Ok? && xs != []
    ensures FieldsOfScalar(subs, xs[0]).Ok? && FieldsOfAll(subs, xs[1..]).Ok?
    ensures |FieldsOfScalar(subs, xs[0]).value| == |subs|
    ensures FieldsOfAll(subs, xs).value == FieldsOfScalar(subs, xs[0]).value + FieldsOfAll(subs, xs[1..]).value
  {
  }

  lemma MulStep(i: nat, n: nat)
    requires i >= 1
    ensures i * n == n + (i - 1) * n
  {
  }

  /** null yields no fields; a scalar one field per sub-field; a collection n of each. */
  lemma FieldsCount(fd: FieldDescriptor, v: Value)
    requires Fields(fd, v).Ok?
    ensures v.Null? ==> Fields(fd, v).value == []
    ensures v.One? ==> |Fields(fd, v).value| == |fd.subFields|
    ensures v.Many? ==> |Fields(fd, v).value| == |v.xs| * |fd.subFields|
  {
    if v.Many? {
      BlockIsProduct(|v.xs|, |fd.subFields|);
    }
  }

  /** The expansion looks at whether the value is a collection, never at the multiValue flag. */
  lemma FieldsIgnoreMultiValue(fd: FieldDescriptor, v: Value, flag: bool)
    ensures Fields(fd.(multiValue := flag), v) == Fields(fd, v)
  {
  }
}
