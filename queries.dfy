// QueryFactories: the stock translations from a domain value to a query.
// Dates are their epoch milliseconds, a Java long; ranges are LongPoint
// ranges, inclusive at both ends, and match nothing when lower > upper.

module QueryFactories {
  import opened Outcomes
  import opened Numbers
  import opened Index

  /** QueryFactory<K>: translate a value, or throw. */
  type QueryFactory<!K> = K -> Outcome<Query>

  /** A date as `toInstant().toEpochMilli()` gives it. */
  type Millis = x: int | IsLong(x) witness 0

  /** `keyword(field)`: an exact term on the field. */
  function Keyword(field: string): QueryFactory<string>
  {
    (value: string) => Ok(TermQuery(field, value))
  }

  /** ASCII `toLowerCase()`. */
  function Lower(s: string): (r: string)
    ensures |r| == |s|
    ensures forall i :: 0 <= i < |s| ==> r[i] == LowerChar(s[i])
  {
    if s == [] then [] else [LowerChar(s[0])] + Lower(s[1..])
  }

  function LowerChar(c: char): char
  {
    if 'A' <= c <= 'Z' then (c as int + 32) as char else c
  }

  /** The classic query parser's failure, wrapped. */
  function ParseFailed(cause: Exn): Exn
  {
    Exn(QueryEx, "Failed to parse query", Some(cause))
  }

  /**
   * `text(field)`: the parser for the field run on the lower-cased value. The
   * parser is a parameter (its syntax is not modelled); a ParseException it
   * throws becomes a QueryException with it as the cause, anything else passes
   * through.
   */
  function Text(field: string, parse: (string, string) -> Outcome<Query>): QueryFactory<string>
  {
    (value: string) =>
      var p := parse(field, Lower(value));
      if p.Thrown? && p.exn.kind == ParseEx then Thrown(ParseFailed(p.exn)) else p
  }

  /** `lucene()`: the query as given. */
  function Lucene(): QueryFactory<Query>
  {
    (q: Query) => Ok(q)
  }

  /** `after(field)`: from the date on, up to Long.MAX_VALUE. */
  function After(field: string): QueryFactory<Millis>
  {
    (m: Millis) => Ok(PointRange(field, m, LONG_MAX))
  }

  /** `before(field)` as written: from Long.MIN_VALUE up to `millis - 1` in long arithmetic. */
  function BeforeAsWritten(field: string): QueryFactory<Millis>
  {
    (m: Millis) => Ok(PointRange(field, LONG_MIN, WrapLong(m as int - 1)))
  }

  const TwoDates: string := "Did not get 2 date for range query"

  /** `between(field)` as written: exactly two dates, from the first up to the second's `millis - 1` in long arithmetic. */
  function BetweenAsWritten(field: string): QueryFactory<seq<Millis>>
  {
    (ms: seq<Millis>) =>
      if |ms| != 2 then Thrown(Error(QueryEx, TwoDates))
      else Ok(PointRange(field, ms[0], WrapLong(ms[1] as int - 1)))
  }

  /** `before(field)` as intended: every long strictly before the date, and nothing before Long.MIN_VALUE. */
  function Before(field: string): QueryFactory<Millis>
  {
    (m: Millis) => Ok(if m == LONG_MIN then PointRange(field, LONG_MAX, LONG_MIN) else PointRange(field, LONG_MIN, m as int - 1))
  }

  /** `between(field)` as intended: from the first date on, strictly before the second. */
  function Between(field: string): QueryFactory<seq<Millis>>
  {
    (ms: seq<Millis>) =>
      if |ms| != 2 then Thrown(Error(QueryEx, TwoDates))
      else Ok(if ms[1] == LONG_MIN then PointRange(field, LONG_MAX, LONG_MIN) else PointRange(field, ms[0], ms[1] as int - 1))
  }

  // ------------------------------------------------------------- properties

  /** A point of the field holding a long. */
  predicate LongPointOf(f: Field, field: string)
  {
    f.name == field && (f.kind == IntPoint || f.kind == LongPoint) && f.value.Number? && IsLong(f.value.n)
  }

  /** keyword finds exactly the documents with that untokenised term. */
  lemma KeywordMatches(field: string, value: string, d: Document)
    ensures Keyword(field)(value).Ok?
    ensures Matches(Keyword(field)(value).value, d) <==> exists i :: 0 <= i < |d| && HasTerm(d[i], field, value)
  {
  }

  /** Lower-casing twice is lower-casing once. */
  lemma LowerIdempotent(s: string)
    ensures Lower(Lower(s)) == Lower(s)
  {
  }

  /**
   * text parses the lower-cased value: values equal up to case translate
   * alike; the parser's query comes back as it is; its ParseException comes
   * back as a QueryException caused by it; other failures pass through.
   */
  lemma TextTranslation(field: string, parse: (string, string) -> Outcome<Query>, value: string)
    ensures Text(field, parse)(value) == Text(field, parse)(Lower(value))
    ensures var p := parse(field, Lower(value));
      && (p.Ok? ==> Text(field, parse)(value) == p)
      && (p.Thrown? && p.exn.kind == ParseEx ==>
            Text(field, parse)(value) == Thrown(Exn(QueryEx, "Failed to parse query", Some(p.exn))))
      && (p.Thrown? && p.exn.kind != ParseEx ==> Text(field, parse)(value) == p)
  {
    LowerIdempotent(value);
  }

  /** lucene() is the identity. */
  lemma LuceneIdentity(q: Query)
    ensures Lucene()(q) == Ok(q)
  {
  }

  /** after(d) matches a long point exactly when it is on or after d. */
  lemma AfterMatches(field: string, m: Millis, f: Field)
    requires LongPointOf(f, field)
    ensures After(field)(m).Ok?
    ensures var q := After(field)(m).value;
      HasPointIn(f, field, q.lower, q.upper) <==> m <= f.value.n
  {
  }

  /**
   * before(d) as written at Long.MIN_VALUE: `millis - 1` wraps to
   * Long.MAX_VALUE, so the range holds every long, though none is before d.
   */
  lemma BeforeWrapsAtMin(field: string, f: Field)
    requires LongPointOf(f, field)
    ensures var q := BeforeAsWritten(field)(LONG_MIN).value;
      q == PointRange(field, LONG_MIN, LONG_MAX) && HasPointIn(f, field, q.lower, q.upper)
    ensures !(f.value.n < LONG_MIN)
  {
  }

  /** Above Long.MIN_VALUE the written before() is the intended one. */
  lemma BeforeAgreesAboveMin(field: string, m: Millis)
    requires m != LONG_MIN
    ensures BeforeAsWritten(field)(m) == Before(field)(m)
  {
    assert IsLong(m);
  }

  /** before(d) matches a long point exactly when it is strictly before d. */
  lemma BeforeMatches(field: string, m: Millis, f: Field)
    requires LongPointOf(f, field)
    ensures Before(field)(m).Ok?
    ensures var q := Before(field)(m).value;
      HasPointIn(f, field, q.lower, q.upper) <==> f.value.n < m
  {
  }

  /** Anything but two dates is refused, before any range is built. */
  lemma BetweenNeedsTwo(field: string, ms: seq<Millis>)
    requires |ms| != 2
    ensures BetweenAsWritten(field)(ms) == Thrown(Exn(QueryEx, "Did not get 2 date for range query", None))
    ensures Between(field)(ms) == BetweenAsWritten(field)(ms)
  {
  }

  /**
   * between([a, b]) as written with b at Long.MIN_VALUE: the upper bound
   * wraps, so every long from a on matches, though none is before b.
   */
  lemma BetweenWrapsAtMin(field: string, a: Millis, f: Field)
    requires LongPointOf(f, field) && a <= f.value.n
    ensures var q := BetweenAsWritten(field)([a, LONG_MIN]).value;
      q == PointRange(field, a, LONG_MAX) && HasPointIn(f, field, q.lower, q.upper)
    ensures !(f.value.n < LONG_MIN)
  {
  }

  /** Unless the second date is Long.MIN_VALUE the written between() is the intended one. */
  lemma BetweenAgreesAboveMin(field: string, a: Millis, b: Millis)
    requires b != LONG_MIN
    ensures BetweenAsWritten(field)([a, b]) == Between(field)([a, b])
  {
    assert IsLong(b);
  }

  /** between([a, b]) matches a long point exactly when a <= it < b. */
  lemma BetweenMatches(field: string, a: Millis, b: Millis, f: Field)
    requires LongPointOf(f, field)
    ensures Between(field)([a, b]).Ok?
    ensures var q := Between(field)([a, b]).value;
      HasPointIn(f, field, q.lower, q.upper) <==> a <= f.value.n < b
  {
  }
}
