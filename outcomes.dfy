// Exceptions, outcomes and effectful steps shared by every module.
// A Java method either returns a value or throws; an operation that also
// changes state is a step from one heap to the next, returning an outcome.

module Outcomes {

  datatype Option<T> = None | Some(value: T)

  /** The exception classes the library raises, wraps or lets through. */
  datatype ExnKind =
    | LeaseEx                 // Lease.LeaseException
    | RuntimeEx               // RuntimeException
    | IllegalArgument         // IllegalArgumentException
    | IllegalState            // IllegalStateException
    | Unsupported             // UnsupportedOperationException
    | QueryEx                 // QueryException
    | NullPointer             // NullPointerException
    | IOEx                    // IOException
    | IndexOutOfBounds        // ArrayIndexOutOfBoundsException
    | ClassCast               // ClassCastException
    | ParseEx                 // the query parser's ParseException
    | NumberFormat            // NumberFormatException

  /** A thrown exception: its class, its message and the cause it was built with. */
  datatype Exn = Exn(kind: ExnKind, message: string, cause: Option<Exn>)

  /** What a Java call produced: a value, or an exception. */
  datatype Outcome<R> = Ok(value: R) | Thrown(exn: Exn)

  /** One effectful call: its outcome and the heap it left behind. */
  datatype Ran<R, H> = Ran(outcome: Outcome<R>, heap: H)

  /** `new LeaseException(message, cause)`: a runtime exception that keeps both. */
  function LeaseError(message: string, cause: Exn): Exn
  {
    Exn(LeaseEx, message, Some(cause))
  }

  /** An exception built from a message alone. */
  function Error(kind: ExnKind, message: string): Exn
  {
    Exn(kind, message, None)
  }

  /** The exception an engine call throws when it fails. */
  function IOError(call: string): Exn
  {
    Exn(IOEx, call, None)
  }
}

// Java's two's-complement integer widths and decimal rendering.
module Numbers {
  import opened Outcomes

  const INT_MIN: int := -0x8000_0000
  const INT_MAX: int := 0x7FFF_FFFF
  const LONG_MIN: int := -0x8000_0000_0000_0000
  const LONG_MAX: int := 0x7FFF_FFFF_FFFF_FFFF

  predicate IsInt(x: int) { INT_MIN <= x <= INT_MAX }
  predicate IsLong(x: int) { LONG_MIN <= x <= LONG_MAX }

  /** Narrowing to 32 bits, as `intValue()` on a long does. */
  function WrapInt(x: int): (r: int)
    ensures IsInt(r)
    ensures (r - x) % 0x1_0000_0000 == 0
    ensures IsInt(x) ==> r == x
  {
    var m := (x - INT_MIN) % 0x1_0000_0000;
    m + INT_MIN
  }

  /** 64-bit two's-complement arithmetic, as a Java `long` expression evaluates. */
  function WrapLong(x: int): (r: int)
    ensures IsLong(r)
    ensures (r - x) % 0x1_0000_0000_0000_0000 == 0
    ensures IsLong(x) ==> r == x
  {
    var m := (x - LONG_MIN) % 0x1_0000_0000_0000_0000;
    m + LONG_MIN
  }

  function DigitChar(d: nat): char
    requires d < 10
  {
    "0123456789"[d]
  }

  predicate IsDigit(c: char) { '0' <= c <= '9' }

  function DigitValue(c: char): nat
    requires IsDigit(c)
  {
    (c as int - '0' as int) as nat
  }

  /** Decimal digits of a natural number, most significant first, no leading zero. */
  function NatToString(n: nat): (s: string)
    ensures |s| >= 1
    ensures forall i :: 0 <= i < |s| ==> IsDigit(s[i])
    decreases n
  {
    if n < 10 then [DigitChar(n)] else NatToString(n / 10) + [DigitChar(n % 10)]
  }

  /** `"" + i` and `Integer.toString(i)`: an optional minus sign and the digits. */
  function IntToString(i: int): string
  {
    if i < 0 then "-" + NatToString(-i) else NatToString(i)
  }

  /** The value of a non-empty string of decimal digits. */
  function DigitsValue(s: string): nat
    requires forall i :: 0 <= i < |s| ==> IsDigit(s[i])
    decreases |s|
  {
    if s == [] then 0 else DigitsValue(s[..|s| - 1]) * 10 + DigitValue(s[|s| - 1])
  }

  predicate AllDigits(s: string) { |s| >= 1 && forall i :: 0 <= i < |s| ==> IsDigit(s[i]) }

  /** `Integer.parseInt(s)`: an optional sign, at least one digit, and a value in the int range. */
  function ParseInt(s: string): (r: Outcome<int>)
    ensures r.Ok? ==> IsInt(r.value)
  {
    var neg := |s| >= 1 && s[0] == '-';
    var digits := if |s| >= 1 && (s[0] == '-' || s[0] == '+') then s[1..] else s;
    if !AllDigits(digits) then Thrown(Error(NumberFormat, "For input string: \"" + s + "\""))
    else
      var v := if neg then -(DigitsValue(digits) as int) else DigitsValue(digits) as int;
      if IsInt(v) then Ok(v) else Thrown(Error(NumberFormat, "For input string: \"" + s + "\""))
  }

  lemma {:induction false} DigitsOfNat(n: nat)
    ensures DigitsValue(NatToString(n)) == n
    decreases n
  {
    var s := NatToString(n);
    if n < 10 {
      assert s == [DigitChar(n)];
      assert s[..0] == [];
    } else {
      DigitsOfNat(n / 10);
      assert s[..|s| - 1] == NatToString(n / 10);
    }
  }

  /** Parsing the decimal form of an int gives the int back. */
  lemma ParseIntToString(i: int)
    requires IsInt(i)
    ensures ParseInt(IntToString(i)) == Ok(i)
  {
    var d := NatToString(if i < 0 then -i else i);
    DigitsOfNat(if i < 0 then -i else i);
    assert AllDigits(d);
    if i < 0 {
      var t := "-" + d;
      assert t[0] == '-' && t[1..] == d;
    } else {
      assert IsDigit(d[0]);
    }
  }
}
