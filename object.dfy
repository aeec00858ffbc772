/** Runtime values: a closed union of five kinds, each with a type tag and
    a text rendering. */
module Object {
  import opened GoTypes

  const IntegerObj: string := "INTEGER"
  const BooleanObj: string := "BOOLEAN"
  const NullObj: string := "NULL"
  const ProduceValueObj: string := "PRODUCE_VALUE_OBJ"
  const ErrorObj: string := "ERROR"

  /** A runtime value. A `ProduceValue` here always wraps a value; the Go
      field may also hold nil, on which `Inspect` would fail. */
  datatype Object =
    | Integer(intValue: Int64)
    | Boolean(boolValue: bool)
    | Null
    | ProduceValue(inner: Object)
    | Error(message: string)
  {
    /** The type tag: one of the five constants. */
    function Type(): (r: string)
      ensures r in [IntegerObj, BooleanObj, NullObj, ProduceValueObj, ErrorObj]
    {
      match this
      case Integer(_) => IntegerObj
      case Boolean(_) => BooleanObj
      case Null => NullObj
      case ProduceValue(_) => ProduceValueObj
      case Error(_) => ErrorObj
    }

    /** The text rendering, never empty. */
    function Inspect(): (r: string)
      ensures |r| > 0
    {
      match this
      case Integer(v) => Decimal(v)
      case Boolean(b) => if b then "true" else "false"
      case Null => "null"
      case ProduceValue(o) => o.Inspect()
      case Error(m) => "ERROR: " + m
    }
  }

  // ---------------------------------------------------------------------
  // Base-10 rendering, as the `%d` verb writes an int64.

  function DigitChar(d: nat): (c: char)
    requires d < 10
    ensures '0' <= c <= '9' && c as int - '0' as int == d
  {
    (d + '0' as int) as char
  }

  /** The digits of `n`, most significant first, with no leading zero. */
  function NatDecimal(n: nat): (s: string)
    ensures |s| > 0
    ensures forall i | 0 <= i < |s| :: '0' <= s[i] <= '9'
    ensures s[0] == '0' ==> n == 0 && s == "0"
    decreases n
  {
    if n < 10 then [DigitChar(n)] else NatDecimal(n / 10) + [DigitChar(n % 10)]
  }

  function Decimal(v: int): (s: string)
    ensures |s| > 0
    ensures s[0] == '-' <==> v < 0
  {
    if v < 0 then "-" + NatDecimal(-v) else NatDecimal(v)
  }

  /** The value a string of decimal digits denotes. */
  function DigitsValue(s: string): nat
    requires forall i | 0 <= i < |s| :: '0' <= s[i] <= '9'
    decreases |s|
  {
    if s == [] then 0
    else 10 * DigitsValue(s[..|s| - 1]) + (s[|s| - 1] as int - '0' as int)
  }

  /** The value an optionally signed decimal string denotes. */
  function ParseDecimal(s: string): int
    requires |s| > 0
    requires s[0] == '-' ==> |s| > 1
    requires forall i | (if s[0] == '-' then 1 else 0) <= i < |s| :: '0' <= s[i] <= '9'
  {
    if s[0] == '-' then -(DigitsValue(s[1..]) as int) else DigitsValue(s)
  }

  lemma {:induction false} NatDecimalValue(n: nat)
    ensures DigitsValue(NatDecimal(n)) == n
    decreases n
  {
    var s := NatDecimal(n);
    if n >= 10 {
      NatDecimalValue(n / 10);
      assert s[..|s| - 1] == NatDecimal(n / 10);
    }
  }

  /** The digits of a natural number, as `ParseDecimal` reads them. */
  lemma NatDecimalDigits(n: nat)
    ensures var s := NatDecimal(n);
      && s[0] != '-'
      && (forall i | 0 <= i < |s| :: '0' <= s[i] <= '9')
      && (s[0] == '0' ==> s == "0")
      && ParseDecimal(s) == n
  {
    NatDecimalValue(n);
  }

  /** A negative number is `-` and the digits of its magnitude. */
  lemma NegativeDecimalDigits(v: int)
    requires v < 0
    ensures var s := Decimal(v);
      && s[0] == '-' && |s| > 1 && s[1] != '0'
      && (forall i | 1 <= i < |s| :: '0' <= s[i] <= '9')
      && ParseDecimal(s) == v
  {
    var n: nat := -v;
    var d := NatDecimal(n);
    NatDecimalValue(n);
    assert Decimal(v) == "-" + d;
    assert Decimal(v)[1..] == d;
  }

  /** The rendering of an integer reads back as that integer: a leading `-`
      exactly for negatives, then the digits, with no leading zeros. */
  lemma DecimalRoundTrip(v: Int64)
    ensures var s := Decimal(v);
      && (s[0] == '-' <==> v < 0)
      && (s[0] == '-' ==> |s| > 1 && s[1] != '0')
      && (forall i | (if s[0] == '-' then 1 else 0) <= i < |s| :: '0' <= s[i] <= '9')
      && (s[0] == '0' ==> s == "0")
      && ParseDecimal(s) == v
  {
    if v < 0 {
      NegativeDecimalDigits(v);
    } else {
      NatDecimalDigits(v);
    }
  }

  /** One more digit on the right. */
  lemma NatDecimalDigit(n: nat, prefix: string)
    requires n >= 10 && NatDecimal(n / 10) == prefix
    ensures NatDecimal(n) == prefix + [DigitChar(n % 10)]
  {
  }

  lemma MinInt64Digits0()
    ensures NatDecimal(92233) == "92233"
  {
    assert NatDecimal(9) == "9";
    NatDecimalDigit(92, "9");
    assert "9" + [DigitChar(2)] == "92";
    NatDecimalDigit(922, "92");
    assert "92" + [DigitChar(2)] == "922";
    NatDecimalDigit(9223, "922");
    assert "922" + [DigitChar(3)] == "9223";
    NatDecimalDigit(92233, "9223");
    assert "9223" + [DigitChar(3)] == "92233";
  }

  lemma MinInt64Digits1()
    requires NatDecimal(92233) == "92233"
    ensures NatDecimal(9223372036) == "9223372036"
  {
    NatDecimalDigit(922337, "92233");
    assert "92233" + [DigitChar(7)] == "922337";
    NatDecimalDigit(9223372, "922337");
    assert "922337" + [DigitChar(2)] == "9223372";
    NatDecimalDigit(92233720, "9223372");
    assert "9223372" + [DigitChar(0)] == "92233720";
    NatDecimalDigit(922337203, "92233720");
    assert "92233720" + [DigitChar(3)] == "922337203";
    NatDecimalDigit(9223372036, "922337203");
    assert "922337203" + [DigitChar(6)] == "9223372036";
  }

  lemma MinInt64Digits2()
    requires NatDecimal(9223372036) == "9223372036"
    ensures NatDecimal(922337203685477) == "922337203685477"
  {
    NatDecimalDigit(92233720368, "9223372036");
    assert "9223372036" + [DigitChar(8)] == "92233720368";
    NatDecimalDigit(922337203685, "92233720368");
    assert "92233720368" + [DigitChar(5)] == "922337203685";
    NatDecimalDigit(9223372036854, "922337203685");
    assert "922337203685" + [DigitChar(4)] == "9223372036854";
    NatDecimalDigit(92233720368547, "9223372036854");
    assert "9223372036854" + [DigitChar(7)] == "92233720368547";
    NatDecimalDigit(922337203685477, "92233720368547");
    assert "92233720368547" + [DigitChar(7)] == "922337203685477";
  }

  lemma MinInt64Digits3()
    requires NatDecimal(922337203685477) == "922337203685477"
    ensures NatDecimal(92233720368547758) == "92233720368547758"
  {
    NatDecimalDigit(9223372036854775, "922337203685477");
    assert "922337203685477" + [DigitChar(5)] == "9223372036854775";
    NatDecimalDigit(92233720368547758, "9223372036854775");
    assert "9223372036854775" + [DigitChar(8)] == "92233720368547758";
  }

  lemma MinInt64Digits4()
    requires NatDecimal(92233720368547758) == "92233720368547758"
    ensures NatDecimal(922337203685477580) == "922337203685477580"
  {
    NatDecimalDigit(922337203685477580, "92233720368547758");
    assert "92233720368547758" + [DigitChar(0)] == "922337203685477580";
  }

  lemma MinInt64Digits5()
    requires NatDecimal(922337203685477580) == "922337203685477580"
    ensures NatDecimal(9223372036854775808) == "9223372036854775808"
  {
    NatDecimalDigit(9223372036854775808, "922337203685477580");
    assert "922337203685477580" + [DigitChar(8)] == "9223372036854775808";
  }

  /** The digits of the magnitude of the smallest int64. */
  lemma MinInt64Magnitude(n: nat)
    requires n == 9223372036854775808
    ensures NatDecimal(n) == "9223372036854775808"
  {
    MinInt64Digits0();
    MinInt64Digits1();
    MinInt64Digits2();
    MinInt64Digits3();
    MinInt64Digits4();
    MinInt64Digits5();
  }

  /** A negative integer is written as `-` and the digits of its magnitude. */
  lemma DecimalNegative(v: int, n: nat, digits: string)
    requires v < 0 && n == -v && NatDecimal(n) == digits
    ensures Decimal(v) == "-" + digits
  {
  }

  lemma MinInt64Signed(v: int)
    requires Decimal(v) == "-" + "9223372036854775808"
    ensures Decimal(v) == "-9223372036854775808"
  {
    assert "-" + "9223372036854775808" == "-9223372036854775808";
  }

  /** The smallest int64 is written out in full: unlike `-`, the rendering
      does not wrap. */
  lemma DecimalMinInt64(v: Int64)
    requires v == MinInt64
    ensures Decimal(v) == "-9223372036854775808"
    ensures Integer(v).Inspect() == "-9223372036854775808"
  {
    var n: nat := -(v as int);
    MinInt64Magnitude(n);
    DecimalNegative(v, n, "9223372036854775808");
    MinInt64Signed(v);
  }

  // ---------------------------------------------------------------------
  // Properties of the union

  predicate SameKind(a: Object, b: Object) {
    || (a.Integer? && b.Integer?)
    || (a.Boolean? && b.Boolean?)
    || (a.Null? && b.Null?)
    || (a.ProduceValue? && b.ProduceValue?)
    || (a.Error? && b.Error?)
  }

  /** The five tags are pairwise distinct: the tag tells the kind. */
  lemma TypeTellsKind(a: Object, b: Object)
    ensures a.Type() == b.Type() <==> SameKind(a, b)
  {
  }

  /** The renderings of the value kinds that are not integers. */
  lemma InspectConstants(b: bool, m: string)
    ensures Boolean(b).Inspect() == (if b then "true" else "false")
    ensures Null.Inspect() == "null"
    ensures Error(m).Inspect() == "ERROR: " + m
    ensures Error(m).Inspect()[7..] == m
  {
  }

  /** A produced value renders as the value it wraps, however deep, yet is
      tagged as a produced value. */
  lemma {:induction false} ProduceValueTransparent(o: Object)
    ensures ProduceValue(o).Inspect() == Unwrap(o).Inspect()
    ensures ProduceValue(o).Type() == ProduceValueObj
  {
    if o.ProduceValue? {
      ProduceValueTransparent(o.inner);
    }
  }

  /** The value under any number of `ProduceValue` wrappers. */
  function Unwrap(o: Object): (r: Object)
    ensures !r.ProduceValue?
  {
    if o.ProduceValue? then Unwrap(o.inner) else o
  }
}
