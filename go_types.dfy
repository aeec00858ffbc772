/** The two machine types of Go that the core depends on. */
module GoTypes {
  /** A Go `byte`. Go strings are byte strings, so a string here is a
      `seq<char>` whose characters are all below 256 (`seq<Byte>`). */
  type Byte = c: char | c as int < 256 witness '\0'

  const MinInt64: int := -0x8000_0000_0000_0000
  const MaxInt64: int := 0x7FFF_FFFF_FFFF_FFFF

  /** A Go `int64`. */
  type Int64 = x: int | MinInt64 <= x <= MaxInt64

  /** Go's unary minus on `int64`: two's-complement wrap-around, so the
      minimum value is its own negation. */
  function Neg(v: Int64): (r: Int64)
    ensures v != MinInt64 ==> r == -v
    ensures v == MinInt64 ==> r == MinInt64
  {
    if v == MinInt64 then MinInt64 else -v
  }

  lemma NegInvolutive(v: Int64)
    ensures Neg(Neg(v)) == v
  {
  }
}
