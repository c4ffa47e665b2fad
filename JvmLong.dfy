/** The JVM's 64-bit signed `Long`: its range and its wrap-around addition and subtraction. */
module JvmLong {

  const LongMin: int := -0x8000_0000_0000_0000
  const LongMax: int := 0x7FFF_FFFF_FFFF_FFFF
  const LongModulus: int := 0x1_0000_0000_0000_0000

  /** The values a `Long` can hold. */
  predicate IsLong(x: int) {
    LongMin <= x <= LongMax
  }

  /** Two's-complement truncation of a mathematical integer to 64 bits. */
  function Wrap(x: int): (r: int)
    ensures IsLong(r)
    ensures IsLong(x) ==> r == x
    ensures (r - x) % LongModulus == 0
  {
    (x - LongMin) % LongModulus + LongMin
  }

  /** `a + b` on `Long` operands. */
  function Add(a: int, b: int): (r: int)
    ensures IsLong(r)
    ensures IsLong(a + b) ==> r == a + b
  {
    Wrap(a + b)
  }

  /** `a - b` on `Long` operands. */
  function Sub(a: int, b: int): (r: int)
    ensures IsLong(r)
    ensures IsLong(a - b) ==> r == a - b
  {
    Wrap(a - b)
  }

  /** Incrementing the largest `Long` yields the smallest one. */
  lemma IncrementOverflows()
    ensures Add(LongMax, 1) == LongMin
  {
  }
}
