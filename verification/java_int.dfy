/** Java's 32-bit `int` as the active phase uses it: the value range and the
    wrap-around of `x += 1`. */
module JavaInt {

  const MinInt: int := -0x8000_0000
  const MaxInt: int := 0x7fff_ffff
  const Modulus: int := 0x1_0000_0000

  type Int32 = x: int | MinInt <= x <= MaxInt

  /** `x + 1` on a Java `int`: the sum taken modulo 2^32 and read back as a signed value. */
  function Inc(x: Int32): (r: Int32)
    ensures x < MaxInt ==> r == x + 1
    ensures x == MaxInt ==> r == MinInt
  {
    (x + 1 - MinInt) % Modulus + MinInt
  }
}
