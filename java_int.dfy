/**
 Java's 32-bit two's-complement `int`: its range and the wrap-around that
 `+`, `*` and the narrowing of a compound assignment (`int += long`)
 perform on results outside that range.
 */
module JavaInt {

  const INT_MIN: int := -0x8000_0000
  const INT_MAX: int := 0x7fff_ffff
  const MODULUS: int := 0x1_0000_0000

  predicate InRange(x: int) {
    INT_MIN <= x <= INT_MAX
  }

  /** The `int` Java stores for the mathematical value `x`. */
  function Wrap32(x: int): (r: int)
    ensures InRange(r)
    ensures (x - r) % MODULUS == 0
    ensures InRange(x) ==> r == x
  {
    (x - INT_MIN) % MODULUS + INT_MIN
  }
}
