/** Go's `uint32`: the width of every counter in the benchmark. */
module Uint32 {

  const Modulus: int := 0x1_0000_0000

  /** A value a Go `uint32` can hold. */
  type U32 = x: int | 0 <= x < Modulus

  /** Go's `a + b` on two `uint32` operands, which is also what `atomic.AddUint32` stores:
      the mathematical sum when it fits, otherwise the sum with one 2^32 taken off. */
  function WrappingAdd(a: U32, b: U32): (r: U32)
    ensures a + b < Modulus ==> r == a + b
    ensures a + b >= Modulus ==> r == a + b - Modulus
  {
    (a + b) % Modulus
  }

  /** Reducing an operand first does not change a sum modulo 2^32. */
  lemma ModOfSum(x: int, b: int)
    ensures (x % Modulus + b) % Modulus == (x + b) % Modulus
  {
    var q := x / Modulus;
    assert x == q * Modulus + x % Modulus;
    assert x + b == (x % Modulus + b) + q * Modulus;
  }
}
