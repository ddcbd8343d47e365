/** Kotlin `Int` arithmetic on unbounded Dafny integers: a 32-bit two's-complement
    value, addition that wraps around, and division that truncates toward zero. */
module KotlinInt {

  const IntMin: int := -0x8000_0000
  const IntMax: int := 0x7fff_ffff
  const Modulus: int := 0x1_0000_0000

  type Int32 = x: int | IntMin <= x <= IntMax

  /** The 32-bit value congruent to `x` modulo 2^32, as the JVM stores it. */
  function Wrap(x: int): (r: Int32)
    ensures (r - x) % Modulus == 0
    ensures IntMin <= x <= IntMax ==> r == x
  {
    (x - IntMin) % Modulus + IntMin
  }

  /** `a + b` on two Kotlin `Int`s. */
  function Add(a: Int32, b: Int32): (r: Int32)
    ensures IntMin <= a + b <= IntMax ==> r == a + b
    ensures a + b > IntMax ==> r == a + b - Modulus
    ensures a + b < IntMin ==> r == a + b + Modulus
  {
    Wrap(a + b)
  }

  /** `a / n` on Kotlin `Int`s for a positive divisor: the quotient is rounded
      toward zero, unlike Dafny's `/`, which rounds toward negative infinity. */
  function TruncDiv(a: int, n: int): (q: int)
    requires n > 0
    ensures a >= 0 ==> q * n <= a < q * n + n
    ensures a < 0 ==> q * n - n < a <= q * n
  {
    if a >= 0 then a / n else -((-a) / n)
  }
}
