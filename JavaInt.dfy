/** Java's 32-bit `int` arithmetic, written out over Dafny's unbounded integers.
    Java's `/` and `%` truncate toward zero, while Dafny's are Euclidean; and a
    Java `int` wraps around modulo 2^32 where Dafny's `int` does not. */
module JavaInt {

  const INT_MIN: int := -0x8000_0000
  const INT_MAX: int := 0x7fff_ffff
  const TWO_32: int := 0x1_0000_0000

  predicate IsInt32(x: int) {
    INT_MIN <= x <= INT_MAX
  }

  /** The value a Java `int` holds after an operation whose exact result is `x`
      (two's-complement wrap-around, also what the `(int)` cast of a `long` does). */
  function Int32(x: int): (r: int)
    ensures IsInt32(r)
    ensures (r - x) % TWO_32 == 0
    ensures IsInt32(x) ==> r == x
  {
    (x - INT_MIN) % TWO_32 + INT_MIN
  }

  /** The difference of two Java `int`s wraps to 0 only when it is 0, so
      comparing a wrapped difference with 0 is comparing the operands. */
  lemma DiffWrapsToZero(a: int, b: int)
    requires IsInt32(a) && IsInt32(b)
    ensures Int32(a - b) == 0 <==> a == b
  {
  }

  /** Java's `a % b` for a positive divisor: the remainder takes the sign of the dividend. */
  function JavaRem(a: int, b: int): (r: int)
    requires b > 0
    ensures -b < r < b
    ensures a >= 0 ==> 0 <= r
    ensures a <= 0 ==> r <= 0
    ensures (a - r) % b == 0
  {
    if a >= 0 then
      assert a - a % b == (a / b) * b;
      MultipleMod(a / b, b);
      a % b
    else
      assert a + (-a) % b == (-((-a) / b)) * b;
      MultipleMod(-((-a) / b), b);
      -((-a) % b)
  }

  /** Every multiple of `b` leaves remainder 0. */
  lemma MultipleMod(k: int, b: int)
    requires b > 0
    ensures (k * b) % b == 0
  {
    var m := k - (k * b) / b;
    assert b * m == (k * b) % b;
  }

  /** Java's `a / b` for a positive divisor: the quotient is rounded toward zero,
      so that `(a / b) * b + a % b == a` (section 15.17.3 of the Java Language Specification). */
  function JavaDiv(a: int, b: int): (q: int)
    requires b > 0
    ensures q * b + JavaRem(a, b) == a
    ensures a >= 0 ==> 0 <= q && q * b <= a < (q + 1) * b
    ensures a <= 0 ==> q <= 0 && (q - 1) * b < a <= q * b
  {
    if a >= 0 then a / b else -((-a) / b)
  }

  /** Truncating division is odd: negating the dividend negates the quotient.
      (Dafny's own `/` is not: `-1 / 1000 == -1` but `1 / 1000 == 0`.) */
  lemma JavaDivNegate(a: int, b: int)
    requires b > 0
    ensures JavaDiv(-a, b) == -JavaDiv(a, b)
  {
  }
}
