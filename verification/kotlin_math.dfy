/**
 * Kotlin's integer division and remainder. Kotlin truncates the quotient toward
 * zero and gives the remainder the sign of the dividend, whereas Dafny's `/` and
 * `%` are Euclidean. Every divisor in the modelled code is positive.
 */
module KotlinMath {

  /** Kotlin `a / b` for a positive divisor: the quotient rounded toward zero. */
  function Div(a: int, b: int): (q: int)
    requires b > 0
    ensures a >= 0 ==> 0 <= q && q * b <= a < q * b + b
    ensures a < 0 ==> q <= 0 && q * b - b < a <= q * b
  {
    if a >= 0 then
      EuclidNonNegative(a, b);
      a / b
    else
      EuclidNonNegative(-a, b);
      -((-a) / b)
  }

  /** Kotlin `a % b` for a positive divisor: what is left after `Div`, with the sign of `a`. */
  function Rem(a: int, b: int): (r: int)
    requires b > 0
    ensures a == Div(a, b) * b + r
    ensures a >= 0 ==> 0 <= r < b
    ensures a < 0 ==> -b < r <= 0
  {
    EuclidNonNegative(if a >= 0 then a else -a, b);
    if a >= 0 then a % b else -((-a) % b)
  }

  /** Dafny's quotient and remainder of a non-negative dividend. */
  lemma EuclidNonNegative(a: int, b: int)
    requires a >= 0 && b > 0
    ensures a / b >= 0 && a == (a / b) * b + a % b && 0 <= a % b < b
  {
  }

  /** On a non-negative dividend Kotlin and Dafny agree. */
  lemma AgreeOnNonNegative(a: int, b: int)
    requires a >= 0 && b > 0
    ensures Div(a, b) == a / b && Rem(a, b) == a % b
  {
  }

  /** Truncating division is odd: negating the dividend negates the quotient and the remainder. */
  lemma DivRemOdd(a: int, b: int)
    requires b > 0
    ensures Div(-a, b) == -Div(a, b)
    ensures Rem(-a, b) == -Rem(a, b)
  {
  }

  /** A quotient and remainder in `[0, b)` are Dafny's. */
  lemma EuclidUnique(a: int, b: int, q: int, r: int)
    requires b > 0 && a == q * b + r && 0 <= r < b
    ensures a % b == r
    ensures a / b == q
  {
    var q0, r0 := a / b, a % b;
    assert a == q0 * b + r0;
    assert (q - q0) * b == r0 - r by {
      assert q * b - q0 * b == (q - q0) * b;
    }
    if q > q0 {
      MulAtLeast(q - q0, b);
    } else if q < q0 {
      MulAtLeast(q0 - q, b);
    }
  }

  lemma MulAtLeast(k: int, b: int)
    requires k >= 1 && b > 0
    ensures k * b >= b
  {
    assert k * b == (k - 1) * b + b;
    assert (k - 1) * b >= 0;
  }
}
