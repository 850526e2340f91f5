/**
 * Kotlin's integer `/` and `%`, which truncate toward zero. Dafny's own
 * operators are Euclidean, so the two differ for negative dividends.
 */
module Arith {

  /** Kotlin `a / b` for a positive divisor: the quotient rounded toward zero. */
  function Quot(a: int, b: int): (q: int)
    requires b > 0
    ensures a >= 0 ==> q >= 0 && 0 <= a - q * b < b
    ensures a < 0 ==> q <= 0 && -b < a - q * b <= 0
  {
    if a >= 0 then DivBounds(a, b); a / b
    else DivBounds(-a, b); -((-a) / b)
  }

  /** Euclidean division of a non-negative number, with the product written both ways round. */
  lemma DivBounds(n: int, b: int)
    requires n >= 0 && b > 0
    ensures n / b >= 0 && 0 <= n - n / b * b < b
    ensures -(n / b) * b == -(n / b * b)
  {
  }

  /** Kotlin `a % b` for a positive divisor: the remainder takes the sign of `a`. */
  function Rem(a: int, b: int): (r: int)
    requires b > 0
    ensures r == a - Quot(a, b) * b
    ensures a >= 0 ==> 0 <= r < b
    ensures a < 0 ==> -b < r <= 0
  {
    if a >= 0 then a % b else -((-a) % b)
  }

  /** On non-negative operands Kotlin and Dafny agree. */
  lemma NonNegativeAgrees(a: int, b: int)
    requires a >= 0 && b > 0
    ensures Quot(a, b) == a / b && Rem(a, b) == a % b
  {
  }

  /** A dividend of at least `c` times the divisor gives a quotient of at least `c`. */
  lemma QuotAtLeast(a: int, b: int, c: int)
    requires b > 0 && c >= 0 && a >= c * b
    ensures Quot(a, b) >= c
  {
    var q := Quot(a, b);
    assert (q - c + 1) * b == q * b - c * b + b;
    ProductSign(q - c + 1, b);
  }

  /** A dividend of at most `c` times the divisor gives a quotient of at most `c`. */
  lemma QuotAtMost(a: int, b: int, c: int)
    requires b > 0 && 0 <= a <= c * b
    ensures Quot(a, b) <= c
  {
    var q := Quot(a, b);
    assert (c - q) * b == c * b - q * b;
    if q > c {
      ProductSign(q - c, b);
    }
  }

  /** The truncated quotient grows with the dividend. */
  lemma QuotMonotone(a: int, a': int, b: int)
    requires b > 0 && 0 <= a <= a'
    ensures Quot(a, b) <= Quot(a', b)
  {
    var q, q' := Quot(a, b), Quot(a', b);
    assert (q' + 1 - q) * b == q' * b + b - q * b;
    ProductSign(q' + 1 - q, b);
  }

  lemma ProductSign(x: int, b: int)
    requires b > 0 && x * b > 0
    ensures x > 0
  {
  }

  function Max(a: int, b: int): int { if a >= b then a else b }
}
