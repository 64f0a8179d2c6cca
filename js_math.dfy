/**
 * The integer arithmetic that the scripts get from JavaScript's Math.floor,
 * Math.ceil and `%`, stated on mathematical integers.
 */
module JsMath {

  /** Math.floor(a / b) for a positive divisor. */
  function Floor(a: int, b: int): (q: int)
    requires b > 0
    ensures q * b <= a < q * b + b
  {
    a / b
  }

  /** Floor is the only integer whose multiple brackets `a`. */
  lemma FloorUnique(a: int, b: int, q: int)
    requires b > 0
    requires q * b <= a < q * b + b
    ensures Floor(a, b) == q
  {
    var f := Floor(a, b);
    if f < q {
      MulMonotone(f + 1, q, b);
    } else if f > q {
      MulMonotone(q + 1, f, b);
    }
  }

  lemma MulMonotone(x: int, y: int, b: int)
    requires x <= y && b > 0
    ensures x * b <= y * b
  {
    assert y * b - x * b == (y - x) * b;
  }

  /** Floor does not decrease when its dividend grows. */
  lemma FloorMonotone(a1: int, a2: int, b: int)
    requires b > 0 && a1 <= a2
    ensures Floor(a1, b) <= Floor(a2, b)
  {
    var f1, f2 := Floor(a1, b), Floor(a2, b);
    if f2 < f1 {
      MulMonotone(f2 + 1, f1, b);
    }
  }

  /** Shifting the dividend by whole multiples of b shifts the floor by as many. */
  lemma FloorOfMultiple(k: int, b: int)
    requires b > 0
    ensures Floor(k * b, b) == k
  {
    FloorUnique(k * b, b, k);
  }

  /** The quotient of a division truncated toward zero, as JavaScript's `%` uses it. */
  function Trunc(a: int, b: int): (q: int)
    requires b > 0
    ensures a >= 0 ==> q == Floor(a, b)
    ensures a < 0 ==> q == -Floor(-a, b)
  {
    if a >= 0 then a / b else -((-a) / b)
  }

  /**
   * JavaScript's `a % b`: what truncated division leaves over, so it
   * carries the sign of the dividend (Dafny's own `%` never goes negative).
   */
  function Rem(a: int, b: int): (r: int)
    requires b > 0
    ensures a == Trunc(a, b) * b + r
    ensures a >= 0 ==> 0 <= r < b
    ensures a < 0 ==> -b < r <= 0
  {
    if a >= 0 then a % b
    else
      assert -a == ((-a) / b) * b + (-a) % b;
      -((-a) % b)
  }

  /** Math.ceil(a / b) for a positive divisor. */
  function Ceil(a: int, b: int): (c: int)
    requires b > 0
    ensures c * b - b < a <= c * b
  {
    if a % b == 0 then a / b else a / b + 1
  }
}
