/** Facts about integer division the verifier does not find by itself. */
module Arithmetic {

  lemma {:induction false} DivUnique(x: int, d: int, q: int, r: int)
    requires d > 0 && x == q * d + r && 0 <= r < d
    ensures x / d == q && x % d == r
  {
    var q', r' := x / d, x % d;
    assert x == q' * d + r';
    assert (q - q') * d == r' - r;
    if q > q' {
      MulAtLeast(q - q', d);
    } else if q < q' {
      MulAtLeast(q' - q, d);
    }
  }

  lemma {:induction false} MulAtLeast(a: int, d: int)
    requires a >= 1 && d > 0
    ensures a * d >= d
  {
    assert a * d == (a - 1) * d + d;
    assert (a - 1) * d >= 0;
  }

  /** Adding multiples of the divisor adds to the quotient. */
  lemma {:induction false} DivAddMultiple(x: int, d: int, k: int)
    requires d > 0
    ensures (x + k * d) / d == x / d + k
  {
    DivUnique(x + k * d, d, x / d + k, x % d);
  }

  lemma {:induction false} DivMonotone(x: int, y: int, d: int)
    requires d > 0 && x <= y
    ensures x / d <= y / d
  {
    var qx, qy := x / d, y / d;
    assert x == qx * d + x % d && y == qy * d + y % d;
    if qx > qy {
      MulAtLeast(qx - qy, d);
    }
  }

  /** Rounding down two parts loses at most what rounding down the whole loses. */
  lemma {:induction false} DivSum(x: int, y: int, d: int)
    requires d > 0
    ensures x / d + y / d <= (x + y) / d
  {
    var r := x % d + y % d;
    assert x + y == (x / d + y / d) * d + r by {
      assert x == (x / d) * d + x % d && y == (y / d) * d + y % d;
    }
    DivAddMultiple(r, d, x / d + y / d);
    assert r / d >= 0;
  }
}
