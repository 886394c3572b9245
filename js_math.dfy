// Math.round, Math.ceil and Math.max on quotients of whole numbers, computed exactly.

module JsMath {

  function Max(a: int, b: int): int {
    if a >= b then a else b
  }

  /** `Math.round(p / q)`: the nearest integer to p/q, a half rounded up */
  function RoundDiv(p: int, q: int): int
    requires q != 0
    decreases if q < 0 then 1 else 0
  {
    if q < 0 then RoundDiv(-p, -q) else (2 * p + q) / (2 * q)
  }

  /** RoundDiv(p, q) is the r with r - 1/2 <= p/q < r + 1/2, written without fractions. */
  lemma {:induction false} RoundDivNearest(p: int, q: int)
    requires q != 0
    decreases if q < 0 then 1 else 0
    ensures q > 0 ==> 2 * q * RoundDiv(p, q) <= 2 * p + q < 2 * q * RoundDiv(p, q) + 2 * q
    ensures q < 0 ==> 2 * q * RoundDiv(p, q) >= 2 * p + q > 2 * q * RoundDiv(p, q) + 2 * q
  {
    var r := RoundDiv(p, q);
    if q < 0 {
      RoundDivNearest(-p, -q);
      assert 2 * (-q) * r == -(2 * q * r);
    } else {
      assert 2 * p + q == (2 * q) * r + (2 * p + q) % (2 * q);
    }
  }

  /** `Math.ceil(p / q)` for a positive divisor */
  function CeilDiv(p: int, q: int): (r: int)
    requires q > 0
    ensures q * (r - 1) < p <= q * r
  {
    var r := (p + q - 1) / q;
    assert p + q - 1 == q * r + (p + q - 1) % q;
    r
  }

  /** Rounding p/q lands between two whole numbers that bound p/q. */
  lemma RoundDivBetween(p: int, q: int, lo: int, hi: int)
    requires q > 0 && q * lo <= p <= q * hi
    ensures lo <= RoundDiv(p, q) <= hi
  {
    var r := RoundDiv(p, q);
    RoundDivNearest(p, q);
    if r < lo {
      assert r + 1 <= lo;
      assert 2 * q * (r + 1) <= 2 * q * lo by {
        MulMono(2 * q, r + 1, lo);
      }
    }
    if r > hi {
      assert hi + 1 <= r;
      assert 2 * q * (hi + 1) <= 2 * q * r by {
        MulMono(2 * q, hi + 1, r);
      }
    }
  }

  lemma MulMono(c: int, a: int, b: int)
    requires c >= 0 && a <= b
    ensures c * a <= c * b
  {
    assert c * b - c * a == c * (b - a);
  }

  /** The whole numbers are rounded to themselves. */
  lemma RoundDivExact(n: int, q: int)
    requires q > 0
    ensures RoundDiv(n * q, q) == n
  {
    RoundDivBetween(n * q, q, n, n);
  }
}
