/** The few facts about integer quotients the timing arguments rest on. */
module Arithmetic {
  lemma ProductNonnegative(x: nat, y: nat)
    ensures x * y >= 0
  {
  }

  lemma MultiplesApart(d: int, q: int, r: int)
    requires d > 0 && q > r
    ensures d * q >= d * r + d
  {
    ProductNonnegative(d, q - r - 1);
    assert d * (q - r - 1) == d * q - d * r - d;
  }

  lemma QuotientUnique(x: int, d: int, q: int, r: int)
    requires d > 0 && 0 <= r < d && x == d * q + r
    ensures x / d == q
  {
    var k := x / d;
    assert x == d * k + x % d;
    if k > q {
      MultiplesApart(d, k, q);
    } else if k < q {
      MultiplesApart(d, q, k);
    }
  }

  lemma QuotientMonotone(x: int, y: int, d: int, m: nat)
    requires x <= y && d > 0
    ensures x / d <= y / d && m * (x / d) <= m * (y / d)
  {
    var qx, qy := x / d, y / d;
    assert x == d * qx + x % d && y == d * qy + y % d;
    if qx > qy {
      MultiplesApart(d, qx, qy);
    } else {
      ProductNonnegative(m, qy - qx);
      assert m * (qy - qx) == m * qy - m * qx;
    }
  }

  lemma QuotientBack(x: int, d: int)
    requires d > 0
    ensures (x - d) / d == x / d - 1
  {
    var q := x / d;
    assert x == d * q + x % d;
    assert d * (q - 1) == d * q - d;
    QuotientUnique(x - d, d, q - 1, x % d);
  }
}
