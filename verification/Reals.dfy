/** Monotony of products and quotients of reals, one product at a time. */
module Reals {
  lemma Spread(a: real, b: real, w: real)
    requires a <= b && w >= 0.0
    ensures a * w <= b * w
  {
  }

  lemma StrictSpread(a: real, b: real, w: real)
    requires a < b && w > 0.0
    ensures a * w < b * w
  {
  }

  lemma CancelFactor(a: real, b: real, w: real)
    requires w > 0.0 && a * w <= b * w
    ensures a <= b
  {
  }

  lemma Distribute(a: real, x: real, y: real)
    ensures a * (x + y) == a * x + a * y
  {
  }

  lemma MultiplyBack(s: real, n: real)
    requires n != 0.0
    ensures s / n * n == s
  {
  }

  lemma DivideBound(lo: real, sum: real, hi: real, total: real)
    requires total > 0.0 && lo * total <= sum <= hi * total
    ensures lo <= sum / total <= hi
  {
  }

  lemma AddUp(a: real, x: real, b: real, y: real, c: real)
    ensures a * x <= c * x && b * y <= c * y ==> a * x + b * y <= c * (x + y)
    ensures c * x <= a * x && c * y <= b * y ==> c * (x + y) <= a * x + b * y
  {
  }

  /** A weighted mean `q` of two values lies wherever both values do. */
  lemma WeightedBetween(a: real, x: real, b: real, y: real, q: real, lo: real, hi: real)
    requires lo <= a <= hi && lo <= b <= hi && x >= 0.0 && y >= 0.0 && x + y > 0.0
    requires q * (x + y) == a * x + b * y
    ensures lo <= q <= hi
  {
    assert lo <= q by {
      Spread(lo, a, x);
      Spread(lo, b, y);
      AddUp(a, x, b, y, lo);
      CancelFactor(lo, q, x + y);
    }
    assert q <= hi by {
      Spread(a, hi, x);
      Spread(b, hi, y);
      AddUp(a, x, b, y, hi);
      CancelFactor(q, hi, x + y);
    }
  }
}
