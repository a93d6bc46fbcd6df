/** Small facts about multiplication and Euclidean division of non-negative
    integers, stated once and used by the mul-div and conversion proofs. */
module Arith {

  lemma MulLeMono(x: int, y: int, k: int)
    requires 0 <= x <= y && 0 <= k
    ensures x * k <= y * k
  {
  }

  /** Scaling by a non-negative factor keeps a non-strict order, whatever the
      signs of the two sides. */
  lemma ScaleLe(x: int, y: int, k: int)
    requires x <= y && 0 <= k
    ensures x * k <= y * k && k * x <= k * y
  {
    MulLeMono(0, y - x, k);
    assert y * k - x * k == (y - x) * k;
  }

  lemma MulLeCancel(x: int, y: int, k: int)
    requires 0 < k && x * k <= y * k
    ensures x <= y
  {
    if x > y {
      MulLeMono(y + 1, x, k);
      assert false;
    }
  }

  lemma MulLtCancel(x: int, y: int, k: int)
    requires 0 < k && x * k < y * k
    ensures x < y
  {
    if x >= y {
      MulLeMono(y, x, k);
      assert false;
    }
  }

  /** `n / d` is the unique `q` with `q * d <= n < q * d + d`. */
  lemma DivBounds(n: int, d: int)
    requires 0 <= n && 0 < d
    ensures 0 <= n / d
    ensures (n / d) * d <= n < (n / d) * d + d
  {
  }

  lemma QuotientUnique(n: int, d: int, q: int)
    requires 0 <= n && 0 < d
    requires q * d <= n < q * d + d
    ensures q == n / d
  {
    DivBounds(n, d);
    var q' := n / d;
    if q < q' {
      MulLeMono(q + 1, q', d);
      assert false;
    } else if q > q' {
      MulLeMono(q' + 1, q, d);
      assert false;
    }
  }

  /** A floor quotient stays below `m` exactly when the dividend is below `m * d`. */
  lemma DivLtIff(n: int, d: int, m: int)
    requires 0 <= n && 0 < d && 0 <= m
    ensures n / d < m <==> n < m * d
  {
    DivBounds(n, d);
    var q := n / d;
    if q < m {
      MulLeMono(q + 1, m, d);
      assert (q + 1) * d == q * d + d;
    } else {
      MulLeMono(m, q, d);
    }
  }
}
