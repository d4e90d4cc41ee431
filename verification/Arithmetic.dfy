/** Quotients and remainders, for any divisor. */
module Arithmetic {
  lemma Quotient(x: int, q: int, n: int, r: int)
    requires x == q * n + r && 0 <= r < n
    ensures x / n == q && x % n == r
  {
    assert (x / n - q) * n == r - x % n;
    if x / n != q {
      Multiple(x / n - q, n);
    }
  }

  lemma Multiple(k: int, n: int)
    requires k != 0 && n > 0
    ensures k * n >= n || k * n <= -n
  {
    if k > 0 {
      assert (k - 1) * n >= 0;
    } else {
      assert (-k - 1) * n >= 0;
    }
  }

  /** Whole multiples of the divisor do not show in the remainder. */
  lemma Around(x: int, q: int, n: int)
    requires n > 0
    ensures (x + q * n) % n == x % n
  {
    assert x + q * n == (x / n + q) * n + x % n;
    Quotient(x + q * n, x / n + q, n, x % n);
  }

  lemma RemainderAdds(x: int, y: int, n: int)
    requires n > 0
    ensures (x % n + y) % n == (x + y) % n
  {
    assert x + y == x % n + y + x / n * n;
    Around(x % n + y, x / n, n);
  }

  lemma RemainderScales(x: int, k: int, n: int)
    requires n > 0
    ensures (x % n * k) % n == (x * k) % n
  {
    ScaledBy(x % n, x / n, n, k);
    assert x % n + x / n * n == x;
  }

  lemma ScaledBy(r: int, q: int, n: int, k: int)
    requires n > 0
    ensures (r * k) % n == ((r + q * n) * k) % n
  {
    Expand(r, q, n, k);
    Around(r * k, q * k, n);
  }

  lemma Expand(r: int, q: int, n: int, k: int)
    ensures (r + q * n) * k == r * k + q * k * n
  {
  }
}
