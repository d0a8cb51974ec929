/** Times are whole numbers of nanoseconds. */
module Times {
  const SECOND := 1_000_000_000

  /** t rounded down to a multiple of d; d is left out of account when it is not positive. */
  function Truncate(t: int, d: int): (r: int)
    ensures d > 0 ==> r <= t < r + d && r % d == 0
  {
    if d <= 0 then t else (Aligned(t, d); t - t % d)
  }

  lemma Multiples(d: int, x: int)
    requires d > 0
    ensures x >= 1 ==> d * x >= d
    ensures x <= -1 ==> d * x <= -d
  {
    assert d * x == d * (x - 1) + d;
    assert d * x == d * (x + 1) - d;
  }

  /** Quotient and remainder are determined by the equation that defines them. */
  lemma Euclid(m: int, d: int, q: int, r: int)
    requires d > 0 && m == d * q + r && 0 <= r < d
    ensures q == m / d && r == m % d
  {
    assert m == d * (m / d) + m % d;
    assert d * (q - m / d) == m % d - r;
    Multiples(d, q - m / d);
  }

  lemma Aligned(t: int, d: int)
    requires d > 0
    ensures (t - t % d) % d == 0
  {
    Euclid(t - t % d, d, t / d, 0);
  }

  /** Truncate is the only multiple of d in the d instants up to t. */
  lemma TruncateUnique(t: int, d: int, r: int)
    requires d > 0 && r % d == 0 && r <= t < r + d
    ensures r == Truncate(t, d)
  {
    Euclid(t, d, r / d, t - r);
  }
}
