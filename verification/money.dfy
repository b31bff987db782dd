/** Amounts in whole cents, and the rounding `toFixed(2)` applies when an
    exact amount in dollars is shown or stored to two decimal places. */
module Money {

  /** `x.toFixed(2)` of the exact quotient `t / n`, in cents: the nearest
      whole number of cents, a tie going away from zero. */
  function RoundedQuotient(t: int, n: nat): (r: int)
    requires n > 0
    ensures t >= 0 ==> 2 * t - n < 2 * n * r <= 2 * t + n
    ensures t < 0 ==> 2 * t - n <= 2 * n * r < 2 * t + n
  {
    if t >= 0 then QuotientHalfUp(t, n) else -(QuotientHalfUp(-t, n) as int)
  }

  function QuotientHalfUp(t: nat, n: nat): (r: nat)
    requires n > 0
    ensures 2 * t - n < 2 * n * r <= 2 * t + n
  {
    var q := (2 * t + n) / (2 * n);
    assert 2 * n * q <= 2 * t + n < 2 * n * q + 2 * n;
    q
  }

  /** Bounds on twice a scaled quotient carry over to the quotient. */
  lemma ScaledAtMost(n: nat, q: int, m: int)
    requires n > 0 && 2 * n * q <= 2 * n * m + n
    ensures q <= m
  {
    if q > m {
      var d := q - m;
      assert n * d >= n by { assert n * (d - 1) >= 0; }
    }
  }

  lemma ScaledAtLeast(n: nat, q: int, m: int)
    requires n > 0 && 2 * n * m - n < 2 * n * q
    ensures m <= q
  {
    assert n * (q - m + 1) > 0;
  }

  /** A quotient whose exact value lies between two whole numbers of cents
      rounds to a value between them. */
  lemma RoundedWithin(t: nat, n: nat, lo: int, hi: int)
    requires n > 0 && 2 * n * lo <= 2 * t <= 2 * n * hi
    ensures lo <= RoundedQuotient(t, n) <= hi
  {
    var q := RoundedQuotient(t, n);
    ScaledAtLeast(n, q, lo);
    ScaledAtMost(n, q, hi);
  }
}
