/**
 * Facts about exact real ratios, used to restate the scorers' rate bands
 * without division.
 */
module Ratios {

  /** Multiplying both sides by a positive factor keeps a comparison. */
  lemma ScaleComparisons(t: real, k: real, w: real)
    requires w > 0.0
    ensures t < k <==> t * w < k * w
    ensures t <= k <==> t * w <= k * w
  {
    if t < k { assert (k - t) * w > 0.0; }
    if t * w < k * w { assert (k - t) * w > 0.0; }
    if t <= k { assert (k - t) * w >= 0.0; }
    if t * w <= k * w { assert (k - t) * w >= 0.0; }
  }

  /** Comparing a ratio `t` with `k` is comparing `c * n` with `k * d`, when `t * d == c * n`. */
  lemma EdgeByCounts(t: real, c: real, n: real, d: real, k: real)
    requires d > 0.0 && t * d == c * n
    ensures t < k <==> c * n < k * d
    ensures t <= k <==> c * n <= k * d
  {
    ScaleComparisons(t, k, d);
  }

  /**
   * `(count / total) * 100 if total > 0 else 0`: occurrences per hundred,
   * the form of both the grammar error rate and the filler rate.
   */
  function PerHundred(count: nat, total: nat): (r: real)
    ensures r >= 0.0
    ensures total == 0 ==> r == 0.0
    ensures total > 0 ==> r * total as real == 100.0 * count as real
  {
    if total > 0 then
      QuotientTimesDenominator(count, total);
      (count as real / total as real) * 100.0
    else 0.0
  }

  /** `(n / d) * d == n` for a positive denominator. */
  lemma QuotientTimesDenominator(n: nat, d: nat)
    requires d > 0
    ensures (n as real / d as real) * d as real == n as real
    ensures n as real / d as real >= 0.0
  {
  }
}
