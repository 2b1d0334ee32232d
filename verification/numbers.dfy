/** Exact arithmetic shared by the score aggregations. */
module Numbers {

  /** `sum / count` for a positive count. */
  function Mean(sum: real, count: nat): (m: real)
    requires count > 0
    ensures m * (count as real) == sum
  {
    sum / (count as real)
  }

  /** Dividing by a positive `w` keeps a bound `s <= k * w` as `s / w <= k`. */
  lemma DivAtMost(s: real, w: real, k: real)
    requires w > 0.0 && s <= k * w
    ensures s / w <= k
  {
    var q := s / w;
    assert s == q * w;
    if q > k {
      assert q * w > k * w;
    }
  }
}
