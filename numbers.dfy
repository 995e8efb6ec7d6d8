/** Facts about real quotients shared by the server-side and the map's averages. */
module Numbers {
  /** A total of `n` values that each lie in 1..5, divided by `n`, lies in 1..5. */
  lemma QuotientBounds(s: real, n: real)
    requires n > 0.0 && n <= s <= 5.0 * n
    ensures 1.0 <= s / n <= 5.0
  {
    assert s / n * n == s;
  }
}
