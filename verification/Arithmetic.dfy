/** Quotients and remainders. */
module Arithmetic {
  lemma DivUnique(v: int, m: int, q: int, r: int)
    requires m > 0 && v == m * q + r && 0 <= r < m
    ensures v / m == q && v % m == r
  {
    assert m * (v / m - q) == r - v % m;
    Multiple(m, v / m - q);
  }

  lemma Multiple(m: int, x: int)
    requires m > 0
    ensures x >= 1 ==> m * x >= m
    ensures x <= -1 ==> m * x <= -m
  {
  }
}
