/** Integer division by a positive number, as inequalities. */
module Arith {

  lemma MulMono(a: int, b: int, c: int)
    requires c >= 0
    ensures a <= b ==> a * c <= b * c
  {
  }

  lemma DivUnique(x: int, p: int, q: int)
    requires p > 0 && q * p <= x < q * p + p
    ensures x / p == q
  {
    var d := x / p;
    assert d * p <= x < d * p + p;
    Times(d, p);
    Times(q, p);
    MulMono(d + 1, q, p);
    MulMono(q + 1, d, p);
  }

  lemma Times(n: int, p: int)
    ensures (n + 1) * p == n * p + p
  {
  }

  /** A rounded-down quotient is at least m exactly when m fits. */
  lemma FloorIff(x: int, p: int, m: int)
    requires p > 0
    ensures m <= x / p <==> m * p <= x
  {
    var d := x / p;
    MulMono(m, d, p);
    MulMono(d + 1, m, p);
  }

  /** A rounded-up quotient is at most m exactly when m covers it. */
  lemma CeilIff(x: int, p: int, m: int)
    requires p > 0
    ensures (x + p - 1) / p <= m <==> x <= m * p
  {
    FloorIff(x + p - 1, p, m + 1);
    assert (m + 1) * p == m * p + p;
  }

  lemma FloorMono(x: int, y: int, p: int)
    requires p > 0 && x <= y
    ensures x / p <= y / p
  {
    FloorIff(y, p, x / p);
  }
}
