/** Products and quotients of unknown numbers. */
module Division {

  lemma Distributes(m: int, q: int, p: int)
    ensures m * (q - p) == m * q - m * p
  {
  }

  lemma AtLeastOnce(m: int, k: int)
    requires m > 0 && k >= 1
    ensures m * k >= m
  {
  }

  lemma SmallMultiple(m: int, k: int, r: int)
    requires m > 0 && m * k == r && -m < r < m
    ensures k == 0 && r == 0
  {
    if k >= 1 {
      AtLeastOnce(m, k);
    } else if k <= -1 {
      AtLeastOnce(m, -k);
    }
  }

  /** A quotient and a rest that fit are the quotient and the rest. */
  lemma QuotientIs(x: int, m: int, q: int, r: int)
    requires m > 0 && x == m * q + r && 0 <= r < m
    ensures x / m == q && x % m == r
  {
    var d, rest := x / m, x % m;
    assert x == m * d + rest;
    Distributes(m, q, d);
    SmallMultiple(m, q - d, rest - r);
  }

  lemma ProductGrows(a: nat, b: nat, p: nat)
    requires a <= b
    ensures a * p <= b * p
  {
  }
}
