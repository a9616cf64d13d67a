/** Products, quotients and remainders of whole paise, one fact a lemma. */
module Arith {

  lemma Distribute(a: int, b: int, c: int)
    ensures (a + b) * c == a * c + b * c
    ensures c * (a + b) == c * a + c * b
    ensures (a - b) * c == a * c - b * c
    ensures a * c == c * a
  {
  }

  lemma ProductOfNats(a: nat, b: nat)
    ensures a * b >= 0
  {
  }

  lemma MulLe(a: int, b: int, c: nat)
    ensures a <= b ==> a * c <= b * c
    ensures a < b ==> a * c <= b * c - c
  {
    if a < b {
      ProductOfNats(b - a - 1, c);
      Distribute(b, a, c);
      Distribute(b - a, 1, c);
    }
  }

  lemma DivRem(x: int, d: int)
    requires d > 0
    ensures x == (x / d) * d + x % d
    ensures 0 <= x % d < d
  {
    assert x == d * (x / d) + x % d;
  }

  /** A quotient is the one number whose multiple leaves less than the divisor over. */
  lemma DivUnique(x: int, d: int, q: int)
    requires d > 0
    ensures q == x / d <==> q * d <= x < q * d + d
  {
    DivRem(x, d);
    MulLe(q, x / d, d);
    MulLe(x / d, q, d);
  }

  lemma DivMonotone(a: int, b: int, d: int)
    requires a <= b && d > 0
    ensures a / d <= b / d
  {
    DivRem(a, d);
    DivRem(b, d);
    MulLe(b / d, a / d, d);
  }
}
