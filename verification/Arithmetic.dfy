/** Facts about products, quotients and remainders that the solver does not find on its own. */
module Arithmetic {

  lemma {:induction false} MulMonotone(a: int, b: int, c: int)
    requires 0 <= c
    ensures a <= b ==> a * c <= b * c
  {
    assert b * c - a * c == (b - a) * c;
  }

  lemma {:induction false} DivMonotone(a: int, b: int, c: int)
    requires 0 < c && a <= b
    ensures a / c <= b / c
  {
    MulMonotone(b / c + 1, a / c, c);
  }

  lemma {:induction false} DivBound(x: int, w: int, c: int)
    requires 0 < c && 0 <= x < w * c
    ensures 0 <= x / c < w
  {
    MulMonotone(w, x / c, c);
  }

  lemma {:induction false} DivUnique(x: int, c: int, q: int)
    requires 0 < c && q * c <= x < q * c + c
    ensures x / c == q
  {
    MulMonotone(q + 1, x / c, c);
    MulMonotone(x / c + 1, q, c);
  }

  /** Adding whole multiples changes the quotient by them and leaves the remainder. */
  lemma {:induction false} DivModOfSum(q: int, c: int, r: int)
    requires 0 <= r < c
    ensures (q * c + r) / c == q && (q * c + r) % c == r
  {
    DivUnique(q * c + r, c, q);
    assert (q * c + r) == c * ((q * c + r) / c) + (q * c + r) % c;
    assert q * c == c * q;
  }

  lemma {:induction false} ModOfMultiple(x: int, q: int, c: int)
    requires 0 < c
    ensures (x + q * c) % c == x % c && (x + q * c) / c == x / c + q
  {
    assert x == c * (x / c) + x % c;
    assert c * (x / c) + q * c == (x / c + q) * c;
    DivModOfSum(x / c + q, c, x % c);
  }

  lemma {:induction false} DivIsTheOnly(x: int, c: int, q: int)
    requires 0 < c
    ensures x / c == q <==> q * c <= x < q * c + c
  {
    assert x == x / c * c + x % c;
    if q * c <= x < q * c + c {
      DivUnique(x, c, q);
    }
  }
}
