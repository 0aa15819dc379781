/**
 Bitwise operations on unbounded integers with Python's meaning: a negative number has
 infinitely many leading ones. They are defined bit by bit; the lemmas give the
 arithmetic that the modelled masks and shifts amount to.
 */
module Bits {
  import opened Arithmetic

  function Abs(x: int): nat {
    if x < 0 then -x else x
  }

  function Pow2(n: nat): (p: nat)
    ensures p > 0
  {
    if n == 0 then 1 else 2 * Pow2(n - 1)
  }

  function And(x: int, y: int): int
    decreases Abs(x)
  {
    if x == 0 || y == 0 then 0
    else if x == -1 then y
    else if y == -1 then x
    else 2 * And(x / 2, y / 2) + (if x % 2 == 1 && y % 2 == 1 then 1 else 0)
  }

  function Or(x: int, y: int): int
    decreases Abs(x)
  {
    if x == 0 then y
    else if y == 0 then x
    else if x == -1 || y == -1 then -1
    else 2 * Or(x / 2, y / 2) + (if x % 2 == 1 || y % 2 == 1 then 1 else 0)
  }

  function Not(x: int): int {
    -x - 1
  }

  function Shl(x: int, n: nat): int {
    x * Pow2(n)
  }

  function Shr(x: int, n: nat): int {
    x / Pow2(n)
  }

  lemma {:induction false} ModSplit(x: int, c: int)
    requires 0 < c
    ensures x % (2 * c) == 2 * (x / 2 % c) + x % 2
  {
    var q, r := x / 2 / c, x / 2 % c;
    assert x / 2 == q * c + r by {
      assert x / 2 == c * (x / 2 / c) + x / 2 % c;
    }
    assert x == q * (2 * c) + (2 * r + x % 2) by {
      assert q * (2 * c) == 2 * (q * c);
    }
    DivModOfSum(q, 2 * c, 2 * r + x % 2);
  }

  lemma {:induction false} Pow2Add(a: nat, b: nat)
    ensures Pow2(a + b) == Pow2(a) * Pow2(b)
  {
    if a > 0 {
      Pow2Add(a - 1, b);
      assert Pow2(a) * Pow2(b) == 2 * (Pow2(a - 1) * Pow2(b));
    }
  }

  lemma {:induction false} Pow2Constants()
    ensures Pow2(7) == 128 && Pow2(32) == 0x1_0000_0000
    ensures Pow2(64) == 0x1_0000_0000_0000_0000 && Pow2(70) == 0x40_0000_0000_0000_0000
  {
    assert Pow2(8) == 256 && Pow2(6) == 64;
    Pow2Add(8, 8);
    Pow2Add(16, 16);
    Pow2Add(32, 32);
    Pow2Add(64, 6);
  }

  lemma {:induction false} AndOdd(x: int, m: nat)
    ensures And(x, 2 * m + 1) == 2 * And(x / 2, m) + x % 2
  {
    assert (2 * m + 1) / 2 == m && (2 * m + 1) % 2 == 1;
  }

  /** `x & (2^k - 1)` is the remainder modulo 2^k, also for negative `x`. */
  lemma {:induction false} AndMask(x: int, k: nat)
    ensures And(x, Pow2(k) - 1) == x % Pow2(k)
    decreases k
  {
    if k > 0 {
      var c: int := Pow2(k - 1);
      assert Pow2(k) - 1 == 2 * (c - 1) + 1;
      AndOdd(x, c - 1);
      AndMask(x / 2, k - 1);
      ModSplit(x, c);
    }
  }

  /** Bits below 2^s and a number shifted up by `s` do not meet, so `|` adds them. */
  lemma {:induction false} OrDisjoint(r: nat, v: nat, s: nat)
    requires r < Pow2(s)
    ensures Or(r, Shl(v, s)) == r + v * Pow2(s)
  {
    if s > 0 && r > 0 {
      var c := Pow2(s - 1);
      assert Shl(v, s) == 2 * (v * c) by {
        assert v * (2 * c) == 2 * (v * c);
      }
      assert Shl(v, s) / 2 == Shl(v, s - 1) && Shl(v, s) % 2 == 0;
      if v > 0 {
        assert v * c >= c by {
          MulMonotone(1, v, c);
        }
        OrDisjoint(r / 2, v, s - 1);
      }
    }
  }

  lemma {:induction false} OrEven(x: int, m: int)
    requires m < 0
    ensures Or(x, 2 * m) == 2 * Or(x / 2, m) + x % 2
  {
    assert (2 * m) / 2 == m && (2 * m) % 2 == 0;
  }

  /** `x | ~(2^k - 1)` sets every bit from `k` up. */
  lemma {:induction false} OrHighBits(x: int, k: nat)
    ensures Or(x, Not(Pow2(k) - 1)) == x % Pow2(k) - Pow2(k)
    decreases k
  {
    if k > 0 {
      var c: int := Pow2(k - 1);
      assert Not(Pow2(k) - 1) == 2 * -c && Not(c - 1) == -c;
      OrEven(x, -c);
      OrHighBits(x / 2, k - 1);
      ModSplit(x, c);
    }
  }

  lemma {:induction false} DivByTwice(x: int, c: int)
    requires 0 < c
    ensures x / (2 * c) == x / 2 / c
  {
    var q, r := x / 2 / c, x / 2 % c;
    assert x / 2 == c * q + r;
    assert q * (2 * c) == 2 * (c * q);
    DivUnique(x, 2 * c, q);
  }

  /** `x & 2^k` tests bit `k`. */
  lemma {:induction false} AndSingleBit(x: nat, k: nat)
    ensures And(x, Pow2(k)) == 0 <==> x / Pow2(k) % 2 == 0
    decreases k
  {
    if k > 0 {
      var c := Pow2(k - 1);
      AndSingleBit(x / 2, k - 1);
      DivByTwice(x, c);
      assert (2 * c) / 2 == c && (2 * c) % 2 == 0;
      if x == 0 {
        DivModOfSum(0, 2 * c, 0);
      }
    }
  }

  lemma {:induction false} OrCommutes(x: int, y: int)
    ensures Or(x, y) == Or(y, x)
    decreases Abs(x)
  {
    if x != 0 && y != 0 && x != -1 && y != -1 {
      OrCommutes(x / 2, y / 2);
    }
  }

  lemma {:induction false} AndSelf(x: nat)
    ensures And(x, x) == x
  {
    if x > 0 {
      AndSelf(x / 2);
    }
  }

  ghost predicate IsPow2(n: int) {
    exists k: nat :: n == Pow2(k)
  }

  lemma {:induction false} IsPow2Half(n: int)
    requires n > 0 && n % 2 == 0
    ensures IsPow2(n) <==> IsPow2(n / 2)
  {
    if k: nat :| n == Pow2(k) {
      assert k > 0;
      assert n / 2 == Pow2(k - 1);
    }
    if k: nat :| n / 2 == Pow2(k) {
      assert n == Pow2(k + 1);
    }
  }

  lemma {:induction false} IsPow2Odd(n: int)
    requires n > 0 && n % 2 == 1
    ensures IsPow2(n) <==> n == 1
  {
    assert Pow2(0) == 1;
    if k: nat :| n == Pow2(k) {
      assert k == 0;
    }
  }

  /** Clearing the lowest set bit leaves nothing exactly for the powers of two. */
  lemma {:induction false} LowestBitTest(n: int)
    requires n > 0
    ensures And(n, n - 1) == 0 <==> IsPow2(n)
    decreases n
  {
    if n % 2 == 1 {
      IsPow2Odd(n);
      AndSelf(n / 2);
      assert (n - 1) / 2 == n / 2;
    } else {
      IsPow2Half(n);
      LowestBitTest(n / 2);
      assert (n - 1) / 2 == n / 2 - 1;
    }
  }
}
