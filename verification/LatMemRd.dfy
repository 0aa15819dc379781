/**
 The memory sizes measured by configs/dram/lat_mem_rd.py: four steps for each octave, found
 with a bit test for powers of two.
 */
module LatMemRd {
  import opened Arithmetic
  import opened Bits

  /** `is_pow2`. */
  predicate Pow2Test(num: int) {
    num != 0 && And(num, num - 1) == 0
  }

  lemma {:induction false} AndOfNegatives(x: int, y: int)
    requires x < 0 && y < 0
    ensures And(x, y) < 0
    decreases Abs(x)
  {
    if x != -1 && y != -1 {
      AndOfNegatives(x / 2, y / 2);
    }
  }

  /** The bit test is exact, for negative numbers too. */
  lemma {:induction false} Pow2TestExact(num: int)
    ensures Pow2Test(num) <==> IsPow2(num)
  {
    if num > 0 {
      LowestBitTest(num);
    } else if num < 0 {
      AndOfNegatives(num, num - 1);
    }
  }

  /** The `i`-th size: each octave from 4096 on is divided into four equal steps. */
  function SizeAt(i: nat): nat {
    (4 + i % 4) * Pow2(10 + i / 4)
  }

  /** The step that leads to the next size. */
  function StepAt(i: nat): nat {
    Pow2(10 + i / 4)
  }

  lemma {:induction false} NextSize(i: nat)
    ensures SizeAt(i + 1) == SizeAt(i) + StepAt(i)
  {
    if i % 4 < 3 {
      assert (i + 1) / 4 == i / 4 && (i + 1) % 4 == i % 4 + 1;
    } else {
      assert (i + 1) / 4 == i / 4 + 1 && (i + 1) % 4 == 0;
    }
  }

  lemma {:induction false} Pow2Grows(a: nat, b: nat)
    requires a < b
    ensures Pow2(a) < Pow2(b)
  {
    if a + 1 < b {
      Pow2Grows(a, b - 1);
    }
  }

  lemma {:induction false} Quarters(r: nat, p: nat)
    requires r < 4 && p > 0
    ensures 4 * p <= (4 + r) * p < 8 * p
  {
    assert (4 + r) * p == if r == 0 then 4 * p else if r == 1 then 5 * p else if r == 2 then 6 * p else 7 * p;
  }

  /** The octave of a size: the largest power of two not above it is four steps. */
  lemma {:induction false} Octave(i: nat)
    ensures 4 * StepAt(i) == Pow2(12 + i / 4)
    ensures Pow2(12 + i / 4) <= SizeAt(i) < Pow2(12 + i / 4 + 1)
  {
    var e := i / 4;
    assert Pow2(13 + e) == 2 * Pow2(12 + e) && Pow2(12 + e) == 2 * Pow2(11 + e) && Pow2(11 + e) == 2 * Pow2(10 + e);
    Quarters(i % 4, Pow2(10 + e));
  }

  /** A size is a power of two exactly at the start of an octave. */
  lemma {:induction false} SizeIsPow2Iff(i: nat)
    ensures IsPow2(SizeAt(i)) <==> i % 4 == 0
  {
    var e := 12 + i / 4;
    Octave(i);
    if i % 4 == 0 {
      assert SizeAt(i) == Pow2(e);
    } else if k: nat :| SizeAt(i) == Pow2(k) {
      if k > e + 1 {
        Pow2Grows(e + 1, k);
      } else if k < e {
        Pow2Grows(k, e);
      }
    }
  }

  /** The loop: the sizes up to the first that is not below the maximum. */
  method Ranges(maxRange: int) returns (ranges: seq<int>)
    ensures ranges != [] && forall i :: 0 <= i < |ranges| ==> ranges[i] == SizeAt(i)
    ensures ranges[|ranges| - 1] >= maxRange
    ensures forall i :: 0 <= i < |ranges| - 1 ==> ranges[i] < maxRange
  {
    assert Pow2(10) == 1024 by {
      assert Pow2(5) == 32;
      Pow2Add(5, 5);
    }
    ranges := [4096];
    var step := 1024;
    while ranges[|ranges| - 1] < maxRange
      invariant ranges != [] && step == StepAt(|ranges| - 1)
      invariant forall i :: 0 <= i < |ranges| ==> ranges[i] == SizeAt(i)
      invariant forall i :: 0 <= i < |ranges| - 1 ==> ranges[i] < maxRange
      decreases maxRange - ranges[|ranges| - 1]
    {
      var n := |ranges|;
      var size := ranges[n - 1] + step;
      NextSize(n - 1);
      Pow2TestExact(size);
      SizeIsPow2Iff(n);
      NextStep(n - 1);
      if Pow2Test(size) {
        step := step * 2;
      }
      ranges := ranges + [size];
    }
  }

  lemma {:induction false} NextStep(i: nat)
    ensures StepAt(i + 1) == if (i + 1) % 4 == 0 then 2 * StepAt(i) else StepAt(i)
  {
    if i % 4 < 3 {
      assert (i + 1) / 4 == i / 4 && (i + 1) % 4 == i % 4 + 1;
    } else {
      assert (i + 1) / 4 == i / 4 + 1 && (i + 1) % 4 == 0;
    }
  }

  /** The sizes strictly increase. */
  lemma {:induction false} SizesIncrease(i: nat, j: nat)
    requires i < j
    ensures SizeAt(i) < SizeAt(j)
  {
    NextSize(j - 1);
    if i + 1 < j {
      SizesIncrease(i, j - 1);
    }
  }

  /** Every power of two from 4096 up to the last size is measured. */
  lemma {:induction false} HitsPowers(ranges: seq<int>, k: nat)
    requires ranges != [] && forall i :: 0 <= i < |ranges| ==> ranges[i] == SizeAt(i)
    requires k >= 12 && Pow2(k) <= ranges[|ranges| - 1]
    ensures Pow2(k) in ranges
  {
    var i := 4 * (k - 12);
    assert i / 4 == k - 12 && i % 4 == 0;
    Octave(i);
    assert SizeAt(i) == Pow2(k);
    if i >= |ranges| {
      SizesIncrease(|ranges| - 1, i);
    }
    assert ranges[i] == Pow2(k);
  }

  /** The last size overshoots the maximum by less than a quarter. */
  lemma {:induction false} OvershootBound(ranges: seq<int>, maxRange: int)
    requires ranges != [] && forall i :: 0 <= i < |ranges| ==> ranges[i] == SizeAt(i)
    requires forall i :: 0 <= i < |ranges| - 1 ==> ranges[i] < maxRange
    requires maxRange > 4096
    ensures 4 * ranges[|ranges| - 1] < 5 * maxRange
  {
    var n := |ranges| - 1;
    if n == 0 {
      assert Pow2(12) == 4096 by {
        assert Pow2(6) == 64;
        Pow2Add(6, 6);
      }
      Octave(0);
    } else {
      NextSize(n - 1);
      Octave(n - 1);
    }
  }
}
