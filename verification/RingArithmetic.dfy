/**
 Arithmetic shared by the ring of Sample2/Sample3 (n numbered nodes) and by the
 Chord ring of Sample4 (2^W identifiers): powers of two, the top bit of a
 distance, its number of one bits, and clockwise distance on a ring of n points.
 */
module RingArithmetic {

  function Pow2(k: nat): (p: nat)
    ensures p >= 1
  {
    if k == 0 then 1 else 2 * Pow2(k - 1)
  }

  lemma {:induction false} Pow2StrictlyMonotone(a: nat, b: nat)
    requires a < b
    ensures 2 * Pow2(a) <= Pow2(b)
  {
    if a + 1 < b {
      Pow2StrictlyMonotone(a, b - 1);
    }
  }

  lemma Pow2Order(a: nat, b: nat)
    ensures a <= b <==> Pow2(a) <= Pow2(b)
  {
    if a < b {
      Pow2StrictlyMonotone(a, b);
    } else if b < a {
      Pow2StrictlyMonotone(b, a);
    }
  }

  lemma PowZero()
    ensures Pow2(0) == 1
  {
  }

  lemma DoublePow(k: nat)
    ensures Pow2(k + 1) == 2 * Pow2(k)
  {
  }

  /** The position of the top one bit of d. */
  function FloorLog2(d: nat): (f: nat)
    requires d >= 1
    ensures Pow2(f) <= d < Pow2(f + 1)
  {
    if d == 1 then 0 else 1 + FloorLog2(d / 2)
  }

  /** Pow2(f) <= d < Pow2(f + 1) determines f. */
  lemma FloorLog2Unique(d: nat, f: nat)
    requires d >= 1
    requires Pow2(f) <= d < Pow2(f + 1)
    ensures f == FloorLog2(d)
  {
    var g := FloorLog2(d);
    if f < g {
      Pow2Order(f + 1, g);
    } else if g < f {
      Pow2Order(g + 1, f);
    }
  }

  /** The number of one bits of d. */
  function PopCount(d: nat): nat {
    if d == 0 then 0 else d % 2 + PopCount(d / 2)
  }

  /** Halving shifts the top bit down. */
  lemma TopBitOfHalf(d: nat)
    requires d > 1
    ensures FloorLog2(d) > 0 && FloorLog2(d / 2) == FloorLog2(d) - 1
    ensures Pow2(FloorLog2(d)) == 2 * Pow2(FloorLog2(d) - 1) <= d
  {
    assert Pow2(0) == 1 && Pow2(1) == 2;
  }

  lemma HalfOf(d: nat, h: nat)
    requires 2 * h <= d
    ensures (d - 2 * h) / 2 == d / 2 - h && (d - 2 * h) % 2 == d % 2
  {
  }

  lemma PopCountHalf(d: nat)
    ensures PopCount(d) == d % 2 + PopCount(d / 2)
  {
  }

  lemma PopCountOne()
    ensures FloorLog2(1) == 0 && Pow2(0) == 1 && PopCount(1) == 1 && PopCount(0) == 0
  {
    assert Pow2(1) == 2;
  }

  /** Clearing the top bit clears exactly one bit. */
  lemma {:induction false} PopCountTopBit(d: nat)
    requires d >= 1
    ensures PopCount(d) == 1 + PopCount(d - Pow2(FloorLog2(d)))
  {
    hide Pow2, FloorLog2, PopCount;
    if d == 1 {
      PopCountOne();
    } else {
      TopBitOfHalf(d);
      var h := Pow2(FloorLog2(d) - 1);
      PopCountTopBit(d / 2);
      HalfOf(d, h);
      PopCountHalf(d);
      PopCountHalf(d - 2 * h);
    }
  }

  lemma {:induction false} PopCountAtMost(d: nat, k: nat)
    requires d < Pow2(k)
    ensures PopCount(d) <= k
  {
    if d > 0 {
      assert k > 0;
      PopCountAtMost(d / 2, k - 1);
    }
  }

  // ---- points on a ring of n points, numbered 0 .. n-1 ----

  /** The point d steps clockwise of a. */
  function Plus(n: nat, a: nat, d: nat): (p: nat)
    requires a < n && d <= n
    ensures p < n
  {
    if a + d < n then a + d else a + d - n
  }

  /** How many steps clockwise lead from a to b. */
  function Dist(n: nat, a: nat, b: nat): (d: nat)
    requires a < n && b < n
    ensures d < n
    ensures d == 0 <==> a == b
  {
    if a <= b then b - a else b - a + n
  }

  lemma DistPlus(n: nat, a: nat, d: nat)
    requires a < n && d < n
    ensures Dist(n, a, Plus(n, a, d)) == d
  {
  }

  lemma PlusDist(n: nat, a: nat, b: nat)
    requires a < n && b < n
    ensures Plus(n, a, Dist(n, a, b)) == b
  {
  }

  /** The remainder the code takes, for an argument below 2n. */
  lemma ModOnce(n: nat, x: nat)
    requires x < 2 * n
    ensures x % n == if x < n then x else x - n
  {
    if x >= n {
      var q := x / n;
      assert x == q * n + x % n;
      assert (q - 1) * n == q * n - n;
      assert q >= 2 ==> (q - 2) * n >= 0;
    }
  }
}
