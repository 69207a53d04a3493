/**
 Intervals on the identifier ring of Sample4: identifiers are the numbers below
 max + 1 = 2^W, and an interval runs clockwise from one identifier to another.
 The tests of inc.cpp and inc.h compare numbers; here they are shown to decide
 clockwise distance for every ring size.
 */
module ChordRange {
  import opened RingArithmetic

  // ---- the tests, as the code writes them ----

  /** isInRangeOverZero; the sum max + to has eight spare bits, so it does not wrap. */
  predicate IsInRangeOverZero(max: nat, id: nat, from: nat, to: nat) {
    if from <= to then id >= from && id <= to
    else
      var maxValue := max + to;
      (id >= from && id <= maxValue) || (id >= from && id <= max) || (id >= 0 && id <= to)
  }

  /** isInRangeOverZeroNotInc. */
  predicate IsInRangeOverZeroNotInc(max: nat, id: nat, from: nat, to: nat) {
    if from < to then id > from && id < to
    else
      var maxValue := max + to;
      (id > from && id < maxValue) || (id > from && id <= max) || (id >= 0 && id < to)
  }

  /** A finger: the interval it is responsible for and the node found for it. */
  datatype Finger = Finger(id: nat, from: nat, to: nat, isClockWise: bool)

  /** node_address_latency::inRange. */
  predicate InRange(max: nat, f: Finger, id: nat) {
    if f.isClockWise then
      if f.from <= f.to then id >= f.from && id <= f.to
      else (id >= f.from && id <= max) || (id >= 0 && id <= f.to)
    else
      if f.from >= f.to then id >= f.to && id <= f.from
      else (id >= f.to && id <= max) || (id >= 0 && id <= f.from)
  }

  // ---- what they mean ----

  /** z lies on the clockwise way from a to b, both ends included. */
  predicate ClosedArc(n: nat, z: nat, a: nat, b: nat)
    requires z < n && a < n && b < n
  {
    Dist(n, a, z) <= Dist(n, a, b)
  }

  /** z lies strictly between a and b; from a to a itself that is the whole ring but a. */
  predicate OpenArc(n: nat, z: nat, a: nat, b: nat)
    requires z < n && a < n && b < n
  {
    0 < Dist(n, a, z) && (a == b || Dist(n, a, z) < Dist(n, a, b))
  }

  /** No node lies strictly between a and b. */
  ghost predicate Adjacent(n: nat, nodes: set<nat>, a: nat, b: nat) {
    && a < n && b < n && a in nodes && b in nodes
    && forall z <- nodes :: z < n ==> !OpenArc(n, z, a, b)
  }

  lemma RangeIsClosedArc(n: nat, id: nat, from: nat, to: nat)
    requires id < n && from < n && to < n
    ensures IsInRangeOverZero(n - 1, id, from, to) <==> ClosedArc(n, id, from, to)
  {
  }

  lemma RangeNotIncIsOpenArc(n: nat, id: nat, from: nat, to: nat)
    requires id < n && from < n && to < n
    ensures IsInRangeOverZeroNotInc(n - 1, id, from, to) <==> OpenArc(n, id, from, to)
  {
  }

  /** Clockwise fingers own [from; to]; counter-clockwise ones own [to; from]. */
  lemma InRangeIsClosedArc(n: nat, f: Finger, id: nat)
    requires id < n && f.from < n && f.to < n
    ensures InRange(n - 1, f, id) <==>
            if f.isClockWise then ClosedArc(n, id, f.from, f.to) else ClosedArc(n, id, f.to, f.from)
  {
  }

  // ---- the finger intervals set up by goStateInit ----

  /** The identifier d steps counter-clockwise of a. */
  function Minus(n: nat, a: nat, d: nat): (p: nat)
    requires a < n && d <= n
    ensures p < n
  {
    if a >= d then a - d else a + n - d
  }

  /** Finger i owns the offsets above 2^(i-1), up to 2^i. */
  function LowOffset(i: nat): nat {
    if i == 0 then 1 else Pow2(i - 1) + 1
  }

  /** The table for a ring of 2^w identifiers is right up to its length. */
  ghost predicate IntervalsOf(w: nat, id: nat, cw: bool, fingers: seq<Finger>) {
    var n := Pow2(w);
    && id < n && |fingers| <= w
    && forall i {:trigger fingers[i]} :: 0 <= i < |fingers| ==>
         && fingers[i].isClockWise == cw && fingers[i].id == id
         && LowOffset(i) <= n && Pow2(i) <= n
         && fingers[i].from == (if cw then Plus(n, id, LowOffset(i)) else Minus(n, id, LowOffset(i)))
         && fingers[i].to == (if cw then Plus(n, id, Pow2(i)) else Minus(n, id, Pow2(i)))
  }

  lemma OffsetsFit(w: nat, i: nat)
    requires i < w
    ensures 2 * Pow2(i) <= Pow2(w) && 1 <= LowOffset(i) <= Pow2(i)
  {
    Pow2StrictlyMonotone(i, w);
  }

  /** m_fingerMask of goStateInit. */
  method InitMask(size: nat) returns (mask: seq<nat>)
    ensures |mask| == size && forall i :: 0 <= i < size ==> mask[i] == Pow2(i)
  {
    hide Pow2;
    mask := [];
    for i := 0 to size
      invariant |mask| == i && forall k :: 0 <= k < i ==> mask[k] == Pow2(k)
    {
      if i == 0 {
        PowZero();
      } else {
        DoublePow(i - 1);
      }
      mask := mask + [if i == 0 then 1 else 2 * mask[i - 1]];
    }
  }

  /** One table of goStateInit: each interval starts next to where the previous one ended. */
  method InitFingers(w: nat, id: nat, mask: seq<nat>, cw: bool) returns (fingers: seq<Finger>)
    requires id < Pow2(w) && |mask| <= w && forall i :: 0 <= i < |mask| ==> mask[i] == Pow2(i)
    ensures |fingers| == |mask| && IntervalsOf(w, id, cw, fingers)
  {
    hide IntervalsOf, Pow2;
    var n := Pow2(w);
    fingers := [];
    NoIntervals(w, id, cw);
    for i := 0 to |mask|
      invariant |fingers| == i && IntervalsOf(w, id, cw, fingers)
    {
      NextInterval(w, id, cw, fingers);
      var last := if i == 0 then id else fingers[i - 1].to;
      var f := if cw then Plus(n, last, 1) else Minus(n, last, 1);
      var t := if cw then Plus(n, id, mask[i]) else Minus(n, id, mask[i]);
      fingers := fingers + [Finger(id, f, t, cw)];
    }
  }

  lemma NoIntervals(w: nat, id: nat, cw: bool)
    requires id < Pow2(w)
    ensures IntervalsOf(w, id, cw, [])
  {
  }

  /** The interval that extends the table by one finger. */
  lemma NextInterval(w: nat, id: nat, cw: bool, fingers: seq<Finger>)
    requires IntervalsOf(w, id, cw, fingers) && |fingers| < w && id < Pow2(w)
    ensures var n, i := Pow2(w), |fingers|;
            && 1 <= Pow2(i) <= n && 1 < n && (i > 0 ==> fingers[i - 1].to < n)
            && var last := if i == 0 then id else fingers[i - 1].to;
            var f := if cw then Plus(n, last, 1) else Minus(n, last, 1);
            var t := if cw then Plus(n, id, Pow2(i)) else Minus(n, id, Pow2(i));
            IntervalsOf(w, id, cw, fingers + [Finger(id, f, t, cw)])
  {
    hide Pow2;
    var n, i := Pow2(w), |fingers|;
    OffsetsFit(w, i);
    if i > 0 {
      OffsetsFit(w, i - 1);
      Pow2StrictlyMonotone(i - 1, i);
      NextOffset(n, id, Pow2(i - 1));
    }
    FirstOffset(w, i);
  }

  lemma FirstOffset(w: nat, i: nat)
    ensures i == 0 ==> Pow2(i) == 1
  {
  }

  lemma NextOffset(n: nat, id: nat, d: nat)
    requires id < n && d + 1 < n
    ensures Plus(n, Plus(n, id, d), 1) == Plus(n, id, d + 1)
    ensures Minus(n, Minus(n, id, d), 1) == Minus(n, id, d + 1)
  {
  }

  /** Finger i holds exactly the identifiers whose offset from the node is in its range. */
  lemma FingerOwns(w: nat, id: nat, cw: bool, fingers: seq<Finger>, i: nat, z: nat)
    requires IntervalsOf(w, id, cw, fingers) && i < |fingers| && z < Pow2(w)
    ensures var d := if cw then Dist(Pow2(w), id, z) else Dist(Pow2(w), z, id);
            InRange(Pow2(w) - 1, fingers[i], z) <==> LowOffset(i) <= d <= Pow2(i)
  {
    hide Pow2, LowOffset, InRange;
    OffsetsFit(w, i);
    InRangeIsClosedArc(Pow2(w), fingers[i], z);
    ArcOfOffsets(Pow2(w), id, LowOffset(i), Pow2(i), z);
  }

  lemma ArcOfOffsets(n: nat, id: nat, low: nat, high: nat, z: nat)
    requires id < n && z < n && 1 <= low <= high && 2 * high <= n
    ensures ClosedArc(n, z, Plus(n, id, low), Plus(n, id, high)) <==> low <= Dist(n, id, z) <= high
    ensures ClosedArc(n, z, Minus(n, id, high), Minus(n, id, low)) <==> low <= Dist(n, z, id) <= high
  {
  }

  lemma {:induction false} OneOffsetRange(size: nat, d: nat) returns (i: nat)
    requires 1 <= d && size >= 1 && d <= Pow2(size - 1)
    ensures i < size && LowOffset(i) <= d <= Pow2(i)
  {
    if size == 1 || d > Pow2(size - 2) {
      i := size - 1;
    } else {
      i := OneOffsetRange(size - 1, d);
    }
  }

  lemma OffsetRangesDisjoint(i: nat, k: nat, d: nat)
    requires i < k && LowOffset(i) <= d <= Pow2(i)
    ensures !(LowOffset(k) <= d <= Pow2(k))
  {
    hide Pow2;
    Pow2Order(i, k - 1);
  }

  /**
   The intervals tile the offsets 1 .. 2^(size-1): an identifier is in the range of
   some finger exactly if its offset is one of these, and never in the range of two.
   */
  lemma FingersTile(w: nat, id: nat, cw: bool, fingers: seq<Finger>, z: nat)
    requires IntervalsOf(w, id, cw, fingers) && |fingers| >= 1 && z < Pow2(w)
    ensures var d := if cw then Dist(Pow2(w), id, z) else Dist(Pow2(w), z, id);
            (exists i :: 0 <= i < |fingers| && InRange(Pow2(w) - 1, fingers[i], z)) <==> 1 <= d <= Pow2(|fingers| - 1)
    ensures forall i, k :: 0 <= i < k < |fingers| && InRange(Pow2(w) - 1, fingers[i], z)
                           ==> !InRange(Pow2(w) - 1, fingers[k], z)
  {
    hide Pow2, LowOffset, InRange;
    var d := if cw then Dist(Pow2(w), id, z) else Dist(Pow2(w), z, id);
    forall i: nat, k: nat | i < k < |fingers| && InRange(Pow2(w) - 1, fingers[i], z)
      ensures !InRange(Pow2(w) - 1, fingers[k], z)
    {
      FingerOwns(w, id, cw, fingers, i, z);
      FingerOwns(w, id, cw, fingers, k, z);
      OffsetRangesDisjoint(i, k, d);
    }
    if 1 <= d <= Pow2(|fingers| - 1) {
      var i := OneOffsetRange(|fingers|, d);
      FingerOwns(w, id, cw, fingers, i, z);
    }
    if i: nat :| i < |fingers| && InRange(Pow2(w) - 1, fingers[i], z) {
      FingerOwns(w, id, cw, fingers, i, z);
      OffsetsFit(w, i);
      Pow2Order(i, |fingers| - 1);
    }
  }
}
