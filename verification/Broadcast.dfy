/**
 The broadcast of Snode::ForwardBlock (the balanced tree of Huang and Zhang): a
 block that reaches a node is copied to at most two of its fingers, and the token
 it carries selects which two.

 The proof looks at nodes by their clockwise offset from the source. The offsets
 0 .. n-1 form one fixed binary tree; forwarding sends a block to exactly the tree
 children that exist on a ring of n nodes.
 */
module Broadcast {
  import opened RingArithmetic
  import opened Sums

  datatype BlockType = K | ShRq | ShPn | LB | MSgn | M

  /** P is the receiver, R the source, token is -1 for a unicast block. */
  datatype RoutingBlock = RoutingBlock(P: nat, R: nat, token: int, bt: BlockType)

  // ---- the code ----

  /** How many fingers a node of an n-ring has: the powers of two below n. */
  function FingerCount(n: nat): nat {
    if n <= 1 then 0 else FloorLog2(n - 1) + 1
  }

  lemma FingerCountIs(n: nat, k: nat)
    ensures k < FingerCount(n) <==> Pow2(k) < n
  {
    if n > 1 {
      Pow2Order(k, FingerCount(n) - 1);
      Pow2Order(FingerCount(n), k);
    }
  }

  function Finger(n: nat, number: nat, k: nat): nat
    requires number < n && k < FingerCount(n)
  {
    FingerCountIs(n, k);
    Plus(n, number, Pow2(k))
  }

  /** The interval test of ForwardBlock: fd lies in P--->R, or P is the source. */
  predicate InTheArc(P: nat, R: nat, fd: nat) {
    (P < R && P < fd && fd < R) || (P > R && (P < fd || fd < R)) || P == R
  }

  /** What ForwardBlock sends from node `number`. */
  function Forward(n: nat, number: nat, rb: RoutingBlock): seq<RoutingBlock>
    requires number < n && 0 <= rb.token
  {
    if rb.token >= FingerCount(n) then []
    else
      ForwardTo(n, number, rb, rb.token) +
      (if rb.token + 1 < FingerCount(n) then ForwardTo(n, number, rb, rb.token + 1) else [])
  }

  function ForwardTo(n: nat, number: nat, rb: RoutingBlock, k: nat): seq<RoutingBlock>
    requires number < n && k < FingerCount(n)
  {
    var fd := Finger(n, number, k);
    if InTheArc(rb.P, rb.R, fd) then [RoutingBlock(fd, rb.R, rb.token + 1, rb.bt)] else []
  }

  // ---- the tree ----

  /** Offset o is on level Depth(o), which holds the offsets 2^t-1 .. 2^(t+1)-2. */
  ghost function Depth(o: nat): (t: nat)
    ensures Pow2(t) - 1 <= o <= 2 * Pow2(t) - 2
  {
    var f := FloorLog2(o + 1);
    assert Pow2(f) - 1 <= o <= 2 * Pow2(f) - 2;
    var t: nat :| Pow2(t) - 1 <= o <= 2 * Pow2(t) - 2;
    t
  }

  lemma DepthUnique(o: nat, t: nat)
    requires Pow2(t) - 1 <= o <= 2 * Pow2(t) - 2
    ensures Depth(o) == t
  {
    FloorLog2Unique(o + 1, t);
    FloorLog2Unique(o + 1, Depth(o));
  }

  ghost function Parent(o: nat): (p: nat)
    requires o > 0
    ensures p < o
    ensures Depth(p) == Depth(o) - 1
    ensures o == p + Pow2(Depth(p)) || o == p + Pow2(Depth(p) + 1)
  {
    var t := Depth(o);
    assert t > 0;
    var half := Pow2(t - 1);
    var p := if o - half < 2 * half - 1 then o - half else o - 2 * half;
    DepthUnique(p, t - 1);
    p
  }

  /** a is o or an ancestor of o: the block that reaches a is the one that will serve o. */
  ghost predicate Above(a: nat, o: nat) {
    a == o || (o > 0 && Above(a, Parent(o)))
  }

  lemma ChildrenOf(o: nat)
    ensures var t := Depth(o);
            Depth(o + Pow2(t)) == t + 1 && Depth(o + Pow2(t + 1)) == t + 1 &&
            Parent(o + Pow2(t)) == o && Parent(o + Pow2(t + 1)) == o
  {
    var t := Depth(o);
    DepthUnique(o + Pow2(t), t + 1);
    DepthUnique(o + Pow2(t + 1), t + 1);
  }

  lemma {:induction false} AboveIsSmaller(a: nat, o: nat)
    requires Above(a, o)
    ensures a <= o
  {
    if a != o {
      AboveIsSmaller(a, Parent(o));
    }
  }

  lemma {:induction false} RootIsAbove(o: nat)
    ensures Above(0, o)
  {
    if o > 0 {
      RootIsAbove(Parent(o));
    }
  }

  lemma {:induction false} AboveParent(a: nat, o: nat)
    requires a > 0 && Above(a, o)
    ensures Above(Parent(a), o)
  {
    if a != o {
      AboveParent(a, Parent(o));
    }
  }

  /** Ancestors of the same offset on the same level are the same. */
  lemma {:induction false} AboveSameLevel(a: nat, b: nat, o: nat)
    requires Above(a, o) && Above(b, o) && Depth(a) == Depth(b)
    ensures a == b
  {
    AboveDepth(a, o);
    AboveDepth(b, o);
    if a != o && b != o {
      AboveSameLevel(a, b, Parent(o));
    }
  }

  lemma {:induction false} AboveDepth(a: nat, o: nat)
    requires Above(a, o)
    ensures Depth(a) <= Depth(o)
    ensures Depth(a) == Depth(o) ==> a == o
  {
    if a != o {
      AboveDepth(a, Parent(o));
    }
  }

  /**
   Below o lie o itself and what lies below exactly one of its two children.
   */
  lemma {:induction false} AboveSplits(o: nat, v: nat)
    ensures var c1, c2 := o + Pow2(Depth(o)), o + Pow2(Depth(o) + 1);
            (if Above(o, v) then 1 else 0)
            == (if v == o then 1 else 0) + (if Above(c1, v) then 1 else 0) + (if Above(c2, v) then 1 else 0)
  {
    var c1, c2 := o + Pow2(Depth(o)), o + Pow2(Depth(o) + 1);
    ChildrenOf(o);
    if Above(c1, v) && Above(c2, v) {
      AboveSameLevel(c1, c2, v);
      assert false;
    }
    if Above(c1, v) {
      AboveParent(c1, v);
      AboveIsSmaller(c1, v);
    }
    if Above(c2, v) {
      AboveParent(c2, v);
      AboveIsSmaller(c2, v);
    }
    if Above(o, v) && v != o {
      if Parent(v) == o {
        assert v == c1 || v == c2;
      } else {
        AboveSplits(o, Parent(v));
        AboveIsSmaller(o, Parent(v));
      }
    }
  }

  // ---- the code follows the tree ----

  function Offset(n: nat, rb: RoutingBlock): nat
    requires rb.P < n && rb.R < n
  {
    Dist(n, rb.R, rb.P)
  }

  /** A block of a broadcast on its way: its token is the level of its receiver. */
  ghost predicate OnTree(n: nat, rb: RoutingBlock) {
    rb.P < n && rb.R < n && rb.token == Depth(Offset(n, rb))
  }

  /** The block for the node at offset c, if the ring has such a node. */
  function ChildBlock(n: nat, rb: RoutingBlock, c: nat): seq<RoutingBlock>
    requires rb.R < n
  {
    if c < n then [RoutingBlock(Plus(n, rb.R, c), rb.R, rb.token + 1, rb.bt)] else []
  }

  lemma ForwardToIsChild(n: nat, rb: RoutingBlock, k: nat)
    requires rb.P < n && rb.R < n && k < FingerCount(n)
    ensures ForwardTo(n, rb.P, rb, k) == ChildBlock(n, rb, Offset(n, rb) + Pow2(k))
  {
    FingerCountIs(n, k);
  }

  /**
   The range and token cut-offs prune only empty subtrees: ForwardBlock sends
   exactly to the tree children with an offset below n, each on the next level.
   */
  lemma ForwardIsChildren(n: nat, rb: RoutingBlock)
    requires OnTree(n, rb)
    ensures var o := Offset(n, rb);
            Forward(n, rb.P, rb) == ChildBlock(n, rb, o + Pow2(Depth(o))) + ChildBlock(n, rb, o + Pow2(Depth(o) + 1))
  {
    var t := Depth(Offset(n, rb));
    FingerCountIs(n, t);
    FingerCountIs(n, t + 1);
    if t < FingerCount(n) {
      ForwardToIsChild(n, rb, t);
    }
    if t + 1 < FingerCount(n) {
      ForwardToIsChild(n, rb, t + 1);
      Pow2Order(t, t + 1);
    }
  }

  /** A forwarded block is again on the tree, one level down, and never returns to the source. */
  lemma ForwardStaysOnTree(n: nat, rb: RoutingBlock, b: RoutingBlock)
    requires OnTree(n, rb) && b in Forward(n, rb.P, rb)
    ensures OnTree(n, b) && b.R == rb.R && b.bt == rb.bt && b.P != b.R && b.token == rb.token + 1
  {
    hide Forward, ChildBlock, Pow2;
    var o := Offset(n, rb);
    var c1, c2 := o + Pow2(Depth(o)), o + Pow2(Depth(o) + 1);
    ForwardIsChildren(n, rb);
    ChildrenOf(o);
    ChildBlockOnTree(n, rb, if b in ChildBlock(n, rb, c1) then c1 else c2, b);
  }

  lemma ChildBlockOnTree(n: nat, rb: RoutingBlock, c: nat, b: RoutingBlock)
    requires rb.R < n && c > 0 && rb.token == Depth(c) - 1 && b in ChildBlock(n, rb, c)
    ensures OnTree(n, b) && b.R == rb.R && b.bt == rb.bt && b.P != b.R && b.token == rb.token + 1
  {
    DistPlus(n, rb.R, c);
  }

  /** Whether a block on its way will serve the node at offset v. */
  ghost function Serves(n: nat, v: nat): RoutingBlock -> nat {
    (rb: RoutingBlock) => if rb.P < n && rb.R < n && Above(Offset(n, rb), v) then 1 else 0
  }

  lemma ChildServes(n: nat, rb: RoutingBlock, c: nat, v: nat)
    requires rb.R < n && v < n
    ensures Sum(Serves(n, v), ChildBlock(n, rb, c)) == if Above(c, v) then 1 else 0
  {
    if c < n {
      DistPlus(n, rb.R, c);
    } else if Above(c, v) {
      AboveIsSmaller(c, v);
      assert false;
    }
  }

  lemma ChildrenServe(n: nat, rb: RoutingBlock, c1: nat, c2: nat, v: nat)
    requires rb.R < n && v < n
    ensures Sum(Serves(n, v), ChildBlock(n, rb, c1) + ChildBlock(n, rb, c2))
            == (if Above(c1, v) then 1 else 0) + (if Above(c2, v) then 1 else 0)
  {
    SumAppend(Serves(n, v), ChildBlock(n, rb, c1), ChildBlock(n, rb, c2));
    ChildServes(n, rb, c1, v);
    ChildServes(n, rb, c2, v);
  }

  /** What a node forwards serves everything below it but the node itself, each once. */
  lemma ForwardServes(n: nat, rb: RoutingBlock, v: nat)
    requires OnTree(n, rb) && v < n
    ensures Sum(Serves(n, v), Forward(n, rb.P, rb)) + (if v == Offset(n, rb) then 1 else 0) == Serves(n, v)(rb)
  {
    hide Sum, Forward, ChildBlock, Above, Pow2;
    var o := Offset(n, rb);
    var c1, c2 := o + Pow2(Depth(o)), o + Pow2(Depth(o) + 1);
    ForwardIsChildren(n, rb);
    ChildrenServe(n, rb, c1, c2, v);
    AboveSplits(o, v);
  }

  // ---- every run of one broadcast, with any delivery order ----

  /** got lists the receivers in order, net holds the blocks in flight, sends counts SendBlock calls. */
  datatype Cast = Cast(got: seq<nat>, net: seq<RoutingBlock>, sends: nat)

  function Start(n: nat, r: nat, bt: BlockType): Cast
    requires r < n
  {
    var out := Forward(n, r, RoutingBlock(r, r, 0, bt));
    Cast([r], out, |out|)
  }

  /** The i-th block in flight reaches its receiver, which forwards and processes it. */
  function Deliver(n: nat, c: Cast, i: nat): Cast
    requires i < |c.net| && c.net[i].P < n && 0 <= c.net[i].token
  {
    var rb := c.net[i];
    var out := Forward(n, rb.P, rb);
    Cast(c.got + [rb.P], RemoveAt(c.net, i) + out, c.sends + |out|)
  }

  ghost predicate Step(n: nat, c: Cast, c': Cast) {
    exists i: nat :: i < |c.net| && c.net[i].P < n && 0 <= c.net[i].token && c' == Deliver(n, c, i)
  }

  /** run is a sequence of states that starts with the broadcast and delivers one block per step. */
  ghost predicate Run(n: nat, r: nat, bt: BlockType, run: seq<Cast>)
    requires r < n
  {
    && |run| > 0
    && run[0] == Start(n, r, bt)
    && forall j :: 0 <= j < |run| - 1 ==> Step(n, run[j], run[j + 1])
  }

  ghost predicate CastInv(n: nat, r: nat, c: Cast)
    requires r < n
  {
    && (forall b <- c.net :: OnTree(n, b) && b.R == r && b.P != r)
    && (forall g <- c.got :: g < n)
    && c.sends + 1 == |c.got| + |c.net|
    && forall v: nat :: v < n ==> multiset(c.got)[v] + Sum(Serves(n, Dist(n, r, v)), c.net) == 1
  }

  lemma StartInv(n: nat, r: nat, bt: BlockType)
    requires r < n
    ensures CastInv(n, r, Start(n, r, bt))
  {
    var rb := RoutingBlock(r, r, 0, bt);
    DepthUnique(0, 0);
    var out := Forward(n, r, rb);
    forall b | b in out ensures OnTree(n, b) && b.R == r && b.P != r {
      ForwardStaysOnTree(n, rb, b);
    }
    forall v: nat | v < n
      ensures multiset([r])[v] + Sum(Serves(n, Dist(n, r, v)), out) == 1
    {
      ForwardServes(n, rb, Dist(n, r, v));
      RootIsAbove(Dist(n, r, v));
    }
  }

  lemma DeliverInv(n: nat, r: nat, c: Cast, i: nat)
    requires r < n && CastInv(n, r, c) && i < |c.net|
    ensures CastInv(n, r, Deliver(n, c, i))
  {
    var rb := c.net[i];
    var out := Forward(n, rb.P, rb);
    forall b | b in RemoveAt(c.net, i) + out ensures OnTree(n, b) && b.R == r && b.P != r {
      if b in out {
        ForwardStaysOnTree(n, rb, b);
      }
    }
    forall v: nat | v < n
      ensures multiset(c.got + [rb.P])[v] + Sum(Serves(n, Dist(n, r, v)), RemoveAt(c.net, i) + out) == 1
    {
      var o := Dist(n, r, v);
      SumDeliver(Serves(n, o), c.net, i, out);
      ForwardServes(n, rb, o);
      PlusDist(n, r, v);
      PlusDist(n, r, rb.P);
    }
  }

  lemma {:induction false} RunInv(n: nat, r: nat, bt: BlockType, run: seq<Cast>)
    requires r < n && Run(n, r, bt, run)
    ensures CastInv(n, r, run[|run| - 1])
  {
    if |run| == 1 {
      StartInv(n, r, bt);
    } else {
      var c := run[|run| - 2];
      RunInv(n, r, bt, run[..|run| - 1]);
      assert Step(n, c, run[|run| - 2 + 1]);
      var i: nat :| i < |c.net| && c.net[i].P < n && 0 <= c.net[i].token && run[|run| - 1] == Deliver(n, c, i);
      DeliverInv(n, r, c, i);
    }
  }

  /**
   For every ring size, source and delivery order: no node ever receives the
   broadcast twice, the run has at most n-1 deliveries, every node still waiting
   is served by exactly one block in flight, and a block with token t is on its
   way to an offset between 2^t-1 and 2^(t+1)-2, so t is at most log2 n.
   */
  lemma BroadcastSafety(n: nat, r: nat, bt: BlockType, run: seq<Cast>)
    requires r < n && Run(n, r, bt, run)
    ensures var c := run[|run| - 1];
            && (forall v: nat :: v < n ==> multiset(c.got)[v] <= 1)
            && |run| <= n
            && (forall v: nat :: v < n ==> (v in c.got <==> Sum(Serves(n, Dist(n, r, v)), c.net) == 0))
            && (forall b <- c.net :: b.token >= 0 && OnTree(n, b)
                  && Pow2(b.token) - 1 <= Offset(n, b) <= Pow2(b.token + 1) - 2 && Pow2(b.token) <= n)
  {
    RunInv(n, r, bt, run);
    var c := run[|run| - 1];
    GotCounts(n, r, bt, run);
    CountBelow(c.got, n);
  }

  lemma {:induction false} GotCounts(n: nat, r: nat, bt: BlockType, run: seq<Cast>)
    requires r < n && Run(n, r, bt, run)
    ensures |run[|run| - 1].got| == |run|
  {
    if |run| > 1 {
      GotCounts(n, r, bt, run[..|run| - 1]);
      assert Step(n, run[|run| - 2], run[|run| - 2 + 1]);
    }
  }

  /**
   When nothing is in flight any more, every node has received the broadcast
   exactly once and exactly n-1 blocks were sent.
   */
  lemma BroadcastCompletes(n: nat, r: nat, bt: BlockType, run: seq<Cast>)
    requires r < n && Run(n, r, bt, run) && run[|run| - 1].net == []
    ensures var c := run[|run| - 1];
            (forall v: nat :: v < n ==> multiset(c.got)[v] == 1) && c.sends == n - 1 && |run| == n
  {
    RunInv(n, r, bt, run);
    GotCounts(n, r, bt, run);
    var c := run[|run| - 1];
    forall v: nat | v < n ensures multiset(c.got)[v] == 1 {
      assert Sum(Serves(n, Dist(n, r, v)), c.net) == 0;
    }
    CountBelow(c.got, n);
  }

  /** A run that still has a block in flight can go on. */
  lemma BroadcastProgress(n: nat, r: nat, bt: BlockType, run: seq<Cast>)
    requires r < n && Run(n, r, bt, run) && run[|run| - 1].net != []
    ensures exists c :: Run(n, r, bt, run + [c])
  {
    RunInv(n, r, bt, run);
    var c := run[|run| - 1];
    assert c.net[0] in c.net;
    var c' := Deliver(n, c, 0);
    assert Step(n, c, c');
    var longer := run + [c'];
    assert Run(n, r, bt, longer);
  }
}
