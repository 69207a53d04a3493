/**
 An S node of Sample2 as an object, with its flags, its finger table and its delayed
 blocks. The methods are proved to do what the functions of Agreement, Broadcast and
 Routing say; latencies are arbitrary.
 */
module SnodeObject {
  import opened RingArithmetic
  import opened Sums
  import opened Broadcast
  import opened Routing
  import opened Agreement
  import opened SnodeSteps

  /** An entry of delayed_k or delayed_lb: due time and A node. */
  datatype DelayedA = DelayedA(time: nat, to: nat)

  /** An entry of delayed_r: due time, S node and block. */
  datatype DelayedR = DelayedR(time: nat, packet: Packet)

  datatype Delivery = ToK(a: nat) | ToLB(a: nat) | ToR(p: Packet)

  function Times(ds: seq<DelayedA>): multiset<nat> {
    if ds == [] then multiset{} else Times(ds[..|ds| - 1]) + multiset{ds[|ds| - 1].time}
  }

  function TimesR(ds: seq<DelayedR>): multiset<nat> {
    if ds == [] then multiset{} else TimesR(ds[..|ds| - 1]) + multiset{ds[|ds| - 1].time}
  }

  function PacketsOf(ds: seq<DelayedR>): (ps: seq<Packet>)
    ensures |ps| == |ds|
  {
    seq(|ds|, i requires 0 <= i < |ds| => ds[i].packet)
  }

  lemma {:induction false} TimesHas(ds: seq<DelayedA>, t: nat)
    ensures t in Times(ds) <==> exists i :: 0 <= i < |ds| && ds[i].time == t
  {
    if ds != [] {
      TimesHas(ds[..|ds| - 1], t);
      assert ds == ds[..|ds| - 1] + [ds[|ds| - 1]];
    }
  }

  lemma {:induction false} TimesRHas(ds: seq<DelayedR>, t: nat)
    ensures t in TimesR(ds) <==> exists i :: 0 <= i < |ds| && ds[i].time == t
  {
    if ds != [] {
      TimesRHas(ds[..|ds| - 1], t);
      assert ds == ds[..|ds| - 1] + [ds[|ds| - 1]];
    }
  }

  lemma TimesStep(ds: seq<DelayedA>)
    requires ds != []
    ensures Times(ds) == Times(ds[..|ds| - 1]) + multiset{ds[|ds| - 1].time}
  {
  }

  lemma TimesRStep(ds: seq<DelayedR>)
    requires ds != []
    ensures TimesR(ds) == TimesR(ds[..|ds| - 1]) + multiset{ds[|ds| - 1].time}
  {
  }

  lemma {:induction false} TimesRemove(ds: seq<DelayedA>, i: nat)
    requires i < |ds|
    ensures Times(ds) == Times(RemoveAt(ds, i)) + multiset{ds[i].time}
  {
    hide Times;
    var n, r := |ds| - 1, RemoveAt(ds, i);
    TimesStep(ds);
    if i == n {
      assert r == ds[..n];
    } else {
      TimesRemove(ds[..n], i);
      assert r[..|r| - 1] == RemoveAt(ds[..n], i) && r[|r| - 1] == ds[n];
      TimesStep(r);
    }
  }

  lemma {:induction false} TimesRRemove(ds: seq<DelayedR>, i: nat)
    requires i < |ds|
    ensures TimesR(ds) == TimesR(RemoveAt(ds, i)) + multiset{ds[i].time}
  {
    hide TimesR;
    var n, r := |ds| - 1, RemoveAt(ds, i);
    TimesRStep(ds);
    if i == n {
      assert r == ds[..n];
    } else {
      TimesRRemove(ds[..n], i);
      assert r[..|r| - 1] == RemoveAt(ds[..n], i) && r[|r| - 1] == ds[n];
      TimesRStep(r);
    }
  }

  /** The pending notifications are exactly the due times of the delayed blocks. */
  ghost predicate Balanced(k: seq<DelayedA>, lb: seq<DelayedA>, r: seq<DelayedR>, eq: multiset<nat>) {
    Times(k) + Times(lb) + TimesR(r) == eq
  }

  lemma NothingDelayed()
    ensures Balanced([], [], [], multiset{}) && PacketsOf([]) == []
  {
  }

  lemma BalancedAdd(k: seq<DelayedA>, lb: seq<DelayedA>, r: seq<DelayedR>, eq: multiset<nat>, a: DelayedA, p: DelayedR)
    requires Balanced(k, lb, r, eq)
    ensures Balanced(k + [a], lb, r, eq + multiset{a.time})
    ensures Balanced(k, lb + [a], r, eq + multiset{a.time})
    ensures Balanced(k, lb, r + [p], eq + multiset{p.time})
  {
    hide Times, TimesR;
    AddTime(k, a);
    AddTime(lb, a);
    AddTimeR(r, p);
  }

  lemma AddTime(ds: seq<DelayedA>, d: DelayedA)
    ensures Times(ds + [d]) == Times(ds) + multiset{d.time}
  {
    assert (ds + [d])[..|ds|] == ds;
  }

  lemma AddTimeR(ds: seq<DelayedR>, d: DelayedR)
    ensures TimesR(ds + [d]) == TimesR(ds) + multiset{d.time}
  {
    assert (ds + [d])[..|ds|] == ds;
  }

  lemma BalancedRemoveK(k: seq<DelayedA>, lb: seq<DelayedA>, r: seq<DelayedR>, eq: multiset<nat>, i: nat)
    requires Balanced(k, lb, r, eq) && i < |k|
    ensures Balanced(RemoveAt(k, i), lb, r, eq - multiset{k[i].time})
  {
    hide Times, TimesR;
    TimesRemove(k, i);
  }

  lemma BalancedRemoveLB(k: seq<DelayedA>, lb: seq<DelayedA>, r: seq<DelayedR>, eq: multiset<nat>, i: nat)
    requires Balanced(k, lb, r, eq) && i < |lb|
    ensures Balanced(k, RemoveAt(lb, i), r, eq - multiset{lb[i].time})
  {
    hide Times, TimesR;
    TimesRemove(lb, i);
  }

  lemma BalancedRemoveR(k: seq<DelayedA>, lb: seq<DelayedA>, r: seq<DelayedR>, eq: multiset<nat>, i: nat)
    requires Balanced(k, lb, r, eq) && i < |r|
    ensures Balanced(k, lb, RemoveAt(r, i), eq - multiset{r[i].time})
  {
    hide Times, TimesR;
    TimesRRemove(r, i);
  }

  /** A pending notification has a block that is due then. */
  lemma BalancedFinds(k: seq<DelayedA>, lb: seq<DelayedA>, r: seq<DelayedR>, eq: multiset<nat>, t: nat)
    requires Balanced(k, lb, r, eq) && t in eq
    ensures t in Times(k) || t in Times(lb) || t in TimesR(r)
  {
    hide Times, TimesR;
  }

  lemma BalancedHolds(k: seq<DelayedA>, lb: seq<DelayedA>, r: seq<DelayedR>, eq: multiset<nat>)
    requires Balanced(k, lb, r, eq)
    ensures (forall d <- k + lb :: d.time in eq) && forall d <- r :: d.time in eq
  {
    hide Times, TimesR;
    forall d | d in k + lb ensures d.time in eq {
      TimesHas(k, d.time);
      TimesHas(lb, d.time);
    }
    forall d | d in r ensures d.time in eq {
      TimesRHas(r, d.time);
    }
  }

  /** The A nodes that delayed blocks are meant for. */
  function Receivers(ds: seq<DelayedA>): (to: seq<nat>)
    ensures |to| == |ds|
  {
    seq(|ds|, i requires 0 <= i < |ds| => ds[i].to)
  }

  lemma ReceiversAdd(ds: seq<DelayedA>, d: DelayedA)
    ensures Receivers(ds + [d]) == Receivers(ds) + [d.to]
  {
  }

  /** The finger table of a node on a ring of n nodes. */
  function FingerTable(n: nat, number: nat): seq<nat>
    requires number < n
  {
    seq(FingerCount(n), k requires 0 <= k < FingerCount(n) => Finger(n, number, k))
  }

  /** Rings for which no index computation overflows 32-bit integers. */
  predicate Fits(n: nat) {
    n <= 0x4000_0000
  }

  const MAX_INT := 0x7fff_ffff

  /** Every one-time action that waits for K has been done. */
  predicate DoneOnK(c: Config, nd: Node) {
    && (nd.number == c.w ==> nd.broadK) && (nd.gotK ==> nd.sentK)
    && (nd.number == c.leader && nd.gotK ==> nd.sentShrq)
  }

  /** And every one that waits for the exchange with S1 or for LB. */
  predicate DoneOnAnswer(c: Config, nd: Node) {
    && (nd.number == c.s1 && nd.gotK && nd.gotShrq ==> nd.sentShpn)
    && (nd.number == c.leader && nd.gotK && nd.gotShpn ==> nd.broadLB)
    && (nd.gotLB ==> nd.sentLB)
  }

  /** A node of the transition system that main would let sleep. */
  predicate Sleeps(c: Config, nd: Node) {
    DoneOnK(c, nd) && DoneOnAnswer(c, nd) && nd.msgn == 0
  }

  /** The actions that main performs for node v. */
  predicate MainActs(act: Action, v: nat) {
    match act
    case BroadK(u) => u == v
    case SendK(u) => u == v
    case SendShrq(u) => u == v
    case SendShpn(u) => u == v
    case BroadLB(u) => u == v
    case SendLB(u) => u == v
    case TakeMsgn(u) => u == v
    case _ => false
  }

  /** main lets a node sleep exactly when the transition system has no action for it. */
  lemma SleepsIsDisabled(c: Config, s: State, v: nat)
    requires ValidConfig(c) && Shape(c, s) && v < c.snum
    ensures Sleeps(c, s.nodes[v]) <==> forall act :: MainActs(act, v) ==> !Enabled(c, s, act)
  {
    hide PacketOk;
    if forall act :: MainActs(act, v) ==> !Enabled(c, s, act) {
      assert MainActs(BroadK(v), v) && MainActs(SendK(v), v) && MainActs(SendShrq(v), v) && MainActs(SendShpn(v), v);
      assert MainActs(BroadLB(v), v) && MainActs(SendLB(v), v) && MainActs(TakeMsgn(v), v);
    }
  }

  /** Any latency. */
  method RandomLatency() returns (lat: nat) {
    lat := *;
  }

  /** How many of the blocks waiting have been read after k blocks were queued: one after the 1st, 21st, 41st and so on. */
  function Looked(k: nat, waiting: nat): (r: nat)
    ensures r <= waiting
  {
    if (k + 19) / 20 <= waiting then (k + 19) / 20 else waiting
  }

  lemma LookedAtFirst(waiting: nat)
    ensures Looked(0, waiting) == 0
  {
  }

  lemma LookedNext(waiting: nat, k: nat)
    ensures Looked(k + 1, waiting)
            == if k % 20 == 0 && Looked(k, waiting) < waiting then Looked(k, waiting) + 1 else Looked(k, waiting)
  {
    var q := k / 20;
    assert k == 20 * q + k % 20;
    if k % 20 == 0 {
      assert (k + 19) / 20 == q && (k + 1 + 19) / 20 == q + 1;
    } else {
      assert (k + 19) / 20 == q + 1 && (k + 1 + 19) / 20 == q + 1;
    }
  }

  class Snode {
    const c: Config
    const number: nat
    const connAs: seq<nat>
    var fingers: seq<nat>
    var broadK: bool
    var gotK: bool
    var sentK: bool
    var sentShrq: bool
    var gotShrq: bool
    var sentShpn: bool
    var gotShpn: bool
    var broadLB: bool
    var gotLB: bool
    var sentLB: bool
    var gotM: bool
    var totalMsigns: nat
    var msgnRec: nat                 // blocks in msgn_rec
    var rRec: seq<RoutingBlock>      // blocks in r_rec
    var delayedK: seq<DelayedA>
    var delayedLB: seq<DelayedA>
    var delayedR: seq<DelayedR>
    var eq: multiset<nat>            // pending notifications of the event queue
    var now: nat

    ghost predicate Valid()
      reads this
    {
      && ValidConfig(c) && Fits(c.snum) && number < c.snum
      && fingers == FingerTable(c.snum, number)
      && Balanced(delayedK, delayedLB, delayedR, eq)
      && Timely()
    }

    /** No notification that is still pending lies in the past. */
    ghost predicate Timely()
      reads this
    {
      forall t <- eq :: now <= t
    }

    /** So no block is late: one that is still delayed is due now or later, and a notification is pending for then. */
    lemma NoBlockIsLate()
      requires Valid()
      ensures forall d <- delayedK + delayedLB :: now <= d.time && d.time in eq
      ensures forall d <- delayedR :: now <= d.time && d.time in eq
    {
      hide FingerTable;
      BalancedHolds(delayedK, delayedLB, delayedR, eq);
    }

    /** The kernel lets time pass, but not past a pending notification. */
    method Elapse(time: nat)
      requires Valid() && now <= time && forall t <- eq :: time <= t
      modifies this`now
      ensures Valid() && now == time
    {
      now := time;
    }

    /** The node of the transition system. */
    function Value(): Node
      reads this
    {
      Node(number, broadK, gotK, sentK, sentShrq, gotShrq, sentShpn, gotShpn, broadLB, gotLB, sentLB, gotM,
           totalMsigns, |delayedK|, msgnRec)
    }

    /** The routing blocks queued here for other nodes, oldest first. */
    function Outgoing(): seq<Packet>
      reads this
    {
      PacketsOf(delayedR)
    }

    /** What the transition system's steps of this node are about. */
    function Here(): Local
      reads this
    {
      Local(Value(), rRec, Outgoing(), Receivers(delayedLB))
    }

    /** Every block in r_rec is for a node of the ring. */
    ghost predicate Ready()
      reads this
    {
      Valid() && forall rb <- rRec :: rb.P < c.snum
    }

    constructor (c: Config, number: nat, connAs: seq<nat>)
      requires ValidConfig(c) && Fits(c.snum) && number < c.snum
      ensures Valid() && this.c == c && this.number == number && this.connAs == connAs
      ensures Value() == InitNode(number) && Outgoing() == [] && rRec == []
    {
      hide FingerTable, Balanced;
      this.c, this.number, this.connAs := c, number, connAs;
      broadK, gotK, sentK, sentShrq, gotShrq, sentShpn, gotShpn := false, false, false, false, false, false, false;
      broadLB, gotLB, sentLB, gotM, totalMsigns, msgnRec := false, false, false, false, 0, 0;
      delayedK, delayedLB, delayedR, rRec, eq, now := [], [], [], [], multiset{}, 0;
      fingers := [];
      new;
      NothingDelayed();
      InitializeFingers();
    }

    // ---- fingers and routing ----

    /** One finger for every power of two below the number of nodes; no step leaves 32 bits. */
    method InitializeFingers()
      requires ValidConfig(c) && Fits(c.snum) && number < c.snum
      modifies this`fingers
      ensures fingers == FingerTable(c.snum, number)
    {
      hide Pow2;
      var n := c.snum;
      fingers := [];
      var i := 1;
      assert Pow2(0) == 1 by { PowZero(); }
      while i < n
        invariant i == Pow2(|fingers|) && i <= 2 * n
        invariant |fingers| <= FingerCount(n)
        invariant forall k :: 0 <= k < |fingers| ==> fingers[k] == Finger(n, number, k)
        decreases 2 * n - i
      {
        FingerCountIs(n, |fingers|);
        assert i + number <= MAX_INT && i * 2 <= MAX_INT;
        ModOnce(n, i + number);
        fingers := fingers + [(i + number) % n];
        DoublePow(|fingers| - 1);
        i := i * 2;
      }
      FingerCountIs(n, |fingers|);
    }

    /** The loop of ProcessRoutingBlock that finds the top bit of the remaining distance. */
    method TopBit(j: nat) returns (f: nat)
      requires 0 < j < c.snum && Fits(c.snum)
      ensures f == FloorLog2(j)
    {
      hide Pow2, FloorLog2;
      f := 0;
      var i := 1;
      assert Pow2(0) == 1 by { PowZero(); }
      while i <= j
        invariant i == Pow2(f) && (f > 0 ==> Pow2(f - 1) <= j) && i <= 2 * j
        decreases 2 * j - i
      {
        assert i * 2 <= MAX_INT;
        DoublePow(f);
        f := f + 1;
        i := i * 2;
      }
      f := f - 1;
      FloorLog2Unique(j, f);
    }

    /** SendBlock: one more delayed block and one more pending event, at the same time. */
    method SendBlock(rb: RoutingBlock, node: nat, lat: nat)
      requires Valid()
      modifies this`delayedR, this`eq
      ensures Valid() && Outgoing() == old(Outgoing()) + [Packet(node, rb)]
      ensures delayedR == old(delayedR) + [DelayedR(now + lat, Packet(node, rb))] && eq == old(eq) + multiset{now + lat}
    {
      hide Balanced, FingerTable;
      var d := DelayedR(now + lat, Packet(node, rb));
      BalancedAdd(delayedK, delayedLB, delayedR, eq, DelayedA(now, 0), d);
      delayedR := delayedR + [d];
      eq := eq + multiset{now + lat};
    }

    /** ForwardBlock, for the finger with index k. */
    method ForwardFinger(rb: RoutingBlock, k: nat)
      requires Valid() && rb.token >= 0 && k < |fingers|
      modifies this`delayedR, this`eq
      ensures Valid()
      ensures k < FingerCount(c.snum) && Outgoing() == old(Outgoing()) + Addressed(ForwardTo(c.snum, number, rb, k))
    {
      hide Balanced, Finger, FingerTable;
      FingerAt(c.snum, number, k);
      var fd := fingers[k];
      if (rb.P < rb.R && rb.P < fd && fd < rb.R) || (rb.P > rb.R && (rb.P < fd || fd < rb.R)) || rb.P == rb.R {
        var lat := RandomLatency();
        SendBlock(RoutingBlock(fd, rb.R, rb.token + 1, rb.bt), fd, lat);
      }
    }

    /** ForwardBlock. */
    method ForwardBlock(rb: RoutingBlock)
      requires Valid() && rb.token >= 0
      modifies this`delayedR, this`eq
      ensures Valid()
      ensures Outgoing() == old(Outgoing()) + Addressed(Forward(c.snum, number, rb))
    {
      hide Balanced, ForwardTo, Timely, FingerTable;
      TableSize(c.snum, number);
      if rb.token >= |fingers| {
        return;
      }
      ForwardFinger(rb, rb.token);
      if rb.token + 1 < |fingers| {
        ForwardFinger(rb, rb.token + 1);
      }
    }

    /** ProcessRoutingBlock: pass a block on, or forward and process it. */
    method ProcessRoutingBlock(rb: RoutingBlock)
      requires Valid() && rb.P < c.snum
      modifies this
      ensures Valid() && Kept(old(delayedK), old(delayedLB), old(rRec), old(msgnRec), old(now))
      ensures var out := Handle(c, old(Value()), rb);
              Value() == out.node && Outgoing() == old(Outgoing()) + out.send
      decreases Rank(rb.bt), 2
    {
      hide Balanced, Forward, FingerTable;
      if rb.token < 0 {
        if rb.P != number {
          var n := c.snum;
          ModOnce(n, rb.P + n - number);
          var j := (rb.P + n - number) % n;
          assert j == Dist(n, number, rb.P);
          var f := TopBit(j);
          TopBitIsAFinger(n, j);
          TableSize(n, number);
          FingerAt(n, number, f);
          var lat := RandomLatency();
          SendBlock(rb, fingers[f], lat);
        } else {
          ProcessBlock(rb);
        }
      } else {
        ForwardBlock(rb);
        ProcessBlock(rb);
      }
    }

    /** What processing blocks never touches. */
    predicate Kept(k: seq<DelayedA>, lb: seq<DelayedA>, r: seq<RoutingBlock>, m: nat, t: nat)
      reads this
    {
      delayedK == k && delayedLB == lb && rRec == r && msgnRec == m && now == t
    }

    /** ProcessBlock. */
    method ProcessBlock(rb: RoutingBlock)
      requires Valid() && rb.P < c.snum
      modifies this
      ensures Valid() && Kept(old(delayedK), old(delayedLB), old(rRec), old(msgnRec), old(now))
      ensures var out := Process(c, old(Value()), rb);
              Value() == out.node && Outgoing() == old(Outgoing()) + out.send
      decreases Rank(rb.bt), 1
    {
      hide Balanced, Handle, Process, FingerTable;
      if rb.bt == K {
        TakeK(rb);
      } else if number == c.s1 && rb.bt == ShRq {
        AnswerShRq(rb);
      } else if number == c.leader && rb.bt == ShPn {
        TakeShPn(rb);
      } else if rb.bt == LB {
        TakeLB(rb);
      } else if number == c.leader && rb.bt == MSgn {
        CountSignature(rb);
      } else if rb.bt == M {
        TakeM(rb);
      } else {
        FlagIs(c, Value(), rb);
      }
    }

    // A broadcast block sets its flag.

    method TakeK(rb: RoutingBlock)
      requires Valid() && rb.bt == K && rb.P < c.snum
      modifies this`gotK
      ensures Valid()
      ensures Process(c, old(Value()), rb) == Out(Value(), [])
    {
      hide Balanced, Handle, FingerTable;
      gotK := true;
    }

    method TakeLB(rb: RoutingBlock)
      requires Valid() && rb.bt == LB && rb.P < c.snum
      modifies this`gotLB
      ensures Valid()
      ensures Process(c, old(Value()), rb) == Out(Value(), [])
    {
      hide Balanced, Handle, FingerTable;
      gotLB := true;
    }

    method TakeM(rb: RoutingBlock)
      requires Valid() && rb.bt == M && rb.P < c.snum
      modifies this`gotM
      ensures Valid()
      ensures Process(c, old(Value()), rb) == Out(Value(), [])
    {
      hide Balanced, Handle, FingerTable;
      gotM := true;
    }

    method TakeShPn(rb: RoutingBlock)
      requires Valid() && rb.bt == ShPn && number == c.leader && rb.P < c.snum
      modifies this`gotShpn
      ensures Valid()
      ensures Process(c, old(Value()), rb) == Out(Value(), [])
    {
      hide Balanced, Handle, FingerTable;
      gotShpn := true;
    }

    /** S1 answers the leader at once. */
    method AnswerShRq(rb: RoutingBlock)
      requires Valid() && number == c.s1 && rb.bt == ShRq && rb.P < c.snum
      modifies this
      ensures Valid() && Kept(old(delayedK), old(delayedLB), old(rRec), old(msgnRec), old(now))
      ensures var out := Process(c, old(Value()), rb);
              Value() == out.node && Outgoing() == old(Outgoing()) + out.send
      decreases Rank(rb.bt), 0
    {
      hide Balanced, Handle, FingerTable;
      gotShrq := true;
      ProcessRoutingBlock(Unicast(c.leader, number, ShPn));
    }

    /** The leader counts a signature; the last one starts M. */
    method CountSignature(rb: RoutingBlock)
      requires Valid() && number == c.leader && rb.bt == MSgn && rb.P < c.snum
      modifies this
      ensures Valid() && Kept(old(delayedK), old(delayedLB), old(rRec), old(msgnRec), old(now))
      ensures var out := Process(c, old(Value()), rb);
              Value() == out.node && Outgoing() == old(Outgoing()) + out.send
      decreases Rank(rb.bt), 0
    {
      hide Balanced, Handle, Process, FingerTable;
      ghost var before := Value();
      totalMsigns := totalMsigns + 1;
      CountIs(c, before, Value(), rb);
      if totalMsigns == c.anum {
        ProcessRoutingBlock(Root(number, M));
      }
    }

    // ---- main ----

    /** The action was possible before, and has been done. */
    ghost predicate Did(was: Local, act: Action)
      reads this
    {
      LocalOk(c, was) && CanAct(c, was, act) && Here() == Act(c, connAs, was, act)
    }

    lemma DidReaches(start: Local, was: Local, act: Action)
      requires Reaches(c, connAs, start, was) && Did(was, act)
      ensures Reaches(c, connAs, start, Here())
    {
      hide Reaches, Act, CanAct, LocalOk;
      ReachesThen(c, connAs, start, was, act);
    }

    /** CheckR: the oldest block of r_rec is processed. */
    method CheckR() returns (any: bool)
      requires Ready()
      modifies this
      ensures Ready() && any == (old(rRec) != [])
      ensures delayedK == old(delayedK) && delayedLB == old(delayedLB) && msgnRec == old(msgnRec) && now == old(now)
      ensures if any then Did(old(Here()), Arrive(0)) && rRec == old(rRec)[1..]
              else Here() == old(Here())
    {
      hide Handle, Balanced, FingerTable;
      if rRec == [] {
        return false;
      }
      var rb := rRec[0];
      assert rb in rRec;
      rRec := rRec[1..];
      ProcessRoutingBlock(rb);
      return true;
    }

    /** One pass of SendToConnectedA's loop: a delayed block for A node a, with its notification. */
    method QueueA(isK: bool, a: nat) returns (lat: nat)
      requires Ready()
      modifies this`delayedK, this`delayedLB, this`eq
      ensures Ready() && Here() == QueuedA(old(Here()), isK, [a])
      ensures if isK then Receivers(delayedK) == old(Receivers(delayedK)) + [a] && delayedLB == old(delayedLB)
              else Receivers(delayedLB) == old(Receivers(delayedLB)) + [a] && delayedK == old(delayedK)
      ensures if isK then delayedK == old(delayedK) + [DelayedA(now + lat, a)]
              else delayedLB == old(delayedLB) + [DelayedA(now + lat, a)]
      ensures eq == old(eq) + multiset{now + lat}
    {
      hide Balanced, FingerTable;
      lat := RandomLatency();
      var d := DelayedA(now + lat, a);
      BalancedAdd(delayedK, delayedLB, delayedR, eq, d, DelayedR(now, Packet(0, Root(0, K))));
      ReceiversAdd(delayedK, d);
      ReceiversAdd(delayedLB, d);
      if isK {
        delayedK := delayedK + [d];
      } else {
        delayedLB := delayedLB + [d];
      }
      eq := eq + multiset{now + lat};
    }

    /** The flags that decide what waits for K, and what waits for the exchange with S1, as they were. */
    predicate KeptForK(was: Node)
      reads this
    {
      broadK == was.broadK && gotK == was.gotK && sentK == was.sentK && sentShrq == was.sentShrq
    }

    predicate KeptForAnswer(was: Node)
      reads this
    {
      gotShrq == was.gotShrq && sentShpn == was.sentShpn && gotShpn == was.gotShpn
    }

    /** Its look at r_rec, while blocks for the A nodes `left` are still to be queued. */
    method LookAtR(ghost all: Local, isK: bool, ghost left: seq<nat>)
      requires Ready() && Reaches(c, connAs, all, QueuedA(Here(), isK, left))
      modifies this
      ensures Ready() && msgnRec == old(msgnRec) && delayedK == old(delayedK) && delayedLB == old(delayedLB)
      ensures Reaches(c, connAs, all, QueuedA(Here(), isK, left))
      ensures |rRec| == if |old(rRec)| == 0 then 0 else |old(rRec)| - 1
      ensures old(rRec) == [] ==> Here() == old(Here())
    {
      hide Act, CanAct, LocalOk, Reaches, QueuedA, Valid;
      ghost var here := Here();
      var any := CheckR();
      if any {
        ReadAfterQueueing(c, connAs, here, isK, left);
        ReachesThen(c, connAs, all, QueuedA(here, isK, left), Arrive(0));
      }
    }

    /**
     SendToConnectedA: one delayed block for every attached A node, with a look at r_rec
     after every twentieth. The outcome is as if all were queued before anything is read.
     */
    method SendToConnectedA(isK: bool)
      requires Ready()
      modifies this
      ensures Ready() && msgnRec == old(msgnRec)
      ensures if isK then Receivers(delayedK) == old(Receivers(delayedK)) + connAs && delayedLB == old(delayedLB)
              else Receivers(delayedLB) == old(Receivers(delayedLB)) + connAs && delayedK == old(delayedK)
      ensures Reaches(c, connAs, QueuedA(old(Here()), isK, connAs), Here())
      ensures old(rRec) == [] ==> Here() == QueuedA(old(Here()), isK, connAs)
      ensures |rRec| + Looked(|connAs|, |old(rRec)|) == |old(rRec)|
    {
      hide Act, CanAct, LocalOk, Reaches, QueuedA, Valid, Looked;
      LookedAtFirst(|rRec|);
      ghost var all := QueuedA(Here(), isK, connAs);
      ReachesItself(c, connAs, all);
      QueuedNothing(Here(), isK);
      assert connAs[0..] == connAs;
      for i := 0 to |connAs|
        invariant Ready() && msgnRec == old(msgnRec)
        invariant if isK then Receivers(delayedK) == old(Receivers(delayedK)) + connAs[..i] && delayedLB == old(delayedLB)
                  else Receivers(delayedLB) == old(Receivers(delayedLB)) + connAs[..i] && delayedK == old(delayedK)
        invariant Reaches(c, connAs, all, QueuedA(Here(), isK, connAs[i..]))
        invariant old(rRec) == [] ==> rRec == [] && QueuedA(Here(), isK, connAs[i..]) == all
        invariant |rRec| + Looked(i, |old(rRec)|) == |old(rRec)|
      {
        QueuedNext(Here(), isK, connAs, i);
        LookedNext(|old(rRec)|, i);
        var lat := QueueA(isK, connAs[i]);
        assert connAs[..i + 1] == connAs[..i] + [connAs[i]];
        if i % 20 == 0 {
          LookAtR(all, isK, connAs[i + 1..]);
        }
      }
      QueuedNothing(Here(), isK);
      assert connAs[|connAs|..] == [];
    }

    // ---- the one-time actions of main, each a step of the transition system ----

    method StartK()
      requires Ready() && number == c.w && !broadK
      modifies this
      ensures Ready() && rRec == old(rRec) && Did(old(Here()), BroadK(number))
      ensures broadK && sentK == old(sentK) && sentShrq == old(sentShrq)
    {
      hide Handle, Balanced, FingerTable;
      broadK := true;
      gotK := true;
      HandleKeepsFlags(c, Value(), Root(number, K));
      ProcessRoutingBlock(Root(number, K));
    }

    lemma LocalIsOk()
      requires Ready()
      ensures LocalOk(c, Here())
    {
      hide Balanced, FingerTable;
    }

    method SetSentK()
      requires Ready()
      modifies this`sentK
      ensures Ready() && sentK && Here() == old(Here()).(node := old(Value()).(sentK := true))
    {
      hide Balanced, FingerTable;
      sentK := true;
    }

    method SetSentLB()
      requires Ready()
      modifies this`sentLB
      ensures Ready() && sentLB && Here() == old(Here()).(node := old(Value()).(sentLB := true))
    {
      hide Balanced, FingerTable;
      sentLB := true;
    }

    method StartSendK()
      requires Ready() && gotK && !sentK
      modifies this
      ensures Ready() && Receivers(delayedK) == old(Receivers(delayedK)) + connAs
      ensures Reaches(c, connAs, Act(c, connAs, old(Here()), SendK(number)), Here())
      ensures old(rRec) == [] ==> rRec == [] && Did(old(Here()), SendK(number))
      ensures old(rRec) == [] ==> sentK && broadK == old(broadK) && gotK == old(gotK) && sentShrq == old(sentShrq)
    {
      hide Valid, Reaches, Looked, Act, QueuedA;
      LocalIsOk();
      ghost var was := Here();
      SetSentK();
      SendKIs(c, connAs, was, Here());
      QueuedFlags(Here(), true, connAs);
      SendToConnectedA(true);
    }

    method AskS1()
      requires Ready() && number == c.leader && gotK && !sentShrq
      modifies this
      ensures Ready() && rRec == old(rRec) && Did(old(Here()), SendShrq(number))
      ensures sentShrq && broadK == old(broadK) && gotK == old(gotK) && sentK == old(sentK)
    {
      hide Handle, Balanced, FingerTable;
      sentShrq := true;
      HandleKeepsFlags(c, Value(), Unicast(c.s1, number, ShRq));
      ProcessRoutingBlock(Unicast(c.s1, number, ShRq));
    }

    method AnswerLeader()
      requires Ready() && number == c.s1 && gotK && gotShrq && !sentShpn
      modifies this
      ensures Ready() && rRec == old(rRec) && Did(old(Here()), SendShpn(number))
      ensures sentShpn && KeptForK(old(Value())) && gotShrq == old(gotShrq)
    {
      hide Handle, Balanced, FingerTable;
      sentShpn := true;
      HandleKeepsFlags(c, Value(), Unicast(c.leader, number, ShPn));
      ProcessRoutingBlock(Unicast(c.leader, number, ShPn));
    }

    method StartLB()
      requires Ready() && number == c.leader && gotK && gotShpn && !broadLB
      modifies this
      ensures Ready() && rRec == old(rRec) && Did(old(Here()), BroadLB(number))
      ensures broadLB && KeptForK(old(Value())) && KeptForAnswer(old(Value()))
    {
      hide Handle, Balanced, FingerTable;
      broadLB := true;
      gotLB := true;
      HandleKeepsFlags(c, Value(), Root(number, LB));
      ProcessRoutingBlock(Root(number, LB));
    }

    method StartSendLB()
      requires Ready() && gotLB && !sentLB
      modifies this
      ensures Ready() && Receivers(delayedLB) == old(Receivers(delayedLB)) + connAs
      ensures Reaches(c, connAs, Act(c, connAs, old(Here()), SendLB(number)), Here())
      ensures old(rRec) == [] ==> rRec == [] && Did(old(Here()), SendLB(number))
      ensures old(rRec) == [] ==> sentLB && KeptForK(old(Value())) && KeptForAnswer(old(Value())) && broadLB == old(broadLB) && gotLB == old(gotLB)
    {
      hide Valid, Reaches, Looked, Act, QueuedA;
      LocalIsOk();
      ghost var was := Here();
      SetSentLB();
      SendLBIs(c, connAs, was, Here());
      QueuedFlags(Here(), false, connAs);
      SendToConnectedA(false);
    }

    method ReadMsgn()
      requires Ready() && msgnRec > 0
      modifies this
      ensures Ready() && rRec == old(rRec) && Did(old(Here()), TakeMsgn(number))
      ensures msgnRec == old(msgnRec) - 1 && KeptForK(old(Value())) && KeptForAnswer(old(Value()))
      ensures broadLB == old(broadLB) && gotLB == old(gotLB) && sentLB == old(sentLB)
    {
      hide Handle, Balanced, FingerTable;
      msgnRec := msgnRec - 1;
      HandleKeepsFlags(c, Value(), Unicast(c.leader, number, MSgn));
      ProcessRoutingBlock(Unicast(c.leader, number, MSgn));
    }

    // ---- main ----

    /** The loop of main over r_rec. */
    method ReadAll() returns (didAnything: bool)
      requires Ready()
      modifies this
      ensures Ready() && rRec == [] && didAnything == (old(rRec) != [])
      ensures Reaches(c, connAs, old(Here()), Here())
      ensures !didAnything ==> Here() == old(Here())
    {
      hide Did, Reaches, Valid;
      didAnything := false;
      ReachesItself(c, connAs, Here());
      while rRec != []
        invariant Ready()
        invariant Reaches(c, connAs, old(Here()), Here())
        invariant if didAnything then old(rRec) != [] else Here() == old(Here())
        decreases |rRec|
      {
        ghost var here := Here();
        var any := CheckR();
        DidReaches(old(Here()), here, Arrive(0));
        didAnything := true;
      }
    }

    /** The one-time actions in the order of main: those that wait for K. */
    method ActOnK() returns (didAnything: bool)
      requires Ready() && rRec == []
      modifies this
      ensures Ready() && rRec == [] && DoneOnK(c, Value())
      ensures Reaches(c, connAs, old(Here()), Here())
      ensures didAnything == !old(DoneOnK(c, Value()))
      ensures !didAnything ==> Here() == old(Here())
    {
      hide Did, Reaches, Valid;
      didAnything := false;
      ReachesItself(c, connAs, Here());
      if number == c.w && !broadK {
        didAnything := true;
        ghost var was := Here();
        StartK();
        DidReaches(old(Here()), was, BroadK(number));
      }
      if gotK && !sentK {
        didAnything := true;
        ghost var was := Here();
        StartSendK();
        DidReaches(old(Here()), was, SendK(number));
      }
      if number == c.leader && gotK && !sentShrq {
        didAnything := true;
        ghost var was := Here();
        AskS1();
        DidReaches(old(Here()), was, SendShrq(number));
      }
    }

    /** And those that wait for the exchange with S1 or for LB. */
    method ActOnAnswer() returns (didAnything: bool)
      requires Ready() && rRec == [] && DoneOnK(c, Value())
      modifies this
      ensures Ready() && rRec == [] && DoneOnK(c, Value()) && DoneOnAnswer(c, Value())
      ensures Reaches(c, connAs, old(Here()), Here())
      ensures didAnything == !old(DoneOnAnswer(c, Value()))
      ensures !didAnything ==> Here() == old(Here())
    {
      hide Did, Reaches, Valid;
      didAnything := false;
      ReachesItself(c, connAs, Here());
      if number == c.s1 && gotK && gotShrq && !sentShpn {
        didAnything := true;
        ghost var was := Here();
        AnswerLeader();
        DidReaches(old(Here()), was, SendShpn(number));
      }
      if number == c.leader && gotK && gotShpn && !broadLB {
        didAnything := true;
        ghost var was := Here();
        StartLB();
        DidReaches(old(Here()), was, BroadLB(number));
      }
      if gotLB && !sentLB {
        didAnything := true;
        ghost var was := Here();
        StartSendLB();
        DidReaches(old(Here()), was, SendLB(number));
      }
    }

    /** The loop of main over msgn_rec. */
    method TakeAll() returns (didAnything: bool)
      requires Ready() && rRec == [] && DoneOnK(c, Value()) && DoneOnAnswer(c, Value())
      modifies this
      ensures Ready() && rRec == [] && Sleeps(c, Value())
      ensures Reaches(c, connAs, old(Here()), Here())
      ensures didAnything == (old(msgnRec) > 0)
      ensures !didAnything ==> Here() == old(Here())
    {
      hide Did, Reaches, Valid;
      didAnything := false;
      ReachesItself(c, connAs, Here());
      while msgnRec > 0
        invariant Ready() && rRec == [] && DoneOnK(c, Value()) && DoneOnAnswer(c, Value())
        invariant Reaches(c, connAs, old(Here()), Here())
        invariant if didAnything then old(msgnRec) > 0 else Here() == old(Here())
        decreases msgnRec
      {
        ghost var was := Here();
        ReadMsgn();
        DidReaches(old(Here()), was, TakeMsgn(number));
        didAnything := true;
      }
    }

    /**
     One pass of main's loop is a sequence of steps of the transition system after which
     the node has none left to do. It reports that it did nothing (and the node goes to
     sleep) exactly when there was nothing to do, and then it has changed nothing.
     */
    method MainPass() returns (didAnything: bool)
      requires Ready()
      modifies this
      ensures Ready() && rRec == [] && Sleeps(c, Value())
      ensures Reaches(c, connAs, old(Here()), Here())
      ensures didAnything <==> !(old(rRec) == [] && Sleeps(c, old(Value())))
      ensures !didAnything ==> Here() == old(Here())
    {
      hide Reaches, Valid;
      var read := ReadAll();
      ghost var a := Here();
      var acted := ActOnK();
      ghost var b := Here();
      ReachesOn(c, connAs, old(Here()), a, b);
      var answered := ActOnAnswer();
      ghost var d := Here();
      ReachesOn(c, connAs, old(Here()), b, d);
      var took := TakeAll();
      ReachesOn(c, connAs, old(Here()), d, Here());
      didAnything := read || acted || answered || took;
    }

    // ---- delayed_send ----

    /** multimap::find on delayed_k or delayed_lb. */
    static method FindA(ds: seq<DelayedA>, t: nat) returns (i: nat)
      ensures i <= |ds| && (i < |ds| ==> ds[i].time == t)
      ensures i < |ds| <==> t in Times(ds)
    {
      TimesHas(ds, t);
      i := 0;
      while i < |ds| && ds[i].time != t
        invariant i <= |ds| && forall k :: 0 <= k < i ==> ds[k].time != t
      {
        i := i + 1;
      }
    }

    static method FindR(ds: seq<DelayedR>, t: nat) returns (i: nat)
      ensures i <= |ds| && (i < |ds| ==> ds[i].time == t)
      ensures i < |ds| <==> t in TimesR(ds)
    {
      TimesRHas(ds, t);
      i := 0;
      while i < |ds| && ds[i].time != t
        invariant i <= |ds| && forall k :: 0 <= k < i ==> ds[k].time != t
      {
        i := i + 1;
      }
    }

    /** One entry left the list: it was due now and went where it was addressed. */
    ghost predicate TookA(was: seq<DelayedA>, left: seq<DelayedA>, to: nat, t: nat) {
      exists i: nat :: i < |was| && was[i] == DelayedA(t, to) && left == RemoveAt(was, i)
    }

    ghost predicate TookR(was: seq<DelayedR>, left: seq<DelayedR>, p: Packet, t: nat) {
      exists i: nat :: i < |was| && was[i] == DelayedR(t, p) && left == RemoveAt(was, i)
    }

    /**
     delayed_send, when a notification for the present moment fires: it delivers exactly
     one block that is due now, k blocks before lb blocks before routing blocks. The
     pending notifications keep matching the entries, so an entry is always found.
     */
    method DelayedSend() returns (d: Delivery)
      requires Valid() && now in eq
      modifies this`delayedK, this`delayedLB, this`delayedR, this`eq
      ensures Valid() && eq == old(eq) - multiset{now}
      ensures match d
              case ToK(a) => TookA(old(delayedK), delayedK, a, now)
                                  && delayedLB == old(delayedLB) && delayedR == old(delayedR)
              case ToLB(a) => now !in Times(old(delayedK)) && TookA(old(delayedLB), delayedLB, a, now)
                                   && delayedK == old(delayedK) && delayedR == old(delayedR)
              case ToR(p) => now !in Times(old(delayedK)) && now !in Times(old(delayedLB))
                                  && TookR(old(delayedR), delayedR, p, now)
                                  && delayedK == old(delayedK) && delayedLB == old(delayedLB)
    {
      hide Times, TimesR, Balanced, FingerTable;
      BalancedFinds(delayedK, delayedLB, delayedR, eq, now);
      var i := FindA(delayedK, now);
      if i < |delayedK| {
        BalancedRemoveK(delayedK, delayedLB, delayedR, eq, i);
        d := ToK(delayedK[i].to);
        assert delayedK[i] == DelayedA(now, delayedK[i].to);
        delayedK := RemoveAt(delayedK, i);
      } else {
        i := FindA(delayedLB, now);
        if i < |delayedLB| {
          BalancedRemoveLB(delayedK, delayedLB, delayedR, eq, i);
          d := ToLB(delayedLB[i].to);
          assert delayedLB[i] == DelayedA(now, delayedLB[i].to);
          delayedLB := RemoveAt(delayedLB, i);
        } else {
          i := FindR(delayedR, now);
          assert i < |delayedR|;
          BalancedRemoveR(delayedK, delayedLB, delayedR, eq, i);
          d := ToR(delayedR[i].packet);
          assert delayedR[i] == DelayedR(now, delayedR[i].packet);
          delayedR := RemoveAt(delayedR, i);
        }
      }
      eq := eq - multiset{now};
    }
  }

  lemma TableSize(n: nat, number: nat)
    requires number < n
    ensures |FingerTable(n, number)| == FingerCount(n)
  {
  }

  lemma FingerAt(n: nat, number: nat, k: nat)
    requires number < n && k < |FingerTable(n, number)|
    ensures k < FingerCount(n) && FingerTable(n, number)[k] == Finger(n, number, k)
  {
  }
}
