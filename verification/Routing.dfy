/**
 Unicast routing of Snode::ProcessRoutingBlock: a block for node P is handed to
 the finger at the top bit of the remaining clockwise distance.
 */
module Routing {
  import opened RingArithmetic
  import opened Broadcast

  /** The node a unicast block for P is sent to next. */
  function NextHop(n: nat, number: nat, P: nat): (next: nat)
    requires number < n && P < n && number != P
    ensures next < n
    ensures Dist(n, next, P) == Dist(n, number, P) - Pow2(FloorLog2(Dist(n, number, P)))
  {
    TopBitIsAFinger(n, Dist(n, number, P));
    Finger(n, number, FloorLog2(Dist(n, number, P)))
  }

  /** The index the code computes is inside the finger table. */
  lemma TopBitIsAFinger(n: nat, d: nat)
    requires 0 < d < n
    ensures FloorLog2(d) < FingerCount(n)
  {
    FingerCountIs(n, FloorLog2(d));
  }

  /** The nodes a unicast block visits after node `number`. */
  function Route(n: nat, number: nat, P: nat): seq<nat>
    requires number < n && P < n
    decreases Dist(n, number, P)
  {
    if number == P then []
    else
      var next := NextHop(n, number, P);
      [next] + Route(n, next, P)
  }

  /** A unicast block always arrives, after exactly as many hops as the distance has one bits. */
  lemma {:induction false} UnicastHops(n: nat, number: nat, P: nat)
    requires number < n && P < n
    ensures var route := Route(n, number, P);
            |route| == PopCount(Dist(n, number, P)) && (number != P ==> route[|route| - 1] == P)
    decreases Dist(n, number, P)
  {
    hide PopCount, Finger;
    if number == P {
      PopCountZero();
    } else {
      PopCountTopBit(Dist(n, number, P));
      UnicastHops(n, NextHop(n, number, P), P);
    }
  }

  lemma PopCountZero()
    ensures PopCount(0) == 0
  {
  }

  /** No route is longer than the finger table. */
  lemma RouteLength(n: nat, number: nat, P: nat)
    requires number < n && P < n
    ensures |Route(n, number, P)| <= FingerCount(n)
  {
    FingerCountIs(n, FingerCount(n));
    UnicastHops(n, number, P);
    PopCountAtMost(Dist(n, number, P), FingerCount(n));
  }
}
