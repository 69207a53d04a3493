/**
 Lookups on a stabilised Chord ring: every periodic lookup is answered with the true
 successor after at most W forwards, each hop at least halves what is left of the
 way, no fallback branch of findSuccessor is taken and the retransmit guard never
 drops the message.
 */
module ChordLookup {
  import opened Options
  import opened RingArithmetic
  import opened ChordRange
  import opened ChordPeer

  /** s is the first of the nodes at or after t. */
  ghost predicate IsSuccessor(n: nat, nodes: set<nat>, t: nat, s: nat) {
    && t < n && s < n && s in nodes
    && forall z <- nodes :: z < n ==> Dist(n, t, s) <= Dist(n, t, z)
  }

  /** last is the last of the nodes at or before t. */
  ghost predicate IsLast(n: nat, nodes: set<nat>, t: nat, last: nat) {
    && t < n && last < n && last in nodes
    && forall z <- nodes :: z < n ==> Dist(n, last, t) <= Dist(n, z, t)
  }

  /** A node whose predecessor, successor and w fingers are all exact. */
  ghost predicate Exact(w: nat, nodes: set<nat>, me: Peer) {
    var n := Pow2(w);
    && OnRing(n, me)
    && Adjacent(n, nodes, me.pred, me.id) && Adjacent(n, nodes, me.id, me.succ)
    && |me.fingers| == w
    && forall k {:trigger me.fingers[k]} :: 0 <= k < w ==>
         Pow2(k) <= n && IsSuccessor(n, nodes, Plus(n, me.id, Pow2(k)), me.fingers[k])
  }

  predicate IsNode(peers: map<nat, Peer>, x: nat) {
    x in peers
  }

  /** Every node of the ring is exact. */
  ghost predicate Stabilised(w: nat, peers: map<nat, Peer>) {
    forall x: nat {:trigger IsNode(peers, x)} :: IsNode(peers, x) ==>
      x < Pow2(w) && peers[x].id == x && Exact(w, peers.Keys, peers[x])
  }

  datatype Answer = Answered(found: nat, forwards: nat) | Dropped

  /** A FIND_SUCCESSOR or JOIN message on its way: at node `at`, after `counter` forwards. */
  function Lookup(n: nat, peers: map<nat, Peer>, at: nat, searched: nat, sender: nat, initiator: nat, isJoin: bool,
                  counter: nat): Answer
    requires n > 0 && at in peers
    decreases 3 * |peers[at].fingers| - 2 * counter, at
  {
    var me := peers[at];
    if TooManyForwards(me, counter) then Dropped
    else
      match FindSuccessor(n, me, searched, sender, initiator, isJoin)
      case Reply(found) => Answered(found, counter)
      case Forward(next) =>
        if next in peers && |peers[next].fingers| == |me.fingers|
        then Lookup(n, peers, next, searched, at, initiator, isJoin, counter + 1)
        else Dropped
  }

  // ---- one hop ----

  /** z lies after d, up to and including t. */
  predicate Ahead(n: nat, z: nat, d: nat, t: nat)
    requires z < n && d < n && t < n
  {
    0 < Dist(n, d, z) <= Dist(n, d, t)
  }

  /** z cannot be a node on the way from d to t: it lies elsewhere, or has not joined yet. */
  predicate Behind(n: nat, nodes: set<nat>, z: nat, d: nat, t: nat)
    requires z < n && d < n && t < n
  {
    z in nodes ==> !Ahead(n, z, d, t)
  }

  /** Whatever a node answers from its own pointers is right. */
  lemma ReplyIsRight(n: nat, nodes: set<nat>, me: Peer, t: nat, sender: nat, initiator: nat)
    requires t < n && OnRing(n, me) && me.id in nodes
    requires Adjacent(n, nodes, me.pred, me.id) && Adjacent(n, nodes, me.id, me.succ)
    requires t == me.id || t == me.pred || ClosedArc(n, t, me.pred, me.id) || ClosedArc(n, t, me.id, me.succ)
    ensures var o := Find(n, me, t, sender, initiator); o.Reply? && IsSuccessor(n, nodes, t, o.found)
  {
    hide ClosestPreceding, FirstAllowed;
    RangeIsClosedArc(n, t, me.pred, me.id);
    RangeIsClosedArc(n, t, me.id, me.succ);
  }

  /** The finger at the top bit of the remaining way is on the way. */
  lemma TopFingerIsUsable(n: nat, nodes: set<nat>, id: nat, f: nat, p: nat, t: nat, last: nat)
    requires id < n && id in nodes && IsLast(n, nodes, t, last) && 0 < p <= Dist(n, id, last)
    requires IsSuccessor(n, nodes, Plus(n, id, p), f)
    ensures Ahead(n, f, id, t)
  {
    assert Dist(n, last, t) <= Dist(n, id, t);
    assert Dist(n, Plus(n, id, p), f) <= Dist(n, Plus(n, id, p), last);
  }

  /** A finger on the way is at least its nominal distance away, and not beyond the last node. */
  lemma UsableFingerIsFar(n: nat, nodes: set<nat>, id: nat, f: nat, p: nat, t: nat, last: nat)
    requires id < n && id in nodes && IsLast(n, nodes, t, last) && 0 < p < n
    requires IsSuccessor(n, nodes, Plus(n, id, p), f) && Ahead(n, f, id, t)
    ensures p <= Dist(n, id, f) <= Dist(n, id, last)
    ensures Dist(n, f, last) == Dist(n, id, last) - Dist(n, id, f)
  {
    assert Dist(n, last, t) <= Dist(n, id, t) && Dist(n, last, t) <= Dist(n, f, t);
    assert Dist(n, Plus(n, id, p), f) <= Dist(n, Plus(n, id, p), id);
  }

  /** The finger chosen has the highest index among the usable ones. */
  lemma {:induction false} ClosestIsHighest(n: nat, id: nat, fingers: seq<nat>, t: nat, sender: nat, initiator: nat, j: nat)
    returns (i: nat)
    requires n > 0 && j < |fingers| && Usable(n, fingers[j], id, t, sender, initiator)
    ensures j <= i < |fingers|
    ensures Usable(n, fingers[i], id, t, sender, initiator)
    ensures ClosestPreceding(n, id, fingers, t, sender, initiator) == Some(fingers[i])
  {
    i := |fingers| - 1;
    if !Usable(n, fingers[i], id, t, sender, initiator) {
      i := ClosestIsHighest(n, id, fingers[..i], t, sender, initiator, j);
    }
  }

  /** The index of a finger that is used, at least the top bit of the remaining way. */
  lemma HopFinger(w: nat, nodes: set<nat>, me: Peer, t: nat, sender: nat, initiator: nat, last: nat) returns (i: nat)
    requires Exact(w, nodes, me) && t < Pow2(w) && IsLast(Pow2(w), nodes, t, last)
    requires sender < Pow2(w) && initiator < Pow2(w)
    requires Behind(Pow2(w), nodes, sender, me.id, t) && Behind(Pow2(w), nodes, initiator, me.id, t)
    requires Dist(Pow2(w), me.id, last) > 0
    ensures FloorLog2(Dist(Pow2(w), me.id, last)) <= i < w
    ensures Ahead(Pow2(w), me.fingers[i], me.id, t)
    ensures ClosestPreceding(Pow2(w), me.id, me.fingers, t, sender, initiator) == Some(me.fingers[i])
  {
    hide ClosestPreceding, Pow2, FloorLog2;
    var n := Pow2(w);
    var d := Dist(n, me.id, last);
    var j := FloorLog2(d);
    Pow2Order(w, j);
    assert j < w && Pow2(j) <= d;
    TopFingerIsUsable(n, nodes, me.id, me.fingers[j], Pow2(j), t, last);
    RangeIsClosedArc(n, me.fingers[j], me.id, t);
    i := ClosestIsHighest(n, me.id, me.fingers, t, sender, initiator, j);
    RangeIsClosedArc(n, me.fingers[i], me.id, t);
  }

  /** Every hop at least halves the way to the last node at or before the target, by a regular finger. */
  lemma HopHalves(w: nat, nodes: set<nat>, me: Peer, t: nat, sender: nat, initiator: nat, last: nat)
    requires Exact(w, nodes, me) && t < Pow2(w) && IsLast(Pow2(w), nodes, t, last)
    requires sender < Pow2(w) && initiator < Pow2(w)
    requires Behind(Pow2(w), nodes, sender, me.id, t) && Behind(Pow2(w), nodes, initiator, me.id, t)
    requires me.succ != me.id
    ensures var n, o := Pow2(w), FindSuccessor(Pow2(w), me, t, sender, initiator, false);
            match o
            case Reply(s) => IsSuccessor(n, nodes, t, s)
            case Forward(f) =>
              && f in nodes && f < n && Ahead(n, f, me.id, t)
              && ClosestPreceding(n, me.id, me.fingers, t, sender, initiator) == Some(f)
              && 2 * Dist(n, f, last) < Dist(n, me.id, last)
  {
    hide ClosestPreceding, FirstAllowed, Pow2, FloorLog2, IsInRangeOverZero, Find, IsLast, IsSuccessor, Ahead, Behind;
    var n := Pow2(w);
    if t == me.id || t == me.pred || ClosedArc(n, t, me.pred, me.id) || ClosedArc(n, t, me.id, me.succ) {
      ReplyIsRight(n, nodes, me, t, sender, initiator);
    } else {
      LastIsBeyond(n, nodes, me.id, me.succ, t, last);
      ForwardHalves(w, nodes, me, t, sender, initiator, last);
      FindForwards(n, me, t, sender, initiator);
    }
  }

  /** A target beyond the successor has that successor before it. */
  lemma LastIsBeyond(n: nat, nodes: set<nat>, id: nat, succ: nat, t: nat, last: nat)
    requires Adjacent(n, nodes, id, succ) && succ != id && IsLast(n, nodes, t, last) && !ClosedArc(n, t, id, succ)
    ensures Dist(n, id, last) > 0
  {
    assert Dist(n, last, t) <= Dist(n, succ, t);
  }

  lemma FindForwards(n: nat, me: Peer, t: nat, sender: nat, initiator: nat)
    requires OnRing(n, me) && t < n && t != me.id && t != me.pred
    requires !ClosedArc(n, t, me.pred, me.id) && !ClosedArc(n, t, me.id, me.succ)
    requires ClosestPreceding(n, me.id, me.fingers, t, sender, initiator).Some?
    ensures Find(n, me, t, sender, initiator)
            == Forward(ClosestPreceding(n, me.id, me.fingers, t, sender, initiator).value)
  {
    hide ClosestPreceding, FirstAllowed, IsInRangeOverZero;
    RangeIsClosedArc(n, t, me.pred, me.id);
    RangeIsClosedArc(n, t, me.id, me.succ);
  }

  lemma ForwardHalves(w: nat, nodes: set<nat>, me: Peer, t: nat, sender: nat, initiator: nat, last: nat)
    requires Exact(w, nodes, me) && t < Pow2(w) && IsLast(Pow2(w), nodes, t, last)
    requires sender < Pow2(w) && initiator < Pow2(w)
    requires Behind(Pow2(w), nodes, sender, me.id, t) && Behind(Pow2(w), nodes, initiator, me.id, t)
    requires Dist(Pow2(w), me.id, last) > 0
    ensures var n, o := Pow2(w), ClosestPreceding(Pow2(w), me.id, me.fingers, t, sender, initiator);
            && o.Some? && o.value in nodes && o.value < n && Ahead(n, o.value, me.id, t)
            && 2 * Dist(n, o.value, last) < Dist(n, me.id, last)
  {
    hide ClosestPreceding, Pow2, FloorLog2, Dist;
    var n := Pow2(w);
    var i := HopFinger(w, nodes, me, t, sender, initiator, last);
    var d := Dist(n, me.id, last);
    Pow2Order(w, i);
    Pow2Order(FloorLog2(d), i);
    UsableFingerIsFar(n, nodes, me.id, me.fingers[i], Pow2(i), t, last);
    DoublePow(FloorLog2(d));
  }

  // ---- what a node decides from any pointers, right or wrong ----

  /** Finger i lies on the way to t and is none of the nodes involved. */
  predicate OnWay(n: nat, me: Peer, i: nat, t: nat, sender: nat, initiator: nat)
    requires i < |me.fingers| && OnRing(n, me) && t < n
  {
    var f := me.fingers[i];
    assert f in me.fingers;
    ClosedArc(n, f, me.id, t) && f != me.id && f != sender && f != initiator
  }

  predicate Other(me: Peer, f: nat, sender: nat, initiator: nat) {
    f != me.id && f != sender && f != initiator
  }

  lemma {:induction false} LastUsable(n: nat, id: nat, fingers: seq<nat>, t: nat, sender: nat, initiator: nat) returns (i: nat)
    requires n > 0 && ClosestPreceding(n, id, fingers, t, sender, initiator).Some?
    ensures i < |fingers| && ClosestPreceding(n, id, fingers, t, sender, initiator) == Some(fingers[i])
    ensures forall k :: i < k < |fingers| ==> !Usable(n, fingers[k], id, t, sender, initiator)
  {
    i := |fingers| - 1;
    if !Usable(n, fingers[i], id, t, sender, initiator) {
      i := LastUsable(n, id, fingers[..i], t, sender, initiator);
    }
  }

  lemma {:induction false} FirstOther(me: Peer, fingers: seq<nat>, sender: nat, initiator: nat) returns (i: nat)
    requires FirstAllowed(fingers, me.id, sender, initiator).Some?
    ensures i < |fingers| && FirstAllowed(fingers, me.id, sender, initiator) == Some(fingers[i])
    ensures Other(me, fingers[i], sender, initiator)
    ensures forall k :: 0 <= k < i ==> !Other(me, fingers[k], sender, initiator)
  {
    if Other(me, fingers[0], sender, initiator) {
      i := 0;
    } else {
      i := FirstOther(me, fingers[1..], sender, initiator);
      i := i + 1;
    }
  }

  /** The target lies in one of the two arcs that the node knows. */
  predicate Known(n: nat, me: Peer, t: nat)
    requires OnRing(n, me) && t < n
  {
    t == me.id || t == me.pred || ClosedArc(n, t, me.pred, me.id) || ClosedArc(n, t, me.id, me.succ)
  }

  /** Within the arcs that a node knows it replies, with the node at the end of the arc. */
  lemma FindReplies(n: nat, me: Peer, t: nat, sender: nat, initiator: nat)
    requires OnRing(n, me) && t < n && Known(n, me, t)
    ensures Find(n, me, t, sender, initiator)
            == Reply(if t == me.id then me.id else if t == me.pred then me.pred
                     else if ClosedArc(n, t, me.pred, me.id) then me.id else me.succ)
  {
    hide ClosestPreceding, FirstAllowed, IsInRangeOverZero;
    RangeIsClosedArc(n, t, me.pred, me.id);
    RangeIsClosedArc(n, t, me.id, me.succ);
  }

  /**
   Beyond them it forwards to the last finger on the way; if there is none, to its first
   finger that is another node; if there is none, back to its predecessor; and only then
   does it answer itself.
   */
  lemma FindFallsBack(n: nat, me: Peer, t: nat, sender: nat, initiator: nat) returns (i: nat)
    requires OnRing(n, me) && t < n && !Known(n, me, t)
    ensures var o := Find(n, me, t, sender, initiator);
            if exists k :: 0 <= k < |me.fingers| && OnWay(n, me, k, t, sender, initiator)
            then i < |me.fingers| && o == Forward(me.fingers[i]) && OnWay(n, me, i, t, sender, initiator)
                 && forall k :: i < k < |me.fingers| ==> !OnWay(n, me, k, t, sender, initiator)
            else if exists k :: 0 <= k < |me.fingers| && Other(me, me.fingers[k], sender, initiator)
            then i < |me.fingers| && o == Forward(me.fingers[i]) && Other(me, me.fingers[i], sender, initiator)
                 && forall k :: 0 <= k < i ==> !Other(me, me.fingers[k], sender, initiator)
            else o == if Other(me, me.pred, sender, initiator) then Forward(me.pred) else Reply(me.id)
  {
    hide ClosestPreceding, FirstAllowed, IsInRangeOverZero;
    RangeIsClosedArc(n, t, me.pred, me.id);
    RangeIsClosedArc(n, t, me.id, me.succ);
    forall k | 0 <= k < |me.fingers|
      ensures OnWay(n, me, k, t, sender, initiator) <==> Usable(n, me.fingers[k], me.id, t, sender, initiator)
    {
      assert me.fingers[k] in me.fingers;
      RangeIsClosedArc(n, me.fingers[k], me.id, t);
    }
    i := 0;
    if ClosestPreceding(n, me.id, me.fingers, t, sender, initiator).Some? {
      i := LastUsable(n, me.id, me.fingers, t, sender, initiator);
    } else if FirstAllowed(me.fingers, me.id, sender, initiator).Some? {
      i := FirstOther(me, me.fingers, sender, initiator);
    } else {
      assert forall k :: 0 <= k < |me.fingers| ==> me.fingers[k] in me.fingers && !Other(me, me.fingers[k], sender, initiator);
    }
  }

  // ---- filling the finger table ----

  /** A refresh with the right node keeps an exact table exact. */
  lemma RefreshKeepsExact(w: nat, nodes: set<nat>, me: Peer, k: nat, f: nat)
    requires Exact(w, nodes, me) && k < w && Pow2(k) <= Pow2(w)
    requires IsSuccessor(Pow2(w), nodes, Plus(Pow2(w), me.id, Pow2(k)), f)
    ensures SetFinger(me, k, f) == me
  {
    hide Pow2, Adjacent;
    OneNearest(Pow2(w), nodes, Plus(Pow2(w), me.id, Pow2(k)), f, me.fingers[k]);
    if k == 0 {
      PowZero();
      NextIsSuccessor(Pow2(w), nodes, me.id, me.succ, f);
    }
    assert me.fingers[k := f] == me.fingers;
  }

  lemma OneNearest(n: nat, nodes: set<nat>, t: nat, s: nat, z: nat)
    requires IsSuccessor(n, nodes, t, s) && IsSuccessor(n, nodes, t, z)
    ensures s == z
  {
  }

  /** The first node after x is the successor of x + 1. */
  lemma NextIsSuccessor(n: nat, nodes: set<nat>, x: nat, succ: nat, f: nat)
    requires x < n && 1 <= n && Adjacent(n, nodes, x, succ) && IsSuccessor(n, nodes, Plus(n, x, 1), f)
    ensures f == succ
  {
    assert Dist(n, Plus(n, x, 1), f) <= Dist(n, Plus(n, x, 1), succ);
    assert !OpenArc(n, f, x, succ);
  }

  /** The node after the answers to its lookups for fingers 0 to k - 1 have come. */
  function Filled(me: Peer, answers: seq<nat>, k: nat): (r: Peer)
    requires k <= |answers| == |me.fingers|
    ensures |r.fingers| == |me.fingers|
  {
    if k == 0 then me else SetFinger(Filled(me, answers, k - 1), k - 1, answers[k - 1])
  }

  lemma {:induction false} FilledFingers(me: Peer, answers: seq<nat>, k: nat)
    requires k <= |answers| == |me.fingers|
    ensures var r := Filled(me, answers, k);
            && r.id == me.id && r.pred == me.pred
            && r.succ == (if k > 0 && answers[0] != me.id then answers[0] else me.succ)
            && forall i :: 0 <= i < |answers| ==> r.fingers[i] == if i < k then answers[i] else me.fingers[i]
  {
    if k > 0 {
      FilledFingers(me, answers, k - 1);
    }
  }

  /** fingers[k] is the first node at or after id + 2^k, for all w fingers. */
  ghost predicate TrueFingers(w: nat, nodes: set<nat>, id: nat, fingers: seq<nat>) {
    && |fingers| == w && id < Pow2(w)
    && forall k: nat {:trigger fingers[k]} {:trigger Pow2(k)} :: k < w ==>
         Pow2(k) <= Pow2(w) && IsSuccessor(Pow2(w), nodes, Plus(Pow2(w), id, Pow2(k)), fingers[k])
  }

  lemma TrueFingersOnRing(w: nat, nodes: set<nat>, id: nat, fingers: seq<nat>)
    requires TrueFingers(w, nodes, id, fingers)
    ensures forall f <- fingers :: f < Pow2(w)
    ensures w > 0 ==> 1 <= Pow2(w) && IsSuccessor(Pow2(w), nodes, Plus(Pow2(w), id, 1), fingers[0])
  {
    hide Pow2, Plus, IsSuccessor;
    PowZero();
    forall f | f in fingers ensures f < Pow2(w) {
      var k :| 0 <= k < w && fingers[k] == f;
      InKeys(Pow2(w), nodes, Plus(Pow2(w), id, Pow2(k)), fingers[k]);
    }
  }

  lemma TrueFingersAreExact(w: nat, nodes: set<nat>, me: Peer)
    requires TrueFingers(w, nodes, me.id, me.fingers) && me.pred < Pow2(w) && me.succ < Pow2(w)
    requires Adjacent(Pow2(w), nodes, me.pred, me.id) && Adjacent(Pow2(w), nodes, me.id, me.succ)
    ensures Exact(w, nodes, me)
  {
    hide Pow2, IsSuccessor;
    TrueFingersOnRing(w, nodes, me.id, me.fingers);
  }

  /** A node with exact neighbours that has got the true successor of id + 2^k for every finger k is exact. */
  lemma FilledIsExact(w: nat, nodes: set<nat>, me: Peer, answers: seq<nat>)
    requires me.pred < Pow2(w) && me.succ < Pow2(w) && |me.fingers| == |answers|
    requires Adjacent(Pow2(w), nodes, me.pred, me.id) && Adjacent(Pow2(w), nodes, me.id, me.succ)
    requires TrueFingers(w, nodes, me.id, answers)
    ensures Exact(w, nodes, Filled(me, answers, |answers|))
  {
    hide Pow2, Adjacent, Filled, IsSuccessor, Exact, TrueFingers;
    var r := Filled(me, answers, |answers|);
    FilledFingers(me, answers, |answers|);
    assert r.fingers == answers;
    TrueFingersOnRing(w, nodes, me.id, answers);
    if |answers| > 0 {
      TrueSize(w, nodes, me.id, answers);
      NextIsSuccessor(Pow2(w), nodes, me.id, me.succ, answers[0]);
    }
    TrueFingersAreExact(w, nodes, r);
  }

  lemma TrueSize(w: nat, nodes: set<nat>, id: nat, fingers: seq<nat>)
    requires TrueFingers(w, nodes, id, fingers)
    ensures |fingers| == w && id < Pow2(w)
  {
    hide Pow2, IsSuccessor;
  }

  // ---- the whole lookup ----

  /** The lookup of t came back with the true successor of t, after at most limit forwards. */
  ghost predicate Found(w: nat, nodes: set<nat>, t: nat, a: Answer, limit: nat) {
    a.Answered? && IsSuccessor(Pow2(w), nodes, t, a.found) && a.forwards <= limit
  }

  /** Once the message is between its initiator and the target, it is answered within b more forwards, a join with one more. */
  lemma {:induction false} LookupAnswered(w: nat, peers: map<nat, Peer>, at: nat, t: nat, sender: nat, initiator: nat,
                                          isJoin: bool, counter: nat, last: nat, b: nat)
    requires Stabilised(w, peers) && at in peers && peers[at].succ != at
    requires at < Pow2(w) && t < Pow2(w) && IsLast(Pow2(w), peers.Keys, t, last)
    requires sender < Pow2(w) && initiator < Pow2(w)
    requires Behind(Pow2(w), peers.Keys, sender, at, t) && Behind(Pow2(w), peers.Keys, initiator, at, t)
    requires Dist(Pow2(w), at, last) < Pow2(b) && 2 * (counter + b + Owner(isJoin)) <= 3 * w
    ensures Found(w, peers.Keys, t, Lookup(Pow2(w), peers, at, t, sender, initiator, isJoin, counter),
                  counter + b + Owner(isJoin))
    decreases b
  {
    hide Stabilised, Find, ClosestPreceding, IsSuccessor, IsLast, Adjacent, Exact;
    TableSize(w, peers, at);
    var n, me := Pow2(w), peers[at];
    HopHalves(w, peers.Keys, me, t, sender, initiator, last);
    var o := Find(n, me, t, sender, initiator);
    if o.Forward? {
      assert b > 0;
      TableSize(w, peers, o.found);
      SomeoneElse(w, peers, at, o.found);
      LookupAnswered(w, peers, o.found, t, at, initiator, isJoin, counter + 1, last, b - 1);
    } else if isJoin && o.found != at {
      InKeys(n, peers.Keys, t, o.found);
      TableSize(w, peers, o.found);
      SomeoneElse(w, peers, at, o.found);
      OwnerAnswers(n, peers, o.found, t, at, initiator, counter + 1);
    }
  }

  /** A join is answered only by the node it is looking for, which takes one more forward. */
  function Owner(isJoin: bool): nat {
    if isJoin then 1 else 0
  }

  lemma InKeys(n: nat, nodes: set<nat>, t: nat, s: nat)
    requires IsSuccessor(n, nodes, t, s)
    ensures s in nodes && s < n
  {
  }

  /** The true successor of t knows that it is. */
  lemma OwnerAnswers(n: nat, peers: map<nat, Peer>, at: nat, t: nat, sender: nat, initiator: nat, counter: nat)
    requires at in peers && peers[at].id == at && OnRing(n, peers[at]) && IsSuccessor(n, peers.Keys, t, at)
    requires Adjacent(n, peers.Keys, peers[at].pred, at) && Adjacent(n, peers.Keys, at, peers[at].succ)
    requires peers[at].succ != at && !TooManyForwards(peers[at], counter)
    ensures Lookup(n, peers, at, t, sender, initiator, true, counter) == Answered(at, counter)
  {
    hide ClosestPreceding, FirstAllowed, IsInRangeOverZero;
    RangeIsClosedArc(n, t, peers[at].pred, at);
    RangeIsClosedArc(n, t, at, peers[at].succ);
    OwnArc(n, peers.Keys, t, at, peers[at].pred, peers[at].succ);
  }

  lemma OwnArc(n: nat, nodes: set<nat>, t: nat, s: nat, pred: nat, succ: nat)
    requires IsSuccessor(n, nodes, t, s) && Adjacent(n, nodes, pred, s) && Adjacent(n, nodes, s, succ) && succ != s
    ensures t == s || (t != pred && ClosedArc(n, t, pred, s))
  {
    assert Dist(n, t, s) <= Dist(n, t, pred);
    assert !OpenArc(n, succ, pred, s);
  }

  lemma TableSize(w: nat, peers: map<nat, Peer>, x: nat)
    requires Stabilised(w, peers) && x in peers
    ensures |peers[x].fingers| == w && peers[x].id == x && Exact(w, peers.Keys, peers[x]) && x < Pow2(w)
    ensures OnRing(Pow2(w), peers[x])
    ensures Adjacent(Pow2(w), peers.Keys, peers[x].pred, x) && Adjacent(Pow2(w), peers.Keys, x, peers[x].succ)
  {
    hide Adjacent, IsSuccessor, Pow2, OnRing;
    assert IsNode(peers, x);
  }

  lemma KeysOnRing(w: nat, peers: map<nat, Peer>)
    requires Stabilised(w, peers)
    ensures forall x <- peers.Keys :: x < Pow2(w)
  {
    hide Exact, Pow2;
    forall x | x in peers.Keys ensures x < Pow2(w) {
      assert IsNode(peers, x);
    }
  }

  lemma SomeoneElse(w: nat, peers: map<nat, Peer>, x: nat, y: nat)
    requires Stabilised(w, peers) && x in peers && y in peers && x != y
    ensures peers[y].succ != y
  {
    hide Stabilised, Exact, Pow2;
    TableSize(w, peers, x);
    TableSize(w, peers, y);
    assert !OpenArc(Pow2(w), x, y, peers[y].succ);
  }

  /** The node at or before t that is nearest to it. */
  lemma {:induction false} LastExists(n: nat, nodes: set<nat>, t: nat, z: nat) returns (last: nat)
    requires t < n && z in nodes && forall x <- nodes :: x < n
    ensures IsLast(n, nodes, t, last)
    decreases Dist(n, z, t)
  {
    if y :| y in nodes && Dist(n, y, t) < Dist(n, z, t) {
      last := LastExists(n, nodes, t, y);
    } else {
      last := z;
    }
  }

  lemma {:induction false} FingerBelowIs(me: Peer, k: nat) returns (i: nat)
    requires 0 < k <= |me.fingers| && me.fingers[0] != me.id
    ensures i < k && me.fingers[i] != me.id && FingerBelow(me, k) == Some(me.fingers[i])
  {
    i := k - 1;
    if me.fingers[i] == me.id {
      i := FingerBelowIs(me, k - 1);
    }
  }

  lemma FirstHopIs(w: nat, nodes: set<nat>, me: Peer, k: nat, seed: nat) returns (i: nat)
    requires Exact(w, nodes, me) && k < w && me.succ != me.id
    ensures i < w && i <= k && FirstHop(me, k, seed) == me.fingers[i] != me.id
    ensures Pow2(i) <= Pow2(w) && me.id < Pow2(w)
    ensures IsSuccessor(Pow2(w), nodes, Plus(Pow2(w), me.id, Pow2(i)), me.fingers[i])
  {
    if k == 0 {
      i := 0;
    } else {
      i := FingerBelowIs(me, k);
    }
  }

  /** A first hop past the target answers itself; any other is between the node and the target. */
  lemma FirstHopNear(n: nat, nodes: set<nat>, x: nat, p: nat, t: nat, f: nat, pred: nat)
    requires x < n && x in nodes && t < n && pred < n && 0 < p <= Dist(n, x, t)
    requires IsSuccessor(n, nodes, Plus(n, x, p), f) && f != x && Adjacent(n, nodes, pred, f)
    ensures ClosedArc(n, t, pred, f) || !Ahead(n, x, f, t)
  {
    assert Dist(n, Plus(n, x, p), f) <= Dist(n, Plus(n, x, p), x);
    assert Dist(n, Plus(n, x, p), f) <= Dist(n, Plus(n, x, p), pred);
    assert !OpenArc(n, x, pred, f);
  }

  /**
   On a stabilised ring of at least two nodes, the periodic lookup of any node x for
   any of its w fingers comes back with the true successor of x + 2^k after at most
   w forwards, and is never dropped.
   */
  lemma LookupFindsSuccessor(w: nat, peers: map<nat, Peer>, x: nat, k: nat, seed: nat)
    requires Stabilised(w, peers) && x in peers && x < Pow2(w) && |peers.Keys| >= 2 && k < w
    ensures var me, n := peers[x], Pow2(w);
            && |me.fingers| == w
            && Pow2(k) <= n
            && var t, hop := Plus(n, x, Pow2(k)), FirstHop(me, k, seed);
            && hop in peers && hop != x
            && Found(w, peers.Keys, t, Lookup(n, peers, hop, t, x, x, false, 0), w)
  {
    hide Stabilised, Exact, Find, FindSuccessor, ClosestPreceding, FirstHop, IsSuccessor, IsLast, Adjacent, Pow2;
    var n, me := Pow2(w), peers[x];
    TableSize(w, peers, x);
    var y := Another(peers.Keys, x);
    SomeoneElse(w, peers, y, x);
    Pow2StrictlyMonotone(k, w);
    var t := Plus(n, x, Pow2(k));
    DistPlus(n, x, Pow2(k));
    var i := FirstHopIs(w, peers.Keys, me, k, seed);
    var hop := me.fingers[i];
    TableSize(w, peers, hop);
    SomeoneElse(w, peers, x, hop);
    Pow2Order(i, k);
    FirstHopNear(n, peers.Keys, x, Pow2(i), t, hop, peers[hop].pred);
    if ClosedArc(n, t, peers[hop].pred, hop) {
      ReplyIsRight(n, peers.Keys, peers[hop], t, x, x);
      AnsweredAtOnce(n, peers, hop, t, x);
    } else {
      KeysOnRing(w, peers);
      var last := LastExists(n, peers.Keys, t, x);
      LookupAnswered(w, peers, hop, t, x, x, false, 0, last, w);
    }
  }

  lemma AnsweredAtOnce(n: nat, peers: map<nat, Peer>, at: nat, t: nat, x: nat)
    requires n > 0 && at in peers && Find(n, peers[at], t, x, x).Reply?
    ensures Lookup(n, peers, at, t, x, x, false, 0) == Answered(Find(n, peers[at], t, x, x).found, 0)
  {
    hide Find;
  }

  lemma Another(s: set<nat>, x: nat) returns (y: nat)
    requires x in s && |s| >= 2
    ensures y in s && y != x
  {
    assert |s - {x}| == |s| - 1;
    y :| y in s - {x};
  }

  // ---- joins ----

  /**
   On a stabilised ring a join, whomever it contacts, is never dropped: after at most
   w + 1 forwards it is answered by the one node whose arc contains the joiner.
   */
  lemma JoinIsAnswered(w: nat, peers: map<nat, Peer>, contact: nat, j: nat)
    requires Stabilised(w, peers) && contact in peers && j < Pow2(w) && j !in peers
    ensures var n := Pow2(w);
            var t := Plus(n, j, 1);
            var a := Lookup(n, peers, contact, t, j, j, true, 0);
            && Found(w, peers.Keys, t, a, w + 1)
            && a.found in peers && peers[a.found].pred < n && OpenArc(n, j, peers[a.found].pred, a.found)
  {
    hide Stabilised, Exact, Find, FindSuccessor, IsSuccessor, IsLast, Adjacent, Pow2;
    var n := Pow2(w);
    var t := Plus(n, j, 1);
    TableSize(w, peers, contact);
    KeysOnRing(w, peers);
    if peers[contact].succ == contact {
      AloneAnswers(w, peers, contact, t, j);
    } else {
      WideEnough(w, peers, contact, j);
      var last := LastExists(n, peers.Keys, t, contact);
      LookupAnswered(w, peers, contact, t, j, j, true, 0, last, w);
    }
    var s := Lookup(n, peers, contact, t, j, j, true, 0).found;
    InKeys(n, peers.Keys, t, s);
    TableSize(w, peers, s);
    NewInArc(n, peers.Keys, j, s, peers[s].pred);
  }

  /** Two nodes and a joiner do not fit on a ring of two. */
  lemma WideEnough(w: nat, peers: map<nat, Peer>, x: nat, j: nat)
    requires Stabilised(w, peers) && x in peers && peers[x].succ != x && j < Pow2(w) && j !in peers
    ensures w >= 2
  {
    hide Stabilised, Exact;
    TableSize(w, peers, x);
    assert peers[x].succ in peers.Keys;
  }

  lemma NewInArc(n: nat, nodes: set<nat>, j: nat, s: nat, pred: nat)
    requires j < n && j !in nodes && IsSuccessor(n, nodes, Plus(n, j, 1), s) && Adjacent(n, nodes, pred, s)
    ensures OpenArc(n, j, pred, s)
  {
    assert Dist(n, Plus(n, j, 1), s) <= Dist(n, Plus(n, j, 1), pred);
  }

  /** A node that knows nobody answers every join itself. */
  lemma AloneReplies(n: nat, me: Peer, t: nat, j: nat)
    requires n > 0 && me.pred == me.id == me.succ && forall f <- me.fingers :: f == me.id
    ensures FindSuccessor(n, me, t, j, j, true) == Reply(me.id)
  {
  }

  lemma AloneAnswers(w: nat, peers: map<nat, Peer>, x: nat, t: nat, j: nat)
    requires Stabilised(w, peers) && x in peers && peers[x].succ == x && t < Pow2(w)
    ensures Lookup(Pow2(w), peers, x, t, j, j, true, 0) == Answered(x, 0)
    ensures IsSuccessor(Pow2(w), peers.Keys, t, x)
  {
    hide Stabilised, Pow2, FindSuccessor;
    TableSize(w, peers, x);
    forall y | y in peers.Keys ensures y == x {
      TableSize(w, peers, y);
      assert !OpenArc(Pow2(w), y, x, x);
    }
    var me := peers[x];
    forall f | f in me.fingers ensures f == x {
      var k :| 0 <= k < |me.fingers| && me.fingers[k] == f;
    }
    AloneReplies(Pow2(w), me, t, j);
  }

  // ---- lookups while successors are stale ----

  /** Five nodes with exact predecessors; 2 has not heard of 4, 6 and 8, nor 4 of 6. */
  function StaleRing(): map<nat, Peer> {
    map[2 := Peer(2, 10, 10, [10, 2], true), 4 := Peer(4, 2, 8, [8, 4], true), 6 := Peer(6, 4, 8, [8, 6], true),
        8 := Peer(8, 6, 10, [10, 2], true), 10 := Peer(10, 8, 2, [2, 10], true)]
  }

  /** The answer to the lookup of 4 for its first finger: 8 asks 2, who names 10. */
  lemma StaleAnswer(peers: map<nat, Peer>)
    requires peers == StaleRing()
    ensures 8 in peers && Lookup(16, peers, 8, 5, 4, 4, false, 0) == Answered(10, 1)
  {
    hide FindSuccessor, StaleRing;
    StaleHops(peers);
  }

  lemma StaleHops(peers: map<nat, Peer>)
    requires peers == StaleRing()
    ensures 2 in peers && 8 in peers && |peers[2].fingers| == 2 && |peers[8].fingers| == 2
    ensures FindSuccessor(16, peers[8], 5, 4, 4, false) == Forward(2)
    ensures FindSuccessor(16, peers[2], 5, 8, 4, false) == Reply(10)
  {
  }

  ghost predicate ExactPredecessors(n: nat, peers: map<nat, Peer>) {
    forall x: nat {:trigger IsNode(peers, x)} :: IsNode(peers, x) ==> x < n && Adjacent(n, peers.Keys, peers[x].pred, x)
  }

  /**
   While successors are stale, the answer to a lookup for the first finger can be farther
   away than the present successor: 4, whose true successor is 6, is led from 8 on to 10.
   */
  lemma StaleAnswerIsFarther(peers: map<nat, Peer>)
    requires peers == StaleRing()
    ensures ExactPredecessors(16, peers) && Adjacent(16, peers.Keys, 4, 6)
    ensures IsNode(peers, 4) && |peers[4].fingers| == 2 && FirstHop(peers[4], 0, 4) == 8 == peers[4].succ && IsNode(peers, 8)
    ensures var a := Lookup(16, peers, 8, Plus(16, 4, 1), 4, 4, false, 0);
            a == Answered(10, 1) && SetFinger(peers[4], 0, 10).succ == 10 && OpenArc(16, 8, 4, 10)
  {
    hide Lookup, ExactPredecessors;
    StaleAnswer(peers);
    StalePredecessors(peers);
  }

  lemma StalePredecessors(peers: map<nat, Peer>)
    requires peers == StaleRing()
    ensures ExactPredecessors(16, peers)
  {
    assert peers.Keys == {2, 4, 6, 8, 10};
  }
}
