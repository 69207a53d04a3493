/**
 What the retransmit guard does to joins. As long as every node knows its two
 neighbours, a join comes nearer to its place with every forward, whatever the other
 fingers are; so it needs no more forwards than there are other nodes, and there are
 rings on which it needs that many. The guard lets all joins through exactly if 1.5
 times the size of a finger table is at least that number.
 */
module ChordGuard {
  import opened Options
  import opened RingArithmetic
  import opened Sums
  import opened ChordRange
  import opened ChordPeer
  import opened ChordLookup
  import opened ChordJoin

  /** A node that knows the nodes before and after it; its other fingers are any nodes. */
  ghost predicate KnowsNeighbours(n: nat, size: nat, nodes: set<nat>, me: Peer) {
    && OnRing(n, me) && Adjacent(n, nodes, me.pred, me.id) && Adjacent(n, nodes, me.id, me.succ)
    && |me.fingers| == size >= 1 && me.fingers[0] == me.succ
    && forall f <- me.fingers :: f in nodes
  }

  ghost predicate Neighboured(n: nat, size: nat, peers: map<nat, Peer>) {
    forall x: nat {:trigger IsNode(peers, x)} :: IsNode(peers, x) ==>
      x < n && peers[x].id == x && KnowsNeighbours(n, size, peers.Keys, peers[x])
  }

  /** The join of j by way of contact. */
  function JoinLookup(n: nat, peers: map<nat, Peer>, contact: nat, j: nat): Answer
    requires contact in peers && j < n
  {
    Lookup(n, peers, contact, Plus(n, j, 1), j, j, true, 0)
  }

  /** Following a join from node to node is what the nodes do when they take the JOIN message. */
  lemma JoinHopIsHandled(n: nat, peers: map<nat, Peer>, at: nat, j: nat, sender: nat, counter: nat)
    requires at in peers && peers[at].id == at && j < n && j != at
    ensures var me, t := peers[at], Plus(n, j, 1);
            var h, a := Handle(n, me, Join(j, sender, counter)), Lookup(n, peers, at, t, sender, j, true, counter);
            if TooManyForwards(me, counter) then h == Handled(me, []) && a == Dropped
            else if Admits(n, me, Join(j, sender, counter)) == {j}
            then h.send == [Packet(j, Successor(at, me.pred))] && a == Answered(at, counter)
            else h.me == me && |h.send| == 1 && h.send[0].msg == Join(j, at, counter + 1)
                 && var next := h.send[0].to;
                    a == if next in peers && |peers[next].fingers| == |me.fingers|
                         then Lookup(n, peers, next, t, at, j, true, counter + 1) else Dropped
  {
    hide Find, Admit;
    NotBackToSelf(n, peers[at], Plus(n, j, 1), sender, j);
  }

  lemma NotBackToSelf(n: nat, me: Peer, t: nat, sender: nat, initiator: nat)
    requires n > 0
    ensures var o := FindSuccessor(n, me, t, sender, initiator, true);
            if o.Reply? then o.found == me.id else o.found != me.id
  {
    hide IsInRangeOverZero;
  }

  // ---- every forward comes nearer ----

  /** The nodes after x, up to and including s. */
  ghost function After(n: nat, nodes: set<nat>, x: nat, s: nat): set<nat> {
    set z | z in nodes && z < n && x < n && s < n && Ahead(n, z, x, s)
  }

  lemma KnownNode(n: nat, size: nat, peers: map<nat, Peer>, x: nat)
    requires Neighboured(n, size, peers) && x in peers
    ensures x < n && peers[x].id == x && KnowsNeighbours(n, size, peers.Keys, peers[x])
  {
    hide KnowsNeighbours;
    assert IsNode(peers, x);
  }

  /** Where other nodes are, a node is not its own neighbour. */
  lemma NotAlone(n: nat, size: nat, peers: map<nat, Peer>, x: nat)
    requires Neighboured(n, size, peers) && x in peers && |peers.Keys| >= 2
    ensures peers[x].succ != x
  {
    hide Neighboured;
    var y := Another(peers.Keys, x);
    KnownNode(n, size, peers, x);
    KnownNode(n, size, peers, y);
    assert !OpenArc(n, y, x, peers[x].succ);
  }

  lemma OneSuccessor(n: nat, nodes: set<nat>, t: nat, s: nat, z: nat)
    requires IsSuccessor(n, nodes, t, s) && IsSuccessor(n, nodes, t, z)
    ensures s == z
  {
  }

  /** A node on the way to the target is on the way to the target's successor, and has x behind it. */
  lemma OnTheWay(n: nat, nodes: set<nat>, x: nat, f: nat, t: nat, s: nat)
    requires IsSuccessor(n, nodes, t, s) && x in nodes && x < n && x != s && f < n && Ahead(n, f, x, t)
    ensures Ahead(n, f, x, s) && !Ahead(n, x, f, t)
  {
    assert Dist(n, t, s) <= Dist(n, t, x);
  }

  /** The successor can be used as long as it does not lie beyond the target. */
  lemma SuccessorIsUsable(n: nat, nodes: set<nat>, me: Peer, t: nat, sender: nat, initiator: nat)
    requires OnRing(n, me) && t < n && sender < n && initiator < n && me.succ in nodes && me.succ != me.id
    requires !ClosedArc(n, t, me.id, me.succ)
    requires Behind(n, nodes, sender, me.id, t) && Behind(n, nodes, initiator, me.id, t)
    ensures Usable(n, me.succ, me.id, t, sender, initiator)
  {
    RangeIsClosedArc(n, me.succ, me.id, t);
  }

  lemma UsableIsAhead(n: nat, me: Peer, f: nat, t: nat, sender: nat, initiator: nat)
    requires OnRing(n, me) && t < n && f < n && Usable(n, f, me.id, t, sender, initiator)
    ensures Ahead(n, f, me.id, t)
  {
    RangeIsClosedArc(n, f, me.id, t);
  }

  /** A node that is not the one a join looks for sends it to a node nearer to that one. */
  lemma HopAdvances(n: nat, size: nat, nodes: set<nat>, me: Peer, t: nat, s: nat, sender: nat, j: nat)
    requires KnowsNeighbours(n, size, nodes, me) && me.id != s && me.succ != me.id
    requires IsSuccessor(n, nodes, t, s) && sender < n && j < n && j !in nodes && Behind(n, nodes, sender, me.id, t)
    ensures var o := FindSuccessor(n, me, t, sender, j, true);
            && o.Forward? && o.found in After(n, nodes, me.id, s)
            && o.found < n && (o.found == s || Behind(n, nodes, me.id, o.found, t))
  {
    hide ClosestPreceding, FirstAllowed, Find, Usable;
    if t == me.id || t == me.pred || ClosedArc(n, t, me.pred, me.id) || ClosedArc(n, t, me.id, me.succ) {
      ReplyIsRight(n, nodes, me, t, sender, j);
      OneSuccessor(n, nodes, t, s, Find(n, me, t, sender, j).found);
    } else {
      SuccessorIsUsable(n, nodes, me, t, sender, j);
      var i := ClosestIsHighest(n, me.id, me.fingers, t, sender, j, 0);
      UsableIsAhead(n, me, me.fingers[i], t, sender, j);
      FindForwards(n, me, t, sender, j);
      OnTheWay(n, nodes, me.id, me.fingers[i], t, s);
    }
  }

  lemma AfterShrinks(n: nat, nodes: set<nat>, x: nat, f: nat, s: nat)
    requires f in After(n, nodes, x, s)
    ensures |After(n, nodes, f, s)| < |After(n, nodes, x, s)|
  {
    assert After(n, nodes, f, s) <= After(n, nodes, x, s) && f !in After(n, nodes, f, s);
    StrictlyFewer(After(n, nodes, f, s), After(n, nodes, x, s));
  }

  /** From node at, the join needs at most one forward for every node up to the one it looks for. */
  lemma {:induction false} JoinAdvances(n: nat, size: nat, peers: map<nat, Peer>, at: nat, t: nat, s: nat, sender: nat,
                                        j: nat, counter: nat)
    requires Neighboured(n, size, peers) && |peers.Keys| >= 2 && at in peers
    requires IsSuccessor(n, peers.Keys, t, s) && sender < n && j < n && j !in peers
    requires at < n && (at == s || Behind(n, peers.Keys, sender, at, t))
    requires 2 * (counter + |After(n, peers.Keys, at, s)|) <= 3 * size
    ensures var a := Lookup(n, peers, at, t, sender, j, true, counter);
            a.Answered? && a.found == s && a.forwards <= counter + |After(n, peers.Keys, at, s)|
    decreases |After(n, peers.Keys, at, s)|
  {
    hide Neighboured, FindSuccessor, IsSuccessor, After, Behind, Adjacent;
    KnownNode(n, size, peers, at);
    NotAlone(n, size, peers, at);
    if at == s {
      OwnerAnswers(n, peers, s, t, sender, j, counter);
    } else {
      HopAdvances(n, size, peers.Keys, peers[at], t, s, sender, j);
      var f := FindSuccessor(n, peers[at], t, sender, j, true).found;
      InAfter(n, peers.Keys, at, s, f);
      AfterShrinks(n, peers.Keys, at, f, s);
      KnownNode(n, size, peers, f);
      JoinAdvances(n, size, peers, f, t, s, at, j, counter + 1);
    }
  }

  lemma InAfter(n: nat, nodes: set<nat>, x: nat, s: nat, f: nat)
    requires f in After(n, nodes, x, s)
    ensures f in nodes
  {
  }

  // ---- how many forwards a join can need ----

  /**
   The most forwards a join can need among m nodes. If the joiner takes the last free
   identifier, its target is itself a node, and known to the node after it.
   */
  function MostForwards(n: nat, m: nat): int {
    if m + 1 == n then m - 2 else m - 1
  }

  lemma {:induction false} FirstExists(n: nat, nodes: set<nat>, t: nat, z: nat) returns (s: nat)
    requires t < n && z in nodes && forall x <- nodes :: x < n
    ensures IsSuccessor(n, nodes, t, s)
    decreases Dist(n, t, z)
  {
    if y :| y in nodes && Dist(n, t, y) < Dist(n, t, z) {
      s := FirstExists(n, nodes, t, y);
    } else {
      s := z;
    }
  }

  /** If only one identifier is free, all others are nodes. */
  lemma OthersAreNodes(n: nat, nodes: set<nat>, j: nat, z: nat)
    requires (forall x <- nodes :: x < n) && |nodes| + 1 == n && j !in nodes && j < n && z < n && z != j
    ensures z in nodes
  {
    hide Numbers;
    var all := Numbers(n);
    if z !in nodes {
      assert |all - {j}| == n - 1;
      assert |all - {j} - {z}| == n - 2;
      Fewer(nodes, all - {j} - {z});
    }
  }

  lemma AfterIsFew(n: nat, nodes: set<nat>, x: nat, s: nat)
    requires x in nodes && x < n
    ensures |After(n, nodes, x, s)| <= |nodes| - 1
  {
    assert |nodes - {x}| == |nodes| - 1;
    Fewer(After(n, nodes, x, s), nodes - {x});
  }

  /** Unless s is the node before x, the node after s is another one that the join does not pass. */
  lemma AfterIsFewer(n: nat, nodes: set<nat>, x: nat, s: nat, y: nat)
    requires x in nodes && x < n && Adjacent(n, nodes, s, y) && x != y && x != s && s != y
    ensures |After(n, nodes, x, s)| <= |nodes| - 2
  {
    assert !OpenArc(n, x, s, y);
    assert |nodes - {x}| == |nodes| - 1;
    assert |nodes - {x} - {y}| == |nodes| - 2;
    Fewer(After(n, nodes, x, s), nodes - {x} - {y});
  }

  /** The node after the target's successor knows it, if that is the target itself. */
  lemma TargetIsPredecessor(n: nat, size: nat, peers: map<nat, Peer>, x: nat, t: nat, j: nat)
    requires Neighboured(n, size, peers) && |peers.Keys| >= 2 && x in peers && t in peers && j < n && x != t
    requires peers[x].pred == t
    ensures Lookup(n, peers, x, t, j, j, true, 0) == Answered(t, 1)
  {
    hide Neighboured, Find, Adjacent;
    KnownNode(n, size, peers, x);
    KnownNode(n, size, peers, t);
    NotAlone(n, size, peers, t);
    OwnTarget(n, peers.Keys, t);
    OwnerAnswers(n, peers, t, t, x, j, 1);
    PredecessorReplies(n, peers[x], j);
  }

  lemma OwnTarget(n: nat, nodes: set<nat>, t: nat)
    requires t in nodes && t < n
    ensures IsSuccessor(n, nodes, t, t)
  {
  }

  lemma PredecessorReplies(n: nat, me: Peer, j: nat)
    requires n > 0 && me.pred != me.id
    ensures Find(n, me, me.pred, j, j) == Reply(me.pred)
  {
    hide ClosestPreceding, FirstAllowed;
  }

  lemma OnePredecessor(n: nat, nodes: set<nat>, s: nat, x: nat, p: nat)
    requires Adjacent(n, nodes, s, x) && Adjacent(n, nodes, p, x) && s != x
    ensures p == s
  {
    assert !OpenArc(n, s, p, x) && !OpenArc(n, p, s, x);
  }

  /** A join among nodes that know their neighbours is answered by the right one, unless the guard is too narrow. */
  lemma JoinReachesOwner(n: nat, size: nat, peers: map<nat, Peer>, contact: nat, j: nat)
    requires Neighboured(n, size, peers) && contact in peers && j < n && j !in peers
    requires 2 * MostForwards(n, |peers.Keys|) <= 3 * size
    ensures var a := JoinLookup(n, peers, contact, j);
            a.Answered? && IsSuccessor(n, peers.Keys, Plus(n, j, 1), a.found)
            && a.forwards <= if MostForwards(n, |peers.Keys|) > 1 then MostForwards(n, |peers.Keys|) else 1
  {
    hide Neighboured, Lookup, After, Adjacent, IsSuccessor, Behind;
    var nodes, t := peers.Keys, Plus(n, j, 1);
    KnownNode(n, size, peers, contact);
    NodesOnRing(n, size, peers);
    var s := FirstExists(n, nodes, t, contact);
    if |nodes| == 1 {
      OnlyNodeAnswers(n, size, peers, contact, t, s, j);
    } else {
      StartsBehind(n, nodes, j, contact, t);
      AfterIsFew(n, nodes, contact, s);
      if |nodes| + 1 == n {
        LastIdentifier(n, size, peers, contact, t, s, j);
      } else {
        JoinAdvances(n, size, peers, contact, t, s, j, j, 0);
      }
    }
  }

  lemma NodesOnRing(n: nat, size: nat, peers: map<nat, Peer>)
    requires Neighboured(n, size, peers)
    ensures forall x <- peers.Keys :: x < n
  {
    hide Neighboured;
    forall x | x in peers.Keys ensures x < n {
      KnownNode(n, size, peers, x);
    }
  }

  /** The joiner is no node yet, so as the first sender it stands in nobody's way. */
  lemma StartsBehind(n: nat, nodes: set<nat>, j: nat, x: nat, t: nat)
    requires j < n && x < n && t < n && j !in nodes
    ensures Behind(n, nodes, j, x, t)
  {
  }

  lemma OnlyNodeAnswers(n: nat, size: nat, peers: map<nat, Peer>, x: nat, t: nat, s: nat, j: nat)
    requires Neighboured(n, size, peers) && |peers.Keys| == 1 && x in peers && IsSuccessor(n, peers.Keys, t, s)
    ensures Lookup(n, peers, x, t, j, j, true, 0) == Answered(s, 0)
  {
    hide Neighboured, FindSuccessor;
    KnownNode(n, size, peers, x);
    assert |peers.Keys - {x}| == 0;
    forall y | y in peers.Keys ensures y == x {
      assert y !in peers.Keys - {x};
    }
    AloneReplies(n, peers[x], t, j);
  }

  /** The joiner takes the last free identifier. */
  lemma LastIdentifier(n: nat, size: nat, peers: map<nat, Peer>, x: nat, t: nat, s: nat, j: nat)
    requires Neighboured(n, size, peers) && |peers.Keys| >= 2 && |peers.Keys| + 1 == n && x in peers && x < n
    requires j < n && j !in peers && t == Plus(n, j, 1) && IsSuccessor(n, peers.Keys, t, s)
    requires 2 * (|peers.Keys| - 2) <= 3 * size && Behind(n, peers.Keys, j, x, t)
    ensures var a := Lookup(n, peers, x, t, j, j, true, 0);
            a.Answered? && a.found == s && a.forwards <= if |peers.Keys| > 3 then |peers.Keys| - 2 else 1
  {
    hide Neighboured, Lookup, After, Adjacent, Behind;
    var nodes := peers.Keys;
    NodesOnRing(n, size, peers);
    OthersAreNodes(n, nodes, j, t);
    OwnTarget(n, nodes, t);
    OneSuccessor(n, nodes, t, s, t);
    KnownNode(n, size, peers, x);
    KnownNode(n, size, peers, t);
    NotAlone(n, size, peers, t);
    if x == t {
      NothingAfter(n, nodes, t);
      JoinAdvances(n, size, peers, x, t, s, j, j, 0);
    } else if peers[x].pred == t {
      TargetIsPredecessor(n, size, peers, x, t, j);
    } else {
      if peers[t].succ == x {
        OnePredecessor(n, nodes, t, x, peers[x].pred);
      }
      AfterIsFewer(n, nodes, x, t, peers[t].succ);
      JoinAdvances(n, size, peers, x, t, s, j, j, 0);
    }
  }

  lemma NothingAfter(n: nat, nodes: set<nat>, x: nat)
    ensures After(n, nodes, x, x) == {}
  {
  }

  // ---- rings on which a join needs that many ----

  /** A node with exact neighbours that has filled only its first finger. */
  function Newcomer(id: nat, m: nat, size: nat): Peer
    requires id < m && size >= 1
  {
    var succ := Plus(m, id, 1);
    Peer(id, Plus(m, id, m - 1), succ, [succ] + seq(size - 1, i => id), true)
  }

  /** The nodes 0 to m - 1. */
  function Newcomers(m: nat, size: nat): (peers: map<nat, Peer>)
    requires size >= 1
    ensures forall k: nat {:trigger IsNode(peers, k)} :: IsNode(peers, k) <==> k < m
  {
    map k | 0 <= k < m :: Newcomer(k, m, size)
  }

  lemma NewcomersAre(m: nat, size: nat)
    requires size >= 1
    ensures Newcomers(m, size).Keys == Numbers(m)
    ensures forall x: nat {:trigger Newcomers(m, size)[x]} :: x < m ==>
              IsNode(Newcomers(m, size), x) && Newcomers(m, size)[x] == Newcomer(x, m, size)
  {
    hide Numbers;
    var peers := Newcomers(m, size);
    forall x: nat ensures x in peers.Keys <==> x in Numbers(m) {
      assert IsNode(peers, x) <==> x < m;
    }
  }

  lemma NumbersAreAdjacent(n: nat, m: nat, x: nat)
    requires x < m < n
    ensures Adjacent(n, Numbers(m), Plus(m, x, m - 1), x) && Adjacent(n, Numbers(m), x, Plus(m, x, 1))
  {
    hide Numbers;
  }

  lemma NewcomersKnowNeighbours(n: nat, m: nat, size: nat)
    requires m < n && size >= 1
    ensures Neighboured(n, size, Newcomers(m, size))
  {
    hide Adjacent, Newcomers, Numbers;
    var peers := Newcomers(m, size);
    NewcomersAre(m, size);
    forall x: nat | IsNode(peers, x) ensures x < n && peers[x].id == x && KnowsNeighbours(n, size, peers.Keys, peers[x]) {
      NumbersAreAdjacent(n, m, x);
    }
  }

  /** The node the longest join starts from. */
  function Start(n: nat, m: nat): nat {
    if m + 1 == n then 2 else 1
  }

  /** A newcomer that does not know the target passes a join of node m on to its successor. */
  lemma NewcomerForwards(n: nat, m: nat, size: nat, i: nat, sender: nat)
    requires Start(n, m) <= i < m < n && m >= 3 && size >= 1 && sender < n && sender != i && sender != Plus(m, i, 1)
    ensures FindSuccessor(n, Newcomer(i, m, size), Plus(n, m, 1), sender, m, true) == Forward(Plus(m, i, 1))
  {
    hide ClosestPreceding, FirstAllowed, IsInRangeOverZero;
    var me, t := Newcomer(i, m, size), Plus(n, m, 1);
    RangeIsClosedArc(n, t, me.pred, me.id);
    RangeIsClosedArc(n, t, me.id, me.succ);
    if i + 1 < m {
      RangeIsClosedArc(n, me.succ, i, t);
      var k := ClosestIsHighest(n, i, me.fingers, t, sender, m, 0);
      assert k == 0;
    }
  }

  /** The join of node m on its way from node i to node 0. */
  lemma {:induction false} NewcomersDrop(n: nat, m: nat, size: nat, i: nat, sender: nat)
    requires Start(n, m) <= i < m < n && m >= 3 && size >= 1 && sender < n && sender != i && sender != Plus(m, i, 1)
    requires 2 * MostForwards(n, m) > 3 * size
    ensures IsNode(Newcomers(m, size), i)
    ensures Lookup(n, Newcomers(m, size), i, Plus(n, m, 1), sender, m, true, i - Start(n, m)) == Dropped
    decreases m - i
  {
    hide FindSuccessor, Newcomers, Numbers;
    NewcomersAre(m, size);
    NewcomerForwards(n, m, size, i, sender);
    var next := Plus(m, i, 1);
    assert IsNode(Newcomers(m, size), next) && Newcomers(m, size)[next] == Newcomer(next, m, size);
    assert Newcomers(m, size)[i] == Newcomer(i, m, size);
    if i + 1 < m {
      NewcomersDrop(n, m, size, i + 1, i);
    }
  }

  /**
   Beyond the bound, for every number of identifiers, nodes and fingers, the guard can
   drop a join: the nodes 0 to m - 1 know only their neighbours, and node m joins by way
   of the first node that has not heard of node 0. The join goes round to node 0, which
   should answer but finds that it was forwarded too often.
   */
  lemma JoinCanBeDropped(n: nat, m: nat, size: nat)
    requires 1 <= m < n && size >= 1 && 2 * MostForwards(n, m) > 3 * size
    ensures var peers := Newcomers(m, size);
            && Neighboured(n, size, peers) && |peers.Keys| == m && Start(n, m) in peers && m !in peers
            && JoinLookup(n, peers, Start(n, m), m) == Dropped
  {
    hide Lookup, Newcomers, Neighboured, Numbers;
    NewcomersAre(m, size);
    NewcomersKnowNeighbours(n, m, size);
    NewcomersDrop(n, m, size, Start(n, m), m);
  }

  /** On every ring of m nodes that know their neighbours, every join by way of every node is answered. */
  ghost predicate AlwaysAnswered(n: nat, m: nat, size: nat) {
    forall peers: map<nat, Peer>, contact: nat, j: nat ::
      Neighboured(n, size, peers) && |peers.Keys| == m && contact in peers && j < n && j !in peers ==>
        JoinLookup(n, peers, contact, j).Answered?
  }

  /** The guard lets every join through exactly if the finger tables are large enough for the number of nodes. */
  lemma GuardIsWideEnough(n: nat, m: nat, size: nat)
    requires 1 <= m < n && size >= 1
    ensures AlwaysAnswered(n, m, size) <==> 2 * MostForwards(n, m) <= 3 * size
  {
    hide JoinLookup, Neighboured;
    if 2 * MostForwards(n, m) <= 3 * size {
      forall peers: map<nat, Peer>, contact: nat, j: nat
        | Neighboured(n, size, peers) && |peers.Keys| == m && contact in peers && j < n && j !in peers
        ensures JoinLookup(n, peers, contact, j).Answered?
      {
        JoinReachesOwner(n, size, peers, contact, j);
      }
    } else {
      JoinCanBeDropped(n, m, size);
    }
  }
}
