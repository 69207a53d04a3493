/**
 Every step of the joining network keeps the ring: the effective predecessor
 pointers are at all times exactly the clockwise order of the admitted nodes.
 */
module ChordRing {
  import opened Options
  import opened RingArithmetic
  import opened Sums
  import opened ChordRange
  import opened ChordPeer
  import opened ChordJoin

  // ---- the ring as a set of identifiers ----

  /** A node put between two neighbours is a neighbour of both. */
  lemma InsertBetween(n: nat, nodes: set<nat>, p: nat, x: nat, j: nat)
    requires Adjacent(n, nodes, p, x) && j < n && OpenArc(n, j, p, x)
    ensures Adjacent(n, nodes + {j}, p, j) && Adjacent(n, nodes + {j}, j, x)
  {
    forall z | z in nodes + {j} && z < n ensures !OpenArc(n, z, p, j) && !OpenArc(n, z, j, x) {
      if z in nodes {
        assert !OpenArc(n, z, p, x);
      }
    }
  }

  /** Neighbours elsewhere on the ring are not affected. */
  lemma InsertElsewhere(n: nat, nodes: set<nat>, p: nat, x: nat, j: nat, q: nat, w: nat)
    requires Adjacent(n, nodes, p, x) && j < n && OpenArc(n, j, p, x)
    requires Adjacent(n, nodes, q, w) && w != x
    ensures Adjacent(n, nodes + {j}, q, w)
  {
    assert !OpenArc(n, w, p, x) && !OpenArc(n, q, p, x) && !OpenArc(n, x, q, w) && !OpenArc(n, p, q, w);
    assert !OpenArc(n, j, q, w);
  }

  // ---- growing states ----

  predicate Later(s: Net, s': Net) {
    && s.admitted <= s'.admitted && s.peers.Keys <= s'.peers.Keys
    && forall y {:trigger s'.peers[y]} :: y in s.peers && s.peers[y].joined ==> s'.peers[y].joined
  }

  lemma PacketLater(s: Net, s': Net, p: Packet)
    requires Later(s, s') && PacketOk(s, p)
    requires p.msg.Join? ==> p.msg.joiner !in s'.admitted
    ensures PacketOk(s', p)
  {
  }

  lemma PeerLater(n: nat, s: Net, s': Net, y: nat)
    requires Later(s, s') && y in s.peers && PeerOk(n, s, y) && s'.peers[y] == s.peers[y]
    ensures PeerOk(n, s', y)
  {
  }

  /** Only node x changed, and the packets are old ones or right ones. */
  lemma ShapeLater(n: nat, seed: nat, s: Net, s': Net, x: nat)
    requires Shape(n, seed, s) && Later(s, s') && s'.admitted <= s'.peers.Keys
    requires forall y {:trigger s'.peers[y]} :: y in s'.peers && y != x ==> y in s.peers && s'.peers[y] == s.peers[y]
    requires x in s'.peers && PeerOk(n, s', x)
    requires !s'.peers[seed].joined ==> s'.admitted == {seed}
    requires forall p <- s'.net :: PacketOk(s', p) || (p in s.net && (p.msg.Join? ==> p.msg.joiner !in s'.admitted))
    ensures Shape(n, seed, s')
  {
    hide PeerOk, PacketOk;
    forall y | y in s'.peers ensures PeerOk(n, s', y) {
      if y != x {
        PeerLater(n, s, s', y);
      }
    }
    forall p | p in s'.net ensures PacketOk(s', p) {
      if !PacketOk(s', p) {
        assert PacketOk(s, p);
        PacketLater(s, s', p);
      }
    }
  }

  // ---- steps that admit nobody ----

  /** Sending packets that are neither answers nor second copies of a join. */
  predicate Harmless(out: seq<Packet>) {
    forall p <- out :: !p.msg.Successor?
  }

  lemma NoAnswers(out: seq<Packet>, y: nat)
    requires Harmless(out)
    ensures Sum(AnswerTo(y), out) == 0
  {
    if out != [] {
      assert out[0] in out && forall p <- out[1..] :: p in out;
      NoAnswers(out[1..], y);
    }
  }

  lemma {:induction false} FirstHarmless(out: seq<Packet>, y: nat)
    requires Harmless(out)
    ensures FirstTo(out, y).Some? ==> !FirstTo(out, y).value.Successor?
  {
    if out != [] {
      assert out[0] in out && forall p <- out[1..] :: p in out;
      FirstHarmless(out[1..], y);
    }
  }

  /** Only x changed, and with its answer taken into account its predecessor did not. */
  predicate SamePointers(s: Net, s': Net, seed: nat, x: nat) {
    && s'.admitted == s.admitted && s.admitted <= s.peers.Keys && s.admitted <= s'.peers.Keys
    && (forall y {:trigger s'.peers[y]} :: y in s.admitted && y != x ==> s'.peers[y] == s.peers[y])
    && (x in s.admitted ==>
          && s'.peers[x].pred == EffectivePred(s, seed, x)
          && !Pending(s', seed, x)
          && (s'.peers[x].joined == s.peers[x].joined || Pending(s, seed, x)))
  }

  /** Messages to other nodes come in the order they came before. */
  ghost predicate SameQueues(s: Net, s': Net, seed: nat, x: nat) {
    forall y {:trigger FirstTo(s'.net, y)} :: y != x && FirstTo(s.net, y).Some? ==> FirstTo(s'.net, y) == FirstTo(s.net, y)
  }

  lemma SamePred(n: nat, s: Net, s': Net, seed: nat, x: nat, y: nat)
    requires Shape(n, seed, s) && Counts(seed, s)
    requires SamePointers(s, s', seed, x) && SameQueues(s, s', seed, x) && y in s.admitted
    ensures EffectivePred(s', seed, y) == EffectivePred(s, seed, y)
    ensures Pending(s', seed, y) == (Pending(s, seed, y) && y != x)
  {
    hide PeerOk, PacketOk, Sum;
    assert y != x ==> s'.peers[y] == s.peers[y];
    assert FirstTo(s.net, y) == FirstTo(s.net, y) && FirstTo(s'.net, y) == FirstTo(s'.net, y);
  }

  lemma RingSame(n: nat, s: Net, s': Net, seed: nat, x: nat)
    requires Inv(n, seed, s) && Shape(n, seed, s')
    requires SamePointers(s, s', seed, x) && SameQueues(s, s', seed, x)
    ensures Ring(n, seed, s')
  {
    hide PeerOk, PacketOk, Counts, SameQueues, SamePointers, Adjacent, EffectivePred;
    assert s'.admitted == s.admitted by { SameAdmitted(s, s', seed, x); }
    forall y | y in s'.admitted
      ensures RingAt(n, seed, s', y)
    {
      SamePred(n, s, s', seed, x, y);
      assert RingAt(n, seed, s, y);
    }
  }

  lemma SameAdmitted(s: Net, s': Net, seed: nat, x: nat)
    requires SamePointers(s, s', seed, x)
    ensures s'.admitted == s.admitted
  {
  }

  lemma CountsSame(n: nat, s: Net, s': Net, seed: nat, x: nat)
    requires Shape(n, seed, s) && Counts(seed, s)
    requires SamePointers(s, s', seed, x) && SameQueues(s, s', seed, x)
    requires forall j {:trigger JoinOf(j)} :: Sum(JoinOf(j), s'.net) <= 1
    requires forall y {:trigger AnswerTo(y)} ::
               Sum(AnswerTo(y), s'.net) == if y == x && Pending(s, seed, x) then 0 else Sum(AnswerTo(y), s.net)
    ensures Counts(seed, s')
  {
    hide PeerOk, PacketOk, Sum;
    forall y ensures Sum(AnswerTo(y), s'.net) == if Pending(s', seed, y) then 1 else 0 {
      if y in s.admitted {
        SamePred(n, s, s', seed, x, y);
      }
      assert Sum(AnswerTo(y), s.net) == if Pending(s, seed, y) then 1 else 0;
    }
    forall y | Pending(s', seed, y) ensures FirstTo(s'.net, y).Some? && FirstTo(s'.net, y).value.Successor? {
      SamePred(n, s, s', seed, x, y);
      assert FirstTo(s.net, y) == FirstTo(s.net, y);
    }
  }

  // ---- who takes what ----

  /** The first packet of a pending node is its answer, and nobody else gets one. */
  lemma PendingTakesAnswer(n: nat, seed: nat, s: Net, i: nat)
    requires Inv(n, seed, s) && Enabled(n, s, Receive(i))
    ensures Pending(s, seed, s.net[i].to) <==> s.net[i].msg.Successor?
  {
    hide PeerOk, PacketOk, Ring;
    var x := s.net[i].to;
    FirstToIs(s.net, i);
    SumMember(AnswerTo(x), s.net, s.net[i]);
    assert Sum(AnswerTo(x), s.net) == if Pending(s, seed, x) then 1 else 0;
    assert FirstTo(s.net, x) == Some(s.net[i].msg);
  }

  /** A node that has its answer is joined, or it is the first node and still alone. */
  lemma JoinedOrAlone(n: nat, seed: nat, s: Net, x: nat)
    requires Inv(n, seed, s) && x in s.admitted && !Pending(s, seed, x)
    ensures x in s.peers && PeerOk(n, s, x)
    ensures s.peers[x].joined || (x == seed && s.admitted == {seed})
    ensures EffectivePred(s, seed, x) == s.peers[x].pred
    ensures x < n && s.peers[x].pred < n && Adjacent(n, s.admitted, s.peers[x].pred, x)
  {
    hide PeerOk, PacketOk, Counts;
    assert RingAt(n, seed, s, x);
    assert PeerOk(n, s, x) by { assert s.peers[x] == s.peers[x]; }
  }

  /** The packet that is taken is a right one, for a node of the ring. */
  lemma TakenOk(n: nat, seed: nat, s: Net, i: nat)
    requires Inv(n, seed, s) && Enabled(n, s, Receive(i))
    ensures PacketOk(s, s.net[i]) && s.net[i].to in s.admitted && n > 0
    ensures PeerOk(n, s, s.net[i].to)
  {
    hide PeerOk, Counts, Ring;
    assert s.net[i] in s.net;
    assert PeerOk(n, s, s.net[i].to) by { assert s.peers[s.net[i].to] == s.peers[s.net[i].to]; }
    AllOnRing(n, seed, s, seed);
  }

  lemma AllOnRing(n: nat, seed: nat, s: Net, x: nat)
    requires Shape(n, seed, s) && x in s.admitted
    ensures x in s.peers && x < n
  {
    hide PacketOk;
    assert s.peers[x] == s.peers[x];
  }

  function Received(s: Net, i: nat, me: Peer, out: seq<Packet>): Net
    requires i < |s.net|
  {
    Net(s.peers[s.net[i].to := me], RemoveAt(s.net, i) + out, s.admitted)
  }

  /** A receipt that admits nobody: what the node and its packets must satisfy. */
  lemma ReceiveQuiet(n: nat, seed: nat, s: Net, i: nat, me: Peer, out: seq<Packet>)
    requires Inv(n, seed, s) && Enabled(n, s, Receive(i))
    requires var s', x := Received(s, i, me, out), s.net[i].to;
             && PeerOk(n, s', x)
             && me.pred == EffectivePred(s, seed, x)
             && (me.joined == s.peers[x].joined || (me.joined && Pending(s, seed, x)))
             && (Pending(s, seed, x) ==> me.joined)
             && (forall p <- out :: PacketOk(s', p))
    requires Harmless(out)
    requires forall j {:trigger JoinOf(j)} :: Sum(JoinOf(j), out) <= JoinOf(j)(s.net[i])
    ensures Inv(n, seed, Received(s, i, me, out))
  {
    hide PeerOk, PacketOk, Sum, Ring, EffectivePred, Counts;
    var s', x := Received(s, i, me, out), s.net[i].to;
    TakenOk(n, seed, s, i);
    PendingTakesAnswer(n, seed, s, i);
    ReceiveShape(n, seed, s, i, me, out);
    ReceiveQueues(s, seed, i, me, out);
    assert SamePointers(s, s', seed, x);
    RingSame(n, s, s', seed, x);
    ReceiveCounts(n, seed, s, i, me, out);
  }

  lemma ReceiveShape(n: nat, seed: nat, s: Net, i: nat, me: Peer, out: seq<Packet>)
    requires Shape(n, seed, s) && i < |s.net| && s.net[i].to in s.peers
    requires PeerOk(n, Received(s, i, me, out), s.net[i].to)
    requires s.peers[s.net[i].to].joined ==> me.joined
    requires forall p <- out :: PacketOk(Received(s, i, me, out), p)
    ensures Shape(n, seed, Received(s, i, me, out))
  {
    hide PeerOk, Sum;
    var s', x := Received(s, i, me, out), s.net[i].to;
    forall p | p in s'.net
      ensures PacketOk(s', p) || (p in s.net && (p.msg.Join? ==> p.msg.joiner !in s'.admitted))
    {
      if p !in out {
        assert p in s.net && PacketOk(s, p);
      }
    }
    ShapeLater(n, seed, s, s', x);
  }

  lemma ReceiveQueues(s: Net, seed: nat, i: nat, me: Peer, out: seq<Packet>)
    requires i < |s.net|
    ensures SameQueues(s, Received(s, i, me, out), seed, s.net[i].to)
  {
    forall y | y != s.net[i].to && FirstTo(s.net, y).Some?
      ensures FirstTo(Received(s, i, me, out).net, y) == FirstTo(s.net, y)
    {
      FirstToRemove(s.net, i, y);
      FirstToAppend(RemoveAt(s.net, i), out, y);
    }
  }

  lemma ReceiveCounts(n: nat, seed: nat, s: Net, i: nat, me: Peer, out: seq<Packet>)
    requires Shape(n, seed, s) && Counts(seed, s) && i < |s.net| && s.net[i].to in s.peers
    requires Pending(s, seed, s.net[i].to) <==> s.net[i].msg.Successor?
    requires var s', x := Received(s, i, me, out), s.net[i].to;
             SamePointers(s, s', seed, x) && SameQueues(s, s', seed, x)
    requires Harmless(out)
    requires forall j {:trigger JoinOf(j)} :: Sum(JoinOf(j), out) <= JoinOf(j)(s.net[i])
    ensures Counts(seed, Received(s, i, me, out))
  {
    hide PeerOk, PacketOk, Sum, EffectivePred, SamePointers, SameQueues;
    var s', x := Received(s, i, me, out), s.net[i].to;
    forall j ensures Sum(JoinOf(j), s'.net) <= 1 {
      SumDeliver(JoinOf(j), s.net, i, out);
      assert Sum(JoinOf(j), s.net) <= 1;
    }
    forall y
      ensures Sum(AnswerTo(y), s'.net) == if y == x && Pending(s, seed, x) then 0 else Sum(AnswerTo(y), s.net)
    {
      SumDeliver(AnswerTo(y), s.net, i, out);
      NoAnswers(out, y);
      assert Sum(AnswerTo(y), s.net) == if Pending(s, seed, y) then 1 else 0;
    }
    CountsSame(n, s, s', seed, x);
  }

  // ---- one lemma per message ----

  function HandledAt(n: nat, s: Net, i: nat): Handled
    requires n > 0 && i < |s.net| && s.net[i].to in s.peers
  {
    Handle(n, s.peers[s.net[i].to], s.net[i].msg)
  }

  /** No join is multiplied by a message that creates none. */
  lemma NoJoins(i: nat, net: seq<Packet>, out: seq<Packet>)
    requires i < |net| && |out| <= 1 && forall p <- out :: !p.msg.Join?
    ensures forall j {:trigger JoinOf(j)} :: Sum(JoinOf(j), out) <= JoinOf(j)(net[i])
  {
  }

  /** The answer gives the joiner the predecessor that was meant for it. */
  lemma SuccessorInv(n: nat, seed: nat, s: Net, i: nat)
    requires Inv(n, seed, s) && n > 0 && Enabled(n, s, Receive(i)) && s.net[i].msg.Successor?
    ensures var h := HandledAt(n, s, i); Inv(n, seed, Received(s, i, h.me, h.send))
  {
    hide PacketOk, Sum, Ring, Counts;
    var x, h := s.net[i].to, HandledAt(n, s, i);
    TakenOk(n, seed, s, i);
    PendingTakesAnswer(n, seed, s, i);
    FirstToIs(s.net, i);
    NoJoins(i, s.net, h.send);
    SuccessorPeer(n, seed, s, i);
    ReceiveQuiet(n, seed, s, i, h.me, h.send);
  }

  lemma SuccessorPeer(n: nat, seed: nat, s: Net, i: nat)
    requires Shape(n, seed, s) && n > 0 && Enabled(n, s, Receive(i)) && s.net[i].msg.Successor?
    requires s.net[i].to in s.admitted && PacketOk(s, s.net[i]) && PeerOk(n, s, s.net[i].to)
    requires !s.peers[s.net[i].to].joined
    ensures var h := HandledAt(n, s, i);
            && h.send == [] && h.me.joined && h.me.pred == s.net[i].msg.service
            && PeerOk(n, Received(s, i, h.me, []), s.net[i].to)
  {
    hide IsInRangeOverZeroNotInc;
    var x, h := s.net[i].to, HandledAt(n, s, i);
    forall f | f in h.me.fingers ensures f in s.admitted {
      var k :| 0 <= k < |h.me.fingers| && h.me.fingers[k] == f;
      assert s.peers[x].fingers[k] in s.peers[x].fingers;
    }
  }

  lemma FindPredecessorInv(n: nat, seed: nat, s: Net, i: nat)
    requires Inv(n, seed, s) && n > 0 && Enabled(n, s, Receive(i)) && s.net[i].msg.FindPredecessor?
    ensures var h := HandledAt(n, s, i); Inv(n, seed, Received(s, i, h.me, h.send))
  {
    hide Sum, Ring, Counts, Shape, PeerOk, PacketOk;
    var x, h := s.net[i].to, HandledAt(n, s, i);
    TakenOk(n, seed, s, i);
    PendingTakesAnswer(n, seed, s, i);
    JoinedOrAlone(n, seed, s, x);
    FindPredecessorAnswer(n, seed, s, i);
    NoJoins(i, s.net, h.send);
    SameMe(n, s, i, h.send);
    ReceiveQuiet(n, seed, s, i, h.me, h.send);
  }

  lemma FindPredecessorAnswer(n: nat, seed: nat, s: Net, i: nat)
    requires Shape(n, seed, s) && n > 0 && Enabled(n, s, Receive(i)) && s.net[i].msg.FindPredecessor?
    requires s.net[i].to in s.admitted && PacketOk(s, s.net[i]) && PeerOk(n, s, s.net[i].to)
    ensures var h, x := HandledAt(n, s, i), s.net[i].to;
            && h.me == s.peers[x] && |h.send| <= 1 && Harmless(h.send)
            && (forall p <- h.send :: p.msg.Predecessor? && PacketOk(Received(s, i, h.me, h.send), p))
  {
  }

  lemma SameMe(n: nat, s: Net, i: nat, out: seq<Packet>)
    requires i < |s.net| && s.net[i].to in s.peers && PeerOk(n, s, s.net[i].to)
    ensures PeerOk(n, Received(s, i, s.peers[s.net[i].to], out), s.net[i].to)
  {
  }

  /** The answer to a stabilisation moves the successor only to another node of the ring. */
  lemma PredecessorInv(n: nat, seed: nat, s: Net, i: nat)
    requires Inv(n, seed, s) && n > 0 && Enabled(n, s, Receive(i)) && s.net[i].msg.Predecessor?
    ensures var h := HandledAt(n, s, i); Inv(n, seed, Received(s, i, h.me, h.send))
  {
    hide Sum, Ring, Counts, Shape, PeerOk, PacketOk;
    var x, h := s.net[i].to, HandledAt(n, s, i);
    TakenOk(n, seed, s, i);
    PendingTakesAnswer(n, seed, s, i);
    JoinedOrAlone(n, seed, s, x);
    PredecessorPeer(n, seed, s, i);
    NoJoins(i, s.net, h.send);
    ReceiveQuiet(n, seed, s, i, h.me, h.send);
  }

  lemma PredecessorPeer(n: nat, seed: nat, s: Net, i: nat)
    requires Shape(n, seed, s) && n > 0 && Enabled(n, s, Receive(i)) && s.net[i].msg.Predecessor?
    requires s.net[i].to in s.admitted && PacketOk(s, s.net[i]) && PeerOk(n, s, s.net[i].to)
    ensures var h, x := HandledAt(n, s, i), s.net[i].to;
            && s.peers[x].joined && h.me.joined && h.me.pred == s.peers[x].pred
            && PeerOk(n, Received(s, i, h.me, h.send), x)
            && |h.send| <= 1 && Harmless(h.send)
            && (forall p <- h.send :: p.msg.Notify? && PacketOk(Received(s, i, h.me, h.send), p))
  {
    var x, p := s.net[i].to, s.net[i].msg.found;
    AllOnRing(n, seed, s, p);
    AllOnRing(n, seed, s, s.peers[x].succ);
    RangeNotIncIsOpenArc(n, p, x, s.peers[x].succ);
  }

  /** A notify never changes a predecessor: the effective one is already the nearest. */
  lemma NotifyChangesNothing(n: nat, seed: nat, s: Net, i: nat)
    requires Inv(n, seed, s) && n > 0 && Enabled(n, s, Receive(i)) && s.net[i].msg.Notify?
    ensures HandledAt(n, s, i) == Handled(s.peers[s.net[i].to], [])
  {
    hide Sum, Ring, Counts;
    var x := s.net[i].to;
    TakenOk(n, seed, s, i);
    PendingTakesAnswer(n, seed, s, i);
    JoinedOrAlone(n, seed, s, x);
    var from := s.net[i].msg.from;
    AllOnRing(n, seed, s, from);
    RangeNotIncIsOpenArc(n, from, s.peers[x].pred, x);
    assert !OpenArc(n, from, s.peers[x].pred, x);
    if s.peers[x].joined {
      AllOnRing(n, seed, s, s.peers[x].succ);
      assert !OpenArc(n, s.peers[x].succ, s.peers[x].pred, x);
    }
  }

  lemma NotifyInv(n: nat, seed: nat, s: Net, i: nat)
    requires Inv(n, seed, s) && n > 0 && Enabled(n, s, Receive(i)) && s.net[i].msg.Notify?
    ensures var h := HandledAt(n, s, i); Inv(n, seed, Received(s, i, h.me, h.send))
  {
    hide Sum, Ring, Counts, PacketOk, PeerOk;
    TakenOk(n, seed, s, i);
    PendingTakesAnswer(n, seed, s, i);
    NotifyChangesNothing(n, seed, s, i);
    JoinedOrAlone(n, seed, s, s.net[i].to);
    NoJoins(i, s.net, []);
    SameMe(n, s, i, []);
    ReceiveQuiet(n, seed, s, i, s.peers[s.net[i].to], []);
  }

  // ---- joins ----

  /**
   A node of the ring answers a join only if the joiner lies between its predecessor
   and itself; in particular the last resort of findSuccessor is never taken by a
   node that has neighbours.
   */
  lemma AnswerIsInArc(n: nat, me: Peer, j: nat, sender: nat)
    requires OnRing(n, me) && j < n && j != me.id && j != me.pred && j !in me.fingers
    requires me.joined ==> |me.fingers| >= 1 && me.fingers[0] == me.succ != me.id && me.pred != me.id
    requires !me.joined ==> Untouched(me)
    ensures match FindSuccessor(n, me, Searched(n, j), sender, j, true)
            case Reply(f) => f == me.id && OpenArc(n, j, me.pred, me.id)
            case Forward(f) => f != me.id && (f in me.fingers || f == me.pred || f == me.succ)
  {
    hide ClosestPreceding, FirstAllowed, IsInRangeOverZero;
    var t := Searched(n, j);
    RangeIsClosedArc(n, t, me.pred, me.id);
    RangeIsClosedArc(n, t, me.id, me.succ);
    if me.joined {
      assert me.fingers[0] in me.fingers;
      if me.pred == me.succ {
        TwoArcs(n, t, me.pred, me.id);
      }
    }
  }

  lemma TwoArcs(n: nat, t: nat, a: nat, b: nat)
    requires t < n && a < n && b < n && a != b
    ensures ClosedArc(n, t, a, b) || ClosedArc(n, t, b, a)
  {
  }

  /** What a node that takes a join knows about itself and the joiner. */
  lemma JoinReady(n: nat, seed: nat, s: Net, i: nat)
    requires Inv(n, seed, s) && n > 0 && Enabled(n, s, Receive(i)) && s.net[i].msg.Join?
    ensures var x, j := s.net[i].to, s.net[i].msg.joiner;
            var me := s.peers[x];
            && PeerOk(n, s, x) && x in s.admitted && !Pending(s, seed, x)
            && (me.joined || (x == seed && s.admitted == {seed}))
            && j < n && j in s.peers && j !in s.admitted && j != x && j != me.pred && j !in me.fingers
            && OnRing(n, me) && me.pred in s.admitted
            && (me.joined ==> me.pred != x)
            && Adjacent(n, s.admitted, me.pred, x)
  {
    hide Sum, Ring, Counts;
    var x, j := s.net[i].to, s.net[i].msg.joiner;
    var me := s.peers[x];
    TakenOk(n, seed, s, i);
    PendingTakesAnswer(n, seed, s, i);
    JoinedOrAlone(n, seed, s, x);
    assert PeerOk(n, s, j) by { assert s.peers[j] == s.peers[j]; }
    assert me.pred in s.admitted && me.succ in s.admitted && forall f <- me.fingers :: f in s.admitted;
    AllOnRing(n, seed, s, me.succ);
    forall f | f in me.fingers ensures f < n {
      AllOnRing(n, seed, s, f);
    }
    assert !OpenArc(n, me.succ, me.pred, x);
  }

  /** A join that is passed on goes to another node of the ring. */
  lemma ForwardInv(n: nat, seed: nat, s: Net, i: nat)
    requires Inv(n, seed, s) && n > 0 && Enabled(n, s, Receive(i)) && s.net[i].msg.Join?
    requires Admits(n, s.peers[s.net[i].to], s.net[i].msg) == {}
    ensures var h := HandledAt(n, s, i); Inv(n, seed, Received(s, i, h.me, h.send))
  {
    hide Sum, Ring, Counts, FindSuccessor, PeerOk;
    var h := HandledAt(n, s, i);
    TakenOk(n, seed, s, i);
    JoinReady(n, seed, s, i);
    JoinedOrAlone(n, seed, s, s.net[i].to);
    PendingTakesAnswer(n, seed, s, i);
    ForwardSends(n, seed, s, i);
    SameMe(n, s, i, h.send);
    ReceiveQuiet(n, seed, s, i, h.me, h.send);
  }

  lemma ForwardSends(n: nat, seed: nat, s: Net, i: nat)
    requires Inv(n, seed, s) && n > 0 && Enabled(n, s, Receive(i)) && s.net[i].msg.Join?
    requires Admits(n, s.peers[s.net[i].to], s.net[i].msg) == {}
    ensures var h := HandledAt(n, s, i);
            && h.me == s.peers[s.net[i].to] && Harmless(h.send)
            && (forall p <- h.send :: PacketOk(Received(s, i, h.me, h.send), p))
            && (forall j {:trigger JoinOf(j)} :: Sum(JoinOf(j), h.send) <= JoinOf(j)(s.net[i]))
  {
    hide Ring, Counts, FindSuccessor;
    var x, j, sender := s.net[i].to, s.net[i].msg.joiner, s.net[i].msg.sender;
    JoinReady(n, seed, s, i);
    AnswerIsInArc(n, s.peers[x], j, sender);
  }

  // ---- admission ----

  /** The joiner lies between the predecessor of the node that takes its join and that node. */
  ghost predicate Admitting(n: nat, seed: nat, s: Net, i: nat) {
    && n > 0 && Enabled(n, s, Receive(i)) && s.net[i].msg.Join?
    && (var x, j := s.net[i].to, s.net[i].msg.joiner;
        x < n && j < n && s.peers[x].pred < n && OpenArc(n, j, s.peers[x].pred, x))
    && Inv(n, seed, s)
  }

  function Admitted(n: nat, s: Net, i: nat): Net
    requires n > 0 && i < |s.net| && s.net[i].to in s.peers && s.net[i].msg.Join?
  {
    var x, j := s.net[i].to, s.net[i].msg.joiner;
    var me := s.peers[x];
    Net(s.peers[x := Admit(n, me, j)], RemoveAt(s.net, i) + [Packet(j, Successor(x, me.pred))], s.admitted + {j})
  }

  /** The answering node takes the joiner as its predecessor, and as its successor if it was alone. */
  lemma AdmitPeer(n: nat, seed: nat, s: Net, i: nat)
    requires Admitting(n, seed, s, i)
    ensures var x, j := s.net[i].to, s.net[i].msg.joiner;
            var me := Admit(n, s.peers[x], j);
            && me.pred == j && me.joined && PeerOk(n, Admitted(n, s, i), x)
            && (s.peers[x].joined ==> me == s.peers[x].(pred := j))
  {
    hide Sum, Ring, Counts;
    var x, j := s.net[i].to, s.net[i].msg.joiner;
    JoinReady(n, seed, s, i);
    RangeNotIncIsOpenArc(n, j, s.peers[x].pred, x);
    if !s.peers[x].joined {
      var me := Admit(n, s.peers[x], j);
      forall f | f in me.fingers ensures f == x || f == j {
        var k :| 0 <= k < |me.fingers| && me.fingers[k] == f;
        assert s.peers[x].fingers[k] in s.peers[x].fingers;
      }
    }
  }

  lemma NoOtherJoin(n: nat, seed: nat, s: Net, i: nat, p: Packet)
    requires Inv(n, seed, s) && i < |s.net| && s.net[i].msg.Join? && p in RemoveAt(s.net, i)
    ensures p.msg.Join? ==> p.msg.joiner != s.net[i].msg.joiner
  {
    hide Shape, Ring, Sum;
    var j := s.net[i].msg.joiner;
    assert Sum(JoinOf(j), s.net) <= 1;
    SumRemove(JoinOf(j), s.net, i);
    SumMember(JoinOf(j), RemoveAt(s.net, i), p);
  }

  lemma AdmitShape(n: nat, seed: nat, s: Net, i: nat)
    requires Admitting(n, seed, s, i)
    ensures Shape(n, seed, Admitted(n, s, i))
  {
    hide Sum, Ring, Counts, Admit, PeerOk;
    var x, j, s' := s.net[i].to, s.net[i].msg.joiner, Admitted(n, s, i);
    JoinReady(n, seed, s, i);
    AdmitPeer(n, seed, s, i);
    forall p | p in s'.net
      ensures PacketOk(s', p) || (p in s.net && (p.msg.Join? ==> p.msg.joiner !in s'.admitted))
    {
      if p in RemoveAt(s.net, i) {
        assert p in s.net && PacketOk(s, p);
        NoOtherJoin(n, seed, s, i, p);
      }
    }
    ShapeLater(n, seed, s, s', x);
  }

  /** Before its admission a joiner gets no message. */
  lemma NobodyKnowsJoiner(n: nat, seed: nat, s: Net, j: nat)
    requires Shape(n, seed, s) && j !in s.admitted
    ensures FirstTo(s.net, j).None?
  {
    FirstToNone(s.net, j);
    forall p | p in s.net ensures p.to != j {
      assert PacketOk(s, p);
    }
  }

  lemma AdmitQueues(n: nat, seed: nat, s: Net, i: nat, y: nat)
    requires Inv(n, seed, s) && n > 0 && Enabled(n, s, Receive(i)) && s.net[i].msg.Join?
    requires y != s.net[i].to && s.net[i].msg.joiner !in s.admitted && s.net[i].to in s.admitted
    ensures var j := s.net[i].msg.joiner;
            FirstTo(Admitted(n, s, i).net, y)
            == if y == j then Some(Successor(s.net[i].to, s.peers[s.net[i].to].pred)) else FirstTo(s.net, y)
  {
    hide Ring, Counts, PeerOk, PacketOk;
    var x, j := s.net[i].to, s.net[i].msg.joiner;
    var answer := [Packet(j, Successor(x, s.peers[x].pred))];
    FirstToRemove(s.net, i, y);
    FirstToAppend(RemoveAt(s.net, i), answer, y);
    NobodyKnowsJoiner(n, seed, s, j);
  }

  /** Who waits for an answer after the admission. */
  lemma AdmitPending(n: nat, seed: nat, s: Net, i: nat, y: nat)
    requires Admitting(n, seed, s, i)
    ensures Pending(Admitted(n, s, i), seed, y) == (y == s.net[i].msg.joiner || Pending(s, seed, y))
    ensures !Pending(s, seed, s.net[i].msg.joiner) && !Pending(s, seed, s.net[i].to)
  {
    hide Sum, Ring, Counts, Admit, PacketOk;
    var x, j := s.net[i].to, s.net[i].msg.joiner;
    JoinReady(n, seed, s, i);
    AdmitPeer(n, seed, s, i);
    assert PeerOk(n, s, j) by { assert s.peers[j] == s.peers[j]; }
  }

  lemma AdmitCounts(n: nat, seed: nat, s: Net, i: nat)
    requires Admitting(n, seed, s, i)
    ensures Counts(seed, Admitted(n, s, i))
  {
    hide Sum, Ring, Admit, PacketOk, PeerOk, Shape, Pending, FirstTo;
    var x, j, s' := s.net[i].to, s.net[i].msg.joiner, Admitted(n, s, i);
    var answer := Packet(j, Successor(x, s.peers[x].pred));
    JoinReady(n, seed, s, i);
    forall k ensures Sum(JoinOf(k), s'.net) <= 1 {
      SumDeliver(JoinOf(k), s.net, i, [answer]);
      SumOne(JoinOf(k), answer);
      assert Sum(JoinOf(k), s.net) <= 1;
    }
    forall y ensures Sum(AnswerTo(y), s'.net) == if Pending(s', seed, y) then 1 else 0 {
      SumDeliver(AnswerTo(y), s.net, i, [answer]);
      SumOne(AnswerTo(y), answer);
      assert Sum(AnswerTo(y), s.net) == if Pending(s, seed, y) then 1 else 0;
      AdmitPending(n, seed, s, i, y);
    }
    forall y | Pending(s', seed, y) ensures FirstTo(s'.net, y).Some? && FirstTo(s'.net, y).value.Successor? {
      AdmitPending(n, seed, s, i, y);
      AdmitQueues(n, seed, s, i, y);
      assert y != j ==> FirstTo(s.net, y).Some? && FirstTo(s.net, y).value.Successor?;
    }
  }

  /** The admission puts the joiner between the answering node and its old predecessor, and moves nobody else. */
  lemma AdmitInserts(n: nat, seed: nat, s: Net, i: nat, y: nat)
    requires Admitting(n, seed, s, i)
    requires y in Admitted(n, s, i).peers && (y in s.admitted || y == s.net[i].msg.joiner)
    ensures var x, j := s.net[i].to, s.net[i].msg.joiner;
            y in s.peers && EffectivePred(Admitted(n, s, i), seed, y)
            == if y == x then j else if y == j then EffectivePred(s, seed, x) else EffectivePred(s, seed, y)
  {
    hide Sum, Ring, Counts, Admit, PacketOk, PeerOk, Shape, Pending, FirstTo;
    JoinReady(n, seed, s, i);
    AdmitPeer(n, seed, s, i);
    AdmitPending(n, seed, s, i, y);
    if y != s.net[i].to {
      AdmitQueues(n, seed, s, i, y);
    }
  }

  lemma AdmitRing(n: nat, seed: nat, s: Net, i: nat)
    requires Admitting(n, seed, s, i)
    requires Shape(n, seed, Admitted(n, s, i))
    ensures Ring(n, seed, Admitted(n, s, i))
  {
    hide Sum, Counts, Admit, PacketOk, PeerOk, Shape, EffectivePred, Adjacent;
    var x, j, s' := s.net[i].to, s.net[i].msg.joiner, Admitted(n, s, i);
    var p := s.peers[x].pred;
    JoinReady(n, seed, s, i);
    JoinedOrAlone(n, seed, s, x);
    InsertBetween(n, s.admitted, p, x, j);
    forall y | y in s'.admitted
      ensures RingAt(n, seed, s', y)
    {
      assert y != j ==> RingAt(n, seed, s, y);
      AdmitInserts(n, seed, s, i, y);
      if y != j && y != x {
        InsertElsewhere(n, s.admitted, p, x, j, EffectivePred(s, seed, y), y);
      }
    }
  }

  /** A join is answered only for the arc of the answering node. */
  lemma AnswerAdmits(n: nat, seed: nat, s: Net, i: nat)
    requires Inv(n, seed, s) && n > 0 && Enabled(n, s, Receive(i)) && s.net[i].msg.Join?
    requires Admits(n, s.peers[s.net[i].to], s.net[i].msg) != {}
    ensures Admitting(n, seed, s, i)
    ensures Next(n, 1, s, Receive(i)) == Admitted(n, s, i)
  {
    hide Ring, Counts, FindSuccessor, Admit, Shape;
    var x, j := s.net[i].to, s.net[i].msg.joiner;
    JoinReady(n, seed, s, i);
    AnswerIsInArc(n, s.peers[x], j, s.net[i].msg.sender);
  }

  lemma JoinInv(n: nat, seed: nat, s: Net, i: nat)
    requires Inv(n, seed, s) && n > 0 && Enabled(n, s, Receive(i)) && s.net[i].msg.Join?
    ensures Inv(n, seed, Next(n, 1, s, Receive(i)))
  {
    hide Ring, Counts, FindSuccessor, Admit, Shape, Admitted;
    if Admits(n, s.peers[s.net[i].to], s.net[i].msg) == {} {
      ForwardInv(n, seed, s, i);
      var h := HandledAt(n, s, i);
      assert s.admitted + {} == s.admitted;
      assert Next(n, 1, s, Receive(i)) == Received(s, i, h.me, h.send);
    } else {
      AnswerAdmits(n, seed, s, i);
      AdmitShape(n, seed, s, i);
      AdmitCounts(n, seed, s, i);
      AdmitRing(n, seed, s, i);
    }
  }

  // ---- steps that only send ----

  function Sent(s: Net, x: nat, me: Peer, out: seq<Packet>): Net {
    Net(s.peers[x := me], s.net + out, s.admitted)
  }

  /** A step of one node that takes no message: what the node and its packets must satisfy. */
  lemma SendQuiet(n: nat, seed: nat, s: Net, x: nat, me: Peer, out: seq<Packet>)
    requires Inv(n, seed, s)
    requires PeerOk(n, Sent(s, x, me, out), x) && forall p <- out :: PacketOk(Sent(s, x, me, out), p)
    requires if x in s.admitted then x in s.peers && s.peers[x].joined && me.joined && me.pred == s.peers[x].pred
             else x !in s.peers
    requires Harmless(out) && forall j {:trigger JoinOf(j)} :: Sum(JoinOf(j), s.net + out) <= 1
    ensures Inv(n, seed, Sent(s, x, me, out))
  {
    hide PeerOk, PacketOk, Sum, Ring, Counts;
    var s' := Sent(s, x, me, out);
    SendShape(n, seed, s, x, me, out);
    SendQueues(s, seed, x, me, out);
    assert SamePointers(s, s', seed, x);
    RingSame(n, s, s', seed, x);
    SendCounts(n, seed, s, x, me, out);
  }

  lemma SendShape(n: nat, seed: nat, s: Net, x: nat, me: Peer, out: seq<Packet>)
    requires Shape(n, seed, s)
    requires PeerOk(n, Sent(s, x, me, out), x) && forall p <- out :: PacketOk(Sent(s, x, me, out), p)
    requires if x in s.admitted then x in s.peers && s.peers[x].joined && me.joined else x !in s.peers
    ensures Shape(n, seed, Sent(s, x, me, out))
  {
    hide PeerOk;
    var s' := Sent(s, x, me, out);
    forall p | p in s'.net
      ensures PacketOk(s', p) || (p in s.net && (p.msg.Join? ==> p.msg.joiner !in s'.admitted))
    {
      if p !in out {
        assert p in s.net && PacketOk(s, p);
      }
    }
    ShapeLater(n, seed, s, s', x);
  }

  lemma SendQueues(s: Net, seed: nat, x: nat, me: Peer, out: seq<Packet>)
    ensures SameQueues(s, Sent(s, x, me, out), seed, x)
  {
    forall y | FirstTo(s.net, y).Some? ensures FirstTo(Sent(s, x, me, out).net, y) == FirstTo(s.net, y) {
      FirstToAppend(s.net, out, y);
    }
  }

  lemma SendCounts(n: nat, seed: nat, s: Net, x: nat, me: Peer, out: seq<Packet>)
    requires Shape(n, seed, s) && Counts(seed, s)
    requires SamePointers(s, Sent(s, x, me, out), seed, x) && SameQueues(s, Sent(s, x, me, out), seed, x)
    requires x in s.admitted ==> x in s.peers && s.peers[x].joined
    requires Harmless(out) && forall j {:trigger JoinOf(j)} :: Sum(JoinOf(j), s.net + out) <= 1
    ensures Counts(seed, Sent(s, x, me, out))
  {
    hide PeerOk, PacketOk, Sum, EffectivePred, SamePointers, SameQueues;
    var s' := Sent(s, x, me, out);
    forall y
      ensures Sum(AnswerTo(y), s'.net) == if y == x && Pending(s, seed, x) then 0 else Sum(AnswerTo(y), s.net)
    {
      SumAppend(AnswerTo(y), s.net, out);
      NoAnswers(out, y);
    }
    CountsSame(n, s, s', seed, x);
  }

  /** A new node's join is the first of its kind. */
  lemma StartInv(n: nat, size: nat, seed: nat, s: Net, j: nat, contact: nat)
    requires Inv(n, seed, s) && n > 0 && size >= 1 && Enabled(n, s, Start(j, contact))
    ensures Inv(n, seed, Next(n, size, s, Start(j, contact)))
  {
    hide Sum, Ring;
    var out := [Packet(contact, Join(j, j, 0))];
    forall k ensures Sum(JoinOf(k), s.net + out) <= 1 {
      assert Sum(JoinOf(k), s.net) <= 1;
      SumAppend(JoinOf(k), s.net, out);
      SumOne(JoinOf(k), out[0]);
      if k == j {
        NoJoinYet(n, seed, s, j);
      }
    }
    SendQuiet(n, seed, s, j, FreshPeer(j, size), out);
  }

  lemma NoJoinYet(n: nat, seed: nat, s: Net, j: nat)
    requires Shape(n, seed, s) && j !in s.peers
    ensures Sum(JoinOf(j), s.net) == 0
  {
    hide Sum, PeerOk;
    SumPositive(JoinOf(j), s.net);
    if p :| p in s.net && JoinOf(j)(p) > 0 {
      assert PacketOk(s, p);
    }
  }

  lemma Joined(n: nat, seed: nat, s: Net, x: nat)
    requires Shape(n, seed, s) && x in s.peers && s.peers[x].joined
    ensures PeerOk(n, s, x) && x in s.admitted && s.peers[x].succ in s.admitted && s.peers[x].succ != x
  {
    hide PacketOk;
    assert PeerOk(n, s, x) by { assert s.peers[x] == s.peers[x]; }
  }

  lemma StabiliseInv(n: nat, seed: nat, s: Net, x: nat)
    requires Inv(n, seed, s) && n > 0 && Enabled(n, s, Stabilise(x))
    ensures Inv(n, seed, Next(n, 1, s, Stabilise(x)))
  {
    hide Sum, Ring, Counts;
    var me := s.peers[x];
    Joined(n, seed, s, x);
    var out := Send(me, me.succ, FindPredecessor(x));
    SameSum(seed, s, out);
    assert s.peers[x := me] == s.peers;
    SendQuiet(n, seed, s, x, me, out);
  }

  lemma SameSum(seed: nat, s: Net, out: seq<Packet>)
    requires Counts(seed, s) && |out| <= 1 && forall p <- out :: !p.msg.Join?
    ensures forall j {:trigger JoinOf(j)} :: Sum(JoinOf(j), s.net + out) <= 1
  {
    hide Sum;
    forall j ensures Sum(JoinOf(j), s.net + out) <= 1 {
      assert Sum(JoinOf(j), s.net) <= 1;
      SumAppend(JoinOf(j), s.net, out);
      if out == [] {
        assert s.net + out == s.net;
      } else {
        assert out == [out[0]];
        SumOne(JoinOf(j), out[0]);
      }
    }
  }

  /**
   Nobody answers the lookup of x for its first finger with x itself, nor hands it back to x:
   so the answer always becomes the successor.
   */
  lemma OwnLookupFindsOther(n: nat, me: Peer, x: nat, sender: nat)
    requires OnRing(n, me) && x < n && me.id != x
    ensures FindSuccessor(n, me, Plus(n, x, 1), sender, x, false).found != x
  {
    hide ClosestPreceding, FirstAllowed, IsInRangeOverZero;
    RangeIsClosedArc(n, Plus(n, x, 1), me.id, me.succ);
  }

  lemma RefreshInv(n: nat, seed: nat, s: Net, x: nat, k: nat, y: nat)
    requires Inv(n, seed, s) && n > 0 && Enabled(n, s, Refresh(x, k, y))
    ensures Inv(n, seed, Next(n, 1, s, Refresh(x, k, y)))
  {
    hide Sum, Ring, Counts;
    var me := s.peers[x];
    Joined(n, seed, s, x);
    SameSum(seed, s, []);
    var me' := SetFinger(me, k, y);
    forall f | f in me'.fingers ensures f in s.admitted {
      assert f == y || f in me.fingers;
    }
    assert s.net + [] == s.net;
    SendQuiet(n, seed, s, x, me', []);
  }

  // ---- all steps, all runs ----

  lemma ReceiveInv(n: nat, seed: nat, s: Net, i: nat)
    requires Inv(n, seed, s) && n > 0 && Enabled(n, s, Receive(i))
    ensures Inv(n, seed, Next(n, 1, s, Receive(i)))
  {
    hide Inv, Handle, FindSuccessor;
    if s.net[i].msg.Join? {
      JoinInv(n, seed, s, i);
    } else {
      var h := HandledAt(n, s, i);
      match s.net[i].msg {
        case Successor(_, _) => SuccessorInv(n, seed, s, i);
        case FindPredecessor(_) => FindPredecessorInv(n, seed, s, i);
        case Predecessor(_) => PredecessorInv(n, seed, s, i);
        case Notify(_) => NotifyInv(n, seed, s, i);
      }
      assert s.admitted + {} == s.admitted;
      assert Next(n, 1, s, Receive(i)) == Received(s, i, h.me, h.send);
    }
  }

  lemma NextInv(n: nat, size: nat, seed: nat, s: Net, act: Action)
    requires Inv(n, seed, s) && n > 0 && size >= 1 && Enabled(n, s, act)
    ensures Inv(n, seed, Next(n, size, s, act))
  {
    hide Inv, Handle, Admits;
    match act
    case Start(j, contact) => StartInv(n, size, seed, s, j, contact);
    case Receive(i) => ReceiveInv(n, seed, s, i);
    case Stabilise(x) => StabiliseInv(n, seed, s, x);
    case Refresh(x, k, y) => RefreshInv(n, seed, s, x, k, y);
  }

  lemma InitInv(n: nat, size: nat, seed: nat)
    requires seed < n && size >= 1
    ensures Inv(n, seed, Init(seed, size))
  {
  }

  lemma {:induction false} RunInv(n: nat, size: nat, seed: nat, run: seq<Net>, i: nat)
    requires Run(n, size, seed, run) && i < |run|
    ensures Inv(n, seed, run[i])
  {
    hide Inv, Next, Enabled;
    if i == 0 {
      InitInv(n, size, seed);
    } else {
      RunInv(n, size, seed, run, i - 1);
      assert Step(n, size, run[i - 1], run[i - 1 + 1]);
      var act :| Enabled(n, run[i - 1], act) && run[i] == Next(n, size, run[i - 1], act);
      NextInv(n, size, seed, run[i - 1], act);
    }
  }

  /**
   In every reachable state, however joins overlap: the effective predecessor of
   every admitted node is an admitted node with no admitted node in between, and no
   two nodes share one. So the pointers run once around all admitted nodes.
   */
  lemma PredecessorsAreTheRing(n: nat, size: nat, seed: nat, run: seq<Net>, i: nat)
    requires Run(n, size, seed, run) && i < |run|
    ensures var s := run[i];
            && (forall x <- s.admitted :: RingAt(n, seed, s, x))
            && (forall x, y :: x in s.admitted && y in s.admitted && x != y && x in s.peers && y in s.peers ==>
                  EffectivePred(s, seed, x) != EffectivePred(s, seed, y))
  {
    hide Shape, Counts, EffectivePred, Adjacent, Run;
    RunInv(n, size, seed, run, i);
    var s := run[i];
    forall x, y | x in s.admitted && y in s.admitted && x != y && x in s.peers && y in s.peers
      ensures EffectivePred(s, seed, x) != EffectivePred(s, seed, y)
    {
      assert RingAt(n, seed, s, x) && RingAt(n, seed, s, y);
      OnePerPredecessor(n, s.admitted, EffectivePred(s, seed, x), x, y);
    }
  }

  lemma OnePerPredecessor(n: nat, nodes: set<nat>, p: nat, x: nat, y: nat)
    requires Adjacent(n, nodes, p, x) && x in nodes && y in nodes && y < n && x != y
    ensures !Adjacent(n, nodes, p, y)
  {
    assert !OpenArc(n, y, p, x);
  }

  /** Once no join and no answer is on its way, the pointers themselves are the ring. */
  lemma SettledPredecessors(n: nat, size: nat, seed: nat, run: seq<Net>, i: nat, x: nat)
    requires Run(n, size, seed, run) && i < |run| && x in run[i].admitted
    requires forall p <- run[i].net :: !p.msg.Successor?
    ensures x in run[i].peers && Adjacent(n, run[i].admitted, run[i].peers[x].pred, x)
  {
    hide Shape, Sum, Adjacent, Run;
    RunInv(n, size, seed, run, i);
    var s := run[i];
    assert RingAt(n, seed, s, x);
    FirstHarmless(s.net, x);
  }
}
