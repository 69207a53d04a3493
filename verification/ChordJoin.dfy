/**
 Joining, stabilising and notifying in a Chord network without failures, as a
 transition system. Messages to one node arrive in the order in which they were
 sent to it (network.cpp keeps one queue per port); messages to different nodes
 arrive in any order. A joiner may contact any node that is already part of the
 ring, any number of joins may overlap, and the answers to periodic lookups are
 represented by letting every finger become any node of the ring at any time; the
 first finger takes the successor along, and never becomes the node itself.
 */
module ChordJoin {
  import opened Options
  import opened RingArithmetic
  import opened Sums
  import opened ChordRange
  import opened ChordPeer

  datatype Message =
    | Join(joiner: nat, sender: nat, counter: nat)  // JOIN, and FIND_SUCCESSOR with isJoin set
    | Successor(found: nat, service: nat)           // the answer to a join, with serviceAddr
    | FindPredecessor(from: nat)
    | Predecessor(found: nat)
    | Notify(from: nat)

  datatype Packet = Packet(to: nat, msg: Message)

  /** admitted remembers which joins have been answered; the code keeps no such set. */
  datatype Net = Net(peers: map<nat, Peer>, net: seq<Packet>, admitted: set<nat>)

  datatype Handled = Handled(me: Peer, send: seq<Packet>)

  /** sendMessage drops a message for the node itself. */
  function Send(me: Peer, to: nat, msg: Message): seq<Packet> {
    if to == me.id then [] else [Packet(to, msg)]
  }

  /** A join asks for the identifier after the joiner's own. */
  function Searched(n: nat, joiner: nat): nat
    requires joiner < n
  {
    Plus(n, joiner, 1)
  }

  /** A node takes the first message of its queue. */
  function Handle(n: nat, me: Peer, msg: Message): Handled
    requires n > 0
  {
    match msg
    case Join(j, sender, counter) =>
      if TooManyForwards(me, counter) || j >= n then Handled(me, [])
      else (
        match FindSuccessor(n, me, Searched(n, j), sender, j, true)
        case Reply(found) => Handled(Admit(n, me, j), Send(me, j, Successor(found, me.pred)))
        case Forward(found) => Handled(me, Send(me, found, Join(j, me.id, counter + 1))))
    case Successor(found, service) =>
      Handled(if me.joined then me else JoinAt(n, me, found, service), [])
    case FindPredecessor(from) => Handled(me, Send(me, from, Predecessor(me.pred)))
    case Predecessor(p) =>
      var me' := SetSuccessorStabilize(n, me, p);
      Handled(me', Send(me', me'.succ, Notify(me'.id)))
    case Notify(from) => Handled(SetPredecessor(n, me, from), [])
  }

  /** The joiner that this message admits, if it admits one. */
  function Admits(n: nat, me: Peer, msg: Message): set<nat>
    requires n > 0
  {
    match msg
    case Join(j, sender, counter) =>
      if !TooManyForwards(me, counter) && j < n && FindSuccessor(n, me, Searched(n, j), sender, j, true).Reply?
      then {j} else {}
    case _ => {}
  }

  datatype Action =
    | Start(joiner: nat, contact: nat)      // a new node sends JOIN to a node of the ring
    | Receive(i: nat)                       // the i-th packet, first of those for its node
    | Stabilise(x: nat)                     // the update timer asks for the successor's predecessor
    | Refresh(x: nat, k: nat, y: nat)       // a lookup set finger k of x to y

  predicate Enabled(n: nat, s: Net, act: Action) {
    match act
    case Start(j, contact) => j < n && j !in s.peers && contact in s.admitted
    case Receive(i) => i < |s.net| && s.net[i].to in s.peers && forall k :: 0 <= k < i ==> s.net[k].to != s.net[i].to
    case Stabilise(x) => x in s.peers && s.peers[x].joined
    case Refresh(x, k, y) =>
      x in s.peers && k < |s.peers[x].fingers| && s.peers[x].joined && y in s.admitted && (k == 0 ==> y != x)
  }

  function Next(n: nat, size: nat, s: Net, act: Action): Net
    requires n > 0 && Enabled(n, s, act)
  {
    match act
    case Start(j, contact) =>
      s.(peers := s.peers[j := FreshPeer(j, size)], net := s.net + [Packet(contact, Join(j, j, 0))])
    case Receive(i) =>
      var p := s.net[i];
      var h := Handle(n, s.peers[p.to], p.msg);
      Net(s.peers[p.to := h.me], RemoveAt(s.net, i) + h.send, s.admitted + Admits(n, s.peers[p.to], p.msg))
    case Stabilise(x) =>
      var me := s.peers[x];
      s.(net := s.net + Send(me, me.succ, FindPredecessor(x)))
    case Refresh(x, k, y) =>
      s.(peers := s.peers[x := SetFinger(s.peers[x], k, y)])
  }

  /** The network starts with one node, alone. */
  function Init(seed: nat, size: nat): Net {
    Net(map[seed := FreshPeer(seed, size)], [], {seed})
  }

  ghost predicate Step(n: nat, size: nat, s: Net, s': Net)
    requires n > 0
  {
    exists act :: Enabled(n, s, act) && s' == Next(n, size, s, act)
  }

  ghost predicate Run(n: nat, size: nat, seed: nat, run: seq<Net>) {
    && seed < n && size >= 1 && |run| > 0
    && run[0] == Init(seed, size)
    && forall j :: 0 <= j < |run| - 1 ==> Step(n, size, run[j], run[j + 1])
  }

  // ---- the order of messages to one node ----

  /** The next message that node x will take. */
  function FirstTo(net: seq<Packet>, x: nat): Option<Message> {
    if net == [] then None
    else if net[0].to == x then Some(net[0].msg)
    else FirstTo(net[1..], x)
  }

  lemma {:induction false} FirstToNone(net: seq<Packet>, x: nat)
    ensures FirstTo(net, x).None? <==> forall p <- net :: p.to != x
  {
    if net != [] {
      FirstToNone(net[1..], x);
      assert net == [net[0]] + net[1..];
    }
  }

  lemma {:induction false} FirstToAppend(net: seq<Packet>, more: seq<Packet>, x: nat)
    ensures FirstTo(net + more, x) == if FirstTo(net, x).Some? then FirstTo(net, x) else FirstTo(more, x)
  {
    if net == [] {
      assert net + more == more;
    } else {
      assert (net + more)[1..] == net[1..] + more;
      FirstToAppend(net[1..], more, x);
    }
  }

  /** Taking a packet of another node does not matter to x. */
  lemma {:induction false} FirstToRemove(net: seq<Packet>, i: nat, x: nat)
    requires i < |net| && net[i].to != x
    ensures FirstTo(RemoveAt(net, i), x) == FirstTo(net, x)
  {
    if i > 0 {
      FirstToRemove(net[1..], i - 1, x);
      assert RemoveAt(net, i)[1..] == RemoveAt(net[1..], i - 1);
    } else {
      assert RemoveAt(net, 0) == net[1..];
    }
  }

  lemma {:induction false} FirstToIs(net: seq<Packet>, i: nat)
    requires i < |net| && forall k :: 0 <= k < i ==> net[k].to != net[i].to
    ensures FirstTo(net, net[i].to) == Some(net[i].msg)
  {
    if i > 0 {
      assert net[0].to != net[i].to;
      FirstToIs(net[1..], i - 1);
    }
  }

  // ---- what every reachable state satisfies ----

  function JoinOf(j: nat): Packet -> nat {
    (p: Packet) => if p.msg.Join? && p.msg.joiner == j then 1 else 0
  }

  function AnswerTo(x: nat): Packet -> nat {
    (p: Packet) => if p.msg.Successor? && p.to == x then 1 else 0
  }

  /** x has been admitted but has not yet taken the answer to its join. */
  predicate Pending(s: Net, seed: nat, x: nat) {
    x in s.admitted && x in s.peers && !s.peers[x].joined && x != seed
  }

  /** The predecessor of x, counting the one in an answer still on its way. */
  function EffectivePred(s: Net, seed: nat, x: nat): nat
    requires x in s.peers
  {
    if Pending(s, seed, x) then
      match FirstTo(s.net, x)
      case Some(Successor(found, service)) => service
      case _ => s.peers[x].pred
    else s.peers[x].pred
  }

  predicate Untouched(me: Peer) {
    me.pred == me.id && me.succ == me.id && forall f <- me.fingers :: f == me.id
  }

  predicate PeerOk(n: nat, s: Net, x: nat)
    requires x in s.peers
  {
    var me := s.peers[x];
    && me.id == x < n && |me.fingers| >= 1
    && (!me.joined ==> Untouched(me))
    && (me.joined ==>
          && x in s.admitted && me.pred in s.admitted && me.succ in s.admitted
          && (forall f <- me.fingers :: f in s.admitted)
          && me.fingers[0] == me.succ != x)
  }

  predicate PacketOk(s: Net, p: Packet) {
    && p.to in s.admitted
    && match p.msg
       case Join(j, sender, counter) => j in s.peers && j !in s.admitted && (sender in s.admitted || sender == j)
       case Successor(found, service) => found in s.admitted && service in s.admitted && found != p.to
       case FindPredecessor(from) => from in s.peers && s.peers[from].joined && from != p.to
       case Predecessor(found) => found in s.admitted && p.to in s.peers && s.peers[p.to].joined
       case Notify(from) => from in s.admitted && from != p.to
  }

  ghost predicate Shape(n: nat, seed: nat, s: Net) {
    && seed in s.admitted && s.admitted <= s.peers.Keys
    && (forall x {:trigger s.peers[x]} :: x in s.peers ==> PeerOk(n, s, x))
    && (!s.peers[seed].joined ==> s.admitted == {seed})
    && (forall p <- s.net :: PacketOk(s, p))
  }

  /** Each join is on its way at most once, and each answer exactly until it is taken. */
  ghost predicate Counts(seed: nat, s: Net) {
    && (forall j {:trigger JoinOf(j)} :: Sum(JoinOf(j), s.net) <= 1)
    && (forall x {:trigger AnswerTo(x)} :: Sum(AnswerTo(x), s.net) == if Pending(s, seed, x) then 1 else 0)
    && (forall x {:trigger FirstTo(s.net, x)} :: Pending(s, seed, x) ==>
          FirstTo(s.net, x).Some? && FirstTo(s.net, x).value.Successor?)
  }

  /** The effective predecessors are the clockwise order of the admitted nodes. */
  ghost predicate Ring(n: nat, seed: nat, s: Net)
    requires Shape(n, seed, s)
  {
    forall x {:trigger RingAt(n, seed, s, x)} :: x in s.admitted ==> RingAt(n, seed, s, x)
  }

  /** The effective predecessor of x is an admitted node, with no admitted node in between. */
  ghost predicate RingAt(n: nat, seed: nat, s: Net, x: nat) {
    x in s.peers && x < n && Adjacent(n, s.admitted, EffectivePred(s, seed, x), x)
  }

  ghost predicate Inv(n: nat, seed: nat, s: Net) {
    Shape(n, seed, s) && Counts(seed, s) && Ring(n, seed, s)
  }
}
