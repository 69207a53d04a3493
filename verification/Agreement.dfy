/**
 The agreement protocol of Sample2 as a transition system. One step is one atomic
 piece of work of a node: handling a routing block, one of the one-shot actions of
 Snode::main, reading one msgn block, or one delivery to or action of an A node.
 Steps may come in any order, so every latency and every schedule is covered.
 */
module Agreement {
  import opened RingArithmetic
  import opened Sums
  import opened Broadcast
  import opened Routing

  /** home[a] is the S node that A node a is attached to. */
  datatype Config = Config(snum: nat, anum: nat, w: nat, s1: nat, leader: nat, home: seq<nat>)

  predicate ValidConfig(c: Config) {
    && c.w < c.snum && c.s1 < c.snum && c.leader < c.snum
    && c.anum > 0 && |c.home| == c.anum && forall h <- c.home :: h < c.snum
  }

  /** The protocol state of one S node: its flags, the blocks in delayed_k, the blocks in msgn_rec. */
  datatype Node = Node(
    number: nat,
    broadK: bool, gotK: bool, sentK: bool,
    sentShrq: bool, gotShrq: bool, sentShpn: bool, gotShpn: bool,
    broadLB: bool, gotLB: bool, sentLB: bool,
    gotM: bool, totalMsigns: nat,
    kOut: nat, msgn: nat)

  /** One A node: its LB blocks in delayed_lb and in lb_rec, send_msgn, and msgnblk_snt. */
  datatype ANode = ANode(number: nat, lbOut: nat, lbRec: nat, signing: bool, sent: nat)

  /** A routing block queued for, or lying in the r_rec of, node `at`. */
  datatype Packet = Packet(at: nat, rb: RoutingBlock)

  datatype State = State(nodes: seq<Node>, anodes: seq<ANode>, net: seq<Packet>)

  datatype Out = Out(node: Node, send: seq<Packet>)

  function InitNode(v: nat): Node {
    Node(v, false, false, false, false, false, false, false, false, false, false, false, 0, 0, 0)
  }

  function Init(c: Config): State {
    State(seq(c.snum, v requires v >= 0 => InitNode(v)), seq(c.anum, a requires a >= 0 => ANode(a, 0, 0, false, 0)), [])
  }

  // ---- handling one routing block ----

  function Unicast(P: nat, R: nat, bt: BlockType): RoutingBlock {
    RoutingBlock(P, R, -1, bt)
  }

  function Root(R: nat, bt: BlockType): RoutingBlock {
    RoutingBlock(R, R, 0, bt)
  }

  /** Processing a block of higher rank may create one of lower rank. */
  function Rank(bt: BlockType): nat {
    if bt == ShRq || bt == MSgn then 1 else 0
  }

  function Addressed(out: seq<RoutingBlock>): (ps: seq<Packet>)
    ensures |ps| == |out| && forall i :: 0 <= i < |out| ==> ps[i] == Packet(out[i].P, out[i])
  {
    seq(|out|, i requires 0 <= i < |out| => Packet(out[i].P, out[i]))
  }

  /** ProcessRoutingBlock at node nd. */
  function Handle(c: Config, nd: Node, rb: RoutingBlock): Out
    requires ValidConfig(c) && nd.number < c.snum && rb.P < c.snum
    decreases Rank(rb.bt), 1
  {
    if rb.token < 0 then
      if rb.P != nd.number then
        Out(nd, [Packet(NextHop(c.snum, nd.number, rb.P), rb)])
      else
        Process(c, nd, rb)
    else
      var out := Process(c, nd, rb);
      Out(out.node, Addressed(Forward(c.snum, nd.number, rb)) + out.send)
  }

  /** ProcessBlock at node nd. */
  function Process(c: Config, nd: Node, rb: RoutingBlock): Out
    requires ValidConfig(c) && nd.number < c.snum && rb.P < c.snum
    decreases Rank(rb.bt), 0
  {
    var me := nd.number;
    match rb.bt
    case K => Out(nd.(gotK := true), [])
    case ShRq =>
      if me == c.s1 then Handle(c, nd.(gotShrq := true), Unicast(c.leader, me, ShPn)) else Out(nd, [])
    case ShPn =>
      if me == c.leader then Out(nd.(gotShpn := true), []) else Out(nd, [])
    case LB => Out(nd.(gotLB := true), [])
    case MSgn =>
      if me != c.leader then Out(nd, [])
      else
        var nd' := nd.(totalMsigns := nd.totalMsigns + 1);
        if nd'.totalMsigns == c.anum then Handle(c, nd', Root(me, M)) else Out(nd', [])
    case M => Out(nd.(gotM := true), [])
  }

  // ---- the steps ----

  datatype Action =
    | Arrive(i: nat)      // CheckR: the i-th block in flight reaches its node
    | BroadK(v: nat)      // W starts the K broadcast
    | SendK(v: nat)       // K goes to the attached A nodes
    | SendShrq(v: nat)    // the leader asks S1
    | SendShpn(v: nat)    // S1 answers from main
    | BroadLB(v: nat)     // the leader starts the LB broadcast
    | SendLB(v: nat)      // LB goes to the attached A nodes
    | TakeMsgn(v: nat)    // main reads one msgn block
    | DeliverK(v: nat)    // delayed_send delivers a k block
    | DeliverLB(a: nat)   // delayed_send delivers an lb block to A node a
    | ReadLB(a: nat)      // A node a reads it
    | Sign(a: nat)        // A node a sends its signature

  predicate Enabled(c: Config, s: State, act: Action) {
    match act
    case Arrive(i) => i < |s.net|
    case BroadK(v) => v < |s.nodes| && v == c.w && !s.nodes[v].broadK
    case SendK(v) => v < |s.nodes| && s.nodes[v].gotK && !s.nodes[v].sentK
    case SendShrq(v) => v < |s.nodes| && v == c.leader && s.nodes[v].gotK && !s.nodes[v].sentShrq
    case SendShpn(v) => v < |s.nodes| && v == c.s1 && s.nodes[v].gotK && s.nodes[v].gotShrq && !s.nodes[v].sentShpn
    case BroadLB(v) => v < |s.nodes| && v == c.leader && s.nodes[v].gotK && s.nodes[v].gotShpn && !s.nodes[v].broadLB
    case SendLB(v) => v < |s.nodes| && s.nodes[v].gotLB && !s.nodes[v].sentLB
    case TakeMsgn(v) => v < |s.nodes| && s.nodes[v].msgn > 0
    case DeliverK(v) => v < |s.nodes| && s.nodes[v].kOut > 0
    case DeliverLB(a) => a < |s.anodes| && s.anodes[a].lbOut > 0
    case ReadLB(a) => a < |s.anodes| && !s.anodes[a].signing && s.anodes[a].lbRec > 0
    case Sign(a) => a < |s.anodes| && s.anodes[a].signing
  }

  function HomeIs(v: nat): nat -> nat {
    h => if h == v then 1 else 0
  }

  /** connAs.size() of node v. */
  function Attached(c: Config, v: nat): nat {
    Sum(HomeIs(v), c.home)
  }

  /** SendToConnectedA(lb): one block for every A node attached to v. */
  function QueueLB(c: Config, v: nat, anodes: seq<ANode>): (r: seq<ANode>)
    ensures |r| == |anodes|
  {
    seq(|anodes|, a requires 0 <= a < |anodes| =>
      if a < |c.home| && c.home[a] == v then anodes[a].(lbOut := anodes[a].lbOut + 1) else anodes[a])
  }

  /** Node nd handles rb; what it sends joins the blocks in flight. */
  function Then(c: Config, s: State, nd: Node, rb: RoutingBlock): State
    requires ValidConfig(c) && nd.number < c.snum && nd.number < |s.nodes| && rb.P < c.snum
  {
    var out := Handle(c, nd, rb);
    s.(nodes := s.nodes[nd.number := out.node], net := s.net + out.send)
  }

  ghost predicate Shape(c: Config, s: State) {
    && |s.nodes| == c.snum && |s.anodes| == c.anum
    && (forall v :: 0 <= v < |s.nodes| ==> s.nodes[v].number == v)
    && (forall a :: 0 <= a < |s.anodes| ==> s.anodes[a].number == a)
    && forall p <- s.net :: PacketOk(c, p)
  }

  function Source(c: Config, bt: BlockType): nat {
    if bt == K then c.w else c.leader
  }

  predicate IsCast(bt: BlockType) {
    bt == K || bt == LB || bt == M
  }

  function Target(c: Config, bt: BlockType): nat {
    if bt == ShRq then c.s1 else c.leader
  }

  /** The blocks that can be in flight: tree blocks from the right source, unicasts to the right node. */
  ghost predicate PacketOk(c: Config, p: Packet) {
    && p.at < c.snum
    && if p.rb.token >= 0
       then IsCast(p.rb.bt) && p.rb.R == Source(c, p.rb.bt) && p.at == p.rb.P && OnTree(c.snum, p.rb)
       else p.rb.token == -1 && !IsCast(p.rb.bt) && p.rb.P == Target(c, p.rb.bt)
  }

  ghost function Next(c: Config, s: State, act: Action): State
    requires ValidConfig(c) && Shape(c, s) && Enabled(c, s, act)
  {
    match act
    case Arrive(i) =>
      var p := s.net[i];
      assert PacketOk(c, p);
      Then(c, s.(net := RemoveAt(s.net, i)), s.nodes[p.at], p.rb)
    case BroadK(v) =>
      Then(c, s, s.nodes[v].(broadK := true, gotK := true), Root(v, K))
    case SendK(v) =>
      var nd := s.nodes[v];
      s.(nodes := s.nodes[v := nd.(sentK := true, kOut := nd.kOut + Attached(c, v))])
    case SendShrq(v) =>
      Then(c, s, s.nodes[v].(sentShrq := true), Unicast(c.s1, v, ShRq))
    case SendShpn(v) =>
      Then(c, s, s.nodes[v].(sentShpn := true), Unicast(c.leader, v, ShPn))
    case BroadLB(v) =>
      Then(c, s, s.nodes[v].(broadLB := true, gotLB := true), Root(v, LB))
    case SendLB(v) =>
      s.(nodes := s.nodes[v := s.nodes[v].(sentLB := true)], anodes := QueueLB(c, v, s.anodes))
    case TakeMsgn(v) =>
      Then(c, s, s.nodes[v].(msgn := s.nodes[v].msgn - 1), Unicast(c.leader, v, MSgn))
    case DeliverK(v) =>
      s.(nodes := s.nodes[v := s.nodes[v].(kOut := s.nodes[v].kOut - 1)])
    case DeliverLB(a) =>
      var x := s.anodes[a];
      s.(anodes := s.anodes[a := x.(lbOut := x.lbOut - 1, lbRec := x.lbRec + 1)])
    case ReadLB(a) =>
      var x := s.anodes[a];
      s.(anodes := s.anodes[a := x.(lbRec := x.lbRec - 1, signing := true)])
    case Sign(a) =>
      var x := s.anodes[a];
      var h := c.home[a];
      assert h in c.home;
      s.(anodes := s.anodes[a := x.(signing := false, sent := x.sent + 1)],
         nodes := s.nodes[h := s.nodes[h].(msgn := s.nodes[h].msgn + 1)])
  }
}
