/**
 A number that every step of the agreement protocol makes smaller: the work still
 to be done by the blocks in flight, by the one-time actions of the S nodes and by
 the blocks on their way through the A nodes.
 */
module AgreementMeasure {
  import opened RingArithmetic
  import opened Sums
  import opened Broadcast
  import opened Routing
  import opened Agreement
  import opened AgreementInvariant
  import opened AgreementSteps

  // ---- blocks in flight ----

  /** How many offsets smaller than k lie at or below offset o in the broadcast tree. */
  ghost function Below(o: nat, k: nat): nat {
    if k == 0 then 0 else Below(o, k - 1) + if Above(o, k - 1) then 1 else 0
  }

  lemma {:induction false} BelowSplits(o: nat, k: nat)
    ensures Below(o, k) == (if o < k then 1 else 0) + Below(o + Pow2(Depth(o)), k) + Below(o + Pow2(Depth(o) + 1), k)
  {
    hide Above, Depth, Pow2;
    if k > 0 {
      BelowSplits(o, k - 1);
      AboveSplits(o, k - 1);
    }
  }

  lemma {:induction false} BelowNone(o: nat, k: nat)
    requires k <= o
    ensures Below(o, k) == 0
  {
    hide Above, Depth;
    if k > 0 {
      BelowNone(o, k - 1);
      if Above(o, k - 1) {
        AboveIsSmaller(o, k - 1);
        assert false;
      }
    }
  }

  lemma {:induction false} BelowRoot(k: nat)
    ensures Below(0, k) == k
  {
    hide Above, Depth;
    if k > 0 {
      BelowRoot(k - 1);
      RootIsAbove(k - 1);
    }
  }

  /** The nodes a tree block will still serve. */
  ghost function TreeWork(n: nat): RoutingBlock -> nat {
    (rb: RoutingBlock) => if rb.P < n && rb.R < n then Below(Offset(n, rb), n) else 0
  }

  /** A unicast block still has to arrive; an ShRq block also has to be answered. */
  ghost function PacketWork(n: nat, p: Packet): nat {
    if p.rb.token >= 0 then TreeWork(n)(p.rb)
    else if p.at < n && p.rb.P < n then 1 + Dist(n, p.at, p.rb.P) + (if p.rb.bt == ShRq then n else 0)
    else 0
  }

  ghost function Work(n: nat): Packet -> nat {
    (p: Packet) => PacketWork(n, p)
  }

  lemma ChildWork(n: nat, rb: RoutingBlock, o: nat)
    requires rb.R < n
    ensures Sum(TreeWork(n), ChildBlock(n, rb, o)) == Below(o, n)
  {
    if o < n {
      DistPlus(n, rb.R, o);
    } else {
      BelowNone(o, n);
    }
  }

  lemma ForwardWork(n: nat, rb: RoutingBlock)
    requires OnTree(n, rb)
    ensures Sum(TreeWork(n), Forward(n, rb.P, rb)) + 1 == TreeWork(n)(rb)
  {
    hide Sum, Forward, ChildBlock, Above, Pow2, Below;
    var o := Offset(n, rb);
    var c1, c2 := o + Pow2(Depth(o)), o + Pow2(Depth(o) + 1);
    ForwardIsChildren(n, rb);
    SumAppend(TreeWork(n), ChildBlock(n, rb, c1), ChildBlock(n, rb, c2));
    ChildWork(n, rb, c1);
    ChildWork(n, rb, c2);
    BelowSplits(o, n);
  }

  lemma CopiesWork(c: Config, p: Packet)
    requires ValidConfig(c) && PacketOk(c, p) && p.rb.token >= 0
    ensures Sum(Work(c.snum), Copies(c, p)) + 1 == Work(c.snum)(p)
  {
    hide Sum, Forward, TreeWork, Below;
    ForwardWork(c.snum, p.rb);
    var out := Forward(c.snum, p.at, p.rb);
    forall b | b in out ensures Work(c.snum)(Packet(b.P, b)) == TreeWork(c.snum)(b) {
      ForwardStaysOnTree(c.snum, p.rb, b);
    }
    SumAddressed(Work(c.snum), TreeWork(c.snum), out);
  }

  lemma RootWork(c: Config, bt: BlockType)
    requires ValidConfig(c) && IsCast(bt)
    ensures Work(c.snum)(Packet(Source(c, bt), Root(Source(c, bt), bt))) == c.snum
  {
    BelowRoot(c.snum);
  }

  // ---- S nodes ----

  function If(b: bool, k: nat): nat {
    if b then k else 0
  }

  lemma IfIs(k: nat)
    ensures If(true, k) == k && If(false, k) == 0
  {
  }

  /** Sending LB to the attached A nodes, and what follows from each block. */
  ghost function LBWork(c: Config, v: nat): nat {
    1 + Attached(c, v) * (c.snum + 3)
  }

  /** What the one-time actions of a node will still cost. */
  ghost function ActionWork(c: Config, nd: Node): nat {
    var n := c.snum;
    If(nd.number == c.w && !nd.broadK, n) + If(!nd.sentK, 1 + Attached(c, nd.number))
    + If(nd.number == c.leader && !nd.sentShrq, 2 * n) + If(nd.number == c.s1 && !nd.sentShpn, n)
    + If(nd.number == c.leader && !nd.broadLB, n) + If(!nd.sentLB, LBWork(c, nd.number))
    + If(nd.number == c.leader && nd.totalMsigns < c.anum, n)
  }

  /** With its queues of K and MSgn blocks. */
  ghost function NodeWork(c: Config, nd: Node): nat {
    ActionWork(c, nd) + nd.kOut + nd.msgn * c.snum
  }

  ghost function NodeWorkOf(c: Config): Node -> nat {
    (nd: Node) => NodeWork(c, nd)
  }

  ghost function ANodeWorkOf(n: nat): ANode -> nat {
    (x: ANode) => x.lbOut * (n + 3) + x.lbRec * (n + 2) + If(x.signing, n + 1)
  }

  ghost function Measure(c: Config, s: State): nat {
    Sum(Work(c.snum), s.net) + Sum(NodeWorkOf(c), s.nodes) + Sum(ANodeWorkOf(c.snum), s.anodes)
  }

  // ---- handling one block makes the work smaller ----

  ghost predicate LessWork(c: Config, p: Packet, nd: Node, out: Out) {
    Sum(Work(c.snum), out.send) + NodeWork(c, out.node) < Work(c.snum)(p) + NodeWork(c, nd)
  }

  lemma FrameWork(c: Config, nd: Node, nd': Node)
    requires Frame(nd, nd')
    ensures NodeWork(c, nd') + If(StartsM(c, nd, nd'), c.snum) <= NodeWork(c, nd)
  {
    hide Attached, LBWork, ActionWork;
    FrameActions(c, nd, nd');
  }

  lemma FrameActions(c: Config, nd: Node, nd': Node)
    requires Frame(nd, nd')
    ensures ActionWork(c, nd') + If(StartsM(c, nd, nd'), c.snum) <= ActionWork(c, nd)
  {
    hide Attached, LBWork, If;
    SignaturesLeft(c, nd, nd');
  }

  lemma SignaturesLeft(c: Config, nd: Node, nd': Node)
    requires nd'.number == nd.number && nd'.totalMsigns >= nd.totalMsigns
    ensures If(nd.number == c.leader && nd'.totalMsigns < c.anum, c.snum) + If(StartsM(c, nd, nd'), c.snum)
            <= If(nd.number == c.leader && nd.totalMsigns < c.anum, c.snum)
  {
  }

  lemma CastWork(c: Config, p: Packet, nd: Node)
    requires Ready(c, p, nd) && p.rb.token >= 0
    ensures LessWork(c, p, nd, Handle(c, nd, p.rb))
  {
    hide Handle, Copies, Sum, PacketOk, WithGot, Work, NodeWork, Ready;
    ReadyOk(c, p, nd);
    WithGotKeeps(p.rb.bt, nd);
    FrameWork(c, nd, WithGot(p.rb.bt, nd));
    ProcessCast(c, nd, p.rb);
    CopiesWork(c, p);
  }

  lemma ReadyOk(c: Config, p: Packet, nd: Node)
    requires Ready(c, p, nd)
    ensures ValidConfig(c) && PacketOk(c, p) && nd.number == p.at < c.snum && p.rb.P < c.snum
    ensures p.rb.token >= 0 ==> IsCast(p.rb.bt) && p.rb.P == p.at
    ensures p.rb.token < 0 ==> p.rb.P == Target(c, p.rb.bt)
  {
    CastToken(c, p);
  }

  lemma UnicastWork(n: nat, p: Packet)
    requires p.at < n && p.rb.P < n && p.rb.token < 0
    ensures Work(n)(p) <= n + If(p.rb.bt == ShRq, n)
  {
  }

  lemma UnicastCosts(n: nat, p: Packet)
    requires p.at < n && p.rb.P < n && p.rb.token < 0
    ensures Work(n)(p) >= 1 + If(p.rb.bt == ShRq, n)
  {
  }

  lemma OneWork(c: Config, q: Packet)
    ensures Sum(Work(c.snum), [q]) == Work(c.snum)(q) && Sum(Work(c.snum), []) == 0
  {
    hide Work;
  }

  lemma HopWork(c: Config, p: Packet, nd: Node)
    requires Ready(c, p, nd) && p.rb.token < 0 && p.rb.P != p.at
    ensures LessWork(c, p, nd, Handle(c, nd, p.rb))
  {
    hide Handle, Sum, PacketOk, NextHop, NodeWork, Ready, Below;
    ReadyOk(c, p, nd);
    ProcessLater(c, nd, p.rb);
    OneWork(c, Packet(NextHop(c.snum, p.at, p.rb.P), p.rb));
  }

  lemma ShPnWork(c: Config, p: Packet, nd: Node)
    requires Ready(c, p, nd) && p.rb.token < 0 && p.rb.bt == ShPn && p.rb.P == p.at
    ensures LessWork(c, p, nd, Handle(c, nd, p.rb))
  {
    hide Handle, Sum, PacketOk, NodeWork, Ready, Below;
    ReadyOk(c, p, nd);
    ProcessShPn(c, nd, c.s1);
    assert Handle(c, nd, p.rb) == Out(nd.(gotShpn := true), []) by {
      ShPnSource(c, nd, p.rb);
    }
    OneWork(c, p);
    FrameWork(c, nd, nd.(gotShpn := true));
  }

  lemma ShPnSource(c: Config, nd: Node, rb: RoutingBlock)
    requires ValidConfig(c) && nd.number == c.leader == rb.P && rb.token < 0 && rb.bt == ShPn
    ensures Handle(c, nd, rb) == Out(nd.(gotShpn := true), [])
  {
    assert Handle(c, nd, rb) == Process(c, nd, rb);
  }

  /** The answer to an ShRq block costs less than the block was worth. */
  lemma ShRqWork(c: Config, p: Packet, nd: Node)
    requires Ready(c, p, nd) && p.rb.token < 0 && p.rb.bt == ShRq && p.rb.P == p.at
    ensures LessWork(c, p, nd, Handle(c, nd, p.rb))
  {
    hide Handle, LessWork, PacketOk, NextHop, Ready;
    ReadyOk(c, p, nd);
    var answer := Packet(p.at, Unicast(c.leader, c.s1, ShPn));
    var nd' := nd.(gotShrq := true);
    ProcessShRq(c, nd, p.rb);
    AnswerReady(c, p, nd);
    if p.at == c.leader {
      ShPnWork(c, answer, nd');
    } else {
      HopWork(c, answer, nd');
    }
    AnswerWork(c, p, nd, Handle(c, nd, p.rb));
  }

  lemma AnswerWork(c: Config, p: Packet, nd: Node, out: Out)
    requires ValidConfig(c) && p.at == p.rb.P == c.s1 && p.rb.token < 0 && p.rb.bt == ShRq
    requires LessWork(c, Packet(p.at, Unicast(c.leader, c.s1, ShPn)), nd.(gotShrq := true), out)
    ensures LessWork(c, p, nd, out)
  {
    hide Sum, Work, NodeWork;
    UnicastWork(c.snum, Packet(p.at, Unicast(c.leader, c.s1, ShPn)));
    UnicastCosts(c.snum, p);
    FrameWork(c, nd, nd.(gotShrq := true));
  }

  lemma AnswerReady(c: Config, p: Packet, nd: Node)
    requires Ready(c, p, nd) && p.rb.token < 0 && p.rb.bt == ShRq && p.rb.P == p.at
    ensures Ready(c, Packet(p.at, Unicast(c.leader, c.s1, ShPn)), nd.(gotShrq := true))
  {
  }

  /** The last signature: M's first copies cost less than was set aside for them. */
  lemma StartWork(c: Config, p: Packet, nd: Node)
    requires Ready(c, p, nd) && p.rb.token < 0 && p.rb.bt == MSgn && p.rb.P == p.at
    requires nd.totalMsigns + 1 == c.anum
    ensures LessWork(c, p, nd, Handle(c, nd, p.rb))
  {
    hide Handle, Sum, PacketOk, NodeWork, Copies, Below, Ready, WithGot, Work;
    ReadyOk(c, p, nd);
    var nd' := nd.(totalMsigns := nd.totalMsigns + 1);
    ProcessMSgn(c, nd, p.rb);
    RootOk(c, M);
    RootWork(c, M);
    CopiesWork(c, FirstM(c));
    ProcessCast(c, nd', FirstM(c).rb);
    WithGotKeeps(M, nd');
    FrameWork(c, nd, WithGot(M, nd'));
    assert Work(c.snum)(p) >= 1 by { UnicastCosts(c.snum, p); }
  }

  lemma MSgnWork(c: Config, p: Packet, nd: Node)
    requires Ready(c, p, nd) && p.rb.token < 0 && p.rb.bt == MSgn && p.rb.P == p.at
    ensures LessWork(c, p, nd, Handle(c, nd, p.rb))
  {
    hide Handle, Sum, PacketOk, NodeWork, Ready, Work;
    ReadyOk(c, p, nd);
    var nd' := nd.(totalMsigns := nd.totalMsigns + 1);
    if nd'.totalMsigns == c.anum {
      StartWork(c, p, nd);
    } else {
      ProcessMSgn(c, nd, p.rb);
      OneWork(c, p);
      UnicastCosts(c.snum, p);
      FrameWork(c, nd, nd');
    }
  }

  lemma HandleWork(c: Config, p: Packet, nd: Node)
    requires Ready(c, p, nd)
    ensures LessWork(c, p, nd, Handle(c, nd, p.rb))
  {
    hide Handle, LessWork, PacketOk, Ready;
    ReadyOk(c, p, nd);
    if p.rb.token >= 0 {
      CastWork(c, p, nd);
    } else if p.rb.P != p.at {
      HopWork(c, p, nd);
    } else {
      BlockTypes(c, p);
      match p.rb.bt
      case ShRq => ShRqWork(c, p, nd);
      case ShPn => ShPnWork(c, p, nd);
      case MSgn => MSgnWork(c, p, nd);
      case _ =>
    }
  }

  lemma BlockTypes(c: Config, p: Packet)
    requires PacketOk(c, p) && p.rb.token < 0
    ensures p.rb.bt == ShRq || p.rb.bt == ShPn || p.rb.bt == MSgn
  {
  }

  lemma ArriveMeasure(c: Config, s: State, i: nat)
    requires Inv(c, s) && i < |s.net|
    ensures Inv(c, Next(c, s, Arrive(i)))
    ensures Measure(c, Next(c, s, Arrive(i))) < Measure(c, s)
  {
    hide Inv, Handle, Sum, Work, NodeWork, Ready, PacketOk;
    ArriveInv(c, s, i);
    ReadyInNet(c, s, i);
    InNet(c, s, i);
    var p := s.net[i];
    var nd := s.nodes[p.at];
    var out := Handle(c, nd, p.rb);
    HandleFrame(c, p, nd);
    HandleWork(c, p, nd);
    SumDeliver(Work(c.snum), s.net, i, out.send);
    SumUpdate(NodeWorkOf(c), s.nodes, p.at, out.node);
  }

  lemma InNet(c: Config, s: State, i: nat)
    requires Inv(c, s) && i < |s.net|
    ensures ValidConfig(c) && Shape(c, s) && s.net[i].at < c.snum && s.net[i].rb.P < c.snum
    ensures s.nodes[s.net[i].at].number == s.net[i].at
  {
    assert PacketOk(c, s.net[i]);
    CastToken(c, s.net[i]);
  }

  lemma HandleFrame(c: Config, p: Packet, nd: Node)
    requires Ready(c, p, nd)
    ensures nd.number < c.snum && p.rb.P < c.snum && ValidConfig(c)
    ensures Frame(nd, Handle(c, nd, p.rb).node)
  {
    hide Handle, Ready, PacketOk, ShadowEffect, SignatureEffect, Frame;
    ReadyOk(c, p, nd);
    HandleEffect(c, p, nd);
  }

  // ---- each other action ----

  lemma WithMeasure(c: Config, s: State, nd: Node, p: Packet)
    requires nd.number < |s.nodes|
    requires Work(c.snum)(p) + NodeWork(c, nd) <= NodeWork(c, s.nodes[nd.number])
    ensures Measure(c, With(s, nd, p)) <= Measure(c, s)
  {
    hide Sum, Work, NodeWork;
    SumAppend(Work(c.snum), s.net, [p]);
    OneWork(c, p);
    SumUpdate(NodeWorkOf(c), s.nodes, nd.number, nd);
  }

  lemma CreatedMeasure(c: Config, s: State, nd: Node, p: Packet, s': State)
    requires Creates(c, s, nd, p, s')
    requires Work(c.snum)(p) + NodeWork(c, nd) <= NodeWork(c, s.nodes[nd.number])
    ensures Measure(c, s') < Measure(c, s)
  {
    hide Sum, Work, NodeWork, Inv, Handle, Measure;
    VirtualArrive(c, s, nd, p);
    WithMeasure(c, s, nd, p);
    ArriveMeasure(c, With(s, nd, p), |s.net|);
  }

  /** Each one-time action pays for the block it creates. */
  lemma BroadKPays(c: Config, nd: Node)
    requires nd.number == c.w && !nd.broadK
    ensures ActionWork(c, nd.(broadK := true)) + c.snum == ActionWork(c, nd)
  {
    hide Attached, LBWork, If;
    IfIs(c.snum);
  }

  lemma ShrqPays(c: Config, nd: Node)
    requires nd.number == c.leader && !nd.sentShrq
    ensures ActionWork(c, nd.(sentShrq := true)) + 2 * c.snum == ActionWork(c, nd)
  {
    hide Attached, LBWork, If;
    IfIs(2 * c.snum);
  }

  lemma ShpnPays(c: Config, nd: Node)
    requires nd.number == c.s1 && !nd.sentShpn
    ensures ActionWork(c, nd.(sentShpn := true)) + c.snum == ActionWork(c, nd)
  {
    hide Attached, LBWork, If;
    IfIs(c.snum);
  }

  lemma BroadLBPays(c: Config, nd: Node)
    requires nd.number == c.leader && !nd.broadLB
    ensures ActionWork(c, nd.(broadLB := true)) + c.snum == ActionWork(c, nd)
  {
    hide Attached, LBWork, If;
    IfIs(c.snum);
  }

  lemma CreatedWork(c: Config, s: State, act: Action)
    requires ValidConfig(c) && Shape(c, s) && Enabled(c, s, act) && Creating(act)
    ensures Work(c.snum)(Created(c, act)) + NodeWork(c, Creator(s, act)) <= NodeWork(c, s.nodes[act.v])
  {
    hide ActionWork, Work, PacketOk;
    var nd := s.nodes[act.v];
    match act
    case BroadK(v) => RootWork(c, K); BroadKPays(c, nd);
    case BroadLB(v) => RootWork(c, LB); BroadLBPays(c, nd);
    case SendShrq(v) => UnicastWork(c.snum, Created(c, act)); ShrqPays(c, nd);
    case SendShpn(v) => UnicastWork(c.snum, Created(c, act)); ShpnPays(c, nd);
    case TakeMsgn(v) =>
      UnicastWork(c.snum, Created(c, act));
      SameActions(c, nd, nd.kOut, nd.msgn - 1);
      assert (nd.msgn - 1) * c.snum == nd.msgn * c.snum - c.snum;
  }

  lemma CreateMeasure(c: Config, s: State, act: Action)
    requires Inv(c, s) && Enabled(c, s, act) && Creating(act)
    ensures Measure(c, Next(c, s, act)) < Measure(c, s)
  {
    hide Sum, Work, NodeWork, Handle, Measure, Next, Coverage, Shadow, Causes, Signatures, PacketOk, Creates;
    NextCreates(c, s, act);
    CreatedWork(c, s, act);
    CreatedMeasure(c, s, Creator(s, act), Created(c, act), Next(c, s, act));
  }

  lemma SendKWork(c: Config, nd: Node)
    requires !nd.sentK
    ensures NodeWork(c, nd.(sentK := true, kOut := nd.kOut + Attached(c, nd.number))) + 1 == NodeWork(c, nd)
  {
    hide Attached, LBWork, If;
    IfIs(1 + Attached(c, nd.number));
  }

  lemma SendKMeasure(c: Config, s: State, v: nat)
    requires Inv(c, s) && Enabled(c, s, SendK(v))
    ensures Measure(c, Next(c, s, SendK(v))) < Measure(c, s)
  {
    hide Sum, Work, NodeWork, Attached, Coverage, Shadow, Causes, Signatures, PacketOk;
    SendKWork(c, s.nodes[v]);
    SumUpdate(NodeWorkOf(c), s.nodes, v, s.nodes[v].(sentK := true, kOut := s.nodes[v].kOut + Attached(c, v)));
  }

  lemma SameActions(c: Config, nd: Node, kOut: nat, msgn: nat)
    ensures ActionWork(c, nd.(kOut := kOut, msgn := msgn)) == ActionWork(c, nd)
  {
    hide Attached, LBWork, If;
  }

  lemma DeliverKWork(c: Config, nd: Node)
    requires nd.kOut > 0
    ensures NodeWork(c, nd.(kOut := nd.kOut - 1)) + 1 == NodeWork(c, nd)
  {
    hide ActionWork;
    SameActions(c, nd, nd.kOut - 1, nd.msgn);
  }

  lemma DeliverKMeasure(c: Config, s: State, v: nat)
    requires Inv(c, s) && Enabled(c, s, DeliverK(v))
    ensures Measure(c, Next(c, s, DeliverK(v))) < Measure(c, s)
  {
    hide Sum, Work, NodeWork, Coverage, Shadow, Causes, Signatures, PacketOk;
    DeliverKWork(c, s.nodes[v]);
    SumUpdate(NodeWorkOf(c), s.nodes, v, s.nodes[v].(kOut := s.nodes[v].kOut - 1));
  }

  lemma SendLBWork(c: Config, nd: Node)
    requires !nd.sentLB
    ensures NodeWork(c, nd.(sentLB := true)) + LBWork(c, nd.number) == NodeWork(c, nd)
  {
    hide Attached, LBWork, If;
    IfIs(LBWork(c, nd.number));
  }

  lemma QueueLBWork(c: Config, v: nat, anodes: seq<ANode>)
    requires ValidConfig(c) && |anodes| == c.anum
    ensures Sum(ANodeWorkOf(c.snum), QueueLB(c, v, anodes))
            == Sum(ANodeWorkOf(c.snum), anodes) + Attached(c, v) * (c.snum + 3)
  {
    hide Sum;
    var n := c.snum;
    forall a | 0 <= a < c.anum
      ensures ANodeWorkOf(n)(QueueLB(c, v, anodes)[a]) == ANodeWorkOf(n)(anodes[a]) + (n + 3) * HomeIs(v)(c.home[a])
    {
      assert (anodes[a].lbOut + 1) * (n + 3) == anodes[a].lbOut * (n + 3) + (n + 3);
    }
    SumPointwise(ANodeWorkOf(n), anodes, QueueLB(c, v, anodes), n + 3, HomeIs(v), c.home);
    assert (n + 3) * Attached(c, v) == Attached(c, v) * (n + 3);
  }

  lemma SendLBMeasure(c: Config, s: State, v: nat)
    requires Inv(c, s) && Enabled(c, s, SendLB(v))
    ensures Measure(c, Next(c, s, SendLB(v))) < Measure(c, s)
  {
    hide Sum, Work, NodeWork, Attached, ANodeWorkOf, Coverage, Shadow, Causes, Signatures, PacketOk, QueueLB;
    var nd := s.nodes[v].(sentLB := true);
    SendLBWork(c, s.nodes[v]);
    SumUpdate(NodeWorkOf(c), s.nodes, v, nd);
    QueueLBWork(c, v, s.anodes);
  }

  lemma ANodeMeasure(c: Config, s: State, act: Action)
    requires Inv(c, s) && Enabled(c, s, act) && (act.DeliverLB? || act.ReadLB?)
    ensures Measure(c, Next(c, s, act)) < Measure(c, s)
  {
    hide Sum, Work, NodeWork, Coverage, Shadow, Causes, Signatures, PacketOk;
    var x := s.anodes[act.a];
    var n := c.snum;
    var x' := if act.DeliverLB? then x.(lbOut := x.lbOut - 1, lbRec := x.lbRec + 1)
              else x.(lbRec := x.lbRec - 1, signing := true);
    assert act.DeliverLB? ==> (x.lbOut - 1) * (n + 3) == x.lbOut * (n + 3) - (n + 3);
    assert act.DeliverLB? ==> (x.lbRec + 1) * (n + 2) == x.lbRec * (n + 2) + (n + 2);
    assert act.ReadLB? ==> (x.lbRec - 1) * (n + 2) == x.lbRec * (n + 2) - (n + 2);
    SumUpdate(ANodeWorkOf(n), s.anodes, act.a, x');
  }

  lemma MsgnWork(c: Config, nd: Node)
    ensures NodeWork(c, nd.(msgn := nd.msgn + 1)) == NodeWork(c, nd) + c.snum
  {
    hide ActionWork;
    SameActions(c, nd, nd.kOut, nd.msgn + 1);
    assert (nd.msgn + 1) * c.snum == nd.msgn * c.snum + c.snum;
  }

  lemma SignMeasure(c: Config, s: State, a: nat)
    requires Inv(c, s) && Enabled(c, s, Sign(a))
    ensures Measure(c, Next(c, s, Sign(a))) < Measure(c, s)
  {
    hide Sum, Work, NodeWork, Coverage, Shadow, Causes, Signatures, PacketOk;
    var x := s.anodes[a];
    var h := c.home[a];
    assert h in c.home;
    MsgnWork(c, s.nodes[h]);
    SumUpdate(ANodeWorkOf(c.snum), s.anodes, a, x.(signing := false, sent := x.sent + 1));
    SumUpdate(NodeWorkOf(c), s.nodes, h, s.nodes[h].(msgn := s.nodes[h].msgn + 1));
  }

  lemma NextMeasure(c: Config, s: State, act: Action)
    requires Inv(c, s) && Enabled(c, s, act)
    ensures Measure(c, Next(c, s, act)) < Measure(c, s)
  {
    hide Next, Measure;
    if Creating(act) {
      CreateMeasure(c, s, act);
    } else {
      match act
      case Arrive(i) => ArriveMeasure(c, s, i);
      case SendK(v) => SendKMeasure(c, s, v);
      case SendLB(v) => SendLBMeasure(c, s, v);
      case DeliverK(v) => DeliverKMeasure(c, s, v);
      case Sign(a) => SignMeasure(c, s, a);
      case _ => ANodeMeasure(c, s, act);
    }
  }

  // ---- where a run starts ----

  function HomeBelow(k: nat): nat -> nat {
    h => if h < k then 1 else 0
  }

  lemma {:induction false} HomeBelowNext(home: seq<nat>, k: nat)
    ensures Sum(HomeBelow(k + 1), home) == Sum(HomeBelow(k), home) + Sum(HomeIs(k), home)
  {
    if home != [] {
      HomeBelowNext(home[1..], k);
    }
  }

  lemma {:induction false} HomeBelowAll(home: seq<nat>, n: nat)
    requires forall h <- home :: h < n
    ensures Sum(HomeBelow(n), home) == |home| && Sum(HomeBelow(0), home) == 0
  {
    if home != [] {
      assert home[0] in home && forall h <- home[1..] :: h in home;
      HomeBelowAll(home[1..], n);
    }
  }

  /** The work of the first k nodes, before anything has happened. */
  function InitialWork(c: Config, k: nat): nat {
    If(c.w < k, c.snum) + If(c.leader < k, 4 * c.snum) + If(c.s1 < k, c.snum) + 2 * k
    + Sum(HomeBelow(k), c.home) * (c.snum + 4)
  }

  /** What a node that has done nothing will still do. */
  lemma FreshWork(c: Config, k: nat)
    requires ValidConfig(c) && k < c.snum
    ensures NodeWork(c, InitNode(k))
            == If(c.w == k, c.snum) + If(c.leader == k, 4 * c.snum) + If(c.s1 == k, c.snum) + 2
               + Attached(c, k) * (c.snum + 4)
  {
    hide Attached;
    var y := Attached(c, k);
    assert y * (c.snum + 4) == y + y * (c.snum + 3);
  }

  lemma InitNodeWork(c: Config, k: nat)
    requires ValidConfig(c) && k < c.snum
    ensures InitialWork(c, k) + NodeWork(c, InitNode(k)) == InitialWork(c, k + 1)
  {
    hide Sum, NodeWork;
    FreshWork(c, k);
    HomeBelowNext(c.home, k);
    var x, y, z := Sum(HomeBelow(k), c.home), Attached(c, k), c.snum + 4;
    assert (x + y) * z == x * z + y * z;
  }

  lemma {:induction false} InitNodesWork(c: Config, k: nat)
    requires ValidConfig(c) && k <= c.snum
    ensures Sum(NodeWorkOf(c), Init(c).nodes[..k]) == InitialWork(c, k)
  {
    hide NodeWork;
    if k == 0 {
      HomeBelowAll(c.home, c.snum);
    } else {
      var nodes := Init(c).nodes;
      InitNodesWork(c, k - 1);
      InitNodeWork(c, k - 1);
      assert nodes[..k] == nodes[..k - 1] + [InitNode(k - 1)];
      SumAppend(NodeWorkOf(c), nodes[..k - 1], [InitNode(k - 1)]);
      SumOne(NodeWorkOf(c), InitNode(k - 1));
    }
  }

  lemma InitMeasure(c: Config)
    requires ValidConfig(c)
    ensures Measure(c, Init(c)) == 8 * c.snum + c.anum * (c.snum + 4)
  {
    hide NodeWork, Work;
    var s := Init(c);
    InitNodesWork(c, c.snum);
    assert s.nodes[..c.snum] == s.nodes;
    HomeBelowAll(c.home, c.snum);
    SumZero(ANodeWorkOf(c.snum), s.anodes);
  }
}
