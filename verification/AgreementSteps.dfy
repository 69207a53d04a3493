/**
 Every step keeps the invariant of AgreementInvariant, so every reachable state has it.
 */
module AgreementSteps {
  import opened RingArithmetic
  import opened Sums
  import opened Broadcast
  import opened Routing
  import opened Agreement
  import opened AgreementInvariant

  /** Node v becomes out.node, and its packets replace the handled one. */
  function Arrived(s: State, i: nat, out: Out): State
    requires i < |s.net| && s.net[i].at < |s.nodes|
  {
    s.(nodes := s.nodes[s.net[i].at := out.node], net := RemoveAt(s.net, i) + out.send)
  }

  lemma ReadyInNet(c: Config, s: State, i: nat)
    requires Inv(c, s) && i < |s.net|
    ensures s.net[i].at < c.snum && Ready(c, s.net[i], s.nodes[s.net[i].at])
  {
    hide Sum, Causes, Signatures;
    var p := s.net[i];
    var v := p.at;
    assert PacketOk(c, p);
    if p.rb.token >= 0 {
      SumMember(Covers(c, p.rb.bt, v), s.net, p);
      assert Covers(c, p.rb.bt, v)(p) == 1;
    }
    SumMember(Of(ShRq), s.net, p);
    assert Bit(Got(M, s.nodes[v])) + Sum(Covers(c, M, v), s.net) == Bit(Started(c, s, M));
  }

  lemma ArriveCoverage(c: Config, s: State, i: nat, out: Out)
    requires Inv(c, s) && i < |s.net| && s.net[i].at < c.snum
    requires Effect(c, s.net[i], s.nodes[s.net[i].at], out)
    requires forall bt, v: nat {:trigger Covers(c, bt, v)} :: IsCast(bt) && v < c.snum ==>
               CoverEffect(c, s.net[i], s.nodes[s.net[i].at], out, bt, v)
    requires Shape(c, Arrived(s, i, out))
    ensures Coverage(c, Arrived(s, i, out))
  {
    hide Sum, Covers, Shadow, Causes, Signatures, ShadowEffect, SignatureEffect, PacketOk;
    var s' := Arrived(s, i, out);
    forall bt: BlockType, v: nat | IsCast(bt) && v < c.snum
      ensures Bit(Got(bt, s'.nodes[v])) + Sum(Covers(c, bt, v), s'.net) == Bit(Started(c, s', bt))
    {
      SumDeliver(Covers(c, bt, v), s.net, i, out.send);
    }
  }

  lemma ArriveShadow(c: Config, s: State, i: nat, out: Out)
    requires Inv(c, s) && i < |s.net| && s.net[i].at < c.snum
    requires Ready(c, s.net[i], s.nodes[s.net[i].at])
    requires Effect(c, s.net[i], s.nodes[s.net[i].at], out)
    requires Shape(c, Arrived(s, i, out))
    ensures Shadow(c, Arrived(s, i, out))
  {
    hide Sum, Coverage, Causes, Signatures, SignatureEffect, PacketOk;
    SumDeliver(Of(ShRq), s.net, i, out.send);
    SumDeliver(Of(ShPn), s.net, i, out.send);
    SumMember(Of(ShPn), s.net, s.net[i]);
    CastToken(c, s.net[i]);
  }

  lemma ArriveSignatures(c: Config, s: State, i: nat, out: Out)
    requires Inv(c, s) && i < |s.net| && s.net[i].at < c.snum
    requires Effect(c, s.net[i], s.nodes[s.net[i].at], out)
    requires Shape(c, Arrived(s, i, out))
    ensures Signatures(c, Arrived(s, i, out))
  {
    hide Sum, Coverage, Causes, Shadow, ShadowEffect, PacketOk;
    SumDeliver(Of(MSgn), s.net, i, out.send);
    SumUpdate(MsgnOf(), s.nodes, s.net[i].at, out.node);
  }

  lemma ArriveInv(c: Config, s: State, i: nat)
    requires Inv(c, s) && i < |s.net|
    ensures Inv(c, Next(c, s, Arrive(i)))
  {
    hide Sum, Covers, CoverEffect, Coverage, Shadow, Signatures, ShadowEffect, SignatureEffect, Ready, PacketOk, Handle;
    ReadyInNet(c, s, i);
    var p := s.net[i];
    var nd := s.nodes[p.at];
    assert p in s.net;
    CastToken(c, p);
    var out := Handle(c, nd, p.rb);
    HandleEffect(c, p, nd);
    forall bt: BlockType, v: nat | IsCast(bt) && v < c.snum
      ensures CoverEffect(c, p, nd, out, bt, v)
    {
      HandleCovers(c, p, nd, bt, v);
    }
    assert Next(c, s, Arrive(i)) == Arrived(s, i, out);
    ArriveCoverage(c, s, i, out);
    ArriveShadow(c, s, i, out);
    ArriveSignatures(c, s, i, out);
  }

  // ---- actions that create a block: it joins the others and is handled at once ----

  /** Node v changes to nd and creates packet p. */
  function With(s: State, nd: Node, p: Packet): State
    requires nd.number < |s.nodes|
  {
    s.(nodes := s.nodes[nd.number := nd], net := s.net + [p])
  }

  /** The node fields that blocks in flight do not depend on. */
  predicate SameGot(nd: Node, nd': Node) {
    && nd'.number == nd.number && nd'.gotK == nd.gotK && nd'.gotLB == nd.gotLB && nd'.gotM == nd.gotM
    && nd'.gotShrq == nd.gotShrq && nd'.gotShpn == nd.gotShpn && nd'.totalMsigns == nd.totalMsigns
  }

  lemma WithUnicast(c: Config, s: State, nd: Node, p: Packet)
    requires Inv(c, s) && nd.number < c.snum && SameGot(s.nodes[nd.number], nd)
    requires PacketOk(c, p) && p.rb.token < 0
    requires nd.broadK == s.nodes[nd.number].broadK && nd.broadLB == s.nodes[nd.number].broadLB
    ensures Shape(c, With(s, nd, p)) && Coverage(c, With(s, nd, p))
    ensures forall bt :: Sum(Of(bt), With(s, nd, p).net) == Sum(Of(bt), s.net) + Bit(p.rb.bt == bt)
  {
    hide Sum, Shadow, Causes, Signatures, PacketOk;
    var s' := With(s, nd, p);
    forall bt: BlockType ensures Sum(Of(bt), s'.net) == Sum(Of(bt), s.net) + Bit(p.rb.bt == bt) {
      SumAppend(Of(bt), s.net, [p]);
      SumOne(Of(bt), p);
    }
    forall bt: BlockType, v: nat | IsCast(bt) && v < c.snum
      ensures Bit(Got(bt, s'.nodes[v])) + Sum(Covers(c, bt, v), s'.net) == Bit(Started(c, s', bt))
    {
      SumAppend(Covers(c, bt, v), s.net, [p]);
      SumOne(Covers(c, bt, v), p);
    }
  }

  /** Creating and handling a block is the arrival of a block that was just added. */
  lemma VirtualArrive(c: Config, s: State, nd: Node, p: Packet)
    requires ValidConfig(c) && Shape(c, s) && nd.number == p.at < c.snum && PacketOk(c, p)
    requires Inv(c, With(s, nd, p))
    ensures p.rb.P < c.snum
    ensures Inv(c, Then(c, s, nd, p.rb))
    ensures Then(c, s, nd, p.rb) == Next(c, With(s, nd, p), Arrive(|s.net|))
  {
    hide Inv, Handle;
    var s' := With(s, nd, p);
    CastToken(c, p);
    assert RemoveAt(s'.net, |s.net|) == s.net;
    ArriveInv(c, s', |s.net|);
    var out := Handle(c, nd, p.rb);
    assert s'.nodes[p.at := out.node] == s.nodes[p.at := out.node];
  }

  /** A change to K flags and counters of one node touches nothing but the coverage of K. */
  lemma QuietRest(c: Config, s: State, nd: Node, net: seq<Packet>)
    requires Inv(c, s) && nd.number < c.snum && SameGot(s.nodes[nd.number], nd)
    requires var was := s.nodes[nd.number];
             nd.sentLB == was.sentLB && nd.sentShrq == was.sentShrq && nd.msgn == was.msgn &&
             nd.broadLB == was.broadLB && (nd.sentK ==> nd.gotK)
    requires Shape(c, s.(nodes := s.nodes[nd.number := nd], net := net))
    requires forall bt :: Sum(Of(bt), net) == Sum(Of(bt), s.net)
    ensures var s' := s.(nodes := s.nodes[nd.number := nd], net := net);
            Shadow(c, s') && Causes(c, s') && Signatures(c, s')
  {
    hide Sum, Coverage, PacketOk;
    SumUpdate(MsgnOf(), s.nodes, nd.number, nd);
  }

  /** The step to s' lets node nd create p, with an invariant that holds before p is handled. */
  ghost predicate Creates(c: Config, s: State, nd: Node, p: Packet, s': State) {
    && ValidConfig(c) && Shape(c, s) && nd.number == p.at < c.snum && PacketOk(c, p) && p.rb.P < c.snum
    && Inv(c, With(s, nd, p))
    && s' == Then(c, s, nd, p.rb)
  }

  lemma CreatesInv(c: Config, s: State, nd: Node, p: Packet, s': State)
    requires Creates(c, s, nd, p, s')
    ensures Inv(c, s')
  {
    hide Inv, Handle, PacketOk, Shape;
    VirtualArrive(c, s, nd, p);
  }

  lemma SendShrqCreates(c: Config, s: State, v: nat)
    requires Inv(c, s) && Enabled(c, s, SendShrq(v))
    ensures Creates(c, s, s.nodes[v].(sentShrq := true), Packet(v, Unicast(c.s1, v, ShRq)),
                    Next(c, s, SendShrq(v)))
  {
    hide Sum, Coverage, Handle;
    var nd := s.nodes[v].(sentShrq := true);
    var p := Packet(v, Unicast(c.s1, v, ShRq));
    var s' := With(s, nd, p);
    WithUnicast(c, s, nd, p);
    SumUpdate(MsgnOf(), s.nodes, v, nd);
  }

  lemma SendShpnCreates(c: Config, s: State, v: nat)
    requires Inv(c, s) && Enabled(c, s, SendShpn(v))
    ensures Creates(c, s, s.nodes[v].(sentShpn := true), Packet(v, Unicast(c.leader, v, ShPn)),
                    Next(c, s, SendShpn(v)))
  {
    hide Sum, Coverage, Handle;
    var nd := s.nodes[v].(sentShpn := true);
    var p := Packet(v, Unicast(c.leader, v, ShPn));
    WithUnicast(c, s, nd, p);
    SumUpdate(MsgnOf(), s.nodes, v, nd);
  }

  lemma TakeMsgnCreates(c: Config, s: State, v: nat)
    requires Inv(c, s) && Enabled(c, s, TakeMsgn(v))
    ensures Creates(c, s, s.nodes[v].(msgn := s.nodes[v].msgn - 1), Packet(v, Unicast(c.leader, v, MSgn)),
                    Next(c, s, TakeMsgn(v)))
  {
    hide Sum, Coverage, Handle;
    var nd := s.nodes[v].(msgn := s.nodes[v].msgn - 1);
    var p := Packet(v, Unicast(c.leader, v, MSgn));
    WithUnicast(c, s, nd, p);
    SumUpdate(MsgnOf(), s.nodes, v, nd);
  }

  // ---- the two broadcasts started from main ----

  lemma RootCoverage(c: Config, s: State, nd: Node, bt: BlockType)
    requires Inv(c, s) && (bt == K || bt == LB) && nd.number == Source(c, bt) && SameGot(s.nodes[nd.number], nd)
    requires nd.broadK == (bt == K || s.nodes[nd.number].broadK)
    requires nd.broadLB == (bt == LB || s.nodes[nd.number].broadLB)
    requires !Started(c, s, bt)
    ensures var p := Packet(nd.number, Root(nd.number, bt));
            PacketOk(c, p) && Shape(c, With(s, nd, p)) && Coverage(c, With(s, nd, p))
    ensures var p := Packet(nd.number, Root(nd.number, bt));
            forall b :: Sum(Of(b), With(s, nd, p).net) == Sum(Of(b), s.net)
    ensures !Got(bt, s.nodes[nd.number])
  {
    hide Sum, Shadow, Causes, Signatures, PacketOk, Covers;
    var p := Packet(nd.number, Root(nd.number, bt));
    var s' := With(s, nd, p);
    RootOk(c, bt);
    forall b: BlockType ensures Sum(Of(b), s'.net) == Sum(Of(b), s.net) {
      SumAppend(Of(b), s.net, [p]);
      SumOne(Of(b), p);
    }
    assert Bit(Got(bt, s.nodes[nd.number])) + Sum(Covers(c, bt, nd.number), s.net) == 0;
    forall b: BlockType, v: nat | IsCast(b) && v < c.snum
      ensures Bit(Got(b, s'.nodes[v])) + Sum(Covers(c, b, v), s'.net) == Bit(Started(c, s', b))
    {
      SumAppend(Covers(c, b, v), s.net, [p]);
      SumOne(Covers(c, b, v), p);
      RootCovers(c, bt, v);
      OtherCast(c, b, v, p);
    }
  }

  lemma OtherCast(c: Config, b: BlockType, v: nat, p: Packet)
    requires ValidConfig(c) && v < c.snum
    ensures b != p.rb.bt ==> Covers(c, b, v)(p) == 0
  {
  }

  lemma GotAlready(bt: BlockType, nd: Node)
    requires IsCast(bt) && Got(bt, nd)
    ensures WithGot(bt, nd) == nd
  {
  }

  /** Setting the got flag before processing the block changes nothing. */
  lemma GotTwice(c: Config, nd: Node, nd': Node, bt: BlockType)
    requires ValidConfig(c) && IsCast(bt) && nd' == WithGot(bt, nd)
    requires nd'.number == nd.number < c.snum
    ensures Handle(c, nd', Root(nd.number, bt)) == Handle(c, nd, Root(nd.number, bt))
  {
    hide Handle, WithGot, Got;
    WithGotKeeps(bt, nd);
    GotAlready(bt, nd');
    ProcessCast(c, nd, Root(nd.number, bt));
    ProcessCast(c, nd', Root(nd.number, bt));
  }

  lemma KCause(c: Config, s: State, v: nat)
    requires Inv(c, s) && v < c.snum
    ensures s.nodes[v].sentK ==> s.nodes[v].gotK
  {
  }

  lemma BroadKCreates(c: Config, s: State, v: nat)
    requires Inv(c, s) && Enabled(c, s, BroadK(v))
    ensures Creates(c, s, s.nodes[v].(broadK := true), Packet(v, Root(v, K)),
                    Next(c, s, BroadK(v)))
  {
    hide Sum, Coverage, Shadow, Causes, Signatures, Handle, PacketOk;
    var nd := s.nodes[v].(broadK := true);
    RootCoverage(c, s, nd, K);
    KCause(c, s, v);
    QuietRest(c, s, nd, s.net + [Packet(v, Root(v, K))]);
    BroadKNext(c, s, v);
  }

  lemma BroadKNext(c: Config, s: State, v: nat)
    requires ValidConfig(c) && Shape(c, s) && Enabled(c, s, BroadK(v))
    ensures Next(c, s, BroadK(v)) == Then(c, s, s.nodes[v].(broadK := true), Root(v, K))
  {
    hide Handle, PacketOk;
    var nd := s.nodes[v].(broadK := true);
    GotTwice(c, nd, nd.(gotK := true), K);
  }

  lemma BroadLBCreates(c: Config, s: State, v: nat)
    requires Inv(c, s) && Enabled(c, s, BroadLB(v))
    ensures Creates(c, s, s.nodes[v].(broadLB := true), Packet(v, Root(v, LB)),
                    Next(c, s, BroadLB(v)))
  {
    hide Sum, Coverage, Handle;
    var nd := s.nodes[v].(broadLB := true);
    RootCoverage(c, s, nd, LB);
    SumUpdate(MsgnOf(), s.nodes, v, nd);
    GotTwice(c, nd, nd.(gotLB := true), LB);
  }

  // ---- actions that create no routing block ----

  lemma LocalCoverage(c: Config, s: State, nd: Node, anodes: seq<ANode>)
    requires Inv(c, s) && nd.number < c.snum && SameGot(s.nodes[nd.number], nd)
    requires nd.broadK == s.nodes[nd.number].broadK && nd.broadLB == s.nodes[nd.number].broadLB
    requires |anodes| == c.anum && forall a :: 0 <= a < c.anum ==> anodes[a].number == a
    ensures var s' := s.(nodes := s.nodes[nd.number := nd], anodes := anodes); Shape(c, s') && Coverage(c, s')
  {
    hide Sum, Shadow, Causes, Signatures, PacketOk, Covers;
    var s' := s.(nodes := s.nodes[nd.number := nd], anodes := anodes);
    forall b: BlockType, v: nat | IsCast(b) && v < c.snum
      ensures Bit(Got(b, s'.nodes[v])) + Sum(Covers(c, b, v), s'.net) == Bit(Started(c, s', b))
    {
      assert Bit(Got(b, s.nodes[v])) + Sum(Covers(c, b, v), s.net) == Bit(Started(c, s, b));
    }
  }

  lemma SendKInv(c: Config, s: State, v: nat)
    requires Inv(c, s) && Enabled(c, s, SendK(v))
    ensures Inv(c, Next(c, s, SendK(v)))
  {
    hide Sum, Coverage, Shadow, Causes, Signatures, PacketOk;
    var nd := s.nodes[v].(sentK := true, kOut := s.nodes[v].kOut + Attached(c, v));
    LocalCoverage(c, s, nd, s.anodes);
    QuietRest(c, s, nd, s.net);
  }

  lemma DeliverKInv(c: Config, s: State, v: nat)
    requires Inv(c, s) && Enabled(c, s, DeliverK(v))
    ensures Inv(c, Next(c, s, DeliverK(v)))
  {
    hide Sum, Coverage, Shadow, Causes, Signatures, PacketOk;
    var nd := s.nodes[v].(kOut := s.nodes[v].kOut - 1);
    LocalCoverage(c, s, nd, s.anodes);
    KCause(c, s, v);
    QuietRest(c, s, nd, s.net);
  }

  lemma SendLBInv(c: Config, s: State, v: nat)
    requires Inv(c, s) && Enabled(c, s, SendLB(v))
    ensures Inv(c, Next(c, s, SendLB(v)))
  {
    hide Sum, Coverage, Signatures, PacketOk;
    LocalCoverage(c, s, s.nodes[v].(sentLB := true), QueueLB(c, v, s.anodes));
    SendLBSignatures(c, s, v);
  }

  lemma SendLBSignatures(c: Config, s: State, v: nat)
    requires Inv(c, s) && Enabled(c, s, SendLB(v)) && Shape(c, Next(c, s, SendLB(v)))
    ensures Signatures(c, Next(c, s, SendLB(v)))
  {
    hide Sum, Coverage, Shadow, Causes, PacketOk;
    SumUpdate(MsgnOf(), s.nodes, v, s.nodes[v].(sentLB := true));
    SumPointwise(SentOf(), s.anodes, QueueLB(c, v, s.anodes), 0, HomeIs(v), c.home);
  }

  /** A change of A nodes and of queues leaves the exchange with S1 and the causes alone. */
  lemma LocalRest(c: Config, s: State, nd: Node, anodes: seq<ANode>)
    requires Inv(c, s) && nd.number < c.snum && nd == s.nodes[nd.number].(kOut := nd.kOut, msgn := nd.msgn)
    requires var s' := s.(nodes := s.nodes[nd.number := nd], anodes := anodes); Shape(c, s')
    ensures var s' := s.(nodes := s.nodes[nd.number := nd], anodes := anodes); Shadow(c, s') && Causes(c, s')
  {
    hide Sum, Coverage, Signatures, PacketOk;
  }

  lemma ANodeInv(c: Config, s: State, act: Action)
    requires Inv(c, s) && Enabled(c, s, act) && (act.DeliverLB? || act.ReadLB?)
    ensures Inv(c, Next(c, s, act))
  {
    hide Sum, Coverage, Shadow, Causes, Signatures, PacketOk;
    var x := s.anodes[act.a];
    var x' := if act.DeliverLB? then x.(lbOut := x.lbOut - 1, lbRec := x.lbRec + 1)
              else x.(lbRec := x.lbRec - 1, signing := true);
    assert s.nodes[0 := s.nodes[0]] == s.nodes;
    LocalCoverage(c, s, s.nodes[0], s.anodes[act.a := x']);
    LocalRest(c, s, s.nodes[0], s.anodes[act.a := x']);
    ANodeSignatures(c, s, act, x');
  }

  lemma ANodeSignatures(c: Config, s: State, act: Action, x': ANode)
    requires Inv(c, s) && Enabled(c, s, act) && (act.DeliverLB? || act.ReadLB?) && Shape(c, Next(c, s, act))
    requires Next(c, s, act) == s.(anodes := s.anodes[act.a := x'])
    requires var x := s.anodes[act.a]; x' == if act.DeliverLB? then x.(lbOut := x.lbOut - 1, lbRec := x.lbRec + 1)
                                             else x.(lbRec := x.lbRec - 1, signing := true)
    ensures Signatures(c, Next(c, s, act))
  {
    hide Sum, Coverage, Shadow, Causes, PacketOk, Next;
    SumUpdate(SentOf(), s.anodes, act.a, x');
  }

  lemma SignInv(c: Config, s: State, a: nat)
    requires Inv(c, s) && Enabled(c, s, Sign(a))
    ensures Inv(c, Next(c, s, Sign(a)))
  {
    hide Sum, Coverage, Shadow, Causes, PacketOk, Signatures;
    var x' := s.anodes[a].(signing := false, sent := s.anodes[a].sent + 1);
    var h := c.home[a];
    assert h in c.home;
    var nd := s.nodes[h].(msgn := s.nodes[h].msgn + 1);
    LocalCoverage(c, s, nd, s.anodes[a := x']);
    LocalRest(c, s, nd, s.anodes[a := x']);
    SignSignatures(c, s, a);
  }

  lemma SignSignatures(c: Config, s: State, a: nat)
    requires Inv(c, s) && Enabled(c, s, Sign(a)) && Shape(c, Next(c, s, Sign(a)))
    ensures Signatures(c, Next(c, s, Sign(a)))
  {
    hide Sum, Coverage, Shadow, Causes, PacketOk;
    var h := c.home[a];
    assert h in c.home;
    SumUpdate(SentOf(), s.anodes, a, s.anodes[a].(signing := false, sent := s.anodes[a].sent + 1));
    SumUpdate(MsgnOf(), s.nodes, h, s.nodes[h].(msgn := s.nodes[h].msgn + 1));
  }

  /** The actions that create a routing block, each with its node and its packet. */
  predicate Creating(act: Action) {
    act.BroadK? || act.SendShrq? || act.SendShpn? || act.BroadLB? || act.TakeMsgn?
  }

  function Creator(s: State, act: Action): Node
    requires Creating(act) && act.v < |s.nodes|
    requires act.TakeMsgn? ==> s.nodes[act.v].msgn > 0
  {
    var nd := s.nodes[act.v];
    match act
    case BroadK(v) => nd.(broadK := true)
    case SendShrq(v) => nd.(sentShrq := true)
    case SendShpn(v) => nd.(sentShpn := true)
    case BroadLB(v) => nd.(broadLB := true)
    case TakeMsgn(v) => nd.(msgn := nd.msgn - 1)
  }

  function Created(c: Config, act: Action): Packet
    requires Creating(act)
  {
    match act
    case BroadK(v) => Packet(v, Root(v, K))
    case SendShrq(v) => Packet(v, Unicast(c.s1, v, ShRq))
    case SendShpn(v) => Packet(v, Unicast(c.leader, v, ShPn))
    case BroadLB(v) => Packet(v, Root(v, LB))
    case TakeMsgn(v) => Packet(v, Unicast(c.leader, v, MSgn))
  }

  lemma NextCreates(c: Config, s: State, act: Action)
    requires Inv(c, s) && Enabled(c, s, act) && Creating(act)
    ensures Creates(c, s, Creator(s, act), Created(c, act), Next(c, s, act))
  {
    hide Inv, Next, Creates, Handle;
    match act
    case BroadK(v) => BroadKCreates(c, s, v);
    case SendShrq(v) => SendShrqCreates(c, s, v);
    case SendShpn(v) => SendShpnCreates(c, s, v);
    case BroadLB(v) => BroadLBCreates(c, s, v);
    case TakeMsgn(v) => TakeMsgnCreates(c, s, v);
  }

  lemma NextInv(c: Config, s: State, act: Action)
    requires Inv(c, s) && Enabled(c, s, act)
    ensures Inv(c, Next(c, s, act))
  {
    hide Next, Creates;
    if Creating(act) {
      NextCreates(c, s, act);
      CreatesInv(c, s, Creator(s, act), Created(c, act), Next(c, s, act));
    } else {
      match act
      case Arrive(i) => ArriveInv(c, s, i);
      case SendK(v) => SendKInv(c, s, v);
      case SendLB(v) => SendLBInv(c, s, v);
      case DeliverK(v) => DeliverKInv(c, s, v);
      case Sign(a) => SignInv(c, s, a);
      case _ => ANodeInv(c, s, act);
    }
  }

  lemma InitCoverage(c: Config)
    requires ValidConfig(c)
    ensures Shape(c, Init(c)) && Coverage(c, Init(c))
  {
    hide Covers, PacketOk;
  }

  lemma InitInv(c: Config)
    requires ValidConfig(c)
    ensures Inv(c, Init(c))
  {
    hide Sum, Coverage, PacketOk;
    var s := Init(c);
    InitCoverage(c);
    SumZero(SentOf(), s.anodes);
    SumZero(MsgnOf(), s.nodes);
    SumZero(Of(ShRq), s.net);
    SumZero(Of(ShPn), s.net);
    SumZero(Of(MSgn), s.net);
    forall a | 0 <= a < c.anum ensures c.home[a] in c.home {
    }
  }
}
