/**
 What every step of the agreement protocol keeps: each broadcast serves each node
 exactly once, the ShRq/ShPn exchange loses nothing, and signatures are conserved.
 */
module AgreementInvariant {
  import opened RingArithmetic
  import opened Sums
  import opened Broadcast
  import opened Routing
  import opened Agreement

  function Bit(b: bool): nat {
    if b then 1 else 0
  }

  /** Whether a packet will serve node v of the broadcast bt. */
  ghost function Covers(c: Config, bt: BlockType, v: nat): Packet -> nat
    requires ValidConfig(c) && v < c.snum
  {
    var serves := Serves(c.snum, Dist(c.snum, Source(c, bt), v));
    (p: Packet) => if p.rb.token >= 0 && p.rb.bt == bt then serves(p.rb) else 0
  }

  /** Unicast packets of one type. */
  function Of(bt: BlockType): Packet -> nat {
    (p: Packet) => if p.rb.token < 0 && p.rb.bt == bt then 1 else 0
  }

  function Got(bt: BlockType, nd: Node): bool {
    match bt case K => nd.gotK case LB => nd.gotLB case M => nd.gotM case _ => false
  }

  /** Whether the broadcast bt has been started. */
  function Started(c: Config, s: State, bt: BlockType): bool
    requires ValidConfig(c) && |s.nodes| == c.snum
  {
    match bt
    case K => s.nodes[c.w].broadK
    case LB => s.nodes[c.leader].broadLB
    case M => s.nodes[c.leader].totalMsigns >= c.anum
    case _ => false
  }

  /** A started broadcast has reached, or is on its way to, every node exactly once. */
  ghost predicate Coverage(c: Config, s: State)
    requires ValidConfig(c) && Shape(c, s)
  {
    forall bt: BlockType, v: nat {:trigger Covers(c, bt, v)} :: IsCast(bt) && v < c.snum ==>
      Bit(Got(bt, s.nodes[v])) + Sum(Covers(c, bt, v), s.net) == Bit(Started(c, s, bt))
  }

  /** The one ShRq is in flight or has arrived, and has been answered. */
  ghost predicate Shadow(c: Config, s: State)
    requires ValidConfig(c) && Shape(c, s)
  {
    && Sum(Of(ShRq), s.net) + Bit(s.nodes[c.s1].gotShrq) == Bit(s.nodes[c.leader].sentShrq)
    && (s.nodes[c.s1].gotShrq <==> s.nodes[c.leader].gotShpn || Sum(Of(ShPn), s.net) > 0)
  }

  ghost predicate Causes(c: Config, s: State)
    requires ValidConfig(c) && Shape(c, s)
  {
    && (forall v {:trigger s.nodes[v]} :: 0 <= v < c.snum ==>
          (s.nodes[v].sentK ==> s.nodes[v].gotK) && (s.nodes[v].sentLB ==> s.nodes[v].gotLB))
    && (s.nodes[c.leader].sentShrq ==> s.nodes[c.leader].gotK)
    && (s.nodes[c.leader].broadLB ==> s.nodes[c.leader].gotK && s.nodes[c.leader].gotShpn)
  }

  function SentOf(): ANode -> nat {
    (x: ANode) => x.sent
  }

  function MsgnOf(): Node -> nat {
    (nd: Node) => nd.msgn
  }

  /** Every A node holds its one LB block or signature once its S node has sent LB; no signature is lost. */
  ghost predicate Signatures(c: Config, s: State)
    requires ValidConfig(c) && Shape(c, s)
  {
    && (forall a {:trigger s.anodes[a]} :: 0 <= a < c.anum ==>
          var x := s.anodes[a];
          c.home[a] in c.home && x.lbOut + x.lbRec + Bit(x.signing) + x.sent == Bit(s.nodes[c.home[a]].sentLB))
    && Sum(SentOf(), s.anodes) == Sum(MsgnOf(), s.nodes) + Sum(Of(MSgn), s.net) + s.nodes[c.leader].totalMsigns
  }

  ghost predicate Inv(c: Config, s: State) {
    && ValidConfig(c)
    && Shape(c, s)
    && Coverage(c, s)
    && Shadow(c, s)
    && Causes(c, s)
    && Signatures(c, s)
  }

  // ---- what a forwarded broadcast block contributes ----

  lemma {:induction false} SumAddressed(f: Packet -> nat, g: RoutingBlock -> nat, out: seq<RoutingBlock>)
    requires forall b <- out :: f(Packet(b.P, b)) == g(b)
    ensures Sum(f, Addressed(out)) == Sum(g, out)
  {
    if out != [] {
      assert Addressed(out)[1..] == Addressed(out[1..]);
      SumAddressed(f, g, out[1..]);
    }
  }

  lemma {:induction false} SumZero<T>(f: T -> nat, s: seq<T>)
    requires forall x <- s :: f(x) == 0
    ensures Sum(f, s) == 0
  {
    if s != [] {
      SumZero(f, s[1..]);
    }
  }

  /** The packets a node sends on for a tree block it holds. */
  function Copies(c: Config, p: Packet): seq<Packet>
    requires p.at < c.snum && p.rb.token >= 0
  {
    Addressed(Forward(c.snum, p.at, p.rb))
  }

  lemma CopiesOk(c: Config, p: Packet)
    requires ValidConfig(c) && PacketOk(c, p) && p.rb.token >= 0
    ensures forall q <- Copies(c, p) :: PacketOk(c, q) && q.rb.token >= 0 && q.rb.bt == p.rb.bt
  {
    hide Forward, Pow2;
    var out := Forward(c.snum, p.at, p.rb);
    forall q | q in Copies(c, p) ensures PacketOk(c, q) && q.rb.token >= 0 && q.rb.bt == p.rb.bt {
      var i :| 0 <= i < |out| && q == Packet(out[i].P, out[i]);
      ForwardStaysOnTree(c.snum, p.rb, out[i]);
    }
  }

  /** The copies serve whatever the block served, except the node that holds it. */
  lemma CopiesCover(c: Config, p: Packet, bt: BlockType, v: nat)
    requires ValidConfig(c) && PacketOk(c, p) && p.rb.token >= 0 && v < c.snum
    ensures Sum(Covers(c, bt, v), Copies(c, p)) + Bit(bt == p.rb.bt && v == p.at) == Covers(c, bt, v)(p)
  {
    hide Forward, Sum, Above;
    CopiesOk(c, p);
    var n := c.snum;
    var out := Forward(n, p.at, p.rb);
    if bt == p.rb.bt {
      var o := Dist(n, Source(c, bt), v);
      PlusDist(n, Source(c, bt), v);
      PlusDist(n, Source(c, bt), p.at);
      ForwardServes(n, p.rb, o);
      forall b | b in out ensures Covers(c, bt, v)(Packet(b.P, b)) == Serves(n, o)(b) {
        ForwardStaysOnTree(n, p.rb, b);
      }
      SumAddressed(Covers(c, bt, v), Serves(n, o), out);
    } else {
      SumZero(Covers(c, bt, v), Copies(c, p));
    }
  }

  // ---- what handling one block does ----

  /** Whether handling turns the leader's last missing signature into the start of M. */
  predicate StartsM(c: Config, nd: Node, nd': Node) {
    nd.number == c.leader && nd.totalMsigns < c.anum <= nd'.totalMsigns
  }

  /** Handling changes only the got flags, which it never clears, and the signature count. */
  ghost predicate Frame(nd: Node, nd': Node) {
    && nd'.number == nd.number && nd'.kOut == nd.kOut && nd'.msgn == nd.msgn
    && nd'.broadK == nd.broadK && nd'.sentK == nd.sentK && nd'.broadLB == nd.broadLB && nd'.sentLB == nd.sentLB
    && nd'.sentShrq == nd.sentShrq && nd'.sentShpn == nd.sentShpn
    && (nd.gotK ==> nd'.gotK) && (nd.gotLB ==> nd'.gotLB) && (nd.gotShpn ==> nd'.gotShpn)
    && nd'.totalMsigns >= nd.totalMsigns
  }

  /** The node's contribution and its packets cover what the handled packet and the node covered before. */
  ghost predicate CoverEffect(c: Config, p: Packet, nd: Node, out: Out, bt: BlockType, v: nat)
    requires ValidConfig(c) && v < c.snum
  {
    Sum(Covers(c, bt, v), out.send) + Bit(v == nd.number && Got(bt, out.node))
    == Covers(c, bt, v)(p) + Bit(v == nd.number && Got(bt, nd)) + Bit(bt == M && StartsM(c, nd, out.node))
  }

  ghost predicate ShadowEffect(c: Config, p: Packet, nd: Node, out: Out) {
    && Sum(Of(ShRq), out.send) + Bit(nd.number == c.s1 && out.node.gotShrq)
       == Of(ShRq)(p) + Bit(nd.number == c.s1 && nd.gotShrq)
    && if p.rb.bt == ShPn || (p.rb.bt == ShRq && nd.number == c.s1)
       then (Sum(Of(ShPn), out.send) > 0 || (nd.number == c.leader && out.node.gotShpn))
            && (if p.rb.bt == ShPn then out.node.gotShrq == nd.gotShrq else out.node.gotShrq)
       else Sum(Of(ShPn), out.send) == 0 && out.node.gotShpn == nd.gotShpn && out.node.gotShrq == nd.gotShrq
  }

  ghost predicate SignatureEffect(c: Config, p: Packet, nd: Node, out: Out) {
    Sum(Of(MSgn), out.send) + (if nd.number == c.leader then out.node.totalMsigns else 0)
    == Of(MSgn)(p) + (if nd.number == c.leader then nd.totalMsigns else 0)
  }

  ghost predicate Effect(c: Config, p: Packet, nd: Node, out: Out) {
    && Frame(nd, out.node)
    && (forall q <- out.send :: PacketOk(c, q))
    && ShadowEffect(c, p, nd, out)
    && SignatureEffect(c, p, nd, out)
  }

  /** What the invariant says about a block about to be handled. */
  ghost predicate Ready(c: Config, p: Packet, nd: Node) {
    && ValidConfig(c) && PacketOk(c, p) && nd.number == p.at
    && (p.rb.token >= 0 ==> !Got(p.rb.bt, nd))
    && (p.rb.bt == ShRq && nd.number == c.s1 ==> !nd.gotShrq)
    && (nd.number == c.leader && nd.totalMsigns < c.anum ==> !nd.gotM)
  }

  function WithGot(bt: BlockType, nd: Node): Node
    requires IsCast(bt)
  {
    match bt case K => nd.(gotK := true) case LB => nd.(gotLB := true) case M => nd.(gotM := true)
  }

  lemma WithGotKeeps(bt: BlockType, nd: Node)
    requires IsCast(bt)
    ensures var nd' := WithGot(bt, nd);
            && Frame(nd, nd') && nd'.gotShrq == nd.gotShrq && nd'.gotShpn == nd.gotShpn
            && nd'.totalMsigns == nd.totalMsigns
            && forall b :: Got(b, nd') == (b == bt || Got(b, nd))
  {
  }

  function FirstM(c: Config): Packet {
    Packet(c.leader, Root(c.leader, M))
  }

  lemma ProcessCast(c: Config, nd: Node, rb: RoutingBlock)
    requires ValidConfig(c) && nd.number < c.snum && rb.P < c.snum && IsCast(rb.bt) && rb.token >= 0
    ensures Handle(c, nd, rb) == Out(WithGot(rb.bt, nd), Copies(c, Packet(nd.number, rb)))
  {
    assert Process(c, nd, rb) == Out(WithGot(rb.bt, nd), []);
  }

  lemma ProcessShPn(c: Config, nd: Node, R: nat)
    requires ValidConfig(c) && nd.number < c.snum
    ensures Handle(c, nd, Unicast(c.leader, R, ShPn))
            == if nd.number == c.leader then Out(nd.(gotShpn := true), [])
               else Out(nd, [Packet(NextHop(c.snum, nd.number, c.leader), Unicast(c.leader, R, ShPn))])
  {
    if nd.number == c.leader {
      assert Process(c, nd, Unicast(c.leader, R, ShPn)) == Out(nd.(gotShpn := true), []);
    }
  }

  lemma ProcessShRq(c: Config, nd: Node, rb: RoutingBlock)
    requires ValidConfig(c) && nd.number == c.s1 == rb.P && rb.token < 0 && rb.bt == ShRq
    ensures Handle(c, nd, rb) == Handle(c, nd.(gotShrq := true), Unicast(c.leader, c.s1, ShPn))
  {
    assert Handle(c, nd, rb) == Process(c, nd, rb);
  }

  lemma ProcessMSgn(c: Config, nd: Node, rb: RoutingBlock)
    requires ValidConfig(c) && nd.number == c.leader == rb.P && rb.token < 0 && rb.bt == MSgn
    ensures var nd' := nd.(totalMsigns := nd.totalMsigns + 1);
            Handle(c, nd, rb) == if nd'.totalMsigns == c.anum then Handle(c, nd', FirstM(c).rb) else Out(nd', [])
  {
    hide Handle;
    HandledHere(c, nd, rb);
  }

  lemma HandledHere(c: Config, nd: Node, rb: RoutingBlock)
    requires ValidConfig(c) && nd.number == rb.P < c.snum && rb.token < 0
    ensures Handle(c, nd, rb) == Process(c, nd, rb)
  {
    hide Process;
  }

  lemma ProcessLater(c: Config, nd: Node, rb: RoutingBlock)
    requires ValidConfig(c) && nd.number < c.snum && rb.P < c.snum && rb.P != nd.number && rb.token < 0
    ensures Handle(c, nd, rb) == Out(nd, [Packet(NextHop(c.snum, nd.number, rb.P), rb)])
  {
  }

  lemma RootOk(c: Config, bt: BlockType)
    requires ValidConfig(c) && IsCast(bt)
    ensures PacketOk(c, Packet(Source(c, bt), Root(Source(c, bt), bt)))
  {
    DepthUnique(0, 0);
  }

  /** The block a broadcast starts with serves every node. */
  lemma RootCovers(c: Config, bt: BlockType, v: nat)
    requires ValidConfig(c) && IsCast(bt) && v < c.snum
    ensures Covers(c, bt, v)(Packet(Source(c, bt), Root(Source(c, bt), bt))) == 1
  {
    RootIsAbove(Dist(c.snum, Source(c, bt), v));
  }

  lemma CopiesAreNoUnicasts(c: Config, p: Packet)
    requires ValidConfig(c) && PacketOk(c, p) && p.rb.token >= 0
    ensures forall bt :: Sum(Of(bt), Copies(c, p)) == 0
  {
    CopiesOk(c, p);
    forall bt: BlockType ensures Sum(Of(bt), Copies(c, p)) == 0 {
      SumZero(Of(bt), Copies(c, p));
    }
  }

  // ---- the effect of each kind of block ----

  lemma CastEffect(c: Config, p: Packet, nd: Node)
    requires Ready(c, p, nd) && p.rb.token >= 0
    ensures Effect(c, p, nd, Handle(c, nd, p.rb))
  {
    hide Handle, Copies, Sum, PacketOk, WithGot;
    CastToken(c, p);
    WithGotKeeps(p.rb.bt, nd);
    ProcessCast(c, nd, p.rb);
    CopiesOk(c, p);
    CopiesAreNoUnicasts(c, p);
  }

  lemma CastToken(c: Config, p: Packet)
    requires PacketOk(c, p)
    ensures p.rb.token >= 0 <==> IsCast(p.rb.bt)
    ensures ValidConfig(c) ==> p.rb.P < c.snum
    ensures p.at < c.snum && (p.rb.token >= 0 ==> p.rb.P == p.at)
    ensures p.rb.token < 0 ==> p.rb.P == Target(c, p.rb.bt) && p.rb.token == -1
  {
  }

  /** A unicast packet counts once among those of its type. */
  lemma UnicastSums(q: Packet)
    requires q.rb.token < 0
    ensures forall bt :: Sum(Of(bt), [q]) == Bit(q.rb.bt == bt)
    ensures forall bt :: Sum(Of(bt), []) == 0
  {
    forall bt: BlockType ensures Sum(Of(bt), [q]) == Bit(q.rb.bt == bt) {
      SumOne(Of(bt), q);
    }
  }

  lemma HopEffect(c: Config, p: Packet, nd: Node)
    requires Ready(c, p, nd) && p.rb.token < 0 && p.rb.P != p.at
    ensures Effect(c, p, nd, Handle(c, nd, p.rb))
  {
    hide Handle, Sum, OnTree, NextHop;
    ProcessLater(c, nd, p.rb);
    UnicastSums(Packet(NextHop(c.snum, p.at, p.rb.P), p.rb));
  }

  lemma ShPnEffect(c: Config, p: Packet, nd: Node)
    requires Ready(c, p, nd) && p.rb.token < 0 && p.rb.bt == ShPn && p.rb.P == p.at
    ensures Effect(c, p, nd, Handle(c, nd, p.rb))
  {
    hide Handle, Sum, OnTree;
    ProcessShPn(c, nd, p.rb.R);
    UnicastSums(p);
  }

  /** At S1 the ShRq becomes a ShPn block, handled as one that has just arrived. */
  lemma ShRqEffect(c: Config, p: Packet, nd: Node)
    requires Ready(c, p, nd) && p.rb.token < 0 && p.rb.bt == ShRq && p.rb.P == p.at
    ensures Effect(c, p, nd, Handle(c, nd, p.rb))
  {
    hide Handle, Effect, NextHop;
    var answer := Packet(p.at, Unicast(c.leader, c.s1, ShPn));
    var nd' := nd.(gotShrq := true);
    ProcessShRq(c, nd, p.rb);
    if p.at == c.leader {
      ShPnEffect(c, answer, nd');
    } else {
      HopEffect(c, answer, nd');
    }
    AnswerIsEffect(c, p, nd, Handle(c, nd, p.rb));
  }

  lemma AnswerIsEffect(c: Config, p: Packet, nd: Node, out: Out)
    requires Ready(c, p, nd) && p.rb.token < 0 && p.rb.bt == ShRq && p.rb.P == p.at
    requires Effect(c, Packet(p.at, Unicast(c.leader, c.s1, ShPn)), nd.(gotShrq := true), out)
    ensures Effect(c, p, nd, out)
  {
    hide Sum, PacketOk;
    CastToken(c, p);
  }

  /** The last missing signature makes the leader handle the first M block. */
  lemma MSgnEffect(c: Config, p: Packet, nd: Node)
    requires Ready(c, p, nd) && p.rb.token < 0 && p.rb.bt == MSgn && p.rb.P == p.at
    ensures Effect(c, p, nd, Handle(c, nd, p.rb))
  {
    hide Handle, Effect, OnTree;
    var nd' := nd.(totalMsigns := nd.totalMsigns + 1);
    ProcessMSgn(c, nd, p.rb);
    if nd'.totalMsigns == c.anum {
      RootOk(c, M);
      CastEffect(c, FirstM(c), nd');
      StartIsEffect(c, p, nd, Handle(c, nd, p.rb));
    } else {
      CountIsEffect(c, p, nd);
    }
  }

  lemma StartIsEffect(c: Config, p: Packet, nd: Node, out: Out)
    requires Ready(c, p, nd) && p.rb.token < 0 && p.rb.bt == MSgn && p.rb.P == p.at
    requires Effect(c, FirstM(c), nd.(totalMsigns := nd.totalMsigns + 1), out)
    ensures Effect(c, p, nd, out)
  {
    hide Sum, PacketOk;
    CastToken(c, p);
  }

  lemma CountIsEffect(c: Config, p: Packet, nd: Node)
    requires Ready(c, p, nd) && p.rb.token < 0 && p.rb.bt == MSgn && p.rb.P == p.at
    ensures Effect(c, p, nd, Out(nd.(totalMsigns := nd.totalMsigns + 1), []))
  {
    hide PacketOk;
    CastToken(c, p);
  }

  lemma HandleEffect(c: Config, p: Packet, nd: Node)
    requires Ready(c, p, nd)
    ensures Effect(c, p, nd, Handle(c, nd, p.rb))
  {
    hide Handle, Effect;
    if p.rb.token >= 0 {
      CastEffect(c, p, nd);
    } else if p.rb.P != p.at {
      HopEffect(c, p, nd);
    } else if p.rb.bt == ShRq {
      ShRqEffect(c, p, nd);
    } else if p.rb.bt == ShPn {
      ShPnEffect(c, p, nd);
    } else {
      MSgnEffect(c, p, nd);
    }
  }

  // ---- what each kind of block covers ----

  /** Same broadcasts received, at most one unicast packet sent: nothing changes. */
  predicate NoCast(nd: Node, out: Out) {
    && out.node.gotK == nd.gotK && out.node.gotLB == nd.gotLB && out.node.gotM == nd.gotM
    && (out.send == [] || (|out.send| == 1 && out.send[0].rb.token < 0))
  }

  lemma NoCastCovers(c: Config, p: Packet, nd: Node, out: Out, bt: BlockType, v: nat)
    requires ValidConfig(c) && p.rb.token < 0 && NoCast(nd, out) && !StartsM(c, nd, out.node) && v < c.snum
    ensures CoverEffect(c, p, nd, out, bt, v)
  {
    if out.send != [] {
      assert out.send == [out.send[0]];
      SumOne(Covers(c, bt, v), out.send[0]);
    }
  }

  lemma UnicastNoCast(c: Config, p: Packet, nd: Node)
    requires Ready(c, p, nd) && p.rb.token < 0
    requires p.rb.bt == MSgn && p.rb.P == p.at ==> nd.totalMsigns + 1 != c.anum
    ensures var out := Handle(c, nd, p.rb); NoCast(nd, out) && !StartsM(c, nd, out.node)
  {
    hide Handle, OnTree, NextHop;
    if p.rb.P != p.at {
      ProcessLater(c, nd, p.rb);
    } else if p.rb.bt == ShRq {
      ProcessShRq(c, nd, p.rb);
      ProcessShPn(c, nd.(gotShrq := true), c.s1);
    } else if p.rb.bt == ShPn {
      ProcessShPn(c, nd, p.rb.R);
    } else {
      ProcessMSgn(c, nd, p.rb);
    }
  }

  /** The copies of the first M block serve every node but the leader. */
  lemma FirstMCovers(c: Config, bt: BlockType, v: nat)
    requires ValidConfig(c) && v < c.snum
    ensures PacketOk(c, FirstM(c))
    ensures Sum(Covers(c, bt, v), Copies(c, FirstM(c))) == Bit(bt == M && v != c.leader)
  {
    hide Sum, Copies;
    RootOk(c, M);
    RootCovers(c, M, v);
    CopiesCover(c, FirstM(c), bt, v);
  }

  lemma MStartCovers(c: Config, p: Packet, nd: Node, bt: BlockType, v: nat)
    requires Ready(c, p, nd) && p.rb.token < 0 && p.rb.bt == MSgn && p.rb.P == p.at && v < c.snum
    requires nd.totalMsigns + 1 == c.anum
    ensures CoverEffect(c, p, nd, Handle(c, nd, p.rb), bt, v)
  {
    hide Handle, Sum, Copies, OnTree;
    ProcessMSgn(c, nd, p.rb);
    ProcessCast(c, nd.(totalMsigns := c.anum), FirstM(c).rb);
    FirstMCovers(c, bt, v);
  }

  lemma CastCovers(c: Config, p: Packet, nd: Node, bt: BlockType, v: nat)
    requires Ready(c, p, nd) && p.rb.token >= 0 && IsCast(bt) && v < c.snum
    ensures CoverEffect(c, p, nd, Handle(c, nd, p.rb), bt, v)
  {
    hide Handle, Copies, Sum, Covers, PacketOk, WithGot;
    CastToken(c, p);
    WithGotKeeps(p.rb.bt, nd);
    ProcessCast(c, nd, p.rb);
    CopiesCover(c, p, bt, v);
  }

  lemma HandleCovers(c: Config, p: Packet, nd: Node, bt: BlockType, v: nat)
    requires Ready(c, p, nd) && IsCast(bt) && v < c.snum
    ensures CoverEffect(c, p, nd, Handle(c, nd, p.rb), bt, v)
  {
    hide Handle, CoverEffect, OnTree;
    if p.rb.token >= 0 {
      CastCovers(c, p, nd, bt, v);
    } else if p.rb.bt == MSgn && p.rb.P == p.at && nd.totalMsigns + 1 == c.anum {
      MStartCovers(c, p, nd, bt, v);
    } else {
      UnicastNoCast(c, p, nd);
      NoCastCovers(c, p, nd, Handle(c, nd, p.rb), bt, v);
    }
  }
}
