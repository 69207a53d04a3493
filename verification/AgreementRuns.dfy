/**
 Whole runs of the agreement protocol: no signature is ever lost or counted twice,
 M is started at most once and only when everything before it has happened, every
 run is finite, and a run that cannot go on has reached the end state that the
 destructor of Snode checks for.
 */
module AgreementRuns {
  import opened RingArithmetic
  import opened Sums
  import opened Broadcast
  import opened Routing
  import opened Agreement
  import opened AgreementInvariant
  import opened AgreementSteps
  import opened AgreementMeasure

  ghost predicate Step(c: Config, s: State, s': State) {
    && ValidConfig(c) && Shape(c, s)
    && exists act :: Enabled(c, s, act) && s' == Next(c, s, act)
  }

  /** run lists the states from the start on, one step apart. */
  ghost predicate Run(c: Config, run: seq<State>) {
    && ValidConfig(c) && |run| > 0
    && run[0] == Init(c)
    && forall j :: 0 <= j < |run| - 1 ==> Step(c, run[j], run[j + 1])
  }

  lemma {:induction false} RunInv(c: Config, run: seq<State>, i: nat)
    requires Run(c, run) && i < |run|
    ensures Inv(c, run[i])
  {
    hide Inv, Next, Enabled;
    if i == 0 {
      InitInv(c);
    } else {
      RunInv(c, run, i - 1);
      assert Step(c, run[i - 1], run[i - 1 + 1]);
      var act :| Enabled(c, run[i - 1], act) && run[i] == Next(c, run[i - 1], act);
      NextInv(c, run[i - 1], act);
    }
  }

  // ---- signatures ----

  /** A nodes that have not signed yet. */
  function Unsigned(): ANode -> nat {
    (x: ANode) => if x.sent == 0 then 1 else 0
  }

  lemma {:induction false} SignedOrNot(anodes: seq<ANode>)
    requires forall x <- anodes :: x.sent <= 1
    ensures Sum(Unsigned(), anodes) + Sum(SentOf(), anodes) == |anodes|
  {
    if anodes != [] {
      SignedOrNot(anodes[1..]);
    }
  }

  /** In every reachable state each A node's signature is in exactly one place. */
  lemma SignatureConservation(c: Config, run: seq<State>, i: nat)
    requires Run(c, run) && i < |run|
    ensures var s := run[i];
            && |s.nodes| == c.snum
            && Sum(Unsigned(), s.anodes) + Sum(MsgnOf(), s.nodes) + Sum(Of(MSgn), s.net)
               + s.nodes[c.leader].totalMsigns == c.anum
  {
    hide Sum, Coverage, Shadow, Causes, PacketOk;
    RunInv(c, run, i);
    SignedOrNot(run[i].anodes);
  }

  /** M has reached node v, or one of its blocks is in flight. */
  ghost predicate SeenM(c: Config, s: State) {
    (exists v :: 0 <= v < |s.nodes| && s.nodes[v].gotM) || (exists p <- s.net :: p.rb.bt == M)
  }

  /** Every A node has signed, and every signature is on its way no more. */
  ghost predicate EveryoneSigned(c: Config, s: State)
    requires ValidConfig(c) && Shape(c, s)
  {
    && (forall a {:trigger s.anodes[a]} :: 0 <= a < c.anum ==>
          var x := s.anodes[a];
          x.lbOut == 0 && x.lbRec == 0 && !x.signing && x.sent == 1 &&
          c.home[a] in c.home && s.nodes[c.home[a]].sentLB && s.nodes[c.home[a]].gotLB)
    && (forall v :: 0 <= v < c.snum ==> s.nodes[v].msgn == 0)
    && (forall p <- s.net :: p.rb.bt != MSgn)
  }

  /** Everything that must have happened before M. */
  ghost predicate AllSigned(c: Config, s: State) {
    && ValidConfig(c) && Shape(c, s)
    && s.nodes[c.leader].totalMsigns == c.anum
    && EveryoneSigned(c, s)
    && s.nodes[c.leader].gotK && s.nodes[c.leader].gotShpn && s.nodes[c.leader].broadLB
  }

  lemma SeenMStarted(c: Config, s: State)
    requires Inv(c, s) && SeenM(c, s)
    ensures Started(c, s, M)
  {
    hide Sum, Shadow, Causes, Signatures;
    if v: nat :| v < |s.nodes| && s.nodes[v].gotM {
      assert Bit(Got(M, s.nodes[v])) + Sum(Covers(c, M, v), s.net) == Bit(Started(c, s, M));
    } else {
      var p :| p in s.net && p.rb.bt == M;
      assert PacketOk(c, p);
      SumMember(Covers(c, M, p.at), s.net, p);
      assert Covers(c, M, p.at)(p) == 1;
      assert Bit(Got(M, s.nodes[p.at])) + Sum(Covers(c, M, p.at), s.net) == Bit(Started(c, s, M));
    }
  }

  lemma AllCounted(c: Config, s: State)
    requires Inv(c, s) && s.nodes[c.leader].totalMsigns >= c.anum
    ensures s.nodes[c.leader].totalMsigns == c.anum
    ensures Sum(Unsigned(), s.anodes) == 0 && Sum(MsgnOf(), s.nodes) == 0 && Sum(Of(MSgn), s.net) == 0
  {
    hide Sum, Coverage, Shadow, Causes, PacketOk;
    SignedOrNot(s.anodes);
  }

  lemma CountedIsSigned(c: Config, s: State)
    requires Inv(c, s) && s.nodes[c.leader].totalMsigns >= c.anum
    ensures EveryoneSigned(c, s)
  {
    hide Sum, Coverage, Shadow;
    AllCounted(c, s);
    forall a | 0 <= a < c.anum
      ensures var x := s.anodes[a];
              x.lbOut == 0 && x.lbRec == 0 && !x.signing && x.sent == 1 &&
              c.home[a] in c.home && s.nodes[c.home[a]].sentLB && s.nodes[c.home[a]].gotLB
    {
      SumMember(Unsigned(), s.anodes, s.anodes[a]);
      assert c.home[a] in c.home;
    }
    forall v | 0 <= v < c.snum ensures s.nodes[v].msgn == 0 {
      SumMember(MsgnOf(), s.nodes, s.nodes[v]);
    }
    forall p | p in s.net ensures p.rb.bt != MSgn {
      SumMember(Of(MSgn), s.net, p);
      assert PacketOk(c, p);
    }
  }

  /** The leader started LB before any signature was made. */
  lemma CountedHasCauses(c: Config, s: State)
    requires Inv(c, s) && s.nodes[c.leader].totalMsigns >= c.anum
    ensures s.nodes[c.leader].gotK && s.nodes[c.leader].gotShpn && s.nodes[c.leader].broadLB
  {
    hide Sum, Shadow, Signatures, PacketOk;
    CountedIsSigned(c, s);
    var v := c.home[0];
    assert s.anodes[0].sent == 1 && v in c.home;
    assert Bit(Got(LB, s.nodes[v])) + Sum(Covers(c, LB, v), s.net) == Bit(Started(c, s, LB));
  }

  /**
   Whoever has M, or whenever an M block is about: every A node has signed once,
   every signature was counted, LB had reached every signer's S node, and the
   leader had K and the answer of S1.
   */
  lemma MImpliesAllSigned(c: Config, run: seq<State>, i: nat)
    requires Run(c, run) && i < |run| && SeenM(c, run[i])
    ensures AllSigned(c, run[i])
  {
    hide Sum, Coverage, Shadow, Causes, Signatures, PacketOk, SeenM, Run, EveryoneSigned;
    RunInv(c, run, i);
    var s := run[i];
    SeenMStarted(c, s);
    AllCounted(c, s);
    CountedIsSigned(c, s);
    CountedHasCauses(c, s);
  }

  /** The step from run[j] to run[j + 1] completes the count, which is what starts M. */
  ghost predicate StartsMAt(c: Config, run: seq<State>, j: nat)
    requires Run(c, run) && j + 1 < |run|
  {
    && Shape(c, run[j]) && Shape(c, run[j + 1])
    && run[j].nodes[c.leader].totalMsigns < c.anum <= run[j + 1].nodes[c.leader].totalMsigns
  }

  lemma ArriveKeepsCount(c: Config, s: State, i: nat)
    requires Inv(c, s) && i < |s.net|
    ensures Shape(c, Next(c, s, Arrive(i)))
    ensures Next(c, s, Arrive(i)).nodes[c.leader].totalMsigns >= s.nodes[c.leader].totalMsigns
  {
    hide Handle, Ready, Sum, Coverage, Shadow, Causes, Signatures, PacketOk;
    ArriveInv(c, s, i);
    ReadyInNet(c, s, i);
    InNet(c, s, i);
    HandleFrame(c, s.net[i], s.nodes[s.net[i].at]);
  }

  lemma NextKeepsCount(c: Config, s: State, act: Action)
    requires Inv(c, s) && Enabled(c, s, act)
    ensures Shape(c, Next(c, s, act))
    ensures Next(c, s, act).nodes[c.leader].totalMsigns >= s.nodes[c.leader].totalMsigns
  {
    hide Handle, Sum, Coverage, Shadow, Causes, Signatures, PacketOk;
    NextInv(c, s, act);
    if Creating(act) {
      CreateKeepsCount(c, s, act);
    } else {
      match act
      case Arrive(i) => ArriveKeepsCount(c, s, i);
      case Sign(a) => assert c.home[a] in c.home;
      case _ =>
    }
  }

  lemma CreateKeepsCount(c: Config, s: State, act: Action)
    requires Inv(c, s) && Enabled(c, s, act) && Creating(act)
    requires Shape(c, Next(c, s, act))
    ensures Next(c, s, act).nodes[c.leader].totalMsigns >= s.nodes[c.leader].totalMsigns
  {
    hide Next, Handle, Sum, Coverage, Shadow, Causes, Signatures, PacketOk;
    NextCreates(c, s, act);
    var nd, p := Creator(s, act), Created(c, act);
    VirtualArrive(c, s, nd, p);
    ArriveKeepsCount(c, With(s, nd, p), |s.net|);
  }

  lemma {:induction false} CountGrows(c: Config, run: seq<State>, i: nat, j: nat)
    requires Run(c, run) && i <= j < |run|
    ensures Shape(c, run[i]) && Shape(c, run[j])
    ensures run[i].nodes[c.leader].totalMsigns <= run[j].nodes[c.leader].totalMsigns
  {
    hide Next, Enabled, Coverage, Shadow, Causes, Signatures, PacketOk;
    RunInv(c, run, i);
    if i < j {
      CountGrows(c, run, i, j - 1);
      RunInv(c, run, j - 1);
      assert Step(c, run[j - 1], run[j - 1 + 1]);
      var act :| Enabled(c, run[j - 1], act) && run[j] == Next(c, run[j - 1], act);
      NextKeepsCount(c, run[j - 1], act);
    }
  }

  /** No run starts M twice. */
  lemma MStartsOnce(c: Config, run: seq<State>, i: nat, j: nat)
    requires Run(c, run) && i < j && j + 1 < |run| && StartsMAt(c, run, i)
    ensures !StartsMAt(c, run, j)
  {
    hide Run, Shape;
    CountGrows(c, run, i + 1, j);
  }

  // ---- every run ends, and ends well ----

  /** No step is possible. */
  ghost predicate Stuck(c: Config, s: State) {
    forall act :: !Enabled(c, s, act)
  }

  /** The state the destructor of Snode asks for, and more: nothing at all is left over. */
  ghost predicate Finished(c: Config, s: State) {
    && ValidConfig(c) && Shape(c, s)
    && s.net == []
    && (forall v {:trigger s.nodes[v]} :: 0 <= v < c.snum ==>
          var nd := s.nodes[v];
          nd.gotK && nd.sentK && nd.gotLB && nd.sentLB && nd.gotM && nd.kOut == 0 && nd.msgn == 0)
    && (forall a {:trigger s.anodes[a]} :: 0 <= a < c.anum ==>
          var x := s.anodes[a];
          x.lbOut == 0 && x.lbRec == 0 && !x.signing && x.sent == 1)
    && s.nodes[c.w].broadK && s.nodes[c.leader].sentShrq && s.nodes[c.s1].sentShpn && s.nodes[c.leader].broadLB
    && s.nodes[c.leader].totalMsigns == c.anum
  }

  lemma StuckNodes(c: Config, s: State)
    requires Inv(c, s) && Stuck(c, s)
    ensures s.net == [] && s.nodes[c.w].broadK
    ensures forall v {:trigger s.nodes[v]} :: 0 <= v < c.snum ==>
              var nd := s.nodes[v];
              (nd.gotK ==> nd.sentK) && (nd.gotLB ==> nd.sentLB) && nd.kOut == 0 && nd.msgn == 0
    ensures var l := s.nodes[c.leader];
            (l.gotK ==> l.sentShrq) && (l.gotK && l.gotShpn ==> l.broadLB)
    ensures var x := s.nodes[c.s1]; x.gotK && x.gotShrq ==> x.sentShpn
  {
    hide Coverage, Shadow, Causes, Signatures, PacketOk, Sum;
    assert !Enabled(c, s, Arrive(0));
    assert !Enabled(c, s, BroadK(c.w));
    assert !Enabled(c, s, SendShrq(c.leader));
    assert !Enabled(c, s, SendShpn(c.s1));
    assert !Enabled(c, s, BroadLB(c.leader));
    forall v | 0 <= v < c.snum
      ensures var nd := s.nodes[v];
              (nd.gotK ==> nd.sentK) && (nd.gotLB ==> nd.sentLB) && nd.kOut == 0 && nd.msgn == 0
    {
      assert !Enabled(c, s, SendK(v)) && !Enabled(c, s, SendLB(v));
      assert !Enabled(c, s, DeliverK(v)) && !Enabled(c, s, TakeMsgn(v));
    }
  }

  lemma StuckANodes(c: Config, s: State)
    requires Inv(c, s) && Stuck(c, s)
    ensures forall a {:trigger s.anodes[a]} :: 0 <= a < c.anum ==>
              var x := s.anodes[a]; x.lbOut == 0 && x.lbRec == 0 && !x.signing
  {
    hide Coverage, Shadow, Causes, Signatures, PacketOk, Sum;
    forall a | 0 <= a < c.anum
      ensures var x := s.anodes[a]; x.lbOut == 0 && x.lbRec == 0 && !x.signing
    {
      assert !Enabled(c, s, DeliverLB(a)) && !Enabled(c, s, Sign(a)) && !Enabled(c, s, ReadLB(a));
    }
  }

  /** With nothing in flight, a started broadcast has reached everyone. */
  lemma CastArrived(c: Config, s: State, bt: BlockType, v: nat)
    requires Inv(c, s) && s.net == [] && IsCast(bt) && v < c.snum
    ensures Got(bt, s.nodes[v]) == Started(c, s, bt)
  {
    hide Covers, Shadow, Causes, Signatures, PacketOk;
    assert Bit(Got(bt, s.nodes[v])) + Sum(Covers(c, bt, v), s.net) == Bit(Started(c, s, bt));
  }

  lemma StuckShadow(c: Config, s: State)
    requires Inv(c, s) && s.net == []
    ensures s.nodes[c.leader].sentShrq <==> s.nodes[c.s1].gotShrq
    ensures s.nodes[c.s1].gotShrq <==> s.nodes[c.leader].gotShpn
  {
    hide Coverage, Causes, Signatures, PacketOk;
  }

  lemma {:induction false} AllOnes(anodes: seq<ANode>)
    requires forall x <- anodes :: x.sent == 1
    ensures Sum(SentOf(), anodes) == |anodes|
  {
    if anodes != [] {
      AllOnes(anodes[1..]);
    }
  }

  lemma StuckSignatures(c: Config, s: State)
    requires Inv(c, s) && s.net == []
    requires forall v :: 0 <= v < c.snum ==> s.nodes[v].sentLB && s.nodes[v].msgn == 0
    requires forall a {:trigger s.anodes[a]} :: 0 <= a < c.anum ==>
               var x := s.anodes[a]; x.lbOut == 0 && x.lbRec == 0 && !x.signing
    ensures forall a {:trigger s.anodes[a]} :: 0 <= a < c.anum ==> s.anodes[a].sent == 1
    ensures s.nodes[c.leader].totalMsigns == c.anum
  {
    hide Coverage, Shadow, Causes, PacketOk, Sum;
    forall a | 0 <= a < c.anum ensures s.anodes[a].sent == 1 {
      assert c.home[a] in c.home;
    }
    AllOnes(s.anodes);
    SumZero(MsgnOf(), s.nodes);
    SumZero(Of(MSgn), s.net);
  }

  /** Nothing can block the protocol before its end, whichever roles one node combines. */
  lemma StuckIsFinished(c: Config, s: State)
    requires Inv(c, s) && Stuck(c, s)
    ensures Finished(c, s)
  {
    hide Coverage, Shadow, Causes, Signatures, PacketOk, Sum, Stuck;
    StuckNodes(c, s);
    StuckANodes(c, s);
    StuckShadow(c, s);
    forall v: nat | v < c.snum ensures s.nodes[v].gotK {
      CastArrived(c, s, K, v);
    }
    assert s.nodes[c.leader].broadLB;
    forall v: nat | v < c.snum ensures s.nodes[v].gotLB {
      CastArrived(c, s, LB, v);
    }
    StuckSignatures(c, s);
    forall v: nat | v < c.snum ensures s.nodes[v].gotM {
      CastArrived(c, s, M, v);
    }
  }

  /** A run that cannot be continued has reached the intended end state. */
  lemma AgreementCompletes(c: Config, run: seq<State>)
    requires Run(c, run) && Stuck(c, run[|run| - 1])
    ensures Finished(c, run[|run| - 1])
  {
    hide Stuck, Finished, Inv, Next, Enabled;
    RunInv(c, run, |run| - 1);
    StuckIsFinished(c, run[|run| - 1]);
  }

  lemma {:induction false} MeasureDrops(c: Config, run: seq<State>, i: nat)
    requires Run(c, run) && i < |run|
    ensures Inv(c, run[i]) && Measure(c, run[i]) + i <= Measure(c, Init(c))
  {
    hide Inv, Next, Enabled, Measure;
    RunInv(c, run, i);
    if i > 0 {
      MeasureDrops(c, run, i - 1);
      assert Step(c, run[i - 1], run[i - 1 + 1]);
      var act :| Enabled(c, run[i - 1], act) && run[i] == Next(c, run[i - 1], act);
      NextMeasure(c, run[i - 1], act);
    }
  }

  /** Every run is finite: it has at most 8 * snum + anum * (snum + 4) steps, in whatever order they come. */
  lemma AgreementTerminates(c: Config, run: seq<State>)
    requires Run(c, run)
    ensures |run| - 1 <= 8 * c.snum + c.anum * (c.snum + 4)
  {
    hide Inv, Next, Enabled, Measure;
    MeasureDrops(c, run, |run| - 1);
    InitMeasure(c);
  }
}
