/**
 What the actions of the agreement protocol send, when they can have happened, and
 what becomes of the k blocks for the A nodes.
 */
module AgreementActions {
  import opened RingArithmetic
  import opened Sums
  import opened Broadcast
  import opened Routing
  import opened Agreement
  import opened AgreementInvariant
  import opened AgreementSteps
  import opened AgreementRuns
  import opened SnodeSteps

  // ---- what is sent ----

  /** The leader's question to S1 is in flight, or has arrived if it is S1 itself. */
  lemma LeaderAsks(c: Config, s: State, v: nat)
    requires Inv(c, s) && Enabled(c, s, SendShrq(v))
    ensures var s' := Next(c, s, SendShrq(v));
            v == c.leader && (if v == c.s1 then s'.nodes[v].gotShrq
                              else s'.net == s.net + [Packet(NextHop(c.snum, v, c.s1), Unicast(c.s1, v, ShRq))])
  {
    hide Handle, PacketOk, Coverage, Shadow, Causes, Signatures;
    var nd := s.nodes[v].(sentShrq := true);
    if v == c.s1 {
      ProcessShRq(c, nd, Unicast(c.s1, v, ShRq));
      HandleKeepsFlags(c, nd.(gotShrq := true), Unicast(c.leader, c.s1, ShPn));
    } else {
      ProcessLater(c, nd, Unicast(c.s1, v, ShRq));
    }
  }

  /** The answer that S1 sends from main is in flight to the leader, or has arrived if S1 is the leader. */
  lemma S1Answers(c: Config, s: State, v: nat)
    requires Inv(c, s) && Enabled(c, s, SendShpn(v))
    ensures var s' := Next(c, s, SendShpn(v));
            v == c.s1 && (if v == c.leader then s'.nodes[v].gotShpn && s'.net == s.net
                          else s'.net == s.net + [Packet(NextHop(c.snum, v, c.leader), Unicast(c.leader, v, ShPn))])
  {
    hide Handle, PacketOk, Coverage, Shadow, Causes, Signatures;
    ProcessShPn(c, s.nodes[v].(sentShpn := true), v);
    assert s.net + [] == s.net;
  }

  /** A signature is in flight to the leader, or has been counted if it was read by the leader itself. */
  lemma SignatureGoesOn(c: Config, s: State, v: nat)
    requires Inv(c, s) && Enabled(c, s, TakeMsgn(v))
    ensures var s' := Next(c, s, TakeMsgn(v));
            if v == c.leader then s'.nodes[v].totalMsigns == s.nodes[v].totalMsigns + 1
            else s'.net == s.net + [Packet(NextHop(c.snum, v, c.leader), Unicast(c.leader, v, MSgn))]
  {
    hide Handle, PacketOk, Coverage, Shadow, Causes, Signatures, Copies;
    var nd := s.nodes[v].(msgn := s.nodes[v].msgn - 1);
    if v == c.leader {
      ProcessMSgn(c, nd, Unicast(c.leader, v, MSgn));
      ProcessCast(c, nd.(totalMsigns := nd.totalMsigns + 1), FirstM(c).rb);
    } else {
      ProcessLater(c, nd, Unicast(c.leader, v, MSgn));
    }
  }

  /** A broadcast that is started goes to the children of its source, which has the block itself. */
  lemma BroadcastStarts(c: Config, s: State, act: Action)
    requires Inv(c, s) && Enabled(c, s, act) && (act.BroadK? || act.BroadLB?)
    ensures var s', bt := Next(c, s, act), if act.BroadK? then K else LB;
            && act.v == Source(c, bt) && Got(bt, s'.nodes[act.v])
            && s'.net == s.net + Addressed(Forward(c.snum, act.v, Root(act.v, bt)))
  {
    hide Handle, PacketOk, Coverage, Shadow, Causes, Signatures, Forward, Addressed;
    var nd := s.nodes[act.v];
    if act.BroadK? {
      ProcessCast(c, nd.(broadK := true, gotK := true), Root(act.v, K));
    } else {
      ProcessCast(c, nd.(broadLB := true, gotLB := true), Root(act.v, LB));
    }
  }

  // ---- what one step does to the flags of a node ----

  predicate Now(was: bool, act: Action, action: Action) {
    was || act == action
  }

  /** The flags of one-time actions are set by these actions only; other flags are never cleared. */
  ghost predicate NodeStep(c: Config, nd: Node, nd': Node, act: Action) {
    var v := nd.number;
    && nd'.number == v
    && nd'.broadK == Now(nd.broadK, act, BroadK(v)) && nd'.sentK == Now(nd.sentK, act, SendK(v))
    && nd'.sentShrq == Now(nd.sentShrq, act, SendShrq(v)) && nd'.sentShpn == Now(nd.sentShpn, act, SendShpn(v))
    && nd'.broadLB == Now(nd.broadLB, act, BroadLB(v)) && nd'.sentLB == Now(nd.sentLB, act, SendLB(v))
    && nd'.kOut + (if act == DeliverK(v) then 1 else 0) == nd.kOut + (if act == SendK(v) then Attached(c, v) else 0)
    && (nd.gotK ==> nd'.gotK) && (nd.gotShrq ==> nd'.gotShrq) && (nd.gotShpn ==> nd'.gotShpn) && (nd.gotLB ==> nd'.gotLB)
  }

  lemma HandledStep(c: Config, nd: Node, begun: Node, rb: RoutingBlock, act: Action)
    requires ValidConfig(c) && nd.number < c.snum && rb.P < c.snum && NodeStep(c, nd, begun, act)
    ensures NodeStep(c, nd, Handle(c, begun, rb).node, act)
  {
    hide Handle, Now;
    HandleKeepsFlags(c, begun, rb);
  }

  lemma BegunStep(c: Config, conn: seq<nat>, nd: Node, act: Action)
    requires SnodeSteps.Creates(act) && act.v == nd.number
    ensures NodeStep(c, nd, Begun(conn, nd, act), act)
  {
    hide Attached;
    match act
    case BroadK(_) =>
    case SendShrq(_) =>
    case SendShpn(_) =>
    case BroadLB(_) =>
    case TakeMsgn(_) =>
  }

  lemma OtherStep(c: Config, nd: Node, act: Action)
    requires act.Arrive? || (SnodeSteps.Creates(act) && act.v != nd.number)
    ensures NodeStep(c, nd, nd, act)
  {
  }

  lemma CreatingNode(c: Config, s: State, act: Action, v: nat)
    requires Inv(c, s) && Enabled(c, s, act) && SnodeSteps.Creates(act) && v < c.snum
    ensures |Next(c, s, act).nodes| == c.snum && NodeStep(c, s.nodes[v], Next(c, s, act).nodes[v], act)
  {
    hide Handle, PacketOk, Coverage, Shadow, Causes, Signatures, NodeStep;
    var nd := s.nodes[v];
    if v == act.v {
      BegunStep(c, [], nd, act);
      HandledStep(c, nd, Begun([], nd, act), Block(c, v, act), act);
    } else {
      OtherStep(c, nd, act);
    }
  }

  lemma ArrivingNode(c: Config, s: State, i: nat, v: nat)
    requires Inv(c, s) && Enabled(c, s, Arrive(i)) && v < c.snum
    ensures |Next(c, s, Arrive(i)).nodes| == c.snum && NodeStep(c, s.nodes[v], Next(c, s, Arrive(i)).nodes[v], Arrive(i))
  {
    hide Handle, PacketOk, Coverage, Shadow, Causes, Signatures, NodeStep;
    var p := s.net[i];
    OtherStep(c, s.nodes[v], Arrive(i));
    PacketInside(c, s, i);
    if v == p.at {
      HandledStep(c, s.nodes[v], s.nodes[v], p.rb, Arrive(i));
    }
  }

  lemma PacketInside(c: Config, s: State, i: nat)
    requires Inv(c, s) && i < |s.net|
    ensures s.net[i].at < c.snum && s.net[i].rb.P < c.snum
  {
    hide Coverage, Shadow, Causes, Signatures;
    assert PacketOk(c, s.net[i]);
    CastToken(c, s.net[i]);
  }

  /** Actions of S nodes that create no routing block. */
  lemma LocalNode(c: Config, s: State, act: Action, v: nat)
    requires Inv(c, s) && Enabled(c, s, act) && (act.SendK? || act.SendLB? || act.DeliverK?) && v < c.snum
    ensures |Next(c, s, act).nodes| == c.snum && NodeStep(c, s.nodes[v], Next(c, s, act).nodes[v], act)
  {
    hide PacketOk, Coverage, Shadow, Causes, Signatures, Attached;
    match act
    case SendK(_) =>
    case SendLB(_) =>
    case DeliverK(_) =>
  }

  /** Actions of A nodes. */
  lemma ANodeNode(c: Config, s: State, act: Action, v: nat)
    requires Inv(c, s) && Enabled(c, s, act) && (act.DeliverLB? || act.ReadLB? || act.Sign?) && v < c.snum
    ensures |Next(c, s, act).nodes| == c.snum && NodeStep(c, s.nodes[v], Next(c, s, act).nodes[v], act)
  {
    hide PacketOk, Coverage, Shadow, Causes, Signatures, Attached;
    if act.Sign? {
      assert c.home[act.a] in c.home;
    }
  }

  lemma NextNode(c: Config, s: State, act: Action, v: nat)
    requires Inv(c, s) && Enabled(c, s, act) && v < c.snum
    ensures |Next(c, s, act).nodes| == c.snum && NodeStep(c, s.nodes[v], Next(c, s, act).nodes[v], act)
  {
    hide Inv, NodeStep, Next, Enabled;
    if SnodeSteps.Creates(act) {
      CreatingNode(c, s, act, v);
    } else if act.Arrive? {
      ArrivingNode(c, s, act.i, v);
    } else if act.SendK? || act.SendLB? || act.DeliverK? {
      LocalNode(c, s, act, v);
    } else {
      ANodeNode(c, s, act, v);
    }
  }

  // ---- whole runs ----

  /** Every one-time action was done by the right node, and after what it waits for. */
  predicate DoneInOrder(c: Config, nd: Node) {
    && (nd.broadK ==> nd.number == c.w)
    && (nd.sentK ==> nd.gotK)
    && (nd.sentShrq ==> nd.number == c.leader && nd.gotK)
    && (nd.sentShpn ==> nd.number == c.s1 && nd.gotK && nd.gotShrq)
    && (nd.broadLB ==> nd.number == c.leader && nd.gotK && nd.gotShpn)
    && (nd.sentLB ==> nd.gotLB)
  }

  lemma StepInOrder(c: Config, s: State, act: Action, v: nat, nd': Node)
    requires ValidConfig(c) && Shape(c, s) && v < c.snum && Enabled(c, s, act)
    requires DoneInOrder(c, s.nodes[v]) && NodeStep(c, s.nodes[v], nd', act)
    ensures DoneInOrder(c, nd')
  {
    hide PacketOk, Attached;
  }

  lemma {:induction false} ActionsInOrder(c: Config, run: seq<State>, i: nat, v: nat)
    requires AgreementRuns.Run(c, run) && i < |run| && v < c.snum
    ensures |run[i].nodes| == c.snum && DoneInOrder(c, run[i].nodes[v])
  {
    hide Inv, Next, Enabled, NodeStep, DoneInOrder;
    AgreementRuns.RunInv(c, run, i);
    Sizes(c, run[i]);
    if i == 0 {
      NothingDone(c, v);
    } else {
      ActionsInOrder(c, run, i - 1, v);
      AgreementRuns.RunInv(c, run, i - 1);
      Sizes(c, run[i - 1]);
      assert AgreementRuns.Step(c, run[i - 1], run[i - 1 + 1]);
      var act :| Enabled(c, run[i - 1], act) && run[i] == Next(c, run[i - 1], act);
      NextNode(c, run[i - 1], act, v);
      StepInOrder(c, run[i - 1], act, v, run[i].nodes[v]);
    }
  }

  lemma Sizes(c: Config, s: State)
    requires Inv(c, s)
    ensures ValidConfig(c) && Shape(c, s) && |s.nodes| == c.snum
  {
    hide Coverage, Shadow, Causes, Signatures, PacketOk;
  }

  lemma NothingDone(c: Config, v: nat)
    requires v < c.snum
    ensures DoneInOrder(c, Init(c).nodes[v]) && Init(c).nodes[v].kOut == 0 && !Init(c).nodes[v].sentK
  {
  }

  /** How many k blocks node v has handed over to its A nodes in the first i steps. */
  function KDelivered(run: seq<State>, v: nat, i: nat): nat
    requires i < |run| && forall s <- run :: v < |s.nodes|
  {
    if i == 0 then 0
    else
      assert run[i] in run && run[i - 1] in run;
      KDelivered(run, v, i - 1) + if run[i].nodes[v].kOut < run[i - 1].nodes[v].kOut then 1 else 0
  }

  /** Once a node has sent K to its A nodes, each of these blocks is delayed or has been delivered. */
  lemma {:induction false} KConservation(c: Config, run: seq<State>, i: nat, v: nat)
    requires AgreementRuns.Run(c, run) && i < |run| && v < c.snum && forall s <- run :: v < |s.nodes|
    ensures KDelivered(run, v, i) + run[i].nodes[v].kOut == if run[i].nodes[v].sentK then Attached(c, v) else 0
  {
    hide Inv, Next, Enabled, Attached;
    if i == 0 {
      NothingDone(c, v);
      assert run[0] == Init(c);
    } else {
      KConservation(c, run, i - 1, v);
      AgreementRuns.RunInv(c, run, i - 1);
      assert AgreementRuns.Step(c, run[i - 1], run[i - 1 + 1]);
      var act :| Enabled(c, run[i - 1], act) && run[i] == Next(c, run[i - 1], act);
      Sizes(c, run[i - 1]);
      NextNode(c, run[i - 1], act, v);
      OnceSent(c, run[i - 1], act, v);
    }
  }

  lemma OnceSent(c: Config, s: State, act: Action, v: nat)
    requires ValidConfig(c) && Shape(c, s) && Enabled(c, s, act) && v < c.snum
    ensures act == SendK(v) ==> !s.nodes[v].sentK
    ensures s.nodes[v].number == v
  {
    hide PacketOk;
  }

  /** So in the end every A node has been sent its k block. */
  lemma AllKDelivered(c: Config, run: seq<State>, v: nat)
    requires AgreementRuns.Run(c, run) && Stuck(c, run[|run| - 1]) && v < c.snum && forall s <- run :: v < |s.nodes|
    ensures KDelivered(run, v, |run| - 1) == Attached(c, v)
  {
    hide Inv, AgreementRuns.Run, Stuck, Attached, Next, Enabled;
    RunNotEmpty(c, run);
    var last := |run| - 1;
    AgreementRuns.RunInv(c, run, last);
    StuckIsFinished(c, run[last]);
    FinishedK(c, run[last], v);
    KConservation(c, run, last, v);
  }

  lemma RunNotEmpty(c: Config, run: seq<State>)
    requires AgreementRuns.Run(c, run)
    ensures |run| > 0
  {
  }

  lemma FinishedK(c: Config, s: State, v: nat)
    requires Finished(c, s) && v < |s.nodes|
    ensures s.nodes[v].kOut == 0 && s.nodes[v].sentK
  {
  }
}
