/**
 The steps of the transition system as one S node sees them: the oldest block in
 r_rec is processed, a one-time action is done, or a msgn block is read. Sequences of
 such steps are what the loops of Snode::main are proved to be.
 */
module SnodeSteps {
  import opened Sums
  import opened Broadcast
  import opened Agreement

  /** The flags of the node, its r_rec, the blocks queued for other S nodes and the A nodes lb blocks are queued for. */
  datatype Local = Local(node: Node, inbox: seq<RoutingBlock>, out: seq<Packet>, lb: seq<nat>)

  ghost predicate LocalOk(c: Config, l: Local) {
    ValidConfig(c) && l.node.number < c.snum && forall rb <- l.inbox :: rb.P < c.snum
  }

  /** The guards of main, and of CheckR. */
  predicate CanAct(c: Config, l: Local, act: Action) {
    var nd := l.node;
    match act
    case Arrive(i) => i == 0 && l.inbox != []
    case BroadK(v) => v == nd.number == c.w && !nd.broadK
    case SendK(v) => v == nd.number && nd.gotK && !nd.sentK
    case SendShrq(v) => v == nd.number == c.leader && nd.gotK && !nd.sentShrq
    case SendShpn(v) => v == nd.number == c.s1 && nd.gotK && nd.gotShrq && !nd.sentShpn
    case BroadLB(v) => v == nd.number == c.leader && nd.gotK && nd.gotShpn && !nd.broadLB
    case SendLB(v) => v == nd.number && nd.gotLB && !nd.sentLB
    case TakeMsgn(v) => v == nd.number && nd.msgn > 0
    case _ => false
  }

  /** The routing blocks with which the one-time actions begin. */
  predicate Creates(act: Action) {
    act.BroadK? || act.SendShrq? || act.SendShpn? || act.BroadLB? || act.TakeMsgn?
  }

  function Block(c: Config, v: nat, act: Action): RoutingBlock
    requires Creates(act)
  {
    match act
    case BroadK(_) => Root(v, K)
    case SendShrq(_) => Unicast(c.s1, v, ShRq)
    case SendShpn(_) => Unicast(c.leader, v, ShPn)
    case BroadLB(_) => Root(v, LB)
    case TakeMsgn(_) => Unicast(c.leader, v, MSgn)
  }

  /** The flags and queues that the action itself changes. */
  function Begun(conn: seq<nat>, nd: Node, act: Action): Node {
    match act
    case BroadK(_) => nd.(broadK := true, gotK := true)
    case SendK(_) => nd.(sentK := true, kOut := nd.kOut + |conn|)
    case SendShrq(_) => nd.(sentShrq := true)
    case SendShpn(_) => nd.(sentShpn := true)
    case BroadLB(_) => nd.(broadLB := true, gotLB := true)
    case SendLB(_) => nd.(sentLB := true)
    case TakeMsgn(_) => nd.(msgn := if nd.msgn > 0 then nd.msgn - 1 else 0)
    case _ => nd
  }

  function Handled(c: Config, l: Local, nd: Node, rb: RoutingBlock): Local
    requires ValidConfig(c) && nd.number < c.snum && rb.P < c.snum
  {
    var out := Handle(c, nd, rb);
    l.(node := out.node, out := l.out + out.send)
  }

  /** What the action makes of a node with the attached A nodes conn. */
  ghost function Act(c: Config, conn: seq<nat>, l: Local, act: Action): Local
    requires LocalOk(c, l) && CanAct(c, l, act)
  {
    var nd := Begun(conn, l.node, act);
    if act.Arrive? then
      assert l.inbox[0] in l.inbox;
      Handled(c, l.(inbox := l.inbox[1..]), nd, l.inbox[0])
    else if act.SendK? then l.(node := nd)
    else if act.SendLB? then l.(node := nd, lb := l.lb + conn)
    else Handled(c, l, nd, Block(c, nd.number, act))
  }

  /** A node's step is the step of the whole network, for every state that holds the node and the block it reads. */
  lemma ActIsNext(c: Config, s: State, conn: seq<nat>, l: Local, act: Action, i: nat)
    requires LocalOk(c, l) && CanAct(c, l, act) && Shape(c, s) && s.nodes[l.node.number] == l.node
    requires |conn| == Attached(c, l.node.number)
    requires act.Arrive? ==> i < |s.net| && s.net[i] == Packet(l.node.number, l.inbox[0])
    ensures var global, l' := if act.Arrive? then Arrive(i) else act, Act(c, conn, l, act);
            && l.out <= l'.out && Enabled(c, s, global)
            && Next(c, s, global)
               == State(s.nodes[l.node.number := l'.node],
                        if act.SendLB? then QueueLB(c, l.node.number, s.anodes) else s.anodes,
                        (if act.Arrive? then RemoveAt(s.net, i) else s.net) + l'.out[|l.out|..])
  {
    hide Handle, PacketOk, RemoveAt, QueueLB;
    if act.Arrive? {
      assert PacketOk(c, s.net[i]);
      HandledOut(c, l, l.node, l.inbox[0]);
    } else {
      assert s.net + [] == s.net;
    }
  }

  lemma HandledOut(c: Config, l: Local, nd: Node, rb: RoutingBlock)
    requires ValidConfig(c) && nd.number < c.snum && rb.P < c.snum
    ensures Handled(c, l, nd, rb).out[|l.out|..] == Handle(c, nd, rb).send
  {
    hide Handle;
  }

  // ---- sequences of steps ----

  ghost predicate Acts(c: Config, conn: seq<nat>, l: Local, l': Local) {
    LocalOk(c, l) && exists act :: CanAct(c, l, act) && l' == Act(c, conn, l, act)
  }

  ghost predicate LocalRun(c: Config, conn: seq<nat>, run: seq<Local>) {
    |run| > 0 && forall j :: 0 <= j < |run| - 1 ==> Acts(c, conn, run[j], run[j + 1])
  }

  /** l' comes from l by finitely many steps. */
  ghost predicate Reaches(c: Config, conn: seq<nat>, l: Local, l': Local) {
    exists run: seq<Local> :: LocalRun(c, conn, run) && run[0] == l && run[|run| - 1] == l'
  }

  lemma ReachesItself(c: Config, conn: seq<nat>, l: Local)
    ensures Reaches(c, conn, l, l)
  {
    assert LocalRun(c, conn, [l]);
  }

  lemma ReachesThen(c: Config, conn: seq<nat>, l: Local, m: Local, act: Action)
    requires Reaches(c, conn, l, m) && LocalOk(c, m) && CanAct(c, m, act)
    ensures Reaches(c, conn, l, Act(c, conn, m, act))
  {
    hide Act, LocalOk, CanAct;
    var run: seq<Local> :| LocalRun(c, conn, run) && run[0] == l && run[|run| - 1] == m;
    var more := run + [Act(c, conn, m, act)];
    assert LocalRun(c, conn, more);
  }

  lemma {:induction false} ReachesOn(c: Config, conn: seq<nat>, l: Local, m: Local, l': Local)
    requires Reaches(c, conn, l, m) && Reaches(c, conn, m, l')
    ensures Reaches(c, conn, l, l')
  {
    hide Acts;
    var run: seq<Local> :| LocalRun(c, conn, run) && run[0] == l && run[|run| - 1] == m;
    var more: seq<Local> :| LocalRun(c, conn, more) && more[0] == m && more[|more| - 1] == l';
    var all, k := run[..|run| - 1] + more, |run| - 1;
    forall j | 0 <= j < |all| - 1 ensures Acts(c, conn, all[j], all[j + 1]) {
      if j < k {
        assert Acts(c, conn, run[j], run[j + 1]);
      } else {
        assert Acts(c, conn, more[j - k], more[j - k + 1]);
      }
    }
    assert LocalRun(c, conn, all);
  }

  // ---- what handling a block leaves alone ----

  /** The flags that only the node's own actions set. */
  predicate OwnFlags(nd: Node, nd': Node) {
    && nd'.number == nd.number && nd'.kOut == nd.kOut && nd'.msgn == nd.msgn
    && nd'.broadK == nd.broadK && nd'.sentK == nd.sentK && nd'.sentShrq == nd.sentShrq && nd'.sentShpn == nd.sentShpn
    && nd'.broadLB == nd.broadLB && nd'.sentLB == nd.sentLB
  }

  /** What a block of this type may change. */
  predicate KeepsFlags(bt: BlockType, nd: Node, nd': Node) {
    OwnFlags(nd, nd') && GotFlags(bt, nd, nd')
  }

  predicate GotFlags(bt: BlockType, nd: Node, nd': Node) {
    && (bt != K ==> nd'.gotK == nd.gotK)
    && (bt != ShRq ==> nd'.gotShrq == nd.gotShrq)
    && (bt != ShRq && bt != ShPn ==> nd'.gotShpn == nd.gotShpn)
    && (bt != LB ==> nd'.gotLB == nd.gotLB)
    && (nd.gotK ==> nd'.gotK) && (nd.gotShrq ==> nd'.gotShrq) && (nd.gotShpn ==> nd'.gotShpn) && (nd.gotLB ==> nd'.gotLB)
  }

  lemma {:induction false} HandleKeepsFlags(c: Config, nd: Node, rb: RoutingBlock)
    requires ValidConfig(c) && nd.number < c.snum && rb.P < c.snum
    ensures KeepsFlags(rb.bt, nd, Handle(c, nd, rb).node)
    decreases Rank(rb.bt), 1
  {
    hide Process;
    ProcessKeepsFlags(c, nd, rb);
  }

  lemma {:induction false} ProcessKeepsFlags(c: Config, nd: Node, rb: RoutingBlock)
    requires ValidConfig(c) && nd.number < c.snum && rb.P < c.snum
    ensures KeepsFlags(rb.bt, nd, Process(c, nd, rb).node)
    decreases Rank(rb.bt), 0
  {
    hide Handle, Process, Flagged, OwnFlags, GotFlags;
    if rb.bt == ShRq && nd.number == c.s1 {
      AnswerIs(c, nd, rb);
      HandleKeepsFlags(c, nd.(gotShrq := true), Unicast(c.leader, nd.number, ShPn));
      AnswerKeeps(nd, Process(c, nd, rb).node);
    } else if rb.bt == MSgn && nd.number == c.leader {
      CountIs(c, nd, nd.(totalMsigns := nd.totalMsigns + 1), rb);
      if nd.totalMsigns + 1 == c.anum {
        HandleKeepsFlags(c, nd.(totalMsigns := nd.totalMsigns + 1), Root(nd.number, M));
        CountKeeps(nd, Process(c, nd, rb).node, nd.totalMsigns + 1);
      } else {
        CountOnlyKeeps(nd, nd.totalMsigns + 1);
      }
    } else {
      FlagIs(c, nd, rb);
      FlaggedKeeps(c, nd, rb.bt);
    }
  }

  lemma AnswerKeeps(nd: Node, nd': Node)
    requires KeepsFlags(ShPn, nd.(gotShrq := true), nd')
    ensures KeepsFlags(ShRq, nd, nd')
  {
  }

  lemma CountKeeps(nd: Node, nd': Node, total: nat)
    requires KeepsFlags(M, nd.(totalMsigns := total), nd')
    ensures KeepsFlags(MSgn, nd, nd')
  {
  }

  lemma CountOnlyKeeps(nd: Node, total: nat)
    ensures KeepsFlags(MSgn, nd, nd.(totalMsigns := total))
  {
  }

  /** S1 answers. */
  lemma AnswerIs(c: Config, nd: Node, rb: RoutingBlock)
    requires ValidConfig(c) && nd.number == c.s1 && rb.P < c.snum && rb.bt == ShRq
    ensures Process(c, nd, rb) == Handle(c, nd.(gotShrq := true), Unicast(c.leader, nd.number, ShPn))
  {
    hide Handle;
  }

  /** The leader counts. */
  lemma CountIs(c: Config, nd: Node, nd': Node, rb: RoutingBlock)
    requires ValidConfig(c) && nd.number == c.leader == nd'.number && rb.P < c.snum && rb.bt == MSgn
    requires nd' == nd.(totalMsigns := nd.totalMsigns + 1)
    ensures Process(c, nd, rb) == if nd'.totalMsigns == c.anum then Handle(c, nd', Root(c.leader, M)) else Out(nd', [])
  {
    hide Handle;
  }

  /** Any other block at most sets a flag. */
  function Flagged(c: Config, nd: Node, bt: BlockType): Node {
    match bt
    case K => nd.(gotK := true)
    case LB => nd.(gotLB := true)
    case M => nd.(gotM := true)
    case ShPn => if nd.number == c.leader then nd.(gotShpn := true) else nd
    case _ => nd
  }

  lemma FlaggedKeeps(c: Config, nd: Node, bt: BlockType)
    ensures KeepsFlags(bt, nd, Flagged(c, nd, bt))
  {
    hide KeepsFlags;
    match bt
    case K => KKeeps(nd);
    case LB => LBKeeps(nd);
    case M => MKeeps(nd);
    case ShPn => ShPnKeeps(nd);
    case _ => NothingKeeps(bt, nd);
  }

  lemma KKeeps(nd: Node)
    ensures KeepsFlags(K, nd, nd.(gotK := true))
  {
  }

  lemma LBKeeps(nd: Node)
    ensures KeepsFlags(LB, nd, nd.(gotLB := true))
  {
  }

  lemma MKeeps(nd: Node)
    ensures KeepsFlags(M, nd, nd.(gotM := true))
  {
  }

  lemma ShPnKeeps(nd: Node)
    ensures KeepsFlags(ShPn, nd, nd.(gotShpn := true)) && KeepsFlags(ShPn, nd, nd)
  {
  }

  lemma NothingKeeps(bt: BlockType, nd: Node)
    ensures KeepsFlags(bt, nd, nd)
  {
  }

  lemma FlaggedMoreK(c: Config, nd: Node, bt: BlockType, d: nat)
    ensures Flagged(c, WithK(nd, d), bt) == WithK(Flagged(c, nd, bt), d)
  {
    match bt
    case K =>
    case LB =>
    case M =>
    case ShPn =>
    case _ =>
  }

  lemma FlagIs(c: Config, nd: Node, rb: RoutingBlock)
    requires ValidConfig(c) && nd.number < c.snum && rb.P < c.snum
    requires !(rb.bt == ShRq && nd.number == c.s1) && !(rb.bt == MSgn && nd.number == c.leader)
    ensures Process(c, nd, rb) == Out(Flagged(c, nd, rb.bt), [])
  {
    hide Handle;
  }

  /** More k blocks in the queue make no difference to the handling of a block. */
  lemma {:induction false} HandleMoreK(c: Config, nd: Node, rb: RoutingBlock, d: nat)
    requires ValidConfig(c) && nd.number < c.snum && rb.P < c.snum
    ensures Handle(c, WithK(nd, d), rb) == OutWithK(Handle(c, nd, rb), d)
    decreases Rank(rb.bt), 1
  {
    hide Process, Forward;
    ProcessMoreK(c, nd, rb, d);
  }

  lemma {:induction false} ProcessMoreK(c: Config, nd: Node, rb: RoutingBlock, d: nat)
    requires ValidConfig(c) && nd.number < c.snum && rb.P < c.snum
    ensures Process(c, WithK(nd, d), rb) == OutWithK(Process(c, nd, rb), d)
    decreases Rank(rb.bt), 0
  {
    hide Handle, Process, Flagged, WithK;
    WithKNumber(nd, d);
    if rb.bt == ShRq && nd.number == c.s1 {
      AnswerIs(c, nd, rb);
      AnswerIs(c, WithK(nd, d), rb);
      WithKAnswers(nd, d);
      HandleMoreK(c, nd.(gotShrq := true), Unicast(c.leader, nd.number, ShPn), d);
    } else if rb.bt == MSgn && nd.number == c.leader {
      CountIs(c, nd, nd.(totalMsigns := nd.totalMsigns + 1), rb);
      WithKCounts(nd, d);
      CountIs(c, WithK(nd, d), WithK(nd, d).(totalMsigns := nd.totalMsigns + 1), rb);
      HandleMoreK(c, nd.(totalMsigns := nd.totalMsigns + 1), Root(nd.number, M), d);
    } else {
      FlagIs(c, nd, rb);
      FlagIs(c, WithK(nd, d), rb);
      FlaggedMoreK(c, nd, rb.bt, d);
    }
  }

  lemma WithKNumber(nd: Node, d: nat)
    ensures WithK(nd, d).number == nd.number && WithK(nd, d).totalMsigns == nd.totalMsigns
  {
  }

  lemma WithKAnswers(nd: Node, d: nat)
    ensures WithK(nd, d).(gotShrq := true) == WithK(nd.(gotShrq := true), d)
  {
  }

  lemma WithKCounts(nd: Node, d: nat)
    ensures WithK(nd, d).(totalMsigns := nd.totalMsigns + 1) == WithK(nd.(totalMsigns := nd.totalMsigns + 1), d)
  {
  }

  function WithK(nd: Node, d: nat): Node {
    nd.(kOut := nd.kOut + d)
  }

  function OutWithK(out: Out, d: nat): Out {
    Out(WithK(out.node, d), out.send)
  }

  /** With one more k block, or lb block, queued for each of these A nodes. */
  function QueuedA(l: Local, isK: bool, to: seq<nat>): Local {
    if isK then l.(node := WithK(l.node, |to|)) else l.(lb := l.lb + to)
  }

  /** Sending to the attached A nodes is setting the flag and queueing for all of them. */
  lemma SendKIs(c: Config, conn: seq<nat>, l: Local, l': Local)
    requires LocalOk(c, l) && CanAct(c, l, SendK(l.node.number)) && l' == l.(node := l.node.(sentK := true))
    ensures Act(c, conn, l, SendK(l.node.number)) == QueuedA(l', true, conn)
  {
  }

  lemma SendLBIs(c: Config, conn: seq<nat>, l: Local, l': Local)
    requires LocalOk(c, l) && CanAct(c, l, SendLB(l.node.number)) && l' == l.(node := l.node.(sentLB := true))
    ensures Act(c, conn, l, SendLB(l.node.number)) == QueuedA(l', false, conn)
  {
  }

  lemma QueuedFlags(l: Local, isK: bool, to: seq<nat>)
    ensures KeepsFlags(MSgn, l.node.(kOut := QueuedA(l, isK, to).node.kOut), QueuedA(l, isK, to).node)
    ensures QueuedA(l, isK, to).node.gotLB == l.node.gotLB && QueuedA(l, isK, to).inbox == l.inbox
  {
  }

  lemma QueuedNothing(l: Local, isK: bool)
    ensures QueuedA(l, isK, []) == l
  {
  }

  lemma QueuedNext(l: Local, isK: bool, to: seq<nat>, i: nat)
    requires i < |to|
    ensures QueuedA(l, isK, to[i..]) == QueuedA(QueuedA(l, isK, [to[i]]), isK, to[i + 1..])
  {
    assert to[i..] == [to[i]] + to[i + 1..];
  }

  /** A block may as well be read after they have been queued. */
  lemma ReadAfterQueueing(c: Config, conn: seq<nat>, l: Local, isK: bool, to: seq<nat>)
    requires LocalOk(c, l) && CanAct(c, l, Arrive(0))
    ensures LocalOk(c, QueuedA(l, isK, to)) && CanAct(c, QueuedA(l, isK, to), Arrive(0))
    ensures Act(c, conn, QueuedA(l, isK, to), Arrive(0)) == QueuedA(Act(c, conn, l, Arrive(0)), isK, to)
  {
    hide Handle;
    assert l.inbox[0] in l.inbox;
    HandleMoreK(c, l.node, l.inbox[0], |to|);
  }
}
