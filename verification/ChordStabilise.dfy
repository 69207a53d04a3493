/**
 Stabilisation once joins have stopped: predecessors are exact and stay so, every
 answer to a stabilisation either leaves a successor alone or brings it strictly
 nearer without passing the true one, and every completed round of a node either
 changes its successor or finds it exact. So a node is exact after as many rounds
 as its successor skips nodes, and every run can be continued until all are exact.
 */
module ChordStabilise {
  import opened RingArithmetic
  import opened Sums
  import opened ChordRange
  import opened ChordPeer
  import opened ChordJoin
  import opened ChordRing

  /** No join is under way any more. */
  ghost predicate Settled(n: nat, seed: nat, s: Net) {
    && n > 0 && Inv(n, seed, s)
    && (forall p <- s.net :: !p.msg.Join? && !p.msg.Successor?)
  }

  /** The steps that remain: receipts, stabilisations and refreshes of all fingers but the first. */
  predicate Quiet(n: nat, s: Net, act: Action) {
    Enabled(n, s, act) && !act.Start? && (act.Refresh? ==> act.k >= 1)
  }

  ghost predicate SettledStep(n: nat, s: Net, s': Net) {
    n > 0 && exists act :: Quiet(n, s, act) && s' == Next(n, 1, s, act)
  }

  ghost predicate Steps(n: nat, run: seq<Net>) {
    |run| > 0 && forall j :: 0 <= j < |run| - 1 ==> SettledStep(n, run[j], run[j + 1])
  }

  ghost predicate SettledRun(n: nat, seed: nat, run: seq<Net>) {
    Steps(n, run) && Settled(n, seed, run[0])
  }

  /** The nodes that the successor of x skips. */
  ghost function Skipped(n: nat, s: Net, x: nat): set<nat>
    requires x in s.peers
  {
    set z | z in s.admitted && z < n && x < n && s.peers[x].succ < n && OpenArc(n, z, x, s.peers[x].succ)
  }

  /** What one step may do to the pointers of x. */
  ghost predicate Nearer(n: nat, s: Net, s': Net, x: nat) {
    && x in s.peers && x in s'.peers && x < n && s.peers[x].succ < n && s'.peers[x].succ < n
    && s'.peers[x].pred == s.peers[x].pred
    && (s'.peers[x].succ == s.peers[x].succ
        || (s'.peers[x].succ in s.admitted && OpenArc(n, s'.peers[x].succ, x, s.peers[x].succ)))
  }

  // ---- one step ----

  lemma NoPending(n: nat, seed: nat, s: Net, x: nat)
    requires Settled(n, seed, s) && x in s.admitted
    ensures !Pending(s, seed, x) && x in s.peers && x < n && PeerOk(n, s, x)
    ensures s.peers[x].pred < n && Adjacent(n, s.admitted, s.peers[x].pred, x)
    ensures s.peers[x].succ < n && s.peers[x].succ in s.admitted
  {
    hide Sum, PacketOk, Ring, PeerOk;
    FirstHarmless(s.net, x);
    assert FirstTo(s.net, x).Some? ==> !FirstTo(s.net, x).value.Successor?;
    JoinedOrAlone(n, seed, s, x);
    SuccessorInside(n, seed, s, x);
  }

  lemma SuccessorInside(n: nat, seed: nat, s: Net, x: nat)
    requires Shape(n, seed, s) && x in s.admitted && x in s.peers && PeerOk(n, s, x)
    ensures s.peers[x].succ in s.admitted && s.peers[x].succ < n
  {
    AllOnRing(n, seed, s, s.peers[x].succ);
  }

  /** A receipt in a settled network: only the answer to a stabilisation changes the node. */
  lemma ReceiptNearer(n: nat, seed: nat, s: Net, i: nat)
    requires Settled(n, seed, s) && Enabled(n, s, Receive(i))
    ensures var h, x := HandledAt(n, s, i), s.net[i].to;
            && h.me.pred == s.peers[x].pred
            && (h.me.succ == s.peers[x].succ ||
                (h.me.succ in s.admitted && x < n && h.me.succ < n && s.peers[x].succ < n
                 && OpenArc(n, h.me.succ, x, s.peers[x].succ)))
            && (forall p <- h.send :: !p.msg.Join? && !p.msg.Successor?)
            && Admits(n, s.peers[x], s.net[i].msg) == {}
  {
    hide Ring, Counts, Sum;
    var x := s.net[i].to;
    assert s.net[i] in s.net;
    TakenOk(n, seed, s, i);
    NoPending(n, seed, s, x);
    match s.net[i].msg
    case Predecessor(p) =>
      AllOnRing(n, seed, s, p);
      RangeNotIncIsOpenArc(n, p, x, s.peers[x].succ);
    case Notify(from) => NotifyChangesNothing(n, seed, s, i);
    case _ =>
  }

  lemma StepNearer(n: nat, seed: nat, s: Net, act: Action, x: nat)
    requires Settled(n, seed, s) && Quiet(n, s, act) && x in s.admitted
    ensures Nearer(n, s, Next(n, 1, s, act), x)
  {
    hide Inv, Handle, Admits, Settled, PeerOk;
    NoPending(n, seed, s, x);
    match act
    case Receive(i) => ReceiptNearer(n, seed, s, i); ReceiptInside(n, seed, s, i);
    case _ =>
  }

  lemma ReceiptInside(n: nat, seed: nat, s: Net, i: nat)
    requires Settled(n, seed, s) && Enabled(n, s, Receive(i))
    ensures s.net[i].to in s.admitted && s.peers[s.net[i].to].succ < n
  {
    hide Ring, Counts;
    TakenOk(n, seed, s, i);
    SuccessorInside(n, seed, s, s.net[i].to);
  }

  lemma StepSettled(n: nat, seed: nat, s: Net, act: Action)
    requires Settled(n, seed, s) && Quiet(n, s, act)
    ensures Settled(n, seed, Next(n, 1, s, act)) && Next(n, 1, s, act).admitted == s.admitted
  {
    hide Inv, Handle, Admits;
    NextInv(n, 1, seed, s, act);
    if act.Receive? {
      ReceiptNearer(n, seed, s, act.i);
    }
  }

  // ---- what a nearer successor means ----

  /** A successor that comes nearer skips fewer nodes. */
  lemma NearerSkipsFewer(n: nat, s: Net, s': Net, x: nat)
    requires Nearer(n, s, s', x) && s'.admitted == s.admitted
    ensures |Skipped(n, s', x)| + (if s'.peers[x].succ == s.peers[x].succ then 0 else 1) <= |Skipped(n, s, x)|
  {
    if s'.peers[x].succ == s.peers[x].succ {
      assert Skipped(n, s', x) == Skipped(n, s, x);
    } else {
      var p := s'.peers[x].succ;
      assert p in Skipped(n, s, x) && p !in Skipped(n, s', x);
      assert Skipped(n, s', x) <= Skipped(n, s, x) - {p};
      Fewer(Skipped(n, s', x), Skipped(n, s, x) - {p});
    }
  }

  /** A successor is exact when it skips nobody. */
  lemma ExactSkipsNobody(n: nat, seed: nat, s: Net, x: nat)
    requires Settled(n, seed, s) && x in s.admitted
    ensures x in s.peers && (Skipped(n, s, x) == {} <==> Adjacent(n, s.admitted, x, s.peers[x].succ))
  {
    hide Inv, PeerOk, OpenArc;
    NoPending(n, seed, s, x);
    if !Adjacent(n, s.admitted, x, s.peers[x].succ) {
      var z :| z in s.admitted && z < n && OpenArc(n, z, x, s.peers[x].succ);
      assert z in Skipped(n, s, x);
    } else if z :| z in Skipped(n, s, x) {
      assert false;
    }
  }

  /** The predecessor of y is news to x exactly if y is not the true successor of x. */
  lemma PredecessorTells(n: nat, nodes: set<nat>, x: nat, y: nat, p: nat)
    requires x < n && x in nodes && x != y && Adjacent(n, nodes, p, y)
    ensures OpenArc(n, p, x, y) <==> !Adjacent(n, nodes, x, y)
  {
  }

  // ---- whole runs ----

  lemma {:induction false} RunSettled(n: nat, seed: nat, run: seq<Net>, i: nat)
    requires SettledRun(n, seed, run) && i < |run|
    ensures Settled(n, seed, run[i]) && run[i].admitted == run[0].admitted
  {
    hide Inv, Settled, Next, Enabled;
    if i > 0 {
      RunSettled(n, seed, run, i - 1);
      assert SettledStep(n, run[i - 1], run[i - 1 + 1]);
      var act :| Quiet(n, run[i - 1], act) && run[i] == Next(n, 1, run[i - 1], act);
      StepSettled(n, seed, run[i - 1], act);
    }
  }

  /** How often the successor of x changes in the first i steps of a run. */
  ghost function Changes(run: seq<Net>, x: nat, i: nat): nat
    requires i < |run| && forall s <- run :: x in s.peers
  {
    if i == 0 then 0
    else Changes(run, x, i - 1) + if run[i].peers[x].succ == run[i - 1].peers[x].succ then 0 else 1
  }

  lemma InPeers(n: nat, seed: nat, run: seq<Net>, x: nat)
    requires SettledRun(n, seed, run) && x in run[0].admitted
    ensures forall s <- run :: x in s.peers
  {
    hide Inv, Settled;
    forall s | s in run ensures x in s.peers {
      var i :| 0 <= i < |run| && run[i] == s;
      RunSettled(n, seed, run, i);
      NoPending(n, seed, s, x);
    }
  }

  lemma {:induction false} ChangesAndSkips(n: nat, seed: nat, run: seq<Net>, x: nat, i: nat)
    requires SettledRun(n, seed, run) && i < |run| && x in run[0].admitted && forall s <- run :: x in s.peers
    ensures Changes(run, x, i) + |Skipped(n, run[i], x)| <= |Skipped(n, run[0], x)|
    ensures run[i].peers[x].pred == run[0].peers[x].pred
  {
    hide Inv, Settled, Next, Enabled, Skipped, SettledRun;
    if i > 0 {
      ChangesAndSkips(n, seed, run, x, i - 1);
      RunSettled(n, seed, run, i - 1);
      RunSettled(n, seed, run, i);
      RunStepNearer(n, seed, run, x, i);
      NearerSkipsFewer(n, run[i - 1], run[i], x);
    }
  }

  lemma RunStepNearer(n: nat, seed: nat, run: seq<Net>, x: nat, i: nat)
    requires SettledRun(n, seed, run) && 0 < i < |run| && x in run[0].admitted
    ensures Nearer(n, run[i - 1], run[i], x)
  {
    hide Inv, Settled, Next, Enabled, Nearer;
    RunSettled(n, seed, run, i - 1);
    assert SettledStep(n, run[i - 1], run[i - 1 + 1]);
    var act :| Quiet(n, run[i - 1], act) && run[i] == Next(n, 1, run[i - 1], act);
    StepNearer(n, seed, run[i - 1], act, x);
  }

  /**
   In every run after the last join, for every node: its predecessor is exact and
   never changes; its successor changes at most as often as it skips nodes at the
   start, each change brings it strictly nearer, and once exact it never changes.
   */
  lemma SuccessorsConverge(n: nat, seed: nat, run: seq<Net>, x: nat, i: nat)
    requires SettledRun(n, seed, run) && x in run[0].admitted && i < |run|
    ensures forall s <- run :: x in s.peers
    ensures Changes(run, x, i) + |Skipped(n, run[i], x)| <= |Skipped(n, run[0], x)|
    ensures run[i].peers[x].pred == run[0].peers[x].pred
    ensures Adjacent(n, run[0].admitted, run[i].peers[x].pred, x)
    ensures i > 0 ==> Nearer(n, run[i - 1], run[i], x)
    ensures Adjacent(n, run[0].admitted, x, run[0].peers[x].succ) ==> run[i].peers[x].succ == run[0].peers[x].succ
  {
    hide Inv, Settled, Skipped, SettledRun, Adjacent, Nearer;
    InPeers(n, seed, run, x);
    ChangesAndSkips(n, seed, run, x, i);
    RunSettled(n, seed, run, i);
    RunSettled(n, seed, run, 0);
    NoPending(n, seed, run[i], x);
    if i > 0 {
      RunStepNearer(n, seed, run, x, i);
    }
    ExactSkipsNobody(n, seed, run[0], x);
    if Adjacent(n, run[0].admitted, x, run[0].peers[x].succ) {
      NoChange(run, x, i);
    }
  }

  lemma {:induction false} NoChange(run: seq<Net>, x: nat, i: nat)
    requires i < |run| && (forall s <- run :: x in s.peers) && Changes(run, x, i) == 0
    ensures run[i].peers[x].succ == run[0].peers[x].succ
  {
    if i > 0 {
      NoChange(run, x, i - 1);
    }
  }

  // ---- completed rounds ----

  /** One stabilisation of a node: the steps at which it asks, is answered, and takes the answer. */
  datatype Round = Round(asked: nat, answered: nat, done: nat)

  /** Step j of the run is the receipt of packet p. */
  ghost predicate Takes(n: nat, run: seq<Net>, j: nat, p: Packet) {
    && n > 0 && j + 1 < |run|
    && exists i: nat :: Enabled(n, run[j], Receive(i)) && run[j].net[i] == p && run[j + 1] == Next(n, 1, run[j], Receive(i))
  }

  /** x asks its successor y, y takes the question, and x takes the answer that y gave. */
  ghost predicate CompletedRound(n: nat, run: seq<Net>, x: nat, r: Round) {
    && n > 0 && r.asked < r.answered < r.done < |run| - 1
    && Enabled(n, run[r.asked], Stabilise(x))
    && run[r.asked + 1] == Next(n, 1, run[r.asked], Stabilise(x))
    && var y := run[r.asked].peers[x].succ;
       && Takes(n, run, r.answered, Packet(y, FindPredecessor(x)))
       && y in run[r.answered].peers
       && Takes(n, run, r.done, Packet(x, Predecessor(run[r.answered].peers[y].pred)))
  }

  ghost predicate Exact(n: nat, s: Net, x: nat) {
    x in s.peers && Adjacent(n, s.admitted, x, s.peers[x].succ)
  }

  lemma {:induction false} ChangesGrow(run: seq<Net>, x: nat, i: nat, j: nat)
    requires i <= j < |run| && forall s <- run :: x in s.peers
    ensures Changes(run, x, i) <= Changes(run, x, j)
    ensures Changes(run, x, i) == Changes(run, x, j) ==> run[i].peers[x].succ == run[j].peers[x].succ
  {
    if i < j {
      ChangesGrow(run, x, i, j - 1);
    }
  }

  /** The answer of y, taken while y is still the successor of x: x moves on, or y is the true one. */
  lemma AnswerTaken(n: nat, seed: nat, s: Net, i: nat, y: nat)
    requires Settled(n, seed, s) && Enabled(n, s, Receive(i)) && s.net[i].msg.Predecessor?
    requires s.peers[s.net[i].to].succ == y
    requires Adjacent(n, s.admitted, s.net[i].msg.found, y)
    ensures var x, s' := s.net[i].to, Next(n, 1, s, Receive(i));
            x in s'.peers && (s'.peers[x].succ != y <==> !Adjacent(n, s.admitted, x, y))
  {
    hide Ring, Counts, Shape;
    var x, p := s.net[i].to, s.net[i].msg.found;
    TakenOk(n, seed, s, i);
    NoPending(n, seed, s, x);
    PredecessorTells(n, s.admitted, x, y, p);
    RangeNotIncIsOpenArc(n, p, x, y);
    assert p != y ==> !OpenArc(n, y, p, y);
  }

  /** Every completed round of a node finds the successor exact or has seen it change. */
  lemma RoundProgress(n: nat, seed: nat, run: seq<Net>, x: nat, r: Round)
    requires SettledRun(n, seed, run) && x in run[0].admitted && CompletedRound(n, run, x, r)
    requires forall s <- run :: x in s.peers
    ensures Exact(n, run[r.done + 1], x) || Changes(run, x, r.asked) < Changes(run, x, r.done + 1)
  {
    hide Inv, Settled, Next, SettledRun, Adjacent, Changes;
    var y, s := run[r.asked].peers[x].succ, run[r.done];
    var p := run[r.answered].peers[y].pred;
    ChangesGrow(run, x, r.asked, r.done);
    ChangesGrow(run, x, r.done, r.done + 1);
    RunSettled(n, seed, run, r.answered);
    RunSettled(n, seed, run, r.done);
    RunSettled(n, seed, run, r.done + 1);
    AskedIsInside(n, seed, run, x, r);
    NoPending(n, seed, run[r.answered], y);
    if s.peers[x].succ == y {
      var i: nat :| Enabled(n, s, Receive(i)) && s.net[i] == Packet(x, Predecessor(p)) && run[r.done + 1] == Next(n, 1, s, Receive(i));
      AnswerTaken(n, seed, s, i, y);
    }
  }

  lemma AskedIsInside(n: nat, seed: nat, run: seq<Net>, x: nat, r: Round)
    requires SettledRun(n, seed, run) && x in run[0].admitted && CompletedRound(n, run, x, r)
    ensures run[r.asked].peers[x].succ in run[0].admitted
  {
    hide Inv, Settled, Next, SettledRun, Takes;
    RunSettled(n, seed, run, r.asked);
    NoPending(n, seed, run[r.asked], x);
  }

  /** Once exact, a successor stays exact. */
  lemma {:induction false} ExactStays(n: nat, seed: nat, run: seq<Net>, x: nat, i: nat, j: nat)
    requires SettledRun(n, seed, run) && x in run[0].admitted && i <= j < |run| && Exact(n, run[i], x)
    ensures Exact(n, run[j], x)
  {
    hide Inv, Settled, SettledRun, Nearer, Adjacent, Skipped;
    if i < j {
      ExactStays(n, seed, run, x, i, j - 1);
      RunSettled(n, seed, run, j - 1);
      RunSettled(n, seed, run, j);
      RunStepNearer(n, seed, run, x, j);
      ExactSkipsNobody(n, seed, run[j - 1], x);
      InPeers(n, seed, run, x);
      NearerSkipsFewer(n, run[j - 1], run[j], x);
    }
  }

  /** Rounds of x, each begun after the one before was completed. */
  ghost predicate Rounds(n: nat, run: seq<Net>, x: nat, rounds: seq<Round>) {
    && (forall k :: 0 <= k < |rounds| ==> CompletedRound(n, run, x, rounds[k]))
    && (forall k :: 0 < k < |rounds| ==> rounds[k - 1].done < rounds[k].asked)
  }

  /** Every round but those that find the successor exact costs a change. */
  lemma {:induction false} RoundsChange(n: nat, seed: nat, run: seq<Net>, x: nat, rounds: seq<Round>)
    requires SettledRun(n, seed, run) && x in run[0].admitted && |rounds| > 0 && Rounds(n, run, x, rounds)
    requires forall s <- run :: x in s.peers
    ensures var end := rounds[|rounds| - 1].done + 1;
            end < |run| && (Exact(n, run[end], x) || Changes(run, x, end) >= |rounds|)
  {
    hide Inv, Settled, SettledRun, Adjacent, Changes, CompletedRound;
    var last := rounds[|rounds| - 1];
    RoundEnds(n, run, x, last);
    RoundProgress(n, seed, run, x, last);
    if |rounds| > 1 {
      var earlier := rounds[..|rounds| - 1];
      RoundsChange(n, seed, run, x, earlier);
      var end := earlier[|earlier| - 1].done + 1;
      ChangesGrow(run, x, end, last.asked);
      if Exact(n, run[end], x) {
        ExactStays(n, seed, run, x, end, last.done + 1);
      }
    }
  }

  lemma RoundEnds(n: nat, run: seq<Net>, x: nat, r: Round)
    requires CompletedRound(n, run, x, r)
    ensures r.asked < r.done < |run| - 1
  {
  }

  /**
   After as many completed rounds as its successor skipped nodes at the start, the
   successor of a node is the true one, for the rest of the run.
   */
  lemma RoundsMakeExact(n: nat, seed: nat, run: seq<Net>, x: nat, rounds: seq<Round>, i: nat)
    requires SettledRun(n, seed, run) && x in run[0].admitted && x in run[0].peers && i < |run|
    requires Rounds(n, run, x, rounds) && |rounds| >= |Skipped(n, run[0], x)|
    requires |rounds| > 0 ==> rounds[|rounds| - 1].done < i
    ensures Exact(n, run[i], x)
  {
    hide Inv, Settled, SettledRun, Adjacent, Changes, Skipped, Rounds;
    InPeers(n, seed, run, x);
    var end := 0;
    if |rounds| > 0 {
      RoundsChange(n, seed, run, x, rounds);
      end := rounds[|rounds| - 1].done + 1;
    }
    if !Exact(n, run[end], x) {
      ChangesAndSkips(n, seed, run, x, end);
      RunSettled(n, seed, run, end);
      ExactSkipsNobody(n, seed, run[end], x);
    }
    ExactStays(n, seed, run, x, end, i);
  }

  /** Every reachable state in which no join is under way any more is the start of such runs. */
  lemma ReachableSettles(n: nat, size: nat, seed: nat, run: seq<Net>, i: nat)
    requires Run(n, size, seed, run) && i < |run|
    requires forall p <- run[i].net :: !p.msg.Join? && !p.msg.Successor?
    ensures Settled(n, seed, run[i]) && SettledRun(n, seed, [run[i]])
  {
    hide Inv;
    RunInv(n, size, seed, run, i);
  }
}
