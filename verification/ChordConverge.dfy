/**
 Every state of the joining network can be brought to a stabilised ring: handing over
 all messages ends, since each is answered by lighter ones and joins are forwarded
 only so often, and then one round of stabilisation after the other makes every
 successor exact.
 */
module ChordConverge {
  import opened RingArithmetic
  import opened Sums
  import opened ChordRange
  import opened ChordPeer
  import opened ChordJoin
  import opened ChordRing
  import opened ChordStabilise

  // ---- pieces of runs ----

  function Last(run: seq<Net>): Net
    requires |run| > 0
  {
    run[|run| - 1]
  }

  lemma StepsPrepend(n: nat, s: Net, run: seq<Net>)
    requires Steps(n, run) && SettledStep(n, s, run[0])
    ensures Steps(n, [s] + run) && Last([s] + run) == Last(run)
  {
    hide SettledStep;
    var all := [s] + run;
    forall j | 0 <= j < |all| - 1 ensures SettledStep(n, all[j], all[j + 1]) {
      if j > 0 {
        assert SettledStep(n, run[j - 1], run[j - 1 + 1]);
      }
    }
  }

  /** Two runs, the second of which starts where the first one ends. */
  function Joined(run: seq<Net>, more: seq<Net>): seq<Net>
    requires |run| > 0
  {
    run[..|run| - 1] + more
  }

  lemma StepsJoin(n: nat, run: seq<Net>, more: seq<Net>)
    requires Steps(n, run) && Steps(n, more) && Last(run) == more[0]
    ensures Steps(n, Joined(run, more)) && Joined(run, more)[0] == run[0] && Last(Joined(run, more)) == Last(more)
  {
    hide SettledStep;
    var all, k := Joined(run, more), |run| - 1;
    forall j | 0 <= j < |all| - 1 ensures SettledStep(n, all[j], all[j + 1]) {
      if j < k {
        assert SettledStep(n, run[j], run[j + 1]);
      } else {
        assert SettledStep(n, more[j - k], more[j - k + 1]);
      }
    }
  }

  // ---- emptying the network ----

  /** How much work a message may still cause if no finger table has more than m / 3 entries. */
  function Weight(m: nat): Packet -> nat {
    (p: Packet) =>
      match p.msg
      case Join(_, _, counter) => if 2 * counter > m then 1 else m + 4 - 2 * counter
      case FindPredecessor(_) => 3
      case Predecessor(_) => 2
      case _ => 1
  }

  ghost predicate TablesFit(s: Net, m: nat) {
    forall x {:trigger s.peers[x]} :: x in s.peers ==> 3 * |s.peers[x].fingers| <= m
  }

  /** A message is answered by nothing, or by one lighter message. */
  lemma HandleLighter(n: nat, me: Peer, p: Packet, m: nat)
    requires n > 0 && 3 * |me.fingers| <= m
    ensures var h := Handle(n, me, p.msg);
            && |h.me.fingers| == |me.fingers|
            && (h.send == [] || (|h.send| == 1 && Weight(m)(h.send[0]) < Weight(m)(p)))
    ensures Weight(m)(p) > 0
  {
    hide FindSuccessor, IsInRangeOverZeroNotInc;
  }

  lemma ReceiptLighter(n: nat, seed: nat, s: Net, m: nat)
    requires n > 0 && Inv(n, seed, s) && TablesFit(s, m) && s.net != []
    ensures Quiet(n, s, Receive(0))
    ensures var s' := Next(n, 1, s, Receive(0));
            Inv(n, seed, s') && TablesFit(s', m) && Sum(Weight(m), s'.net) < Sum(Weight(m), s.net)
  {
    hide Inv, Handle, Weight, Sum, Admits;
    FirstCanBeTaken(n, seed, s);
    NextInv(n, 1, seed, s, Receive(0));
    var p := s.net[0];
    var h := HandledAt(n, s, 0);
    HandleLighter(n, s.peers[p.to], p, m);
    SumDeliver(Weight(m), s.net, 0, h.send);
    if h.send != [] {
      assert h.send == [h.send[0]];
      SumOne(Weight(m), h.send[0]);
    } else {
      SumNone(Weight(m));
    }
  }

  lemma SumNone(f: Packet -> nat)
    ensures Sum(f, []) == 0
  {
  }

  lemma FirstCanBeTaken(n: nat, seed: nat, s: Net)
    requires Inv(n, seed, s) && s.net != []
    ensures Enabled(n, s, Receive(0))
  {
    hide Ring, Counts;
    assert PacketOk(s, s.net[0]);
  }

  /** Taking message after message empties the network. */
  lemma {:induction false} Drain(n: nat, seed: nat, s: Net, m: nat) returns (run: seq<Net>)
    requires n > 0 && Inv(n, seed, s) && TablesFit(s, m)
    ensures Steps(n, run) && run[0] == s && Inv(n, seed, Last(run)) && Last(run).net == []
    decreases Sum(Weight(m), s.net)
  {
    hide Inv, Next, TablesFit, Weight, Sum;
    if s.net == [] {
      run := [s];
    } else {
      ReceiptLighter(n, seed, s, m);
      var rest := Drain(n, seed, Next(n, 1, s, Receive(0)), m);
      assert SettledStep(n, s, rest[0]);
      StepsPrepend(n, s, rest);
      run := [s] + rest;
    }
  }

  lemma {:induction false} LongestTable(peers: map<nat, Peer>) returns (m: nat)
    ensures forall x <- peers :: 3 * |peers[x].fingers| <= m
    decreases |peers|
  {
    if peers.Keys == {} {
      m := 0;
    } else {
      var y :| y in peers;
      var rest := peers - {y};
      assert rest.Keys == peers.Keys - {y};
      assert |rest.Keys| == |peers.Keys| - 1;
      var most := LongestTable(rest);
      m := most + 3 * |peers[y].fingers|;
      forall x | x in peers ensures 3 * |peers[x].fingers| <= m {
        assert x != y ==> x in rest.Keys;
      }
    }
  }

  // ---- one round after the other ----

  /** All pairs of a node and a node that its successor skips. */
  ghost function Skips(n: nat, s: Net): set<(nat, nat)> {
    set x, z | x in s.admitted && x in s.peers && z in Skipped(n, s, x) :: (x, z)
  }

  lemma NearerSkips(n: nat, s: Net, s': Net, x: nat)
    requires Nearer(n, s, s', x) && s'.admitted == s.admitted
    ensures Skipped(n, s', x) <= Skipped(n, s, x)
  {
  }

  /** In a settled run the skipped nodes only become fewer. */
  lemma {:induction false} RunSkips(n: nat, seed: nat, run: seq<Net>, i: nat)
    requires SettledRun(n, seed, run) && i < |run|
    ensures Skips(n, run[i]) <= Skips(n, run[0])
  {
    hide Inv, Settled, SettledRun, Skipped, Nearer;
    if i > 0 {
      RunSkips(n, seed, run, i - 1);
      RunSettled(n, seed, run, i - 1);
      RunSettled(n, seed, run, i);
      forall x, z | (x, z) in Skips(n, run[i]) ensures (x, z) in Skips(n, run[i - 1]) {
        RunStepNearer(n, seed, run, x, i);
        NearerSkips(n, run[i - 1], run[i], x);
        NoPending(n, seed, run[i - 1], x);
      }
    }
  }

  /** x asks y. */
  lemma Asks(n: nat, s: Net, x: nat)
    requires n > 0 && s.net == [] && x in s.peers && s.peers[x].joined && s.peers[x].id == x != s.peers[x].succ
    ensures Quiet(n, s, Stabilise(x))
    ensures Next(n, 1, s, Stabilise(x)) == s.(net := [Packet(s.peers[x].succ, FindPredecessor(x))])
  {
  }

  /** y answers. */
  lemma Answers(n: nat, s: Net, x: nat, y: nat)
    requires n > 0 && s.net == [Packet(y, FindPredecessor(x))] && y in s.peers && s.peers[y].id == y != x
    ensures Quiet(n, s, Receive(0))
    ensures Next(n, 1, s, Receive(0)) == s.(net := [Packet(x, Predecessor(s.peers[y].pred))])
  {
    var h := Handle(n, s.peers[y], FindPredecessor(x));
    assert h == Handled(s.peers[y], [Packet(x, Predecessor(s.peers[y].pred))]);
    assert s.peers[y := s.peers[y]] == s.peers && RemoveAt(s.net, 0) == [] && s.admitted + {} == s.admitted;
  }

  /** From a settled network at rest, one undisturbed round of a node. */
  lemma OneRound(n: nat, seed: nat, s: Net, x: nat) returns (run: seq<Net>)
    requires Settled(n, seed, s) && s.net == [] && x in s.admitted && !Exact(n, s, x)
    ensures SettledRun(n, seed, run) && |run| == 4 && run[0] == s
    ensures CompletedRound(n, run, x, Round(0, 1, 2))
  {
    hide Inv, Adjacent, Next, Settled, PeerOk;
    SettledInv(n, seed, s);
    InexactIsJoined(n, seed, s, x);
    var y := s.peers[x].succ;
    NoPending(n, seed, s, x);
    NoPending(n, seed, s, y);
    OwnId(n, s, y);
    var s1 := Next(n, 1, s, Stabilise(x));
    Asks(n, s, x);
    var s2 := Next(n, 1, s1, Receive(0));
    Answers(n, s1, x, y);
    assert Quiet(n, s2, Receive(0));
    var s3 := Next(n, 1, s2, Receive(0));
    run := [s, s1, s2, s3];
    assert SettledStep(n, s, s1) && SettledStep(n, s1, s2) && SettledStep(n, s2, s3);
    assert Takes(n, run, 1, Packet(y, FindPredecessor(x)));
    assert Takes(n, run, 2, Packet(x, Predecessor(s.peers[y].pred)));
  }

  lemma OwnId(n: nat, s: Net, y: nat)
    requires y in s.peers && PeerOk(n, s, y)
    ensures s.peers[y].id == y
  {
  }

  lemma InexactIsJoined(n: nat, seed: nat, s: Net, x: nat)
    requires Settled(n, seed, s) && x in s.admitted && !Exact(n, s, x)
    ensures x in s.peers && s.peers[x].joined && s.peers[x].succ != x && s.peers[x].id == x
  {
    hide Ring, Counts;
    NoPending(n, seed, s, x);
    JoinedOrAlone(n, seed, s, x);
  }

  /** Such a round makes progress. */
  lemma RoundSkipsFewer(n: nat, seed: nat, run: seq<Net>, x: nat)
    requires SettledRun(n, seed, run) && |run| == 4 && x in run[0].admitted && !Exact(n, run[0], x)
    requires CompletedRound(n, run, x, Round(0, 1, 2))
    ensures Skips(n, run[3]) < Skips(n, run[0])
  {
    hide Inv, Settled, SettledRun, Skipped, CompletedRound, Adjacent;
    InPeers(n, seed, run, x);
    RoundProgress(n, seed, run, x, Round(0, 1, 2));
    ChangesAndSkips(n, seed, run, x, 3);
    RunSettled(n, seed, run, 0);
    RunSettled(n, seed, run, 3);
    ExactSkipsNobody(n, seed, run[0], x);
    ExactSkipsNobody(n, seed, run[3], x);
    RunSkips(n, seed, run, 3);
    assert |Skipped(n, run[3], x)| < |Skipped(n, run[0], x)|;
    if z :| z in Skipped(n, run[0], x) && z !in Skipped(n, run[3], x) {
      assert (x, z) in Skips(n, run[0]) && (x, z) !in Skips(n, run[3]);
    } else {
      Fewer(Skipped(n, run[0], x), Skipped(n, run[3], x));
    }
  }

  ghost predicate AllExact(n: nat, s: Net) {
    forall x <- s.admitted :: Exact(n, s, x)
  }

  lemma {:induction false} Rest(n: nat, seed: nat, s: Net) returns (run: seq<Net>)
    requires n > 0 && Inv(n, seed, s)
    ensures Steps(n, run) && run[0] == s && Settled(n, seed, Last(run)) && Last(run).net == []
  {
    hide Inv;
    var m := LongestTable(s.peers);
    run := Drain(n, seed, s, m);
  }

  /** From every settled state the ring can be completed. */
  lemma {:induction false} SettledConverges(n: nat, seed: nat, s: Net) returns (run: seq<Net>)
    requires Settled(n, seed, s) && s.net == []
    ensures SettledRun(n, seed, run) && run[0] == s && AllExact(n, Last(run)) && Last(run).net == []
    decreases |Skips(n, s)|
  {
    hide Inv, Settled, Skips, Exact, CompletedRound, SettledStep;
    if AllExact(n, s) {
      run := [s];
      Alone(n, s);
    } else {
      var x :| x in s.admitted && !Exact(n, s, x);
      var round := OneRound(n, seed, s, x);
      RoundSkipsFewer(n, seed, round, x);
      RunSettled(n, seed, round, 3);
      SettledInv(n, seed, round[3]);
      var quiet := Rest(n, seed, round[3]);
      RunSkips(n, seed, quiet, |quiet| - 1);
      StrictlyFewer(Skips(n, Last(quiet)), Skips(n, s));
      var more := SettledConverges(n, seed, Last(quiet));
      StepsJoin(n, quiet, more);
      StepsJoin(n, round, Joined(quiet, more));
      run := Joined(round, Joined(quiet, more));
    }
  }

  lemma Alone(n: nat, s: Net)
    ensures Steps(n, [s])
  {
  }

  lemma SettledInv(n: nat, seed: nat, s: Net)
    requires Settled(n, seed, s)
    ensures n > 0 && Inv(n, seed, s)
  {
  }

  /** Predecessors and successors are exactly the clockwise order of all admitted nodes. */
  ghost predicate Converged(n: nat, s: Net) {
    forall x <- s.admitted :: Exact(n, s, x) && Adjacent(n, s.admitted, s.peers[x].pred, x)
  }

  /** From every state of the invariant, joins under way or not, the ring can be completed without new joins. */
  lemma CanConverge(n: nat, seed: nat, s: Net) returns (run: seq<Net>)
    requires n > 0 && Inv(n, seed, s)
    ensures Steps(n, run) && run[0] == s && Last(run).net == [] && Converged(n, Last(run))
  {
    hide Inv, Settled, Adjacent;
    var quiet := Rest(n, seed, s);
    var more := SettledConverges(n, seed, Last(quiet));
    StepsJoin(n, quiet, more);
    run := Joined(quiet, more);
    RunSettled(n, seed, more, |more| - 1);
    forall x | x in Last(run).admitted ensures Exact(n, Last(run), x) && Adjacent(n, Last(run).admitted, Last(run).peers[x].pred, x) {
      NoPending(n, seed, Last(run), x);
    }
  }

  /** Every run of the joining network, however far, can be continued until all pointers are exact. */
  lemma RunsCanConverge(n: nat, size: nat, seed: nat, run: seq<Net>) returns (more: seq<Net>)
    requires Run(n, size, seed, run)
    ensures Run(n, size, seed, run + more) && Last(run + more).net == [] && Converged(n, Last(run + more))
  {
    hide Inv, Converged, SettledStep, Step;
    RunInv(n, size, seed, run, |run| - 1);
    var steps := CanConverge(n, seed, Last(run));
    more := steps[1..];
    var all, k := run + more, |run| - 1;
    forall j | 0 <= j < |all| - 1 ensures Step(n, size, all[j], all[j + 1]) {
      if j < k {
        assert Step(n, size, run[j], run[j + 1]);
      } else {
        assert SettledStep(n, steps[j - k], steps[j - k + 1]);
        QuietIsStep(n, size, steps[j - k], steps[j - k + 1]);
      }
    }
  }

  lemma QuietIsStep(n: nat, size: nat, s: Net, s': Net)
    requires n > 0 && SettledStep(n, s, s')
    ensures Step(n, size, s, s')
  {
    var act :| Quiet(n, s, act) && s' == Next(n, 1, s, act);
    assert s' == Next(n, size, s, act);
  }

  /** No continuation changes a successor. */
  ghost predicate Stable(n: nat, seed: nat, s: Net) {
    forall run: seq<Net> :: SettledRun(n, seed, run) && run[0] == s ==> SameSuccessors(s, Last(run))
  }

  predicate SameSuccessors(s: Net, s': Net) {
    forall x <- s.admitted :: x in s.peers && x in s'.peers && s'.peers[x].succ == s.peers[x].succ
  }

  /** A settled network in which no successor can change any more is exactly one in which all are exact. */
  lemma StableIsExact(n: nat, seed: nat, s: Net)
    requires Settled(n, seed, s)
    ensures Stable(n, seed, s) <==> AllExact(n, s)
  {
    hide Inv, Settled, Adjacent, SettledStep, Changes;
    if Stable(n, seed, s) {
      SettledInv(n, seed, s);
      var run := CanConverge(n, seed, s);
      RunSettled(n, seed, run, |run| - 1);
    }
    if AllExact(n, s) {
      forall run: seq<Net> | SettledRun(n, seed, run) && run[0] == s ensures SameSuccessors(s, Last(run)) {
        forall x | x in s.admitted
          ensures x in s.peers && x in Last(run).peers && Last(run).peers[x].succ == s.peers[x].succ
        {
          SuccessorsConverge(n, seed, run, x, |run| - 1);
        }
      }
    }
  }
}
