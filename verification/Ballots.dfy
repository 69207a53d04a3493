/**
 The vote of Sample3: every node casts rndNum votes for nodes of its choice, the votes
 travel like any unicast block, and the nodes share one record of who has been voted
 for by whom, of the largest tally and of the winners. Reaching the wanted number of
 winners halts the simulation at once.
 */
module BallotRecord {
  import opened Sums

  /** The shared fields of WSA: Votes, currMaxVotes, currWinners, winTimes. */
  datatype Board = Board(votes: seq<set<nat>>, maxVotes: nat, winners: nat, winTimes: seq<nat>, halted: bool)

  function Tally(): set<nat> -> nat {
    (voters: set<nat>) => |voters|
  }

  function Reaches(rqVotes: nat): set<nat> -> nat {
    (voters: set<nat>) => if |voters| >= rqVotes then 1 else 0
  }

  /** ProcessBlock for a vote of `voter` that has reached node `number`. */
  function Count(b: Board, rqVotes: nat, stopWinners: nat, number: nat, voter: nat, now: nat): Board
    requires number < |b.votes| && (b.winners < |b.winTimes| || b.halted)
  {
    if b.halted || voter in b.votes[number] then b
    else
      var votes := b.votes[number := b.votes[number] + {voter}];
      var sz := |votes[number]|;
      var b' := b.(votes := votes, maxVotes := if sz > b.maxVotes then sz else b.maxVotes);
      if sz == rqVotes then
        b'.(winTimes := b.winTimes[b.winners := now], winners := b.winners + 1, halted := b.winners + 1 == stopWinners)
      else b'
  }

  /** What the record says about itself at any moment. */
  ghost predicate Consistent(b: Board, rqVotes: nat, stopWinners: nat, now: nat) {
    && |b.winTimes| == stopWinners
    && (forall i :: 0 <= i < |b.votes| ==> |b.votes[i]| <= b.maxVotes)
    && (b.maxVotes == 0 || exists i :: 0 <= i < |b.votes| && |b.votes[i]| == b.maxVotes)
    && b.winners == Sum(Reaches(rqVotes), b.votes)
    && b.winners <= stopWinners && (b.halted <==> b.winners == stopWinners)
    && (forall i :: 0 <= i < b.winners ==> b.winTimes[i] <= now)
    && (forall i, j :: 0 <= i <= j < b.winners ==> b.winTimes[i] <= b.winTimes[j])
  }

  lemma CountConsistent(b: Board, rqVotes: nat, stopWinners: nat, number: nat, voter: nat, now: nat)
    requires Consistent(b, rqVotes, stopWinners, now) && rqVotes >= 1 && number < |b.votes|
    ensures b.winners < |b.winTimes| || b.halted
    ensures Consistent(Count(b, rqVotes, stopWinners, number, voter, now), rqVotes, stopWinners, now)
  {
    hide Sum;
    var voters := b.votes[number] + {voter};
    if !b.halted && voter !in b.votes[number] {
      SumUpdate(Reaches(rqVotes), b.votes, number, voters);
      MaxMoves(b, number, voters);
    }
  }

  /** The largest tally after one of them has grown by one. */
  lemma MaxMoves(b: Board, number: nat, voters: set<nat>)
    requires number < |b.votes| && |voters| == |b.votes[number]| + 1
    requires forall i :: 0 <= i < |b.votes| ==> |b.votes[i]| <= b.maxVotes
    requires b.maxVotes == 0 || exists i :: 0 <= i < |b.votes| && |b.votes[i]| == b.maxVotes
    ensures var votes, m := b.votes[number := voters], if |voters| > b.maxVotes then |voters| else b.maxVotes;
            && (forall i :: 0 <= i < |votes| ==> |votes[i]| <= m)
            && (exists i :: 0 <= i < |votes| && |votes[i]| == m)
  {
    var votes := b.votes[number := voters];
    if |voters| > b.maxVotes {
      assert |votes[number]| == |voters|;
    } else {
      var i :| 0 <= i < |b.votes| && |b.votes[i]| == b.maxVotes;
      if i == number {
        assert false;
      }
      assert |votes[i]| == b.maxVotes;
    }
  }

  lemma CountTallies(b: Board, rqVotes: nat, stopWinners: nat, number: nat, voter: nat, now: nat)
    requires number < |b.votes| && (b.winners < |b.winTimes| || b.halted)
    ensures var b' := Count(b, rqVotes, stopWinners, number, voter, now);
            && |b'.votes| == |b.votes|
            && Sum(Tally(), b'.votes) <= Sum(Tally(), b.votes) + 1
            && forall i :: 0 <= i < |b.votes| ==> b'.votes[i] <= b.votes[i] + (if i == number then {voter} else {})
  {
    hide Sum;
    SumUpdate(Tally(), b.votes, number, b.votes[number] + {voter});
  }

  /** Winners need rqVotes different voters each. */
  lemma {:induction false} WinnersBelowTallies(votes: seq<set<nat>>, rqVotes: nat)
    ensures Sum(Reaches(rqVotes), votes) * rqVotes <= Sum(Tally(), votes)
  {
    if votes != [] {
      WinnersBelowTallies(votes[1..], rqVotes);
      var w := Sum(Reaches(rqVotes), votes[1..]);
      assert (w + 1) * rqVotes == w * rqVotes + rqVotes;
    }
  }

  class Record {
    const rqVotes: nat
    const stopWinners: nat
    const votes: array<set<nat>>
    var currMaxVotes: nat
    var currWinners: nat
    const winTimes: array<nat>
    var stopped: bool

    function Value(): Board
      reads this, votes, winTimes
    {
      Board(votes[..], currMaxVotes, currWinners, winTimes[..], stopped)
    }

    constructor (mnum: nat, rqVotes: nat, stopWinners: nat)
      requires rqVotes >= 1 && stopWinners >= 1
      ensures fresh(votes) && fresh(winTimes) && votes.Length == mnum
      ensures this.rqVotes == rqVotes && this.stopWinners == stopWinners
      ensures (forall i :: 0 <= i < mnum ==> votes[i] == {}) && Consistent(Value(), rqVotes, stopWinners, 0)
    {
      this.rqVotes, this.stopWinners := rqVotes, stopWinners;
      votes := new set<nat>[mnum](i => {});
      winTimes := new nat[stopWinners](i => 0);
      currMaxVotes, currWinners, stopped := 0, 0, false;
      new;
      NobodyReaches(votes[..], rqVotes);
    }

    /** Mnode::ProcessBlock of node `number`; sc_stop ends the run at once. */
    method ProcessBlock(number: nat, voter: nat, now: nat)
      requires number < votes.Length && Consistent(Value(), rqVotes, stopWinners, now) && rqVotes >= 1 && !stopped
      modifies this, votes, winTimes
      ensures old(currWinners) < winTimes.Length
      ensures Value() == Count(old(Value()), rqVotes, stopWinners, number, voter, now)
      ensures Consistent(Value(), rqVotes, stopWinners, now)
      ensures votes[number] == old(votes[number]) + {voter}
      ensures forall p :: 0 <= p < votes.Length && p != number ==> votes[p] == old(votes[p])
      ensures var wins := voter !in old(votes[number]) && |votes[number]| == rqVotes;
              && currWinners == old(currWinners) + (if wins then 1 else 0)
              && (wins ==> winTimes[old(currWinners)] == now)
              && forall i :: 0 <= i < winTimes.Length && !(wins && i == old(currWinners)) ==> winTimes[i] == old(winTimes[i])
      ensures stopped <==> currWinners == stopWinners
    {
      hide Consistent, Sum;
      CountConsistent(Value(), rqVotes, stopWinners, number, voter, now);
      ConsistentStops(Value(), rqVotes, stopWinners, now);
      if voter !in votes[number] {
        votes[number] := votes[number] + {voter};
        var sz := |votes[number]|;
        if sz > currMaxVotes {
          currMaxVotes := sz;
        }
        if sz == rqVotes {
          winTimes[currWinners] := now;
          currWinners := currWinners + 1;
          if currWinners == stopWinners {
            stopped := true;
          }
        }
      }
    }

    /** The recount in the destructor of WSA. */
    method Recount() returns (totalDifferentVotes: nat, totalOverRq: nat)
      ensures totalDifferentVotes == Sum(Tally(), votes[..])
      ensures totalOverRq == Sum(Reaches(rqVotes), votes[..])
    {
      hide Sum;
      totalDifferentVotes, totalOverRq := 0, 0;
      EmptySums(rqVotes);
      for i := 0 to votes.Length
        invariant totalDifferentVotes == Sum(Tally(), votes[..i])
        invariant totalOverRq == Sum(Reaches(rqVotes), votes[..i])
      {
        assert votes[..i + 1] == votes[..i] + [votes[i]];
        SumAppend(Tally(), votes[..i], [votes[i]]);
        SumAppend(Reaches(rqVotes), votes[..i], [votes[i]]);
        SumOne(Tally(), votes[i]);
        SumOne(Reaches(rqVotes), votes[i]);
        if |votes[i]| >= rqVotes {
          totalOverRq := totalOverRq + 1;
        }
        totalDifferentVotes := totalDifferentVotes + |votes[i]|;
      }
      assert votes[..votes.Length] == votes[..];
    }
  }

  lemma ConsistentStops(b: Board, rqVotes: nat, stopWinners: nat, now: nat)
    requires Consistent(b, rqVotes, stopWinners, now)
    ensures b.halted <==> b.winners == stopWinners
  {
  }

  lemma EmptySums(rqVotes: nat)
    ensures Sum(Tally(), []) == 0 && Sum(Reaches(rqVotes), []) == 0
  {
  }

  lemma {:induction false} NobodyReaches(votes: seq<set<nat>>, rqVotes: nat)
    requires rqVotes >= 1 && forall v <- votes :: v == {}
    ensures Sum(Reaches(rqVotes), votes) == 0 && Sum(Tally(), votes) == 0
  {
    if votes != [] {
      assert votes[0] in votes && forall v <- votes[1..] :: v in votes;
      NobodyReaches(votes[1..], rqVotes);
    }
  }
}

/** The whole vote as a transition system: casting, hopping and counting in any order. */
module Ballots {
  import opened RingArithmetic
  import opened Routing
  import opened Sums
  import opened BallotRecord

  /** choices[r] are the votes node r will cast, in order. */
  datatype Config = Config(mnum: nat, rndNum: nat, rqVotes: nat, stopWinners: nat, choices: seq<seq<nat>>)

  predicate ValidConfig(c: Config) {
    && c.rqVotes >= 1 && c.stopWinners >= 1
    && |c.choices| == c.mnum
    && forall ch <- c.choices :: |ch| == c.rndNum && forall v <- ch :: v < c.mnum
  }

  /** A vote of node R for node P, in the queue of node at. */
  datatype Vote = Vote(at: nat, P: nat, R: nat)

  /** cast[r] is how many votes node r has sent. */
  datatype State = State(board: Board, cast: seq<nat>, net: seq<Vote>, now: nat)

  datatype Action = Cast(r: nat, time: nat) | Arrive(i: nat, time: nat)

  function Init(c: Config): State {
    State(Board(seq(c.mnum, i => {}), 0, 0, seq(c.stopWinners, i => 0), false), seq(c.mnum, i => 0), [], 0)
  }

  predicate Shape(c: Config, s: State) {
    && |s.board.votes| == c.mnum && |s.cast| == c.mnum
    && (s.board.winners < |s.board.winTimes| || s.board.halted)
    && (forall r :: 0 <= r < c.mnum ==> s.cast[r] <= c.rndNum)
    && forall v <- s.net :: v.at < c.mnum && v.P < c.mnum && v.R < c.mnum
  }

  /** Simulated time does not run backwards, and nothing happens after sc_stop. */
  predicate Enabled(c: Config, s: State, act: Action) {
    && !s.board.halted && s.now <= act.time
    && match act
       case Cast(r, _) => r < |s.cast| && s.cast[r] < c.rndNum
       case Arrive(i, _) => i < |s.net|
  }

  /** ProcessRoutingBlock of node v.at: count the vote, or pass it on. */
  function Route(c: Config, s: State, v: Vote): State
    requires Shape(c, s) && v.at < c.mnum && v.P < c.mnum
  {
    if v.P == v.at then s.(board := Count(s.board, c.rqVotes, c.stopWinners, v.P, v.R, s.now))
    else s.(net := s.net + [Vote(NextHop(c.mnum, v.at, v.P), v.P, v.R)])
  }

  function Next(c: Config, s: State, act: Action): State
    requires ValidConfig(c) && Shape(c, s) && Enabled(c, s, act)
  {
    match act
    case Cast(r, t) =>
      assert c.choices[r] in c.choices && c.choices[r][s.cast[r]] in c.choices[r];
      Route(c, s.(cast := s.cast[r := s.cast[r] + 1], now := t), Vote(r, c.choices[r][s.cast[r]], r))
    case Arrive(i, t) =>
      assert s.net[i] in s.net;
      Route(c, s.(net := RemoveAt(s.net, i), now := t), s.net[i])
  }

  ghost predicate Step(c: Config, s: State, s': State) {
    && ValidConfig(c) && Shape(c, s)
    && exists act :: Enabled(c, s, act) && s' == Next(c, s, act)
  }

  ghost predicate Run(c: Config, run: seq<State>) {
    && ValidConfig(c) && |run| > 0 && run[0] == Init(c)
    && forall j :: 0 <= j < |run| - 1 ==> Step(c, run[j], run[j + 1])
  }

  // ---- what every state satisfies ----

  /** Node r has cast a vote for p. */
  predicate HasCast(c: Config, s: State, r: nat, p: nat)
    requires |c.choices| == c.mnum == |s.cast|
  {
    r < c.mnum && s.cast[r] <= |c.choices[r]| && p in c.choices[r][..s.cast[r]]
  }

  function Self(): nat -> nat {
    k => k
  }

  /** Recorded voters and votes under way are votes that were cast. */
  ghost predicate OnlyCastVotes(c: Config, s: State)
    requires |c.choices| == c.mnum == |s.cast| && |s.board.votes| == c.mnum
  {
    && (forall p, r {:trigger r in s.board.votes[p]} ::
          0 <= p < c.mnum && r in s.board.votes[p] ==> HasCast(c, s, r, p))
    && (forall v <- s.net :: HasCast(c, s, v.R, v.P))
  }

  ghost predicate Recorded(c: Config, s: State) {
    && ValidConfig(c) && Shape(c, s)
    && Consistent(s.board, c.rqVotes, c.stopWinners, s.now)
    && OnlyCastVotes(c, s)
  }

  /** No more votes are recorded or under way than were cast. */
  ghost predicate Inv(c: Config, s: State) {
    Recorded(c, s) && Sum(Tally(), s.board.votes) + |s.net| <= Sum(Self(), s.cast)
  }

  /** The invariant with one vote in hand, on its way to Route. */
  ghost predicate InHand(c: Config, s: State, v: Vote) {
    && Recorded(c, s) && v.at < c.mnum && v.P < c.mnum && v.R < c.mnum
    && HasCast(c, s, v.R, v.P)
    && Sum(Tally(), s.board.votes) + |s.net| + 1 <= Sum(Self(), s.cast)
  }

  lemma RouteInv(c: Config, s: State, v: Vote)
    requires InHand(c, s, v)
    ensures Inv(c, Route(c, s, v))
  {
    hide Sum, HasCast, NextHop, Consistent;
    if v.P == v.at {
      CountConsistent(s.board, c.rqVotes, c.stopWinners, v.P, v.R, s.now);
      CountTallies(s.board, c.rqVotes, c.stopWinners, v.P, v.R, s.now);
      ConsistentShape(Route(c, s, v).board, c.rqVotes, c.stopWinners, s.now);
      CountedVotes(c, s, v);
    } else {
      SameCasts(c, s, Route(c, s, v));
    }
  }

  lemma ConsistentShape(b: Board, rqVotes: nat, stopWinners: nat, now: nat)
    requires Consistent(b, rqVotes, stopWinners, now)
    ensures b.winners < |b.winTimes| || b.halted
  {
  }

  lemma CountedVotes(c: Config, s: State, v: Vote)
    requires InHand(c, s, v) && v.P == v.at
    ensures |Route(c, s, v).board.votes| == c.mnum && OnlyCastVotes(c, Route(c, s, v))
  {
    hide Sum, HasCast, Consistent, Count;
    var s' := Route(c, s, v);
    CountTallies(s.board, c.rqVotes, c.stopWinners, v.P, v.R, s.now);
    SameCasts(c, s, s');
    forall p, r | 0 <= p < c.mnum && r in s'.board.votes[p] ensures HasCast(c, s', r, p) {
      assert r in s.board.votes[p] || (p == v.P && r == v.R);
    }
  }

  lemma SameCasts(c: Config, s: State, s': State)
    requires |c.choices| == c.mnum == |s.cast| && s'.cast == s.cast
    ensures forall r, p :: HasCast(c, s', r, p) == HasCast(c, s, r, p)
  {
  }

  lemma LaterConsistent(b: Board, rqVotes: nat, stopWinners: nat, now: nat, later: nat)
    requires Consistent(b, rqVotes, stopWinners, now) && now <= later
    ensures Consistent(b, rqVotes, stopWinners, later)
  {
  }

  lemma MoreCast(c: Config, s: State, r: nat)
    requires ValidConfig(c) && Shape(c, s) && r < c.mnum && s.cast[r] < c.rndNum
    ensures var s' := s.(cast := s.cast[r := s.cast[r] + 1]);
            && |c.choices[r]| == c.rndNum
            && HasCast(c, s', r, c.choices[r][s.cast[r]])
            && forall q, p :: HasCast(c, s, q, p) ==> HasCast(c, s', q, p)
  {
    assert c.choices[r] in c.choices;
    var s' := s.(cast := s.cast[r := s.cast[r] + 1]);
    assert c.choices[r][..s.cast[r] + 1] == c.choices[r][..s.cast[r]] + [c.choices[r][s.cast[r]]];
  }

  lemma NextInv(c: Config, s: State, act: Action)
    requires Inv(c, s) && Enabled(c, s, act)
    ensures Inv(c, Next(c, s, act))
  {
    hide Sum, HasCast, Consistent, Count, NextHop;
    LaterConsistent(s.board, c.rqVotes, c.stopWinners, s.now, act.time);
    match act
    case Cast(r, t) =>
      MoreCast(c, s, r);
      assert c.choices[r] in c.choices && c.choices[r][s.cast[r]] in c.choices[r];
      SumUpdate(Self(), s.cast, r, s.cast[r] + 1);
      var cast := s.(cast := s.cast[r := s.cast[r] + 1]);
      SameCasts(c, cast, cast.(now := t));
      RouteInv(c, cast.(now := t), Vote(r, c.choices[r][s.cast[r]], r));
    case Arrive(i, t) =>
      var s1 := s.(net := RemoveAt(s.net, i), now := t);
      SameCasts(c, s, s1);
      assert s.net[i] in s.net;
      RouteInv(c, s1, s.net[i]);
  }

  lemma {:induction false} ZeroSum(s: seq<nat>)
    requires forall x <- s :: x == 0
    ensures Sum(Self(), s) == 0
  {
    if s != [] {
      assert s[0] in s && forall x <- s[1..] :: x in s;
      ZeroSum(s[1..]);
    }
  }

  lemma InitInv(c: Config)
    requires ValidConfig(c)
    ensures Inv(c, Init(c))
  {
    hide Sum;
    var s := Init(c);
    NobodyReaches(s.board.votes, c.rqVotes);
    ZeroSum(s.cast);
  }

  lemma {:induction false} RunInv(c: Config, run: seq<State>, i: nat)
    requires Run(c, run) && i < |run|
    ensures Inv(c, run[i])
  {
    hide Inv, Next, Enabled;
    if i == 0 {
      InitInv(c);
    } else {
      RunInv(c, run, i - 1);
      assert Step(c, run[i - 1], run[i - 1 + 1]);
      var act :| Enabled(c, run[i - 1], act) && run[i] == Next(c, run[i - 1], act);
      NextInv(c, run[i - 1], act);
    }
  }

  lemma {:induction false} CastsBounded(s: seq<nat>, k: nat)
    requires forall x <- s :: x <= k
    ensures Sum(Self(), s) <= |s| * k
  {
    if s != [] {
      assert s[0] in s && forall x <- s[1..] :: x in s;
      CastsBounded(s[1..], k);
      assert |s| * k == (|s| - 1) * k + k;
    }
  }

  /**
   In every reachable state: the votes recorded for a node come from nodes that voted
   for it; the largest tally and the number of winners are what a recount gives; win
   times never decrease; and there are never more winners than the votes allow.
   */
  lemma VotesAreRight(c: Config, run: seq<State>, i: nat)
    requires Run(c, run) && i < |run|
    ensures var s := run[i];
            && |s.board.votes| == c.mnum == |s.cast| && |c.choices| == c.mnum
            && OnlyCastVotes(c, s)
            && Consistent(s.board, c.rqVotes, c.stopWinners, s.now)
            && s.board.winners * c.rqVotes <= c.mnum * c.rndNum
  {
    hide Sum, HasCast, Run;
    RunInv(c, run, i);
    var s := run[i];
    WinnersBelowTallies(s.board.votes, c.rqVotes);
    CastsBounded(s.cast, c.rndNum);
  }

  // ---- every vote is recorded or under way ----

  predicate UnderWay(s: State, r: nat, p: nat) {
    exists v <- s.net :: v.R == r && v.P == p
  }

  /** Node r's vote for p has been recorded, or is on its way. */
  predicate Accounted(s: State, r: nat, p: nat)
    requires p < |s.board.votes|
  {
    r in s.board.votes[p] || UnderWay(s, r, p)
  }

  ghost predicate AllAccounted(c: Config, s: State)
    requires |c.choices| == c.mnum == |s.cast| && |s.board.votes| == c.mnum
  {
    forall r: nat, p: nat {:trigger HasCast(c, s, r, p)} :: p < c.mnum && HasCast(c, s, r, p) ==> Accounted(s, r, p)
  }

  /** Counting a vote, or passing it on, accounts for it and loses no other. */
  lemma RouteAccounts(c: Config, s: State, v: Vote, r: nat, p: nat)
    requires Shape(c, s) && !s.board.halted && v.at < c.mnum && v.P < c.mnum && p < c.mnum
    requires Accounted(s, r, p) || (r == v.R && p == v.P)
    ensures |Route(c, s, v).board.votes| == c.mnum && Accounted(Route(c, s, v), r, p)
  {
    hide NextHop;
    var s' := Route(c, s, v);
    if v.P == v.at {
      assert s.board.votes[p] <= s'.board.votes[p];
    } else {
      assert forall q <- s.net :: q in s'.net;
      assert s'.net[|s.net|] in s'.net;
    }
  }

  /** A vote that is cast is the next one of its node. */
  lemma CastBefore(c: Config, s: State, r: nat, q: nat, p: nat)
    requires ValidConfig(c) && Shape(c, s) && r < c.mnum && s.cast[r] < c.rndNum
    requires HasCast(c, s.(cast := s.cast[r := s.cast[r] + 1]), q, p)
    ensures |c.choices[r]| == c.rndNum
    ensures HasCast(c, s, q, p) || (q == r && p == c.choices[r][s.cast[r]])
  {
    assert c.choices[r] in c.choices;
    assert c.choices[r][..s.cast[r] + 1] == c.choices[r][..s.cast[r]] + [c.choices[r][s.cast[r]]];
  }

  lemma RouteKeepsCast(c: Config, s: State, v: Vote)
    requires Shape(c, s) && v.at < c.mnum && v.P < c.mnum
    ensures Route(c, s, v).cast == s.cast && |Route(c, s, v).board.votes| == c.mnum
  {
    hide NextHop;
  }

  lemma RemovedAccounts(s: State, i: nat, t: nat, r: nat, p: nat)
    requires i < |s.net| && p < |s.board.votes| && Accounted(s, r, p)
    ensures Accounted(s.(net := RemoveAt(s.net, i), now := t), r, p) || (r == s.net[i].R && p == s.net[i].P)
  {
    if r !in s.board.votes[p] {
      var v :| v in s.net && v.R == r && v.P == p;
      assert v == s.net[i] || v in RemoveAt(s.net, i);
    }
  }

  lemma NextAccounts(c: Config, s: State, act: Action)
    requires Inv(c, s) && Enabled(c, s, act) && AllAccounted(c, s)
    ensures Inv(c, Next(c, s, act)) && AllAccounted(c, Next(c, s, act))
  {
    hide Sum, HasCast, Accounted, Consistent, Count, Route;
    NextInv(c, s, act);
    var s' := Next(c, s, act);
    match act
    case Cast(k, t) =>
      assert c.choices[k] in c.choices && c.choices[k][s.cast[k]] in c.choices[k];
      var cast := s.(cast := s.cast[k := s.cast[k] + 1]);
      var v := Vote(k, c.choices[k][s.cast[k]], k);
      RouteKeepsCast(c, cast.(now := t), v);
      SameCasts(c, cast, s');
      forall r: nat, p: nat | p < c.mnum && HasCast(c, s', r, p) ensures Accounted(s', r, p) {
        CastBefore(c, s, k, r, p);
        AccountedSame(s, cast.(now := t), r, p);
        RouteAccounts(c, cast.(now := t), v, r, p);
      }
    case Arrive(i, t) =>
      var s1 := s.(net := RemoveAt(s.net, i), now := t);
      assert s.net[i] in s.net;
      RouteKeepsCast(c, s1, s.net[i]);
      SameCasts(c, s, s');
      forall r: nat, p: nat | p < c.mnum && HasCast(c, s', r, p) ensures Accounted(s', r, p) {
        RemovedAccounts(s, i, t, r, p);
        RouteAccounts(c, s1, s.net[i], r, p);
      }
  }

  lemma AccountedSame(s: State, s': State, r: nat, p: nat)
    requires s'.board == s.board && s'.net == s.net && p < |s.board.votes|
    ensures Accounted(s', r, p) == Accounted(s, r, p)
  {
  }

  lemma {:induction false} RunAccounts(c: Config, run: seq<State>, i: nat)
    requires Run(c, run) && i < |run|
    ensures Inv(c, run[i]) && AllAccounted(c, run[i])
  {
    hide Inv, Next, Enabled;
    RunInv(c, run, i);
    if i == 0 {
      NothingCast(c);
    } else {
      RunAccounts(c, run, i - 1);
      assert Step(c, run[i - 1], run[i - 1 + 1]);
      var act :| Enabled(c, run[i - 1], act) && run[i] == Next(c, run[i - 1], act);
      NextAccounts(c, run[i - 1], act);
    }
  }

  lemma NothingCast(c: Config)
    requires ValidConfig(c)
    ensures AllAccounted(c, Init(c))
  {
  }

  /** The nodes that have chosen p. */
  ghost function Voters(c: Config, p: nat): set<nat> {
    set r | 0 <= r < |c.choices| && p in c.choices[r]
  }

  /**
   In every reachable state a vote has been cast exactly if it is recorded or on its way.
   A run that cannot be continued was halted, or every node's record holds exactly the
   nodes that chose it; so the winners are the nodes chosen by rqVotes different nodes.
   */
  lemma VotesAreComplete(c: Config, run: seq<State>, i: nat, p: nat)
    requires Run(c, run) && i < |run| && p < c.mnum
    ensures var s := run[i];
            && |s.board.votes| == c.mnum == |s.cast| && |c.choices| == c.mnum
            && (forall r: nat :: HasCast(c, s, r, p) <==> Accounted(s, r, p))
            && (!s.board.halted && (forall act :: !Enabled(c, s, act)) ==> s.board.votes[p] == Voters(c, p))
  {
    hide Sum, HasCast, Run, Consistent, Accounted;
    RunAccounts(c, run, i);
    var s := run[i];
    forall r: nat ensures HasCast(c, s, r, p) <==> Accounted(s, r, p) {
      if Accounted(s, r, p) {
        OnlyCastAccounted(c, s, r, p);
      }
    }
    if !s.board.halted && forall act :: !Enabled(c, s, act) {
      StuckIsComplete(c, s, p);
    }
  }

  lemma OnlyCastAccounted(c: Config, s: State, r: nat, p: nat)
    requires Recorded(c, s) && p < c.mnum && Accounted(s, r, p)
    ensures HasCast(c, s, r, p)
  {
    hide HasCast, Consistent;
    if r in s.board.votes[p] {
      assert r in s.board.votes[p];
    } else {
      var v :| v in s.net && v.R == r && v.P == p;
    }
  }

  lemma StuckIsComplete(c: Config, s: State, p: nat)
    requires Recorded(c, s) && AllAccounted(c, s) && p < c.mnum
    requires !s.board.halted && forall act :: !Enabled(c, s, act)
    ensures s.board.votes[p] == Voters(c, p)
  {
    hide Consistent;
    assert s.net == [] by {
      assert !Enabled(c, s, Arrive(0, s.now));
    }
    forall r: nat ensures r in s.board.votes[p] <==> r in Voters(c, p) {
      if r < c.mnum {
        assert !Enabled(c, s, Cast(r, s.now));
        assert c.choices[r] in c.choices && c.choices[r][..s.cast[r]] == c.choices[r];
      }
      if r in s.board.votes[p] {
        assert HasCast(c, s, r, p);
      }
      if r in Voters(c, p) {
        assert HasCast(c, s, r, p);
      }
    }
  }

  // ---- every run ends ----

  /** The hops a vote has still to make, and its counting. */
  function Way(n: nat): Vote -> nat {
    (v: Vote) => if v.at < n && v.P < n then 1 + Dist(n, v.at, v.P) else 0
  }

  /** The votes not yet cast, and the ways of those under way. */
  ghost function Work(c: Config, s: State): int {
    (c.mnum * c.rndNum - Sum(Self(), s.cast)) * (c.mnum + 1) + Sum(Way(c.mnum), s.net)
  }

  lemma RouteShortens(c: Config, s: State, v: Vote)
    requires Shape(c, s) && v.at < c.mnum && v.P < c.mnum
    ensures Sum(Way(c.mnum), Route(c, s, v).net) < Sum(Way(c.mnum), s.net) + Way(c.mnum)(v)
    ensures Route(c, s, v).cast == s.cast
  {
    hide Sum, NextHop;
    if v.P != v.at {
      var v' := Vote(NextHop(c.mnum, v.at, v.P), v.P, v.R);
      SumAppend(Way(c.mnum), s.net, [v']);
      SumOne(Way(c.mnum), v');
      HopShortens(c.mnum, v.at, v.P);
    }
  }

  lemma HopShortens(n: nat, at: nat, P: nat)
    requires at < n && P < n && at != P
    ensures NextHop(n, at, P) < n && Dist(n, NextHop(n, at, P), P) < Dist(n, at, P)
  {
  }

  lemma NextWork(c: Config, s: State, act: Action)
    requires Inv(c, s) && Enabled(c, s, act)
    ensures Work(c, Next(c, s, act)) < Work(c, s)
  {
    hide Inv, Next, Work, Enabled;
    match act
    case Cast(r, t) => CastWork(c, s, r, t);
    case Arrive(i, t) => ArriveWork(c, s, i, t);
  }

  lemma CastWork(c: Config, s: State, r: nat, t: nat)
    requires Inv(c, s) && Enabled(c, s, Cast(r, t))
    ensures Work(c, Next(c, s, Cast(r, t))) < Work(c, s)
  {
    hide Sum, Consistent, OnlyCastVotes, Count, Route, NextHop;
    var s' := Next(c, s, Cast(r, t));
    assert c.choices[r] in c.choices && c.choices[r][s.cast[r]] in c.choices[r];
    SumUpdate(Self(), s.cast, r, s.cast[r] + 1);
    var cast := s.(cast := s.cast[r := s.cast[r] + 1], now := t);
    RouteShortens(c, cast, Vote(r, c.choices[r][s.cast[r]], r));
    LessByOne(c.mnum * c.rndNum - Sum(Self(), s.cast), c.mnum + 1);
    assert Sum(Self(), s'.cast) == Sum(Self(), s.cast) + 1;
  }

  lemma ArriveWork(c: Config, s: State, i: nat, t: nat)
    requires Inv(c, s) && Enabled(c, s, Arrive(i, t))
    ensures Work(c, Next(c, s, Arrive(i, t))) < Work(c, s)
  {
    hide Sum, Consistent, OnlyCastVotes, Count, Route, NextHop;
    assert s.net[i] in s.net;
    SumRemove(Way(c.mnum), s.net, i);
    RouteShortens(c, s.(net := RemoveAt(s.net, i), now := t), s.net[i]);
  }

  lemma LessByOne(a: int, b: int)
    ensures (a - 1) * b == a * b - b
  {
  }

  lemma {:induction false} RunWork(c: Config, run: seq<State>, i: nat)
    requires Run(c, run) && i < |run|
    ensures Work(c, run[i]) + i <= Work(c, run[0])
  {
    hide Inv, Next, Enabled, Work;
    if i > 0 {
      RunWork(c, run, i - 1);
      RunInv(c, run, i - 1);
      assert Step(c, run[i - 1], run[i - 1 + 1]);
      var act :| Enabled(c, run[i - 1], act) && run[i] == Next(c, run[i - 1], act);
      NextWork(c, run[i - 1], act);
    }
  }

  /** Every run, in any order of steps, is at most this long. */
  lemma VotingTerminates(c: Config, run: seq<State>)
    requires Run(c, run)
    ensures |run| - 1 <= c.mnum * c.rndNum * (c.mnum + 1)
  {
    hide Sum, Step, Inv, Recorded;
    var last := |run| - 1;
    RunWork(c, run, last);
    RunInv(c, run, last);
    WorkIsNat(c, run[last]);
    assert run[0] == Init(c);
    ZeroSum(Init(c).cast);
    NoWay(c);
  }

  lemma NoWay(c: Config)
    ensures Sum(Way(c.mnum), []) == 0
  {
  }

  lemma WorkIsNat(c: Config, s: State)
    requires Inv(c, s)
    ensures Work(c, s) >= 0
  {
    hide Sum, Consistent, OnlyCastVotes;
    CastsBounded(s.cast, c.rndNum);
    Product(c.mnum * c.rndNum - Sum(Self(), s.cast), c.mnum + 1);
  }

  lemma Product(a: nat, b: nat)
    ensures a * b >= 0
  {
  }

  // ---- when a node has won ----

  /** In the step from s to s' at a certain moment, a node becomes winner number i. */
  ghost predicate WinsAt(c: Config, s: State, s': State, i: nat, time: nat) {
    && ValidConfig(c) && Shape(c, s)
    && (exists act :: Enabled(c, s, act) && act.time == time && s' == Next(c, s, act))
    && s.board.winners == i && s'.board.winners == i + 1
  }

  /** A vote adds at most one winner, with the present moment as its time, and leaves all earlier ones alone. */
  lemma CountWins(b: Board, rqVotes: nat, stopWinners: nat, number: nat, voter: nat, now: nat)
    requires number < |b.votes| && (b.winners < |b.winTimes| || b.halted)
    ensures var b' := Count(b, rqVotes, stopWinners, number, voter, now);
            && |b'.winTimes| == |b.winTimes| && b.winners <= b'.winners <= b.winners + 1
            && (forall i :: 0 <= i < |b.winTimes| && i != b.winners ==> b'.winTimes[i] == b.winTimes[i])
            && (b'.winners > b.winners ==> b.winners < |b.winTimes| && b'.winTimes[b.winners] == now)
            && (b'.winners == b.winners ==> b'.winTimes == b.winTimes)
            && (b'.winners > b.winners <==>
                  !b.halted && voter !in b.votes[number] && |b.votes[number] + {voter}| == rqVotes)
  {
  }

  lemma NextWins(c: Config, s: State, act: Action)
    requires Inv(c, s) && Enabled(c, s, act)
    ensures var b, b' := s.board, Next(c, s, act).board;
            && |b'.winTimes| == |b.winTimes| && b.winners <= b'.winners <= b.winners + 1
            && (forall i :: 0 <= i < |b.winTimes| && i != b.winners ==> b'.winTimes[i] == b.winTimes[i])
            && (b'.winners > b.winners ==> b.winners < |b.winTimes| && b'.winTimes[b.winners] == act.time)
  {
    hide Sum, Count, NextHop, Consistent, OnlyCastVotes;
    match act
    case Cast(r, t) =>
      assert c.choices[r] in c.choices && c.choices[r][s.cast[r]] in c.choices[r];
      CountWins(s.board, c.rqVotes, c.stopWinners, c.choices[r][s.cast[r]], r, t);
    case Arrive(i, t) =>
      assert s.net[i] in s.net;
      CountWins(s.board, c.rqVotes, c.stopWinners, s.net[i].P, s.net[i].R, t);
  }

  /** The time recorded for winner number i is the moment of the step in which there came to be i + 1 winners. */
  lemma {:induction false} WinTimesAreMoments(c: Config, run: seq<State>, k: nat, i: nat) returns (j: nat)
    requires Run(c, run) && k < |run| && i < run[k].board.winners
    ensures i < |run[k].board.winTimes| && j < k
    ensures WinsAt(c, run[j], run[j + 1], i, run[k].board.winTimes[i])
  {
    hide Inv, Next, Enabled, Shape, Run;
    RunStart(c, run);
    RunInv(c, run, k);
    InvWinners(c, run[k]);
    if k == 0 {
      assert false;
    } else {
      RunInv(c, run, k - 1);
      RunStep(c, run, k - 1);
      var act :| Enabled(c, run[k - 1], act) && run[k] == Next(c, run[k - 1], act);
      NextWins(c, run[k - 1], act);
      if i < run[k - 1].board.winners {
        j := WinTimesAreMoments(c, run, k - 1, i);
      } else {
        j := k - 1;
      }
    }
  }

  lemma RunStart(c: Config, run: seq<State>)
    requires Run(c, run)
    ensures |run| > 0 && run[0].board.winners == 0
  {
  }

  lemma RunStep(c: Config, run: seq<State>, k: nat)
    requires Run(c, run) && k + 1 < |run|
    ensures Step(c, run[k], run[k + 1])
  {
    assert run[k + 1] == run[k + 1];
  }

  lemma InvWinners(c: Config, s: State)
    requires Inv(c, s)
    ensures s.board.winners <= |s.board.winTimes| && ValidConfig(c) && Shape(c, s)
  {
    hide Sum, OnlyCastVotes;
  }
}
