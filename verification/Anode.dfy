/**
 The A nodes of Sample2 as objects, what they do over a whole run, and the constructor
 that attaches each of them to one S node.
 */
module AnodeObject {
  import opened Agreement

  /**
   The blocks in k_rec and lb_rec, send_msgn, the three counters that the destructor
   looks at, and whether the next call of CheckIncoming waits for a delay. While it does,
   SystemC ignores written blocks; otherwise the next written block causes the call.
   */
  datatype Receiver = Receiver(kRec: nat, lbRec: nat, signing: bool, kblkRec: nat, lbblkRec: nat, sent: nat, delayed: bool)

  /**
   CheckIncoming: a signature that is due is sent, and nothing is read in that call;
   otherwise one block is read, a k block before an lb block, and only an lb block
   leads to a signature.
   */
  function Check(x: Receiver): Receiver {
    if x.signing then x.(signing := false, sent := x.sent + 1, delayed := false)
    else if x.kRec > 0 then x.(kRec := x.kRec - 1, kblkRec := x.kblkRec + 1, delayed := true)
    else if x.lbRec > 0 then x.(lbRec := x.lbRec - 1, lbblkRec := x.lbblkRec + 1, signing := true, delayed := true)
    else x.(delayed := false)
  }

  class Anode {
    const number: nat
    var kRec: nat            // blocks in k_rec
    var lbRec: nat           // blocks in lb_rec
    var sendMsgn: bool
    var kblkRec: nat
    var lbblkRec: nat
    var msgnblkSnt: nat
    var delayed: bool        // next_trigger was called with a delay

    constructor (number: nat)
      ensures this.number == number && Value() == Receiver(0, 0, false, 0, 0, 0, false)
    {
      this.number := number;
      kRec, lbRec, sendMsgn, kblkRec, lbblkRec, msgnblkSnt, delayed := 0, 0, false, 0, 0, 0, false;
    }

    function Value(): Receiver
      reads this
    {
      Receiver(kRec, lbRec, sendMsgn, kblkRec, lbblkRec, msgnblkSnt, delayed)
    }

    method CheckIncoming() returns (written: bool)
      modifies this
      ensures Value() == Check(old(Value()))
      ensures written == old(sendMsgn)
    {
      written := false;
      if sendMsgn {
        sendMsgn := false;
        msgnblkSnt := msgnblkSnt + 1;
        written := true;
      } else if kRec > 0 {
        kRec, kblkRec := kRec - 1, kblkRec + 1;
        delayed := true;
        return;
      } else if lbRec > 0 {
        lbRec, lbblkRec := lbRec - 1, lbblkRec + 1;
        sendMsgn := true;
        delayed := true;
        return;
      }
      delayed := false;
    }
  }

  /** The A node of the transition system; lbOut counts the lb blocks still delayed at its S node. */
  function Seen(x: Receiver, number: nat, lbOut: nat): ANode {
    ANode(number, lbOut, x.lbRec, x.signing, x.sent)
  }

  /** A call of CheckIncoming is the step Sign or ReadLB of the transition system, or one that it does not see. */
  lemma CheckIsStep(c: Config, s: State, a: nat, x: Receiver)
    requires ValidConfig(c) && Shape(c, s) && a < c.anum && s.anodes[a] == Seen(x, a, s.anodes[a].lbOut)
    ensures var x' := Seen(Check(x), a, s.anodes[a].lbOut);
            if x.signing then Enabled(c, s, Sign(a)) && Next(c, s, Sign(a)).anodes == s.anodes[a := x']
            else if x.kRec == 0 && x.lbRec > 0 then Enabled(c, s, ReadLB(a)) && Next(c, s, ReadLB(a)).anodes == s.anodes[a := x']
            else s.anodes[a] == x'
  {
    hide PacketOk;
  }

  // ---- what an A node does with its blocks ----

  datatype Event = WriteK | WriteLB | Elapse

  /** A written block causes a call unless a delay is pending, and the delay's end causes one. */
  function Happens(x: Receiver, e: Event): Receiver {
    var x' := match e case WriteK => x.(kRec := x.kRec + 1) case WriteLB => x.(lbRec := x.lbRec + 1) case Elapse => x;
    if e.Elapse? || !x.delayed then Check(x') else x'
  }

  /** A call waits for a delay exactly if it has read a block, and it never reads and sends at once. */
  lemma ReadingDelays(x: Receiver)
    ensures var x' := Check(x);
            && (x'.delayed <==> x'.kblkRec + x'.lbblkRec == x.kblkRec + x.lbblkRec + 1)
            && (x'.sent == if x.signing then x.sent + 1 else x.sent)
            && (x.signing ==> x'.kblkRec == x.kblkRec && x'.lbblkRec == x.lbblkRec)
            && x'.kRec + x'.kblkRec == x.kRec + x.kblkRec && x'.lbRec + x'.lbblkRec == x.lbRec + x.lbblkRec
            && (x'.signing <==> x'.lbblkRec == x.lbblkRec + 1)
  {
  }

  /** A block that is written during a delay waits for its end. */
  lemma DelayHoldsBack(x: Receiver, e: Event)
    requires x.delayed && !e.Elapse?
    ensures Happens(x, e) == x.(kRec := x.kRec + if e.WriteK? then 1 else 0, lbRec := x.lbRec + if e.WriteLB? then 1 else 0)
  {
  }

  /** An lb block that comes while a k block is being processed is read when that is done. */
  lemma LBWaitsForK()
    ensures var x, y := After([WriteK, WriteLB]), After([WriteK, WriteLB, Elapse]);
            && x.delayed && x.kblkRec == 1 && x.lbRec == 1 && x.lbblkRec == 0 && !x.signing
            && y.delayed && y.lbRec == 0 && y.lbblkRec == 1 && y.signing
  {
    var events := [WriteK, WriteLB, Elapse];
    assert events[..0] == [] && events[..1] == [WriteK] && events[..2] == [WriteK, WriteLB];
    assert [WriteK][..0] == [] && [WriteK, WriteLB][..1] == [WriteK];
  }

  function After(events: seq<Event>): Receiver {
    if events == [] then Receiver(0, 0, false, 0, 0, 0, false)
    else Happens(After(events[..|events| - 1]), events[|events| - 1])
  }

  /** A delay ends only while it is pending. */
  ghost predicate Possible(events: seq<Event>) {
    forall i {:trigger events[i]} :: 0 <= i < |events| && events[i] == Elapse ==> After(events[..i]).delayed
  }

  /** The k block was written between the reading of the lb block and the sending of the signature. */
  ghost predicate WrittenWhileSigning(events: seq<Event>) {
    exists i {:trigger events[i]} :: 0 <= i < |events| && events[i] == WriteK && After(events[..i]).signing
  }

  /** The node is at rest: no delay is pending. */
  predicate AtRest(x: Receiver) {
    !x.delayed
  }

  /** What ~Anode asks for. */
  predicate Expected(x: Receiver) {
    x.kblkRec == 1 && x.lbblkRec == 1 && x.sent == 1
  }

  /** With at most one block of each kind written so far. */
  predicate SoFar(x: Receiver, k: nat, lb: nat, missed: bool) {
    && x.kRec + x.kblkRec == k && x.lbRec + x.lbblkRec == lb
    && x.lbblkRec == x.sent + (if x.signing then 1 else 0) && (x.signing ==> x.delayed)
    && x.kRec == (if missed then 1 else 0) && (missed ==> x.lbblkRec == 1)
    && (x.lbRec > 0 ==> x.delayed && !x.signing) && (x.delayed && !x.signing ==> x.kblkRec > 0)
    && (missed && !x.signing ==> !x.delayed)
  }

  function Count(events: seq<Event>, e: Event): nat {
    multiset(events)[e]
  }

  lemma SoFarStep(x: Receiver, k: nat, lb: nat, missed: bool, e: Event)
    requires SoFar(x, k, lb, missed) && (e.WriteK? ==> k == 0) && (e.WriteLB? ==> lb == 0) && (e.Elapse? ==> x.delayed)
    requires k <= 1 && lb <= 1
    ensures SoFar(Happens(x, e), if e.WriteK? then k + 1 else k, if e.WriteLB? then lb + 1 else lb,
                  missed || (e.WriteK? && x.signing))
  {
  }

  lemma CountStep(events: seq<Event>, last: Event, e: Event)
    ensures Count(events + [last], e) == Count(events, e) + if e == last then 1 else 0
  {
  }

  lemma StepSigning(events: seq<Event>, last: Event)
    requires Possible(events + [last])
    ensures Possible(events) && (last.Elapse? ==> After(events).delayed)
    ensures WrittenWhileSigning(events + [last]) <==> WrittenWhileSigning(events) || (last == WriteK && After(events).signing)
  {
    hide After;
    var all, n := events + [last], |events|;
    assert forall i :: 0 <= i < n ==> all[..i] == events[..i] && all[i] == events[i];
    assert all[..n] == events && all[n] == last;
    if i :| 0 <= i < n && events[i] == WriteK && After(events[..i]).signing {
      assert all[i] == WriteK;
    }
  }

  lemma {:induction false} RunSoFar(events: seq<Event>)
    requires Possible(events) && Count(events, WriteK) <= 1 && Count(events, WriteLB) <= 1
    ensures SoFar(After(events), Count(events, WriteK), Count(events, WriteLB), WrittenWhileSigning(events))
  {
    hide Count, Possible, WrittenWhileSigning, SoFar, Happens;
    if events == [] {
      NothingSoFar();
    } else {
      var n := |events| - 1;
      var before, last := events[..n], events[n];
      assert events == before + [last];
      CountStep(before, last, WriteK);
      CountStep(before, last, WriteLB);
      StepSigning(before, last);
      RunSoFar(before);
      SoFarStep(After(before), Count(before, WriteK), Count(before, WriteLB), WrittenWhileSigning(before), last);
    }
  }

  lemma NothingSoFar()
    ensures SoFar(After([]), Count([], WriteK), Count([], WriteLB), WrittenWhileSigning([]))
  {
  }

  /**
   An A node that is written its one k block and its one lb block, in any order and at
   any times, always signs exactly once; and it ends as its destructor expects exactly
   if the k block does not come while a signature is being made.
   */
  lemma EndsAsExpected(events: seq<Event>)
    requires Possible(events) && Count(events, WriteK) == 1 && Count(events, WriteLB) == 1
    requires AtRest(After(events))
    ensures After(events).lbblkRec == 1 && After(events).sent == 1
    ensures Expected(After(events)) <==> !WrittenWhileSigning(events)
  {
    RunSoFar(events);
  }

  /** The k block that comes while a signature is being made stays unread: no later call is caused. */
  lemma KStaysUnread()
    ensures var events := [WriteLB, WriteK, Elapse];
            && Possible(events) && AtRest(After(events)) && WrittenWhileSigning(events)
            && After(events).kRec == 1 && After(events).kblkRec == 0 && !Expected(After(events))
  {
    var events := [WriteLB, WriteK, Elapse];
    assert events[..0] == [] && events[..1] == [WriteLB] && events[..2] == [WriteLB, WriteK];
    assert [WriteLB][..0] == [] && [WriteLB, WriteK][..1] == [WriteLB];
    assert After([WriteLB]).signing && After([WriteLB]).delayed;
    assert After([WriteLB, WriteK]).delayed;
    assert events[1] == WriteK;
  }
}

/** The constructor of WSA: which A node belongs to which S node. */
module Attachment {
  import opened Sums
  import opened Agreement

  /** The A nodes among the first k that are attached to v, in order. */
  function AttachedTo(home: seq<nat>, v: nat, k: nat): (r: seq<nat>)
    requires k <= |home|
    ensures forall a <- r :: a < k && home[a] == v
    ensures forall a: nat :: a < k && home[a] == v ==> a in r
    ensures forall i, j :: 0 <= i < j < |r| ==> r[i] < r[j]
  {
    if k == 0 then []
    else
      var before := AttachedTo(home, v, k - 1);
      if home[k - 1] == v then
        assert forall i :: 0 <= i < |before| ==> before[i] in before;
        assert k - 1 in before + [k - 1] && forall a <- before :: a in before + [k - 1];
        before + [k - 1]
      else before
  }

  /** SendToConnectedA sends one block per A node attached to v, which is what the transition system counts. */
  lemma {:induction false} AttachedIsCounted(home: seq<nat>, v: nat, k: nat)
    requires k <= |home|
    ensures |AttachedTo(home, v, k)| == Sum(HomeIs(v), home[..k])
  {
    hide Sum;
    if k == 0 {
      SumNone(HomeIs(v));
    } else {
      AttachedIsCounted(home, v, k - 1);
      assert home[..k] == home[..k - 1] + [home[k - 1]];
      SumAppend(HomeIs(v), home[..k - 1], [home[k - 1]]);
      SumOne(HomeIs(v), home[k - 1]);
    }
  }

  lemma SumNone(f: nat -> nat)
    ensures Sum(f, []) == 0
  {
  }

  /** Every A node is in the list of exactly one S node, and once. */
  lemma AttachedOnce(home: seq<nat>, a: nat, v: nat, w: nat)
    requires a < |home|
    ensures a in AttachedTo(home, home[a], |home|)
    ensures a in AttachedTo(home, v, |home|) && a in AttachedTo(home, w, |home|) ==> v == w
    ensures multiset(AttachedTo(home, home[a], |home|))[a] == 1
  {
    var r := AttachedTo(home, home[a], |home|);
    OnceInIncreasing(r, a);
  }

  lemma {:induction false} OnceInIncreasing(r: seq<nat>, a: nat)
    requires a in r && forall i, j :: 0 <= i < j < |r| ==> r[i] < r[j]
    ensures multiset(r)[a] == 1
  {
    var n := |r| - 1;
    assert r == r[..n] + [r[n]];
    if r[n] == a {
      assert forall x <- r[..n] :: x < a;
    } else {
      OnceInIncreasing(r[..n], a);
    }
  }

  /** The loop over the A nodes; picks are the values of rand(). */
  method Attach(snum: nat, picks: seq<nat>) returns (connAs: seq<seq<nat>>, home: seq<nat>)
    requires snum > 0
    ensures |connAs| == snum && |home| == |picks|
    ensures forall a :: 0 <= a < |picks| ==> home[a] == picks[a] % snum
    ensures forall v: nat :: v < snum ==> connAs[v] == AttachedTo(home, v, |home|)
  {
    hide AttachedTo;
    connAs := seq(snum, v => []);
    home := seq(|picks|, a requires 0 <= a < |picks| => picks[a] % snum);
    forall v: nat | v < snum ensures connAs[v] == AttachedTo(home, v, 0) {
      AttachedNone(home, v);
    }
    for a := 0 to |picks|
      invariant |connAs| == snum
      invariant forall v: nat :: v < snum ==> connAs[v] == AttachedTo(home, v, a)
    {
      var nodeToConnectTo := picks[a] % snum;
      forall v: nat | v < snum
        ensures AttachedTo(home, v, a + 1) == if v == nodeToConnectTo then connAs[v] + [a] else connAs[v]
      {
        AttachedNext(home, v, a);
      }
      connAs := connAs[nodeToConnectTo := connAs[nodeToConnectTo] + [a]];
    }
  }

  lemma AttachedNone(home: seq<nat>, v: nat)
    ensures AttachedTo(home, v, 0) == []
  {
  }

  lemma AttachedNext(home: seq<nat>, v: nat, k: nat)
    requires k < |home|
    ensures AttachedTo(home, v, k + 1) == if home[k] == v then AttachedTo(home, v, k) + [k] else AttachedTo(home, v, k)
  {
  }
}
