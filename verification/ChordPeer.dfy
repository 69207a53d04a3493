/**
 The routing state of one Chord node of Sample4 and the decisions it takes on it:
 findSuccessor, the choice of the first hop of a lookup, and the updates of
 predecessor and successor.
 */
module ChordPeer {
  import opened Options
  import opened RingArithmetic
  import opened ChordRange

  /** m_nodeAddr.id, m_predecessor.id, m_successor.id, the ids in m_cwFingers, m_isSuccessorSet. */
  datatype Peer = Peer(id: nat, pred: nat, succ: nat, fingers: seq<nat>, joined: bool)

  datatype Outcome = Reply(found: nat) | Forward(found: nat)

  /** All its identifiers are on the ring. */
  predicate OnRing(n: nat, me: Peer) {
    && me.id < n && me.pred < n && me.succ < n
    && forall f <- me.fingers :: f < n
  }

  /** A node after goStateInit. */
  function FreshPeer(id: nat, size: nat): Peer {
    Peer(id, id, id, seq(size, i => id), false)
  }

  // ---- findSuccessor ----

  /** A finger findSuccessor may forward to: on the way to the target, and none of the nodes involved. */
  predicate Usable(n: nat, f: nat, id: nat, searched: nat, sender: nat, initiator: nat)
    requires n > 0
  {
    IsInRangeOverZero(n - 1, f, id, searched) && f != initiator && f != sender && f != id
  }

  /** The usable finger with the highest index. */
  function ClosestPreceding(n: nat, id: nat, fingers: seq<nat>, searched: nat, sender: nat, initiator: nat): (r: Option<nat>)
    requires n > 0
    ensures r.Some? ==> r.value in fingers && Usable(n, r.value, id, searched, sender, initiator)
    ensures r.None? ==> forall f <- fingers :: !Usable(n, f, id, searched, sender, initiator)
  {
    if fingers == [] then None
    else
      var f := fingers[|fingers| - 1];
      if Usable(n, f, id, searched, sender, initiator) then Some(f)
      else
        var rest := fingers[..|fingers| - 1];
        assert fingers == rest + [f];
        ClosestPreceding(n, id, rest, searched, sender, initiator)
  }

  /** find1stFingerNotForbidden. */
  function FirstAllowed(fingers: seq<nat>, id: nat, sender: nat, initiator: nat): (r: Option<nat>)
    ensures r.Some? ==> r.value in fingers && r.value != id && r.value != sender && r.value != initiator
    ensures r.None? ==> forall f <- fingers :: f == id || f == sender || f == initiator
  {
    if fingers == [] then None
    else if fingers[0] != initiator && fingers[0] != sender && fingers[0] != id then Some(fingers[0])
    else
      assert fingers == [fingers[0]] + fingers[1..];
      FirstAllowed(fingers[1..], id, sender, initiator)
  }

  /** findSuccessor up to its last test. */
  function Find(n: nat, me: Peer, searched: nat, sender: nat, initiator: nat): Outcome
    requires n > 0
  {
    if searched == me.id then Reply(me.id)
    else if searched == me.pred then Reply(me.pred)
    else if IsInRangeOverZero(n - 1, searched, me.pred, me.id) then Reply(me.id)
    else if IsInRangeOverZero(n - 1, searched, me.id, me.succ) then Reply(me.succ)
    else
      match ClosestPreceding(n, me.id, me.fingers, searched, sender, initiator)
      case Some(f) => Forward(f)
      case None =>
        match FirstAllowed(me.fingers, me.id, sender, initiator)
        case Some(f) => Forward(f)
        case None =>
          if me.pred != sender && me.pred != initiator && me.pred != me.id then Forward(me.pred)
          else Reply(me.id)
  }

  /** findSuccessor: a join is answered only by the node found. */
  function FindSuccessor(n: nat, me: Peer, searched: nat, sender: nat, initiator: nat, isJoin: bool): Outcome
    requires n > 0
  {
    var o := Find(n, me, searched, sender, initiator);
    if isJoin && o.Reply? && o.found != me.id then Forward(o.found) else o
  }

  // ---- predecessor and successor ----

  /** setPredecessor. */
  function SetPredecessor(n: nat, me: Peer, p: nat): Peer
    requires n > 0
  {
    if me.pred == me.id || IsInRangeOverZeroNotInc(n - 1, p, me.pred, me.id) then me.(pred := p) else me
  }

  function WithSuccessor(me: Peer, s: nat): Peer {
    me.(succ := s, fingers := if |me.fingers| > 0 then me.fingers[0 := s] else me.fingers)
  }

  /** setFingerRemoveTimers: the answer to a lookup for finger k; finger 0 is the successor. */
  function SetFinger(me: Peer, k: nat, f: nat): Peer
    requires k < |me.fingers|
  {
    if k == 0 && f != me.id then WithSuccessor(me, f) else me.(fingers := me.fingers[k := f])
  }

  /** setSuccessorRemoveTimers. */
  function SetSuccessor(me: Peer, s: nat): Peer {
    WithSuccessor(me, s).(joined := true)
  }

  /** setSuccessorStabilize. */
  function SetSuccessorStabilize(n: nat, me: Peer, p: nat): Peer
    requires n > 0
  {
    (if IsInRangeOverZeroNotInc(n - 1, p, me.id, me.succ) then WithSuccessor(me, p) else me).(joined := true)
  }

  /** What goStateService does to the answering node when it admits a joiner. */
  function Admit(n: nat, me: Peer, joiner: nat): Peer
    requires n > 0
  {
    var me' := SetPredecessor(n, me, joiner);
    if me'.succ == me'.id then SetSuccessor(me', joiner) else me'
  }

  /** What goStateJoin does to a joiner when the SUCCESSOR message arrives. */
  function JoinAt(n: nat, me: Peer, found: nat, service: nat): Peer
    requires n > 0
  {
    SetSuccessor(SetPredecessor(n, me, service), found)
  }

  // ---- the first hop of a periodic lookup ----

  /** The nearest finger below index k that is not the node itself. */
  function FingerBelow(me: Peer, k: nat): Option<nat>
    requires k <= |me.fingers|
  {
    if k == 0 then None
    else if me.fingers[k - 1] != me.id then Some(me.fingers[k - 1])
    else FingerBelow(me, k - 1)
  }

  /** Whom the node asks for finger k; seed is the fallback when it knows nobody. */
  function FirstHop(me: Peer, k: nat, seed: nat): nat
    requires k < |me.fingers|
  {
    if k == 0 then me.fingers[0]
    else match FingerBelow(me, k) case Some(f) => f case None => seed
  }

  /** The retransmit guard of isAddrValid: 1.5 times the number of fingers. */
  predicate TooManyForwards(me: Peer, counter: nat) {
    2 * counter > 3 * |me.fingers|
  }
}
