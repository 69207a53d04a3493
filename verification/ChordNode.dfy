/**
 A Chord node as an object: the handlers of low_latency_chord update predecessor,
 successor and finger table in place. Each is proved to do what the functions of
 ChordPeer and ChordJoin say, so what is proved of the network holds of these.
 */
module ChordNode {
  import opened Options
  import opened RingArithmetic
  import opened ChordRange
  import opened ChordPeer
  import opened ChordJoin

  class Node {
    const n: nat
    const id: nat
    var predecessor: nat
    var successor: nat
    const cwFingers: array<nat>
    var isSuccessorSet: bool

    ghost predicate Valid()
      reads this
    {
      id < n && cwFingers.Length >= 1
    }

    function Value(): Peer
      reads this, cwFingers
    {
      Peer(id, predecessor, successor, cwFingers[..], isSuccessorSet)
    }

    /** goStateInit: every address starts as the node's own. */
    constructor (n: nat, id: nat, fingersSize: nat)
      requires id < n && fingersSize >= 1
      ensures Valid() && fresh(cwFingers) && this.n == n && Value() == FreshPeer(id, fingersSize)
      ensures this.id == predecessor == successor == id && !isSuccessorSet
      ensures cwFingers.Length == fingersSize && forall i :: 0 <= i < fingersSize ==> cwFingers[i] == id
    {
      this.n, this.id := n, id;
      predecessor, successor, isSuccessorSet := id, id, false;
      cwFingers := new nat[fingersSize](i => id);
      new;
      assert cwFingers[..] == seq(fingersSize, i => id);
    }

    // ---- findSuccessor ----

    /** The loop over the fingers from the last to the first. */
    method ClosestFinger(searched: nat, sender: nat, initiator: nat) returns (r: Option<nat>)
      requires Valid()
      ensures r == ClosestPreceding(n, id, cwFingers[..], searched, sender, initiator)
    {
      var i := cwFingers.Length;
      assert cwFingers[..i] == cwFingers[..];
      while i > 0
        invariant 0 <= i <= cwFingers.Length
        invariant ClosestPreceding(n, id, cwFingers[..], searched, sender, initiator)
                  == ClosestPreceding(n, id, cwFingers[..i], searched, sender, initiator)
      {
        i := i - 1;
        var f := cwFingers[i];
        var closestToTarget := IsInRangeOverZero(n - 1, f, id, searched);
        var notInitiator := f != initiator;
        var notSender := f != sender;
        assert cwFingers[..i + 1][..i] == cwFingers[..i];
        if closestToTarget && notInitiator && notSender && f != id {
          return Some(f);
        }
      }
      return None;
    }

    /** find1stFingerNotForbidden. */
    method FirstFingerNotForbidden(sender: nat, initiator: nat) returns (r: Option<nat>)
      requires Valid()
      ensures r == FirstAllowed(cwFingers[..], id, sender, initiator)
    {
      var i := 0;
      while i < cwFingers.Length
        invariant 0 <= i <= cwFingers.Length
        invariant FirstAllowed(cwFingers[..], id, sender, initiator) == FirstAllowed(cwFingers[i..], id, sender, initiator)
      {
        var forbidden := [initiator, sender, id];
        var accept, k := true, 0;
        while k < |forbidden|
          invariant 0 <= k <= |forbidden| && (accept <==> cwFingers[i] !in forbidden[..k])
        {
          assert forbidden[..k + 1] == forbidden[..k] + [forbidden[k]];
          if cwFingers[i] == forbidden[k] {
            accept := false;
          }
          k := k + 1;
        }
        assert forbidden[..k] == forbidden;
        assert cwFingers[i..][1..] == cwFingers[i + 1..];
        if accept {
          return Some(cwFingers[i]);
        }
        i := i + 1;
      }
      return None;
    }

    method FindSuccessorOf(searched: nat, sender: nat, initiator: nat, isJoin: bool) returns (action: Outcome)
      requires Valid()
      ensures action == FindSuccessor(n, Value(), searched, sender, initiator, isJoin)
    {
      if searched == id {
        action := Reply(id);
      } else if searched == predecessor {
        action := Reply(predecessor);
      } else if IsInRangeOverZero(n - 1, searched, predecessor, id) {
        action := Reply(id);
      } else if IsInRangeOverZero(n - 1, searched, id, successor) {
        action := Reply(successor);
      } else {
        var found := ClosestFinger(searched, sender, initiator);
        if found.None? {
          found := FirstFingerNotForbidden(sender, initiator);
          if found.None? {
            if predecessor != sender && predecessor != initiator && predecessor != id {
              action := Forward(predecessor);
            } else {
              action := Reply(id);
            }
          } else {
            action := Forward(found.value);
          }
        } else {
          action := Forward(found.value);
        }
      }
      if isJoin && action.Reply? && action.found != id {
        action := Forward(action.found);
      }
    }

    // ---- the pointers ----

    method SetPredecessorTo(p: nat)
      requires Valid()
      modifies this`predecessor
      ensures Value() == SetPredecessor(n, old(Value()), p)
      ensures old(predecessor) == id ==> predecessor == p
      ensures p < n && old(predecessor) < n && old(predecessor) != id ==>
                predecessor == if OpenArc(n, p, old(predecessor), id) then p else old(predecessor)
    {
      if p < n && predecessor < n {
        RangeNotIncIsOpenArc(n, p, predecessor, id);
      }
      if predecessor == id || IsInRangeOverZeroNotInc(n - 1, p, predecessor, id) {
        predecessor := p;
      }
    }

    method SetSuccessorTo(s: nat)
      requires Valid()
      modifies this`successor, this`isSuccessorSet, cwFingers
      ensures Value() == SetSuccessor(old(Value()), s)
      ensures successor == s && isSuccessorSet && cwFingers[..] == old(cwFingers[..])[0 := s]
    {
      successor := s;
      if cwFingers.Length > 0 {
        cwFingers[0] := s;
      }
      isSuccessorSet := true;
    }

    method StabiliseSuccessor(p: nat)
      requires Valid()
      modifies this`successor, this`isSuccessorSet, cwFingers
      ensures Value() == SetSuccessorStabilize(n, old(Value()), p)
      ensures isSuccessorSet
      ensures p < n && old(successor) < n ==>
                if OpenArc(n, p, id, old(successor)) then successor == p && cwFingers[..] == old(cwFingers[..])[0 := p]
                else successor == old(successor) && cwFingers[..] == old(cwFingers[..])
    {
      if p < n && successor < n {
        RangeNotIncIsOpenArc(n, p, id, successor);
      }
      if IsInRangeOverZeroNotInc(n - 1, p, id, successor) {
        successor := p;
        cwFingers[0] := p;
      }
      isSuccessorSet := true;
    }

    // ---- the handlers ----

    method SendMessage(to: nat, msg: Message) returns (send: seq<Packet>)
      requires Valid()
      ensures send == Send(Value(), to, msg)
      ensures to != id ==> send == [Packet(to, msg)]
      ensures to == id ==> send == []
    {
      send := if to == id then [] else [Packet(to, msg)];
    }

    /** goStateService for a join, passed on or answered. */
    method ServeJoin(joiner: nat, sender: nat, counter: nat) returns (send: seq<Packet>)
      requires Valid()
      modifies this, cwFingers
      ensures var h := Handle(n, old(Value()), Join(joiner, sender, counter));
              Valid() && Value() == h.me && send == h.send
      ensures Value() != old(Value()) ==> send == if joiner != id then [Packet(joiner, Successor(id, old(predecessor)))] else []
      ensures forall p <- send :: p.to != id &&
                ((p.msg == Successor(id, old(predecessor)) && p.to == joiner) || p.msg == Join(joiner, id, counter + 1))
    {
      if 2 * counter > 3 * cwFingers.Length || joiner >= n {
        return [];
      }
      var action := FindSuccessorOf(Plus(n, joiner, 1), sender, joiner, true);
      if action.Reply? {
        send := SendMessage(joiner, Successor(action.found, predecessor));
        SetPredecessorTo(joiner);
        if successor == id {
          SetSuccessorTo(joiner);
        }
      } else {
        send := SendMessage(action.found, Join(joiner, id, counter + 1));
      }
    }

    /** goStateJoin: the first SUCCESSOR message makes the node part of the ring. */
    method TakeSuccessor(found: nat, service: nat) returns (send: seq<Packet>)
      requires Valid()
      modifies this, cwFingers
      ensures var h := Handle(n, old(Value()), Successor(found, service));
              Valid() && Value() == h.me && send == h.send
      ensures send == [] && isSuccessorSet
      ensures !old(isSuccessorSet) ==> successor == found && cwFingers[..] == old(cwFingers[..])[0 := found]
      ensures !old(isSuccessorSet) && old(predecessor) == id ==> predecessor == service
      ensures old(isSuccessorSet) ==> Value() == old(Value())
    {
      if !isSuccessorSet {
        SetPredecessorTo(service);
        SetSuccessorTo(found);
      }
      send := [];
    }

    /** goStateUpdate: the successor's predecessor is known, and the successor is told. */
    method TakePredecessor(p: nat) returns (send: seq<Packet>)
      requires Valid()
      modifies this, cwFingers
      ensures var h := Handle(n, old(Value()), Predecessor(p));
              Valid() && Value() == h.me && send == h.send
      ensures predecessor == old(predecessor)
      ensures send == if successor != id then [Packet(successor, Notify(id))] else []
    {
      StabiliseSuccessor(p);
      send := SendMessage(successor, Notify(id));
    }

    /** The whole reception of one message. */
    method Receive(msg: Message) returns (send: seq<Packet>)
      requires Valid()
      modifies this, cwFingers
      ensures var h := Handle(n, old(Value()), msg);
              Valid() && Value() == h.me && send == h.send
      ensures msg.FindPredecessor? ==> Value() == old(Value())
      ensures msg.FindPredecessor? && msg.from != id ==> send == [Packet(msg.from, Predecessor(old(predecessor)))]
      ensures msg.Notify? ==> send == [] && successor == old(successor) && cwFingers[..] == old(cwFingers[..])
    {
      match msg
      case Join(joiner, sender, counter) => send := ServeJoin(joiner, sender, counter);
      case Successor(found, service) => send := TakeSuccessor(found, service);
      case FindPredecessor(from) => send := SendMessage(from, Predecessor(predecessor));
      case Predecessor(p) => send := TakePredecessor(p);
      case Notify(from) => SetPredecessorTo(from); send := [];
    }

    // ---- periodic lookups ----

    /** setFingerRemoveTimers: the answer to the lookup for finger k. */
    method FillFinger(k: nat, found: nat)
      requires Valid() && k < cwFingers.Length
      modifies this`successor, cwFingers
      ensures Valid() && Value() == SetFinger(old(Value()), k, found)
      ensures cwFingers[..] == old(cwFingers[..])[k := found]
      ensures successor == if k == 0 && found != id then found else old(successor)
    {
      cwFingers[k] := found;
      if k == 0 && cwFingers[k] != id {
        successor := cwFingers[k];
      }
    }

    /** hop is the finger with the highest index below k that is not the node itself. */
    ghost predicate NearestBelow(k: nat, hop: nat)
      requires k <= cwFingers.Length
      reads this, cwFingers
    {
      exists i :: 0 <= i < k && hop == cwFingers[i] != id && forall l :: i < l < k ==> cwFingers[l] == id
    }

    /** Whom issueMessagePushTimers asks for finger k. */
    method AskFor(k: nat, seed: nat) returns (hop: nat)
      requires Valid() && k < cwFingers.Length
      ensures hop == FirstHop(Value(), k, seed)
      ensures k == 0 ==> hop == cwFingers[0]
      ensures k > 0 ==> NearestBelow(k, hop) || (hop == seed && forall l :: 0 <= l < k ==> cwFingers[l] == id)
    {
      if k == 0 {
        return cwFingers[0];
      }
      var i := k - 1;
      while i >= 0
        invariant -1 <= i < k
        invariant FingerBelow(Value(), k) == FingerBelow(Value(), i + 1)
        invariant forall l :: i < l < k ==> cwFingers[l] == id
      {
        if cwFingers[i] != id {
          break;
        }
        i := i - 1;
      }
      hop := if i >= 0 then cwFingers[i] else seed;
    }
  }
}
