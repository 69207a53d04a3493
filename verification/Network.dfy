/**
 The message queues of the simulated network of Sample4: one queue and one wake-up
 slot per port. Latencies are arbitrary; time stamps are natural numbers.
 */
module Network {
  import opened Options

  /** A message with its destination and source node; isRx is set when it is handed over. */
  datatype Message = Message(dest: nat, src: nat, body: nat, isRx: bool)

  /** specifyNewMessType: the transmitted type becomes the received one. */
  function Received(m: Message): (r: Message)
    ensures r.dest == m.dest && r.src == m.src && r.body == m.body && r.isRx
  {
    m.(isRx := true)
  }

  /** What became of the messages pushed for one port: the first ones delivered in order, the rest queued in order. */
  predicate InOrder(pushed: seq<Message>, delivered: seq<Message>, queue: seq<Message>) {
    && |pushed| == |delivered| + |queue|
    && queue == pushed[|delivered|..]
    && forall k :: 0 <= k < |delivered| ==> delivered[k] == Received(pushed[k])
  }

  lemma PushInOrder(pushed: seq<Message>, delivered: seq<Message>, queue: seq<Message>, m: Message)
    requires InOrder(pushed, delivered, queue)
    ensures InOrder(pushed + [m], delivered, queue + [m])
  {
  }

  lemma DeliverInOrder(pushed: seq<Message>, delivered: seq<Message>, queue: seq<Message>)
    requires InOrder(pushed, delivered, queue) && queue != []
    ensures InOrder(pushed, delivered + [Received(queue[0])], queue[1..])
  {
  }

  class Network {
    const ports: nat
    const portIndexByNodeID: map<nat, nat>
    var buffMess: seq<seq<Message>>
    var wakeUpInfo: seq<Option<nat>>       // when the slot's message is sent; None is CAN_USE
    var eventSend: seq<Option<nat>>        // the pending notification of each port's send event
    var checkPending: bool                 // m_eventCheckReceive is notified
    ghost var pushed: seq<seq<Message>>
    ghost var delivered: seq<seq<Message>>

    /** Messages are neither lost nor reordered, and a slot is taken only while its queue is not empty. */
    ghost predicate Valid()
      reads this
    {
      && |buffMess| == ports && |wakeUpInfo| == ports && |eventSend| == ports && |pushed| == ports && |delivered| == ports
      && (forall i :: 0 <= i < ports ==> InOrder(pushed[i], delivered[i], buffMess[i]))
      && (forall i :: 0 <= i < ports && wakeUpInfo[i].Some? ==> buffMess[i] != [])
    }

    /** Both nodes of the message are in the address table. */
    predicate Known(m: Message) {
      m.src in portIndexByNodeID && m.dest in portIndexByNodeID
    }

    /** So are those of every message in the queues. */
    ghost predicate AllKnown()
      reads this
    {
      forall i :: 0 <= i < |buffMess| ==> forall m <- buffMess[i] :: Known(m)
    }

    /** The send event of every taken slot is pending in time. */
    ghost predicate AllNotified()
      requires |wakeUpInfo| == |eventSend| == ports
      reads this
    {
      forall i :: 0 <= i < ports ==> Notified(eventSend[i], wakeUpInfo[i])
    }

    static predicate Notified(event: Option<nat>, slot: Option<nat>) {
      slot.Some? ==> event.Some? && event.value <= slot.value
    }

    /** A queue with a message but no slot. */
    ghost predicate Idle(i: nat)
      requires |buffMess| == |wakeUpInfo| == ports && i < ports
      reads this
    {
      buffMess[i] != [] && wakeUpInfo[i].None?
    }

    /** Nobody waits without a receive check being pending. */
    ghost predicate AllChecked()
      requires |buffMess| == |wakeUpInfo| == ports
      reads this
    {
      forall i :: 0 <= i < ports && Idle(i) ==> checkPending
    }

    /** The head of the queue can be routed: both its nodes are in the address table. */
    predicate Routable(i: nat)
      requires i < |buffMess| && buffMess[i] != []
      reads this
    {
      Known(buffMess[i][0])
    }

    constructor (ports: nat, table: map<nat, nat>)
      ensures Valid() && AllChecked() && AllNotified() && this.ports == ports && portIndexByNodeID == table
      ensures pushed == delivered == buffMess == seq(ports, i => []) && AllKnown()
      ensures forall i :: 0 <= i < ports ==> wakeUpInfo[i].None?
    {
      this.ports, portIndexByNodeID := ports, table;
      buffMess := seq(ports, i => []);
      wakeUpInfo, eventSend := seq(ports, i => None), seq(ports, i => None);
      checkPending := false;
      pushed, delivered := seq(ports, i => []), seq(ports, i => []);
    }

    /** push_into_network. */
    method PushIntoNetwork(m: Message)
      requires Valid()
      modifies this`buffMess, this`checkPending, this`pushed
      ensures Valid()
      ensures if m.dest in portIndexByNodeID && portIndexByNodeID[m.dest] < ports
              then var p := portIndexByNodeID[m.dest];
                   && pushed == old(pushed)[p := old(pushed)[p] + [m]]
                   && buffMess == old(buffMess)[p := old(buffMess)[p] + [m]] && checkPending
              else pushed == old(pushed) && buffMess == old(buffMess) && checkPending == old(checkPending)
      ensures old(AllChecked()) ==> AllChecked()
      ensures old(AllNotified()) ==> AllNotified()
      ensures old(AllKnown()) && m.src in portIndexByNodeID ==> AllKnown()
    {
      if m.dest in portIndexByNodeID {
        var p := portIndexByNodeID[m.dest];
        if p < |buffMess| {
          PushInOrder(pushed[p], delivered[p], buffMess[p], m);
          buffMess := buffMess[p := buffMess[p] + [m]];
          pushed := pushed[p := pushed[p] + [m]];
          checkPending := true;
        }
      }
    }

    /**
     checkReceive, when its event fires: every idle queue gets a slot, but the loop stops
     at the first head it cannot route. So the queues are all taken care of exactly if
     every idle queue has a routable head.
     */
    method CheckReceive(now: nat, delays: seq<nat>)
      requires Valid() && |delays| == ports
      modifies this`wakeUpInfo, this`eventSend, this`checkPending
      ensures Valid() && !checkPending
      ensures old(AllKnown()) ==> AllKnown() && AllChecked()
      ensures AllChecked() <==> forall i :: 0 <= i < ports && old(Idle(i)) ==> Routable(i)
      ensures forall i :: 0 <= i < ports ==>
                if old(Idle(i)) && (forall k :: 0 <= k <= i && old(Idle(k)) ==> Routable(k))
                then wakeUpInfo[i] == Some(now + delays[i]) && Notified(eventSend[i], wakeUpInfo[i])
                else wakeUpInfo[i] == old(wakeUpInfo)[i] && eventSend[i] == old(eventSend)[i]
    {
      hide InOrder;
      checkPending := false;
      for i := 0 to ports
        invariant Valid() && !checkPending
        invariant forall k :: 0 <= k < i && old(Idle(k)) ==> Routable(k)
        invariant forall k :: 0 <= k < i ==>
                    if old(Idle(k)) then wakeUpInfo[k] == Some(now + delays[k]) && Notified(eventSend[k], wakeUpInfo[k])
                    else wakeUpInfo[k] == old(wakeUpInfo)[k] && eventSend[k] == old(eventSend)[k]
        invariant forall k :: i <= k < ports ==> wakeUpInfo[k] == old(wakeUpInfo)[k] && eventSend[k] == old(eventSend)[k]
      {
        if |buffMess[i]| > 0 && wakeUpInfo[i] == None {
          var head := buffMess[i][0];
          if head.src !in portIndexByNodeID {
            assert Idle(i) && old(Idle(i)) && !Routable(i);
            return;
          }
          if head.dest !in portIndexByNodeID {
            assert Idle(i) && old(Idle(i)) && !Routable(i);
            return;
          }
          wakeUpInfo := wakeUpInfo[i := Some(now + delays[i])];
          eventSend := eventSend[i := Earlier(eventSend[i], now + delays[i])];
        }
      }
    }

    /** The notifications that have fired are no longer pending. */
    static function Fired(pending: seq<Option<nat>>, now: nat): (r: seq<Option<nat>>)
      ensures |r| == |pending|
      ensures forall i :: 0 <= i < |r| ==> r[i] == if pending[i].Some? && pending[i].value > now then pending[i] else None
    {
      seq(|pending|, i requires 0 <= i < |pending| =>
        if pending[i].Some? && pending[i].value <= now then None else pending[i])
    }

    /** sc_event::notify: a pending notification is replaced only by an earlier one. */
    static function Earlier(pending: Option<nat>, time: nat): (r: Option<nat>)
      ensures r.Some? && r.value <= time
      ensures r == if pending.Some? && pending.value < time then pending else Some(time)
    {
      match pending
      case None => Some(time)
      case Some(t) => if t <= time then pending else Some(time)
    }

    /** Whether send hands over the head of queue i now. */
    predicate SendsNow(i: nat, now: nat)
      requires i < |wakeUpInfo|
      reads this
    {
      wakeUpInfo[i].Some? && wakeUpInfo[i].value <= now
    }

    /** One round of send's loop. */
    method SendPort(i: nat, now: nat)
      requires Valid() && i < ports
      modifies this`buffMess, this`wakeUpInfo, this`eventSend, this`checkPending, this`delivered
      ensures Valid() && Notified(eventSend[i], wakeUpInfo[i])
      ensures if old(SendsNow(i, now))
              then old(buffMess)[i] != [] && checkPending
                   && wakeUpInfo == old(wakeUpInfo)[i := None] && eventSend == old(eventSend)
                   && buffMess == old(buffMess)[i := old(buffMess)[i][1..]]
                   && delivered == old(delivered)[i := old(delivered)[i] + [Received(old(buffMess)[i][0])]]
              else wakeUpInfo == old(wakeUpInfo) && buffMess == old(buffMess) && delivered == old(delivered)
                   && checkPending == old(checkPending) && eventSend == old(eventSend)[i := eventSend[i]]
    {
      hide InOrder;
      if wakeUpInfo[i] != None && wakeUpInfo[i].value <= now {
        var mess := Received(buffMess[i][0]);
        DeliverInOrder(pushed[i], delivered[i], buffMess[i]);
        delivered := delivered[i := delivered[i] + [mess]];
        buffMess := buffMess[i := buffMess[i][1..]];
        wakeUpInfo := wakeUpInfo[i := None];
        checkPending := true;
      } else if wakeUpInfo[i] != None {
        eventSend := eventSend[i := Earlier(eventSend[i], wakeUpInfo[i].value)];
      }
    }

    /** What send does to port i. */
    twostate predicate Sent(i: nat, now: nat)
      requires old(Valid()) && Valid() && i < ports
      reads this
    {
      if old(SendsNow(i, now))
      then wakeUpInfo[i] == None && old(buffMess)[i] != []
           && buffMess[i] == old(buffMess)[i][1..]
           && delivered[i] == old(delivered)[i] + [Received(old(buffMess)[i][0])]
      else wakeUpInfo[i] == old(wakeUpInfo)[i] && buffMess[i] == old(buffMess)[i] && delivered[i] == old(delivered)[i]
    }

    /** send, when some port's event has fired: every queue whose slot is due hands over its head. */
    method Send(now: nat)
      requires Valid()
      modifies this`buffMess, this`wakeUpInfo, this`eventSend, this`checkPending, this`delivered
      ensures Valid() && AllNotified()
      ensures forall i :: 0 <= i < ports ==> Sent(i, now)
      ensures forall i :: 0 <= i < ports && wakeUpInfo[i].Some? ==> wakeUpInfo[i].value > now
      ensures old(AllChecked()) ==> AllChecked()
      ensures old(AllKnown()) ==> AllKnown()
    {
      hide InOrder;
      eventSend := Fired(eventSend, now);
      for i := 0 to ports
        invariant Valid() && (old(checkPending) ==> checkPending)
        invariant forall k :: 0 <= k < i ==> Notified(eventSend[k], wakeUpInfo[k])
        invariant forall k :: 0 <= k < i ==> Sent(k, now) && (old(SendsNow(k, now)) ==> checkPending)
        invariant forall k :: i <= k < ports ==>
                    wakeUpInfo[k] == old(wakeUpInfo)[k] && buffMess[k] == old(buffMess)[k]
                    && delivered[k] == old(delivered)[k]
      {
        SendPort(i, now);
      }
      forall i | 0 <= i < ports && wakeUpInfo[i].Some? ensures wakeUpInfo[i].value > now {
        assert Sent(i, now);
      }
      forall i | 0 <= i < ports && old(AllKnown()) ensures forall m <- buffMess[i] :: Known(m) {
        assert Sent(i, now);
        assert forall m <- buffMess[i] :: m in old(buffMess)[i];
      }
      forall i | 0 <= i < ports && old(AllChecked()) && Idle(i) ensures checkPending {
        assert Sent(i, now);
        assert old(SendsNow(i, now)) || old(Idle(i));
      }
    }
  }

  /**
   A message from an unknown node is queued, since only its destination is looked up,
   and from then on keeps the queues behind it from being served: the network has an
   idle queue and no receive check pending.
   */
  method UnknownSenderBlocks() returns (net: Network)
    ensures fresh(net) && net.Valid() && !net.AllChecked()
    ensures net.buffMess == [[Message(0, 7, 1, false)], [Message(1, 0, 2, false)]] && 7 !in net.portIndexByNodeID
  {
    hide InOrder;
    var first, second := Message(0, 7, 1, false), Message(1, 0, 2, false);
    assert [] + [first] == [first] && [] + [second] == [second];
    net := new Network(2, map[0 := 0, 1 := 1]);
    assert net.buffMess == [[], []];
    net.PushIntoNetwork(first);
    assert net.buffMess == [[first], []];
    net.PushIntoNetwork(second);
    assert net.buffMess == [[first], [second]];
    assert net.Idle(0) && !net.Routable(0);
    net.CheckReceive(0, [5, 5]);
  }
}
