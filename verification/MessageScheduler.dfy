/**
 firstMessByPriority and eraseFirstMess as they work on the buffers in place, proved
 to serve what the functions of Scheduler say.
 */
module MessageScheduler {
  import opened Options
  import opened Scheduler

  datatype Taken<T> = Message(value: T) | Fired(timer: Timer) | Nothing

  // ---- timers ----

  /** The code waits TrxSucc for a PREDECESSOR message too. */
  function Timeout(t: Timeouts, kind: TimerKind): nat {
    match kind
    case RxAck => t.rxAck
    case RxSuccessorOnJoin => t.rxSuccOnJoin
    case RxSuccessor => t.rxSucc
    case RxPredecessor => t.rxSucc
    case Update => t.update
  }

  function WhenTriggered(t: Timeouts, timer: Timer): nat {
    timer.creatingTime + Timeout(t, timer.kind)
  }

  /** A timer of this kind falls due a certain time after its creation, from the configured timeouts. */
  lemma TimerFallsDue(t: Timeouts, timer: Timer)
    ensures timer.kind == RxAck ==> WhenTriggered(t, timer) == timer.creatingTime + t.rxAck
    ensures timer.kind == RxSuccessorOnJoin ==> WhenTriggered(t, timer) == timer.creatingTime + t.rxSuccOnJoin
    ensures timer.kind == RxSuccessor ==> WhenTriggered(t, timer) == timer.creatingTime + t.rxSucc
    ensures timer.kind == RxPredecessor ==> WhenTriggered(t, timer) == timer.creatingTime + t.rxSucc
    ensures timer.kind == Update ==> WhenTriggered(t, timer) == timer.creatingTime + t.update
  {
  }

  /** A timer that may be taken now. */
  predicate Due(t: Timeouts, timer: Timer, now: nat, delayedToo: bool) {
    now >= WhenTriggered(t, timer) && (delayedToo || !timer.isDelayed)
  }

  function FirstDue(t: Timeouts, timers: seq<Timer>, now: nat, delayedToo: bool): (i: nat)
    ensures i <= |timers| && (i < |timers| ==> Due(t, timers[i], now, delayedToo))
    ensures forall k :: 0 <= k < i ==> !Due(t, timers[k], now, delayedToo)
  {
    if timers == [] then 0 else if Due(t, timers[0], now, delayedToo) then 0
    else 1 + FirstDue(t, timers[1..], now, delayedToo)
  }

  lemma ReadyHolds<T>(b: Buffer<T>, now: nat)
    requires Ready(b, now)
    ensures b.messages != []
  {
  }

  /** The core is woken when the first timer that is still running falls due, if there is one. */
  ghost predicate WokenInTime(t: Timeouts, timers: seq<Timer>, now: nat, wake: Option<nat>) {
    && (wake.Some? <==> exists k :: 0 <= k < |timers| && now < WhenTriggered(t, timers[k]))
    && (wake.Some? ==>
          && (exists k :: 0 <= k < |timers| && now + wake.value == WhenTriggered(t, timers[k]))
          && forall k :: 0 <= k < |timers| && now < WhenTriggered(t, timers[k]) ==> now + wake.value <= WhenTriggered(t, timers[k]))
  }

  class MessageBuffers<T> {
    var buffers: seq<Buffer<T>>       // m_buffer without the timer buffer, highest priority first
    var timers: seq<Timer>            // the timer buffer
    const timeouts: Timeouts
    var canTakeDelayedTimers: bool
    var bufferCalled: Option<nat>     // m_indexLastBufferCall, None when the timer buffer was called
    var timerForRemove: Option<nat>   // m_timerItForRemove

    ghost predicate Valid()
      reads this
    {
      forall b <- buffers :: Limited(b)
    }

    /**
     push into buffer i: a full buffer loses its oldest message, which the result
     reports, so a buffer never holds more than maxSize.
     */
    method Push(i: nat, r: T, toBack: bool) returns (pushWithoutErase: bool)
      requires Valid() && i < |buffers| && Limited(buffers[i])
      modifies this`buffers
      ensures Valid()
      ensures pushWithoutErase == (|old(buffers)[i].messages| < old(buffers)[i].maxSize)
      ensures var kept := if pushWithoutErase then old(buffers)[i].messages else old(buffers)[i].messages[1..];
              buffers == old(buffers)[i := old(buffers)[i].(messages := if toBack then kept + [r] else [r] + kept)]
      ensures |old(buffers)[i].messages| <= old(buffers)[i].maxSize ==> |buffers[i].messages| <= buffers[i].maxSize
    {
      var b := buffers[i];
      pushWithoutErase := true;
      if |b.messages| >= b.maxSize {
        pushWithoutErase := false;
        b := b.(messages := b.messages[1..]);
      }
      if toBack {
        b := b.(messages := b.messages + [r]);
      } else {
        b := b.(messages := [r] + b.messages);
      }
      buffers := buffers[i := b];
    }

    /** firstMessPointerByImmediate of buffer i. */
    method FirstByImmediate(i: nat, now: nat) returns (p: Option<T>)
      requires Valid() && i < |buffers|
      modifies this`buffers
      ensures p.Some? == Ready(old(buffers[i]), now)
      ensures var b, used := old(buffers)[i], if now == old(buffers)[i].lastCallTime then old(buffers)[i].messCounter else 0;
              && |buffers| == |old(buffers)|
              && p.Some? == (b.messages != [] && (b.immediate || (used < b.maxDeep && used < b.maxSize)))
              && buffers[i].messCounter == (if p.None? then b.messCounter else if b.immediate then used else used + 1)
              && buffers[i].lastCallTime == (if p.None? then b.lastCallTime else now)
      ensures p.Some? ==> p.value == old(buffers[i].messages[0])
      ensures buffers == if p.Some? then old(buffers)[i := Called(old(buffers[i]), now)] else old(buffers)
    {
      var b := buffers[i];
      assert b in buffers && Limited(b);
      p := None;
      if |b.messages| > 0 {
        if now != b.lastCallTime {
          b := b.(messCounter := 0);
        }
        if b.immediate {
          p := Some(b.messages[0]);
          b := b.(lastCallTime := now);
        } else if b.messCounter < b.maxDeep && b.messCounter < b.maxSize {
          p := Some(b.messages[0]);
          b := b.(lastCallTime := now, messCounter := b.messCounter + 1);
        }
      }
      assert p.None? ==> b == buffers[i];
      buffers := buffers[i := b];
    }

    /** The first loop: the first ready buffer is called. */
    method CallFirstReady(now: nat) returns (p: Option<T>)
      requires Valid()
      modifies this`buffers, this`bufferCalled
      ensures var i := FirstReady(old(buffers), now);
              if i < |old(buffers)|
              then old(buffers)[i].messages != []
                   && p == Some(old(buffers[i].messages[0])) && bufferCalled == Some(i)
                   && buffers == old(buffers)[i := Called(old(buffers[i]), now)]
              else p == None && bufferCalled == None && buffers == old(buffers)
    {
      hide Ready, Limited;
      bufferCalled := None;
      for i := 0 to |buffers|
        invariant buffers == old(buffers) && bufferCalled == None
        invariant forall k :: 0 <= k < i ==> !Ready(buffers[k], now)
      {
        p := FirstByImmediate(i, now);
        if p.Some? {
          ReadyHolds(old(buffers)[i], now);
          bufferCalled := Some(i);
          return;
        }
      }
      p := None;
    }

    /** The second loop: every buffer that holds a message gets new credit. */
    method ClearCounters() returns (buffersEmpty: bool)
      modifies this`buffers
      ensures buffers == Refill(old(buffers))
      ensures |buffers| == |old(buffers)|
      ensures forall k :: 0 <= k < |buffers| ==>
                buffers[k] == if old(buffers)[k].messages == [] then old(buffers)[k] else old(buffers)[k].(messCounter := 0)
      ensures buffersEmpty == AllEmpty(old(buffers))
    {
      buffersEmpty := true;
      var n := |buffers|;
      for i := 0 to n
        invariant |buffers| == n
        invariant forall k :: 0 <= k < i ==> buffers[k] == Refill(old(buffers))[k]
        invariant forall k :: i <= k < n ==> buffers[k] == old(buffers)[k]
        invariant buffersEmpty == forall k :: 0 <= k < i ==> old(buffers)[k].messages == []
      {
        if |buffers[i].messages| > 0 {
          buffersEmpty := false;
          buffers := buffers[i := buffers[i].(messCounter := 0)];
        }
      }
    }

    /** The timers, once no other message is left; wake is when the next one falls due. */
    method FirstTimer(now: nat) returns (r: Taken<T>, wake: Option<nat>)
      modifies this`timerForRemove
      ensures var i := FirstDue(timeouts, timers, now, canTakeDelayedTimers);
              if i < |timers| then r == Fired(timers[i]) && timerForRemove == Some(i) && wake == None
              else r == Nothing && timerForRemove == None && WokenInTime(timeouts, timers, now, wake)
    {
      hide Timeout;
      timerForRemove, wake := None, None;
      for i := 0 to |timers|
        invariant timerForRemove == None
        invariant forall k :: 0 <= k < i ==> !Due(timeouts, timers[k], now, canTakeDelayedTimers)
        invariant wake.Some? <==> exists k :: 0 <= k < i && now < WhenTriggered(timeouts, timers[k])
        invariant wake.Some? ==> exists k :: 0 <= k < i && now + wake.value == WhenTriggered(timeouts, timers[k])
        invariant wake.Some? ==> forall k :: 0 <= k < i && now < WhenTriggered(timeouts, timers[k])
                                   ==> now + wake.value <= WhenTriggered(timeouts, timers[k])
      {
        var whenTriggered := WhenTriggered(timeouts, timers[i]);
        if now >= whenTriggered {
          if canTakeDelayedTimers || !timers[i].isDelayed {
            timerForRemove := Some(i);
            return Fired(timers[i]), None;
          }
        } else {
          var delay := whenTriggered - now;
          if wake.None? || wake.value > delay {
            wake := Some(delay);
          }
        }
      }
      r := Nothing;
    }

    /** What becomes of the only timer when there is no message: each kind has its own timeout. */
    ghost predicate LoneTimer(timer: Timer, now: nat, r: Taken<T>, wake: Option<nat>)
      reads this
    {
      var timeout := if timer.kind == Update then timeouts.update else if timer.kind == RxAck then timeouts.rxAck
                     else if timer.kind == RxSuccessorOnJoin then timeouts.rxSuccOnJoin else timeouts.rxSucc;
      && (r == Fired(timer) <==> now >= timer.creatingTime + timeout && (canTakeDelayedTimers || !timer.isDelayed))
      && (r == Fired(timer) ==> timers == [])
      && (r != Fired(timer) ==> r == Nothing && timers == [timer])
      && (now < timer.creatingTime + timeout ==> wake == Some(timer.creatingTime + timeout - now))
    }

    /** eraseFirstMess. */
    method EraseFirstMess()
      requires bufferCalled.Some? ==> bufferCalled.value < |buffers|
      requires timerForRemove.Some? ==> timerForRemove.value < |timers|
      modifies this
      ensures bufferCalled == None && timerForRemove == None && canTakeDelayedTimers == old(canTakeDelayedTimers)
      ensures buffers == match old(bufferCalled)
                         case Some(i) => old(buffers)[i := EraseFirst(old(buffers)[i])]
                         case None => old(buffers)
      ensures timers == if old(bufferCalled).None? && old(timerForRemove).Some?
                        then old(timers)[..old(timerForRemove.value)] + old(timers)[old(timerForRemove.value) + 1..]
                        else old(timers)
    {
      if bufferCalled.Some? {
        buffers := buffers[bufferCalled.value := EraseFirst(buffers[bufferCalled.value])];
      } else if timerForRemove.Some? {
        timers := timers[..timerForRemove.value] + timers[timerForRemove.value + 1..];
      }
      bufferCalled, timerForRemove := None, None;
    }

    /** The loops of firstMessByPriority over the message buffers; at most two rounds are needed. */
    method FirstMessage(now: nat) returns (p: Option<T>)
      requires Valid()
      modifies this`buffers, this`bufferCalled
      ensures var i, bs := Chosen(old(buffers), now), Round(old(buffers), now);
              if i < |bs|
              then bs[i].messages != [] && p == Some(bs[i].messages[0]) && bufferCalled == Some(i)
                   && buffers == bs[i := Called(bs[i], now)]
              else AllEmpty(old(buffers)) && p == None && bufferCalled == None && buffers == bs
    {
      hide Ready, Limited;
      ghost var start := buffers;
      RefilledIsReady(start, now);
      RefillLimited(start);
      RefillTwice(start);
      var buffersEmpty := false;
      while !buffersEmpty
        invariant Valid()
        invariant buffers == start || (FirstReady(start, now) == |start| && buffers == Refill(start))
        invariant buffersEmpty ==> AllEmpty(start) && FirstReady(start, now) == |start| && buffers == Refill(start)
                                   && bufferCalled == None
        decreases !buffersEmpty, if FirstReady(buffers, now) < |buffers| then 0 else 1
      {
        p := CallFirstReady(now);
        if p.Some? {
          return;
        }
        buffersEmpty := ClearCounters();
      }
      p := None;
    }

    /**
     firstMessByPriority followed by eraseFirstMess, as core calls them. A message is
     taken exactly if some buffer holds one, and then no timer; a timer is taken only
     if all buffers are empty and one is due. If nothing is taken, the core is woken when
     the next timer falls due.
     */
    method Next(now: nat) returns (r: Taken<T>, wake: Option<nat>)
      requires Valid()
      modifies this
      ensures Valid() && canTakeDelayedTimers == old(canTakeDelayedTimers)
      ensures buffers == Served(old(buffers), now)
      ensures r.Message? <==> !AllEmpty(old(buffers))
      ensures r.Message? ==> Chosen(old(buffers), now) < |old(buffers)|
                             && old(buffers)[Chosen(old(buffers), now)].messages != []
                             && r.value == old(buffers)[Chosen(old(buffers), now)].messages[0] && timers == old(timers)
      ensures !r.Message? ==>
                var i := FirstDue(timeouts, old(timers), now, canTakeDelayedTimers);
                if i < |old(timers)|
                then r == Fired(old(timers)[i]) && timers == old(timers)[..i] + old(timers)[i + 1..]
                else r == Nothing && timers == old(timers)
      ensures AllEmpty(old(buffers)) && |old(timers)| == 1 ==> LoneTimer(old(timers)[0], now, r, wake)
      ensures if r == Nothing then WokenInTime(timeouts, timers, now, wake) else wake == None
    {
      hide Ready, FirstDue, FirstReady, Refill, Round;
      ServedTakesOne(buffers, now);
      ServedLimited(buffers, now);
      RoundKeeps(buffers, now);
      wake, timerForRemove := None, None;
      var p := FirstMessage(now);
      if p.Some? {
        r := Message(p.value);
      } else {
        r, wake := FirstTimer(now);
      }
      EraseFirstMess();
      if AllEmpty(old(buffers)) && |old(timers)| == 1 {
        LoneTimerTaken(timeouts, old(timers), now, canTakeDelayedTimers);
      }
      assert buffers == Served(old(buffers), now);
    }
  }

  lemma LoneTimerTaken(t: Timeouts, timers: seq<Timer>, now: nat, delayedToo: bool)
    requires |timers| == 1
    ensures FirstDue(t, timers, now, delayedToo) == if Due(t, timers[0], now, delayedToo) then 0 else 1
  {
  }

  lemma RoundKeeps<T>(bs: seq<Buffer<T>>, now: nat)
    ensures forall i {:trigger Round(bs, now)[i]} :: 0 <= i < |bs| ==> Round(bs, now)[i].messages == bs[i].messages
  {
    hide FirstReady;
  }

  lemma RefillLimited<T>(bs: seq<Buffer<T>>)
    requires forall b <- bs :: Limited(b)
    ensures forall b <- Refill(bs) :: Limited(b)
  {
    forall b | b in Refill(bs) ensures Limited(b) {
      var i :| 0 <= i < |bs| && Refill(bs)[i] == b;
      assert bs[i] in bs;
    }
  }

  lemma ServedLimited<T>(bs: seq<Buffer<T>>, now: nat)
    requires forall b <- bs :: Limited(b)
    ensures forall b <- Served(bs, now) :: Limited(b)
  {
    hide Ready, Refill;
    RefillLimited(bs);
    var bs' := Round(bs, now);
    forall b | b in Served(bs, now) ensures Limited(b) {
      var i :| 0 <= i < |bs| && Served(bs, now)[i] == b;
      assert bs'[i] in bs';
    }
  }

  lemma RefillTwice<T>(bs: seq<Buffer<T>>)
    ensures Refill(Refill(bs)) == Refill(bs)
    ensures AllEmpty(Refill(bs)) == AllEmpty(bs)
  {
    assert forall i :: 0 <= i < |bs| ==> Refill(bs)[i].messages == bs[i].messages;
  }
}
