/**
 The choice of the next message of a Chord node: message buffers in order of
 priority, each with a credit of messages per round, and a timer buffer that is
 looked at only when all others are empty.
 */
module Scheduler {
  import opened Options

  /** message_buffer; the vector m_buffer holds these by value. */
  datatype Buffer<T> = Buffer(
    messages: seq<T>, maxDeep: nat, maxSize: nat, immediate: bool, messCounter: nat, lastCallTime: nat)

  datatype TimerKind = RxAck | RxSuccessorOnJoin | RxSuccessor | RxPredecessor | Update

  datatype Timer = Timer(kind: TimerKind, creatingTime: nat, isDelayed: bool)

  /** The timeouts of m_confParams. */
  datatype Timeouts = Timeouts(rxAck: nat, rxSuccOnJoin: nat, rxSucc: nat, update: nat)

  // ---- one buffer ----

  /** The limits the code configures are positive. */
  predicate Limited<T>(b: Buffer<T>) {
    b.maxDeep >= 1 && b.maxSize >= 1
  }

  function Limit<T>(b: Buffer<T>): nat {
    if b.maxDeep <= b.maxSize then b.maxDeep else b.maxSize
  }

  /** The counter counts only calls of the current moment. */
  function Counted<T>(b: Buffer<T>, now: nat): nat {
    if now != b.lastCallTime then 0 else b.messCounter
  }

  function Credit<T>(b: Buffer<T>, now: nat): nat {
    if Counted(b, now) < Limit(b) then Limit(b) - Counted(b, now) else 0
  }

  /** firstMessIteratorByImmediate would return the first message. */
  predicate Ready<T>(b: Buffer<T>, now: nat) {
    |b.messages| > 0 && (b.immediate || Credit(b, now) > 0)
  }

  /** Its effect on the buffer when it does. */
  function Called<T>(b: Buffer<T>, now: nat): Buffer<T> {
    b.(lastCallTime := now, messCounter := Counted(b, now) + if b.immediate then 0 else 1)
  }

  function EraseFirst<T>(b: Buffer<T>): Buffer<T> {
    b.(messages := if |b.messages| > 0 then b.messages[1..] else [])
  }

  // ---- all buffers but the timers, highest priority first ----

  /** The first buffer that is ready, or the number of buffers. */
  function FirstReady<T>(bs: seq<Buffer<T>>, now: nat): (i: nat)
    ensures i <= |bs| && (i < |bs| ==> Ready(bs[i], now))
    ensures forall k :: 0 <= k < i ==> !Ready(bs[k], now)
  {
    if bs == [] then 0 else if Ready(bs[0], now) then 0 else 1 + FirstReady(bs[1..], now)
  }

  /** clearMessCounter on every buffer that holds a message. */
  function Refill<T>(bs: seq<Buffer<T>>): (r: seq<Buffer<T>>)
    ensures |r| == |bs|
  {
    seq(|bs|, i requires 0 <= i < |bs| => if |bs[i].messages| > 0 then bs[i].(messCounter := 0) else bs[i])
  }

  predicate AllEmpty<T>(bs: seq<Buffer<T>>) {
    forall i :: 0 <= i < |bs| ==> bs[i].messages == []
  }

  /** The buffers when the choice is made: as they are, or with new credit when nobody is ready. */
  function Round<T>(bs: seq<Buffer<T>>, now: nat): (r: seq<Buffer<T>>)
    ensures |r| == |bs|
  {
    if FirstReady(bs, now) < |bs| then bs else Refill(bs)
  }

  /** Which buffer is served. */
  function Chosen<T>(bs: seq<Buffer<T>>, now: nat): nat {
    FirstReady(Round(bs, now), now)
  }

  /** The buffers after one message has been taken and erased. */
  function Served<T>(bs: seq<Buffer<T>>, now: nat): (r: seq<Buffer<T>>)
    ensures |r| == |bs|
  {
    var bs', i := Round(bs, now), Chosen(bs, now);
    if i < |bs| then bs'[i := EraseFirst(Called(bs'[i], now))] else bs'
  }

  /** After a refill every buffer with a message is ready. */
  lemma RefilledIsReady<T>(bs: seq<Buffer<T>>, now: nat)
    requires forall b <- bs :: Limited(b)
    ensures forall i :: 0 <= i < |bs| && bs[i].messages != [] ==> Ready(Refill(bs)[i], now)
    ensures AllEmpty(bs) <==> FirstReady(Refill(bs), now) == |bs|
  {
    forall i | 0 <= i < |bs| && bs[i].messages != [] ensures Ready(Refill(bs)[i], now) {
      assert bs[i] in bs && Limited(bs[i]);
    }
  }

  /** A message is taken exactly when there is one, from the head of one buffer, and nothing else is lost. */
  lemma ServedTakesOne<T>(bs: seq<Buffer<T>>, now: nat)
    requires forall b <- bs :: Limited(b)
    ensures Chosen(bs, now) < |bs| <==> !AllEmpty(bs)
    ensures Chosen(bs, now) < |bs| ==> bs[Chosen(bs, now)].messages != []
    ensures forall i {:trigger Served(bs, now)[i]} :: 0 <= i < |bs| ==>
              var b := Served(bs, now)[i];
              && b.messages == (if i == Chosen(bs, now) then bs[i].messages[1..] else bs[i].messages)
              && b.immediate == bs[i].immediate && b.maxDeep == bs[i].maxDeep && b.maxSize == bs[i].maxSize
  {
    hide Credit, Counted;
    RefilledIsReady(bs, now);
  }

  // ---- nobody waits forever ----

  /** The credits of the first k buffers. */
  function Credits<T>(bs: seq<Buffer<T>>, now: nat, k: nat): nat
    requires k <= |bs|
  {
    if k == 0 then 0 else Credits(bs, now, k - 1) + Credit(bs[k - 1], now)
  }

  function Limits<T>(bs: seq<Buffer<T>>, k: nat): nat
    requires k <= |bs|
  {
    if k == 0 then 0 else Limits(bs, k - 1) + Limit(bs[k - 1])
  }

  lemma {:induction false} CreditsBounded<T>(bs: seq<Buffer<T>>, now: nat, k: nat)
    requires k <= |bs|
    ensures Credits(bs, now, k) <= Limits(bs, k)
  {
    if k > 0 {
      CreditsBounded(bs, now, k - 1);
    }
  }

  lemma {:induction false} LimitsGrow<T>(bs: seq<Buffer<T>>, k: nat, m: nat)
    requires k <= m <= |bs|
    ensures Limits(bs, k) <= Limits(bs, m)
  {
    if k < m {
      LimitsGrow(bs, k, m - 1);
    }
  }

  /** Two lists of buffers with the same credits below k, except at i, where one credit is gone. */
  lemma {:induction false} CreditsDiffer<T>(a: seq<Buffer<T>>, b: seq<Buffer<T>>, now: nat, i: nat, k: nat)
    requires |a| == |b| && k <= |a| && i < |a|
    requires forall m {:trigger b[m]} :: 0 <= m < |a| ==> Credit(b[m], now) + (if m == i then 1 else 0) == Credit(a[m], now)
    ensures Credits(b, now, k) + (if i < k then 1 else 0) == Credits(a, now, k)
  {
    if k > 0 {
      CreditsDiffer(a, b, now, i, k - 1);
      assert Credit(b[k - 1], now) + (if k - 1 == i then 1 else 0) == Credit(a[k - 1], now);
    }
  }

  lemma {:induction false} SameLimits<T>(a: seq<Buffer<T>>, b: seq<Buffer<T>>, k: nat)
    requires |a| == |b| && k <= |a|
    requires forall m {:trigger b[m]} :: 0 <= m < |a| ==> Limit(b[m]) == Limit(a[m])
    ensures Limits(b, k) == Limits(a, k)
  {
    if k > 0 {
      SameLimits(a, b, k - 1);
      assert Limit(b[k - 1]) == Limit(a[k - 1]);
    }
  }

  /** How many calls may serve others before buffer j is served. */
  function Waiting<T>(bs: seq<Buffer<T>>, now: nat, j: nat): nat
    requires j < |bs|
  {
    if Credit(bs[j], now) > 0 then Credits(bs, now, j) else Credits(bs, now, |bs|) + Limits(bs, j)
  }

  /** What may happen between two calls: messages are appended; immediate buffers stay empty. */
  predicate Appended<T(==)>(bs: seq<Buffer<T>>, bs': seq<Buffer<T>>) {
    && |bs'| == |bs|
    && forall i {:trigger bs'[i]} :: 0 <= i < |bs| ==>
         && bs[i].messages <= bs'[i].messages
         && bs'[i] == bs[i].(messages := bs'[i].messages)
         && (bs[i].immediate ==> bs'[i].messages == [])
  }

  lemma CalledCostsOne<T>(b: Buffer<T>, now: nat)
    requires Ready(b, now) && !b.immediate
    ensures Credit(EraseFirst(Called(b, now)), now) + 1 == Credit(b, now)
    ensures Limit(EraseFirst(Called(b, now))) == Limit(b)
  {
  }

  /** A call that does not serve j brings j nearer to being served. */
  lemma WaitingDrops<T>(bs: seq<Buffer<T>>, now: nat, j: nat)
    requires (forall b <- bs :: Limited(b)) && j < |bs| && bs[j].messages != []
    requires forall i :: 0 <= i < |bs| && bs[i].immediate ==> bs[i].messages == []
    requires Chosen(bs, now) != j
    ensures Waiting(Served(bs, now), now, j) < Waiting(bs, now, j)
  {
    RefilledIsReady(bs, now);
    if FirstReady(bs, now) < |bs| {
      ReadyDrops(bs, now, j);
    } else {
      RefillDrops(bs, now, j);
    }
  }

  /** The case in which some buffer still has credit. */
  lemma ReadyDrops<T>(bs: seq<Buffer<T>>, now: nat, j: nat)
    requires j < |bs| && bs[j].messages != []
    requires forall i :: 0 <= i < |bs| && bs[i].immediate ==> bs[i].messages == []
    requires FirstReady(bs, now) < |bs| && FirstReady(bs, now) != j
    ensures Waiting(Served(bs, now), now, j) < Waiting(bs, now, j)
  {
    hide Credits, Limits, Counted;
    var i, after := FirstReady(bs, now), Served(bs, now);
    CalledCostsOne(bs[i], now);
    assert forall m {:trigger after[m]} :: 0 <= m < |bs| ==> Credit(after[m], now) + (if m == i then 1 else 0) == Credit(bs[m], now);
    CreditsDiffer(bs, after, now, i, j);
    CreditsDiffer(bs, after, now, i, |bs|);
    SameLimits(bs, after, j);
    assert Credit(after[j], now) == Credit(bs[j], now);
    assert !Ready(bs[j], now) ==> Credit(bs[j], now) == 0;
  }

  /** The case in which a new round of credits starts. */
  lemma RefillDrops<T>(bs: seq<Buffer<T>>, now: nat, j: nat)
    requires (forall b <- bs :: Limited(b)) && j < |bs| && bs[j].messages != []
    requires forall i :: 0 <= i < |bs| && bs[i].immediate ==> bs[i].messages == []
    requires FirstReady(bs, now) == |bs| && FirstReady(Refill(bs), now) < j
    ensures Waiting(Served(bs, now), now, j) < Waiting(bs, now, j)
  {
    hide Credits, Limits;
    var full, after, i := Refill(bs), Served(bs, now), FirstReady(Refill(bs), now);
    RefilledIsReady(bs, now);
    assert !Ready(bs[j], now) && Ready(full[j], now);
    CalledCostsOne(full[i], now);
    assert forall m {:trigger after[m]} :: 0 <= m < |bs| ==> Credit(after[m], now) + (if m == i then 1 else 0) == Credit(full[m], now);
    CreditsDiffer(full, after, now, i, j);
    CreditsBounded(full, now, j);
    SameLimits(bs, full, j);
    assert Credit(after[j], now) == Credit(full[j], now);
  }

  /** Calls at one moment, with messages appended in between: run[k] is the state before call k. */
  ghost predicate Calls<T(!new)>(now: nat, run: seq<seq<Buffer<T>>>) {
    && |run| > 0
    && (forall b <- run[0] :: Limited(b))
    && forall k {:trigger run[k]} :: 0 < k < |run| ==> Appended(Served(run[k - 1], now), run[k])
  }

  lemma {:induction false} AppendedKeeps<T>(bs: seq<Buffer<T>>, bs': seq<Buffer<T>>, now: nat, k: nat)
    requires Appended(bs, bs') && k <= |bs|
    ensures Credits(bs', now, k) == Credits(bs, now, k) && Limits(bs', k) == Limits(bs, k)
  {
    if k > 0 {
      AppendedKeeps(bs, bs', now, k - 1);
      assert bs'[k - 1] == bs[k - 1].(messages := bs'[k - 1].messages);
    }
  }

  /** As long as j is not served its head stays and its wait gets shorter. */
  lemma {:induction false} WaitingInRun<T(!new)>(now: nat, run: seq<seq<Buffer<T>>>, j: nat, k: nat)
    requires Calls(now, run) && k < |run| && j < |run[0]| && run[0][j].messages != []
    requires forall i :: 0 <= i < |run[0]| && run[0][i].immediate ==> run[0][i].messages == []
    requires forall i {:trigger run[i]} :: 0 <= i < k ==> Chosen(run[i], now) != j
    ensures |run[k]| == |run[0]| && run[0][j].messages <= run[k][j].messages
    ensures forall b <- run[k] :: Limited(b)
    ensures forall i :: 0 <= i < |run[k]| && run[k][i].immediate ==> run[k][i].messages == []
    ensures Limits(run[k], |run[k]|) == Limits(run[0], |run[0]|)
    ensures Waiting(run[k], now, j) + k <= Waiting(run[0], now, j)
  {
    hide FirstReady, Refill, Served, Chosen, Waiting, Limits;
    if k > 0 {
      WaitingInRun(now, run, j, k - 1);
      var bs, served := run[k - 1], Served(run[k - 1], now);
      assert Appended(served, run[k]);
      assert Chosen(bs, now) != j;
      StepInRun(bs, run[k], now, j);
    }
  }

  lemma StepInRun<T>(bs: seq<Buffer<T>>, next: seq<Buffer<T>>, now: nat, j: nat)
    requires (forall b <- bs :: Limited(b)) && j < |bs| && bs[j].messages != []
    requires forall i :: 0 <= i < |bs| && bs[i].immediate ==> bs[i].messages == []
    requires Chosen(bs, now) != j && Appended(Served(bs, now), next)
    ensures |next| == |bs| && bs[j].messages <= next[j].messages
    ensures forall b <- next :: Limited(b)
    ensures forall i :: 0 <= i < |next| && next[i].immediate ==> next[i].messages == []
    ensures Limits(next, |next|) == Limits(bs, |bs|)
    ensures Waiting(next, now, j) < Waiting(bs, now, j)
  {
    hide FirstReady, Refill, Served, Chosen, Credits, Limits, Credit, Counted;
    var served := Served(bs, now);
    ServedTakesOne(bs, now);
    WaitingDrops(bs, now, j);
    AppendedKeeps(served, next, now, j);
    AppendedKeeps(served, next, now, |bs|);
    SameLimits(bs, served, |bs|);
    assert next[j] == served[j].(messages := next[j].messages);
    SameCredit(served[j], next[j], now);
    forall b | b in next ensures Limited(b) {
      var i :| 0 <= i < |next| && next[i] == b;
      assert next[i] == served[i].(messages := next[i].messages);
      assert bs[i] in bs;
    }
    forall i | 0 <= i < |next| && next[i].immediate ensures next[i].messages == [] {
      assert next[i] == served[i].(messages := next[i].messages);
    }
  }

  lemma SameCredit<T>(b: Buffer<T>, b': Buffer<T>, now: nat)
    requires b' == b.(messages := b'.messages)
    ensures Credit(b', now) == Credit(b, now)
  {
  }

  /** Call number k takes the message that was the head of buffer j at the start. */
  ghost predicate TakesHead<T(!new)>(now: nat, run: seq<seq<Buffer<T>>>, j: nat, k: nat) {
    && k < |run| && j < |run[k]| && j < |run[0]|
    && Chosen(run[k], now) == j
    && run[k][j].messages != [] && run[0][j].messages != []
    && run[k][j].messages[0] == run[0][j].messages[0]
  }

  ghost predicate Quiet<T(!new)>(now: nat, run: seq<seq<Buffer<T>>>, j: nat) {
    && Calls(now, run) && j < |run[0]| && run[0][j].messages != []
    && forall i :: 0 <= i < |run[0]| && run[0][i].immediate ==> run[0][i].messages == []
  }

  lemma SomeCallServes<T(!new)>(now: nat, run: seq<seq<Buffer<T>>>, j: nat, n: nat) returns (k: nat)
    requires Quiet(now, run, j) && n == 2 * Limits(run[0], |run[0]|) <= |run|
    ensures k < n && Chosen(run[k], now) == j
  {
    hide FirstReady, Refill, Served, Chosen, Waiting, Limits;
    RunLimited(now, run);
    WaitingBound(run[0], now, j);
    if forall k: nat :: k < n ==> Chosen(run[k], now) != j {
      WaitingInRun(now, run, j, n - 1);
      WaitingDrops(run[n - 1], now, j);
      assert false;
    }
    k :| k < n && Chosen(run[k], now) == j;
  }

  /**
   While time stands still and the immediate buffers are empty, the head of any
   non-empty buffer is served within twice the sum of the limits, whatever is
   appended to the others meanwhile.
   */
  lemma HeadIsServed<T(!new)>(now: nat, run: seq<seq<Buffer<T>>>, j: nat)
    requires Quiet(now, run, j) && |run| >= 2 * Limits(run[0], |run[0]|)
    ensures exists k: nat :: k < 2 * Limits(run[0], |run[0]|) && TakesHead(now, run, j, k)
  {
    hide FirstReady, Refill, Served, Chosen, Waiting, Limits;
    var k := SomeCallServes(now, run, j, 2 * Limits(run[0], |run[0]|));
    var first := FirstChoice(now, run, j, k);
    WaitingInRun(now, run, j, first);
    assert TakesHead(now, run, j, first);
  }

  lemma RunLimited<T(!new)>(now: nat, run: seq<seq<Buffer<T>>>)
    requires Calls(now, run)
    ensures forall b <- run[0] :: Limited(b)
  {
  }

  lemma {:induction false} FirstChoice<T(!new)>(now: nat, run: seq<seq<Buffer<T>>>, j: nat, k: nat) returns (first: nat)
    requires k < |run| && Chosen(run[k], now) == j
    ensures first <= k && Chosen(run[first], now) == j
    ensures forall i {:trigger run[i]} :: 0 <= i < first ==> Chosen(run[i], now) != j
  {
    if i: nat :| i < k && Chosen(run[i], now) == j {
      first := FirstChoice(now, run, j, i);
    } else {
      first := k;
    }
  }

  lemma WaitingBound<T>(bs: seq<Buffer<T>>, now: nat, j: nat)
    requires (forall b <- bs :: Limited(b)) && j < |bs|
    ensures Waiting(bs, now, j) + 1 <= 2 * Limits(bs, |bs|)
  {
    assert bs[j] in bs;
    CreditsBounded(bs, now, j);
    CreditsBounded(bs, now, |bs|);
    LimitsGrow(bs, j + 1, |bs|);
  }
}
