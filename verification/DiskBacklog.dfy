/**
 The leader's disk in Sample2: bits are written at certain moments and drained at a
 constant speed. Times are natural numbers, amounts are real numbers. An update at
 the same moment as the previous one throws the backlog away; everything else is
 accounted for.
 */
module DiskBacklog {

  datatype Write = Write(time: nat, bits: real)

  /** lastUpdateTime and currentDiskBuffer. */
  datatype Disk = Disk(last: nat, backlog: real)

  /** What UpdateDiskInfo counts as written to disk since the last update. */
  function Written(speed: real, d: Disk, time: nat): real
    requires d.last <= time
  {
    if d.backlog > 0.0 && time - d.last > 0 then
      var written := speed * (time - d.last) as real;
      if d.backlog > written then written else d.backlog
    else 0.0
  }

  /** UpdateDiskInfo: without elapsed time the new buffer starts from zero. */
  function Update(speed: real, d: Disk, w: Write): Disk
    requires d.last <= w.time
  {
    var newDiskBuffer :=
      if d.backlog > 0.0 && w.time - d.last > 0 then d.backlog - Written(speed, d, w.time) else 0.0;
    Disk(w.time, newDiskBuffer + w.bits)
  }

  class Leader {
    const isSleader: bool
    const diskspeed: real
    var lastUpdateTime: nat
    var currentDiskBuffer: real

    constructor (isSleader: bool, diskspeed: real)
      ensures this.isSleader == isSleader && this.diskspeed == diskspeed && Value() == Disk(0, 0.0)
    {
      this.isSleader, this.diskspeed := isSleader, diskspeed;
      lastUpdateTime, currentDiskBuffer := 0, 0.0;
    }

    function Value(): Disk
      reads this
    {
      Disk(lastUpdateTime, currentDiskBuffer)
    }

    method UpdateDiskInfo(currTime: nat, bitsWritten: real)
      requires lastUpdateTime <= currTime
      modifies this
      ensures Value() == if isSleader then Update(diskspeed, old(Value()), Write(currTime, bitsWritten)) else old(Value())
    {
      if isSleader {
        var timeElapsed := currTime - lastUpdateTime;
        var newDiskBuffer := 0.0;
        var written := 0.0;
        if currentDiskBuffer > 0.0 && timeElapsed > 0 {
          written := diskspeed * timeElapsed as real;
          if currentDiskBuffer > written {
            newDiskBuffer := currentDiskBuffer - written;
          } else {
            newDiskBuffer := 0.0;
            written := currentDiskBuffer;
          }
        }
        lastUpdateTime := currTime;
        currentDiskBuffer := newDiskBuffer + bitsWritten;
      }
    }
  }

  // ---- histories of updates ----

  /** Simulated time never runs backwards, and amounts are not negative. */
  predicate History(ws: seq<Write>) {
    && (forall i :: 0 <= i < |ws| ==> ws[i].bits >= 0.0)
    && (forall i, j :: 0 <= i <= j < |ws| ==> ws[i].time <= ws[j].time)
  }

  function After(speed: real, ws: seq<Write>): (d: Disk)
    requires History(ws)
    ensures ws != [] ==> d.last == ws[|ws| - 1].time
    ensures ws == [] ==> d == Disk(0, 0.0)
  {
    if ws == [] then Disk(0, 0.0)
    else
      var before := ws[..|ws| - 1];
      assert |ws| >= 2 ==> ws[|ws| - 2].time <= ws[|ws| - 1].time;
      Update(speed, After(speed, before), ws[|ws| - 1])
  }

  function BitsIn(ws: seq<Write>): real {
    if ws == [] then 0.0 else BitsIn(ws[..|ws| - 1]) + ws[|ws| - 1].bits
  }

  /** Everything counted as written to disk. */
  function Drained(speed: real, ws: seq<Write>): real
    requires History(ws)
  {
    if ws == [] then 0.0
    else
      var n := |ws| - 1;
      assert n >= 1 ==> ws[n - 1].time <= ws[n].time;
      Drained(speed, ws[..n]) + Written(speed, After(speed, ws[..n]), ws[n].time)
  }

  /** Update number k comes at the moment of the previous one and finds a backlog. */
  predicate Resets(speed: real, ws: seq<Write>, k: nat)
    requires History(ws) && k < |ws|
  {
    After(speed, ws[..k]).backlog > 0.0 && ws[k].time == After(speed, ws[..k]).last
  }

  /** What such updates throw away. */
  function Lost(speed: real, ws: seq<Write>): (x: real)
    requires History(ws)
    ensures x >= 0.0
  {
    if ws == [] then 0.0
    else
      var n := |ws| - 1;
      Lost(speed, ws[..n]) + if Resets(speed, ws, n) then After(speed, ws[..n]).backlog else 0.0
  }

  lemma {:induction false} BacklogNotNegative(speed: real, ws: seq<Write>)
    requires History(ws) && speed >= 0.0
    ensures After(speed, ws).backlog >= 0.0
  {
    if ws != [] {
      BacklogNotNegative(speed, ws[..|ws| - 1]);
    }
  }

  /** Every bit is on disk, in the backlog, or thrown away by a same-time update. */
  lemma {:induction false} BitsAreAccounted(speed: real, ws: seq<Write>)
    requires History(ws) && speed >= 0.0
    ensures BitsIn(ws) == Drained(speed, ws) + After(speed, ws).backlog + Lost(speed, ws)
  {
    if ws != [] {
      var n := |ws| - 1;
      BitsAreAccounted(speed, ws[..n]);
      BacklogNotNegative(speed, ws[..n]);
    }
  }

  lemma {:induction false} LostIsResets(speed: real, ws: seq<Write>)
    requires History(ws)
    ensures Lost(speed, ws) == 0.0 <==> forall k :: 0 <= k < |ws| ==> !Resets(speed, ws, k)
  {
    hide After, Update;
    if ws != [] {
      var n := |ws| - 1;
      LostIsResets(speed, ws[..n]);
      forall k | 0 <= k < n ensures Resets(speed, ws[..n], k) == Resets(speed, ws, k) {
        assert ws[..n][..k] == ws[..k];
      }
    }
  }

  /** Bits in are bits drained plus backlog exactly if no update came at the moment of the one before with a backlog left. */
  lemma ConservationHolds(speed: real, ws: seq<Write>)
    requires History(ws) && speed >= 0.0
    ensures BitsIn(ws) == Drained(speed, ws) + After(speed, ws).backlog
            <==> forall k :: 0 <= k < |ws| ==> !Resets(speed, ws, k)
  {
    BitsAreAccounted(speed, ws);
    LostIsResets(speed, ws);
  }

  /** Two writes at one moment: the first is forgotten. */
  lemma SameTimeLosesBacklog()
    ensures var ws := [Write(1, 10.0), Write(1, 5.0)];
            History(ws) && After(1.0, ws).backlog == 5.0 && BitsIn(ws) == 15.0 && Drained(1.0, ws) == 0.0
  {
    var ws := [Write(1, 10.0), Write(1, 5.0)];
    var one := [Write(1, 10.0)];
    assert ws[..1] == one;
    assert one[..0] == [] && After(1.0, one) == Update(1.0, Disk(0, 0.0), one[0]);
    assert BitsIn(one) == BitsIn([]) + 10.0;
    assert Drained(1.0, one) == Drained(1.0, []) + Written(1.0, Disk(0, 0.0), 1);
  }

  // ---- the backlog in closed form ----

  /** What writes i, i+1, ... would leave if the disk had never been idle since write i. */
  function Pending(speed: real, ws: seq<Write>, i: nat): real
    requires i < |ws|
  {
    BitsIn(ws) - BitsIn(ws[..i]) - Drain(speed, ws[i].time, ws[|ws| - 1].time)
  }

  /** What the disk can write between two moments. */
  function Drain(speed: real, from: int, to: int): real {
    speed * (to - from) as real
  }

  lemma DrainSplits(speed: real, a: int, b: int, c: int)
    ensures Drain(speed, a, c) == Drain(speed, a, b) + Drain(speed, b, c) && Drain(speed, a, a) == 0.0
    ensures speed >= 0.0 && a <= b ==> Drain(speed, a, b) >= 0.0
  {
    assert (c - a) as real == (b - a) as real + (c - b) as real;
  }

  /** The backlog is the maximum of these over all i. */
  ghost predicate BacklogIsMax(speed: real, ws: seq<Write>)
    requires History(ws)
  {
    ws != [] ==>
      && (exists i :: 0 <= i < |ws| && After(speed, ws).backlog == Pending(speed, ws, i))
      && (forall i :: 0 <= i < |ws| ==> Pending(speed, ws, i) <= After(speed, ws).backlog)
  }

  lemma LastPending(speed: real, ws: seq<Write>)
    requires ws != []
    ensures Pending(speed, ws, |ws| - 1) == ws[|ws| - 1].bits
  {
    hide Drain;
    DrainSplits(speed, ws[|ws| - 1].time, ws[|ws| - 1].time, ws[|ws| - 1].time);
  }

  lemma OlderPending(speed: real, ws: seq<Write>, i: nat)
    requires i < |ws| - 1
    ensures var n := |ws| - 1;
            Pending(speed, ws, i)
            == Pending(speed, ws[..n], i) - Drain(speed, ws[n - 1].time, ws[n].time) + ws[n].bits
  {
    hide Drain;
    var n := |ws| - 1;
    assert ws[..n][..i] == ws[..i];
    DrainSplits(speed, ws[i].time, ws[n - 1].time, ws[n].time);
  }

  /** An update that resets nothing drains what the time allows, down to zero. */
  lemma UpdateDrains(speed: real, d: Disk, w: Write)
    requires d.last <= w.time && d.backlog >= 0.0 && speed >= 0.0
    requires !(d.backlog > 0.0 && w.time == d.last)
    ensures var left := d.backlog - Drain(speed, d.last, w.time);
            Update(speed, d, w).backlog == (if left > 0.0 then left else 0.0) + w.bits
  {
    DrainSplits(speed, d.last, w.time, w.time);
  }

  /** Without a same-time update the maximum moves on with the backlog. */
  lemma MaxStep(speed: real, ws: seq<Write>)
    requires History(ws) && speed >= 0.0 && ws != [] && !Resets(speed, ws, |ws| - 1)
    requires BacklogIsMax(speed, ws[..|ws| - 1])
    ensures BacklogIsMax(speed, ws)
  {
    hide BitsIn, Pending, Drain, Update;
    var n := |ws| - 1;
    var before := After(speed, ws[..n]);
    LastPending(speed, ws);
    BacklogNotNegative(speed, ws[..n]);
    assert n > 0 ==> ws[n - 1].time <= ws[n].time;
    UpdateDrains(speed, before, ws[n]);
    if n > 0 {
      forall i | 0 <= i < n ensures Pending(speed, ws, i) <= After(speed, ws).backlog {
        OlderPending(speed, ws, i);
      }
      var i :| 0 <= i < n && before.backlog == Pending(speed, ws[..n], i);
      OlderPending(speed, ws, i);
      assert After(speed, ws).backlog == Pending(speed, ws, i) || After(speed, ws).backlog == Pending(speed, ws, n);
    } else {
      DrainSplits(speed, 0, ws[n].time, 0);
      assert After(speed, ws).backlog == Pending(speed, ws, n);
    }
  }

  /** A same-time update falls below the maximum. */
  lemma ResetIsBelow(speed: real, ws: seq<Write>)
    requires History(ws) && ws != [] && Resets(speed, ws, |ws| - 1)
    requires BacklogIsMax(speed, ws[..|ws| - 1])
    ensures !BacklogIsMax(speed, ws)
  {
    var n := |ws| - 1;
    assert n > 0;
    var i :| 0 <= i < n && After(speed, ws[..n]).backlog == Pending(speed, ws[..n], i);
    OlderPending(speed, ws, i);
    DrainSplits(speed, ws[n].time, ws[n].time, 0);
    assert After(speed, ws).backlog == ws[n].bits < Pending(speed, ws, i);
  }

  lemma {:induction false} MaxWithoutResets(speed: real, ws: seq<Write>)
    requires History(ws) && speed >= 0.0
    requires forall k :: 0 <= k < |ws| ==> !Resets(speed, ws, k)
    ensures BacklogIsMax(speed, ws)
  {
    if ws != [] {
      var n := |ws| - 1;
      forall k | 0 <= k < n ensures !Resets(speed, ws[..n], k) {
        assert ws[..n][..k] == ws[..k] && !Resets(speed, ws, k);
      }
      MaxWithoutResets(speed, ws[..n]);
      MaxStep(speed, ws);
    }
  }

  lemma ResetsInPrefix(speed: real, ws: seq<Write>, k: nat, j: nat)
    requires History(ws) && j < k <= |ws|
    ensures History(ws[..k]) && Resets(speed, ws[..k], j) == Resets(speed, ws, j)
  {
    hide After;
    assert ws[..k][..j] == ws[..j];
  }

  /**
   The backlog is at all times the maximum over suffixes of bits added minus speed
   times time elapsed, exactly if no update came at the moment of the one before
   with a backlog left.
   */
  lemma BacklogFormulaHolds(speed: real, ws: seq<Write>)
    requires History(ws) && speed >= 0.0
    ensures (forall k :: 0 <= k <= |ws| ==> BacklogIsMax(speed, ws[..k]))
            <==> forall k :: 0 <= k < |ws| ==> !Resets(speed, ws, k)
  {
    hide BacklogIsMax, Resets, After;
    if forall k :: 0 <= k < |ws| ==> !Resets(speed, ws, k) {
      forall k | 0 <= k <= |ws| ensures BacklogIsMax(speed, ws[..k]) {
        forall j | 0 <= j < k ensures !Resets(speed, ws[..k], j) {
          ResetsInPrefix(speed, ws, k, j);
        }
        MaxWithoutResets(speed, ws[..k]);
      }
    } else {
      var k :| 0 <= k < |ws| && Resets(speed, ws, k);
      if forall j :: 0 <= j <= |ws| ==> BacklogIsMax(speed, ws[..j]) {
        assert ws[..k + 1][..k] == ws[..k];
        ResetsInPrefix(speed, ws, k + 1, k);
        assert BacklogIsMax(speed, ws[..k]) && BacklogIsMax(speed, ws[..k + 1]);
        ResetIsBelow(speed, ws[..k + 1]);
      }
    }
  }

  /** In particular it holds when no two updates share a moment. */
  lemma StrictlyIncreasingTimes(speed: real, ws: seq<Write>)
    requires History(ws) && speed >= 0.0
    requires forall i, j :: 0 <= i < j < |ws| ==> ws[i].time < ws[j].time
    ensures BacklogIsMax(speed, ws) && BitsIn(ws) == Drained(speed, ws) + After(speed, ws).backlog
  {
    forall k | 0 <= k < |ws| ensures !Resets(speed, ws, k) {
      assert k > 0 ==> ws[k - 1].time < ws[k].time;
    }
    MaxWithoutResets(speed, ws);
    ConservationHolds(speed, ws);
  }
}
