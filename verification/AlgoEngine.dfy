/** Parent orders as the engine keeps them, and the schedule it plans for one. */
module AlgoEngine {
  import opened Reals
  import opened VolumeCurve
  import opened AlgoExecution

  // ---------- The planned schedule ----------

  datatype Row = Row(sliceIndex: int, qty: int, timeMin: real)

  /** Python's `round(x)`: to the nearest integer, ties to the even one. */
  function RoundHalfEven(x: real): int {
    var below := x.Floor;
    var rest := x - below as real;
    if rest < 0.5 || (rest == 0.5 && below % 2 == 0) then below else below + 1
  }

  /** `round(x, 2)`. */
  function Round2(x: real): real {
    RoundHalfEven(x * 100.0) as real / 100.0
  }

  /** The nearest whole number, the even one of two as near. */
  lemma RoundIff(x: real, n: int)
    ensures RoundHalfEven(x) == n
            <==> n as real - 0.5 < x < n as real + 0.5
                 || (n % 2 == 0 && (x == n as real - 0.5 || x == n as real + 0.5))
  {
  }

  lemma Round2Monotone(x: real, y: real)
    requires x <= y
    ensures Round2(x) <= Round2(y)
  {
    assert RoundHalfEven(x * 100.0) <= RoundHalfEven(y * 100.0);
  }

  lemma Round2Whole(n: int)
    ensures Round2(n as real) == n as real
  {
    assert (n * 100) as real == n as real * 100.0;
    assert RoundHalfEven((n * 100) as real) == n * 100;
  }

  /** The share of the order that should be done by the end of slice i. */
  function Share(o: Order, i: int): real
    requires o.childSize != 0 && NumSlices(o) > 0
  {
    EvenShare(i, NumSlices(o))
  }

  function EvenShare(i: int, n: int): real
    requires n > 0
  {
    (i + 1) as real / n as real
  }

  function EvenTime(i: int, durationMin: int, n: int): real
    requires n > 0
  {
    (i + 1) as real * durationMin as real / n as real
  }

  function DayTime(elapsed: real, durationMin: int): real {
    elapsed * durationMin as real
  }

  /** When slice i is planned, before rounding: VWAP inverts the volume curve, the others space evenly. */
  function SliceTime(o: Order, i: int): real
    requires o.childSize != 0 && NumSlices(o) > 0
  {
    if o.algo == VWAP then DayTime(Bisect(Share(o, i), 0.0, 1.0, 32).0, o.durationMin)
    else EvenTime(i, o.durationMin, NumSlices(o))
  }

  function RowAt(o: Order, i: int): Row
    requires o.childSize != 0 && NumSlices(o) > 0
  {
    var rest := o.totalQty - SharesOf(i, o.childSize);
    Row(i, if o.childSize <= rest then o.childSize else rest, Round2(SliceTime(o, i)))
  }

  function Planned(o: Order, n: nat): (rows: seq<Row>)
    requires o.childSize != 0 && n <= NumSlices(o)
    ensures |rows| == n
  {
    if n == 0 then [] else Planned(o, n - 1) + [RowAt(o, n - 1)]
  }

  /** `get_schedule`. */
  function Schedule(o: Order): seq<Row>
    requires o.childSize != 0
  {
    if NumSlices(o) <= 0 then [] else Planned(o, NumSlices(o))
  }

  function RowTotal(rows: seq<Row>): int {
    if rows == [] then 0 else RowTotal(rows[..|rows| - 1]) + rows[|rows| - 1].qty
  }

  lemma {:induction false} PlannedAt(o: Order, n: nat, i: nat)
    requires o.childSize != 0 && i < n <= NumSlices(o)
    ensures Planned(o, n)[i] == RowAt(o, i)
  {
    hide NumSlices, RowAt;
    if i < n - 1 { PlannedAt(o, n - 1, i); }
  }

  lemma RowQty(o: Order, i: nat)
    requires o.childSize > 0 && o.totalQty > 0 && i < NumSlices(o)
    ensures 1 <= RowAt(o, i).qty <= o.childSize
    ensures i < NumSlices(o) - 1 ==> RowAt(o, i).qty == o.childSize
    ensures i == NumSlices(o) - 1 ==> RowAt(o, i).qty == o.totalQty - SharesOf(i, o.childSize)
  {
    hide NumSlices, SharesOf, SliceTime, Round2;
    PlanBounds(o);
    SharesOfMonotone(i, NumSlices(o) - 1, o.childSize);
    if i < NumSlices(o) - 1 {
      SharesOfMonotone(i + 1, NumSlices(o) - 1, o.childSize);
      SharesOfNext(i, o.childSize);
    }
  }

  lemma {:induction false} PlannedTotal(o: Order, n: nat)
    requires o.childSize > 0 && o.totalQty > 0 && n <= NumSlices(o)
    ensures RowTotal(Planned(o, n)) == if n < NumSlices(o) then SharesOf(n, o.childSize) else o.totalQty
  {
    hide NumSlices, SharesOf, RowAt;
    PlanBounds(o);
    if n == 0 {
      SharesOfNext(0, o.childSize);
    } else {
      PlannedTotal(o, n - 1);
      RowQty(o, n - 1);
      SharesOfNext(n - 1, o.childSize);
      assert Planned(o, n)[..n - 1] == Planned(o, n - 1);
    }
  }

  /** The planned quantities lie between one share and the child size, and add up to exactly the order. */
  lemma ScheduleCovers(o: Order)
    requires o.childSize > 0 && o.totalQty > 0
    ensures |Schedule(o)| == NumSlices(o) > 0
    ensures forall i :: 0 <= i < |Schedule(o)| ==>
        Schedule(o)[i].sliceIndex == i && 1 <= Schedule(o)[i].qty <= o.childSize
    ensures RowTotal(Schedule(o)) == o.totalQty
  {
    hide NumSlices;
    PlanBounds(o);
    PlannedTotal(o, NumSlices(o));
    forall i | 0 <= i < |Schedule(o)|
      ensures Schedule(o)[i].sliceIndex == i && 1 <= Schedule(o)[i].qty <= o.childSize
    {
      PlannedAt(o, NumSlices(o), i);
      RowQty(o, i);
    }
  }

  lemma ScaleAndDivide(i: int, j: int, d: int, n: int)
    requires 0 <= i <= j <= n && n > 0 && d >= 0
    ensures 0.0 <= i as real * d as real / n as real <= j as real * d as real / n as real <= d as real
  {
    Proportions(i as real, j as real, d as real, n as real);
  }

  lemma Proportions(i: real, j: real, d: real, n: real)
    requires 0.0 <= i <= j <= n && n > 0.0 && d >= 0.0
    ensures 0.0 <= i * d / n <= j * d / n <= d
  {
    Scale(i, j, d);
    Scale(j, n, d);
    Scale(0.0, i, d);
    assert 0.0 * d == 0.0;
    DivideThrice(i * d, j * d, n * d, n);
    CancelWhole(n, d);
  }

  lemma DivideThrice(x: real, y: real, z: real, n: real)
    requires 0.0 <= x <= y <= z && n > 0.0
    ensures 0.0 <= x / n <= y / n <= z / n
  {
    Divide(0.0, x, n);
    Divide(x, y, n);
    Divide(y, z, n);
  }

  lemma CancelWhole(n: real, d: real)
    requires n > 0.0
    ensures n * d / n == d
  {
  }

  lemma WithinWindow(a: real, b: real, d: real)
    requires 0.0 <= a <= b <= 1.0 && d >= 0.0
    ensures 0.0 <= a * d <= b * d <= d
  {
    Scale(0.0, a, d);
    Scale(a, b, d);
    Scale(b, 1.0, d);
  }

  lemma ShareMonotone(o: Order, i: int, j: int)
    requires o.childSize != 0 && NumSlices(o) > 0 && i <= j
    ensures Share(o, i) <= Share(o, j)
  {
    hide NumSlices;
    Divide((i + 1) as real, (j + 1) as real, NumSlices(o) as real);
  }

  lemma VwapTimes(o: Order, i: nat, j: nat)
    requires o.childSize != 0 && NumSlices(o) > 0 && o.durationMin >= 0 && i <= j && o.algo == VWAP
    ensures 0.0 <= SliceTime(o, i) <= SliceTime(o, j) <= o.durationMin as real
  {
    hide NumSlices, Bisect, Share;
    var s, t := Share(o, i), Share(o, j);
    ShareMonotone(o, i, j);
    BisectMonotone(s, t, 0.0, 1.0, 32);
    BisectWithin(s, 0.0, 1.0, 32);
    BisectWithin(t, 0.0, 1.0, 32);
    WithinWindow(Bisect(s, 0.0, 1.0, 32).0, Bisect(t, 0.0, 1.0, 32).0, o.durationMin as real);
  }

  lemma SliceTimes(o: Order, i: nat, j: nat)
    requires o.childSize > 0 && o.totalQty > 0 && o.durationMin >= 0 && i <= j < NumSlices(o)
    ensures 0.0 <= SliceTime(o, i) <= SliceTime(o, j) <= o.durationMin as real
  {
    hide NumSlices, Bisect, Share;
    if o.algo == VWAP {
      VwapTimes(o, i, j);
    } else {
      ScaleAndDivide(i + 1, j + 1, o.durationMin, NumSlices(o));
    }
  }

  /** The planned times never go back and stay within the window. */
  lemma ScheduleTimes(o: Order, i: nat, j: nat)
    requires o.childSize > 0 && o.totalQty > 0 && o.durationMin >= 0 && i <= j < NumSlices(o)
    ensures |Schedule(o)| == NumSlices(o)
    ensures 0.0 <= Schedule(o)[i].timeMin <= Schedule(o)[j].timeMin <= o.durationMin as real
  {
    hide NumSlices, SliceTime, Round2;
    PlanBounds(o);
    PlannedAt(o, NumSlices(o), i);
    PlannedAt(o, NumSlices(o), j);
    SliceTimes(o, i, j);
    Round2Monotone(0.0, SliceTime(o, i));
    Round2Monotone(SliceTime(o, i), SliceTime(o, j));
    Round2Monotone(SliceTime(o, j), o.durationMin as real);
    Round2Whole(0);
    Round2Whole(o.durationMin);
  }

  /** At its planned time, before rounding, a VWAP slice finds the curve within 2^-31 below its share of the order. */
  lemma ScheduleFollowsCurve(o: Order, i: nat)
    requires o.childSize > 0 && o.totalQty > 0 && o.algo == VWAP && o.durationMin > 0 && i < NumSlices(o)
    ensures Share(o, i) - 2.0 * HalfPower(32) <= VolumeFraction(SliceTime(o, i) / o.durationMin as real) < Share(o, i)
  {
    hide NumSlices, Bisect, VolumeFraction, HalfPower;
    Divide(1.0, (i + 1) as real, NumSlices(o) as real);
    Divide((i + 1) as real, NumSlices(o) as real, NumSlices(o) as real);
    ShareRange(i + 1, NumSlices(o));
    BisectionInverts(Share(o, i));
    var lo, hi := Bisect(Share(o, i), 0.0, 1.0, 32).0, Bisect(Share(o, i), 0.0, 1.0, 32).1;
    assert VolumeFraction(lo) < Share(o, i) && Share(o, i) - VolumeFraction(lo) <= 2.0 * HalfPower(32);
    ProductOver(lo, o.durationMin as real);
    assert SliceTime(o, i) / o.durationMin as real == lo;
  }

  /** Rounding to two decimals moves a time by at most half a hundredth. */
  lemma Round2Near(x: real)
    ensures x - 0.005 <= Round2(x) <= x + 0.005
  {
  }

  lemma RowTime(o: Order, i: nat)
    requires o.childSize > 0 && o.totalQty > 0 && i < NumSlices(o)
    ensures |Schedule(o)| == NumSlices(o) && Schedule(o)[i].timeMin == Round2(SliceTime(o, i))
  {
    hide NumSlices, SliceTime, Round2;
    PlanBounds(o);
    PlannedAt(o, NumSlices(o), i);
  }

  /** A VWAP slice is printed within half a hundredth of a minute of a time at which the curve is less than 2^-31 short
      of the slices up to it. */
  lemma VwapTimesMean(o: Order, i: nat)
    requires o.childSize > 0 && o.totalQty > 0 && o.durationMin > 0 && i < NumSlices(o) && o.algo == VWAP
    ensures |Schedule(o)| == NumSlices(o)
    ensures exists x ::
              Schedule(o)[i].timeMin - 0.005 <= x <= Schedule(o)[i].timeMin + 0.005 && Reaches(o, i, x)
  {
    hide NumSlices, SliceTime, Round2, VolumeFraction, HalfPower, Schedule;
    RowTime(o, i);
    Round2Near(SliceTime(o, i));
    ScheduleFollowsCurve(o, i);
    assert Reaches(o, i, SliceTime(o, i));
  }

  /** Any other slice is printed within that of its even share x of the window, and the last one at its end. */
  lemma EvenTimesMean(o: Order, i: nat, x: real)
    requires o.childSize > 0 && o.totalQty > 0 && o.durationMin > 0 && i < NumSlices(o) && o.algo != VWAP
    requires x * NumSlices(o) as real == (i + 1) as real * o.durationMin as real
    ensures |Schedule(o)| == NumSlices(o)
    ensures Schedule(o)[i].timeMin - 0.005 <= x <= Schedule(o)[i].timeMin + 0.005
    ensures i == NumSlices(o) - 1 ==> Schedule(o)[i].timeMin == o.durationMin as real
  {
    RowTime(o, i);
    EvenTimeIs(i, o.durationMin, NumSlices(o), x);
    hide NumSlices, Round2, Schedule, EvenTime;
    assert SliceTime(o, i) == x;
    hide SliceTime;
    Round2Near(x);
    if i == NumSlices(o) - 1 {
      EvenTimeIs(i, o.durationMin, NumSlices(o), o.durationMin as real);
      Round2Whole(o.durationMin);
    }
  }

  lemma EvenTimeIs(i: int, d: int, n: int, x: real)
    requires n > 0 && x * n as real == (i + 1) as real * d as real
    ensures EvenTime(i, d, n) == x
  {
    ProductOver(x, n as real);
  }

  predicate Reaches(o: Order, i: nat, x: real)
    requires o.childSize > 0 && NumSlices(o) > 0 && o.durationMin > 0
  {
    var share := (i + 1) as real / NumSlices(o) as real;
    share - 2.0 * HalfPower(32) <= VolumeFraction(x / o.durationMin as real) < share
  }

  lemma ShareRange(k: int, n: int)
    requires 0 < k <= n
    ensures 0.0 < k as real / n as real <= 1.0
  {
    Divide(k as real, n as real, n as real);
  }

  // ---------- A parent order under execution ----------

  class ParentOrder {
    const totalQty: int
    const algo: Algo
    const durationMin: int
    const childSize: int
    const povRate: real
    const urgency: real
    var startTimeNs: int
    var status: Status
    var filledQty: int
    var avgFillPrice: real
    var slicesSent: int
    var children: seq<Child>

    ghost function Terms(): Order
      reads this
    {
      Order(totalQty, algo, durationMin, childSize, povRate, urgency, startTimeNs)
    }

    ghost function Done(): Progress
      reads this
    {
      Progress(status, filledQty, avgFillPrice, slicesSent)
    }

    constructor (totalQty: int, algo: Algo, durationMin: int, childSize: int, povRate: real, urgency: real)
      ensures Terms() == Order(totalQty, algo, durationMin, childSize, povRate, urgency, 0)
      ensures Done() == Progress(Pending, 0, 0.0, 0) && children == []
    {
      this.totalQty, this.algo, this.durationMin, this.childSize := totalQty, algo, durationMin, childSize;
      this.povRate, this.urgency := povRate, urgency;
      startTimeNs, status, filledQty, avgFillPrice, slicesSent, children := 0, Pending, 0, 0.0, 0, [];
    }

    /** A first submission starts the clock and the run of Step from START. */
    method Submit(nowNs: int)
      modifies this
      ensures Terms() == old(Terms()).(startTimeNs := if old(startTimeNs) == 0 then nowNs else old(startTimeNs))
      ensures Done() == old(Done()).(status := Active) && children == []
    {
      if startTimeNs == 0 { startTimeNs := nowNs; }
      status := Active;
      children := [];
    }

    method Cancel() returns (cancelled: bool)
      modifies this
      ensures cancelled <==> old(status) != Completed && old(status) != Cancelled
      ensures Done() == if cancelled then old(Done()).(status := Cancelled) else old(Done())
      ensures Terms() == old(Terms()) && children == old(children)
    {
      if status == Completed || status == Cancelled { return false; }
      status := Cancelled;
      return true;
    }

    /** Asks for a child order: progress and children move as one Request step. */
    method NextChildOrder(nowNs: int, price: real, marketVolume: int, exp: real -> real) returns (sent: seq<Child>)
      requires childSize != 0 && slicesSent >= 0
      modifies this
      ensures (Done(), sent) == old(NextChild(Terms(), Done(), nowNs, price, marketVolume, exp))
      ensures children == old(children) + sent && Terms() == old(Terms())
    {
      if status != Active { return []; }
      var remaining := totalQty - filledQty;
      var planned := CeilDiv(totalQty, childSize);
      if remaining <= 0 || slicesSent >= planned {
        status := Completed;
        return [];
      }
      var order := Order(totalQty, algo, durationMin, childSize, povRate, urgency, startTimeNs);
      var done := Progress(status, filledQty, avgFillPrice, slicesSent);
      if !ShouldSend(order, done, nowNs, marketVolume, exp) { return []; }
      slicesSent := slicesSent + 1;
      var qty := if childSize <= remaining then childSize else remaining;
      sent := [Child(qty, price, slicesSent - 1, nowNs)];
      children := children + sent;
      if slicesSent >= planned { status := Completed; }
    }

    /** Books a fill: progress moves as one Fill step. */
    method BookFill(price: real, qty: int)
      modifies this
      ensures Done() == RecordFill(old(Terms()), old(Done()), price, qty)
      ensures Terms() == old(Terms()) && children == old(children)
    {
      if qty <= 0 { return; }
      var value := Worth(avgFillPrice, filledQty) + Worth(price, qty);
      filledQty := filledQty + qty;
      avgFillPrice := if filledQty > 0 then value / filledQty as real else 0.0;
      if filledQty >= totalQty { status := Completed; }
    }

    /** Finds the elapsed share at which the curve reaches the target by halving the day 32 times. */
    static method InvertCurve(target: real) returns (lo: real)
      ensures lo == Bisect(target, 0.0, 1.0, 32).0
    {
      hide VolumeFraction;
      var hi := 1.0;
      lo := 0.0;
      for k := 0 to 32
        invariant Bisect(target, lo, hi, 32 - k) == Bisect(target, 0.0, 1.0, 32)
      {
        var mid := (lo + hi) / 2.0;
        if VolumeFraction(mid) < target { lo := mid; } else { hi := mid; }
      }
    }

    /** The planned schedule. */
    method GetSchedule() returns (rows: seq<Row>)
      requires childSize != 0
      ensures rows == Schedule(Terms())
    {
      hide Round2, Bisect, NumSlices, EvenShare, EvenTime, DayTime, SharesOf;
      ghost var o := Terms();
      rows := [];
      var n := NumSlices(Order(totalQty, algo, durationMin, childSize, povRate, urgency, startTimeNs));
      var i := 0;
      while i < n
        invariant 0 <= i && (n > 0 ==> i <= n && rows == Planned(o, i))
        invariant n <= 0 ==> rows == []
      {
        var rest := totalQty - SharesOf(i, childSize);
        var time: real;
        if algo == VWAP {
          var lo := InvertCurve(EvenShare(i, n));
          time := DayTime(lo, durationMin);
        } else {
          time := EvenTime(i, durationMin, n);
        }
        assert time == SliceTime(o, i);
        rows := rows + [Row(i, if childSize <= rest then childSize else rest, Round2(time))];
        assert rows == Planned(o, i + 1);
        i := i + 1;
      }
    }
  }
}
