/** Slicing a parent order into child orders: the send rules, fill accounting and the planned schedule.
    Floats are reals; `exp` is any function with positive values. */
module AlgoExecution {
  import opened Reals
  import opened VolumeCurve

  datatype Algo = VWAP | TWAP | POV | IS

  datatype Status = Pending | Active | Paused | Completed | Cancelled

  /** What a parent order is submitted with. */
  datatype Order = Order(totalQty: int, algo: Algo, durationMin: int, childSize: int, povRate: real, urgency: real,
                         startTimeNs: int)

  /** What execution changes. */
  datatype Progress = Progress(status: Status, filledQty: int, avgFillPrice: real, slicesSent: int)

  datatype Child = Child(qty: int, price: real, sliceIndex: int, timestampNs: int)

  // ---------- Arithmetic ----------

  /** `math.ceil(a / b)`. */
  function CeilDiv(a: int, b: int): int
    requires b != 0
  {
    -((-(a as real / b as real)).Floor)
  }

  lemma TruncMonotone(x: real, y: real)
    requires x <= y
    ensures Trunc(x) <= Trunc(y)
  {
  }

  /** The quotient rounded up: the next lower count times b still falls short of a. */
  lemma CeilBounds(a: int, b: int)
    requires b > 0
    ensures SharesOf(CeilDiv(a, b) - 1, b) < a <= SharesOf(CeilDiv(a, b), b)
  {
    hide CeilDiv, SharesOf;
    QuotientTimes(a as real, b as real);
    CeilQuotient(a, b);
    SharesOfQuotient(CeilDiv(a, b), a, b, a as real / b as real);
  }

  lemma SharesOfQuotient(n: int, a: int, b: int, q: real)
    requires b > 0 && (n - 1) as real < q <= n as real && q * b as real == a as real
    ensures SharesOf(n - 1, b) < a <= SharesOf(n, b)
  {
    hide SharesOf;
    SharesOfBelow(n - 1, a, b, q);
    SharesOfAbove(n, a, b, q);
  }

  lemma SharesOfBelow(k: int, a: int, b: int, q: real)
    requires b > 0 && k as real < q && q * b as real == a as real
    ensures SharesOf(k, b) < a
  {
    hide SharesOf;
    ScaleStrict(k as real, q, b as real);
    SharesOfReal(k, b);
  }

  lemma SharesOfAbove(k: int, a: int, b: int, q: real)
    requires b > 0 && q <= k as real && q * b as real == a as real
    ensures a <= SharesOf(k, b)
  {
    hide SharesOf;
    Scale(q, k as real, b as real);
    SharesOfReal(k, b);
  }

  lemma CeilQuotient(a: int, b: int)
    requires b > 0
    ensures (CeilDiv(a, b) - 1) as real < a as real / b as real <= CeilDiv(a, b) as real
  {
  }

  function SharesOf(k: int, size: int): int {
    k * size
  }

  lemma SharesOfReal(k: int, size: int)
    ensures SharesOf(k, size) as real == k as real * size as real
  {
  }

  lemma SharesOfNext(k: int, size: int)
    ensures SharesOf(k + 1, size) == SharesOf(k, size) + size && SharesOf(0, size) == 0
  {
  }

  lemma SharesOfMonotone(k: int, n: int, size: int)
    requires k <= n && size > 0
    ensures SharesOf(k, size) <= SharesOf(n, size)
  {
  }

  // ---------- Send rules ----------

  function NumSlices(o: Order): int
    requires o.childSize != 0
  {
    CeilDiv(o.totalQty, o.childSize)
  }

  function DurationNs(o: Order): int {
    o.durationMin * 60 * 1_000_000_000
  }

  function ElapsedFraction(o: Order, nowNs: int): real {
    if DurationNs(o) <= 0 then 1.0 else (nowNs - o.startTimeNs) as real / DurationNs(o) as real
  }

  /** The slice index TWAP is due to have reached. */
  function Due(o: Order, nowNs: int): int
    requires o.childSize != 0 && NumSlices(o) > 0
  {
    var interval := DurationNs(o) as real / NumSlices(o) as real;
    if interval > 0.0 then Trunc((nowNs - o.startTimeNs) as real / interval) else NumSlices(o)
  }

  /** The quantity VWAP wants sent. */
  function TargetQty(o: Order, nowNs: int): real {
    o.totalQty as real * VolumeFraction(Min(ElapsedFraction(o, nowNs), 1.0))
  }

  function ShouldSend(o: Order, s: Progress, nowNs: int, marketVolume: int, exp: real -> real): bool
    requires o.childSize != 0 && NumSlices(o) > 0
  {
    match o.algo
    case TWAP => s.slicesSent <= Due(o, nowNs)
    case VWAP => SharesOf(s.slicesSent, o.childSize) as real < TargetQty(o, nowNs) && o.totalQty - s.filledQty > 0
    case POV => marketVolume as real * o.povRate >= o.childSize as real
    case IS =>
      var elapsed := Min(ElapsedFraction(o, nowNs), 1.0);
      var clamped := if elapsed < 0.0 then 0.0 else elapsed;
      Weight(exp, o.urgency, clamped) > 0.5 - clamped * 0.5
  }

  function Weight(exp: real -> real, urgency: real, elapsed: real): real {
    exp(-urgency * elapsed * 5.0)
  }

  /** `next_child_order`: the new progress, and the child sent, if any. */
  function NextChild(o: Order, s: Progress, nowNs: int, price: real, marketVolume: int,
                     exp: real -> real): (r: (Progress, seq<Child>))
    requires o.childSize != 0 && s.slicesSent >= 0
  {
    if s.status != Active then (s, [])
    else if o.totalQty - s.filledQty <= 0 || s.slicesSent >= NumSlices(o) then (s.(status := Completed), [])
    else if !ShouldSend(o, s, nowNs, marketVolume, exp) then (s, [])
    else
      var remaining := o.totalQty - s.filledQty;
      var qty := if o.childSize <= remaining then o.childSize else remaining;
      var sent := s.slicesSent + 1;
      (s.(slicesSent := sent, status := if sent >= NumSlices(o) then Completed else Active),
          [Child(qty, price, sent - 1, nowNs)])
  }

  function Worth(price: real, qty: int): real {
    price * qty as real
  }

  /** `record_fill`. */
  function RecordFill(o: Order, s: Progress, price: real, qty: int): Progress {
    if qty <= 0 then s
    else
      var value := Worth(s.avgFillPrice, s.filledQty) + Worth(price, qty);
      var filled := s.filledQty + qty;
      s.(filledQty := filled, avgFillPrice := if filled > 0 then value / filled as real else 0.0,
         status := if filled >= o.totalQty then Completed else s.status)
  }

  // ---------- Runs ----------

  datatype Event = Request(nowNs: int, price: real, marketVolume: int) | Fill(fillPrice: real, fillQty: int)

  /** Progress, every child sent, the filled quantity each child met, and every fill that counted. */
  datatype Trace = Trace(s: Progress, children: seq<Child>, filledBefore: seq<int>, fills: seq<(real, int)>)

  const START: Trace := Trace(Progress(Active, 0, 0.0, 0), [], [], [])

  function Step(o: Order, t: Trace, e: Event, exp: real -> real): Trace
    requires o.childSize != 0 && t.s.slicesSent >= 0
  {
    match e
    case Request(nowNs, price, volume) =>
      var (s, sent) := NextChild(o, t.s, nowNs, price, volume, exp);
      t.(s := s, children := t.children + sent, filledBefore := if sent == [] then t.filledBefore
          else t.filledBefore + [t.s.filledQty])
    case Fill(price, qty) =>
      t.(s := RecordFill(o, t.s, price, qty), fills := if qty <= 0 then t.fills else t.fills + [(price, qty)])
  }

  function Run(o: Order, events: seq<Event>, exp: real -> real): (t: Trace)
    requires o.childSize != 0
    ensures t.s.slicesSent >= 0
  {
    if events == [] then START else Step(o, Run(o, events[..|events| - 1], exp), events[|events| - 1], exp)
  }

  function ChildTotal(cs: seq<Child>): int {
    if cs == [] then 0 else ChildTotal(cs[..|cs| - 1]) + cs[|cs| - 1].qty
  }

  function FillTotal(fs: seq<(real, int)>): int {
    if fs == [] then 0 else FillTotal(fs[..|fs| - 1]) + fs[|fs| - 1].1
  }

  function FillValue(fs: seq<(real, int)>): real {
    if fs == [] then 0.0 else FillValue(fs[..|fs| - 1]) + Worth(fs[|fs| - 1].0, fs[|fs| - 1].1)
  }

  // ---------- When each rule sends ----------

  lemma TruncAtLeast(x: real, k: int)
    requires k >= 0
    ensures k <= Trunc(x) <==> (if k == 0 then x > -1.0 else k as real <= x)
  {
  }

  /** k intervals of d / n fit into x exactly when k d <= x n. */
  lemma IntervalsFit(k: int, x: int, d: int, n: int)
    requires d > 0 && n > 0
    ensures d as real / n as real > 0.0
    ensures k as real <= x as real / (d as real / n as real) <==> SharesOf(k, d) <= SharesOf(x, n)
  {
    IntervalOver(x as real, d as real, n as real);
    AtMostQuotient(k as real, x as real * n as real, d as real);
    SharesOfReal(k, d);
    SharesOfReal(x, n);
  }

  lemma IntervalOver(x: real, d: real, n: real)
    requires d > 0.0 && n > 0.0
    ensures d / n > 0.0 && x / (d / n) == x * n / d
  {
    var interval := d / n;
    PositiveQuotient(d, n);
    QuotientTimes(d, n);
    OverProduct(x, interval, n);
  }

  lemma PositiveQuotient(d: real, n: real)
    requires d > 0.0 && n > 0.0
    ensures d / n > 0.0
  {
  }

  lemma OverProduct(x: real, interval: real, n: real)
    requires interval > 0.0 && n > 0.0
    ensures x / interval == x * n / (interval * n)
  {
    var q := x / interval;
    QuotientTimes(x, interval);
    Regroup(q, interval, n);
    ProductOver(q, interval * n);
  }

  lemma Regroup(q: real, interval: real, n: real)
    requires interval > 0.0 && n > 0.0
    ensures interval * n > 0.0 && q * (interval * n) == q * interval * n
  {
    ScaleStrict(0.0, interval, n);
  }

  /** TWAP in whole numbers: slice k goes out once k durations fit into the elapsed time times the number of slices;
      before the start, only the first one, less than one interval early. */
  lemma TwapSendsIff(o: Order, s: Progress, nowNs: int, volume: int, exp: real -> real)
    requires o.childSize != 0 && NumSlices(o) > 0 && o.algo == TWAP && 0 <= s.slicesSent < NumSlices(o)
    ensures var d, elapsed := o.durationMin * 60_000_000_000, nowNs - o.startTimeNs;
            ShouldSend(o, s, nowNs, volume, exp) <==>
              || d <= 0
              || (s.slicesSent == 0 && -d < SharesOf(elapsed, NumSlices(o)))
              || (s.slicesSent > 0 && SharesOf(s.slicesSent, d) <= SharesOf(elapsed, NumSlices(o)))
  {
    hide NumSlices, SharesOf;
    var d, n, elapsed := DurationNs(o), NumSlices(o), nowNs - o.startTimeNs;
    if d <= 0 {
      Divide(d as real, 0.0, n as real);
    } else {
      var x := elapsed as real / (d as real / n as real);
      IntervalsFit(s.slicesSent, elapsed, d, n);
      TruncAtLeast(x, s.slicesSent);
      EarlyFits(elapsed, d, n);
    }
  }

  lemma EarlyFits(x: int, d: int, n: int)
    requires d > 0 && n > 0
    ensures d as real / n as real > 0.0
    ensures x as real / (d as real / n as real) > -1.0 <==> -d < SharesOf(x, n)
  {
    hide SharesOf;
    IntervalsFit(1, -x, d, n);
    SharesOfReal(-x, n);
    SharesOfReal(x, n);
    OneShare(d);
    Negated(x as real, d as real / n as real);
    assert (-x) as real == -(x as real);
    NegatedShares(x, n);
  }

  lemma OneShare(d: int)
    ensures SharesOf(1, d) == d
  {
  }

  lemma NegatedShares(x: int, n: int)
    ensures SharesOf(-x, n) == -SharesOf(x, n)
  {
  }

  lemma Negated(x: real, c: real)
    requires c > 0.0
    ensures -x / c == -(x / c)
  {
    QuotientTimes(x, c);
    ProductOver(-(x / c), c);
  }

  /** VWAP at elapsed fraction f of its window: nothing before the start, and then while the children sent fall short of
      the curve's share of the order. */
  lemma VwapSendsIff(o: Order, s: Progress, nowNs: int, volume: int, exp: real -> real, f: real)
    requires o.childSize > 0 && NumSlices(o) > 0 && o.algo == VWAP && o.durationMin > 0 && s.slicesSent >= 0
    requires f * (o.durationMin * 60_000_000_000) as real == (nowNs - o.startTimeNs) as real
    ensures ShouldSend(o, s, nowNs, volume, exp)
            <==> s.filledQty < o.totalQty && SharesOf(s.slicesSent, o.childSize) as real
                 < o.totalQty as real * (if f >= 1.0 then 1.0 else VolumeFraction(f))
    ensures f <= 0.0 ==> !ShouldSend(o, s, nowNs, volume, exp)
  {
    hide NumSlices, SharesOf;
    SharesOfMonotone(0, s.slicesSent, o.childSize);
    SharesOfNext(0, o.childSize);
    ProductOver(f, DurationNs(o) as real);
    assert ElapsedFraction(o, nowNs) == f;
    hide ElapsedFraction;
    CurveEnds(f);
    hide VolumeFraction;
    if f <= 0.0 { assert o.totalQty as real * 0.0 == 0.0; }
  }

  lemma CurveEnds(f: real)
    ensures f <= 0.0 ==> VolumeFraction(f) == 0.0
    ensures VolumeFraction(1.0) == 1.0
  {
  }

  // ----- the two rules that read more than the clock -----

  /** The market volume of the requests of a run. */
  function VolumeSeen(events: seq<Event>): int {
    if events == [] then 0
    else
      var e := events[|events| - 1];
      VolumeSeen(events[..|events| - 1]) + if e.Request? then e.marketVolume else 0
  }

  function ShareOfVolume(volume: int, rate: real): real {
    volume as real * rate
  }

  /** Over any run a POV order sends at most its rate of the market volume it was shown. */
  lemma {:induction false} ParticipationBounded(o: Order, events: seq<Event>, exp: real -> real)
    requires o.childSize > 0 && o.algo == POV && o.povRate >= 0.0
    requires forall e <- events :: e.Request? ==> e.marketVolume >= 0
    ensures ChildTotal(Run(o, events, exp).children) as real <= ShareOfVolume(VolumeSeen(events), o.povRate)
  {
    hide NumSlices, ShouldSend, NextChild, ShareOfVolume;
    if events != [] {
      var n := |events| - 1;
      var before, e := Run(o, events[..n], exp), events[n];
      assert e in events && forall d <- events[..n] :: d in events;
      ParticipationBounded(o, events[..n], exp);
      if e.Request? {
        PovChild(o, before.s, e, exp);
        var sent := NextChild(o, before.s, e.nowNs, e.price, e.marketVolume, exp).1;
        hide Run;
        AppendTotal(before.children, sent);
        SumTimes(VolumeSeen(events[..n]), e.marketVolume, o.povRate);
      }
    } else {
      NoVolume(o.povRate);
    }
  }

  lemma NoVolume(rate: real)
    ensures ShareOfVolume(0, rate) == 0.0
  {
  }

  lemma SumTimes(a: int, b: int, rate: real)
    ensures ShareOfVolume(a + b, rate) == ShareOfVolume(a, rate) + ShareOfVolume(b, rate)
  {
  }

  lemma AppendTotal(cs: seq<Child>, sent: seq<Child>)
    requires |sent| <= 1
    ensures ChildTotal(cs + sent) == ChildTotal(cs) + if sent == [] then 0 else sent[0].qty
  {
    if sent == [] {
      assert cs + sent == cs;
    } else {
      assert (cs + sent)[..|cs|] == cs;
    }
  }

  /** What one request of a POV order sends is covered by the volume it is shown. */
  lemma PovChild(o: Order, s: Progress, e: Event, exp: real -> real)
    requires o.childSize > 0 && o.algo == POV && o.povRate >= 0.0 && e.Request? && e.marketVolume >= 0
        && s.slicesSent >= 0
    ensures var sent := NextChild(o, s, e.nowNs, e.price, e.marketVolume, exp).1;
            |sent| <= 1 && (sent != [] ==> sent[0].qty as real <= ShareOfVolume(e.marketVolume, o.povRate))
            && 0.0 <= ShareOfVolume(e.marketVolume, o.povRate)
  {
    hide NumSlices;
    Scale(0.0, o.povRate, e.marketVolume as real);
    assert 0.0 * e.marketVolume as real == 0.0;
  }

  /** What is asked of `exp`: the laws of the exponential function. */
  ghost predicate Exponential(exp: real -> real) {
    exp(0.0) == 1.0 && (forall x, y :: exp(x + y) == exp(x) * exp(y)) && forall x :: exp(x) >= 1.0 + x
  }

  lemma ExpLaws(exp: real -> real, x: real, y: real)
    requires Exponential(exp)
    ensures exp(x + y) == exp(x) * exp(y) && exp(x) >= 1.0 + x && exp(0.0) == 1.0
  {
  }

  lemma ExpPositive(exp: real -> real, x: real)
    requires Exponential(exp)
    ensures exp(x) > 0.0
  {
    hide Exponential;
    ExpLaws(exp, x / 2.0, x / 2.0);
    ExpLaws(exp, x, -x);
    assert x / 2.0 + x / 2.0 == x && x + -x == 0.0;
    Square(exp(x / 2.0));
    NotZero(exp(x), exp(-x));
  }

  lemma NotZero(x: real, y: real)
    requires x * y == 1.0
    ensures x != 0.0
  {
  }

  lemma Square(x: real)
    ensures x * x >= 0.0
  {
  }

  lemma ExpRises(exp: real -> real, x: real, y: real)
    requires Exponential(exp) && x <= y
    ensures exp(x) <= exp(y)
  {
    hide Exponential;
    ExpPositive(exp, x);
    ExpLaws(exp, x, y - x);
    ExpLaws(exp, y - x, 0.0);
    assert x + (y - x) == y;
    Grows(exp(x), exp(y - x));
  }

  lemma Grows(x: real, factor: real)
    requires x >= 0.0 && factor >= 1.0
    ensures x <= x * factor
  {
    Scale(1.0, factor, x);
  }

  lemma WeightFalls(exp: real -> real, u: real, v: real, f: real)
    requires Exponential(exp) && u <= v && f >= 0.0
    ensures Weight(exp, v, f) <= Weight(exp, u, f)
    ensures Weight(exp, 0.0, f) == 1.0
  {
    Scale(-v, -u, f);
    ExpRises(exp, -v * f * 5.0, -u * f * 5.0);
    assert -0.0 * f * 5.0 == 0.0;
  }

  /** The documentation has urgent orders go early; it is the other way round: whenever an order sends, the same order
      with less urgency would have, and one with none sends at every request. */
  lemma UrgencyHoldsBack(o: Order, urgency: real, s: Progress, nowNs: int, volume: int, exp: real -> real)
    requires o.childSize != 0 && NumSlices(o) > 0 && o.algo == IS && Exponential(exp)
    ensures o.urgency <= urgency && ShouldSend(o.(urgency := urgency), s, nowNs, volume, exp) ==>
              ShouldSend(o, s, nowNs, volume, exp)
    ensures o.urgency <= 0.0 ==> ShouldSend(o, s, nowNs, volume, exp)
  {
    hide NumSlices, Exponential, Weight;
    var elapsed := Min(ElapsedFraction(o, nowNs), 1.0);
    var f := if elapsed < 0.0 then 0.0 else elapsed;
    assert ElapsedFraction(o.(urgency := urgency), nowNs) == ElapsedFraction(o, nowNs);
    hide ElapsedFraction;
    if o.urgency <= urgency { WeightFalls(exp, o.urgency, urgency, f); }
    if o.urgency <= 0.0 { WeightFalls(exp, o.urgency, 0.0, f); }
  }

  /** Half way through the window an order of full urgency waits, whatever is left to send. */
  lemma UrgentWaits(o: Order, s: Progress, nowNs: int, volume: int, exp: real -> real)
    requires o.childSize != 0 && NumSlices(o) > 0 && o.algo == IS && Exponential(exp) && o.durationMin > 0
    requires 2 * (nowNs - o.startTimeNs) == o.durationMin * 60_000_000_000
    ensures ShouldSend(o, s, nowNs, volume, exp) <==> exp(-2.5 * o.urgency) > 0.25
    ensures o.urgency >= 1.0 ==> !ShouldSend(o, s, nowNs, volume, exp)
  {
    hide NumSlices, Exponential;
    ProductOver(0.5, DurationNs(o) as real);
    assert ElapsedFraction(o, nowNs) == 0.5;
    assert -o.urgency * 0.5 * 5.0 == -2.5 * o.urgency;
    if o.urgency >= 1.0 {
      ExpRises(exp, -2.5 * o.urgency, -2.5);
      ExpSmall(exp);
    }
  }

  lemma ExpSmall(exp: real -> real)
    requires Exponential(exp)
    ensures exp(-2.5) < 0.25
  {
    hide Exponential;
    var a, b := exp(1.25), exp(-1.25);
    ExpLaws(exp, 1.25, -1.25);
    ExpLaws(exp, -1.25, -1.25);
    ExpPositive(exp, -1.25);
    assert 1.25 + -1.25 == 0.0 && -1.25 + -1.25 == -2.5;
    Scale(2.25, a, b);
    assert b <= 0.45;
    Scale(b, 0.45, b);
  }

  // ---------- Accounting ----------

  predicate Counted(o: Order, t: Trace)
    requires o.childSize > 0
  {
    && t.s.slicesSent == |t.children| == |t.filledBefore|
    && (t.s.slicesSent > 0 ==> t.s.slicesSent <= NumSlices(o))
    && (forall k :: 0 <= k < |t.children| ==>
          var remaining := o.totalQty - t.filledBefore[k];
          t.children[k].sliceIndex == k && remaining > 0
          && t.children[k].qty == (if o.childSize <= remaining then o.childSize else remaining))
    && t.s.filledQty == FillTotal(t.fills) && t.s.filledQty >= 0
    && Worth(t.s.avgFillPrice, t.s.filledQty) == FillValue(t.fills)
  }

  lemma AverageTimes(value: real, n: int)
    requires n > 0
    ensures Worth(value / n as real, n) == value
  {
  }

  lemma CountedRequest(o: Order, t: Trace, e: Event, exp: real -> real)
    requires o.childSize > 0 && Counted(o, t) && e.Request?
    ensures Counted(o, Step(o, t, e, exp))
  {
    hide ShouldSend, NumSlices, FillTotal, FillValue;
    var r := NextChild(o, t.s, e.nowNs, e.price, e.marketVolume, exp);
    if r.1 != [] {
      assert Step(o, t, e, exp).children == t.children + r.1;
      assert Step(o, t, e, exp).filledBefore == t.filledBefore + [t.s.filledQty];
    }
  }

  lemma CountedFill(o: Order, t: Trace, e: Event, exp: real -> real)
    requires o.childSize > 0 && Counted(o, t) && e.Fill?
    ensures Counted(o, Step(o, t, e, exp))
  {
    hide NumSlices, Worth;
    if e.fillQty > 0 {
      AverageTimes(Worth(t.s.avgFillPrice, t.s.filledQty) + Worth(e.fillPrice, e.fillQty), t.s.filledQty + e.fillQty);
      assert (t.fills + [(e.fillPrice, e.fillQty)])[..|t.fills|] == t.fills;
    }
  }

  /** In every run: slices are numbered without gaps and never exceed the plan, each child has between one share and
      the child size, and the average price times the filled quantity is the value of all fills. */
  lemma {:induction false} AccountingHolds(o: Order, events: seq<Event>, exp: real -> real)
    requires o.childSize > 0
    ensures Counted(o, Run(o, events, exp))
  {
    if events == [] {
      assert FillValue([]) == 0.0;
    } else {
      AccountingHolds(o, events[..|events| - 1], exp);
      var before, e := Run(o, events[..|events| - 1], exp), events[|events| - 1];
      if e.Request? { CountedRequest(o, before, e, exp); } else { CountedFill(o, before, e, exp); }
    }
  }

  /** The shares filled by the events of a run. */
  function Booked(events: seq<Event>): int {
    if events == [] then 0
    else
      var e := events[|events| - 1];
      Booked(events[..|events| - 1]) + if e.Fill? && e.fillQty > 0 then e.fillQty else 0
  }

  /** In every run the order is complete exactly when it is filled or its last slice is out, and the filled quantity is
      that of the fills. */
  lemma {:induction false} CompletedIff(o: Order, events: seq<Event>, exp: real -> real)
    requires o.childSize > 0 && o.totalQty > 0
    ensures var t := Run(o, events, exp);
            && t.s.filledQty == Booked(events) && t.s.slicesSent == |t.children|
            && t.s.status == if Booked(events) >= o.totalQty || |t.children| >= NumSlices(o) then Completed else Active
  {
    hide NumSlices, ShouldSend;
    PlanBounds(o);
    if events != [] { CompletedIff(o, events[..|events| - 1], exp); }
  }

  /** Every child carries the price and the time of a request of the run. */
  lemma {:induction false} ChildrenAreRequests(o: Order, events: seq<Event>, exp: real -> real, k: nat)
    returns (i: nat)
    requires o.childSize != 0 && k < |Run(o, events, exp).children|
    ensures i < |events| && events[i].Request?
    ensures var child := Run(o, events, exp).children[k];
            child.price == events[i].price && child.timestampNs == events[i].nowNs
  {
    hide NumSlices, ShouldSend;
    var n := |events| - 1;
    if k < |Run(o, events[..n], exp).children| {
      i := ChildrenAreRequests(o, events[..n], exp, k);
    } else {
      i := n;
    }
  }

  /** The plan has at least one slice, and leaves out of the last one less than a child. */
  lemma PlanBounds(o: Order)
    requires o.childSize > 0 && o.totalQty > 0
    ensures NumSlices(o) > 0
    ensures SharesOf(NumSlices(o) - 1, o.childSize) < o.totalQty <= SharesOf(NumSlices(o), o.childSize)
    ensures SharesOf(NumSlices(o), o.childSize) == SharesOf(NumSlices(o) - 1, o.childSize) + o.childSize
  {
    hide CeilDiv, SharesOf;
    var n := NumSlices(o);
    CeilBounds(o.totalQty, o.childSize);
    SharesOfNext(n - 1, o.childSize);
    SharesOfNext(0, o.childSize);
    if n <= 0 { SharesOfMonotone(n, 0, o.childSize); }
  }

  lemma {:induction false} ChildTotalBound(cs: seq<Child>, size: int)
    requires forall k :: 0 <= k < |cs| ==> 1 <= cs[k].qty <= size
    ensures |cs| <= ChildTotal(cs) <= SharesOf(|cs|, size)
  {
    hide SharesOf;
    SharesOfNext(|cs| - 1, size);
    if cs != [] { ChildTotalBound(cs[..|cs| - 1], size); }
  }

  /** However the fills come in, the children never add up to a full child size more than the order. */
  lemma OvershootBounded(o: Order, events: seq<Event>, exp: real -> real)
    requires o.childSize > 0 && o.totalQty > 0
    ensures ChildTotal(Run(o, events, exp).children) < o.totalQty + o.childSize
  {
    hide NumSlices, SharesOf, Run;
    var t := Run(o, events, exp);
    AccountingHolds(o, events, exp);
    ChildTotalBound(t.children, o.childSize);
    PlanBounds(o);
    SharesOfMonotone(t.s.slicesSent, NumSlices(o), o.childSize);
  }

  // ----- when the children add up exactly -----

  /** Nothing is filled that was not sent: at each request, fills do not exceed the children before it. */
  predicate FillsCovered(t: Trace)
    requires |t.children| == |t.filledBefore|
  {
    forall k :: 0 <= k < |t.children| ==> t.filledBefore[k] <= ChildTotal(t.children[..k])
  }

  lemma {:induction false} FullSlices(o: Order, t: Trace, k: nat)
    requires o.childSize > 0 && o.totalQty > 0 && Counted(o, t) && FillsCovered(t) && k < NumSlices(o)
        && k <= |t.children|
    ensures ChildTotal(t.children[..k]) == SharesOf(k, o.childSize)
  {
    hide NumSlices, SharesOf;
    if k > 0 {
      FullSlices(o, t, k - 1);
      assert t.children[..k][..k - 1] == t.children[..k - 1];
      PlanBounds(o);
      SharesOfMonotone(k, NumSlices(o) - 1, o.childSize);
      SharesOfNext(k - 1, o.childSize);
      assert ChildTotal(t.children[..k]) == ChildTotal(t.children[..k - 1]) + t.children[k - 1].qty;
    } else {
      SharesOfNext(0, o.childSize);
    }
  }

  /** Once the last slice is out, the children add up to exactly the order if and only if the order is a whole number
      of child sizes or everything before the last slice had been filled when it was requested. */
  lemma ExactTotalIff(o: Order, t: Trace)
    requires o.childSize > 0 && o.totalQty > 0 && Counted(o, t) && FillsCovered(t) && t.s.slicesSent == NumSlices(o)
    ensures ChildTotal(t.children) == o.totalQty
            <==> o.totalQty == SharesOf(NumSlices(o), o.childSize)
                 || t.filledBefore[NumSlices(o) - 1] == SharesOf(NumSlices(o) - 1, o.childSize)
  {
    hide NumSlices, SharesOf;
    var n := NumSlices(o);
    PlanBounds(o);
    FullSlices(o, t, n - 1);
    assert t.filledBefore[n - 1] <= ChildTotal(t.children[..n - 1]);
    assert ChildTotal(t.children) == ChildTotal(t.children[..n - 1]) + t.children[n - 1].qty;
  }

  /** Every child was filled before the next one was asked for. */
  predicate PromptFills(t: Trace)
    requires |t.children| == |t.filledBefore|
  {
    forall k :: 0 <= k < |t.children| ==> t.filledBefore[k] == ChildTotal(t.children[..k])
  }

  lemma PromptFillsAreExact(o: Order, t: Trace)
    requires o.childSize > 0 && o.totalQty > 0 && Counted(o, t) && PromptFills(t) && t.s.slicesSent == NumSlices(o)
    ensures ChildTotal(t.children) == o.totalQty
  {
    hide NumSlices, SharesOf;
    PlanBounds(o);
    FullSlices(o, t, NumSlices(o) - 1);
    assert t.filledBefore[NumSlices(o) - 1] == ChildTotal(t.children[..NumSlices(o) - 1]);
    ExactTotalIff(o, t);
  }

  /** A lagging fill makes the last slice too big: 150 shares in slices of 100, sent before any fill, come to 200. */
  lemma LaggingFillsOversize(o: Order, exp: real -> real)
    requires o == Order(150, POV, 1, 100, 1.0, 0.0, 0)
    ensures ChildTotal(Run(o, [Request(0, 1.0, 100), Request(1, 1.0, 100)], exp).children) == 200
  {
    var first, second := Request(0, 1.0, 100), Request(1, 1.0, 100);
    hide NumSlices, ShouldSend;
    TwoSlices(o);
    PovSends(o, START.s, 0, exp);
    var one := Step(o, START, first, exp);
    assert one.s == Progress(Active, 0, 0.0, 1) && one.children == [Child(100, 1.0, 0, 0)];
    PovSends(o, one.s, 1, exp);
    var two := Step(o, one, second, exp);
    assert two.children == one.children + [Child(100, 1.0, 1, 1)];
    RunTwo(o, first, second, exp);
    assert ChildTotal(one.children) == 100;
    assert two.children[..1] == one.children;
    assert ChildTotal(two.children) == 200;
    assert Run(o, [first, second], exp) == two;
  }

  lemma TwoSlices(o: Order)
    requires o.totalQty == 150 && o.childSize == 100
    ensures NumSlices(o) == 2
  {
    assert 150 as real / 100 as real == 1.5;
    assert (-1.5).Floor == -2;
  }

  lemma PovSends(o: Order, s: Progress, nowNs: int, exp: real -> real)
    requires o.algo == POV && o.povRate == 1.0 && o.childSize == 100 && NumSlices(o) > 0
    ensures ShouldSend(o, s, nowNs, 100, exp)
  {
  }

  lemma RunTwo(o: Order, first: Event, second: Event, exp: real -> real)
    requires o.childSize != 0
    ensures Run(o, [first], exp) == Step(o, START, first, exp)
    ensures Run(o, [first, second], exp) == Step(o, Run(o, [first], exp), second, exp)
  {
    hide Step;
    assert [first][..0] == [] && [first, second][..1] == [first];
  }

  // ---------- Pacing ----------

  /** Request times up to `now` never go back. */
  predicate TimesUpTo(events: seq<Event>, nowNs: int) {
    && (forall i :: 0 <= i < |events| && events[i].Request? ==> events[i].nowNs <= nowNs)
    && (forall i, j :: 0 <= i < j < |events| && events[i].Request? && events[j].Request? ==>
        events[i].nowNs <= events[j].nowNs)
  }

  lemma ElapsedMonotone(o: Order, a: int, b: int)
    requires a <= b
    ensures ElapsedFraction(o, a) <= ElapsedFraction(o, b)
  {
    if DurationNs(o) > 0 {
      Divide((a - o.startTimeNs) as real, (b - o.startTimeNs) as real, DurationNs(o) as real);
    }
  }

  lemma TargetMonotone(o: Order, a: int, b: int)
    requires a <= b && o.totalQty >= 0
    ensures TargetQty(o, a) <= TargetQty(o, b)
  {
    hide VolumeFraction, ElapsedFraction;
    ElapsedMonotone(o, a, b);
    var x, y := Min(ElapsedFraction(o, a), 1.0), Min(ElapsedFraction(o, b), 1.0);
    FractionMonotone(x, y);
    Scale(VolumeFraction(x), VolumeFraction(y), o.totalQty as real);
  }

  lemma DueMonotone(o: Order, a: int, b: int)
    requires a <= b && o.childSize > 0 && NumSlices(o) > 0
    ensures Due(o, a) <= Due(o, b)
  {
    hide NumSlices;
    var interval := DurationNs(o) as real / NumSlices(o) as real;
    if interval > 0.0 {
      var x, y := (a - o.startTimeNs) as real / interval, (b - o.startTimeNs) as real / interval;
      Divide((a - o.startTimeNs) as real, (b - o.startTimeNs) as real, interval);
      TruncMonotone(x, y);
    }
  }

  /** How far the slices sent may be ahead of the plan at a given time. */
  predicate Paced(o: Order, slices: int, nowNs: int)
    requires o.childSize > 0
  {
    slices > 0 && NumSlices(o) > 0 ==>
      && (o.algo == VWAP ==> SharesOf(slices, o.childSize) as real < TargetQty(o, nowNs) + o.childSize as real)
      && (o.algo == TWAP ==> slices <= Due(o, nowNs) + 1)
  }

  lemma PacedLater(o: Order, slices: int, a: int, b: int)
    requires o.childSize > 0 && o.totalQty >= 0 && a <= b && Paced(o, slices, a)
    ensures Paced(o, slices, b)
  {
    hide NumSlices, TargetQty, Due, SharesOf;
    TargetMonotone(o, a, b);
    if NumSlices(o) > 0 { DueMonotone(o, a, b); }
  }

  /** At every moment of every run with times that do not go back, VWAP is less than one child ahead of its volume
      target and TWAP at most one slice ahead of its clock. */
  lemma {:induction false} PacingHolds(o: Order, events: seq<Event>, nowNs: int, exp: real -> real)
    requires o.childSize > 0 && o.totalQty >= 0 && TimesUpTo(events, nowNs)
    ensures Paced(o, Run(o, events, exp).s.slicesSent, nowNs)
  {
    hide NumSlices, TargetQty, Due, TimesUpTo;
    if events != [] {
      var n := |events| - 1;
      var before, e := Run(o, events[..n], exp), events[n];
      var earlier := if e.Request? then e.nowNs else nowNs;
      TimesInit(events, nowNs);
      PacingHolds(o, events[..n], earlier, exp);
      if e.Request? {
        SendPaced(o, before.s, e, exp);
        PacedLater(o, Run(o, events, exp).s.slicesSent, earlier, nowNs);
      }
    }
  }

  lemma TimesInit(events: seq<Event>, nowNs: int)
    requires events != [] && TimesUpTo(events, nowNs)
    ensures var n := |events| - 1;
            var earlier := if events[n].Request? then events[n].nowNs else nowNs;
            earlier <= nowNs && TimesUpTo(events[..n], earlier)
  {
  }

  lemma SendPaced(o: Order, s: Progress, e: Event, exp: real -> real)
    requires o.childSize > 0 && s.slicesSent >= 0 && e.Request? && Paced(o, s.slicesSent, e.nowNs)
    ensures Paced(o, NextChild(o, s, e.nowNs, e.price, e.marketVolume, exp).0.slicesSent, e.nowNs)
  {
    hide NumSlices, TargetQty, Due, SharesOf;
    SharesOfNext(s.slicesSent, o.childSize);
  }

  // ---------- Progress ----------

  ghost predicate Positive(exp: real -> real) {
    forall x :: exp(x) > 0.0
  }

  predicate PastEnd(o: Order, nowNs: int) {
    DurationNs(o) <= 0 || nowNs - o.startTimeNs >= DurationNs(o)
  }

  lemma AtLeastOne(x: int, d: int)
    requires x >= d > 0
    ensures x as real / d as real >= 1.0
  {
    Divide(d as real, x as real, d as real);
  }

  lemma ElapsedAtEnd(o: Order, nowNs: int)
    requires PastEnd(o, nowNs)
    ensures Min(ElapsedFraction(o, nowNs), 1.0) == 1.0
  {
    if DurationNs(o) > 0 { AtLeastOne(nowNs - o.startTimeNs, DurationNs(o)); }
  }

  lemma IntervalCount(x: int, d: int, n: int)
    requires x >= d > 0 && n > 0
    ensures d as real / n as real > 0.0 && x as real / (d as real / n as real) >= n as real
  {
    var interval := d as real / n as real;
    QuotientTimes(d as real, n as real);
    assert interval * n as real == d as real;
    QuotientTimes(n as real * interval, interval);
    ProductOver(n as real, interval);
    Divide(d as real, x as real, interval);
  }

  lemma DueAtEnd(o: Order, nowNs: int)
    requires o.childSize > 0 && NumSlices(o) > 0 && PastEnd(o, nowNs)
    ensures Due(o, nowNs) >= NumSlices(o)
  {
    hide NumSlices;
    var d, n := DurationNs(o), NumSlices(o);
    if d > 0 {
      IntervalCount(nowNs - o.startTimeNs, d, n);
      TruncMonotone(n as real, (nowNs - o.startTimeNs) as real / (d as real / n as real));
    } else {
      NotPositive(d, n);
    }
  }

  lemma NotPositive(d: int, n: int)
    requires d <= 0 < n
    ensures d as real / n as real <= 0.0
  {
    Divide(d as real, 0.0, n as real);
  }

  lemma TargetAtEnd(o: Order, nowNs: int)
    requires PastEnd(o, nowNs)
    ensures TargetQty(o, nowNs) == o.totalQty as real
  {
    ElapsedAtEnd(o, nowNs);
  }

  /** Nothing holds a request back: the window is over or, for a POV order, the market has traded a child's worth. */
  predicate Open(o: Order, nowNs: int, volume: int) {
    if o.algo == POV then volume as real * o.povRate >= o.childSize as real else PastEnd(o, nowNs)
  }

  /** With nothing to hold it back, every order sends while anything is left to send. */
  lemma SendsAtEnd(o: Order, s: Progress, nowNs: int, volume: int, exp: real -> real)
    requires o.childSize > 0 && o.totalQty > 0 && Positive(exp) && Open(o, nowNs, volume)
    requires s.filledQty < o.totalQty && 0 <= s.slicesSent < NumSlices(o)
    ensures ShouldSend(o, s, nowNs, volume, exp)
  {
    hide NumSlices, Due, TargetQty, SharesOf, ElapsedFraction, PastEnd;
    match o.algo
    case TWAP => DueAtEnd(o, nowNs);
    case VWAP =>
      TargetAtEnd(o, nowNs);
      PlanBounds(o);
      SharesOfMonotone(s.slicesSent, NumSlices(o) - 1, o.childSize);
    case POV =>
    case IS => ElapsedAtEnd(o, nowNs);
  }

  function Requests(events: seq<Event>): nat {
    if events == [] then 0 else Requests(events[..|events| - 1]) + if events[|events| - 1].Request? then 1 else 0
  }

  /** An order still active has slices left to send. */
  predicate Unfinished(o: Order, s: Progress)
    requires o.childSize > 0
  {
    s.status == Completed || (s.status == Active && 0 <= s.slicesSent < NumSlices(o))
  }

  lemma {:induction false} ActiveIsUnfinished(o: Order, events: seq<Event>, exp: real -> real)
    requires o.childSize > 0 && o.totalQty > 0
    ensures Unfinished(o, Run(o, events, exp).s)
  {
    hide NumSlices, ShouldSend;
    PlanBounds(o);
    if events != [] { ActiveIsUnfinished(o, events[..|events| - 1], exp); }
  }

  /** From then on, each request either completes the order or sends one slice that leaves more to send. */
  lemma EndStep(o: Order, t: Trace, e: Event, exp: real -> real)
    requires o.childSize > 0 && o.totalQty > 0 && Positive(exp)
    requires Unfinished(o, t.s) && (e.Request? ==> Open(o, e.nowNs, e.marketVolume))
    requires t.s.slicesSent >= 0
    ensures var s := Step(o, t, e, exp).s;
            Unfinished(o, s) && (s.status == Completed
                || (t.s.status == Active && s.slicesSent == t.s.slicesSent + if e.Request? then 1 else 0))
  {
    hide NumSlices, ShouldSend, Open, Positive;
    if e.Request? && t.s.status == Active && t.s.filledQty < o.totalQty {
      SendsAtEnd(o, t.s, e.nowNs, e.marketVolume, exp);
    }
  }

  lemma {:induction false} EndRun(o: Order, events: seq<Event>, tail: seq<Event>, exp: real -> real)
    requires o.childSize > 0 && o.totalQty > 0 && Positive(exp)
    requires forall i :: 0 <= i < |tail| && tail[i].Request? ==> Open(o, tail[i].nowNs, tail[i].marketVolume)
    ensures var s, before := Run(o, events + tail, exp).s, Run(o, events, exp).s;
            Unfinished(o, s) && (s.status == Completed || s.slicesSent == before.slicesSent + Requests(tail))
    decreases |tail|
  {
    hide NumSlices, Step, Open, Positive;
    if tail == [] {
      assert events + tail == events;
      ActiveIsUnfinished(o, events, exp);
    } else {
      var k := |tail| - 1;
      EndRun(o, events, tail[..k], exp);
      assert (events + tail)[..|events + tail| - 1] == events + tail[..k];
      EndStep(o, Run(o, events + tail[..k], exp), tail[k], exp);
    }
  }

  /** Whatever happened before, once the window is over as many requests as there are slices left (and never more than
      the plan has) complete a TWAP, VWAP or IS order; a POV order is completed by as many with the volume it needs. */
  lemma EndCompletes(o: Order, events: seq<Event>, tail: seq<Event>, exp: real -> real)
    requires o.childSize > 0 && o.totalQty > 0 && Positive(exp)
    requires forall i :: 0 <= i < |tail| && tail[i].Request? ==> Open(o, tail[i].nowNs, tail[i].marketVolume)
    requires Requests(tail) >= NumSlices(o) - Run(o, events, exp).s.slicesSent
    ensures Run(o, events, exp).s.slicesSent <= NumSlices(o)
    ensures Run(o, events + tail, exp).s.status == Completed
  {
    hide NumSlices, Run, Open, Positive;
    EndRun(o, events, tail, exp);
    PlanBounds(o);
    AccountingHolds(o, events, exp);
  }
}
