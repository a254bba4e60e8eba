/** The intraday cumulative volume curve and its inversion by bisection. Floats are reals. */
module VolumeCurve {

  const BUCKETS: nat := 78

  function RawVolume(i: nat): real {
    if i < 6 then 0.025 else if i < 60 then 0.0087 else 0.021167
  }

  function RawTotal(n: nat): real {
    if n == 0 then 0.0 else RawTotal(n - 1) + RawVolume(n - 1)
  }

  const TOTAL: real := 1.000806

  /** The normalised volume of a bucket; TotalIsSum shows that TOTAL is the sum the profile is divided by. */
  function Profile(i: nat): real {
    RawVolume(i) / TOTAL
  }

  /** The share of the volume before bucket n. */
  function Cumulative(n: nat): real {
    if n == 0 then 0.0 else Cumulative(n - 1) + Profile(n - 1)
  }

  /** The share traded after the fraction d of a bucket. */
  function Partial(d: real, i: nat): real {
    d * Profile(i)
  }

  /** `get_volume_fraction`: piecewise linear through the bucket boundaries. */
  function VolumeFraction(elapsed: real): real {
    if elapsed <= 0.0 then 0.0
    else if elapsed >= 1.0 then 1.0
    else
      var position := elapsed * 78.0;
      var bucket := position.Floor;
      if bucket >= BUCKETS then 1.0
      else
        var reached := Cumulative(bucket) + Partial(position - bucket as real, bucket);
        if reached < 1.0 then reached else 1.0
  }

  // ---------- The profile sums to one ----------

  lemma {:induction false} RawTotalIs(n: nat)
    requires n <= BUCKETS
    ensures RawTotal(n) == (if n <= 6 then n as real * 0.025
                            else if n <= 60 then 0.15 + (n - 6) as real * 0.0087
                            else 0.6198 + (n - 60) as real * 0.021167)
  {
    if n > 0 { RawTotalIs(n - 1); }
  }

  lemma {:induction false} CumulativeIs(n: nat)
    ensures Cumulative(n) == RawTotal(n) / TOTAL
  {
    if n > 0 { CumulativeIs(n - 1); }
  }

  lemma TotalIsSum()
    ensures RawTotal(BUCKETS) == TOTAL
  {
    RawTotalIs(BUCKETS);
  }

  lemma CumulativeEnds()
    ensures Cumulative(0) == 0.0 && Cumulative(BUCKETS) == 1.0
  {
    TotalIsSum();
    CumulativeIs(BUCKETS);
  }

  /** Between two bucket boundaries the curve rises, by at most 0.025 a bucket. */
  lemma {:induction false} CumulativeRises(i: nat, j: nat)
    requires i <= j
    ensures 0.0 <= Cumulative(j) - Cumulative(i) <= 0.025 * (j - i) as real
  {
    if i < j { CumulativeRises(i, j - 1); }
  }

  // ---------- The curve in units of buckets ----------

  /** The curve before clamping, at a position in [0, 78). */
  function Curve(position: real): real
    requires position >= 0.0
  {
    Cumulative(position.Floor) + Partial(position - position.Floor as real, position.Floor)
  }

  lemma PartialBounds(d: real, i: nat)
    requires 0.0 <= d <= 1.0
    ensures 0.0 <= Partial(d, i) <= Profile(i) <= 0.025
    ensures Partial(d, i) <= 0.025 * d
    ensures Profile(i) - Partial(d, i) <= 0.025 * (1.0 - d)
  {
  }

  lemma PartialRises(c: real, d: real, i: nat)
    requires 0.0 <= c <= d <= 1.0
    ensures 0.0 <= Partial(d, i) - Partial(c, i) <= 0.025 * (d - c)
  {
    assert d * Profile(i) - c * Profile(i) == (d - c) * Profile(i);
  }

  /** The curve rises, by at most 0.025 per bucket of distance. */
  lemma CurveRises(a: real, b: real)
    requires 0.0 <= a <= b
    ensures 0.0 <= Curve(b) - Curve(a) <= 0.025 * (b - a)
  {
    hide Profile, Partial;
    var i, j := a.Floor, b.Floor;
    if i == j {
      PartialRises(a - i as real, b - j as real, i);
    } else {
      PartialBounds(a - i as real, i);
      PartialBounds(b - j as real, j);
      CumulativeRises(i + 1, j);
      assert Cumulative(i + 1) == Cumulative(i) + Profile(i);
    }
  }

  lemma CurveRange(a: real)
    requires 0.0 <= a < 78.0
    ensures 0.0 <= Curve(a) <= 1.0
  {
    hide Profile, Partial;
    var i := a.Floor;
    PartialBounds(a - i as real, i);
    CumulativeRises(0, i);
    CumulativeRises(i + 1, BUCKETS);
    CumulativeEnds();
    assert Cumulative(i + 1) == Cumulative(i) + Profile(i);
  }

  lemma FractionIsCurve(elapsed: real)
    requires 0.0 <= elapsed < 1.0
    ensures VolumeFraction(elapsed) == Curve(elapsed * 78.0)
  {
    CurveRange(elapsed * 78.0);
    if elapsed == 0.0 {
      assert Curve(0.0) == 0.0;
    }
  }

  lemma CurveNearEnd(a: real)
    requires 0.0 <= a < 78.0
    ensures 1.0 - Curve(a) <= 0.025 * (78.0 - a)
  {
    hide Profile, Partial;
    var i := a.Floor;
    PartialBounds(a - i as real, i);
    CumulativeRises(i + 1, BUCKETS);
    CumulativeEnds();
    assert Cumulative(i + 1) == Cumulative(i) + Profile(i);
  }

  /** The fraction runs from 0 to 1, never falls, and never rises faster than twice the elapsed share. */
  lemma FractionMonotone(a: real, b: real)
    requires a <= b
    ensures 0.0 <= VolumeFraction(a) <= VolumeFraction(b) <= 1.0
    ensures VolumeFraction(b) - VolumeFraction(a) <= 2.0 * (b - a)
    ensures a <= 0.0 ==> VolumeFraction(a) == 0.0
    ensures b >= 1.0 ==> VolumeFraction(b) == 1.0
  {
    hide Curve;
    var low, high := if a < 0.0 then 0.0 else a, if b < 0.0 then 0.0 else b;
    if low < 1.0 {
      FractionIsCurve(low);
      CurveRange(low * 78.0);
      CurveNearEnd(low * 78.0);
    }
    if high < 1.0 {
      FractionIsCurve(high);
      CurveRange(high * 78.0);
      CurveRises(low * 78.0, high * 78.0);
    }
  }

  // ---------- Bisection ----------

  function Bisect(target: real, lo: real, hi: real, steps: nat): (real, real)
    decreases steps
  {
    if steps == 0 then (lo, hi)
    else
      var mid := (lo + hi) / 2.0;
      if VolumeFraction(mid) < target then Bisect(target, mid, hi, steps - 1) else Bisect(target, lo, mid, steps - 1)
  }

  function HalfPower(k: nat): real {
    if k == 0 then 1.0 else HalfPower(k - 1) / 2.0
  }

  /** The bracket keeps the target between the two fractions and halves at each step. */
  lemma {:induction false} BisectBrackets(target: real, lo: real, hi: real, steps: nat)
    requires lo <= hi && VolumeFraction(lo) < target <= VolumeFraction(hi)
    ensures var (l, h) := Bisect(target, lo, hi, steps);
            && lo <= l <= h <= hi && VolumeFraction(l) < target <= VolumeFraction(h)
            && h - l == (hi - lo) * HalfPower(steps)
    decreases steps
  {
    hide VolumeFraction;
    if steps > 0 {
      var mid := (lo + hi) / 2.0;
      if VolumeFraction(mid) < target {
        BisectBrackets(target, mid, hi, steps - 1);
        Halve(hi - mid, hi - lo, HalfPower(steps - 1));
      } else {
        BisectBrackets(target, lo, mid, steps - 1);
        Halve(mid - lo, hi - lo, HalfPower(steps - 1));
      }
    }
  }

  lemma Halve(half: real, whole: real, p: real)
    requires half == whole / 2.0
    ensures half * p == whole * (p / 2.0)
  {
  }

  lemma {:induction false} BisectWithin(target: real, lo: real, hi: real, steps: nat)
    requires lo <= hi
    ensures lo <= Bisect(target, lo, hi, steps).0 <= Bisect(target, lo, hi, steps).1 <= hi
    decreases steps
  {
    hide VolumeFraction;
    if steps > 0 {
      var mid := (lo + hi) / 2.0;
      BisectWithin(target, mid, hi, steps - 1);
      BisectWithin(target, lo, mid, steps - 1);
    }
  }

  /** A later target is never placed earlier. */
  lemma {:induction false} BisectMonotone(t: real, u: real, lo: real, hi: real, steps: nat)
    requires t <= u && lo <= hi
    ensures Bisect(t, lo, hi, steps).0 <= Bisect(u, lo, hi, steps).0
    decreases steps
  {
    hide VolumeFraction;
    if steps > 0 {
      var mid := (lo + hi) / 2.0;
      BisectWithin(t, lo, mid, steps - 1);
      BisectWithin(u, mid, hi, steps - 1);
      BisectMonotone(t, u, mid, hi, steps - 1);
      BisectMonotone(t, u, lo, mid, steps - 1);
    }
  }

  /** Thirty-two steps from the whole day invert the curve: the time found is the last one, to within 2^-32 of the
      day, before which less than the target share has traded, and the share at that time misses the target by at most
      2^-31. */
  lemma BisectionInverts(target: real)
    requires 0.0 < target <= 1.0
    ensures var (lo, hi) := Bisect(target, 0.0, 1.0, 32);
            && 0.0 <= lo < hi <= 1.0 && hi - lo == HalfPower(32)
            && VolumeFraction(lo) < target <= VolumeFraction(hi)
            && target - VolumeFraction(lo) <= 2.0 * HalfPower(32)
  {
    FractionMonotone(0.0, 1.0);
    BisectBrackets(target, 0.0, 1.0, 32);
    var (lo, hi) := Bisect(target, 0.0, 1.0, 32);
    FractionMonotone(lo, hi);
    FractionMonotone(hi, hi);
  }
}
