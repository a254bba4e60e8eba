/** Ordinary least squares, Engle-Granger residuals and the scalar Kalman filter. Floats are reals. */
module Statistics {
  import opened Text
  import opened Reals

  type reals = seq<real>

  function Sum(s: reals): real {
    if s == [] then 0.0 else Sum(s[..|s| - 1]) + s[|s| - 1]
  }

  /** The product, named so that inductions over series need not look into it. */
  function Product(a: real, b: real): real {
    a * b
  }

  function Dot(x: reals, y: reals): real
    requires |x| == |y|
  {
    if x == [] then 0.0 else Dot(x[..|x| - 1], y[..|y| - 1]) + Product(x[|x| - 1], y[|y| - 1])
  }

  function Mean(s: reals): real
    requires s != []
  {
    Sum(s) / |s| as real
  }

  /** `[xi - m for xi in x]`. */
  function Shift(x: reals, m: real): (r: reals)
    ensures |r| == |x|
  {
    seq(|x|, i requires 0 <= i < |x| => x[i] - m)
  }

  /** `[yi - alpha - beta * xi]`: what a line leaves unexplained. */
  function Residuals(x: reals, y: reals, alpha: real, beta: real): (e: reals)
    requires |x| == |y|
    ensures |e| == |x|
  {
    seq(|x|, i requires 0 <= i < |x| => y[i] - alpha - beta * x[i])
  }

  function SumSquares(s: reals): real {
    Dot(s, s)
  }

  // ---------- OLS ----------

  datatype Fit = Fit(alpha: real, beta: real, rSquared: real)

  /** None stands for the ValueErrors: unequal or too short series, or no variance in x. */
  function Ols(x: reals, y: reals): Option<Fit> {
    if |x| != |y| || |x| < 2 then None
    else
      var xMean, yMean := Mean(x), Mean(y);
      var ssXx, ssXy := Dot(Shift(x, xMean), Shift(x, xMean)), Dot(Shift(x, xMean), Shift(y, yMean));
      if ssXx == 0.0 then None
      else
        var beta := ssXy / ssXx;
        var alpha := yMean - beta * xMean;
        var ssRes, ssTot := SumSquares(Residuals(x, y, alpha, beta)), SumSquares(Shift(y, yMean));
        Some(Fit(alpha, beta, if ssTot > 0.0 then 1.0 - ssRes / ssTot else 0.0))
  }

  // ----- linear combinations -----

  function Term(a: real, b: real, c: real, x: real, y: real): real {
    a + b * x + c * y
  }

  /** a + b * x + c * y, pointwise. */
  function Comb(x: reals, y: reals, a: real, b: real, c: real): (r: reals)
    requires |x| == |y|
    ensures |r| == |x|
  {
    seq(|x|, i requires 0 <= i < |x| => Term(a, b, c, x[i], y[i]))
  }

  lemma CombLast(x: reals, y: reals, a: real, b: real, c: real)
    requires |x| == |y| > 0
    ensures var n := |x| - 1;
            && Comb(x, y, a, b, c)[..n] == Comb(x[..n], y[..n], a, b, c)
            && Comb(x, y, a, b, c)[n] == Term(a, b, c, x[n], y[n])
  {
    hide Term;
  }

  lemma TermExpands(a: real, b: real, c: real, x: real, y: real, z: real)
    ensures (a + b * x + c * y) * z == a * z + b * (x * z) + c * (y * z)
  {
  }

  lemma Distribute(c: real, p: real, q: real)
    ensures c * (p + q) == c * p + c * q
  {
  }

  lemma {:induction false} CombDot(x: reals, y: reals, a: real, b: real, c: real, z: reals)
    requires |x| == |y| == |z|
    ensures Dot(Comb(x, y, a, b, c), z) == a * Sum(z) + b * Dot(x, z) + c * Dot(y, z)
  {
    hide Comb, Term, Product;
    if x != [] {
      var n := |x| - 1;
      CombDot(x[..n], y[..n], a, b, c, z[..n]);
      CombLast(x, y, a, b, c);
      CombStep(a, b, c, x[n], y[n], z[n], Sum(z[..n]), Dot(x[..n], z[..n]), Dot(y[..n], z[..n]));
    }
  }

  lemma CombStep(a: real, b: real, c: real, x: real, y: real, z: real, s: real, p: real, q: real)
    ensures a * s + b * p + c * q + Product(Term(a, b, c, x, y), z)
            == a * (s + z) + b * (p + Product(x, z)) + c * (q + Product(y, z))
  {
    TermExpands(a, b, c, x, y, z);
    Distribute(a, s, z);
    Distribute(b, p, x * z);
    Distribute(c, q, y * z);
  }

  lemma {:induction false} DotSym(x: reals, y: reals)
    requires |x| == |y|
    ensures Dot(x, y) == Dot(y, x)
  {
    if x != [] { DotSym(x[..|x| - 1], y[..|y| - 1]); }
  }

  lemma {:induction false} CombSum(x: reals, y: reals, a: real, b: real, c: real)
    requires |x| == |y|
    ensures Sum(Comb(x, y, a, b, c)) == a * |x| as real + b * Sum(x) + c * Sum(y)
  {
    hide Comb, Term;
    if x != [] {
      var n := |x| - 1;
      CombSum(x[..n], y[..n], a, b, c);
      CombLast(x, y, a, b, c);
      SumStep(a, b, c, x[n], y[n], n as real, Sum(x[..n]), Sum(y[..n]));
    }
  }

  lemma SumStep(a: real, b: real, c: real, x: real, y: real, n: real, p: real, q: real)
    ensures a * n + b * p + c * q + Term(a, b, c, x, y) == a * (n + 1.0) + b * (p + x) + c * (q + y)
  {
    Distribute(a, n, 1.0);
    Distribute(b, p, x);
    Distribute(c, q, y);
  }

  lemma ShiftIsComb(x: reals, m: real)
    ensures Shift(x, m) == Comb(x, x, -m, 1.0, 0.0)
  {
  }

  lemma ResidualsIsComb(x: reals, y: reals, alpha: real, beta: real)
    requires |x| == |y|
    ensures Residuals(x, y, alpha, beta) == Comb(x, y, -alpha, -beta, 1.0)
  {
    forall i | 0 <= i < |x| ensures Residuals(x, y, alpha, beta)[i] == Comb(x, y, -alpha, -beta, 1.0)[i] {
      assert (-beta) * x[i] == -(beta * x[i]);
    }
  }

  // ----- the normal equations -----

  lemma MeanTimes(s: reals)
    requires s != []
    ensures |s| as real * Mean(s) == Sum(s)
  {
  }

  /** Centred sums of products from plain ones. */
  lemma CentredDot(x: reals, y: reals)
    requires |x| == |y| > 0
    ensures Dot(Shift(x, Mean(x)), Shift(y, Mean(y))) == Dot(x, y) - Mean(x) * Sum(y)
  {
    hide Dot, Sum, Mean, Shift, Comb;
    var mx, my, n := Mean(x), Mean(y), |x| as real;
    ShiftIsComb(x, mx);
    ShiftIsComb(y, my);
    var cy := Shift(y, my);
    CombDot(x, x, -mx, 1.0, 0.0, cy);
    CombSum(y, y, -my, 1.0, 0.0);
    CombDot(y, y, -my, 1.0, 0.0, x);
    DotSym(x, cy);
    DotSym(x, y);
    MeanTimes(x);
    MeanTimes(y);
    Centre(n, mx, my, Sum(x), Sum(y), Dot(x, y), Sum(cy), Dot(x, cy));
  }

  lemma Centre(n: real, mx: real, my: real, sx: real, sy: real, sxy: real, scy: real, sxcy: real)
    requires n * mx == sx && n * my == sy
    requires scy == -my * n + sy && sxcy == -my * sx + sxy
    ensures -mx * scy + sxcy == sxy - mx * sy
  {
    assert my * sx == mx * sy by { assert my * (n * mx) == mx * (n * my); }
  }

  /** The residuals of the fitted line sum to zero and are orthogonal to x. */
  lemma NormalEquations(x: reals, y: reals)
    requires Ols(x, y).Some?
    ensures var fit := Ols(x, y).value;
            var e := Residuals(x, y, fit.alpha, fit.beta);
            Sum(e) == 0.0 && Dot(e, x) == 0.0
  {
    hide Dot, Sum, Mean, Shift, Comb, Residuals, SumSquares;
    var fit := Ols(x, y).value;
    ResidualsIsComb(x, y, fit.alpha, fit.beta);
    CombSum(x, y, -fit.alpha, -fit.beta, 1.0);
    CombDot(x, y, -fit.alpha, -fit.beta, 1.0, x);
    CentredDot(x, x);
    CentredDot(x, y);
    DotSym(x, y);
    MeanTimes(x);
    MeanTimes(y);
    FittedLine(|x| as real, Mean(x), Mean(y), Sum(x), Sum(y), Dot(x, x), Dot(x, y), fit.alpha, fit.beta);
  }

  lemma FittedLine(n: real, mx: real, my: real, sx: real, sy: real, sxx: real, sxy: real, alpha: real, beta: real)
    requires n * mx == sx && n * my == sy && sxx - mx * sx != 0.0
    requires beta == (sxy - mx * sy) / (sxx - mx * sx) && alpha == my - beta * mx
    ensures -alpha * n - beta * sx + sy == 0.0
    ensures -alpha * sx - beta * sxx + sxy == 0.0
  {
    QuotientTimes(sxy - mx * sy, sxx - mx * sx);
    assert beta * sxx - beta * (mx * sx) == sxy - mx * sy by {
      Distribute(beta, sxx, -(mx * sx));
      NegTimes(beta, mx * sx);
    }
    assert alpha * n == sy - beta * sx by {
      Distribute(n, my, -(beta * mx)); NegTimes(n, beta * mx);
      Commute3(n, beta, mx);
    }
    assert alpha * sx == my * sx - beta * (mx * sx) by {
      Distribute(sx, my, -(beta * mx)); NegTimes(sx, beta * mx);
      Commute3(sx, beta, mx);
    }
    assert my * sx == mx * sy by { Commute3(my, n, mx); Commute3(mx, n, my); }
    NegTimes(n, alpha);
    NegTimes(sx, alpha);
    NegTimes(sx, beta);
    NegTimes(sxx, beta);
  }

  lemma NegTimes(a: real, b: real)
    ensures a * -b == -(a * b) && -b * a == -(a * b)
  {
  }

  lemma Commute3(a: real, b: real, c: real)
    ensures a * (b * c) == b * (a * c) == b * (c * a) == (a * b) * c
  {
  }

  // ----- optimality -----

  lemma {:induction false} DotSelf(s: reals)
    ensures Dot(s, s) >= 0.0
    ensures Dot(s, s) == 0.0 ==> forall i :: 0 <= i < |s| ==> s[i] == 0.0
  {
    if s != [] {
      var n := |s| - 1;
      DotSelf(s[..n]);
      SquareZero(s[n]);
      assert forall i :: 0 <= i < n ==> s[..n][i] == s[i];
    }
  }

  lemma SquareZero(w: real)
    ensures w * w >= 0.0
    ensures w * w == 0.0 ==> w == 0.0
  {
    NoZeroDivisor(w, w);
  }

  lemma NoZeroDivisor(a: real, b: real)
    ensures a * b == 0.0 ==> a == 0.0 || b == 0.0
  {
  }

  /** Any other line's residuals are the fitted line's plus a line, and the two parts are orthogonal. */
  lemma Pythagoras(x: reals, y: reals, a: real, b: real)
    requires Ols(x, y).Some?
    ensures var fit := Ols(x, y).value;
            var l := Comb(x, x, fit.alpha - a, fit.beta - b, 0.0);
            SumSquares(Residuals(x, y, a, b)) == SumSquares(Residuals(x, y, fit.alpha, fit.beta)) + SumSquares(l)
  {
    hide Dot, Sum, Mean, Shift;
    var fit := Ols(x, y).value;
    var u, v := fit.alpha - a, fit.beta - b;
    var e, l, other := Residuals(x, y, fit.alpha, fit.beta), Comb(x, x, u, v, 0.0), Residuals(x, y, a, b);
    NormalEquations(x, y);
    assert other == Comb(l, e, 0.0, 1.0, 1.0) by {
      forall i | 0 <= i < |x| ensures other[i] == Comb(l, e, 0.0, 1.0, 1.0)[i] {
        assert v * x[i] == fit.beta * x[i] - b * x[i];
      }
    }
    hide Comb, Residuals;
    CombDot(l, e, 0.0, 1.0, 1.0, other);
    CombDot(l, e, 0.0, 1.0, 1.0, l);
    CombDot(l, e, 0.0, 1.0, 1.0, e);
    DotSym(l, other);
    DotSym(e, other);
    CombDot(x, x, u, v, 0.0, e);
    DotSym(e, l);
    DotSym(e, x);
  }

  /** A line that vanishes on points that are not all equal is zero. */
  lemma LineVanishes(x: reals, u: real, v: real)
    requires |x| >= 2 && Dot(Shift(x, Mean(x)), Shift(x, Mean(x))) != 0.0
    requires forall i :: 0 <= i < |x| ==> u + v * x[i] == 0.0
    ensures u == 0.0 && v == 0.0
  {
    var i := NotConstant(x);
    assert u + v * x[0] == 0.0 && u + v * x[i] == 0.0;
    assert v * (x[i] - x[0]) == 0.0 by { Distribute(v, x[i], -x[0]); NegTimes(v, x[0]); }
    NoZeroDivisor(v, x[i] - x[0]);
  }

  lemma NotConstant(x: reals) returns (i: nat)
    requires |x| >= 2 && Dot(Shift(x, Mean(x)), Shift(x, Mean(x))) != 0.0
    ensures i < |x| && x[i] != x[0]
  {
    ConstantDot(x, x[0]);
    i :| 0 <= i < |x| && x[i] != x[0];
  }

  lemma ConstantDot(x: reals, c: real)
    requires x != []
    ensures (forall i :: 0 <= i < |x| ==> x[i] == c) ==> Dot(Shift(x, Mean(x)), Shift(x, Mean(x))) == 0.0
  {
    if forall i :: 0 <= i < |x| ==> x[i] == c {
      ConstantSum(x, c);
      MeanOf(|x| as real, c);
      assert Mean(x) == c;
      ZeroDot(Shift(x, Mean(x)));
    }
  }

  lemma {:induction false} ConstantSum(x: reals, c: real)
    requires forall i :: 0 <= i < |x| ==> x[i] == c
    ensures Sum(x) == |x| as real * c
  {
    if x != [] {
      ConstantSum(x[..|x| - 1], c);
      Distribute(c, (|x| - 1) as real, 1.0);
    }
  }

  lemma MeanOf(n: real, c: real)
    requires n > 0.0
    ensures n * c / n == c
  {
  }

  lemma {:induction false} ZeroDot(s: reals)
    requires forall i :: 0 <= i < |s| ==> s[i] == 0.0
    ensures Dot(s, s) == 0.0
  {
    if s != [] { ZeroDot(s[..|s| - 1]); }
  }

  /** The fitted line has the least residual sum of squares of all lines, and is the only one that has it. */
  lemma OlsOptimal(x: reals, y: reals, a: real, b: real)
    requires Ols(x, y).Some?
    ensures var fit := Ols(x, y).value;
            var best, other := SumSquares(Residuals(x, y, fit.alpha, fit.beta)), SumSquares(Residuals(x, y, a, b));
            best <= other && (best == other <==> a == fit.alpha && b == fit.beta)
  {
    hide Residuals, Dot, Sum, Mean, Shift;
    var fit := Ols(x, y).value;
    var l := Comb(x, x, fit.alpha - a, fit.beta - b, 0.0);
    Pythagoras(x, y, a, b);
    DotSelf(l);
    if SumSquares(l) == 0.0 {
      forall i | 0 <= i < |x| ensures (fit.alpha - a) + (fit.beta - b) * x[i] == 0.0 {
        assert l[i] == 0.0;
      }
      LineVanishes(x, fit.alpha - a, fit.beta - b);
    }
  }

  lemma RatioBounds(res: real, tot: real)
    requires 0.0 <= res <= tot && tot > 0.0
    ensures 0.0 <= res / tot <= 1.0
  {
  }

  /** R squared lies between 0 and 1. */
  lemma RSquaredRange(x: reals, y: reals)
    requires Ols(x, y).Some?
    ensures 0.0 <= Ols(x, y).value.rSquared <= 1.0
  {
    assert Residuals(x, y, Mean(y), 0.0) == Shift(y, Mean(y));
    hide Residuals, Dot, Mean, Shift;
    var fit := Ols(x, y).value;
    OlsOptimal(x, y, Mean(y), 0.0);
    var res, tot := SumSquares(Residuals(x, y, fit.alpha, fit.beta)), SumSquares(Shift(y, Mean(y)));
    DotSelf(Residuals(x, y, fit.alpha, fit.beta));
    if tot > 0.0 { RatioBounds(res, tot); }
  }

  /** The variation of y about its mean is what the line leaves unexplained and what it accounts for. */
  lemma VariationSplits(x: reals, y: reals)
    requires Ols(x, y).Some?
    ensures var fit := Ols(x, y).value;
            var res, explained := SumSquares(Residuals(x, y, fit.alpha, fit.beta)),
                SumSquares(Comb(x, x, fit.alpha - Mean(y), fit.beta, 0.0));
            SumSquares(Shift(y, Mean(y))) == res + explained && res >= 0.0 && explained >= 0.0
  {
    assert Residuals(x, y, Mean(y), 0.0) == Shift(y, Mean(y));
    hide Residuals, Dot, Mean, Shift, Comb;
    var fit := Ols(x, y).value;
    Pythagoras(x, y, Mean(y), 0.0);
    assert fit.beta - 0.0 == fit.beta;
    DotSelf(Residuals(x, y, fit.alpha, fit.beta));
    DotSelf(Comb(x, x, fit.alpha - Mean(y), fit.beta, 0.0));
  }

  lemma RSquaredIs(x: reals, y: reals)
    requires Ols(x, y).Some?
    ensures var fit := Ols(x, y).value;
            var res, total := SumSquares(Residuals(x, y, fit.alpha, fit.beta)), SumSquares(Shift(y, Mean(y)));
            fit.rSquared == if total > 0.0 then 1.0 - res / total else 0.0
  {
    hide Residuals, SumSquares, Dot, Mean, Shift;
  }

  /** What R squared means: the share of y's variation about its mean that the fitted line accounts for. It is 1 exactly
      when the line goes through every point, and 0 when y does not vary. */
  lemma RSquaredExplains(x: reals, y: reals)
    requires Ols(x, y).Some?
    ensures var fit := Ols(x, y).value;
            var total := SumSquares(Shift(y, Mean(y)));
            && Product(fit.rSquared, total) == SumSquares(Comb(x, x, fit.alpha - Mean(y), fit.beta, 0.0))
            && (total > 0.0 ==>
                  (fit.rSquared == 1.0 <==> forall i :: 0 <= i < |x| ==> y[i] == fit.alpha + fit.beta * x[i]))
            && (total == 0.0 ==> fit.rSquared == 0.0)
  {
    hide Residuals, SumSquares, Mean, Shift, Comb, Ols, Product;
    var fit := Ols(x, y).value;
    SameLength(x, y);
    VariationSplits(x, y);
    RSquaredIs(x, y);
    OnTheLine(x, y, fit.alpha, fit.beta);
    var res, total := SumSquares(Residuals(x, y, fit.alpha, fit.beta)), SumSquares(Shift(y, Mean(y)));
    if total > 0.0 { Share(fit.rSquared, res, total); } else { NoShare(); }
  }

  lemma SameLength(x: reals, y: reals)
    requires Ols(x, y).Some?
    ensures |x| == |y| >= 2
  {
  }

  lemma NoShare()
    ensures Product(0.0, 0.0) == 0.0
  {
  }

  lemma Share(r: real, res: real, total: real)
    requires total > 0.0 && r == 1.0 - res / total
    ensures Product(r, total) == total - res && (r == 1.0 <==> res == 0.0)
  {
    QuotientTimes(res, total);
    assert r * total == total - res / total * total;
  }

  lemma OnTheLine(x: reals, y: reals, alpha: real, beta: real)
    requires |x| == |y|
    ensures SumSquares(Residuals(x, y, alpha, beta)) == 0.0
            <==> forall i :: 0 <= i < |x| ==> y[i] == alpha + beta * x[i]
  {
    hide Dot;
    var e := Residuals(x, y, alpha, beta);
    DotSelf(e);
    if forall i :: 0 <= i < |x| ==> y[i] == alpha + beta * x[i] {
      AllZero(e);
    } else {
      var i :| 0 <= i < |x| && y[i] != alpha + beta * x[i];
      assert e[i] != 0.0;
    }
  }

  lemma {:induction false} AllZero(s: reals)
    requires forall i :: 0 <= i < |s| ==> s[i] == 0.0
    ensures Dot(s, s) == 0.0
  {
    if s != [] { AllZero(s[..|s| - 1]); }
  }

  /** `engle_granger` hands the fit's residuals to the stationarity test: a spread of mean zero. */
  lemma SpreadHasZeroMean(y: reals, x: reals)
    requires Ols(x, y).Some?
    ensures Mean(Residuals(x, y, Ols(x, y).value.alpha, Ols(x, y).value.beta)) == 0.0
  {
    NormalEquations(x, y);
  }

  // ---------- Kalman filter ----------

  datatype Estimate = Estimate(beta: real, p: real)

  /** The innovation variance. */
  function Variance(s: Estimate, r: real, q: real, x: real): real {
    x * x * (s.p + q) + r
  }

  function Gain(predicted: real, x: real, variance: real): real
    requires variance != 0.0
  {
    predicted * x / variance
  }

  function Corrected(beta: real, gain: real, innovation: real): real {
    beta + gain * innovation
  }

  function Shrunk(gain: real, x: real, predicted: real): real {
    (1.0 - gain * x) * predicted
  }

  /** One update of the estimate and its error covariance, with observation noise r and process noise q. */
  function Update(s: Estimate, r: real, q: real, y: real, x: real): Estimate {
    var variance := Variance(s, r, q, x);
    if variance == 0.0 then s
    else
      var gain := Gain(s.p + q, x, variance);
      Estimate(Corrected(s.beta, gain, Spread(y, s.beta, x)), Shrunk(gain, x, s.p + q))
  }

  function Filter(s: Estimate, r: real, q: real, ys: reals, xs: reals): Estimate
    requires |ys| == |xs|
  {
    if xs == [] then s
    else Update(Filter(s, r, q, ys[..|ys| - 1], xs[..|xs| - 1]), r, q, ys[|ys| - 1], xs[|xs| - 1])
  }

  /** The hedge ratio after each observation. */
  function Betas(s: Estimate, r: real, q: real, ys: reals, xs: reals): reals
    requires |ys| == |xs|
  {
    if xs == [] then []
    else Betas(s, r, q, ys[..|ys| - 1], xs[..|xs| - 1]) + [Filter(s, r, q, ys, xs).beta]
  }

  /** The spread left by the updated ratio after each observation. */
  function Spreads(s: Estimate, r: real, q: real, ys: reals, xs: reals): reals
    requires |ys| == |xs|
  {
    if xs == [] then []
    else
      Spreads(s, r, q, ys[..|ys| - 1], xs[..|xs| - 1])
      + [Spread(ys[|ys| - 1], Filter(s, r, q, ys, xs).beta, xs[|xs| - 1])]
  }

  function Spread(y: real, beta: real, x: real): real {
    y - beta * x
  }

  lemma QuotientBounds(a: real, b: real)
    requires b > 0.0
    ensures a > 0.0 ==> a / b > 0.0
    ensures a >= 0.0 ==> a / b >= 0.0
    ensures a <= b ==> a / b <= 1.0
  {
  }

  lemma ProductPositive(a: real, b: real)
    requires a > 0.0 && b > 0.0
    ensures a * b > 0.0
  {
  }

  lemma NonNegativeProduct(a: real, b: real)
    requires a >= 0.0 && b >= 0.0
    ensures a * b >= 0.0
  {
  }

  lemma TimesQuotient(a: real, b: real, c: real)
    requires c != 0.0
    ensures a / c * b == a * b / c
  {
  }

  lemma OneMinus(a: real, r: real, c: real)
    requires c == a + r && c != 0.0
    ensures 1.0 - a / c == r / c
  {
    var u, v := a / c, r / c;
    assert u * c == a && v * c == r;
    assert (u + v - 1.0) * c == u * c + v * c - c;
    NoZeroDivisor(u + v - 1.0, c);
  }

  lemma Posterior(y: real, x: real, beta: real, gain: real, e: real)
    requires e == y - beta * x
    ensures y - (beta + gain * e) * x == (1.0 - gain * x) * e
  {
    assert (beta + gain * e) * x == beta * x + gain * x * e by { Distribute(x, beta, gain * e); Commute3(gain, e, x); }
    assert (1.0 - gain * x) * e == e - gain * x * e;
  }

  lemma VariancePositive(m: real, r: real, x: real)
    requires r > 0.0 && m > 0.0
    ensures x * x * m >= 0.0 && x * x * m + r >= r
  {
    SquareZero(x);
    NonNegativeProduct(x * x, m);
  }

  /** What is left of the prediction after the gain: the noise share of the innovation variance. */
  lemma GainShare(m: real, r: real, x: real, variance: real)
    requires variance == x * x * m + r && variance != 0.0
    ensures 1.0 - m * x / variance * x == r / variance
  {
    assert m * x / variance * x == x * x * m / variance by {
      TimesQuotient(m * x, x, variance);
      assert m * x * x == x * x * m;
    }
    OneMinus(x * x * m, r, variance);
  }

  /** The closed form of the posterior: the fraction f = r / S of the prediction, and of the innovation, is left. */
  lemma UpdateForm(s: Estimate, r: real, q: real, y: real, x: real)
    requires r > 0.0 && q >= 0.0 && s.p > 0.0
    ensures var variance, t := Variance(s, r, q, x), Update(s, r, q, y, x);
            && variance >= r
            && t.p == r / variance * (s.p + q)
            && t.beta == s.beta + (s.p + q) * x / variance * (y - s.beta * x)
            && y - t.beta * x == r / variance * (y - s.beta * x)
  {
    var m, variance := s.p + q, Variance(s, r, q, x);
    VariancePositive(m, r, x);
    GainShare(m, r, x, variance);
    Posterior(y, x, s.beta, m * x / variance, y - s.beta * x);
  }

  lemma ShareBounds(r: real, variance: real)
    requires 0.0 < r <= variance
    ensures 0.0 < r / variance <= 1.0
  {
    QuotientBounds(r, variance);
  }

  /** One update keeps the covariance positive and no larger than the prediction, adds x^2 / r to the precision,
      and leaves a spread that is the innovation times a factor in (0, 1]: it never overshoots. */
  lemma UpdateFacts(s: Estimate, r: real, q: real, y: real, x: real)
    requires r > 0.0 && q >= 0.0 && s.p > 0.0
    ensures var t, f := Update(s, r, q, y, x), r / Variance(s, r, q, x);
            && 0.0 < f <= 1.0
            && y - t.beta * x == f * (y - s.beta * x)
            && 0.0 < t.p <= s.p + q
            && t.p * (x * x) <= r
            && 1.0 / t.p == 1.0 / (s.p + q) + x * x / r
  {
    var m, variance, t := s.p + q, Variance(s, r, q, x), Update(s, r, q, y, x);
    UpdateForm(s, r, q, y, x);
    ShareBounds(r, variance);
    SquareZero(x);
    assert variance == x * x * m + r;
    hide Update, Variance;
    ProductPositive(r / variance, m);
    ShrinkLe(r / variance, m);
    TimesQuotient(r, m, variance);
    Precision(r, m, x * x, variance, t.p);
    PrecisionBound(r, m, x * x, t.p);
  }

  lemma ShrinkLe(f: real, m: real)
    requires 0.0 <= f <= 1.0 && m >= 0.0
    ensures f * m <= m
  {
  }

  lemma Precision(r: real, m: real, xx: real, variance: real, p: real)
    requires r > 0.0 && m > 0.0 && xx >= 0.0 && variance == xx * m + r && p == r * m / variance && p > 0.0
        && variance > 0.0
    ensures 1.0 / p == 1.0 / m + xx / r
  {
    ProductPositive(r, m);
    assert 1.0 / p == variance / (r * m) by { Reciprocal(r * m, variance); }
    assert variance / (r * m) == xx * m / (r * m) + r / (r * m) by { SplitQuotient(xx * m, r, r * m); }
    assert xx * m / (r * m) == xx / r by { CancelRight(xx, r, m); }
    assert r / (r * m) == 1.0 / m by { CancelLeft(r, m); }
  }

  lemma Reciprocal(a: real, b: real)
    requires a > 0.0 && b > 0.0
    ensures a / b > 0.0 && 1.0 / (a / b) == b / a
  {
    var q := a / b;
    assert q * b == a;
    assert b / a * q == 1.0 by { TimesQuotient(b, q, a); }
  }

  lemma SplitQuotient(a: real, b: real, c: real)
    requires c != 0.0
    ensures (a + b) / c == a / c + b / c
  {
  }

  lemma CancelRight(a: real, b: real, m: real)
    requires b > 0.0 && m > 0.0
    ensures b * m > 0.0 && a * m / (b * m) == a / b
  {
    ProductPositive(b, m);
    var q := a / b;
    assert q * b == a;
    assert q * (b * m) == a * m by { Commute3(q, b, m); }
  }

  lemma CancelLeft(r: real, m: real)
    requires r > 0.0 && m > 0.0
    ensures r * m > 0.0 && r / (r * m) == 1.0 / m
  {
    ProductPositive(r, m);
    var q := 1.0 / m;
    assert q * m == 1.0;
    assert q * (r * m) == r by { Commute3(q, r, m); Commute3(r, q, m); }
  }

  lemma PrecisionBound(r: real, m: real, xx: real, p: real)
    requires r > 0.0 && m > 0.0 && xx >= 0.0 && p > 0.0 && 1.0 / p == 1.0 / m + xx / r
    ensures p * xx <= r
  {
    QuotientBounds(1.0, m);
    assert 1.0 / p > xx / r;
    assert p * (1.0 / p) == 1.0 && r * (xx / r) == xx;
    var u, v := 1.0 / p, xx / r;
    assert p * v <= p * u by { MonotoneTimes(p, v, u); }
    assert p * xx == r * (p * v) by { Commute3(p, r, v); }
    assert r * (p * v) <= r * 1.0 by { MonotoneTimes(r, p * v, 1.0); }
  }

  lemma MonotoneTimes(c: real, a: real, b: real)
    requires c >= 0.0 && a <= b
    ensures c * a <= c * b
  {
  }

  /** Over a whole series the covariance stays positive. */
  lemma {:induction false} FilterPositive(s: Estimate, r: real, q: real, ys: reals, xs: reals)
    requires |ys| == |xs| && r > 0.0 && q >= 0.0 && s.p > 0.0
    ensures Filter(s, r, q, ys, xs).p > 0.0
  {
    hide Update;
    if xs != [] {
      var n := |xs| - 1;
      FilterPositive(s, r, q, ys[..n], xs[..n]);
      UpdateFacts(Filter(s, r, q, ys[..n], xs[..n]), r, q, ys[n], xs[n]);
    }
  }

  // ----- without process noise the filter is the batch ridge estimate -----

  /** The ridge objective: r / p0 times the squared distance from the prior, plus the squared spreads. */
  function Ridge(s: Estimate, r: real, ys: reals, xs: reals, b: real): real
    requires |ys| == |xs| && s.p > 0.0
  {
    Weight(s, r) * ((b - s.beta) * (b - s.beta)) + SumSquares(Residuals(xs, ys, 0.0, b))
  }

  /** The precision in units of the noise. */
  function Weight(s: Estimate, r: real): real
    requires s.p > 0.0
  {
    r / s.p
  }

  function Weighted(s: Estimate, r: real): real
    requires s.p > 0.0
  {
    r / s.p * s.beta
  }

  /** Precision and precision-weighted estimate accumulate: the information form of the filter. */
  lemma {:induction false} InformationForm(s: Estimate, r: real, ys: reals, xs: reals)
    requires |ys| == |xs| && r > 0.0 && s.p > 0.0
    ensures var t := Filter(s, r, 0.0, ys, xs);
            && t.p > 0.0
            && Weight(t, r) == Weight(s, r) + Dot(xs, xs)
            && Weighted(t, r) == Weighted(s, r) + Dot(xs, ys)
  {
    hide Update, Weight, Weighted, Product;
    if xs != [] {
      var n := |xs| - 1;
      InformationForm(s, r, ys[..n], xs[..n]);
      InformationStep(Filter(s, r, 0.0, ys[..n], xs[..n]), r, ys[n], xs[n]);
    }
  }

  lemma InformationStep(s: Estimate, r: real, y: real, x: real)
    requires r > 0.0 && s.p > 0.0
    ensures var t := Update(s, r, 0.0, y, x);
            t.p > 0.0 && Weight(t, r) == Weight(s, r) + Product(x, x)
                && Weighted(t, r) == Weighted(s, r) + Product(x, y)
  {
    hide Update, Variance, Weight, Weighted, Product, IsUpdate;
    UpdateIsUpdate(s, r, 0.0, y, x);
    InformationOf(s, Update(s, r, 0.0, y, x), s.p + 0.0, r, Variance(s, r, 0.0, x), y, x);
  }

  /** What an update makes of an estimate, the prediction and the innovation variance named. */
  predicate IsUpdate(s: Estimate, t: Estimate, predicted: real, r: real, variance: real, y: real, x: real) {
    && predicted > 0.0 && t.p > 0.0 && variance >= r > 0.0
    && t.p == r / variance * predicted
    && 1.0 / t.p == 1.0 / predicted + x * x / r
    && t.beta == s.beta + predicted * x / variance * (y - s.beta * x)
  }

  lemma UpdateIsUpdate(s: Estimate, r: real, q: real, y: real, x: real)
    requires r > 0.0 && q >= 0.0 && s.p > 0.0
    ensures IsUpdate(s, Update(s, r, q, y, x), s.p + q, r, Variance(s, r, q, x), y, x)
  {
    hide Update, Variance;
    UpdateFacts(s, r, q, y, x);
    UpdateForm(s, r, q, y, x);
  }

  lemma InformationOf(s: Estimate, t: Estimate, predicted: real, r: real, variance: real, y: real, x: real)
    requires s.p > 0.0 && predicted == s.p && IsUpdate(s, t, predicted, r, variance, y, x)
    ensures t.p > 0.0 && Weight(t, r) == Weight(s, r) + Product(x, x)
        && Weighted(t, r) == Weighted(s, r) + Product(x, y)
  {
    InformationScalars(r, s.p, s.beta, t.p, t.beta, variance, y, x);
  }

  lemma InformationScalars(r: real, p: real, beta: real, p': real, beta': real, variance: real, y: real, x: real)
    requires r > 0.0 && p > 0.0 && p' > 0.0 && variance >= r
    requires 1.0 / p' == 1.0 / p + x * x / r && p' == r / variance * p
    requires beta' == beta + p * x / variance * (y - beta * x)
    ensures r / p' == r / p + Product(x, x)
    ensures r / p' * beta' == r / p * beta + Product(x, y)
  {
    PrecisionScaled(r, p, x * x, p');
    WeightedGain(r, p, variance, x, p');
    WeightedStep(r / p, r / p', p * x / variance, beta, y, x);
  }

  lemma PrecisionScaled(r: real, p: real, xx: real, p': real)
    requires r > 0.0 && p > 0.0 && p' > 0.0 && 1.0 / p' == 1.0 / p + xx / r
    ensures r / p' == r / p + xx
  {
    ScaleReciprocal(r, p');
    ScaleReciprocal(r, p);
    Distribute(r, 1.0 / p, xx / r);
    QuotientTimes(xx, r);
  }

  lemma WeightedGain(r: real, p: real, variance: real, x: real, p': real)
    requires r > 0.0 && p > 0.0 && variance > 0.0 && p' == r / variance * p
    ensures r / p' * (p * x / variance) == x
  {
    assert p' == r * p / variance by { TimesQuotient(r, p, variance); }
    ProductPositive(r, p);
    Reciprocal(r * p, variance);
    ScaleReciprocal(r, p');
    GainScale(r, p, variance);
    GainCancels(variance, p, x);
  }

  lemma WeightedStep(w: real, v: real, gain: real, beta: real, y: real, x: real)
    requires v == w + x * x && v * gain == x
    ensures v * (beta + gain * (y - beta * x)) == w * beta + x * y
  {
    var e := y - beta * x;
    Distribute(v, beta, gain * e);
    Commute3(v, gain, e);
    assert x * e == x * y - x * x * beta by {
      Distribute(x, y, -(beta * x)); NegTimes(x, beta * x);
      Commute3(x, beta, x);
    }
    Distribute(beta, w, x * x);
  }

  lemma ScaleReciprocal(r: real, p: real)
    requires p != 0.0
    ensures r / p == r * (1.0 / p)
  {
  }

  lemma GainScale(r: real, p: real, variance: real)
    requires r > 0.0 && p > 0.0 && variance > 0.0
    ensures r * p > 0.0 && r * (variance / (r * p)) == variance / p
  {
    ProductPositive(r, p);
    var q := variance / p;
    assert q * p == variance;
    CancelRight(q, r, p);
    assert variance / (r * p) == q / r;
  }

  lemma GainCancels(variance: real, p: real, x: real)
    requires variance > 0.0 && p > 0.0
    ensures variance / p * (p * x / variance) == x
  {
    var q := variance / p;
    assert q * p == variance;
    assert p * x / variance * variance == p * x;
    assert q * (p * x / variance) * p == p * x by {
      Commute3(q, p, p * x / variance);
      Commute3(p * x / variance, q, p);
    }
    CancelFactor(q * (p * x / variance), x, p);
  }

  lemma CancelFactor(a: real, b: real, p: real)
    requires p > 0.0 && a * p == p * b
    ensures a == b
  {
    NoZeroDivisor(a - b, p);
    assert (a - b) * p == a * p - b * p;
  }

  /** With no process noise, the filtered hedge ratio is the unique minimiser of the ridge objective over the whole
      series. */
  lemma FilterIsRidge(s: Estimate, r: real, ys: reals, xs: reals, b: real)
    requires |ys| == |xs| && r > 0.0 && s.p > 0.0
    ensures var t := Filter(s, r, 0.0, ys, xs);
            && Ridge(s, r, ys, xs, t.beta) <= Ridge(s, r, ys, xs, b)
            && (Ridge(s, r, ys, xs, t.beta) == Ridge(s, r, ys, xs, b) <==> b == t.beta)
  {
    hide Filter, Dot, Ridge, Weight, RidgeForm;
    var t := Filter(s, r, 0.0, ys, xs);
    InformationForm(s, r, ys, xs);
    WeightedIs(s, r);
    WeightedIs(t, r);
    RidgeIs(s, r, ys, xs, b);
    RidgeIs(s, r, ys, xs, t.beta);
    Parabola(Weight(s, r), s.beta, Dot(xs, xs), Dot(xs, ys), Dot(ys, ys), Weight(t, r), t.beta, b);
  }

  lemma WeightedIs(s: Estimate, r: real)
    requires s.p > 0.0 && r > 0.0
    ensures Weighted(s, r) == Weight(s, r) * s.beta && Weight(s, r) > 0.0
  {
    QuotientBounds(r, s.p);
  }

  function RidgeForm(w: real, beta: real, sxx: real, sxy: real, syy: real, c: real): real {
    w * ((c - beta) * (c - beta)) + (syy - 2.0 * (c * sxy) + c * c * sxx)
  }

  lemma RidgeIs(s: Estimate, r: real, ys: reals, xs: reals, b: real)
    requires |ys| == |xs| && s.p > 0.0
    ensures Ridge(s, r, ys, xs, b) == RidgeForm(Weight(s, r), s.beta, Dot(xs, xs), Dot(xs, ys), Dot(ys, ys), b)
  {
    hide Dot, Weight, SumSquares, Residuals;
    SpreadSquares(xs, ys, b);
  }

  /** The squared spread as a quadratic in the hedge ratio. */
  lemma SpreadSquares(xs: reals, ys: reals, b: real)
    requires |xs| == |ys|
    ensures SumSquares(Residuals(xs, ys, 0.0, b)) == Dot(ys, ys) - 2.0 * (b * Dot(xs, ys)) + b * b * Dot(xs, xs)
  {
    hide Dot, SumSquares, Residuals;
    var xe, ye := SpreadParts(xs, ys, b);
    QuadraticSpread(b, Dot(xs, xs), Dot(xs, ys), Dot(ys, ys), xe, ye);
  }

  lemma SpreadParts(xs: reals, ys: reals, b: real) returns (xe: real, ye: real)
    requires |xs| == |ys|
    ensures SumSquares(Residuals(xs, ys, 0.0, b)) == ye - b * xe
    ensures xe == Dot(xs, ys) - b * Dot(xs, xs) && ye == Dot(ys, ys) - b * Dot(xs, ys)
  {
    var e := Comb(xs, ys, -0.0, -b, 1.0);
    ResidualsIsComb(xs, ys, 0.0, b);
    hide Dot, Comb, Residuals, Sum, Term;
    xe, ye := Dot(xs, e), Dot(ys, e);
    SpreadDot(xs, ys, b, e);
    SpreadDot(xs, ys, b, xs);
    SpreadDot(xs, ys, b, ys);
    DotSym(xs, e);
    DotSym(ys, e);
    DotSym(xs, ys);
  }

  lemma SpreadDot(xs: reals, ys: reals, b: real, z: reals)
    requires |xs| == |ys| == |z|
    ensures Dot(Comb(xs, ys, -0.0, -b, 1.0), z) == Dot(ys, z) - b * Dot(xs, z)
  {
    hide Dot, Comb, Sum;
    CombDot(xs, ys, -0.0, -b, 1.0, z);
    NegTimes(Dot(xs, z), b);
  }

  lemma QuadraticSpread(b: real, sxx: real, sxy: real, syy: real, xe: real, ye: real)
    requires xe == sxy - b * sxx && ye == syy - b * sxy
    ensures ye - b * xe == syy - 2.0 * (b * sxy) + b * b * sxx
  {
    Distribute(b, sxy, -(b * sxx));
    NegTimes(b, b * sxx);
    Commute3(b, b, sxx);
  }

  lemma Parabola(w: real, beta: real, sxx: real, sxy: real, syy: real, v: real, best: real, b: real)
    requires v > 0.0 && v == w + sxx && v * best == w * beta + sxy
    ensures var least, other := RidgeForm(w, beta, sxx, sxy, syy, best), RidgeForm(w, beta, sxx, sxy, syy, b);
            && other - least == v * ((b - best) * (b - best))
            && least <= other && (least == other <==> b == best)
  {
    QuadraticForm(w, beta, sxx, sxy, syy, v, best, b);
    QuadraticForm(w, beta, sxx, sxy, syy, v, best, best);
    hide RidgeForm;
    var d := b - best;
    SquareZero(d);
    NonNegativeProduct(v, d * d);
    NoZeroDivisor(v, d * d);
  }

  /** Completing the square. */
  lemma QuadraticForm(w: real, beta: real, sxx: real, sxy: real, syy: real, v: real, best: real, c: real)
    requires v == w + sxx && v * best == w * beta + sxy
    ensures RidgeForm(w, beta, sxx, sxy, syy, c)
            == v * ((c - best) * (c - best)) - v * (best * best) + w * (beta * beta) + syy
  {
    assert (c - beta) * (c - beta) == c * c - 2.0 * (c * beta) + beta * beta;
    assert (c - best) * (c - best) == c * c - 2.0 * (c * best) + best * best;
    assert w * (c * c - 2.0 * (c * beta) + beta * beta) == w * (c * c) - 2.0 * (w * (c * beta)) + w * (beta * beta);
    assert v * (c * c - 2.0 * (c * best) + best * best) == v * (c * c) - 2.0 * (v * (c * best)) + v * (best * best);
    assert v * (c * c) == w * (c * c) + c * c * sxx;
    assert v * (c * best) == w * (c * beta) + c * sxy by {
      Commute3(v, c, best);
      Commute3(w, c, beta);
      Distribute(c, w * beta, sxy);
    }
  }

  // ----- the state object -----

  class KalmanState {
    var beta: real
    var p: real
    const r: real
    const q: real

    constructor (beta: real, p: real, r: real, q: real)
      ensures this.beta == beta && this.p == p && this.r == r && this.q == q
    {
      this.beta, this.p, this.r, this.q := beta, p, r, q;
    }

    function Current(): Estimate
      reads this
    {
      Estimate(beta, p)
    }

    method KalmanUpdate(y: real, x: real) returns (spread: real, hedge: real)
      modifies this
      ensures Current() == Update(old(Current()), r, q, y, x)
      ensures hedge == beta && spread == Spread(y, beta, x)
    {
      var predicted := p + q;
      var innovation := Spread(y, beta, x);
      var variance := x * x * predicted + r;
      assert variance == Variance(Current(), r, q, x);
      hide Variance, Gain, Corrected, Shrunk, Spread;
      if variance == 0.0 {
        return Spread(y, beta, x), beta;
      }
      var gain := Gain(predicted, x, variance);
      beta := Corrected(beta, gain, innovation);
      p := Shrunk(gain, x, predicted);
      return Spread(y, beta, x), beta;
    }

    /** None stands for the ValueError on unequal lengths. */
    method KalmanFilterSpreads(ys: reals, xs: reals) returns (out: Option<(reals, reals)>)
      modifies this
      ensures out.None? <==> |ys| != |xs|
      ensures out.None? ==> Current() == old(Current())
      ensures out.Some? ==> Current() == Filter(old(Current()), r, q, ys, xs)
      ensures out.Some? ==>
                out.value.1 == Betas(old(Current()), r, q, ys, xs)
                    && out.value.0 == Spreads(old(Current()), r, q, ys, xs)
    {
      hide Update, Spread;
      if |ys| != |xs| {
        return None;
      }
      var spreads: reals, betas: reals := [], [];
      for i := 0 to |xs|
        invariant Current() == Filter(old(Current()), r, q, ys[..i], xs[..i])
        invariant betas == Betas(old(Current()), r, q, ys[..i], xs[..i])
        invariant spreads == Spreads(old(Current()), r, q, ys[..i], xs[..i])
      {
        assert ys[..i + 1][..i] == ys[..i] && xs[..i + 1][..i] == xs[..i];
        assert ys[..i + 1][i] == ys[i] && xs[..i + 1][i] == xs[i];
        var spread, hedge := KalmanUpdate(ys[i], xs[i]);
        spreads, betas := spreads + [spread], betas + [hedge];
      }
      assert ys[..|xs|] == ys && xs[..|xs|] == xs;
      return Some((spreads, betas));
    }
  }
}
