/** Historical VaR and expected shortfall. Floats are reals. */
module EnterpriseRisk {
  import opened Text
  import opened Reals

  datatype Position = Position(symbol: string, qty: int, price: real)

  datatype VarResult = VarResult(varUsd: real, cvarUsd: real, portfolioValue: real, varPct: real, scenarios: nat,
                                 worst: real)

  // ---------- Sorting and sums ----------

  function Sum(s: seq<real>): real {
    if s == [] then 0.0 else s[0] + Sum(s[1..])
  }

  predicate Sorted(s: seq<real>) {
    forall i, j :: 0 <= i < j < |s| ==> s[i] <= s[j]
  }

  function Insert(x: real, s: seq<real>): (r: seq<real>)
    ensures |r| == |s| + 1
    ensures r[0] == if s == [] || x <= s[0] then x else s[0]
  {
    if s == [] || x <= s[0] then [x] + s else [s[0]] + Insert(x, s[1..])
  }

  /** `np.sort`. */
  function Sort(s: seq<real>): (r: seq<real>)
    ensures |r| == |s|
  {
    if s == [] then [] else Insert(s[0], Sort(s[1..]))
  }

  lemma {:induction false} InsertSorted(x: real, s: seq<real>)
    requires Sorted(s)
    ensures Sorted(Insert(x, s))
  {
    if s != [] && x > s[0] {
      InsertSorted(x, s[1..]);
    }
  }

  lemma {:induction false} SortSorted(s: seq<real>)
    ensures Sorted(Sort(s))
  {
    if s != [] {
      SortSorted(s[1..]);
      InsertSorted(s[0], Sort(s[1..]));
    }
  }

  lemma {:induction false} InsertReorders(x: real, s: seq<real>)
    ensures multiset(Insert(x, s)) == multiset([x] + s)
  {
    if s != [] && x > s[0] {
      InsertReorders(x, s[1..]);
      assert s == [s[0]] + s[1..];
    }
  }

  /** What sorting means: the same values, rising. */
  lemma {:induction false} SortReorders(s: seq<real>)
    ensures Sorted(Sort(s)) && multiset(Sort(s)) == multiset(s)
  {
    SortSorted(s);
    if s != [] {
      SortReorders(s[1..]);
      InsertReorders(s[0], Sort(s[1..]));
      assert s == [s[0]] + s[1..];
    }
  }

  // ---------- The tail ----------

  function TailCount(n: nat, confidence: real): (k: int)
    ensures k >= 1
  {
    var t := Trunc(n as real * (1.0 - confidence));
    if t >= 1 then t else 1
  }

  /** Minus the mean of the k smallest entries. */
  function ShortfallOf(pnls: seq<real>, k: nat): real
    requires 1 <= k <= |pnls|
  {
    -(Sum(Sort(pnls)[..k]) / k as real)
  }

  /** Minus the k-th smallest entry. */
  function QuantileLoss(pnls: seq<real>, k: nat): real
    requires 1 <= k <= |pnls|
  {
    -Sort(pnls)[k - 1]
  }

  function WorstLoss(pnls: seq<real>): real
    requires pnls != []
  {
    -Sort(pnls)[0]
  }

  /** `_compute_var_result`; None stands for the IndexError when the tail is longer than the data. */
  function VarOf(pnls: seq<real>, confidence: real, value: real): Option<VarResult> {
    var k := TailCount(|pnls|, confidence);
    if k > |pnls| then None
    else
      var v, c := QuantileLoss(pnls, k), ShortfallOf(pnls, k);
      Some(VarResult(Max(0.0, v), Max(0.0, c), value, if value > 0.0 then v / value else 0.0, |pnls|, WorstLoss(pnls)))
  }

  // ---------- The dual of the tail sum ----------

  /** The total shortfall below a threshold. */
  function Hinge(t: real, s: seq<real>): real {
    if s == [] then 0.0 else Max(0.0, t - s[0]) + Hinge(t, s[1..])
  }

  lemma {:induction false} HingeInsert(t: real, x: real, s: seq<real>)
    ensures Hinge(t, Insert(x, s)) == Max(0.0, t - x) + Hinge(t, s)
  {
    if s == [] || x <= s[0] {
      assert ([x] + s)[1..] == s;
    } else {
      HingeInsert(t, x, s[1..]);
      assert Insert(x, s)[1..] == Insert(x, s[1..]);
    }
  }

  /** The shortfall does not depend on the order of the values. */
  lemma {:induction false} HingeSort(t: real, s: seq<real>)
    ensures Hinge(t, Sort(s)) == Hinge(t, s)
  {
    if s != [] {
      HingeSort(t, s[1..]);
      HingeInsert(t, s[0], Sort(s[1..]));
    }
  }

  /** k * t, unrolled: keeps the multiplication out of the inductions. */
  function Repeated(k: nat, t: real): real {
    if k == 0 then 0.0 else t + Repeated(k - 1, t)
  }

  lemma {:induction false} RepeatedIs(k: nat, t: real)
    ensures Repeated(k, t) == k as real * t
  {
    if k > 0 { RepeatedIs(k - 1, t); }
  }

  lemma {:induction false} RepeatedPlus(k: nat, t: real, u: real)
    ensures Repeated(k, t + u) == Repeated(k, t) + Repeated(k, u)
  {
    if k > 0 { RepeatedPlus(k - 1, t, u); }
  }

  lemma {:induction false} TailBound(t: real, s: seq<real>, k: nat)
    requires k <= |s|
    ensures Repeated(k, t) - Hinge(t, s) <= Sum(s[..k])
    decreases |s|
  {
    if k == 0 {
      HingeNonNegative(t, s);
    } else {
      TailBound(t, s[1..], k - 1);
      assert s[..k][1..] == s[1..][..k - 1];
    }
  }

  lemma {:induction false} HingeNonNegative(t: real, s: seq<real>)
    ensures Hinge(t, s) >= 0.0
  {
    if s != [] { HingeNonNegative(t, s[1..]); }
  }

  lemma {:induction false} HingeZero(t: real, s: seq<real>)
    requires forall i :: 0 <= i < |s| ==> t <= s[i]
    ensures Hinge(t, s) == 0.0
  {
    if s != [] { HingeZero(t, s[1..]); }
  }

  /** At the k-th smallest value the bound is attained. */
  lemma {:induction false} TailAttained(s: seq<real>, k: nat, t: real)
    requires k <= |s|
    requires (forall i :: 0 <= i < k ==> s[i] <= t) && forall i :: k <= i < |s| ==> t <= s[i]
    ensures Repeated(k, t) - Hinge(t, s) == Sum(s[..k])
    decreases |s|
  {
    if k == 0 {
      HingeZero(t, s);
    } else {
      TailAttained(s[1..], k - 1, t);
      assert s[..k][1..] == s[1..][..k - 1];
    }
  }

  function TailSum(pnls: seq<real>, k: nat): real
    requires k <= |pnls|
  {
    Sum(Sort(pnls)[..k])
  }

  /** The sum of the k smallest is the maximum over thresholds t of k * t minus the shortfall below t,
      attained at the k-th smallest. */
  lemma TailSumDual(pnls: seq<real>, k: nat, t: real)
    requires 1 <= k <= |pnls|
    ensures Repeated(k, t) - Hinge(t, pnls) <= TailSum(pnls, k)
    ensures var q := Sort(pnls)[k - 1];
            Repeated(k, q) - Hinge(q, pnls) == TailSum(pnls, k)
  {
    hide Sort, Sum, Hinge, Repeated;
    var s := Sort(pnls);
    SortSorted(pnls);
    TailBound(t, s, k);
    HingeSort(t, pnls);
    TailAttained(s, k, s[k - 1]);
    HingeSort(s[k - 1], pnls);
  }

  function Plus(a: seq<real>, b: seq<real>): (c: seq<real>)
    requires |a| == |b|
    ensures |c| == |a|
  {
    if a == [] then [] else [a[0] + b[0]] + Plus(a[1..], b[1..])
  }

  lemma {:induction false} HingePlus(t: real, u: real, a: seq<real>, b: seq<real>)
    requires |a| == |b|
    ensures Hinge(t + u, Plus(a, b)) <= Hinge(t, a) + Hinge(u, b)
  {
    if a != [] {
      HingePlus(t, u, a[1..], b[1..]);
      assert Plus(a, b)[1..] == Plus(a[1..], b[1..]);
    }
  }

  lemma DivideSum(x: real, y: real, k: real)
    requires k > 0.0
    ensures (x + y) / k == x / k + y / k
  {
  }

  /** The sum of the k smallest entries is superadditive. */
  lemma TailSumSuperadditive(a: seq<real>, b: seq<real>, k: nat)
    requires |a| == |b| && 1 <= k <= |a|
    ensures TailSum(Plus(a, b), k) >= TailSum(a, k) + TailSum(b, k)
  {
    hide Sort, TailSum, Hinge, Repeated, Plus;
    var t, u := Sort(a)[k - 1], Sort(b)[k - 1];
    TailSumDual(a, k, t);
    TailSumDual(b, k, u);
    TailSumDual(Plus(a, b), k, t + u);
    HingePlus(t, u, a, b);
    RepeatedPlus(k, t, u);
  }

  /** Expected shortfall of a sum is at most the sum of the expected shortfalls. */
  lemma ShortfallSubadditive(a: seq<real>, b: seq<real>, k: nat)
    requires |a| == |b| && 1 <= k <= |a|
    ensures ShortfallOf(Plus(a, b), k) <= ShortfallOf(a, k) + ShortfallOf(b, k)
  {
    hide Sort, Sum, Plus, TailSum, ShortfallOf;
    TailSumSuperadditive(a, b, k);
    ShortfallIs(a, k);
    ShortfallIs(b, k);
    ShortfallIs(Plus(a, b), k);
    NegatedMeans(TailSum(a, k), TailSum(b, k), TailSum(Plus(a, b), k), k as real);
  }

  lemma ShortfallIs(pnls: seq<real>, k: nat)
    requires 1 <= k <= |pnls|
    ensures ShortfallOf(pnls, k) == -(TailSum(pnls, k) / k as real)
  {
    hide Sort, Sum;
  }

  lemma NegatedMeans(x: real, y: real, z: real, k: real)
    requires k > 0.0 && x + y <= z
    ensures -(z / k) <= -(x / k) + -(y / k)
  {
    Divide(x + y, z, k);
    DivideSum(x, y, k);
  }

  lemma {:induction false} HingeMonotone(t: real, a: seq<real>, b: seq<real>)
    requires |a| == |b| && forall i :: 0 <= i < |a| ==> a[i] <= b[i]
    ensures Hinge(t, b) <= Hinge(t, a)
  {
    if a != [] { HingeMonotone(t, a[1..], b[1..]); }
  }

  /** A portfolio that does at least as well in every scenario has no larger expected shortfall. */
  lemma ShortfallMonotone(a: seq<real>, b: seq<real>, k: nat)
    requires |a| == |b| && 1 <= k <= |a| && forall i :: 0 <= i < |a| ==> a[i] <= b[i]
    ensures ShortfallOf(b, k) <= ShortfallOf(a, k)
  {
    hide Sort, Sum, Hinge, Repeated;
    var t := Sort(a)[k - 1];
    TailSumDual(a, k, t);
    TailSumDual(b, k, t);
    HingeMonotone(t, a, b);
    Divide(TailSum(a, k), TailSum(b, k), k as real);
  }

  lemma {:induction false} SumBounds(s: seq<real>, lo: real, hi: real)
    requires forall i :: 0 <= i < |s| ==> lo <= s[i] <= hi
    ensures Repeated(|s|, lo) <= Sum(s) <= Repeated(|s|, hi)
  {
    if s != [] {
      SumBounds(s[1..], lo, hi);
    }
  }

  lemma RepeatedDivided(k: nat, t: real)
    requires k > 0
    ensures Repeated(k, t) / k as real == t
  {
    RepeatedIs(k, t);
  }

  /** VaR is at most expected shortfall, which is at most the worst loss. */
  lemma LossesOrdered(pnls: seq<real>, k: nat)
    requires 1 <= k <= |pnls|
    ensures QuantileLoss(pnls, k) <= ShortfallOf(pnls, k) <= WorstLoss(pnls)
  {
    hide Sort, Sum, Repeated;
    SortSorted(pnls);
    var s := Sort(pnls);
    SumBounds(s[..k], s[0], s[k - 1]);
    Divide(Repeated(k, s[0]), Sum(s[..k]), k as real);
    Divide(Sum(s[..k]), Repeated(k, s[k - 1]), k as real);
    RepeatedDivided(k, s[0]);
    RepeatedDivided(k, s[k - 1]);
  }

  // ---------- The quantile ----------

  function CountUpTo(s: seq<real>, t: real): nat {
    if s == [] then 0 else (if s[0] <= t then 1 else 0) + CountUpTo(s[1..], t)
  }

  lemma {:induction false} CountInsert(x: real, s: seq<real>, t: real)
    ensures CountUpTo(Insert(x, s), t) == (if x <= t then 1 else 0) + CountUpTo(s, t)
  {
    if s == [] || x <= s[0] {
      assert ([x] + s)[1..] == s;
    } else {
      CountInsert(x, s[1..], t);
      assert Insert(x, s)[1..] == Insert(x, s[1..]);
    }
  }

  lemma {:induction false} CountSort(s: seq<real>, t: real)
    ensures CountUpTo(Sort(s), t) == CountUpTo(s, t)
  {
    if s != [] {
      CountSort(s[1..], t);
      CountInsert(s[0], Sort(s[1..]), t);
    }
  }

  lemma {:induction false} CountSorted(s: seq<real>, k: nat, t: real)
    requires Sorted(s) && 1 <= k <= |s|
    ensures s[k - 1] <= t <==> CountUpTo(s, t) >= k
    ensures CountUpTo(s, t) <= |s|
  {
    if k > 1 {
      CountSorted(s[1..], k - 1, t);
    } else if s[0] > t {
      CountNone(s, t);
    } else if |s| > 1 {
      CountSorted(s[1..], 1, t);
    }
  }

  lemma {:induction false} CountNone(s: seq<real>, t: real)
    requires forall x <- s :: x > t
    ensures CountUpTo(s, t) == 0
  {
    if s != [] {
      assert s[0] in s && forall x <- s[1..] :: x in s;
      CountNone(s[1..], t);
    }
  }

  /** What VaR says: the loss is at least x exactly when k scenarios lose at least x. */
  lemma QuantileIff(pnls: seq<real>, k: nat, x: real)
    requires 1 <= k <= |pnls|
    ensures QuantileLoss(pnls, k) >= x <==> CountUpTo(pnls, -x) >= k
  {
    hide Sort, CountUpTo;
    SortSorted(pnls);
    CountSorted(Sort(pnls), k, -x);
    CountSort(pnls, -x);
  }

  lemma ShortfallOfOne(pnls: seq<real>)
    requires pnls != []
    ensures ShortfallOf(pnls, 1) == QuantileLoss(pnls, 1)
  {
    var s := Sort(pnls);
    assert s[..1] == [s[0]] && [s[0]][1..] == [];
    assert Sum([s[0]]) == s[0] + Sum([]);
  }

  // ---------- Portfolios ----------

  /** A scenario gives each symbol a return; a symbol it does not mention has none. */
  function ShockOf(shocks: map<string, real>, symbol: string): real {
    if symbol in shocks then shocks[symbol] else 0.0
  }

  /** What one position makes in a scenario. */
  function Gain(p: Position, shocks: map<string, real>): real {
    p.qty as real * p.price * ShockOf(shocks, p.symbol)
  }

  function Pnl(positions: seq<Position>, shocks: map<string, real>): real {
    if positions == [] then 0.0
    else Pnl(positions[..|positions| - 1], shocks) + Gain(positions[|positions| - 1], shocks)
  }

  function Gross(p: Position): real {
    Abs(p.qty as real * p.price)
  }

  function GrossValue(positions: seq<Position>): real {
    if positions == [] then 0.0
    else GrossValue(positions[..|positions| - 1]) + Gross(positions[|positions| - 1])
  }

  /** A dictionary keyed by symbol, in insertion order. */
  predicate OneEach(positions: seq<Position>) {
    forall i, j :: 0 <= i < j < |positions| ==> positions[i].symbol != positions[j].symbol
  }

  function Put(positions: seq<Position>, p: Position): (r: seq<Position>)
    ensures forall q :: q in r ==> q in positions || q == p
  {
    if positions == [] then [p]
    else if positions[0].symbol == p.symbol then [p] + positions[1..]
    else [positions[0]] + Put(positions[1..], p)
  }

  lemma {:induction false} PutOneEach(positions: seq<Position>, p: Position)
    requires OneEach(positions)
    ensures OneEach(Put(positions, p))
  {
    if positions != [] && positions[0].symbol != p.symbol {
      PutOneEach(positions[1..], p);
      var rest := Put(positions[1..], p);
      assert forall i :: 0 <= i < |rest| ==> rest[i] in rest;
      assert forall i :: 1 <= i < |positions| ==> positions[i].symbol != positions[0].symbol;
    }
  }

  lemma {:induction false} PutReplaces(positions: seq<Position>, p: Position)
    requires OneEach(positions)
    ensures p in Put(positions, p)
    ensures forall q: Position :: q.symbol != p.symbol ==> (q in Put(positions, p) <==> q in positions)
  {
    if positions != [] {
      assert positions == [positions[0]] + positions[1..];
      assert forall i :: 1 <= i < |positions| ==> positions[i].symbol != positions[0].symbol;
      PutReplaces(positions[1..], p);
    }
  }

  function Symbols(positions: seq<Position>): set<string> {
    if positions == [] then {} else Symbols(positions[..|positions| - 1]) + {positions[|positions| - 1].symbol}
  }

  /** The scenario of day i: only held symbols with a history are shocked. */
  function DayShocks(positions: seq<Position>, histories: map<string, seq<real>>, i: nat): map<string, real>
    requires forall s :: s in histories ==> i < |histories[s]|
  {
    map s | s in histories && s in Symbols(positions) :: histories[s][i]
  }

  /** The common history length. */
  predicate IsMinLength(histories: map<string, seq<real>>, n: nat) {
    (forall s :: s in histories ==> n <= |histories[s]|) && exists s :: s in histories && |histories[s]| == n
  }

  function HistoryPnls(positions: seq<Position>, histories: map<string, seq<real>>, n: nat): (pnls: seq<real>)
    requires forall s :: s in histories ==> n <= |histories[s]|
    ensures |pnls| == n
  {
    if n == 0 then []
    else HistoryPnls(positions, histories, n - 1) + [Pnl(positions, DayShocks(positions, histories, n - 1))]
  }

  // ---------- Merging two portfolios ----------

  /** Add a position to a portfolio, netting quantities when the symbol is already held. */
  function Net(positions: seq<Position>, p: Position): seq<Position> {
    if positions == [] then [p]
    else
      var init, last := positions[..|positions| - 1], positions[|positions| - 1];
      if last.symbol == p.symbol then init + [last.(qty := last.qty + p.qty)] else Net(init, p) + [last]
  }

  function Merge(a: seq<Position>, b: seq<Position>): seq<Position> {
    if b == [] then a else Net(Merge(a, b[..|b| - 1]), b[|b| - 1])
  }

  /** Each symbol has one market price, whichever portfolio holds it. */
  predicate Priced(positions: seq<Position>, prices: map<string, real>) {
    forall i :: 0 <= i < |positions| ==>
      positions[i].symbol in prices && positions[i].price == prices[positions[i].symbol]
  }

  lemma PricedAppend(positions: seq<Position>, p: Position, prices: map<string, real>)
    ensures Priced(positions + [p], prices)
            <==> Priced(positions, prices) && p.symbol in prices && p.price == prices[p.symbol]
  {
    var all := positions + [p];
    assert all[|positions|] == p && forall i :: 0 <= i < |positions| ==> all[i] == positions[i];
  }

  lemma PnlAppend(positions: seq<Position>, p: Position, shocks: map<string, real>)
    ensures Pnl(positions + [p], shocks) == Pnl(positions, shocks) + Gain(p, shocks)
    ensures Symbols(positions + [p]) == Symbols(positions) + {p.symbol}
  {
    assert (positions + [p])[..|positions|] == positions;
  }

  lemma GainNets(p: Position, q: Position, shocks: map<string, real>)
    requires p.symbol == q.symbol && p.price == q.price
    ensures Gain(p.(qty := p.qty + q.qty), shocks) == Gain(p, shocks) + Gain(q, shocks)
  {
    var m, n, x, y := p.qty as real, q.qty as real, p.price, ShockOf(shocks, p.symbol);
    assert (m + n) * x * y == m * x * y + n * x * y;
  }

  lemma {:induction false} NetPnl(positions: seq<Position>, p: Position, shocks: map<string, real>,
                                  prices: map<string, real>)
    requires Priced(positions, prices) && p.symbol in prices && p.price == prices[p.symbol]
    ensures Pnl(Net(positions, p), shocks) == Pnl(positions, shocks) + Gain(p, shocks)
    ensures Priced(Net(positions, p), prices)
    ensures Symbols(Net(positions, p)) == Symbols(positions) + {p.symbol}
  {
    hide Gain, Priced;
    if positions == [] {
      PnlAppend([], p, shocks);
      PricedAppend([], p, prices);
      assert [] + [p] == [p];
    } else {
      var init, last := positions[..|positions| - 1], positions[|positions| - 1];
      assert positions == init + [last];
      PricedAppend(init, last, prices);
      if last.symbol == p.symbol {
        var both := last.(qty := last.qty + p.qty);
        PnlAppend(init, both, shocks);
        PricedAppend(init, both, prices);
        GainNets(last, p, shocks);
      } else {
        NetPnl(init, p, shocks, prices);
        PnlAppend(Net(init, p), last, shocks);
        PricedAppend(Net(init, p), last, prices);
      }
    }
  }

  lemma {:induction false} MergePnl(a: seq<Position>, b: seq<Position>, shocks: map<string, real>,
                                    prices: map<string, real>)
    requires Priced(a, prices) && Priced(b, prices)
    ensures Pnl(Merge(a, b), shocks) == Pnl(a, shocks) + Pnl(b, shocks)
    ensures Priced(Merge(a, b), prices)
    ensures Symbols(Merge(a, b)) == Symbols(a) + Symbols(b)
  {
    hide Gain, Priced, Net;
    if b != [] {
      var init, last := b[..|b| - 1], b[|b| - 1];
      assert b == init + [last];
      PricedAppend(init, last, prices);
      MergePnl(a, init, shocks, prices);
      NetPnl(Merge(a, init), last, shocks, prices);
    }
  }

  /** Only the shocks of held symbols matter. */
  lemma {:induction false} PnlLocal(positions: seq<Position>, s: map<string, real>, t: map<string, real>)
    requires forall symbol :: symbol in Symbols(positions) ==> ShockOf(s, symbol) == ShockOf(t, symbol)
    ensures Pnl(positions, s) == Pnl(positions, t)
  {
    if positions != [] { PnlLocal(positions[..|positions| - 1], s, t); }
  }

  /** Scenario by scenario, the merged portfolio makes what the two make together. */
  lemma {:induction false} HistoryAdds(a: seq<Position>, b: seq<Position>, histories: map<string, seq<real>>, n: nat,
                                       prices: map<string, real>)
    requires Priced(a, prices) && Priced(b, prices)
    requires forall s :: s in histories ==> n <= |histories[s]|
    ensures HistoryPnls(Merge(a, b), histories, n) == Plus(HistoryPnls(a, histories, n), HistoryPnls(b, histories, n))
  {
    hide Symbols, Merge, Priced, Pnl;
    if n > 0 {
      HistoryAdds(a, b, histories, n - 1, prices);
      var all := DayShocks(Merge(a, b), histories, n - 1);
      MergePnl(a, b, all, prices);
      PnlLocal(a, all, DayShocks(a, histories, n - 1));
      PnlLocal(b, all, DayShocks(b, histories, n - 1));
      PlusAppend(HistoryPnls(a, histories, n - 1), HistoryPnls(b, histories, n - 1),
                 Pnl(a, DayShocks(a, histories, n - 1)), Pnl(b, DayShocks(b, histories, n - 1)));
    }
  }

  lemma {:induction false} PlusAppend(a: seq<real>, b: seq<real>, x: real, y: real)
    requires |a| == |b|
    ensures Plus(a + [x], b + [y]) == Plus(a, b) + [x + y]
  {
    if a == [] {
      assert Plus([x][1..], [y][1..]) == [];
      assert [x] + [] == [x];
    } else {
      assert (a + [x])[1..] == a[1..] + [x] && (b + [y])[1..] == b[1..] + [y];
      PlusAppend(a[1..], b[1..], x, y);
    }
  }

  /** Diversification never raises the reported expected shortfall: on one shared history, the CVaR of the merged
      portfolio is at most the sum of the two CVaRs, the clamping at zero included. */
  lemma CvarSubadditive(a: seq<Position>, b: seq<Position>, histories: map<string, seq<real>>, n: nat,
                        prices: map<string, real>, confidence: real)
    requires Priced(a, prices) && Priced(b, prices)
    requires forall s :: s in histories ==> n <= |histories[s]|
    ensures var ra := VarOf(HistoryPnls(a, histories, n), confidence, GrossValue(a));
            var rb := VarOf(HistoryPnls(b, histories, n), confidence, GrossValue(b));
            var rm := VarOf(HistoryPnls(Merge(a, b), histories, n), confidence, GrossValue(Merge(a, b)));
            && ra.Some? == rb.Some? == rm.Some?
            && (rm.Some? ==> rm.value.cvarUsd <= ra.value.cvarUsd + rb.value.cvarUsd)
  {
    hide HistoryPnls, Merge, GrossValue, ShortfallOf, QuantileLoss, WorstLoss, TailCount, Priced;
    HistoryAdds(a, b, histories, n, prices);
    var k := TailCount(n, confidence);
    if k <= n {
      ShortfallSubadditive(HistoryPnls(a, histories, n), HistoryPnls(b, histories, n), k);
    }
  }

  // ----- when VaR diversifies -----

  /** The reported VaR of the merged portfolio is at most the sum of the two. */
  predicate VarDiversifies(a: seq<Position>, b: seq<Position>, histories: map<string, seq<real>>, n: nat,
                           confidence: real)
    requires forall s :: s in histories ==> n <= |histories[s]|
  {
    var ra := VarOf(HistoryPnls(a, histories, n), confidence, GrossValue(a));
    var rb := VarOf(HistoryPnls(b, histories, n), confidence, GrossValue(b));
    var rm := VarOf(HistoryPnls(Merge(a, b), histories, n), confidence, GrossValue(Merge(a, b)));
    ra.Some? && rb.Some? && rm.Some? ==> rm.value.varUsd <= ra.value.varUsd + rb.value.varUsd
  }

  /** Two portfolios that agree on prices, and a history of n common days. */
  ghost predicate Shared(a: seq<Position>, b: seq<Position>, histories: map<string, seq<real>>, n: nat) {
    IsMinLength(histories, n) && OneEach(a) && OneEach(b) && exists prices :: Priced(a, prices) && Priced(b, prices)
  }

  function LossDays(n: nat, lo: nat, hi: nat, loss: real): seq<real> {
    if n == 0 then [] else LossDays(n - 1, lo, hi, loss) + [if lo <= n - 1 < hi then loss else 0.0]
  }

  lemma {:induction false} LossDaysAt(n: nat, lo: nat, hi: nat, loss: real)
    ensures |LossDays(n, lo, hi, loss)| == n
    ensures forall i :: 0 <= i < n ==> LossDays(n, lo, hi, loss)[i] == if lo <= i < hi then loss else 0.0
  {
    if n > 0 { LossDaysAt(n - 1, lo, hi, loss); }
  }

  lemma {:induction false} CountAppend(s: seq<real>, x: real, t: real)
    ensures CountUpTo(s + [x], t) == CountUpTo(s, t) + if x <= t then 1 else 0
  {
    if s == [] {
      assert [x][1..] == [] && [] + [x] == [x];
    } else {
      CountAppend(s[1..], x, t);
      assert (s + [x])[1..] == s[1..] + [x];
    }
  }

  /** How many of the first n days lose. */
  lemma {:induction false} CountLossDays(n: nat, lo: nat, hi: nat, loss: real, t: real)
    requires lo <= hi && t < 0.0
    ensures CountUpTo(LossDays(n, lo, hi, loss), t)
            == if loss > t || n <= lo then 0 else (if n <= hi then n else hi) - lo
  {
    hide CountUpTo;
    if n > 0 {
      CountLossDays(n - 1, lo, hi, loss, t);
      CountAppend(LossDays(n - 1, lo, hi, loss), if lo <= n - 1 < hi then loss else 0.0, t);
    } else {
      CountNone([], t);
    }
  }

  lemma {:induction false} LossDaysPlus(n: nat, mid: nat, hi: nat, loss: real)
    requires mid <= hi
    ensures |LossDays(n, 0, mid, loss)| == |LossDays(n, mid, hi, loss)| == n
    ensures Plus(LossDays(n, 0, mid, loss), LossDays(n, mid, hi, loss)) == LossDays(n, 0, hi, loss)
  {
    LossDaysAt(n, 0, mid, loss);
    LossDaysAt(n, mid, hi, loss);
    if n > 0 {
      LossDaysAt(n - 1, 0, mid, loss);
      LossDaysAt(n - 1, mid, hi, loss);
      LossDaysPlus(n - 1, mid, hi, loss);
      PlusAppend(LossDays(n - 1, 0, mid, loss), LossDays(n - 1, mid, hi, loss),
                 if n - 1 < mid then loss else 0.0, if mid <= n - 1 < hi then loss else 0.0);
    }
  }

  /** One share at a price of 100: the profits are a hundred times the returns. */
  lemma {:induction false} OneShare(symbol: string, histories: map<string, seq<real>>, n: nat, m: nat, lo: nat, hi: nat)
    requires symbol in histories && (forall s :: s in histories ==> n <= |histories[s]|) && m <= n
    requires histories[symbol] == LossDays(n, lo, hi, -0.1)
    ensures HistoryPnls([Position(symbol, 1, 100.0)], histories, m) == LossDays(m, lo, hi, -10.0)
  {
    if m > 0 {
      OneShare(symbol, histories, n, m - 1, lo, hi);
      LossDaysAt(n, lo, hi, -0.1);
      var p := Position(symbol, 1, 100.0);
      assert [p][..0] == [];
      assert Symbols([p]) == {symbol};
      assert Pnl([p], DayShocks([p], histories, m - 1)) == Gain(p, DayShocks([p], histories, m - 1));
    }
  }

  /** The quantile losses behind the failure: k - 1 bad days in one book, one more in the other, k in both together. */
  lemma LossDaysQuantiles(n: nat, k: nat)
    requires 2 <= k <= n
    ensures forall lo: nat, hi: nat :: |LossDays(n, lo, hi, -10.0)| == n
    ensures QuantileLoss(LossDays(n, 0, k - 1, -10.0), k) <= 0.0
    ensures QuantileLoss(LossDays(n, k - 1, k, -10.0), k) <= 0.0
    ensures QuantileLoss(LossDays(n, 0, k, -10.0), k) >= 10.0
  {
    forall lo: nat, hi: nat ensures |LossDays(n, lo, hi, -10.0)| == n { LossDaysAt(n, lo, hi, -10.0); }
    hide QuantileLoss, CountUpTo, LossDays;
    var a, b := QuantileLoss(LossDays(n, 0, k - 1, -10.0), k), QuantileLoss(LossDays(n, k - 1, k, -10.0), k);
    if a > 0.0 {
      QuantileIff(LossDays(n, 0, k - 1, -10.0), k, a);
      CountLossDays(n, 0, k - 1, -10.0, -a);
    }
    if b > 0.0 {
      QuantileIff(LossDays(n, k - 1, k, -10.0), k, b);
      CountLossDays(n, k - 1, k, -10.0, -b);
    }
    QuantileIff(LossDays(n, 0, k, -10.0), k, 10.0);
    CountLossDays(n, 0, k, -10.0, -10.0);
  }

  function BadHistories(n: nat, k: nat): map<string, seq<real>>
    requires k > 0
  {
    map["A" := LossDays(n, 0, k - 1, -0.1), "B" := LossDays(n, k - 1, k, -0.1)]
  }

  lemma BadShared(n: nat, k: nat, a: seq<Position>, b: seq<Position>, prices: map<string, real>)
    requires k > 0 && a == [Position("A", 1, 100.0)] && b == [Position("B", 1, 100.0)]
        && prices == map["A" := 100.0, "B" := 100.0]
    ensures Priced(a, prices) && Priced(b, prices) && Shared(a, b, BadHistories(n, k), n)
  {
    LossDaysAt(n, 0, k - 1, -0.1);
    LossDaysAt(n, k - 1, k, -0.1);
    assert |BadHistories(n, k)["A"]| == n;
    assert Priced(a, prices) && Priced(b, prices);
  }

  /** From the second smallest scenario on, two one-share portfolios break it on a shared history. */
  lemma VarFails(n: nat, confidence: real)
    returns (a: seq<Position>, b: seq<Position>, histories: map<string, seq<real>>)
    requires 2 <= TailCount(n, confidence) <= n
    ensures Shared(a, b, histories, n) && !VarDiversifies(a, b, histories, n, confidence)
  {
    var k := TailCount(n, confidence);
    a, b, histories := [Position("A", 1, 100.0)], [Position("B", 1, 100.0)], BadHistories(n, k);
    var prices := map["A" := 100.0, "B" := 100.0];
    BadShared(n, k, a, b, prices);
    hide TailCount, QuantileLoss, ShortfallOf, WorstLoss, HistoryPnls, LossDays, Merge, GrossValue, Priced, Plus;
    OneShare("A", histories, n, n, 0, k - 1);
    OneShare("B", histories, n, n, k - 1, k);
    HistoryAdds(a, b, histories, n, prices);
    LossDaysPlus(n, k - 1, k, -10.0);
    LossDaysQuantiles(n, k);
  }

  lemma VarDiversifiesAtOne(a: seq<Position>, b: seq<Position>, histories: map<string, seq<real>>, n: nat,
                            confidence: real)
    requires Shared(a, b, histories, n) && n > 0 && TailCount(n, confidence) == 1
    ensures VarDiversifies(a, b, histories, n, confidence)
  {
    var prices :| Priced(a, prices) && Priced(b, prices);
    hide HistoryPnls, Merge, GrossValue, ShortfallOf, QuantileLoss, WorstLoss, TailCount, Priced;
    HistoryAdds(a, b, histories, n, prices);
    var pa, pb := HistoryPnls(a, histories, n), HistoryPnls(b, histories, n);
    ShortfallSubadditive(pa, pb, 1);
    ShortfallOfOne(pa);
    ShortfallOfOne(pb);
    ShortfallOfOne(Plus(pa, pb));
  }

  lemma TailCountIsOne(n: nat, confidence: real)
    ensures TailCount(n, confidence) == 1 <==> n as real * (1.0 - confidence) < 2.0
  {
  }

  /** Over every two portfolios and every shared history of n days, the VaR of the merged portfolio is at most the sum
      of the two if and only if the tail is a single scenario: n (1 - confidence) < 2. (Where the tail is longer than
      the history there is no result.) */
  lemma VarDiversifiesIff(n: nat, confidence: real)
    requires n > 0 && TailCount(n, confidence) <= n
    ensures (forall a, b, histories :: Shared(a, b, histories, n) ==> VarDiversifies(a, b, histories, n, confidence))
            <==> n as real * (1.0 - confidence) < 2.0
  {
    hide TailCount, VarDiversifies, OneEach, Priced;
    TailCountIsOne(n, confidence);
    if TailCount(n, confidence) == 1 {
      forall a, b, histories | Shared(a, b, histories, n) ensures VarDiversifies(a, b, histories, n, confidence) {
        VarDiversifiesAtOne(a, b, histories, n, confidence);
      }
    } else {
      var a, b, histories := VarFails(n, confidence);
    }
  }

  /** The engine's own settings, 252 days at 99%, have a tail of two. */
  lemma DefaultsDoNotDiversify()
    ensures !forall a, b, histories :: Shared(a, b, histories, 252) ==> VarDiversifies(a, b, histories, 252, 0.99)
  {
    TailFits(252, 0.99);
    VarDiversifiesIff(252, 0.99);
  }

  /** In every result VaR <= CVaR <= the worst loss, or zero where that is larger. */
  lemma ResultOrdered(pnls: seq<real>, confidence: real, value: real)
    ensures var r := VarOf(pnls, confidence, value);
            && (r.None? <==> TailCount(|pnls|, confidence) > |pnls|)
            && (r.Some? ==> 0.0 <= r.value.varUsd <= r.value.cvarUsd <= Max(0.0, r.value.worst))
  {
    hide ShortfallOf, QuantileLoss, WorstLoss, TailCount;
    var k := TailCount(|pnls|, confidence);
    if k <= |pnls| {
      LossesOrdered(pnls, k);
    }
  }

  /** For a confidence level between 0 and 1 the engine fails only on an empty history. */
  lemma TailFits(n: nat, confidence: real)
    requires 0.0 <= confidence <= 1.0
    ensures TailCount(n, confidence) <= n <==> n > 0
  {
    var x := n as real * (1.0 - confidence);
    assert 0.0 <= x <= n as real by {
      assert n as real * 0.0 <= n as real * (1.0 - confidence) <= n as real * 1.0;
    }
  }

  // ----- what a result says, without its tail or its sorting -----

  /** The c-th largest loss, for the whole number c of n (1 - confidence), and at least one. */
  predicate IsTail(c: nat, n: nat, confidence: real) {
    var x := n as real * (1.0 - confidence);
    if x < 1.0 then c == 1 else c as real <= x < (c + 1) as real
  }

  lemma TailIs(n: nat, confidence: real, c: nat)
    requires IsTail(c, n, confidence)
    ensures TailCount(n, confidence) == c >= 1
  {
  }

  lemma Fractions(c: nat, count: nat, x: real)
    requires c as real <= x < (c + 1) as real
    ensures count >= c <==> (count + 1) as real > x
  {
  }

  /** The reported VaR is at least t exactly when more than n (1 - confidence) - 1 scenarios lose at least t, and with
      less than one scenario in the tail it is the worst loss. The percentage is the same figure without the floor
      at 0. */
  lemma VarMeans(pnls: seq<real>, confidence: real, value: real, t: real)
    requires VarOf(pnls, confidence, value).Some?
    ensures var r, x := VarOf(pnls, confidence, value).value, |pnls| as real * (1.0 - confidence);
            && (x >= 1.0 && t > 0.0 ==> (r.varUsd >= t <==> (CountUpTo(pnls, -t) + 1) as real > x))
            && (x >= 1.0 && value > 0.0 ==> (r.varPct * value >= t <==> (CountUpTo(pnls, -t) + 1) as real > x))
            && (x < 1.0 ==> r.varUsd == r.cvarUsd == Max(0.0, r.worst))
            && (x < 1.0 && value > 0.0 ==> r.varPct * value == r.worst)
            && (value <= 0.0 ==> r.varPct == 0.0)
            && r.portfolioValue == value && r.scenarios == |pnls|
            && (exists p :: p in pnls && r.worst == -p) && (forall p :: p in pnls ==> -p <= r.worst)
  {
    hide CountUpTo, Sum;
    var k := TailCount(|pnls|, confidence);
    var x := |pnls| as real * (1.0 - confidence);
    if x >= 1.0 {
      TailIs(|pnls|, confidence, x.Floor);
      Fractions(k, CountUpTo(pnls, -t), x);
    } else {
      TailIs(|pnls|, confidence, 1);
      ShortfallOfOne(pnls);
    }
    hide Sort, TailCount;
    QuantileIff(pnls, k, t);
    if value > 0.0 { QuotientTimes(QuantileLoss(pnls, k), value); }
    WorstIs(pnls);
  }

  lemma WorstIs(pnls: seq<real>)
    requires pnls != []
    ensures (exists p :: p in pnls && WorstLoss(pnls) == -p) && forall p :: p in pnls ==> -p <= WorstLoss(pnls)
  {
    hide Sort;
    SortReorders(pnls);
    var s := Sort(pnls);
    assert s[0] in multiset(s) && s[0] in pnls;
    forall p | p in pnls ensures -p <= WorstLoss(pnls) {
      assert p in multiset(pnls) && p in s;
    }
  }

  /** `Hinge(-q, pnls)` is what the scenarios lose beyond q. */
  function LossBeyond(pnls: seq<real>, q: real, c: nat): real {
    c as real * q + Hinge(-q, pnls)
  }

  lemma BeyondBounds(pnls: seq<real>, q: real, c: nat)
    requires 1 <= c <= |pnls|
    ensures -TailSum(pnls, c) <= LossBeyond(pnls, q, c)
    ensures q == -Sort(pnls)[c - 1] ==> -TailSum(pnls, c) == LossBeyond(pnls, q, c)
  {
    hide Sort, TailSum, Hinge, Repeated;
    TailSumDual(pnls, c, -q);
    RepeatedIs(c, q);
    RepeatedPlus(c, q, -q);
    RepeatedZero(c);
  }

  lemma {:induction false} RepeatedZero(k: nat)
    ensures Repeated(k, 0.0) == 0.0
  {
    if k > 0 { RepeatedZero(k - 1); }
  }

  lemma TimesShortfall(pnls: seq<real>, c: nat)
    requires 1 <= c <= |pnls|
    ensures c as real * ShortfallOf(pnls, c) == -TailSum(pnls, c)
  {
    hide Sort, Sum;
    QuotientTimes(TailSum(pnls, c), c as real);
  }

  /** e is the mean loss over the c worst scenarios, by Rockafellar and Uryasev's formula: c e is the least, over all
      thresholds q, of c q plus the losses beyond q. */
  ghost predicate IsShortfall(e: real, pnls: seq<real>, c: nat) {
    && (forall q :: c as real * e <= LossBeyond(pnls, q, c))
    && (exists q :: c as real * e == LossBeyond(pnls, q, c))
  }

  lemma ShortfallMeans(pnls: seq<real>, c: nat)
    requires 1 <= c <= |pnls|
    ensures IsShortfall(ShortfallOf(pnls, c), pnls, c)
  {
    hide Sort, TailSum, LossBeyond, ShortfallOf;
    TimesShortfall(pnls, c);
    forall q ensures -TailSum(pnls, c) <= LossBeyond(pnls, q, c) { BeyondBounds(pnls, q, c); }
    BeyondBounds(pnls, -Sort(pnls)[c - 1], c);
  }

  /** The reported figure is the shortfall, floored at 0, of the whole part of n (1 - confidence) scenarios, and of one
      at least. */
  lemma CvarMeans(pnls: seq<real>, confidence: real, value: real, c: nat)
    requires VarOf(pnls, confidence, value).Some? && IsTail(c, |pnls|, confidence)
    ensures exists e :: IsShortfall(e, pnls, c) && VarOf(pnls, confidence, value).value.cvarUsd == Max(0.0, e)
  {
    TailIs(|pnls|, confidence, c);
    hide Sort, TailCount, IsShortfall, ShortfallOf, QuantileLoss, WorstLoss;
    ShortfallMeans(pnls, c);
  }

  /** Only the shocked holdings make or lose anything. */
  lemma {:induction false} OnlyShockedCount(positions: seq<Position>, shocks: map<string, real>)
    ensures Pnl(positions, shocks) == Pnl(Shocked(positions, shocks), shocks)
  {
    if positions != [] {
      var p := positions[|positions| - 1];
      OnlyShockedCount(positions[..|positions| - 1], shocks);
      if p.symbol in shocks {
        PnlAppend(Shocked(positions[..|positions| - 1], shocks), p, shocks);
      }
    }
  }

  function Shocked(positions: seq<Position>, shocks: map<string, real>): (held: seq<Position>)
    ensures forall p :: p in held <==> p in positions && p.symbol in shocks
  {
    if positions == [] then []
    else
      var p, held := positions[|positions| - 1], Shocked(positions[..|positions| - 1], shocks);
      if p.symbol in shocks then held + [p] else held
  }

  /** While no holding loses more than it is worth, no reported loss exceeds the gross value, shorts included. */
  lemma LossWithinGross(positions: seq<Position>, histories: map<string, seq<real>>, n: nat, confidence: real)
    requires forall s :: s in histories ==> n <= |histories[s]|
    requires forall s, i :: s in histories && 0 <= i < n ==> -1.0 <= histories[s][i] <= 1.0
    ensures var r := VarOf(HistoryPnls(positions, histories, n), confidence, GrossValue(positions));
            r.Some? ==> r.value.varUsd <= r.value.cvarUsd <= r.value.portfolioValue
  {
    hide TailCount, HistoryPnls, GrossValue, ShortfallOf, QuantileLoss, WorstLoss;
    var pnls, value := HistoryPnls(positions, histories, n), GrossValue(positions);
    ResultOrdered(pnls, confidence, value);
    PnlsWithinGross(positions, histories, n);
    GrossPositive(positions);
    if VarOf(pnls, confidence, value).Some? { WorstIs(pnls); }
  }

  lemma {:induction false} GrossPositive(positions: seq<Position>)
    ensures GrossValue(positions) >= 0.0
  {
    if positions != [] { GrossPositive(positions[..|positions| - 1]); }
  }

  lemma {:induction false} PnlsWithinGross(positions: seq<Position>, histories: map<string, seq<real>>, n: nat)
    requires forall s :: s in histories ==> n <= |histories[s]|
    requires forall s, i :: s in histories && 0 <= i < n ==> -1.0 <= histories[s][i] <= 1.0
    ensures forall p :: p in HistoryPnls(positions, histories, n) ==> -p <= GrossValue(positions)
  {
    hide Pnl, GrossValue;
    if n > 0 {
      PnlsWithinGross(positions, histories, n - 1);
      PnlWithinGross(positions, DayShocks(positions, histories, n - 1));
    }
  }

  lemma {:induction false} PnlWithinGross(positions: seq<Position>, shocks: map<string, real>)
    requires forall s :: s in shocks ==> -1.0 <= shocks[s] <= 1.0
    ensures -GrossValue(positions) <= Pnl(positions, shocks) <= GrossValue(positions)
  {
    if positions != [] {
      hide Gain, Gross;
      PnlWithinGross(positions[..|positions| - 1], shocks);
      GainWithin(positions[|positions| - 1], shocks);
    }
  }

  lemma GainWithin(p: Position, shocks: map<string, real>)
    requires forall s :: s in shocks ==> -1.0 <= shocks[s] <= 1.0
    ensures -Gross(p) <= Gain(p, shocks) <= Gross(p)
  {
    ShockedValue(p.qty as real * p.price, ShockOf(shocks, p.symbol));
  }

  lemma ShockedValue(worth: real, shock: real)
    requires -1.0 <= shock <= 1.0
    ensures -Abs(worth) <= worth * shock <= Abs(worth)
  {
    if worth >= 0.0 {
      Within(shock, worth);
    } else {
      Within(shock, -worth);
    }
  }

  lemma Within(shock: real, size: real)
    requires -1.0 <= shock <= 1.0 && size >= 0.0
    ensures -size <= size * shock <= size && -size <= (-size) * shock <= size
  {
    Scale(shock, 1.0, size);
    Scale(-1.0, shock, size);
  }

  /** The gross value is the most that can be lost with no price more than doubling: some such scenario loses it all. */
  lemma {:induction false} GrossCanBeLost(positions: seq<Position>) returns (shocks: map<string, real>)
    requires OneEach(positions)
    ensures forall s :: s in shocks ==> -1.0 <= shocks[s] <= 1.0
    ensures Pnl(positions, shocks) == -GrossValue(positions)
  {
    if positions == [] {
      shocks := map[];
    } else {
      var init, p := positions[..|positions| - 1], positions[|positions| - 1];
      var before := GrossCanBeLost(init);
      var shock := if p.qty as real * p.price < 0.0 then 1.0 else -1.0;
      shocks := before[p.symbol := shock];
      OtherShock(init, before, p.symbol, shock);
      assert Gain(p, shocks) == -Gross(p);
    }
  }

  lemma {:induction false} OtherShock(positions: seq<Position>, shocks: map<string, real>, symbol: string, shock: real)
    requires forall i :: 0 <= i < |positions| ==> positions[i].symbol != symbol
    ensures Pnl(positions, shocks[symbol := shock]) == Pnl(positions, shocks)
  {
    if positions != [] {
      hide Gain;
      OtherShock(positions[..|positions| - 1], shocks, symbol, shock);
      SameGain(positions[|positions| - 1], shocks, symbol, shock);
    }
  }

  lemma SameGain(p: Position, shocks: map<string, real>, symbol: string, shock: real)
    requires p.symbol != symbol
    ensures Gain(p, shocks[symbol := shock]) == Gain(p, shocks)
  {
  }

  // ---------- The engine ----------

  datatype Outcome = Result(r: VarResult) | NoHistory | TailTooLong

  class Engine {
    const confidence: real
    var positions: seq<Position>
    var histories: map<string, seq<real>>

    ghost predicate Valid()
      reads this
    {
      OneEach(positions)
    }

    constructor (confidence: real)
      ensures Valid() && positions == [] && histories == map[] && this.confidence == confidence
    {
      this.confidence := confidence;
      positions, histories := [], map[];
    }

    method AddPosition(p: Position)
      requires Valid()
      modifies `positions
      ensures Valid() && positions == Put(old(positions), p) && p in positions
      ensures forall q: Position :: q.symbol != p.symbol ==> (q in positions <==> q in old(positions))
    {
      PutOneEach(positions, p);
      PutReplaces(positions, p);
      positions := Put(positions, p);
    }

    method SetHistoricalReturns(symbol: string, daily: seq<real>)
      modifies `histories
      ensures histories == old(histories)[symbol := daily]
    {
      histories := histories[symbol := daily];
    }

    method ScenarioPnl(shocks: map<string, real>) returns (pnl: real)
      ensures pnl == Pnl(positions, shocks)
    {
      pnl := 0.0;
      for i := 0 to |positions|
        invariant pnl == Pnl(positions[..i], shocks)
      {
        assert positions[..i + 1] == positions[..i] + [positions[i]];
        PnlAppend(positions[..i], positions[i], shocks);
        pnl := pnl + positions[i].qty as real * positions[i].price * ShockOf(shocks, positions[i].symbol);
      }
      assert positions[..|positions|] == positions;
    }

    method PortfolioValue() returns (v: real)
      ensures v == GrossValue(positions)
    {
      v := 0.0;
      for i := 0 to |positions|
        invariant v == GrossValue(positions[..i])
      {
        assert positions[..i + 1][..i] == positions[..i];
        v := v + Abs(positions[i].qty as real * positions[i].price);
      }
      assert positions[..|positions|] == positions;
    }

    /** `min(len(r) for r in histories)`. */
    method CommonLength() returns (n: nat)
      requires histories != map[]
      ensures IsMinLength(histories, n)
    {
      var keys := histories.Keys;
      var s :| s in keys;
      n := |histories[s]|;
      keys := keys - {s};
      while keys != {}
        invariant keys <= histories.Keys
        invariant forall t :: t in histories && t !in keys ==> n <= |histories[t]|
        invariant exists t :: t in histories && |histories[t]| == n
        decreases |keys|
      {
        var t :| t in keys;
        if |histories[t]| < n {
          n := |histories[t]|;
        }
        keys := keys - {t};
      }
    }

    /** `drawn` are the synthetic histories the generator would produce for the held symbols. */
    method HistoricalVar(drawn: map<string, seq<real>>) returns (out: Outcome)
      requires forall i :: 0 <= i < |positions| ==> positions[i].symbol in drawn && |drawn[positions[i].symbol]| == 252
      modifies `histories
      ensures histories == if old(histories) != map[] then old(histories)
                           else map s | s in drawn && s in Symbols(positions) :: drawn[s]
      ensures histories == map[] ==> out == NoHistory
      ensures histories != map[] ==>
                exists n :: IsMinLength(histories, n)
                  && var r := VarOf(HistoryPnls(positions, histories, n), confidence, GrossValue(positions));
                     out == if r.Some? then Result(r.value) else TailTooLong
    {
      if histories == map[] {
        histories := map s | s in drawn && s in Symbols(positions) :: drawn[s];
      }
      if histories == map[] {
        return NoHistory;
      }
      hide VarOf, Pnl, DayShocks, GrossValue;
      var before := histories;
      var n := CommonLength();
      var pnls: seq<real> := [];
      for i := 0 to n
        invariant histories == before && pnls == HistoryPnls(positions, before, i)
      {
        var pnl := ScenarioPnl(DayShocks(positions, before, i));
        pnls := pnls + [pnl];
      }
      var value := PortfolioValue();
      var r := VarOf(pnls, confidence, value);
      assert IsMinLength(before, n);
      return if r.Some? then Result(r.value) else TailTooLong;
    }
  }
}
