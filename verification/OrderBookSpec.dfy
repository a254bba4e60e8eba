/** The market-by-order book as a plain list of live orders in arrival order. */
module OrderBookSpec {

  datatype Side = Bid | Ask

  datatype Live = Live(orderId: string, side: Side, price: real, qty: int)

  /** One row of the L3 depth: price, total quantity, order ids in queue order. */
  datatype Row = Row(price: real, qty: int, ids: seq<string>)

  datatype Op =
    | Add(orderId: string, side: Side, price: real, qty: int)
    | Modify(orderId: string, newQty: int)
    | Cancel(orderId: string)

  /** Best price first on both sides: bids sort by negated price. */
  function Key(side: Side, price: real): real {
    if side.Bid? then -price else price
  }

  // ---------- The model ----------

  predicate Has(live: seq<Live>, id: string) {
    exists i :: 0 <= i < |live| && live[i].orderId == id
  }

  predicate UniqueIds(live: seq<Live>) {
    forall i, j :: 0 <= i < j < |live| ==> live[i].orderId != live[j].orderId
  }

  function SetQty(live: seq<Live>, id: string, qty: int): seq<Live> {
    if live == [] then []
    else
      var last := live[|live| - 1];
      SetQty(live[..|live| - 1], id, qty) + [if last.orderId == id then last.(qty := qty) else last]
  }

  function Remove(live: seq<Live>, id: string): seq<Live> {
    if live == [] then []
    else
      var last := live[|live| - 1];
      if last.orderId == id then Remove(live[..|live| - 1], id)
      else Remove(live[..|live| - 1], id) + [last]
  }

  function At(live: seq<Live>, side: Side, price: real): seq<Live> {
    if live == [] then []
    else
      var last := live[|live| - 1];
      if last.side == side && last.price == price then At(live[..|live| - 1], side, price) + [last]
      else At(live[..|live| - 1], side, price)
  }

  function SumQty(live: seq<Live>): int {
    if live == [] then 0 else SumQty(live[..|live| - 1]) + live[|live| - 1].qty
  }

  function SumAt(live: seq<Live>, side: Side, price: real): int {
    if live == [] then 0
    else
      var last := live[|live| - 1];
      SumAt(live[..|live| - 1], side, price) + (if last.side == side && last.price == price then last.qty else 0)
  }

  lemma {:induction false} SumAtIs(live: seq<Live>, side: Side, price: real)
    ensures SumAt(live, side, price) == SumQty(At(live, side, price))
  {
    if live != [] {
      var init, last := live[..|live| - 1], live[|live| - 1];
      SumAtIs(init, side, price);
      var group := At(init, side, price);
      assert (group + [last])[..|group|] == group;
    }
  }

  function Ids(live: seq<Live>): seq<string> {
    if live == [] then [] else Ids(live[..|live| - 1]) + [live[|live| - 1].orderId]
  }

  /** The whole depth of one side: the live orders grouped by price, strictly best first. */
  predicate IsDepth(rows: seq<Row>, live: seq<Live>, side: Side) {
    && (forall i, j :: 0 <= i < j < |rows| ==> Key(side, rows[i].price) < Key(side, rows[j].price))
    && (forall i :: 0 <= i < |rows| ==> RowOf(rows[i], live, side))
    && (forall i :: 0 <= i < |live| && live[i].side == side ==>
        exists k :: 0 <= k < |rows| && rows[k].price == live[i].price)
  }

  predicate RowOf(row: Row, live: seq<Live>, side: Side) {
    var group := At(live, side, row.price);
    group != [] && row.qty == SumQty(group) && row.ids == Ids(group)
  }

  /** Python's `xs[:n]`, negative n included. */
  function Take<T>(s: seq<T>, n: int): seq<T> {
    if n >= |s| then s else if n >= 0 then s[..n] else if |s| + n >= 0 then s[..|s| + n] else []
  }

  /** The depth is determined by the live orders. */
  lemma DepthIsUnique(a: seq<Row>, b: seq<Row>, live: seq<Live>, side: Side)
    requires IsDepth(a, live, side) && IsDepth(b, live, side)
    ensures a == b
  {
    RowsAgree(a, b, live, side, |a|);
    if |b| > |a| {
      FirstMissing(b, a, live, side);
    }
  }

  lemma {:induction false} RowsAgree(a: seq<Row>, b: seq<Row>, live: seq<Live>, side: Side, n: nat)
    requires IsDepth(a, live, side) && IsDepth(b, live, side) && n <= |a|
    ensures n <= |b| && a[..n] == b[..n]
  {
    hide RowOf, At;
    if n > 0 {
      RowsAgree(a, b, live, side, n - 1);
      var k := FindPrice(a[n - 1], b, live, side);
      assert forall j :: 0 <= j < n - 1 ==> a[j] == a[..n - 1][j] && b[j] == b[..n - 1][j];
      if k > n - 1 {
        var j := FindPrice(b[n - 1], a, live, side);
      }
    }
  }

  lemma FirstMissing(a: seq<Row>, b: seq<Row>, live: seq<Live>, side: Side)
    requires IsDepth(a, live, side) && IsDepth(b, live, side)
    ensures |a| <= |b|
  {
    RowsAgree(a, b, live, side, |a|);
  }

  lemma FindPrice(row: Row, rows: seq<Row>, live: seq<Live>, side: Side) returns (k: nat)
    requires RowOf(row, live, side) && IsDepth(rows, live, side)
    ensures k < |rows| && rows[k] == row
  {
    var i := AtMember(live, side, row.price);
    k :| 0 <= k < |rows| && rows[k].price == live[i].price;
  }

  lemma {:induction false} AtMember(live: seq<Live>, side: Side, price: real) returns (i: nat)
    requires At(live, side, price) != []
    ensures i < |live| && live[i].side == side && live[i].price == price
  {
    var last := live[|live| - 1];
    if last.side == side && last.price == price {
      i := |live| - 1;
    } else {
      i := AtMember(live[..|live| - 1], side, price);
    }
  }

  // ---------- The best prices, without rows ----------

  predicate Better(side: Side, p: real, q: real) {
    if side.Bid? then p > q else p < q
  }

  function LivePrices(live: seq<Live>, side: Side): set<real> {
    set i | 0 <= i < |live| && live[i].side == side :: live[i].price
  }

  /** The prices `xs[:n]` leaves of all live ones: strictly best first, and nothing left out beats anything listed. */
  predicate BestPrices(prices: seq<real>, live: seq<Live>, side: Side, n: int) {
    var all := LivePrices(live, side);
    && |prices| == (if n > |all| then |all| else if n >= 0 then n else if |all| + n >= 0 then |all| + n else 0)
    && (forall i, j :: 0 <= i < j < |prices| ==> Better(side, prices[i], prices[j]))
    && (forall p :: p in prices ==> p in all)
    && (forall p, q :: p in prices && q in all && q !in prices ==> Better(side, p, q))
  }

  /** The live quantity at any of the prices. */
  function QtyAmong(live: seq<Live>, side: Side, prices: seq<real>): int {
    if live == [] then 0
    else
      var last := live[|live| - 1];
      QtyAmong(live[..|live| - 1], side, prices) + (if last.side == side && last.price in prices then last.qty else 0)
  }

  /** `queue` is the live orders of one price in arrival order: position k of it is order at[k]. */
  ghost predicate ArrivalOrder(queue: seq<string>, live: seq<Live>, side: Side, price: real) {
    exists at: seq<int> :: IsQueue(queue, live, side, price, at)
  }

  predicate IsQueue(queue: seq<string>, live: seq<Live>, side: Side, price: real, at: seq<int>) {
    && |at| == |queue|
    && (forall k :: 0 <= k < |at| ==> 0 <= at[k] < |live| && queue[k] == live[at[k]].orderId)
    && (forall j, k :: 0 <= j < k < |at| ==> at[j] < at[k])
    && (forall i :: 0 <= i < |live| ==> (i in at <==> live[i].side == side && live[i].price == price))
  }

  lemma QueueGrows(queue: seq<string>, live: seq<Live>, last: Live, side: Side, price: real, at: seq<int>)
    requires IsQueue(queue, live, side, price, at)
    ensures last.side == side && last.price == price ==>
              IsQueue(queue + [last.orderId], live + [last], side, price, at + [|live|])
    ensures last.side != side || last.price != price ==> IsQueue(queue, live + [last], side, price, at)
  {
    var all, n := live + [last], |live|;
    assert forall i :: 0 <= i < n ==> all[i] == live[i];
    forall i | 0 <= i <= n ensures i in at + [n] <==> i == n || (live[i].side == side && live[i].price == price) {
      assert i in at + [n] <==> i in at || i == n;
    }
    assert n !in at by {
      assert forall k :: 0 <= k < |at| ==> at[k] < n;
    }
  }

  lemma IdsAtAppend(live: seq<Live>, last: Live, side: Side, price: real)
    ensures Ids(At(live + [last], side, price))
            == Ids(At(live, side, price)) + if last.side == side && last.price == price then [last.orderId] else []
  {
    var group := At(live, side, price);
    assert (live + [last])[..|live|] == live && (group + [last])[..|group|] == group;
  }

  lemma {:induction false} IdsArrive(live: seq<Live>, side: Side, price: real)
    ensures ArrivalOrder(Ids(At(live, side, price)), live, side, price)
  {
    hide IsQueue;
    if live == [] {
      QueueStarts(side, price);
    } else {
      var init, last := live[..|live| - 1], live[|live| - 1];
      IdsArrive(init, side, price);
      hide Ids, At;
      var queue := Ids(At(init, side, price));
      var at :| IsQueue(queue, init, side, price, at);
      QueueGrows(queue, init, last, side, price, at);
      IdsAtAppend(init, last, side, price);
      assert init + [last] == live && queue + [] == queue;
    }
  }

  lemma QueueStarts(side: Side, price: real)
    ensures IsQueue([], [], side, price, [])
  {
  }

  /** Only one list of prices is the best n. */
  lemma BestPricesUnique(a: seq<real>, b: seq<real>, live: seq<Live>, side: Side, n: int)
    requires BestPrices(a, live, side, n) && BestPrices(b, live, side, n)
    ensures a == b
  {
    BestPricesShared(a, b, live, side, n);
    BestPricesShared(b, a, live, side, n);
    SortedAgree(a, b, side, |a|);
  }

  lemma BestPricesShared(a: seq<real>, b: seq<real>, live: seq<Live>, side: Side, n: int)
    requires BestPrices(a, live, side, n) && BestPrices(b, live, side, n)
    ensures forall p :: p in a ==> p in b
  {
    forall p | p in a ensures p in b {
      if p !in b {
        assert forall q :: q in b ==> Better(side, q, p) && q in a;
        SortedSize(a, side);
        SortedSize(b, side);
        var sa, sb := set q | q in a, set q | q in b;
        assert sb + {p} <= sa;
        SubsetSize(sb + {p}, sa);
      }
    }
  }

  lemma {:induction false} SubsetSize(a: set<real>, b: set<real>)
    requires a <= b
    ensures |a| <= |b|
  {
    assert b == a + (b - a);
  }

  /** A strictly ordered list has as many members as entries. */
  lemma {:induction false} SortedSize(s: seq<real>, side: Side)
    requires forall i, j :: 0 <= i < j < |s| ==> Better(side, s[i], s[j])
    ensures |set p | p in s| == |s|
  {
    if s != [] {
      var init, last := s[..|s| - 1], s[|s| - 1];
      SortedSize(init, side);
      assert s == init + [last];
      assert (set p | p in s) == (set p | p in init) + {last};
    }
  }

  lemma {:induction false} SortedAgree(a: seq<real>, b: seq<real>, side: Side, n: nat)
    requires forall i, j :: 0 <= i < j < |a| ==> Better(side, a[i], a[j])
    requires forall i, j :: 0 <= i < j < |b| ==> Better(side, b[i], b[j])
    requires forall p :: p in a <==> p in b
    requires n <= |a| == |b|
    ensures a[..n] == b[..n]
  {
    if n > 0 {
      SortedAgree(a, b, side, n - 1);
      assert forall k :: 0 <= k < n - 1 ==> a[..n - 1][k] == a[k] && b[..n - 1][k] == b[k];
      assert a[n - 1] in b && b[n - 1] in a;
    }
  }

  function PricesOf(rows: seq<Row>): (prices: seq<real>)
    ensures |prices| == |rows| && forall i :: 0 <= i < |rows| ==> prices[i] == rows[i].price
  {
    seq(|rows|, i requires 0 <= i < |rows| => rows[i].price)
  }

  lemma DepthHasPrices(all: seq<Row>, live: seq<Live>, side: Side)
    requires IsDepth(all, live, side)
    ensures forall p :: p in PricesOf(all) <==> p in LivePrices(live, side)
  {
    hide RowOf, At;
    var prices := PricesOf(all);
    forall i | 0 <= i < |prices| ensures prices[i] in LivePrices(live, side) {
      assert RowOf(all[i], live, side);
      RowIsLive(all[i], live, side);
    }
    forall i | 0 <= i < |live| && live[i].side == side ensures live[i].price in prices {
      var k :| 0 <= k < |all| && all[k].price == live[i].price;
      assert prices[k] == live[i].price;
    }
  }

  lemma RowIsLive(row: Row, live: seq<Live>, side: Side)
    requires RowOf(row, live, side)
    ensures row.price in LivePrices(live, side)
  {
    var i := AtMember(live, side, row.price);
  }

  lemma PrefixIsBest(prices: seq<real>, live: seq<Live>, side: Side, n: int)
    requires forall i, j :: 0 <= i < j < |prices| ==> Better(side, prices[i], prices[j])
    requires forall p :: p in prices <==> p in LivePrices(live, side)
    ensures BestPrices(Take(prices, n), live, side, n)
  {
    hide LivePrices;
    SortedSize(prices, side);
    assert (set p | p in prices) == LivePrices(live, side);
    var best := Take(prices, n);
    assert |best| <= |prices| && forall i :: 0 <= i < |best| ==> best[i] == prices[i];
    forall p, q | p in best && q in prices && q !in best ensures Better(side, p, q) {
      var i :| 0 <= i < |best| && best[i] == p;
      var j :| 0 <= j < |prices| && prices[j] == q;
      assert j >= |best|;
    }
  }

  /** The first n rows of the whole depth list the best n prices. */
  lemma DepthPrices(all: seq<Row>, live: seq<Live>, side: Side, n: int)
    requires IsDepth(all, live, side)
    ensures BestPrices(PricesOf(Take(all, n)), live, side, n)
  {
    var prices := PricesOf(all);
    DepthHasPrices(all, live, side);
    assert forall i, j :: 0 <= i < j < |prices| ==> Better(side, prices[i], prices[j]);
    hide RowOf, LivePrices, BestPrices, IsDepth;
    PrefixIsBest(prices, live, side, n);
    assert PricesOf(Take(all, n)) == Take(prices, n);
  }

  /** Every row of the depth: the total and the ids of the live orders at its price. */
  lemma DepthRows(all: seq<Row>, live: seq<Live>, side: Side)
    requires IsDepth(all, live, side)
    ensures forall i :: 0 <= i < |all| ==>
              && all[i].qty == SumAt(live, side, all[i].price)
              && ArrivalOrder(all[i].ids, live, side, all[i].price)
  {
    hide At, SumAt, SumQty, Ids, ArrivalOrder;
    forall i | 0 <= i < |all|
      ensures all[i].qty == SumAt(live, side, all[i].price)
      ensures ArrivalOrder(all[i].ids, live, side, all[i].price)
    {
      SumAtIs(live, side, all[i].price);
      IdsArrive(live, side, all[i].price);
    }
  }

  lemma {:induction false} QtyAmongFirst(live: seq<Live>, side: Side, p: real, rest: seq<real>)
    requires p !in rest
    ensures QtyAmong(live, side, [p] + rest) == SumAt(live, side, p) + QtyAmong(live, side, rest)
  {
    if live != [] {
      QtyAmongFirst(live[..|live| - 1], side, p, rest);
    }
  }

  // ---------- Runs ----------

  function Apply(live: seq<Live>, op: Op): seq<Live> {
    match op
    case Add(id, side, price, qty) => live + [Live(id, side, price, qty)]
    case Modify(id, q) => SetQty(live, id, q)
    case Cancel(id) => Remove(live, id)
  }

  /** The caller's side of the contract: ids are fresh and quantities positive. */
  predicate Allowed(live: seq<Live>, op: Op) {
    match op
    case Add(id, _, _, qty) => !Has(live, id) && qty > 0
    case Modify(_, q) => q > 0
    case Cancel(_) => true
  }

  predicate Positive(live: seq<Live>) {
    forall i :: 0 <= i < |live| ==> live[i].qty > 0
  }

  predicate AllowedRun(live: seq<Live>, ops: seq<Op>)
    decreases |ops|
  {
    ops != [] ==> Allowed(live, ops[0]) && AllowedRun(Apply(live, ops[0]), ops[1..])
  }

  function Run(live: seq<Live>, ops: seq<Op>): seq<Live>
    decreases |ops|
  {
    if ops == [] then live else Run(Apply(live, ops[0]), ops[1..])
  }

  lemma {:induction false} SetQtyFacts(live: seq<Live>, id: string, qty: int)
    ensures var s := SetQty(live, id, qty);
            |s| == |live| && forall i :: 0 <= i < |s| ==>
              s[i] == (if live[i].orderId == id then live[i].(qty := qty) else live[i])
  {
    if live != [] { SetQtyFacts(live[..|live| - 1], id, qty); }
  }

  lemma {:induction false} RemoveMembers(live: seq<Live>, id: string)
    ensures forall e :: e in Remove(live, id) <==> e in live && e.orderId != id
    ensures UniqueIds(live) ==> UniqueIds(Remove(live, id))
  {
    if live != [] {
      var init := live[..|live| - 1];
      RemoveMembers(init, id);
      assert live == init + [live[|live| - 1]];
      assert forall i :: 0 <= i < |Remove(init, id)| ==> Remove(init, id)[i] in init;
    }
  }

  /** Over every allowed run, ids stay unique and every live quantity stays positive. */
  lemma {:induction false} RunKeepsPositive(live: seq<Live>, ops: seq<Op>)
    requires UniqueIds(live) && Positive(live) && AllowedRun(live, ops)
    ensures UniqueIds(Run(live, ops)) && Positive(Run(live, ops))
    decreases |ops|
  {
    if ops != [] {
      match ops[0] {
        case Add(id, side, price, qty) =>
        case Modify(id, q) => SetQtyFacts(live, id, q);
        case Cancel(id) =>
          RemoveMembers(live, id);
          var r := Remove(live, id);
          assert forall i :: 0 <= i < |r| ==> r[i] in r;
      }
      RunKeepsPositive(Apply(live, ops[0]), ops[1..]);
    }
  }

  lemma RunOne(live: seq<Live>, op: Op)
    ensures Run(live, [op]) == Apply(live, op)
    ensures AllowedRun(live, [op]) <==> Allowed(live, op)
  {
    assert Run(Apply(live, op), [op][1..]) == Apply(live, op);
  }
}
