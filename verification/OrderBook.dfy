/** The L3 market-by-order book: an id index, two price-keyed level maps, FIFO queues and cached totals. */
module OrderBook {
  import opened OrderBookSpec

  datatype EventKind = AddEvent | CancelEvent

  datatype VenueEvent = VenueEvent(tsNs: int, kind: EventKind)

  datatype SpoofingRisk = NoRisk | Low | Medium | High | Critical

  /** Shared by the id index and its level's queue, so a quantity change shows in both. */
  class Order {
    const orderId: string
    const price: real
    const side: Side
    const venue: string
    const tsNs: int
    var qty: int

    constructor (orderId: string, price: real, side: Side, qty: int, venue: string, tsNs: int)
      ensures this.orderId == orderId && this.price == price && this.side == side
      ensures this.venue == venue && this.tsNs == tsNs && this.qty == qty
    {
      this.orderId, this.price, this.side, this.venue, this.tsNs := orderId, price, side, venue, tsNs;
      this.qty := qty;
    }

    /** Equality of the record's fields. */
    predicate Same(o: Order)
      reads this, o
    {
      orderId == o.orderId && price == o.price && side == o.side && qty == o.qty && venue == o.venue && tsNs == o.tsNs
    }
  }

  /** A level is reached only through its map entry, so updating it in place is replacing the entry. */
  datatype PriceLevel = PriceLevel(price: real, orders: seq<Order>, totalQty: int)

  // ---------- Queues of order objects ----------

  ghost function Queue(os: seq<Order>, side: Side, price: real): (q: seq<Order>)
    ensures forall o :: o in q ==> o in os && o.side == side && o.price == price
  {
    if os == [] then []
    else
      var last := os[|os| - 1];
      if last.side == side && last.price == price then Queue(os[..|os| - 1], side, price) + [last]
      else Queue(os[..|os| - 1], side, price)
  }

  ghost function Without(os: seq<Order>, o: Order): (w: seq<Order>)
    ensures forall p :: p in w ==> p in os
  {
    if os == [] then []
    else if os[|os| - 1] == o then Without(os[..|os| - 1], o)
    else Without(os[..|os| - 1], o) + [os[|os| - 1]]
  }

  /** `deque.remove(o)`: the first element equal to o; unchanged when there is none. */
  function RemoveFirst(os: seq<Order>, o: Order): seq<Order>
    reads os, o
  {
    if os == [] then [] else if os[0].Same(o) then os[1..] else [os[0]] + RemoveFirst(os[1..], o)
  }

  ghost predicate Distinct(os: seq<Order>) {
    forall i, j :: 0 <= i < j < |os| ==> os[i].orderId != os[j].orderId
  }

  lemma QueueAppend(os: seq<Order>, o: Order, side: Side, price: real)
    ensures Queue(os + [o], side, price)
            == Queue(os, side, price) + (if o.side == side && o.price == price then [o] else [])
  {
    assert (os + [o])[..|os|] == os;
  }

  lemma WithoutAppend(os: seq<Order>, o: Order, last: Order)
    ensures Without(os + [last], o) == Without(os, o) + (if last == o then [] else [last])
  {
    assert (os + [last])[..|os|] == os;
  }

  lemma {:induction false} QueueHolds(os: seq<Order>, side: Side, price: real, o: Order)
    requires o in os && o.side == side && o.price == price
    ensures o in Queue(os, side, price)
  {
    if os[|os| - 1] != o {
      QueueHolds(os[..|os| - 1], side, price, o);
    }
  }

  lemma DistinctInit(os: seq<Order>, last: Order)
    requires Distinct(os + [last])
    ensures Distinct(os) && forall p :: p in os ==> p.orderId != last.orderId
  {
    var all := os + [last];
    assert forall i :: 0 <= i < |os| ==> all[i] == os[i];
    assert all[|os|] == last;
  }

  lemma DistinctAppend(os: seq<Order>, last: Order)
    requires Distinct(os) && forall p :: p in os ==> p.orderId != last.orderId
    ensures Distinct(os + [last])
  {
    assert forall i :: 0 <= i < |os| ==> os[i] in os;
  }

  lemma {:induction false} QueueDistinct(os: seq<Order>, side: Side, price: real)
    requires Distinct(os)
    ensures Distinct(Queue(os, side, price))
  {
    if os != [] {
      var init, last := os[..|os| - 1], os[|os| - 1];
      assert os == init + [last];
      DistinctInit(init, last);
      QueueDistinct(init, side, price);
      if last.side == side && last.price == price {
        DistinctAppend(Queue(init, side, price), last);
      }
    }
  }

  lemma {:induction false} QueueWithout(os: seq<Order>, o: Order, side: Side, price: real)
    ensures Queue(Without(os, o), side, price) == Without(Queue(os, side, price), o)
  {
    if os != [] {
      var init, last := os[..|os| - 1], os[|os| - 1];
      QueueWithout(init, o, side, price);
      if last != o {
        QueueAppend(Without(init, o), last, side, price);
      }
      if last.side == side && last.price == price {
        WithoutAppend(Queue(init, side, price), o, last);
      }
    }
  }

  lemma {:induction false} WithoutMembers(os: seq<Order>, o: Order)
    ensures forall p :: p in Without(os, o) <==> p in os && p != o
    ensures Distinct(os) ==> Distinct(Without(os, o))
    ensures o !in os ==> Without(os, o) == os
  {
    if os != [] {
      var init, last := os[..|os| - 1], os[|os| - 1];
      WithoutMembers(init, o);
      assert os == init + [last];
      if Distinct(os) {
        DistinctInit(init, last);
        if last != o { DistinctAppend(Without(init, o), last); }
      }
    }
  }

  lemma {:induction false} WithoutSize(os: seq<Order>, o: Order)
    requires Distinct(os) && o in os
    ensures |Without(os, o)| == |os| - 1
  {
    var init, last := os[..|os| - 1], os[|os| - 1];
    assert os == init + [last];
    DistinctInit(init, last);
    if last == o {
      WithoutMembers(init, o);
    } else {
      WithoutSize(init, o);
    }
  }

  lemma {:induction false} WithoutFront(os: seq<Order>, o: Order)
    requires os != []
    ensures Without(os, o) == (if os[0] == o then [] else [os[0]]) + Without(os[1..], o)
  {
    if |os| == 1 {
      assert os[..0] == [];
    } else {
      WithoutFront(os[..|os| - 1], o);
      assert os[..|os| - 1][1..] == os[1..][..|os| - 2];
    }
  }

  /** With unique ids, removal by value is removal by identity. */
  lemma {:induction false} RemoveFirstIsWithout(os: seq<Order>, o: Order)
    requires Distinct(os) && o in os
    ensures RemoveFirst(os, o) == Without(os, o)
  {
    WithoutFront(os, o);
    if os[0] == o {
      assert o !in os[1..] by {
        assert forall i :: 1 <= i < |os| ==> os[i].orderId != o.orderId;
      }
      WithoutMembers(os[1..], o);
    } else {
      var i :| 0 < i < |os| && os[i] == o;
      assert os[0].orderId != o.orderId;
      RemoveFirstIsWithout(os[1..], o);
    }
  }

  // ---------- Order objects and the values they hold ----------

  function ValueOf(o: Order): Live
    reads o
  {
    Live(o.orderId, o.side, o.price, o.qty)
  }

  /** `live` lists what the objects `os` hold. */
  ghost predicate Mirrors(live: seq<Live>, os: seq<Order>)
    reads set o | o in os
  {
    |live| == |os| && forall i :: 0 <= i < |os| ==> live[i] == ValueOf(os[i])
  }

  lemma {:induction false} MirrorsWithout(live: seq<Live>, os: seq<Order>, o: Order)
    requires Mirrors(live, os) && Distinct(os) && o in os
    ensures Mirrors(Remove(live, o.orderId), Without(os, o))
  {
    hide Distinct;
    var init, last, linit := os[..|os| - 1], os[|os| - 1], live[..|os| - 1];
    assert os == init + [last];
    DistinctInit(init, last);
    if last == o {
      WithoutMembers(init, o);
      assert forall i :: 0 <= i < |init| ==> init[i] in init;
      RemoveAbsent(linit, o.orderId);
    } else {
      assert last.orderId != o.orderId;
      MirrorsWithout(linit, init, o);
    }
  }

  lemma {:induction false} RemoveAbsent(live: seq<Live>, id: string)
    requires forall i :: 0 <= i < |live| ==> live[i].orderId != id
    ensures Remove(live, id) == live
  {
    if live != [] { RemoveAbsent(live[..|live| - 1], id); }
  }

  function OrderIds(os: seq<Order>): seq<string> {
    if os == [] then [] else OrderIds(os[..|os| - 1]) + [os[|os| - 1].orderId]
  }

  // ---------- Levels ----------

  /** The queues of one side are the orders of that side grouped by price. */
  ghost predicate Grouped(levels: map<real, PriceLevel>, os: seq<Order>, side: Side) {
    && (forall k :: k in levels ==> QueueOk(k, levels[k], os, side))
    && (forall o :: o in os && o.side == side ==> Key(side, o.price) in levels)
  }

  ghost predicate QueueOk(k: real, level: PriceLevel, os: seq<Order>, side: Side) {
    Key(side, level.price) == k && level.orders == Queue(os, side, level.price) && level.orders != []
  }

  /** The cached totals are the sums of the live quantities. */
  ghost predicate Totalled(levels: map<real, PriceLevel>, live: seq<Live>, side: Side) {
    forall k :: k in levels ==> levels[k].totalQty == SumAt(live, side, levels[k].price)
  }

  function LevelAt(levels: map<real, PriceLevel>, side: Side, price: real): PriceLevel {
    var key := Key(side, price);
    if key in levels then levels[key] else PriceLevel(price, [], 0)
  }

  /** A missing level is an empty queue. */
  lemma LevelAtQueue(levels: map<real, PriceLevel>, os: seq<Order>, side: Side, price: real)
    requires Grouped(levels, os, side)
    ensures LevelAt(levels, side, price).price == price
    ensures LevelAt(levels, side, price).orders == Queue(os, side, price)
  {
    var key := Key(side, price);
    if key in levels {
      assert QueueOk(key, levels[key], os, side);
    } else {
      QueueEmpty(os, side, price);
    }
  }

  lemma {:induction false} QueueEmpty(os: seq<Order>, side: Side, price: real)
    requires forall o :: o in os ==> o.side != side || o.price != price
    ensures Queue(os, side, price) == []
  {
    if os != [] { QueueEmpty(os[..|os| - 1], side, price); }
  }

  lemma GroupedAppend(levels: map<real, PriceLevel>, os: seq<Order>, side: Side, o: Order, totalQty: int)
    requires Grouped(levels, os, side)
    ensures o.side != side ==> Grouped(levels, os + [o], side)
    ensures o.side == side ==>
              var l := PriceLevel(o.price, LevelAt(levels, side, o.price).orders + [o], totalQty);
              Grouped(levels[Key(side, o.price) := l], os + [o], side)
  {
    hide Queue;
    LevelAtQueue(levels, os, side, o.price);
    QueueAppend(os, o, side, o.price);
    forall k | k in levels ensures QueueOk(k, levels[k], os + [o], side)
        || (o.side == side && k == Key(side, o.price)) {
      assert QueueOk(k, levels[k], os, side);
      QueueAppend(os, o, side, levels[k].price);
    }
  }

  lemma GroupedWithout(levels: map<real, PriceLevel>, os: seq<Order>, side: Side, o: Order, totalQty: int)
    requires Grouped(levels, os, side) && Distinct(os) && o in os
    ensures o.side != side ==> Grouped(levels, Without(os, o), side)
    ensures o.side == side ==>
              var key := Key(side, o.price);
              && key in levels && levels[key].price == o.price && o in levels[key].orders
                  && Distinct(levels[key].orders)
              && var rest := Without(levels[key].orders, o);
              && |rest| == |levels[key].orders| - 1
              && (rest == [] ==> Grouped(levels - {key}, Without(os, o), side))
              && (rest != [] ==> Grouped(levels[key := PriceLevel(o.price, rest, totalQty)], Without(os, o), side))
  {
    hide Queue, Without, Distinct, QueueOk;
    var os', key := Without(os, o), Key(side, o.price);
    WithoutMembers(os, o);
    forall k | k in levels ensures QueueOk(k, levels[k], os', side) || (o.side == side && k == key) {
      if o.side != side || k != key { OtherLevelKept(k, levels[k], os, side, o); }
    }
    if o.side == side {
      assert key in levels;
      OwnLevelShrinks(key, levels[key], os, side, o, totalQty);
      if Without(levels[key].orders, o) == [] {
        forall p | p in os' && p.side == side ensures Key(side, p.price) in levels - {key} {
          if p.price == o.price { QueueHolds(os', side, o.price, p); }
        }
      }
    }
  }

  lemma OtherLevelKept(k: real, level: PriceLevel, os: seq<Order>, side: Side, o: Order)
    requires QueueOk(k, level, os, side) && (o.side != side || k != Key(side, o.price))
    ensures QueueOk(k, level, Without(os, o), side)
  {
    hide Queue, Without;
    QueueWithout(os, o, side, level.price);
    WithoutMembers(level.orders, o);
  }

  lemma OwnLevelShrinks(key: real, level: PriceLevel, os: seq<Order>, side: Side, o: Order, totalQty: int)
    requires QueueOk(key, level, os, side) && Distinct(os) && o in os && o.side == side && key == Key(side, o.price)
    ensures level.price == o.price && o in level.orders && Distinct(level.orders)
    ensures var rest := Without(level.orders, o);
            && |rest| == |level.orders| - 1
            && rest == Queue(Without(os, o), side, o.price)
            && (rest != [] ==> QueueOk(key, PriceLevel(o.price, rest, totalQty), Without(os, o), side))
  {
    hide Queue, Without, Distinct;
    QueueHolds(os, side, o.price, o);
    QueueDistinct(os, side, o.price);
    WithoutSize(level.orders, o);
    QueueWithout(os, o, side, o.price);
  }

  // ---------- Totals, on values ----------

  lemma SumAtAppend(live: seq<Live>, e: Live, side: Side, price: real)
    ensures SumAt(live + [e], side, price)
            == SumAt(live, side, price) + (if e.side == side && e.price == price then e.qty else 0)
  {
    assert (live + [e])[..|live|] == live;
  }

  lemma UniqueInit(live: seq<Live>, e: Live)
    requires UniqueIds(live) && e in live
    ensures live[|live| - 1] == e ==> forall i :: 0 <= i < |live| - 1 ==> live[i].orderId != e.orderId
    ensures live[|live| - 1] != e ==> live[|live| - 1].orderId != e.orderId && e in live[..|live| - 1]
  {
    var i :| 0 <= i < |live| && live[i] == e;
    if live[|live| - 1] != e {
      assert live[..|live| - 1][i] == e;
    }
  }

  /** Removing one order takes its quantity off its own price and off no other. */
  lemma {:induction false} SumRemove(live: seq<Live>, e: Live, side: Side, price: real)
    requires UniqueIds(live) && e in live
    ensures SumAt(Remove(live, e.orderId), side, price)
            == SumAt(live, side, price) - (if e.side == side && e.price == price then e.qty else 0)
  {
    var init, last := live[..|live| - 1], live[|live| - 1];
    UniqueInit(live, e);
    if last == e {
      RemoveAbsent(init, e.orderId);
    } else {
      SumRemove(init, e, side, price);
      SumAtAppend(Remove(init, e.orderId), last, side, price);
    }
  }

  /** Setting one order's quantity moves the sum of its own price by the difference, and no other. */
  lemma {:induction false} SumSet(live: seq<Live>, e: Live, qty: int, side: Side, price: real)
    requires UniqueIds(live) && e in live
    ensures SumAt(SetQty(live, e.orderId, qty), side, price)
            == SumAt(live, side, price) + (if e.side == side && e.price == price then qty - e.qty else 0)
  {
    var init, last := live[..|live| - 1], live[|live| - 1];
    UniqueInit(live, e);
    if last == e {
      SetAbsent(init, e.orderId, qty);
      SumAtAppend(init, e.(qty := qty), side, price);
    } else {
      SumSet(init, e, qty, side, price);
      SumAtAppend(SetQty(init, e.orderId, qty), last, side, price);
    }
  }

  lemma {:induction false} SetAbsent(live: seq<Live>, id: string, qty: int)
    requires forall i :: 0 <= i < |live| ==> live[i].orderId != id
    ensures SetQty(live, id, qty) == live
  {
    if live != [] { SetAbsent(live[..|live| - 1], id, qty); }
  }

  /** When the sum of one price moves by `delta` and no other sum moves, one cached total follows. */
  lemma TotalledMove(levels: map<real, PriceLevel>, live: seq<Live>, live': seq<Live>, side: Side, price: real,
                     level: PriceLevel)
    requires Totalled(levels, live, side)
    requires forall k :: k in levels ==> Key(side, levels[k].price) == k
    requires forall p :: p != price ==> SumAt(live', side, p) == SumAt(live, side, p)
    requires level.price == price
    ensures level.totalQty == SumAt(live', side, price) ==> Totalled(levels[Key(side, price) := level], live', side)
    ensures Totalled(levels - {Key(side, price)}, live', side)
  {
  }

  // ---------- What each operation does to one side ----------

  ghost predicate SideOk(levels: map<real, PriceLevel>, os: seq<Order>, live: seq<Live>, side: Side) {
    Grouped(levels, os, side) && Totalled(levels, live, side)
  }

  lemma LevelAtTotal(levels: map<real, PriceLevel>, os: seq<Order>, live: seq<Live>, side: Side, price: real)
    requires SideOk(levels, os, live, side) && |os| == |live|
    requires forall i :: 0 <= i < |os| ==> os[i].side == live[i].side && os[i].price == live[i].price
    ensures LevelAt(levels, side, price).totalQty == SumAt(live, side, price)
  {
    var key := Key(side, price);
    if key in levels {
      assert QueueOk(key, levels[key], os, side);
    } else {
      SumAbsent(live, side, price);
    }
  }

  lemma {:induction false} SumAbsent(live: seq<Live>, side: Side, price: real)
    requires forall i :: 0 <= i < |live| ==> live[i].side != side || live[i].price != price
    ensures SumAt(live, side, price) == 0
  {
    if live != [] { SumAbsent(live[..|live| - 1], side, price); }
  }

  lemma AddToSide(levels: map<real, PriceLevel>, os: seq<Order>, live: seq<Live>, side: Side, o: Order, e: Live)
    requires SideOk(levels, os, live, side) && |os| == |live|
    requires forall i :: 0 <= i < |os| ==> os[i].side == live[i].side && os[i].price == live[i].price
    requires e.side == o.side && e.price == o.price
    ensures o.side != side ==> SideOk(levels, os + [o], live + [e], side)
    ensures o.side == side ==>
              var l := LevelAt(levels, side, o.price);
              SideOk(levels[Key(side, o.price) := PriceLevel(o.price, l.orders + [o], l.totalQty + e.qty)], os + [o],
                  live + [e], side)
  {
    var l := LevelAt(levels, side, o.price);
    GroupedAppend(levels, os, side, o, l.totalQty + e.qty);
    LevelAtTotal(levels, os, live, side, o.price);
    forall p: real { SumAtAppend(live, e, side, p); }
    assert forall k :: k in levels ==> QueueOk(k, levels[k], os, side);
    TotalledMove(levels, live, live + [e], side, o.price, PriceLevel(o.price, l.orders + [o], l.totalQty + e.qty));
  }

  lemma RemoveFromSide(levels: map<real, PriceLevel>, os: seq<Order>, live: seq<Live>, side: Side, o: Order, e: Live)
    requires SideOk(levels, os, live, side) && Distinct(os) && o in os
    requires UniqueIds(live) && e in live && e.side == o.side && e.price == o.price
    ensures o.side != side ==> SideOk(levels, Without(os, o), Remove(live, e.orderId), side)
    ensures o.side == side ==>
              var key := Key(side, o.price);
              && key in levels && levels[key].price == o.price && o in levels[key].orders
                  && Distinct(levels[key].orders)
              && var rest := Without(levels[key].orders, o);
              && |rest| == |levels[key].orders| - 1
              && (rest == [] ==> SideOk(levels - {key}, Without(os, o), Remove(live, e.orderId), side))
              && (rest != [] ==> SideOk(levels[key := PriceLevel(o.price, rest, levels[key].totalQty - e.qty)],
                                        Without(os, o), Remove(live, e.orderId), side))
  {
    hide Grouped, Totalled, Distinct, UniqueIds, Without, Remove;
    var key := Key(side, o.price);
    var totalQty := if key in levels then levels[key].totalQty - e.qty else 0;
    GroupedWithout(levels, os, side, o, totalQty);
    TotalledRemove(levels, os, live, side, e, Without(if key in levels then levels[key].orders else [], o));
  }

  lemma TotalledRemove(levels: map<real, PriceLevel>, os: seq<Order>, live: seq<Live>, side: Side, e: Live,
                       rest: seq<Order>)
    requires SideOk(levels, os, live, side) && UniqueIds(live) && e in live
    ensures e.side != side ==> Totalled(levels, Remove(live, e.orderId), side)
    ensures e.side == side && Key(side, e.price) in levels ==>
              var key := Key(side, e.price);
              && Totalled(levels - {key}, Remove(live, e.orderId), side)
              && Totalled(levels[key := PriceLevel(e.price, rest, levels[key].totalQty - e.qty)],
                  Remove(live, e.orderId), side)
  {
    hide UniqueIds, SumAt, Remove, Queue;
    forall p: real { SumRemove(live, e, side, p); }
    assert forall k :: k in levels ==> QueueOk(k, levels[k], os, side);
    var key := Key(side, e.price);
    if e.side == side && key in levels {
      TotalledMove(levels, live, Remove(live, e.orderId), side, e.price,
          PriceLevel(e.price, rest, levels[key].totalQty - e.qty));
    }
  }

  lemma SetOnSide(levels: map<real, PriceLevel>, os: seq<Order>, live: seq<Live>, side: Side, e: Live, qty: int)
    requires SideOk(levels, os, live, side) && UniqueIds(live) && e in live
    ensures e.side != side ==> SideOk(levels, os, SetQty(live, e.orderId, qty), side)
    ensures e.side == side && Key(side, e.price) in levels ==>
              var key := Key(side, e.price);
              SideOk(levels[key := levels[key].(totalQty := levels[key].totalQty + (qty - e.qty))], os,
                  SetQty(live, e.orderId, qty), side)
  {
    forall p: real { SumSet(live, e, qty, side, p); }
    assert forall k :: k in levels ==> QueueOk(k, levels[k], os, side);
    var key := Key(side, e.price);
    if e.side == side && key in levels {
      TotalledMove(levels, live, SetQty(live, e.orderId, qty), side, e.price,
                   levels[key].(totalQty := levels[key].totalQty + (qty - e.qty)));
    }
  }

  // ---------- Reading levels in key order ----------

  /** What iterating a sorted dictionary yields. */
  lemma SmallerMap<V>(m: map<real, V>, k: real)
    requires k in m
    ensures |m - {k}| < |m|
    ensures forall x :: x in m - {k} <==> x in m && x != k
  {
    assert (m - {k}).Keys == m.Keys - {k};
  }

  function SortedKeys<V>(m: map<real, V>): (keys: seq<real>)
    ensures forall i, j :: 0 <= i < j < |keys| ==> keys[i] < keys[j]
    ensures forall k :: k in keys <==> k in m
    decreases |m|
  {
    if m == map[] then []
    else
      var k := MinKey(m.Keys);
      SmallerMap(m, k);
      var rest := SortedKeys(m - {k});
      assert forall i :: 0 <= i < |rest| ==> rest[i] in rest;
      [k] + rest
  }

  lemma {:induction false} HasMin(keys: set<real>)
    requires keys != {}
    ensures exists k :: k in keys && forall j :: j in keys ==> k <= j
    decreases |keys|
  {
    var x := Pick(keys);
    var others := keys - {x};
    if others == {} {
      assert forall j :: j in keys ==> j == x || j in others;
    } else {
      HasMin(others);
      var k :| k in others && forall j :: j in others ==> k <= j;
      MinOfTwo(keys, x, k);
    }
  }

  lemma Pick(keys: set<real>) returns (x: real)
    requires keys != {}
    ensures x in keys
  {
    NoMember(keys);
    x :| x in keys;
  }

  lemma NoMember(keys: set<real>)
    ensures (forall y: real :: y !in keys) ==> keys == {}
  {
    if forall y: real :: y !in keys { assert keys == {}; }
  }

  lemma MinOfTwo(keys: set<real>, x: real, k: real)
    requires x in keys && k in keys && forall j :: j in keys - {x} ==> k <= j
    ensures exists m :: m in keys && forall j :: j in keys ==> m <= j
  {
    var m := if x < k then x else k;
    assert forall j :: j in keys ==> j == x || j in keys - {x};
    assert m in keys && forall j :: j in keys ==> m <= j;
  }

  function MinKey(keys: set<real>): (k: real)
    requires keys != {}
    ensures k in keys && forall j :: j in keys ==> k <= j
  {
    HasMin(keys);
    var k :| k in keys && forall j :: j in keys ==> k <= j;
    k
  }

  function RowsOf(levels: seq<PriceLevel>): (rows: seq<Row>)
    ensures |rows| == |levels|
    ensures forall i :: 0 <= i < |rows| ==>
              rows[i] == Row(levels[i].price, levels[i].totalQty, OrderIds(levels[i].orders))
  {
    seq(|levels|, i requires 0 <= i < |levels| => Row(levels[i].price, levels[i].totalQty, OrderIds(levels[i].orders)))
  }

  function PriceAndSize(rows: seq<Row>): seq<(real, int)> {
    seq(|rows|, i requires 0 <= i < |rows| => (rows[i].price, rows[i].qty))
  }

  function SumRows(rows: seq<Row>): int {
    if rows == [] then 0 else rows[0].qty + SumRows(rows[1..])
  }

  /** What the first n levels say, in terms of the live orders. */
  lemma FirstRows(levels: seq<PriceLevel>, n: int, live: seq<Live>, side: Side)
    requires exists all :: levels == Take(all, n) && IsDepth(RowsOf(all), live, side)
    ensures var rows, prices := RowsOf(levels), PricesOf(RowsOf(levels));
            && BestPrices(prices, live, side, n) && |rows| == |prices|
            && (forall i :: 0 <= i < |rows| ==>
                 && rows[i].price == prices[i] && rows[i].qty == SumAt(live, side, prices[i])
                 && ArrivalOrder(rows[i].ids, live, side, prices[i]))
            && SumRows(rows) == QtyAmong(live, side, prices)
  {
    hide IsDepth, SumAt, ArrivalOrder, SumRows, QtyAmong;
    var all :| levels == Take(all, n) && IsDepth(RowsOf(all), live, side);
    var rows := RowsOf(levels);
    assert rows == Take(RowsOf(all), n);
    DepthPrices(RowsOf(all), live, side, n);
    DepthRows(RowsOf(all), live, side);
    SumRowsIs(rows, live, side);
  }

  lemma {:induction false} SumRowsIs(rows: seq<Row>, live: seq<Live>, side: Side)
    requires forall i :: 0 <= i < |rows| ==> rows[i].qty == SumAt(live, side, rows[i].price)
    requires forall i, j :: 0 <= i < j < |rows| ==> Better(side, rows[i].price, rows[j].price)
    ensures SumRows(rows) == QtyAmong(live, side, PricesOf(rows))
  {
    if rows == [] {
      NothingAmong(live, side);
      assert PricesOf(rows) == [];
    } else {
      SumRowsIs(rows[1..], live, side);
      assert PricesOf(rows) == [rows[0].price] + PricesOf(rows[1..]);
      QtyAmongFirst(live, side, rows[0].price, PricesOf(rows[1..]));
    }
  }

  lemma {:induction false} NothingAmong(live: seq<Live>, side: Side)
    ensures QtyAmong(live, side, []) == 0
  {
    if live != [] {
      NothingAmong(live[..|live| - 1], side);
    }
  }

  // ---------- Spoofing: the add/cancel ratio of one venue's recent events ----------

  /** Events are dropped from the front while they are older than the cutoff. */
  function DropOld(events: seq<VenueEvent>, cutoff: int): seq<VenueEvent> {
    if events != [] && events[0].tsNs < cutoff then DropOld(events[1..], cutoff) else events
  }

  function Within(events: seq<VenueEvent>, cutoff: int): seq<VenueEvent> {
    if events == [] then []
    else if events[0].tsNs < cutoff then Within(events[1..], cutoff)
    else [events[0]] + Within(events[1..], cutoff)
  }

  function Count(events: seq<VenueEvent>, kind: EventKind): nat {
    if events == [] then 0
    else Count(events[..|events| - 1], kind) + if events[|events| - 1].kind == kind then 1 else 0
  }

  function Classify(events: seq<VenueEvent>): SpoofingRisk {
    var adds, cancels := Count(events, AddEvent), Count(events, CancelEvent);
    if adds == 0 then NoRisk
    else
      var ratio := cancels as real / adds as real;
      if ratio >= 0.95 then Critical
      else if ratio >= 0.80 then High
      else if ratio >= 0.60 then Medium
      else if ratio >= 0.40 then Low
      else NoRisk
  }

  /** The grade in whole numbers: how many percent of the adds the cancels come to. */
  lemma GradeIff(events: seq<VenueEvent>)
    ensures var adds := |set i | 0 <= i < |events| && events[i].kind == AddEvent|;
            var cancels := |set i | 0 <= i < |events| && events[i].kind == CancelEvent|;
            && (Classify(events) == Critical <==> adds > 0 && 100 * cancels >= 95 * adds)
            && (Classify(events) == High <==> 95 * adds > 100 * cancels >= 80 * adds)
            && (Classify(events) == Medium <==> 80 * adds > 100 * cancels >= 60 * adds)
            && (Classify(events) == Low <==> 60 * adds > 100 * cancels >= 40 * adds)
            && (Classify(events) == NoRisk <==> adds == 0 || 100 * cancels < 40 * adds)
  {
    CountIs(events, AddEvent);
    CountIs(events, CancelEvent);
    var adds, cancels := Count(events, AddEvent), Count(events, CancelEvent);
    if adds > 0 {
      RatioAtLeast(cancels, adds, 95);
      RatioAtLeast(cancels, adds, 80);
      RatioAtLeast(cancels, adds, 60);
      RatioAtLeast(cancels, adds, 40);
    }
  }

  lemma RatioAtLeast(cancels: nat, adds: nat, percent: nat)
    requires adds > 0
    ensures cancels as real / adds as real >= percent as real / 100.0 <==> 100 * cancels >= percent * adds
  {
    var ratio := cancels as real / adds as real;
    assert ratio * adds as real == cancels as real;
    if ratio >= percent as real / 100.0 {
      assert ratio * adds as real >= percent as real / 100.0 * adds as real;
    } else {
      assert ratio * adds as real < percent as real / 100.0 * adds as real;
    }
    assert percent as real / 100.0 * adds as real == (percent * adds) as real / 100.0;
  }

  lemma {:induction false} CountIs(events: seq<VenueEvent>, kind: EventKind)
    ensures Count(events, kind) == |set i | 0 <= i < |events| && events[i].kind == kind|
  {
    if events != [] {
      var init, n := events[..|events| - 1], |events| - 1;
      CountIs(init, kind);
      var before := set i | 0 <= i < |init| && init[i].kind == kind;
      assert n !in before;
      var last := if events[n].kind == kind then {n} else {};
      forall i ensures i in before + last <==> 0 <= i < |events| && events[i].kind == kind {
        assert 0 <= i < n ==> init[i] == events[i];
      }
      assert (set i | 0 <= i < |events| && events[i].kind == kind) == before + last;
    }
  }

  /** Dropping from the front keeps exactly the events in the window if and only if
      no event older than the cutoff stands behind one that is not. */
  lemma {:induction false} DropOldIsWindow(events: seq<VenueEvent>, cutoff: int)
    ensures DropOld(events, cutoff) == Within(events, cutoff)
            <==> forall i, j :: 0 <= i < j < |events| && events[j].tsNs < cutoff ==> events[i].tsNs < cutoff
  {
    if events == [] {
    } else if events[0].tsNs < cutoff {
      DropOldIsWindow(events[1..], cutoff);
      assert forall i :: 0 <= i < |events| - 1 ==> events[1..][i] == events[i + 1];
    } else {
      WithinSize(events[1..], cutoff);
      var tail := events[1..];
      assert events == [events[0]] + tail;
      if j :| 0 <= j < |tail| && tail[j].tsNs < cutoff {
        assert events[j + 1].tsNs < cutoff && events[0].tsNs >= cutoff;
      }
    }
  }

  lemma {:induction false} WithinSize(events: seq<VenueEvent>, cutoff: int)
    ensures |Within(events, cutoff)| <= |events|
    ensures Within(events, cutoff) == events <==> forall j :: 0 <= j < |events| ==> events[j].tsNs >= cutoff
  {
    if events != [] {
      WithinSize(events[1..], cutoff);
      assert forall j :: 0 <= j < |events| - 1 ==> events[1..][j] == events[j + 1];
    }
  }

  // ---------- The book's fields as one value ----------

  datatype State = State(bids: map<real, PriceLevel>, asks: map<real, PriceLevel>, orders: map<string, Order>,
                         arrivals: seq<Order>, contents: seq<Live>)
  {
    function Levels(side: Side): map<real, PriceLevel> {
      if side.Bid? then bids else asks
    }

    function WithLevels(side: Side, levels: map<real, PriceLevel>): State {
      if side.Bid? then this.(bids := levels) else this.(asks := levels)
    }
  }

  ghost predicate Indexed(s: State) {
    && Distinct(s.arrivals)
    && (forall o :: o in s.arrivals ==> o.orderId in s.orders && s.orders[o.orderId] == o)
    && (forall id :: id in s.orders ==> s.orders[id] in s.arrivals && s.orders[id].orderId == id)
  }

  ghost predicate Paired(os: seq<Order>, live: seq<Live>) {
    && |os| == |live|
    && forall i :: 0 <= i < |os| ==>
         os[i].orderId == live[i].orderId && os[i].side == live[i].side && os[i].price == live[i].price
  }

  /** Everything the book keeps except that the order objects hold the listed quantities. */
  ghost predicate Ok(s: State) {
    && Indexed(s) && Paired(s.arrivals, s.contents)
    && SideOk(s.bids, s.arrivals, s.contents, Bid)
    && SideOk(s.asks, s.arrivals, s.contents, Ask)
  }

  /** Said without the ghost lists: the queues and the id index hold the same order objects. */
  ghost predicate Agrees(bids: map<real, PriceLevel>, asks: map<real, PriceLevel>, orders: map<string, Order>) {
    && (forall k, o :: k in bids && o in bids[k].orders ==> Registered(orders, o))
    && (forall k, o :: k in asks && o in asks[k].orders ==> Registered(orders, o))
    && (forall id :: id in orders ==> Queued(bids, asks, orders[id]))
  }

  ghost predicate Registered(orders: map<string, Order>, o: Order) {
    o.orderId in orders && orders[o.orderId] == o
  }

  ghost predicate Queued(bids: map<real, PriceLevel>, asks: map<real, PriceLevel>, o: Order) {
    var levels, k := if o.side.Bid? then bids else asks, Key(o.side, o.price);
    k in levels && o in levels[k].orders
  }

  lemma OkAgrees(s: State)
    requires Ok(s)
    ensures Agrees(s.bids, s.asks, s.orders)
  {
    forall id | id in s.orders ensures Queued(s.bids, s.asks, s.orders[id]) {
      var o := s.orders[id];
      QueueHolds(s.arrivals, o.side, o.price, o);
      assert QueueOk(Key(o.side, o.price), s.Levels(o.side)[Key(o.side, o.price)], s.arrivals, o.side);
    }
    forall k, o | k in s.bids && o in s.bids[k].orders ensures Registered(s.orders, o) {
      assert QueueOk(k, s.bids[k], s.arrivals, Bid);
    }
    forall k, o | k in s.asks && o in s.asks[k].orders ensures Registered(s.orders, o) {
      assert QueueOk(k, s.asks[k], s.arrivals, Ask);
    }
  }

  lemma OkPaired(s: State)
    requires Ok(s)
    ensures UniqueIds(s.contents) && Paired(s.arrivals, s.contents)
  {
    hide SideOk;
  }

  function Added(s: State, o: Order, e: Live): State {
    var l := LevelAt(s.Levels(o.side), o.side, o.price);
    var level := PriceLevel(l.price, l.orders + [o], l.totalQty + e.qty);
    s.WithLevels(o.side, s.Levels(o.side)[Key(o.side, o.price) := level]).(orders := s.orders[o.orderId := o])
  }

  lemma AddOk(s: State, o: Order, e: Live)
    requires Ok(s) && o.orderId !in s.orders
    requires e.orderId == o.orderId && e.side == o.side && e.price == o.price
    ensures Ok(Added(s, o, e).(arrivals := s.arrivals + [o], contents := s.contents + [e]))
  {
    hide SideOk, Distinct, LevelAt;
    AddToSide(s.bids, s.arrivals, s.contents, Bid, o, e);
    AddToSide(s.asks, s.arrivals, s.contents, Ask, o, e);
    LevelAtPrice(s.Levels(o.side), s.arrivals, s.contents, o.side, o.price);
    DistinctAppend(s.arrivals, o);
  }

  lemma LevelAtPrice(levels: map<real, PriceLevel>, os: seq<Order>, live: seq<Live>, side: Side, price: real)
    requires SideOk(levels, os, live, side)
    ensures LevelAt(levels, side, price).price == price
  {
    LevelAtQueue(levels, os, side, price);
  }

  lemma AddDuplicate(s: State, o: Order, e: Live)
    requires Ok(s) && o.orderId in s.orders && s.orders[o.orderId] != o
    ensures var s' := Added(s, o, e);
            !Agrees(s'.bids, s'.asks, s'.orders)
  {
    hide SideOk, Distinct, Paired;
    var s', stale := Added(s, o, e), s.orders[o.orderId];
    OkAgrees(s);
    assert Queued(s.bids, s.asks, stale);
    assert Queued(s'.bids, s'.asks, stale) && !Registered(s'.orders, stale);
  }

  /** The order's level goes when nothing positive is left on it, whoever is still queued there. */
  ghost function Cancelled(s: State, o: Order, qty: int): State
    requires Key(o.side, o.price) in s.Levels(o.side)
  {
    var levels, key := s.Levels(o.side), Key(o.side, o.price);
    var rest, total := Without(levels[key].orders, o), levels[key].totalQty - qty;
    var levels' := if total <= 0 || rest == [] then levels - {key}
        else levels[key := PriceLevel(levels[key].price, rest, total)];
    s.WithLevels(o.side, levels').(orders := s.orders - {o.orderId})
  }

  /** A caller can check this before cancelling: the order is alone at its price, or a positive total remains. */
  ghost predicate Removable(s: State, o: Order, qty: int)
    requires Key(o.side, o.price) in s.Levels(o.side)
  {
    var level := s.Levels(o.side)[Key(o.side, o.price)];
    |level.orders| == 1 || level.totalQty > qty
  }

  lemma InLevel(s: State, o: Order)
    requires Ok(s) && o in s.arrivals
    ensures var key, levels := Key(o.side, o.price), s.Levels(o.side);
            key in levels && levels[key].price == o.price && o in levels[key].orders && Distinct(levels[key].orders)
  {
    var q := Queue(s.arrivals, o.side, o.price);
    assert QueueOk(Key(o.side, o.price), s.Levels(o.side)[Key(o.side, o.price)], s.arrivals, o.side);
    QueueHolds(s.arrivals, o.side, o.price, o);
    QueueDistinct(s.arrivals, o.side, o.price);
  }

  lemma CancelOk(s: State, o: Order, e: Live)
    requires Ok(s) && o in s.arrivals && e in s.contents
    requires e.orderId == o.orderId && e.side == o.side && e.price == o.price
    requires Key(o.side, o.price) in s.Levels(o.side) && Removable(s, o, e.qty)
    ensures Ok(Cancelled(s, o, e.qty).(arrivals := Without(s.arrivals, o), contents := Remove(s.contents, e.orderId)))
  {
    hide SideOk, Distinct, Paired, Without;
    OkPaired(s);
    RemoveFromSide(s.bids, s.arrivals, s.contents, Bid, o, e);
    RemoveFromSide(s.asks, s.arrivals, s.contents, Ask, o, e);
    WithoutMembers(s.arrivals, o);
    PairedWithout(s.arrivals, s.contents, o);
  }

  lemma {:induction false} PairedWithout(os: seq<Order>, live: seq<Live>, o: Order)
    requires Paired(os, live)
    ensures Distinct(os) && o in os ==> Paired(Without(os, o), Remove(live, o.orderId))
  {
    hide Distinct;
    if os != [] && Distinct(os) && o in os {
      var init, last, linit := os[..|os| - 1], os[|os| - 1], live[..|live| - 1];
      assert os == init + [last];
      DistinctInit(init, last);
      if last == o {
        WithoutMembers(init, o);
        assert forall i :: 0 <= i < |init| ==> init[i] in init;
        RemoveAbsent(linit, o.orderId);
      } else {
        PairedWithout(init, linit, o);
      }
    }
  }

  lemma CancelBroken(s: State, o: Order, qty: int)
    requires Ok(s) && o in s.arrivals
    requires Key(o.side, o.price) in s.Levels(o.side) && !Removable(s, o, qty)
    ensures var s' := Cancelled(s, o, qty);
            !Agrees(s'.bids, s'.asks, s'.orders)
  {
    hide SideOk, Paired;
    InLevel(s, o);
    OkAgrees(s);
    var level, s' := s.Levels(o.side)[Key(o.side, o.price)], Cancelled(s, o, qty);
    WithoutSize(level.orders, o);
    WithoutMembers(level.orders, o);
    var p := Without(level.orders, o)[0];
    assert p in Without(level.orders, o);
    assert Registered(s.orders, p) && Registered(s'.orders, p) by { SamePlace(s, o, p); }
    SamePlace(s, o, p);
    assert !Queued(s'.bids, s'.asks, p);
  }

  lemma SamePlace(s: State, o: Order, p: Order)
    requires Ok(s) && o in s.arrivals
    requires Key(o.side, o.price) in s.Levels(o.side) && p in s.Levels(o.side)[Key(o.side, o.price)].orders
    ensures p.side == o.side && p.price == o.price && p in s.arrivals
    ensures p != o ==> p.orderId != o.orderId
  {
    InLevel(s, o);
    assert QueueOk(Key(o.side, o.price), s.Levels(o.side)[Key(o.side, o.price)], s.arrivals, o.side);
  }

  /** While every live quantity is positive, any order can be cancelled safely. */
  lemma PositiveRemovable(s: State, o: Order, e: Live)
    requires Ok(s) && Positive(s.contents) && o in s.arrivals && e in s.contents
    requires e.orderId == o.orderId && e.side == o.side && e.price == o.price
    ensures Key(o.side, o.price) in s.Levels(o.side) && Removable(s, o, e.qty)
  {
    hide Without, SumAt, Remove, UniqueIds;
    InLevel(s, o);
    TotalIs(s, o);
    var level := s.Levels(o.side)[Key(o.side, o.price)];
    if |level.orders| != 1 {
      var d := OtherAt(s, o);
      OkPaired(s);
      RemoveMembers(s.contents, e.orderId);
      var r := Remove(s.contents, e.orderId);
      assert Positive(r) by { assert forall j :: 0 <= j < |r| ==> r[j] in r; }
      SumPositive(r, d);
      SumRemove(s.contents, e, o.side, o.price);
    }
  }

  lemma TotalIs(s: State, o: Order)
    requires Ok(s) && o in s.arrivals
    ensures var key := Key(o.side, o.price);
            key in s.Levels(o.side) && s.Levels(o.side)[key].totalQty == SumAt(s.contents, o.side, o.price)
  {
    hide SumAt, Distinct, Paired;
    InLevel(s, o);
  }

  /** Another live order at the same price, when there is one. */
  lemma OtherAt(s: State, o: Order) returns (d: Live)
    requires Ok(s) && o in s.arrivals
    requires Key(o.side, o.price) in s.Levels(o.side) && |s.Levels(o.side)[Key(o.side, o.price)].orders| != 1
    ensures d in s.contents && d.orderId != o.orderId && d.side == o.side && d.price == o.price
  {
    hide SideOk;
    InLevel(s, o);
    var q := s.Levels(o.side)[Key(o.side, o.price)].orders;
    WithoutSize(q, o);
    WithoutMembers(q, o);
    var p := Without(q, o)[0];
    assert p in Without(q, o);
    SamePlace(s, o, p);
    var i :| 0 <= i < |s.arrivals| && s.arrivals[i] == p;
    d := s.contents[i];
  }

  lemma {:induction false} SumNonNegative(live: seq<Live>, side: Side, price: real)
    requires Positive(live)
    ensures SumAt(live, side, price) >= 0
  {
    if live != [] { SumNonNegative(live[..|live| - 1], side, price); }
  }

  lemma {:induction false} SumPositive(live: seq<Live>, e: Live)
    requires Positive(live) && e in live
    ensures SumAt(live, e.side, e.price) > 0
  {
    var init, last := live[..|live| - 1], live[|live| - 1];
    assert live == init + [last];
    if e in init {
      SumPositive(init, e);
    } else {
      SumNonNegative(init, e.side, e.price);
    }
  }

  function Modified(s: State, o: Order, delta: int): State
    requires Key(o.side, o.price) in s.Levels(o.side)
  {
    var levels, key := s.Levels(o.side), Key(o.side, o.price);
    s.WithLevels(o.side, levels[key := levels[key].(totalQty := levels[key].totalQty + delta)])
  }

  lemma ModifyOk(s: State, o: Order, e: Live, qty: int)
    requires Ok(s) && o in s.arrivals && e in s.contents
    requires e.orderId == o.orderId && e.side == o.side && e.price == o.price
    requires Key(o.side, o.price) in s.Levels(o.side)
    ensures Ok(Modified(s, o, qty - e.qty).(contents := SetQty(s.contents, e.orderId, qty)))
  {
    hide SideOk, Distinct;
    OkPaired(s);
    SetOnSide(s.bids, s.arrivals, s.contents, Bid, e, qty);
    SetOnSide(s.asks, s.arrivals, s.contents, Ask, e, qty);
    SetQtyFacts(s.contents, e.orderId, qty);
  }

  /** The levels of a side in key order are the group-by of the live orders in strict price order. */
  lemma AllLevels(s: State, side: Side, keys: seq<real>, all: seq<PriceLevel>)
    requires Ok(s) && keys == SortedKeys(s.Levels(side)) && |all| == |keys|
    requires forall i :: 0 <= i < |keys| ==> keys[i] in s.Levels(side) && all[i] == s.Levels(side)[keys[i]]
    ensures IsDepth(RowsOf(all), s.contents, side)
  {
    hide SortedKeys, Indexed, RowOf, Totalled, QueueOk;
    var rows := RowsOf(all);
    forall i | 0 <= i < |rows| ensures Key(side, rows[i].price) == keys[i] && RowOf(rows[i], s.contents, side) {
      LevelRow(s, side, keys[i]);
    }
    forall i | 0 <= i < |s.contents| && s.contents[i].side == side
      ensures exists k :: 0 <= k < |rows| && rows[k].price == s.contents[i].price
    {
      var key := Key(side, s.arrivals[i].price);
      assert s.arrivals[i] in s.arrivals;
      assert key in s.Levels(side);
      var k :| 0 <= k < |keys| && keys[k] == key;
      assert Key(side, rows[k].price) == key;
    }
  }

  lemma LevelRow(s: State, side: Side, key: real)
    requires Ok(s) && key in s.Levels(side)
    ensures var l := s.Levels(side)[key];
            Key(side, l.price) == key && RowOf(Row(l.price, l.totalQty, OrderIds(l.orders)), s.contents, side)
  {
    hide Indexed, Queue, At, SumAt;
    var l := s.Levels(side)[key];
    assert QueueOk(key, l, s.arrivals, side);
    SumAtIs(s.contents, side, l.price);
    PairedQueue(s.contents, s.arrivals, side, l.price);
    PairedIds(At(s.contents, side, l.price), l.orders);
  }

  lemma {:induction false} PairedQueue(live: seq<Live>, os: seq<Order>, side: Side, price: real)
    requires Paired(os, live)
    ensures Paired(Queue(os, side, price), At(live, side, price))
  {
    if os != [] {
      PairedQueue(live[..|os| - 1], os[..|os| - 1], side, price);
    }
  }

  lemma {:induction false} PairedIds(live: seq<Live>, os: seq<Order>)
    requires Paired(os, live)
    ensures Ids(live) == OrderIds(os)
  {
    if os != [] {
      PairedIds(live[..|os| - 1], os[..|os| - 1]);
    }
  }

  lemma RegisteredIsListed(s: State, id: string)
    requires Ok(s)
    ensures id in s.orders ==> Has(s.contents, id)
  {
    hide SideOk, Distinct;
    if id in s.orders {
      var i :| 0 <= i < |s.arrivals| && s.arrivals[i] == s.orders[id];
      assert s.contents[i].orderId == id;
    }
  }

  lemma {:induction false} RemoveUnknown(s: State, id: string)
    requires Ok(s) && id !in s.orders
    ensures Remove(s.contents, id) == s.contents
  {
    hide SideOk, Distinct;
    assert forall i :: 0 <= i < |s.arrivals| ==> s.arrivals[i] in s.arrivals;
    RemoveAbsent(s.contents, id);
  }

  class Book {
    var bids: map<real, PriceLevel>   // keyed by negated price
    var asks: map<real, PriceLevel>   // keyed by price
    var orders: map<string, Order>
    var venueEvents: map<string, seq<VenueEvent>>

    ghost var arrivals: seq<Order>    // the live orders, oldest first
    ghost var contents: seq<Live>     // what they hold: the plain list the book stands for

    ghost function Fields(): State
      reads this
    {
      State(bids, asks, orders, arrivals, contents)
    }

    ghost predicate Valid()
      reads this, set o | o in arrivals
    {
      Ok(Fields()) && forall i :: 0 <= i < |arrivals| ==> arrivals[i].qty == contents[i].qty
    }

    constructor ()
      ensures Valid() && contents == [] && venueEvents == map[]
    {
      bids, asks, orders, venueEvents := map[], map[], map[], map[];
      arrivals, contents := [], [];
    }

    function EventsOf(venue: string): seq<VenueEvent>
      reads `venueEvents
    {
      if venue in venueEvents then venueEvents[venue] else []
    }

    /** A fresh id extends the live orders; an id already in use leaves its old order queued but unregistered. */
    method AddOrder(orderId: string, price: real, side: Side, qty: int, venue: string, tsNs: int)
      requires Valid()
      modifies this
      ensures orderId !in old(orders) ==> Valid() && contents == old(contents) + [Live(orderId, side, price, qty)]
      ensures Agrees(bids, asks, orders) <==> orderId !in old(orders)
      ensures orderId in orders && fresh(orders[orderId]) && orders == old(orders)[orderId := orders[orderId]]
      ensures venueEvents == old(venueEvents)[venue := old(EventsOf(venue)) + [VenueEvent(tsNs, AddEvent)]]
    {
      hide Ok, Agrees, LevelAt, Key;
      var o := new Order(orderId, price, side, qty, venue, tsNs);
      ghost var was, e := Fields(), Live(orderId, side, price, qty);
      orders := orders[orderId := o];
      var level := LevelAt(if side.Bid? then bids else asks, side, price);
      level := PriceLevel(level.price, level.orders + [o], level.totalQty + qty);
      if side.Bid? {
        bids := bids[Key(side, price) := level];
      } else {
        asks := asks[Key(side, price) := level];
      }
      venueEvents := venueEvents[venue := EventsOf(venue) + [VenueEvent(tsNs, AddEvent)]];
      assert Fields() == Added(was, o, e);
      hide Added, LevelAt, Key;
      if orderId !in was.orders {
        OkPaired(was);
        arrivals, contents := arrivals + [o], contents + [e];
        AddOk(was, o, e);
        OkAgrees(Fields());
      } else {
        AddDuplicate(was, o, e);
      }
    }

    /** An unknown id changes nothing; a known one changes that order's quantity and no other. */
    method ModifyOrder(orderId: string, newQty: int)
      requires Valid()
      modifies this, orders.Values
      ensures orderId !in old(orders) ==> unchanged(this)
      ensures Valid() && contents == SetQty(old(contents), orderId, newQty)
      ensures orders == old(orders) && venueEvents == old(venueEvents)
    {
      hide Ok, SetQty;
      OkPaired(Fields());
      ghost var was := Fields();
      if orderId !in orders {
        NotListed(was, orderId);
        SetAbsent(contents, orderId, newQty);
        return;
      }
      var order := orders[orderId];
      OrdersKeyed(was, orderId);
      ghost var e := Listed(was, order);
      InLevel(was, order);
      var level := LevelAt(if order.side.Bid? then bids else asks, order.side, order.price);
      level := level.(totalQty := level.totalQty + (newQty - order.qty));
      if order.side.Bid? {
        bids := bids[Key(order.side, order.price) := level];
      } else {
        asks := asks[Key(order.side, order.price) := level];
      }
      ModifyOk(was, order, e, newQty);
      SetQtyFacts(contents, orderId, newQty);
      contents := SetQty(contents, orderId, newQty);
      assert Fields() == Modified(was, order, newQty - e.qty).(contents := contents);
      order.qty := newQty;
    }

    lemma NotListed(s: State, id: string)
      requires Ok(s) && id !in s.orders
      ensures forall i :: 0 <= i < |s.contents| ==> s.contents[i].orderId != id
    {
      hide SideOk, Distinct;
      assert forall i :: 0 <= i < |s.arrivals| ==> s.arrivals[i] in s.arrivals;
    }

    /** The list entry of a registered order. */
    ghost function Listed(s: State, o: Order): (e: Live)
      requires Ok(s) && o.orderId in s.orders && s.orders[o.orderId] == o
      ensures o in s.arrivals && e in s.contents && e.orderId == o.orderId && e.side == o.side && e.price == o.price
      ensures exists i :: 0 <= i < |s.arrivals| && s.arrivals[i] == o && s.contents[i] == e
    {
      hide SideOk, Distinct;
      var i :| 0 <= i < |s.arrivals| && s.arrivals[i] == o;
      s.contents[i]
    }

    /** A cancel removes exactly that order, unless a non-positive total takes other live orders' level away. */
    method CancelOrder(orderId: string, nowNs: int)
      requires Valid()
      modifies this
      ensures orderId !in old(orders) ==> unchanged(this)
      ensures orderId in old(orders) ==>
                Key(old(orders)[orderId].side,
                    old(orders)[orderId].price) in old(Fields()).Levels(old(orders)[orderId].side)
      ensures orderId in old(orders) && Removable(old(Fields()), old(orders)[orderId], old(orders[orderId].qty)) ==>
                Valid() && contents == Remove(old(contents), orderId)
      ensures Agrees(bids, asks, orders)
              <==> (orderId in old(orders) ==> Removable(old(Fields()), old(orders)[orderId], old(orders[orderId].qty)))
      ensures orders == old(orders) - {orderId}
      ensures orderId in old(orders) ==>
                var venue := old(orders)[orderId].venue;
                venueEvents == old(venueEvents)[venue := old(EventsOf(venue)) + [VenueEvent(nowNs, CancelEvent)]]
    {
      hide Ok, Agrees, Without, Remove, RemoveFirst;
      OkAgrees(Fields());
      if orderId !in orders {
        return;
      }
      ghost var was := Fields();
      var order := orders[orderId];
      OrdersKeyed(was, orderId);
      ghost var e := Listed(was, order);
      InLevel(was, order);
      orders := orders - {orderId};
      var key := Key(order.side, order.price);
      var book := if order.side.Bid? then bids else asks;
      if key in book {
        RemoveFirstIsWithout(book[key].orders, order);
        WithoutSize(book[key].orders, order);
        var level := PriceLevel(book[key].price, RemoveFirst(book[key].orders, order), book[key].totalQty - order.qty);
        if level.totalQty <= 0 || level.orders == [] {
          book := book - {key};
        } else {
          book := book[key := level];
        }
      }
      if order.side.Bid? {
        bids := book;
      } else {
        asks := book;
      }
      venueEvents := venueEvents[order.venue := EventsOf(order.venue) + [VenueEvent(nowNs, CancelEvent)]];
      assert Fields() == Cancelled(was, order, e.qty);
      hide Cancelled;
      if Removable(was, order, e.qty) {
        arrivals, contents := Without(arrivals, order), Remove(contents, orderId);
        CancelOk(was, order, e);
        QuantitiesWithout(was, order);
        OkAgrees(Fields());
      } else {
        CancelBroken(was, order, e.qty);
      }
    }

    /** While quantities are positive, a cancel of any id is safe. */
    lemma CancelAllowed(id: string)
      requires Valid() && Positive(contents)
      ensures id !in orders ==> Remove(contents, id) == contents
      ensures id in orders ==>
                var o := orders[id];
                Key(o.side, o.price) in Fields().Levels(o.side) && Removable(Fields(), o, o.qty)
    {
      hide Ok, Positive, Removable;
      if id in orders {
        OrdersKeyed(Fields(), id);
        var e := Listed(Fields(), orders[id]);
        PositiveRemovable(Fields(), orders[id], e);
      } else {
        RemoveUnknown(Fields(), id);
      }
    }

    lemma OrdersKeyed(s: State, id: string)
      requires Ok(s) && id in s.orders
      ensures s.orders[id].orderId == id
    {
      hide SideOk, Distinct, Paired;
    }

    lemma QuantitiesWithout(s: State, o: Order)
      requires Ok(s) && o in s.arrivals
      requires forall i :: 0 <= i < |s.arrivals| ==> s.arrivals[i].qty == s.contents[i].qty
      ensures var os, live := Without(s.arrivals, o), Remove(s.contents, o.orderId);
              |os| == |live| && forall i :: 0 <= i < |os| ==> os[i].qty == live[i].qty
    {
      assert Mirrors(s.contents, s.arrivals) by { hide SideOk, Distinct; }
      MirrorsWithout(s.contents, s.arrivals, o);
    }

    // ---------- Reading the book ----------

    /** `list(book.values())[:n]` on a sorted dictionary. */
    method FirstLevels(side: Side, n: int) returns (levels: seq<PriceLevel>)
      requires Valid()
      ensures exists all :: levels == Take(all, n) && IsDepth(RowsOf(all), contents, side)
    {
      hide Ok, IsDepth, RowsOf;
      var book := if side.Bid? then bids else asks;
      var keys := SortedKeys(book);
      var all := seq(|keys|, i requires 0 <= i < |keys| => book[keys[i]]);
      AllLevels(Fields(), side, keys, all);
      levels := Take(all, n);
    }

    /** The L2 snapshot: for each side, price and live quantity of its best n prices. */
    method GetSnapshot(n: int) returns (bidRows: seq<(real, int)>, askRows: seq<(real, int)>)
      requires Valid()
      ensures exists prices :: BestPrices(prices, contents, Bid, n) && |bidRows| == |prices|
                && forall i :: 0 <= i < |prices| ==> bidRows[i] == (prices[i], SumAt(contents, Bid, prices[i]))
      ensures exists prices :: BestPrices(prices, contents, Ask, n) && |askRows| == |prices|
                && forall i :: 0 <= i < |prices| ==> askRows[i] == (prices[i], SumAt(contents, Ask, prices[i]))
    {
      hide BestPrices, SumAt, ArrivalOrder, Ok, SumRows, QtyAmong;
      var first := FirstLevels(Bid, n);
      FirstRows(first, n, contents, Bid);
      bidRows := PriceAndSize(RowsOf(first));
      first := FirstLevels(Ask, n);
      FirstRows(first, n, contents, Ask);
      askRows := PriceAndSize(RowsOf(first));
    }

    /** The L3 depth: the best n prices with their live quantity, and the ids in the order they arrived. */
    method GetMboDepth(side: Side, n: int) returns (rows: seq<Row>)
      requires Valid()
      ensures exists prices :: BestPrices(prices, contents, side, n) && |rows| == |prices|
                && forall i :: 0 <= i < |prices| ==>
                     rows[i].price == prices[i] && rows[i].qty == SumAt(contents, side, prices[i])
                     && ArrivalOrder(rows[i].ids, contents, side, prices[i])
    {
      hide BestPrices, SumAt, ArrivalOrder, Ok, SumRows, QtyAmong;
      var first := FirstLevels(side, n);
      FirstRows(first, n, contents, side);
      rows := RowsOf(first);
    }

    /** The cache's depth figure: the live quantity at the best n prices. */
    method TotalDepth(side: Side, n: int) returns (total: int)
      requires Valid()
      ensures exists prices :: BestPrices(prices, contents, side, n) && total == QtyAmong(contents, side, prices)
    {
      hide BestPrices, SumAt, ArrivalOrder, Ok, SumRows, QtyAmong;
      var first := FirstLevels(side, n);
      FirstRows(first, n, contents, side);
      total := SumRows(RowsOf(first));
    }

    /** Prunes the venue's events and grades what is left; an unknown venue stays unknown. */
    method DetectSpoofing(venue: string, nowNs: int, windowNs: int) returns (risk: SpoofingRisk)
      modifies `venueEvents
      ensures risk == Classify(DropOld(old(EventsOf(venue)), nowNs - windowNs))
      ensures EventsOf(venue) == DropOld(old(EventsOf(venue)), nowNs - windowNs)
      ensures venueEvents.Keys == old(venueEvents).Keys
      ensures forall v :: v in venueEvents && v != venue ==> venueEvents[v] == old(venueEvents)[v]
    {
      var events := EventsOf(venue);
      var cutoff := nowNs - windowNs;
      while events != [] && events[0].tsNs < cutoff
        invariant DropOld(events, cutoff) == DropOld(old(EventsOf(venue)), cutoff)
        decreases |events|
      {
        events := events[1..];
      }
      if venue in venueEvents {
        venueEvents := venueEvents[venue := events];
      }
      risk := Classify(events);
    }

    // ---------- Runs ----------

    method ApplyOp(op: Op, venue: string, tsNs: int)
      requires Valid() && Positive(contents) && Allowed(contents, op)
      modifies this, orders.Values
      ensures Valid() && contents == Apply(old(contents), op)
      ensures forall id :: id in orders ==> orders[id] in old(orders.Values) || fresh(orders[id])
    {
      hide Ok, Positive, Removable, Agrees;
      match op {
        case Add(id, side, price, qty) =>
          RegisteredIsListed(Fields(), id);
          AddOrder(id, price, side, qty, venue, tsNs);
        case Modify(id, q) =>
          ModifyOrder(id, q);
        case Cancel(id) =>
          CancelAllowed(id);
          CancelOrder(id, tsNs);
      }
    }

    /** Any run of operations with fresh ids and positive quantities keeps the book equal to the plain list. */
    method Replay(ops: seq<Op>, venues: seq<string>, timesNs: seq<int>)
      requires Valid() && Positive(contents) && AllowedRun(contents, ops) && |venues| == |timesNs| == |ops|
      modifies this, orders.Values
      ensures Valid() && Positive(contents) && contents == Run(old(contents), ops)
    {
      hide Ok, Positive, Apply, Allowed;
      var i := 0;
      OkPaired(Fields());
      assert ops[0..] == ops;
      while i < |ops|
        invariant 0 <= i <= |ops| && Valid() && UniqueIds(contents) && Positive(contents)
        invariant AllowedRun(contents, ops[i..]) && Run(contents, ops[i..]) == Run(old(contents), ops)
        invariant forall id :: id in orders ==> orders[id] in old(orders.Values) || fresh(orders[id])
      {
        assert ops[i..][0] == ops[i] && ops[i..][1..] == ops[i + 1..];
        RunKeepsPositive(contents, [ops[i]]);
        RunOne(contents, ops[i]);
        ApplyOp(ops[i], venues[i], timesNs[i]);
        i := i + 1;
      }
    }
  }
}
