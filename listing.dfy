/** The query `getFilteredOrders`: the stored orders that agree with every
    truthy key of a filter, in their stored order. */
module Listing {
  import opened Entities
  import Orders

  /** A filter key takes part only when it is truthy: present and not empty. */
  predicate Active(key: Option<string>)
  {
    key.Some? && key.value != ""
  }

  /** The order agrees with every key of the filter that takes part. */
  predicate Matches(f: Filters, o: Order)
  {
    && (Active(f.status) ==> o.status == f.status.value)
    && (Active(f.customerId) ==> o.customerId == f.customerId.value)
    && (Active(f.providerId) ==> o.providerId == Some(f.providerId.value))
    && (Active(f.category) ==> o.category == f.category.value)
  }

  function Filter(orders: seq<Order>, f: Filters): (r: seq<Order>)
    ensures |r| <= |orders|
    ensures forall k :: 0 <= k < |r| ==> Matches(f, r[k]) && r[k] in orders
  {
    if |orders| == 0 then []
    else (if Matches(f, orders[0]) then [orders[0]] else []) + Filter(orders[1..], f)
  }

  /** The positions from `lo` on whose orders match, in increasing order. */
  ghost function MatchIndices(orders: seq<Order>, f: Filters, lo: nat): seq<nat>
    decreases |orders| - lo
  {
    if lo >= |orders| then []
    else (if Matches(f, orders[lo]) then [lo] else []) + MatchIndices(orders, f, lo + 1)
  }

  /** One step of the filter: the head is kept iff it matches. */
  lemma FilterUnfold(orders: seq<Order>, f: Filters, lo: nat)
    requires lo < |orders|
    ensures Filter(orders[lo..], f) ==
      (if Matches(f, orders[lo]) then [orders[lo]] else []) + Filter(orders[lo + 1..], f)
  {
    assert orders[lo..][1..] == orders[lo + 1..];
  }

  /** The positions `MatchIndices` lists lie in range, increase, and are
      exactly the matching ones. */
  lemma {:induction false} MatchIndicesSelect(orders: seq<Order>, f: Filters, lo: nat)
    requires lo <= |orders|
    ensures forall k :: 0 <= k < |MatchIndices(orders, f, lo)| ==> lo <= MatchIndices(orders, f, lo)[k] < |orders|
    ensures forall k, l :: 0 <= k < l < |MatchIndices(orders, f, lo)| ==>
      MatchIndices(orders, f, lo)[k] < MatchIndices(orders, f, lo)[l]
    ensures forall i :: lo <= i < |orders| ==> (i in MatchIndices(orders, f, lo) <==> Matches(f, orders[i]))
    decreases |orders| - lo
  {
    if lo < |orders| {
      MatchIndicesSelect(orders, f, lo + 1);
      var rest := MatchIndices(orders, f, lo + 1);
      assert forall k :: 0 <= k < |rest| ==> lo < rest[k];
      if Matches(f, orders[lo]) {
        assert MatchIndices(orders, f, lo) == [lo] + rest;
      } else {
        assert MatchIndices(orders, f, lo) == rest;
      }
    }
  }

  /** The filter's result from `lo` on is the list of orders at the
      positions `MatchIndices` lists. */
  lemma {:induction false} FilterSelectsFrom(orders: seq<Order>, f: Filters, lo: nat)
    requires lo <= |orders|
    ensures |Filter(orders[lo..], f)| == |MatchIndices(orders, f, lo)|
    ensures forall k :: 0 <= k < |MatchIndices(orders, f, lo)| ==>
      MatchIndices(orders, f, lo)[k] < |orders| &&
      Filter(orders[lo..], f)[k] == orders[MatchIndices(orders, f, lo)[k]]
    decreases |orders| - lo
  {
    MatchIndicesSelect(orders, f, lo);
    if lo < |orders| {
      FilterSelectsFrom(orders, f, lo + 1);
      FilterUnfold(orders, f, lo);
      var rest, restIdx := Filter(orders[lo + 1..], f), MatchIndices(orders, f, lo + 1);
      if Matches(f, orders[lo]) {
        assert Filter(orders[lo..], f) == [orders[lo]] + rest;
        assert MatchIndices(orders, f, lo) == [lo] + restIdx;
      } else {
        assert Filter(orders[lo..], f) == rest;
        assert MatchIndices(orders, f, lo) == restIdx;
      }
    }
  }

  /** `getFilteredOrders` returns exactly the matching orders, each once per
      position, in their original order: its result is the list of orders at
      an increasing sequence of positions, and a position is among them iff
      its order matches the filter. */
  lemma FilterKeepsMatchingInOrder(orders: seq<Order>, f: Filters) returns (idx: seq<nat>)
    ensures |Filter(orders, f)| == |idx|
    ensures forall k :: 0 <= k < |idx| ==> idx[k] < |orders| && Filter(orders, f)[k] == orders[idx[k]]
    ensures forall k, l :: 0 <= k < l < |idx| ==> idx[k] < idx[l]
    ensures forall i :: 0 <= i < |orders| ==> (i in idx <==> Matches(f, orders[i]))
  {
    FilterSelectsFrom(orders, f, 0);
    MatchIndicesSelect(orders, f, 0);
    assert orders[0..] == orders;
    idx := MatchIndices(orders, f, 0);
  }

  /** With no filter key present (or only empty ones), every order is returned. */
  lemma {:induction false} FilterWithoutKeys(orders: seq<Order>, f: Filters)
    requires !Active(f.status) && !Active(f.customerId) && !Active(f.providerId) && !Active(f.category)
    ensures Filter(orders, f) == orders
  {
    if |orders| > 0 {
      FilterWithoutKeys(orders[1..], f);
    }
  }

  /** The filter keeps the first order of a list exactly when it matches. */
  lemma FilterCons(x: Order, rest: seq<Order>, f: Filters)
    ensures Filter([x] + rest, f) == (if Matches(f, x) then [x] else []) + Filter(rest, f)
  {
    assert ([x] + rest)[1..] == rest;
  }

  /** Filtering a concatenation filters each part. */
  lemma {:induction false} FilterAppend(a: seq<Order>, b: seq<Order>, f: Filters)
    ensures Filter(a + b, f) == Filter(a, f) + Filter(b, f)
  {
    if |a| == 0 {
      assert a + b == b;
    } else {
      var x, tail := a[0], a[1..];
      var head := if Matches(f, x) then [x] else [];
      assert a == [x] + tail;
      assert a + b == [x] + (tail + b);
      FilterCons(x, tail, f);
      FilterCons(x, tail + b, f);
      FilterAppend(tail, b, f);
      calc {
        Filter(a + b, f);
        Filter([x] + (tail + b), f);
        head + Filter(tail + b, f);
        head + (Filter(tail, f) + Filter(b, f));
        (head + Filter(tail, f)) + Filter(b, f);
        Filter([x] + tail, f) + Filter(b, f);
        Filter(a, f) + Filter(b, f);
      }
    }
  }

  lemma FilterSingleton(o: Order, f: Filters)
    ensures Filter([o], f) == if Matches(f, o) then [o] else []
  {
    assert [o][1..] == [];
  }

  /** A created order is listed last by every filter it matches, in
      particular by the pending-status filter. */
  lemma CreatedOrderIsListed(orders: seq<Order>, d: OrderData, id: string, now: string, f: Filters)
    ensures var o := Orders.NewOrder(d, id, now);
      Filter(Orders.CreateOrder(orders, d, id, now), f) == Filter(orders, f) + (if Matches(f, o) then [o] else [])
    ensures var pending := Filters(Some(PENDING), None, None, None);
      Filter(Orders.CreateOrder(orders, d, id, now), pending) == Filter(orders, pending) + [Orders.NewOrder(d, id, now)]
  {
    var o := Orders.NewOrder(d, id, now);
    var pending := Filters(Some(PENDING), None, None, None);
    FilterAppend(orders, [o], f);
    FilterAppend(orders, [o], pending);
    FilterSingleton(o, f);
    FilterSingleton(o, pending);
  }
}
