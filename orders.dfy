/** The order-side transforms of the store, each a pure function from the
    previous `orders` list to the next one, and what they promise. Every
    transform that targets an order id rewrites EVERY order carrying that id
    (the store maps over the whole list); ids are not assumed to be unique.
    `acceptBid` looks the order up with `find` and installs that FIRST match,
    accepted, in place of every order with the id; the order step of
    `rateOrderParticipant` gives every order with the id the first match's
    rating list plus the new entry and keeps each order's other fields. */
module Orders {
  import opened Entities
  import Lookup

  function IdIs(id: string): Order -> bool
  {
    (o: Order) => o.id == id
  }

  function BidIdIs(id: string): Bid -> bool
  {
    (b: Bid) => b.id == id
  }

  /** `orders.map(o => o.id === id ? t(o) : o)` */
  function MapMatching(orders: seq<Order>, id: string, t: Order -> Order): seq<Order>
  {
    seq(|orders|, i requires 0 <= i < |orders| => if orders[i].id == id then t(orders[i]) else orders[i])
  }

  // ---------------------------------------------------------------- createOrder

  /** The order `createOrder` builds: the caller's fields, the given id and
      creation time, status pending and no bids; nothing else is set. */
  function NewOrder(d: OrderData, id: string, now: string): (o: Order)
    ensures o.id == id && o.status == PENDING && o.bids == [] && o.createdAt == now
    ensures o.customerId == d.customerId && o.minPrice == d.minPrice && o.maxPrice == d.maxPrice
    ensures o.acceptedBid.None? && o.providerId.None? && o.ratings == []
    ensures o.fixedPrice.None? && o.currentBid.None?
  {
    Order(id, d.title, d.description, d.category, d.location, d.minPrice, d.maxPrice,
          d.expireDate, d.customerId, PENDING, now, [], None, None, None, None, None, None,
          [], None, None)
  }

  function CreateOrder(orders: seq<Order>, d: OrderData, id: string, now: string): seq<Order>
  {
    orders + [NewOrder(d, id, now)]
  }

  // ---------------------------------------------------------------- updateOrder

  function Over<T>(base: T, update: Option<T>): T
  {
    if update.Some? then update.value else base
  }

  function OverOpt<T>(base: Option<T>, update: Option<T>): Option<T>
  {
    if update.Some? then update else base
  }

  /** Every key the update carries has the update's value in `o`. */
  predicate Agrees(o: Order, u: OrderUpdate)
  {
    && (u.id.Some? ==> o.id == u.id.value)
    && (u.title.Some? ==> o.title == u.title.value)
    && (u.description.Some? ==> o.description == u.description.value)
    && (u.category.Some? ==> o.category == u.category.value)
    && (u.location.Some? ==> o.location == u.location.value)
    && (u.minPrice.Some? ==> o.minPrice == u.minPrice.value)
    && (u.maxPrice.Some? ==> o.maxPrice == u.maxPrice.value)
    && (u.expireDate.Some? ==> o.expireDate == u.expireDate.value)
    && (u.customerId.Some? ==> o.customerId == u.customerId.value)
    && (u.status.Some? ==> o.status == u.status.value)
    && (u.createdAt.Some? ==> o.createdAt == u.createdAt.value)
    && (u.bids.Some? ==> o.bids == u.bids.value)
    && (u.acceptedBid.Some? ==> o.acceptedBid == u.acceptedBid)
    && (u.providerId.Some? ==> o.providerId == u.providerId)
    && (u.acceptedAt.Some? ==> o.acceptedAt == u.acceptedAt)
    && (u.completedAt.Some? ==> o.completedAt == u.completedAt)
    && (u.cancelledAt.Some? ==> o.cancelledAt == u.cancelledAt)
    && (u.cancelReason.Some? ==> o.cancelReason == u.cancelReason)
    && (u.ratings.Some? ==> o.ratings == u.ratings.value)
    && (u.currentBid.Some? ==> o.currentBid == u.currentBid)
    && (u.fixedPrice.Some? ==> o.fixedPrice == u.fixedPrice)
  }

  /** Every key the update does not carry has the same value in `o` and `r`. */
  predicate KeepsUnset(o: Order, r: Order, u: OrderUpdate)
  {
    && (u.id.None? ==> r.id == o.id)
    && (u.title.None? ==> r.title == o.title)
    && (u.description.None? ==> r.description == o.description)
    && (u.category.None? ==> r.category == o.category)
    && (u.location.None? ==> r.location == o.location)
    && (u.minPrice.None? ==> r.minPrice == o.minPrice)
    && (u.maxPrice.None? ==> r.maxPrice == o.maxPrice)
    && (u.expireDate.None? ==> r.expireDate == o.expireDate)
    && (u.customerId.None? ==> r.customerId == o.customerId)
    && (u.status.None? ==> r.status == o.status)
    && (u.createdAt.None? ==> r.createdAt == o.createdAt)
    && (u.bids.None? ==> r.bids == o.bids)
    && (u.acceptedBid.None? ==> r.acceptedBid == o.acceptedBid)
    && (u.providerId.None? ==> r.providerId == o.providerId)
    && (u.acceptedAt.None? ==> r.acceptedAt == o.acceptedAt)
    && (u.completedAt.None? ==> r.completedAt == o.completedAt)
    && (u.cancelledAt.None? ==> r.cancelledAt == o.cancelledAt)
    && (u.cancelReason.None? ==> r.cancelReason == o.cancelReason)
    && (u.ratings.None? ==> r.ratings == o.ratings)
    && (u.currentBid.None? ==> r.currentBid == o.currentBid)
    && (u.fixedPrice.None? ==> r.fixedPrice == o.fixedPrice)
  }

  /** The shallow merge `{ ...o, ...u }`. */
  function Merge(o: Order, u: OrderUpdate): (r: Order)
    ensures Agrees(r, u) && KeepsUnset(o, r, u)
  {
    Order(
      Over(o.id, u.id), Over(o.title, u.title), Over(o.description, u.description),
      Over(o.category, u.category), Over(o.location, u.location),
      Over(o.minPrice, u.minPrice), Over(o.maxPrice, u.maxPrice),
      Over(o.expireDate, u.expireDate), Over(o.customerId, u.customerId),
      Over(o.status, u.status), Over(o.createdAt, u.createdAt), Over(o.bids, u.bids),
      OverOpt(o.acceptedBid, u.acceptedBid), OverOpt(o.providerId, u.providerId),
      OverOpt(o.acceptedAt, u.acceptedAt), OverOpt(o.completedAt, u.completedAt),
      OverOpt(o.cancelledAt, u.cancelledAt), OverOpt(o.cancelReason, u.cancelReason),
      Over(o.ratings, u.ratings), OverOpt(o.currentBid, u.currentBid),
      OverOpt(o.fixedPrice, u.fixedPrice))
  }

  /** Merging changes the order exactly when some key of the update carries a
      value different from the order's own. */
  lemma MergeNoOp(o: Order, u: OrderUpdate)
    ensures Merge(o, u) == o <==> Agrees(o, u)
  {
    var r := Merge(o, u);
    if Agrees(o, u) {
      assert r.id == o.id && r.title == o.title && r.description == o.description;
      assert r.category == o.category && r.location == o.location && r.status == o.status;
      assert r.bids == o.bids && r.ratings == o.ratings && r.acceptedBid == o.acceptedBid;
    }
  }

  function UpdateOrder(orders: seq<Order>, orderId: string, u: OrderUpdate): seq<Order>
  {
    MapMatching(orders, orderId, (o: Order) => Merge(o, u))
  }

  /** `updateOrder` keeps the length, merges the update into every order
      with the id and leaves every other order as it was; applying the same
      update twice is the same as applying it once. */
  lemma UpdateOrderEffect(orders: seq<Order>, orderId: string, u: OrderUpdate)
    ensures |UpdateOrder(orders, orderId, u)| == |orders|
    ensures forall i :: 0 <= i < |orders| && orders[i].id == orderId ==>
      Agrees(UpdateOrder(orders, orderId, u)[i], u) &&
      KeepsUnset(orders[i], UpdateOrder(orders, orderId, u)[i], u)
    ensures forall i :: 0 <= i < |orders| && orders[i].id != orderId ==>
      UpdateOrder(orders, orderId, u)[i] == orders[i]
    ensures UpdateOrder(UpdateOrder(orders, orderId, u), orderId, u) == UpdateOrder(orders, orderId, u)
  {
    var once := UpdateOrder(orders, orderId, u);
    forall k | 0 <= k < |orders|
      ensures UpdateOrder(once, orderId, u)[k] == once[k]
    {
      if once[k].id == orderId {
        MergeNoOp(once[k], u);
      }
    }
  }

  /** An update naming an id no order has changes nothing, and so does the
      empty update. */
  lemma UpdateOrderNoOp(orders: seq<Order>, orderId: string, u: OrderUpdate)
    ensures (forall i :: 0 <= i < |orders| ==> orders[i].id != orderId) ==> UpdateOrder(orders, orderId, u) == orders
    ensures UpdateOrder(orders, orderId, NoUpdate) == orders
  {
  }

  // ---------------------------------------------------------------- placeBid

  /** The bid `placeBid` builds from the caller's fields. */
  function NewBid(d: BidData, id: string, now: string): Bid
  {
    Bid(id, d.providerId, d.providerName, d.amount, now)
  }

  function PlaceBid(orders: seq<Order>, orderId: string, bid: Bid): seq<Order>
  {
    MapMatching(orders, orderId, (o: Order) => o.(bids := o.bids + [bid]))
  }

  /** The bid becomes the last bid of every order with the id, and nothing
      else about any order changes; no check is made of amount, status or
      bidder. */
  lemma PlaceBidEffect(orders: seq<Order>, orderId: string, bid: Bid)
    ensures |PlaceBid(orders, orderId, bid)| == |orders|
    ensures forall i :: 0 <= i < |orders| && orders[i].id == orderId ==>
      var r := PlaceBid(orders, orderId, bid)[i];
      |r.bids| == |orders[i].bids| + 1 && r.bids[|orders[i].bids|] == bid &&
      r.bids[..|orders[i].bids|] == orders[i].bids && r.(bids := orders[i].bids) == orders[i]
    ensures forall i :: 0 <= i < |orders| && orders[i].id != orderId ==>
      PlaceBid(orders, orderId, bid)[i] == orders[i]
  {
    forall i | 0 <= i < |orders| && orders[i].id == orderId
      ensures PlaceBid(orders, orderId, bid)[i].bids[..|orders[i].bids|] == orders[i].bids
    {
      assert (orders[i].bids + [bid])[..|orders[i].bids|] == orders[i].bids;
    }
  }

  // ---------------------------------------------------------------- acceptBid

  /** The order as `acceptBid` rewrites it around the accepted bid. */
  function Accepted(order: Order, bid: Bid, now: string): Order
  {
    order.(status := IN_PROGRESS, acceptedBid := Some(bid), providerId := Some(bid.providerId),
           acceptedAt := Some(now))
  }

  /** The transform that replaces an order by a fixed one. */
  function Install(replacement: Order): Order -> Order
  {
    (o: Order) => replacement
  }

  function AcceptBid(orders: seq<Order>, orderId: string, bidId: string, now: string): seq<Order>
  {
    match Lookup.Find(orders, IdIs(orderId))
    case None => orders
    case Some(order) =>
      match Lookup.Find(order.bids, BidIdIs(bidId))
      case None => orders
      case Some(bid) => MapMatching(orders, orderId, Install(Accepted(order, bid, now)))
  }

  /** `acceptBid` returns the list unchanged when no order has the id, or
      when the first order with the id has no bid with the bid id. */
  lemma AcceptBidNoOp(orders: seq<Order>, orderId: string, bidId: string, now: string)
    ensures (forall i :: 0 <= i < |orders| ==> orders[i].id != orderId) ==>
      AcceptBid(orders, orderId, bidId, now) == orders
    ensures forall i ::
      (Lookup.FindIndex(orders, IdIs(orderId)) == Some(i) &&
       forall j :: 0 <= j < |orders[i].bids| ==> orders[i].bids[j].id != bidId) ==>
      AcceptBid(orders, orderId, bidId, now) == orders
  {
  }

  /** When the first order with the id is at i and its first bid with the
      bid id at j, `acceptBid` installs that order, accepted around that
      bid, in place of every order with the id. */
  lemma AcceptBidUnfold(orders: seq<Order>, orderId: string, bidId: string, now: string, i: nat, j: nat)
    requires Lookup.FindIndex(orders, IdIs(orderId)) == Some(i)
    requires Lookup.FindIndex(orders[i].bids, BidIdIs(bidId)) == Some(j)
    ensures AcceptBid(orders, orderId, bidId, now) ==
      MapMatching(orders, orderId, Install(Accepted(orders[i], orders[i].bids[j], now)))
  {
  }

  /** On success, every order with the id becomes a copy of the first such
      order with status in_progress, the found bid as accepted bid, that
      bid's provider as provider and the acceptance time, and no other field
      changed; the other orders are untouched. */
  lemma AcceptBidEffect(orders: seq<Order>, orderId: string, bidId: string, now: string, i: nat, j: nat)
    requires Lookup.FindIndex(orders, IdIs(orderId)) == Some(i)
    requires Lookup.FindIndex(orders[i].bids, BidIdIs(bidId)) == Some(j)
    ensures |AcceptBid(orders, orderId, bidId, now)| == |orders|
    ensures forall k :: 0 <= k < |orders| && orders[k].id == orderId ==>
      var r := AcceptBid(orders, orderId, bidId, now)[k];
      r.status == IN_PROGRESS && r.acceptedBid == Some(orders[i].bids[j]) &&
      r.providerId == Some(orders[i].bids[j].providerId) && r.acceptedAt == Some(now) &&
      r.(status := orders[i].status, acceptedBid := orders[i].acceptedBid, providerId := orders[i].providerId,
         acceptedAt := orders[i].acceptedAt) == orders[i]
    ensures forall k :: 0 <= k < |orders| && orders[k].id != orderId ==>
      AcceptBid(orders, orderId, bidId, now)[k] == orders[k]
  {
    AcceptBidUnfold(orders, orderId, bidId, now, i, j);
    var r := AcceptBid(orders, orderId, bidId, now);
    var u := Accepted(orders[i], orders[i].bids[j], now);
    forall k | 0 <= k < |orders| && orders[k].id == orderId
      ensures r[k] == u
    {
    }
  }

  /** Two lists that have the id at the same positions and agree elsewhere
      are mapped alike by a transform that ignores its argument. */
  lemma InstallSameIds(xs: seq<Order>, ys: seq<Order>, id: string, u: Order)
    requires |xs| == |ys|
    requires forall k :: 0 <= k < |xs| ==> (xs[k].id == id <==> ys[k].id == id)
    requires forall k :: 0 <= k < |xs| && xs[k].id != id ==> xs[k] == ys[k]
    ensures MapMatching(xs, id, Install(u)) == MapMatching(ys, id, Install(u))
  {
    assert forall k :: 0 <= k < |xs| ==> MapMatching(xs, id, Install(u))[k] == MapMatching(ys, id, Install(u))[k];
  }

  /** Accepting the same bid again re-applies the same transition: the
      result is that of a single call made at the later time. */
  lemma AcceptBidIdempotent(orders: seq<Order>, orderId: string, bidId: string, t1: string, t2: string)
    ensures AcceptBid(AcceptBid(orders, orderId, bidId, t1), orderId, bidId, t2) == AcceptBid(orders, orderId, bidId, t2)
  {
    match Lookup.FindIndex(orders, IdIs(orderId))
    case None =>
    case Some(i) =>
      match Lookup.FindIndex(orders[i].bids, BidIdIs(bidId))
      case None =>
      case Some(j) =>
        AcceptFoundBidTwice(orders, orderId, bidId, t1, t2, i, j);
  }

  /** The case of `AcceptBidIdempotent` where both lookups succeed. */
  lemma AcceptFoundBidTwice(orders: seq<Order>, orderId: string, bidId: string, t1: string, t2: string, i: nat, j: nat)
    requires Lookup.FindIndex(orders, IdIs(orderId)) == Some(i)
    requires Lookup.FindIndex(orders[i].bids, BidIdIs(bidId)) == Some(j)
    ensures AcceptBid(AcceptBid(orders, orderId, bidId, t1), orderId, bidId, t2) == AcceptBid(orders, orderId, bidId, t2)
  {
    var bid := orders[i].bids[j];
    var u1 := Accepted(orders[i], bid, t1);
    var u2 := Accepted(orders[i], bid, t2);
    AcceptBidUnfold(orders, orderId, bidId, t1, i, j);
    AcceptBidUnfold(orders, orderId, bidId, t2, i, j);
    var r1 := MapMatching(orders, orderId, Install(u1));
    assert forall k :: 0 <= k < |orders| ==> (r1[k].id == orderId <==> orders[k].id == orderId);
    Lookup.FindIndexSameHits(orders, r1, IdIs(orderId));
    assert r1[i] == u1;
    AcceptBidUnfold(r1, orderId, bidId, t2, i, j);
    assert Accepted(u1, bid, t2) == u2;
    InstallSameIds(r1, orders, orderId, u2);
  }

  /** A bid just placed on an existing order can be accepted, provided the
      first order with that id has no earlier bid sharing the new bid's id:
      the order then carries the bid as accepted bid and its provider. */
  lemma PlacedBidCanBeAccepted(orders: seq<Order>, orderId: string, bid: Bid, now: string, i: nat)
    requires Lookup.FindIndex(orders, IdIs(orderId)) == Some(i)
    requires forall j :: 0 <= j < |orders[i].bids| ==> orders[i].bids[j].id != bid.id
    ensures forall k :: 0 <= k < |orders| && orders[k].id == orderId ==>
      var r := AcceptBid(PlaceBid(orders, orderId, bid), orderId, bid.id, now)[k];
      r.status == IN_PROGRESS && r.acceptedBid == Some(bid) && r.providerId == Some(bid.providerId)
  {
    var placed := PlaceBid(orders, orderId, bid);
    assert forall k :: 0 <= k < |orders| ==> (IdIs(orderId)(orders[k]) <==> IdIs(orderId)(placed[k]));
    Lookup.FindIndexSameHits(orders, placed, IdIs(orderId));
    Lookup.FindIndexAppend(orders[i].bids, bid, BidIdIs(bid.id));
    assert placed[i].bids == orders[i].bids + [bid];
    AcceptBidEffect(placed, orderId, bid.id, now, i, |orders[i].bids|);
  }

  // ---------------------------------------------------------- completeOrder, cancelOrder

  function Complete(orders: seq<Order>, orderId: string, now: string): seq<Order>
  {
    MapMatching(orders, orderId, (o: Order) => o.(status := COMPLETED, completedAt := Some(now)))
  }

  function Cancel(orders: seq<Order>, orderId: string, now: string, reason: string := ""): seq<Order>
  {
    MapMatching(orders, orderId,
      (o: Order) => o.(status := CANCELLED, cancelReason := Some(reason), cancelledAt := Some(now)))
  }

  /** Completing sets status completed and the completion time on every
      order with the id, whatever its status was, keeps its bids and its
      provider, and touches no other order. */
  lemma CompleteEffect(orders: seq<Order>, orderId: string, now: string)
    ensures |Complete(orders, orderId, now)| == |orders|
    ensures forall i :: 0 <= i < |orders| && orders[i].id == orderId ==>
      var r := Complete(orders, orderId, now)[i];
      r.status == COMPLETED && r.completedAt == Some(now) &&
      r.(status := orders[i].status, completedAt := orders[i].completedAt) == orders[i]
    ensures forall i :: 0 <= i < |orders| && orders[i].id != orderId ==>
      Complete(orders, orderId, now)[i] == orders[i]
  {
  }

  /** Cancelling sets status cancelled, the reason (empty when none is
      given) and the cancellation time on every order with the id, whatever
      its status was, and touches no other order. */
  lemma CancelEffect(orders: seq<Order>, orderId: string, now: string, reason: string)
    ensures |Cancel(orders, orderId, now, reason)| == |orders|
    ensures forall i :: 0 <= i < |orders| && orders[i].id == orderId ==>
      var r := Cancel(orders, orderId, now, reason)[i];
      r.status == CANCELLED && r.cancelReason == Some(reason) && r.cancelledAt == Some(now) &&
      r.(status := orders[i].status, cancelReason := orders[i].cancelReason,
         cancelledAt := orders[i].cancelledAt) == orders[i]
    ensures forall i :: 0 <= i < |orders| && orders[i].id != orderId ==>
      Cancel(orders, orderId, now, reason)[i] == orders[i]
    ensures forall i :: 0 <= i < |orders| && orders[i].id == orderId ==>
      Cancel(orders, orderId, now)[i].cancelReason == Some("")
  {
  }

  /** Complete, cancel and accept on an unknown id change nothing. */
  lemma UnknownIdNoOps(orders: seq<Order>, orderId: string, bidId: string, now: string, reason: string)
    requires forall i :: 0 <= i < |orders| ==> orders[i].id != orderId
    ensures Complete(orders, orderId, now) == orders
    ensures Cancel(orders, orderId, now, reason) == orders
    ensures AcceptBid(orders, orderId, bidId, now) == orders
  {
  }

  /** The status machine the orders are meant to follow: pending to
      in_progress or cancelled, in_progress to completed or cancelled. */
  predicate ForwardStep(from: string, to: string)
  {
    || (from == PENDING && (to == IN_PROGRESS || to == CANCELLED))
    || (from == IN_PROGRESS && (to == COMPLETED || to == CANCELLED))
  }

  /** The store never consults that machine: a completed or cancelled order
      is moved to either terminal status again, and back to in_progress by
      accepting one of its bids, none of which is a forward step. */
  lemma PermissiveTransitions(o: Order, now: string, reason: string, bidIndex: nat)
    requires o.status == COMPLETED || o.status == CANCELLED
    requires bidIndex < |o.bids| && forall j :: 0 <= j < bidIndex ==> o.bids[j].id != o.bids[bidIndex].id
    ensures Complete([o], o.id, now)[0].status == COMPLETED && !ForwardStep(o.status, COMPLETED)
    ensures Cancel([o], o.id, now, reason)[0].status == CANCELLED && !ForwardStep(o.status, CANCELLED)
    ensures AcceptBid([o], o.id, o.bids[bidIndex].id, now)[0].status == IN_PROGRESS &&
      !ForwardStep(o.status, IN_PROGRESS)
  {
    assert Lookup.FindIndex([o], IdIs(o.id)) == Some(0);
    assert Lookup.FindIndex(o.bids, BidIdIs(o.bids[bidIndex].id)) == Some(bidIndex);
  }

  // ---------------------------------------------------------- rateOrderParticipant (order side)

  /** The transform that sets an order's rating list. */
  function WithRatings(ratings: seq<OrderRating>): Order -> Order
  {
    (o: Order) => o.(ratings := ratings)
  }

  /** The order-side step of `rateOrderParticipant`: the first order with
      the id has the entry appended to its ratings, and that list is stored
      on every order with the id; no order with the id leaves it unchanged. */
  function RecordRating(orders: seq<Order>, orderId: string, entry: OrderRating): seq<Order>
  {
    match Lookup.Find(orders, IdIs(orderId))
    case None => orders
    case Some(order) => MapMatching(orders, orderId, WithRatings(order.ratings + [entry]))
  }

  /** Each call appends exactly one entry to the first matching order's
      ratings, whether or not the same user has rated it before; every other
      order with the id receives that same list, and nothing else changes. */
  lemma RecordRatingEffect(orders: seq<Order>, orderId: string, entry: OrderRating)
    ensures |RecordRating(orders, orderId, entry)| == |orders|
    ensures forall i, k ::
      (Lookup.FindIndex(orders, IdIs(orderId)) == Some(i) && 0 <= k < |orders| && orders[k].id == orderId) ==>
      RecordRating(orders, orderId, entry)[k] == orders[k].(ratings := orders[i].ratings + [entry])
    ensures forall i :: 0 <= i < |orders| && orders[i].id != orderId ==>
      RecordRating(orders, orderId, entry)[i] == orders[i]
    ensures Lookup.FindIndex(orders, IdIs(orderId)).None? ==> RecordRating(orders, orderId, entry) == orders
  {
  }

  /** Two ratings recorded on the same order, even by the same user, are
      both kept, in the order they were given. */
  lemma RatingsAreNotDeduplicated(orders: seq<Order>, orderId: string, e1: OrderRating, e2: OrderRating, i: nat)
    requires Lookup.FindIndex(orders, IdIs(orderId)) == Some(i)
    requires e1.fromUserId == e2.fromUserId
    ensures RecordRating(RecordRating(orders, orderId, e1), orderId, e2)[i].ratings == orders[i].ratings + [e1, e2]
  {
    var once := orders[i].ratings + [e1];
    var r1 := MapMatching(orders, orderId, WithRatings(once));
    assert RecordRating(orders, orderId, e1) == r1;
    assert forall k :: 0 <= k < |orders| ==> (IdIs(orderId)(orders[k]) <==> IdIs(orderId)(r1[k]));
    Lookup.FindIndexSameHits(orders, r1, IdIs(orderId));
    assert r1[i].ratings == once;
    assert RecordRating(r1, orderId, e2) == MapMatching(r1, orderId, WithRatings(once + [e2]));
    assert once + [e2] == orders[i].ratings + [e1, e2];
  }

  /** A lookup of a fresh id after `createOrder` finds the created order. */
  lemma CreatedOrderIsFound(orders: seq<Order>, d: OrderData, id: string, now: string)
    requires forall i :: 0 <= i < |orders| ==> orders[i].id != id
    ensures Lookup.Find(CreateOrder(orders, d, id, now), IdIs(id)) == Some(NewOrder(d, id, now))
  {
    Lookup.FindIndexAppend(orders, NewOrder(d, id, now), IdIs(id));
  }
}
