/** The store: one snapshot that every operation replaces with a new one
    built from the previous one. Ids and timestamps, which the store draws
    from the clock and a random source, are parameters here. */
module Store {
  import opened Entities
  import Lookup
  import Orders
  import Users
  import Listing

  class AppStore {
    var data: Snapshot

    /** What every reachable snapshot satisfies: a session is open exactly
        when there is a current user, and every stored average (including the
        current user's copy) is the mean of its ratings. */
    ghost predicate Valid()
      reads this
    {
      && (data.isAuthenticated <==> data.currentUser.Some?)
      && Users.AllAveragesConsistent(data.users)
      && (data.currentUser.Some? ==> Users.AverageConsistent(data.currentUser.value))
    }

    constructor ()
      ensures Valid() && data == InitialData
    {
      data := InitialData;
    }

    // ------------------------------------------------------------ session

    /** Appends the new user, makes it the current user and opens the
        session. No check is made that the email is unused. */
    method SignUp(userData: SignUpData, id: string, now: string) returns (user: User)
      requires Valid()
      modifies this
      ensures Valid()
      ensures user == Users.NewUser(userData, id, now)
      ensures data == old(data).(users := old(data.users) + [user], currentUser := Some(user),
                                 isAuthenticated := true)
    {
      user := Users.NewUser(userData, id, now);
      data := data.(users := data.users + [user], currentUser := Some(user), isAuthenticated := true);
    }

    /** Opens a session for the first user with exactly these credentials;
        with none, fails with InvalidCredentials and changes nothing. */
    method SignIn(email: string, password: string) returns (r: Result<User, AuthError>)
      requires Valid()
      modifies this
      ensures Valid()
      ensures r.Ok? <==> exists u :: u in old(data.users) && u.email == email && u.password == password
      ensures r.Ok? ==>
        && r.value == Users.FindByCredentials(old(data.users), email, password).value
        && data == old(data).(currentUser := Some(r.value), isAuthenticated := true)
      ensures r.Err? ==> r.error == InvalidCredentials && data == old(data)
    {
      match Users.FindByCredentials(data.users, email, password)
      case Some(user) =>
        data := data.(currentUser := Some(user), isAuthenticated := true);
        r := Ok(user);
      case None =>
        r := Err(InvalidCredentials);
    }

    /** Closes the session; the users, orders and reviews stay. */
    method SignOut()
      requires Valid()
      modifies this
      ensures Valid()
      ensures data == old(data).(currentUser := None, isAuthenticated := false)
    {
      data := data.(currentUser := None, isAuthenticated := false);
    }

    // ------------------------------------------------------------ orders

    /** Appends a new pending order without bids and returns it. */
    method CreateOrder(orderData: OrderData, id: string, now: string) returns (order: Order)
      requires Valid()
      modifies this
      ensures Valid()
      ensures order == Orders.NewOrder(orderData, id, now)
      ensures data == old(data).(orders := old(data.orders) + [order])
    {
      order := Orders.NewOrder(orderData, id, now);
      data := data.(orders := data.orders + [order]);
    }

    method UpdateOrder(orderId: string, updates: OrderUpdate)
      requires Valid()
      modifies this
      ensures Valid()
      ensures data == old(data).(orders := Orders.UpdateOrder(old(data.orders), orderId, updates))
    {
      data := data.(orders := Orders.UpdateOrder(data.orders, orderId, updates));
    }

    /** Builds the bid, appends it to every order with the id and returns it. */
    method PlaceBid(orderId: string, bidData: BidData, id: string, now: string) returns (bid: Bid)
      requires Valid()
      modifies this
      ensures Valid()
      ensures bid == Orders.NewBid(bidData, id, now)
      ensures data == old(data).(orders := Orders.PlaceBid(old(data.orders), orderId, bid))
    {
      bid := Orders.NewBid(bidData, id, now);
      data := data.(orders := Orders.PlaceBid(data.orders, orderId, bid));
    }

    method AcceptBid(orderId: string, bidId: string, now: string)
      requires Valid()
      modifies this
      ensures Valid()
      ensures data == old(data).(orders := Orders.AcceptBid(old(data.orders), orderId, bidId, now))
    {
      data := data.(orders := Orders.AcceptBid(data.orders, orderId, bidId, now));
    }

    method CompleteOrder(orderId: string, now: string)
      requires Valid()
      modifies this
      ensures Valid()
      ensures data == old(data).(orders := Orders.Complete(old(data.orders), orderId, now))
    {
      data := data.(orders := Orders.Complete(data.orders, orderId, now));
    }

    method CancelOrder(orderId: string, now: string, reason: string := "")
      requires Valid()
      modifies this
      ensures Valid()
      ensures data == old(data).(orders := Orders.Cancel(old(data.orders), orderId, now, reason))
    {
      data := data.(orders := Orders.Cancel(data.orders, orderId, now, reason));
    }

    // ------------------------------------------------------------ reviews

    /** Two successive replacements of the snapshot: the review is appended
        to the reviews, then every user the review targets is rated. */
    method AddReview(reviewData: ReviewData, id: string, now: string) returns (review: Review)
      requires Valid()
      modifies this
      ensures Valid()
      ensures review == Review(id, reviewData.orderId, reviewData.fromUserId, reviewData.targetUserId,
                               reviewData.rating, reviewData.comment, now)
      ensures data == old(data).(reviews := old(data.reviews) + [review],
                                 users := Users.RateUsers(old(data.users), reviewData.targetUserId, id,
                                                          reviewData.rating))
    {
      review := Review(id, reviewData.orderId, reviewData.fromUserId, reviewData.targetUserId,
                       reviewData.rating, reviewData.comment, now);
      data := data.(reviews := data.reviews + [review]);
      Users.RateUsersEffect(data.users, reviewData.targetUserId, id, reviewData.rating);
      data := data.(users := Users.RateUsers(data.users, reviewData.targetUserId, id, reviewData.rating));
    }

    /** `addReview` for the rated participant, then one more entry on the
        order's own ratings. The review and the user's rating are recorded
        even when no order has the id. */
    method RateOrderParticipant(orderId: string, ratingData: RatingData, reviewId: string, now: string,
                                ratedAt: string) returns (review: Review)
      requires Valid()
      modifies this
      ensures Valid()
      ensures review == Review(reviewId, orderId, ratingData.fromUserId, ratingData.toUserId,
                               ratingData.rating, ratingData.comment, now)
      ensures data == old(data).(
        reviews := old(data.reviews) + [review],
        users := Users.RateUsers(old(data.users), ratingData.toUserId, reviewId, ratingData.rating),
        orders := Orders.RecordRating(old(data.orders), orderId,
                    OrderRating(ratingData.fromUserId, ratingData.toUserId, reviewId, ratingData.rating, ratedAt)))
    {
      review := AddReview(ReviewData(orderId, ratingData.fromUserId, ratingData.toUserId, ratingData.rating,
                                     ratingData.comment), reviewId, now);
      var entry := OrderRating(ratingData.fromUserId, ratingData.toUserId, review.id, ratingData.rating, ratedAt);
      data := data.(orders := Orders.RecordRating(data.orders, orderId, entry));
    }

    // ------------------------------------------------------------ query

    /** The orders matching every filter key present, in their stored order;
        with no filter, all of them. */
    method GetFilteredOrders(filters: Filters := NoFilters) returns (r: seq<Order>)
      ensures r == Listing.Filter(data.orders, filters)
      ensures filters == NoFilters ==> r == data.orders
    {
      r := Listing.Filter(data.orders, filters);
      if filters == NoFilters {
        Listing.FilterWithoutKeys(data.orders, filters);
      }
    }
  }

  /** One order, one bid: placing, accepting and completing it. */
  lemma OneBidAcceptedAndCompleted(o: Order, b: Bid, now: string)
    requires o.bids == []
    ensures Orders.Complete(Orders.AcceptBid(Orders.PlaceBid([o], o.id, b), o.id, b.id, now), o.id, now) ==
      [Orders.Accepted(o.(bids := [b]), b, now).(status := COMPLETED, completedAt := Some(now))]
  {
    var placed := o.(bids := [b]);
    assert [] + [b] == [b];
    assert Orders.PlaceBid([o], o.id, b)[0] == placed;
    assert Orders.PlaceBid([o], o.id, b) == [placed];
    Lookup.FindIndexAppend([], placed, Orders.IdIs(o.id));
    Lookup.FindIndexAppend([], b, Orders.BidIdIs(b.id));
    assert [] + [placed] == [placed] && [] + [b] == [b];
    var accepted := Orders.Accepted(placed, b, now);
    assert Orders.AcceptBid([placed], o.id, b.id, now)[0] == accepted;
    assert Orders.AcceptBid([placed], o.id, b.id, now) == [accepted];
  }

  /** A user without ratings who receives a single 5 has average 5. */
  lemma FirstRatingIsTheAverage(users: seq<User>, k: nat, reviewId: string, rating: int)
    requires k < |users| && users[k].ratings == []
    ensures Users.RateUsers(users, Some(users[k].id), reviewId, rating)[k].averageRating == rating as real
  {
    Users.SumRatingsAppend([], UserRating(reviewId, rating));
    assert [] + [UserRating(reviewId, rating)] == [UserRating(reviewId, rating)];
  }

  /** A fresh store with a provider and a customer signed up (in that order)
      and one order posted by the customer, priced 100 to 200. */
  method OrderPosted(customerId: string, providerId: string, orderId: string, now: string)
    returns (store: AppStore, o: Order)
    ensures fresh(store) && store.Valid()
    ensures |store.data.users| == 2 && store.data.users[0].id == providerId && store.data.users[0].ratings == []
    ensures store.data.users[1].id == customerId
    ensures o == Orders.NewOrder(OrderData("T", "D", "cleaning", "L", 100.0, 200.0, now, customerId), orderId, now)
    ensures store.data.orders == [o]
  {
    store := new AppStore();
    var p := store.SignUp(SignUpData("P", "p@x", "pw", Provider), providerId, now);
    var c := store.SignUp(SignUpData("C", "c@x", "pw", Customer), customerId, now);
    assert store.data.users == [p, c];
    o := store.CreateOrder(OrderData("T", "D", "cleaning", "L", 100.0, 200.0, now, customerId), orderId, now);
    assert store.data.orders == [o];
  }

  /** The lifecycle walked through end to end on a fresh store: a customer
      posts an order priced 100 to 200, a provider bids 150, the customer
      accepts and completes, then rates the provider 5. The order ends
      completed with that bid accepted and that provider assigned, and the
      provider's average is 5. */
  method BidLifecycle(customerId: string, providerId: string, orderId: string, bidId: string,
                      reviewId: string, now: string) returns (order: Order, provider: User)
    requires customerId != providerId
    ensures order.status == COMPLETED && order.providerId == Some(providerId)
    ensures order.acceptedBid.Some? && order.acceptedBid.value.amount == 150.0
    ensures provider.id == providerId && provider.averageRating == 5.0
    ensures |order.ratings| == 1 && order.ratings[0].fromUserId == customerId
  {
    var store, o := OrderPosted(customerId, providerId, orderId, now);
    var b := store.PlaceBid(orderId, BidData(providerId, "P", 150.0), bidId, now);
    store.AcceptBid(orderId, bidId, now);
    store.CompleteOrder(orderId, now);
    OneBidAcceptedAndCompleted(o, b, now);
    var completed := Orders.Accepted(o.(bids := [b]), b, now).(status := COMPLETED, completedAt := Some(now));
    assert store.data.orders == [completed];
    Lookup.FindIndexAppend([], completed, Orders.IdIs(orderId));
    assert [] + [completed] == [completed];
    FirstRatingIsTheAverage(store.data.users, 0, reviewId, 5);
    var review := store.RateOrderParticipant(orderId, RatingData(customerId, Some(providerId), 5, ""),
                                             reviewId, now, now);
    order := store.data.orders[0];
    provider := store.data.users[0];
  }
}
