/** The records the marketplace store keeps in its snapshot, the argument
    records its operations receive, and the order status names. Ids and
    timestamps are opaque strings. */
module Entities {

  datatype Option<+T> = None | Some(value: T)

  datatype Result<+T, +E> = Ok(value: T) | Err(error: E)

  /** The one error the store raises: `signIn` with no matching user. */
  datatype AuthError = InvalidCredentials

  // Order status names as the store writes them.
  const PENDING: string := "pending"
  const IN_PROGRESS: string := "in_progress"
  const COMPLETED: string := "completed"
  const CANCELLED: string := "cancelled"

  datatype Role = Customer | Provider

  /** One element of a user's `ratings` list: the review id and its rating. */
  datatype UserRating = UserRating(id: string, rating: int)

  datatype User = User(
    id: string,
    name: string,
    email: string,
    password: string,
    role: Role,
    createdAt: string,
    ratings: seq<UserRating>,
    averageRating: real)

  datatype Bid = Bid(
    id: string,
    providerId: string,
    providerName: string,
    amount: real,
    createdAt: string)

  /** One element of an order's own `ratings` list. `toUserId` is absent when
      the rated participant was not known (an order without a provider). */
  datatype OrderRating = OrderRating(
    fromUserId: string,
    toUserId: Option<string>,
    reviewId: string,
    rating: int,
    createdAt: string)

  /** An order. The optional fields are absent until an operation sets them;
      an absent `ratings` list reads as the empty list, as `order.ratings || []`
      does. */
  datatype Order = Order(
    id: string,
    title: string,
    description: string,
    category: string,
    location: string,
    minPrice: real,
    maxPrice: real,
    expireDate: string,
    customerId: string,
    status: string,
    createdAt: string,
    bids: seq<Bid>,
    acceptedBid: Option<Bid>,
    providerId: Option<string>,
    acceptedAt: Option<string>,
    completedAt: Option<string>,
    cancelledAt: Option<string>,
    cancelReason: Option<string>,
    ratings: seq<OrderRating>,
    currentBid: Option<real>,
    fixedPrice: Option<real>)

  datatype Review = Review(
    id: string,
    orderId: string,
    fromUserId: string,
    targetUserId: Option<string>,
    rating: int,
    comment: string,
    createdAt: string)

  /** The whole state the store holds and replaces on every operation. */
  datatype Snapshot = Snapshot(
    users: seq<User>,
    orders: seq<Order>,
    reviews: seq<Review>,
    currentUser: Option<User>,
    isAuthenticated: bool)

  const InitialData: Snapshot := Snapshot([], [], [], None, false)

  // ---- Argument records of the store's operations ----

  datatype SignUpData = SignUpData(name: string, email: string, password: string, role: Role)

  datatype OrderData = OrderData(
    title: string,
    description: string,
    category: string,
    location: string,
    minPrice: real,
    maxPrice: real,
    expireDate: string,
    customerId: string)

  datatype BidData = BidData(providerId: string, providerName: string, amount: real)

  /** The keys a partial update object may carry: a present key overrides the
      order's field of the same name. */
  datatype OrderUpdate = OrderUpdate(
    id: Option<string>,
    title: Option<string>,
    description: Option<string>,
    category: Option<string>,
    location: Option<string>,
    minPrice: Option<real>,
    maxPrice: Option<real>,
    expireDate: Option<string>,
    customerId: Option<string>,
    status: Option<string>,
    createdAt: Option<string>,
    bids: Option<seq<Bid>>,
    acceptedBid: Option<Bid>,
    providerId: Option<string>,
    acceptedAt: Option<string>,
    completedAt: Option<string>,
    cancelledAt: Option<string>,
    cancelReason: Option<string>,
    ratings: Option<seq<OrderRating>>,
    currentBid: Option<real>,
    fixedPrice: Option<real>)

  const NoUpdate: OrderUpdate := OrderUpdate(
    None, None, None, None, None, None, None, None, None, None, None,
    None, None, None, None, None, None, None, None, None, None)

  datatype ReviewData = ReviewData(
    orderId: string,
    fromUserId: string,
    targetUserId: Option<string>,
    rating: int,
    comment: string)

  datatype RatingData = RatingData(
    fromUserId: string,
    toUserId: Option<string>,
    rating: int,
    comment: string)

  /** The keys `getFilteredOrders` looks at; each may be missing. */
  datatype Filters = Filters(
    status: Option<string>,
    customerId: Option<string>,
    providerId: Option<string>,
    category: Option<string>)

  const NoFilters: Filters := Filters(None, None, None, None)
}
