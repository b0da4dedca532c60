# Service marketplace store, modelled in Dafny

The app is a React Native marketplace. Customers post service orders with a
price range. Providers bid on them. The customer accepts a bid, then
completes or cancels the order. The two sides then rate each other. All of
this state lives in one React context store (`app/context/AppContext.js`):
a snapshot holding users, orders, reviews, the current user and an
authentication flag. Every store operation replaces that snapshot with a
new one built from the previous one. The order card
(`app/components/OrderCard.js`) renders an order with a category icon, a
status badge and a price line.

The model has these parts:

- `entities.dfy` (module `Entities`): the records of the store, one
  datatype each: `User`, `Bid`, `Order`, `Review`, the snapshot, and the
  argument records of the operations. It also holds the four status
  strings and the initial snapshot. `Option`/`Result` stand for absent
  fields and for the error of sign-in.
- `lookup.dfy` (module `Lookup`): the store's `Array.prototype.find`, which
  returns the first element, from the front, that satisfies a predicate.
- `orders.dfy` (module `Orders`): every order-side operation of the store.
  Each is a pure function from the previous order list to the next one,
  with lemmas stating what it does:
  - `createOrder`, `updateOrder` (a shallow merge), `placeBid`,
    `acceptBid`, `completeOrder`, `cancelOrder`;
  - the order-side step of `rateOrderParticipant`.
- `listing.dfy` (module `Listing`): the filter of `getFilteredOrders`.
- `users.dfy` (module `Users`): the user built by `signUp`, the credential
  lookup of `signIn`, and the rating aggregation of `addReview`.
- `store.dfy` (module `Store`): class `AppStore`. Its field `data` is the
  snapshot, and it has one method per store operation. Each method states
  the whole new snapshot in terms of the functions above and keeps the
  invariant `Valid()`: a session is open exactly when there is a current
  user, and every stored average rating is the mean of the stored ratings.
  `BidLifecycle` runs post, bid, accept, complete and rate on a fresh
  store and states the outcome.
- `order_card.dfy` (module `OrderCard`): the card helpers:
  - `getCategoryIcon`;
  - `getStatusColor`;
  - the status label `status.replace('_', ' ')`, which replaces only the
    first underscore;
  - `formatPrice`, with JavaScript truthiness: an absent or zero price
    counts as missing.

Ids and timestamps come from `Date.now()` and `Math.random()` in the
source. They are parameters of the operations here (`id`, `now`).

Transforms that target an order id rewrite every order carrying that id,
because the store maps over the whole list; ids are not assumed unique.
`acceptBid` and the order step of `rateOrderParticipant` first look the
order up with `find`, which returns the FIRST match. `acceptBid` then puts
that first match, accepted, in place of every order with the id
(AppContext.js:212-222). `rateOrderParticipant` instead keeps each
order's own fields and gives every order with the id only the first
match's rating list with the new entry appended (AppContext.js:333-349).
The model does the same.

## Code versus intended use

The store itself checks less than its screens assume. The model follows
the store:

- The order screen offers each status step only from one status: "Accept
  Bid" only on a pending order (`app/(app)/orders/[id].js:249`), "Cancel
  Order" only on a pending one (`[id].js:580-594`), "Mark as Completed"
  only on one in progress (`[id].js:597-602`), and rating only on a
  completed one (`[id].js:604`, `[id].js:617-624`). The store's
  `acceptBid`, `completeOrder` and `cancelOrder` check no status.
  `Orders.PermissiveTransitions` shows a completed or cancelled order
  being completed, cancelled or moved back to in_progress.
- The order screen hides the rating buttons once the current user has
  rated the order (`hasUserRatedOrder`, `[id].js:81`). The store's
  `rateOrderParticipant` appends every rating it is given
  (`Orders.RatingsAreNotDeduplicated`).
- The bid screen rejects an amount above the order's maximum price
  (`[id].js:118`). The store's `placeBid` does not check this
  (`Orders.PlaceBidEffect`).
- The same review id is stored under two keys: the order's rating entry
  calls it `reviewId` (AppContext.js:338), the user's rating entry calls
  it `id` (AppContext.js:290). The model keeps both names
  (`OrderRating.reviewId`, `UserRating.id`).
- An order's `ratings` list is absent until the first rating. The code
  treats it as `order.ratings || []` (AppContext.js:334), and the model
  stores `[]` from creation on.

## Model

| member | source | states |
|---|---|---|
| Lookup.FindIndex | app/context/AppContext.js:206-210 | the index returned satisfies the predicate and no earlier index does; None exactly when no element satisfies it |
| Lookup.Find | app/context/AppContext.js:206-210 | `find` returns the first element of the list that satisfies the predicate: it satisfies it and no earlier element does; undefined (None) exactly when none does |
| Orders.NewOrder | app/context/AppContext.js:159-166 | a created order carries the given id, customer and price range, status pending, no bids, no accepted bid, no provider and no ratings |
| Orders.CreatedOrderIsFound | app/context/AppContext.js:158-173 | after `createOrder` with a fresh id, looking that id up finds the created order |
| Orders.CreateOrder | app/context/AppContext.js:158-173 | appends `NewOrder` to the list; its lookup is stated by `CreatedOrderIsFound` and its listing by `Listing.CreatedOrderIsListed` |
| Orders.Merge | app/context/AppContext.js:178-180 | the spread `{ ...o, ...updates }`: every key the update carries takes its value, and every other key keeps the order's value |
| Orders.MergeNoOp | app/context/AppContext.js:178-180 | merging leaves the order unchanged if and only if the order already agrees with every key of the update |
| Orders.UpdateOrder | app/context/AppContext.js:175-182 | the `map` of `updateOrder`; specified by `UpdateOrderEffect` and `UpdateOrderNoOp` |
| Orders.UpdateOrderEffect | app/context/AppContext.js:175-182 | `updateOrder` keeps the list length, merges the update into every order with the id and leaves the others alone; applying the same update twice equals applying it once |
| Orders.UpdateOrderNoOp | app/context/AppContext.js:175-182 | an unknown id or an empty update changes no order |
| Orders.NewBid | app/context/AppContext.js:185-189 | the bid record `placeBid` builds; its use is specified by `PlaceBidEffect` and `Store.AppStore.PlaceBid` |
| Orders.PlaceBid | app/context/AppContext.js:184-201 | the `map` of `placeBid`; specified by `PlaceBidEffect` |
| Orders.PlaceBidEffect | app/context/AppContext.js:184-201 | the bid is appended as the last bid of every order with the id, nothing else of any order changes, and amount, status and bidder are not checked |
| Orders.Accepted | app/context/AppContext.js:212-218 | the accepted order of `acceptBid`; its fields are stated by `AcceptBidEffect` |
| Orders.AcceptBid | app/context/AppContext.js:204-225 | `acceptBid`; specified by `AcceptBidNoOp`, `AcceptBidEffect` and `AcceptBidIdempotent` |
| Orders.AcceptBidNoOp | app/context/AppContext.js:204-210 | `acceptBid` returns the previous list when no order has the id, or when the first such order has no bid with the bid id |
| Orders.AcceptBidEffect | app/context/AppContext.js:212-225 | on success, every order with the id has status in_progress, the found bid as accepted bid, its provider as provider, the acceptance time, and every other field copied from the first match; other orders are untouched |
| Orders.AcceptBidIdempotent | app/context/AppContext.js:204-225 | accepting the same bid twice gives the result of one call made at the later time |
| Orders.PlacedBidCanBeAccepted | app/context/AppContext.js:184-225 | a bid just placed with an id not used by earlier bids can be accepted: every order with the id ends in_progress with that bid and its provider |
| Orders.Complete | app/context/AppContext.js:228-246 | `completeOrder`; specified by `CompleteEffect` |
| Orders.Cancel | app/context/AppContext.js:249-268 | `cancelOrder`; specified by `CancelEffect` |
| Orders.CompleteEffect | app/context/AppContext.js:228-246 | every order with the id gets status completed and the completion time, whatever its status was, and nothing else changes |
| Orders.CancelEffect | app/context/AppContext.js:249-268 | every order with the id gets status cancelled, the reason (empty by default) and the cancellation time, and nothing else changes |
| Orders.UnknownIdNoOps | app/context/AppContext.js:204-268 | accept, complete and cancel on an id no order has leave the list unchanged |
| Orders.PermissiveTransitions | app/context/AppContext.js:204-268 | a completed or cancelled order is completed, cancelled or put back in progress on request; none of these is a forward status step |
| Orders.RecordRating | app/context/AppContext.js:330-351 | the order step of `rateOrderParticipant`; specified by `RecordRatingEffect` and `RatingsAreNotDeduplicated` |
| Orders.RecordRatingEffect | app/context/AppContext.js:330-351 | every order with the id gets the first such order's ratings with the entry appended, and nothing else of it changes; orders with other ids are untouched; an unknown id changes nothing |
| Orders.RatingsAreNotDeduplicated | app/context/AppContext.js:316-354 | two ratings from the same user on one order are both kept, in the order given |
| Listing.Filter | app/context/AppContext.js:357-379 | the filtered list is no longer than the orders, and every order in it is one of the orders and matches every truthy filter key |
| Listing.FilterKeepsMatchingInOrder | app/context/AppContext.js:357-379 | the result is the orders at an increasing sequence of positions, and a position is among them exactly when its order matches the filter |
| Listing.FilterWithoutKeys | app/context/AppContext.js:357-379 | with no truthy filter key, every order is returned in order |
| Listing.FilterAppend | app/context/AppContext.js:357-379 | filtering a concatenation is the concatenation of the filtered parts |
| Listing.CreatedOrderIsListed | app/context/AppContext.js:158-173 | after `createOrder`, every filter lists the new order last exactly when it matches, and the pending filter always lists it last |
| Users.NewUser | app/context/AppContext.js:83-89 | a new user has the given id, email, password and role, no ratings and an average of zero |
| Users.FindByCredentials | app/context/AppContext.js:113-115 | the user found is the first stored user whose email and password equal the given ones; none is found exactly when no stored user has both |
| Users.SignedUpUserCanSignIn | app/context/AppContext.js:82-139 | after signing up with an email and password no stored user has, sign-in with them finds exactly the new user |
| Users.EarlierAccountShadows | app/context/AppContext.js:82-139 | sign-up does not reject a used email; when an earlier account has the same email and password, sign-in still finds that earlier account, so the new one cannot be signed into |
| Users.Rated | app/context/AppContext.js:288-302 | one targeted user after `addReview`; specified by `RateUsersEffect` and `RatedAverageIncremental` |
| Users.RateUsers | app/context/AppContext.js:285-310 | the user `map` of `addReview`; specified by `RateUsersEffect` |
| Users.RateUsersEffect | app/context/AppContext.js:285-310 | every user the review targets gets one rating entry appended and an average equal to the mean of the new list, and keeps every other field; the others are unchanged; consistent averages stay consistent |
| Users.RatedAverageIncremental | app/context/AppContext.js:288-300 | with n earlier ratings averaging a, a new rating r gives the average (a·n + r)/(n + 1) |
| Users.MeanWithin | app/context/AppContext.js:294-295 | the mean of a non-empty list of ratings between lo and hi lies between lo and hi |
| Store.AppStore.constructor | app/context/AppContext.js:5-11 | the store starts with no users, orders or reviews, no current user and no session |
| Store.AppStore.SignUp | app/context/AppContext.js:82-110 | the new user is appended, becomes the current user and the session opens, with no duplicate-email check; the invariant is kept |
| Store.AppStore.SignIn | app/context/AppContext.js:112-139 | succeeds exactly when some stored user has the email and password, then opens a session for the first such user; otherwise fails with invalid credentials and changes nothing |
| Store.AppStore.SignOut | app/context/AppContext.js:141-155 | clears the current user and the session flag and keeps all other data |
| Store.AppStore.CreateOrder | app/context/AppContext.js:158-173 | appends the new order, returns it, and changes nothing else |
| Store.AppStore.UpdateOrder | app/context/AppContext.js:175-182 | the order list becomes the merged one and nothing else changes |
| Store.AppStore.PlaceBid | app/context/AppContext.js:184-201 | builds and returns the bid and appends it to every order with the id, changing nothing else |
| Store.AppStore.AcceptBid | app/context/AppContext.js:204-225 | the order list becomes the accepted one (or stays as it was) and nothing else changes |
| Store.AppStore.CompleteOrder | app/context/AppContext.js:228-246 | the order list becomes the completed one and nothing else changes |
| Store.AppStore.CancelOrder | app/context/AppContext.js:249-268 | the order list becomes the cancelled one, with an empty reason by default, and nothing else changes |
| Store.AppStore.AddReview | app/context/AppContext.js:271-313 | appends the review, then rates every targeted user, keeping every stored average equal to the mean of that user's ratings |
| Store.AppStore.RateOrderParticipant | app/context/AppContext.js:316-354 | records the review and the user's rating as `addReview` does (even for an unknown order), then appends one entry to the order's ratings |
| Store.AppStore.GetFilteredOrders | app/context/AppContext.js:357-379 | returns the filtered orders, and every order when called without filters |
| Store.BidLifecycle | app/context/AppContext.js:158-354 | post, bid 150, accept, complete and rate 5 on a fresh store leave the order completed, with that bid, that provider and one rating from the customer; the provider's average is 5 |
| OrderCard.CategoryIcon | app/components/OrderCard.js:12-28 | `getCategoryIcon`; specified by `CategoryIconIgnoresCase`, `CategoryIconTable` and `CategoryIconExamples` |
| OrderCard.CategoryIconIgnoresCase | app/components/OrderCard.js:12-13 | two category texts that differ only in letter case get the same icon |
| OrderCard.CategoryIconTable | app/components/OrderCard.js:12-28 | the default icon is shown exactly for a missing or unknown category; repair and installation, and only they, share the tools icon |
| OrderCard.CategoryIconExamples | app/components/OrderCard.js:12-28 | "Repair" and "INSTALLATION" get the tools icon, "AC Repair" the snow icon, and the empty text the default icon |
| OrderCard.StatusColor | app/components/OrderCard.js:31-44 | `getStatusColor`; specified by `StatusColorTable` |
| OrderCard.StatusColorTable | app/components/OrderCard.js:31-44 | the four statuses get four distinct colours, and the inactive colour is used exactly for every other text |
| OrderCard.StatusLabel | app/components/OrderCard.js:86 | `status.replace('_', ' ')`; specified by `StatusLabelReplacesFirst` and `StatusLabelOfCompound` |
| OrderCard.StatusBadge | app/components/OrderCard.js:78-89 | the badge drawn for a truthy status; specified by `StoreStatusBadge` |
| OrderCard.StatusLabelReplacesFirst | app/components/OrderCard.js:86 | the label is the status with its first underscore, and only that one, turned into a space; a status without an underscore is its own label |
| OrderCard.StatusLabelOfCompound | app/components/OrderCard.js:86 | an underscore-free word, an underscore and any rest is labelled word, space, rest |
| OrderCard.InProgressLabel | app/components/OrderCard.js:86 | in_progress is labelled "in progress" |
| OrderCard.StoreStatusBadge | app/components/OrderCard.js:78-89 | each of the four statuses gets a badge with its own colour, labelled with its own text or "in progress"; an empty status gets no badge |
| OrderCard.FormatPrice | app/components/OrderCard.js:46-55 | the branch `formatPrice` takes; specified by `FormatPricePriority` and `ZeroPriceIsAbsent` |
| OrderCard.PriceText | app/components/OrderCard.js:47-54 | the text `formatPrice` returns for a branch; specified by `PriceNotSetOnlyWithoutPrice` |
| OrderCard.FormatPricePriority | app/components/OrderCard.js:47-56 | a fixed price beats the range, a range needs both ends and beats the current bid, and "price not set" is shown exactly when none of them is truthy |
| OrderCard.ZeroPriceIsAbsent | app/components/OrderCard.js:47-56 | a zero end of the range hides the range, as if no range were given |
| OrderCard.CurrentBidHiddenByRange | app/components/OrderCard.js:47-56 | an order created with a non-zero range keeps showing its range after a current bid is recorded on it |
| OrderCard.PriceNotSetOnlyWithoutPrice | app/components/OrderCard.js:47-56 | "Price not set" is the text exactly when no price is known, whatever the number formatting |

## Left out

- Persistence: loading from and saving to AsyncStorage, the stored
  session key, the JSON round-trip and the `loading` flag. These are
  asynchronous I/O on device storage. The model is the in-memory store.
- Ids and timestamps (`Date.now()`, `Math.random()`,
  `new Date().toISOString()`) are parameters. The model makes no claim
  that they are unique or increasing.
- React's state batching. The functional `setData` updates are applied
  in order. `signIn` and `getFilteredOrders` read the `data` of the last
  render, which is modelled as the current snapshot.
- Store.AppStore.RateOrderParticipant: `updatedRatings.push` mutates the
  ratings array of the previous snapshot in place. The model has value
  semantics and states only the new snapshot.
- Users.RateUsersEffect: the stored average is the exact mean. The source
  stores `parseFloat(average.toFixed(1))`, a decimal rounding of a
  floating-point number.
- Store.AppStore.AddReview: as for `Users.RateUsersEffect`, the average is
  the exact mean, not the one-decimal rounding.
- Arguments are fixed records. Extra keys that the source's object
  spreads would copy into a new user, order, bid or review are not
  modelled; neither is a key a caller sets explicitly to `undefined` in an
  update.
- Prices and amounts are exact reals. Floating-point rounding and NaN are
  not modelled; JavaScript treats NaN as falsy.
- OrderCard.CategoryIconTable: `toLowerCase` is modelled for ASCII
  letters only. Outside ASCII, the only character whose lower case is an
  ASCII letter is the Kelvin sign, which lower-cases to `k`. No category
  key contains `k`, so the icon chosen is the same. Non-string category
  values are not modelled.
- OrderCard.PriceText: the printing of a number inside the price text is a
  parameter (`show`).
- Rendering: JSX layout, styles, navigation, the date format of the card
  and the colour values behind the colour tokens.
- The screens are not modelled. They call the store, e.g. the bid screen
  records `currentBid` with `updateOrder` after `placeBid`. Only the
  lifecycle scenario and `CurrentBidHiddenByRange` follow them.
