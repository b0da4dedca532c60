/** The user-side transforms of the store: sign-up, the credential lookup of
    sign-in, and the rating aggregation of `addReview`. The stored average is
    the exact mean of the user's ratings (the one-decimal rounding of the
    stored value is not part of this model). */
module Users {
  import opened Entities
  import Lookup

  /** The user `signUp` builds: the caller's fields, the given id and time,
      no ratings and an average of zero. */
  function NewUser(d: SignUpData, id: string, now: string): (u: User)
    ensures u.id == id && u.email == d.email && u.password == d.password && u.role == d.role
    ensures u.ratings == [] && u.averageRating == 0.0
  {
    User(id, d.name, d.email, d.password, d.role, now, [], 0.0)
  }

  function CredentialsAre(email: string, password: string): User -> bool
  {
    (u: User) => u.email == email && u.password == password
  }

  /** The user `signIn` accepts: the first whose email and password both
      equal the given ones, compared exactly. */
  function FindByCredentials(users: seq<User>, email: string, password: string): (r: Option<User>)
    ensures r.Some? ==> r.value in users && r.value.email == email && r.value.password == password
    ensures r.None? <==> forall u :: u in users ==> !(u.email == email && u.password == password)
    ensures r.Some? ==>
      exists i :: 0 <= i < |users| && users[i] == r.value &&
        forall j :: 0 <= j < i ==> !(users[j].email == email && users[j].password == password)
  {
    Lookup.Find(users, CredentialsAre(email, password))
  }

  /** Signing up with credentials no stored user has makes them work: the
      lookup of sign-in then finds exactly the new user. */
  lemma SignedUpUserCanSignIn(users: seq<User>, d: SignUpData, id: string, now: string)
    requires forall u :: u in users ==> !(u.email == d.email && u.password == d.password)
    ensures FindByCredentials(users + [NewUser(d, id, now)], d.email, d.password) == Some(NewUser(d, id, now))
  {
    Lookup.FindIndexAppend(users, NewUser(d, id, now), CredentialsAre(d.email, d.password));
  }

  /** Sign-up does not check that the email is free. An account signed up
      later with the same email and password as an earlier one can never be
      signed into: sign-in keeps finding the earlier account. */
  lemma EarlierAccountShadows(users: seq<User>, d: SignUpData, id: string, now: string)
    requires exists u :: u in users && u.email == d.email && u.password == d.password
    ensures FindByCredentials(users + [NewUser(d, id, now)], d.email, d.password) ==
            FindByCredentials(users, d.email, d.password)
    ensures FindByCredentials(users + [NewUser(d, id, now)], d.email, d.password).Some?
    ensures FindByCredentials(users + [NewUser(d, id, now)], d.email, d.password).value in users
  {
    Lookup.FindIndexAppend(users, NewUser(d, id, now), CredentialsAre(d.email, d.password));
  }

  /** `items.reduce((sum, item) => sum + item.rating, 0)`, a fold from the left. */
  function SumRatings(rs: seq<UserRating>): int
  {
    if |rs| == 0 then 0 else SumRatings(rs[..|rs| - 1]) + rs[|rs| - 1].rating
  }

  /** The arithmetic mean of the ratings; zero when there are none. */
  function Mean(rs: seq<UserRating>): real
  {
    if |rs| == 0 then 0.0 else SumRatings(rs) as real / |rs| as real
  }

  /** The stored average is the mean of the stored ratings. */
  predicate AverageConsistent(u: User)
  {
    u.averageRating == Mean(u.ratings)
  }

  predicate AllAveragesConsistent(users: seq<User>)
  {
    forall i :: 0 <= i < |users| ==> AverageConsistent(users[i])
  }

  /** One user after receiving a rating: the rating is appended and the
      average recomputed from the whole new list. */
  function Rated(u: User, reviewId: string, rating: int): User
  {
    var rs := u.ratings + [UserRating(reviewId, rating)];
    u.(ratings := rs, averageRating := SumRatings(rs) as real / |rs| as real)
  }

  /** The user-side step of `addReview`: every user whose id is the review's
      target is rated. A missing target matches nobody. */
  function RateUsers(users: seq<User>, target: Option<string>, reviewId: string, rating: int): seq<User>
  {
    seq(|users|, i requires 0 <= i < |users| =>
      if target == Some(users[i].id) then Rated(users[i], reviewId, rating) else users[i])
  }

  /** Rating appends exactly one entry to every targeted user and sets its
      average to the mean of the new list, keeping every other field of it;
      other users are left alone, and stored averages stay equal to the means. */
  lemma RateUsersEffect(users: seq<User>, target: Option<string>, reviewId: string, rating: int)
    ensures |RateUsers(users, target, reviewId, rating)| == |users|
    ensures forall i :: 0 <= i < |users| && target == Some(users[i].id) ==>
      RateUsers(users, target, reviewId, rating)[i].ratings == users[i].ratings + [UserRating(reviewId, rating)] &&
      AverageConsistent(RateUsers(users, target, reviewId, rating)[i]) &&
      RateUsers(users, target, reviewId, rating)[i].(ratings := users[i].ratings,
                                                     averageRating := users[i].averageRating) == users[i]
    ensures forall i :: 0 <= i < |users| && target != Some(users[i].id) ==>
      RateUsers(users, target, reviewId, rating)[i] == users[i]
    ensures AllAveragesConsistent(users) ==> AllAveragesConsistent(RateUsers(users, target, reviewId, rating))
  {
  }

  lemma SumRatingsAppend(rs: seq<UserRating>, x: UserRating)
    ensures SumRatings(rs + [x]) == SumRatings(rs) + x.rating
  {
    assert (rs + [x])[..|rs|] == rs;
  }

  /** The new average follows from the old one without the list: with n
      earlier ratings and average a, adding r gives (a * n + r) / (n + 1). */
  lemma RatedAverageIncremental(u: User, reviewId: string, rating: int)
    requires AverageConsistent(u)
    ensures var n := |u.ratings| as real;
      Rated(u, reviewId, rating).averageRating == (u.averageRating * n + rating as real) / (n + 1.0)
  {
    SumRatingsAppend(u.ratings, UserRating(reviewId, rating));
    var n := |u.ratings| as real;
    var s := SumRatings(u.ratings) as real;
    if |u.ratings| > 0 {
      assert u.averageRating * n == s;
    }
  }

  predicate RatingsWithin(rs: seq<UserRating>, lo: int, hi: int)
  {
    forall i :: 0 <= i < |rs| ==> lo <= rs[i].rating <= hi
  }

  lemma {:induction false} SumRatingsWithin(rs: seq<UserRating>, lo: int, hi: int)
    requires RatingsWithin(rs, lo, hi)
    ensures lo * |rs| <= SumRatings(rs) <= hi * |rs|
  {
    if |rs| > 0 {
      var init := rs[..|rs| - 1];
      assert RatingsWithin(init, lo, hi);
      SumRatingsWithin(init, lo, hi);
      assert lo * |rs| == lo * |init| + lo;
      assert hi * |rs| == hi * |init| + hi;
    }
  }

  lemma QuotientWithin(s: int, n: int, a: int, b: int)
    requires n > 0 && a * n <= s <= b * n
    ensures a as real <= s as real / n as real <= b as real
  {
    var q := s as real / n as real;
    assert q * n as real == s as real;
    assert (a * n) as real == a as real * n as real;
    assert (b * n) as real == b as real * n as real;
    assert (q - a as real) * n as real == s as real - (a * n) as real;
    assert (b as real - q) * n as real == (b * n) as real - s as real;
  }

  /** When every rating lies between lo and hi (1 and 5 for the star
      ratings the screens offer), so does the mean of a non-empty list. */
  lemma MeanWithin(rs: seq<UserRating>, lo: int, hi: int)
    requires |rs| > 0 && RatingsWithin(rs, lo, hi)
    ensures lo as real <= Mean(rs) <= hi as real
  {
    SumRatingsWithin(rs, lo, hi);
    QuotientWithin(SumRatings(rs), |rs|, lo, hi);
  }
}
