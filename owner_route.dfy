/** The owner's dashboard: for each store the caller owns, its average rating
    and every rating it received, each with the rating user's public details. */
module OwnerRoute {
  import opened Common
  import opened Tables
  import opened Aggregates
  import opened Ledger

  /** `{ id, name, email }` of the user who gave a rating. */
  datatype Rater = Rater(id: int, name: string, email: string)

  /** `{ id, value, user }`; the user is null when the row names no stored user. */
  datatype Feedback = Feedback(id: int, value: int, user: Option<Rater>)

  /** `{ storeId, storeName, averageRating, ratings }`. */
  datatype StoreFeedback = StoreFeedback(storeId: int, storeName: string, averageRating: Option<real>, ratings: seq<Feedback>)

  /** `include: { user: { select: { id, name, email } } }` for one rating. */
  function RaterOf(users: seq<User>, userId: int): (rater: Option<Rater>)
    ensures rater.None? <==> forall i | 0 <= i < |users| :: users[i].id != userId
    ensures rater.Some? ==> exists i | 0 <= i < |users| ::
      users[i].id == userId && rater.value == Rater(users[i].id, users[i].name, users[i].email)
  {
    match UserWithId(users, userId)
    case None => None
    case Some(i) => Some(Rater(users[i].id, users[i].name, users[i].email))
  }

  /** `s.ratings.map(r => ({ id: r.id, value: r.value, user: r.user }))`. */
  function FeedbackFor(users: seq<User>, rs: seq<Rating>): (fs: seq<Feedback>)
    ensures |fs| == |rs|
    ensures forall k | 0 <= k < |fs| :: fs[k].id == rs[k].id && fs[k].value == rs[k].value
    ensures forall k | 0 <= k < |fs| :: fs[k].user == RaterOf(users, rs[k].userId)
  {
    seq(|rs|, k requires 0 <= k < |rs| => Feedback(rs[k].id, rs[k].value, RaterOf(users, rs[k].userId)))
  }

  /** The values of the listed feedback. */
  function FeedbackValues(fs: seq<Feedback>): (vs: seq<int>)
    ensures |vs| == |fs| && forall k | 0 <= k < |vs| :: vs[k] == fs[k].value
  {
    seq(|fs|, k requires 0 <= k < |fs| => fs[k].value)
  }

  /** `GET /owner/ratings` for the owner named by the token: one entry per
      owned store, in the order the database returns them, with the store's
      average and its ratings. */
  function OwnerRatings(users: seq<User>, stores: seq<Store>, ratings: seq<Rating>, ownerId: int): (r: seq<StoreFeedback>)
    ensures |r| == |OwnedStores(stores, ownerId)| <= |stores|
    ensures forall k | 0 <= k < |r| :: var s := OwnedStores(stores, ownerId)[k];
      r[k].storeId == s.id && r[k].storeName == s.name
    ensures forall k | 0 <= k < |r| ::
      && r[k].averageRating == StoreAverage(ratings, r[k].storeId)
      && r[k].ratings == FeedbackFor(users, RatingsOf(ratings, r[k].storeId))
  {
    var owned := OwnedStores(stores, ownerId);
    seq(|owned|, k requires 0 <= k < |owned| =>
      StoreFeedback(owned[k].id, owned[k].name, StoreAverage(ratings, owned[k].id),
                    FeedbackFor(users, RatingsOf(ratings, owned[k].id))))
  }

  /** Every entry is a store of the table that the caller owns, shown under its own name. */
  lemma OwnerSeesOnlyOwnStores(users: seq<User>, stores: seq<Store>, ratings: seq<Rating>, ownerId: int, k: int)
    requires 0 <= k < |OwnerRatings(users, stores, ratings, ownerId)|
    ensures var e := OwnerRatings(users, stores, ratings, ownerId)[k];
      exists s | s in stores :: s.id == e.storeId && s.name == e.storeName && s.ownerId == Some(ownerId)
  {
    var owned := OwnedStores(stores, ownerId);
    assert owned[k] in owned;
  }

  /** Every store the caller owns has an entry. */
  lemma OwnerSeesEveryOwnStore(users: seq<User>, stores: seq<Store>, ratings: seq<Rating>, ownerId: int, s: Store)
    requires s in stores && s.ownerId == Some(ownerId)
    ensures exists k | 0 <= k < |OwnerRatings(users, stores, ratings, ownerId)| ::
      OwnerRatings(users, stores, ratings, ownerId)[k].storeId == s.id
  {
    var owned := OwnedStores(stores, ownerId);
    assert s in owned;
    var k :| 0 <= k < |owned| && owned[k] == s;
    assert OwnerRatings(users, stores, ratings, ownerId)[k].storeId == s.id;
  }

  /** Each listed rating is a rating of that store, shown with its id and value. */
  lemma FeedbackIsTheStoresRatings(users: seq<User>, stores: seq<Store>, ratings: seq<Rating>, ownerId: int, k: int, j: int)
    requires 0 <= k < |OwnerRatings(users, stores, ratings, ownerId)|
    requires 0 <= j < |OwnerRatings(users, stores, ratings, ownerId)[k].ratings|
    ensures var e := OwnerRatings(users, stores, ratings, ownerId)[k];
      exists row | row in ratings :: && row.storeId == e.storeId
        && row.id == e.ratings[j].id && row.value == e.ratings[j].value
  {
    var e := OwnerRatings(users, stores, ratings, ownerId)[k];
    var rs := RatingsOf(ratings, e.storeId);
    assert rs[j] in rs;
  }

  /** The average shown for a store is the average of the ratings listed under
      it: the dashboard is consistent with itself. */
  lemma AverageOfListedRatings(users: seq<User>, stores: seq<Store>, ratings: seq<Rating>, ownerId: int, k: int)
    requires 0 <= k < |OwnerRatings(users, stores, ratings, ownerId)|
    ensures var e := OwnerRatings(users, stores, ratings, ownerId)[k];
      e.averageRating == Average(FeedbackValues(e.ratings))
  {
    var e := OwnerRatings(users, stores, ratings, ownerId)[k];
    assert FeedbackValues(e.ratings) == ValuesFor(ratings, e.storeId);
  }

  /** When every rating names a stored user, as the foreign key guarantees,
      every listed rating carries that user's public details. */
  lemma EveryRaterNamed(users: seq<User>, stores: seq<Store>, ratings: seq<Rating>, nextId: int, ownerId: int, k: int, j: int)
    requires RatingsValid(ratings, users, stores, nextId)
    requires 0 <= k < |OwnerRatings(users, stores, ratings, ownerId)|
    requires 0 <= j < |OwnerRatings(users, stores, ratings, ownerId)[k].ratings|
    ensures OwnerRatings(users, stores, ratings, ownerId)[k].ratings[j].user.Some?
  {
    var e := OwnerRatings(users, stores, ratings, ownerId)[k];
    var rs := RatingsOf(ratings, e.storeId);
    assert rs[j] in rs;
    var i :| 0 <= i < |ratings| && ratings[i] == rs[j];
    assert UserWithId(users, ratings[i].userId).Some?;
  }
}
