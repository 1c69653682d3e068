/** The store routes every signed-in user sees: the store search, which lists
    each matching store with its overall average and the caller's own rating,
    and the rating submission, an upsert keyed by (user, store). */
module StoresRoute {
  import opened Common
  import opened Schema
  import opened Tables
  import opened Ledger
  import opened Filters

  // ---------------------------------------------------------------------------
  // GET /stores

  /** The caller's ratings: `rating.findMany({ where: { userId } })`. */
  function RatingsBy(ratings: seq<Rating>, userId: int): (mine: seq<Rating>)
    ensures forall r :: r in mine <==> r in ratings && r.userId == userId
  {
    Select(ratings, (r: Rating) => r.userId == userId)
  }

  /** The caller's ratings of a table are the first row (when it is the
      caller's) followed by the caller's ratings of the rest. */
  lemma RatingsByFirst(ratings: seq<Rating>, userId: int)
    requires |ratings| > 0
    ensures ratings[0].userId == userId ==>
      RatingsBy(ratings, userId) == [ratings[0]] + RatingsBy(ratings[1..], userId)
    ensures ratings[0].userId != userId ==>
      RatingsBy(ratings, userId) == RatingsBy(ratings[1..], userId)
  {
  }

  /** `new Map(mine.map(r => [r.storeId, r.value]))`: keyed by store, and when a
      store occurs twice the later row's value is the one kept. */
  function RatingMap(mine: seq<Rating>): (m: map<int, int>)
    ensures forall id :: id in m <==> exists j | 0 <= j < |mine| :: mine[j].storeId == id
  {
    if |mine| == 0 then map[]
    else
      var rest := RatingMap(mine[1..]);
      assert forall j | 1 <= j < |mine| :: mine[j] == mine[1..][j - 1];
      if mine[0].storeId in rest then rest else rest[mine[0].storeId := mine[0].value]
  }

  /** The map keeps, for each store, the value of the last row naming it. */
  lemma {:induction false} RatingMapLastWins(mine: seq<Rating>, k: int)
    requires 0 <= k < |mine|
    requires forall j | k < j < |mine| :: mine[j].storeId != mine[k].storeId
    ensures mine[k].storeId in RatingMap(mine) && RatingMap(mine)[mine[k].storeId] == mine[k].value
  {
    var rest := RatingMap(mine[1..]);
    if k == 0 {
      assert forall j | 0 <= j < |mine| - 1 :: mine[1..][j].storeId != mine[0].storeId by {
        forall j | 0 <= j < |mine| - 1 ensures mine[1..][j].storeId != mine[0].storeId {
          assert mine[1..][j] == mine[j + 1];
        }
      }
      assert mine[0].storeId !in rest;
    } else {
      forall j | k - 1 < j < |mine| - 1 ensures mine[1..][j].storeId != mine[1..][k - 1].storeId {
        assert mine[1..][j] == mine[j + 1];
      }
      RatingMapLastWins(mine[1..], k - 1);
      assert mine[1..][k - 1] == mine[k];
    }
  }

  /** The caller has an entry for a store exactly when one of the caller's rows names it. */
  lemma RatingMapHasRatedStores(ratings: seq<Rating>, userId: int, storeId: int)
    ensures storeId in RatingMap(RatingsBy(ratings, userId)) <==>
      exists k | 0 <= k < |ratings| :: IsKey(ratings[k], userId, storeId)
  {
    var mine := RatingsBy(ratings, userId);
    if exists k | 0 <= k < |ratings| :: IsKey(ratings[k], userId, storeId) {
      var k :| 0 <= k < |ratings| && IsKey(ratings[k], userId, storeId);
      assert ratings[k] in mine;
      var j :| 0 <= j < |mine| && mine[j] == ratings[k];
      assert mine[j].storeId == storeId;
    }
    if storeId in RatingMap(mine) {
      var j :| 0 <= j < |mine| && mine[j].storeId == storeId;
      assert mine[j] in ratings && mine[j].userId == userId;
      var k :| 0 <= k < |ratings| && ratings[k] == mine[j];
      assert IsKey(ratings[k], userId, storeId);
    }
  }

  /** With one rating per (user, store) pair, the caller's entry for a store is
      the value of the caller's rating of that store. */
  lemma {:induction false} RatingMapHoldsTheValue(ratings: seq<Rating>, userId: int, storeId: int, k: int)
    requires KeysUnique(ratings)
    requires 0 <= k < |ratings| && IsKey(ratings[k], userId, storeId)
    ensures storeId in RatingMap(RatingsBy(ratings, userId))
    ensures RatingMap(RatingsBy(ratings, userId))[storeId] == ratings[k].value
  {
    var first, tail := ratings[0], ratings[1..];
    var rest := RatingMap(RatingsBy(tail, userId));
    RatingsByFirst(ratings, userId);
    var mine := RatingsBy(ratings, userId);
    assert first.userId == userId ==> mine[0] == first && mine[1..] == RatingsBy(tail, userId);
    assert first.userId != userId ==> mine == RatingsBy(tail, userId);
    if k == 0 {
      assert forall j | 0 <= j < |tail| :: !IsKey(tail[j], userId, storeId) by {
        forall j | 0 <= j < |tail| ensures !IsKey(tail[j], userId, storeId) {
          assert tail[j] == ratings[j + 1];
        }
      }
      RatingMapHasRatedStores(tail, userId, storeId);
      assert storeId !in rest;
    } else {
      assert KeysUnique(tail) by {
        forall i, j | 0 <= i < j < |tail| ensures !IsKey(tail[j], tail[i].userId, tail[i].storeId) {
          assert tail[i] == ratings[i + 1] && tail[j] == ratings[j + 1];
        }
      }
      assert tail[k - 1] == ratings[k];
      RatingMapHoldsTheValue(tail, userId, storeId, k - 1);
      assert !IsKey(ratings[k], first.userId, first.storeId);
    }
  }

  /** With one rating per (user, store) pair, the caller's entry for a store
      is the value of the caller's rating of that store. */
  lemma RatingMapIsTheRating(ratings: seq<Rating>, userId: int, storeId: int)
    ensures KeysUnique(ratings) ==>
      forall k | 0 <= k < |ratings| && IsKey(ratings[k], userId, storeId) ::
        storeId in RatingMap(RatingsBy(ratings, userId)) && RatingMap(RatingsBy(ratings, userId))[storeId] == ratings[k].value
  {
    if KeysUnique(ratings) {
      forall k | 0 <= k < |ratings| && IsKey(ratings[k], userId, storeId)
        ensures storeId in RatingMap(RatingsBy(ratings, userId)) && RatingMap(RatingsBy(ratings, userId))[storeId] == ratings[k].value
      {
        RatingMapHoldsTheValue(ratings, userId, storeId, k);
      }
    }
  }

  /** `map.get(s.id) ?? null`: the caller's rating of a store, or null when the
      caller has not rated it; with one rating per pair, it is that rating's value. */
  function MyRating(ratings: seq<Rating>, userId: int, storeId: int): (mine: Option<int>)
    ensures mine.None? <==> forall k | 0 <= k < |ratings| :: !IsKey(ratings[k], userId, storeId)
    ensures KeysUnique(ratings) ==>
      forall k | 0 <= k < |ratings| && IsKey(ratings[k], userId, storeId) :: mine == Some(ratings[k].value)
  {
    RatingMapHasRatedStores(ratings, userId, storeId);
    RatingMapIsTheRating(ratings, userId, storeId);
    var m := RatingMap(RatingsBy(ratings, userId));
    if storeId in m then Some(m[storeId]) else None
  }

  /** One entry of the store search. */
  datatype StoreListing = StoreListing(id: int, name: string, address: string, overallRating: Option<real>, myRating: Option<int>)

  /** What the store search asks of a store: its name contains `q` and its
      address contains `address`, ignoring letter case, for each parameter given. */
  predicate MatchesSearch(q: Query, s: Store)
  {
    && (Given(q, "q") ==> ContainsInsensitive(s.name, q["q"]))
    && (Given(q, "address") ==> ContainsInsensitive(s.address, q["address"]))
  }

  /** The stores the search's `where` keeps, in table order: the ordering by
      the arguments' `sortBy` and direction is the database's and is not modelled. */
  function SearchStores(stores: seq<Store>, q: Query): (found: seq<Store>)
    ensures |found| <= |stores|
    ensures forall k | 0 <= k < |found| :: found[k] in stores && MatchesSearch(q, found[k])
    ensures forall s | s in stores && MatchesSearch(q, s) :: s in found
  {
    var found := Select(stores, (s: Store) => Satisfies(StoreSearchArgs(q).where, StoreColumns(s)));
    assert forall s: Store :: Satisfies(StoreSearchArgs(q).where, StoreColumns(s)) <==> MatchesSearch(q, s) by {
      forall s: Store ensures Satisfies(StoreSearchArgs(q).where, StoreColumns(s)) <==> MatchesSearch(q, s) {
        StoreSearchFiltersSelect(q, s);
      }
    }
    found
  }

  /** `GET /stores`: one entry per store the search keeps, carrying its id,
      name and address, its overall average over all users' ratings, and the
      caller's own rating. */
  function ListStores(stores: seq<Store>, ratings: seq<Rating>, userId: int, q: Query): (data: seq<StoreListing>)
    ensures |data| == |SearchStores(stores, q)| <= |stores|
    ensures forall k | 0 <= k < |data| :: var s := SearchStores(stores, q)[k];
      data[k].id == s.id && data[k].name == s.name && data[k].address == s.address
    ensures forall k | 0 <= k < |data| ::
      && data[k].overallRating == StoreAverage(ratings, data[k].id)
      && data[k].myRating == MyRating(ratings, userId, data[k].id)
  {
    var found := SearchStores(stores, q);
    seq(|found|, k requires 0 <= k < |found| =>
      StoreListing(found[k].id, found[k].name, found[k].address,
                   StoreAverage(ratings, found[k].id), MyRating(ratings, userId, found[k].id)))
  }

  /** Every entry of the search is a store of the table that matches the search. */
  lemma ListStoresOnlyMatches(stores: seq<Store>, ratings: seq<Rating>, userId: int, q: Query, k: int)
    requires 0 <= k < |ListStores(stores, ratings, userId, q)|
    ensures var e := ListStores(stores, ratings, userId, q)[k];
      exists s | s in stores :: s.id == e.id && s.name == e.name && s.address == e.address && MatchesSearch(q, s)
  {
    var found := SearchStores(stores, q);
    assert found[k] in found;
    StoreSearchFiltersSelect(q, found[k]);
  }

  /** Every store of the table that matches the search is listed. */
  lemma ListStoresShowsEveryMatch(stores: seq<Store>, ratings: seq<Rating>, userId: int, q: Query, s: Store)
    requires s in stores && MatchesSearch(q, s)
    ensures exists k | 0 <= k < |ListStores(stores, ratings, userId, q)| ::
      ListStores(stores, ratings, userId, q)[k].id == s.id
  {
    StoreSearchFiltersSelect(q, s);
    var found := SearchStores(stores, q);
    assert s in found;
    var k :| 0 <= k < |found| && found[k] == s;
    assert ListStores(stores, ratings, userId, q)[k].id == s.id;
  }

  /** With every stored rating between 1 and 5, every overall average shown is
      null or between 1 and 5, and so is every rating of the caller's. */
  lemma ListStoresInRange(stores: seq<Store>, ratings: seq<Rating>, userId: int, q: Query)
    requires ValuesInRange(ratings)
    ensures forall e | e in ListStores(stores, ratings, userId, q) ::
      && (e.overallRating.Some? ==> 1.0 <= e.overallRating.value <= 5.0)
      && (e.myRating.Some? ==> 1 <= e.myRating.value <= 5)
  {
    var data := ListStores(stores, ratings, userId, q);
    forall e | e in data
      ensures e.myRating.Some? ==> 1 <= e.myRating.value <= 5
    {
      RatingMapInRange(ratings, userId, e.id);
    }
  }

  lemma RatingMapInRange(ratings: seq<Rating>, userId: int, storeId: int)
    requires ValuesInRange(ratings)
    ensures storeId in RatingMap(RatingsBy(ratings, userId)) ==> 1 <= RatingMap(RatingsBy(ratings, userId))[storeId] <= 5
  {
    var mine := RatingsBy(ratings, userId);
    if storeId in RatingMap(mine) {
      RatingMapValueIsARow(mine, storeId);
      var j :| 0 <= j < |mine| && mine[j].storeId == storeId && mine[j].value == RatingMap(mine)[storeId];
      assert mine[j] in ratings;
      var k :| 0 <= k < |ratings| && ratings[k] == mine[j];
    }
  }

  /** Every value in the map is the value of a row naming that store. */
  lemma {:induction false} RatingMapValueIsARow(mine: seq<Rating>, id: int)
    requires id in RatingMap(mine)
    ensures exists j | 0 <= j < |mine| :: mine[j].storeId == id && mine[j].value == RatingMap(mine)[id]
  {
    var rest := RatingMap(mine[1..]);
    if id in rest {
      RatingMapValueIsARow(mine[1..], id);
      var j :| 0 <= j < |mine| - 1 && mine[1..][j].storeId == id && mine[1..][j].value == rest[id];
      assert mine[j + 1] == mine[1..][j];
    } else {
      assert mine[0].storeId == id;
    }
  }

  // ---------------------------------------------------------------------------
  // POST /stores/:id/ratings

  /** `POST /stores/:id/ratings`: a value that is not an integer from 1 to 5 is
      refused with 400 and nothing is written; otherwise the caller's rating of
      the store becomes the value, updating the existing row or adding one. A
      store id that is not an integer, or a user or store that does not exist,
      makes the write fail unhandled and leaves the table as it was. */
  method SubmitRating(db: Database, userId: int, storeParam: JsNumber, input: JsNumber)
    returns (res: Result<Rating, Failure>)
    requires db.Valid()
    modifies db
    ensures db.Valid()
    ensures db.users == old(db.users) && db.stores == old(db.stores)
    ensures ParseRating(input).Err? ==> res == Err(BadRequest(ParseRating(input).error))
    ensures ParseRating(input).Ok? && IdParam(storeParam).None? ==> res == Err(Unhandled)
    ensures res.Err? ==> db.ratings == old(db.ratings) && db.nextRatingId == old(db.nextRatingId)
    ensures res.Ok? ==>
      && ParseRating(input).Ok? && IdParam(storeParam).Some?
      && db.ratings == Upsert(old(db.ratings), old(db.nextRatingId), userId, IdParam(storeParam).value, ParseRating(input).value)
      && res.value in db.ratings
      && res.value.userId == userId && res.value.storeId == IdParam(storeParam).value
      && res.value.value == ParseRating(input).value
    ensures ParseRating(input).Ok? && IdParam(storeParam).Some? ==>
      (res == Err(Unhandled) <==>
        && RatingWithKey(old(db.ratings), userId, IdParam(storeParam).value).None?
        && (UserWithId(old(db.users), userId).None? || StoreWithId(old(db.stores), IdParam(storeParam).value).None?))
    ensures res.Ok? <==>
      && ParseRating(input).Ok? && IdParam(storeParam).Some?
      && (|| RatingWithKey(old(db.ratings), userId, IdParam(storeParam).value).Some?
          || (UserWithId(old(db.users), userId).Some? && StoreWithId(old(db.stores), IdParam(storeParam).value).Some?))
    ensures db.nextUserId == old(db.nextUserId) && db.nextStoreId == old(db.nextStoreId)
    ensures res.Ok? ==>
      db.nextRatingId == old(db.nextRatingId) + (if RatingWithKey(old(db.ratings), userId, IdParam(storeParam).value).Some? then 0 else 1)
  {
    var parsed := ParseRating(input);
    if parsed.Err? {
      return Err(BadRequest(parsed.error));
    }
    var value := parsed.value;
    var sid := IdParam(storeParam);
    if sid.None? {
      return Err(Unhandled);
    }
    var storeId := sid.value;
    var existing := RatingWithKey(db.ratings, userId, storeId);
    if existing.Some? {
      var i := existing.value;
      RatingIdFindsRow(db.ratings, i);
      var updated := db.SetRatingValue(db.ratings[i].id, value);
      res := Ok(updated.value);
    } else {
      var created := db.CreateRating(userId, storeId, value);
      if created.Err? {
        return Err(Unhandled);
      }
      res := Ok(created.value);
    }
  }

  /** With distinct row ids, looking a row up by its id finds that row. */
  lemma RatingIdFindsRow(ratings: seq<Rating>, i: nat)
    requires IdsUnique(ratings) && i < |ratings|
    ensures RatingWithId(ratings, ratings[i].id) == Some(i)
  {
  }

  /** After a successful submission the caller's rating of the store, as the
      store search shows it, is the submitted value. */
  lemma SubmissionIsShown(ratings: seq<Rating>, freshId: int, userId: int, storeId: int, value: int)
    requires KeysUnique(ratings)
    ensures MyRating(Upsert(ratings, freshId, userId, storeId, value), userId, storeId) == Some(value)
  {
    UpsertLeavesOneRating(ratings, freshId, userId, storeId, value);
  }
}
