/** The rating ledger. Its write rule: a submission is an upsert keyed by the
    (user, store) pair; `Upsert` is the table a submission leaves behind, and
    the lemmas below are the ledger's guarantees about it. Its read rule: every
    average is recomputed from the current rows, null when there are none. */
module Ledger {
  import opened Common
  import opened Tables
  import opened Aggregates

  /** The rating table after `userId` submits `value` for `storeId`. A
      resubmission keeps the row (its position, id, user and store) and changes
      only its value; a first submission adds one row with the fresh id at the
      end. Every rating of another pair stays as it was, in the same position. */
  function Upsert(ratings: seq<Rating>, freshId: int, userId: int, storeId: int, value: int): (after: seq<Rating>)
    ensures RatingWithKey(ratings, userId, storeId).Some? ==>
      var i := RatingWithKey(ratings, userId, storeId).value;
      && |after| == |ratings|
      && after[i] == Rating(ratings[i].id, userId, storeId, value)
    ensures RatingWithKey(ratings, userId, storeId).None? ==>
      && |after| == |ratings| + 1
      && after[|ratings|] == Rating(freshId, userId, storeId, value)
    ensures forall j | 0 <= j < |ratings| && !IsKey(ratings[j], userId, storeId) :: after[j] == ratings[j]
  {
    match RatingWithKey(ratings, userId, storeId)
    case Some(i) => ratings[i := ratings[i].(value := value)]
    case None => ratings + [Rating(freshId, userId, storeId, value)]
  }

  /** After a submission the pair has exactly one rating, holding the submitted
      value, and the table still has at most one rating per pair. */
  lemma UpsertLeavesOneRating(ratings: seq<Rating>, freshId: int, userId: int, storeId: int, value: int)
    requires KeysUnique(ratings)
    ensures var after := Upsert(ratings, freshId, userId, storeId, value);
      && KeysUnique(after)
      && RatingWithKey(after, userId, storeId).Some?
      && after[RatingWithKey(after, userId, storeId).value].value == value
      && forall j | 0 <= j < |after| && j != RatingWithKey(after, userId, storeId).value :: !IsKey(after[j], userId, storeId)
  {
    var after := Upsert(ratings, freshId, userId, storeId, value);
    var n := |ratings|;
    match RatingWithKey(ratings, userId, storeId)
    case Some(i) =>
      assert forall k | 0 <= k < n :: IsKey(after[k], ratings[k].userId, ratings[k].storeId);
      assert IsKey(after[i], userId, storeId);
      assert forall j | 0 <= j < n && j != i :: !IsKey(ratings[j], userId, storeId);
      assert RatingWithKey(after, userId, storeId) == Some(i);
    case None =>
      assert forall k | 0 <= k < n :: after[k] == ratings[k];
      assert forall k | 0 <= k < n :: !IsKey(ratings[k], userId, storeId);
      assert IsKey(after[n], userId, storeId);
      assert RatingWithKey(after, userId, storeId) == Some(n);
      forall i, j | 0 <= i < j < |after| ensures !IsKey(after[j], after[i].userId, after[i].storeId) {
        if j < n { assert after[i] == ratings[i] && after[j] == ratings[j]; }
      }
  }

  /** The table grows by one row exactly when the pair had no rating before. */
  lemma UpsertGrowsIffNew(ratings: seq<Rating>, freshId: int, userId: int, storeId: int, value: int)
    ensures |Upsert(ratings, freshId, userId, storeId, value)| == |ratings| + 1 <==>
      forall j | 0 <= j < |ratings| :: !IsKey(ratings[j], userId, storeId)
    ensures |Upsert(ratings, freshId, userId, storeId, value)| == |ratings| <==>
      exists j | 0 <= j < |ratings| :: IsKey(ratings[j], userId, storeId)
  {
    var found := RatingWithKey(ratings, userId, storeId);
    if found.Some? {
      assert IsKey(ratings[found.value], userId, storeId);
    }
  }

  /** Two submissions by the same user for the same store leave the table the
      second alone would have: the later value wins, and the row id of the
      first submission is kept. */
  lemma {:induction false} SecondSubmissionWins(ratings: seq<Rating>, id1: int, id2: int, userId: int, storeId: int, v1: int, v2: int)
    ensures Upsert(Upsert(ratings, id1, userId, storeId, v1), id2, userId, storeId, v2)
         == Upsert(ratings, id1, userId, storeId, v2)
  {
    var once := Upsert(ratings, id1, userId, storeId, v1);
    var n := |ratings|;
    match RatingWithKey(ratings, userId, storeId)
    case Some(i) =>
      assert forall k | 0 <= k < n :: IsKey(once[k], userId, storeId) == IsKey(ratings[k], userId, storeId);
      assert RatingWithKey(once, userId, storeId) == Some(i);
    case None =>
      assert forall k | 0 <= k < n :: once[k] == ratings[k];
      assert IsKey(once[n], userId, storeId);
      assert RatingWithKey(once, userId, storeId) == Some(n);
      assert once[n := once[n].(value := v2)] == ratings + [Rating(id1, userId, storeId, v2)];
  }

  /** A submission keeps row ids distinct when the fresh id is larger than every existing one. */
  lemma UpsertKeepsIdsUnique(ratings: seq<Rating>, freshId: int, userId: int, storeId: int, value: int)
    requires IdsUnique(ratings)
    requires forall k | 0 <= k < |ratings| :: ratings[k].id < freshId
    ensures IdsUnique(Upsert(ratings, freshId, userId, storeId, value))
  {
    var after := Upsert(ratings, freshId, userId, storeId, value);
    var n := |ratings|;
    if RatingWithKey(ratings, userId, storeId).None? {
      forall i, j | 0 <= i < j < |after| ensures after[i].id != after[j].id {
        assert after[i] == ratings[i];
        if j < n { assert after[j] == ratings[j]; }
      }
    }
  }

  // ---------------------------------------------------------------------------
  // Averages read from the table

  /** A store has no ratings exactly when no row names it. */
  lemma {:induction false} RatingsOfEmpty(ratings: seq<Rating>, storeId: int)
    ensures RatingsOf(ratings, storeId) == [] <==> forall k | 0 <= k < |ratings| :: ratings[k].storeId != storeId
  {
    if |ratings| > 0 {
      RatingsOfEmpty(ratings[1..], storeId);
      assert forall k | 1 <= k < |ratings| :: ratings[k] == ratings[1..][k - 1];
    }
  }

  /** Every value read from a table whose values are 1 to 5 is 1 to 5. */
  lemma {:induction false} ValuesForWithin(ratings: seq<Rating>, storeId: int)
    requires ValuesInRange(ratings)
    ensures AllWithin(ValuesFor(ratings, storeId), 1, 5)
  {
    if |ratings| > 0 {
      ValuesForWithin(ratings[1..], storeId);
      var rs, tail := RatingsOf(ratings, storeId), RatingsOf(ratings[1..], storeId);
      assert rs == (if ratings[0].storeId == storeId then [ratings[0]] else []) + tail;
      forall k | 0 <= k < |rs| ensures 1 <= rs[k].value <= 5 {
        if ratings[0].storeId == storeId && k > 0 {
          assert rs[k] == tail[k - 1];
          assert ValuesFor(ratings[1..], storeId)[k - 1] == tail[k - 1].value;
        } else if ratings[0].storeId != storeId {
          assert rs[k] == tail[k];
          assert ValuesFor(ratings[1..], storeId)[k] == tail[k].value;
        }
      }
    }
  }

  /** A store's average rating: null exactly when nobody has rated the store,
      otherwise the mean of its ratings, and between 1 and 5 when every stored
      value is. */
  function StoreAverage(ratings: seq<Rating>, storeId: int): (avg: Option<real>)
    ensures avg.None? <==> forall k | 0 <= k < |ratings| :: ratings[k].storeId != storeId
    ensures avg.Some? ==>
      avg.value * (|RatingsOf(ratings, storeId)| as real) == Sum(ValuesFor(ratings, storeId)) as real
    ensures avg.Some? && ValuesInRange(ratings) ==> 1.0 <= avg.value <= 5.0
  {
    var vs := ValuesFor(ratings, storeId);
    assert |vs| == |RatingsOf(ratings, storeId)|;
    StoreAverageFacts(ratings, storeId);
    Average(vs)
  }

  lemma StoreAverageFacts(ratings: seq<Rating>, storeId: int)
    ensures var avg := Average(ValuesFor(ratings, storeId));
      && (avg.None? <==> forall k | 0 <= k < |ratings| :: ratings[k].storeId != storeId)
      && (avg.Some? && ValuesInRange(ratings) ==> 1.0 <= avg.value <= 5.0)
  {
    RatingsOfEmpty(ratings, storeId);
    var vs := ValuesFor(ratings, storeId);
    if vs != [] && ValuesInRange(ratings) {
      ValuesForWithin(ratings, storeId);
      AverageWithin(vs, 1, 5);
    }
  }

  /** The stores an account owns. */
  function OwnedStores(stores: seq<Store>, ownerId: int): (owned: seq<Store>)
    ensures forall s :: s in owned <==> s in stores && s.ownerId == Some(ownerId)
  {
    Select(stores, (s: Store) => s.ownerId == Some(ownerId))
  }

  /** The rating values of each owned store, one list per store. */
  function OwnedValueLists(stores: seq<Store>, ratings: seq<Rating>, ownerId: int): (lists: seq<seq<int>>)
    ensures |lists| == |OwnedStores(stores, ownerId)|
    ensures forall i | 0 <= i < |lists| :: lists[i] == ValuesFor(ratings, OwnedStores(stores, ownerId)[i].id)
  {
    var owned := OwnedStores(stores, ownerId);
    seq(|owned|, i requires 0 <= i < |owned| => ValuesFor(ratings, owned[i].id))
  }

  /** `ownerStores.flatMap(s => s.ratings.map(r => r.value))`. */
  function PortfolioValues(stores: seq<Store>, ratings: seq<Rating>, ownerId: int): seq<int>
  {
    Flatten(OwnedValueLists(stores, ratings, ownerId))
  }

  /** An owner's portfolio average: the mean of all ratings of all the stores the
      account owns, pooled together; null exactly when none of those stores has
      a rating; between 1 and 5 when every stored value is. */
  function PortfolioAverage(stores: seq<Store>, ratings: seq<Rating>, ownerId: int): (avg: Option<real>)
    ensures avg.None? <==>
      forall i, k | 0 <= i < |stores| && 0 <= k < |ratings| :: stores[i].ownerId == Some(ownerId) ==> ratings[k].storeId != stores[i].id
    ensures avg.Some? && ValuesInRange(ratings) ==> 1.0 <= avg.value <= 5.0
  {
    PortfolioEmpty(stores, ratings, ownerId);
    PortfolioWithin(stores, ratings, ownerId);
    Average(PortfolioValues(stores, ratings, ownerId))
  }

  lemma PortfolioWithin(stores: seq<Store>, ratings: seq<Rating>, ownerId: int)
    ensures var avg := Average(PortfolioValues(stores, ratings, ownerId));
      avg.Some? && ValuesInRange(ratings) ==> 1.0 <= avg.value <= 5.0
  {
    var lists := OwnedValueLists(stores, ratings, ownerId);
    if ValuesInRange(ratings) && Flatten(lists) != [] {
      AverageOfFlatten(lists);
      forall i | 0 <= i < |lists| ensures AllWithin(lists[i], 1, 5) {
        ValuesForWithin(ratings, OwnedStores(stores, ownerId)[i].id);
      }
      AverageOfFlattenWithin(lists, 1, 5);
    }
  }

  lemma PortfolioEmpty(stores: seq<Store>, ratings: seq<Rating>, ownerId: int)
    ensures Average(PortfolioValues(stores, ratings, ownerId)).None? <==>
      forall i, k | 0 <= i < |stores| && 0 <= k < |ratings| :: stores[i].ownerId == Some(ownerId) ==> ratings[k].storeId != stores[i].id
  {
    var owned := OwnedStores(stores, ownerId);
    var lists := OwnedValueLists(stores, ratings, ownerId);
    AverageOfFlatten(lists);
    forall i | 0 <= i < |owned| {
      RatingsOfEmpty(ratings, owned[i].id);
    }
    if forall i | 0 <= i < |lists| :: lists[i] == [] {
      forall i, k | 0 <= i < |stores| && 0 <= k < |ratings| && stores[i].ownerId == Some(ownerId)
        ensures ratings[k].storeId != stores[i].id
      {
        assert stores[i] in owned;
        var j :| 0 <= j < |owned| && owned[j] == stores[i];
        assert lists[j] == [];
      }
    } else {
      var j :| 0 <= j < |lists| && lists[j] != [];
      assert owned[j] in owned;
      var i :| 0 <= i < |stores| && stores[i] == owned[j];
    }
  }

  /** An owner's average is null exactly when every store the owner has is unrated. */
  lemma PortfolioNullIffStoresUnrated(stores: seq<Store>, ratings: seq<Rating>, ownerId: int)
    ensures PortfolioAverage(stores, ratings, ownerId).None? <==>
      forall s | s in stores && s.ownerId == Some(ownerId) :: StoreAverage(ratings, s.id).None?
  {
    if forall s | s in stores && s.ownerId == Some(ownerId) :: StoreAverage(ratings, s.id).None? {
      forall i, k | 0 <= i < |stores| && 0 <= k < |ratings| && stores[i].ownerId == Some(ownerId)
        ensures ratings[k].storeId != stores[i].id
      {
        assert StoreAverage(ratings, stores[i].id).None?;
      }
    } else {
      var s :| s in stores && s.ownerId == Some(ownerId) && StoreAverage(ratings, s.id).Some?;
      var i :| 0 <= i < |stores| && stores[i] == s;
      var k :| 0 <= k < |ratings| && ratings[k].storeId == s.id;
    }
  }
}
