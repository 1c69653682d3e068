/** The three tables the routes read and write (users, stores, ratings), kept
    in memory, and the database client the routes share. The client's methods
    are the writes the routes issue (`create`, `update`); each enforces the
    constraints the relational schema implies: unique user and store emails,
    one rating per (user, store), and references from stores and ratings to
    existing rows. Row ids come from per-table counters. */
module Tables {
  import opened Common

  // ---------------------------------------------------------------------------
  // Password hashes

  /** A bcrypt hash, modelled as an ideal salted one-way function: the salt is
      the hash call's randomness and `Verify` is the only thing that looks at
      the secret. */
  datatype PasswordHash = Bcrypt(salt: nat, secret: string)

  /** `bcrypt.hash(plain, 10)`, with the random salt as a parameter. */
  function Hash(plain: string, salt: nat): (h: PasswordHash)
    ensures Verify(plain, h)
    ensures forall other: string :: other != plain ==> !Verify(other, h)
  {
    Bcrypt(salt, plain)
  }

  /** `bcrypt.compare(plain, hash)`: hashing the candidate again under the salt
      stored in the hash gives back the same hash. */
  predicate Verify(plain: string, h: PasswordHash): (ok: bool)
    ensures ok <==> h == Bcrypt(h.salt, plain)
  {
    h.secret == plain
  }

  /** `compare` accepts a password exactly when hashing it again under the salt
      stored in the hash reproduces the hash. */
  lemma CompareRehashes(plain: string, h: PasswordHash)
    ensures Verify(plain, h) <==> h == Hash(plain, h.salt)
  {
  }

  // ---------------------------------------------------------------------------
  // Rows

  datatype User = User(id: int, name: string, email: string, address: string, passwordHash: PasswordHash, role: Role)

  datatype Store = Store(id: int, name: string, email: string, address: string, ownerId: Option<int>)

  datatype Rating = Rating(id: int, userId: int, storeId: int, value: int)

  // ---------------------------------------------------------------------------
  // Queries over a table

  /** The rows a `where` condition keeps, in table order. */
  function Select<T(!new)>(s: seq<T>, p: T -> bool): (r: seq<T>)
    ensures |r| <= |s|
    ensures forall x :: x in r <==> x in s && p(x)
    ensures forall k | 0 <= k < |r| :: p(r[k])
  {
    if |s| == 0 then []
    else (if p(s[0]) then [s[0]] else []) + Select(s[1..], p)
  }

  /** `findUnique` / `findFirst`: the position of the first row the condition holds for. */
  function Find<T>(s: seq<T>, p: T -> bool): (r: Option<nat>)
    ensures r.None? <==> forall i | 0 <= i < |s| :: !p(s[i])
    ensures r.Some? ==> r.value < |s| && p(s[r.value]) && forall j | 0 <= j < r.value :: !p(s[j])
  {
    if |s| == 0 then None
    else if p(s[0]) then Some(0)
    else
      var rest := Find(s[1..], p);
      assert forall i | 1 <= i < |s| :: s[i] == s[1..][i - 1];
      match rest
      case None => None
      case Some(k) => Some(k + 1)
  }

  /** `findUnique({ where: { email } })`: the position of the account with the
      email, or none when no account has it. */
  function UserWithEmail(users: seq<User>, email: string): (found: Option<nat>)
    ensures found.None? <==> forall i | 0 <= i < |users| :: users[i].email != email
    ensures found.Some? ==> found.value < |users| && users[found.value].email == email
  {
    Find(users, (u: User) => u.email == email)
  }

  /** `findUnique({ where: { id } })`: the position of the user with the id,
      or none when no user has it. */
  function UserWithId(users: seq<User>, id: int): (found: Option<nat>)
    ensures found.None? <==> forall i | 0 <= i < |users| :: users[i].id != id
    ensures found.Some? ==> found.value < |users| && users[found.value].id == id
  {
    Find(users, (u: User) => u.id == id)
  }

  function StoreWithId(stores: seq<Store>, id: int): Option<nat>
  {
    Find(stores, (s: Store) => s.id == id)
  }

  function StoreWithEmail(stores: seq<Store>, email: string): Option<nat>
  {
    Find(stores, (s: Store) => s.email == email)
  }

  predicate IsKey(r: Rating, userId: int, storeId: int)
  {
    r.userId == userId && r.storeId == storeId
  }

  /** `findUnique({ where: { userId_storeId: { userId, storeId } } })`: the
      position of the pair's rating, or none when the user has not rated the store. */
  function RatingWithKey(ratings: seq<Rating>, userId: int, storeId: int): (found: Option<nat>)
    ensures found.None? <==> forall k | 0 <= k < |ratings| :: !IsKey(ratings[k], userId, storeId)
    ensures found.Some? ==> found.value < |ratings| && IsKey(ratings[found.value], userId, storeId)
  {
    Find(ratings, (r: Rating) => IsKey(r, userId, storeId))
  }

  function RatingWithId(ratings: seq<Rating>, id: int): Option<nat>
  {
    Find(ratings, (r: Rating) => r.id == id)
  }

  /** The values of a store's ratings: what `include: { ratings: { select: { value: true } } }` gives. */
  function ValuesFor(ratings: seq<Rating>, storeId: int): (vs: seq<int>)
    ensures |vs| == |RatingsOf(ratings, storeId)|
    ensures forall k | 0 <= k < |vs| :: vs[k] == RatingsOf(ratings, storeId)[k].value
  {
    var rs := RatingsOf(ratings, storeId);
    seq(|rs|, k requires 0 <= k < |rs| => rs[k].value)
  }

  /** A store's ratings (the `ratings` relation of a store row): rows of the
      table, each naming the store. */
  function RatingsOf(ratings: seq<Rating>, storeId: int): (rs: seq<Rating>)
    ensures |rs| <= |ratings|
    ensures forall k | 0 <= k < |rs| :: rs[k].storeId == storeId
  {
    Select(ratings, (r: Rating) => r.storeId == storeId)
  }

  /** A store's ratings are the rows that name the store, and no others. */
  lemma RatingsOfNamesTheStore(ratings: seq<Rating>, storeId: int)
    ensures forall r :: r in RatingsOf(ratings, storeId) <==> r in ratings && r.storeId == storeId
  {
  }

  // ---------------------------------------------------------------------------
  // Table constraints

  predicate UsersValid(users: seq<User>, nextId: int)
  {
    && 0 < nextId
    && (forall i | 0 <= i < |users| :: 0 < users[i].id < nextId)
    && (forall i, j | 0 <= i < j < |users| :: users[i].id != users[j].id && users[i].email != users[j].email)
  }

  predicate StoresValid(stores: seq<Store>, users: seq<User>, nextId: int)
  {
    && 0 < nextId
    && (forall i | 0 <= i < |stores| :: 0 < stores[i].id < nextId)
    && (forall i, j | 0 <= i < j < |stores| :: stores[i].id != stores[j].id && stores[i].email != stores[j].email)
    && (forall i | 0 <= i < |stores| :: stores[i].ownerId.Some? ==> UserWithId(users, stores[i].ownerId.value).Some?)
  }

  /** At most one rating per (user, store) pair. */
  predicate KeysUnique(ratings: seq<Rating>)
  {
    forall i, j | 0 <= i < j < |ratings| :: !IsKey(ratings[j], ratings[i].userId, ratings[i].storeId)
  }

  predicate IdsUnique(ratings: seq<Rating>)
  {
    forall i, j | 0 <= i < j < |ratings| :: ratings[i].id != ratings[j].id
  }

  predicate ValuesInRange(ratings: seq<Rating>)
  {
    forall i | 0 <= i < |ratings| :: 1 <= ratings[i].value <= 5
  }

  predicate RatingsValid(ratings: seq<Rating>, users: seq<User>, stores: seq<Store>, nextId: int)
  {
    && 0 < nextId
    && (forall i | 0 <= i < |ratings| :: 0 < ratings[i].id < nextId)
    && IdsUnique(ratings)
    && KeysUnique(ratings)
    && ValuesInRange(ratings)
    && (forall i | 0 <= i < |ratings| :: UserWithId(users, ratings[i].userId).Some?)
    && (forall i | 0 <= i < |ratings| :: StoreWithId(stores, ratings[i].storeId).Some?)
  }

  /** Why the database refuses a write. */
  datatype DbError = UniqueViolation | ForeignKeyViolation | RecordNotFound

  // ---------------------------------------------------------------------------
  // The shared database client

  class Database {
    var users: seq<User>
    var stores: seq<Store>
    var ratings: seq<Rating>
    var nextUserId: int
    var nextStoreId: int
    var nextRatingId: int

    ghost predicate Valid()
      reads this
    {
      && UsersValid(users, nextUserId)
      && StoresValid(stores, users, nextStoreId)
      && RatingsValid(ratings, users, stores, nextRatingId)
    }

    constructor ()
      ensures Valid()
      ensures users == [] && stores == [] && ratings == []
    {
      users, stores, ratings := [], [], [];
      nextUserId, nextStoreId, nextRatingId := 1, 1, 1;
    }

    /** `prisma.user.create`: refused when the email is taken. */
    method CreateUser(name: string, email: string, address: string, hash: PasswordHash, role: Role)
      returns (r: Result<User, DbError>)
      requires Valid()
      modifies this
      ensures Valid()
      ensures UserWithEmail(old(users), email).Some? ==>
        r == Err(UniqueViolation) && users == old(users) && nextUserId == old(nextUserId)
      ensures UserWithEmail(old(users), email).None? ==>
        && r == Ok(User(old(nextUserId), name, email, address, hash, role))
        && users == old(users) + [r.value] && nextUserId == old(nextUserId) + 1
      ensures stores == old(stores) && ratings == old(ratings)
      ensures nextStoreId == old(nextStoreId) && nextRatingId == old(nextRatingId)
    {
      if UserWithEmail(users, email).Some? {
        return Err(UniqueViolation);
      }
      var u := User(nextUserId, name, email, address, hash, role);
      ghost var before := users;
      users := users + [u];
      nextUserId := nextUserId + 1;
      UserIdsSurviveAppend(before, u);
      r := Ok(u);
    }

    /** `prisma.user.update({ where: { id }, data: { passwordHash } })`. */
    method SetPasswordHash(id: int, hash: PasswordHash) returns (r: Result<User, DbError>)
      requires Valid()
      modifies this
      ensures Valid()
      ensures UserWithId(old(users), id).None? ==> r == Err(RecordNotFound) && users == old(users)
      ensures UserWithId(old(users), id).Some? ==>
        var i := UserWithId(old(users), id).value;
        && users == old(users)[i := old(users)[i].(passwordHash := hash)]
        && r == Ok(users[i])
      ensures stores == old(stores) && ratings == old(ratings)
      ensures nextUserId == old(nextUserId) && nextStoreId == old(nextStoreId) && nextRatingId == old(nextRatingId)
    {
      var found := UserWithId(users, id);
      if found.None? {
        return Err(RecordNotFound);
      }
      var i := found.value;
      ghost var before := users;
      users := users[i := users[i].(passwordHash := hash)];
      UserIdsSurviveUpdate(before, i, users[i]);
      r := Ok(users[i]);
    }

    /** `prisma.store.create`: refused when the email is taken or the owner does not exist. */
    method CreateStore(name: string, email: string, address: string, ownerId: Option<int>)
      returns (r: Result<Store, DbError>)
      requires Valid()
      modifies this
      ensures Valid()
      ensures r.Err? <==> StoreWithEmail(old(stores), email).Some? || (ownerId.Some? && UserWithId(users, ownerId.value).None?)
      ensures r.Err? ==> stores == old(stores) && nextStoreId == old(nextStoreId)
      ensures r.Ok? ==>
        && r.value == Store(old(nextStoreId), name, email, address, ownerId)
        && stores == old(stores) + [r.value] && nextStoreId == old(nextStoreId) + 1
      ensures users == old(users) && ratings == old(ratings)
      ensures nextUserId == old(nextUserId) && nextRatingId == old(nextRatingId)
    {
      if StoreWithEmail(stores, email).Some? {
        return Err(UniqueViolation);
      }
      if ownerId.Some? && UserWithId(users, ownerId.value).None? {
        return Err(ForeignKeyViolation);
      }
      var s := Store(nextStoreId, name, email, address, ownerId);
      ghost var before := stores;
      stores := stores + [s];
      nextStoreId := nextStoreId + 1;
      StoreIdsSurviveAppend(before, s);
      r := Ok(s);
    }

    /** `prisma.rating.create`: refused when the pair is already rated or the user or store does not exist.
        The only caller validates the value first. */
    method CreateRating(userId: int, storeId: int, value: int) returns (r: Result<Rating, DbError>)
      requires Valid() && 1 <= value <= 5
      modifies this
      ensures Valid()
      ensures r.Err? <==>
        || RatingWithKey(old(ratings), userId, storeId).Some?
        || UserWithId(users, userId).None? || StoreWithId(stores, storeId).None?
      ensures r.Err? ==> ratings == old(ratings) && nextRatingId == old(nextRatingId)
      ensures r.Ok? ==>
        && r.value == Rating(old(nextRatingId), userId, storeId, value)
        && ratings == old(ratings) + [r.value] && nextRatingId == old(nextRatingId) + 1
      ensures users == old(users) && stores == old(stores)
      ensures nextUserId == old(nextUserId) && nextStoreId == old(nextStoreId)
    {
      if RatingWithKey(ratings, userId, storeId).Some? {
        return Err(UniqueViolation);
      }
      if UserWithId(users, userId).None? || StoreWithId(stores, storeId).None? {
        return Err(ForeignKeyViolation);
      }
      var row := Rating(nextRatingId, userId, storeId, value);
      RatingAppendValid(ratings, users, stores, nextRatingId, row);
      ratings := ratings + [row];
      nextRatingId := nextRatingId + 1;
      r := Ok(row);
    }

    /** `prisma.rating.update({ where: { id }, data: { value } })`. */
    method SetRatingValue(id: int, value: int) returns (r: Result<Rating, DbError>)
      requires Valid() && 1 <= value <= 5
      modifies this
      ensures Valid()
      ensures RatingWithId(old(ratings), id).None? ==> r == Err(RecordNotFound) && ratings == old(ratings)
      ensures RatingWithId(old(ratings), id).Some? ==>
        var i := RatingWithId(old(ratings), id).value;
        && ratings == old(ratings)[i := old(ratings)[i].(value := value)]
        && r == Ok(ratings[i])
      ensures users == old(users) && stores == old(stores)
      ensures nextUserId == old(nextUserId) && nextStoreId == old(nextStoreId) && nextRatingId == old(nextRatingId)
    {
      var found := RatingWithId(ratings, id);
      if found.None? {
        return Err(RecordNotFound);
      }
      var i := found.value;
      RatingUpdateValid(ratings, users, stores, nextRatingId, i, value);
      ratings := ratings[i := ratings[i].(value := value)];
      r := Ok(ratings[i]);
    }
  }

  // ---------------------------------------------------------------------------
  // References survive writes to the referenced table

  lemma UserIdsSurviveAppend(users: seq<User>, u: User)
    ensures forall id :: UserWithId(users, id).Some? ==> UserWithId(users + [u], id).Some?
  {
    forall id | UserWithId(users, id).Some? ensures UserWithId(users + [u], id).Some? {
      var i := UserWithId(users, id).value;
      assert (users + [u])[i].id == id;
    }
  }

  lemma UserIdsSurviveUpdate(users: seq<User>, i: nat, u: User)
    requires i < |users| && u.id == users[i].id
    ensures forall id :: UserWithId(users, id).Some? ==> UserWithId(users[i := u], id).Some?
  {
    forall id | UserWithId(users, id).Some? ensures UserWithId(users[i := u], id).Some? {
      var k := UserWithId(users, id).value;
      assert users[i := u][k].id == id;
    }
  }

  lemma StoreIdsSurviveAppend(stores: seq<Store>, s: Store)
    ensures forall id :: StoreWithId(stores, id).Some? ==> StoreWithId(stores + [s], id).Some?
  {
    forall id | StoreWithId(stores, id).Some? ensures StoreWithId(stores + [s], id).Some? {
      var i := StoreWithId(stores, id).value;
      assert (stores + [s])[i].id == id;
    }
  }

  lemma RatingAppendValid(ratings: seq<Rating>, users: seq<User>, stores: seq<Store>, nextId: int, row: Rating)
    requires RatingsValid(ratings, users, stores, nextId)
    requires row.id == nextId && 1 <= row.value <= 5
    requires RatingWithKey(ratings, row.userId, row.storeId).None?
    requires UserWithId(users, row.userId).Some? && StoreWithId(stores, row.storeId).Some?
    ensures RatingsValid(ratings + [row], users, stores, nextId + 1)
  {
    var after := ratings + [row];
    var n := |ratings|;
    assert forall i | 0 <= i < n :: after[i] == ratings[i];
    assert after[n] == row;
    AppendKeepsKeysUnique(ratings, row);
    AppendKeepsIdsUnique(ratings, row);
  }

  lemma AppendKeepsKeysUnique(ratings: seq<Rating>, row: Rating)
    requires KeysUnique(ratings)
    requires RatingWithKey(ratings, row.userId, row.storeId).None?
    ensures KeysUnique(ratings + [row])
  {
    var after := ratings + [row];
    var n := |ratings|;
    assert forall i | 0 <= i < n :: !IsKey(ratings[i], row.userId, row.storeId);
    forall i, j | 0 <= i < j < |after| ensures !IsKey(after[j], after[i].userId, after[i].storeId) {
      assert after[i] == ratings[i];
      if j < n {
        assert after[j] == ratings[j];
      }
    }
  }

  lemma AppendKeepsIdsUnique(ratings: seq<Rating>, row: Rating)
    requires IdsUnique(ratings)
    requires forall i | 0 <= i < |ratings| :: ratings[i].id < row.id
    ensures IdsUnique(ratings + [row])
  {
    var after := ratings + [row];
    var n := |ratings|;
    forall i, j | 0 <= i < j < |after| ensures after[i].id != after[j].id {
      assert after[i] == ratings[i];
      if j < n {
        assert after[j] == ratings[j];
      }
    }
  }

  lemma RatingUpdateValid(ratings: seq<Rating>, users: seq<User>, stores: seq<Store>, nextId: int, i: nat, value: int)
    requires RatingsValid(ratings, users, stores, nextId)
    requires i < |ratings| && 1 <= value <= 5
    ensures RatingsValid(ratings[i := ratings[i].(value := value)], users, stores, nextId)
  {
    var after := ratings[i := ratings[i].(value := value)];
    assert forall k | 0 <= k < |ratings| :: after[k].id == ratings[k].id && after[k].userId == ratings[k].userId && after[k].storeId == ratings[k].storeId;
  }
}
