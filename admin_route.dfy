/** The administrator's routes: creating users and stores, the filtered user
    and store listings, and the detail view of one user, which for a store
    owner carries the average over all ratings of all the owner's stores. No
    projection carries a password hash. */
module AdminRoute {
  import opened Common
  import opened Schema
  import opened Tables
  import opened Ledger
  import opened Filters

  /** `{ id, name, email, address, role }`: a user without the password hash. */
  datatype UserSummary = UserSummary(id: int, name: string, email: string, address: string, role: Role)

  function Summary(u: User): UserSummary
  {
    UserSummary(u.id, u.name, u.email, u.address, u.role)
  }

  /** The projection leaves the hash out: two accounts that differ only in
      their hashes project to the same summary. */
  lemma SummaryIgnoresHash(u: User, h: PasswordHash)
    ensures Summary(u.(passwordHash := h)) == Summary(u)
  {
  }

  // ---------------------------------------------------------------------------
  // POST /admin/users and POST /admin/stores

  /** `POST /admin/users`: a body that fails the schema is refused with 400; a
      taken email is refused with 409 "Email already exists"; otherwise the user
      is stored with the requested role and the hash of the password. */
  method CreateUser(db: Database, body: Json, isEmail: string -> bool, salt: nat)
    returns (res: Result<UserSummary, Failure>)
    requires db.Valid()
    modifies db
    ensures db.Valid()
    ensures db.stores == old(db.stores) && db.ratings == old(db.ratings)
    ensures db.nextStoreId == old(db.nextStoreId) && db.nextRatingId == old(db.nextRatingId)
    ensures db.nextUserId == old(db.nextUserId) + (if res.Ok? then 1 else 0)
    ensures ParseNewUser(body, isEmail).Err? ==>
      res == Err(BadRequest(ParseNewUser(body, isEmail).error)) && db.users == old(db.users)
    ensures ParseNewUser(body, isEmail).Ok? ==>
      var d := ParseNewUser(body, isEmail).value;
      && (UserWithEmail(old(db.users), d.email).Some? ==>
            res == Err(Conflict("Email already exists")) && db.users == old(db.users))
      && (UserWithEmail(old(db.users), d.email).None? ==>
            var u := User(old(db.nextUserId), d.name, d.email, d.address, Hash(d.password, salt), d.role);
            res == Ok(Summary(u)) && db.users == old(db.users) + [u])
  {
    var parsed := ParseNewUser(body, isEmail);
    if parsed.Err? {
      return Err(BadRequest(parsed.error));
    }
    var d := parsed.value;
    var passwordHash := Hash(d.password, salt);
    var created := db.CreateUser(d.name, d.email, d.address, passwordHash, d.role);
    if created.Err? {
      return Err(Conflict("Email already exists"));
    }
    res := Ok(Summary(created.value));
  }

  /** `POST /admin/stores`: a body that fails the schema is refused with 400;
      a taken email or an owner id naming no user makes the write fail
      unhandled; otherwise the store is added as given. */
  method CreateStore(db: Database, body: Json, isEmail: string -> bool)
    returns (res: Result<Store, Failure>)
    requires db.Valid()
    modifies db
    ensures db.Valid()
    ensures db.users == old(db.users) && db.ratings == old(db.ratings)
    ensures ParseNewStore(body, isEmail).Err? ==>
      res == Err(BadRequest(ParseNewStore(body, isEmail).error)) && db.stores == old(db.stores)
    ensures ParseNewStore(body, isEmail).Ok? ==>
      var d := ParseNewStore(body, isEmail).value;
      var refused := StoreWithEmail(old(db.stores), d.email).Some? || (d.ownerId.Some? && UserWithId(db.users, d.ownerId.value).None?);
      && (refused ==> res == Err(Unhandled) && db.stores == old(db.stores))
      && (!refused ==>
            var s := Store(old(db.nextStoreId), d.name, d.email, d.address, d.ownerId);
            res == Ok(s) && db.stores == old(db.stores) + [s])
  {
    var parsed := ParseNewStore(body, isEmail);
    if parsed.Err? {
      return Err(BadRequest(parsed.error));
    }
    var d := parsed.value;
    var created := db.CreateStore(d.name, d.email, d.address, d.ownerId);
    if created.Err? {
      return Err(Unhandled);
    }
    res := Ok(created.value);
  }

  // ---------------------------------------------------------------------------
  // GET /admin/users

  /** The summaries of the users a `where` keeps, in the order the database returns them. */
  function SelectSummaries(users: seq<User>, w: Where): (r: seq<UserSummary>)
    ensures |r| <= |users|
    ensures forall u | u in users && Satisfies(w, UserColumns(u)) :: Summary(u) in r
    ensures forall x | x in r :: exists u | u in users :: Satisfies(w, UserColumns(u)) && Summary(u) == x
  {
    if |users| == 0 then []
    else
      var rest := SelectSummaries(users[1..], w);
      assert forall u | u in users[1..] :: u in users;
      if Satisfies(w, UserColumns(users[0])) then [Summary(users[0])] + rest else rest
  }

  /** What the admin user listing asks of a user. */
  predicate MatchesUserFilters(q: Query, u: User)
  {
    && (Given(q, "name") ==> ContainsInsensitive(u.name, q["name"]))
    && (Given(q, "email") ==> ContainsInsensitive(u.email, q["email"]))
    && (Given(q, "address") ==> ContainsInsensitive(u.address, q["address"]))
    && (Given(q, "role") ==> RoleName(u.role) == q["role"])
  }

  /** `GET /admin/users`: the users matching every given filter, without their
      password hashes, in table order (the ordering by the arguments' `sortBy`
      and direction is the database's and is not modelled). A role filter that
      names no role is refused by the database, and the request fails unhandled. */
  function ListUsers(users: seq<User>, q: Query): (r: Result<seq<UserSummary>, Failure>)
    ensures r.Err? <==> Given(q, "role") && ParseRole(q["role"]).None?
    ensures r.Err? ==> r.error == Unhandled
    ensures r.Ok? ==> |r.value| <= |users|
    ensures r.Ok? ==> forall u | u in users && MatchesUserFilters(q, u) :: Summary(u) in r.value
    ensures r.Ok? ==> forall x | x in r.value :: exists u | u in users :: MatchesUserFilters(q, u) && Summary(u) == x
  {
    if Given(q, "role") && ParseRole(q["role"]).None? then Err(Unhandled)
    else
      var w := UserListingArgs(q).where;
      assert forall u: User :: Satisfies(w, UserColumns(u)) <==> MatchesUserFilters(q, u) by {
        forall u: User ensures Satisfies(w, UserColumns(u)) <==> MatchesUserFilters(q, u) {
          BuildFiltersSelects(q, u);
        }
      }
      Ok(SelectSummaries(users, w))
  }

  /** Two tables that differ only in password hashes select the same users and
      show the same fields: the filters and the projection see no hash. */
  lemma {:induction false} SelectSummariesIgnoresHashes(users: seq<User>, others: seq<User>, w: Where)
    requires |users| == |others|
    requires forall i | 0 <= i < |users| :: others[i] == users[i].(passwordHash := others[i].passwordHash)
    ensures SelectSummaries(users, w) == SelectSummaries(others, w)
  {
    if |users| > 0 {
      assert UserColumns(users[0]) == UserColumns(others[0]);
      assert forall i | 0 <= i < |users| - 1 :: users[1..][i] == users[i + 1] && others[1..][i] == others[i + 1];
      SelectSummariesIgnoresHashes(users[1..], others[1..], w);
    }
  }

  lemma ListUsersIgnoresHashes(users: seq<User>, others: seq<User>, q: Query)
    requires |users| == |others|
    requires forall i | 0 <= i < |users| :: others[i] == users[i].(passwordHash := others[i].passwordHash)
    ensures ListUsers(users, q) == ListUsers(others, q)
  {
    SelectSummariesIgnoresHashes(users, others, UserListingArgs(q).where);
  }

  // ---------------------------------------------------------------------------
  // GET /admin/stores

  /** `{ id, name, email, address, rating }`. */
  datatype StoreSummary = StoreSummary(id: int, name: string, email: string, address: string, rating: Option<real>)

  /** What the admin store listing asks of a store. */
  predicate MatchesStoreFilters(q: Query, s: Store)
  {
    && (Given(q, "name") ==> ContainsInsensitive(s.name, q["name"]))
    && (Given(q, "email") ==> ContainsInsensitive(s.email, q["email"]))
    && (Given(q, "address") ==> ContainsInsensitive(s.address, q["address"]))
  }

  /** The stores the listing's `where` keeps, in table order: the ordering by
      the arguments' `sortBy` and direction is the database's and is not modelled. */
  function AdminSelectStores(stores: seq<Store>, q: Query): (found: seq<Store>)
    ensures |found| <= |stores|
    ensures forall k | 0 <= k < |found| :: found[k] in stores && MatchesStoreFilters(q, found[k])
    ensures forall s | s in stores && MatchesStoreFilters(q, s) :: s in found
  {
    var found := Select(stores, (s: Store) => Satisfies(AdminStoreListingArgs(q).where, StoreColumns(s)));
    assert forall s: Store :: Satisfies(AdminStoreListingArgs(q).where, StoreColumns(s)) <==> MatchesStoreFilters(q, s) by {
      forall s: Store ensures Satisfies(AdminStoreListingArgs(q).where, StoreColumns(s)) <==> MatchesStoreFilters(q, s) {
        AdminStoreFiltersSelect(q, s);
      }
    }
    found
  }

  /** `GET /admin/stores`: the stores matching every given filter, each with
      its average rating over all users. */
  function ListStores(stores: seq<Store>, ratings: seq<Rating>, q: Query): (data: seq<StoreSummary>)
    ensures |data| == |AdminSelectStores(stores, q)| <= |stores|
    ensures forall k | 0 <= k < |data| :: var s := AdminSelectStores(stores, q)[k];
      data[k].id == s.id && data[k].name == s.name && data[k].email == s.email && data[k].address == s.address
    ensures forall k | 0 <= k < |data| :: data[k].rating == StoreAverage(ratings, data[k].id)
  {
    var found := AdminSelectStores(stores, q);
    seq(|found|, k requires 0 <= k < |found| =>
      StoreSummary(found[k].id, found[k].name, found[k].email, found[k].address, StoreAverage(ratings, found[k].id)))
  }

  /** Every listed store is a store of the table that matches the filters, shown as stored. */
  lemma ListStoresOnlyMatches(stores: seq<Store>, ratings: seq<Rating>, q: Query, k: int)
    requires 0 <= k < |ListStores(stores, ratings, q)|
    ensures var e := ListStores(stores, ratings, q)[k];
      exists s | s in stores :: && MatchesStoreFilters(q, s)
        && e == StoreSummary(s.id, s.name, s.email, s.address, StoreAverage(ratings, s.id))
  {
    var found := AdminSelectStores(stores, q);
    assert found[k] in found;
    AdminStoreFiltersSelect(q, found[k]);
  }

  /** Every store of the table that matches the filters is listed. */
  lemma ListStoresShowsEveryMatch(stores: seq<Store>, ratings: seq<Rating>, q: Query, s: Store)
    requires s in stores && MatchesStoreFilters(q, s)
    ensures StoreSummary(s.id, s.name, s.email, s.address, StoreAverage(ratings, s.id)) in ListStores(stores, ratings, q)
  {
    AdminStoreFiltersSelect(q, s);
    var found := AdminSelectStores(stores, q);
    assert s in found;
    var k :| 0 <= k < |found| && found[k] == s;
    assert ListStores(stores, ratings, q)[k] == StoreSummary(s.id, s.name, s.email, s.address, StoreAverage(ratings, s.id));
  }

  // ---------------------------------------------------------------------------
  // GET /admin/users/:id

  /** The extra member of an owner's detail: `ownerAverageRating`, itself null
      when none of the owner's stores has a rating. */
  datatype Portfolio = NotAnOwner | OwnerAverage(average: Option<real>)

  /** `{ id, name, email, address, role, stores }`, plus the owner's average. */
  datatype UserDetail = UserDetail(summary: UserSummary, stores: seq<Store>, portfolio: Portfolio)

  /** `GET /admin/users/:id`: 404 when no user has the id; otherwise the user
      without the password hash, the stores the user owns, and for an owner
      the average over all ratings of all those stores taken together. An id
      that is not an integer is refused by the database. */
  function GetUser(users: seq<User>, stores: seq<Store>, ratings: seq<Rating>, idParam: JsNumber): (r: Result<UserDetail, Failure>)
    ensures IdParam(idParam).None? ==> r == Err(Unhandled)
    ensures IdParam(idParam).Some? ==> (r == Err(NotFound) <==> forall i | 0 <= i < |users| :: users[i].id != IdParam(idParam).value)
    ensures r.Ok? <==> IdParam(idParam).Some? && exists i | 0 <= i < |users| :: users[i].id == IdParam(idParam).value
    ensures r.Ok? ==>
      var id := IdParam(idParam).value;
      && (exists i | 0 <= i < |users| :: users[i].id == id && Summary(users[i]) == r.value.summary)
      && (forall s | s in r.value.stores :: s in stores && s.ownerId == Some(id))
      && (forall s | s in stores && s.ownerId == Some(id) :: s in r.value.stores)
      && (r.value.portfolio.OwnerAverage? <==> r.value.summary.role == OWNER)
      && (r.value.portfolio.OwnerAverage? ==> r.value.portfolio.average == PortfolioAverage(stores, ratings, id))
  {
    match IdParam(idParam)
    case None => Err(Unhandled)
    case Some(id) =>
      match UserWithId(users, id)
      case None => Err(NotFound)
      case Some(i) =>
        var u := users[i];
        var owned := OwnedStores(stores, u.id);
        var portfolio := if u.role == OWNER then OwnerAverage(PortfolioAverage(stores, ratings, u.id)) else NotAnOwner;
        Ok(UserDetail(Summary(u), owned, portfolio))
  }

  /** With ratings of 1 to 5, an owner's average is null or between 1 and 5,
      and it is null exactly when none of the owner's stores has been rated. */
  lemma OwnerAverageInRange(users: seq<User>, stores: seq<Store>, ratings: seq<Rating>, idParam: JsNumber)
    requires ValuesInRange(ratings)
    requires GetUser(users, stores, ratings, idParam).Ok?
    ensures var p := GetUser(users, stores, ratings, idParam).value.portfolio;
      && (p.OwnerAverage? && p.average.Some? ==> 1.0 <= p.average.value <= 5.0)
      && (p.OwnerAverage? ==> (p.average.None? <==>
            forall s | s in GetUser(users, stores, ratings, idParam).value.stores :: StoreAverage(ratings, s.id).None?))
  {
    var d := GetUser(users, stores, ratings, idParam).value;
    if d.portfolio.OwnerAverage? {
      var id := IdParam(idParam).value;
      PortfolioNullIffStoresUnrated(stores, ratings, id);
    }
  }
}
