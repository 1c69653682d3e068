/** What the listing routes hand to the database: a `where` filter built from
    the query string, a sort column and a sort direction. The database applies
    the sort (its collation is not part of this model); the filter is modelled
    exactly, as conditions on a row's text columns. */
module Filters {
  import opened Common
  import opened Tables

  /** The query string, each parameter given once as text. */
  type Query = map<string, string>

  function Param(q: Query, key: string): Option<string>
  {
    if key in q then Some(q[key]) else None
  }

  /** A parameter is used only when it is truthy: present and not empty. */
  predicate Given(q: Query, key: string)
  {
    key in q && q[key] != ""
  }

  /** `{ contains: text, mode: 'insensitive' }`, or an exact match. */
  datatype Condition = Contains(text: string) | Equals(text: string)

  /** A `where` object: a condition per column, all of which must hold. */
  type Where = map<string, Condition>

  predicate Holds(c: Condition, value: string)
  {
    match c
    case Contains(t) => ContainsInsensitive(value, t)
    case Equals(t) => value == t
  }

  predicate Satisfies(w: Where, row: map<string, string>)
  {
    forall column | column in w :: column in row && Holds(w[column], row[column])
  }

  /** `if (param) where[column] = { contains: String(param), mode: 'insensitive' }`. */
  function WithContains(w: Where, q: Query, param: string, column: string): Where
  {
    if Given(q, param) then w[column := Contains(q[param])] else w
  }

  /** The column carries a contains-condition on the parameter exactly when the parameter is given. */
  predicate ContainsFilterFor(w: Where, q: Query, param: string, column: string)
  {
    && (column in w <==> Given(q, param))
    && (column in w ==> w[column] == Contains(q[param]))
  }

  /** `buildFilters(req.query)` of the admin user listing. */
  function BuildFilters(q: Query): (w: Where)
    ensures w.Keys <= {"name", "email", "address", "role"}
    ensures ContainsFilterFor(w, q, "name", "name")
    ensures ContainsFilterFor(w, q, "email", "email")
    ensures ContainsFilterFor(w, q, "address", "address")
    ensures ("role" in w <==> Given(q, "role")) && ("role" in w ==> w["role"] == Equals(q["role"]))
    ensures !Given(q, "name") && !Given(q, "email") && !Given(q, "address") && !Given(q, "role") ==> w == map[]
  {
    var w := WithContains(map[], q, "name", "name");
    var w := WithContains(w, q, "email", "email");
    var w := WithContains(w, q, "address", "address");
    if Given(q, "role") then w["role" := Equals(q["role"])] else w
  }

  /** The filter of the admin store listing: the same text filters, without a role. */
  function AdminStoreFilters(q: Query): (w: Where)
    ensures w.Keys <= {"name", "email", "address"}
    ensures ContainsFilterFor(w, q, "name", "name")
    ensures ContainsFilterFor(w, q, "email", "email")
    ensures ContainsFilterFor(w, q, "address", "address")
  {
    var w := WithContains(map[], q, "name", "name");
    var w := WithContains(w, q, "email", "email");
    WithContains(w, q, "address", "address")
  }

  /** The filter of the user-facing store listing: `q` searches the name, `address` the address. */
  function StoreSearchFilters(q: Query): (w: Where)
    ensures w.Keys <= {"name", "address"}
    ensures ContainsFilterFor(w, q, "q", "name")
    ensures ContainsFilterFor(w, q, "address", "address")
  {
    var w := WithContains(map[], q, "q", "name");
    WithContains(w, q, "address", "address")
  }

  // ---------------------------------------------------------------------------
  // Text columns of the rows, as the filters see them

  function UserColumns(u: User): map<string, string>
  {
    map["name" := u.name, "email" := u.email, "address" := u.address, "role" := RoleName(u.role)]
  }

  function StoreColumns(s: Store): map<string, string>
  {
    map["name" := s.name, "email" := s.email, "address" := s.address]
  }

  /** A user passes the admin filter exactly when its name, email and address
      contain the given parameters (ignoring letter case) and its role equals
      the given role. */
  lemma BuildFiltersSelects(q: Query, u: User)
    ensures Satisfies(BuildFilters(q), UserColumns(u)) <==>
      && (Given(q, "name") ==> ContainsInsensitive(u.name, q["name"]))
      && (Given(q, "email") ==> ContainsInsensitive(u.email, q["email"]))
      && (Given(q, "address") ==> ContainsInsensitive(u.address, q["address"]))
      && (Given(q, "role") ==> RoleName(u.role) == q["role"])
  {
    var w, row := BuildFilters(q), UserColumns(u);
    if Given(q, "name") { assert "name" in w; }
    if Given(q, "email") { assert "email" in w; }
    if Given(q, "address") { assert "address" in w; }
    if Given(q, "role") { assert "role" in w; }
  }

  lemma AdminStoreFiltersSelect(q: Query, s: Store)
    ensures Satisfies(AdminStoreFilters(q), StoreColumns(s)) <==>
      && (Given(q, "name") ==> ContainsInsensitive(s.name, q["name"]))
      && (Given(q, "email") ==> ContainsInsensitive(s.email, q["email"]))
      && (Given(q, "address") ==> ContainsInsensitive(s.address, q["address"]))
  {
    var w := AdminStoreFilters(q);
    if Given(q, "name") { assert "name" in w; }
    if Given(q, "email") { assert "email" in w; }
    if Given(q, "address") { assert "address" in w; }
  }

  lemma StoreSearchFiltersSelect(q: Query, s: Store)
    ensures Satisfies(StoreSearchFilters(q), StoreColumns(s)) <==>
      && (Given(q, "q") ==> ContainsInsensitive(s.name, q["q"]))
      && (Given(q, "address") ==> ContainsInsensitive(s.address, q["address"]))
  {
    var w := StoreSearchFilters(q);
    if Given(q, "q") { assert "name" in w; }
    if Given(q, "address") { assert "address" in w; }
  }

  // ---------------------------------------------------------------------------
  // Sorting

  datatype Direction = Asc | Desc

  /** "desc" in any mix of letter cases. */
  predicate SpellsDesc(s: string)
  {
    && |s| == 4
    && (s[0] == 'd' || s[0] == 'D')
    && (s[1] == 'e' || s[1] == 'E')
    && (s[2] == 's' || s[2] == 'S')
    && (s[3] == 'c' || s[3] == 'C')
  }

  /** `(order || 'asc').toLowerCase() === 'desc' ? 'desc' : 'asc'`. Only the
      ASCII letters D, E, S and C lower-case to d, e, s and c, so ASCII
      lower-casing decides this comparison exactly as JavaScript does. */
  function OrderOf(order: Option<string>): (d: Direction)
    ensures d == Desc <==> order.Some? && SpellsDesc(order.value)
  {
    if order.Some? then
      LowerIsDesc(order.value);
      if Lower(order.value) == "desc" then Desc else Asc
    else Asc
  }

  /** The characters that lower-case to a given lower-case letter: itself and its capital. */
  lemma LowerCharTo(c: char, l: char)
    requires 'a' <= l <= 'z'
    ensures LowerChar(c) == l <==> c == l || c as int == l as int - 32
  {
  }

  lemma LowerIsDesc(s: string)
    ensures Lower(s) == "desc" <==> SpellsDesc(s)
  {
    if |s| == 4 {
      LowerCharTo(s[0], 'd');
      LowerCharTo(s[1], 'e');
      LowerCharTo(s[2], 's');
      LowerCharTo(s[3], 'c');
      assert Lower(s) == [LowerChar(s[0]), LowerChar(s[1]), LowerChar(s[2]), LowerChar(s[3])];
    }
  }

  /** The arguments a listing passes to `findMany`. */
  datatype FindMany = FindMany(where: Where, sortBy: string, direction: Direction)

  /** The admin user listing: `sortBy` defaults to `id` when missing or empty. */
  function UserListingArgs(q: Query): (a: FindMany)
    ensures a.where == BuildFilters(q)
    ensures Given(q, "sortBy") ==> a.sortBy == q["sortBy"]
    ensures !Given(q, "sortBy") ==> a.sortBy == "id"
    ensures a.direction == Desc <==> "order" in q && SpellsDesc(q["order"])
  {
    FindMany(BuildFilters(q), if Given(q, "sortBy") then q["sortBy"] else "id", OrderOf(Param(q, "order")))
  }

  /** The admin store listing: `sortBy` defaults to `id` when missing or empty. */
  function AdminStoreListingArgs(q: Query): (a: FindMany)
    ensures a.where == AdminStoreFilters(q)
    ensures Given(q, "sortBy") ==> a.sortBy == q["sortBy"]
    ensures !Given(q, "sortBy") ==> a.sortBy == "id"
    ensures a.direction == Desc <==> "order" in q && SpellsDesc(q["order"])
  {
    FindMany(AdminStoreFilters(q), if Given(q, "sortBy") then q["sortBy"] else "id", OrderOf(Param(q, "order")))
  }

  /** The user-facing store listing: `sortBy` defaults to `name`, but only when
      it is missing (a destructuring default); an empty `sortBy` is passed on. */
  function StoreSearchArgs(q: Query): (a: FindMany)
    ensures a.where == StoreSearchFilters(q)
    ensures "sortBy" in q ==> a.sortBy == q["sortBy"]
    ensures "sortBy" !in q ==> a.sortBy == "name"
    ensures a.direction == Desc <==> "order" in q && SpellsDesc(q["order"])
  {
    FindMany(StoreSearchFilters(q), if "sortBy" in q then q["sortBy"] else "name", OrderOf(Param(q, "order")))
  }
}
