/** Request-body validation as the routes declare it with zod: each schema is a
    chain of checks, written here as data, and `ObjectIssues` runs a schema over
    a JSON body the way `safeParse` does, collecting one issue per failing check.
    Each route's schema is then proved to accept exactly the bodies that satisfy
    a plainly stated rule (name length, address length, password strength, role
    enum, rating range). */
module Schema {
  import opened Common

  /** A JavaScript number: what JSON or `Number(...)` can produce. */
  datatype JsNumber = Finite(r: real) | NaN | Infinite(positive: bool)

  /** One member of a JSON request body, or its absence. */
  datatype Field = Absent | Text(s: string) | Number(n: JsNumber) | OtherJson

  type Json = map<string, Field>

  function Get(body: Json, key: string): Field
  {
    if key in body then body[key] else Absent
  }

  function TextOf(f: Field): string
  {
    if f.Text? then f.s else ""
  }

  datatype StringCheck = MinLength(min: nat) | MaxLength(max: nat) | Matches(pattern: CharClass) | EmailFormat

  datatype NumberCheck = IsInteger | AtLeast(min: int) | AtMost(max: int)

  datatype FieldSchema =
    | StringSchema(checks: seq<StringCheck>)
    | NumberSchema(numberChecks: seq<NumberCheck>, optional: bool)
    | EnumSchema(options: seq<string>)

  /** A `z.object({...})`: its keys, in declaration order, with their schemas. */
  type ObjectSchema = seq<(string, FieldSchema)>

  /** `pattern.test(s)` for a pattern that is one character class: scans `s`
      for a character of the class. */
  function Search(cc: CharClass, s: string): (found: bool)
    ensures found <==> exists i | 0 <= i < |s| :: InClass(cc, s[i])
  {
    if |s| == 0 then false
    else if InClass(cc, s[0]) then true
    else
      var rest := Search(cc, s[1..]);
      assert forall i | 1 <= i < |s| :: s[i] == s[1..][i - 1];
      rest
  }

  predicate IsIntegral(r: real)
  {
    r == r.Floor as real
  }

  predicate StringCheckPasses(c: StringCheck, s: string, isEmail: string -> bool)
  {
    match c
    case MinLength(n) => Utf16Length(s) >= n
    case MaxLength(n) => Utf16Length(s) <= n
    case Matches(cc) => Search(cc, s)
    case EmailFormat => isEmail(s)
  }

  function StringCheckCode(c: StringCheck): IssueCode
  {
    match c
    case MinLength(n) => TooSmall(n)
    case MaxLength(n) => TooBig(n)
    case Matches(cc) => PatternMismatch(cc)
    case EmailFormat => InvalidEmail
  }

  /** zod runs every check of a string schema and reports each one that fails. */
  function StringIssues(path: string, checks: seq<StringCheck>, s: string, isEmail: string -> bool): (issues: seq<Issue>)
    ensures issues == [] <==> forall i | 0 <= i < |checks| :: StringCheckPasses(checks[i], s, isEmail)
    ensures |issues| <= |checks|
    ensures forall k | 0 <= k < |issues| :: issues[k].path == path
  {
    if |checks| == 0 then []
    else
      var here := if StringCheckPasses(checks[0], s, isEmail) then [] else [Issue(path, StringCheckCode(checks[0]))];
      var rest := StringIssues(path, checks[1..], s, isEmail);
      assert forall i | 1 <= i < |checks| :: checks[i] == checks[1..][i - 1];
      here + rest
  }

  /** A number check on a number that is not NaN (zod rejects NaN as a type error first). */
  predicate NumberCheckPasses(c: NumberCheck, n: JsNumber)
  {
    match c
    case IsInteger => n.Finite? && IsIntegral(n.r)
    case AtLeast(m) => if n.Finite? then n.r >= m as real else n.Infinite? && n.positive
    case AtMost(m) => if n.Finite? then n.r <= m as real else n.Infinite? && !n.positive
  }

  function NumberCheckCode(c: NumberCheck): IssueCode
  {
    match c
    case IsInteger => NotInteger
    case AtLeast(m) => TooSmall(m)
    case AtMost(m) => TooBig(m)
  }

  function NumberIssues(path: string, checks: seq<NumberCheck>, n: JsNumber): (issues: seq<Issue>)
    ensures issues == [] <==> forall i | 0 <= i < |checks| :: NumberCheckPasses(checks[i], n)
    ensures |issues| <= |checks|
    ensures forall k | 0 <= k < |issues| :: issues[k].path == path
  {
    if |checks| == 0 then []
    else
      var here := if NumberCheckPasses(checks[0], n) then [] else [Issue(path, NumberCheckCode(checks[0]))];
      var rest := NumberIssues(path, checks[1..], n);
      assert forall i | 1 <= i < |checks| :: checks[i] == checks[1..][i - 1];
      here + rest
  }

  /** The issues one field of a body raises against its schema. A value of the
      wrong type (or a missing required one) raises a single type issue and
      none of the field's checks run. */
  function FieldIssues(path: string, schema: FieldSchema, f: Field, isEmail: string -> bool): seq<Issue>
  {
    match schema
    case StringSchema(checks) =>
      if f.Text? then StringIssues(path, checks, f.s, isEmail) else [Issue(path, InvalidType)]
    case NumberSchema(checks, optional) =>
      if f.Absent? && optional then []
      else if f.Number? && !f.n.NaN? then NumberIssues(path, checks, f.n)
      else [Issue(path, InvalidType)]
    case EnumSchema(options) =>
      if !f.Text? then [Issue(path, InvalidType)]
      else if f.s in options then []
      else [Issue(path, InvalidEnumValue)]
  }

  /** `schema.safeParse(body)`: every field is checked, and the issues of all
      fields are reported together, in the schema's key order. */
  function ObjectIssues(shape: ObjectSchema, body: Json, isEmail: string -> bool): (issues: seq<Issue>)
    ensures issues == [] <==>
      forall i | 0 <= i < |shape| :: FieldIssues(shape[i].0, shape[i].1, Get(body, shape[i].0), isEmail) == []
  {
    if |shape| == 0 then []
    else
      var rest := ObjectIssues(shape[1..], body, isEmail);
      assert forall i | 1 <= i < |shape| :: shape[i] == shape[1..][i - 1];
      FieldIssues(shape[0].0, shape[0].1, Get(body, shape[0].0), isEmail) + rest
  }

  // ---------------------------------------------------------------------------
  // The schemas of the routes

  const NameChecks: seq<StringCheck> := [MinLength(20), MaxLength(60)]
  const EmailChecks: seq<StringCheck> := [EmailFormat]
  const AddressChecks: seq<StringCheck> := [MaxLength(400)]
  const PasswordChecks: seq<StringCheck> := [MinLength(8), MaxLength(16), Matches(UpperLetter), Matches(NonAlphanumeric)]
  const NonEmpty: seq<StringCheck> := [MinLength(1)]
  const RoleNames: seq<string> := ["ADMIN", "USER", "OWNER"]
  const RatingChecks: seq<NumberCheck> := [IsInteger, AtLeast(1), AtMost(5)]

  const SignupSchema: ObjectSchema := [
    ("name", StringSchema(NameChecks)),
    ("email", StringSchema(EmailChecks)),
    ("address", StringSchema(AddressChecks)),
    ("password", StringSchema(PasswordChecks))]

  const LoginSchema: ObjectSchema := [
    ("email", StringSchema(EmailChecks)),
    ("password", StringSchema(NonEmpty))]

  const ChangePasswordSchema: ObjectSchema := [
    ("oldPassword", StringSchema(NonEmpty)),
    ("newPassword", StringSchema(PasswordChecks))]

  const NewUserSchema: ObjectSchema := [
    ("name", StringSchema(NameChecks)),
    ("email", StringSchema(EmailChecks)),
    ("address", StringSchema(AddressChecks)),
    ("password", StringSchema(PasswordChecks)),
    ("role", EnumSchema(RoleNames))]

  const NewStoreSchema: ObjectSchema := [
    ("name", StringSchema(NonEmpty)),
    ("email", StringSchema(EmailChecks)),
    ("address", StringSchema(AddressChecks)),
    ("ownerId", NumberSchema([IsInteger], true))]

  // ---------------------------------------------------------------------------
  // The rules the schemas enforce, stated directly

  predicate NameRule(s: string) { 20 <= Utf16Length(s) <= 60 }

  predicate AddressRule(s: string) { Utf16Length(s) <= 400 }

  /** 8 to 16 characters, at least one of them in A-Z and at least one outside A-Z, a-z, 0-9. */
  predicate PasswordRule(s: string)
  {
    && 8 <= Utf16Length(s) <= 16
    && (exists i | 0 <= i < |s| :: 'A' <= s[i] <= 'Z')
    && (exists i | 0 <= i < |s| :: !IsAsciiAlphanumeric(s[i]))
  }

  /** A text field satisfying a rule. */
  predicate TextWhere(f: Field, rule: string -> bool)
  {
    f.Text? && rule(f.s)
  }

  lemma NameSchemaMeansRule(s: string, isEmail: string -> bool)
    ensures StringIssues("name", NameChecks, s, isEmail) == [] <==> NameRule(s)
  {
    assert NameChecks[0] == MinLength(20) && NameChecks[1] == MaxLength(60);
  }

  lemma PasswordSchemaMeansRule(path: string, s: string, isEmail: string -> bool)
    ensures StringIssues(path, PasswordChecks, s, isEmail) == [] <==> PasswordRule(s)
  {
    assert PasswordChecks[0] == MinLength(8) && PasswordChecks[1] == MaxLength(16);
    assert PasswordChecks[2] == Matches(UpperLetter) && PasswordChecks[3] == Matches(NonAlphanumeric);
    assert Search(UpperLetter, s) <==> exists i | 0 <= i < |s| :: 'A' <= s[i] <= 'Z';
    assert Search(NonAlphanumeric, s) <==> exists i | 0 <= i < |s| :: !IsAsciiAlphanumeric(s[i]);
  }

  lemma SingleCheckSchema(path: string, c: StringCheck, s: string, isEmail: string -> bool)
    ensures StringIssues(path, [c], s, isEmail) == [] <==> StringCheckPasses(c, s, isEmail)
  {
    assert [c][0] == c;
  }

  // ---------------------------------------------------------------------------
  // Parsed bodies

  datatype SignupData = SignupData(name: string, email: string, address: string, password: string)

  datatype LoginData = LoginData(email: string, password: string)

  datatype ChangePasswordData = ChangePasswordData(oldPassword: string, newPassword: string)

  datatype NewUserData = NewUserData(name: string, email: string, address: string, password: string, role: Role)

  datatype NewStoreData = NewStoreData(name: string, email: string, address: string, ownerId: Option<int>)

  /** `ratingSchema.safeParse({ value: Number(req.body.value) })`. */
  function ParseRating(n: JsNumber): (r: Result<int, seq<Issue>>)
    ensures r.Ok? <==> n.Finite? && IsIntegral(n.r) && 1.0 <= n.r <= 5.0
    ensures r.Ok? ==> r.value as real == n.r && 1 <= r.value <= 5
    ensures r.Err? ==> r.error != [] && forall k | 0 <= k < |r.error| :: r.error[k].path == "value"
  {
    var issues := FieldIssues("value", NumberSchema(RatingChecks, false), Number(n), x => false);
    assert RatingChecks[0] == IsInteger && RatingChecks[1] == AtLeast(1) && RatingChecks[2] == AtMost(5);
    if issues == [] then Ok(n.r.Floor)
    else Err(issues)
  }

  /** `Number(req.params.id)` used as an Int column value: the query builder
      accepts it only when it is a finite integer, and rejects the query
      otherwise. */
  function IdParam(n: JsNumber): (id: Option<int>)
    ensures id.Some? <==> n.Finite? && IsIntegral(n.r)
    ensures id.Some? ==> id.value as real == n.r
  {
    if n.Finite? && IsIntegral(n.r) then Some(n.r.Floor) else None
  }

  predicate SignupRule(body: Json, isEmail: string -> bool)
  {
    && TextWhere(Get(body, "name"), NameRule)
    && TextWhere(Get(body, "email"), isEmail)
    && TextWhere(Get(body, "address"), AddressRule)
    && TextWhere(Get(body, "password"), PasswordRule)
  }

  /** Each account field's schema accepts exactly the values its rule allows. */
  lemma AccountFieldsMeanRules(body: Json, isEmail: string -> bool)
    ensures FieldIssues("name", StringSchema(NameChecks), Get(body, "name"), isEmail) == [] <==> TextWhere(Get(body, "name"), NameRule)
    ensures FieldIssues("email", StringSchema(EmailChecks), Get(body, "email"), isEmail) == [] <==> TextWhere(Get(body, "email"), isEmail)
    ensures FieldIssues("address", StringSchema(AddressChecks), Get(body, "address"), isEmail) == [] <==> TextWhere(Get(body, "address"), AddressRule)
    ensures FieldIssues("password", StringSchema(PasswordChecks), Get(body, "password"), isEmail) == [] <==> TextWhere(Get(body, "password"), PasswordRule)
  {
    NameSchemaMeansRule(TextOf(Get(body, "name")), isEmail);
    SingleCheckSchema("email", EmailFormat, TextOf(Get(body, "email")), isEmail);
    SingleCheckSchema("address", MaxLength(400), TextOf(Get(body, "address")), isEmail);
    PasswordSchemaMeansRule("password", TextOf(Get(body, "password")), isEmail);
  }

  /** A schema of four keys accepts a body exactly when each of its four fields does. */
  lemma ObjectIssuesOfFour(shape: ObjectSchema, body: Json, isEmail: string -> bool)
    requires |shape| == 4
    ensures ObjectIssues(shape, body, isEmail) == [] <==>
      && FieldIssues(shape[0].0, shape[0].1, Get(body, shape[0].0), isEmail) == []
      && FieldIssues(shape[1].0, shape[1].1, Get(body, shape[1].0), isEmail) == []
      && FieldIssues(shape[2].0, shape[2].1, Get(body, shape[2].0), isEmail) == []
      && FieldIssues(shape[3].0, shape[3].1, Get(body, shape[3].0), isEmail) == []
  {
  }

  /** A schema of five keys accepts a body exactly when each of its five fields does. */
  lemma ObjectIssuesOfFive(shape: ObjectSchema, body: Json, isEmail: string -> bool)
    requires |shape| == 5
    ensures ObjectIssues(shape, body, isEmail) == [] <==>
      && FieldIssues(shape[0].0, shape[0].1, Get(body, shape[0].0), isEmail) == []
      && FieldIssues(shape[1].0, shape[1].1, Get(body, shape[1].0), isEmail) == []
      && FieldIssues(shape[2].0, shape[2].1, Get(body, shape[2].0), isEmail) == []
      && FieldIssues(shape[3].0, shape[3].1, Get(body, shape[3].0), isEmail) == []
      && FieldIssues(shape[4].0, shape[4].1, Get(body, shape[4].0), isEmail) == []
  {
  }

  lemma SignupSchemaMeansRule(body: Json, isEmail: string -> bool)
    ensures ObjectIssues(SignupSchema, body, isEmail) == [] <==> SignupRule(body, isEmail)
  {
    var shape := SignupSchema;
    ObjectIssuesOfFour(shape, body, isEmail);
    AccountFieldsMeanRules(body, isEmail);
    assert shape[0] == ("name", StringSchema(NameChecks));
    assert shape[1] == ("email", StringSchema(EmailChecks));
    assert shape[2] == ("address", StringSchema(AddressChecks));
    assert shape[3] == ("password", StringSchema(PasswordChecks));
  }

  /** `signupSchema.safeParse(req.body)`: accepted exactly when the name has 20 to 60
      characters, the email is well formed, the address has at most 400
      characters and the password passes the password rule. */
  function ParseSignup(body: Json, isEmail: string -> bool): (r: Result<SignupData, seq<Issue>>)
    ensures r.Ok? <==> SignupRule(body, isEmail)
    ensures r.Ok? ==> r.value == SignupData(Get(body, "name").s, Get(body, "email").s, Get(body, "address").s, Get(body, "password").s)
    ensures r.Err? ==> r.error != []
  {
    var issues := ObjectIssues(SignupSchema, body, isEmail);
    SignupSchemaMeansRule(body, isEmail);
    if issues == [] then
      Ok(SignupData(Get(body, "name").s, Get(body, "email").s, Get(body, "address").s, Get(body, "password").s))
    else Err(issues)
  }

  predicate LoginRule(body: Json, isEmail: string -> bool)
  {
    && TextWhere(Get(body, "email"), isEmail)
    && TextWhere(Get(body, "password"), s => |s| > 0)
  }

  lemma LoginSchemaMeansRule(body: Json, isEmail: string -> bool)
    ensures ObjectIssues(LoginSchema, body, isEmail) == [] <==> LoginRule(body, isEmail)
  {
    var email, password := Get(body, "email"), Get(body, "password");
    SingleCheckSchema("email", EmailFormat, TextOf(email), isEmail);
    SingleCheckSchema("password", MinLength(1), TextOf(password), isEmail);
    assert LoginSchema[0] == ("email", StringSchema(EmailChecks));
    assert LoginSchema[1] == ("password", StringSchema(NonEmpty));
  }

  /** The login body: a well-formed email and a non-empty password. */
  function ParseLogin(body: Json, isEmail: string -> bool): (r: Result<LoginData, seq<Issue>>)
    ensures r.Ok? <==> LoginRule(body, isEmail)
    ensures r.Ok? ==> r.value == LoginData(Get(body, "email").s, Get(body, "password").s)
    ensures r.Err? ==> r.error != []
  {
    var issues := ObjectIssues(LoginSchema, body, isEmail);
    LoginSchemaMeansRule(body, isEmail);
    if issues == [] then Ok(LoginData(Get(body, "email").s, Get(body, "password").s))
    else Err(issues)
  }

  predicate ChangePasswordRule(body: Json)
  {
    && TextWhere(Get(body, "oldPassword"), s => |s| > 0)
    && TextWhere(Get(body, "newPassword"), PasswordRule)
  }

  lemma ChangePasswordSchemaMeansRule(body: Json, isEmail: string -> bool)
    ensures ObjectIssues(ChangePasswordSchema, body, isEmail) == [] <==> ChangePasswordRule(body)
  {
    var oldPassword, newPassword := Get(body, "oldPassword"), Get(body, "newPassword");
    SingleCheckSchema("oldPassword", MinLength(1), TextOf(oldPassword), isEmail);
    PasswordSchemaMeansRule("newPassword", TextOf(newPassword), isEmail);
    assert ChangePasswordSchema[0] == ("oldPassword", StringSchema(NonEmpty));
    assert ChangePasswordSchema[1] == ("newPassword", StringSchema(PasswordChecks));
  }

  /** The change-password body: a non-empty old password and a new password that passes the password rule. */
  function ParseChangePassword(body: Json): (r: Result<ChangePasswordData, seq<Issue>>)
    ensures r.Ok? <==> ChangePasswordRule(body)
    ensures r.Ok? ==> r.value == ChangePasswordData(Get(body, "oldPassword").s, Get(body, "newPassword").s)
    ensures r.Err? ==> r.error != []
  {
    var noEmail := (x: string) => false;
    var issues := ObjectIssues(ChangePasswordSchema, body, noEmail);
    ChangePasswordSchemaMeansRule(body, noEmail);
    if issues == [] then Ok(ChangePasswordData(Get(body, "oldPassword").s, Get(body, "newPassword").s))
    else Err(issues)
  }

  predicate NewUserRule(body: Json, isEmail: string -> bool)
  {
    && SignupRule(body, isEmail)
    && TextWhere(Get(body, "role"), s => ParseRole(s).Some?)
  }

  /** The role field's enum accepts exactly the names of the three roles. */
  lemma RoleFieldMeansRule(role: Field, isEmail: string -> bool)
    ensures FieldIssues("role", EnumSchema(RoleNames), role, isEmail) == [] <==> TextWhere(role, s => ParseRole(s).Some?)
  {
    if role.Text? && ParseRole(role.s).Some? {
      assert RoleName(ParseRole(role.s).value) == role.s;
    }
  }

  lemma NewUserSchemaMeansRule(body: Json, isEmail: string -> bool)
    ensures ObjectIssues(NewUserSchema, body, isEmail) == [] <==> NewUserRule(body, isEmail)
  {
    var shape := NewUserSchema;
    ObjectIssuesOfFive(shape, body, isEmail);
    AccountFieldsMeanRules(body, isEmail);
    RoleFieldMeansRule(Get(body, "role"), isEmail);
    assert shape[0] == ("name", StringSchema(NameChecks));
    assert shape[1] == ("email", StringSchema(EmailChecks));
    assert shape[2] == ("address", StringSchema(AddressChecks));
    assert shape[3] == ("password", StringSchema(PasswordChecks));
    assert shape[4] == ("role", EnumSchema(RoleNames));
  }

  /** `newUserSchema.safeParse(req.body)`: the signup rule plus a role among ADMIN, USER and OWNER. */
  function ParseNewUser(body: Json, isEmail: string -> bool): (r: Result<NewUserData, seq<Issue>>)
    ensures r.Ok? <==> NewUserRule(body, isEmail)
    ensures r.Ok? ==> && r.value.name == Get(body, "name").s && r.value.email == Get(body, "email").s
                      && r.value.address == Get(body, "address").s && r.value.password == Get(body, "password").s
                      && RoleName(r.value.role) == Get(body, "role").s
    ensures r.Err? ==> r.error != []
  {
    var issues := ObjectIssues(NewUserSchema, body, isEmail);
    NewUserSchemaMeansRule(body, isEmail);
    if issues == [] then
      var role := ParseRole(Get(body, "role").s).value;
      Ok(NewUserData(Get(body, "name").s, Get(body, "email").s, Get(body, "address").s, Get(body, "password").s, role))
    else Err(issues)
  }

  /** An absent owner, or an integral number. */
  predicate OwnerIdRule(f: Field)
  {
    f.Absent? || (f.Number? && f.n.Finite? && IsIntegral(f.n.r))
  }

  predicate NewStoreRule(body: Json, isEmail: string -> bool)
  {
    && TextWhere(Get(body, "name"), s => |s| > 0)
    && TextWhere(Get(body, "email"), isEmail)
    && TextWhere(Get(body, "address"), AddressRule)
    && OwnerIdRule(Get(body, "ownerId"))
  }

  lemma NewStoreSchemaMeansRule(body: Json, isEmail: string -> bool)
    ensures ObjectIssues(NewStoreSchema, body, isEmail) == [] <==> NewStoreRule(body, isEmail)
  {
    var name, email, address, owner := Get(body, "name"), Get(body, "email"), Get(body, "address"), Get(body, "ownerId");
    ObjectIssuesOfFour(NewStoreSchema, body, isEmail);
    assert FieldIssues("name", StringSchema(NonEmpty), name, isEmail) == [] <==> TextWhere(name, s => |s| > 0) by {
      SingleCheckSchema("name", MinLength(1), TextOf(name), isEmail);
    }
    assert FieldIssues("email", StringSchema(EmailChecks), email, isEmail) == [] <==> TextWhere(email, isEmail) by {
      SingleCheckSchema("email", EmailFormat, TextOf(email), isEmail);
    }
    assert FieldIssues("address", StringSchema(AddressChecks), address, isEmail) == [] <==> TextWhere(address, AddressRule) by {
      SingleCheckSchema("address", MaxLength(400), TextOf(address), isEmail);
    }
    assert FieldIssues("ownerId", NumberSchema([IsInteger], true), owner, isEmail) == [] <==> OwnerIdRule(owner) by {
      assert [IsInteger][0] == IsInteger;
    }
    assert NewStoreSchema[0] == ("name", StringSchema(NonEmpty));
    assert NewStoreSchema[1] == ("email", StringSchema(EmailChecks));
    assert NewStoreSchema[2] == ("address", StringSchema(AddressChecks));
    assert NewStoreSchema[3] == ("ownerId", NumberSchema([IsInteger], true));
  }

  /** `newStoreSchema.safeParse(req.body)`: a non-empty name, a well-formed email, an
      address of at most 400 characters and an optional integral owner id. */
  function ParseNewStore(body: Json, isEmail: string -> bool): (r: Result<NewStoreData, seq<Issue>>)
    ensures r.Ok? <==> NewStoreRule(body, isEmail)
    ensures r.Ok? ==> && r.value.name == Get(body, "name").s && r.value.email == Get(body, "email").s
                      && r.value.address == Get(body, "address").s
                      && (r.value.ownerId.None? <==> Get(body, "ownerId").Absent?)
                      && (r.value.ownerId.Some? ==> r.value.ownerId.value as real == Get(body, "ownerId").n.r)
    ensures r.Err? ==> r.error != []
  {
    var issues := ObjectIssues(NewStoreSchema, body, isEmail);
    NewStoreSchemaMeansRule(body, isEmail);
    if issues == [] then
      var owner := Get(body, "ownerId");
      var ownerId := if owner.Absent? then None else Some(owner.n.r.Floor);
      Ok(NewStoreData(Get(body, "name").s, Get(body, "email").s, Get(body, "address").s, ownerId))
    else Err(issues)
  }
}
