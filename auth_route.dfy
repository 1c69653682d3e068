/** Account routes: signing up (always as USER), logging in, and changing the
    caller's own password. A successful signup or login answers with the
    token's claims and the public view of the account; signing the token is
    outside this model, so the token is represented by its claims. */
module AuthRoute {
  import opened Common
  import opened Schema
  import opened Tables

  /** The token payload: `{ id, role, email }`. */
  datatype Claims = Claims(id: int, role: Role, email: string)

  /** `{ id, name, role, email }`: the account without address or password hash. */
  datatype PublicUser = PublicUser(id: int, name: string, role: Role, email: string)

  /** `{ token, user }`. */
  datatype AuthReply = AuthReply(token: Claims, user: PublicUser)

  /** The reply for an account: both halves describe the same stored row. */
  function ReplyFor(u: User): (reply: AuthReply)
    ensures reply.token.id == reply.user.id == u.id
    ensures reply.token.role == reply.user.role == u.role
    ensures reply.token.email == reply.user.email == u.email
  {
    AuthReply(Claims(u.id, u.role, u.email), PublicUser(u.id, u.name, u.role, u.email))
  }

  // ---------------------------------------------------------------------------
  // POST /auth/signup

  /** `POST /auth/signup`: a body that fails the schema is refused with 400; a
      registered email is refused with 409 "Email already registered" and
      nothing is written; otherwise a USER account is stored with the hash of
      the password, and the reply names it. */
  method SignUp(db: Database, body: Json, isEmail: string -> bool, salt: nat)
    returns (res: Result<AuthReply, Failure>)
    requires db.Valid()
    modifies db
    ensures db.Valid()
    ensures db.stores == old(db.stores) && db.ratings == old(db.ratings)
    ensures db.nextStoreId == old(db.nextStoreId) && db.nextRatingId == old(db.nextRatingId)
    ensures db.nextUserId == old(db.nextUserId) + (if res.Ok? then 1 else 0)
    ensures ParseSignup(body, isEmail).Err? ==>
      res == Err(BadRequest(ParseSignup(body, isEmail).error)) && db.users == old(db.users)
    ensures ParseSignup(body, isEmail).Ok? ==>
      var d := ParseSignup(body, isEmail).value;
      && (UserWithEmail(old(db.users), d.email).Some? ==>
            res == Err(Conflict("Email already registered")) && db.users == old(db.users))
      && (UserWithEmail(old(db.users), d.email).None? ==>
            var u := User(old(db.nextUserId), d.name, d.email, d.address, Hash(d.password, salt), USER);
            res == Ok(ReplyFor(u)) && db.users == old(db.users) + [u])
  {
    var parsed := ParseSignup(body, isEmail);
    if parsed.Err? {
      return Err(BadRequest(parsed.error));
    }
    var d := parsed.value;
    if UserWithEmail(db.users, d.email).Some? {
      return Err(Conflict("Email already registered"));
    }
    var created := db.CreateUser(d.name, d.email, d.address, Hash(d.password, salt), USER);
    res := Ok(ReplyFor(created.value));
  }

  // ---------------------------------------------------------------------------
  // POST /auth/login

  /** `POST /auth/login`: a body that fails the schema is refused with 400.
      Otherwise the login succeeds exactly when the account registered under
      the email accepts the password, and answers for that account; an unknown
      email and a wrong password are refused alike, with 401 "Invalid
      credentials", so the answer does not tell which of the two it was. */
  function Login(users: seq<User>, body: Json, isEmail: string -> bool): (r: Result<AuthReply, Failure>)
    ensures ParseLogin(body, isEmail).Err? ==> r == Err(BadRequest(ParseLogin(body, isEmail).error))
    ensures ParseLogin(body, isEmail).Ok? ==>
      var d := ParseLogin(body, isEmail).value;
      && (r.Ok? <==> UserWithEmail(users, d.email).Some? && Verify(d.password, users[UserWithEmail(users, d.email).value].passwordHash))
      && (r.Err? ==> r == Err(InvalidCredentials))
      && (r.Ok? ==> exists i | 0 <= i < |users| :: users[i].email == d.email && Verify(d.password, users[i].passwordHash) && r.value == ReplyFor(users[i]))
  {
    match ParseLogin(body, isEmail)
    case Err(issues) => Err(BadRequest(issues))
    case Ok(d) =>
      match UserWithEmail(users, d.email)
      case None => Err(InvalidCredentials)
      case Some(i) =>
        if Verify(d.password, users[i].passwordHash) then Ok(ReplyFor(users[i]))
        else Err(InvalidCredentials)
  }

  /** A login body. */
  function LoginBody(email: string, password: string): Json
  {
    map["email" := Text(email), "password" := Text(password)]
  }

  /** A login body with a well-formed email and a non-empty password passes the schema unchanged. */
  lemma LoginBodyParses(email: string, password: string, isEmail: string -> bool)
    requires isEmail(email) && |password| > 0
    ensures ParseLogin(LoginBody(email, password), isEmail) == Ok(LoginData(email, password))
  {
    var body := LoginBody(email, password);
    assert Get(body, "email") == Text(email) && Get(body, "password") == Text(password);
  }

  /** A freshly registered account can log in with its password at once, and
      the login answers for that account. */
  lemma LoginAfterSignUp(users: seq<User>, u: User, password: string, salt: nat, isEmail: string -> bool)
    requires UserWithEmail(users, u.email).None?
    requires u.passwordHash == Hash(password, salt)
    requires isEmail(u.email) && |password| > 0
    ensures Login(users + [u], LoginBody(u.email, password), isEmail) == Ok(ReplyFor(u))
  {
    var after := users + [u];
    assert forall i | 0 <= i < |users| :: after[i] == users[i] && users[i].email != u.email;
    assert after[|users|] == u;
    assert UserWithEmail(after, u.email) == Some(|users|);
  }

  /** A password other than an account's own never logs into it. */
  lemma WrongPasswordRefused(users: seq<User>, i: nat, password: string, salt: nat, secret: string, isEmail: string -> bool)
    requires i < |users| && UserWithEmail(users, users[i].email) == Some(i)
    requires users[i].passwordHash == Hash(secret, salt) && password != secret
    ensures Login(users, LoginBody(users[i].email, password), isEmail).Err?
  {
  }

  // ---------------------------------------------------------------------------
  // POST /auth/change-password

  /** `POST /auth/change-password` for the caller named by the token: a body
      that fails the schema is refused with 400; an account that no longer
      exists with 404; a wrong old password with 400 "Old password incorrect";
      in all three cases nothing is written. Otherwise the caller's hash, and
      nothing else, is replaced by the hash of the new password. */
  method ChangePassword(db: Database, callerId: int, body: Json, salt: nat)
    returns (res: Result<string, Failure>)
    requires db.Valid()
    modifies db
    ensures db.Valid()
    ensures db.stores == old(db.stores) && db.ratings == old(db.ratings)
    ensures db.nextUserId == old(db.nextUserId) && db.nextStoreId == old(db.nextStoreId) && db.nextRatingId == old(db.nextRatingId)
    ensures res.Err? ==> db.users == old(db.users)
    ensures ParseChangePassword(body).Err? ==> res == Err(BadRequest(ParseChangePassword(body).error))
    ensures ParseChangePassword(body).Ok? ==>
      var d := ParseChangePassword(body).value;
      && (UserWithId(old(db.users), callerId).None? ==> res == Err(NotFound))
      && (UserWithId(old(db.users), callerId).Some? ==>
            var i := UserWithId(old(db.users), callerId).value;
            && (!Verify(d.oldPassword, old(db.users)[i].passwordHash) ==> res == Err(OldPasswordIncorrect))
            && (Verify(d.oldPassword, old(db.users)[i].passwordHash) ==>
                  && res == Ok("Password updated")
                  && db.users == old(db.users)[i := old(db.users)[i].(passwordHash := Hash(d.newPassword, salt))]))
  {
    var parsed := ParseChangePassword(body);
    if parsed.Err? {
      return Err(BadRequest(parsed.error));
    }
    var d := parsed.value;
    var found := UserWithId(db.users, callerId);
    if found.None? {
      return Err(NotFound);
    }
    var user := db.users[found.value];
    if !Verify(d.oldPassword, user.passwordHash) {
      return Err(OldPasswordIncorrect);
    }
    var updated := db.SetPasswordHash(user.id, Hash(d.newPassword, salt));
    res := Ok("Password updated");
  }

  /** After a password change the new password logs in and the old one, when
      it differs, no longer does. */
  lemma PasswordChangeTakesEffect(users: seq<User>, i: nat, oldPassword: string, newPassword: string, salt: nat, isEmail: string -> bool)
    requires i < |users| && UserWithEmail(users, users[i].email) == Some(i)
    requires isEmail(users[i].email) && |newPassword| > 0
    ensures var after := users[i := users[i].(passwordHash := Hash(newPassword, salt))];
      && Login(after, LoginBody(users[i].email, newPassword), isEmail) == Ok(ReplyFor(users[i]))
      && (oldPassword != newPassword ==> Login(after, LoginBody(users[i].email, oldPassword), isEmail).Err?)
  {
    var after := users[i := users[i].(passwordHash := Hash(newPassword, salt))];
    RehashKeepsLookup(users, i, Hash(newPassword, salt));
    assert ReplyFor(after[i]) == ReplyFor(users[i]);
    LoginBodyParses(users[i].email, newPassword, isEmail);
    if oldPassword != newPassword {
      WrongPasswordRefused(after, i, oldPassword, salt, newPassword, isEmail);
    }
  }

  /** Replacing an account's hash leaves the lookup by email where it was. */
  lemma RehashKeepsLookup(users: seq<User>, i: nat, h: PasswordHash)
    requires i < |users| && UserWithEmail(users, users[i].email) == Some(i)
    ensures UserWithEmail(users[i := users[i].(passwordHash := h)], users[i].email) == Some(i)
  {
    var after := users[i := users[i].(passwordHash := h)];
    assert forall j | 0 <= j < |users| :: after[j].email == users[j].email;
  }
}
