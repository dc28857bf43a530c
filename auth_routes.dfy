/**
 * `POST /auth/register` and `POST /auth/login`: account creation with a unique email and
 * a hashed password, and a login whose two failures answer identically.
 */
module AuthRoutes {
  import opened Wrappers
  import opened Api
  import opened Schema
  import Zod
  import Bcrypt
  import Query
  import Middleware

  datatype RegisterBody = RegisterBody(email: string, password: string, name: string)
  datatype LoginBody = LoginBody(email: string, password: string)

  /** A user as the API shows it: never the password. */
  datatype PublicUser = PublicUser(id: int, email: string, name: string)
  datatype AuthResponse = AuthResponse(user: PublicUser, token: string)

  /** `registerSchema`: a well-formed email, a password of 6 or more, a name of 2 or more. */
  function ParseRegister(body: Zod.Body): (r: Result<RegisterBody>)
    ensures r.Ok? <==>
      && Zod.Get(body, "email").Text? && Zod.ValidEmail(Zod.Get(body, "email").s)
      && Zod.Get(body, "password").Text? && |Zod.Get(body, "password").s| >= 6
      && Zod.Get(body, "name").Text? && |Zod.Get(body, "name").s| >= 2
    ensures r.Ok? ==>
      r.value == RegisterBody(Zod.Get(body, "email").s, Zod.Get(body, "password").s, Zod.Get(body, "name").s)
    ensures r.Err? ==>
      && r.error.code == BadRequest && r.error.message == "Validation failed"
      && 1 <= |r.error.details| <= 3
      && forall i :: 0 <= i < |r.error.details| ==> r.error.details[i] in ["email", "password", "name"]
    ensures r.Err? ==> ("email" in r.error.details <==> !(Zod.Get(body, "email").Text? && Zod.ValidEmail(Zod.Get(body, "email").s)))
    ensures r.Err? ==> ("password" in r.error.details <==> !(Zod.Get(body, "password").Text? && |Zod.Get(body, "password").s| >= 6))
    ensures r.Err? ==> ("name" in r.error.details <==> !(Zod.Get(body, "name").Text? && |Zod.Get(body, "name").s| >= 2))
  {
    var email, password, name := Zod.Get(body, "email"), Zod.Get(body, "password"), Zod.Get(body, "name");
    var issues := Zod.Issues("email", Zod.EmailIssues(email))
      + Zod.Issues("password", Zod.StringMinIssues(password, 6))
      + Zod.Issues("name", Zod.StringMinIssues(name, 2));
    if issues == [] then Ok(RegisterBody(email.s, password.s, name.s))
    else Err(ValidationFailed(issues))
  }

  /** `loginSchema`: a well-formed email and any string as password. */
  function ParseLogin(body: Zod.Body): (r: Result<LoginBody>)
    ensures r.Ok? <==>
      Zod.Get(body, "email").Text? && Zod.ValidEmail(Zod.Get(body, "email").s) && Zod.Get(body, "password").Text?
    ensures r.Ok? ==> r.value == LoginBody(Zod.Get(body, "email").s, Zod.Get(body, "password").s)
    ensures r.Err? ==>
      && r.error.code == BadRequest && r.error.message == "Validation failed"
      && 1 <= |r.error.details| <= 2
      && forall i :: 0 <= i < |r.error.details| ==> r.error.details[i] in ["email", "password"]
    ensures r.Err? ==> ("email" in r.error.details <==> !(Zod.Get(body, "email").Text? && Zod.ValidEmail(Zod.Get(body, "email").s)))
    ensures r.Err? ==> ("password" in r.error.details <==> !Zod.Get(body, "password").Text?)
  {
    var email, password := Zod.Get(body, "email"), Zod.Get(body, "password");
    var issues := Zod.Issues("email", Zod.EmailIssues(email)) + Zod.Issues("password", Zod.StringIssues(password));
    if issues == [] then Ok(LoginBody(email.s, password.s))
    else Err(ValidationFailed(issues))
  }

  /** The JSON body a client sends to log in. */
  function LoginRequest(email: string, password: string): Zod.Body {
    map["email" := Zod.Text(email), "password" := Zod.Text(password)]
  }

  /** `SELECT ... FROM users WHERE email = ?`, the first row found. */
  function FindUserByEmail(t: Tables, email: string): (r: Option<User>)
    requires Consistent(t)
    ensures r.None? <==> !EmailTaken(t, email)
    ensures r.Some? ==> r.value.id in t.users && t.users[r.value.id] == r.value && r.value.email == email
  {
    var found := Query.Select(t.users, t.userSeq, (u: User) => u.email == email);
    assert EmailTaken(t, email) ==> |found| > 0 by {
      if EmailTaken(t, email) {
        var k :| k in t.users && t.users[k].email == email;
        assert t.users[k] in found;
      }
    }
    if |found| == 0 then None
    else
      assert found[0] in found;
      Some(found[0])
  }

  /**
   * The register handler: validation, then the uniqueness check, then one insert of the
   * hashed password. `salt` is the random salt bcrypt draws; `now` the clock.
   */
  method Register(db: Database, body: Zod.Body, secret: string, salt: nat, now: Timestamp)
    returns (r: Result<AuthResponse>)
    requires db.Valid()
    modifies db
    ensures db.Valid()
    ensures ParseRegister(body).Err? ==> r == Err(ParseRegister(body).error) && db.State() == old(db.State())
    ensures ParseRegister(body).Ok? && EmailTaken(old(db.State()), ParseRegister(body).value.email) ==>
      r == Err(UserExists) && db.State() == old(db.State())
    ensures ParseRegister(body).Ok? && !EmailTaken(old(db.State()), ParseRegister(body).value.email) ==>
      var b := ParseRegister(body).value;
      var id := old(db.userSeq) + 1;
      && r == Ok(AuthResponse(PublicUser(id, b.email, b.name), Middleware.GenerateToken(id, secret, now)))
      && db.State() == old(db.State()).(
           users := old(db.users)[id := User(id, b.email, Bcrypt.Hash(b.password, Bcrypt.Rounds, salt), b.name, now)],
           userSeq := id)
  {
    var parsed := ParseRegister(body);
    if parsed.Err? {
      return Err(parsed.error);
    }
    var b := parsed.value;
    var existing := FindUserByEmail(db.State(), b.email);
    if existing.Some? {
      return Err(UserExists);
    }
    var hashed := Bcrypt.Hash(b.password, Bcrypt.Rounds, salt);
    var outcome := db.InsertUser(b.email, hashed, b.name, now);
    var userId := outcome.id;
    r := Ok(AuthResponse(PublicUser(userId, b.email, b.name), Middleware.GenerateToken(userId, secret, now)));
  }

  /**
   * The login handler, which only reads the store: the matched user and a fresh token,
   * or the one "Invalid email or password" answer for an unknown email and for a wrong
   * password alike.
   */
  function Login(t: Tables, body: Zod.Body, secret: string, now: Timestamp): (r: Result<AuthResponse>)
    requires Consistent(t)
    ensures ParseLogin(body).Err? ==> r == Err(ParseLogin(body).error)
    ensures ParseLogin(body).Ok? && r.Err? ==> r.error == InvalidCredentials
    ensures ParseLogin(body).Ok? ==>
      (r.Ok? <==> exists k :: k in t.users && t.users[k].email == ParseLogin(body).value.email &&
                             Bcrypt.Compare(ParseLogin(body).value.password, t.users[k].password))
    ensures r.Ok? ==> r.value.user.id in t.users
    ensures r.Ok? && r.value.user.id in t.users ==>
      var u := t.users[r.value.user.id];
      && u.email == ParseLogin(body).value.email
      && Bcrypt.Compare(ParseLogin(body).value.password, u.password)
      && r.value.user == PublicUser(u.id, u.email, u.name)
      && r.value.token == Middleware.GenerateToken(u.id, secret, now)
  {
    match ParseLogin(body)
    case Err(e) => Err(e)
    case Ok(b) =>
      match FindUserByEmail(t, b.email)
      case None => Err(InvalidCredentials)
      case Some(u) =>
        if !Bcrypt.Compare(b.password, u.password) then Err(InvalidCredentials)
        else Ok(AuthResponse(PublicUser(u.id, u.email, u.name), Middleware.GenerateToken(u.id, secret, now)))
  }

  /** An unknown email and a wrong password cannot be told apart by the answer. */
  lemma LoginFailuresAlike(t: Tables, email: string, password: string, wrong: string, secret: string, now: Timestamp)
    requires Consistent(t) && Zod.ValidEmail(email)
    requires EmailTaken(t, email) ==> forall k :: k in t.users && t.users[k].email == email ==>
      !Bcrypt.Compare(wrong, t.users[k].password)
    ensures Login(t, LoginRequest(email, wrong), secret, now) == Err(InvalidCredentials)
  {
    assert ParseLogin(LoginRequest(email, wrong)).Ok?;
  }

  /** The tables after registering `email` in `t`. */
  function Registered(t: Tables, email: string, password: string, name: string, salt: nat, now: Timestamp): Tables {
    var id := t.userSeq + 1;
    t.(users := t.users[id := User(id, email, Bcrypt.Hash(password, Bcrypt.Rounds, salt), name, now)], userSeq := id)
  }

  /** Whoever registered can log in with the same password and gets their own account back. */
  lemma RegisterThenLogin(t: Tables, email: string, password: string, name: string, salt: nat,
                          now: Timestamp, secret: string, later: Timestamp)
    requires Consistent(t) && !EmailTaken(t, email) && Zod.ValidEmail(email)
    ensures Consistent(Registered(t, email, password, name, salt, now))
    ensures var id := t.userSeq + 1;
      Login(Registered(t, email, password, name, salt, now), LoginRequest(email, password), secret, later) ==
        Ok(AuthResponse(PublicUser(id, email, name), Middleware.GenerateToken(id, secret, later)))
  {
    var id := t.userSeq + 1;
    var t' := Registered(t, email, password, name, salt, now);
    assert ParseLogin(LoginRequest(email, password)) == Ok(LoginBody(email, password));
    Bcrypt.CompareHash(password, Bcrypt.Rounds, salt);
    assert EmailTaken(t', email) by {
      assert t'.users[id].email == email;
    }
    var u := FindUserByEmail(t', email).value;
    assert u.id == id by {
      assert forall k :: k in t'.users && t'.users[k].email == email ==> k == id;
    }
  }
}
