/**
 * The login handler of app/api/auth/login/route.ts: a decision over the
 * request body and the result of the users lookup. The token is opaque: it
 * stands for the base64 text of a subject and the time of issue.
 */
module LoginRoute {
  import opened JsValues
  import opened LocationStore

  /** The request body: unreadable, or the two fields it may carry. */
  datatype LoginRequest = Unreadable | LoginBody(username: JsValue, password: JsValue)

  /** The outcome of the users lookup: the rows it returned, or a thrown database error. */
  datatype Lookup = Found(users: seq<User>) | DatabaseError

  /** What a token encodes besides the time: the user's id, or on the fallback path the username. */
  datatype TokenSubject = ById(userId: int) | ByName(username: string)

  datatype Token = Token(subject: TokenSubject, issuedAt: int)

  datatype UserSummary = UserSummary(id: int, username: string, name: string, role: string)

  /** A successful login (status 200) or an error status with its message. */
  datatype LoginResponse =
    | LoggedIn(token: Token, user: UserSummary)
    | Refused(status: int, error: string)

  const MissingFields := "Usuario y contraseña requeridos"
  const InvalidCredentials := "Usuario o contraseña inválidos"
  const AuthFailure := "Error de autenticación"

  /** The summary of the fallback administrator, served when the lookup throws. */
  const FallbackAdmin := UserSummary(1, "ilde", "Ilde Núñez", "admin")

  /** `s || fallback` for a string. */
  function OrDefault(s: string, fallback: string): string {
    if s == "" then fallback else s
  }

  /** Whether the request carries both fields with a truthy value. */
  predicate HasCredentials(req: LoginRequest) {
    req.LoginBody? && !Falsy(req.username) && !Falsy(req.password)
  }

  /** The response to a login attempt, given the lookup result and the current time. */
  function Login(req: LoginRequest, lookup: Lookup, now: int): (r: LoginResponse)
    ensures req.Unreadable? ==> r == Refused(500, AuthFailure)
    ensures req.LoginBody? ==> (r == Refused(400, MissingFields) <==> !HasCredentials(req))
    // every credential failure gives the same answer, whatever its cause
    ensures HasCredentials(req) ==> r.LoggedIn? || r == Refused(401, InvalidCredentials)
    ensures HasCredentials(req) && lookup.Found? ==>
      (r.LoggedIn? <==> |lookup.users| > 0 && req.password == Str(lookup.users[0].password))
    ensures r.LoggedIn? && lookup.Found? ==>
      var u := lookup.users[0];
      r.token == Token(ById(u.id), now) && r.user.id == u.id && r.user.username == u.username &&
      (u.name != "" ==> r.user.name == u.name) && (u.name == "" ==> r.user.name == "Usuario") &&
      (u.role != "" ==> r.user.role == u.role) && (u.role == "" ==> r.user.role == "user")
    ensures r.LoggedIn? ==> r.user.name != "" && r.user.role != ""
    ensures lookup.DatabaseError? ==>
      (r.LoggedIn? <==> req == LoginBody(Str("ilde"), Str("8019")))
    ensures r.LoggedIn? && lookup.DatabaseError? ==>
      r.user == FallbackAdmin && r.token == Token(ByName("ilde"), now)
  {
    match req
    case Unreadable => Refused(500, AuthFailure)
    case LoginBody(username, password) =>
      if Falsy(username) || Falsy(password) then Refused(400, MissingFields)
      else
        match lookup
        case Found(users) =>
          if |users| == 0 then Refused(401, InvalidCredentials)
          else
            var user := users[0];
            if Str(user.password) != password then Refused(401, InvalidCredentials)
            else
              LoggedIn(Token(ById(user.id), now),
                       UserSummary(user.id, user.username, OrDefault(user.name, "Usuario"), OrDefault(user.role, "user")))
        case DatabaseError =>
          if username == Str("ilde") && password == Str("8019") then
            LoggedIn(Token(ByName(username.text), now), FallbackAdmin)
          else Refused(401, InvalidCredentials)
  }

  /**
   * The handler against the in-memory store: the users lookup is issued only
   * once both fields are present, and it never throws.
   */
  method Authenticate(store: Store, req: LoginRequest, now: int) returns (r: LoginResponse)
    modifies store
    ensures store.locations == old(store.locations)
    // no lookup is issued; by ValidationIgnoresLookup any lookup result gives this answer
    ensures !HasCredentials(req) ==> store.received == old(store.received) && r == Login(req, Found([]), now)
    ensures HasCredentials(req) ==>
      store.received == old(store.received) + [SelectUserByUsername] &&
      r == Login(req, Found(UsersNamed(MockUsers(), req.username)), now)
  {
    if req.Unreadable? {
      return Refused(500, AuthFailure);
    }
    if Falsy(req.username) || Falsy(req.password) {
      return Refused(400, MissingFields);
    }
    var res := store.Query(SelectUserByUsername, [req.username]);
    r := Login(req, Found(res.users), now);
  }

  /** Until the body is read and both fields are present, the lookup plays no part. */
  lemma ValidationIgnoresLookup(req: LoginRequest, a: Lookup, b: Lookup, now: int)
    requires !HasCredentials(req)
    ensures Login(req, a, now) == Login(req, b, now)
    ensures Login(req, a, now).Refused? && Login(req, a, now).status in {400, 500}
  {
  }

  /** An unknown username and a wrong password are refused identically. */
  lemma UnknownUserLikeWrongPassword(username: string, password: string, user: User, now: int)
    requires username != "" && password != "" && user.password != password
    ensures Login(LoginBody(Str(username), Str(password)), Found([]), now)
         == Login(LoginBody(Str(username), Str(password)), Found([user]), now)
         == Refused(401, InvalidCredentials)
  {
  }

  /** With the seed users, exactly "ilde" / "8019" logs in, as the administrator. */
  lemma SeedLogin(username: string, password: string, now: int)
    ensures
      var r := Login(LoginBody(Str(username), Str(password)), Found(UsersNamed(MockUsers(), Str(username))), now);
      (r.LoggedIn? <==> username == "ilde" && password == "8019") &&
      (r.LoggedIn? ==> r.user == FallbackAdmin)
  {
    var users := MockUsers();
    assert users[1..] == [];
    assert UsersNamed(users[1..], Str(username)) == [];
  }

  /**
   * The fallback on a database error accepts the same credentials as the seed
   * users and returns the same summary; only the token subject differs.
   */
  lemma FallbackAgreesWithSeed(username: string, password: string, now: int)
    ensures
      var seeded := Login(LoginBody(Str(username), Str(password)), Found(UsersNamed(MockUsers(), Str(username))), now);
      var fallback := Login(LoginBody(Str(username), Str(password)), DatabaseError, now);
      (seeded.LoggedIn? <==> fallback.LoggedIn?) &&
      (seeded.LoggedIn? ==> seeded.user == fallback.user &&
                            seeded.token.subject == ById(1) && fallback.token.subject == ByName("ilde")) &&
      (seeded.Refused? ==> seeded == fallback)
  {
    SeedLogin(username, password, now);
  }
}
