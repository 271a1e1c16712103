/**
 * Authentication and authorization for the appointment API: the user table,
 * tokens and their issuance, resolving a bearer token to a user, the login
 * credential check and the admin role gate.
 *
 * Time is a whole number of seconds, passed in by the caller; a token is the
 * abstract pair of its claims and whether its signature verifies.
 */
module Auth {
  import opened Wrappers

  /** The HTTP error a handler raises: a status code and its detail message. */
  datatype HttpError = HttpError(statusCode: int, detail: string)

  const IncorrectCredentials := HttpError(400, "Incorrect username or password")
  const InvalidToken := HttpError(401, "Invalid token")
  const UserNotFound := HttpError(401, "User not found")
  const NotAuthorized := HttpError(403, "Not authorized")

  /** A record of the user table. */
  datatype UserRecord = UserRecord(username: string, password: string, role: string)

  type UserTable = map<string, UserRecord>

  const AdminRole := "admin"

  /** The fixed table the API is started with. */
  const FakeUsersDb: UserTable := map[
    "admin" := UserRecord("admin", "admin123", "admin"),
    "user" := UserRecord("user", "user123", "user")
  ]

  /** Every record is stored under its own username. */
  ghost predicate WellFormed(users: UserTable) {
    forall name :: name in users ==> users[name].username == name
  }

  lemma FakeUsersDbWellFormed()
    ensures WellFormed(FakeUsersDb)
    ensures FakeUsersDb["admin"].role == AdminRole
    ensures FakeUsersDb["user"].role != AdminRole
  {
  }

  // ---------------------------------------------------------------- tokens

  const AccessTokenExpireMinutes := 30
  const DefaultTtl := AccessTokenExpireMinutes * 60

  /** The claims a token carries: an optional subject and an absolute expiry. */
  datatype Claims = Claims(sub: Option<string>, exp: int)

  /** A bearer token; `signatureValid` abstracts the HS256 signature check. */
  datatype Token = Token(claims: Claims, signatureValid: bool)

  /**
   * The lifetime a token is issued with: `expires_delta or 30 minutes`.
   * A missing delta and a zero delta (which Python treats as false) both
   * fall back to the default, so no token is issued with lifetime zero.
   */
  function EffectiveTtl(expiresDelta: Option<int>): (ttl: int)
    ensures ttl != 0
    ensures expiresDelta.Some? && expiresDelta.value != 0 ==> ttl == expiresDelta.value
    ensures expiresDelta.None? || expiresDelta.value == 0 ==> ttl == DefaultTtl
  {
    match expiresDelta
    case Some(d) => if d != 0 then d else DefaultTtl
    case None => DefaultTtl
  }

  /** Issues a correctly signed token for `sub` at time `now`. */
  function CreateAccessToken(sub: string, now: int, expiresDelta: Option<int>): (t: Token)
    ensures t.signatureValid && t.claims.sub == Some(sub)
    ensures expiresDelta.None? ==> t.claims.exp == now + DefaultTtl
    ensures expiresDelta.Some? && expiresDelta.value != 0 ==> t.claims.exp == now + expiresDelta.value
    ensures expiresDelta == Some(0) ==> t.claims.exp == now + DefaultTtl
  {
    Token(Claims(Some(sub), now + EffectiveTtl(expiresDelta)), true)
  }

  /**
   * Decoding a token at time `now`: the claims when the signature verifies
   * and the token has not expired, otherwise `None` (a JWTError).
   */
  function Decode(t: Token, now: int): (r: Option<Claims>)
    ensures r.Some? <==> t.signatureValid && now < t.claims.exp
    ensures r.Some? ==> r.value == t.claims
  {
    if t.signatureValid && now < t.claims.exp then Some(t.claims) else None
  }

  /** The token an attacker gets by rewriting the claims without re-signing. */
  function Tamper(t: Token, claims: Claims): (t': Token)
    ensures t'.claims == claims && (claims != t.claims ==> !t'.signatureValid)
  {
    if claims == t.claims then t else Token(claims, false)
  }

  // -------------------------------------------------------- authentication

  /**
   * Resolves a bearer token to the user table's record for its subject.
   * Every failure is a 401; the record, and so the role, comes from the
   * table, never from the token.
   */
  function GetCurrentUser(users: UserTable, t: Token, now: int): (r: Result<UserRecord, HttpError>)
    ensures r.Ok?
            <==> (t.signatureValid && now < t.claims.exp && t.claims.sub.Some? && t.claims.sub.value in users)
    ensures r.Ok? ==> r.value == users[t.claims.sub.value]
    ensures r.Err? ==> r.error.statusCode == 401
    ensures r.Err? && t.signatureValid && now < t.claims.exp && t.claims.sub.Some?
            ==> r.error == UserNotFound
    ensures !(t.signatureValid && now < t.claims.exp && t.claims.sub.Some?) ==> r == Err(InvalidToken)
  {
    match Decode(t, now)
    case None => Err(InvalidToken)
    case Some(payload) =>
      match payload.sub
      case None => Err(InvalidToken)
      case Some(username) =>
        if username in users then Ok(users[username]) else Err(UserNotFound)
  }

  // ----------------------------------------------------------------- login

  /** The body `login` returns. */
  datatype LoginResponse = LoginResponse(accessToken: Token, tokenType: string)

  /**
   * Checks the credentials against the table by plain string equality and,
   * on success, issues a default-lifetime token for the stored username.
   */
  function Login(users: UserTable, username: string, password: string, now: int)
    : (r: Result<LoginResponse, HttpError>)
    ensures r.Ok? <==> username in users && password == users[username].password
    ensures r.Err? ==> r.error == IncorrectCredentials
    ensures r.Ok? ==> r.value.tokenType == "bearer"
                      && r.value.accessToken.signatureValid
                      && r.value.accessToken.claims.sub == Some(users[username].username)
                      && r.value.accessToken.claims.exp == now + DefaultTtl
  {
    if username !in users || password != users[username].password then
      Err(IncorrectCredentials)
    else
      Ok(LoginResponse(CreateAccessToken(users[username].username, now, None), "bearer"))
  }

  // --------------------------------------------------------- authorization

  /** The role check of the mutating handlers: `None` means allowed. */
  function RequireAdmin(user: UserRecord): (r: Option<HttpError>)
    ensures r.None? <==> user.role == AdminRole
    ensures r.Some? ==> r.value == NotAuthorized
  {
    if user.role != AdminRole then Some(NotAuthorized) else None
  }

  /**
   * The whole chain in front of a mutating handler: authenticate the token,
   * then require the admin role. `None` means the handler may proceed.
   */
  function AdminGate(users: UserTable, t: Token, now: int): (r: Option<HttpError>)
    ensures r.None?
            <==> (GetCurrentUser(users, t, now).Ok? && users[t.claims.sub.value].role == AdminRole)
    ensures r.Some? ==> r.value.statusCode == 401 || r.value.statusCode == 403
    ensures (r.Some? && r.value.statusCode == 403)
            <==> (GetCurrentUser(users, t, now).Ok? && users[t.claims.sub.value].role != AdminRole)
    ensures GetCurrentUser(users, t, now).Err? ==> r == Some(GetCurrentUser(users, t, now).error)
    ensures GetCurrentUser(users, t, now).Ok? && r.Some? ==> r.value == NotAuthorized
  {
    match GetCurrentUser(users, t, now)
    case Err(e) => Some(e)
    case Ok(user) => RequireAdmin(user)
  }

  // ---------------------------------------------------------------- lemmas

  /**
   * A token issued by a successful login authenticates, to the stored record
   * with its stored role, exactly until its expiry 30 minutes later.
   */
  lemma LoginThenAuthenticate(users: UserTable, username: string, password: string, now: int, later: int)
    requires WellFormed(users)
    requires Login(users, username, password, now).Ok?
    ensures var t := Login(users, username, password, now).value.accessToken;
            GetCurrentUser(users, t, later)
              == if later < now + DefaultTtl then Ok(users[username]) else Err(InvalidToken)
  {
  }

  /** A token issued with lifetime `ttl` is accepted before `now + ttl` and refused from then on. */
  lemma ExpiryBoundary(users: UserTable, sub: string, now: int, ttl: int, later: int)
    requires sub in users && ttl != 0
    ensures var t := CreateAccessToken(sub, now, Some(ttl));
            GetCurrentUser(users, t, later).Ok? <==> later < now + ttl
  {
  }

  /** Changing a token's claims without re-signing it never authenticates. */
  lemma TamperedTokenRejected(users: UserTable, t: Token, claims: Claims, now: int)
    requires claims != t.claims
    ensures GetCurrentUser(users, Tamper(t, claims), now) == Err(InvalidToken)
  {
  }

  /**
   * The role is re-read from the live table: after the table changes the
   * subject's role, an already-issued token resolves to the new role.
   */
  lemma RoleComesFromTable(users: UserTable, t: Token, now: int, role: string)
    requires GetCurrentUser(users, t, now).Ok?
    ensures var u := t.claims.sub.value;
            GetCurrentUser(users[u := users[u].(role := role)], t, now) == Ok(users[u].(role := role))
  {
  }

  /** The fixed table: admin and user log in with their passwords, anything else is a 400. */
  lemma FakeUsersLogin(now: int)
    ensures Login(FakeUsersDb, "admin", "admin123", now).Ok?
    ensures Login(FakeUsersDb, "user", "user123", now).Ok?
    ensures Login(FakeUsersDb, "admin", "user123", now) == Err(IncorrectCredentials)
    ensures Login(FakeUsersDb, "nobody", "admin123", now) == Err(IncorrectCredentials)
  {
  }
}
