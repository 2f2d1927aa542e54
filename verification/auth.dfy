/**
 * Access rules: roles and capabilities, the claims of a session token, identity
 * resolution from the session cookie, password login and the cookie options.
 * Signing, signature verification, expiry and password hashing are foreign
 * code: their verdicts are inputs.
 */
module Auth {
  import opened Wrappers
  import opened Json
  import opened Validators

  datatype Role = ADMIN | EDITOR | VIEWER

  /** The identity a request runs as (`RequestUser`). */
  datatype User = User(id: string, username: string, role: Role)

  const COOKIE_NAME: string := "camco_session"

  /** A session token expires seven days after it is issued. */
  const SESSION_TTL_SECONDS: int := 7 * 24 * 60 * 60

  function RoleName(r: Role): string {
    match r
    case ADMIN => "ADMIN"
    case EDITOR => "EDITOR"
    case VIEWER => "VIEWER"
  }

  /** The role a claim value names exactly, if any. */
  function RoleOfClaim(v: Json): (r: Option<Role>)
    ensures r.Some? <==> (v == JStr("ADMIN") || v == JStr("EDITOR") || v == JStr("VIEWER"))
    ensures r.Some? ==> v == JStr(RoleName(r.value))
  {
    if v == JStr("ADMIN") then Some(ADMIN)
    else if v == JStr("EDITOR") then Some(EDITOR)
    else if v == JStr("VIEWER") then Some(VIEWER)
    else None
  }

  predicate CanEdit(u: User) {
    u.role == ADMIN || u.role == EDITOR
  }

  predicate CanExport(u: User) {
    u.role == ADMIN || u.role == EDITOR
  }

  predicate CanDelete(u: User) {
    u.role == ADMIN || u.role == EDITOR
  }

  /** The three capabilities always agree, and a viewer has none of them. */
  lemma CapabilitiesAgree(u: User)
    ensures CanEdit(u) == CanExport(u) == CanDelete(u)
    ensures CanEdit(u) <==> u.role != VIEWER
  {
  }

  /** The payload `createSessionJwt` signs for `u` at time `now` (seconds). */
  function SessionClaims(u: User, now: int): map<string, Json> {
    map[
      "sub" := JStr(u.id),
      "username" := JStr(u.username),
      "role" := JStr(RoleName(u.role)),
      "iat" := JNum(now as real),
      "exp" := JNum((now + SESSION_TTL_SECONDS) as real)
    ]
  }

  /** Why `verifySessionJwt` throws. */
  datatype AuthError = MissingSecret | TokenRejected | InvalidSubject | InvalidUsername | InvalidRole

  /** What `jwtVerify` reports for a token: its payload, or a bad signature, expiry or malformed token. */
  datatype Verification = Verified(payload: map<string, Json>) | Rejected

  /**
   * The claim checks of `verifySessionJwt` on a verified payload, in source
   * order: `sub` must be a string, then `username`, then `role` one of the three roles.
   */
  function UserOfClaims(p: map<string, Json>): (r: Result<User, AuthError>)
    ensures r.Success? <==>
      ("sub" in p && p["sub"].JStr? && "username" in p && p["username"].JStr? && "role" in p && RoleOfClaim(p["role"]).Some?)
    ensures r.Success? ==>
      && p["sub"] == JStr(r.value.id)
      && p["username"] == JStr(r.value.username)
      && p["role"] == JStr(RoleName(r.value.role))
  {
    if "sub" !in p || !p["sub"].JStr? then Failure(InvalidSubject)
    else if "username" !in p || !p["username"].JStr? then Failure(InvalidUsername)
    else if "role" !in p then Failure(InvalidRole)
    else match RoleOfClaim(p["role"])
      case None => Failure(InvalidRole)
      case Some(role) => Success(User(p["sub"].s, p["username"].s, role))
  }

  /** Round trip: the claims signed for a user pass the checks and give that user back. */
  lemma SessionClaimsRoundTrip(u: User, now: int)
    ensures UserOfClaims(SessionClaims(u, now)) == Success(u)
  {
    var p := SessionClaims(u, now);
    assert p["role"] == JStr(RoleName(u.role));
  }

  /**
   * `verifySessionJwt`: the secret must be configured (a missing or empty
   * AUTH_JWT_SECRET throws), the token must verify, then the claims are checked.
   */
  function VerifySessionJwt(secret: Option<string>, token: string, verify: string -> Verification): (r: Result<User, AuthError>)
    ensures (secret.None? || secret == Some("")) ==> r == Failure(MissingSecret)
    ensures secret.Some? && secret != Some("") && verify(token).Rejected? ==> r == Failure(TokenRejected)
    ensures secret.Some? && secret != Some("") && verify(token).Verified? ==> r == UserOfClaims(verify(token).payload)
  {
    if secret.None? || secret == Some("") then Failure(MissingSecret)
    else match verify(token)
      case Rejected => Failure(TokenRejected)
      case Verified(p) => UserOfClaims(p)
  }

  /**
   * `getUserFromNextRequest` and `getRequestUser`: no (or an empty) session
   * cookie gives `null`, and every failure of verification is caught and gives
   * `null`; nothing is thrown to the caller.
   */
  function UserFromCookie(cookie: Option<string>, secret: Option<string>, verify: string -> Verification): (r: Option<User>)
    ensures cookie.None? || cookie == Some("") ==> r.None?
    ensures cookie.Some? && cookie != Some("") ==>
      (r.Some? <==> VerifySessionJwt(secret, cookie.value, verify).Success?)
    ensures r.Some? ==> r.value == VerifySessionJwt(secret, cookie.value, verify).value
  {
    match cookie
    case None => None
    case Some(token) =>
      if token == "" then None
      else match VerifySessionJwt(secret, token, verify)
        case Success(u) => Some(u)
        case Failure(_) => None
  }

  /** A token whose signature verifies and whose payload is a session payload resolves to its user. */
  lemma SessionResolves(u: User, now: int, token: string, secret: string, verify: string -> Verification)
    requires token != "" && secret != ""
    requires verify(token) == Verified(SessionClaims(u, now))
    ensures UserFromCookie(Some(token), Some(secret), verify) == Some(u)
  {
    SessionClaimsRoundTrip(u, now);
  }

  /** A user row as stored, with the password hash. */
  datatype StoredUser = StoredUser(id: string, username: string, passwordHash: string, role: Role)

  /**
   * `authenticateUsernamePassword`: `null` for an unknown username or a
   * password that does not match the stored hash; otherwise the stored
   * identity. `users` is the table keyed by the unique username; `matches` is
   * the password-hash comparison.
   */
  function Authenticate(users: map<string, StoredUser>, input: Credentials, matches: (string, string) -> bool): (r: Option<User>)
    ensures input.username !in users ==> r.None?
    ensures input.username in users && !matches(input.password, users[input.username].passwordHash) ==> r.None?
    ensures input.username in users && matches(input.password, users[input.username].passwordHash) ==>
      r == Some(User(users[input.username].id, users[input.username].username, users[input.username].role))
  {
    if input.username !in users then None
    else
      var row := users[input.username];
      if !matches(input.password, row.passwordHash) then None
      else Some(User(row.id, row.username, row.role))
  }

  /** A successful login, turned into a session and read back, resolves to the same identity. */
  lemma LoginThenResolve(users: map<string, StoredUser>, input: Credentials, matches: (string, string) -> bool,
                         now: int, token: string, secret: string, verify: string -> Verification)
    requires Authenticate(users, input, matches).Some?
    requires token != "" && secret != ""
    requires verify(token) == Verified(SessionClaims(Authenticate(users, input, matches).value, now))
    ensures UserFromCookie(Some(token), Some(secret), verify) == Authenticate(users, input, matches)
  {
    SessionResolves(Authenticate(users, input, matches).value, now, token, secret, verify);
  }

  datatype SameSite = Lax | Strict | NoRestriction

  datatype CookieOptions = CookieOptions(name: string, httpOnly: bool, sameSite: SameSite, secure: bool, path: string)

  /** `sessionCookieOptions`: the cookie is marked secure exactly in production. */
  function SessionCookieOptions(nodeEnv: Option<string>): (r: CookieOptions)
    ensures r.name == COOKIE_NAME && r.httpOnly && r.sameSite == Lax && r.path == "/"
    ensures r.secure <==> nodeEnv == Some("production")
  {
    CookieOptions(COOKIE_NAME, true, Lax, nodeEnv == Some("production"), "/")
  }
}
