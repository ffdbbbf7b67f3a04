/**
  Users, signed tokens and the refresh-token table, and what each call of the auth service
  does to them. Signing, hashing and password hashing are injective, so a signed token is
  its claims, a digest is the token it was taken of, and a password hash its salt and password.
  Times are microseconds; a UUID is a number of which only equality is used.
*/
module AuthModel {
  import opened Optional

  type Time = int
  type Uuid = nat

  const SECOND := 1_000_000
  const MINUTE := 60 * SECOND
  const DAY := 86_400 * SECOND

  datatype PasswordHash = Pbkdf2(salt: nat, password: string) | OtherScheme(text: string)

  predicate VerifyPassword(password: string, encoded: PasswordHash) {
    encoded.Pbkdf2? && encoded.password == password
  }

  datatype User = User(tenant: string, userId: Uuid, username: string, role: string, status: string,
                       password: PasswordHash)

  /** The claims of a token; `exp` is in whole seconds (section 4.1.4 of RFC 7519). */
  datatype Claims = Claims(typ: string, jti: Option<Uuid>, tenant: string, userId: Uuid, role: string, session: Uuid,
                           exp: int)

  /** A token signed with the service's secret, or any other text. */
  datatype Token = Signed(claims: Claims) | Unsigned(text: string)

  datatype Digest = Digest(of: Token)

  /** A row of the refresh-token table. */
  datatype Row = Row(tenant: string, userId: Uuid, session: Uuid, digest: Digest, expires: Time, revoked: bool)

  /** `int(datetime.timestamp())`: whole seconds, truncated toward zero. */
  function WholeSeconds(t: Time): int {
    if t >= 0 then t / SECOND else -((-t) / SECOND)
  }

  datatype AuthError =
    | InvalidLogin | UserDisabled
    | InvalidOrExpiredToken | WrongTokenType | MissingTokenId
    | TokenNotFound | TokenRevoked | TokenExpired | TokenMismatch | UserUnavailable
    | BootstrapDisabled

  /** `_decode_token`: the signature is checked, then the expiry claim against the clock. */
  function Decode(token: Token, now: Time): Result<Claims, AuthError> {
    if token.Signed? && token.claims.exp * SECOND > now then Ok(token.claims) else Err(InvalidOrExpiredToken)
  }

  /** Who a request is made by. */
  datatype AuthContext = AuthContext(tenant: string, userId: Uuid, role: string, session: Uuid, exp: int)

  /** `decode_access_token` on a token with all its claims. */
  function DecodeAccess(token: Token, now: Time): Result<AuthContext, AuthError> {
    match Decode(token, now)
    case Err(e) => Err(e)
    case Ok(c) =>
      if c.typ != "access" then Err(WrongTokenType) else Ok(AuthContext(c.tenant, c.userId, c.role, c.session, c.exp))
  }

  datatype LoginResponse = LoginResponse(access: Token, refresh: Token, expiresIn: int,
                                         tenant: string, userId: Uuid, role: string, session: Uuid)

  type Users = map<(string, string), User>
  type Table = map<Uuid, Row>

  /** The configured lifetimes: minutes for access tokens, days for refresh tokens. */
  datatype Lifetimes = Lifetimes(access: int, refresh: int)

  /** The store, and the history of what was issued and redeemed. */
  datatype State = State(
    users: Users,
    table: Table,
    used: set<Uuid>,               // every UUID drawn so far
    issued: map<Uuid, Token>,      // every refresh token issued, by its id
    chains: map<Uuid, seq<Uuid>>,  // per session, the ids of its refresh tokens in order of issue
    owners: map<Uuid, (string, Uuid)>, // per session, the tenant and user it was opened for
    redeemed: seq<Uuid>)           // ids exchanged for a new token, in order

  /** `get_user_by_id` scans for a matching user; ids are unique, so at most one matches. */
  ghost predicate FindsUser(users: Users, tenant: string, userId: Uuid, found: Option<User>) {
    match found
    case None => forall k | k in users :: !(users[k].tenant == tenant && users[k].userId == userId)
    case Some(u) => u.tenant == tenant && u.userId == userId && exists k :: k in users && users[k] == u
  }

  ghost predicate HasUser(users: Users, tenant: string, userId: Uuid) {
    exists k :: k in users && users[k].tenant == tenant && users[k].userId == userId
  }

  ghost function UserById(users: Users, tenant: string, userId: Uuid): (found: Option<User>)
    ensures FindsUser(users, tenant, userId, found)
  {
    if HasUser(users, tenant, userId) then
      var k :| k in users && users[k].tenant == tenant && users[k].userId == userId;
      Some(users[k])
    else None
  }

  function RefreshClaims(jti: Uuid, tenant: string, userId: Uuid, session: Uuid, expires: Time): Claims {
    Claims("refresh", Some(jti), tenant, userId, "", session, WholeSeconds(expires))
  }

  /** The refresh token a row was stored for. */
  function TokenOf(jti: Uuid, row: Row): Token {
    Signed(RefreshClaims(jti, row.tenant, row.userId, row.session, row.expires))
  }

  /** What `_issue_tokens` hands out. */
  function Issued(user: User, session: Uuid, jti: Uuid, now: Time, ttl: Lifetimes): LoginResponse {
    var access := Claims("access", None, user.tenant, user.userId, user.role, session,
        WholeSeconds(now + ttl.access * MINUTE));
    var refresh := RefreshClaims(jti, user.tenant, user.userId, session, now + ttl.refresh * DAY);
    LoginResponse(Signed(access), Signed(refresh), ttl.access * 60, user.tenant, user.userId, user.role, session)
  }

  function ChainOf(chains: map<Uuid, seq<Uuid>>, session: Uuid): seq<Uuid> {
    if session in chains then chains[session] else []
  }

  /** `_issue_tokens` on the store: one new live row, one more link of the session's chain. */
  function Issue(s: State, user: User, session: Uuid, jti: Uuid, now: Time, ttl: Lifetimes): State {
    var token := Issued(user, session, jti, now, ttl).refresh;
    s.(table := s.table[jti := Row(user.tenant, user.userId, session, Digest(token), now + ttl.refresh * DAY, false)],
       used := s.used + {session, jti},
       issued := s.issued[jti := token],
       chains := s.chains[session := ChainOf(s.chains, session) + [jti]],
       owners := if session in s.owners then s.owners else s.owners[session := (user.tenant, user.userId)])
  }

  function Revoke(table: Table, jti: Uuid): Table {
    if jti in table then table[jti := table[jti].(revoked := true)] else table
  }

  function Cleaned(table: Table, now: Time): Table {
    map id | id in table && table[id].expires > now :: table[id]
  }

  // ------------------------------------------------------------- operations

  /** One call. UUIDs and salts are drawn by the caller; a refresh reads the clock three times. */
  datatype Op =
    | CreateUser(tenant: string, username: string, password: PasswordHash, role: string, status: string, userId: Uuid)
    | UpdateUser(tenant: string, userId: Uuid, newRole: Option<string>, newStatus: Option<string>,
                 newPassword: Option<PasswordHash>)
    | Bootstrap(tenant: string, username: string, password: PasswordHash, userId: Uuid)
    | Login(tenant: string, username: string, secret: string, session: Uuid, jti: Uuid, now: Time)
    | Refresh(token: Token, jti: Uuid, decoded: Time, checked: Time, now: Time)
    | Logout(token: Token, now: Time)
    | Cleanup(now: Time)

  datatype Answer =
    | Granted(response: LoginResponse)
    | Denied(error: AuthError)
    | UserIs(user: Option<User>)
    | Done

  /** `x or y`: a missing or empty value keeps the old one. */
  function Or(value: Option<string>, current: string): string {
    if value.Some? && value.value != "" then value.value else current
  }

  function Updated(u: User, role: Option<string>, status: Option<string>, password: Option<PasswordHash>): User {
    u.(role := Or(role, u.role), status := Or(status, u.status),
       password := if password.Some? then password.value else u.password)
  }

  function UpdatedUsers(users: Users, tenant: string, userId: Uuid,
                        role: Option<string>, status: Option<string>, password: Option<PasswordHash>): Users
  {
    map k | k in users ::
      if users[k].tenant == tenant && users[k].userId == userId then Updated(users[k], role, status, password)
          else users[k]
  }

  ghost function DoLogin(s: State, op: Op, ttl: Lifetimes): (State, Answer)
    requires op.Login?
  {
    if (op.tenant, op.username) !in s.users then (s, Denied(InvalidLogin))
    else
      var user := s.users[(op.tenant, op.username)];
      if user.status != "active" then (s, Denied(UserDisabled))
      else if !VerifyPassword(op.secret, user.password) then (s, Denied(InvalidLogin))
      else (Issue(s, user, op.session, op.jti, op.now, ttl), Granted(Issued(user, op.session, op.jti, op.now, ttl)))
  }

  /** The checks of `refresh` in order; Ok carries the id of the row and the user. */
  ghost function CheckRefresh(s: State, token: Token, decoded: Time, checked: Time):
    (r: Result<(Uuid, User), AuthError>)
    ensures r.Ok? ==> r.value.0 in s.table
  {
    match Decode(token, decoded)
    case Err(e) => Err(e)
    case Ok(claims) =>
      if claims.typ != "refresh" then Err(WrongTokenType)
      else if claims.jti.None? then Err(MissingTokenId)
      else
        var id := claims.jti.value;
        if id !in s.table then Err(TokenNotFound)
        else
          var row := s.table[id];
          if row.revoked then Err(TokenRevoked)
          else if row.expires <= checked then Err(TokenExpired)
          else if Digest(token) != row.digest then Err(TokenMismatch)
          else
            match UserById(s.users, row.tenant, row.userId)
            case None => Err(UserUnavailable)
            case Some(user) => if user.status != "active" then Err(UserUnavailable) else Ok((id, user))
  }

  /** Rotation (section 10.4 of RFC 6749): the old token is revoked, a new one joins the same session. */
  ghost function DoRefresh(s: State, op: Op, ttl: Lifetimes): (State, Answer)
    requires op.Refresh?
  {
    match CheckRefresh(s, op.token, op.decoded, op.checked)
    case Err(e) => (s, Denied(e))
    case Ok((id, user)) =>
      var session := s.table[id].session;
      var revoked := s.(table := Revoke(s.table, id), redeemed := s.redeemed + [id]);
      (Issue(revoked, user, session, op.jti, op.now, ttl), Granted(Issued(user, session, op.jti, op.now, ttl)))
  }

  ghost function DoLogout(s: State, op: Op): (State, Answer)
    requires op.Logout?
  {
    match Decode(op.token, op.now)
    case Err(e) => (s, Denied(e))
    case Ok(claims) =>
      (if claims.jti.Some? then s.(table := Revoke(s.table, claims.jti.value)) else s, Done)
  }

  function WithUser(s: State, tenant: string, username: string, user: User): State {
    s.(users := s.users[(tenant, username) := user], used := s.used + {user.userId})
  }

  ghost function Exec(s: State, op: Op, ttl: Lifetimes): (State, Answer) {
    match op
    case CreateUser(tenant, username, password, role, status, userId) =>
      var user := User(tenant, userId, username, role, status, password);
      (WithUser(s, tenant, username, user), UserIs(Some(user)))
    case UpdateUser(tenant, userId, role, status, password) =>
      (match UserById(s.users, tenant, userId)
       case None => (s, UserIs(None))
       case Some(u) =>
         (s.(users := UpdatedUsers(s.users, tenant, userId, role, status, password)),
          UserIs(Some(Updated(u, role, status, password)))))
    case Bootstrap(tenant, username, password, userId) =>
      if (tenant, username) in s.users then (s, UserIs(Some(s.users[(tenant, username)])))
      else if s.users == map[] then
        var user := User(tenant, userId, username, "admin", "active", password);
        (WithUser(s, tenant, username, user), UserIs(Some(user)))
      else (s, Denied(BootstrapDisabled))
    case Login(_, _, _, _, _, _) => DoLogin(s, op, ttl)
    case Refresh(_, _, _, _, _) => DoRefresh(s, op, ttl)
    case Logout(_, _) => DoLogout(s, op)
    case Cleanup(now) => (s.(table := Cleaned(s.table, now)), Done)
  }

  /** The UUIDs a call draws are new, and different from each other. */
  predicate FreshFor(s: State, op: Op) {
    match op
    case CreateUser(_, _, _, _, _, userId) => userId !in s.used
    case Bootstrap(_, _, _, userId) => userId !in s.used
    case Login(_, _, _, session, jti, _) => session !in s.used && jti !in s.used && session != jti
    case Refresh(_, jti, _, _, _) => jti !in s.used
    case _ => true
  }

  /** The clock at the start and at the end of a call that reads it. */
  function Begins(op: Op): Option<Time> {
    match op
    case Login(_, _, _, _, _, now) => Some(now)
    case Refresh(_, _, decoded, _, _) => Some(decoded)
    case Logout(_, now) => Some(now)
    case Cleanup(now) => Some(now)
    case _ => None
  }

  function Ends(op: Op): Option<Time> {
    if op.Refresh? then Some(op.now) else Begins(op)
  }

  /** The clock is never negative and never goes back, between calls and within one. */
  predicate Timely(op: Op, clock: Time) {
    && (Begins(op).Some? ==> 0 <= clock <= Begins(op).value)
    && (op.Refresh? ==> op.decoded <= op.checked <= op.now)
  }

  function ClockAfter(op: Op, clock: Time): Time {
    if Ends(op).Some? then Ends(op).value else clock
  }

  /** A run of calls, each with fresh UUIDs. */
  ghost predicate Runs(s: State, ops: seq<Op>, ttl: Lifetimes)
    decreases |ops|
  {
    ops == [] || (FreshFor(s, ops[0]) && Runs(Exec(s, ops[0], ttl).0, ops[1..], ttl))
  }

  ghost function Final(s: State, ops: seq<Op>, ttl: Lifetimes): State
    decreases |ops|
  {
    if ops == [] then s else Final(Exec(s, ops[0], ttl).0, ops[1..], ttl)
  }
}
