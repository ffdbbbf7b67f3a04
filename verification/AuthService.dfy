/**
  The auth repository and the auth service as the objects they are. Every call of the service
  does to the store exactly what its operation does in AuthModel, and gives the same answer.
*/
module AuthService {
  import opened Optional
  import opened AuthModel
  import opened AuthTheorems
  import opened AuthAnswers
  import opened AuthCleanup

  class AuthRepository {
    var users: Users
    var refreshTokens: Table
    ghost var used: set<Uuid>   // UUIDs drawn so far

    ghost predicate Valid()
      reads this
    {
      UsersOk(users, used)
    }

    constructor ()
      ensures Valid() && users == map[] && refreshTokens == map[] && used == {}
    {
      users, refreshTokens, used := map[], map[], {};
    }

    method IsEmpty() returns (empty: bool)
      ensures empty <==> users == map[]
    {
      empty := |users| == 0;
    }

    /** A user of the same tenant and name is replaced. */
    method CreateUser(tenant: string, username: string, password: PasswordHash, role: string, status: string,
                      userId: Uuid)
      returns (user: User)
      requires Valid() && userId !in used
      modifies this`users, this`used
      ensures Valid() && user == User(tenant, userId, username, role, status, password)
      ensures users == old(users)[(tenant, username) := user] && used == old(used) + {userId}
    {
      user := User(tenant, userId, username, role, status, password);
      users := users[(tenant, username) := user];
      used := used + {userId};
    }

    method GetUserByUsername(tenant: string, username: string) returns (user: Option<User>)
      ensures user == if (tenant, username) in users then Some(users[(tenant, username)]) else None
    {
      user := if (tenant, username) in users then Some(users[(tenant, username)]) else None;
    }

    /** A scan over the dictionary, in any order. */
    method GetUserById(tenant: string, userId: Uuid) returns (user: Option<User>)
      requires Valid()
      ensures user == UserById(users, tenant, userId)
    {
      var rest := users.Keys;
      while rest != {}
        invariant rest <= users.Keys
        invariant forall k | k in users.Keys - rest :: !(users[k].tenant == tenant && users[k].userId == userId)
        decreases rest
      {
        var k :| k in rest;
        if users[k].tenant == tenant && users[k].userId == userId {
          return Some(users[k]);
        }
        rest := rest - {k};
      }
      return None;
    }

    /** Replaces the record of the one user with this id. */
    method UpdateUser(tenant: string, userId: Uuid, role: Option<string>, status: Option<string>,
                      password: Option<PasswordHash>)
      returns (user: Option<User>)
      requires Valid()
      modifies this`users
      ensures Valid()
      ensures var found := UserById(old(users), tenant, userId);
        && (found == None ==> user == None && users == old(users))
        && (found.Some? ==> user == Some(Updated(found.value, role, status, password))
                            && users == UpdatedUsers(old(users), tenant, userId, role, status, password))
    {
      var current := GetUserById(tenant, userId);
      if current == None {
        return None;
      }
      var next := Updated(current.value, role, status, password);
      var rest := users.Keys;
      while rest != {}
        invariant rest <= users.Keys && users == old(users)
        invariant forall k | k in users.Keys - rest :: !(users[k].tenant == tenant && users[k].userId == userId)
        decreases rest
      {
        var k :| k in rest;
        if users[k].tenant == tenant && users[k].userId == userId {
          users := users[k := users[k].(role := next.role, status := next.status, password := next.password)];
          return Some(users[k]);
        }
        rest := rest - {k};
      }
      assert false;
    }

    method StoreRefreshToken(jti: Uuid, tenant: string, userId: Uuid, session: Uuid, digest: Digest, expires: Time)
      modifies this`refreshTokens
      ensures refreshTokens == old(refreshTokens)[jti := Row(tenant, userId, session, digest, expires, false)]
    {
      refreshTokens := refreshTokens[jti := Row(tenant, userId, session, digest, expires, false)];
    }

    method GetRefreshToken(jti: Uuid) returns (row: Option<Row>)
      ensures row == if jti in refreshTokens then Some(refreshTokens[jti]) else None
    {
      row := if jti in refreshTokens then Some(refreshTokens[jti]) else None;
    }

    method RevokeRefreshToken(jti: Uuid)
      modifies this`refreshTokens
      ensures refreshTokens == Revoke(old(refreshTokens), jti)
    {
      if jti in refreshTokens {
        refreshTokens := refreshTokens[jti := refreshTokens[jti].(revoked := true)];
      }
    }

    /** Deletes while walking over a copy of the keys. */
    method CleanupExpiredRefreshTokens(now: Time)
      modifies this`refreshTokens
      ensures refreshTokens == Cleaned(old(refreshTokens), now)
      ensures forall id :: id in refreshTokens <==> id in old(refreshTokens) && old(refreshTokens)[id].expires > now
      ensures forall id | id in refreshTokens :: refreshTokens[id] == old(refreshTokens)[id]
    {
      var rest := refreshTokens.Keys;
      while rest != {}
        invariant rest <= refreshTokens.Keys <= old(refreshTokens).Keys
        invariant forall id | id in refreshTokens :: refreshTokens[id] == old(refreshTokens)[id]
        invariant forall id | id in old(refreshTokens) && id !in rest ::
                    id in refreshTokens <==> old(refreshTokens)[id].expires > now
        decreases rest
      {
        var id :| id in rest;
        if refreshTokens[id].expires <= now {
          refreshTokens := refreshTokens - {id};
        }
        rest := rest - {id};
      }
    }

    method CreateBootstrapAdminIfNeeded(tenant: string, username: string, password: PasswordHash, userId: Uuid)
      returns (result: Result<User, AuthError>)
      requires Valid() && userId !in used
      modifies this`users, this`used
      ensures Valid()
      ensures (tenant, username) in old(users) ==>
                result == Ok(old(users)[(tenant, username)]) && users == old(users) && used == old(used)
      ensures (tenant, username) !in old(users) && old(users) != map[] ==>
                result == Err(BootstrapDisabled) && users == old(users) && used == old(used)
      ensures old(users) == map[] ==>
                && result == Ok(User(tenant, userId, username, "admin", "active", password))
                && users == map[(tenant, username) := result.value] && used == old(used) + {userId}
    {
      var existing := GetUserByUsername(tenant, username);
      if existing.Some? {
        return Ok(existing.value);
      }
      var empty := IsEmpty();
      if empty {
        var admin := CreateUser(tenant, username, password, "admin", "active", userId);
        return Ok(admin);
      }
      return Err(BootstrapDisabled);
    }
  }

  class AuthService {
    const repo: AuthRepository
    const ttl: Lifetimes
    ghost var issued: map<Uuid, Token>
    ghost var chains: map<Uuid, seq<Uuid>>
    ghost var owners: map<Uuid, (string, Uuid)>
    ghost var redeemed: seq<Uuid>

    ghost function Abs(): State
      reads this, repo
    {
      State(repo.users, repo.refreshTokens, repo.used, issued, chains, owners, redeemed)
    }

    ghost predicate Valid()
      reads this, repo
    {
      repo.Valid() && Inv(Abs())
    }

    constructor (repo: AuthRepository, ttl: Lifetimes)
      requires repo.users == map[] && repo.refreshTokens == map[] && repo.used == {}
      ensures Valid() && Empty(Abs()) && this.repo == repo && this.ttl == ttl
    {
      this.repo, this.ttl := repo, ttl;
      issued, chains, owners, redeemed := map[], map[], map[], [];
    }

    /** Signs both tokens and stores the digest of the refresh token. */
    method IssueTokens(user: User, session: Uuid, jti: Uuid, now: Time) returns (response: LoginResponse)
      modifies this, repo`refreshTokens, repo`used
      ensures response == Issued(user, session, jti, now, ttl)
      ensures Abs() == Issue(old(Abs()), user, session, jti, now, ttl)
    {
      var accessExp := now + ttl.access * MINUTE;
      var refreshExp := now + ttl.refresh * DAY;
      var access := Signed(Claims("access", None, user.tenant, user.userId, user.role, session,
          WholeSeconds(accessExp)));
      var refresh := Signed(Claims("refresh", Some(jti), user.tenant, user.userId, "", session,
          WholeSeconds(refreshExp)));
      repo.StoreRefreshToken(jti, user.tenant, user.userId, session, Digest(refresh), refreshExp);
      repo.used := repo.used + {session, jti};
      issued := issued[jti := refresh];
      chains := chains[session := ChainOf(chains, session) + [jti]];
      owners := if session in owners then owners else owners[session := (user.tenant, user.userId)];
      response := LoginResponse(access, refresh, ttl.access * 60, user.tenant, user.userId, user.role, session);
    }

    method Login(tenant: string, username: string, password: string, session: Uuid, jti: Uuid, now: Time)
      returns (result: Result<LoginResponse, AuthError>)
      requires Valid() && FreshFor(Abs(), Op.Login(tenant, username, password, session, jti, now))
      modifies this, repo
      ensures Valid()
      ensures (Abs(), if result.Ok? then Granted(result.value) else Denied(result.error))
           == Exec(old(Abs()), Op.Login(tenant, username, password, session, jti, now), ttl)
      ensures result.Ok? <==> Credentials(old(repo.users), tenant, username, password)
    {
      LoginGrantedIff(Abs(), Op.Login(tenant, username, password, session, jti, now), ttl);
      InvInductive(Abs(), Op.Login(tenant, username, password, session, jti, now), ttl);
      var user := repo.GetUserByUsername(tenant, username);
      if user == None {
        return Err(InvalidLogin);
      }
      if user.value.status != "active" {
        return Err(UserDisabled);
      }
      if !VerifyPassword(password, user.value.password) {
        return Err(InvalidLogin);
      }
      var response := IssueTokens(user.value, session, jti, now);
      return Ok(response);
    }

    method Refresh(token: Token, jti: Uuid, decoded: Time, checked: Time, now: Time)
      returns (result: Result<LoginResponse, AuthError>)
      requires Valid() && FreshFor(Abs(), Op.Refresh(token, jti, decoded, checked, now))
      modifies this, repo
      ensures Valid()
      ensures (Abs(), if result.Ok? then Granted(result.value) else Denied(result.error))
           == Exec(old(Abs()), Op.Refresh(token, jti, decoded, checked, now), ttl)
    {
      InvInductive(Abs(), Op.Refresh(token, jti, decoded, checked, now), ttl);
      var payload := Decode(token, decoded);
      if payload.Err? {
        return Err(payload.error);
      }
      if payload.value.typ != "refresh" {
        return Err(WrongTokenType);
      }
      if payload.value.jti == None {
        return Err(MissingTokenId);
      }
      var id := payload.value.jti.value;
      var found := repo.GetRefreshToken(id);
      if found == None {
        return Err(TokenNotFound);
      }
      var row := found.value;
      if row.revoked {
        return Err(TokenRevoked);
      }
      if row.expires <= checked {
        return Err(TokenExpired);
      }
      if Digest(token) != row.digest {
        return Err(TokenMismatch);
      }
      var user := repo.GetUserById(row.tenant, row.userId);
      if user == None || user.value.status != "active" {
        return Err(UserUnavailable);
      }
      repo.RevokeRefreshToken(id);
      redeemed := redeemed + [id];
      var response := IssueTokens(user.value, row.session, jti, now);
      return Ok(response);
    }

    method Logout(token: Token, now: Time) returns (result: Result<(), AuthError>)
      requires Valid()
      modifies repo`refreshTokens
      ensures Valid()
      ensures (Abs(), if result.Ok? then Done else Denied(result.error)) == Exec(old(Abs()), Op.Logout(token, now), ttl)
    {
      InvInductive(Abs(), Op.Logout(token, now), ttl);
      var payload := Decode(token, now);
      if payload.Err? {
        return Err(payload.error);
      }
      if payload.value.jti.None? {
        return Ok(());
      }
      ghost var s := Abs();
      repo.RevokeRefreshToken(payload.value.jti.value);
      assert Abs() == s.(table := Revoke(s.table, payload.value.jti.value));
      return Ok(());
    }

    method DecodeAccessToken(token: Token, now: Time) returns (context: Result<AuthContext, AuthError>)
      ensures context == DecodeAccess(token, now)
    {
      var payload := Decode(token, now);
      if payload.Err? {
        return Err(payload.error);
      }
      var claims := payload.value;
      if claims.typ != "access" {
        return Err(WrongTokenType);
      }
      return Ok(AuthContext(claims.tenant, claims.userId, claims.role, claims.session, claims.exp));
    }

    method CreateUser(tenant: string, username: string, password: PasswordHash, role: string, status: string,
                      userId: Uuid)
      returns (user: User)
      requires Valid() && FreshFor(Abs(), Op.CreateUser(tenant, username, password, role, status, userId))
      modifies repo`users, repo`used
      ensures Valid()
      ensures (Abs(), UserIs(Some(user)))
                == Exec(old(Abs()), Op.CreateUser(tenant, username, password, role, status, userId), ttl)
    {
      InvInductive(Abs(), Op.CreateUser(tenant, username, password, role, status, userId), ttl);
      user := repo.CreateUser(tenant, username, password, role, status, userId);
    }

    method BootstrapAdminIfNeeded(tenant: string, username: string, password: PasswordHash, userId: Uuid)
      returns (result: Result<User, AuthError>)
      requires Valid() && FreshFor(Abs(), Op.Bootstrap(tenant, username, password, userId))
      modifies repo`users, repo`used
      ensures Valid()
      ensures (Abs(), if result.Ok? then UserIs(Some(result.value)) else Denied(result.error))
           == Exec(old(Abs()), Op.Bootstrap(tenant, username, password, userId), ttl)
    {
      InvInductive(Abs(), Op.Bootstrap(tenant, username, password, userId), ttl);
      result := repo.CreateBootstrapAdminIfNeeded(tenant, username, password, userId);
    }

    method UpdateUser(tenant: string, userId: Uuid, role: Option<string>, status: Option<string>,
                      password: Option<PasswordHash>)
      returns (user: Option<User>)
      requires Valid()
      modifies repo`users
      ensures Valid()
      ensures (Abs(), UserIs(user)) == Exec(old(Abs()), Op.UpdateUser(tenant, userId, role, status, password), ttl)
    {
      InvInductive(Abs(), Op.UpdateUser(tenant, userId, role, status, password), ttl);
      user := repo.UpdateUser(tenant, userId, role, status, password);
    }

    method Cleanup(now: Time)
      requires Valid()
      modifies repo`refreshTokens
      ensures Valid()
      ensures (Abs(), Done) == Exec(old(Abs()), Op.Cleanup(now), ttl)
      ensures Mirrors(Abs(), old(Abs()), now)
    {
      InvInductive(Abs(), Op.Cleanup(now), ttl);
      repo.CleanupExpiredRefreshTokens(now);
    }
  }
}
