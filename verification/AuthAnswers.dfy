/**
  What each call answers, and to whom: which logins are granted, why a call is refused, what a
  disabled user gets, what the tokens say and for how long they are accepted.
*/
module AuthAnswers {
  import opened Optional
  import opened AuthModel
  import opened AuthTheorems

  // ----------------------------------------------------------------------- login

  /** The name is known, the user active, and the stored hash was made of this very password. */
  ghost predicate Credentials(users: Users, tenant: string, username: string, secret: string) {
    && (tenant, username) in users
    && users[(tenant, username)].status == "active"
    && exists salt :: users[(tenant, username)].password == Pbkdf2(salt, secret)
  }

  /** A login is granted exactly with the credentials of the user it names. */
  lemma LoginGrantedIff(s: State, op: Op, ttl: Lifetimes)
    requires op.Login?
    ensures Exec(s, op, ttl).1.Granted? <==> Credentials(s.users, op.tenant, op.username, op.secret)
  {
    if Exec(s, op, ttl).1.Granted? {
      var password := s.users[(op.tenant, op.username)].password;
      assert password == Pbkdf2(password.salt, op.secret);
    }
  }

  /** What it answers: that user's identity and the new session, or the reason, without a trace in the store. */
  lemma LoginAnswers(s: State, op: Op, ttl: Lifetimes)
    requires op.Login?
    ensures var (s', answer) := Exec(s, op, ttl); var key := (op.tenant, op.username);
      && (Credentials(s.users, op.tenant, op.username, op.secret) ==>
            var (r, u) := (answer.response, s.users[key]);
            r.tenant == u.tenant && r.userId == u.userId && r.role == u.role && r.session == op.session)
      && (!Credentials(s.users, op.tenant, op.username, op.secret) ==> s' == s)
      && (key !in s.users ==> answer == Denied(InvalidLogin))
      && (key in s.users && s.users[key].status != "active" ==> answer == Denied(UserDisabled))
      && ((key in s.users && s.users[key].status == "active"
           && forall salt :: s.users[key].password != Pbkdf2(salt, op.secret)) ==> answer == Denied(InvalidLogin))
  {
    LoginGrantedIff(s, op, ttl);
    var key := (op.tenant, op.username);
    if key in s.users && s.users[key].password.Pbkdf2? {
      assert s.users[key].password == Pbkdf2(s.users[key].password.salt, s.users[key].password.password);
    }
  }

  // --------------------------------------------------------------------- refusals

  /** Why a refresh is refused: the first of these that is the case. */
  lemma RefreshRefusals(s: State, op: Op, ttl: Lifetimes)
    requires Inv(s) && op.Refresh?
    ensures var (s', answer) := Exec(s, op, ttl);
      && (answer.Denied? ==> s' == s)
      && (op.token.Unsigned? ==> answer == Denied(InvalidOrExpiredToken))
      && (op.token.Signed? ==>
            var c := op.token.claims;
            if c.exp * SECOND <= op.decoded then answer == Denied(InvalidOrExpiredToken)
            else if c.typ != "refresh" then answer == Denied(WrongTokenType)
            else if c.jti == None then answer == Denied(MissingTokenId)
            else if c.jti.value !in s.table then answer == Denied(TokenNotFound)
            else
              var row := s.table[c.jti.value];
              if row.revoked then answer == Denied(TokenRevoked)
              else if op.checked >= row.expires then answer == Denied(TokenExpired)
              else if row.digest.of != op.token then answer == Denied(TokenMismatch)
              else if ActiveUser(s.users, row.tenant, row.userId) then answer.Granted?
              else answer == Denied(UserUnavailable))
  {
    if op.token.Signed? && op.token.claims.jti.Some? && op.token.claims.jti.value in s.table {
      var row := s.table[op.token.claims.jti.value];
      FoundIsActive(s, row.tenant, row.userId);
    }
  }

  ghost predicate ActiveUser(users: Users, tenant: string, userId: Uuid) {
    exists k | k in users :: users[k].tenant == tenant && users[k].userId == userId && users[k].status == "active"
  }

  lemma FoundIsActive(s: State, tenant: string, userId: Uuid)
    requires UsersOk(s.users, s.used)
    ensures ActiveUser(s.users, tenant, userId)
            <==> var found := UserById(s.users, tenant, userId); found.Some? && found.value.status == "active"
  {
    var found := UserById(s.users, tenant, userId);
    if ActiveUser(s.users, tenant, userId) {
      var k :| k in s.users && s.users[k].tenant == tenant && s.users[k].userId == userId
               && s.users[k].status == "active";
      assert found.Some?;
      var j :| j in s.users && s.users[j] == found.value;
      assert s.users[j].userId == s.users[k].userId;
    }
  }

  // ------------------------------------------------------------------------ users

  /** A created user is stored under its name with what was given; nobody else changes. */
  lemma CreatedUser(s: State, op: Op, ttl: Lifetimes)
    requires op.CreateUser?
    ensures var users := Exec(s, op, ttl).0.users; var key := (op.tenant, op.username);
      && key in users && users.Keys == s.users.Keys + {key}
      && users[key].tenant == op.tenant && users[key].username == op.username && users[key].userId == op.userId
      && users[key].role == op.role && users[key].status == op.status && users[key].password == op.password
      && forall k | k in s.users && k != key :: users[k] == s.users[k]
  {
  }

  /** The new value of a field: the one given, unless none or an empty one was. */
  predicate Becomes(now: string, given: Option<string>, was: string) {
    now == if given.None? || given == Some("") then was else given.value
  }

  /** An update changes the fields given of the one user, and nothing else. */
  lemma UpdatedUser(s: State, op: Op, ttl: Lifetimes, k: (string, string))
    requires op.UpdateUser? && k in s.users
    ensures var users := Exec(s, op, ttl).0.users; var u := s.users[k];
      && users.Keys == s.users.Keys
      && (u.tenant != op.tenant || u.userId != op.userId ==> users[k] == u)
      && (u.tenant == op.tenant && u.userId == op.userId ==>
            && users[k].tenant == u.tenant && users[k].userId == u.userId && users[k].username == u.username
            && Becomes(users[k].role, op.newRole, u.role) && Becomes(users[k].status, op.newStatus, u.status)
            && users[k].password == if op.newPassword.Some? then op.newPassword.value else u.password)
  {
  }

  /** The operation may make the user active again. */
  predicate Restores(op: Op, tenant: string, userId: Uuid) {
    op.UpdateUser? && op.tenant == tenant && op.userId == userId
  }

  /** Every record of this id is barred, and the id has been drawn. */
  ghost predicate Barred(s: State, tenant: string, userId: Uuid) {
    userId in s.used && forall k | k in s.users && s.users[k].tenant == tenant && s.users[k].userId == userId ::
      s.users[k].status != "active"
  }

  ghost predicate NothingFor(answer: Answer, tenant: string, userId: Uuid) {
    answer.Granted? ==> answer.response.tenant != tenant || answer.response.userId != userId
  }

  lemma BarredGetsNothing(s: State, op: Op, ttl: Lifetimes, tenant: string, userId: Uuid)
    requires Inv(s) && FreshFor(s, op) && Barred(s, tenant, userId) && !Restores(op, tenant, userId)
    ensures Barred(Exec(s, op, ttl).0, tenant, userId)
    ensures NothingFor(Exec(s, op, ttl).1, tenant, userId)
  {
    if op.UpdateUser? {
      forall k | k in s.users ensures k in Exec(s, op, ttl).0.users { UpdatedUser(s, op, ttl, k); }
    }
    if op.Refresh? { BarredRefresh(s, op, ttl, tenant, userId); }
  }

  lemma BarredRefresh(s: State, op: Op, ttl: Lifetimes, tenant: string, userId: Uuid)
    requires Inv(s) && Barred(s, tenant, userId) && op.Refresh?
    ensures Barred(DoRefresh(s, op, ttl).0, tenant, userId) && NothingFor(DoRefresh(s, op, ttl).1, tenant, userId)
  {
  }

  ghost predicate NothingEverFor(s: State, ops: seq<Op>, ttl: Lifetimes, tenant: string, userId: Uuid)
    decreases |ops|
  {
    ops == []
    || (NothingFor(Exec(s, ops[0], ttl).1, tenant, userId)
        && NothingEverFor(Exec(s, ops[0], ttl).0, ops[1..], ttl, tenant, userId))
  }

  lemma {:induction false} BarredForGood(s: State, ops: seq<Op>, ttl: Lifetimes, tenant: string, userId: Uuid)
    requires Inv(s) && Runs(s, ops, ttl) && Barred(s, tenant, userId)
    requires forall op | op in ops :: !Restores(op, tenant, userId)
    ensures NothingEverFor(s, ops, ttl, tenant, userId)
    decreases |ops|
  {
    if ops != [] {
      assert ops[0] in ops && forall op | op in ops[1..] :: op in ops;
      InvInductive(s, ops[0], ttl);
      BarredGetsNothing(s, ops[0], ttl, tenant, userId);
      BarredForGood(Exec(s, ops[0], ttl).0, ops[1..], ttl, tenant, userId);
    }
  }

  /**
    Once a user's status has been set to anything but "active", no login and no refresh in any
    continuation gives that user a token, until the user is updated again.
  */
  lemma DisabledUserGetsNothing(s: State, op: Op, ttl: Lifetimes, ops: seq<Op>)
    requires Reachable(s, ttl) && op.UpdateUser? && op.newStatus.Some?
    requires op.newStatus.value != "" && op.newStatus.value != "active"
    requires UserById(s.users, op.tenant, op.userId).Some?
    requires Runs(Exec(s, op, ttl).0, ops, ttl) && forall o | o in ops :: !Restores(o, op.tenant, op.userId)
    ensures NothingEverFor(Exec(s, op, ttl).0, ops, ttl, op.tenant, op.userId)
  {
    ReachableInv(s, ttl);
    InvInductive(s, op, ttl);
    var s' := Exec(s, op, ttl).0;
    forall k | k in s.users ensures k in s'.users { UpdatedUser(s, op, ttl, k); }
    forall k | k in s'.users && s'.users[k].tenant == op.tenant && s'.users[k].userId == op.userId
      ensures s'.users[k].status != "active"
    {
      UpdatedUser(s, op, ttl, k);
    }
    BarredForGood(s', ops, ttl, op.tenant, op.userId);
  }

  // ---------------------------------------------------------------- what tokens say

  /** The time in whole seconds, never later and less than a second earlier. */
  lemma WholeSecondsRound(t: Time)
    requires t >= 0
    ensures WholeSeconds(t) * SECOND <= t < WholeSeconds(t) * SECOND + SECOND
  {
  }

  /** When the call was made. */
  function GrantedAt(op: Op): Time
    requires op.Login? || op.Refresh?
  {
    op.now
  }

  /**
    The access token of a grant tells who it was granted to, to the role and the session, from
    the grant up to its lifetime, to the second; never after it, and never as a refresh token.
  */
  lemma AccessTokenTells(s: State, op: Op, ttl: Lifetimes, at: Time)
    requires (op.Login? || op.Refresh?) && Exec(s, op, ttl).1.Granted?
    requires GrantedAt(op) >= 0 && ttl.access >= 0
    ensures var r := Exec(s, op, ttl).1.response; var end := GrantedAt(op) + ttl.access * 60_000_000;
      && r.expiresIn == ttl.access * 60
      && (at <= end - 1_000_000 ==>
            var c := DecodeAccess(r.access, at);
            && c.Ok? && c.value.tenant == r.tenant && c.value.userId == r.userId && c.value.role == r.role
            && c.value.session == r.session && c.value.exp * SECOND <= end < c.value.exp * SECOND + SECOND)
      && (at >= end ==> DecodeAccess(r.access, at) == Err(InvalidOrExpiredToken))
      && (DecodeAccess(r.refresh, at).Err? && forall clock :: CheckRefresh(s, r.access, clock, clock).Err?)
  {
    WholeSecondsRound(GrantedAt(op) + ttl.access * MINUTE);
  }

  /** The row a grant leaves, and the claims of the token it was left for. */
  ghost predicate IssuedAs(s: State, jti: Uuid, token: Token, session: Uuid, tenant: string, userId: Uuid, end: Time) {
    && jti in s.table && s.table[jti] == Row(tenant, userId, session, Digest(token), end, false)
    && token.Signed? && token.claims.typ == "refresh" && token.claims.jti == Some(jti)
    && token.claims.exp * SECOND <= end < token.claims.exp * SECOND + SECOND
  }

  lemma GrantLeavesRow(s: State, op: Op, ttl: Lifetimes)
    requires (op.Login? || op.Refresh?) && Exec(s, op, ttl).1.Granted?
    requires GrantedAt(op) >= 0 && ttl.refresh >= 0
    ensures var (s', answer) := Exec(s, op, ttl); var r := answer.response;
      IssuedAs(s', op.jti, r.refresh, r.session, r.tenant, r.userId, GrantedAt(op) + ttl.refresh * DAY)
  {
    WholeSecondsRound(GrantedAt(op) + ttl.refresh * DAY);
  }

  /** A live row's own token is accepted up to its end, to the second. */
  lemma AcceptedUntil(s: State, ttl: Lifetimes, next: Op, jti: Uuid, session: Uuid, tenant: string, userId: Uuid,
                      end: Time)
    requires Inv(s) && next.Refresh? && IssuedAs(s, jti, next.token, session, tenant, userId, end)
    requires ActiveUser(s.users, tenant, userId)
    ensures var answer := Exec(s, next, ttl).1;
      && (next.decoded <= end - 1_000_000 && next.checked <= end - 1_000_000 ==> answer.Granted?)
      && (next.decoded >= end || next.checked >= end ==> answer.Denied?)
      && (answer.Granted? ==> answer.response.session == session)
  {
    RefreshRefusals(s, next, ttl);
  }

  /** A refresh token is accepted, while its user is active, up to its lifetime after the grant, to the second. */
  lemma FreshTokenIsAccepted(s: State, op: Op, ttl: Lifetimes, next: Op)
    requires Inv(s) && FreshFor(s, op) && (op.Login? || op.Refresh?) && Exec(s, op, ttl).1.Granted?
    requires next.Refresh? && next.token == Exec(s, op, ttl).1.response.refresh
    requires GrantedAt(op) >= 0 && ttl.refresh >= 0
    ensures var end := GrantedAt(op) + ttl.refresh * 86_400_000_000;
      var answer := Exec(Exec(s, op, ttl).0, next, ttl).1;
      && (next.decoded <= end - 1_000_000 && next.checked <= end - 1_000_000 ==> answer.Granted?)
      && (next.decoded >= end || next.checked >= end ==> answer.Denied?)
      && (answer.Granted? ==> answer.response.session == Exec(s, op, ttl).1.response.session)
  {
    var s1, r, end := Exec(s, op, ttl).0, Exec(s, op, ttl).1.response, GrantedAt(op) + ttl.refresh * DAY;
    InvInductive(s, op, ttl);
    GrantedUserIsActive(s, op, ttl);
    GrantLeavesRow(s, op, ttl);
    AcceptedUntil(s1, ttl, next, op.jti, r.session, r.tenant, r.userId, end);
  }

  lemma GrantedUserIsActive(s: State, op: Op, ttl: Lifetimes)
    requires Inv(s) && (op.Login? || op.Refresh?) && Exec(s, op, ttl).1.Granted?
    ensures var (s', answer) := Exec(s, op, ttl);
      s'.users == s.users && ActiveUser(s.users, answer.response.tenant, answer.response.userId)
  {
    if op.Refresh? {
      var row := s.table[op.token.claims.jti.value];
      FoundIsActive(s, row.tenant, row.userId);
    } else {
      assert (op.tenant, op.username) in s.users;
    }
  }
}
