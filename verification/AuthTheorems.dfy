/**
  Refresh-token rotation over whole runs: a session is a chain of tokens of which at most the
  newest is live, each token is redeemed at most once, a closed session stays closed, and
  deleting expired rows cannot be observed.
*/
module AuthTheorems {
  import opened Optional
  import opened AuthModel

  /** Users sit under their own key, and ids identify them. */
  ghost predicate UsersOk(users: Users, used: set<Uuid>) {
    && (forall k | k in users :: users[k].tenant == k.0 && users[k].username == k.1 && users[k].userId in used)
    && (forall a, b | a in users && b in users && users[a].userId == users[b].userId :: a == b)
  }

  ghost predicate Newest(chains: map<Uuid, seq<Uuid>>, session: Uuid, id: Uuid) {
    session in chains && chains[session] != [] && chains[session][|chains[session]| - 1] == id
  }

  /** A row is in the chain of its session, and is live only if it is the newest of it. */
  ghost predicate RowsInChains(table: Table, chains: map<Uuid, seq<Uuid>>) {
    && (forall id | id in table :: id in ChainOf(chains, table[id].session))
    && (forall id | id in table && !table[id].revoked :: Newest(chains, table[id].session, id))
  }

  /** A row holds the digest of the very token issued under its id. */
  ghost predicate RowsAreIssued(table: Table, issued: map<Uuid, Token>) {
    forall id | id in table :: id in issued && issued[id] == TokenOf(id, table[id])
        && table[id].digest == Digest(issued[id])
  }

  ghost predicate TokenFor(token: Token, id: Uuid, session: Uuid, owner: (string, Uuid)) {
    && token.Signed? && token.claims.typ == "refresh" && token.claims.jti == Some(id)
    && token.claims.session == session && token.claims.tenant == owner.0 && token.claims.userId == owner.1
  }

  /** Every token of a session was issued for it and for its one owner. */
  ghost predicate ChainsOk(chains: map<Uuid, seq<Uuid>>, issued: map<Uuid, Token>, owners: map<Uuid, (string, Uuid)>) {
    && owners.Keys == chains.Keys
    && (forall x, id | x in chains && id in chains[x] :: id in issued && TokenFor(issued[id], id, x, owners[x]))
  }

  ghost predicate HistoryUsed(s: State) {
    && s.table.Keys <= s.used && s.issued.Keys <= s.used && s.chains.Keys <= s.used
    && (forall i | 0 <= i < |s.redeemed| :: s.redeemed[i] in s.used)
  }

  /** Redeemed ids are distinct, and their rows are revoked. */
  ghost predicate RedeemedOk(table: Table, redeemed: seq<Uuid>) {
    && (forall i, j | 0 <= i < j < |redeemed| :: redeemed[i] != redeemed[j])
    && (forall i | 0 <= i < |redeemed| && redeemed[i] in table :: table[redeemed[i]].revoked)
  }

  ghost predicate Inv(s: State) {
    && UsersOk(s.users, s.used)
    && RowsInChains(s.table, s.chains)
    && RowsAreIssued(s.table, s.issued)
    && ChainsOk(s.chains, s.issued, s.owners)
    && HistoryUsed(s)
    && RedeemedOk(s.table, s.redeemed)
  }

  lemma UsersOkInductive(s: State, op: Op, ttl: Lifetimes)
    requires UsersOk(s.users, s.used) && FreshFor(s, op)
    ensures var s' := Exec(s, op, ttl).0; UsersOk(s'.users, s'.used)
  {
  }

  /** Issuing to a session without a live row, for its owner. */
  ghost predicate MayIssue(s: State, user: User, session: Uuid, jti: Uuid) {
    && jti !in s.used && jti != session
    && (session in s.chains ==>
          && session in s.owners && s.owners[session] == (user.tenant, user.userId)
          && forall id | id in s.table && s.table[id].session == session :: s.table[id].revoked)
    && (session !in s.chains ==> session !in s.used)
  }

  lemma NewRowInChain(table: Table, chains: map<Uuid, seq<Uuid>>, jti: Uuid, row: Row)
    requires RowsInChains(table, chains)
    requires forall id | id in table && table[id].session == row.session :: table[id].revoked
    ensures RowsInChains(table[jti := row], chains[row.session := ChainOf(chains, row.session) + [jti]])
  {
    var chains' := chains[row.session := ChainOf(chains, row.session) + [jti]];
    forall id | id in table && id != jti
      ensures id in ChainOf(chains', table[id].session)
      ensures !table[id].revoked ==> Newest(chains', table[id].session, id)
    {
      assert id in ChainOf(chains, table[id].session);
    }
    assert ChainOf(chains', row.session)[|ChainOf(chains, row.session)|] == jti;
  }

  lemma IssueKeepsChains(s: State, user: User, session: Uuid, jti: Uuid, now: Time, ttl: Lifetimes)
    requires Inv(s) && MayIssue(s, user, session, jti)
    ensures var s' := Issue(s, user, session, jti, now, ttl); ChainsOk(s'.chains, s'.issued, s'.owners)
  {
  }

  lemma IssueKeepsRows(s: State, user: User, session: Uuid, jti: Uuid, now: Time, ttl: Lifetimes)
    requires Inv(s) && MayIssue(s, user, session, jti)
    ensures var s' := Issue(s, user, session, jti, now, ttl);
      RowsAreIssued(s'.table, s'.issued) && HistoryUsed(s')
      && RedeemedOk(s'.table, s'.redeemed) && UsersOk(s'.users, s'.used)
  {
  }

  lemma IssueKeeps(s: State, user: User, session: Uuid, jti: Uuid, now: Time, ttl: Lifetimes)
    requires Inv(s) && MayIssue(s, user, session, jti)
    ensures Inv(Issue(s, user, session, jti, now, ttl))
  {
    var s' := Issue(s, user, session, jti, now, ttl);
    NewRowInChain(s.table, s.chains, jti, s'.table[jti]);
    IssueKeepsChains(s, user, session, jti, now, ttl);
    IssueKeepsRows(s, user, session, jti, now, ttl);
  }

  lemma RevokeKeeps(s: State, id: Uuid)
    requires Inv(s)
    ensures Inv(s.(table := Revoke(s.table, id)))
  {
  }

  lemma CleanKeeps(s: State, now: Time)
    requires Inv(s)
    ensures Inv(s.(table := Cleaned(s.table, now)))
  {
  }

  function Redeemed(s: State, id: Uuid): State {
    s.(table := Revoke(s.table, id), redeemed := s.redeemed + [id])
  }

  lemma RedeemKeeps(s: State, id: Uuid)
    requires Inv(s) && id in s.table && !s.table[id].revoked
    ensures Inv(Redeemed(s, id))
    ensures forall x | x in s.table && s.table[x].session == s.table[id].session :: Redeemed(s, id).table[x].revoked
  {
    RevokeKeeps(s, id);
  }

  lemma RefreshKeeps(s: State, op: Op, ttl: Lifetimes)
    requires Inv(s) && op.Refresh? && FreshFor(s, op)
    ensures Inv(DoRefresh(s, op, ttl).0)
  {
    var checked := CheckRefresh(s, op.token, op.decoded, op.checked);
    if checked.Ok? {
      var (id, user) := checked.value;
      var session := s.table[id].session;
      RedeemKeeps(s, id);
      assert TokenFor(s.issued[id], id, session, s.owners[session]);
      IssueKeeps(Redeemed(s, id), user, session, op.jti, op.now, ttl);
    }
  }

  lemma InvInductive(s: State, op: Op, ttl: Lifetimes)
    requires Inv(s) && FreshFor(s, op)
    ensures Inv(Exec(s, op, ttl).0)
  {
    UsersOkInductive(s, op, ttl);
    match op {
      case Login(_, _, _, session, jti, now) =>
        if DoLogin(s, op, ttl).1.Granted? {
          IssueKeeps(s, s.users[(op.tenant, op.username)], session, jti, now, ttl);
        }
      case Refresh(_, _, _, _, _) => RefreshKeeps(s, op, ttl);
      case Logout(token, now) =>
        var decoded := Decode(token, now);
        if decoded.Ok? && decoded.value.jti.Some? { RevokeKeeps(s, decoded.value.jti.value); }
      case Cleanup(now) => CleanKeeps(s, now);
      case _ =>
    }
  }

  // ------------------------------------------------------------------ runs

  ghost predicate Empty(s: State) {
    s == State(map[], map[], {}, map[], map[], map[], [])
  }

  ghost predicate Reachable(s: State, ttl: Lifetimes) {
    exists s0, ops :: Empty(s0) && Runs(s0, ops, ttl) && Final(s0, ops, ttl) == s
  }

  lemma {:induction false} InvAlways(s: State, ops: seq<Op>, ttl: Lifetimes)
    requires Inv(s) && Runs(s, ops, ttl)
    ensures Inv(Final(s, ops, ttl))
    decreases |ops|
  {
    if ops != [] {
      InvInductive(s, ops[0], ttl);
      InvAlways(Exec(s, ops[0], ttl).0, ops[1..], ttl);
    }
  }

  lemma ReachableInv(s: State, ttl: Lifetimes)
    requires Reachable(s, ttl)
    ensures Inv(s)
  {
    var s0, ops :| Empty(s0) && Runs(s0, ops, ttl) && Final(s0, ops, ttl) == s;
    InvAlways(s0, ops, ttl);
  }

  // -------------------------------------------------------------- sessions

  ghost predicate LiveRow(s: State, id: Uuid, session: Uuid) {
    id in s.table && s.table[id].session == session && !s.table[id].revoked
  }

  ghost predicate Live(s: State, session: Uuid) {
    exists id :: LiveRow(s, id, session)
  }

  /** A session has at most one unrevoked refresh token: the newest of its chain. */
  lemma AtMostOneLiveToken(s: State, ttl: Lifetimes, session: Uuid, id: Uuid)
    requires Reachable(s, ttl) && LiveRow(s, id, session)
    ensures Newest(s.chains, session, id)
    ensures forall other | LiveRow(s, other, session) :: other == id
  {
    ReachableInv(s, ttl);
    assert Newest(s.chains, session, id);
    forall other | LiveRow(s, other, session) ensures other == id {
      assert Newest(s.chains, s.table[other].session, other);
    }
  }

  /** All tokens ever issued for a session carry the tenant and user it was opened for. */
  lemma OneOwnerPerSession(s: State, ttl: Lifetimes, a: Uuid, b: Uuid)
    requires Reachable(s, ttl) && a in s.table && b in s.table && s.table[a].session == s.table[b].session
    ensures s.table[a].tenant == s.table[b].tenant && s.table[a].userId == s.table[b].userId
  {
    ReachableInv(s, ttl);
    var x := s.table[a].session;
    assert TokenFor(s.issued[a], a, x, s.owners[x]) && TokenFor(s.issued[b], b, x, s.owners[x]);
  }

  /** No token is ever exchanged twice. */
  lemma RedeemedAtMostOnce(s: State, ttl: Lifetimes, i: nat, j: nat)
    requires Reachable(s, ttl) && i < j < |s.redeemed|
    ensures s.redeemed[i] != s.redeemed[j]
  {
    ReachableInv(s, ttl);
  }

  /** A refresh succeeds exactly for the live token of a session, in time, while its user is active. */
  lemma RefreshAcceptsExactlyTheLiveToken(s: State, ttl: Lifetimes, op: Op)
    requires Reachable(s, ttl) && op.Refresh?
    ensures Exec(s, op, ttl).1.Granted? <==>
            exists id, session ::
              && LiveRow(s, id, session) && Newest(s.chains, session, id) && op.token == TokenOf(id, s.table[id])
              && WholeSeconds(s.table[id].expires) * SECOND > op.decoded && s.table[id].expires > op.checked
              && var found := UserById(s.users, s.table[id].tenant, s.table[id].userId);
                 found.Some? && found.value.status == "active"
  {
    ReachableInv(s, ttl);
    if Exec(s, op, ttl).1.Granted? {
      var id := op.token.claims.jti.value;
      assert LiveRow(s, id, s.table[id].session) && Newest(s.chains, s.table[id].session, id);
    }
  }

  /** A refresh retires the token it was given and appends one live token to the same session's chain. */
  lemma RefreshRotates(s: State, ttl: Lifetimes, op: Op)
    requires Reachable(s, ttl) && op.Refresh? && FreshFor(s, op) && Exec(s, op, ttl).1.Granted?
    ensures var (s', answer) := Exec(s, op, ttl);
      var x := answer.response.session; var old' := op.token.claims.jti;
      && old'.Some? && LiveRow(s, old'.value, x) && !LiveRow(s', old'.value, x)
      && x in s.chains && x in s'.chains && s'.chains[x] == s.chains[x] + [op.jti]
      && LiveRow(s', op.jti, x) && op.jti in s'.issued && s'.issued[op.jti] == answer.response.refresh
      && x in s.owners && s.owners[x] == (answer.response.tenant, answer.response.userId)
  {
    ReachableInv(s, ttl);
    var id := op.token.claims.jti.value;
    var x := s.table[id].session;
    assert id in ChainOf(s.chains, x);
    assert TokenFor(s.issued[id], id, x, s.owners[x]);
  }

  // ------------------------------------------------------ a closed session

  ghost predicate Grants(answer: Answer, session: Uuid) {
    answer.Granted? && answer.response.session == session
  }

  /** Revoking, cleaning and issuing to another session bring no session back to life. */
  ghost predicate NoRevival(s: State, s': State, x: Uuid) {
    forall id | LiveRow(s', id, x) :: LiveRow(s, id, x)
  }

  lemma RefreshRevivesNone(s: State, ttl: Lifetimes, op: Op, x: Uuid)
    requires op.Refresh? && FreshFor(s, op) && !Live(s, x)
    ensures var (s', answer) := DoRefresh(s, op, ttl); NoRevival(s, s', x) && !Grants(answer, x)
  {
    if DoRefresh(s, op, ttl).1.Granted? {
      var id := op.token.claims.jti.value;
      assert LiveRow(s, id, s.table[id].session);
    }
  }

  lemma ClosedStaysClosed(s: State, ttl: Lifetimes, op: Op, x: Uuid)
    requires Inv(s) && FreshFor(s, op) && x in s.chains && !Live(s, x)
    ensures var (s', answer) := Exec(s, op, ttl); x in s'.chains && !Live(s', x) && !Grants(answer, x)
  {
    if op.Refresh? { RefreshRevivesNone(s, ttl, op, x); }
    assert NoRevival(s, Exec(s, op, ttl).0, x);
  }

  ghost predicate NeverGrants(s: State, ops: seq<Op>, ttl: Lifetimes, x: Uuid)
    decreases |ops|
  {
    ops == [] || (!Grants(Exec(s, ops[0], ttl).1, x) && NeverGrants(Exec(s, ops[0], ttl).0, ops[1..], ttl, x))
  }

  lemma {:induction false} ClosedForever(s: State, ttl: Lifetimes, ops: seq<Op>, x: Uuid)
    requires Inv(s) && Runs(s, ops, ttl) && x in s.chains && !Live(s, x)
    ensures NeverGrants(s, ops, ttl, x)
    decreases |ops|
  {
    if ops != [] {
      InvInductive(s, ops[0], ttl);
      ClosedStaysClosed(s, ttl, ops[0], x);
      ClosedForever(Exec(s, ops[0], ttl).0, ttl, ops[1..], x);
    }
  }

  /** A logout closes a session exactly when it is given the session's live token before its expiry claim. */
  lemma LogoutClosesExactlyTheLiveSession(s: State, ttl: Lifetimes, op: Op, x: Uuid)
    requires Reachable(s, ttl) && op.Logout? && Live(s, x)
    ensures !Live(Exec(s, op, ttl).0, x) <==>
            exists id: Uuid :: LiveRow(s, id, x) && Decode(op.token, op.now).Ok? && op.token.claims.jti == Some(id)
  {
    ReachableInv(s, ttl);
    var s' := Exec(s, op, ttl).0;
    var id :| LiveRow(s, id, x);
    assert Newest(s.chains, x, id);
    if !Live(s', x) {
      assert !LiveRow(s', id, x);
    } else {
      var other :| LiveRow(s', other, x);
      assert LiveRow(s, other, x);
      assert Newest(s.chains, s.table[other].session, other);
      forall id' | LiveRow(s, id', x) ensures id' == other { assert Newest(s.chains, s.table[id'].session, id'); }
    }
  }

  /** After logging out the live token of a session, no continuation ever refreshes it again. */
  lemma LogoutEndsTheSession(s: State, ttl: Lifetimes, op: Op, id: Uuid, x: Uuid, ops: seq<Op>)
    requires Reachable(s, ttl) && op.Logout? && LiveRow(s, id, x)
    requires Decode(op.token, op.now).Ok? && op.token.claims.jti == Some(id)
    requires Runs(Exec(s, op, ttl).0, ops, ttl)
    ensures NeverGrants(Exec(s, op, ttl).0, ops, ttl, x)
  {
    ReachableInv(s, ttl);
    InvInductive(s, op, ttl);
    LogoutClosesExactlyTheLiveSession(s, ttl, op, x);
    ClosedForever(Exec(s, op, ttl).0, ttl, ops, x);
  }

  /** Whatever is granted is granted to a user who is active now; a disabled or replaced one gets nothing. */
  lemma OnlyActiveUsersAreGranted(s: State, ttl: Lifetimes, op: Op)
    requires Reachable(s, ttl) && Exec(s, op, ttl).1.Granted?
    ensures var r := Exec(s, op, ttl).1.response;
      exists k :: k in s.users && s.users[k].tenant == r.tenant && s.users[k].userId == r.userId
                  && s.users[k].role == r.role && s.users[k].status == "active"
  {
    ReachableInv(s, ttl);
    if op.Login? {
      assert (op.tenant, op.username) in s.users;
    }
  }
}
