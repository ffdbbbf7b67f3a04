/**
  Deleting expired refresh tokens cannot be observed. A run with cleanups at arbitrary points
  is compared with the same run without them: the same logins and refreshes are granted and
  denied, and the very same answers are given to clients that present only tokens they got.
*/
module AuthCleanup {
  import opened Optional
  import opened AuthModel
  import opened AuthTheorems

  /** The cleaned store lacks only rows that had expired by the clock. */
  ghost predicate Mirrors(c: State, d: State, clock: Time) {
    && c == d.(table := c.table)
    && (forall id | id in c.table :: id in d.table && c.table[id] == d.table[id])
    && (forall id | id in d.table && id !in c.table :: d.table[id].expires <= clock)
  }

  /** A client cannot sign: a token carrying a known id is the one issued under that id. */
  ghost predicate Genuine(d: State, op: Op) {
    var token := if op.Refresh? then Some(op.token) else None;
    token.Some? && token.value.Signed? && token.value.claims.jti.Some? && token.value.claims.jti.value in d.issued ==>
      token.value == d.issued[token.value.claims.jti.value]
  }

  ghost predicate SameVerdict(a: Answer, b: Answer) {
    a == b || (a.Denied? && b.Denied?)
  }

  /** An expiry claim never outlives its row. */
  lemma ClaimWithinRow(t: Time, now: Time)
    requires 0 <= now && WholeSeconds(t) * SECOND > now
    ensures t > now
  {
    assert t >= 0;
    assert t / SECOND * SECOND <= t;
  }

  lemma CheckMirrors(c: State, d: State, op: Op, clock: Time)
    requires RowsAreIssued(d.table, d.issued) && Mirrors(c, d, clock) && op.Refresh? && Timely(op, clock)
    ensures var a := CheckRefresh(c, op.token, op.decoded, op.checked);
            var b := CheckRefresh(d, op.token, op.decoded, op.checked);
      && a.Ok? == b.Ok? && (a.Ok? || Genuine(d, op) ==> a == b)
  {
    var decoded := Decode(op.token, op.decoded);
    if decoded.Ok? && decoded.value.jti.Some? {
      var id := decoded.value.jti.value;
      if id in d.table && id !in c.table && Genuine(d, op) {
        assert op.token == TokenOf(id, d.table[id]);
        ClaimWithinRow(d.table[id].expires, op.decoded);
      }
    }
  }

  lemma RevokeMirrors(c: State, d: State, id: Uuid, clock: Time)
    requires Mirrors(c, d, clock)
    ensures Mirrors(c.(table := Revoke(c.table, id)), d.(table := Revoke(d.table, id)), clock)
  {
  }

  lemma IssueMirrors(c: State, d: State, user: User, session: Uuid, jti: Uuid, now: Time, ttl: Lifetimes, clock: Time)
    requires Mirrors(c, d, clock) && clock <= now
    ensures Mirrors(Issue(c, user, session, jti, now, ttl), Issue(d, user, session, jti, now, ttl), now)
  {
  }

  lemma RefreshMirrors(c: State, d: State, op: Op, ttl: Lifetimes, clock: Time)
    requires RowsAreIssued(d.table, d.issued) && Mirrors(c, d, clock) && op.Refresh? && Timely(op, clock)
    ensures var (c', a) := DoRefresh(c, op, ttl); var (d', b) := DoRefresh(d, op, ttl);
      && SameVerdict(a, b) && (Genuine(d, op) ==> a == b) && Mirrors(c', d', op.now)
  {
    CheckMirrors(c, d, op, clock);
    var checked := CheckRefresh(d, op.token, op.decoded, op.checked);
    if checked.Ok? {
      var (id, user) := checked.value;
      RevokeMirrors(c, d, id, clock);
      IssueMirrors(Redeemed(c, id), Redeemed(d, id), user, d.table[id].session, op.jti, op.now, ttl, clock);
    }
  }

  lemma LoginMirrors(c: State, d: State, op: Op, ttl: Lifetimes, clock: Time)
    requires Mirrors(c, d, clock) && op.Login? && Timely(op, clock)
    ensures var (c', a) := DoLogin(c, op, ttl); var (d', b) := DoLogin(d, op, ttl); a == b && Mirrors(c', d', op.now)
  {
    if (op.tenant, op.username) in d.users {
      IssueMirrors(c, d, d.users[(op.tenant, op.username)], op.session, op.jti, op.now, ttl, clock);
    }
  }

  lemma LogoutMirrors(c: State, d: State, op: Op, clock: Time)
    requires Mirrors(c, d, clock) && op.Logout? && Timely(op, clock)
    ensures var (c', a) := DoLogout(c, op); var (d', b) := DoLogout(d, op); a == b && Mirrors(c', d', op.now)
  {
    if Decode(op.token, op.now).Ok? && op.token.claims.jti.Some? {
      RevokeMirrors(c, d, op.token.claims.jti.value, clock);
    }
  }

  lemma StepMirrors(c: State, d: State, op: Op, ttl: Lifetimes, clock: Time)
    requires Inv(d) && Mirrors(c, d, clock) && Timely(op, clock) && !op.Cleanup?
    ensures var (c', a) := Exec(c, op, ttl); var (d', b) := Exec(d, op, ttl);
      && SameVerdict(a, b) && (Genuine(d, op) ==> a == b) && Mirrors(c', d', ClockAfter(op, clock))
  {
    match op {
      case Refresh(_, _, _, _, _) => RefreshMirrors(c, d, op, ttl, clock);
      case Login(_, _, _, _, _, _) => LoginMirrors(c, d, op, ttl, clock);
      case Logout(_, _) => LogoutMirrors(c, d, op, clock);
      case _ =>
    }
  }

  lemma CleanupMirrors(c: State, d: State, now: Time, clock: Time)
    requires Mirrors(c, d, clock) && clock <= now
    ensures Mirrors(c.(table := Cleaned(c.table, now)), d, now)
  {
  }

  // ------------------------------------------------------------ whole runs

  function WithoutCleanup(ops: seq<Op>): seq<Op> {
    if ops == [] then []
    else (if ops[0].Cleanup? then [] else [ops[0]]) + WithoutCleanup(ops[1..])
  }

  /** The answers a run gives, cleanups having none. */
  ghost function Answers(s: State, ops: seq<Op>, ttl: Lifetimes): seq<Answer>
    decreases |ops|
  {
    if ops == [] then []
    else
      var (s', answer) := Exec(s, ops[0], ttl);
      (if ops[0].Cleanup? then [] else [answer]) + Answers(s', ops[1..], ttl)
  }

  ghost predicate ClockRuns(ops: seq<Op>, clock: Time)
    decreases |ops|
  {
    ops == [] || (Timely(ops[0], clock) && ClockRuns(ops[1..], ClockAfter(ops[0], clock)))
  }

  ghost predicate AllGenuine(d: State, ops: seq<Op>, ttl: Lifetimes)
    decreases |ops|
  {
    ops == [] || (Genuine(d, ops[0]) && AllGenuine(Exec(d, ops[0], ttl).0, ops[1..], ttl))
  }

  ghost predicate SameVerdicts(a: seq<Answer>, b: seq<Answer>) {
    |a| == |b| && forall i | 0 <= i < |a| :: SameVerdict(a[i], b[i])
  }

  lemma VerdictsAppend(x: Answer, y: Answer, a: seq<Answer>, b: seq<Answer>)
    requires SameVerdict(x, y) && SameVerdicts(a, b)
    ensures SameVerdicts([x] + a, [y] + b)
  {
  }

  lemma {:induction false} CleanedRunAgrees(c: State, d: State, ops: seq<Op>, ttl: Lifetimes, clock: Time)
    requires Inv(d) && Mirrors(c, d, clock) && ClockRuns(ops, clock) && Runs(d, WithoutCleanup(ops), ttl)
    ensures SameVerdicts(Answers(c, ops, ttl), Answers(d, WithoutCleanup(ops), ttl))
    ensures AllGenuine(d, WithoutCleanup(ops), ttl) ==> Answers(c, ops, ttl) == Answers(d, WithoutCleanup(ops), ttl)
    decreases |ops|
  {
    if ops != [] {
      var op := ops[0];
      var c' := Exec(c, op, ttl).0;
      if op.Cleanup? {
        CleanupMirrors(c, d, op.now, clock);
        assert WithoutCleanup(ops) == WithoutCleanup(ops[1..]);
        CleanedRunAgrees(c', d, ops[1..], ttl, op.now);
      } else {
        var rest := WithoutCleanup(ops)[1..];
        assert rest == WithoutCleanup(ops[1..]) && WithoutCleanup(ops)[0] == op;
        StepMirrors(c, d, op, ttl, clock);
        InvInductive(d, op, ttl);
        var d' := Exec(d, op, ttl).0;
        CleanedRunAgrees(c', d', ops[1..], ttl, ClockAfter(op, clock));
        VerdictsAppend(Exec(c, op, ttl).1, Exec(d, op, ttl).1, Answers(c', ops[1..], ttl), Answers(d', rest, ttl));
      }
    }
  }

  /**
    From any reachable store, under a clock that never goes back: with cleanups inserted at any
    points, exactly the same calls are granted; and if clients present only tokens that were
    issued to them, every answer, errors included, is the same.
  */
  lemma CleanupIsUnobservable(s: State, ops: seq<Op>, ttl: Lifetimes, clock: Time)
    requires Reachable(s, ttl) && ClockRuns(ops, clock) && Runs(s, WithoutCleanup(ops), ttl)
    ensures SameVerdicts(Answers(s, ops, ttl), Answers(s, WithoutCleanup(ops), ttl))
    ensures AllGenuine(s, WithoutCleanup(ops), ttl) ==> Answers(s, ops, ttl) == Answers(s, WithoutCleanup(ops), ttl)
  {
    ReachableInv(s, ttl);
    CleanedRunAgrees(s, s, ops, ttl, clock);
  }
}
