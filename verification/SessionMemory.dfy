/**
  Short-term memory: a bounded window of turns per session, addressed by the composite key
  tenant:user:session. Each window is the tail of its own session's history, as long as
  tenants and users contain no colon.
*/
module SessionMemory {
  import opened Optional
  import opened Keys

  /** The last n turns. */
  function LastTurns(turns: seq<string>, n: nat): seq<string> {
    if |turns| <= n then turns else turns[|turns| - n..]
  }

  /** w is the end of h, and all of it that n turns have room for. */
  ghost predicate IsTail(w: seq<string>, h: seq<string>, n: nat) {
    && |w| == (if |h| < n then |h| else n)
    && forall i | 0 <= i < |w| :: w[i] == h[|h| - |w| + i]
  }

  lemma LastTurnsIsTail(turns: seq<string>, n: nat)
    ensures IsTail(LastTurns(turns, n), turns, n)
  {
  }

  lemma NewestIsLast(turns: seq<string>, text: string, n: nat)
    ensures IsTail(LastTurns(turns + [text], n), turns + [text], n)
    ensures n > 0 ==> var w := LastTurns(turns + [text], n); w != [] && w[|w| - 1] == text
  {
    LastTurnsIsTail(turns + [text], n);
  }

  datatype MemoryError = NegativeWindow

  class ShortTermMemoryStore {
    const maxTurns: int
    var sessions: map<string, seq<string>>

    constructor (maxTurns: int)
      ensures this.maxTurns == maxTurns && sessions == map[]
    {
      this.maxTurns := maxTurns;
      sessions := map[];
    }

    /** A bounded deque: appending to a full one drops its oldest turn; a negative bound is refused. */
    method AddTurn(key: string, text: string) returns (result: Result<(), MemoryError>)
      modifies this
      ensures maxTurns < 0 && key !in old(sessions) ==> result == Err(NegativeWindow) && sessions == old(sessions)
      ensures maxTurns >= 0 ==>
                result.Ok? && sessions == old(sessions)[key := LastTurns(Turns(old(sessions), key) + [text], maxTurns)]
      ensures maxTurns >= 0 ==> key in sessions && IsTail(sessions[key], Turns(old(sessions), key) + [text], maxTurns)
      ensures maxTurns > 0 ==> sessions[key] != [] && sessions[key][|sessions[key]| - 1] == text
    {
      ghost var before := Turns(sessions, key);
      if key !in sessions {
        if maxTurns < 0 {
          return Err(NegativeWindow);
        }
        sessions := sessions[key := []];
      }
      var turns := sessions[key] + [text];
      if |turns| > maxTurns >= 0 {
        turns := LastTurns(turns, maxTurns);
      }
      sessions := sessions[key := turns];
      if maxTurns >= 0 {
        assert turns == LastTurns(before + [text], maxTurns);
        NewestIsLast(before, text, maxTurns);
      }
      return Ok(());
    }

    method Window(key: string) returns (turns: seq<string>)
      ensures turns == Turns(sessions, key)
    {
      turns := if key in sessions then sessions[key] else [];
    }
  }

  function Turns(sessions: map<string, seq<string>>, key: string): seq<string> {
    if key in sessions then sessions[key] else []
  }

  /** Who a turn belongs to. */
  datatype Session = Session(tenant: string, user: string, session: string)

  function SessionKey(s: Session): string {
    Join(s.tenant, ':', Join(s.user, ':', s.session))
  }

  datatype Turn = Turn(owner: Session, text: string)

  /** The turns of one session, oldest first. */
  function HistoryOf(history: seq<Turn>, s: Session): seq<string> {
    if history == [] then []
    else
      var last := history[|history| - 1];
      HistoryOf(history[..|history| - 1], s) + if last.owner == s then [last.text] else []
  }

  function KeyHistory(history: seq<Turn>, key: string): seq<string> {
    if history == [] then []
    else
      var last := history[|history| - 1];
      KeyHistory(history[..|history| - 1], key) + if SessionKey(last.owner) == key then [last.text] else []
  }

  predicate ColonFree(s: Session) {
    ':' !in s.tenant && ':' !in s.user
  }

  /** Tenant and user free of colons make the key injective; the session part may contain any. */
  lemma SessionKeyInjective(a: Session, b: Session)
    requires ColonFree(a) && ColonFree(b) && SessionKey(a) == SessionKey(b)
    ensures a == b
  {
    JoinInjective(a.tenant, Join(a.user, ':', a.session), b.tenant, Join(b.user, ':', b.session), ':');
    JoinInjective(a.user, a.session, b.user, b.session, ':');
  }

  /** Exactly when two different sessions share a window. */
  lemma SessionKeysCollide(a: Session, b: Session)
    ensures SessionKey(a) == SessionKey(b) && a != b <==>
            || Overlaps(a.tenant, Join(a.user, ':', a.session), b.tenant, Join(b.user, ':', b.session), ':')
            || Overlaps(b.tenant, Join(b.user, ':', b.session), a.tenant, Join(a.user, ':', a.session), ':')
            || (a.tenant == b.tenant && (Overlaps(a.user, a.session, b.user, b.session, ':')
                                         || Overlaps(b.user, b.session, a.user, a.session, ':')))
  {
    JoinCollides(a.tenant, Join(a.user, ':', a.session), b.tenant, Join(b.user, ':', b.session), ':');
    JoinCollides(a.user, a.session, b.user, b.session, ':');
    if a.tenant == b.tenant && SessionKey(a) == SessionKey(b) {
      var n := |a.tenant| + 1;
      assert SessionKey(a)[n..] == Join(a.user, ':', a.session) && SessionKey(b)[n..] == Join(b.user, ':', b.session);
    }
  }

  /** A colon in a tenant name makes two sessions share one window. */
  lemma ColonsCollide(tenant: string, unit: string, user: string, session: string)
    ensures SessionKey(Session(Join(tenant, ':', unit), user, session))
              == SessionKey(Session(tenant, unit, Join(user, ':', session)))
    ensures Session(Join(tenant, ':', unit), user, session) != Session(tenant, unit, Join(user, ':', session))
  {
    assert |Join(tenant, ':', unit)| > |tenant|;
    assert SessionKey(Session(Join(tenant, ':', unit), user, session))
        == tenant + [':'] + unit + [':'] + user + [':'] + session
        == SessionKey(Session(tenant, unit, Join(user, ':', session)));
  }

  /** If no other session of the history shares its key, the turns under it are the session's own. */
  lemma {:induction false} KeyHistoryIsOwn(history: seq<Turn>, s: Session)
    requires forall i | 0 <= i < |history| && SessionKey(history[i].owner) == SessionKey(s) :: history[i].owner == s
    ensures KeyHistory(history, SessionKey(s)) == HistoryOf(history, s)
  {
    if history != [] { KeyHistoryIsOwn(history[..|history| - 1], s); }
  }

  /** So it is when tenants and users have no colon. */
  lemma KeyHistoryIsSessionHistory(history: seq<Turn>, s: Session)
    requires ColonFree(s) && forall i | 0 <= i < |history| :: ColonFree(history[i].owner)
    ensures KeyHistory(history, SessionKey(s)) == HistoryOf(history, s)
  {
    forall i | 0 <= i < |history| && SessionKey(history[i].owner) == SessionKey(s) ensures history[i].owner == s {
      SessionKeyInjective(history[i].owner, s);
    }
    KeyHistoryIsOwn(history, s);
  }

  ghost predicate WrittenBy(history: seq<Turn>, sessions: set<Session>) {
    forall i | 0 <= i < |history| :: history[i].owner in sessions
  }

  /** After everything these sessions write, each reads the last turns it wrote itself. */
  ghost predicate ReadsItsOwn(sessions: set<Session>, maxTurns: nat) {
    forall history, s | WrittenBy(history, sessions) && s in sessions ::
      IsTail(LastTurns(KeyHistory(history, SessionKey(s)), maxTurns), HistoryOf(history, s), maxTurns)
  }

  ghost predicate OwnKeys(sessions: set<Session>) {
    forall a, b | a in sessions && b in sessions && SessionKey(a) == SessionKey(b) :: a == b
  }

  /** Which is so for exactly the sets of sessions of which no two share a key, or with windows of no turns. */
  lemma ReadsItsOwnIff(sessions: set<Session>, maxTurns: nat)
    ensures ReadsItsOwn(sessions, maxTurns) <==> maxTurns == 0 || OwnKeys(sessions)
  {
    if maxTurns == 0 || OwnKeys(sessions) {
      forall history, s | WrittenBy(history, sessions) && s in sessions
        ensures IsTail(LastTurns(KeyHistory(history, SessionKey(s)), maxTurns), HistoryOf(history, s), maxTurns)
      {
        LastTurnsIsTail(KeyHistory(history, SessionKey(s)), maxTurns);
        if OwnKeys(sessions) { KeyHistoryIsOwn(history, s); }
      }
    } else {
      var a, b :| a in sessions && b in sessions && SessionKey(a) == SessionKey(b) && a != b;
      var history := [Turn(a, "")];
      assert history[..0] == [] && WrittenBy(history, sessions);
      HistoryGrows([], Turn(a, ""), b);
      assert [] + [Turn(a, "")] == history;
      assert KeyHistory(history, SessionKey(b)) == [""] && HistoryOf(history, b) == [];
    }
  }

  /** The history of a session: nothing at first, and each turn it writes, at the end; no other turn enters it. */
  lemma HistoryGrows(history: seq<Turn>, turn: Turn, s: Session)
    ensures HistoryOf([], s) == []
    ensures HistoryOf(history + [turn], s) == if turn.owner == s then HistoryOf(history, s) + [turn.text]
              else HistoryOf(history, s)
  {
    assert (history + [turn])[..|history|] == history;
  }

  /** Keeping a tail and appending is appending and keeping a tail. */
  lemma TailOfTail(turns: seq<string>, text: string, n: nat)
    ensures LastTurns(LastTurns(turns, n) + [text], n) == LastTurns(turns + [text], n)
  {
  }

  /** Every window is the tail of everything written under its key. */
  ghost predicate Windows(sessions: map<string, seq<string>>, history: seq<Turn>, n: nat) {
    forall key :: Turns(sessions, key) == LastTurns(KeyHistory(history, key), n)
  }

  lemma WriteNext(history: seq<Turn>, turn: Turn, sessions: map<string, seq<string>>, n: nat)
    requires Windows(sessions, history, n)
    ensures var key := SessionKey(turn.owner);
      Windows(sessions[key := LastTurns(Turns(sessions, key) + [turn.text], n)], history + [turn], n)
  {
    assert (history + [turn])[..|history|] == history;
    TailOfTail(KeyHistory(history, SessionKey(turn.owner)), turn.text, n);
    forall key ensures KeyHistory(history + [turn], key)
                    == KeyHistory(history, key) + if SessionKey(turn.owner) == key then [turn.text] else []
    {
    }
  }

  class MemoryService {
    const short: ShortTermMemoryStore
    ghost var history: seq<Turn>

    /** Every window is the tail of everything written under its key. */
    ghost predicate Valid()
      reads this, short
    {
      short.maxTurns >= 0 && Windows(short.sessions, history, short.maxTurns)
    }

    constructor (shortTurns: nat)
      ensures Valid() && history == [] && short.maxTurns == shortTurns && fresh(short)
    {
      short := new ShortTermMemoryStore(shortTurns);
      history := [];
    }

    method WriteShort(owner: Session, content: string)
      requires Valid()
      modifies this, short
      ensures Valid() && history == old(history) + [Turn(owner, content)]
      ensures short.maxTurns > 0 ==>
                var window := Turns(short.sessions, SessionKey(owner)); window != [] && window[|window| - 1] == content
      ensures forall key | key != SessionKey(owner) :: Turns(short.sessions, key) == Turns(old(short.sessions), key)
    {
      var key := SessionKey(owner);
      WriteNext(history, Turn(owner, content), short.sessions, short.maxTurns);
      var result := short.AddTurn(key, content);
      history := history + [Turn(owner, content)];
    }

    /** A session reads the last turns written under its key; without colons these are its own. */
    method ReadShort(owner: Session) returns (turns: seq<string>)
      requires Valid()
      ensures turns == LastTurns(KeyHistory(history, SessionKey(owner)), short.maxTurns)
      ensures IsTail(turns, KeyHistory(history, SessionKey(owner)), short.maxTurns)
      ensures ColonFree(owner) && (forall i | 0 <= i < |history| :: ColonFree(history[i].owner)) ==>
                IsTail(turns, HistoryOf(history, owner), short.maxTurns)
    {
      LastTurnsIsTail(KeyHistory(history, SessionKey(owner)), short.maxTurns);
      turns := short.Window(SessionKey(owner));
      if ColonFree(owner) && forall i | 0 <= i < |history| :: ColonFree(history[i].owner) {
        KeyHistoryIsSessionHistory(history, owner);
      }
    }
  }
}
