/** Sessions (identity/session.go): creating one first revokes all but the nine
    newest active sessions of the user. */
module Sessions {
  import opened Sums
  import opened Ordering

  type Id = nat

  const MAX_ACTIVE := 10
  const MINUTE := 60_000_000_000
  const DAY := 24 * 60 * MINUTE
  const DEFAULT_LIFETIME := 24 * 60 * MINUTE

  datatype Session = Session(user: Id, createdAt: int, expiresAt: int, revoked: bool)

  type Table = map<Id, Session>

  predicate Active(s: Session, user: Id, now: int) {
    s.user == user && !s.revoked && now < s.expiresAt
  }

  function ActiveOf(t: Table, user: Id, now: int): set<Stamp> {
    set i | i in t && Active(t[i], user, now) :: Stamp(t[i].createdAt, i)
  }

  function IdsOf(q: seq<Stamp>): set<Id> {
    set s | s in q :: s.id
  }

  /** The sessions that have to go: all active ones but the nine newest. */
  function Surplus(t: Table, user: Id, now: int): seq<Stamp> {
    var newest := Ordered(ActiveOf(t, user, now), true);
    if |newest| < MAX_ACTIVE then [] else newest[MAX_ACTIVE - 1..]
  }

  function RevokeAll(t: Table, ids: set<Id>): Table {
    map i | i in t :: if i in ids then t[i].(revoked := true) else t[i]
  }

  function Lifetime(requested: int): int {
    if requested == 0 then DEFAULT_LIFETIME else requested
  }

  /** `methodOk` says that the authentication method and the provider go together. */
  predicate CanCreate(t: Table, users: set<Id>, user: Id, id: Id, methodOk: bool, lifetime: int) {
    methodOk && MINUTE <= Lifetime(lifetime) <= 30 * DAY && user in users && id !in t
  }

  function Created(t: Table, user: Id, id: Id, lifetime: int, now: int): Table {
    RevokeAll(t, IdsOf(Surplus(t, user, now)))[id := Session(user, now, now + Lifetime(lifetime), false)]
  }

  function Revoked(t: Table, user: Id, id: Id): Table {
    if id in t && t[id].user == user && !t[id].revoked then t[id := t[id].(revoked := true)] else t
  }

  class Store {
    var sessions: Table

    constructor ()
      ensures sessions == map[]
    {
      sessions := map[];
    }

    method CreateSession(users: set<Id>, user: Id, id: Id, methodOk: bool, requested: int, now: int) returns (ok: bool)
      modifies this
      ensures ok == CanCreate(old(sessions), users, user, id, methodOk, requested)
      ensures sessions == if ok then Created(old(sessions), user, id, requested, now) else old(sessions)
    {
      if !methodOk {
        return false;
      }
      var lifetime := requested;
      if lifetime == 0 {
        lifetime := DEFAULT_LIFETIME;
      }
      if lifetime < MINUTE || lifetime > 30 * DAY || user !in users {
        return false;
      }
      var tx := EnforceSessionLimit(sessions, user, now);
      if id in tx {
        return false;
      }
      sessions := tx[id := Session(user, now, now + lifetime, false)];
      ok := true;
    }

    method RevokeSession(user: Id, id: Id) returns (ok: bool)
      modifies this
      ensures ok == (id in old(sessions) && old(sessions)[id].user == user && !old(sessions)[id].revoked)
      ensures sessions == Revoked(old(sessions), user, id)
    {
      if id !in sessions || sessions[id].user != user || sessions[id].revoked {
        return false;
      }
      sessions := sessions[id := sessions[id].(revoked := true)];
      ok := true;
    }
  }

  /** Reads the active sessions newest first, then revokes the tail one by one. */
  method EnforceSessionLimit(before: Table, user: Id, now: int) returns (tx: Table)
    ensures tx == RevokeAll(before, IdsOf(Surplus(before, user, now)))
  {
    tx := before;
    var rows := Ordered(ActiveOf(before, user, now), true);
    var active: seq<Id> := [];
    for n := 0 to |rows|
      invariant |active| == n && forall i :: 0 <= i < n ==> active[i] == rows[i].id
    {
      active := active + [rows[n].id];
    }
    if |active| < MAX_ACTIVE {
      assert RevokeAll(before, {}) == before;
      return;
    }
    var surplus := active[MAX_ACTIVE - 1..];
    ghost var done: set<Id> := {};
    assert RevokeAll(before, {}) == before;
    for n := 0 to |surplus|
      invariant done == set i | 0 <= i < n :: surplus[i]
      invariant tx == RevokeAll(before, done)
    {
      RevokeOneMore(before, done, surplus[n]);
      if surplus[n] in tx {
        tx := tx[surplus[n] := tx[surplus[n]].(revoked := true)];
      }
      done := done + {surplus[n]};
    }
    SurplusIds(rows[MAX_ACTIVE - 1..], surplus);
  }

  lemma SurplusIds(rows: seq<Stamp>, ids: seq<Id>)
    requires |rows| == |ids| && forall i :: 0 <= i < |rows| ==> ids[i] == rows[i].id
    ensures IdsOf(rows) == set i | 0 <= i < |ids| :: ids[i]
  {
    forall s | s in rows ensures exists i :: 0 <= i < |ids| && ids[i] == s.id {
      var i :| 0 <= i < |rows| && rows[i] == s;
      assert ids[i] == s.id;
    }
    forall i | 0 <= i < |ids| ensures ids[i] in IdsOf(rows) {
      assert rows[i] in rows;
    }
  }

  lemma RevokeOneMore(t: Table, done: set<Id>, id: Id)
    ensures var tx := RevokeAll(t, done);
      RevokeAll(t, done + {id}) == if id in tx then tx[id := tx[id].(revoked := true)] else tx
  {
  }

  // ---------- exactly the newest stay ----------

  lemma TailStamps(s: set<Stamp>, n: nat)
    requires n <= |Ordered(s, true)|
    ensures var q := Ordered(s, true);
      && Elements(q[..n]) + Elements(q[n..]) == s && |Elements(q[..n])| == n
      && (forall a, b :: a in Elements(q[..n]) && b in Elements(q[n..]) ==> Before(b, a))
  {
    var q := Ordered(s, true);
    OrderedIs(s, true);
    FrontCount(q, n);
    ElementsSplit(q, n);
    forall a, b | a in q[..n] && b in q[n..] ensures Before(b, a) {
      var i :| 0 <= i < n && q[..n][i] == a;
      var j :| 0 <= j < |q| - n && q[n..][j] == b;
      assert Precedes(true, q[i], q[n + j]);
    }
  }

  lemma ElementsSplit(q: seq<Stamp>, n: nat)
    requires n <= |q|
    ensures Elements(q[..n]) + Elements(q[n..]) == Elements(q)
  {
    assert q == q[..n] + q[n..];
  }

  /** Which sessions are active after one is created: the new one, and of those that
      were active the nine newest by creation time and id, or all if there are fewer. */
  lemma NewestNineStay(t: Table, user: Id, id: Id, lifetime: int, now: int)
    requires id !in t && Lifetime(lifetime) > 0
    ensures var before, after := ActiveOf(t, user, now), ActiveOf(Created(t, user, id, lifetime, now), user, now);
      var kept := after - {Stamp(now, id)};
      && Stamp(now, id) in after && kept <= before
      && |kept| == (if |before| < 10 then |before| else 9)
      && (forall a, b :: a in kept && b in before - kept ==> Before(b, a))
  {
    var active := ActiveOf(t, user, now);
    var q := Ordered(active, true);
    OrderedIs(active, true);
    var n := if |q| < MAX_ACTIVE then |q| else MAX_ACTIVE - 1;
    TailStamps(active, n);
    assert Surplus(t, user, now) == q[n..];
    KeptStamps(t, user, id, lifetime, now, q[..n], q[n..]);
  }

  lemma KeptStamps(t: Table, user: Id, id: Id, lifetime: int, now: int, kept: seq<Stamp>, gone: seq<Stamp>)
    requires id !in t && Lifetime(lifetime) > 0 && gone == Surplus(t, user, now)
    requires Elements(kept) + Elements(gone) == ActiveOf(t, user, now)
    requires forall a, b :: a in Elements(kept) && b in Elements(gone) ==> Before(b, a)
    ensures ActiveOf(Created(t, user, id, lifetime, now), user, now) == Elements(kept) + {Stamp(now, id)}
    ensures Stamp(now, id) !in Elements(kept) && ActiveOf(t, user, now) - Elements(kept) == Elements(gone)
  {
    var after := Created(t, user, id, lifetime, now);
    assert forall x :: x in Elements(kept) + Elements(gone) ==> x.id in t && x == Stamp(t[x.id].createdAt, x.id) && Active(t[x.id], user, now);
    forall x | x in ActiveOf(t, user, now) ensures x.id in IdsOf(gone) <==> x in Elements(gone) {
      if x.id in IdsOf(gone) {
        var y :| y in gone && y.id == x.id;
        assert y in Elements(gone);
      }
    }
    forall x | x in ActiveOf(after, user, now) && x != Stamp(now, id) ensures x in Elements(kept) {
      assert x in ActiveOf(t, user, now);
    }
    forall x | x in Elements(kept) ensures x in ActiveOf(after, user, now) {
      assert x in ActiveOf(t, user, now) && x !in Elements(gone);
      assert after[x.id] == t[x.id];
    }
    assert after[id] == Session(user, now, now + Lifetime(lifetime), false);
  }

  // ---------- runs ----------

  datatype Op =
    | Create(users: set<Id>, user: Id, id: Id, methodOk: bool, lifetime: int, now: int)
    | Revoke(user: Id, id: Id, now: int)
    | RevokeEvery(user: Id, now: int)

  function SessionsOf(t: Table, user: Id): set<Id> {
    set i | i in t && t[i].user == user
  }

  function Apply(t: Table, op: Op): Table {
    match op
    case Create(users, user, id, methodOk, lifetime, now) =>
      if CanCreate(t, users, user, id, methodOk, lifetime) then Created(t, user, id, lifetime, now) else t
    case Revoke(user, id, _) => Revoked(t, user, id)
    case RevokeEvery(user, _) => RevokeAll(t, SessionsOf(t, user))
  }

  function Run(t: Table, ops: seq<Op>): Table
    decreases |ops|
  {
    if ops == [] then t else Run(Apply(t, ops[0]), ops[1..])
  }

  predicate ClockNeverFalls(ops: seq<Op>, from: int, to: int)
    decreases |ops|
  {
    if ops == [] then from <= to else from <= ops[0].now && ClockNeverFalls(ops[1..], ops[0].now, to)
  }

  ghost predicate Few(t: Table, now: int) {
    forall user :: |ActiveOf(t, user, now)| <= MAX_ACTIVE
  }

  lemma FewLater(t: Table, now: int, later: int)
    requires Few(t, now) && now <= later
    ensures Few(t, later)
  {
    forall user ensures |ActiveOf(t, user, later)| <= MAX_ACTIVE {
      SubsetFewer(ActiveOf(t, user, later), ActiveOf(t, user, now));
    }
  }

  /** Fewer sessions can only mean fewer active ones. */
  lemma RevokingKeepsFew(t: Table, ids: set<Id>, now: int)
    requires Few(t, now)
    ensures Few(RevokeAll(t, ids), now)
  {
    forall user ensures |ActiveOf(RevokeAll(t, ids), user, now)| <= MAX_ACTIVE {
      SubsetFewer(ActiveOf(RevokeAll(t, ids), user, now), ActiveOf(t, user, now));
    }
  }

  lemma CreatingKeepsFew(t: Table, user: Id, id: Id, lifetime: int, now: int)
    requires Few(t, now) && id !in t && Lifetime(lifetime) > 0
    ensures Few(Created(t, user, id, lifetime, now), now)
  {
    var after := Created(t, user, id, lifetime, now);
    forall u ensures |ActiveOf(after, u, now)| <= MAX_ACTIVE {
      if u == user {
        NewestNineStay(t, user, id, lifetime, now);
        var active := ActiveOf(after, user, now);
        assert active == (active - {Stamp(now, id)}) + {Stamp(now, id)};
      } else {
        SubsetFewer(ActiveOf(after, u, now), ActiveOf(t, u, now));
      }
    }
  }

  lemma StepKeepsFew(t: Table, op: Op)
    requires Few(t, op.now)
    ensures Few(Apply(t, op), op.now)
  {
    match op
    case Create(users, user, id, methodOk, lifetime, now) =>
      if CanCreate(t, users, user, id, methodOk, lifetime) {
        CreatingKeepsFew(t, user, id, lifetime, now);
      }
    case Revoke(user, id, now) =>
      RevokingKeepsFew(t, {id}, now);
      assert Revoked(t, user, id) == t || Revoked(t, user, id) == RevokeAll(t, {id});
    case RevokeEvery(user, now) => RevokingKeepsFew(t, SessionsOf(t, user), now);
  }

  lemma {:induction false} RunKeepsFew(t: Table, ops: seq<Op>, from: int, to: int)
    requires Few(t, from) && ClockNeverFalls(ops, from, to)
    ensures Few(Run(t, ops), to)
    decreases |ops|
  {
    if ops == [] {
      FewLater(t, from, to);
    } else {
      FewLater(t, from, ops[0].now);
      StepKeepsFew(t, ops[0]);
      RunKeepsFew(Apply(t, ops[0]), ops[1..], ops[0].now, to);
    }
  }

  /** While the clock does not fall, no user ever has more than ten sessions that
      are neither revoked nor expired. */
  lemma AtMostTenActive(ops: seq<Op>, from: int, to: int, user: Id)
    requires ClockNeverFalls(ops, from, to)
    ensures |ActiveOf(Run(map[], ops), user, to)| <= 10
  {
    RunKeepsFew(map[], ops, from, to);
  }

  // ---------- how a session ends ----------

  lemma {:induction false} SessionStays(t: Table, ops: seq<Op>, id: Id)
    requires id in t
    ensures var t' := Run(t, ops);
      id in t' && t'[id].user == t[id].user && t'[id].expiresAt == t[id].expiresAt && (t[id].revoked ==> t'[id].revoked)
    decreases |ops|
  {
    if ops != [] {
      SessionStays(Apply(t, ops[0]), ops[1..], id);
    }
  }

  /** A user's revocation of a session of theirs, and of all of them, ends it for good: whatever
      comes after, it is never active again.  Nobody else's sessions are touched. */
  lemma RevokedForGood(t: Table, op: Op, ops: seq<Op>, id: Id, anybody: Id, now: int)
    requires id in t && (op.RevokeEvery? || (op.Revoke? && op.id == id))
    ensures t[id].user == op.user ==> id in Run(Apply(t, op), ops) && !Active(Run(Apply(t, op), ops)[id], anybody, now)
    ensures t[id].user != op.user ==> id in Apply(t, op) && Apply(t, op)[id] == t[id]
  {
    SessionStays(Apply(t, op), ops, id);
  }

  /** A session is made exactly if its id is new, the method of authentication is in order,
      the user is known, and it is to last a minute to thirty days. */
  lemma CreateDecides(t: Table, op: Op)
    requires op.Create? && op.id !in t
    ensures var lasts := if op.lifetime == 0 then 86_400 * 1_000_000_000 else op.lifetime;
      op.id in Apply(t, op) <==> op.methodOk && op.user in op.users && 60 * 1_000_000_000 <= lasts <= 30 * 86_400 * 1_000_000_000
  {
  }

  /** A session is the user's own, begins active, and ends after its lifetime, a day unless another
      was asked for and thirty days at most, whatever comes after. */
  lemma SessionsExpire(t: Table, op: Op, ops: seq<Op>, anybody: Id, now: int)
    requires op.Create? && op.id !in t && op.id in Apply(t, op)
    ensures var lasts := if op.lifetime == 0 then 86_400 * 1_000_000_000 else op.lifetime; var t' := Apply(t, op);
      && op.methodOk && op.user in op.users && lasts <= 30 * 86_400 * 1_000_000_000
      && t'[op.id].user == op.user && Active(t'[op.id], op.user, op.now)
      && (Active(t'[op.id], anybody, now) ==> anybody == op.user && now < op.now + lasts)
      && op.id in Run(t', ops) && (op.now + lasts <= now ==> !Active(Run(t', ops)[op.id], anybody, now))
  {
    SessionStays(Apply(t, op), ops, op.id);
  }
}
