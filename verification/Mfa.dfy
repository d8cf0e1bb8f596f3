/** Second factors (identity/mfa.go): challenges, the factors and recovery codes
    they are met with, and the statements and transactions that complete them. */
module Mfa {
  import opened Wrappers
  import Sessions

  type Id = nat

  const MAX_ATTEMPTS := 5
  const CODE_COUNT := 10
  const CHALLENGE_LIFETIME := 5 * Sessions.MINUTE

  datatype Purpose = Login | EnrolTotp | EnrolPasskey

  /** Keyed by the hash of its token; `webauthn` says that passkey options were stored with it. */
  datatype Challenge = Challenge(
    user: Id, purpose: Purpose, session: Option<Id>, webauthn: bool, attempts: nat, expiresAt: int, consumed: bool)

  datatype Passkey = Passkey(user: Id, credential: Id, revoked: bool)

  datatype Code = Code(user: Id, hash: Id, used: bool)

  datatype Db = Db(
    users: set<Id>, challenges: map<Id, Challenge>, totp: set<Id>,
    passkeys: map<Id, Passkey>, codes: map<Id, Code>, sessions: Sessions.Table)

  // ---------- statements ----------

  /** What loadChallenge accepts. */
  predicate Loadable(db: Db, c: Id, purpose: Purpose, now: int) {
    && c in db.challenges && db.challenges[c].purpose == purpose
    && db.challenges[c].attempts < MAX_ATTEMPTS && !db.challenges[c].consumed && now < db.challenges[c].expiresAt
  }

  predicate Reservable(db: Db, c: Id) {
    c in db.challenges && !db.challenges[c].consumed && db.challenges[c].attempts < MAX_ATTEMPTS
  }

  function Reserved(db: Db, c: Id): Db
    requires c in db.challenges
  {
    db.(challenges := db.challenges[c := db.challenges[c].(attempts := db.challenges[c].attempts + 1)])
  }

  predicate Consumable(db: Db, c: Id, now: int) {
    c in db.challenges && !db.challenges[c].consumed && now < db.challenges[c].expiresAt
  }

  function Consumed(db: Db, c: Id): Db
    requires c in db.challenges
  {
    db.(challenges := db.challenges[c := db.challenges[c].(consumed := true)])
  }

  function LivePasskeys(db: Db, user: Id): set<Id> {
    set k | k in db.passkeys && db.passkeys[k].user == user && !db.passkeys[k].revoked
  }

  function UnusedCodes(db: Db, user: Id): set<Id> {
    set i | i in db.codes && db.codes[i].user == user && !db.codes[i].used
  }

  predicate CodeMatches(db: Db, i: Id, user: Id, hash: Id) {
    i in db.codes && db.codes[i].user == user && !db.codes[i].used && db.codes[i].hash == hash
  }

  /** A code hash is unique, so at most one row can match. */
  ghost function FindCode(db: Db, user: Id, hash: Id): (r: Option<Id>)
    ensures r.Some? ==> CodeMatches(db, r.value, user, hash)
    ensures r.None? ==> forall i :: !CodeMatches(db, i, user, hash)
  {
    if i :| CodeMatches(db, i, user, hash) then Some(i) else None
  }

  predicate HashesDiffer(codes: map<Id, Code>) {
    forall i, j | i in codes && j in codes :: codes[i].hash == codes[j].hash ==> i == j
  }

  predicate HasPasskey(db: Db, user: Id, credential: Id) {
    exists k | k in db.passkeys :: db.passkeys[k].user == user && db.passkeys[k].credential == credential && !db.passkeys[k].revoked
  }

  predicate SessionLive(db: Db, session: Id, user: Id, now: int) {
    session in db.sessions && Sessions.Active(db.sessions[session], user, now)
  }

  // ---------- sessions that a completed login opens ----------

  predicate CanOpen(db: Db, user: Id, session: Id) {
    Sessions.CanCreate(db.sessions, db.users, user, session, true, 0)
  }

  function Opened(db: Db, user: Id, session: Id, now: int): Db {
    db.(sessions := Sessions.Created(db.sessions, user, session, 0, now))
  }

  // ---------- recovery codes ----------

  /** The random id and the hash of one new code. */
  datatype NewCode = NewCode(id: Id, hash: Id)

  /** Ids and hashes are random: neither repeats one in the table or in the batch. */
  predicate CodesFresh(codes: map<Id, Code>, more: seq<NewCode>) {
    more == [] ||
    (var front, last := more[..|more| - 1], more[|more| - 1];
     && CodesFresh(codes, front)
     && last.id !in codes && (forall i | i in codes :: codes[i].hash != last.hash)
     && (forall d | d in front :: d.id != last.id && d.hash != last.hash))
  }

  function AddCodes(codes: map<Id, Code>, user: Id, more: seq<NewCode>): map<Id, Code> {
    if more == [] then codes
    else
      var last := more[|more| - 1];
      AddCodes(codes, user, more[..|more| - 1])[last.id := Code(user, last.hash, false)]
  }

  /** Ten new codes, unless some old ones are left. */
  function EnsuredCodes(db: Db, user: Id, more: seq<NewCode>): Db {
    if UnusedCodes(db, user) != {} then db else db.(codes := AddCodes(db.codes, user, more))
  }

  method EnsureRecoveryCodes(before: Db, user: Id, more: seq<NewCode>) returns (tx: Db)
    requires |more| == CODE_COUNT
    ensures tx == EnsuredCodes(before, user, more)
  {
    tx := before;
    if |UnusedCodes(before, user)| > 0 {
      return;
    }
    for n := 0 to CODE_COUNT
      invariant tx == before.(codes := AddCodes(before.codes, user, more[..n]))
    {
      assert more[..n + 1][..n] == more[..n];
      tx := tx.(codes := tx.codes[more[n].id := Code(user, more[n].hash, false)]);
    }
    assert more[..CODE_COUNT] == more;
  }

  // ---------- completing a challenge ----------

  /** How a process means to meet a challenge. */
  datatype Method =
    | Totp
    | Recovery(hash: Id)
    | WithPasskey(credential: Id)
    | TotpEnrolment(session: Id)
    | PasskeyEnrolment(session: Id, credential: Id)

  function PurposeOf(m: Method): Purpose {
    match m
    case Totp => Login
    case Recovery(_) => Login
    case WithPasskey(_) => Login
    case TotpEnrolment(_) => EnrolTotp
    case PasskeyEnrolment(_, _) => EnrolPasskey
  }

  /** What the committing transaction draws or is told: a session or passkey id,
      recovery codes, and whether the authenticator's counter was in order. */
  datatype Draw = Draw(id: Id, codes: seq<NewCode>, counterOk: bool)

  datatype Completion = Rejected | Completed(db: Db, code: Option<Id>)

  ghost function Complete(db: Db, c: Id, user: Id, m: Method, now: int, draw: Draw): Completion
  {
    if user !in db.users then Rejected
    else
      match m
      case Totp =>
        if user !in db.totp || !Consumable(db, c, now) || !CanOpen(db, user, draw.id) then Rejected
        else Completed(Opened(Consumed(db, c), user, draw.id, now), None)
      case Recovery(hash) =>
        var found := FindCode(db, user, hash);
        if found.None? || !Consumable(db, c, now) || !CanOpen(db, user, draw.id) then Rejected
        else Completed(Opened(UseCode(Consumed(db, c), found.value), user, draw.id, now), found)
      case WithPasskey(credential) =>
        if !HasPasskey(db, user, credential) || !draw.counterOk || !Consumable(db, c, now) || !CanOpen(db, user, draw.id) then Rejected
        else Completed(Opened(Consumed(db, c), user, draw.id, now), None)
      case TotpEnrolment(session) =>
        if !SessionLive(db, session, user, now) || !Consumable(db, c, now) || !CodesUsable(db, user, draw) then Rejected
        else Completed(EnsuredCodes(Consumed(db, c).(totp := db.totp + {user}), user, draw.codes), None)
      case PasskeyEnrolment(session, credential) =>
        if !SessionLive(db, session, user, now) || !Consumable(db, c, now) || CredentialTaken(db, credential) ||
           draw.id in db.passkeys || !CodesUsable(db, user, draw)
        then Rejected
        else Completed(EnsuredCodes(Consumed(db, c).(passkeys := db.passkeys[draw.id := Passkey(user, credential, false)]), user, draw.codes), None)
  }

  function UseCode(db: Db, i: Id): Db
    requires i in db.codes
  {
    db.(codes := db.codes[i := db.codes[i].(used := true)])
  }

  predicate CredentialTaken(db: Db, credential: Id) {
    exists k | k in db.passkeys :: db.passkeys[k].credential == credential
  }

  predicate CodesUsable(db: Db, user: Id, draw: Draw) {
    UnusedCodes(db, user) != {} || (|draw.codes| == CODE_COUNT && CodesFresh(db.codes, draw.codes))
  }

  // ---------- removing factors ----------

  datatype Fault = LastFactor | NotFound | Forbidden

  function RemovePasskeyFault(db: Db, user: Id, k: Id, recent: bool): Option<Fault> {
    if !recent || user !in db.users then Some(Forbidden)
    else if |LivePasskeys(db, user)| + (if user in db.totp then 1 else 0) <= 1 then Some(LastFactor)
    else if k !in LivePasskeys(db, user) then Some(NotFound)
    else None
  }

  function PasskeyRemoved(db: Db, user: Id, k: Id): Db
    requires k in db.passkeys
  {
    db.(passkeys := db.passkeys[k := db.passkeys[k].(revoked := true)],
        sessions := Sessions.RevokeAll(db.sessions, Sessions.SessionsOf(db.sessions, user)))
  }

  function RemoveTotpFault(db: Db, user: Id, recent: bool): Option<Fault> {
    if !recent || user !in db.users then Some(Forbidden)
    else if user !in db.totp || LivePasskeys(db, user) == {} then Some(LastFactor)
    else None
  }

  function TotpRemoved(db: Db, user: Id): Db {
    db.(totp := db.totp - {user},
        sessions := Sessions.RevokeAll(db.sessions, Sessions.SessionsOf(db.sessions, user)))
  }

  class Service {
    var db: Db

    constructor (db: Db)
      ensures this.db == db
    {
      this.db := db;
    }

    /** A login challenge offers the factors the user has; an enrolment needs a recent authentication. */
    method BeginChallenge(token: Id, user: Id, purpose: Purpose, session: Option<Id>, recent: bool, now: int) returns (ok: bool, methods: set<Factor>)
      modifies this
      ensures ok == CanBegin(old(db), token, user, purpose, recent)
      ensures db == if ok then Begun(old(db), token, user, purpose, session, now) else old(db)
      ensures methods == if ok && purpose == Login then FactorsOf(old(db), user) else {}
    {
      methods := {};
      if purpose != Login && !recent {
        return false, {};
      }
      if purpose == Login && user !in db.totp && LivePasskeys(db, user) == {} && UnusedCodes(db, user) == {} {
        return false, {};
      }
      if user !in db.users || token in db.challenges {
        return false, {};
      }
      var webauthn := if purpose == Login then LivePasskeys(db, user) != {} else purpose == EnrolPasskey;
      if purpose == Login {
        if webauthn {
          methods := methods + {PasskeyFactor};
        }
        if user in db.totp {
          methods := methods + {TotpFactor};
        }
        if UnusedCodes(db, user) != {} {
          methods := methods + {CodeFactor};
        }
      }
      db := db.(challenges := db.challenges[token := Challenge(user, purpose, session, webauthn, 0, now + CHALLENGE_LIFETIME, false)]);
      ok := true;
    }

    method ReserveAttempt(c: Id) returns (ok: bool)
      modifies this
      ensures ok == Reservable(old(db), c)
      ensures db == if ok then Reserved(old(db), c) else old(db)
    {
      if c in db.challenges && !db.challenges[c].consumed && db.challenges[c].attempts < MAX_ATTEMPTS {
        db := db.(challenges := db.challenges[c := db.challenges[c].(attempts := db.challenges[c].attempts + 1)]);
        return true;
      }
      ok := false;
    }

    /** The committing transaction of CompleteTOTPLogin. */
    method CompleteTotp(c: Id, user: Id, now: int, session: Id) returns (ok: bool)
      modifies this
      ensures var r := Complete(old(db), c, user, Totp, now, Draw(session, [], true));
        ok == r.Completed? && db == if ok then r.db else old(db)
    {
      var tx := db;
      if user !in tx.users || user !in tx.totp {
        return false;
      }
      ok, tx := ConsumeChallenge(tx, c, now);
      if !ok {
        return;
      }
      ok, tx := OpenSession(tx, user, session, now);
      if ok {
        db := tx;
      }
    }

    /** The transaction of CompleteRecoveryLogin: find the code, consume the challenge, mark the code. */
    method CompleteRecovery(c: Id, user: Id, hash: Id, now: int, session: Id) returns (ok: bool, used: Option<Id>)
      requires HashesDiffer(db.codes)
      modifies this
      ensures var r := Complete(old(db), c, user, Recovery(hash), now, Draw(session, [], true));
        ok == r.Completed? && db == (if ok then r.db else old(db)) && (ok ==> used == r.code)
    {
      used := None;
      var tx := db;
      if user !in tx.users {
        return false, None;
      }
      if !exists i | i in tx.codes :: CodeMatches(tx, i, user, hash) {
        return false, None;
      }
      var i :| i in tx.codes && CodeMatches(tx, i, user, hash);
      ok, tx := ConsumeChallenge(tx, c, now);
      if !ok || tx.codes[i].used {
        return false, None;
      }
      tx := tx.(codes := tx.codes[i := tx.codes[i].(used := true)]);
      ok, tx := OpenSession(tx, user, session, now);
      if ok {
        db := tx;
        used := Some(i);
      }
    }

    method CompleteTotpEnrolment(c: Id, user: Id, session: Id, now: int, draw: Draw) returns (ok: bool)
      modifies this
      ensures var r := Complete(old(db), c, user, TotpEnrolment(session), now, draw);
        ok == r.Completed? && db == if ok then r.db else old(db)
    {
      var tx := db;
      if user !in tx.users || !SessionLive(tx, session, user, now) {
        return false;
      }
      ok, tx := ConsumeChallenge(tx, c, now);
      if !ok || !CodesUsable(db, user, draw) {
        return false;
      }
      tx := tx.(totp := tx.totp + {user});
      if UnusedCodes(tx, user) == {} {
        tx := EnsureRecoveryCodes(tx, user, draw.codes);
      }
      db := tx;
    }

    /** The committing transaction of CompletePasskeyLogin. */
    method CompletePasskey(c: Id, user: Id, credential: Id, counterOk: bool, now: int, session: Id) returns (ok: bool)
      modifies this
      ensures var r := Complete(old(db), c, user, WithPasskey(credential), now, Draw(session, [], counterOk));
        ok == r.Completed? && db == if ok then r.db else old(db)
    {
      var tx := db;
      if user !in tx.users || !HasPasskey(tx, user, credential) || !counterOk {
        return false;
      }
      ok, tx := ConsumeChallenge(tx, c, now);
      if !ok {
        return;
      }
      ok, tx := OpenSession(tx, user, session, now);
      if ok {
        db := tx;
      }
    }

    method CompletePasskeyEnrolment(c: Id, user: Id, session: Id, credential: Id, now: int, draw: Draw) returns (ok: bool)
      modifies this
      ensures var r := Complete(old(db), c, user, PasskeyEnrolment(session, credential), now, draw);
        ok == r.Completed? && db == if ok then r.db else old(db)
    {
      var tx := db;
      if user !in tx.users || !SessionLive(tx, session, user, now) {
        return false;
      }
      ok, tx := ConsumeChallenge(tx, c, now);
      if !ok || CredentialTaken(db, credential) || draw.id in db.passkeys || !CodesUsable(db, user, draw) {
        return false;
      }
      tx := tx.(passkeys := tx.passkeys[draw.id := Passkey(user, credential, false)]);
      if UnusedCodes(tx, user) == {} {
        tx := EnsureRecoveryCodes(tx, user, draw.codes);
      }
      db := tx;
    }

    method RemovePasskey(user: Id, k: Id, recent: bool) returns (fault: Option<Fault>)
      modifies this
      ensures fault == RemovePasskeyFault(old(db), user, k, recent)
      ensures db == if fault.Some? then old(db) else PasskeyRemoved(old(db), user, k)
    {
      if !recent || user !in db.users {
        return Some(Forbidden);
      }
      var passkeyCount := |LivePasskeys(db, user)|;
      var totpCount := if user in db.totp then 1 else 0;
      if passkeyCount + totpCount <= 1 {
        return Some(LastFactor);
      }
      if k !in db.passkeys || db.passkeys[k].user != user || db.passkeys[k].revoked {
        return Some(NotFound);
      }
      var tx := db.(passkeys := db.passkeys[k := db.passkeys[k].(revoked := true)]);
      db := tx.(sessions := Sessions.RevokeAll(tx.sessions, Sessions.SessionsOf(tx.sessions, user)));
      fault := None;
    }

    method RemoveTotp(user: Id, recent: bool) returns (fault: Option<Fault>)
      modifies this
      ensures fault == RemoveTotpFault(old(db), user, recent)
      ensures db == if fault.Some? then old(db) else TotpRemoved(old(db), user)
    {
      if !recent || user !in db.users {
        return Some(Forbidden);
      }
      if user !in db.totp || |LivePasskeys(db, user)| == 0 {
        return Some(LastFactor);
      }
      var tx := db.(totp := db.totp - {user});
      db := tx.(sessions := Sessions.RevokeAll(tx.sessions, Sessions.SessionsOf(tx.sessions, user)));
      fault := None;
    }
  }

  datatype Factor = PasskeyFactor | TotpFactor | CodeFactor

  /** What a user can log in with. */
  function FactorsOf(db: Db, user: Id): set<Factor> {
    (if LivePasskeys(db, user) != {} then {PasskeyFactor} else {}) +
    (if user in db.totp then {TotpFactor} else {}) +
    (if UnusedCodes(db, user) != {} then {CodeFactor} else {})
  }

  /** Login is offered to users with a factor or an unused recovery code, enrolment
      to users who have recently authenticated. */
  predicate CanBegin(db: Db, token: Id, user: Id, purpose: Purpose, recent: bool) {
    && user in db.users && token !in db.challenges
    && (if purpose == Login then FactorsOf(db, user) != {} else recent)
  }

  function Begun(db: Db, token: Id, user: Id, purpose: Purpose, session: Option<Id>, now: int): Db {
    var webauthn := if purpose == Login then LivePasskeys(db, user) != {} else purpose == EnrolPasskey;
    db.(challenges := db.challenges[token := Challenge(user, purpose, session, webauthn, 0, now + CHALLENGE_LIFETIME, false)])
  }

  method ConsumeChallenge(before: Db, c: Id, now: int) returns (ok: bool, tx: Db)
    ensures ok == Consumable(before, c, now)
    ensures tx == if ok then Consumed(before, c) else before
  {
    tx := before;
    ok := c in tx.challenges && !tx.challenges[c].consumed && now < tx.challenges[c].expiresAt;
    if ok {
      tx := tx.(challenges := tx.challenges[c := tx.challenges[c].(consumed := true)]);
    }
  }

  method OpenSession(before: Db, user: Id, session: Id, now: int) returns (ok: bool, tx: Db)
    ensures ok == CanOpen(before, user, session)
    ensures tx == if ok then Opened(before, user, session, now) else before
  {
    tx := before;
    if user !in tx.users {
      return false, tx;
    }
    var sessions := Sessions.EnforceSessionLimit(tx.sessions, user, now);
    if session in sessions {
      return false, tx;
    }
    sessions := sessions[session := Sessions.Session(user, now, now + Sessions.DEFAULT_LIFETIME, false)];
    return true, tx.(sessions := sessions);
  }
}
