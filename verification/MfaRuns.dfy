/** Concurrent attempts at challenges.  A process loads a challenge, reserves an
    attempt, has its code checked, and commits, each at a moment of its own; it
    may stop anywhere.  Processes are never forgotten, so what happened to a
    challenge can be counted over them. */
module MfaRuns {
  import opened Wrappers
  import opened Sums
  import opened Mfa
  import Sessions

  /** Which of the steps a process has taken, and what its commit achieved. */
  datatype Process = Process(
    challenge: Id, user: Id, method_: Method,
    reserved: bool, checked: bool, passed: bool, won: bool, at: int, session: Option<Id>, code: Option<Id>)

  /** Besides the tables: who has ever completed an enrolment, and which process
      met each challenge, redeemed each code and opened each session. */
  datatype World = World(
    db: Db, processes: map<Id, Process>, enrolled: set<Id>, winner: map<Id, Id>, redeemer: map<Id, Id>, opener: map<Id, Id>)

  datatype Step =
    | Begin(token: Id, user: Id, purpose: Purpose, session: Option<Id>, recent: bool, now: int)
    | Load(p: Id, challenge: Id, method_: Method, now: int)
    | Reserve(p: Id)
    | Check(p: Id, ok: bool)
    | Commit(p: Id, now: int, draw: Draw)
    | DropPasskey(user: Id, passkey: Id, recent: bool)
    | DropTotp(user: Id, recent: bool)
    | SessionStep(op: Sessions.Op)

  function Started(db: Db, c: Id, m: Method): Process
    requires c in db.challenges
  {
    Process(c, db.challenges[c].user, m, false, false, false, false, 0, None, None)
  }

  /** An enrolment must come from the session it was begun in, a passkey login needs stored options. */
  predicate MayLoad(db: Db, c: Id, m: Method, now: int) {
    && Loadable(db, c, PurposeOf(m), now)
    && (m.TotpEnrolment? ==> db.challenges[c].session == Some(m.session))
    && (m.PasskeyEnrolment? ==> db.challenges[c].session == Some(m.session))
    && (m.WithPasskey? ==> db.challenges[c].webauthn)
  }

  /** A recovery code is looked up inside the committing transaction; other codes are checked before it. */
  predicate MayCommit(k: Process) {
    k.reserved && !k.won && if k.method_.Recovery? then !k.checked else k.checked && k.passed
  }

  ghost function Committed(w: World, p: Id, now: int, draw: Draw): World
    requires p in w.processes
  {
    var k := w.processes[p];
    match Complete(w.db, k.challenge, k.user, k.method_, now, draw)
    case Rejected => w.(processes := w.processes[p := k.(checked := true, passed := false)])
    case Completed(db, code) =>
      var login := PurposeOf(k.method_) == Login;
      World(db,
        w.processes[p := k.(checked := true, won := true, at := now, session := if login then Some(draw.id) else None, code := code)],
        if login then w.enrolled else w.enrolled + {k.user},
        w.winner[k.challenge := p],
        if code.Some? then w.redeemer[code.value := p] else w.redeemer,
        if login then w.opener[draw.id := p] else w.opener)
  }

  ghost function Apply(w: World, s: Step): World
  {
    match s
    case Begin(token, user, purpose, session, recent, now) =>
      if CanBegin(w.db, token, user, purpose, recent) then w.(db := Begun(w.db, token, user, purpose, session, now)) else w
    case Load(p, c, m, now) =>
      if p !in w.processes && MayLoad(w.db, c, m, now) then w.(processes := w.processes[p := Started(w.db, c, m)]) else w
    case Reserve(p) =>
      if p in w.processes && !w.processes[p].reserved && Reservable(w.db, w.processes[p].challenge) then
        w.(db := Reserved(w.db, w.processes[p].challenge), processes := w.processes[p := w.processes[p].(reserved := true)])
      else w
    case Check(p, ok) =>
      if p in w.processes && w.processes[p].reserved && !w.processes[p].checked && !w.processes[p].method_.Recovery? then
        w.(processes := w.processes[p := w.processes[p].(checked := true, passed := ok)])
      else w
    case Commit(p, now, draw) => if p in w.processes && MayCommit(w.processes[p]) then Committed(w, p, now, draw) else w
    case DropPasskey(user, passkey, recent) =>
      if RemovePasskeyFault(w.db, user, passkey, recent).None? then w.(db := PasskeyRemoved(w.db, user, passkey)) else w
    case DropTotp(user, recent) =>
      if RemoveTotpFault(w.db, user, recent).None? then w.(db := TotpRemoved(w.db, user)) else w
    case SessionStep(op) => w.(db := w.db.(sessions := Sessions.Apply(w.db.sessions, op)))
  }

  // ---------- invariant ----------

  function Reservers(ps: map<Id, Process>, c: Id): set<Id> {
    set p | p in ps && ps[p].challenge == c && ps[p].reserved
  }

  /** The processes whose code was checked against a challenge. */
  function Checkers(ps: map<Id, Process>, c: Id): set<Id> {
    set p | p in ps && ps[p].challenge == c && ps[p].checked
  }

  /** The processes that were given a session for a challenge. */
  function Winners(ps: map<Id, Process>, c: Id): set<Id> {
    set p | p in ps && ps[p].challenge == c && ps[p].session.Some?
  }

  predicate HasFactor(db: Db, user: Id) {
    user in db.totp || LivePasskeys(db, user) != {}
  }

  /** A process that met its challenge did so alone, in time, and for good. */
  predicate ProcessOk(w: World, p: Id, k: Process) {
    && k.challenge in w.db.challenges && w.db.challenges[k.challenge].user == k.user && Meets(w.db.challenges[k.challenge], k.method_)
    && (k.checked ==> k.reserved) && (k.session.Some? ==> k.won) && (k.code.Some? ==> k.won)
    && (k.won ==> k.at < w.db.challenges[k.challenge].expiresAt && k.challenge in w.winner && w.winner[k.challenge] == p)
    && (k.code.Some? ==> k.code.value in w.redeemer && w.redeemer[k.code.value] == p)
    && (k.session.Some? ==> k.session.value in w.opener && w.opener[k.session.value] == p && OwnedBy(w.db, k.session.value, k.user))
  }

  /** The method is of the kind the challenge is for, and an enrolment comes from the session it was begun in. */
  predicate Meets(c: Challenge, m: Method) {
    match m
    case Totp => c.purpose == Login
    case Recovery(_) => c.purpose == Login
    case WithPasskey(_) => c.purpose == Login && c.webauthn
    case TotpEnrolment(session) => c.purpose == EnrolTotp && c.session == Some(session)
    case PasskeyEnrolment(session, _) => c.purpose == EnrolPasskey && c.session == Some(session)
  }

  predicate OwnedBy(db: Db, session: Id, user: Id) {
    session in db.sessions && db.sessions[session].user == user
  }

  ghost predicate ProcessesOk(w: World) {
    forall p :: p in w.processes ==> ProcessOk(w, p, w.processes[p])
  }

  ghost predicate MarksOk(w: World) {
    && (forall c :: c in w.winner ==> c in w.db.challenges && w.db.challenges[c].consumed)
    && (forall i :: i in w.redeemer ==> i in w.db.codes && w.db.codes[i].used)
    && (forall i :: i in w.opener ==> i in w.db.sessions)
  }

  /** Attempts count reservations, and stay within five. */
  ghost predicate AttemptsCount(challenges: map<Id, Challenge>, ps: map<Id, Process>) {
    && (forall c :: c in challenges ==> challenges[c].attempts == |Reservers(ps, c)| && challenges[c].attempts <= MAX_ATTEMPTS)
    && (forall p :: p in ps ==> ps[p].challenge in challenges)
  }

  ghost predicate FactorsKept(db: Db, enrolled: set<Id>) {
    forall u :: u in enrolled ==> HasFactor(db, u)
  }

  ghost predicate Inv(w: World) {
    && HashesDiffer(w.db.codes)
    && ProcessesOk(w)
    && MarksOk(w)
    && AttemptsCount(w.db.challenges, w.processes)
    && FactorsKept(w.db, w.enrolled)
  }

  // ---------- counting attempts ----------

  lemma NoReservers(ps: map<Id, Process>, c: Id)
    requires forall p :: p in ps ==> ps[p].challenge != c
    ensures Reservers(ps, c) == {}
  {
  }

  lemma NewReserver(ps: map<Id, Process>, p: Id, k: Process, c: Id)
    requires p in ps ==> ps[p].challenge == k.challenge
    requires k.reserved && (p in ps ==> !ps[p].reserved)
    ensures |Reservers(ps[p := k], c)| == |Reservers(ps, c)| + if k.challenge == c then 1 else 0
  {
    if k.challenge == c {
      assert Reservers(ps[p := k], c) == Reservers(ps, c) + {p};
    } else {
      assert Reservers(ps[p := k], c) == Reservers(ps, c);
    }
  }

  lemma SameReservers(ps: map<Id, Process>, p: Id, k: Process, c: Id)
    requires if p in ps then k.challenge == ps[p].challenge && k.reserved == ps[p].reserved else !k.reserved
    ensures Reservers(ps[p := k], c) == Reservers(ps, c)
  {
  }

  lemma CountsSame(challenges: map<Id, Challenge>, challenges': map<Id, Challenge>, ps: map<Id, Process>, p: Id, k: Process)
    requires AttemptsCount(challenges, ps) && k.challenge in challenges
    requires if p in ps then k.challenge == ps[p].challenge && k.reserved == ps[p].reserved else !k.reserved
    requires challenges'.Keys == challenges.Keys && forall c :: c in challenges ==> challenges'[c].attempts == challenges[c].attempts
    ensures AttemptsCount(challenges', ps[p := k])
  {
    forall c | c in challenges' ensures Reservers(ps[p := k], c) == Reservers(ps, c) {
      SameReservers(ps, p, k, c);
    }
  }

  lemma CountsReserved(db: Db, ps: map<Id, Process>, p: Id)
    requires AttemptsCount(db.challenges, ps) && p in ps && !ps[p].reserved && Reservable(db, ps[p].challenge)
    ensures AttemptsCount(Reserved(db, ps[p].challenge).challenges, ps[p := ps[p].(reserved := true)])
  {
    var k := ps[p].(reserved := true);
    var challenges' := Reserved(db, k.challenge).challenges;
    forall c | c in challenges' ensures challenges'[c].attempts == |Reservers(ps[p := k], c)| {
      NewReserver(ps, p, k, c);
    }
  }

  lemma CountsBegun(challenges: map<Id, Challenge>, token: Id, c: Challenge, ps: map<Id, Process>)
    requires AttemptsCount(challenges, ps) && token !in challenges && c.attempts == 0
    ensures AttemptsCount(challenges[token := c], ps)
  {
    NoReservers(ps, token);
  }

  // ---------- one lemma per step ----------

  /** Steps that change neither factors nor codes keep every factor. */
  lemma SameFactors(db: Db, db': Db, enrolled: set<Id>)
    requires FactorsKept(db, enrolled) && db'.totp == db.totp && db'.passkeys == db.passkeys
    ensures FactorsKept(db', enrolled)
  {
    assert forall u :: LivePasskeys(db', u) == LivePasskeys(db, u);
  }

  lemma BeginKeeps(w: World, s: Step)
    requires Inv(w) && s.Begin? && CanBegin(w.db, s.token, s.user, s.purpose, s.recent)
    ensures Inv(Apply(w, s))
  {
    var w' := Apply(w, s);
    CountsBegun(w.db.challenges, s.token, w'.db.challenges[s.token], w.processes);
    SameFactors(w.db, w'.db, w.enrolled);
    OthersFine(w, w');
  }

  /** Processes are untouched, and challenges stay, keep their users and deadlines, and do not reopen. */
  lemma OthersFine(w: World, w': World)
    requires ProcessesOk(w) && MarksOk(w) && w'.processes == w.processes && w'.winner == w.winner && w'.redeemer == w.redeemer && w'.opener == w.opener
    requires StillThere(w.db, w'.db)
    ensures ProcessesOk(w') && MarksOk(w')
  {
    forall p | p in w'.processes ensures ProcessOk(w', p, w'.processes[p]) {
      assert ProcessOk(w, p, w.processes[p]);
    }
  }

  predicate Continues(c: Challenge, c': Challenge) {
    && c'.user == c.user && c'.expiresAt == c.expiresAt && (c.consumed ==> c'.consumed)
    && c'.purpose == c.purpose && c'.session == c.session && c'.webauthn == c.webauthn
  }

  ghost predicate StillThere(db: Db, db': Db) {
    && (forall c :: c in db.challenges ==> c in db'.challenges && Continues(db.challenges[c], db'.challenges[c]))
    && (forall i :: i in db.codes ==> i in db'.codes && (db.codes[i].used ==> db'.codes[i].used))
    && (forall i :: i in db.sessions ==> OwnedBy(db', i, db.sessions[i].user))
  }

  lemma OneProcess(w: World, p: Id, k: Process)
    requires ProcessesOk(w) && MarksOk(w) && ProcessOk(w, p, k)
    ensures ProcessesOk(w.(processes := w.processes[p := k])) && MarksOk(w.(processes := w.processes[p := k]))
  {
    var w' := w.(processes := w.processes[p := k]);
    forall q | q in w'.processes ensures ProcessOk(w', q, w'.processes[q]) {
      assert q != p ==> ProcessOk(w, q, w.processes[q]);
    }
  }

  lemma LoadKeeps(w: World, s: Step)
    requires Inv(w) && s.Load? && s.p !in w.processes && MayLoad(w.db, s.challenge, s.method_, s.now)
    ensures Inv(Apply(w, s))
  {
    var k := Started(w.db, s.challenge, s.method_);
    OneProcess(w, s.p, k);
    CountsSame(w.db.challenges, w.db.challenges, w.processes, s.p, k);
  }

  lemma ReserveKeeps(w: World, p: Id)
    requires Inv(w) && p in w.processes && !w.processes[p].reserved && Reservable(w.db, w.processes[p].challenge)
    ensures Inv(Apply(w, Reserve(p)))
  {
    var k := w.processes[p].(reserved := true);
    var mid := w.(db := Reserved(w.db, k.challenge));
    CountsReserved(w.db, w.processes, p);
    SameFactors(w.db, mid.db, w.enrolled);
    assert ProcessOk(w, p, w.processes[p]);
    ReservedStays(w.db, k.challenge);
    OthersFine(w, mid);
    ReservedProcess(mid, p);
  }

  lemma ReservedStays(db: Db, c: Id)
    requires c in db.challenges
    ensures StillThere(db, Reserved(db, c))
  {
  }

  lemma ReservedProcess(w: World, p: Id)
    requires ProcessesOk(w) && MarksOk(w) && p in w.processes
    ensures var w' := w.(processes := w.processes[p := w.processes[p].(reserved := true)]); ProcessesOk(w') && MarksOk(w')
  {
    assert ProcessOk(w, p, w.processes[p]);
    OneProcess(w, p, w.processes[p].(reserved := true));
  }

  lemma CheckKeeps(w: World, p: Id, ok: bool)
    requires Inv(w) && p in w.processes && w.processes[p].reserved && !w.processes[p].checked
    ensures Inv(w.(processes := w.processes[p := w.processes[p].(checked := true, passed := ok)]))
  {
    var k := w.processes[p].(checked := true, passed := ok);
    assert ProcessOk(w, p, w.processes[p]);
    OneProcess(w, p, k);
    CountsSame(w.db.challenges, w.db.challenges, w.processes, p, k);
  }

  // ---------- new recovery codes ----------

  /** Every row is an old one, unchanged, or one of the new codes. */
  lemma {:induction false} AddedCodes(codes: map<Id, Code>, user: Id, more: seq<NewCode>)
    requires CodesFresh(codes, more)
    ensures var codes' := AddCodes(codes, user, more);
      && (forall i :: i in codes ==> i in codes' && codes'[i] == codes[i])
      && (forall i :: i in codes' && i !in codes ==> NewCode(i, codes'[i].hash) in more)
      && (forall d :: d in more ==> d.id !in codes && d.id in codes' && codes'[d.id] == Code(user, d.hash, false))
    decreases |more|
  {
    if more != [] {
      AddedCodes(codes, user, more[..|more| - 1]);
      assert more == more[..|more| - 1] + [more[|more| - 1]];
    }
  }

  lemma {:induction false} AddedHashesDiffer(codes: map<Id, Code>, user: Id, more: seq<NewCode>)
    requires HashesDiffer(codes) && CodesFresh(codes, more)
    ensures HashesDiffer(AddCodes(codes, user, more))
    decreases |more|
  {
    if more != [] {
      var front, last := more[..|more| - 1], more[|more| - 1];
      AddedHashesDiffer(codes, user, front);
      AddedCodes(codes, user, front);
      var mid := AddCodes(codes, user, front);
      forall i | i in mid ensures mid[i].hash != last.hash {
        assert i !in codes ==> NewCode(i, mid[i].hash) in front;
      }
    }
  }

  lemma EnsuredKeeps(db: Db, user: Id, more: seq<NewCode>)
    requires HashesDiffer(db.codes) && (UnusedCodes(db, user) != {} || CodesFresh(db.codes, more))
    ensures var db' := EnsuredCodes(db, user, more);
      && HashesDiffer(db'.codes) && (forall i :: i in db.codes ==> i in db'.codes && db'.codes[i] == db.codes[i])
  {
    if UnusedCodes(db, user) == {} {
      AddedCodes(db.codes, user, more);
      AddedHashesDiffer(db.codes, user, more);
    }
  }

  function NewIds(more: seq<NewCode>): set<Id> {
    set d | d in more :: d.id
  }

  lemma {:induction false} CountIds(codes: map<Id, Code>, more: seq<NewCode>)
    requires CodesFresh(codes, more)
    ensures |NewIds(more)| == |more|
    decreases |more|
  {
    if more != [] {
      var front := more[..|more| - 1];
      CountIds(codes, front);
      assert more == front + [more[|more| - 1]];
      assert NewIds(more) == NewIds(front) + {more[|more| - 1].id};
    }
  }

  /** After an enrolment the user has recovery codes to fall back on: what was left, or ten new ones. */
  lemma EnrolmentLeavesCodes(db: Db, user: Id, more: seq<NewCode>)
    requires UnusedCodes(db, user) != {} || (|more| == CODE_COUNT && CodesFresh(db.codes, more))
    ensures var left := UnusedCodes(EnsuredCodes(db, user, more), user);
      if UnusedCodes(db, user) != {} then left == UnusedCodes(db, user) else left == NewIds(more) && |left| == 10
  {
    if UnusedCodes(db, user) == {} {
      AddedCodes(db.codes, user, more);
      CountIds(db.codes, more);
      var after := EnsuredCodes(db, user, more);
      forall i | i in UnusedCodes(after, user) ensures i in NewIds(more) {
        assert i !in UnusedCodes(db, user);
        assert NewCode(i, after.codes[i].hash) in more;
      }
    }
  }

  // ---------- committing ----------

  /** What a completed transaction has done. */
  ghost predicate Completes(db: Db, db': Db, c: Id, user: Id, m: Method, now: int, code: Option<Id>) {
    && Consumable(db, c, now) && db'.challenges == Consumed(db, c).challenges
    && HashesDiffer(db'.codes)
    && (forall i :: i in db.codes ==> i in db'.codes && (db.codes[i].used ==> db'.codes[i].used))
    && (code.Some? ==> code.value in db.codes && !db.codes[code.value].used && db'.codes[code.value].used)
    && db.totp <= db'.totp && (forall u :: LivePasskeys(db, u) <= LivePasskeys(db', u))
    && (PurposeOf(m) != Login ==> HasFactor(db', user))
    && (forall i :: i in db.sessions ==> OwnedBy(db', i, db.sessions[i].user))
  }

  lemma CompleteMeans(db: Db, c: Id, user: Id, m: Method, now: int, draw: Draw)
    requires HashesDiffer(db.codes) && Complete(db, c, user, m, now, draw).Completed?
    ensures var r := Complete(db, c, user, m, now, draw);
      Completes(db, r.db, c, user, m, now, r.code)
  {
    match m
    case Totp =>
    case Recovery(_) =>
    case WithPasskey(_) =>
    case TotpEnrolment(_) => EnsuredKeeps(Consumed(db, c).(totp := db.totp + {user}), user, draw.codes);
    case PasskeyEnrolment(_, credential) =>
      var mid := Consumed(db, c).(passkeys := db.passkeys[draw.id := Passkey(user, credential, false)]);
      EnsuredKeeps(mid, user, draw.codes);
      assert draw.id in LivePasskeys(mid, user);
  }

  lemma FactorsGrow(db: Db, db': Db, enrolled: set<Id>)
    requires FactorsKept(db, enrolled) && db.totp <= db'.totp && forall u :: LivePasskeys(db, u) <= LivePasskeys(db', u)
    ensures FactorsKept(db', enrolled)
  {
    forall u | u in enrolled ensures HasFactor(db', u) {
      assert HasFactor(db, u);
    }
  }

  /** The process has opened a session of its own, or none. */
  predicate SessionOpened(w: World, w': World, p: Id, k': Process) {
    if k'.session.Some? then
      var x := k'.session.value;
      x !in w.db.sessions && OwnedBy(w'.db, x, k'.user) && w'.opener == w.opener[x := p]
    else w'.opener == w.opener
  }

  lemma WinnerFine(w: World, w': World, p: Id, k': Process, code: Option<Id>, now: int)
    requires ProcessesOk(w) && MarksOk(w) && p in w.processes && MayCommit(w.processes[p])
    requires Completes(w.db, w'.db, k'.challenge, k'.user, k'.method_, now, code)
    requires k' == w.processes[p].(checked := true, won := true, at := now, session := k'.session, code := code)
    requires w'.processes == w.processes[p := k'] && w'.winner == w.winner[k'.challenge := p]
    requires w'.redeemer == if code.Some? then w.redeemer[code.value := p] else w.redeemer
    requires SessionOpened(w, w', p, k')
    ensures ProcessesOk(w')
  {
    assert ProcessOk(w, p, w.processes[p]);
    forall q | q in w'.processes ensures ProcessOk(w', q, w'.processes[q]) {
      if q != p {
        assert ProcessOk(w, q, w.processes[q]);
      }
    }
  }

  lemma WinnerMarks(w: World, w': World, p: Id, k': Process, code: Option<Id>, now: int)
    requires ProcessesOk(w) && MarksOk(w) && p in w.processes && MayCommit(w.processes[p])
    requires Completes(w.db, w'.db, k'.challenge, k'.user, k'.method_, now, code)
    requires k' == w.processes[p].(checked := true, won := true, at := now, session := k'.session, code := code)
    requires w'.processes == w.processes[p := k'] && w'.winner == w.winner[k'.challenge := p]
    requires w'.redeemer == if code.Some? then w.redeemer[code.value := p] else w.redeemer
    requires SessionOpened(w, w', p, k')
    ensures MarksOk(w')
  {
    assert ProcessOk(w, p, w.processes[p]);
  }

  lemma CommitKeeps(w: World, p: Id, now: int, draw: Draw)
    requires Inv(w) && p in w.processes && MayCommit(w.processes[p])
    ensures Inv(Committed(w, p, now, draw))
  {
    var k := w.processes[p];
    var w' := Committed(w, p, now, draw);
    assert ProcessOk(w, p, k);
    if Complete(w.db, k.challenge, k.user, k.method_, now, draw).Rejected? {
      OneProcess(w, p, w'.processes[p]);
      CountsSame(w.db.challenges, w.db.challenges, w.processes, p, w'.processes[p]);
    } else {
      var r := Complete(w.db, k.challenge, k.user, k.method_, now, draw);
      CompleteMeans(w.db, k.challenge, k.user, k.method_, now, draw);
      if PurposeOf(k.method_) == Login {
        LoginOpensItsSession(w.db, k.challenge, k.user, k.method_, now, draw);
      }
      CompletedKeeps(w, p, now, r.db, r.code, w');
    }
  }

  lemma CompletedKeeps(w: World, p: Id, now: int, db: Db, code: Option<Id>, w': World)
    requires Inv(w) && p in w.processes && MayCommit(w.processes[p]) && w.processes[p].challenge in w.db.challenges
    requires var k := w.processes[p]; Completes(w.db, db, k.challenge, k.user, k.method_, now, code)
    requires w'.db == db && p in w'.processes && w'.processes == w.processes[p := w'.processes[p]]
    requires w'.processes[p] == w.processes[p].(checked := true, won := true, at := now, session := w'.processes[p].session, code := code)
    requires w'.enrolled == w.enrolled + if PurposeOf(w.processes[p].method_) == Login then {} else {w.processes[p].user}
    requires w'.winner == w.winner[w.processes[p].challenge := p]
    requires w'.redeemer == if code.Some? then w.redeemer[code.value := p] else w.redeemer
    requires SessionOpened(w, w', p, w'.processes[p])
    ensures Inv(w')
  {
    WinnerFine(w, w', p, w'.processes[p], code, now);
    WinnerMarks(w, w', p, w'.processes[p], code, now);
    CountsSame(w.db.challenges, db.challenges, w.processes, p, w'.processes[p]);
    FactorsGrow(w.db, db, w.enrolled);
  }

  /** Removing a passkey needs another factor to be there. */
  lemma DropPasskeyKeeps(w: World, user: Id, k: Id, recent: bool)
    requires Inv(w) && RemovePasskeyFault(w.db, user, k, recent).None?
    ensures Inv(w.(db := PasskeyRemoved(w.db, user, k)))
  {
    var db' := PasskeyRemoved(w.db, user, k);
    OthersFine(w, w.(db := db'));
    forall u | u in w.enrolled ensures HasFactor(db', u) {
      assert HasFactor(w.db, u);
      if u == user {
        assert LivePasskeys(db', u) == LivePasskeys(w.db, u) - {k};
        assert |LivePasskeys(db', u)| == |LivePasskeys(w.db, u)| - 1;
      } else {
        assert LivePasskeys(db', u) == LivePasskeys(w.db, u);
      }
    }
  }

  lemma DropTotpKeeps(w: World, user: Id, recent: bool)
    requires Inv(w) && RemoveTotpFault(w.db, user, recent).None?
    ensures Inv(w.(db := TotpRemoved(w.db, user)))
  {
    var db' := TotpRemoved(w.db, user);
    OthersFine(w, w.(db := db'));
    assert forall u :: LivePasskeys(db', u) == LivePasskeys(w.db, u);
    forall u | u in w.enrolled ensures HasFactor(db', u) {
      assert HasFactor(w.db, u);
    }
  }

  lemma SessionStepKeeps(w: World, op: Sessions.Op)
    requires Inv(w)
    ensures Inv(w.(db := w.db.(sessions := Sessions.Apply(w.db.sessions, op))))
  {
    var w' := w.(db := w.db.(sessions := Sessions.Apply(w.db.sessions, op)));
    OthersFine(w, w');
    SameFactors(w.db, w'.db, w.enrolled);
  }

  lemma StepKeeps(w: World, s: Step)
    requires Inv(w)
    ensures Inv(Apply(w, s))
  {
    match s
    case Begin(token, user, purpose, _, recent, _) => if CanBegin(w.db, token, user, purpose, recent) { BeginKeeps(w, s); }
    case Load(p, c, m, now) => if p !in w.processes && MayLoad(w.db, c, m, now) { LoadKeeps(w, s); }
    case Reserve(p) => if p in w.processes && !w.processes[p].reserved && Reservable(w.db, w.processes[p].challenge) { ReserveKeeps(w, p); }
    case Check(p, ok) => if p in w.processes && w.processes[p].reserved && !w.processes[p].checked { CheckKeeps(w, p, ok); }
    case Commit(p, now, draw) => if p in w.processes && MayCommit(w.processes[p]) { CommitKeeps(w, p, now, draw); }
    case DropPasskey(user, k, recent) => if RemovePasskeyFault(w.db, user, k, recent).None? { DropPasskeyKeeps(w, user, k, recent); }
    case DropTotp(user, recent) => if RemoveTotpFault(w.db, user, recent).None? { DropTotpKeeps(w, user, recent); }
    case SessionStep(op) => SessionStepKeeps(w, op);
  }

  /** A completed login opens exactly its own new session, which is live, and a
      recovery login uses up exactly one code, one that was there and unused. */
  lemma LoginOpensItsSession(db: Db, c: Id, user: Id, m: Method, now: int, draw: Draw)
    requires PurposeOf(m) == Login && Complete(db, c, user, m, now, draw).Completed?
    ensures var r := Complete(db, c, user, m, now, draw);
      && draw.id !in db.sessions && SessionLive(r.db, draw.id, user, now)
      && r.db.sessions.Keys == db.sessions.Keys + {draw.id}
      && (if m.Recovery? then r.code.Some? && CodeMatches(db, r.code.value, user, m.hash) && r.db.codes == UseCode(db, r.code.value).codes
          else r.db.codes == db.codes)
      && r.db.totp == db.totp && r.db.passkeys == db.passkeys
  {
  }

  // ---------- every run ----------

  /** Nobody has enrolled, and nothing is under way. */
  predicate Quiet(w: World) {
    && w.processes == map[] && w.winner == map[] && w.redeemer == map[] && w.opener == map[] && w.enrolled == {}
    && w.db.challenges == map[] && w.db.codes == map[]
  }

  ghost function Run(w: World, steps: seq<Step>): World
    decreases |steps|
  {
    if steps == [] then w else Run(Apply(w, steps[0]), steps[1..])
  }

  lemma {:induction false} RunKeeps(w: World, steps: seq<Step>)
    requires Inv(w)
    ensures Inv(Run(w, steps))
    decreases |steps|
  {
    if steps != [] {
      StepKeeps(w, steps[0]);
      RunKeeps(Apply(w, steps[0]), steps[1..]);
    }
  }

  lemma Reachable(w: World, steps: seq<Step>)
    requires Quiet(w)
    ensures Inv(Run(w, steps))
  {
    assert Inv(w);
    RunKeeps(w, steps);
  }

  /** However many completions run at once, at most five of them have a code
      checked against one challenge. */
  lemma AtMostFiveChecks(w: World, steps: seq<Step>, c: Id)
    requires Quiet(w) && c in Run(w, steps).db.challenges
    ensures |Checkers(Run(w, steps).processes, c)| <= 5
  {
    var w' := Run(w, steps);
    Reachable(w, steps);
    forall p | p in Checkers(w'.processes, c) ensures p in Reservers(w'.processes, c) {
      assert ProcessOk(w', p, w'.processes[p]);
    }
    SubsetFewer(Checkers(w'.processes, c), Reservers(w'.processes, c));
  }

  lemma AtMostOne(s: set<Id>)
    requires forall p, q :: p in s && q in s ==> p == q
    ensures |s| <= 1
  {
    if s != {} {
      var p :| p in s;
      assert s == {p};
    }
  }

  /** One challenge opens at most one session, strictly before it expires. */
  lemma OneSessionPerChallenge(w: World, steps: seq<Step>, c: Id)
    requires Quiet(w)
    ensures var w' := Run(w, steps);
      && |Winners(w'.processes, c)| <= 1
      && forall p :: p in Winners(w'.processes, c) ==> c in w'.db.challenges && w'.processes[p].at < w'.db.challenges[c].expiresAt
  {
    var w' := Run(w, steps);
    Reachable(w, steps);
    forall p, q | p in Winners(w'.processes, c) && q in Winners(w'.processes, c) ensures p == q {
      assert ProcessOk(w', p, w'.processes[p]) && ProcessOk(w', q, w'.processes[q]);
    }
    AtMostOne(Winners(w'.processes, c));
    forall p | p in Winners(w'.processes, c) ensures c in w'.db.challenges && w'.processes[p].at < w'.db.challenges[c].expiresAt {
      assert ProcessOk(w', p, w'.processes[p]);
    }
  }

  /** No recovery code opens two sessions. */
  lemma CodesAreRedeemedOnce(w: World, steps: seq<Step>, p: Id, q: Id)
    requires Quiet(w)
    requires p in Run(w, steps).processes && q in Run(w, steps).processes
    requires Run(w, steps).processes[p].code.Some? && Run(w, steps).processes[p].code == Run(w, steps).processes[q].code
    ensures p == q
  {
    var w' := Run(w, steps);
    Reachable(w, steps);
    assert ProcessOk(w', p, w'.processes[p]) && ProcessOk(w', q, w'.processes[q]);
  }

  /** A user who has enrolled keeps a TOTP secret or a live passkey. */
  lemma EnrolledUsersKeepAFactor(w: World, steps: seq<Step>, user: Id)
    requires Quiet(w) && user in Run(w, steps).enrolled
    ensures user in Run(w, steps).db.totp || LivePasskeys(Run(w, steps).db, user) != {}
  {
    Reachable(w, steps);
    assert HasFactor(Run(w, steps).db, user);
  }

  /** Every login that a process completes has a session of its own, and it is the user's. */
  lemma LoginsOwnTheirSessions(w: World, steps: seq<Step>, p: Id, q: Id)
    requires Quiet(w) && p in Run(w, steps).processes && q in Run(w, steps).processes
    requires Run(w, steps).processes[p].session.Some?
    ensures var w' := Run(w, steps); var k := w'.processes[p];
      && k.session.value in w'.db.sessions && w'.db.sessions[k.session.value].user == k.user
      && (w'.processes[q].session == k.session ==> p == q)
  {
    var w' := Run(w, steps);
    Reachable(w, steps);
    assert ProcessOk(w', p, w'.processes[p]) && ProcessOk(w', q, w'.processes[q]);
  }

  // ---------- what a commit needs ----------

  /** The user has what the method asks for. */
  ghost predicate Holds(db: Db, user: Id, m: Method, draw: Draw) {
    match m
    case Totp => user in db.totp
    case Recovery(hash) => exists i :: i in db.codes && db.codes[i].user == user && db.codes[i].hash == hash && !db.codes[i].used
    case WithPasskey(credential) =>
      draw.counterOk &&
      exists k :: k in db.passkeys && db.passkeys[k].user == user && db.passkeys[k].credential == credential && !db.passkeys[k].revoked
    case TotpEnrolment(_) => false
    case PasskeyEnrolment(_, _) => false
  }

  /** In any run, a commit opens a session if and only if the process has reserved an
      attempt, has not won yet, has passed its check (a recovery code is looked up only
      now), the challenge is neither consumed nor expired, and the user still has the
      factor it used, in the state of that commit. */
  lemma LoginsNeedTheirFactor(w0: World, steps: seq<Step>, p: Id, now: int, draw: Draw)
    requires Quiet(w0) && draw.id !in Run(w0, steps).db.sessions
    ensures var w := Run(w0, steps); var w' := Apply(w, Commit(p, now, draw));
      draw.id in w'.db.sessions <==>
        && p in w.processes
        && (var k := w.processes[p];
            && k.reserved && !k.won && (if k.method_.Recovery? then !k.checked else k.checked && k.passed)
            && k.user in w.db.users && k.challenge in w.db.challenges
            && !w.db.challenges[k.challenge].consumed && now < w.db.challenges[k.challenge].expiresAt
            && Holds(w.db, k.user, k.method_, draw))
  {
    var w := Run(w0, steps);
    if p in w.processes {
      FactorDecides(w.db, w.processes[p], now, draw);
    }
  }

  ghost predicate Unspent(db: Db, c: Id, now: int) {
    c in db.challenges && !db.challenges[c].consumed && now < db.challenges[c].expiresAt
  }

  lemma FactorDecides(db: Db, k: Process, now: int, draw: Draw)
    requires draw.id !in db.sessions
    ensures var r := Complete(db, k.challenge, k.user, k.method_, now, draw);
      r.Completed? && draw.id in r.db.sessions <==> k.user in db.users && Unspent(db, k.challenge, now) && Holds(db, k.user, k.method_, draw)
  {
    match k.method_
    case Totp =>
    case Recovery(hash) => RecoveryDecides(db, k, hash, now, draw);
    case WithPasskey(_) =>
    case TotpEnrolment(_) => EnrolmentOpensNone(db, k, now, draw);
    case PasskeyEnrolment(_, _) => EnrolmentOpensNone(db, k, now, draw);
  }

  lemma RecoveryDecides(db: Db, k: Process, hash: Id, now: int, draw: Draw)
    requires draw.id !in db.sessions && k.method_ == Recovery(hash)
    ensures Complete(db, k.challenge, k.user, k.method_, now, draw).Completed? <==>
      k.user in db.users && Unspent(db, k.challenge, now) && Holds(db, k.user, k.method_, draw)
    ensures var r := Complete(db, k.challenge, k.user, k.method_, now, draw); r.Completed? ==> draw.id in r.db.sessions
  {
    var found := FindCode(db, k.user, hash);
    if i :| i in db.codes && db.codes[i].user == k.user && db.codes[i].hash == hash && !db.codes[i].used {
      assert CodeMatches(db, i, k.user, hash);
    }
  }

  lemma EnrolmentOpensNone(db: Db, k: Process, now: int, draw: Draw)
    requires draw.id !in db.sessions && PurposeOf(k.method_) != Login
    ensures var r := Complete(db, k.challenge, k.user, k.method_, now, draw); r.Completed? ==> draw.id !in r.db.sessions
  {
  }

  /** ... and then the challenge was for a login of that user and is used up, the session is
      the user's and lasts a day, and no factor but a recovery code has changed. */
  lemma LoginOutcome(w0: World, steps: seq<Step>, p: Id, now: int, draw: Draw)
    requires Quiet(w0) && draw.id !in Run(w0, steps).db.sessions
    requires draw.id in Apply(Run(w0, steps), Commit(p, now, draw)).db.sessions
    ensures var w := Run(w0, steps); var db' := Apply(w, Commit(p, now, draw)).db;
      && p in w.processes
      && (var k := w.processes[p]; var c := k.challenge;
          && c in w.db.challenges && w.db.challenges[c].purpose == Login && w.db.challenges[c].user == k.user
          && (k.method_.WithPasskey? ==> w.db.challenges[c].webauthn)
          && db'.challenges == w.db.challenges[c := w.db.challenges[c].(consumed := true)]
          && draw.id in db'.sessions && db'.sessions[draw.id] == Sessions.Session(k.user, now, now + 86_400 * 1_000_000_000, false)
          && db'.totp == w.db.totp && db'.passkeys == w.db.passkeys && CodesAfter(w.db, db', k.user, k.method_))
  {
    var w := Run(w0, steps);
    Reachable(w0, steps);
    assert p in w.processes;
    LoginOfProcess(w, p, now, draw);
  }

  lemma LoginOfProcess(w: World, p: Id, now: int, draw: Draw)
    requires Inv(w) && p in w.processes && draw.id !in w.db.sessions && draw.id in Apply(w, Commit(p, now, draw)).db.sessions
    ensures var k, r := w.processes[p], Complete(w.db, w.processes[p].challenge, w.processes[p].user, w.processes[p].method_, now, draw);
      && r.Completed? && Apply(w, Commit(p, now, draw)).db == r.db && PurposeOf(k.method_) == Login
      && k.challenge in w.db.challenges && w.db.challenges[k.challenge].user == k.user && Meets(w.db.challenges[k.challenge], k.method_)
      && r.db.challenges == w.db.challenges[k.challenge := w.db.challenges[k.challenge].(consumed := true)]
      && draw.id in r.db.sessions && r.db.sessions[draw.id] == Sessions.Session(k.user, now, now + 86_400 * 1_000_000_000, false)
      && r.db.totp == w.db.totp && r.db.passkeys == w.db.passkeys && CodesAfter(w.db, r.db, k.user, k.method_)
  {
    var k := w.processes[p];
    assert ProcessOk(w, p, k);
    if PurposeOf(k.method_) != Login {
      EnrolmentOpensNone(w.db, k, now, draw);
    }
    LoginOpensItsSession(w.db, k.challenge, k.user, k.method_, now, draw);
    LoginTables(w.db, k.challenge, k.user, k.method_, now, draw);
  }

  /** A recovery login has used up one code of the user with that hash; others use none. */
  ghost predicate CodesAfter(db: Db, db': Db, user: Id, m: Method) {
    if m.Recovery? then
      exists i :: i in db.codes && !db.codes[i].used && db.codes[i].user == user && db.codes[i].hash == m.hash
        && db'.codes == db.codes[i := db.codes[i].(used := true)]
    else db'.codes == db.codes
  }

  lemma LoginTables(db: Db, c: Id, user: Id, m: Method, now: int, draw: Draw)
    requires PurposeOf(m) == Login && Complete(db, c, user, m, now, draw).Completed?
    ensures var after := Complete(db, c, user, m, now, draw).db;
      && c in db.challenges && after.challenges == db.challenges[c := db.challenges[c].(consumed := true)]
      && draw.id in after.sessions
      && after.sessions[draw.id] == Sessions.Session(user, now, now + 86_400 * 1_000_000_000, false)
  {
  }

  /** In any run, a commit that adds a factor does so for the user of a challenge that was
      begun to add it, from the session it was begun in, which is live at that moment. */
  lemma EnrolmentsNeedTheirSession(w0: World, steps: seq<Step>, p: Id, now: int, draw: Draw)
    requires Quiet(w0)
    requires var w := Run(w0, steps); var db' := Apply(w, Commit(p, now, draw)).db; db'.totp != w.db.totp || db'.passkeys != w.db.passkeys
    ensures var w := Run(w0, steps); var db' := Apply(w, Commit(p, now, draw)).db;
      && p in w.processes
      && (var k := w.processes[p];
          && k.reserved && k.checked && k.passed && !k.won && k.challenge in w.db.challenges
          && (var c := w.db.challenges[k.challenge];
              && c.user == k.user && !c.consumed && now < c.expiresAt && c.session.Some? && c.session.value in w.db.sessions
              && (var from := w.db.sessions[c.session.value]; from.user == k.user && !from.revoked && now < from.expiresAt)
              && (if k.method_.TotpEnrolment? then c.purpose == EnrolTotp else c.purpose == EnrolPasskey))
          && FactorAdded(w.db, db', k.user, k.method_, draw.id))
  {
    var w := Run(w0, steps);
    Reachable(w0, steps);
    if p in w.processes {
      var k := w.processes[p];
      assert ProcessOk(w, p, k);
      if MayCommit(k) {
        EnrolmentTables(w.db, k, now, draw);
      }
    }
  }

  /** A TOTP secret, or a passkey whose credential nobody had. */
  ghost predicate FactorAdded(db: Db, db': Db, user: Id, m: Method, id: Id) {
    if m.TotpEnrolment? then db'.totp == db.totp + {user} && db'.passkeys == db.passkeys
    else
      && m.PasskeyEnrolment? && db'.totp == db.totp && id !in db.passkeys
      && (forall x :: x in db.passkeys ==> db.passkeys[x].credential != m.credential)
      && db'.passkeys == db.passkeys[id := Passkey(user, m.credential, false)]
  }

  lemma EnrolmentTables(db: Db, k: Process, now: int, draw: Draw)
    ensures var r := Complete(db, k.challenge, k.user, k.method_, now, draw);
      r.Completed? && (r.db.totp != db.totp || r.db.passkeys != db.passkeys) ==>
        && (k.method_.TotpEnrolment? || k.method_.PasskeyEnrolment?)
        && Unspent(db, k.challenge, now) && FactorAdded(db, r.db, k.user, k.method_, draw.id)
        && k.method_.session in db.sessions
        && (var from := db.sessions[k.method_.session]; from.user == k.user && !from.revoked && now < from.expiresAt)
  {
  }

  /** Some other factor of the user: a TOTP secret, or a live passkey other than `k`. */
  ghost predicate OtherFactor(db: Db, user: Id, k: Id) {
    user in db.totp || exists j :: j in db.passkeys && j != k && db.passkeys[j].user == user && !db.passkeys[j].revoked
  }

  lemma MoreThanOne(db: Db, user: Id, k: Id)
    requires k in LivePasskeys(db, user)
    ensures OtherFactor(db, user, k) <==> |LivePasskeys(db, user)| + (if user in db.totp then 1 else 0) > 1
  {
    var rest := LivePasskeys(db, user) - {k};
    assert |rest| == |LivePasskeys(db, user)| - 1;
    if j :| j in db.passkeys && j != k && db.passkeys[j].user == user && !db.passkeys[j].revoked {
      assert j in rest;
    } else {
      assert rest == {};
    }
  }

  /** A passkey is removed exactly if it is a live one of the user's, who has recently
      authenticated and has another factor; TOTP, if it is there and a live passkey is left. */
  lemma RemovalDecides(w: World, s: Step)
    requires s.DropPasskey? || s.DropTotp?
    ensures Apply(w, s).db != w.db <==>
      && s.recent && s.user in w.db.users
      && (if s.DropTotp? then
            s.user in w.db.totp && exists j :: j in w.db.passkeys && w.db.passkeys[j].user == s.user && !w.db.passkeys[j].revoked
          else
            && s.passkey in w.db.passkeys && w.db.passkeys[s.passkey].user == s.user && !w.db.passkeys[s.passkey].revoked
            && OtherFactor(w.db, s.user, s.passkey))
  {
    SomeLeft(w.db, s.user);
    if s.DropPasskey? && s.passkey in LivePasskeys(w.db, s.user) {
      MoreThanOne(w.db, s.user, s.passkey);
      assert PasskeyRemoved(w.db, s.user, s.passkey).passkeys != w.db.passkeys by {
        assert PasskeyRemoved(w.db, s.user, s.passkey).passkeys[s.passkey].revoked;
      }
    }
    if s.DropTotp? && s.user in w.db.totp {
      assert TotpRemoved(w.db, s.user).totp != w.db.totp;
    }
  }

  /** ... and then all sessions of the user end, another factor is left, and nobody else is touched. */
  lemma RemovalEndsSessions(w: World, s: Step)
    requires s.DropPasskey? || s.DropTotp?
    requires Apply(w, s).db != w.db
    ensures var db, db' := w.db, Apply(w, s).db;
      && HasFactor(db', s.user)
      && db'.sessions.Keys == db.sessions.Keys
      && (forall i :: i in db.sessions ==>
            db'.sessions[i] == (if db.sessions[i].user == s.user then db.sessions[i].(revoked := true) else db.sessions[i]))
      && (if s.DropTotp? then db'.totp == db.totp - {s.user} && db'.passkeys == db.passkeys
          else
            && s.passkey in db.passkeys && db.passkeys[s.passkey].user == s.user && !db.passkeys[s.passkey].revoked
            && db'.totp == db.totp && db'.passkeys == db.passkeys[s.passkey := db.passkeys[s.passkey].(revoked := true)])
  {
    if s.DropPasskey? {
      var db' := PasskeyRemoved(w.db, s.user, s.passkey);
      assert LivePasskeys(db', s.user) == LivePasskeys(w.db, s.user) - {s.passkey};
      assert |LivePasskeys(db', s.user)| == |LivePasskeys(w.db, s.user)| - 1;
    } else {
      assert LivePasskeys(TotpRemoved(w.db, s.user), s.user) == LivePasskeys(w.db, s.user);
    }
  }

  /** A challenge is taken up exactly if it is of the method's kind, in time, not used up, not
      tried five times, and for an enrolment begun in the same session. */
  lemma LoadDecides(w: World, s: Step)
    requires s.Load? && s.p !in w.processes
    ensures s.p in Apply(w, s).processes <==>
      && s.challenge in w.db.challenges
      && (var c := w.db.challenges[s.challenge]; c.attempts < 5 && !c.consumed && s.now < c.expiresAt && Meets(c, s.method_))
  {
  }

  /** An attempt is reserved exactly once by a process, and while its challenge is neither
      used up nor tried five times. */
  lemma ReserveDecides(w: World, p: Id)
    requires p in w.processes
    ensures var c, w' := w.processes[p].challenge, Apply(w, Reserve(p));
      if !w.processes[p].reserved && c in w.db.challenges && !w.db.challenges[c].consumed && w.db.challenges[c].attempts < 5 then
        && w'.db == w.db.(challenges := w.db.challenges[c := w.db.challenges[c].(attempts := w.db.challenges[c].attempts + 1)])
        && w'.processes == w.processes[p := w.processes[p].(reserved := true)]
      else w' == w
  {
  }

  lemma SomeLeft(db: Db, user: Id)
    ensures LivePasskeys(db, user) != {} <==> exists k :: k in db.passkeys && db.passkeys[k].user == user && !db.passkeys[k].revoked
    ensures UnusedCodes(db, user) != {} <==> exists i :: i in db.codes && db.codes[i].user == user && !db.codes[i].used
  {
    if k :| k in db.passkeys && db.passkeys[k].user == user && !db.passkeys[k].revoked {
      assert k in LivePasskeys(db, user);
    }
    if i :| i in db.codes && db.codes[i].user == user && !db.codes[i].used {
      assert i in UnusedCodes(db, user);
    }
  }

  /** A challenge is made for a registered user: to log in, if there is anything to log in
      with, and to enrol, if they have recently authenticated. */
  lemma ChallengesBegin(w: World, s: Step)
    requires s.Begin? && s.token !in w.db.challenges
    ensures s.token in Apply(w, s).db.challenges <==>
      && s.user in w.db.users
      && (if s.purpose == Login then
            || s.user in w.db.totp
            || (exists k :: k in w.db.passkeys && w.db.passkeys[k].user == s.user && !w.db.passkeys[k].revoked)
            || (exists i :: i in w.db.codes && w.db.codes[i].user == s.user && !w.db.codes[i].used)
          else s.recent)
  {
    SomeLeft(w.db, s.user);
  }

  /** It lasts five minutes. */
  lemma ChallengesAreNew(w: World, s: Step)
    requires s.Begin? && s.token !in w.db.challenges && s.token in Apply(w, s).db.challenges
    ensures var c := Apply(w, s).db.challenges[s.token];
      && c.user == s.user && c.purpose == s.purpose && c.session == s.session && c.attempts == 0 && !c.consumed
      && c.expiresAt == s.now + 300 * 1_000_000_000
  {
  }
}
