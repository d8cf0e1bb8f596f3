/** Invitations (invitation.go).  An invitation is open until it is accepted,
    expired or revoked.  Some calls commit the expiry they discover and still
    report an error, so an outcome is a state together with an optional fault. */
module Invitations {
  import opened Wrappers
  import opened IdentityTables
  import opened Membership

  const MINUTE := 60_000_000_000
  const DAY := 24 * 60 * MINUTE
  const DEFAULT_LIFETIME := 7 * DAY

  datatype Outcome = Outcome(db: Db, fault: Option<Fault>)

  predicate Open(inv: Invitation) {
    !inv.accepted && !inv.expired && !inv.revoked
  }

  predicate Overdue(inv: Invitation, now: int) {
    Open(inv) && inv.expiresAt <= now
  }

  /** At most one final mark per invitation, the active e-mail exactly while it
      is open, and at most one open invitation per workspace and address. */
  ghost predicate InvitationsInv(db: Db) {
    && (forall i :: i in db.invitations ==> InvitationOk(db, db.invitations[i]))
    && (forall i, j | i in db.invitations && j in db.invitations ::
          db.invitations[i].secret == db.invitations[j].secret ==> i == j)
    && (forall i, j | i in db.invitations && j in db.invitations && Open(db.invitations[i]) && Open(db.invitations[j]) ::
          db.invitations[i].ws == db.invitations[j].ws && db.invitations[i].email == db.invitations[j].email ==> i == j)
  }

  ghost predicate InvitationOk(db: Db, inv: Invitation) {
    && inv.role != Owner
    && inv.ws in db.workspaces
    && inv.invitedBy in db.users
    && !(inv.accepted && inv.expired) && !(inv.accepted && inv.revoked) && !(inv.expired && inv.revoked)
    && inv.activeEmail == (if Open(inv) then Some(inv.email) else None)
  }

  function MarkExpired(inv: Invitation): Invitation {
    inv.(expired := true, activeEmail := None)
  }

  /** Overdue invitations of a workspace, or of one address in it. */
  function Due(db: Db, ws: Id, email: Option<Id>, now: int): set<Id> {
    set i | i in db.invitations && db.invitations[i].ws == ws
            && (email == None || db.invitations[i].activeEmail == email) && Overdue(db.invitations[i], now)
  }

  function MarkAll(db: Db, due: set<Id>): Db {
    db.(invitations := map i | i in db.invitations ::
        if i in due then MarkExpired(db.invitations[i]) else db.invitations[i])
  }

  function ExpireOverdue(db: Db, ws: Id, email: Option<Id>, now: int): Db {
    MarkAll(db, Due(db, ws, email, now))
  }

  function Lifetime(requested: int): int {
    if requested == 0 then DEFAULT_LIFETIME else requested
  }

  predicate LifetimeAllowed(lifetime: int) {
    MINUTE <= lifetime <= 30 * DAY
  }

  predicate HasActive(db: Db, ws: Id, email: Id) {
    exists i :: i in db.invitations && db.invitations[i].ws == ws && db.invitations[i].activeEmail == Some(email)
  }

  predicate MemberHasEmail(db: Db, ws: Id, email: Id) {
    exists k :: k in db.members && k.ws == ws && k.user in db.users && db.users[k.user] == email
  }

  predicate SecretTaken(db: Db, secret: Id) {
    exists i :: i in db.invitations && db.invitations[i].secret == secret
  }

  function NewInvitation(actor: Principal, email: Id, role: Role, secret: Id, expiresAt: int): Invitation {
    Invitation(actor.ws, email, role, secret, actor.user, expiresAt, false, false, false, Some(email))
  }

  function InviteFault(db: Db, actor: Principal, email: Option<Id>, role: Role, requested: int, id: Id, secret: Id, now: int): Option<Fault> {
    if !CanDo(db, actor, InvitationsManage) || role == Owner then Some(Forbidden)
    else if email.None? || !LifetimeAllowed(Lifetime(requested)) then Some(InvalidInput)
    else if HasActive(ExpireOverdue(db, actor.ws, email, now), actor.ws, email.value) || MemberHasEmail(db, actor.ws, email.value)
    then Some(ActiveInvitation)
    else if id in db.invitations || SecretTaken(db, secret) || actor.user !in db.users then Some(StorageFailure)
    else None
  }

  /** Overdue invitations to the address are marked, then the new one is written. */
  function Invited(db: Db, actor: Principal, email: Id, role: Role, requested: int, id: Id, secret: Id, now: int): Db {
    var swept := ExpireOverdue(db, actor.ws, Some(email), now);
    swept.(invitations := swept.invitations[id := NewInvitation(actor, email, role, secret, now + Lifetime(requested))])
  }

  /** Another open invitation already holds the address. */
  predicate AddressHeld(db: Db, id: Id, ws: Id, email: Id) {
    exists i :: i in db.invitations && i != id && db.invitations[i].ws == ws && db.invitations[i].activeEmail == Some(email)
  }

  function ResendFault(db: Db, actor: Principal, id: Id, requested: int, secret: Id): Option<Fault> {
    if !CanDo(db, actor, InvitationsManage) then Some(Forbidden)
    else if !LifetimeAllowed(Lifetime(requested)) then Some(InvalidInvitation)
    else if id !in db.invitations || db.invitations[id].ws != actor.ws ||
            db.invitations[id].accepted || db.invitations[id].revoked then Some(InvalidInvitation)
    else if AddressHeld(db, id, db.invitations[id].ws, db.invitations[id].email) || SecretTaken(db, secret) then Some(InvalidInvitation)
    else None
  }

  /** A resend renews the secret and the deadline, and reopens an expired invitation. */
  function Resent(db: Db, id: Id, requested: int, secret: Id, now: int): Db
    requires id in db.invitations
  {
    var inv := db.invitations[id];
    db.(invitations := db.invitations[id :=
        inv.(secret := secret, activeEmail := Some(inv.email), expiresAt := now + Lifetime(requested), expired := false)])
  }

  function Revoked(db: Db, actor: Principal, id: Id, now: int): Outcome {
    if !CanDo(db, actor, InvitationsManage) then Outcome(db, Some(Forbidden))
    else if id !in db.invitations || db.invitations[id].ws != actor.ws || !Open(db.invitations[id])
    then Outcome(db, Some(InvalidInvitation))
    else
      var inv := db.invitations[id];
      if inv.expiresAt <= now then Outcome(db.(invitations := db.invitations[id := MarkExpired(inv)]), Some(InvalidInvitation))
      else Outcome(db.(invitations := db.invitations[id := inv.(revoked := true, activeEmail := None)]), None)
  }

  predicate SecretOf(db: Db, i: Id, secret: Id) {
    i in db.invitations && db.invitations[i].secret == secret
  }

  ghost function Found(db: Db, secret: Id): (i: Id)
    requires SecretTaken(db, secret)
    ensures SecretOf(db, i, secret)
  {
    var i :| i in db.invitations && db.invitations[i].secret == secret;
    i
  }

  function Accepted(db: Db, id: Id, user: Id): Db
    requires id in db.invitations
  {
    var inv := db.invitations[id];
    var joined := Join(db, Key(inv.ws, user), inv.role);
    joined.(invitations := db.invitations[id := inv.(accepted := true, activeEmail := None)])
  }

  /** Common tail of both ways to accept: `now` is read when the invitation is
      looked up, `later` when the acceptance is written. */
  ghost function AcceptBy(db: Db, original: Db, secret: Id, user: Id, later: int): Outcome
    requires SecretTaken(db, secret)
  {
    var id := Found(db, secret);
    var inv := db.invitations[id];
    if !CanJoin(db, Key(inv.ws, user)) || inv.expiresAt <= later then Outcome(original, Some(InvalidInvitation))
    else Outcome(Accepted(db, id, user), None)
  }

  ghost function AcceptedByUser(db: Db, secret: Id, user: Id, now: int, later: int): Outcome {
    if user !in db.users || !SecretTaken(db, secret) then Outcome(db, Some(InvalidInvitation))
    else
      var id := Found(db, secret);
      var inv := db.invitations[id];
      if !Open(inv) then Outcome(db, Some(InvalidInvitation))
      else if inv.expiresAt <= now then Outcome(db.(invitations := db.invitations[id := MarkExpired(inv)]), Some(InvalidInvitation))
      else if inv.email != db.users[user] then Outcome(db, Some(InvalidInvitation))
      else AcceptBy(db, db, secret, user, later)
  }

  ghost function AcceptedByNewUser(db: Db, secret: Id, user: Id, now: int, later: int): Outcome {
    if !SecretTaken(db, secret) then Outcome(db, Some(InvalidInvitation))
    else
      var id := Found(db, secret);
      var inv := db.invitations[id];
      if !Open(inv) then Outcome(db, Some(InvalidInvitation))
      else if inv.expiresAt <= now then Outcome(db.(invitations := db.invitations[id := MarkExpired(inv)]), Some(InvalidInvitation))
      else if EmailTaken(db, inv.email) || user in db.users then Outcome(db, Some(InvalidInvitation))
      else AcceptBy(db.(users := db.users[user := inv.email]), db, secret, user, later)
  }

  // ---------- what invitation calls keep ----------

  /** Two states with the same members, users and workspaces have the same membership facts. */
  lemma SameMembership(db: Db, db': Db)
    requires db' == db.(invitations := db'.invitations)
    requires MembershipInv(db)
    ensures MembershipInv(db') && EtagsSound(db, db')
  {
    forall g | g in db.scimGroups ensures GroupMembers(db, g.ws, g.role) == GroupMembers(db', g.ws, g.role) {
      SameGroup(db, db', g.ws, g.role);
    }
    OwnersUntouched(db, db');
  }

  lemma SweepKeeps(db: Db, ws: Id, email: Option<Id>, now: int)
    requires InvitationsInv(db)
    ensures InvitationsInv(ExpireOverdue(db, ws, email, now))
    ensures email.Some? ==> forall i :: i in db.invitations && db.invitations[i].ws == ws && db.invitations[i].activeEmail == email ==>
      (Open(ExpireOverdue(db, ws, email, now).invitations[i]) <==> now < db.invitations[i].expiresAt)
  {
  }

  lemma OneRowKeeps(db: Db, id: Id, inv: Invitation)
    requires InvitationsInv(db) && InvitationOk(db, inv)
    requires forall i :: i in db.invitations && i != id ==> db.invitations[i].secret != inv.secret
    requires Open(inv) ==> forall i :: i in db.invitations && i != id && Open(db.invitations[i]) ==>
      db.invitations[i].ws != inv.ws || db.invitations[i].email != inv.email
    ensures InvitationsInv(db.(invitations := db.invitations[id := inv]))
  {
  }

  lemma SweepSecrets(db: Db, ws: Id, email: Option<Id>, now: int, secret: Id)
    ensures SecretTaken(ExpireOverdue(db, ws, email, now), secret) == SecretTaken(db, secret)
  {
    var swept := ExpireOverdue(db, ws, email, now);
    assert forall i :: i in db.invitations ==> swept.invitations[i].secret == db.invitations[i].secret;
  }

  lemma InviteAllowed(db: Db, actor: Principal, email: Option<Id>, role: Role, requested: int, id: Id, secret: Id, now: int)
    requires MembershipInv(db) && InviteFault(db, actor, email, role, requested, id, secret, now).None?
    ensures email.Some? && role != Owner && actor.ws in db.workspaces && actor.user in db.users
    ensures id !in db.invitations && !SecretTaken(db, secret)
    ensures !HasActive(ExpireOverdue(db, actor.ws, email, now), actor.ws, email.value)
  {
  }

  lemma InvitedKeeps(db: Db, actor: Principal, email: Id, role: Role, requested: int, id: Id, secret: Id, now: int)
    requires InvitationsInv(db)
    requires role != Owner && actor.ws in db.workspaces && actor.user in db.users
    requires id !in db.invitations && !SecretTaken(db, secret)
    requires !HasActive(ExpireOverdue(db, actor.ws, Some(email), now), actor.ws, email)
    ensures InvitationsInv(Invited(db, actor, email, role, requested, id, secret, now))
  {
    SweepKeeps(db, actor.ws, Some(email), now);
    SweepSecrets(db, actor.ws, Some(email), now, secret);
    InsertKeeps(ExpireOverdue(db, actor.ws, Some(email), now), actor, email, role, secret, id, now + Lifetime(requested));
  }

  lemma InsertKeeps(db: Db, actor: Principal, email: Id, role: Role, secret: Id, id: Id, expiresAt: int)
    requires InvitationsInv(db) && id !in db.invitations && role != Owner
    requires actor.ws in db.workspaces && actor.user in db.users
    requires !HasActive(db, actor.ws, email) && !SecretTaken(db, secret)
    ensures InvitationsInv(db.(invitations := db.invitations[id := NewInvitation(actor, email, role, secret, expiresAt)]))
  {
    OneRowKeeps(db, id, NewInvitation(actor, email, role, secret, expiresAt));
  }

  lemma ResentKeeps(db: Db, actor: Principal, id: Id, requested: int, secret: Id, now: int)
    requires InvitationsInv(db) && ResendFault(db, actor, id, requested, secret).None?
    ensures InvitationsInv(Resent(db, id, requested, secret, now))
  {
    OneRowKeeps(db, id, Resent(db, id, requested, secret, now).invitations[id]);
  }

  lemma RevokedKeeps(db: Db, actor: Principal, id: Id, now: int)
    requires InvitationsInv(db)
    ensures InvitationsInv(Revoked(db, actor, id, now).db)
  {
    if Revoked(db, actor, id, now).db != db {
      OneRowKeeps(db, id, Revoked(db, actor, id, now).db.invitations[id]);
    }
  }

  lemma ExpiryKeeps(db: Db, id: Id)
    requires InvitationsInv(db) && id in db.invitations && Open(db.invitations[id])
    ensures InvitationsInv(db.(invitations := db.invitations[id := MarkExpired(db.invitations[id])]))
  {
    OneRowKeeps(db, id, MarkExpired(db.invitations[id]));
  }

  lemma FoundIs(db: Db, secret: Id, i: Id)
    requires InvitationsInv(db) && SecretOf(db, i, secret)
    ensures Found(db, secret) == i
  {
  }

  /** Only an open invitation is ever accepted, by a user who was not a member,
      before it expires, and for a role below owner. */
  lemma AcceptanceIsGuarded(db: Db, id: Id, user: Id)
    requires InvitationsInv(db) && MembershipInv(db)
    requires id in db.invitations && Open(db.invitations[id]) && CanJoin(db, Key(db.invitations[id].ws, user))
    ensures var db' := Accepted(db, id, user);
      && MembershipInv(db') && InvitationsInv(db') && EtagsSound(db, db')
      && db'.members == db.members[Key(db.invitations[id].ws, user) := db.invitations[id].role]
      && db'.invitations == db.invitations[id := db'.invitations[id]] && db'.invitations[id].accepted
  {
    var inv := db.invitations[id];
    var joined := Join(db, Key(inv.ws, user), inv.role);
    JoinBelowOwner(db, Key(inv.ws, user), inv.role);
    SameMembership(joined, Accepted(db, id, user));
    EtagsCompose(db, joined, Accepted(db, id, user));
    SameInvitations(db, joined);
    OneRowKeeps(joined, id, inv.(accepted := true, activeEmail := None));
  }

  /** A non-member joining with a role below owner keeps every membership fact. */
  lemma JoinBelowOwner(db: Db, k: Key, role: Role)
    requires MembershipInv(db) && role != Owner && !OwnerAt(db, k)
    requires k.user in db.users && k.ws in db.workspaces && DefaultExternalFree(db, k)
    ensures var db' := Join(db, k, role);
      && MembershipInv(db') && EtagsSound(db, db') && db'.members == db.members[k := role]
      && db'.users == db.users && db'.workspaces == db.workspaces && db'.invitations == db.invitations
  {
    var db' := Join(db, k, role);
    JoinMoves(db, k, role);
    MovedKeeps(db, db', k, role, true);
  }

  lemma SameInvitations(db: Db, db': Db)
    requires InvitationsInv(db) && db'.invitations == db.invitations
    requires db.workspaces <= db'.workspaces && db.users.Keys <= db'.users.Keys
    ensures InvitationsInv(db')
  {
  }
}
