/** The identity service as a state machine: every transaction that writes the
    membership tables, and what holds after every run of them. */
module IdentityRuns {
  import opened Wrappers
  import opened IdentityTables
  import opened Membership
  import opened GroupPatch
  import opened Invitations

  datatype Op =
    | Register(user: Id, email: Id)
    | Bootstrap(user: Id, email: Id, ws: Id)
    | CreateWorkspace(user: Id, ws: Id, factorOk: bool, nameOk: bool)
    | AddMember(actor: Principal, user: Id, role: Role)
    | ChangeMemberRole(actor: Principal, user: Id, role: Role)
    | TransferOwnership(actor: Principal, user: Id)
    | RemoveMember(actor: Principal, user: Id)
    | DeleteAccount(user: Id)
    | CreateScimUser(actor: Principal, address: Option<Id>, named: bool, input: ExternalInput, user: Id)
    | PatchScimUser(actor: Principal, ext: Id, active: Option<bool>, immutable: bool, version: int)
    | PatchScimGroup(actor: Principal, group: Option<Role>, ops: seq<Operation>, version: int)
    | Invite(actor: Principal, address: Option<Id>, role: Role, lifetime: int, id: Id, secret: Id, now: int)
    | Resend(actor: Principal, id: Id, lifetime: int, secret: Id, now: int)
    | Revoke(actor: Principal, id: Id, now: int)
    | ListInvitations(actor: Principal, now: int)
    | Accept(secret: Id, user: Id, now: int, later: int)
    | AcceptAsNewUser(secret: Id, user: Id, now: int, later: int)

  /** The tables after one call; a refused call is rolled back. */
  ghost function Apply(db: Db, op: Op): Db {
    match op
    case Register(user, email) =>
      if user in db.users || EmailTaken(db, email) then db else db.(users := db.users[user := email])
    case Bootstrap(user, email, ws) =>
      if BootstrapFault(db, user, email, ws).Some? then db else Bootstrapped(db, user, email, ws)
    case CreateWorkspace(user, ws, factorOk, nameOk) =>
      if CreateWorkspaceFault(db, user, ws, factorOk, nameOk).Some? then db else OpenWorkspace(db, user, ws)
    case AddMember(actor, user, role) =>
      if AddMemberFault(db, actor, user, role).Some? then db else Join(db, Key(actor.ws, user), role)
    case ChangeMemberRole(actor, user, role) =>
      if ChangeMemberRoleFault(db, actor, user, role).Some? then db else Join(db, Key(actor.ws, user), role)
    case TransferOwnership(actor, user) =>
      if TransferOwnershipFault(db, actor, user).Some? then db else OwnershipTransferred(db, actor, user)
    case RemoveMember(actor, user) =>
      if RemoveMemberFault(db, actor, user).Some? then db else MemberRemoved(db, Key(actor.ws, user))
    case DeleteAccount(user) =>
      if DeleteAccountFault(db, user).Some? then db else AccountDeleted(db, user)
    case CreateScimUser(actor, address, named, input, user) =>
      var plan := PlanScimCreate(db, actor, address, named, input, user);
      if plan.Insert? && address.Some? then ScimInserted(db, plan.key, plan.ext, address.value) else db
    case PatchScimUser(actor, ext, active, immutable, version) =>
      if PatchScimUserFault(db, actor, ext, active, immutable, version).Some? then db
      else ScimUserPatched(db, KeyOf(db, actor.ws, ext), active)
    case PatchScimGroup(actor, group, ops, version) =>
      if PatchGroupFault(db, actor, group, ops, version).Some? then db
      else GroupPatched(db, actor.ws, group.value, Steps(ops))
    case Invite(actor, address, role, lifetime, id, secret, now) =>
      if InviteFault(db, actor, address, role, lifetime, id, secret, now).Some? then db
      else Invited(db, actor, address.value, role, lifetime, id, secret, now)
    case Resend(actor, id, lifetime, secret, now) =>
      if ResendFault(db, actor, id, lifetime, secret).Some? then db else Resent(db, id, lifetime, secret, now)
    case Revoke(actor, id, now) => Revoked(db, actor, id, now).db
    case ListInvitations(actor, now) =>
      if CanDo(db, actor, InvitationsManage) then ExpireOverdue(db, actor.ws, None, now) else db
    case Accept(secret, user, now, later) => AcceptedByUser(db, secret, user, now, later).db
    case AcceptAsNewUser(secret, user, now, later) => AcceptedByNewUser(db, secret, user, now, later).db
  }

  ghost predicate Inv(db: Db) {
    MembershipInv(db) && InvitationsInv(db)
  }

  /** Accepted and revoked are final, and only an open invitation becomes accepted. */
  ghost predicate Advances(before: map<Id, Invitation>, after: map<Id, Invitation>) {
    forall i :: i in before && i in after ==>
      && (before[i].accepted ==> after[i].accepted)
      && (before[i].revoked ==> after[i].revoked)
      && (after[i].accepted && !before[i].accepted ==> Open(before[i]))
  }

  /** What every call but DeleteAccount keeps. */
  ghost predicate Kept(db: Db, db': Db) {
    Inv(db') && EtagsSound(db, db') && Advances(db.invitations, db'.invitations)
  }

  // ---------- one lemma per kind of call ----------

  lemma JoinStep(db: Db, k: Key, role: Role)
    requires Inv(db) && OwnerAt(db, k) == (role == Owner)
    requires k.user in db.users && k.ws in db.workspaces && DefaultExternalFree(db, k)
    ensures Kept(db, Join(db, k, role))
  {
    JoinMoves(db, k, role);
    MovedKeeps(db, Join(db, k, role), k, role, true);
    SameInvitations(db, Join(db, k, role));
  }

  lemma LeaveStep(db: Db, k: Key, role: Role)
    requires Inv(db) && k in db.scimUsers && db.scimUsers[k].role == role && role != Owner
    ensures Kept(db, Leave(db, k, role))
  {
    LeaveMoves(db, k, role);
    MovedKeeps(db, Leave(db, k, role), k, role, false);
    SameInvitations(db, Leave(db, k, role));
  }

  /** Adding an account, and nothing else but possibly the bootstrap mark. */
  ghost predicate Registered(db: Db, db': Db, user: Id, email: Id) {
    && user !in db.users && !EmailTaken(db, email)
    && db' == db.(bootstrapped := db'.bootstrapped, users := db.users[user := email])
  }

  lemma RegisteredSchema(db: Db, db': Db, user: Id, email: Id)
    requires SchemaHolds(db) && Registered(db, db', user, email)
    ensures SchemaHolds(db')
  {
  }

  lemma RegisteredEtags(db: Db, db': Db, user: Id, email: Id)
    requires Registered(db, db', user, email)
    ensures EtagsSound(db, db')
  {
    forall g | g in db.scimGroups ensures GroupMembers(db, g.ws, g.role) == GroupMembers(db', g.ws, g.role) {
      SameGroup(db, db', g.ws, g.role);
    }
  }

  lemma RegisteredOwners(db: Db, db': Db, user: Id, email: Id)
    requires OneOwner(db) && Registered(db, db', user, email)
    ensures OneOwner(db')
  {
    OwnersUntouched(db, db');
  }

  lemma RegisteredMirror(db: Db, db': Db, user: Id, email: Id)
    requires GroupsExist(db) && MirrorAgrees(db) && NoInactiveOwner(db) && Registered(db, db', user, email)
    ensures GroupsExist(db') && MirrorAgrees(db') && NoInactiveOwner(db')
  {
  }

  lemma RegisteredMembers(db: Db, db': Db, user: Id, email: Id)
    requires MembershipInv(db) && Registered(db, db', user, email)
    ensures MembershipInv(db')
  {
    RegisteredSchema(db, db', user, email);
    RegisteredOwners(db, db', user, email);
    RegisteredMirror(db, db', user, email);
  }

  lemma NewUser(db: Db, db': Db, user: Id, email: Id)
    requires Inv(db) && Registered(db, db', user, email)
    ensures Kept(db, db')
  {
    RegisteredMembers(db, db', user, email);
    RegisteredEtags(db, db', user, email);
    SameInvitations(db, db');
  }

  /** The first membership of a new workspace, and its three groups. */
  lemma OpenRows(db: Db, user: Id, ws: Id)
    ensures var db' := OpenWorkspace(db, user, ws);
      && db'.users == db.users && db'.workspaces == db.workspaces + {ws} && db'.invitations == db.invitations
      && db'.members == db.members[Key(ws, user) := Owner]
      && db'.scimUsers == db.scimUsers[Key(ws, user) := ScimRow(user, Owner, true, 1)]
  {
  }

  lemma OpenGroups(db: Db, user: Id, ws: Id)
    requires SchemaHolds(db) && ws !in db.workspaces
    ensures var db' := OpenWorkspace(db, user, ws);
      && (forall g :: g in db'.scimGroups <==> g in db.scimGroups || (g.ws == ws && g.role != Owner))
      && (forall g :: g in db.scimGroups ==> db'.scimGroups[g] == db.scimGroups[g] && g.ws != ws)
  {
    var bumped := Enrol(db.(workspaces := db.workspaces + {ws}), Key(ws, user), user, Owner);
    assert bumped.scimGroups == db.scimGroups;
    assert OpenWorkspace(db, user, ws) == WithGroups(bumped, ws);
    assert forall g :: g in (set r | r in {Admin, Member, Viewer} :: GroupKey(ws, r)) <==> g.ws == ws && g.role != Owner by {
      forall g: GroupKey | g.ws == ws && g.role != Owner ensures g in (set r | r in {Admin, Member, Viewer} :: GroupKey(ws, r)) {
        assert g.role in {Admin, Member, Viewer} && g == GroupKey(ws, g.role);
      }
    }
  }

  lemma OpenSchema(db: Db, db': Db, user: Id, ws: Id)
    requires SchemaHolds(db) && ws !in db.workspaces && user in db.users
    requires db'.users == db.users && db'.workspaces == db.workspaces + {ws}
    requires db'.members == db.members[Key(ws, user) := Owner]
    requires db'.scimUsers == db.scimUsers[Key(ws, user) := ScimRow(user, Owner, true, 1)]
    requires forall g :: g in db'.scimGroups <==> g in db.scimGroups || (g.ws == ws && g.role != Owner)
    ensures SchemaHolds(db')
  {
    assert forall k :: k in db.scimUsers ==> k.ws != ws;
  }

  lemma OpenMirror(db: Db, db': Db, user: Id, ws: Id)
    requires MembershipInv(db) && ws !in db.workspaces
    requires db'.workspaces == db.workspaces + {ws} && db'.members == db.members[Key(ws, user) := Owner]
    requires db'.scimUsers == db.scimUsers[Key(ws, user) := ScimRow(user, Owner, true, 1)]
    requires forall g :: g in db'.scimGroups <==> g in db.scimGroups || (g.ws == ws && g.role != Owner)
    ensures GroupsExist(db') && MirrorAgrees(db') && NoInactiveOwner(db')
  {
  }

  lemma OpenOwners(db: Db, db': Db, user: Id, ws: Id)
    requires OneOwner(db) && db'.workspaces == db.workspaces + {ws} && db'.members == db.members[Key(ws, user) := Owner]
    requires forall k :: k in db.members ==> k.ws != ws
    ensures OneOwner(db')
  {
    forall w | w in db'.workspaces ensures HasOwner(db', w) {
      if w == ws {
        assert OwnerAt(db', Key(ws, user));
      } else {
        assert HasOwner(db, w);
        var k :| OwnerAt(db, k) && k.ws == w;
        assert OwnerAt(db', k);
      }
    }
    assert forall k :: OwnerAt(db', k) ==> k == Key(ws, user) || (OwnerAt(db, k) && k.ws != ws);
  }

  lemma OpenEtags(db: Db, db': Db, user: Id, ws: Id)
    requires db'.members == db.members[Key(ws, user) := Owner]
    requires db'.scimUsers == db.scimUsers[Key(ws, user) := ScimRow(user, Owner, true, 1)]
    requires forall g :: g in db.scimGroups ==> g in db'.scimGroups && db'.scimGroups[g] == db.scimGroups[g] && g.ws != ws
    ensures EtagsSound(db, db')
  {
    forall g | g in db.scimGroups ensures GroupMembers(db, g.ws, g.role) == GroupMembers(db', g.ws, g.role) {
      SameGroup(db, db', g.ws, g.role);
    }
  }

  lemma OpenStep(db: Db, user: Id, ws: Id)
    requires Inv(db) && ws !in db.workspaces && user in db.users
    ensures Kept(db, OpenWorkspace(db, user, ws))
  {
    var db' := OpenWorkspace(db, user, ws);
    OpenRows(db, user, ws);
    OpenGroups(db, user, ws);
    OpenSchema(db, db', user, ws);
    OpenMirror(db, db', user, ws);
    OpenOwners(db, db', user, ws);
    OpenEtags(db, db', user, ws);
    SameInvitations(db, db');
  }

  lemma BootstrapStep(db: Db, user: Id, email: Id, ws: Id)
    requires Inv(db) && BootstrapFault(db, user, email, ws).None?
    ensures Kept(db, Bootstrapped(db, user, email, ws))
  {
    var started := db.(bootstrapped := true, users := db.users[user := email]);
    NewUser(db, started, user, email);
    OpenStep(started, user, ws);
    EtagsCompose(db, started, Bootstrapped(db, user, email, ws));
  }

  /** The intermediate state of a transfer has two owners, so the owner count is
      settled only after both writes. */
  lemma TransferAllowed(db: Db, actor: Principal, user: Id)
    requires Inv(db) && TransferOwnershipFault(db, actor, user).None?
    ensures OwnerAt(db, Key(actor.ws, actor.user)) && actor.user != user
    ensures Key(actor.ws, user) in db.members && Key(actor.ws, user) in db.scimUsers && Key(actor.ws, actor.user) in db.scimUsers
    ensures actor.ws in db.workspaces && user in db.users && actor.user in db.users
  {
  }

  lemma TransferOwners(db: Db, mid: Db, db': Db, old': Key, new': Key)
    requires OneOwner(db) && OwnerAt(db, old') && old' != new' && old'.ws == new'.ws
    requires Moved(db, mid, new', Owner, true) && Moved(mid, db', old', Admin, true)
    ensures OneOwner(db') && OwnerAt(db', new') && old' in db'.members && db'.members[old'] == Admin
  {
    forall ws | ws in db'.workspaces ensures HasOwner(db', ws) {
      if ws == new'.ws {
        assert OwnerAt(db', new');
      } else {
        assert HasOwner(db, ws);
        var k :| OwnerAt(db, k) && k.ws == ws;
        assert OwnerAt(db', k);
      }
    }
    forall k | OwnerAt(db', k) ensures k == new' || (OwnerAt(db, k) && k.ws != new'.ws) {
    }
  }

  lemma TransferMoves(db: Db, mid: Db, db': Db, old': Key, new': Key)
    requires Inv(db) && OwnerAt(db, old') && old' != new' && old'.ws == new'.ws && new'.user in db.users
    requires Moved(db, mid, new', Owner, true) && Moved(mid, db', old', Admin, true)
    ensures Kept(db, db')
  {
    MovedKeepsSchema(db, mid, new', Owner, true);
    MovedKeepsMirror(db, mid, new', Owner, true);
    MovedKeepsSchema(mid, db', old', Admin, true);
    MovedKeepsMirror(mid, db', old', Admin, true);
    TransferOwners(db, mid, db', old', new');
    MovedEtags(db, mid, new', Owner, true);
    MovedEtags(mid, db', old', Admin, true);
    EtagsCompose(db, mid, db');
    SameInvitations(db, db');
  }

  lemma TransferStep(db: Db, actor: Principal, user: Id)
    requires Inv(db) && TransferOwnershipFault(db, actor, user).None?
    ensures var db' := OwnershipTransferred(db, actor, user); var old' := Key(actor.ws, actor.user);
      && Kept(db, db')
      && OwnerAt(db', Key(actor.ws, user)) && old' in db'.members && db'.members[old'] == Admin
  {
    var old', new' := Key(actor.ws, actor.user), Key(actor.ws, user);
    var mid := Join(db, new', Owner);
    TransferAllowed(db, actor, user);
    JoinMoves(db, new', Owner);
    MovedKeepsMirror(db, mid, new', Owner, true);
    JoinMoves(mid, old', Admin);
    TransferMoves(db, mid, OwnershipTransferred(db, actor, user), old', new');
    TransferOwners(db, mid, OwnershipTransferred(db, actor, user), old', new');
  }

  lemma DeleteRows(db: Db, user: Id)
    requires MembershipInv(db)
    ensures var db' := AccountDeleted(db, user);
      SchemaHolds(db') && GroupsExist(db') && MirrorAgrees(db') && NoInactiveOwner(db')
  {
  }

  lemma DeleteInvitations(db: Db, user: Id)
    requires InvitationsInv(db)
    ensures InvitationsInv(AccountDeleted(db, user))
  {
    var db' := AccountDeleted(db, user);
    forall i | i in db'.invitations ensures InvitationOk(db', db'.invitations[i]) {
      assert InvitationOk(db, db.invitations[i]);
    }
  }

  lemma DeleteOwners(db: Db, user: Id)
    requires Inv(db) && DeleteAccountFault(db, user).None?
    ensures OneOwner(AccountDeleted(db, user))
  {
    var db' := AccountDeleted(db, user);
    forall k ensures OwnerAt(db, k) == OwnerAt(db', k) {
      assert OwnerAt(db, k) ==> k.user != user;
    }
    OwnersUntouched(db, db');
  }

  /** DeleteAccount never bumps, so a group's ETag survives it honestly exactly
      when the account was not in that group. */
  lemma DeleteEtag(db: Db, user: Id, ws: Id, role: Role)
    requires Inv(db) && DeleteAccountFault(db, user).None?
    ensures AccountDeleted(db, user).scimGroups == db.scimGroups
    ensures GroupMembers(AccountDeleted(db, user), ws, role) == GroupMembers(db, ws, role)
      <==> !InGroup(db, Key(ws, user), role)
  {
    var db' := AccountDeleted(db, user);
    var k := Key(ws, user);
    if InGroup(db, k, role) {
      var ext := db.scimUsers[k].externalId;
      assert ext in GroupMembers(db, ws, role);
      assert forall j :: j in db'.scimUsers && j.ws == ws ==> db'.scimUsers[j].externalId != ext;
    } else {
      SameGroup(db, db', ws, role);
    }
  }

  lemma ScimInsertStep(db: Db, k: Key, ext: Id, email: Id)
    requires Inv(db) && k !in db.scimUsers && k.ws in db.workspaces && !HasExternal(db, k.ws, ext)
    requires k.user in db.users || !EmailTaken(db, email)
    ensures Kept(db, ScimInserted(db, k, ext, email))
  {
    var base := if k.user in db.users then db else db.(users := db.users[k.user := email]);
    if k.user !in db.users {
      NewUser(db, base, k.user, email);
      assert forall j :: ExternalAt(base, j, k.ws, ext) == ExternalAt(db, j, k.ws, ext);
    }
    var db' := Enrol(base, k, ext, Member);
    EnrolMoves(base, k, ext, Member);
    MovedKeeps(base, db', k, Member, true);
    SameInvitations(base, db');
    if k.user !in db.users {
      EtagsCompose(db, base, db');
    }
  }

  /** An insert is planned only for a user without a mapping, under a free external id. */
  lemma PlannedInsert(db: Db, actor: Principal, email: Option<Id>, named: bool, input: ExternalInput, user: Id)
    requires PlanScimCreate(db, actor, email, named, input, user).Insert?
    ensures var plan := PlanScimCreate(db, actor, email, named, input, user);
      && email.Some? && plan.key !in db.scimUsers && plan.key.ws == actor.ws && Key(actor.ws, actor.user) in db.members
      && !HasExternal(db, plan.key.ws, plan.ext)
      && (plan.key.user in db.users || !EmailTaken(db, email.value))
      && (plan.key.user in db.users ==> db.users[plan.key.user] == email.value)
  {
  }

  lemma PatchUserStep(db: Db, actor: Principal, ext: Id, active: Option<bool>, immutable: bool, version: int)
    requires Inv(db) && PatchScimUserFault(db, actor, ext, active, immutable, version).None?
    ensures var db' := ScimUserPatched(db, KeyOf(db, actor.ws, ext), active);
      Kept(db, db')
  {
    var k := KeyOf(db, actor.ws, ext);
    var row := db.scimUsers[k];
    if NewActive(row, row.active, active) {
      assert OwnerAt(db, k) == (row.role == Owner);
      JoinStep(db, k, row.role);
    } else {
      LeaveStep(db, k, row.role);
    }
  }

  lemma PatchGroupStep(db: Db, actor: Principal, group: Option<Role>, ops: seq<Operation>, version: int)
    requires Inv(db) && PatchGroupFault(db, actor, group, ops, version).None?
    ensures var db' := GroupPatched(db, actor.ws, group.value, Steps(ops));
      Kept(db, db') && db'.scimGroups[GroupKey(actor.ws, group.value)] == version + 1
  {
    PatchKeeps(db, actor.ws, group.value, ops);
    PatchEtags(db, actor.ws, group.value, ops);
    SameInvitations(db, GroupPatched(db, actor.ws, group.value, Steps(ops)));
  }

  lemma OneRowAdvances(before: map<Id, Invitation>, id: Id, inv: Invitation)
    requires id in before ==> (before[id].accepted ==> inv.accepted) && (before[id].revoked ==> inv.revoked)
    requires id in before && inv.accepted && !before[id].accepted ==> Open(before[id])
    ensures Advances(before, before[id := inv])
  {
  }

  /** Acceptance does nothing, or commits an expiry, or accepts; the last only for an open invitation. */
  lemma AcceptShape(db: Db, secret: Id, user: Id, now: int, later: int, db': Db)
    requires db' == AcceptedByUser(db, secret, user, now, later).db && db' != db
    ensures SecretTaken(db, secret)
    ensures var id := Found(db, secret);
      && Open(db.invitations[id])
      && (db' == db.(invitations := db.invitations[id := MarkExpired(db.invitations[id])])
          || (CanJoin(db, Key(db.invitations[id].ws, user)) && db' == Accepted(db, id, user)))
  {
  }

  lemma ExpiryStep(db: Db, id: Id)
    requires Inv(db) && id in db.invitations && Open(db.invitations[id])
    ensures Kept(db, db.(invitations := db.invitations[id := MarkExpired(db.invitations[id])]))
  {
    var db' := db.(invitations := db.invitations[id := MarkExpired(db.invitations[id])]);
    ExpiryKeeps(db, id);
    SameMembership(db, db');
    OneRowAdvances(db.invitations, id, MarkExpired(db.invitations[id]));
  }

  lemma AcceptanceStep(db: Db, id: Id, user: Id)
    requires Inv(db) && id in db.invitations && Open(db.invitations[id]) && CanJoin(db, Key(db.invitations[id].ws, user))
    ensures Kept(db, Accepted(db, id, user))
  {
    AcceptanceIsGuarded(db, id, user);
    OneRowAdvances(db.invitations, id, Accepted(db, id, user).invitations[id]);
  }

  lemma AcceptStep(db: Db, secret: Id, user: Id, now: int, later: int, db': Db)
    requires Inv(db) && db' == AcceptedByUser(db, secret, user, now, later).db && db' != db
    ensures Kept(db, db')
  {
    AcceptShape(db, secret, user, now, later, db');
    var id := Found(db, secret);
    if db' == db.(invitations := db.invitations[id := MarkExpired(db.invitations[id])]) {
      ExpiryStep(db, id);
    } else {
      AcceptanceStep(db, id, user);
    }
  }

  lemma AcceptNewShape(db: Db, secret: Id, user: Id, now: int, later: int, db': Db)
    requires InvitationsInv(db) && db' == AcceptedByNewUser(db, secret, user, now, later).db && db' != db
    ensures SecretTaken(db, secret)
    ensures var id := Found(db, secret); var mid := db.(users := db.users[user := db.invitations[id].email]);
      && Open(db.invitations[id])
      && (db' == db.(invitations := db.invitations[id := MarkExpired(db.invitations[id])])
          || (Registered(db, mid, user, db.invitations[id].email)
              && CanJoin(mid, Key(db.invitations[id].ws, user)) && db' == Accepted(mid, id, user)))
  {
    var id := Found(db, secret);
    var mid := db.(users := db.users[user := db.invitations[id].email]);
    assert SecretOf(mid, id, secret);
    assert forall i :: SecretOf(mid, i, secret) ==> i == id;
  }

  lemma AcceptNewStep(db: Db, secret: Id, user: Id, now: int, later: int, db': Db)
    requires Inv(db) && db' == AcceptedByNewUser(db, secret, user, now, later).db && db' != db
    ensures Kept(db, db')
  {
    AcceptNewShape(db, secret, user, now, later, db');
    var id := Found(db, secret);
    var mid := db.(users := db.users[user := db.invitations[id].email]);
    if db' == db.(invitations := db.invitations[id := MarkExpired(db.invitations[id])]) {
      ExpiryStep(db, id);
    } else {
      NewUser(db, mid, user, db.invitations[id].email);
      AcceptanceStep(mid, id, user);
      EtagsCompose(db, mid, db');
    }
  }

  lemma InviteAdvances(db: Db, actor: Principal, email: Id, role: Role, lifetime: int, id: Id, secret: Id, now: int)
    requires id !in db.invitations
    ensures Advances(db.invitations, Invited(db, actor, email, role, lifetime, id, secret, now).invitations)
  {
  }

  lemma InviteStep(db: Db, actor: Principal, address: Option<Id>, role: Role, lifetime: int, id: Id, secret: Id, now: int)
    requires Inv(db) && InviteFault(db, actor, address, role, lifetime, id, secret, now).None?
    ensures address.Some?
    ensures Kept(db, Invited(db, actor, address.value, role, lifetime, id, secret, now))
  {
    InviteAllowed(db, actor, address, role, lifetime, id, secret, now);
    InvitedStep(db, actor, address.value, role, lifetime, id, secret, now);
  }

  lemma InvitedStep(db: Db, actor: Principal, email: Id, role: Role, lifetime: int, id: Id, secret: Id, now: int)
    requires Inv(db)
    requires role != Owner && actor.ws in db.workspaces && actor.user in db.users
    requires id !in db.invitations && !SecretTaken(db, secret)
    requires !HasActive(ExpireOverdue(db, actor.ws, Some(email), now), actor.ws, email)
    ensures Kept(db, Invited(db, actor, email, role, lifetime, id, secret, now))
  {
    InvitedKeeps(db, actor, email, role, lifetime, id, secret, now);
    SameMembership(db, Invited(db, actor, email, role, lifetime, id, secret, now));
    InviteAdvances(db, actor, email, role, lifetime, id, secret, now);
  }

  lemma ResendStep(db: Db, actor: Principal, id: Id, lifetime: int, secret: Id, now: int)
    requires Inv(db) && ResendFault(db, actor, id, lifetime, secret).None?
    ensures Kept(db, Resent(db, id, lifetime, secret, now))
  {
    ResentKeeps(db, actor, id, lifetime, secret, now);
    SameMembership(db, Resent(db, id, lifetime, secret, now));
    OneRowAdvances(db.invitations, id, Resent(db, id, lifetime, secret, now).invitations[id]);
  }

  lemma RevokeStep(db: Db, actor: Principal, id: Id, now: int, db': Db)
    requires Inv(db) && db' == Revoked(db, actor, id, now).db && db' != db
    ensures Kept(db, db')
  {
    RevokedKeeps(db, actor, id, now);
    SameMembership(db, db');
    OneRowAdvances(db.invitations, id, db'.invitations[id]);
  }

  lemma SweepStep(db: Db, ws: Id, now: int)
    requires Inv(db)
    ensures Kept(db, ExpireOverdue(db, ws, None, now))
  {
    SweepKeeps(db, ws, None, now);
    SameMembership(db, ExpireOverdue(db, ws, None, now));
    SweepAdvances(db, ws, now);
  }

  lemma SweepAdvances(db: Db, ws: Id, now: int)
    ensures Advances(db.invitations, ExpireOverdue(db, ws, None, now).invitations)
  {
  }

  // ---------- every call ----------

  predicate InvitationCall(op: Op) {
    op.Invite? || op.Resend? || op.Revoke? || op.ListInvitations? || op.Accept? || op.AcceptAsNewUser?
  }

  lemma InvitationCallKeeps(db: Db, op: Op, db': Db)
    requires Inv(db) && InvitationCall(op) && db' == Apply(db, op) && db' != db
    ensures Kept(db, db')
  {
    match op
    case Invite(actor, address, role, lifetime, id, secret, now) => InviteStep(db, actor, address, role, lifetime, id, secret, now);
    case Resend(actor, id, lifetime, secret, now) => ResendStep(db, actor, id, lifetime, secret, now);
    case Revoke(actor, id, now) => RevokeStep(db, actor, id, now, db');
    case ListInvitations(actor, now) => SweepStep(db, actor.ws, now);
    case Accept(secret, user, now, later) => AcceptStep(db, secret, user, now, later, db');
    case AcceptAsNewUser(secret, user, now, later) => AcceptNewStep(db, secret, user, now, later, db');
  }

  lemma AddMemberStep(db: Db, actor: Principal, user: Id, role: Role)
    requires Inv(db) && AddMemberFault(db, actor, user, role).None?
    ensures Kept(db, Join(db, Key(actor.ws, user), role))
  {
    JoinStep(db, Key(actor.ws, user), role);
  }

  lemma ChangeRoleStep(db: Db, actor: Principal, user: Id, role: Role)
    requires Inv(db) && ChangeMemberRoleFault(db, actor, user, role).None?
    ensures Kept(db, Join(db, Key(actor.ws, user), role))
  {
    JoinStep(db, Key(actor.ws, user), role);
  }

  lemma RemoveStep(db: Db, actor: Principal, user: Id)
    requires Inv(db) && RemoveMemberFault(db, actor, user).None?
    ensures var db' := MemberRemoved(db, Key(actor.ws, user));
      Kept(db, db')
  {
    LeaveStep(db, Key(actor.ws, user), db.members[Key(actor.ws, user)]);
  }

  lemma CreateScimStep(db: Db, actor: Principal, address: Option<Id>, named: bool, input: ExternalInput, user: Id)
    requires Inv(db) && PlanScimCreate(db, actor, address, named, input, user).Insert?
    ensures address.Some?
    ensures var plan := PlanScimCreate(db, actor, address, named, input, user);
      var db' := ScimInserted(db, plan.key, plan.ext, address.value);
      Kept(db, db')
  {
    var plan := PlanScimCreate(db, actor, address, named, input, user);
    PlannedInsert(db, actor, address, named, input, user);
    ScimInsertStep(db, plan.key, plan.ext, address.value);
  }

  lemma MembershipCallKeeps(db: Db, op: Op, db': Db)
    requires Inv(db) && !InvitationCall(op) && !op.DeleteAccount? && db' == Apply(db, op) && db' != db
    ensures Kept(db, db')
  {
    match op
    case Register(user, email) => NewUser(db, db', user, email);
    case Bootstrap(user, email, ws) => BootstrapStep(db, user, email, ws);
    case CreateWorkspace(user, ws, _, _) => OpenStep(db, user, ws);
    case AddMember(actor, user, role) => AddMemberStep(db, actor, user, role);
    case ChangeMemberRole(actor, user, role) => ChangeRoleStep(db, actor, user, role);
    case TransferOwnership(actor, user) => TransferStep(db, actor, user);
    case RemoveMember(actor, user) => RemoveStep(db, actor, user);
    case CreateScimUser(actor, address, named, input, user) => CreateScimStep(db, actor, address, named, input, user);
    case PatchScimUser(actor, ext, active, immutable, version) => PatchUserStep(db, actor, ext, active, immutable, version);
    case PatchScimGroup(actor, group, ops, version) => PatchGroupStep(db, actor, group, ops, version);
  }

  lemma DeleteStep(db: Db, user: Id)
    requires Inv(db) && DeleteAccountFault(db, user).None?
    ensures Inv(AccountDeleted(db, user)) && Advances(db.invitations, AccountDeleted(db, user).invitations)
  {
    DeleteRows(db, user);
    DeleteOwners(db, user);
    DeleteInvitations(db, user);
  }

  ghost predicate VersionsRise(before: Db, after: Db) {
    forall g :: g in before.scimGroups ==> g in after.scimGroups && before.scimGroups[g] <= after.scimGroups[g]
  }

  lemma DeleteCallKeeps(db: Db, op: Op, db': Db)
    requires Inv(db) && op.DeleteAccount? && db' == Apply(db, op) && db' != db
    ensures Inv(db') && Advances(db.invitations, db'.invitations) && VersionsRise(db, db')
  {
    DeleteStep(db, op.user);
  }

  lemma KeptVersions(db: Db, db': Db)
    requires Kept(db, db')
    ensures VersionsRise(db, db')
  {
  }

  /** Exactly one owner, the mirror, the schema and the invitation rules survive
      every call, and every call but DeleteAccount keeps the group ETags sound. */
  lemma StepKeeps(db: Db, op: Op, db': Db)
    requires Inv(db) && db' == Apply(db, op)
    ensures Inv(db') && Advances(db.invitations, db'.invitations) && VersionsRise(db, db')
    ensures !op.DeleteAccount? ==> EtagsSound(db, db')
  {
    if db' == db {
      EtagsReflexive(db);
    } else if op.DeleteAccount? {
      DeleteCallKeeps(db, op, db');
    } else {
      if InvitationCall(op) {
        InvitationCallKeeps(db, op, db');
      } else {
        MembershipCallKeeps(db, op, db');
      }
      KeptVersions(db, db');
    }
  }

  lemma EtagsReflexive(db: Db)
    ensures EtagsSound(db, db)
  {
  }

  // ---------- every run ----------

  ghost function Run(db: Db, ops: seq<Op>): Db
    decreases |ops|
  {
    if ops == [] then db else Run(Apply(db, ops[0]), ops[1..])
  }

  lemma {:induction false} RunKeeps(db: Db, ops: seq<Op>)
    requires Inv(db)
    ensures Inv(Run(db, ops))
    decreases |ops|
  {
    if ops != [] {
      StepKeeps(db, ops[0], Apply(db, ops[0]));
      RunKeeps(Apply(db, ops[0]), ops[1..]);
    }
  }

  /** In every state the service can reach, each workspace has exactly one owner,
      a user is a member iff their SCIM row is active, and then the roles agree. */
  lemma ReachableStates(ops: seq<Op>)
    ensures var db := Run(EMPTY, ops);
      && (forall ws :: ws in db.workspaces ==> HasOwner(db, ws))
      && (forall j, k :: OwnerAt(db, j) && OwnerAt(db, k) && j.ws == k.ws ==> j == k)
      && (forall k :: k in db.members <==> k in db.scimUsers && db.scimUsers[k].active)
      && (forall k :: k in db.members ==> db.members[k] == db.scimUsers[k].role)
      && NoInactiveOwner(db)
  {
    RunKeeps(EMPTY, ops);
  }

  lemma {:induction false} RunVersionsRise(db: Db, ops: seq<Op>, g: GroupKey)
    requires Inv(db) && g in db.scimGroups
    ensures g in Run(db, ops).scimGroups && db.scimGroups[g] <= Run(db, ops).scimGroups[g]
    decreases |ops|
  {
    if ops != [] {
      StepKeeps(db, ops[0], Apply(db, ops[0]));
      RunVersionsRise(Apply(db, ops[0]), ops[1..], g);
    }
  }

  /** The call deletes an account that is in the group. */
  ghost predicate Severs(db: Db, op: Op, g: GroupKey) {
    op.DeleteAccount? && DeleteAccountFault(db, op.user).None? && InGroup(db, Key(g.ws, op.user), g.role)
  }

  ghost predicate NeverSevers(db: Db, ops: seq<Op>, g: GroupKey)
    decreases |ops|
  {
    ops == [] || (!Severs(db, ops[0], g) && NeverSevers(Apply(db, ops[0]), ops[1..], g))
  }

  /** The member a call takes out of the group by deleting the account. */
  ghost function SeveredBy(db: Db, op: Op, g: GroupKey): set<Id> {
    if Severs(db, op, g) then {db.scimUsers[Key(g.ws, op.user)].externalId} else {}
  }

  ghost function Severed(db: Db, ops: seq<Op>, g: GroupKey): set<Id>
    decreases |ops|
  {
    if ops == [] then {} else SeveredBy(db, ops[0], g) + Severed(Apply(db, ops[0]), ops[1..], g)
  }

  lemma DeletionLoses(db: Db, user: Id, g: GroupKey)
    requires SchemaHolds(db) && InGroup(db, Key(g.ws, user), g.role)
    ensures var ext := db.scimUsers[Key(g.ws, user)].externalId;
      && ext in GroupMembers(db, g.ws, g.role)
      && GroupMembers(AccountDeleted(db, user), g.ws, g.role) == GroupMembers(db, g.ws, g.role) - {ext}
  {
    var db', k := AccountDeleted(db, user), Key(g.ws, user);
    var ext := db.scimUsers[k].externalId;
    forall e | e in GroupMembers(db, g.ws, g.role) && e != ext ensures e in GroupMembers(db', g.ws, g.role) {
      var j :| j in db.scimUsers && j.ws == g.ws && InGroup(db, j, g.role) && db.scimUsers[j].externalId == e;
      assert InGroup(db', j, g.role);
    }
    forall e | e in GroupMembers(db', g.ws, g.role) ensures e in GroupMembers(db, g.ws, g.role) && e != ext {
      var j :| j in db'.scimUsers && j.ws == g.ws && InGroup(db', j, g.role) && db'.scimUsers[j].externalId == e;
      assert InGroup(db, j, g.role) && j != k;
    }
  }

  lemma DeletedMembers(db: Db, user: Id, g: GroupKey)
    requires Inv(db) && DeleteAccountFault(db, user).None?
    ensures var k := Key(g.ws, user); var lost := if InGroup(db, k, g.role) then {db.scimUsers[k].externalId} else {};
      && lost <= GroupMembers(db, g.ws, g.role)
      && GroupMembers(AccountDeleted(db, user), g.ws, g.role) == GroupMembers(db, g.ws, g.role) - lost
  {
    if InGroup(db, Key(g.ws, user), g.role) {
      DeletionLoses(db, user, g);
    } else {
      DeleteEtag(db, user, g.ws, g.role);
    }
  }

  lemma DeleteApplied(db: Db, op: Op, db': Db)
    requires op.DeleteAccount? && db' == Apply(db, op)
    ensures db' == if DeleteAccountFault(db, op.user).None? then AccountDeleted(db, op.user) else db
  {
  }

  /** The group's members are the same but for `lost`. */
  ghost predicate OnlyLost(db: Db, db': Db, g: GroupKey, lost: set<Id>) {
    lost <= GroupMembers(db, g.ws, g.role) && GroupMembers(db', g.ws, g.role) == GroupMembers(db, g.ws, g.role) - lost
  }

  lemma DeleteSevers(db: Db, op: Op, g: GroupKey, db': Db)
    requires Inv(db) && op.DeleteAccount? && db' == Apply(db, op)
    ensures OnlyLost(db, db', g, SeveredBy(db, op, g))
  {
    DeleteApplied(db, op, db');
    if DeleteAccountFault(db, op.user).None? {
      DeletedMembers(db, op.user, g);
    }
  }

  lemma SoundLosesNone(db: Db, db': Db, g: GroupKey)
    requires EtagsSound(db, db') && g in db.scimGroups && g in db'.scimGroups && db'.scimGroups[g] == db.scimGroups[g]
    ensures OnlyLost(db, db', g, {})
  {
  }

  /** One call that leaves the version leaves the members, but for a deleted account. */
  lemma StepSevers(db: Db, op: Op, g: GroupKey, db': Db)
    requires Inv(db) && g in db.scimGroups && db' == Apply(db, op)
    ensures Inv(db') && g in db'.scimGroups && db.scimGroups[g] <= db'.scimGroups[g]
    ensures db'.scimGroups[g] == db.scimGroups[g] ==> OnlyLost(db, db', g, SeveredBy(db, op, g))
  {
    StepKeeps(db, op, db');
    if op.DeleteAccount? {
      DeleteSevers(db, op, g, db');
    } else if db'.scimGroups[g] == db.scimGroups[g] {
      SoundLosesNone(db, db', g);
    }
  }

  lemma LostInTurn(a: Db, b: Db, c: Db, g: GroupKey, x: set<Id>, y: set<Id>)
    requires OnlyLost(a, b, g, x) && OnlyLost(b, c, g, y)
    ensures OnlyLost(a, c, g, x + y)
  {
  }

  /** A client that reads a group at one version and later finds the same version
      finds the same members but for those whose accounts were deleted in between. */
  lemma {:induction false} EtagIdentifiesMembers(db: Db, ops: seq<Op>, g: GroupKey)
    requires Inv(db) && g in db.scimGroups
    ensures g in Run(db, ops).scimGroups && db.scimGroups[g] <= Run(db, ops).scimGroups[g]
    ensures Run(db, ops).scimGroups[g] == db.scimGroups[g] ==>
      OnlyLost(db, Run(db, ops), g, Severed(db, ops, g))
    decreases |ops|
  {
    if ops != [] {
      var mid := Apply(db, ops[0]);
      StepSevers(db, ops[0], g, mid);
      EtagIdentifiesMembers(mid, ops[1..], g);
      if Run(db, ops).scimGroups[g] == db.scimGroups[g] {
        LostInTurn(db, mid, Run(db, ops), g, SeveredBy(db, ops[0], g), Severed(mid, ops[1..], g));
      }
    }
  }

  lemma {:induction false} NothingSevered(db: Db, ops: seq<Op>, g: GroupKey)
    ensures Severed(db, ops, g) == {} <==> NeverSevers(db, ops, g)
    decreases |ops|
  {
    if ops != [] {
      NothingSevered(Apply(db, ops[0]), ops[1..], g);
    }
  }

  ghost predicate PatchCommits(db: Db, op: Op, g: GroupKey, version: int) {
    && op.PatchScimGroup? && op.group == Some(g.role) && op.actor.ws == g.ws && op.version == version
    && PatchGroupFault(db, op.actor, op.group, op.ops, op.version).None?
  }

  /** How many patches of group `g` conditioned on `version` commit in a run. */
  ghost function Commits(db: Db, ops: seq<Op>, g: GroupKey, version: int): nat
    decreases |ops|
  {
    if ops == [] then 0
    else (if PatchCommits(db, ops[0], g, version) then 1 else 0) + Commits(Apply(db, ops[0]), ops[1..], g, version)
  }

  lemma PatchApplied(db: Db, op: Op, g: GroupKey, version: int)
    requires PatchCommits(db, op, g, version)
    ensures Apply(db, op) == GroupPatched(db, g.ws, g.role, Steps(op.ops))
    ensures OperationsFault(db, g.ws, op.ops).None? && g in db.scimGroups && db.scimGroups[g] == version && g.role != Owner
  {
  }

  lemma PatchRaises(db: Db, op: Op, g: GroupKey, version: int, db': Db)
    requires Inv(db) && PatchCommits(db, op, g, version) && db' == Apply(db, op)
    ensures g in db.scimGroups && db.scimGroups[g] == version
    ensures g in db'.scimGroups && db'.scimGroups[g] == version + 1
  {
    PatchApplied(db, op, g, version);
    PatchEtags(db, g.ws, g.role, op.ops);
  }

  /** Of all patches conditioned on one version of a group, at most one commits. */
  lemma {:induction false} AtMostOnePatchCommits(db: Db, ops: seq<Op>, g: GroupKey, version: int)
    requires Inv(db)
    ensures Commits(db, ops, g, version) <= 1
    ensures g in db.scimGroups && version < db.scimGroups[g] ==> Commits(db, ops, g, version) == 0
    decreases |ops|
  {
    if ops != [] {
      var db' := Apply(db, ops[0]);
      StepKeeps(db, ops[0], db');
      if PatchCommits(db, ops[0], g, version) {
        PatchRaises(db, ops[0], g, version, db');
      }
      AtMostOnePatchCommits(db', ops[1..], g, version);
    }
  }

  /** A committed group patch turns the member list its version stands for into
      the fold of the operations, and takes the added users out of the other groups. */
  lemma CommittedPatch(db: Db, op: Op, g: GroupKey, other: Role, version: int, db': Db)
    requires Inv(db) && PatchCommits(db, op, g, version) && other != g.role && db' == Apply(db, op)
    ensures GroupMembers(db', g.ws, g.role) == FoldOperations(op.ops, GroupMembers(db, g.ws, g.role))
    ensures GroupMembers(db', g.ws, other) == GroupMembers(db, g.ws, other) - AddedBy(op.ops)
    ensures g in db.scimGroups && db.scimGroups[g] == version
    ensures g in db'.scimGroups && db'.scimGroups[g] == version + 1
  {
    PatchApplied(db, op, g, version);
    PatchIsFold(db, g.ws, g.role, op.ops);
    PatchElsewhere(db, g.ws, g.role, op.ops, other);
    PatchRaises(db, op, g, version, db');
  }

  // ---------- accepting an invitation ----------

  ghost predicate IsAccepted(db: Db, i: Id) {
    i in db.invitations && db.invitations[i].accepted
  }

  /** The call turns invitation `i` into an accepted one. */
  ghost predicate Accepts(db: Db, op: Op, i: Id) {
    i in db.invitations && !IsAccepted(db, i) && IsAccepted(Apply(db, op), i)
  }

  lemma InviteAdds(db: Db, op: Op, db': Db)
    requires op.Invite? && db' == Apply(db, op)
    ensures forall i :: i in db'.invitations && i != op.id ==> i in db.invitations && db'.invitations[i].accepted == db.invitations[i].accepted
    ensures op.id in db'.invitations && op.id in db.invitations ==> db'.invitations[op.id].accepted == db.invitations[op.id].accepted
  {
  }

  /** No invitation is added, and none becomes accepted. */
  ghost predicate NoneAccepted(before: map<Id, Invitation>, after: map<Id, Invitation>) {
    forall i :: i in after ==> i in before && after[i].accepted == before[i].accepted
  }

  lemma ResendAccepts(db: Db, op: Op, db': Db)
    requires op.Resend? && db' == Apply(db, op)
    ensures NoneAccepted(db.invitations, db'.invitations)
  {
  }

  lemma RevokedAccepts(db: Db, actor: Principal, id: Id, now: int)
    ensures NoneAccepted(db.invitations, Revoked(db, actor, id, now).db.invitations)
  {
  }

  lemma RevokeAccepts(db: Db, op: Op, db': Db)
    requires op.Revoke? && db' == Apply(db, op)
    ensures NoneAccepted(db.invitations, db'.invitations)
  {
    RevokedAccepts(db, op.actor, op.id, op.now);
    assert db' == Revoked(db, op.actor, op.id, op.now).db;
  }

  lemma ListAccepts(db: Db, op: Op, db': Db)
    requires op.ListInvitations? && db' == Apply(db, op)
    ensures NoneAccepted(db.invitations, db'.invitations)
  {
  }

  lemma AccountsAccept(db: Db, op: Op, db': Db)
    requires op.Register? || op.Bootstrap? || op.CreateWorkspace? || op.DeleteAccount?
    requires db' == Apply(db, op)
    ensures NoneAccepted(db.invitations, db'.invitations)
  {
  }

  lemma MembersAccept(db: Db, op: Op, db': Db)
    requires op.AddMember? || op.ChangeMemberRole? || op.RemoveMember?
    requires db' == Apply(db, op)
    ensures NoneAccepted(db.invitations, db'.invitations)
  {
  }

  lemma JoinInvites(db: Db, k: Key, role: Role)
    ensures Join(db, k, role).invitations == db.invitations
  {
  }

  lemma TransferInvites(db: Db, actor: Principal, user: Id)
    ensures OwnershipTransferred(db, actor, user).invitations == db.invitations
  {
    JoinInvites(db, Key(actor.ws, user), Owner);
    JoinInvites(Join(db, Key(actor.ws, user), Owner), Key(actor.ws, actor.user), Admin);
  }

  lemma TransferAccepts(db: Db, op: Op, db': Db)
    requires op.TransferOwnership? && db' == Apply(db, op)
    ensures NoneAccepted(db.invitations, db'.invitations)
  {
    TransferInvites(db, op.actor, op.user);
    assert db' == db || db' == OwnershipTransferred(db, op.actor, op.user);
  }

  lemma ScimUsersAccept(db: Db, op: Op, db': Db)
    requires op.CreateScimUser? || op.PatchScimUser?
    requires db' == Apply(db, op)
    ensures NoneAccepted(db.invitations, db'.invitations)
  {
  }

  lemma ScimGroupsAccept(db: Db, op: Op, db': Db)
    requires op.PatchScimGroup? && db' == Apply(db, op)
    ensures NoneAccepted(db.invitations, db'.invitations)
  {
  }

  lemma OthersAccept(db: Db, op: Op)
    requires !op.Invite? && !op.Accept? && !op.AcceptAsNewUser?
    ensures NoneAccepted(db.invitations, Apply(db, op).invitations)
  {
    if op.Resend? {
      ResendAccepts(db, op, Apply(db, op));
    } else if op.Revoke? {
      RevokeAccepts(db, op, Apply(db, op));
    } else if op.ListInvitations? {
      ListAccepts(db, op, Apply(db, op));
    } else if op.AddMember? || op.ChangeMemberRole? || op.RemoveMember? {
      MembersAccept(db, op, Apply(db, op));
    } else if op.TransferOwnership? {
      TransferAccepts(db, op, Apply(db, op));
    } else if op.CreateScimUser? || op.PatchScimUser? {
      ScimUsersAccept(db, op, Apply(db, op));
    } else if op.PatchScimGroup? {
      ScimGroupsAccept(db, op, Apply(db, op));
    } else {
      AccountsAccept(db, op, Apply(db, op));
    }
  }

  predicate InTime(inv: Invitation, now: int, later: int) {
    Open(inv) && now < inv.expiresAt && later < inv.expiresAt
  }

  /** No invitation is added, and only an open one becomes accepted, in time. */
  ghost predicate OneAccepted(before: map<Id, Invitation>, after: map<Id, Invitation>, now: int, later: int) {
    forall i :: i in after ==> i in before && (after[i].accepted != before[i].accepted ==> InTime(before[i], now, later))
  }

  lemma UserAccepts(db: Db, secret: Id, user: Id, now: int, later: int, db': Db)
    requires db' == AcceptedByUser(db, secret, user, now, later).db
    ensures OneAccepted(db.invitations, db'.invitations, now, later)
  {
  }

  lemma NewUserAccepts(db: Db, secret: Id, user: Id, now: int, later: int, db': Db)
    requires InvitationsInv(db) && db' == AcceptedByNewUser(db, secret, user, now, later).db
    ensures OneAccepted(db.invitations, db'.invitations, now, later)
  {
    if SecretTaken(db, secret) {
      var id := Found(db, secret);
      FoundElsewhere(db, db.(users := db.users[user := db.invitations[id].email]), secret);
    }
  }

  lemma FoundElsewhere(db: Db, mid: Db, secret: Id)
    requires InvitationsInv(db) && SecretTaken(db, secret) && mid.invitations == db.invitations
    ensures SecretTaken(mid, secret) && Found(mid, secret) == Found(db, secret)
  {
    assert SecretOf(mid, Found(db, secret), secret);
    assert forall i :: SecretOf(mid, i, secret) ==> i == Found(db, secret);
  }

  lemma AcceptingAccepts(db: Db, op: Op)
    requires InvitationsInv(db) && (op.Accept? || op.AcceptAsNewUser?)
    ensures OneAccepted(db.invitations, Apply(db, op).invitations, op.now, op.later)
  {
    if op.Accept? {
      UserAccepts(db, op.secret, op.user, op.now, op.later, Apply(db, op));
    } else {
      NewUserAccepts(db, op.secret, op.user, op.now, op.later, Apply(db, op));
    }
  }

  /** Only the two ways to accept accept, an open invitation, in time by both clock readings. */
  lemma AcceptanceMeans(db: Db, op: Op, i: Id)
    requires Inv(db) && Accepts(db, op, i)
    ensures (op.Accept? || op.AcceptAsNewUser?) && Open(db.invitations[i])
    ensures op.now < db.invitations[i].expiresAt && op.later < db.invitations[i].expiresAt
  {
    if op.Invite? {
      InviteAdds(db, op, Apply(db, op));
    } else if op.Accept? || op.AcceptAsNewUser? {
      AcceptingAccepts(db, op);
    } else {
      OthersAccept(db, op);
    }
  }

  lemma OnlyInvitesAdd(db: Db, op: Op, i: Id)
    requires Inv(db) && i in Apply(db, op).invitations && i !in db.invitations
    ensures op.Invite? && op.id == i
  {
    if op.Invite? {
      InviteAdds(db, op, Apply(db, op));
    } else if op.Accept? || op.AcceptAsNewUser? {
      AcceptingAccepts(db, op);
    } else {
      OthersAccept(db, op);
    }
  }

  /** How often a run turns invitation `i` into an accepted one, and how often it draws that id. */
  ghost function TimesAccepted(db: Db, ops: seq<Op>, i: Id): nat
    decreases |ops|
  {
    if ops == [] then 0 else (if Accepts(db, ops[0], i) then 1 else 0) + TimesAccepted(Apply(db, ops[0]), ops[1..], i)
  }

  function TimesDrawn(ops: seq<Op>, i: Id): nat {
    if ops == [] then 0 else (if ops[0].Invite? && ops[0].id == i then 1 else 0) + TimesDrawn(ops[1..], i)
  }

  lemma {:induction false} AcceptedPerDraw(db: Db, ops: seq<Op>, i: Id)
    requires Inv(db)
    ensures TimesAccepted(db, ops, i) <= TimesDrawn(ops, i) + if i in db.invitations && !IsAccepted(db, i) then 1 else 0
    decreases |ops|
  {
    if ops != [] {
      var db' := Apply(db, ops[0]);
      StepKeeps(db, ops[0], db');
      AcceptedPerDraw(db', ops[1..], i);
      if i in db'.invitations && i !in db.invitations {
        OnlyInvitesAdd(db, ops[0], i);
      }
      if Accepts(db, ops[0], i) {
        AcceptanceMeans(db, ops[0], i);
      }
    }
  }

  // ---------- the same from the empty service on ----------

  lemma ReachableInv(ops: seq<Op>)
    ensures Inv(Run(EMPTY, ops))
  {
    RunKeeps(EMPTY, ops);
  }

  /** Whatever happened before, and whatever happens between two readings of a group:
      versions do not fall, and an unchanged version means unchanged members if and only
      if no account in the group was deleted in between. */
  lemma EtagsHold(before: seq<Op>, between: seq<Op>, g: GroupKey)
    requires g in Run(EMPTY, before).scimGroups
    ensures var db, db' := Run(EMPTY, before), Run(Run(EMPTY, before), between);
      && g in db'.scimGroups && db.scimGroups[g] <= db'.scimGroups[g]
      && (db.scimGroups[g] == db'.scimGroups[g] ==>
            (GroupMembers(db, g.ws, g.role) == GroupMembers(db', g.ws, g.role) <==> NeverSevers(db, between, g)))
  {
    ReachableInv(before);
    EtagIdentifiesMembers(Run(EMPTY, before), between, g);
    NothingSevered(Run(EMPTY, before), between, g);
  }

  /** A patch that commits in any run does to the groups what its operations say. */
  lemma PatchesFold(before: seq<Op>, op: Op, g: GroupKey, other: Role, version: int)
    requires PatchCommits(Run(EMPTY, before), op, g, version) && other != g.role
    ensures var db, db' := Run(EMPTY, before), Apply(Run(EMPTY, before), op);
      && GroupMembers(db', g.ws, g.role) == FoldOperations(op.ops, GroupMembers(db, g.ws, g.role))
      && GroupMembers(db', g.ws, other) == GroupMembers(db, g.ws, other) - AddedBy(op.ops)
      && g in db'.scimGroups && db'.scimGroups[g] == version + 1
  {
    ReachableInv(before);
    CommittedPatch(Run(EMPTY, before), op, g, other, version, Apply(Run(EMPTY, before), op));
  }

  /** Which ETags an account deletion leaves stale, in any run. */
  lemma DeletionEtags(before: seq<Op>, user: Id, ws: Id, role: Role)
    requires DeleteAccountFault(Run(EMPTY, before), user).None?
    ensures var db, db' := Run(EMPTY, before), AccountDeleted(Run(EMPTY, before), user);
      && db'.scimGroups == db.scimGroups
      && (GroupMembers(db', ws, role) == GroupMembers(db, ws, role) <==> !InGroup(db, Key(ws, user), role))
  {
    ReachableInv(before);
    DeleteEtag(Run(EMPTY, before), user, ws, role);
  }

  // ---------- an ETag that goes stale ----------

  const ADMIN := Principal(1, 100, {MembersManage})

  const JOINED: seq<Op> := [Bootstrap(1, 11, 100), Register(2, 12), AddMember(ADMIN, 2, Member)]

  lemma FirstWorkspace()
    ensures var db := Bootstrapped(EMPTY, 1, 11, 100);
      && db.users == map[1 := 11] && db.members == map[Key(100, 1) := Owner] && db.workspaces == {100}
      && db.scimUsers == map[Key(100, 1) := ScimRow(1, Owner, true, 1)] && GroupKey(100, Member) in db.scimGroups
  {
    OpenRows(EMPTY.(bootstrapped := true, users := map[1 := 11]), 1, 100);
    assert GroupKey(100, Member) in (set r | r in {Admin, Member, Viewer} :: GroupKey(100, r));
  }

  lemma SecondMember(db: Db)
    requires db.users == map[1 := 11, 2 := 12] && db.members == map[Key(100, 1) := Owner] && db.workspaces == {100}
    requires db.scimUsers == map[Key(100, 1) := ScimRow(1, Owner, true, 1)] && GroupKey(100, Member) in db.scimGroups
    ensures AddMemberFault(db, ADMIN, 2, Member).None?
    ensures var after := Join(db, Key(100, 2), Member);
      && InGroup(after, Key(100, 2), Member) && GroupKey(100, Member) in after.scimGroups && DeleteAccountFault(after, 2).None?
  {
    assert !HasExternal(db, 100, 2);
    JoinMoves(db, Key(100, 2), Member);
  }

  lemma JoinedRun(first: Db, second: Db)
    requires first == Bootstrapped(EMPTY, 1, 11, 100) && second == first.(users := first.users[2 := 12])
    requires first.users == map[1 := 11] && AddMemberFault(second, ADMIN, 2, Member).None?
    ensures Run(EMPTY, JOINED) == Join(second, Key(100, 2), Member)
  {
    var a, b, c := JOINED[0], JOINED[1], JOINED[2];
    assert JOINED[1..] == [b, c] && [b, c][1..] == [c] && [c][1..] == [];
    assert Apply(EMPTY, a) == first;
    assert Apply(first, b) == second;
    assert Apply(second, c) == Join(second, Key(100, 2), Member);
    RunThree(EMPTY, a, b, c);
  }

  lemma RunThree(db: Db, a: Op, b: Op, c: Op)
    ensures Run(db, [a, b, c]) == Apply(Apply(Apply(db, a), b), c)
  {
    var one, two := Apply(db, a), Apply(Apply(db, a), b);
    assert [a, b, c][1..] == [b, c] && [b, c][1..] == [c] && [c][1..] == [];
    assert Run(two, [c]) == Run(Apply(two, c), []);
    assert Run(one, [b, c]) == Run(two, [c]);
  }

  /** A member joins and deletes the account: the group keeps its version and loses
      the member. */
  lemma StaleEtag()
    ensures var db, g := Run(EMPTY, JOINED), GroupKey(100, Member); var db' := Run(db, [DeleteAccount(2)]);
      && g in db.scimGroups && db'.scimGroups == db.scimGroups
      && GroupMembers(db', 100, Member) != GroupMembers(db, 100, Member)
  {
    FirstWorkspace();
    var first := Bootstrapped(EMPTY, 1, 11, 100);
    var second := first.(users := first.users[2 := 12]);
    SecondMember(second);
    JoinedRun(first, second);
    ReachableInv(JOINED);
    StaleAfterDeletion(Run(EMPTY, JOINED));
  }

  lemma StaleAfterDeletion(db: Db)
    requires Inv(db) && InGroup(db, Key(100, 2), Member) && DeleteAccountFault(db, 2).None?
    ensures var db' := Run(db, [DeleteAccount(2)]);
      db'.scimGroups == db.scimGroups && GroupMembers(db', 100, Member) != GroupMembers(db, 100, Member)
  {
    DeleteEtag(db, 2, 100, Member);
    DeleteApplied(db, DeleteAccount(2), Apply(db, DeleteAccount(2)));
    assert [DeleteAccount(2)][1..] == [];
  }

  // ---------- invitations, from the empty service on ----------

  /** Over any run, an invitation is accepted at most once for each time its id is
      drawn, whatever is resent, revoked, expired or deleted in between. */
  lemma InvitationsAreAcceptedOnce(ops: seq<Op>, i: Id)
    ensures TimesAccepted(EMPTY, ops, i) <= TimesDrawn(ops, i)
  {
    ReachableInv([]);
    AcceptedPerDraw(EMPTY, ops, i);
  }

  /** ... and then by one of the two ways to accept, while it is open and before its
      deadline at both clock readings. */
  lemma AcceptancesAreInTime(before: seq<Op>, op: Op, i: Id)
    requires Accepts(Run(EMPTY, before), op, i)
    ensures var inv := Run(EMPTY, before).invitations[i];
      (op.Accept? || op.AcceptAsNewUser?) && Open(inv) && op.now < inv.expiresAt && op.later < inv.expiresAt
  {
    ReachableInv(before);
    AcceptanceMeans(Run(EMPTY, before), op, i);
  }
}
