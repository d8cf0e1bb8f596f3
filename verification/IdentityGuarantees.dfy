/** What each call of the identity service promises, told in its tables: who may make
    it, when it takes effect, and what it then changes; and that nothing a workspace's
    members do reaches another workspace. */
module IdentityGuarantees {
  import opened Wrappers
  import opened IdentityTables
  import opened Membership
  import opened GroupPatch
  import opened Invitations
  import opened IdentityRuns

  // ---------- who may act ----------

  /** Owners may do everything and admins everything but hand over the workspace, with a
      token or session that grants it; nobody else may do anything here. */
  predicate May(db: Db, actor: Principal, permission: Permission) {
    var k := Key(actor.ws, actor.user);
    && permission in actor.permissions && k in db.members
    && (db.members[k] == Owner || (db.members[k] == Admin && permission != OwnershipTransfer))
  }

  lemma MayIs(db: Db, actor: Principal, permission: Permission)
    ensures CanDo(db, actor, permission) <==> May(db, actor, permission)
  {
  }

  /** The external id is nobody's in the workspace. */
  ghost predicate ExternalFree(db: Db, ws: Id, ext: Id) {
    forall k :: k in db.scimUsers && k.ws == ws ==> db.scimUsers[k].externalId != ext
  }

  lemma ExternalFreeIs(db: Db, ws: Id, ext: Id)
    ensures ExternalFree(db, ws, ext) <==> !HasExternal(db, ws, ext)
  {
    if k :| k in db.scimUsers && k.ws == ws && db.scimUsers[k].externalId == ext {
      assert ExternalAt(db, k, ws, ext);
    }
  }

  // ---------- members ----------

  lemma JoinMembers(db: Db, k: Key, role: Role)
    requires MirrorAgrees(db) && DefaultExternalFree(db, k)
    ensures var db' := Join(db, k, role); db'.members == db.members[k := role] && db' != db
  {
    JoinMoves(db, k, role);
  }

  /** A user is added exactly by those who may, below owner, if registered, no member yet,
      and free to take an external id. */
  lemma AddMemberDecides(db: Db, op: Op, db': Db)
    requires MembershipInv(db) && op.AddMember? && db' == Apply(db, op)
    ensures var k := Key(op.actor.ws, op.user);
      db' != db <==>
        && May(db, op.actor, MembersManage) && op.role != Owner && op.user in db.users && k !in db.members
        && (k in db.scimUsers || ExternalFree(db, k.ws, op.user))
    ensures db' != db ==> db'.members == db.members[Key(op.actor.ws, op.user) := op.role]
  {
    var k := Key(op.actor.ws, op.user);
    MayIs(db, op.actor, MembersManage);
    ExternalFreeIs(db, k.ws, op.user);
    if AddMemberFault(db, op.actor, op.user, op.role).None? {
      JoinMembers(db, k, op.role);
    }
  }

  /** A member's role changes exactly if those who may ask for one below owner, and the member is not the owner. */
  lemma ChangeRoleDecides(db: Db, op: Op, db': Db)
    requires MembershipInv(db) && op.ChangeMemberRole? && db' == Apply(db, op)
    ensures var k := Key(op.actor.ws, op.user);
      db' != db <==> May(db, op.actor, MembersManage) && op.role != Owner && k in db.members && db.members[k] != Owner
    ensures db' != db ==> db'.members == db.members[Key(op.actor.ws, op.user) := op.role]
  {
    MayIs(db, op.actor, MembersManage);
    if ChangeMemberRoleFault(db, op.actor, op.user, op.role).None? {
      JoinMembers(db, Key(op.actor.ws, op.user), op.role);
    }
  }

  lemma LeaveMembers(db: Db, k: Key, role: Role)
    requires MirrorAgrees(db) && k in db.scimUsers && db.scimUsers[k].role == role
    ensures var db' := Leave(db, k, role);
      db'.members == db.members - {k} && k in db'.scimUsers && !db'.scimUsers[k].active && db' != db
  {
    LeaveMoves(db, k, role);
  }

  /** A member leaves exactly if those who may say so and the member is not the owner. */
  lemma RemoveMemberDecides(db: Db, op: Op, db': Db)
    requires MembershipInv(db) && op.RemoveMember? && db' == Apply(db, op)
    ensures var k := Key(op.actor.ws, op.user);
      db' != db <==> May(db, op.actor, MembersManage) && k in db.members && db.members[k] != Owner
    ensures db' != db ==>
      var k := Key(op.actor.ws, op.user); db'.members == db.members - {k} && k in db'.scimUsers && !db'.scimUsers[k].active
  {
    var k := Key(op.actor.ws, op.user);
    MayIs(db, op.actor, MembersManage);
    if k in db.members {
      LeaveMembers(db, k, db.members[k]);
      assert db' == db || db' == Leave(db, k, db.members[k]);
    }
  }

  lemma RolesSwapped(db: Db, next: Key, former: Key)
    requires MembershipInv(db) && next in db.members && former in db.members && next != former && db.members[former] == Owner
    ensures var db' := Join(Join(db, next, Owner), former, Admin);
      db'.members == db.members[next := Owner][former := Admin] && db' != db
  {
    var mid := Join(db, next, Owner);
    JoinMoves(db, next, Owner);
    MovedKeepsMirror(db, mid, next, Owner, true);
    JoinMoves(mid, former, Admin);
  }

  /** Ownership moves exactly if the owner hands it to another member. */
  lemma TransferDecides(db: Db, op: Op, db': Db)
    requires MembershipInv(db) && op.TransferOwnership? && db' == Apply(db, op)
    ensures var k := Key(op.actor.ws, op.user);
      db' != db <==> May(db, op.actor, OwnershipTransfer) && op.user != op.actor.user && k in db.members
    ensures db' != db ==>
      db'.members == db.members[Key(op.actor.ws, op.user) := Owner][Key(op.actor.ws, op.actor.user) := Admin]
  {
    var former, next := Key(op.actor.ws, op.actor.user), Key(op.actor.ws, op.user);
    MayIs(db, op.actor, OwnershipTransfer);
    if TransferOwnershipFault(db, op.actor, op.user).None? {
      RolesSwapped(db, next, former);
      assert db' == Join(Join(db, next, Owner), former, Admin);
    }
  }

  lemma AccountRows(db: Db, user: Id)
    requires user in db.users
    ensures var db' := AccountDeleted(db, user);
      && db' != db && db'.users == db.users - {user} && db'.workspaces == db.workspaces && db'.scimGroups == db.scimGroups
      && db'.members == (map k | k in db.members && k.user != user :: db.members[k])
      && db'.scimUsers == (map k | k in db.scimUsers && k.user != user :: db.scimUsers[k])
      && db'.invitations == (map i | i in db.invitations && db.invitations[i].invitedBy != user :: db.invitations[i])
  {
    assert AccountDeleted(db, user).users != db.users;
  }

  /** An account goes exactly if it is there and owns nothing; with it go its memberships,
      its SCIM rows and the invitations it sent, and nothing else. */
  lemma DeleteAccountDecides(db: Db, op: Op, db': Db)
    requires op.DeleteAccount? && db' == Apply(db, op)
    ensures db' != db <==> op.user in db.users && forall k :: k in db.members && k.user == op.user ==> db.members[k] != Owner
    ensures db' != db ==>
      && db'.users == db.users - {op.user} && db'.workspaces == db.workspaces && db'.scimGroups == db.scimGroups
      && db'.members == (map k | k in db.members && k.user != op.user :: db.members[k])
      && db'.scimUsers == (map k | k in db.scimUsers && k.user != op.user :: db.scimUsers[k])
      && db'.invitations == (map i | i in db.invitations && db.invitations[i].invitedBy != op.user :: db.invitations[i])
  {
    DeleteApplied(db, op, db');
    if op.user in db.users {
      AccountRows(db, op.user);
    }
  }

  // ---------- versions of groups ----------

  /** Of the workspace's groups exactly those of these roles have moved up by one, and no others. */
  ghost predicate MovedUp(groups: map<GroupKey, int>, groups': map<GroupKey, int>, ws: Id, roles: set<Role>) {
    && groups'.Keys == groups.Keys
    && forall g :: g in groups ==> groups'[g] == groups[g] + if g.ws == ws && g.role in roles then 1 else 0
  }

  lemma BumpMoves(db: Db, ws: Id, roles: set<Role>)
    ensures MovedUp(db.scimGroups, Bump(db, ws, roles).scimGroups, ws, roles)
  {
  }

  /** The roles whose groups a user enters or leaves by taking a role, or none. */
  function RolesMoved(db: Db, k: Key, role: Role, active: bool): set<Role> {
    if k !in db.scimUsers then {role}
    else if db.scimUsers[k].role == role && db.scimUsers[k].active == active then {}
    else {db.scimUsers[k].role, role}
  }

  lemma MirrorMoves(db: Db, k: Key, role: Role, active: bool)
    requires k in db.scimUsers
    ensures MovedUp(db.scimGroups, MirrorRow(db, k, role, active).scimGroups, k.ws, RolesMoved(db, k, role, active))
  {
    var row := db.scimUsers[k];
    BumpMoves(db.(scimUsers := db.scimUsers[k := ScimRow(row.externalId, role, active, row.version + 1)]), k.ws, {row.role, role});
  }

  lemma JoinMovesUp(db: Db, k: Key, role: Role)
    ensures MovedUp(db.scimGroups, Join(db, k, role).scimGroups, k.ws, RolesMoved(db, k, role, true))
  {
    if k in db.scimUsers {
      MirrorMoves(db.(members := db.members[k := role]), k, role, true);
    } else {
      BumpMoves(db.(members := db.members[k := role], scimUsers := db.scimUsers[k := ScimRow(k.user, role, true, 1)]), k.ws, {role});
    }
  }

  lemma LeaveMovesUp(db: Db, k: Key, role: Role)
    requires k in db.scimUsers
    ensures MovedUp(db.scimGroups, Leave(db, k, role).scimGroups, k.ws, RolesMoved(db, k, role, false))
  {
    MirrorMoves(db.(members := db.members - {k}), k, role, false);
  }

  /** A call that changes one membership moves up the group of the user's former role and of
      the new one, each once, and no other; and none if neither role nor activity changes. */
  lemma OnlyThoseGroupsMove(db: Db, op: Op, db': Db)
    requires MembershipInv(db) && (op.AddMember? || op.ChangeMemberRole? || op.RemoveMember?) && db' == Apply(db, op) && db' != db
    ensures var k := Key(op.actor.ws, op.user);
      MovedUp(db.scimGroups, db'.scimGroups, k.ws,
        if op.RemoveMember? then {db.scimUsers[k].role} else RolesMoved(db, k, op.role, true))
  {
    var k := Key(op.actor.ws, op.user);
    if op.RemoveMember? {
      LeaveMovesUp(db, k, db.members[k]);
      assert RolesMoved(db, k, db.members[k], false) == {db.scimUsers[k].role};
    } else {
      JoinMovesUp(db, k, op.role);
    }
  }

  // ---------- workspaces ----------

  lemma OpenMembers(db: Db, user: Id, ws: Id)
    ensures var db' := OpenWorkspace(db, user, ws);
      && db'.members == db.members[Key(ws, user) := Owner] && ws in db'.workspaces && db'.bootstrapped == db.bootstrapped && db'.users == db.users
      && db'.scimUsers == db.scimUsers[Key(ws, user) := ScimRow(user, Owner, true, 1)]
  {
  }

  /** A new workspace has its three groups at version one. */
  lemma GroupsBegin(db: Db, user: Id, ws: Id, role: Role)
    requires SchemaHolds(db) && ws !in db.workspaces && role != Owner
    ensures var groups := OpenWorkspace(db, user, ws).scimGroups; GroupKey(ws, role) in groups && groups[GroupKey(ws, role)] == 1
  {
    OpenGroups(db, user, ws);
    assert GroupKey(ws, role) !in db.scimGroups;
  }

  /** A registered user opens a workspace, with the second factor an owner needs and a name
      that passes its checks, and owns it. */
  lemma CreateWorkspaceDecides(db: Db, op: Op, db': Db)
    requires MembershipInv(db) && op.CreateWorkspace? && db' == Apply(db, op)
    ensures db' != db <==> op.factorOk && op.nameOk && op.user in db.users && op.ws !in db.workspaces
    ensures db' != db ==>
      && db'.members == db.members[Key(op.ws, op.user) := Owner] && op.ws in db'.workspaces
      && db'.scimUsers == db.scimUsers[Key(op.ws, op.user) := ScimRow(op.user, Owner, true, 1)]
      && forall role :: role != Owner ==> GroupKey(op.ws, role) in db'.scimGroups && db'.scimGroups[GroupKey(op.ws, role)] == 1
  {
    if op.ws !in db.workspaces {
      forall role | role != Owner { GroupsBegin(db, op.user, op.ws, role); }
    }
    OpenMembers(db, op.user, op.ws);
    assert db' == db || db' == OpenWorkspace(db, op.user, op.ws);
  }

  /** The first call of all takes effect, and leaves a mark. */
  lemma BootstrapDecides(db: Db, op: Op, db': Db)
    requires MembershipInv(db) && op.Bootstrap? && db' == Apply(db, op)
    ensures db' != db <==>
      !db.bootstrapped && op.user !in db.users && (forall u :: u in db.users ==> db.users[u] != op.email) && op.ws !in db.workspaces
    ensures db' != db ==>
      && db'.bootstrapped && db'.users == db.users[op.user := op.email] && db'.members == db.members[Key(op.ws, op.user) := Owner]
      && forall role :: role != Owner ==> GroupKey(op.ws, role) in db'.scimGroups && db'.scimGroups[GroupKey(op.ws, role)] == 1
  {
    var started := db.(bootstrapped := true, users := db.users[op.user := op.email]);
    if op.user !in db.users && !EmailTaken(db, op.email) && op.ws !in db.workspaces {
      RegisteredSchema(db, started, op.user, op.email);
      forall role | role != Owner { GroupsBegin(started, op.user, op.ws, role); }
    }
    OpenMembers(started, op.user, op.ws);
    assert db' == db || db' == OpenWorkspace(started, op.user, op.ws);
  }

  // ---------- SCIM users ----------

  /** A row in the workspace under this external id, which is unique there. */
  predicate Mapped(db: Db, k: Key, ws: Id, ext: Id) {
    k in db.scimUsers && k.ws == ws && db.scimUsers[k].externalId == ext
  }

  lemma MappedIs(db: Db, k: Key, ws: Id, ext: Id)
    requires SchemaHolds(db) && Mapped(db, k, ws, ext)
    ensures HasExternal(db, ws, ext) && KeyOf(db, ws, ext) == k
  {
    KeyUnique(db, k, ext);
  }

  /** What is asked for leaves the owner active. */
  predicate SparesOwner(row: ScimRow, requested: Option<bool>) {
    row.role == Owner ==> if requested.Some? then requested.value else row.active
  }

  ghost predicate UserPatchable(db: Db, op: Op, k: Key)
    requires op.PatchScimUser?
  {
    && May(db, op.actor, ScimManage) && op.version >= 1 && !op.immutable
    && Mapped(db, k, op.actor.ws, op.ext) && db.scimUsers[k].version == op.version && SparesOwner(db.scimUsers[k], op.active)
  }

  lemma UserPatchFault(db: Db, op: Op)
    requires MembershipInv(db) && op.PatchScimUser?
    ensures PatchScimUserFault(db, op.actor, op.ext, op.active, op.immutable, op.version).None? <==> exists k :: UserPatchable(db, op, k)
    ensures forall k :: UserPatchable(db, op, k) ==> HasExternal(db, op.actor.ws, op.ext) && k == KeyOf(db, op.actor.ws, op.ext)
  {
    MayIs(db, op.actor, ScimManage);
    forall k | UserPatchable(db, op, k) ensures HasExternal(db, op.actor.ws, op.ext) && k == KeyOf(db, op.actor.ws, op.ext) {
      MappedIs(db, k, op.actor.ws, op.ext);
    }
    if PatchScimUserFault(db, op.actor, op.ext, op.active, op.immutable, op.version).None? {
      assert UserPatchable(db, op, KeyOf(db, op.actor.ws, op.ext));
    }
  }

  lemma UserPatchMoves(db: Db, k: Key, requested: Option<bool>)
    requires MembershipInv(db) && k in db.scimUsers
    ensures var row := db.scimUsers[k]; var active := if requested.Some? then requested.value else row.active;
      Moved(db, ScimUserPatched(db, k, requested), k, row.role, active)
  {
    JoinMoves(db, k, db.scimUsers[k].role);
    LeaveMoves(db, k, db.scimUsers[k].role);
  }

  lemma UserPatchApplied(db: Db, op: Op, db': Db)
    requires op.PatchScimUser? && db' == Apply(db, op)
    ensures db' == if PatchScimUserFault(db, op.actor, op.ext, op.active, op.immutable, op.version).Some? then db
                   else ScimUserPatched(db, KeyOf(db, op.actor.ws, op.ext), op.active)
  {
  }

  /** A SCIM user is patched exactly by those who may, under the version its row stands at,
      without touching what cannot change, and never so that the owner goes. */
  lemma PatchUserDecides(db: Db, op: Op, db': Db)
    requires MembershipInv(db) && op.PatchScimUser? && db' == Apply(db, op)
    ensures db' != db <==> exists k :: UserPatchable(db, op, k)
  {
    UserPatchApplied(db, op, db');
    UserPatchFault(db, op);
    if k :| UserPatchable(db, op, k) {
      UserPatchRows(db, k, op.active);
    }
  }

  /** The row `k` after a patch from one version to the next. */
  ghost predicate RowPatched(db: Db, op: Op, k: Key, db': Db)
    requires op.PatchScimUser? && k in db.scimUsers
  {
    var row := db.scimUsers[k];
    var active := if op.active.Some? then op.active.value else row.active;
    && row.version == op.version
    && db'.scimUsers == db.scimUsers[k := ScimRow(op.ext, row.role, active, op.version + 1)]
    && db'.members == if active then db.members[k := row.role] else db.members - {k}
  }

  lemma UserPatchEffect(db: Db, op: Op, k: Key)
    requires MembershipInv(db) && op.PatchScimUser? && Mapped(db, k, op.actor.ws, op.ext)
    requires PatchScimUserFault(db, op.actor, op.ext, op.active, op.immutable, op.version).None?
    ensures HasExternal(db, op.actor.ws, op.ext) && KeyOf(db, op.actor.ws, op.ext) == k
    ensures RowPatched(db, op, k, ScimUserPatched(db, k, op.active))
  {
    MappedIs(db, k, op.actor.ws, op.ext);
    UserPatchRows(db, k, op.active);
  }

  /** ... and then its row moves from the version sent to the next, and takes the activity
      asked for, and membership follows it; nothing else changes in either table. */
  lemma PatchUserMoves(db: Db, op: Op, k: Key, db': Db)
    requires MembershipInv(db) && op.PatchScimUser? && db' == Apply(db, op) && db' != db && Mapped(db, k, op.actor.ws, op.ext)
    ensures RowPatched(db, op, k, db')
  {
    UserPatchApplied(db, op, db');
    UserPatchEffect(db, op, k);
  }

  lemma UserPatchRows(db: Db, k: Key, requested: Option<bool>)
    requires MembershipInv(db) && k in db.scimUsers
    ensures var row, db' := db.scimUsers[k], ScimUserPatched(db, k, requested);
      var active := if requested.Some? then requested.value else row.active;
      && db'.scimUsers == db.scimUsers[k := ScimRow(row.externalId, row.role, active, row.version + 1)]
      && db'.members == (if active then db.members[k := row.role] else db.members - {k}) && db' != db
  {
    UserPatchMoves(db, k, requested);
    var row := ScimUserPatched(db, k, requested).scimUsers[k];
    assert row == ScimRow(row.externalId, row.role, row.active, row.version);
  }

  // ---------- versions of SCIM users ----------

  /** The row is still there, under a version that has not fallen. */
  predicate RowContinues(db: Db, db': Db, k: Key) {
    k in db.scimUsers ==> k in db'.scimUsers && db.scimUsers[k].version <= db'.scimUsers[k].version && db'.scimUsers[k].externalId == db.scimUsers[k].externalId
  }

  lemma MovedContinues(db: Db, db': Db, j: Key, role: Role, active: bool, k: Key)
    requires Moved(db, db', j, role, active)
    ensures RowContinues(db, db', k)
  {
  }

  lemma MemberCallContinues(db: Db, op: Op, db': Db, k: Key)
    requires MembershipInv(db) && (op.AddMember? || op.ChangeMemberRole? || op.RemoveMember?) && db' == Apply(db, op)
    ensures RowContinues(db, db', k)
  {
    var j := Key(op.actor.ws, op.user);
    if db' != db {
      if op.RemoveMember? {
        LeaveMoves(db, j, db.members[j]);
        MovedContinues(db, db', j, db.members[j], false, k);
      } else {
        JoinMoves(db, j, op.role);
        MovedContinues(db, db', j, op.role, true, k);
      }
    }
  }

  lemma TransferContinues(db: Db, op: Op, db': Db, k: Key)
    requires MembershipInv(db) && op.TransferOwnership? && db' == Apply(db, op)
    ensures RowContinues(db, db', k)
  {
    if TransferOwnershipFault(db, op.actor, op.user).None? {
      var former, next := Key(op.actor.ws, op.actor.user), Key(op.actor.ws, op.user);
      MayIs(db, op.actor, OwnershipTransfer);
      JoinsContinue(db, next, former, k);
    }
  }

  lemma JoinsContinue(db: Db, next: Key, former: Key, k: Key)
    requires MembershipInv(db) && next in db.members && former in db.members && next != former
    ensures RowContinues(db, Join(Join(db, next, Owner), former, Admin), k)
  {
    var mid := Join(db, next, Owner);
    JoinMoves(db, next, Owner);
    MovedKeepsMirror(db, mid, next, Owner, true);
    JoinMoves(mid, former, Admin);
    MovedContinues(db, mid, next, Owner, true, k);
    MovedContinues(mid, Join(mid, former, Admin), former, Admin, true, k);
  }

  lemma PatchedContinues(db: Db, ws: Id, role: Role, steps: seq<Step>, k: Key)
    ensures RowContinues(db, GroupPatched(db, ws, role, steps), k)
  {
    if k in db.scimUsers {
      RowRole(steps, role, db.scimUsers[k]);
    }
  }

  lemma UserPatchContinues(db: Db, op: Op, db': Db, k: Key)
    requires MembershipInv(db) && op.PatchScimUser? && db' == Apply(db, op)
    ensures RowContinues(db, db', k)
  {
    UserPatchApplied(db, op, db');
    if db' != db {
      var j := KeyOf(db, op.actor.ws, op.ext);
      UserPatchMoves(db, j, op.active);
      MovedContinues(db, db', j, db.scimUsers[j].role, if op.active.Some? then op.active.value else db.scimUsers[j].active, k);
    }
  }

  lemma GroupPatchApplied(db: Db, op: Op, db': Db)
    requires op.PatchScimGroup? && db' == Apply(db, op)
    ensures db' == if PatchGroupFault(db, op.actor, op.group, op.ops, op.version).Some? then db
                   else GroupPatched(db, op.actor.ws, op.group.value, Steps(op.ops))
  {
  }

  lemma GroupPatchContinues(db: Db, op: Op, db': Db, k: Key)
    requires op.PatchScimGroup? && db' == Apply(db, op)
    ensures RowContinues(db, db', k)
  {
    GroupPatchApplied(db, op, db');
    if db' != db {
      PatchedContinues(db, op.actor.ws, op.group.value, Steps(op.ops), k);
    }
  }

  lemma ScimCreateApplied(db: Db, op: Op, db': Db)
    requires op.CreateScimUser? && db' == Apply(db, op)
    ensures var plan := PlanScimCreate(db, op.actor, op.address, op.named, op.input, op.user);
      db' == if plan.Insert? && op.address.Some? then ScimInserted(db, plan.key, plan.ext, op.address.value) else db
  {
  }

  lemma InsertedContinues(db: Db, j: Key, ext: Id, email: Id, k: Key)
    requires j !in db.scimUsers
    ensures RowContinues(db, ScimInserted(db, j, ext, email), k)
  {
  }

  lemma ScimCreateContinues(db: Db, op: Op, db': Db, k: Key)
    requires op.CreateScimUser? && db' == Apply(db, op)
    ensures RowContinues(db, db', k)
  {
    ScimCreateApplied(db, op, db');
    var plan := PlanScimCreate(db, op.actor, op.address, op.named, op.input, op.user);
    if plan.Insert? {
      PlannedInsert(db, op.actor, op.address, op.named, op.input, op.user);
      InsertedContinues(db, plan.key, plan.ext, op.address.value, k);
    }
  }

  lemma AccountsApplied(db: Db, op: Op, db': Db)
    requires (op.Register? || op.Bootstrap? || op.CreateWorkspace?) && db' == Apply(db, op)
    ensures op.Register? ==> db'.scimUsers == db.scimUsers
    ensures op.Bootstrap? && db' != db ==> op.ws !in db.workspaces && db' == Bootstrapped(db, op.user, op.email, op.ws)
    ensures op.CreateWorkspace? && db' != db ==> op.ws !in db.workspaces && db' == OpenWorkspace(db, op.user, op.ws)
  {
  }

  lemma AccountCallContinues(db: Db, op: Op, db': Db, k: Key)
    requires SchemaHolds(db) && (op.Register? || op.Bootstrap? || op.CreateWorkspace?) && db' == Apply(db, op)
    ensures RowContinues(db, db', k)
  {
    AccountsApplied(db, op, db');
    if op.Bootstrap? && db' != db {
      OpenRows(db.(bootstrapped := true, users := db.users[op.user := op.email]), op.user, op.ws);
    } else if op.CreateWorkspace? && db' != db {
      OpenRows(db, op.user, op.ws);
    }
    assert k in db.scimUsers ==> k.ws in db.workspaces;
  }

  /** The call deletes the account of a row that is there. */
  ghost predicate ResetsRow(db: Db, op: Op, k: Key) {
    op.DeleteAccount? && op.user == k.user && k in db.scimUsers && Apply(db, op) != db
  }

  lemma DeletionContinues(db: Db, op: Op, db': Db, k: Key)
    requires op.DeleteAccount? && db' == Apply(db, op) && !ResetsRow(db, op, k)
    ensures RowContinues(db, db', k)
  {
    DeleteApplied(db, op, db');
    if k.user != op.user {
      OthersKeepRows(db, op.user, k);
    }
  }

  lemma OthersKeepRows(db: Db, user: Id, k: Key)
    requires k.user != user
    ensures RowContinues(db, AccountDeleted(db, user), k)
  {
  }

  lemma InvitationsApplied(db: Db, op: Op)
    requires op.Invite? || op.Resend? || op.Revoke? || op.ListInvitations?
    ensures Apply(db, op).scimUsers == db.scimUsers && Apply(db, op).members == db.members
  {
    match op
    case Invite(actor, address, role, lifetime, id, secret, now) =>
    case Resend(actor, id, lifetime, secret, now) =>
    case Revoke(actor, id, now) => RevokedTables(db, actor, id, now);
    case ListInvitations(actor, now) =>
  }

  lemma RevokedTables(db: Db, actor: Principal, id: Id, now: int)
    ensures var db' := Revoked(db, actor, id, now).db; db' == db.(invitations := db'.invitations)
  {
  }

  lemma AcceptedContinues(db: Db, i: Id, user: Id, k: Key)
    requires MembershipInv(db) && i in db.invitations && DefaultExternalFree(db, Key(db.invitations[i].ws, user))
    ensures RowContinues(db, Accepted(db, i, user), k)
  {
    var inv := db.invitations[i];
    JoinMoves(db, Key(inv.ws, user), inv.role);
    MovedContinues(db, Join(db, Key(inv.ws, user), inv.role), Key(inv.ws, user), inv.role, true, k);
  }

  lemma AcceptContinues(db: Db, secret: Id, user: Id, now: int, later: int, k: Key)
    requires MembershipInv(db)
    ensures RowContinues(db, AcceptedByUser(db, secret, user, now, later).db, k)
  {
    var db' := AcceptedByUser(db, secret, user, now, later).db;
    if db' != db {
      AcceptShape(db, secret, user, now, later, db');
      var i := Found(db, secret);
      if CanJoin(db, Key(db.invitations[i].ws, user)) {
        AcceptedContinues(db, i, user, k);
      }
    }
  }

  /** What an acceptance by a new account comes to: `mid` has the account. */
  lemma NewUserCases(db: Db, mid: Db, f: Id, user: Id, now: int, later: int)
    requires InvitationsInv(db) && f in db.invitations && mid == db.(users := db.users[user := db.invitations[f].email])
    ensures var inv := db.invitations[f];
      AcceptedByNewUser(db, inv.secret, user, now, later).db ==
        if !Open(inv) then db
        else if inv.expiresAt <= now then db.(invitations := db.invitations[f := MarkExpired(inv)])
        else if EmailTaken(db, inv.email) || user in db.users || !CanJoin(mid, Key(inv.ws, user)) || inv.expiresAt <= later then db
        else Accepted(mid, f, user)
  {
    var secret := db.invitations[f].secret;
    assert SecretOf(db, f, secret);
    FoundIs(db, secret, f);
    FoundElsewhere(db, mid, secret);
  }

  lemma UserCases(db: Db, f: Id, user: Id, now: int, later: int)
    requires InvitationsInv(db) && f in db.invitations && user in db.users
    ensures var inv := db.invitations[f];
      AcceptedByUser(db, inv.secret, user, now, later).db ==
        if !Open(inv) then db
        else if inv.expiresAt <= now then db.(invitations := db.invitations[f := MarkExpired(inv)])
        else if inv.email != db.users[user] || !CanJoin(db, Key(inv.ws, user)) || inv.expiresAt <= later then db
        else Accepted(db, f, user)
  {
    var secret := db.invitations[f].secret;
    assert SecretOf(db, f, secret);
    FoundIs(db, secret, f);
  }

  lemma AcceptNewContinues(db: Db, secret: Id, user: Id, now: int, later: int, k: Key)
    requires Inv(db)
    ensures RowContinues(db, AcceptedByNewUser(db, secret, user, now, later).db, k)
  {
    if f :| f in db.invitations && db.invitations[f].secret == secret {
      var inv := db.invitations[f];
      var mid := db.(users := db.users[user := inv.email]);
      NewUserCases(db, mid, f, user, now, later);
      if !EmailTaken(db, inv.email) && user !in db.users && CanJoin(mid, Key(inv.ws, user)) {
        RegisteredMembers(db, mid, user, inv.email);
        AcceptedContinues(mid, f, user, k);
      }
    }
  }

  lemma StepContinues(db: Db, op: Op, k: Key)
    requires Inv(db) && !ResetsRow(db, op, k)
    ensures RowContinues(db, Apply(db, op), k)
  {
    var db' := Apply(db, op);
    match op
    case DeleteAccount(_) => DeletionContinues(db, op, db', k);
    case TransferOwnership(_, _) => TransferContinues(db, op, db', k);
    case AddMember(_, _, _) => MemberCallContinues(db, op, db', k);
    case ChangeMemberRole(_, _, _) => MemberCallContinues(db, op, db', k);
    case RemoveMember(_, _) => MemberCallContinues(db, op, db', k);
    case CreateScimUser(_, _, _, _, _) => ScimCreateContinues(db, op, db', k);
    case PatchScimUser(_, _, _, _, _) => UserPatchContinues(db, op, db', k);
    case PatchScimGroup(_, _, _, _) => GroupPatchContinues(db, op, db', k);
    case Register(_, _) => AccountCallContinues(db, op, db', k);
    case Bootstrap(_, _, _) => AccountCallContinues(db, op, db', k);
    case CreateWorkspace(_, _, _, _) => AccountCallContinues(db, op, db', k);
    case Accept(secret, user, now, later) => AcceptContinues(db, secret, user, now, later, k);
    case AcceptAsNewUser(secret, user, now, later) => AcceptNewContinues(db, secret, user, now, later, k);
    case _ => InvitationsApplied(db, op);
  }

  /** A patch of the row's user, sent with this version, takes effect. */
  ghost predicate PatchesUser(db: Db, op: Op, k: Key, version: int) {
    op.PatchScimUser? && Mapped(db, k, op.actor.ws, op.ext) && op.version == version && Apply(db, op) != db
  }

  ghost function UserPatches(db: Db, ops: seq<Op>, k: Key, version: int): nat
    decreases |ops|
  {
    if ops == [] then 0 else (if PatchesUser(db, ops[0], k, version) then 1 else 0) + UserPatches(Apply(db, ops[0]), ops[1..], k, version)
  }

  ghost function Resets(db: Db, ops: seq<Op>, k: Key): nat
    decreases |ops|
  {
    if ops == [] then 0 else (if ResetsRow(db, ops[0], k) then 1 else 0) + Resets(Apply(db, ops[0]), ops[1..], k)
  }

  lemma PatchMovesOn(db: Db, op: Op, k: Key, version: int, db': Db)
    requires MembershipInv(db) && PatchesUser(db, op, k, version) && db' == Apply(db, op)
    ensures db.scimUsers[k].version == version && k in db'.scimUsers && db'.scimUsers[k].version == version + 1
  {
    PatchUserMoves(db, op, k, db');
  }

  /** Of all patches of one SCIM user sent with one version, deactivations by DELETE
      included, at most one takes effect, and one more for each time the row goes with its
      account: a row made anew begins at version one again. */
  lemma {:induction false} AtMostOnePatchPerVersion(db: Db, ops: seq<Op>, k: Key, version: int)
    requires Inv(db)
    ensures UserPatches(db, ops, k, version) <= 1 + Resets(db, ops, k)
    ensures k in db.scimUsers && version < db.scimUsers[k].version ==> UserPatches(db, ops, k, version) <= Resets(db, ops, k)
    decreases |ops|
  {
    if ops != [] {
      var db' := Apply(db, ops[0]);
      StepKeeps(db, ops[0], db');
      AtMostOnePatchPerVersion(db', ops[1..], k, version);
      if PatchesUser(db, ops[0], k, version) {
        PatchMovesOn(db, ops[0], k, version, db');
      } else if !ResetsRow(db, ops[0], k) {
        StepContinues(db, ops[0], k);
      }
    }
  }

  /** ... so from the empty service on, of all patches sent with one version at most one takes effect while the account lives. */
  lemma UserPatchesAreConditional(before: seq<Op>, ops: seq<Op>, k: Key, version: int)
    ensures UserPatches(Run(EMPTY, before), ops, k, version) <= 1 + Resets(Run(EMPTY, before), ops, k)
  {
    ReachableInv(before);
    AtMostOnePatchPerVersion(Run(EMPTY, before), ops, k, version);
  }

  // ---------- who may accept an invitation ----------

  /** Open, presented with its secret before its deadline at both clock readings, and its
      workspace has neither the user nor another under the external id they would get. */
  ghost predicate Presented(db: Db, i: Id, secret: Id, user: Id, now: int, later: int) {
    i in db.invitations &&
    (var inv := db.invitations[i];
     && inv.secret == secret && !inv.accepted && !inv.expired && !inv.revoked && now < inv.expiresAt && later < inv.expiresAt
     && Key(inv.ws, user) !in db.members && (Key(inv.ws, user) in db.scimUsers || ExternalFree(db, inv.ws, user)))
  }

  lemma PresentedIff(db: Db, i: Id, f: Id, user: Id, now: int, later: int, joinable: bool)
    requires InvitationsInv(db) && i in db.invitations && f in db.invitations
    requires var k := Key(db.invitations[f].ws, user); joinable <==> k !in db.members && (k in db.scimUsers || ExternalFree(db, k.ws, user))
    ensures var inv := db.invitations[i];
      Presented(db, i, db.invitations[f].secret, user, now, later) <==>
        i == f && joinable && Open(inv) && now < inv.expiresAt && later < inv.expiresAt
  {
    assert db.invitations[i].secret == db.invitations[f].secret ==> i == f;
  }

  lemma PresentedJoins(db: Db, mid: Db, i: Id, user: Id)
    requires Inv(db) && i in db.invitations && mid == db.(users := mid.users) && user in mid.users
    ensures var k := Key(db.invitations[i].ws, user);
      CanJoin(mid, k) <==> k !in db.members && (k in db.scimUsers || ExternalFree(db, k.ws, user))
  {
    ExternalFreeIs(mid, db.invitations[i].ws, user);
    assert InvitationOk(db, db.invitations[i]);
    assert ExternalFree(mid, db.invitations[i].ws, user) <==> ExternalFree(db, db.invitations[i].ws, user);
  }

  lemma AcceptedTables(db: Db, i: Id, user: Id)
    requires MembershipInv(db) && i in db.invitations && CanJoin(db, Key(db.invitations[i].ws, user))
    ensures var db', inv := Accepted(db, i, user), db.invitations[i];
      && db'.members == db.members[Key(inv.ws, user) := inv.role] && db'.users == db.users
      && db'.invitations == db.invitations[i := inv.(accepted := true, activeEmail := None)]
  {
    JoinMoves(db, Key(db.invitations[i].ws, user), db.invitations[i].role);
  }

  /** What an acceptance leaves, with `joined` for the tables after it, and when it goes through. */
  ghost predicate Settles(db: Db, f: Id, now: int, later: int, allowed: bool, joined: Db, db': Db)
    requires f in db.invitations
  {
    var inv := db.invitations[f];
    db' ==
      if !Open(inv) then db
      else if inv.expiresAt <= now then db.(invitations := db.invitations[f := MarkExpired(inv)])
      else if !allowed || inv.expiresAt <= later then db
      else joined
  }

  lemma SettledIff(db: Db, f: Id, i: Id, now: int, later: int, allowed: bool, joined: Db, db': Db)
    requires f in db.invitations && i in db.invitations && !db.invitations[i].accepted && Settles(db, f, now, later, allowed, joined, db')
    requires allowed ==> joined.invitations == db.invitations[f := db.invitations[f].(accepted := true, activeEmail := None)]
    ensures IsAccepted(db', i) <==> i == f && Open(db.invitations[i]) && allowed && now < db.invitations[i].expiresAt && later < db.invitations[i].expiresAt
    ensures IsAccepted(db', i) ==> db' == joined
  {
  }

  /** The user's address must be the invitation's. */
  lemma UserAcceptsIff(db: Db, secret: Id, user: Id, now: int, later: int, i: Id, db': Db)
    requires Inv(db) && i in db.invitations && !db.invitations[i].accepted && db' == AcceptedByUser(db, secret, user, now, later).db
    ensures IsAccepted(db', i) <==> Presented(db, i, secret, user, now, later) && user in db.users && db.users[user] == db.invitations[i].email
    ensures IsAccepted(db', i) ==>
      db'.members == db.members[Key(db.invitations[i].ws, user) := db.invitations[i].role] && db'.users == db.users
  {
    if user in db.users {
      if f :| f in db.invitations && db.invitations[f].secret == secret {
        UserSettles(db, f, user, now, later, i, db');
      }
    }
  }

  lemma UserSettles(db: Db, f: Id, user: Id, now: int, later: int, i: Id, db': Db)
    requires Inv(db) && f in db.invitations && user in db.users && i in db.invitations && !db.invitations[i].accepted
    requires db' == AcceptedByUser(db, db.invitations[f].secret, user, now, later).db
    ensures IsAccepted(db', i) <==>
      Presented(db, i, db.invitations[f].secret, user, now, later) && db.users[user] == db.invitations[i].email
    ensures IsAccepted(db', i) ==>
      db'.members == db.members[Key(db.invitations[i].ws, user) := db.invitations[i].role] && db'.users == db.users
  {
    var joinable := CanJoin(db, Key(db.invitations[f].ws, user));
    UserCases(db, f, user, now, later);
    PresentedJoins(db, db, f, user);
    PresentedIff(db, i, f, user, now, later, joinable);
    if joinable {
      AcceptedTables(db, f, user);
    }
    SettledIff(db, f, i, now, later, db.invitations[f].email == db.users[user] && joinable, Accepted(db, f, user), db');
  }

  /** A new account gets the invitation's address, which nobody has yet. */
  lemma NewUserAcceptsIff(db: Db, secret: Id, user: Id, now: int, later: int, i: Id, db': Db)
    requires Inv(db) && i in db.invitations && !db.invitations[i].accepted && db' == AcceptedByNewUser(db, secret, user, now, later).db
    ensures IsAccepted(db', i) <==> Presented(db, i, secret, user, now, later) && user !in db.users && !EmailTaken(db, db.invitations[i].email)
    ensures IsAccepted(db', i) ==>
      && db'.members == db.members[Key(db.invitations[i].ws, user) := db.invitations[i].role]
      && db'.users == db.users[user := db.invitations[i].email]
  {
    if f :| f in db.invitations && db.invitations[f].secret == secret {
      NewUserSettles(db, f, user, now, later, i, db');
    }
  }

  lemma NewUserJoins(db: Db, f: Id, user: Id, mid: Db)
    requires Inv(db) && f in db.invitations && mid == db.(users := db.users[user := db.invitations[f].email])
    requires !EmailTaken(db, db.invitations[f].email) && user !in db.users && CanJoin(mid, Key(db.invitations[f].ws, user))
    ensures var joined, inv := Accepted(mid, f, user), db.invitations[f];
      && joined.members == db.members[Key(inv.ws, user) := inv.role] && joined.users == mid.users
      && joined.invitations == db.invitations[f := inv.(accepted := true, activeEmail := None)]
  {
    RegisteredMembers(db, mid, user, db.invitations[f].email);
    AcceptedTables(mid, f, user);
  }

  lemma NewUserSettles(db: Db, f: Id, user: Id, now: int, later: int, i: Id, db': Db)
    requires Inv(db) && f in db.invitations && i in db.invitations && !db.invitations[i].accepted
    requires db' == AcceptedByNewUser(db, db.invitations[f].secret, user, now, later).db
    ensures IsAccepted(db', i) <==>
      Presented(db, i, db.invitations[f].secret, user, now, later) && user !in db.users && !EmailTaken(db, db.invitations[i].email)
    ensures IsAccepted(db', i) ==>
      && db'.members == db.members[Key(db.invitations[i].ws, user) := db.invitations[i].role]
      && db'.users == db.users[user := db.invitations[i].email]
  {
    var inv := db.invitations[f];
    var mid := db.(users := db.users[user := inv.email]);
    var joinable := CanJoin(mid, Key(inv.ws, user));
    var unknown := !EmailTaken(db, inv.email) && user !in db.users;
    NewUserCases(db, mid, f, user, now, later);
    PresentedJoins(db, mid, f, user);
    PresentedIff(db, i, f, user, now, later, joinable);
    if unknown && joinable {
      NewUserJoins(db, f, user, mid);
    }
    SettledIff(db, f, i, now, later, unknown && joinable, Accepted(mid, f, user), db');
  }

  /** In any run a call turns an invitation into an accepted one if and only if it presents
      its secret while it is open and in time, for a registered user with its address or
      for a new account, and the user may join. */
  lemma AcceptancesAreExact(before: seq<Op>, op: Op, i: Id)
    requires i in Run(EMPTY, before).invitations && !Run(EMPTY, before).invitations[i].accepted
    ensures var db := Run(EMPTY, before);
      Accepts(db, op, i) <==>
        && (op.Accept? || op.AcceptAsNewUser?) && Presented(db, i, op.secret, op.user, op.now, op.later)
        && (if op.Accept? then op.user in db.users && db.users[op.user] == db.invitations[i].email
            else op.user !in db.users && forall u :: u in db.users ==> db.users[u] != db.invitations[i].email)
  {
    var db := Run(EMPTY, before);
    ReachableInv(before);
    if op.Accept? {
      UserAcceptsIff(db, op.secret, op.user, op.now, op.later, i, Apply(db, op));
    } else if op.AcceptAsNewUser? {
      NewUserAcceptsIff(db, op.secret, op.user, op.now, op.later, i, Apply(db, op));
    } else if Accepts(db, op, i) {
      AcceptanceMeans(db, op, i);
    }
  }

  /** ... and then that user, whose address is the invitation's, joins its workspace with
      its role, and no other membership changes. */
  lemma AcceptedUserJoins(before: seq<Op>, op: Op, i: Id)
    requires Accepts(Run(EMPTY, before), op, i)
    ensures op.Accept? || op.AcceptAsNewUser?
    ensures var db, db' := Run(EMPTY, before), Apply(Run(EMPTY, before), op); var inv := db.invitations[i];
      && inv.secret == op.secret && op.user in db'.users && db'.users[op.user] == inv.email
      && Key(inv.ws, op.user) !in db.members && inv.role != Owner
      && db'.members == db.members[Key(inv.ws, op.user) := inv.role]
  {
    var db := Run(EMPTY, before);
    ReachableInv(before);
    AcceptanceMeans(db, op, i);
    assert InvitationOk(db, db.invitations[i]);
    if op.Accept? {
      UserAcceptsIff(db, op.secret, op.user, op.now, op.later, i, Apply(db, op));
    } else {
      NewUserAcceptsIff(db, op.secret, op.user, op.now, op.later, i, Apply(db, op));
    }
  }

  // ---------- sending invitations ----------

  const SECONDS := 1_000_000_000

  /** Seven days, unless another time was asked for. */
  function Lasts(requested: int): int {
    if requested == 0 then 7 * 86_400 * SECONDS else requested
  }

  predicate MayLast(requested: int) {
    60 * SECONDS <= Lasts(requested) <= 30 * 86_400 * SECONDS
  }

  lemma LastsIs(requested: int)
    ensures Lifetime(requested) == Lasts(requested) && (LifetimeAllowed(Lifetime(requested)) <==> MayLast(requested))
  {
  }

  /** Open invitations of the workspace to the address, but for the one named, and but for those run out by `now`. */
  ghost predicate OpenTo(db: Db, ws: Id, email: Id, i: Id) {
    i in db.invitations && db.invitations[i].ws == ws && db.invitations[i].email == email && Open(db.invitations[i])
  }

  lemma ActiveIs(db: Db, ws: Id, email: Id, now: int)
    requires InvitationsInv(db)
    ensures HasActive(ExpireOverdue(db, ws, Some(email), now), ws, email) <==> exists i :: OpenTo(db, ws, email, i) && now < db.invitations[i].expiresAt
  {
    var swept := ExpireOverdue(db, ws, Some(email), now);
    forall i | i in db.invitations
      ensures swept.invitations[i].ws == ws && swept.invitations[i].activeEmail == Some(email) <==> OpenTo(db, ws, email, i) && now < db.invitations[i].expiresAt
    {
      assert InvitationOk(db, db.invitations[i]);
    }
  }

  lemma HeldIs(db: Db, id: Id, ws: Id, email: Id)
    requires InvitationsInv(db)
    ensures AddressHeld(db, id, ws, email) <==> exists i :: OpenTo(db, ws, email, i) && i != id
  {
    forall i | i in db.invitations
      ensures db.invitations[i].ws == ws && db.invitations[i].activeEmail == Some(email) <==> OpenTo(db, ws, email, i)
    {
      assert InvitationOk(db, db.invitations[i]);
    }
  }

  ghost predicate Invitable(db: Db, op: Op)
    requires op.Invite?
  {
    && May(db, op.actor, InvitationsManage) && op.role != Owner && op.address.Some? && MayLast(op.lifetime)
    && !(exists i :: OpenTo(db, op.actor.ws, op.address.value, i) && op.now < db.invitations[i].expiresAt)
    && (forall k :: k in db.members && k.ws == op.actor.ws && k.user in db.users ==> db.users[k.user] != op.address.value)
    && op.id !in db.invitations && forall i :: i in db.invitations ==> db.invitations[i].secret != op.secret
  }

  lemma InvitableIs(db: Db, op: Op)
    requires Inv(db) && op.Invite?
    ensures Invitable(db, op) <==> InviteFault(db, op.actor, op.address, op.role, op.lifetime, op.id, op.secret, op.now).None?
  {
    MayIs(db, op.actor, InvitationsManage);
    LastsIs(op.lifetime);
    if op.address.Some? {
      ActiveIs(db, op.actor.ws, op.address.value, op.now);
      EmailIs(db, op.actor.ws, op.address.value);
    }
    SecretIs(db, op.secret);
    assert May(db, op.actor, InvitationsManage) ==> op.actor.user in db.users;
  }

  lemma EmailIs(db: Db, ws: Id, email: Id)
    ensures MemberHasEmail(db, ws, email) <==> !(forall k :: k in db.members && k.ws == ws && k.user in db.users ==> db.users[k.user] != email)
  {
  }

  lemma SecretIs(db: Db, secret: Id)
    ensures SecretTaken(db, secret) <==> !(forall i :: i in db.invitations ==> db.invitations[i].secret != secret)
  {
  }

  /** Marked expired, or as it was. */
  function Marked(inv: Invitation, over: bool): Invitation {
    if over then inv.(expired := true, activeEmail := None) else inv
  }

  lemma InvitedRows(db: Db, actor: Principal, email: Id, role: Role, requested: int, id: Id, secret: Id, now: int)
    requires InvitationsInv(db) && id !in db.invitations
    ensures var db' := Invited(db, actor, email, role, requested, id, secret, now);
      && db' == db.(invitations := db'.invitations) && db'.invitations.Keys == db.invitations.Keys + {id}
      && db'.invitations[id] == Invitation(actor.ws, email, role, secret, actor.user, now + Lasts(requested), false, false, false, Some(email))
      && (forall i :: i in db.invitations ==>
            db'.invitations[i] == Marked(db.invitations[i], OpenTo(db, actor.ws, email, i) && db.invitations[i].expiresAt <= now))
  {
    LastsIs(requested);
    forall i | i in db.invitations
      ensures i in Due(db, actor.ws, Some(email), now) <==> OpenTo(db, actor.ws, email, i) && db.invitations[i].expiresAt <= now
    {
      assert InvitationOk(db, db.invitations[i]);
    }
  }

  lemma InviteApplied(db: Db, op: Op, db': Db)
    requires op.Invite? && db' == Apply(db, op)
    ensures db' == if InviteFault(db, op.actor, op.address, op.role, op.lifetime, op.id, op.secret, op.now).Some? then db
                   else Invited(db, op.actor, op.address.value, op.role, op.lifetime, op.id, op.secret, op.now)
  {
  }

  /** An invitation is made exactly by those who may, below owner, for an address that has
      neither a member nor an open invitation in time, for a minute to thirty days. */
  lemma InviteDecides(db: Db, op: Op, db': Db)
    requires Inv(db) && op.Invite? && db' == Apply(db, op)
    ensures db' != db <==> Invitable(db, op)
    ensures db' != db ==>
      && op.id in db'.invitations && op.address.Some? && db'.members == db.members
      && db'.invitations[op.id] == Invitation(op.actor.ws, op.address.value, op.role, op.secret, op.actor.user,
                                              op.now + Lasts(op.lifetime), false, false, false, op.address)
  {
    InviteApplied(db, op, db');
    InvitableIs(db, op);
    if Invitable(db, op) {
      InvitedRows(db, op.actor, op.address.value, op.role, op.lifetime, op.id, op.secret, op.now);
    }
  }

  lemma ResendApplied(db: Db, op: Op, db': Db)
    requires op.Resend? && db' == Apply(db, op)
    ensures db' == if ResendFault(db, op.actor, op.id, op.lifetime, op.secret).Some? then db else Resent(db, op.id, op.lifetime, op.secret, op.now)
  {
  }

  ghost predicate Resendable(db: Db, op: Op)
    requires op.Resend?
  {
    && May(db, op.actor, InvitationsManage) && MayLast(op.lifetime) && op.id in db.invitations
    && (var inv := db.invitations[op.id];
        && inv.ws == op.actor.ws && !inv.accepted && !inv.revoked && !exists i :: OpenTo(db, inv.ws, inv.email, i) && i != op.id)
    && forall i :: i in db.invitations ==> db.invitations[i].secret != op.secret
  }

  lemma ResendableIs(db: Db, op: Op)
    requires Inv(db) && op.Resend?
    ensures Resendable(db, op) <==> ResendFault(db, op.actor, op.id, op.lifetime, op.secret).None?
  {
    MayIs(db, op.actor, InvitationsManage);
    LastsIs(op.lifetime);
    if op.id in db.invitations {
      HeldIs(db, op.id, db.invitations[op.id].ws, db.invitations[op.id].email);
    }
  }

  /** New secret and deadline; address and role stay, and an expired invitation is open again. */
  function Renewed(inv: Invitation, secret: Id, until: int): Invitation {
    inv.(secret := secret, expiresAt := until, expired := false, activeEmail := Some(inv.email))
  }

  /** An invitation that was neither accepted nor revoked is sent anew, unless its address
      has another open one. */
  lemma ResendDecides(db: Db, op: Op, db': Db)
    requires Inv(db) && op.Resend? && db' == Apply(db, op)
    ensures db' != db <==> Resendable(db, op)
    ensures db' != db ==>
      op.id in db.invitations &&
      db' == db.(invitations := db.invitations[op.id := Renewed(db.invitations[op.id], op.secret, op.now + Lasts(op.lifetime))])
  {
    ResendApplied(db, op, db');
    ResendableIs(db, op);
    if Resendable(db, op) {
      ResentOf(db, op);
    }
  }

  lemma ResentOf(db: Db, op: Op)
    requires op.Resend? && Resendable(db, op)
    ensures var db' := Resent(db, op.id, op.lifetime, op.secret, op.now);
      db' == db.(invitations := db.invitations[op.id := Renewed(db.invitations[op.id], op.secret, op.now + Lasts(op.lifetime))]) && db' != db
  {
    ResentRow(db, op.id, op.lifetime, op.secret, op.now);
  }

  lemma ResentRow(db: Db, id: Id, requested: int, secret: Id, now: int)
    requires id in db.invitations && db.invitations[id].secret != secret
    ensures var db' := Resent(db, id, requested, secret, now);
      db' == db.(invitations := db.invitations[id := Renewed(db.invitations[id], secret, now + Lasts(requested))]) && db' != db
  {
    LastsIs(requested);
    assert Resent(db, id, requested, secret, now).invitations[id].secret == secret;
  }

  lemma RevokeApplied(db: Db, op: Op, db': Db)
    requires op.Revoke? && db' == Apply(db, op)
    ensures db' == Revoked(db, op.actor, op.id, op.now).db
  {
  }

  /** An open invitation is revoked, or marked expired if its time is up, exactly by those who may. */
  lemma RevokeDecides(db: Db, op: Op, db': Db)
    requires op.Revoke? && db' == Apply(db, op)
    ensures db' != db <==>
      May(db, op.actor, InvitationsManage) && op.id in db.invitations && db.invitations[op.id].ws == op.actor.ws && Open(db.invitations[op.id])
    ensures db' != db ==>
      && op.id in db.invitations
      && (var inv := db.invitations[op.id];
          db' == db.(invitations := db.invitations[op.id :=
            if inv.expiresAt <= op.now then inv.(expired := true, activeEmail := None) else inv.(revoked := true, activeEmail := None)]))
  {
    RevokeApplied(db, op, db');
    MayIs(db, op.actor, InvitationsManage);
    RevokedIs(db, op.actor, op.id, op.now);
  }

  lemma RevokedIs(db: Db, actor: Principal, id: Id, now: int)
    ensures var db' := Revoked(db, actor, id, now).db;
      if CanDo(db, actor, InvitationsManage) && id in db.invitations && db.invitations[id].ws == actor.ws && Open(db.invitations[id]) then
        var inv := db.invitations[id];
        && db' == db.(invitations := db.invitations[id :=
             if inv.expiresAt <= now then inv.(expired := true, activeEmail := None) else inv.(revoked := true, activeEmail := None)])
        && !Open(db'.invitations[id]) && db' != db
      else db' == db
  {
    if id in db.invitations && Open(db.invitations[id]) {
      assert Revoked(db, actor, id, now).db.invitations != db.invitations || Revoked(db, actor, id, now).db == db;
    }
  }

  /** Listing marks what has run out in the workspace, for those who may list, and nothing else. */
  lemma ListingMarks(db: Db, op: Op, db': Db)
    requires op.ListInvitations? && db' == Apply(db, op)
    ensures db' == db.(invitations := db'.invitations) && db'.invitations.Keys == db.invitations.Keys
    ensures forall i :: i in db.invitations ==>
      var inv := db.invitations[i];
      db'.invitations[i] == Marked(inv, May(db, op.actor, InvitationsManage) && inv.ws == op.actor.ws && Open(inv) && inv.expiresAt <= op.now)
  {
    MayIs(db, op.actor, InvitationsManage);
  }

  // ---------- SCIM users that are made, and group patches ----------

  /** The account of an address: the one that has it, or the new one. */
  ghost predicate AccountOf(db: Db, op: Op, user: Id)
    requires op.CreateScimUser? && op.address.Some?
  {
    if EmailTaken(db, op.address.value) then user in db.users && db.users[user] == op.address.value else user == op.user && user !in db.users
  }

  ghost predicate Insertable(db: Db, op: Op, user: Id)
    requires op.CreateScimUser?
  {
    && May(db, op.actor, ScimManage) && op.address.Some? && !op.named && !op.input.Malformed? && AccountOf(db, op, user)
    && Key(op.actor.ws, user) !in db.scimUsers
    && ExternalFree(db, op.actor.ws, if op.input.Given? then op.input.ext else user)
  }

  lemma InsertableIs(db: Db, op: Op, user: Id)
    requires MembershipInv(db) && op.CreateScimUser? && op.address.Some? && AccountOf(db, op, user)
    ensures var plan := PlanScimCreate(db, op.actor, op.address, op.named, op.input, op.user);
      && (plan.Insert? <==> Insertable(db, op, user))
      && (plan.Insert? ==> plan.key == Key(op.actor.ws, user) && plan.ext == if op.input.Given? then op.input.ext else user)
  {
    MayIs(db, op.actor, ScimManage);
    ExternalFreeIs(db, op.actor.ws, if op.input.Given? then op.input.ext else user);
    if EmailTaken(db, op.address.value) {
      assert UserWithEmail(db, op.address.value) == user;
    }
  }

  lemma InsertedRows(db: Db, k: Key, ext: Id, email: Id)
    requires k !in db.scimUsers
    ensures var db' := ScimInserted(db, k, ext, email);
      && db'.users == (if k.user in db.users then db.users else db.users[k.user := email]) && db' != db
      && db'.members == db.members[k := Member] && db'.scimUsers == db.scimUsers[k := ScimRow(ext, Member, true, 1)]
  {
    assert k in ScimInserted(db, k, ext, email).scimUsers;
  }

  /** A SCIM user is made exactly by those who may, for a usable address and external id
      that the workspace has not mapped yet; the account of the address, new if nobody has
      it, becomes an active plain member under that id. */
  lemma CreateScimDecides(db: Db, op: Op, user: Id, db': Db)
    requires MembershipInv(db) && op.CreateScimUser? && op.address.Some? && AccountOf(db, op, user) && db' == Apply(db, op)
    ensures db' != db <==> Insertable(db, op, user)
    ensures db' != db ==>
      var k := Key(op.actor.ws, user);
      && db'.users == (if user in db.users then db.users else db.users[user := op.address.value])
      && db'.members == db.members[k := Member]
      && db'.scimUsers == db.scimUsers[k := ScimRow(if op.input.Given? then op.input.ext else user, Member, true, 1)]
  {
    ScimCreateApplied(db, op, db');
    InsertableIs(db, op, user);
    var plan := PlanScimCreate(db, op.actor, op.address, op.named, op.input, op.user);
    if plan.Insert? {
      InsertedRows(db, plan.key, plan.ext, op.address.value);
    }
  }

  /** A replayed creation answers with a row of the workspace for an account with that
      address: under the external id sent, or of a member if none was. */
  lemma ScimReplays(db: Db, actor: Principal, address: Option<Id>, named: bool, input: ExternalInput, newUser: Id)
    requires SchemaHolds(db) && PlanScimCreate(db, actor, address, named, input, newUser).Replay?
    ensures var k := PlanScimCreate(db, actor, address, named, input, newUser).key;
      && May(db, actor, ScimManage) && address.Some? && k in db.scimUsers && k.ws == actor.ws
      && k.user in db.users && db.users[k.user] == address.value
      && (if input.Given? then db.scimUsers[k].externalId == input.ext else input.Absent? && k in db.members)
  {
    MayIs(db, actor, ScimManage);
  }

  /** Each named member has a row in the workspace that is not an owner's. */
  ghost predicate AllPatchable(db: Db, ws: Id, members: seq<Id>) {
    forall j :: 0 <= j < |members| ==> exists k :: Mapped(db, k, ws, members[j]) && db.scimUsers[k].role != Owner
  }

  lemma NamedIs(db: Db, ws: Id, ext: Id)
    requires SchemaHolds(db)
    ensures NamedFault(db, ws, ext).None? <==> exists k :: Mapped(db, k, ws, ext) && db.scimUsers[k].role != Owner
  {
    if k :| Mapped(db, k, ws, ext) {
      MappedIs(db, k, ws, ext);
    }
    if HasExternal(db, ws, ext) {
      assert Mapped(db, KeyOf(db, ws, ext), ws, ext);
    }
  }

  lemma {:induction false} MembersPatchable(db: Db, ws: Id, members: seq<Id>)
    requires SchemaHolds(db)
    ensures MembersFault(db, ws, members).None? <==> AllPatchable(db, ws, members)
    decreases |members|
  {
    if members != [] {
      NamedIs(db, ws, members[0]);
      MembersPatchable(db, ws, members[1..]);
      assert forall j :: 1 <= j < |members| ==> members[j] == members[1..][j - 1];
      assert forall j :: 0 <= j < |members| - 1 ==> members[1..][j] == members[j + 1];
    }
  }

  ghost predicate OperationsPatchable(db: Db, ws: Id, ops: seq<Operation>) {
    forall o :: 0 <= o < |ops| ==> ops[o].verb != Unsupported && ops[o].members != [] && AllPatchable(db, ws, ops[o].members)
  }

  lemma {:induction false} OperationsPatchableIs(db: Db, ws: Id, ops: seq<Operation>)
    requires SchemaHolds(db)
    ensures OperationsFault(db, ws, ops).None? <==> OperationsPatchable(db, ws, ops)
    decreases |ops|
  {
    if ops != [] {
      MembersPatchable(db, ws, ops[0].members);
      OperationsPatchableIs(db, ws, ops[1..]);
      assert forall o :: 1 <= o < |ops| ==> ops[o] == ops[1..][o - 1];
      assert forall o :: 0 <= o < |ops| - 1 ==> ops[1..][o] == ops[o + 1];
    }
  }

  /** A role group is patched exactly by those who may, under the version it stands at, with
      operations that are all understood and name only mapped users who own nothing. */
  lemma PatchGroupDecides(db: Db, op: Op, db': Db)
    requires MembershipInv(db) && op.PatchScimGroup? && db' == Apply(db, op)
    ensures db' != db <==>
      && May(db, op.actor, ScimManage) && op.version >= 1 && op.ops != [] && op.group.Some? && op.group.value != Owner
      && GroupKey(op.actor.ws, op.group.value) in db.scimGroups && db.scimGroups[GroupKey(op.actor.ws, op.group.value)] == op.version
      && OperationsPatchable(db, op.actor.ws, op.ops)
  {
    GroupPatchApplied(db, op, db');
    MayIs(db, op.actor, ScimManage);
    OperationsPatchableIs(db, op.actor.ws, op.ops);
    if PatchGroupFault(db, op.actor, op.group, op.ops, op.version).None? {
      PatchEtags(db, op.actor.ws, op.group.value, op.ops);
    }
  }

  // ---------- nothing reaches another workspace ----------

  ghost predicate ManagedCall(op: Op) {
    || op.AddMember? || op.ChangeMemberRole? || op.TransferOwnership? || op.RemoveMember?
    || op.CreateScimUser? || op.PatchScimUser? || op.PatchScimGroup?
    || op.Invite? || op.Resend? || op.Revoke? || op.ListInvitations?
  }

  /** The rows of other workspaces are the same. */
  ghost predicate RowsOnlyIn<T>(rows: map<Key, T>, rows': map<Key, T>, ws: Id) {
    forall k: Key :: k.ws != ws ==> (k in rows' <==> k in rows) && (k in rows ==> rows'[k] == rows[k])
  }

  ghost predicate GroupsOnlyIn(groups: map<GroupKey, int>, groups': map<GroupKey, int>, ws: Id) {
    forall g: GroupKey :: g.ws != ws ==> (g in groups' <==> g in groups) && (g in groups ==> groups'[g] == groups[g])
  }

  ghost predicate InvitationsOnlyIn(rows: map<Id, Invitation>, rows': map<Id, Invitation>, ws: Id) {
    && (forall i :: i in rows && rows[i].ws != ws ==> i in rows' && rows'[i] == rows[i])
    && (forall i :: i in rows' && rows'[i].ws != ws ==> i in rows && rows[i] == rows'[i])
  }

  /** All rows of other workspaces are the same, and so are all accounts there were. */
  ghost predicate OnlyIn(db: Db, db': Db, ws: Id) {
    && db'.workspaces == db.workspaces && db'.bootstrapped == db.bootstrapped
    && (forall u :: u in db.users ==> u in db'.users && db'.users[u] == db.users[u])
    && RowsOnlyIn(db.members, db'.members, ws) && RowsOnlyIn(db.scimUsers, db'.scimUsers, ws)
    && GroupsOnlyIn(db.scimGroups, db'.scimGroups, ws) && InvitationsOnlyIn(db.invitations, db'.invitations, ws)
  }

  lemma BumpOnlyIn(db: Db, ws: Id, roles: set<Role>)
    ensures var db' := Bump(db, ws, roles); db' == db.(scimGroups := db'.scimGroups) && GroupsOnlyIn(db.scimGroups, db'.scimGroups, ws)
  {
  }

  lemma MirrorOnlyIn(db: Db, k: Key, role: Role, active: bool)
    requires k in db.scimUsers
    ensures OnlyIn(db, MirrorRow(db, k, role, active), k.ws)
  {
    var row := db.scimUsers[k];
    BumpOnlyIn(db.(scimUsers := db.scimUsers[k := ScimRow(row.externalId, role, active, row.version + 1)]), k.ws, {row.role, role});
  }

  lemma EnrolOnlyIn(db: Db, k: Key, ext: Id, role: Role)
    ensures OnlyIn(db, Enrol(db, k, ext, role), k.ws)
  {
    BumpOnlyIn(db.(members := db.members[k := role], scimUsers := db.scimUsers[k := ScimRow(ext, role, true, 1)]), k.ws, {role});
  }

  lemma OnlyInChain(a: Db, b: Db, c: Db, ws: Id)
    requires OnlyIn(a, b, ws) && OnlyIn(b, c, ws)
    ensures OnlyIn(a, c, ws)
  {
  }

  lemma JoinOnlyIn(db: Db, k: Key, role: Role)
    ensures OnlyIn(db, Join(db, k, role), k.ws)
  {
    if k in db.scimUsers {
      var joined := db.(members := db.members[k := role]);
      MirrorOnlyIn(joined, k, role, true);
      OnlyInChain(db, joined, MirrorRow(joined, k, role, true), k.ws);
    } else {
      EnrolOnlyIn(db, k, k.user, role);
    }
  }

  lemma LeaveOnlyIn(db: Db, k: Key, role: Role)
    ensures OnlyIn(db, Leave(db, k, role), k.ws)
  {
    var gone := db.(members := db.members - {k});
    if k in db.scimUsers {
      MirrorOnlyIn(gone, k, role, false);
      OnlyInChain(db, gone, MirrorRow(gone, k, role, false), k.ws);
    }
  }

  lemma JoinsOnlyIn(db: Db, a: Key, b: Key)
    requires a.ws == b.ws
    ensures OnlyIn(db, Join(Join(db, a, Owner), b, Admin), a.ws)
  {
    JoinOnlyIn(db, a, Owner);
    JoinOnlyIn(Join(db, a, Owner), b, Admin);
    OnlyInChain(db, Join(db, a, Owner), Join(Join(db, a, Owner), b, Admin), a.ws);
  }

  lemma MemberCallOnlyIn(db: Db, op: Op, db': Db)
    requires (op.AddMember? || op.ChangeMemberRole? || op.RemoveMember? || op.TransferOwnership?) && db' == Apply(db, op)
    ensures OnlyIn(db, db', op.actor.ws)
  {
    var k := Key(op.actor.ws, op.user);
    if op.RemoveMember? {
      if k in db.members {
        LeaveOnlyIn(db, k, db.members[k]);
      }
    } else if op.TransferOwnership? {
      JoinsOnlyIn(db, k, Key(op.actor.ws, op.actor.user));
    } else {
      JoinOnlyIn(db, k, op.role);
    }
  }

  lemma PatchedOnlyIn(db: Db, ws: Id, role: Role, ops: seq<Operation>)
    requires MembershipInv(db)
    ensures OnlyIn(db, GroupPatched(db, ws, role, Steps(ops)), ws)
  {
    forall k: Key | k in db.scimUsers && k.ws != ws { PatchLeavesUnnamed(db, ws, role, ops, k); }
  }

  lemma InsertedOnlyIn(db: Db, k: Key, ext: Id, email: Id)
    ensures OnlyIn(db, ScimInserted(db, k, ext, email), k.ws)
  {
    var base := if k.user in db.users then db else db.(users := db.users[k.user := email]);
    EnrolOnlyIn(base, k, ext, Member);
    OnlyInChain(db, base, ScimInserted(db, k, ext, email), k.ws);
  }

  lemma UserPatchedOnlyIn(db: Db, k: Key, requested: Option<bool>)
    requires k in db.scimUsers
    ensures OnlyIn(db, ScimUserPatched(db, k, requested), k.ws)
  {
    JoinOnlyIn(db, k, db.scimUsers[k].role);
    LeaveOnlyIn(db, k, db.scimUsers[k].role);
  }

  lemma ScimCallOnlyIn(db: Db, op: Op, db': Db)
    requires MembershipInv(db) && (op.CreateScimUser? || op.PatchScimUser? || op.PatchScimGroup?) && db' == Apply(db, op)
    ensures OnlyIn(db, db', op.actor.ws)
  {
    if op.PatchScimUser? {
      UserPatchApplied(db, op, db');
      if db' != db {
        UserPatchedOnlyIn(db, KeyOf(db, op.actor.ws, op.ext), op.active);
      }
    } else if op.PatchScimGroup? {
      GroupPatchApplied(db, op, db');
      if db' != db {
        PatchedOnlyIn(db, op.actor.ws, op.group.value, op.ops);
      }
    } else {
      ScimCreateApplied(db, op, db');
      var plan := PlanScimCreate(db, op.actor, op.address, op.named, op.input, op.user);
      if plan.Insert? {
        PlannedInsert(db, op.actor, op.address, op.named, op.input, op.user);
        InsertedOnlyIn(db, plan.key, plan.ext, op.address.value);
      }
    }
  }

  lemma InvitationsOnly(db: Db, db': Db, ws: Id)
    requires db' == db.(invitations := db'.invitations) && InvitationsOnlyIn(db.invitations, db'.invitations, ws)
    ensures OnlyIn(db, db', ws)
  {
  }

  lemma InviteOnlyIn(db: Db, op: Op, db': Db)
    requires Inv(db) && op.Invite? && db' == Apply(db, op)
    ensures OnlyIn(db, db', op.actor.ws)
  {
    InviteApplied(db, op, db');
    if db' != db {
      InviteAllowed(db, op.actor, op.address, op.role, op.lifetime, op.id, op.secret, op.now);
      InvitedOnlyIn(db, op.actor, op.address.value, op.role, op.lifetime, op.id, op.secret, op.now);
    }
  }

  lemma InvitedOnlyIn(db: Db, actor: Principal, email: Id, role: Role, requested: int, id: Id, secret: Id, now: int)
    requires InvitationsInv(db) && id !in db.invitations
    ensures OnlyIn(db, Invited(db, actor, email, role, requested, id, secret, now), actor.ws)
  {
    InvitedRows(db, actor, email, role, requested, id, secret, now);
    InvitationsOnly(db, Invited(db, actor, email, role, requested, id, secret, now), actor.ws);
  }

  lemma OneInvitation(db: Db, i: Id, inv: Invitation)
    requires i in db.invitations && inv.ws == db.invitations[i].ws
    ensures OnlyIn(db, db.(invitations := db.invitations[i := inv]), inv.ws)
  {
  }

  lemma ResendOnlyIn(db: Db, op: Op, db': Db)
    requires op.Resend? && db' == Apply(db, op)
    ensures OnlyIn(db, db', op.actor.ws)
  {
    ResendApplied(db, op, db');
    if db' != db {
      OneInvitation(db, op.id, Resent(db, op.id, op.lifetime, op.secret, op.now).invitations[op.id]);
    }
  }

  lemma RevokeOnlyIn(db: Db, op: Op, db': Db)
    requires op.Revoke? && db' == Apply(db, op)
    ensures OnlyIn(db, db', op.actor.ws)
  {
    RevokeApplied(db, op, db');
    RevokedIs(db, op.actor, op.id, op.now);
    if db' != db {
      OneInvitation(db, op.id, db'.invitations[op.id]);
    }
  }

  lemma ListingOnlyIn(db: Db, op: Op, db': Db)
    requires op.ListInvitations? && db' == Apply(db, op)
    ensures OnlyIn(db, db', op.actor.ws)
  {
    ListingMarks(db, op, db');
    InvitationsOnly(db, db', op.actor.ws);
  }

  lemma ManagedOnlyIn(db: Db, op: Op)
    requires Inv(db) && ManagedCall(op)
    ensures OnlyIn(db, Apply(db, op), op.actor.ws)
  {
    var db' := Apply(db, op);
    match op
    case Invite(_, _, _, _, _, _, _) => InviteOnlyIn(db, op, db');
    case Resend(_, _, _, _, _) => ResendOnlyIn(db, op, db');
    case Revoke(_, _, _) => RevokeOnlyIn(db, op, db');
    case ListInvitations(_, _) => ListingOnlyIn(db, op, db');
    case CreateScimUser(_, _, _, _, _) => ScimCallOnlyIn(db, op, db');
    case PatchScimUser(_, _, _, _, _) => ScimCallOnlyIn(db, op, db');
    case PatchScimGroup(_, _, _, _) => ScimCallOnlyIn(db, op, db');
    case _ => MemberCallOnlyIn(db, op, db');
  }

  /** Workspaces are apart: in any run, a call made in the name of one changes no row of
      another, and no account that was there. */
  lemma WorkspacesAreApart(before: seq<Op>, op: Op)
    requires ManagedCall(op)
    ensures OnlyIn(Run(EMPTY, before), Apply(Run(EMPTY, before), op), op.actor.ws)
  {
    ReachableInv(before);
    ManagedOnlyIn(Run(EMPTY, before), op);
  }

  function Needs(op: Op): Permission {
    match op
    case TransferOwnership(_, _) => OwnershipTransfer
    case AddMember(_, _, _) => MembersManage
    case ChangeMemberRole(_, _, _) => MembersManage
    case RemoveMember(_, _) => MembersManage
    case CreateScimUser(_, _, _, _, _) => ScimManage
    case PatchScimUser(_, _, _, _, _) => ScimManage
    case PatchScimGroup(_, _, _, _) => ScimManage
    case _ => InvitationsManage
  }

  /** In any run, a call changes something only if its caller is an owner or admin of the
      workspace, the owner where it hands it over, with a permission for this kind of call. */
  lemma OnlyManagersAct(before: seq<Op>, op: Op)
    requires ManagedCall(op) && Apply(Run(EMPTY, before), op) != Run(EMPTY, before)
    ensures var db, k := Run(EMPTY, before), Key(op.actor.ws, op.actor.user);
      && Needs(op) in op.actor.permissions && k in db.members
      && (db.members[k] == Owner || (db.members[k] == Admin && !op.TransferOwnership?))
  {
    ReachableInv(before);
    ChangeNeeds(Run(EMPTY, before), op);
    MayIs(Run(EMPTY, before), op.actor, Needs(op));
  }

  lemma MemberCallNeeds(db: Db, op: Op)
    requires (op.AddMember? || op.ChangeMemberRole? || op.RemoveMember? || op.TransferOwnership? || op.ListInvitations?) && Apply(db, op) != db
    ensures CanDo(db, op.actor, Needs(op))
  {
  }

  lemma InvitationCallNeeds(db: Db, op: Op)
    requires (op.Invite? || op.Resend? || op.Revoke?) && Apply(db, op) != db
    ensures CanDo(db, op.actor, Needs(op))
  {
    if op.Invite? {
      InviteApplied(db, op, Apply(db, op));
    } else if op.Resend? {
      ResendApplied(db, op, Apply(db, op));
    } else {
      RevokeApplied(db, op, Apply(db, op));
      RevokedIs(db, op.actor, op.id, op.now);
    }
  }

  lemma ScimCallNeeds(db: Db, op: Op)
    requires (op.CreateScimUser? || op.PatchScimUser? || op.PatchScimGroup?) && Apply(db, op) != db
    ensures CanDo(db, op.actor, Needs(op))
  {
    if op.CreateScimUser? {
      ScimCreateApplied(db, op, Apply(db, op));
    } else if op.PatchScimUser? {
      UserPatchApplied(db, op, Apply(db, op));
    } else {
      GroupPatchApplied(db, op, Apply(db, op));
    }
  }

  lemma ChangeNeeds(db: Db, op: Op)
    requires ManagedCall(op) && Apply(db, op) != db
    ensures CanDo(db, op.actor, Needs(op))
  {
    if op.Invite? || op.Resend? || op.Revoke? {
      InvitationCallNeeds(db, op);
    } else if op.CreateScimUser? || op.PatchScimUser? || op.PatchScimGroup? {
      ScimCallNeeds(db, op);
    } else {
      MemberCallNeeds(db, op);
    }
  }

  // ---------- the first call ----------

  /** How often a run sets the service up. */
  ghost function TimesBootstrapped(db: Db, ops: seq<Op>): nat
    decreases |ops|
  {
    if ops == [] then 0 else (if ops[0].Bootstrap? && Apply(db, ops[0]) != db then 1 else 0) + TimesBootstrapped(Apply(db, ops[0]), ops[1..])
  }

  lemma MarkStays(db: Db, op: Op)
    requires Inv(db) && db.bootstrapped
    ensures Apply(db, op).bootstrapped
  {
    if ManagedCall(op) {
      ManagedOnlyIn(db, op);
    } else if op.Accept? {
      AcceptMarks(db, op.secret, op.user, op.now, op.later);
    } else if op.AcceptAsNewUser? {
      AcceptNewMarks(db, op.secret, op.user, op.now, op.later);
    } else if op.CreateWorkspace? {
      OpenMembers(db, op.user, op.ws);
    }
  }

  lemma AcceptMarks(db: Db, secret: Id, user: Id, now: int, later: int)
    requires Inv(db)
    ensures AcceptedByUser(db, secret, user, now, later).db.bootstrapped == db.bootstrapped
  {
    if user in db.users {
      if f :| f in db.invitations && db.invitations[f].secret == secret {
        UserCases(db, f, user, now, later);
        JoinOnlyIn(db, Key(db.invitations[f].ws, user), db.invitations[f].role);
      }
    }
  }

  lemma AcceptNewMarks(db: Db, secret: Id, user: Id, now: int, later: int)
    requires Inv(db)
    ensures AcceptedByNewUser(db, secret, user, now, later).db.bootstrapped == db.bootstrapped
  {
    if f :| f in db.invitations && db.invitations[f].secret == secret {
      var mid := db.(users := db.users[user := db.invitations[f].email]);
      NewUserCases(db, mid, f, user, now, later);
      JoinOnlyIn(mid, Key(db.invitations[f].ws, user), db.invitations[f].role);
    }
  }

  lemma {:induction false} NeverBootstrappedAgain(db: Db, ops: seq<Op>)
    requires Inv(db)
    ensures TimesBootstrapped(db, ops) <= if db.bootstrapped then 0 else 1
    decreases |ops|
  {
    if ops != [] {
      var db' := Apply(db, ops[0]);
      StepKeeps(db, ops[0], db');
      if db.bootstrapped {
        MarkStays(db, ops[0]);
      }
      if ops[0].Bootstrap? {
        BootstrapDecides(db, ops[0], db');
      }
      NeverBootstrappedAgain(db', ops[1..]);
    }
  }

  /** The service is set up at most once in any run. */
  lemma BootstrapsOnce(ops: seq<Op>)
    ensures TimesBootstrapped(EMPTY, ops) <= 1
  {
    ReachableInv([]);
    NeverBootstrappedAgain(EMPTY, ops);
  }
}
