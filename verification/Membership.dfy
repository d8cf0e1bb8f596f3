/** What each committed membership transaction does to the tables, and when it
    is refused.  `Fault` functions give the error a call reports, in the order
    the checks run; the effects are built from three writes. */
module Membership {
  import opened Wrappers
  import opened IdentityTables

  // ---------- the shared writes ----------

  function Bump(db: Db, ws: Id, roles: set<Role>): Db {
    db.(scimGroups := map g | g in db.scimGroups ::
        if g.ws == ws && g.role in roles then db.scimGroups[g] + 1 else db.scimGroups[g])
  }

  /** Rewrite an existing mirror row; versions move only if role or activity does. */
  function MirrorRow(db: Db, k: Key, role: Role, active: bool): Db
    requires k in db.scimUsers
  {
    var row := db.scimUsers[k];
    var updated := db.(scimUsers := db.scimUsers[k := ScimRow(row.externalId, role, active, row.version + 1)]);
    if row.role != role || row.active != active then Bump(updated, k.ws, {row.role, role}) else updated
  }

  function Enrol(db: Db, k: Key, ext: Id, role: Role): Db {
    Bump(db.(members := db.members[k := role],
             scimUsers := db.scimUsers[k := ScimRow(ext, role, true, 1)]), k.ws, {role})
  }

  /** Make `k` an active member with `role`. */
  function Join(db: Db, k: Key, role: Role): Db {
    if k in db.scimUsers then MirrorRow(db.(members := db.members[k := role]), k, role, true)
    else Enrol(db, k, k.user, role)
  }

  /** Take `k` out of its workspace, leaving an inactive mirror row. */
  function Leave(db: Db, k: Key, role: Role): Db {
    var gone := db.(members := db.members - {k});
    if k in db.scimUsers then MirrorRow(gone, k, role, false) else gone
  }

  /** Missing group rows for `roles` start at version 1. */
  function GroupsFor(db: Db, ws: Id, roles: set<Role>): Db {
    db.(scimGroups := map g | g in db.scimGroups.Keys + (set r | r in roles :: GroupKey(ws, r)) ::
        if g in db.scimGroups then db.scimGroups[g] else 1)
  }

  function WithGroups(db: Db, ws: Id): Db {
    GroupsFor(db, ws, {Admin, Member, Viewer})
  }

  function OpenWorkspace(db: Db, user: Id, ws: Id): Db {
    WithGroups(Enrol(db.(workspaces := db.workspaces + {ws}), Key(ws, user), user, Owner), ws)
  }

  // ---------- service.go ----------

  function BootstrapFault(db: Db, user: Id, email: Id, ws: Id): Option<Fault> {
    if db.bootstrapped then Some(AlreadyBootstrapped)
    else if user in db.users || EmailTaken(db, email) || ws in db.workspaces then Some(StorageFailure)
    else None
  }

  function Bootstrapped(db: Db, user: Id, email: Id, ws: Id): Db {
    OpenWorkspace(db.(bootstrapped := true, users := db.users[user := email]), user, ws)
  }

  /** `factorOk`: the session's second factor is as strong as an owner's must be;
      `nameOk`: name and locale pass their checks. */
  function CreateWorkspaceFault(db: Db, user: Id, ws: Id, factorOk: bool, nameOk: bool): Option<Fault> {
    if !factorOk then Some(FactorRequired)
    else if !nameOk then Some(InvalidInput)
    else if user !in db.users then Some(Forbidden)
    else if ws in db.workspaces then Some(StorageFailure)
    else None
  }

  /** An unmapped user gets their own id as external id, which must be free. */
  predicate DefaultExternalFree(db: Db, k: Key) {
    k in db.scimUsers || !HasExternal(db, k.ws, k.user)
  }

  predicate CanJoin(db: Db, k: Key) {
    k.user in db.users && k.ws in db.workspaces && k !in db.members && DefaultExternalFree(db, k)
  }

  function AddMemberFault(db: Db, actor: Principal, user: Id, role: Role): Option<Fault> {
    if !CanDo(db, actor, MembersManage) || role == Owner then Some(Forbidden)
    else if !CanJoin(db, Key(actor.ws, user)) then Some(StorageFailure)
    else None
  }

  function ChangeMemberRoleFault(db: Db, actor: Principal, user: Id, role: Role): Option<Fault> {
    var k := Key(actor.ws, user);
    if !CanDo(db, actor, MembersManage) || role == Owner || k !in db.members then Some(Forbidden)
    else if db.members[k] == Owner then Some(LastOwner)
    else None
  }

  function TransferOwnershipFault(db: Db, actor: Principal, user: Id): Option<Fault> {
    if !CanDo(db, actor, OwnershipTransfer) || actor.user == user || Key(actor.ws, user) !in db.members
    then Some(Forbidden) else None
  }

  function OwnershipTransferred(db: Db, actor: Principal, user: Id): Db {
    Join(Join(db, Key(actor.ws, user), Owner), Key(actor.ws, actor.user), Admin)
  }

  function RemoveMemberFault(db: Db, actor: Principal, user: Id): Option<Fault> {
    var k := Key(actor.ws, user);
    if !CanDo(db, actor, MembersManage) || k !in db.members then Some(Forbidden)
    else if db.members[k] == Owner then Some(LastOwner)
    else None
  }

  function MemberRemoved(db: Db, k: Key): Db
    requires k in db.members
  {
    Leave(db, k, db.members[k])
  }

  // ---------- account.go ----------

  predicate OwnsSomething(db: Db, user: Id) {
    exists k :: k in db.members && k.user == user && db.members[k] == Owner
  }

  function DeleteAccountFault(db: Db, user: Id): Option<Fault> {
    if OwnsSomething(db, user) then Some(OwnedWorkspace)
    else if user !in db.users then Some(Forbidden)
    else None
  }

  /** The user row goes, and with it every row that references it. */
  function AccountDeleted(db: Db, user: Id): Db {
    db.(users := db.users - {user},
        members := map k | k in db.members && k.user != user :: db.members[k],
        scimUsers := map k | k in db.scimUsers && k.user != user :: db.scimUsers[k],
        invitations := map i | i in db.invitations && db.invitations[i].invitedBy != user :: db.invitations[i])
  }

  // ---------- scim.go, users ----------

  /** The external id of a request: absent, unusable, or given. */
  datatype ExternalInput = Absent | Malformed | Given(ext: Id)

  datatype ScimCreate = Refuse(fault: Fault) | Replay(key: Key) | Insert(key: Key, ext: Id)

  /** What CreateSCIMUser decides: `email` is None if it does not normalise,
      `newUser` is the id a new account would get. */
  ghost function PlanScimCreate(db: Db, actor: Principal, email: Option<Id>, named: bool, input: ExternalInput, newUser: Id): ScimCreate {
    if !CanDo(db, actor, ScimManage) then Refuse(Forbidden)
    else if email.None? || named || input.Malformed? then Refuse(ScimInvalid)
    else if input.Given? && HasExternal(db, actor.ws, input.ext) then
      var k := KeyOf(db, actor.ws, input.ext);
      if k.user !in db.users || db.users[k.user] != email.value then Refuse(ScimConflict) else Replay(k)
    else if !EmailTaken(db, email.value) && newUser in db.users then Refuse(StorageFailure)
    else
      var user := if EmailTaken(db, email.value) then UserWithEmail(db, email.value) else newUser;
      var k := Key(actor.ws, user);
      if k in db.members then
        if input.Absent? && k in db.scimUsers then Replay(k) else Refuse(ScimConflict)
      else if k in db.scimUsers then Refuse(ScimConflict)
      else
        var ext := if input.Absent? then user else input.ext;
        if HasExternal(db, actor.ws, ext) then Refuse(StorageFailure) else Insert(k, ext)
  }

  function ScimInserted(db: Db, k: Key, ext: Id, email: Id): Db {
    Enrol(if k.user in db.users then db else db.(users := db.users[k.user := email]), k, ext, Member)
  }

  function NewActive(row: ScimRow, current: bool, requested: Option<bool>): bool {
    if requested.Some? then requested.value else current
  }

  ghost function PatchScimUserFault(db: Db, actor: Principal, ext: Id, requested: Option<bool>, immutable: bool, version: int): Option<Fault> {
    if !CanDo(db, actor, ScimManage) then Some(Forbidden)
    else if version < 1 then Some(ScimPrecondition)
    else if !HasExternal(db, actor.ws, ext) then Some(ScimNotFound)
    else
      var k := KeyOf(db, actor.ws, ext);
      var row := db.scimUsers[k];
      if row.version != version then Some(ScimPrecondition)
      else if immutable then Some(ScimInvalid)
      else if !NewActive(row, row.active, requested) && row.role == Owner then Some(LastOwner)
      else None
  }

  /** Activity is set; the mirrored role is what a reactivated member gets back. */
  ghost function ScimUserPatched(db: Db, k: Key, requested: Option<bool>): Db
    requires k in db.scimUsers
  {
    var row := db.scimUsers[k];
    var active := NewActive(row, row.active, requested);
    if active then Join(db, k, row.role) else Leave(db, k, row.role)
  }

  // ---------- what the shared writes keep ----------

  /** Two states that agree on who is in a group, and on external ids, list the same members. */
  lemma SameGroup(db: Db, db': Db, ws: Id, role: Role)
    requires forall k: Key :: k.ws == ws ==> InGroup(db, k, role) == InGroup(db', k, role)
    requires forall k: Key :: k.ws == ws && InGroup(db, k, role) && InGroup(db', k, role) ==> db.scimUsers[k].externalId == db'.scimUsers[k].externalId
    ensures GroupMembers(db, ws, role) == GroupMembers(db', ws, role)
  {
    forall e | e in GroupMembers(db, ws, role) ensures e in GroupMembers(db', ws, role) {
      var k :| k in db.scimUsers && k.ws == ws && InGroup(db, k, role) && db.scimUsers[k].externalId == e;
      assert InGroup(db', k, role);
    }
    forall e | e in GroupMembers(db', ws, role) ensures e in GroupMembers(db, ws, role) {
      var k :| k in db'.scimUsers && k.ws == ws && InGroup(db', k, role) && db'.scimUsers[k].externalId == e;
      assert InGroup(db, k, role);
    }
  }

  lemma EtagsCompose(a: Db, b: Db, c: Db)
    requires EtagsSound(a, b) && EtagsSound(b, c)
    ensures EtagsSound(a, c)
  {
  }

  /** One membership write, seen from outside: `k` ends up active with `role`, or
      inactive; nothing else moves, and every group `k` enters or leaves gets a
      new version. */
  ghost predicate Moved(db: Db, db': Db, k: Key, role: Role, active: bool) {
    && db'.bootstrapped == db.bootstrapped
    && db'.users == db.users
    && db'.workspaces == db.workspaces
    && db'.invitations == db.invitations
    && db'.members == (if active then db.members[k := role] else db.members - {k})
    && k in db'.scimUsers
    && db'.scimUsers == db.scimUsers[k := db'.scimUsers[k]]
    && db'.scimUsers[k].role == role
    && db'.scimUsers[k].active == active
    && (k in db.scimUsers ==>
          && db'.scimUsers[k].externalId == db.scimUsers[k].externalId
          && db'.scimUsers[k].version == db.scimUsers[k].version + 1)
    && (k !in db.scimUsers ==> !HasExternal(db, k.ws, db'.scimUsers[k].externalId))
    && db'.scimGroups.Keys == db.scimGroups.Keys
    && (forall g :: g in db.scimGroups ==> db.scimGroups[g] <= db'.scimGroups[g])
    && (forall g :: g in db.scimGroups && g.ws == k.ws && InGroup(db, k, g.role) != (active && g.role == role) ==>
          db.scimGroups[g] < db'.scimGroups[g])
  }

  lemma JoinMoves(db: Db, k: Key, role: Role)
    requires MirrorAgrees(db) && DefaultExternalFree(db, k)
    ensures Moved(db, Join(db, k, role), k, role, true)
  {
    if k in db.scimUsers {
      RejoinMoves(db, k, role);
    } else {
      EnrolMoves(db, k, k.user, role);
    }
  }

  lemma RejoinMoves(db: Db, k: Key, role: Role)
    requires MirrorAgrees(db) && k in db.scimUsers
    ensures Moved(db, MirrorRow(db.(members := db.members[k := role]), k, role, true), k, role, true)
  {
  }

  lemma LeaveMoves(db: Db, k: Key, role: Role)
    requires MirrorAgrees(db) && k in db.scimUsers && db.scimUsers[k].role == role
    ensures Moved(db, Leave(db, k, role), k, role, false)
  {
  }

  lemma EnrolMoves(db: Db, k: Key, ext: Id, role: Role)
    requires MirrorAgrees(db) && k !in db.scimUsers && !HasExternal(db, k.ws, ext)
    ensures Moved(db, Enrol(db, k, ext, role), k, role, true)
  {
  }

  lemma MovedKeepsSchema(db: Db, db': Db, k: Key, role: Role, active: bool)
    requires Moved(db, db', k, role, active)
    requires SchemaHolds(db) && GroupsExist(db) && k.user in db.users && k.ws in db.workspaces
    ensures SchemaHolds(db') && GroupsExist(db')
  {
    if k !in db.scimUsers {
      assert forall j :: j in db.scimUsers ==> !ExternalAt(db, j, k.ws, db'.scimUsers[k].externalId);
    }
  }

  lemma MovedKeepsMirror(db: Db, db': Db, k: Key, role: Role, active: bool)
    requires Moved(db, db', k, role, active)
    requires MirrorAgrees(db) && NoInactiveOwner(db) && (active || role != Owner)
    ensures MirrorAgrees(db') && NoInactiveOwner(db')
  {
  }

  /** A membership write never falsifies an ETag. */
  lemma MovedEtags(db: Db, db': Db, k: Key, role: Role, active: bool)
    requires Moved(db, db', k, role, active)
    ensures EtagsSound(db, db')
  {
    forall g | g in db.scimGroups && db'.scimGroups[g] <= db.scimGroups[g]
      ensures GroupMembers(db, g.ws, g.role) == GroupMembers(db', g.ws, g.role)
    {
      SameGroup(db, db', g.ws, g.role);
    }
  }

  /** Ownership after writes that touch no owner. */
  lemma OwnersUntouched(db: Db, db': Db)
    requires OneOwner(db) && db'.workspaces == db.workspaces
    requires forall k :: OwnerAt(db, k) == OwnerAt(db', k)
    ensures OneOwner(db')
  {
    forall ws | ws in db'.workspaces ensures HasOwner(db', ws) {
      assert HasOwner(db, ws);
      var k :| OwnerAt(db, k) && k.ws == ws;
      assert OwnerAt(db', k);
    }
  }

  lemma MovedOwners(db: Db, db': Db, k: Key, role: Role, active: bool)
    requires Moved(db, db', k, role, active) && OwnerAt(db, k) == (active && role == Owner)
    ensures forall j :: OwnerAt(db, j) == OwnerAt(db', j)
  {
  }

  /** A write that makes nobody an owner and deposes none keeps the whole invariant and every ETag. */
  lemma MovedKeeps(db: Db, db': Db, k: Key, role: Role, active: bool)
    requires Moved(db, db', k, role, active)
    requires OwnerAt(db, k) == (active && role == Owner) && (active || role != Owner)
    requires MembershipInv(db) && k.user in db.users && k.ws in db.workspaces
    ensures MembershipInv(db') && EtagsSound(db, db')
  {
    MovedKeepsSchema(db, db', k, role, active);
    MovedKeepsMirror(db, db', k, role, active);
    MovedEtags(db, db', k, role, active);
    MovedOwners(db, db', k, role, active);
    OwnersUntouched(db, db');
  }
}
