/** The tables of the identity service that decide who belongs to a workspace,
    and the invariant every transaction keeps.  Ids and e-mail addresses are
    opaque, so they are naturals; time is an integer number of nanoseconds. */
module IdentityTables {
  import opened Wrappers

  type Id = nat

  datatype Role = Owner | Admin | Member | Viewer

  datatype Permission = OwnershipTransfer | MembersManage | InvitationsManage | ScimManage

  function PermissionsFor(role: Role): set<Permission> {
    match role
    case Owner => {OwnershipTransfer, MembersManage, InvitationsManage, ScimManage}
    case Admin => {MembersManage, InvitationsManage, ScimManage}
    case Member => {}
    case Viewer => {}
  }

  datatype Principal = Principal(user: Id, ws: Id, permissions: set<Permission>)

  /** Primary key of workspace_members; scim_users is unique on it too. */
  datatype Key = Key(ws: Id, user: Id)

  datatype GroupKey = GroupKey(ws: Id, role: Role)

  datatype ScimRow = ScimRow(externalId: Id, role: Role, active: bool, version: int)

  /** `accepted`, `expired` and `revoked` say whether the timestamp column is set. */
  datatype Invitation = Invitation(
    ws: Id, email: Id, role: Role, secret: Id, invitedBy: Id, expiresAt: int,
    accepted: bool, expired: bool, revoked: bool, activeEmail: Option<Id>)

  datatype Db = Db(
    bootstrapped: bool,
    users: map<Id, Id>,
    workspaces: set<Id>,
    members: map<Key, Role>,
    scimUsers: map<Key, ScimRow>,
    scimGroups: map<GroupKey, int>,
    invitations: map<Id, Invitation>)

  datatype Fault =
    | Forbidden | LastOwner | OwnedWorkspace | AlreadyBootstrapped | StorageFailure
    | ScimInvalid | ScimNotFound | ScimConflict | ScimPrecondition
    | InvalidInput | InvalidInvitation | ActiveInvitation | FactorRequired

  const EMPTY: Db := Db(false, map[], {}, map[], map[], map[], map[])

  // ---------- the invariant ----------

  ghost predicate OwnerAt(db: Db, k: Key) {
    k in db.members && db.members[k] == Owner
  }

  ghost predicate HasOwner(db: Db, ws: Id) {
    exists k :: OwnerAt(db, k) && k.ws == ws
  }

  /** Each workspace has exactly one owner. */
  ghost predicate OneOwner(db: Db) {
    && (forall ws :: ws in db.workspaces ==> HasOwner(db, ws))
    && (forall j, k :: OwnerAt(db, j) && OwnerAt(db, k) && j.ws == k.ws ==> j == k)
  }

  /** A user is a member iff their SCIM row is active, and then the roles agree. */
  ghost predicate MirrorAgrees(db: Db) {
    && (forall k :: k in db.members ==>
          k in db.scimUsers && db.scimUsers[k].active && db.scimUsers[k].role == db.members[k])
    && (forall k :: k in db.scimUsers && db.scimUsers[k].active ==> k in db.members)
  }

  ghost predicate NoInactiveOwner(db: Db) {
    forall k :: k in db.scimUsers && !db.scimUsers[k].active ==> db.scimUsers[k].role != Owner
  }

  /** Foreign keys, unique constraints and check constraints of the schema. */
  ghost predicate SchemaHolds(db: Db) {
    && (forall k :: k in db.members ==> k.ws in db.workspaces && k.user in db.users)
    && (forall k :: k in db.scimUsers ==> k.ws in db.workspaces && k.user in db.users)
    && (forall j, k | j in db.scimUsers && k in db.scimUsers ::
          j.ws == k.ws && db.scimUsers[j].externalId == db.scimUsers[k].externalId ==> j == k)
    && (forall u, v :: u in db.users && v in db.users && db.users[u] == db.users[v] ==> u == v)
    && (forall g :: g in db.scimGroups ==> g.role != Owner && g.ws in db.workspaces)
  }

  ghost predicate GroupsExist(db: Db) {
    forall ws, role :: ws in db.workspaces && role != Owner ==> GroupKey(ws, role) in db.scimGroups
  }

  ghost predicate MembershipInv(db: Db) {
    && SchemaHolds(db)
    && GroupsExist(db)
    && MirrorAgrees(db)
    && NoInactiveOwner(db)
    && OneOwner(db)
  }

  // ---------- what a client of the groups endpoint sees ----------

  ghost predicate InGroup(db: Db, k: Key, role: Role) {
    k in db.members && db.members[k] == role && k in db.scimUsers && db.scimUsers[k].active
  }

  /** The member list of a role group: external ids of its active members. */
  ghost function GroupMembers(db: Db, ws: Id, role: Role): set<Id> {
    set k | k in db.scimUsers && k.ws == ws && InGroup(db, k, role) :: db.scimUsers[k].externalId
  }

  /** Versions never fall, and rise strictly wherever the member list changes. */
  ghost predicate EtagsSound(before: Db, after: Db) {
    forall g :: g in before.scimGroups ==>
      && g in after.scimGroups
      && before.scimGroups[g] <= after.scimGroups[g]
      && (GroupMembers(before, g.ws, g.role) != GroupMembers(after, g.ws, g.role) ==>
            before.scimGroups[g] < after.scimGroups[g])
  }

  /** The permission check that opens every managed operation. */
  predicate CanDo(db: Db, actor: Principal, permission: Permission) {
    var k := Key(actor.ws, actor.user);
    && permission in actor.permissions
    && k in db.members
    && permission in PermissionsFor(db.members[k])
  }

  // ---------- looking a SCIM user up by external id ----------

  predicate ExternalAt(db: Db, k: Key, ws: Id, ext: Id) {
    k in db.scimUsers && k.ws == ws && db.scimUsers[k].externalId == ext
  }

  predicate HasExternal(db: Db, ws: Id, ext: Id) {
    exists k :: k in db.scimUsers && ExternalAt(db, k, ws, ext)
  }

  ghost function KeyOf(db: Db, ws: Id, ext: Id): (k: Key)
    requires HasExternal(db, ws, ext)
    ensures ExternalAt(db, k, ws, ext)
  {
    var k :| ExternalAt(db, k, ws, ext);
    k
  }

  predicate EmailTaken(db: Db, email: Id) {
    exists u :: u in db.users && db.users[u] == email
  }

  ghost function UserWithEmail(db: Db, email: Id): (u: Id)
    requires EmailTaken(db, email)
    ensures u in db.users && db.users[u] == email
  {
    var u :| u in db.users && db.users[u] == email;
    u
  }
}
