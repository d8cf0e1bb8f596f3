/** The identity service's transactions as they run: each method works on a
    copy of the tables and assigns it back to commit, so an early return is a
    rollback.  Every method is tied to the state machine of IdentityRuns. */
module IdentityService {
  import opened Wrappers
  import opened IdentityTables
  import opened Membership
  import opened GroupPatch
  import opened Invitations
  import opened IdentityRuns

  // ---------- helpers that run inside a transaction ----------

  function RoleSet(roles: seq<Role>): set<Role> {
    set r | r in roles
  }

  lemma RoleSetSnoc(roles: seq<Role>, role: Role)
    ensures RoleSet(roles + [role]) == RoleSet(roles) + {role}
  {
  }

  lemma ChangedGrows(changed: seq<Role>, changed': seq<Role>, role: Role, losing: set<Role>, extra: set<Role>)
    requires RoleSet(changed) == {role} + losing && RoleSet(changed') == RoleSet(changed) + extra
    ensures RoleSet(changed') == {role} + (losing + extra)
  {
  }

  /** Taking member `j` moves one step from those to come to those done. */
  lemma StepsOfMore(done: seq<Step>, verb: Verb, members: seq<Id>, j: nat)
    requires j < |members|
    ensures done + StepsOf(verb, members[j..]) == done + [Step(verb == Add, members[j])] + StepsOf(verb, members[j + 1..])
  {
    assert StepsOf(verb, members[j..]) == [Step(verb == Add, members[j])] + StepsOf(verb, members[j + 1..]);
  }

  lemma StepsOfNone(done: seq<Step>, verb: Verb, members: seq<Id>)
    ensures done + StepsOf(verb, members[|members|..]) == done && members[0..] == members
  {
  }

  lemma StepsMore(steps: seq<Step>, ops: seq<Operation>, i: nat)
    requires i < |ops| && steps + Steps(ops[i..]) == Steps(ops)
    ensures steps + StepsOf(ops[i].verb, ops[i].members) + Steps(ops[i + 1..]) == Steps(ops)
  {
    assert ops[i..][0] == ops[i] && ops[i..][1..] == ops[i + 1..];
  }

  /** The first fault of the operations from `i` on, unless operation `i` has it. */
  lemma FaultMore(db: Db, ws: Id, ops: seq<Operation>, i: nat)
    requires i < |ops|
    ensures OperationsFault(db, ws, ops[i..]) ==
      if ops[i].verb == Unsupported || ops[i].members == [] then Some(ScimInvalid)
      else if MembersFault(db, ws, ops[i].members).Some? then MembersFault(db, ws, ops[i].members)
      else OperationsFault(db, ws, ops[i + 1..])
  {
    assert ops[i..][0] == ops[i] && ops[i..][1..] == ops[i + 1..];
  }

  lemma MemberFaultMore(db: Db, ws: Id, members: seq<Id>, j: nat)
    requires j < |members|
    ensures MembersFault(db, ws, members[j..]) ==
      if NamedFault(db, ws, members[j]).Some? then NamedFault(db, ws, members[j]) else MembersFault(db, ws, members[j + 1..])
  {
    assert members[j..][0] == members[j] && members[j..][1..] == members[j + 1..];
  }

  lemma BumpOneMore(tx: Db, ws: Id, seen: set<Role>, role: Role, bumped: Db)
    requires role !in seen && role != Owner && bumped == Bump(tx, ws, seen)
    ensures var g := GroupKey(ws, role);
      Bump(tx, ws, seen + {role}) ==
      if g in bumped.scimGroups then bumped.(scimGroups := bumped.scimGroups[g := bumped.scimGroups[g] + 1]) else bumped
  {
  }

  lemma BumpOwnerless(tx: Db, ws: Id, roles: set<Role>)
    requires forall g :: g in tx.scimGroups ==> g.role != Owner
    ensures Bump(tx, ws, roles) == Bump(tx, ws, roles - {Owner})
  {
  }

  method BumpGroupVersions(tx: Db, ws: Id, roles: seq<Role>) returns (tx': Db)
    requires forall g :: g in tx.scimGroups ==> g.role != Owner
    ensures tx' == Bump(tx, ws, RoleSet(roles))
  {
    tx' := tx;
    var seen: set<Role> := {};
    assert tx == Bump(tx, ws, {});
    for i := 0 to |roles|
      invariant seen == RoleSet(roles[..i]) - {Owner}
      invariant tx' == Bump(tx, ws, seen)
    {
      var role := roles[i];
      assert roles[..i + 1] == roles[..i] + [role];
      if role != Owner && role !in seen {
        BumpOneMore(tx, ws, seen, role, tx');
        seen := seen + {role};
        var g := GroupKey(ws, role);
        if g in tx'.scimGroups {
          tx' := tx'.(scimGroups := tx'.scimGroups[g := tx'.scimGroups[g] + 1]);
        }
      }
    }
    assert roles[..|roles|] == roles;
    BumpOwnerless(tx, ws, RoleSet(roles));
  }

  method SyncRow(tx: Db, k: Key, role: Role, active: bool) returns (tx': Db)
    requires k in tx.scimUsers && forall g :: g in tx.scimGroups ==> g.role != Owner
    ensures tx' == MirrorRow(tx, k, role, active)
  {
    var row := tx.scimUsers[k];
    tx' := tx.(scimUsers := tx.scimUsers[k := ScimRow(row.externalId, role, active, row.version + 1)]);
    if row.role != role || row.active != active {
      tx' := BumpGroupVersions(tx', k.ws, [row.role, role]);
      assert RoleSet([row.role, role]) == {row.role, role};
    }
  }

  /** Keep the mirror row of a membership that now has `role`, creating it if need be. */
  method EnsureScimMembership(tx: Db, k: Key, role: Role) returns (ok: bool, tx': Db)
    requires forall g :: g in tx.scimGroups ==> g.role != Owner
    ensures ok == DefaultExternalFree(tx, k)
    ensures ok && k in tx.scimUsers ==> tx' == MirrorRow(tx, k, role, true)
    ensures ok && k !in tx.scimUsers ==>
      tx' == Bump(tx.(scimUsers := tx.scimUsers[k := ScimRow(k.user, role, true, 1)]), k.ws, {role})
  {
    tx' := tx;
    if k in tx.scimUsers {
      tx' := SyncRow(tx, k, role, true);
      return true, tx';
    }
    if HasExternal(tx, k.ws, k.user) {
      return false, tx;
    }
    tx' := tx.(scimUsers := tx.scimUsers[k := ScimRow(k.user, role, true, 1)]);
    tx' := BumpGroupVersions(tx', k.ws, [role]);
    assert RoleSet([role]) == {role};
    ok := true;
  }

  method EnsureScimGroups(tx: Db, ws: Id) returns (tx': Db)
    ensures tx' == WithGroups(tx, ws)
  {
    tx' := tx;
    var roles := [Admin, Member, Viewer];
    assert tx == GroupsFor(tx, ws, {});
    for i := 0 to |roles|
      invariant tx' == GroupsFor(tx, ws, RoleSet(roles[..i]))
    {
      var g := GroupKey(ws, roles[i]);
      assert roles[..i + 1] == roles[..i] + [roles[i]];
      assert RoleSet(roles[..i + 1]) == RoleSet(roles[..i]) + {roles[i]};
      GroupsForMore(tx, ws, RoleSet(roles[..i]), roles[i], tx');
      if g !in tx'.scimGroups {
        tx' := tx'.(scimGroups := tx'.scimGroups[g := 1]);
      }
    }
    assert RoleSet(roles[..3]) == {Admin, Member, Viewer} by {
      assert roles[..3] == roles;
    }
  }

  lemma GroupsForMore(tx: Db, ws: Id, roles: set<Role>, role: Role, tx': Db)
    requires tx' == GroupsFor(tx, ws, roles)
    ensures var g := GroupKey(ws, role);
      GroupsFor(tx, ws, roles + {role}) ==
      if g in tx'.scimGroups then tx' else tx'.(scimGroups := tx'.scimGroups[g := 1])
  {
  }

  /** The writes of PatchSCIMUser, once it has decided on the new activity. */
  method SetActivity(before: Db, k: Key, active: bool) returns (tx: Db, revoked: set<Key>)
    requires k in before.scimUsers && (k in before.members <==> before.scimUsers[k].active)
    requires k in before.members ==> before.members[k] == before.scimUsers[k].role
    requires forall g :: g in before.scimGroups ==> g.role != Owner
    ensures tx == if active then Join(before, k, before.scimUsers[k].role) else Leave(before, k, before.scimUsers[k].role)
    ensures revoked == before.members.Keys - tx.members.Keys
  {
    tx, revoked := before, {};
    var row := tx.scimUsers[k];
    var current := row.active && k in tx.members;
    if active && !current {
      tx := tx.(members := tx.members[k := row.role]);
    }
    if !active && current {
      tx := tx.(members := tx.members - {k});
      revoked := {k};
    }
    tx := tx.(scimUsers := tx.scimUsers[k := row.(active := active, version := row.version + 1)]);
    assert tx.members == Written(before, k, row, active).members;
    if active != current {
      tx := BumpGroupVersions(tx, k.ws, [row.role]);
      assert RoleSet([row.role]) == {row.role};
    }
    PatchedTables(before, k, row, active, tx);
  }

  /** The writes PatchSCIMGroup makes for one member whose row it has read. */
  method WriteMember(tx: Db, k: Key, role: Role, add: bool, revoked: set<Key>) returns (tx': Db, revoked': set<Key>)
    requires k in tx.scimUsers && (k in tx.members <==> tx.scimUsers[k].active)
    requires k in tx.members ==> tx.members[k] == tx.scimUsers[k].role
    ensures tx' == MemberStep(tx, k, role, add)
    ensures revoked' == revoked + (tx.members.Keys - tx'.members.Keys)
  {
    tx', revoked' := tx, revoked;
    var row := tx.scimUsers[k];
    if add {
      tx' := tx.(members := tx.members[k := role]);
      tx' := tx'.(scimUsers := tx.scimUsers[k := ScimRow(row.externalId, role, true, row.version + 1)]);
    } else if row.active && tx.members[k] == role {
      tx' := tx.(members := tx.members - {k});
      tx' := tx'.(scimUsers := tx.scimUsers[k := row.(active := false, version := row.version + 1)]);
      revoked' := revoked + {k};
    }
  }

  /** An active member added from another role puts that role on the list to bump. */
  method NoteRole(changed: seq<Role>, role: Role, joins: bool, current: Role) returns (changed': seq<Role>)
    ensures RoleSet(changed') == RoleSet(changed) + (if joins && current != role then {current} else {})
  {
    changed' := changed;
    if joins && current != role {
      changed' := changed + [current];
      RoleSetSnoc(changed, current);
    }
  }

  /** After some steps: the tables hold their effect, `changed` lists the groups to bump,
      and `revoked` has those whose sessions and tokens have been revoked. */
  ghost predicate Walked(before: Db, ws: Id, role: Role, steps: seq<Step>, tx: Db, changed: seq<Role>, revoked: set<Key>) {
    && MembershipInv(before) && role != Owner
    && AllNamed(before, ws, steps)
    && tx == Stepped(before, ws, role, steps)
    && RoleSet(changed) == {role} + LosingRoles(before, ws, role, steps)
    && revoked == RevokedBy(before, ws, role, steps)
  }

  /** One named member of one operation: two checks, then the writes. */
  method PatchMember(
    ghost before: Db, ghost steps: seq<Step>, tx: Db, ws: Id, role: Role, add: bool, ext: Id, changed: seq<Role>, revoked: set<Key>)
    returns (fault: Option<Fault>, tx': Db, changed': seq<Role>, revoked': set<Key>)
    requires Walked(before, ws, role, steps, tx, changed, revoked)
    ensures fault == NamedFault(before, ws, ext)
    ensures fault.None? ==> Walked(before, ws, role, steps + [Step(add, ext)], tx', changed', revoked')
  {
    tx', changed', revoked' := tx, changed, revoked;
    SteppedExternals(before, ws, role, steps, ext);
    if !HasExternal(tx, ws, ext) {
      return Some(ScimNotFound), tx', changed', revoked';
    }
    var k :| k in tx.scimUsers && ExternalAt(tx, k, ws, ext);
    var row := tx.scimUsers[k];
    ReadMember(before, ws, role, steps, k, ext);
    var currentRole := if k in tx.members then tx.members[k] else row.role;
    var active := row.active && k in tx.members;
    assert active == row.active && currentRole == row.role;
    if currentRole == Owner {
      return Some(LastOwner), tx', changed', revoked';
    }
    AllNamedSnoc(before, ws, steps, Step(add, ext));
    SteppedSnoc(before, ws, role, steps, k, add);
    LosingSnoc(before, ws, role, steps, k, add);
    changed' := NoteRole(changed, role, add && active, currentRole);
    ChangedGrows(changed, changed', role, LosingRoles(before, ws, role, steps), if add && active && currentRole != role then {currentRole} else {});
    RevokedSnoc(before, ws, role, steps, Step(add, ext));
    tx', revoked' := WriteMember(tx, k, role, add, revoked);
    fault := None;
  }

  /** What the row read inside the transaction says about the state before it. */
  lemma ReadMember(db: Db, ws: Id, role: Role, steps: seq<Step>, k: Key, ext: Id)
    requires MembershipInv(db) && role != Owner && ExternalAt(Stepped(db, ws, role, steps), k, ws, ext)
    requires AllNamed(db, ws, steps)
    ensures k in db.scimUsers && db.scimUsers[k].externalId == ext && HasExternal(db, ws, ext) && KeyOf(db, ws, ext) == k
    ensures var tx := Stepped(db, ws, role, steps);
      && (tx.scimUsers[k].role == Owner) == (db.scimUsers[k].role == Owner)
      && (k in tx.members <==> tx.scimUsers[k].active)
      && (k in tx.members ==> tx.members[k] == tx.scimUsers[k].role)
  {
    SteppedRow(db, ws, role, steps, k);
    SteppedOwner(db, ws, role, steps, k);
    KeyUnique(db, k, ext);
  }

  lemma SteppedExternals(db: Db, ws: Id, role: Role, steps: seq<Step>, ext: Id)
    ensures HasExternal(Stepped(db, ws, role, steps), ws, ext) == HasExternal(db, ws, ext)
  {
    var tx := Stepped(db, ws, role, steps);
    forall k ensures ExternalAt(tx, k, ws, ext) == ExternalAt(db, k, ws, ext) {
      if k in db.scimUsers {
        SteppedRow(db, ws, role, steps, k);
      }
    }
  }

  /** The inner loop of PatchSCIMGroup: the members of one operation. */
  method PatchOperation(
    ghost before: Db, ghost steps: seq<Step>, tx: Db, ws: Id, role: Role, op: Operation, changed: seq<Role>, revoked: set<Key>)
    returns (fault: Option<Fault>, tx': Db, changed': seq<Role>, revoked': set<Key>)
    requires Walked(before, ws, role, steps, tx, changed, revoked)
    ensures fault == MembersFault(before, ws, op.members)
    ensures fault.None? ==> Walked(before, ws, role, steps + StepsOf(op.verb, op.members), tx', changed', revoked')
  {
    tx', changed', revoked', fault := tx, changed, revoked, None;
    ghost var done := steps;
    StepsOfNone(done, op.verb, op.members);
    var j := 0;
    while j < |op.members|
      invariant 0 <= j <= |op.members| && fault == None
      invariant done + StepsOf(op.verb, op.members[j..]) == steps + StepsOf(op.verb, op.members)
      invariant MembersFault(before, ws, op.members[j..]) == MembersFault(before, ws, op.members)
      invariant Walked(before, ws, role, done, tx', changed', revoked')
    {
      var ext := op.members[j];
      MemberFaultMore(before, ws, op.members, j);
      fault, tx', changed', revoked' := PatchMember(before, done, tx', ws, role, op.verb == Add, ext, changed', revoked');
      if fault.Some? {
        return;
      }
      StepsOfMore(done, op.verb, op.members, j);
      done := done + [Step(op.verb == Add, ext)];
      j := j + 1;
    }
    StepsOfNone(done, op.verb, op.members);
  }

  /** The loop of PatchSCIMGroup: operations in order, stopping at the first fault. */
  method PatchMembers(before: Db, ws: Id, role: Role, ops: seq<Operation>)
    returns (fault: Option<Fault>, tx: Db, changed: seq<Role>, revoked: set<Key>)
    requires MembershipInv(before) && role != Owner
    ensures fault == OperationsFault(before, ws, ops)
    ensures fault.None? ==> tx == Stepped(before, ws, role, Steps(ops))
    ensures fault.None? ==> RoleSet(changed) == {role} + LosingRoles(before, ws, role, Steps(ops))
    ensures fault.None? ==> revoked == RevokedBy(before, ws, role, Steps(ops))
  {
    tx, changed, revoked, fault := before, [role], {}, None;
    ghost var steps: seq<Step> := [];
    SteppedNone(before, ws, role);
    assert ops[0..] == ops;
    var i := 0;
    while i < |ops|
      invariant 0 <= i <= |ops| && fault == None
      invariant steps + Steps(ops[i..]) == Steps(ops)
      invariant OperationsFault(before, ws, ops[i..]) == OperationsFault(before, ws, ops)
      invariant Walked(before, ws, role, steps, tx, changed, revoked)
    {
      var op := ops[i];
      FaultMore(before, ws, ops, i);
      if op.verb == Unsupported || op.members == [] {
        return Some(ScimInvalid), tx, changed, revoked;
      }
      fault, tx, changed, revoked := PatchOperation(before, steps, tx, ws, role, op, changed, revoked);
      if fault.Some? {
        return;
      }
      StepsMore(steps, ops, i);
      steps := steps + StepsOf(op.verb, op.members);
      i := i + 1;
    }
    assert ops[i..] == [];
    assert steps == Steps(ops);
  }

  lemma GroupsAlreadyExist(db: Db, ws: Id)
    requires GroupsExist(db) && ws in db.workspaces
    ensures WithGroups(db, ws) == db
  {
    var added := set r | r in {Admin, Member, Viewer} :: GroupKey(ws, r);
    assert added <= db.scimGroups.Keys;
    assert db.scimGroups.Keys + added == db.scimGroups.Keys;
    assert WithGroups(db, ws).scimGroups == db.scimGroups;
  }

  /** The writes Bootstrap and CreateWorkspace share. */
  method FirstMember(before: Db, user: Id, ws: Id) returns (tx: Db)
    requires forall g :: g in before.scimGroups ==> g.role != Owner
    requires forall k :: k in before.scimUsers ==> k.ws != ws
    ensures tx == OpenWorkspace(before, user, ws)
  {
    var k := Key(ws, user);
    tx := before.(workspaces := before.workspaces + {ws});
    tx := tx.(members := tx.members[k := Owner]);
    var _, written := EnsureScimMembership(tx, k, Owner);
    tx := EnsureScimGroups(written, ws);
  }

  class Service {
    var db: Db

    constructor ()
      ensures db == EMPTY
    {
      db := EMPTY;
    }

    method Bootstrap(user: Id, email: Id, ws: Id) returns (fault: Option<Fault>)
      requires Inv(db)
      modifies this
      ensures fault == BootstrapFault(old(db), user, email, ws)
      ensures db == if fault.Some? then old(db) else Bootstrapped(old(db), user, email, ws)
    {
      var tx := db;
      if tx.bootstrapped {
        return Some(AlreadyBootstrapped);
      }
      tx := tx.(bootstrapped := true);
      if user in tx.users || EmailTaken(tx, email) {
        return Some(StorageFailure);
      }
      tx := tx.(users := tx.users[user := email]);
      if ws in tx.workspaces {
        return Some(StorageFailure);
      }
      tx := FirstMember(tx, user, ws);
      db := tx;
      fault := None;
    }

    method CreateWorkspace(user: Id, ws: Id, factorOk: bool, nameOk: bool) returns (fault: Option<Fault>)
      requires Inv(db)
      modifies this
      ensures fault == CreateWorkspaceFault(old(db), user, ws, factorOk, nameOk)
      ensures db == if fault.Some? then old(db) else OpenWorkspace(old(db), user, ws)
    {
      if !factorOk {
        return Some(FactorRequired);
      }
      if !nameOk {
        return Some(InvalidInput);
      }
      if user !in db.users {
        return Some(Forbidden);
      }
      var tx := db;
      if ws in tx.workspaces {
        return Some(StorageFailure);
      }
      tx := FirstMember(tx, user, ws);
      db := tx;
      fault := None;
    }

    method AddMember(actor: Principal, user: Id, role: Role) returns (fault: Option<Fault>)
      requires Inv(db)
      modifies this
      ensures fault == AddMemberFault(old(db), actor, user, role)
      ensures db == if fault.Some? then old(db) else Join(old(db), Key(actor.ws, user), role)
    {
      if !CanDo(db, actor, MembersManage) || role == Owner {
        return Some(Forbidden);
      }
      var tx := db;
      var k := Key(actor.ws, user);
      if k.user !in tx.users || k.ws !in tx.workspaces || k in tx.members {
        return Some(StorageFailure);
      }
      tx := tx.(members := tx.members[k := role]);
      assert SchemaHolds(tx);
      assert DefaultExternalFree(tx, k) == DefaultExternalFree(db, k) by { SameExternals(db, tx, k.ws); }
      var ok;
      ok, tx := EnsureScimMembership(tx, k, role);
      if !ok {
        return Some(StorageFailure);
      }
      db := tx;
      fault := None;
    }

    method ChangeMemberRole(actor: Principal, user: Id, role: Role) returns (fault: Option<Fault>)
      requires Inv(db)
      modifies this
      ensures fault == ChangeMemberRoleFault(old(db), actor, user, role)
      ensures db == if fault.Some? then old(db) else Join(old(db), Key(actor.ws, user), role)
    {
      if !CanDo(db, actor, MembersManage) || role == Owner {
        return Some(Forbidden);
      }
      var tx := db;
      var k := Key(actor.ws, user);
      if k !in tx.members {
        return Some(Forbidden);
      }
      if tx.members[k] == Owner {
        return Some(LastOwner);
      }
      tx := tx.(members := tx.members[k := role]);
      var _, written := EnsureScimMembership(tx, k, role);
      db := written;
      fault := None;
    }

    method TransferOwnership(actor: Principal, user: Id) returns (fault: Option<Fault>)
      requires Inv(db)
      modifies this
      ensures fault == TransferOwnershipFault(old(db), actor, user)
      ensures db == if fault.Some? then old(db) else OwnershipTransferred(old(db), actor, user)
    {
      if !CanDo(db, actor, OwnershipTransfer) || actor.user == user {
        return Some(Forbidden);
      }
      var tx := db;
      var former, next := Key(actor.ws, actor.user), Key(actor.ws, user);
      if former !in tx.members || tx.members[former] != Owner || next !in tx.members {
        return Some(Forbidden);
      }
      tx := tx.(members := tx.members[next := Owner]);
      tx := tx.(members := tx.members[former := Admin]);
      RowFrame(tx, next, Owner, true);
      TransferOrder(db, former, next);
      var _, first := EnsureScimMembership(tx, next, Owner);
      var _, second := EnsureScimMembership(first, former, Admin);
      db := second;
      fault := None;
    }

    method RemoveMember(actor: Principal, user: Id) returns (fault: Option<Fault>)
      requires Inv(db)
      modifies this
      ensures fault == RemoveMemberFault(old(db), actor, user)
      ensures db == if fault.Some? then old(db) else MemberRemoved(old(db), Key(actor.ws, user))
    {
      if !CanDo(db, actor, MembersManage) {
        return Some(Forbidden);
      }
      var tx := db;
      var k := Key(actor.ws, user);
      if k !in tx.members {
        return Some(Forbidden);
      }
      var role := tx.members[k];
      if role == Owner {
        return Some(LastOwner);
      }
      tx := tx.(members := tx.members - {k});
      if k in tx.scimUsers {
        tx := SyncRow(tx, k, role, false);
      }
      db := tx;
      fault := None;
    }

    method DeleteAccount(user: Id) returns (fault: Option<Fault>)
      modifies this
      ensures fault == DeleteAccountFault(old(db), user)
      ensures db == if fault.Some? then old(db) else AccountDeleted(old(db), user)
    {
      var tx := db;
      var owned := set k | k in tx.members && k.user == user && tx.members[k] == Owner;
      assert OwnsSomething(db, user) ==> owned != {} by {
        if OwnsSomething(db, user) {
          var k :| k in db.members && k.user == user && db.members[k] == Owner;
          assert k in owned;
        }
      }
      if |owned| != 0 {
        var k :| k in owned;
        assert OwnsSomething(db, user);
        return Some(OwnedWorkspace);
      }
      tx := tx.(invitations := map i | i in tx.invitations && tx.invitations[i].invitedBy != user :: tx.invitations[i]);
      if user !in tx.users {
        return Some(Forbidden);
      }
      tx := tx.(users := tx.users - {user},
                members := map k | k in tx.members && k.user != user :: tx.members[k],
                scimUsers := map k | k in tx.scimUsers && k.user != user :: tx.scimUsers[k]);
      db := tx;
      fault := None;
    }

    /** Returns the fault, or the key of the mapping it created or replayed. */
    method CreateScimUser(actor: Principal, address: Option<Id>, named: bool, input: ExternalInput, newUser: Id)
      returns (fault: Option<Fault>, key: Option<Key>)
      requires Inv(db)
      modifies this
      ensures var plan := PlanScimCreate(old(db), actor, address, named, input, newUser);
        match plan
        case Refuse(f) => fault == Some(f) && db == old(db)
        case Replay(k) => fault == None && key == Some(k) && db == old(db)
        case Insert(k, ext) => fault == None && key == Some(k) && address.Some? && db == ScimInserted(old(db), k, ext, address.value)
    {
      key := None;
      if !CanDo(db, actor, ScimManage) {
        return Some(Forbidden), None;
      }
      if address.None? || named || input.Malformed? {
        return Some(ScimInvalid), None;
      }
      var tx := db;
      if input.Given? && HasExternal(tx, actor.ws, input.ext) {
        var mapped :| mapped in tx.scimUsers && ExternalAt(tx, mapped, actor.ws, input.ext);
        KeyUnique(tx, mapped, input.ext);
        if mapped.user !in tx.users || tx.users[mapped.user] != address.value {
          return Some(ScimConflict), None;
        }
        return None, Some(mapped);
      }
      var user := newUser;
      if EmailTaken(tx, address.value) {
        var known: Id :| known in tx.users && tx.users[known] == address.value;
        user := known;
      } else if newUser in tx.users {
        return Some(StorageFailure), None;
      } else {
        tx := tx.(users := tx.users[newUser := address.value]);
      }
      var k := Key(actor.ws, user);
      if k in tx.members {
        if input.Absent? && k in tx.scimUsers {
          return None, Some(k);
        }
        return Some(ScimConflict), None;
      }
      var ext := if input.Absent? then user else input.ext;
      if k in tx.scimUsers {
        return Some(ScimConflict), None;
      }
      SameExternals(db, tx, actor.ws);
      if HasExternal(tx, actor.ws, ext) {
        return Some(StorageFailure), None;
      }
      tx := tx.(members := tx.members[k := Member]);
      tx := tx.(scimUsers := tx.scimUsers[k := ScimRow(ext, Member, true, 1)]);
      tx := BumpGroupVersions(tx, actor.ws, [Member]);
      assert RoleSet([Member]) == {Member};
      db := tx;
      return None, Some(k);
    }

    /** `revoked` has those whose sessions, and whose tokens in the workspace, are revoked:
        whoever loses membership. */
    method PatchScimUser(actor: Principal, ext: Id, requested: Option<bool>, immutable: bool, version: int)
      returns (fault: Option<Fault>, revoked: set<Key>)
      requires Inv(db)
      modifies this
      ensures fault == PatchScimUserFault(old(db), actor, ext, requested, immutable, version)
      ensures db == if fault.Some? then old(db) else ScimUserPatched(old(db), KeyOf(old(db), actor.ws, ext), requested)
      ensures revoked == old(db).members.Keys - db.members.Keys
    {
      revoked := {};
      if !CanDo(db, actor, ScimManage) {
        return Some(Forbidden), {};
      }
      if version < 1 {
        return Some(ScimPrecondition), {};
      }
      var tx := db;
      if !HasExternal(tx, actor.ws, ext) {
        return Some(ScimNotFound), {};
      }
      var k :| k in tx.scimUsers && ExternalAt(tx, k, actor.ws, ext);
      KeyUnique(tx, k, ext);
      var row := tx.scimUsers[k];
      if row.version != version {
        return Some(ScimPrecondition), {};
      }
      if immutable {
        return Some(ScimInvalid), {};
      }
      var active := if requested.Some? then requested.value else row.active && k in tx.members;
      if !active && row.role == Owner {
        return Some(LastOwner), {};
      }
      var patched;
      patched, revoked := SetActivity(tx, k, active);
      db := patched;
      fault := None;
    }

    method PatchScimGroup(actor: Principal, group: Option<Role>, ops: seq<Operation>, version: int)
      returns (fault: Option<Fault>, revoked: set<Key>)
      requires Inv(db)
      modifies this
      ensures fault == PatchGroupFault(old(db), actor, group, ops, version)
      ensures db == if fault.Some? then old(db) else GroupPatched(old(db), actor.ws, group.value, Steps(ops))
      ensures revoked == if fault.Some? then {} else RevokedBy(old(db), actor.ws, group.value, Steps(ops))
    {
      if !CanDo(db, actor, ScimManage) {
        return Some(Forbidden), {};
      }
      if version < 1 || ops == [] {
        return Some(ScimInvalid), {};
      }
      var tx := EnsureScimGroups(db, actor.ws);
      GroupsAlreadyExist(db, actor.ws);
      if group.None? || group.value == Owner || GroupKey(actor.ws, group.value) !in tx.scimGroups {
        return Some(ScimNotFound), {};
      }
      var role := group.value;
      if tx.scimGroups[GroupKey(actor.ws, role)] != version {
        return Some(ScimPrecondition), {};
      }
      var changed;
      fault, tx, changed, revoked := PatchMembers(tx, actor.ws, role, ops);
      if fault.Some? {
        return fault, {};
      }
      tx := BumpGroupVersions(tx, actor.ws, changed);
      db := tx;
    }

    /** scim.go, DeleteSCIMUser: deactivation by another name. */
    method DeleteScimUser(actor: Principal, ext: Id, version: int) returns (fault: Option<Fault>, revoked: set<Key>)
      requires Inv(db)
      modifies this
      ensures fault == PatchScimUserFault(old(db), actor, ext, Some(false), false, version)
      ensures db == if fault.Some? then old(db) else ScimUserPatched(old(db), KeyOf(old(db), actor.ws, ext), Some(false))
      ensures revoked == old(db).members.Keys - db.members.Keys
    {
      fault, revoked := PatchScimUser(actor, ext, Some(false), false, version);
    }

    method CreateInvitation(actor: Principal, address: Option<Id>, role: Role, lifetime: int, id: Id, secret: Id, now: int)
      returns (fault: Option<Fault>)
      modifies this
      ensures fault == InviteFault(old(db), actor, address, role, lifetime, id, secret, now)
      ensures db == if fault.Some? then old(db) else Invited(old(db), actor, address.value, role, lifetime, id, secret, now)
    {
      if !CanDo(db, actor, InvitationsManage) || role == Owner {
        return Some(Forbidden);
      }
      var chosen := if lifetime == 0 then DEFAULT_LIFETIME else lifetime;
      if address.None? || chosen < MINUTE || chosen > 30 * DAY {
        return Some(InvalidInput);
      }
      var tx := ExpireInvitations(db, actor.ws, address, now);
      if HasActive(tx, actor.ws, address.value) || MemberHasEmail(tx, actor.ws, address.value) {
        SweepMembers(db, actor.ws, address, now);
        return Some(ActiveInvitation);
      }
      SweepMembers(db, actor.ws, address, now);
      SweepSecrets(db, actor.ws, address, now, secret);
      if id in tx.invitations || SecretTaken(tx, secret) || actor.user !in tx.users {
        return Some(StorageFailure);
      }
      tx := tx.(invitations := tx.invitations[id := NewInvitation(actor, address.value, role, secret, now + chosen)]);
      db := tx;
      fault := None;
    }

    method ResendInvitation(actor: Principal, id: Id, lifetime: int, secret: Id, now: int) returns (fault: Option<Fault>)
      modifies this
      ensures fault == ResendFault(old(db), actor, id, lifetime, secret)
      ensures db == if fault.Some? then old(db) else Resent(old(db), id, lifetime, secret, now)
    {
      if !CanDo(db, actor, InvitationsManage) {
        return Some(Forbidden);
      }
      var chosen := if lifetime == 0 then DEFAULT_LIFETIME else lifetime;
      if chosen < MINUTE || chosen > 30 * DAY {
        return Some(InvalidInvitation);
      }
      var tx := db;
      if id !in tx.invitations || tx.invitations[id].ws != actor.ws || tx.invitations[id].accepted || tx.invitations[id].revoked {
        return Some(InvalidInvitation);
      }
      var inv := tx.invitations[id];
      if !inv.expired && inv.expiresAt <= now {
        inv := MarkExpired(inv);
      }
      if AddressHeld(tx, id, inv.ws, inv.email) || SecretTaken(tx, secret) {
        return Some(InvalidInvitation);
      }
      inv := inv.(secret := secret, activeEmail := Some(inv.email), expiresAt := now + chosen, expired := false);
      db := tx.(invitations := tx.invitations[id := inv]);
      fault := None;
    }

    /** An overdue invitation is marked, and the mark is kept, although the call fails. */
    method RevokeInvitation(actor: Principal, id: Id, now: int) returns (fault: Option<Fault>)
      modifies this
      ensures Outcome(db, fault) == Revoked(old(db), actor, id, now)
    {
      if !CanDo(db, actor, InvitationsManage) {
        return Some(Forbidden);
      }
      var tx := db;
      if id !in tx.invitations || tx.invitations[id].ws != actor.ws || tx.invitations[id].accepted || tx.invitations[id].revoked {
        return Some(InvalidInvitation);
      }
      var inv := tx.invitations[id];
      if inv.expired || inv.expiresAt <= now {
        if !inv.expired {
          db := tx.(invitations := tx.invitations[id := MarkExpired(inv)]);
        }
        return Some(InvalidInvitation);
      }
      db := tx.(invitations := tx.invitations[id := inv.(revoked := true, activeEmail := None)]);
      fault := None;
    }

    method ListInvitations(actor: Principal, now: int) returns (fault: Option<Fault>)
      modifies this
      ensures fault == if CanDo(old(db), actor, InvitationsManage) then None else Some(Forbidden)
      ensures db == if fault.None? then ExpireOverdue(old(db), actor.ws, None, now) else old(db)
    {
      if !CanDo(db, actor, InvitationsManage) {
        return Some(Forbidden);
      }
      db := ExpireInvitations(db, actor.ws, None, now);
      fault := None;
    }

    method AcceptInvitation(secret: Id, user: Id, now: int, later: int) returns (fault: Option<Fault>)
      requires Inv(db)
      modifies this
      ensures Outcome(db, fault) == AcceptedByUser(old(db), secret, user, now, later)
    {
      var tx := db;
      if user !in tx.users || !SecretTaken(tx, secret) {
        return Some(InvalidInvitation);
      }
      var id :| id in tx.invitations && tx.invitations[id].secret == secret;
      FoundIs(tx, secret, id);
      var inv := tx.invitations[id];
      if inv.accepted || inv.expired || inv.revoked {
        return Some(InvalidInvitation);
      }
      if inv.expiresAt <= now {
        db := tx.(invitations := tx.invitations[id := MarkExpired(inv)]);
        return Some(InvalidInvitation);
      }
      if inv.email != tx.users[user] {
        return Some(InvalidInvitation);
      }
      var ok;
      ok, tx := AcceptLoaded(tx, id, user, later);
      if !ok {
        return Some(InvalidInvitation);
      }
      db := tx;
      fault := None;
    }

    method CreateInvitedLocalUser(secret: Id, user: Id, now: int, later: int) returns (fault: Option<Fault>)
      requires Inv(db)
      modifies this
      ensures Outcome(db, fault) == AcceptedByNewUser(old(db), secret, user, now, later)
    {
      var tx := db;
      if !SecretTaken(tx, secret) {
        return Some(InvalidInvitation);
      }
      var id :| id in tx.invitations && tx.invitations[id].secret == secret;
      FoundIs(tx, secret, id);
      var inv := tx.invitations[id];
      if inv.accepted || inv.expired || inv.revoked {
        return Some(InvalidInvitation);
      }
      if inv.expiresAt <= now {
        db := tx.(invitations := tx.invitations[id := MarkExpired(inv)]);
        return Some(InvalidInvitation);
      }
      if EmailTaken(tx, inv.email) || user in tx.users {
        return Some(InvalidInvitation);
      }
      tx := tx.(users := tx.users[user := inv.email]);
      FoundAfter(db, tx, secret, id);
      var ok;
      ok, tx := AcceptLoaded(tx, id, user, later);
      if !ok {
        return Some(InvalidInvitation);
      }
      db := tx;
      fault := None;
    }
  }

  /** The loop of expireInvitations and ListInvitations, one overdue row at a time. */
  method ExpireInvitations(before: Db, ws: Id, email: Option<Id>, now: int) returns (tx: Db)
    ensures tx == ExpireOverdue(before, ws, email, now)
  {
    tx := before;
    var due := Due(before, ws, email, now);
    var marked: set<Id> := {};
    assert before == MarkAll(before, {});
    while due - marked != {}
      invariant marked <= due && tx == MarkAll(before, marked)
      decreases due - marked
    {
      var i :| i in due - marked;
      MarkOneMore(before, marked, i);
      tx := tx.(invitations := tx.invitations[i := MarkExpired(tx.invitations[i])]);
      marked := marked + {i};
    }
    assert marked == due;
  }

  lemma MarkOneMore(db: Db, marked: set<Id>, i: Id)
    requires i in db.invitations && i !in marked
    ensures var tx := MarkAll(db, marked);
      MarkAll(db, marked + {i}) == tx.(invitations := tx.invitations[i := MarkExpired(tx.invitations[i])])
  {
  }

  lemma SweepMembers(db: Db, ws: Id, email: Option<Id>, now: int)
    requires email.Some?
    ensures MemberHasEmail(ExpireOverdue(db, ws, email, now), ws, email.value) == MemberHasEmail(db, ws, email.value)
  {
  }

  method AcceptLoaded(tx: Db, id: Id, user: Id, later: int) returns (ok: bool, tx': Db)
    requires id in tx.invitations && forall g :: g in tx.scimGroups ==> g.role != Owner
    ensures ok == (CanJoin(tx, Key(tx.invitations[id].ws, user)) && later < tx.invitations[id].expiresAt)
    ensures ok ==> tx' == Accepted(tx, id, user)
  {
    tx' := tx;
    var inv := tx.invitations[id];
    var k := Key(inv.ws, user);
    if k.user !in tx.users || k.ws !in tx.workspaces || k in tx.members {
      return false, tx;
    }
    tx' := tx.(members := tx.members[k := inv.role]);
    SameExternals(tx, tx', k.ws);
    ok, tx' := EnsureScimMembership(tx', k, inv.role);
    if !ok || inv.expiresAt <= later {
      return false, tx;
    }
    tx' := tx'.(invitations := tx.invitations[id := inv.(accepted := true, activeEmail := None)]);
    ok := true;
  }

  lemma FoundAfter(db: Db, tx: Db, secret: Id, id: Id)
    requires InvitationsInv(db) && SecretOf(db, id, secret) && tx.invitations == db.invitations
    ensures SecretTaken(tx, secret) && Found(tx, secret) == id
  {
    assert SecretOf(tx, id, secret);
    assert forall i :: SecretOf(tx, i, secret) ==> i == id;
  }

  lemma SameExternals(db: Db, db': Db, ws: Id)
    requires db.scimUsers == db'.scimUsers
    ensures forall e :: HasExternal(db, ws, e) == HasExternal(db', ws, e)
  {
    forall e ensures HasExternal(db, ws, e) == HasExternal(db', ws, e) {
      assert forall k :: ExternalAt(db, k, ws, e) == ExternalAt(db', k, ws, e);
    }
  }

  lemma RowFrame(db: Db, k: Key, role: Role, active: bool)
    requires k in db.scimUsers && forall g :: g in db.scimGroups ==> g.role != Owner
    ensures MirrorRow(db, k, role, active).scimUsers.Keys == db.scimUsers.Keys
    ensures forall g :: g in MirrorRow(db, k, role, active).scimGroups ==> g.role != Owner
  {
  }

  lemma BumpIgnoresMembers(db: Db, members: map<Key, Role>, ws: Id, roles: set<Role>)
    ensures Bump(db.(members := members), ws, roles) == Bump(db, ws, roles).(members := members)
  {
    assert Bump(db.(members := members), ws, roles).scimGroups == Bump(db, ws, roles).scimGroups;
  }

  lemma RowIgnoresMembers(db: Db, members: map<Key, Role>, k: Key, role: Role, active: bool)
    requires k in db.scimUsers
    ensures MirrorRow(db.(members := members), k, role, active) == MirrorRow(db, k, role, active).(members := members)
  {
    var row := db.scimUsers[k];
    var updated := db.(scimUsers := db.scimUsers[k := ScimRow(row.externalId, role, active, row.version + 1)]);
    BumpIgnoresMembers(updated, members, k.ws, {row.role, role});
  }

  lemma RowKeepsMembers(db: Db, k: Key, role: Role, active: bool)
    requires k in db.scimUsers
    ensures MirrorRow(db, k, role, active).members == db.members
    ensures MirrorRow(db, k, role, active).scimUsers.Keys == db.scimUsers.Keys
  {
  }

  /** Writing both roles first and both mirror rows after is the same as joining one after the other. */
  lemma TransferOrder(db: Db, former: Key, next: Key)
    requires former in db.scimUsers && next in db.scimUsers && former != next
    ensures var between := db.(members := db.members[next := Owner][former := Admin]);
      var first := MirrorRow(between, next, Owner, true);
      former in first.scimUsers && MirrorRow(first, former, Admin, true) == Join(Join(db, next, Owner), former, Admin)
  {
    var one := db.members[next := Owner];
    var two := one[former := Admin];
    RowIgnoresMembers(db.(members := one), two, next, Owner, true);
    RowKeepsMembers(db.(members := one), next, Owner, true);
  }

  function Written(db: Db, k: Key, row: ScimRow, active: bool): Db {
    db.(members := if active then db.members[k := row.role] else db.members - {k},
        scimUsers := db.scimUsers[k := ScimRow(row.externalId, row.role, active, row.version + 1)])
  }

  lemma PatchedTables(db: Db, k: Key, row: ScimRow, active: bool, tx: Db)
    requires k in db.scimUsers && row == db.scimUsers[k]
    requires tx == if active == row.active then Written(db, k, row, active) else Bump(Written(db, k, row, active), k.ws, {row.role})
    ensures tx == if active then Join(db, k, row.role) else Leave(db, k, row.role)
  {
    assert {row.role, row.role} == {row.role};
    assert db.scimUsers[k := ScimRow(row.externalId, row.role, active, row.version + 1)] == Written(db, k, row, active).scimUsers;
  }
}
