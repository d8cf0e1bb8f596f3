/** PATCH of a role group (scim.go, PatchSCIMGroup).  The transaction walks the
    operations and rewrites one member at a time; here its outcome is given
    pointwise, row by row, and shown to be the left fold of set union and set
    difference that RFC 7644, sections 3.5.2.1 and 3.5.2.2, describe. */
module GroupPatch {
  import opened Wrappers
  import opened IdentityTables
  import opened Membership

  /** The verb after trimming and lower-casing. */
  datatype Verb = Add | Remove | Unsupported

  datatype Operation = Operation(verb: Verb, members: seq<Id>)

  /** One member of one operation. */
  datatype Step = Step(add: bool, ext: Id)

  function StepsOf(verb: Verb, members: seq<Id>): seq<Step> {
    seq(|members|, i requires 0 <= i < |members| => Step(verb == Add, members[i]))
  }

  function Steps(ops: seq<Operation>): seq<Step> {
    if ops == [] then [] else StepsOf(ops[0].verb, ops[0].members) + Steps(ops[1..])
  }

  // ---------- refusal ----------

  ghost function NamedFault(db: Db, ws: Id, ext: Id): Option<Fault> {
    if !HasExternal(db, ws, ext) then Some(ScimNotFound)
    else if db.scimUsers[KeyOf(db, ws, ext)].role == Owner then Some(LastOwner)
    else None
  }

  ghost function MembersFault(db: Db, ws: Id, members: seq<Id>): Option<Fault> {
    if members == [] then None
    else if NamedFault(db, ws, members[0]).Some? then NamedFault(db, ws, members[0])
    else MembersFault(db, ws, members[1..])
  }

  /** The first thing wrong with the operations, judged on the state before the call. */
  ghost function OperationsFault(db: Db, ws: Id, ops: seq<Operation>): Option<Fault> {
    if ops == [] then None
    else if ops[0].verb == Unsupported || ops[0].members == [] then Some(ScimInvalid)
    else if MembersFault(db, ws, ops[0].members).Some? then MembersFault(db, ws, ops[0].members)
    else OperationsFault(db, ws, ops[1..])
  }

  /** `group` is the role the group id names, None if it names none. */
  ghost function PatchGroupFault(db: Db, actor: Principal, group: Option<Role>, ops: seq<Operation>, version: int): Option<Fault> {
    if !CanDo(db, actor, ScimManage) then Some(Forbidden)
    else if version < 1 || ops == [] then Some(ScimInvalid)
    else if group.None? || group.value == Owner || GroupKey(actor.ws, group.value) !in db.scimGroups then Some(ScimNotFound)
    else if db.scimGroups[GroupKey(actor.ws, group.value)] != version then Some(ScimPrecondition)
    else OperationsFault(db, actor.ws, ops)
  }

  // ---------- effect, row by row ----------

  function StepRow(step: Step, role: Role, row: ScimRow): ScimRow {
    if step.ext != row.externalId then row
    else if step.add then ScimRow(row.externalId, role, true, row.version + 1)
    else if row.active && row.role == role then ScimRow(row.externalId, row.role, false, row.version + 1)
    else row
  }

  function RowAfter(steps: seq<Step>, role: Role, row: ScimRow): ScimRow {
    if steps == [] then row
    else StepRow(steps[|steps| - 1], role, RowAfter(steps[..|steps| - 1], role, row))
  }

  function RowsAfter(db: Db, ws: Id, role: Role, steps: seq<Step>): map<Key, ScimRow> {
    map k | k in db.scimUsers :: if k.ws == ws then RowAfter(steps, role, db.scimUsers[k]) else db.scimUsers[k]
  }

  function ActiveRoles(rows: map<Key, ScimRow>): map<Key, Role> {
    map k | k in rows && rows[k].active :: rows[k].role
  }

  /** Tables after the steps, before any version moves. */
  function Stepped(db: Db, ws: Id, role: Role, steps: seq<Step>): Db {
    var rows := RowsAfter(db, ws, role, steps);
    db.(members := ActiveRoles(rows), scimUsers := rows)
  }

  /** The groups that lose a member to this one. */
  function LosingRoles(db: Db, ws: Id, role: Role, steps: seq<Step>): set<Role> {
    set k | k in db.scimUsers && k.ws == ws && db.scimUsers[k].active && db.scimUsers[k].role != role &&
            Step(true, db.scimUsers[k].externalId) in steps :: db.scimUsers[k].role
  }

  function GroupPatched(db: Db, ws: Id, role: Role, steps: seq<Step>): Db {
    Bump(Stepped(db, ws, role, steps), ws, {role} + LosingRoles(db, ws, role, steps))
  }

  // ---------- effect, as sets ----------

  /** The left fold over the operations: union for add, difference for remove. */
  function FoldOperations(ops: seq<Operation>, s: set<Id>): set<Id> {
    if ops == [] then s
    else
      var named := set e | e in ops[0].members;
      FoldOperations(ops[1..], if ops[0].verb == Add then s + named else s - named)
  }

  function AddedBy(ops: seq<Operation>): set<Id> {
    set i, j | 0 <= i < |ops| && ops[i].verb == Add && 0 <= j < |ops[i].members| :: ops[i].members[j]
  }

  function NamedBy(ops: seq<Operation>): set<Id> {
    set i, j | 0 <= i < |ops| && 0 <= j < |ops[i].members| :: ops[i].members[j]
  }

  function FoldSteps(steps: seq<Step>, s: set<Id>): set<Id> {
    if steps == [] then s
    else
      var before := FoldSteps(steps[..|steps| - 1], s);
      var last := steps[|steps| - 1];
      if last.add then before + {last.ext} else before - {last.ext}
  }

  // ---------- steps and operations ----------

  lemma {:induction false} FoldStepsAppend(a: seq<Step>, b: seq<Step>, s: set<Id>)
    ensures FoldSteps(a + b, s) == FoldSteps(b, FoldSteps(a, s))
    decreases |b|
  {
    if b == [] {
      assert a + b == a;
    } else {
      assert (a + b)[..|a + b| - 1] == a + b[..|b| - 1];
      FoldStepsAppend(a, b[..|b| - 1], s);
    }
  }

  lemma {:induction false} FoldStepsOf(verb: Verb, members: seq<Id>, s: set<Id>)
    ensures FoldSteps(StepsOf(verb, members), s) ==
      if verb == Add then s + (set e | e in members) else s - (set e | e in members)
    decreases |members|
  {
    if members != [] {
      var front := members[..|members| - 1];
      assert StepsOf(verb, members)[..|members| - 1] == StepsOf(verb, front);
      FoldStepsOf(verb, front, s);
      assert (set e | e in members) == (set e | e in front) + {members[|members| - 1]};
    }
  }

  lemma {:induction false} FoldsAgree(ops: seq<Operation>, s: set<Id>)
    ensures FoldSteps(Steps(ops), s) == FoldOperations(ops, s)
  {
    if ops != [] {
      var first := StepsOf(ops[0].verb, ops[0].members);
      FoldStepsAppend(first, Steps(ops[1..]), s);
      FoldStepsOf(ops[0].verb, ops[0].members, s);
      FoldsAgree(ops[1..], FoldSteps(first, s));
    }
  }

  lemma {:induction false} StepsName(ops: seq<Operation>, ext: Id)
    ensures Step(true, ext) in Steps(ops) <==> ext in AddedBy(ops)
    ensures (exists add :: Step(add, ext) in Steps(ops)) <==> ext in NamedBy(ops)
  {
    if ops != [] {
      StepsName(ops[1..], ext);
      var first := StepsOf(ops[0].verb, ops[0].members);
      assert forall j :: 0 <= j < |first| ==> first[j] == Step(ops[0].verb == Add, ops[0].members[j]);
      assert ext in AddedBy(ops) <==> (ops[0].verb == Add && ext in ops[0].members) || ext in AddedBy(ops[1..]) by {
        AddedByCons(ops, ext);
      }
      assert ext in NamedBy(ops) <==> ext in ops[0].members || ext in NamedBy(ops[1..]) by {
        AddedByCons(ops, ext);
      }
      assert forall add :: Step(add, ext) in Steps(ops) <==> Step(add, ext) in first || Step(add, ext) in Steps(ops[1..]);
      if ext in ops[0].members {
        var j :| 0 <= j < |ops[0].members| && ops[0].members[j] == ext;
        assert first[j] == Step(ops[0].verb == Add, ext);
      }
    }
  }

  lemma AddedByCons(ops: seq<Operation>, ext: Id)
    requires ops != []
    ensures ext in AddedBy(ops) <==> (ops[0].verb == Add && ext in ops[0].members) || ext in AddedBy(ops[1..])
    ensures ext in NamedBy(ops) <==> ext in ops[0].members || ext in NamedBy(ops[1..])
  {
    var rest := ops[1..];
    if ext in AddedBy(rest) {
      var i, j :| 0 <= i < |rest| && rest[i].verb == Add && 0 <= j < |rest[i].members| && rest[i].members[j] == ext;
      assert ops[i + 1] == rest[i];
    }
    if ext in NamedBy(rest) {
      var i, j :| 0 <= i < |rest| && 0 <= j < |rest[i].members| && rest[i].members[j] == ext;
      assert ops[i + 1] == rest[i];
    }
    if ext in AddedBy(ops) {
      var i, j :| 0 <= i < |ops| && ops[i].verb == Add && 0 <= j < |ops[i].members| && ops[i].members[j] == ext;
      assert i > 0 ==> rest[i - 1] == ops[i];
    }
    if ext in NamedBy(ops) {
      var i, j :| 0 <= i < |ops| && 0 <= j < |ops[i].members| && ops[i].members[j] == ext;
      assert i > 0 ==> rest[i - 1] == ops[i];
    }
    if ext in ops[0].members {
      var j :| 0 <= j < |ops[0].members| && ops[0].members[j] == ext;
    }
  }

  // ---------- one row through the steps ----------

  lemma {:induction false} RowFold(steps: seq<Step>, role: Role, row: ScimRow, s: set<Id>)
    requires (row.active && row.role == role) == (row.externalId in s)
    ensures RowAfter(steps, role, row).externalId == row.externalId
    ensures var after := RowAfter(steps, role, row);
      (after.active && after.role == role) == (row.externalId in FoldSteps(steps, s))
    decreases |steps|
  {
    if steps != [] {
      RowFold(steps[..|steps| - 1], role, row, s);
    }
  }

  /** A row leaves another group exactly when some step adds it to this one. */
  lemma {:induction false} RowElsewhere(steps: seq<Step>, role: Role, row: ScimRow, other: Role)
    requires other != role
    ensures RowAfter(steps, role, row).externalId == row.externalId
    ensures var after := RowAfter(steps, role, row);
      (after.active && after.role == other) == (row.active && row.role == other && Step(true, row.externalId) !in steps)
    decreases |steps|
  {
    if steps != [] {
      RowElsewhere(steps[..|steps| - 1], role, row, other);
      assert steps == steps[..|steps| - 1] + [steps[|steps| - 1]];
    }
  }

  lemma {:induction false} RowUnnamed(steps: seq<Step>, role: Role, row: ScimRow)
    requires forall add :: Step(add, row.externalId) !in steps
    ensures RowAfter(steps, role, row) == row
    decreases |steps|
  {
    if steps != [] {
      RowUnnamed(steps[..|steps| - 1], role, row);
      assert steps[|steps| - 1] in steps;
      assert steps[|steps| - 1] == Step(steps[|steps| - 1].add, steps[|steps| - 1].ext);
    }
  }

  /** A row is only ever given the patched role, or keeps its own; versions do not fall. */
  lemma {:induction false} RowRole(steps: seq<Step>, role: Role, row: ScimRow)
    ensures var after := RowAfter(steps, role, row);
      after.role == row.role || after.role == role
    ensures row.version <= RowAfter(steps, role, row).version
    ensures RowAfter(steps, role, row).externalId == row.externalId
    ensures RowAfter(steps, role, row).version == row.version ==> RowAfter(steps, role, row) == row
    decreases |steps|
  {
    if steps != [] {
      RowRole(steps[..|steps| - 1], role, row);
    }
  }

  lemma {:induction false} FoldNames(steps: seq<Step>, s: set<Id>, ext: Id)
    requires ext in FoldSteps(steps, s)
    ensures ext in s || exists add :: Step(add, ext) in steps
    decreases |steps|
  {
    if steps != [] {
      var last := steps[|steps| - 1];
      assert Step(last.add, last.ext) in steps;
      if ext in FoldSteps(steps[..|steps| - 1], s) {
        FoldNames(steps[..|steps| - 1], s, ext);
      }
    }
  }

  // ---------- no fault means every named member exists and owns nothing ----------

  lemma {:induction false} NamedExist(db: Db, ws: Id, ops: seq<Operation>, ext: Id)
    requires OperationsFault(db, ws, ops).None? && ext in NamedBy(ops)
    ensures HasExternal(db, ws, ext) && db.scimUsers[KeyOf(db, ws, ext)].role != Owner
  {
    if ops != [] {
      AddedByCons(ops, ext);
      if ext in ops[0].members {
        MemberExists(db, ws, ops[0].members, ext);
      } else {
        NamedExist(db, ws, ops[1..], ext);
      }
    }
  }

  lemma {:induction false} MemberExists(db: Db, ws: Id, members: seq<Id>, ext: Id)
    requires MembersFault(db, ws, members).None? && ext in members
    ensures HasExternal(db, ws, ext) && db.scimUsers[KeyOf(db, ws, ext)].role != Owner
  {
    if members[0] != ext {
      MemberExists(db, ws, members[1..], ext);
    }
  }

  /** External ids are unique in a workspace, so the key is determined. */
  lemma KeyUnique(db: Db, k: Key, ext: Id)
    requires SchemaHolds(db) && ExternalAt(db, k, k.ws, ext)
    ensures HasExternal(db, k.ws, ext) && KeyOf(db, k.ws, ext) == k
  {
  }

  // ---------- the theorems ----------

  lemma PatchedInGroup(db: Db, ws: Id, role: Role, steps: seq<Step>, k: Key, r: Role)
    requires k in db.scimUsers && k.ws == ws
    ensures var after := RowAfter(steps, role, db.scimUsers[k]);
      InGroup(GroupPatched(db, ws, role, steps), k, r) == (after.active && after.role == r)
  {
  }

  lemma ListedIffInGroup(db: Db, k: Key, role: Role)
    requires SchemaHolds(db) && k in db.scimUsers
    ensures (db.scimUsers[k].externalId in GroupMembers(db, k.ws, role)) == InGroup(db, k, role)
  {
    if db.scimUsers[k].externalId in GroupMembers(db, k.ws, role) {
      var j :| j in db.scimUsers && j.ws == k.ws && InGroup(db, j, role) && db.scimUsers[j].externalId == db.scimUsers[k].externalId;
      assert j == k;
    }
  }

  /** To know a group's member list, decide each existing row. */
  lemma GroupMembersAre(db: Db, db': Db, ws: Id, role: Role, target: set<Id>)
    requires db'.scimUsers.Keys == db.scimUsers.Keys
    requires forall k :: k in db.scimUsers && k.ws == ws ==>
      && db'.scimUsers[k].externalId == db.scimUsers[k].externalId
      && InGroup(db', k, role) == (db.scimUsers[k].externalId in target)
    requires forall e :: e in target ==> HasExternal(db, ws, e)
    ensures GroupMembers(db', ws, role) == target
  {
    forall e | e in target ensures e in GroupMembers(db', ws, role) {
      var k := KeyOf(db, ws, e);
      assert InGroup(db', k, role);
    }
  }

  lemma FoldAtRow(db: Db, ws: Id, role: Role, ops: seq<Operation>, k: Key)
    requires MembershipInv(db) && k in db.scimUsers && k.ws == ws
    ensures var db' := GroupPatched(db, ws, role, Steps(ops));
      && k in db'.scimUsers
      && db'.scimUsers[k].externalId == db.scimUsers[k].externalId
      && InGroup(db', k, role) == (db.scimUsers[k].externalId in FoldOperations(ops, GroupMembers(db, ws, role)))
  {
    var s := GroupMembers(db, ws, role);
    FoldsAgree(ops, s);
    ListedIffInGroup(db, k, role);
    RowFold(Steps(ops), role, db.scimUsers[k], s);
    PatchedInGroup(db, ws, role, Steps(ops), k, role);
  }

  lemma FoldExists(db: Db, ws: Id, role: Role, ops: seq<Operation>, ext: Id)
    requires MembershipInv(db) && OperationsFault(db, ws, ops).None?
    requires ext in FoldOperations(ops, GroupMembers(db, ws, role))
    ensures HasExternal(db, ws, ext)
  {
    var s := GroupMembers(db, ws, role);
    FoldsAgree(ops, s);
    FoldNames(Steps(ops), s, ext);
    if ext in s {
      var k :| k in db.scimUsers && k.ws == ws && InGroup(db, k, role) && db.scimUsers[k].externalId == ext;
      assert ExternalAt(db, k, ws, ext);
    } else {
      StepsName(ops, ext);
      NamedExist(db, ws, ops, ext);
    }
  }

  /** The patched group is the fold of its old member list over the operations. */
  lemma PatchIsFold(db: Db, ws: Id, role: Role, ops: seq<Operation>)
    requires MembershipInv(db) && OperationsFault(db, ws, ops).None?
    ensures GroupMembers(GroupPatched(db, ws, role, Steps(ops)), ws, role) == FoldOperations(ops, GroupMembers(db, ws, role))
  {
    var target := FoldOperations(ops, GroupMembers(db, ws, role));
    forall k | k in db.scimUsers && k.ws == ws { FoldAtRow(db, ws, role, ops, k); }
    forall e | e in target { FoldExists(db, ws, role, ops, e); }
    GroupMembersAre(db, GroupPatched(db, ws, role, Steps(ops)), ws, role, target);
  }

  lemma ElsewhereAtRow(db: Db, ws: Id, role: Role, ops: seq<Operation>, other: Role, k: Key)
    requires MembershipInv(db) && other != role && k in db.scimUsers && k.ws == ws
    ensures var db' := GroupPatched(db, ws, role, Steps(ops));
      && k in db'.scimUsers
      && db'.scimUsers[k].externalId == db.scimUsers[k].externalId
      && InGroup(db', k, other) == (db.scimUsers[k].externalId in GroupMembers(db, ws, other) - AddedBy(ops))
  {
    ListedIffInGroup(db, k, other);
    RowElsewhere(Steps(ops), role, db.scimUsers[k], other);
    PatchedInGroup(db, ws, role, Steps(ops), k, other);
    StepsName(ops, db.scimUsers[k].externalId);
  }

  /** Every other group of the workspace loses exactly the members that were added to this one. */
  lemma PatchElsewhere(db: Db, ws: Id, role: Role, ops: seq<Operation>, other: Role)
    requires MembershipInv(db) && other != role
    ensures GroupMembers(GroupPatched(db, ws, role, Steps(ops)), ws, other) == GroupMembers(db, ws, other) - AddedBy(ops)
  {
    forall k | k in db.scimUsers && k.ws == ws { ElsewhereAtRow(db, ws, role, ops, other, k); }
    forall e | e in GroupMembers(db, ws, other) ensures HasExternal(db, ws, e) {
      var k :| k in db.scimUsers && k.ws == ws && InGroup(db, k, other) && db.scimUsers[k].externalId == e;
      assert ExternalAt(db, k, ws, e);
    }
    GroupMembersAre(db, GroupPatched(db, ws, role, Steps(ops)), ws, other, GroupMembers(db, ws, other) - AddedBy(ops));
  }

  /** A user no operation names keeps their row and their membership; so does everyone elsewhere. */
  lemma PatchLeavesUnnamed(db: Db, ws: Id, role: Role, ops: seq<Operation>, k: Key)
    requires MembershipInv(db) && k in db.scimUsers
    requires k.ws != ws || db.scimUsers[k].externalId !in NamedBy(ops)
    ensures var db' := GroupPatched(db, ws, role, Steps(ops));
      && k in db'.scimUsers && db'.scimUsers[k] == db.scimUsers[k]
      && (k in db'.members <==> k in db.members)
      && (k in db.members ==> db'.members[k] == db.members[k])
  {
    if k.ws == ws {
      StepsName(ops, db.scimUsers[k].externalId);
      assert forall add :: Step(add, db.scimUsers[k].externalId) !in Steps(ops);
      RowUnnamed(Steps(ops), role, db.scimUsers[k]);
    }
  }

  lemma PatchOwners(db: Db, ws: Id, role: Role, ops: seq<Operation>)
    requires MembershipInv(db) && role != Owner && OperationsFault(db, ws, ops).None?
    ensures forall k :: OwnerAt(db, k) == OwnerAt(GroupPatched(db, ws, role, Steps(ops)), k)
  {
    var db' := GroupPatched(db, ws, role, Steps(ops));
    forall k ensures OwnerAt(db, k) == OwnerAt(db', k) {
      if k in db.scimUsers && k.ws == ws {
        var row := db.scimUsers[k];
        RowRole(Steps(ops), role, row);
        if row.role == Owner {
          if row.externalId in NamedBy(ops) {
            NamedExist(db, ws, ops, row.externalId);
            KeyUnique(db, k, row.externalId);
            assert false;
          }
          PatchLeavesUnnamed(db, ws, role, ops, k);
        }
      } else if k in db.scimUsers {
        PatchLeavesUnnamed(db, ws, role, ops, k);
      }
    }
  }

  lemma PatchKeepsRows(db: Db, ws: Id, role: Role, ops: seq<Operation>)
    requires MembershipInv(db) && role != Owner && OperationsFault(db, ws, ops).None?
    ensures var db' := GroupPatched(db, ws, role, Steps(ops));
      SchemaHolds(db') && GroupsExist(db') && MirrorAgrees(db')
  {
    forall k | k in db.scimUsers && k.ws == ws
      ensures RowAfter(Steps(ops), role, db.scimUsers[k]).externalId == db.scimUsers[k].externalId
    {
      RowRole(Steps(ops), role, db.scimUsers[k]);
    }
  }

  lemma PatchNoInactiveOwner(db: Db, ws: Id, role: Role, ops: seq<Operation>)
    requires MembershipInv(db) && role != Owner && OperationsFault(db, ws, ops).None?
    ensures NoInactiveOwner(GroupPatched(db, ws, role, Steps(ops)))
  {
    var db' := GroupPatched(db, ws, role, Steps(ops));
    forall k | k in db'.scimUsers && !db'.scimUsers[k].active ensures db'.scimUsers[k].role != Owner {
      if k.ws == ws {
        RowRole(Steps(ops), role, db.scimUsers[k]);
        if db.scimUsers[k].role == Owner {
          PatchOwners(db, ws, role, ops);
          assert OwnerAt(db, k);
          assert false;
        }
      }
    }
  }

  lemma PatchKeeps(db: Db, ws: Id, role: Role, ops: seq<Operation>)
    requires MembershipInv(db) && role != Owner && OperationsFault(db, ws, ops).None?
    ensures MembershipInv(GroupPatched(db, ws, role, Steps(ops)))
  {
    PatchKeepsRows(db, ws, role, ops);
    PatchNoInactiveOwner(db, ws, role, ops);
    PatchOwners(db, ws, role, ops);
    OwnersUntouched(db, GroupPatched(db, ws, role, Steps(ops)));
  }

  /** The patched group's version rises by one, and so does that of every group that loses a member. */
  lemma PatchEtags(db: Db, ws: Id, role: Role, ops: seq<Operation>)
    requires MembershipInv(db) && role != Owner && OperationsFault(db, ws, ops).None?
    ensures EtagsSound(db, GroupPatched(db, ws, role, Steps(ops)))
    ensures GroupKey(ws, role) in db.scimGroups ==>
      GroupPatched(db, ws, role, Steps(ops)).scimGroups[GroupKey(ws, role)] == db.scimGroups[GroupKey(ws, role)] + 1
  {
    var db' := GroupPatched(db, ws, role, Steps(ops));
    forall g | g in db.scimGroups && db'.scimGroups[g] <= db.scimGroups[g]
      ensures GroupMembers(db, g.ws, g.role) == GroupMembers(db', g.ws, g.role)
    {
      forall k: Key | k.ws == g.ws
        ensures InGroup(db, k, g.role) == InGroup(db', k, g.role)
        ensures InGroup(db, k, g.role) && InGroup(db', k, g.role) ==> db.scimUsers[k].externalId == db'.scimUsers[k].externalId
      {
        StillInGroup(db, ws, role, Steps(ops), k, g.role);
      }
      SameGroup(db, db', g.ws, g.role);
    }
  }

  /** A user stays in or out of every group whose version does not move. */
  lemma StillInGroup(db: Db, ws: Id, role: Role, steps: seq<Step>, k: Key, other: Role)
    requires MembershipInv(db)
    requires k.ws == ws ==> other !in {role} + LosingRoles(db, ws, role, steps)
    ensures var db' := GroupPatched(db, ws, role, steps);
      && InGroup(db, k, other) == InGroup(db', k, other)
      && (InGroup(db, k, other) && InGroup(db', k, other) ==> db.scimUsers[k].externalId == db'.scimUsers[k].externalId)
  {
    if k in db.scimUsers && k.ws == ws {
      RowElsewhere(steps, role, db.scimUsers[k], other);
      PatchedInGroup(db, ws, role, steps, k, other);
      NotAdded(db, ws, role, steps, k, other);
    } else if k in db.scimUsers {
      OutsideRow(db, ws, role, steps, k);
    }
  }

  lemma NotAdded(db: Db, ws: Id, role: Role, steps: seq<Step>, k: Key, other: Role)
    requires k in db.scimUsers && k.ws == ws && other !in {role} + LosingRoles(db, ws, role, steps)
    ensures db.scimUsers[k].active && db.scimUsers[k].role == other ==> Step(true, db.scimUsers[k].externalId) !in steps
  {
  }

  lemma OutsideRow(db: Db, ws: Id, role: Role, steps: seq<Step>, k: Key)
    requires MirrorAgrees(db) && k in db.scimUsers && k.ws != ws
    ensures var db' := GroupPatched(db, ws, role, steps);
      && k in db'.scimUsers && db'.scimUsers[k] == db.scimUsers[k]
      && (k in db'.members <==> k in db.members)
      && (k in db.members ==> db'.members[k] == db.members[k])
  {
  }

  // ---------- one more step ----------

  lemma RowSnoc(steps: seq<Step>, step: Step, role: Role, row: ScimRow)
    ensures RowAfter(steps + [step], role, row) == StepRow(step, role, RowAfter(steps, role, row))
  {
    assert (steps + [step])[..|steps|] == steps;
  }

  /** The writes for one named member, on tables that already hold the earlier steps. */
  function MemberStep(tx: Db, k: Key, role: Role, add: bool): Db
    requires k in tx.scimUsers
  {
    var row := StepRow(Step(add, tx.scimUsers[k].externalId), role, tx.scimUsers[k]);
    tx.(members := if row.active then tx.members[k := row.role] else tx.members - {k},
        scimUsers := tx.scimUsers[k := row])
  }

  lemma SteppedRow(db: Db, ws: Id, role: Role, steps: seq<Step>, k: Key)
    requires k in db.scimUsers
    ensures var tx := Stepped(db, ws, role, steps);
      && k in tx.scimUsers
      && tx.scimUsers[k] == (if k.ws == ws then RowAfter(steps, role, db.scimUsers[k]) else db.scimUsers[k])
      && tx.scimUsers[k].externalId == db.scimUsers[k].externalId
      && (k in tx.members <==> tx.scimUsers[k].active)
      && (k in tx.members ==> tx.members[k] == tx.scimUsers[k].role)
  {
    RowRole(steps, role, db.scimUsers[k]);
  }

  /** A step for one user leaves the rows of all others alone. */
  lemma SteppedSnocRow(db: Db, ws: Id, role: Role, steps: seq<Step>, step: Step, k: Key, j: Key)
    requires SchemaHolds(db) && k in db.scimUsers && k.ws == ws && j in db.scimUsers && j.ws == ws
    requires step.ext == db.scimUsers[k].externalId
    ensures var row := RowAfter(steps, role, db.scimUsers[j]);
      RowAfter(steps + [step], role, db.scimUsers[j]) == if j == k then StepRow(step, role, row) else row
  {
    RowSnoc(steps, step, role, db.scimUsers[j]);
    RowRole(steps, role, db.scimUsers[j]);
  }

  lemma RowsSnoc(db: Db, ws: Id, role: Role, steps: seq<Step>, step: Step, k: Key)
    requires SchemaHolds(db) && k in db.scimUsers && k.ws == ws && step.ext == db.scimUsers[k].externalId
    ensures var rows := RowsAfter(db, ws, role, steps);
      RowsAfter(db, ws, role, steps + [step]) == rows[k := StepRow(step, role, rows[k])]
  {
    forall j | j in db.scimUsers && j.ws == ws { SteppedSnocRow(db, ws, role, steps, step, k, j); }
  }

  /** Rewriting one member is what one more step does to every row. */
  lemma SteppedSnoc(db: Db, ws: Id, role: Role, steps: seq<Step>, k: Key, add: bool)
    requires SchemaHolds(db) && k in db.scimUsers && k.ws == ws
    ensures k in Stepped(db, ws, role, steps).scimUsers
    ensures Stepped(db, ws, role, steps + [Step(add, db.scimUsers[k].externalId)])
      == MemberStep(Stepped(db, ws, role, steps), k, role, add)
  {
    var step := Step(add, db.scimUsers[k].externalId);
    RowsSnoc(db, ws, role, steps, step, k);
    RowRole(steps, role, db.scimUsers[k]);
    var rows := RowsAfter(db, ws, role, steps);
    ActiveSnoc(rows, k, StepRow(step, role, rows[k]));
  }

  lemma ActiveSnoc(rows: map<Key, ScimRow>, k: Key, row: ScimRow)
    requires k in rows
    ensures ActiveRoles(rows[k := row]) == if row.active then ActiveRoles(rows)[k := row.role] else ActiveRoles(rows) - {k}
  {
  }

  lemma SteppedNone(db: Db, ws: Id, role: Role)
    requires MirrorAgrees(db)
    ensures Stepped(db, ws, role, []) == db
    ensures LosingRoles(db, ws, role, []) == {}
  {
    assert RowsAfter(db, ws, role, []) == db.scimUsers;
    assert ActiveRoles(db.scimUsers) == db.members;
  }

  /** A group starts losing members to this one when an active user of it is first added. */
  lemma LosingSnoc(db: Db, ws: Id, role: Role, steps: seq<Step>, k: Key, add: bool)
    requires MembershipInv(db) && k in db.scimUsers && k.ws == ws
    ensures var tx := Stepped(db, ws, role, steps);
      && k in tx.scimUsers
      && LosingRoles(db, ws, role, steps + [Step(add, db.scimUsers[k].externalId)])
           == LosingRoles(db, ws, role, steps)
              + (if add && tx.scimUsers[k].active && tx.scimUsers[k].role != role then {tx.scimUsers[k].role} else {})
  {
    var row := db.scimUsers[k];
    var step := Step(add, row.externalId);
    SteppedRow(db, ws, role, steps, k);
    var now := Stepped(db, ws, role, steps).scimUsers[k];
    if now.role != role {
      RowElsewhere(steps, role, row, now.role);
    }
    if row.role != role {
      RowElsewhere(steps, role, row, row.role);
    }
    LosingOneMore(db, ws, role, steps, k, add);
  }

  lemma LosingOneMore(db: Db, ws: Id, role: Role, steps: seq<Step>, k: Key, add: bool)
    requires SchemaHolds(db) && k in db.scimUsers && k.ws == ws
    ensures var row := db.scimUsers[k];
      LosingRoles(db, ws, role, steps + [Step(add, row.externalId)])
        == LosingRoles(db, ws, role, steps)
           + (if add && row.active && row.role != role && Step(true, row.externalId) !in steps then {row.role} else {})
  {
    var row := db.scimUsers[k];
    var more := steps + [Step(add, row.externalId)];
    forall r | r in LosingRoles(db, ws, role, more) && r !in LosingRoles(db, ws, role, steps)
      ensures add && row.active && row.role == r && r != role && Step(true, row.externalId) !in steps
    {
      var j :| j in db.scimUsers && j.ws == ws && db.scimUsers[j].active && db.scimUsers[j].role != role &&
        Step(true, db.scimUsers[j].externalId) in more && db.scimUsers[j].role == r;
      assert Step(true, db.scimUsers[j].externalId) !in steps;
      assert j == k;
    }
    forall r | r in LosingRoles(db, ws, role, steps) ensures r in LosingRoles(db, ws, role, more) {
      var j :| j in db.scimUsers && j.ws == ws && db.scimUsers[j].active && db.scimUsers[j].role != role &&
        Step(true, db.scimUsers[j].externalId) in steps && db.scimUsers[j].role == r;
      assert Step(true, db.scimUsers[j].externalId) in more;
    }
    if add && row.active && row.role != role {
      assert Step(true, row.externalId) in more;
    }
  }

  /** Nobody the steps have not named has changed, so owners still show as owners. */
  lemma SteppedOwner(db: Db, ws: Id, role: Role, steps: seq<Step>, k: Key)
    requires MembershipInv(db) && k in db.scimUsers && k.ws == ws && role != Owner
    requires AllNamed(db, ws, steps)
    ensures k in Stepped(db, ws, role, steps).scimUsers
    ensures (Stepped(db, ws, role, steps).scimUsers[k].role == Owner) == (db.scimUsers[k].role == Owner)
  {
    var row := db.scimUsers[k];
    SteppedRow(db, ws, role, steps, k);
    RowRole(steps, role, row);
    if row.role == Owner {
      KeyUnique(db, k, row.externalId);
      assert NamedFault(db, ws, row.externalId).Some?;
      forall add ensures Step(add, row.externalId) !in steps {
        if Step(add, row.externalId) in steps {
          AllNamedAt(db, ws, steps, Step(add, row.externalId));
        }
      }
      RowUnnamed(steps, role, row);
    }
  }

  /** No step so far names a missing user or an owner. */
  ghost predicate AllNamed(db: Db, ws: Id, steps: seq<Step>) {
    steps == [] || (NamedFault(db, ws, steps[|steps| - 1].ext).None? && AllNamed(db, ws, steps[..|steps| - 1]))
  }

  lemma AllNamedSnoc(db: Db, ws: Id, steps: seq<Step>, step: Step)
    requires AllNamed(db, ws, steps) && NamedFault(db, ws, step.ext).None?
    ensures AllNamed(db, ws, steps + [step])
  {
    assert (steps + [step])[..|steps|] == steps;
  }

  lemma {:induction false} AllNamedAt(db: Db, ws: Id, steps: seq<Step>, step: Step)
    requires AllNamed(db, ws, steps) && step in steps
    ensures NamedFault(db, ws, step.ext).None?
    decreases |steps|
  {
    if step != steps[|steps| - 1] {
      AllNamedAt(db, ws, steps[..|steps| - 1], step);
    }
  }

  // ---------- who is logged out ----------

  /** Those a step takes out of the workspace; their sessions and tokens are revoked with it. */
  function RevokedBy(db: Db, ws: Id, role: Role, steps: seq<Step>): set<Key> {
    if steps == [] then {}
    else
      var front := steps[..|steps| - 1];
      RevokedBy(db, ws, role, front) + (Stepped(db, ws, role, front).members.Keys - Stepped(db, ws, role, steps).members.Keys)
  }

  lemma RevokedSnoc(db: Db, ws: Id, role: Role, steps: seq<Step>, step: Step)
    ensures RevokedBy(db, ws, role, steps + [step]) == RevokedBy(db, ws, role, steps)
      + (Stepped(db, ws, role, steps).members.Keys - Stepped(db, ws, role, steps + [step]).members.Keys)
  {
    assert (steps + [step])[..|steps|] == steps;
  }

  /** One step makes a member of whom it adds, and takes out only whom it removes. */
  lemma StepMoves(db: Db, ws: Id, role: Role, steps: seq<Step>, k: Key)
    requires steps != []
    ensures var front, step := steps[..|steps| - 1], steps[|steps| - 1];
      var had, has := k in Stepped(db, ws, role, front).members, k in Stepped(db, ws, role, steps).members;
      && (had && !has ==> k in db.scimUsers && k.ws == ws && step == Step(false, db.scimUsers[k].externalId))
      && (!had && has ==> k in db.scimUsers && k.ws == ws && step == Step(true, db.scimUsers[k].externalId))
  {
    var front := steps[..|steps| - 1];
    if k in db.scimUsers {
      SteppedRow(db, ws, role, front, k);
      SteppedRow(db, ws, role, steps, k);
    }
  }

  predicate Names(db: Db, k: Key, add: bool, steps: seq<Step>) {
    k in db.scimUsers && Step(add, db.scimUsers[k].externalId) in steps
  }

  lemma {:induction false} RevokedAre(db: Db, ws: Id, role: Role, steps: seq<Step>, k: Key)
    requires MirrorAgrees(db)
    ensures var has := k in Stepped(db, ws, role, steps).members;
      && (k in db.members && !has ==> k in RevokedBy(db, ws, role, steps))
      && (k !in db.members && has ==> Names(db, k, true, steps))
      && (k in RevokedBy(db, ws, role, steps) ==> k.ws == ws && Names(db, k, false, steps))
      && (k in RevokedBy(db, ws, role, steps) && (has || k !in db.members) ==> Names(db, k, true, steps))
    decreases |steps|
  {
    if steps == [] {
      SteppedNone(db, ws, role);
    } else {
      var front, step := steps[..|steps| - 1], steps[|steps| - 1];
      RevokedAre(db, ws, role, front, k);
      StepMoves(db, ws, role, steps, k);
      assert step in steps && forall x :: x in front ==> x in steps;
    }
  }

  /** Whoever loses membership by a patch is logged out; whoever is logged out without
      losing it, or without having had it, was both added and removed. */
  lemma PatchLogsOut(db: Db, ws: Id, role: Role, steps: seq<Step>, k: Key)
    requires MirrorAgrees(db)
    ensures var revoked := RevokedBy(db, ws, role, steps); var lost := k in db.members && k !in GroupPatched(db, ws, role, steps).members;
      && (lost ==> k in revoked)
      && (k in revoked ==> k.ws == ws && Names(db, k, false, steps) && (lost || Names(db, k, true, steps)))
  {
    RevokedAre(db, ws, role, steps, k);
  }
}
