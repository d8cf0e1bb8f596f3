/** Runs of the item service.  Creates take two steps, because the record they
    rely on is read when their transaction begins; any other write may come in
    between.  The log has all committed changes in the order they were recorded, the
    history has them transaction by transaction, each transaction's by key; the
    service itself keeps only the end of either. */
module ItemRuns {
  import opened Wrappers
  import opened ItemTables
  import opened ChangeFeed
  import opened ItemOps
  import Outbox

  /** A create whose transaction has begun: its clock reading and the record it saw. */
  datatype Begun = Begun(call: CreateCall, now: int, seen: Option<Record>)

  datatype Store = Store(db: Db, begun: map<Id, Begun>, log: seq<Change>, history: seq<Change>)

  datatype Op =
    | Begin(tx: Id, call: CreateCall, now: int)
    | FinishCreate(tx: Id, draw: Draw)
    | Update(authorized: bool, ws: Id, id: Id, version: int, edit: Edit, now: int, draw: Draw)
    | Delete(authorized: bool, ws: Id, id: Id, version: int, now: int, draw: Draw)
    | Import(authorized: bool, actor: Actor, ws: Id, rows: seq<ImportRow>, now: int, draws: seq<Draw>)

  const FRESH := Store(EMPTY, map[], [], [])

  /** Ids are random: a draw that repeats one already used does not happen. */
  predicate Unused(log: seq<Change>, draw: Draw) {
    forall i | 0 <= i < |log| :: log[i].item != draw.item && log[i].id != draw.event
  }

  predicate AllUnused(log: seq<Change>, draws: seq<Draw>) {
    && (forall i | 0 <= i < |draws| :: Unused(log, draws[i]))
    && (forall i, j | 0 <= i < j < |draws| :: draws[i].item != draws[j].item && draws[i].event != draws[j].event)
  }

  function Decision(s: Store, op: Op, most: int): Outcome
    requires op.FinishCreate? && op.tx in s.begun
  {
    CreateDecision(s.db, s.begun[op.tx].seen, s.begun[op.tx].call, s.begun[op.tx].now, op.draw, most)
  }

  /** The change an operation on one item commits, if it commits one. */
  function ChangeOf(s: Store, op: Op, most: int): Option<Change> {
    match op
    case FinishCreate(tx, draw) =>
      if Unused(s.log, draw) && tx in s.begun && Decision(s, op, most).Made?
      then Some(CreatedEvent(Decision(s, op, most).item, draw.event)) else None
    case Update(authorized, ws, id, version, edit, now, draw) =>
      if !Unused(s.log, draw) || UpdateFault(s.db, authorized, ws, id, version, edit, draw).Some? then None
      else Some(UpdatedEvent(EditedItem(s.db.items[id], edit, now), draw.event))
    case Delete(authorized, ws, id, version, now, draw) =>
      if !Unused(s.log, draw) || DeleteFault(s.db, authorized, ws, id, version, draw).Some? then None
      else Some(DeletedEvent(s.db.items[id], draw.event, now))
    case _ => None
  }

  function DbAfter(s: Store, op: Op, most: int): Db
    requires ChangeOf(s, op, most).Some?
  {
    match op
    case FinishCreate(tx, draw) => CreateEffect(s.db, s.begun[tx].call, Decision(s, op, most).item, draw)
    case Update(_, ws, id, _, edit, now, draw) => UpdateEffect(s.db, EditedItem(s.db.items[id], edit, now), draw)
    case Delete(_, ws, id, _, now, draw) => DeleteEffect(s.db, s.db.items[id], now, draw)
  }

  function EventsOf(items: seq<Item>, draws: seq<Draw>): seq<Change>
    requires |items| <= |draws|
  {
    seq(|items|, i requires 0 <= i < |items| => CreatedEvent(items[i], draws[i].event))
  }

  /** An import commits all of its rows, or none. */
  function ImportStore(s: Store, op: Op, most: int): Store
    requires op.Import?
  {
    if !AllUnused(s.log, op.draws) || |op.rows| > |op.draws| then s
    else
      match ImportResult(s.db, op.authorized, op.actor, op.ws, op.rows, op.now, op.draws, most)
      case Stopped(_) => s
      case Stored(db, items) =>
        Store(db, s.begun, s.log + EventsOf(items, op.draws), s.history + ByKey(EventsOf(items, op.draws)))
  }

  function BegunAfter(s: Store, op: Op): map<Id, Begun> {
    match op
    case Begin(tx, call, now) => s.begun[tx := Begun(call, now, Lookup(s.db, KeyOfCall(call)))]
    case FinishCreate(tx, _) => s.begun - {tx}
    case _ => s.begun
  }

  function Apply(s: Store, op: Op, most: int): Store {
    if op.Import? then ImportStore(s, op, most)
    else if ChangeOf(s, op, most).Some? then
      var c := ChangeOf(s, op, most).value;
      Store(DbAfter(s, op, most), BegunAfter(s, op), s.log + [c], s.history + [c])
    else s.(begun := BegunAfter(s, op))
  }

  function Run(s: Store, ops: seq<Op>, most: int): Store
    decreases |ops|
  {
    if ops == [] then s else Run(Apply(s, ops[0], most), ops[1..], most)
  }

  // ---------- replaying the log ----------

  function Replayed1(versions: map<Id, int>, c: Change): map<Id, int> {
    match c.action
    case Created => versions[c.item := 1]
    case Updated => versions[c.item := c.version]
    case Deleted => versions - {c.item}
  }

  /** What a reader of all changes knows: which items live, at which version. */
  function Replay(log: seq<Change>): map<Id, int> {
    if log == [] then map[] else Replayed1(Replay(log[..|log| - 1]), log[|log| - 1])
  }

  function Versions(items: map<Id, Item>): map<Id, int> {
    map i | i in items :: items[i].version
  }

  /** A change continues its item's versions: it creates an item at version 1, or
      it takes a live one to the next version. */
  predicate Continues(versions: map<Id, int>, c: Change) {
    if c.action == Created then c.item !in versions && c.version == 1
    else c.item in versions && c.version == versions[c.item] + 1
  }

  predicate Contiguous(log: seq<Change>) {
    log == [] ||
    (Contiguous(log[..|log| - 1]) && Continues(Replay(log[..|log| - 1]), log[|log| - 1]) && FreshIn(log[..|log| - 1], log[|log| - 1]))
  }

  /** Events have their own ids, and an item id is created once. */
  predicate FreshIn(log: seq<Change>, c: Change) {
    forall i | 0 <= i < |log| :: log[i].id != c.id && (c.action == Created ==> log[i].item != c.item)
  }

  ghost predicate Inv(s: Store) {
    && Keyed(s.db)
    && Replay(s.log) == Versions(s.db.items)
    && Contiguous(s.log)
    && (forall e :: e in s.db.events ==> s.db.events[e] in s.log)
  }

  /** A committed change writes exactly one event, and moves exactly its item. */
  predicate Commits(db: Db, db': Db, c: Change, draw: Draw) {
    && c.id == draw.event && c.id !in db.events && db'.events == RecordChange(db.events, c)
    && (match c.action
        case Created => c.item == draw.item && c.item !in db.items && c.version == 1 && SetsItem(db, db', c)
        case Updated => c.item in db.items && c.version == db.items[c.item].version + 1 && SetsItem(db, db', c)
        case Deleted => c.item in db.items && c.version == db.items[c.item].version + 1 && db'.items == db.items - {c.item})
  }

  predicate SetsItem(db: Db, db': Db, c: Change) {
    c.item in db'.items && db'.items == db.items[c.item := db'.items[c.item]] &&
    db'.items[c.item].id == c.item && db'.items[c.item].version == c.version
  }

  /** What a create that goes through has found. */
  lemma MadeMeans(db: Db, seen: Option<Record>, call: CreateCall, now: int, draw: Draw, most: int)
    requires CreateDecision(db, seen, call, now, draw, most).Made?
    ensures var item := CreateDecision(db, seen, call, now, draw, most).item;
      && item.id == draw.item && item.ws == call.ws && item.version == 1 && item.createdAt == now && ValidateTitle(call.title) == Some(item.title)
      && draw.item !in db.items && draw.event !in db.events && CanPublish(db.outbox, call.ws, Outbox.ItemCreated, draw)
      && CountItems(db.items, call.ws) < most && call.authorized
      && (seen.None? ==> KeyOfCall(call) !in db.records)
      && (seen.Some? ==> Lookup(db, KeyOfCall(call)) == seen && seen.value.expiresAt <= now)
  {
  }

  lemma InsertCommits(db: Db, call: CreateCall, item: Item, draw: Draw)
    requires item.id == draw.item && item.version == 1 && draw.item !in db.items && draw.event !in db.events
    requires CanPublish(db.outbox, item.ws, Outbox.ItemCreated, draw)
    ensures Commits(db, CreateEffect(db, call, item, draw), CreatedEvent(item, draw.event), draw)
  {
  }

  lemma CreateCommits(db: Db, seen: Option<Record>, call: CreateCall, now: int, draw: Draw, most: int)
    requires CreateDecision(db, seen, call, now, draw, most).Made?
    ensures var item := CreateDecision(db, seen, call, now, draw, most).item;
      CanPublish(db.outbox, item.ws, Outbox.ItemCreated, draw) && Commits(db, CreateEffect(db, call, item, draw), CreatedEvent(item, draw.event), draw)
  {
    MadeMeans(db, seen, call, now, draw, most);
    InsertCommits(db, call, CreateDecision(db, seen, call, now, draw, most).item, draw);
  }

  lemma UpdateCommits(db: Db, authorized: bool, ws: Id, id: Id, version: int, edit: Edit, now: int, draw: Draw)
    requires Keyed(db) && UpdateFault(db, authorized, ws, id, version, edit, draw).None?
    ensures var item := EditedItem(db.items[id], edit, now);
      CanPublish(db.outbox, item.ws, Outbox.ItemUpdated, draw) && Commits(db, UpdateEffect(db, item, draw), UpdatedEvent(item, draw.event), draw)
  {
  }

  lemma DeleteCommits(db: Db, authorized: bool, ws: Id, id: Id, version: int, now: int, draw: Draw)
    requires Keyed(db) && DeleteFault(db, authorized, ws, id, version, draw).None?
    ensures var item := db.items[id];
      CanPublish(db.outbox, item.ws, Outbox.ItemDeleted, draw) && Commits(db, DeleteEffect(db, item, now, draw), DeletedEvent(item, draw.event, now), draw)
  {
  }

  lemma OpCommits(s: Store, op: Op, most: int)
    requires Keyed(s.db) && ChangeOf(s, op, most).Some?
    ensures (op.FinishCreate? || op.Update? || op.Delete?) && Unused(s.log, op.draw)
    ensures Commits(s.db, DbAfter(s, op, most), ChangeOf(s, op, most).value, op.draw)
  {
    match op
    case FinishCreate(tx, draw) => CreateCommits(s.db, s.begun[tx].seen, s.begun[tx].call, s.begun[tx].now, draw, most);
    case Update(authorized, ws, id, version, edit, now, draw) => UpdateCommits(s.db, authorized, ws, id, version, edit, now, draw);
    case Delete(authorized, ws, id, version, now, draw) => DeleteCommits(s.db, authorized, ws, id, version, now, draw);
  }

  lemma KeyedNext(db: Db, db': Db, c: Change, draw: Draw)
    requires Keyed(db) && Commits(db, db', c, draw)
    ensures Keyed(db')
  {
  }

  lemma VersionsNext(db: Db, db': Db, c: Change, draw: Draw)
    requires Commits(db, db', c, draw)
    ensures Versions(db'.items) == Replayed1(Versions(db.items), c) && Continues(Versions(db.items), c)
  {
  }

  lemma LogSnoc(log: seq<Change>, c: Change)
    ensures Replay(log + [c]) == Replayed1(Replay(log), c)
    ensures Contiguous(log + [c]) <==> Contiguous(log) && Continues(Replay(log), c) && FreshIn(log, c)
  {
    assert (log + [c])[..|log|] == log;
  }

  lemma UnusedFresh(log: seq<Change>, c: Change, draw: Draw)
    requires Unused(log, draw) && c.id == draw.event && (c.action == Created ==> c.item == draw.item)
    ensures FreshIn(log, c)
  {
  }

  /** One committed change keeps the invariant, whichever operation it came from. */
  lemma CommitKeeps(s: Store, db': Db, c: Change, draw: Draw, begun: map<Id, Begun>, history: seq<Change>)
    requires Inv(s) && Commits(s.db, db', c, draw) && Unused(s.log, draw)
    ensures Inv(Store(db', begun, s.log + [c], history))
  {
    KeyedNext(s.db, db', c, draw);
    VersionsNext(s.db, db', c, draw);
    UnusedFresh(s.log, c, draw);
    LogSnoc(s.log, c);
    EventsNext(s, db', c);
  }

  lemma EventsNext(s: Store, db': Db, c: Change)
    requires forall e :: e in s.db.events ==> s.db.events[e] in s.log
    requires db'.events == RecordChange(s.db.events, c)
    ensures forall e :: e in db'.events ==> db'.events[e] in s.log + [c]
  {
    forall e | e in db'.events ensures db'.events[e] in s.log + [c] {
      if e == c.id {
        assert (s.log + [c])[|s.log|] == c;
      }
    }
  }

  lemma ImportMore(s: Store, mid: Db, items: seq<Item>, actor: Actor, ws: Id, row: ImportRow, now: int, draws: seq<Draw>)
    requires |items| < |draws| && AllUnused(s.log, draws) && forall i :: 0 <= i < |items| ==> items[i].id == draws[i].item
    requires Inv(Store(mid, s.begun, s.log + EventsOf(items, draws), s.history))
    requires ImportOne(mid, actor, ws, row, now, draws[|items|]).Stored?
    ensures var one := ImportOne(mid, actor, ws, row, now, draws[|items|]);
      |one.items| == 1 && Inv(Store(one.db, s.begun, s.log + EventsOf(items + one.items, draws), s.history))
  {
    var draw := draws[|items|];
    UnusedLater(s.log, items, draws, |items|);
    ImportOneKeeps(Store(mid, s.begun, s.log + EventsOf(items, draws), s.history), actor, ws, row, now, draw);
    var one := ImportOne(mid, actor, ws, row, now, draw);
    assert s.log + EventsOf(items + one.items, draws) == s.log + EventsOf(items, draws) + [CreatedEvent(one.items[0], draw.event)];
  }

  lemma {:induction false} ImportKeeps(s: Store, actor: Actor, ws: Id, rows: seq<ImportRow>, now: int, draws: seq<Draw>)
    requires Inv(s) && |rows| <= |draws| && AllUnused(s.log, draws) && ImportAll(s.db, actor, ws, rows, now, draws).Stored?
    ensures var r := ImportAll(s.db, actor, ws, rows, now, draws);
      |r.items| == |rows| && Inv(Store(r.db, s.begun, s.log + EventsOf(r.items, draws), s.history))
    decreases |rows|
  {
    if rows == [] {
      assert s.log + EventsOf([], draws) == s.log;
    } else {
      var front := rows[..|rows| - 1];
      var mid := ImportAll(s.db, actor, ws, front, now, draws);
      ImportKeeps(s, actor, ws, front, now, draws);
      ImportMore(s, mid.db, mid.items, actor, ws, rows[|rows| - 1], now, draws);
    }
  }

  lemma UnusedLater(log: seq<Change>, items: seq<Item>, draws: seq<Draw>, n: nat)
    requires AllUnused(log, draws) && |items| == n < |draws|
    requires forall i :: 0 <= i < n ==> items[i].id == draws[i].item
    ensures Unused(log + EventsOf(items, draws), draws[n])
  {
  }

  lemma ImportOneKeeps(s: Store, actor: Actor, ws: Id, row: ImportRow, now: int, draw: Draw)
    requires Inv(s) && Unused(s.log, draw) && ImportOne(s.db, actor, ws, row, now, draw).Stored?
    ensures var r := ImportOne(s.db, actor, ws, row, now, draw);
      |r.items| == 1 && r.items[0].id == draw.item && Inv(Store(r.db, s.begun, s.log + [CreatedEvent(r.items[0], draw.event)], s.history))
  {
    var r := ImportOne(s.db, actor, ws, row, now, draw);
    CommitKeeps(s, r.db, CreatedEvent(r.items[0], draw.event), draw, s.begun, s.history);
  }

  lemma StepKeeps(s: Store, op: Op, most: int)
    requires Inv(s)
    ensures Inv(Apply(s, op, most))
  {
    if op.Import? {
      if Apply(s, op, most) != s {
        ImportKeeps(s, op.actor, op.ws, op.rows, op.now, op.draws);
      }
    } else if ChangeOf(s, op, most).Some? {
      OpCommits(s, op, most);
      CommitKeeps(s, DbAfter(s, op, most), ChangeOf(s, op, most).value, op.draw, BegunAfter(s, op), Apply(s, op, most).history);
    }
  }

  lemma {:induction false} RunKeeps(s: Store, ops: seq<Op>, most: int)
    requires Inv(s)
    ensures Inv(Run(s, ops, most))
    decreases |ops|
  {
    if ops != [] {
      StepKeeps(s, ops[0], most);
      RunKeeps(Apply(s, ops[0], most), ops[1..], most);
    }
  }

  lemma FreshKeeps()
    ensures Inv(FRESH)
  {
    assert Versions(map[]) == map[];
  }

  /** Replaying all changes gives exactly the live items with their versions. */
  lemma ReplayIsLiveItems(ops: seq<Op>, most: int)
    ensures Replay(Run(FRESH, ops, most).log) == Versions(Run(FRESH, ops, most).db.items)
    ensures Contiguous(Run(FRESH, ops, most).log)
  {
    FreshKeeps();
    RunKeeps(FRESH, ops, most);
  }

  // ---------- the history of one item ----------

  function OfItem(log: seq<Change>, id: Id): seq<Change> {
    if log == [] then []
    else OfItem(log[..|log| - 1], id) + if log[|log| - 1].item == id then [log[|log| - 1]] else []
  }

  /** Versions 1, 2, 3 and so on; created first, and nothing after a deletion. */
  predicate Story(h: seq<Change>) {
    forall i :: 0 <= i < |h| ==> h[i].version == i + 1 && (h[i].action == Created <==> i == 0) && (h[i].action == Deleted ==> i == |h| - 1)
  }

  predicate Alive(h: seq<Change>) {
    h != [] && h[|h| - 1].action != Deleted
  }

  lemma {:induction false} NoStory(log: seq<Change>, id: Id)
    requires forall i :: 0 <= i < |log| ==> log[i].item != id
    ensures OfItem(log, id) == []
    decreases |log|
  {
    if log != [] {
      NoStory(log[..|log| - 1], id);
    }
  }

  lemma {:induction false} StoryOf(log: seq<Change>, id: Id)
    requires Contiguous(log)
    ensures Story(OfItem(log, id))
    ensures id in Replay(log) <==> Alive(OfItem(log, id))
    ensures id in Replay(log) ==> Replay(log)[id] == |OfItem(log, id)|
    ensures OfItem(log, id) != [] ==> exists i :: 0 <= i < |log| && log[i].item == id
    decreases |log|
  {
    if log != [] {
      var front, c := log[..|log| - 1], log[|log| - 1];
      StoryOf(front, id);
      if c.item == id {
        StoryNext(front, c);
        assert log[|log| - 1].item == id;
      } else if OfItem(front, id) != [] {
        var i :| 0 <= i < |front| && front[i].item == id;
        assert log[i].item == id;
      }
    }
  }

  lemma StoryNext(front: seq<Change>, c: Change)
    requires Continues(Replay(front), c) && FreshIn(front, c) && Story(OfItem(front, c.item))
    requires c.item in Replay(front) <==> Alive(OfItem(front, c.item))
    requires c.item in Replay(front) ==> Replay(front)[c.item] == |OfItem(front, c.item)|
    ensures Story(OfItem(front, c.item) + [c]) && (c.action == Created ==> OfItem(front, c.item) == [])
    ensures c.version == |OfItem(front, c.item)| + 1
  {
    if c.action == Created {
      NoStory(front, c.item);
    }
  }

  /** The log tells each item's life in order: versions 1 to n without a gap, the
      creation first, a deletion only last; a live item stands at version n. */
  lemma EveryItemHasAStory(ops: seq<Op>, most: int, id: Id)
    ensures var s := Run(FRESH, ops, most); var h := OfItem(s.log, id);
      && Story(h)
      && (id in s.db.items <==> Alive(h))
      && (id in s.db.items ==> s.db.items[id].version == |h|)
  {
    ReplayIsLiveItems(ops, most);
    StoryOf(Run(FRESH, ops, most).log, id);
  }

  // ---------- one commit per version ----------

  predicate Targets(op: Op, id: Id, version: int) {
    (op.Update? || op.Delete?) && op.id == id && op.version == version
  }

  /** How many updates and deletes of item `id` sent with `version` commit. */
  function CommitsAt(s: Store, ops: seq<Op>, most: int, id: Id, version: int): nat
    decreases |ops|
  {
    if ops == [] then 0
    else
      (if Targets(ops[0], id, version) && ChangeOf(s, ops[0], most).Some? then 1 else 0) +
      CommitsAt(Apply(s, ops[0], most), ops[1..], most, id, version)
  }

  /** The item has moved past this version, or is gone for good. */
  predicate Past(log: seq<Change>, id: Id, version: int) {
    |OfItem(log, id)| > version || (OfItem(log, id) != [] && !Alive(OfItem(log, id)))
  }

  lemma PastNext(log: seq<Change>, c: Change, id: Id, version: int)
    requires Contiguous(log + [c]) && Past(log, id, version)
    ensures Past(log + [c], id, version)
  {
    assert (log + [c])[..|log|] == log;
    StoryOf(log, id);
    StoryOf(log + [c], id);
  }

  lemma {:induction false} PastMore(log: seq<Change>, more: seq<Change>, id: Id, version: int)
    requires Contiguous(log + more) && Past(log, id, version)
    ensures Past(log + more, id, version)
    decreases |more|
  {
    if more == [] {
      assert log + more == log;
    } else {
      var front := more[..|more| - 1];
      assert log + more == log + front + [more[|more| - 1]];
      assert (log + more)[..|log + more| - 1] == log + front;
      PastMore(log, front, id, version);
      PastNext(log + front, more[|more| - 1], id, version);
    }
  }

  lemma LogGrows(s: Store, op: Op, most: int)
    ensures s.log <= Apply(s, op, most).log
  {
  }

  lemma PastStays(s: Store, op: Op, most: int, id: Id, version: int)
    requires Inv(s) && Past(s.log, id, version)
    ensures Past(Apply(s, op, most).log, id, version)
  {
    StepKeeps(s, op, most);
    LogGrows(s, op, most);
    var more := Apply(s, op, most).log[|s.log|..];
    assert Apply(s, op, most).log == s.log + more;
    PastMore(s.log, more, id, version);
  }

  lemma CommitVersion(s: Store, op: Op, most: int, id: Id, version: int)
    requires Keyed(s.db) && Targets(op, id, version) && ChangeOf(s, op, most).Some?
    ensures id in s.db.items && s.db.items[id].version == version
    ensures var c := ChangeOf(s, op, most).value;
      c.item == id && c.version == version + 1 && c.action != Created && Apply(s, op, most).log == s.log + [c]
  {
  }

  lemma CommitMovesPast(s: Store, op: Op, most: int, id: Id, version: int)
    requires Inv(s) && Targets(op, id, version) && ChangeOf(s, op, most).Some?
    ensures !Past(s.log, id, version) && Past(Apply(s, op, most).log, id, version)
  {
    var c := ChangeOf(s, op, most).value;
    CommitVersion(s, op, most, id, version);
    StoryOf(s.log, id);
    assert Versions(s.db.items)[id] == version;
    assert (s.log + [c])[..|s.log|] == s.log;
  }

  /** Of all updates and deletes sent with one version of an item, at most one commits. */
  lemma {:induction false} AtMostOneCommitPerVersion(s: Store, ops: seq<Op>, most: int, id: Id, version: int)
    requires Inv(s)
    ensures CommitsAt(s, ops, most, id, version) <= if Past(s.log, id, version) then 0 else 1
    decreases |ops|
  {
    if ops != [] {
      StepKeeps(s, ops[0], most);
      if Past(s.log, id, version) {
        PastStays(s, ops[0], most, id, version);
      }
      if Targets(ops[0], id, version) && ChangeOf(s, ops[0], most).Some? {
        CommitMovesPast(s, ops[0], most, id, version);
      }
      AtMostOneCommitPerVersion(Apply(s, ops[0], most), ops[1..], most, id, version);
    }
  }
}
