/** What each item write decides and does (items/service.go).  A create reads its
    idempotency record when its transaction begins, so the decision takes that
    snapshot as well as the tables the transaction commits to. */
module ItemOps {
  import opened Wrappers
  import opened ItemTables
  import opened ChangeFeed
  import Outbox

  const RETENTION := 24 * 3600 * 1_000_000_000

  /** The random ids a write draws. */
  datatype Draw = Draw(item: Id, event: Id, out: Outbox.Ids)

  function Lookup(db: Db, k: RecordKey): Option<Record> {
    if k in db.records then Some(db.records[k]) else None
  }

  predicate CanPublish(outbox: Outbox.Tables, ws: Id, kind: Outbox.EventType, draw: Draw) {
    Outbox.IdsFresh(outbox, Outbox.Targets(outbox, ws, kind), draw.out)
  }

  /** No primary key the write inserts is taken. */
  predicate Insertable(db: Db, ws: Id, kind: Outbox.EventType, draw: Draw) {
    draw.event !in db.events && CanPublish(db.outbox, ws, kind, draw)
  }

  // ---------- create ----------

  datatype Outcome = Made(item: Item) | Replayed(item: Item) | Failed(fault: Fault) | Collided

  datatype CreateCall = CreateCall(actor: Actor, ws: Id, key: string, title: string, authorized: bool)

  function KeyOfCall(call: CreateCall): RecordKey {
    RecordKey(call.key, PrincipalOf(call.actor), call.ws)
  }

  function NewItem(call: CreateCall, title: string, now: int, id: Id): Item {
    Item(id, call.ws, call.actor.user, title, Active, 1, now, now)
  }

  /** `seen` is the record the transaction read, `db` the tables it writes to. */
  function CreateDecision(db: Db, seen: Option<Record>, call: CreateCall, now: int, draw: Draw, most: int): Outcome {
    var title := ValidateTitle(call.title);
    if title.None? || !ValidKey(call.key) then Failed(InvalidInput)
    else if !call.authorized then Failed(Forbidden)
    else if seen.Some? && now < seen.value.expiresAt then
      if seen.value.request != title.value then Failed(IdempotencyConflict) else Replayed(seen.value.result)
    else if seen.Some? && Lookup(db, KeyOfCall(call)) != seen then Failed(StorageFailure)
    else if CountItems(db.items, call.ws) >= most then Failed(LimitReached)
    else if draw.item in db.items || !Insertable(db, call.ws, Outbox.ItemCreated, draw) then Failed(StorageFailure)
    else if seen.None? && KeyOfCall(call) in db.records then Collided
    else Made(NewItem(call, title.value, now, draw.item))
  }

  function CreatedEvent(item: Item, event: Id): Change {
    Change(event, item.ws, item.id, Created, 1, item.createdAt)
  }

  /** The record of an item as created, valid for 24 hours. */
  function RecordOf(item: Item): Record {
    Record(item.title, item, item.createdAt + RETENTION)
  }

  function Recorded(records: map<RecordKey, Record>, k: RecordKey, item: Item): map<RecordKey, Record> {
    records[k := RecordOf(item)]
  }

  function CreateEffect(db: Db, call: CreateCall, item: Item, draw: Draw): Db
    requires CanPublish(db.outbox, item.ws, Outbox.ItemCreated, draw)
  {
    Db(db.items[item.id := item],
       RecordChange(db.events, CreatedEvent(item, draw.event)),
       Recorded(db.records, KeyOfCall(call), item),
       Outbox.Published(db.outbox, item.ws, Outbox.ItemCreated, draw.out, item.createdAt))
  }

  // ---------- update and delete ----------

  datatype StatusText = Known(status: ItemStatus) | Unknown

  datatype Edit = Edit(title: Option<string>, status: Option<StatusText>)

  predicate EditValid(edit: Edit) {
    && (edit.title.Some? || edit.status.Some?)
    && (edit.title.Some? ==> ValidateTitle(edit.title.value).Some?)
    && (edit.status.Some? ==> edit.status.value.Known?)
  }

  function UpdateFault(db: Db, authorized: bool, ws: Id, id: Id, version: int, edit: Edit, draw: Draw): Option<Fault> {
    if version < 1 || !EditValid(edit) then Some(InvalidInput)
    else if !authorized then Some(Forbidden)
    else if id !in db.items || db.items[id].ws != ws then Some(NotFound)
    else if db.items[id].version != version then Some(PreconditionFailed)
    else if !Insertable(db, ws, Outbox.ItemUpdated, draw) then Some(StorageFailure)
    else None
  }

  function EditedItem(item: Item, edit: Edit, now: int): Item
    requires EditValid(edit)
  {
    item.(title := if edit.title.Some? then ValidateTitle(edit.title.value).value else item.title,
          status := if edit.status.Some? then edit.status.value.status else item.status,
          version := item.version + 1, updatedAt := now)
  }

  function UpdatedEvent(item: Item, event: Id): Change {
    Change(event, item.ws, item.id, Updated, item.version, item.updatedAt)
  }

  function UpdateEffect(db: Db, item: Item, draw: Draw): Db
    requires CanPublish(db.outbox, item.ws, Outbox.ItemUpdated, draw)
  {
    db.(items := db.items[item.id := item],
        events := RecordChange(db.events, UpdatedEvent(item, draw.event)),
        outbox := Outbox.Published(db.outbox, item.ws, Outbox.ItemUpdated, draw.out, item.updatedAt))
  }

  function DeleteFault(db: Db, authorized: bool, ws: Id, id: Id, version: int, draw: Draw): Option<Fault> {
    if version < 1 then Some(InvalidInput)
    else if !authorized then Some(Forbidden)
    else if id !in db.items || db.items[id].ws != ws then Some(NotFound)
    else if db.items[id].version != version then Some(PreconditionFailed)
    else if !Insertable(db, ws, Outbox.ItemDeleted, draw) then Some(StorageFailure)
    else None
  }

  function DeletedEvent(item: Item, event: Id, now: int): Change {
    Change(event, item.ws, item.id, Deleted, item.version + 1, now)
  }

  function DeleteEffect(db: Db, item: Item, now: int, draw: Draw): Db
    requires CanPublish(db.outbox, item.ws, Outbox.ItemDeleted, draw)
  {
    db.(items := db.items - {item.id},
        events := RecordChange(db.events, DeletedEvent(item, draw.event, now)),
        outbox := Outbox.Published(db.outbox, item.ws, Outbox.ItemDeleted, draw.out, now))
  }

  // ---------- import ----------

  /** An empty status field means active. */
  datatype ImportRow = ImportRow(title: string, status: Option<StatusText>)

  datatype Imported = Stopped(fault: Fault) | Stored(db: Db, items: seq<Item>)

  function Normalized(row: ImportRow): Option<(string, ItemStatus)> {
    var title := ValidateTitle(row.title);
    if title.None? then None
    else if row.status.None? then Some((title.value, Active))
    else if row.status.value.Known? then Some((title.value, row.status.value.status))
    else None
  }

  /** One imported row: an item and its event, and no publication. */
  function ImportOne(db: Db, actor: Actor, ws: Id, row: ImportRow, now: int, draw: Draw): (r: Imported)
    ensures r.Stored? ==> |r.items| == 1 && r.items[0].id == draw.item && r.items[0].ws == ws
  {
    var n := Normalized(row);
    if n.None? then Stopped(InvalidInput)
    else if draw.item in db.items || draw.event in db.events then Stopped(StorageFailure)
    else
      var item := Item(draw.item, ws, actor.user, n.value.0, n.value.1, 1, now, now);
      Stored(db.(items := db.items[item.id := item], events := RecordChange(db.events, CreatedEvent(item, draw.event))), [item])
  }

  function ImportAll(db: Db, actor: Actor, ws: Id, rows: seq<ImportRow>, now: int, draws: seq<Draw>): (r: Imported)
    requires |rows| <= |draws|
    ensures r.Stored? ==> |r.items| == |rows| && forall i :: 0 <= i < |r.items| ==> r.items[i].id == draws[i].item && r.items[i].ws == ws
    decreases |rows|
  {
    if rows == [] then Stored(db, [])
    else
      var last := |rows| - 1;
      match ImportAll(db, actor, ws, rows[..last], now, draws)
      case Stopped(fault) => Stopped(fault)
      case Stored(mid, items) =>
        match ImportOne(mid, actor, ws, rows[last], now, draws[last])
        case Stopped(fault) => Stopped(fault)
        case Stored(db', one) => Stored(db', items + one)
  }

  function ImportResult(
    db: Db, authorized: bool, actor: Actor, ws: Id, rows: seq<ImportRow>, now: int, draws: seq<Draw>, most: int): Imported
    requires |rows| <= |draws|
  {
    if rows == [] then Stopped(InvalidInput)
    else if !authorized then Stopped(Forbidden)
    else if CountItems(db.items, ws) > most - |rows| then Stopped(LimitReached)
    else ImportAll(db, actor, ws, rows, now, draws)
  }
}
