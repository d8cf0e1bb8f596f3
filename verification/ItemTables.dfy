/** The tables of the item service (items/service.go, items/events.go), and the
    checks on what callers send. */
module ItemTables {
  import opened Wrappers
  import Outbox

  type Id = nat

  datatype ItemStatus = Active | Complete

  datatype Item = Item(
    id: Id, ws: Id, author: Id, title: string, status: ItemStatus, version: int, createdAt: int, updatedAt: int)

  datatype Action = Created | Updated | Deleted

  /** A row of item_events. */
  datatype Change = Change(id: Id, ws: Id, item: Id, action: Action, version: int, at: int)

  datatype Actor = Actor(user: Id, token: Option<Id>)

  datatype PrincipalId = ByToken(token: Id) | ByUser(user: Id)

  /** Primary key of idempotency_records; the key is hashed, and no two keys collide. */
  datatype RecordKey = RecordKey(key: string, principal: PrincipalId, ws: Id)

  /** The request is a hash of the title, which stands for the title itself. */
  datatype Record = Record(request: string, result: Item, expiresAt: int)

  datatype Db = Db(
    items: map<Id, Item>, events: map<Id, Change>, records: map<RecordKey, Record>, outbox: Outbox.Tables)

  datatype Fault =
    | Forbidden | InvalidInput | InvalidCursor | NotFound | PreconditionFailed
    | IdempotencyConflict | LimitReached | StorageFailure

  const EMPTY := Db(map[], map[], map[], Outbox.EMPTY)

  function PrincipalOf(actor: Actor): PrincipalId {
    if actor.token.Some? then ByToken(actor.token.value) else ByUser(actor.user)
  }

  // ---------- checks on input ----------

  predicate Space(ch: char) {
    || ch in "\t\n\r " || ch in {'\U{0B}', '\U{0C}', '\U{85}', '\U{A0}', '\U{1680}'}
    || '\U{2000}' <= ch <= '\U{200A}' || ch in {'\U{2028}', '\U{2029}', '\U{202F}', '\U{205F}', '\U{3000}'}
  }

  function TrimLeft(text: string): string {
    if text != [] && Space(text[0]) then TrimLeft(text[1..]) else text
  }

  function TrimRight(text: string): string {
    if text != [] && Space(text[|text| - 1]) then TrimRight(text[..|text| - 1]) else text
  }

  function Trim(text: string): string {
    TrimRight(TrimLeft(text))
  }

  function ValidateTitle(text: string): Option<string> {
    var title := Trim(text);
    if title == [] || |title| > 200 then None else Some(title)
  }

  function ValidateSearch(text: string): Option<string> {
    var search := Trim(text);
    if |search| > 100 then None else Some(search)
  }

  predicate ValidKey(key: string) {
    1 <= |key| <= 255 && forall i | 0 <= i < |key| :: '!' <= key[i] <= '~'
  }

  // ---------- the items of a workspace ----------

  function ItemsOf(items: map<Id, Item>, ws: Id): set<Id> {
    set i | i in items && items[i].ws == ws
  }

  function CountItems(items: map<Id, Item>, ws: Id): nat {
    |ItemsOf(items, ws)|
  }

  /** Rows are stored under their own ids. */
  ghost predicate Keyed(db: Db) {
    && (forall i :: i in db.items ==> db.items[i].id == i)
    && (forall e :: e in db.events ==> db.events[e].id == e)
  }
}
