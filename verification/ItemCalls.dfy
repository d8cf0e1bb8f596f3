/** What each item write promises, told in the tables: when it takes effect, what it
    then leaves, and that it reaches no other workspace. */
module ItemCalls {
  import opened Wrappers
  import opened ItemTables
  import opened ChangeFeed
  import opened ItemOps
  import opened ItemRuns
  import opened ItemGuarantees
  import Outbox

  // ---------- titles ----------

  /** One to two hundred characters, with no space at either end. */
  predicate ProperTitle(title: string) {
    1 <= |title| <= 200 && !Space(title[0]) && !Space(title[|title| - 1])
  }

  lemma {:induction false} TrimLeftIs(text: string)
    ensures var r := TrimLeft(text); r == [] || !Space(r[0])
    decreases |text|
  {
    if text != [] && Space(text[0]) {
      TrimLeftIs(text[1..]);
    }
  }

  lemma {:induction false} TrimRightIs(text: string)
    ensures var r := TrimRight(text); r == [] || (!Space(r[|r| - 1]) && r[0] == text[0])
    decreases |text|
  {
    if text != [] && Space(text[|text| - 1]) {
      TrimRightIs(text[..|text| - 1]);
    }
  }

  lemma TitleIsProper(text: string)
    ensures match ValidateTitle(text) case None => true case Some(title) => ProperTitle(title) && title == Trim(text)
    ensures ValidateTitle(text).Some? <==> 1 <= |Trim(text)| <= 200
  {
    TrimLeftIs(text);
    TrimRightIs(TrimLeft(text));
  }

  ghost predicate TitlesProper(items: map<Id, Item>) {
    forall i :: i in items ==> ProperTitle(items[i].title)
  }

  lemma ImportOneProper(db: Db, actor: Actor, ws: Id, row: ImportRow, now: int, draw: Draw)
    requires TitlesProper(db.items) && ImportOne(db, actor, ws, row, now, draw).Stored?
    ensures TitlesProper(ImportOne(db, actor, ws, row, now, draw).db.items)
  {
    TitleIsProper(row.title);
  }

  lemma {:induction false} ImportProper(db: Db, actor: Actor, ws: Id, rows: seq<ImportRow>, now: int, draws: seq<Draw>)
    requires TitlesProper(db.items) && |rows| <= |draws| && ImportAll(db, actor, ws, rows, now, draws).Stored?
    ensures TitlesProper(ImportAll(db, actor, ws, rows, now, draws).db.items)
    decreases |rows|
  {
    if rows != [] {
      var last := |rows| - 1;
      ImportProper(db, actor, ws, rows[..last], now, draws);
      ImportOneProper(ImportAll(db, actor, ws, rows[..last], now, draws).db, actor, ws, rows[last], now, draws[last]);
    }
  }

  lemma EditedProper(item: Item, edit: Edit, now: int)
    requires ProperTitle(item.title) && EditValid(edit)
    ensures ProperTitle(EditedItem(item, edit, now).title)
  {
    if edit.title.Some? {
      TitleIsProper(edit.title.value);
    }
  }

  lemma CreateProper(s: Store, op: Op, most: int)
    requires TitlesProper(s.db.items) && op.FinishCreate? && ChangeOf(s, op, most).Some?
    ensures TitlesProper(DbAfter(s, op, most).items)
  {
    TitleIsProper(s.begun[op.tx].call.title);
    CreatedItem(s, op, most);
  }

  lemma WriteProper(s: Store, op: Op, most: int)
    requires TitlesProper(s.db.items) && Keyed(s.db) && (op.Update? || op.Delete?) && ChangeOf(s, op, most).Some?
    ensures TitlesProper(Apply(s, op, most).db.items)
  {
    if op.Update? {
      UpdatedTables(s, op, most);
      EditedProper(s.db.items[op.id], op.edit, op.now);
    } else {
      DeleteAllowed(s.db, op.authorized, op.ws, op.id, op.version, op.now, op.draw);
    }
  }

  lemma AppliedImport(s: Store, op: Op, most: int)
    requires op.Import? && Apply(s, op, most) != s
    ensures |op.rows| <= |op.draws| && ImportAll(s.db, op.actor, op.ws, op.rows, op.now, op.draws).Stored?
    ensures Apply(s, op, most).db == ImportAll(s.db, op.actor, op.ws, op.rows, op.now, op.draws).db
  {
  }

  lemma StepProper(s: Store, op: Op, most: int)
    requires TitlesProper(s.db.items) && Keyed(s.db)
    ensures TitlesProper(Apply(s, op, most).db.items)
  {
    if op.Import? {
      if Apply(s, op, most) != s {
        AppliedImport(s, op, most);
        ImportProper(s.db, op.actor, op.ws, op.rows, op.now, op.draws);
      }
    } else if ChangeOf(s, op, most).Some? {
      if op.FinishCreate? {
        CreateProper(s, op, most);
      } else {
        WriteProper(s, op, most);
      }
    }
  }

  lemma {:induction false} RunProper(s: Store, ops: seq<Op>, most: int)
    requires Inv(s) && TitlesProper(s.db.items)
    ensures TitlesProper(Run(s, ops, most).db.items)
    decreases |ops|
  {
    if ops != [] {
      StepProper(s, ops[0], most);
      StepKeeps(s, ops[0], most);
      RunProper(Apply(s, ops[0], most), ops[1..], most);
    }
  }

  /** Whatever is created, edited and imported, every item's title has one to two hundred
      characters and no space at either end. */
  lemma TitlesAreProper(ops: seq<Op>, most: int, id: Id)
    requires id in Run(FRESH, ops, most).db.items
    ensures var title := Run(FRESH, ops, most).db.items[id].title;
      1 <= |title| <= 200 && !Space(title[0]) && !Space(title[|title| - 1])
  {
    FreshKeeps();
    RunProper(FRESH, ops, most);
  }

  // ---------- creates ----------

  /** The key can be written now: nobody has used it, or what was seen of it has run out and still stands. */
  predicate KeyUsable(db: Db, b: Begun) {
    var k := KeyOfCall(b.call);
    if b.seen.None? then k !in db.records
    else b.seen.value.expiresAt <= b.now && k in db.records && db.records[k] == b.seen.value
  }

  /** A create commits exactly if its title and key are in order, its caller may write, the
      key can be written, the workspace has room, and the ids it draws are new. */
  lemma CreateDecides(s: Store, op: Op, most: int)
    requires op.FinishCreate? && op.tx in s.begun
    ensures var b := s.begun[op.tx]; var call := b.call;
      ChangeOf(s, op, most).Some? <==>
        && 1 <= |Trim(call.title)| <= 200 && 1 <= |call.key| <= 255 && (forall j :: 0 <= j < |call.key| ==> '!' <= call.key[j] <= '~')
        && call.authorized && KeyUsable(s.db, b) && |ItemsOf(s.db.items, call.ws)| < most
        && Unused(s.log, op.draw) && op.draw.item !in s.db.items && op.draw.event !in s.db.events
        && Outbox.IdsFresh(s.db.outbox, Outbox.Targets(s.db.outbox, call.ws, Outbox.ItemCreated), op.draw.out)
  {
    TitleIsProper(s.begun[op.tx].call.title);
  }

  /** ... and then there is one more item, the caller's, active, at version one, under the
      trimmed title; and a record of it for a day. */
  lemma CreateLeaves(s: Store, op: Op, most: int)
    requires op.FinishCreate? && op.tx in s.begun && ChangeOf(s, op, most).Some?
    ensures var b, db', k := s.begun[op.tx], Apply(s, op, most).db, KeyOfCall(s.begun[op.tx].call);
      var item := Item(op.draw.item, b.call.ws, b.call.actor.user, Trim(b.call.title), Active, 1, b.now, b.now);
      && op.draw.item !in s.db.items && db'.items == s.db.items[op.draw.item := item]
      && k in db'.records && db'.records - {k} == s.db.records - {k}
      && db'.records[k].request == Trim(b.call.title) && db'.records[k].result == item
      && db'.records[k].expiresAt == b.now + 86_400 * 1_000_000_000
  {
    var b := s.begun[op.tx];
    TitleIsProper(b.call.title);
    MadeMeans(s.db, b.seen, b.call, b.now, op.draw, most);
    CreatedItem(s, op, most);
    SameRecords(s, op, most);
    RecordedOne(s.db.records, KeyOfCall(b.call), Decision(s, op, most).item);
    assert Apply(s, op, most).db == DbAfter(s, op, most);
  }

  lemma RecordedOne(records: map<RecordKey, Record>, k: RecordKey, item: Item)
    ensures var after := records[k := RecordOf(item)];
      && after - {k} == records - {k}
      && after[k].request == item.title && after[k].result == item && after[k].expiresAt == item.createdAt + 86_400 * 1_000_000_000
  {
  }

  lemma CreatedItem(s: Store, op: Op, most: int)
    requires op.FinishCreate? && op.tx in s.begun && ChangeOf(s, op, most).Some?
    ensures var b, item := s.begun[op.tx], Decision(s, op, most).item;
      && item == Item(op.draw.item, b.call.ws, b.call.actor.user, item.title, Active, 1, b.now, b.now) && ValidateTitle(b.call.title) == Some(item.title)
      && DbAfter(s, op, most).items == s.db.items[op.draw.item := item]
      && ChangeOf(s, op, most).value == Change(op.draw.event, b.call.ws, op.draw.item, Created, 1, b.now)
  {
  }

  // ---------- updates and deletes ----------

  /** Something is asked for, and what is asked for is in order. */
  predicate EditProper(edit: Edit) {
    && (edit.title.Some? || edit.status.Some?)
    && (edit.title.Some? ==> 1 <= |Trim(edit.title.value)| <= 200)
    && (edit.status.Some? ==> edit.status.value != Unknown)
  }

  lemma EditProperIs(edit: Edit)
    ensures EditValid(edit) <==> EditProper(edit)
  {
    if edit.title.Some? {
      TitleIsProper(edit.title.value);
    }
  }

  /** An update or delete commits exactly if its caller may write and it was sent with the
      version at which the item stands, in its workspace, and an update with a proper edit. */
  lemma WriteDecides(s: Store, op: Op, most: int)
    requires op.Update? || op.Delete?
    ensures ChangeOf(s, op, most).Some? <==>
      && op.authorized && op.version >= 1 && (op.Update? ==> EditProper(op.edit))
      && op.id in s.db.items && s.db.items[op.id].ws == op.ws && s.db.items[op.id].version == op.version
      && Unused(s.log, op.draw) && op.draw.event !in s.db.events
      && Outbox.IdsFresh(s.db.outbox, Outbox.Targets(s.db.outbox, op.ws, if op.Update? then Outbox.ItemUpdated else Outbox.ItemDeleted), op.draw.out)
  {
    if op.Update? {
      EditProperIs(op.edit);
    }
  }

  /** ... and then an update leaves the item at the next version with the title and status
      asked for, a delete takes it out, and the event carries the next version. */
  lemma WriteLeaves(s: Store, op: Op, most: int)
    requires Keyed(s.db) && (op.Update? || op.Delete?) && ChangeOf(s, op, most).Some?
    ensures op.id in s.db.items
    ensures var item, items' := s.db.items[op.id], Apply(s, op, most).db.items; var c := ChangeOf(s, op, most).value;
      if op.Delete? then
        items' == s.db.items - {op.id} && c == Change(op.draw.event, op.ws, op.id, Deleted, op.version + 1, op.now)
      else
        && items' == s.db.items[op.id := item.(
             title := if op.edit.title.Some? then Trim(op.edit.title.value) else item.title,
             status := if op.edit.status.Some? && op.edit.status.value.Known? then op.edit.status.value.status else item.status,
             version := op.version + 1, updatedAt := op.now)]
        && c == Change(op.draw.event, op.ws, op.id, Updated, op.version + 1, op.now)
  {
    if op.Update? {
      EditProperIs(op.edit);
      UpdatedTables(s, op, most);
    } else {
      DeleteAllowed(s.db, op.authorized, op.ws, op.id, op.version, op.now, op.draw);
    }
  }

  lemma UpdatedTables(s: Store, op: Op, most: int)
    requires Keyed(s.db) && op.Update? && ChangeOf(s, op, most).Some?
    ensures op.id in s.db.items && s.db.items[op.id].ws == op.ws && s.db.items[op.id].version == op.version && EditValid(op.edit)
    ensures var item := EditedItem(s.db.items[op.id], op.edit, op.now);
      Apply(s, op, most).db.items == s.db.items[op.id := item] && ChangeOf(s, op, most).value == UpdatedEvent(item, op.draw.event)
    ensures op.edit.title.Some? ==> ValidateTitle(op.edit.title.value) == Some(Trim(op.edit.title.value))
  {
    UpdateAllowed(s.db, op.authorized, op.ws, op.id, op.version, op.edit, op.now, op.draw);
  }

  // ---------- imports ----------

  /** The row's item: a trimmed title, and the status it names, active if none. */
  predicate RowStored(row: ImportRow, item: Item) {
    item.title == Trim(row.title) && (if row.status.None? then item.status == Active else row.status.value == Known(item.status))
  }

  lemma OneStored(db: Db, actor: Actor, ws: Id, row: ImportRow, now: int, draw: Draw)
    requires ImportOne(db, actor, ws, row, now, draw).Stored?
    ensures var r := ImportOne(db, actor, ws, row, now, draw);
      && RowStored(row, r.items[0]) && r.items[0] == Item(draw.item, ws, actor.user, r.items[0].title, r.items[0].status, 1, now, now)
      && draw.item !in db.items && r.db.items == db.items[draw.item := r.items[0]]
  {
    TitleIsProper(row.title);
  }

  /** The item of row `k` as it is stored. */
  predicate StoredAt(db: Db, actor: Actor, ws: Id, rows: seq<ImportRow>, now: int, draws: seq<Draw>, r: Imported, k: nat)
    requires r.Stored? && k < |rows| <= |draws| && |r.items| == |rows|
  {
    var item, i := r.items[k], draws[k].item;
    && RowStored(rows[k], item) && item == Item(i, ws, actor.user, item.title, item.status, 1, now, now)
    && i !in db.items && i in r.db.items && r.db.items[i] == item
  }

  /** An import's last row, on the tables that the rows before it left. */
  lemma LastRow(db: Db, actor: Actor, ws: Id, rows: seq<ImportRow>, now: int, draws: seq<Draw>)
    requires rows != [] && |rows| <= |draws|
    ensures var last := |rows| - 1; var mid, all := ImportAll(db, actor, ws, rows[..last], now, draws), ImportAll(db, actor, ws, rows, now, draws);
      && (all.Stored? <==> mid.Stored? && ImportOne(mid.db, actor, ws, rows[last], now, draws[last]).Stored?)
      && (all.Stored? ==>
            var one := ImportOne(mid.db, actor, ws, rows[last], now, draws[last]);
            all.db == one.db && all.items == mid.items + one.items && |mid.items| == last)
  {
  }

  lemma StoredBefore(
    db: Db, actor: Actor, ws: Id, rows: seq<ImportRow>, now: int, draws: seq<Draw>, mid: Imported, one: Imported, k: nat)
    requires rows != [] && |rows| <= |draws| && k < |rows| - 1 && mid.Stored? && one.Stored? && |mid.items| == |rows| - 1 && |one.items| == 1
    requires StoredAt(db, actor, ws, rows[..|rows| - 1], now, draws, mid, k)
    requires draws[|rows| - 1].item !in mid.db.items && one.db.items == mid.db.items[draws[|rows| - 1].item := one.items[0]]
    ensures StoredAt(db, actor, ws, rows, now, draws, Stored(one.db, mid.items + one.items), k)
  {
    assert rows[..|rows| - 1][k] == rows[k] && (mid.items + one.items)[k] == mid.items[k];
  }

  /** What was there stays, and what is new is a row's. */
  lemma {:induction false} ImportAdds(db: Db, actor: Actor, ws: Id, rows: seq<ImportRow>, now: int, draws: seq<Draw>)
    requires |rows| <= |draws| && ImportAll(db, actor, ws, rows, now, draws).Stored?
    ensures var items' := ImportAll(db, actor, ws, rows, now, draws).db.items;
      && (forall i :: i in db.items ==> i in items' && items'[i] == db.items[i])
      && (forall i :: i in items' && i !in db.items ==> items'[i].ws == ws && exists k :: 0 <= k < |rows| && draws[k].item == i)
    decreases |rows|
  {
    if rows != [] {
      var last := |rows| - 1;
      LastRow(db, actor, ws, rows, now, draws);
      ImportAdds(db, actor, ws, rows[..last], now, draws);
      OneStored(ImportAll(db, actor, ws, rows[..last], now, draws).db, actor, ws, rows[last], now, draws[last]);
    }
  }

  lemma StoredLast(db: Db, actor: Actor, ws: Id, rows: seq<ImportRow>, now: int, draws: seq<Draw>, mid: Imported, one: Imported)
    requires rows != [] && |rows| <= |draws| && mid.Stored? && one.Stored? && |mid.items| == |rows| - 1 && |one.items| == 1
    requires var draw, item := draws[|rows| - 1], one.items[0];
      && RowStored(rows[|rows| - 1], item) && item == Item(draw.item, ws, actor.user, item.title, item.status, 1, now, now)
      && draw.item !in db.items && one.db.items == mid.db.items[draw.item := item]
    ensures StoredAt(db, actor, ws, rows, now, draws, Stored(one.db, mid.items + one.items), |rows| - 1)
  {
    assert (mid.items + one.items)[|rows| - 1] == one.items[0];
  }

  lemma LastStored(db: Db, actor: Actor, ws: Id, rows: seq<ImportRow>, now: int, draws: seq<Draw>) returns (mid: Imported, one: Imported)
    requires rows != [] && |rows| <= |draws| && ImportAll(db, actor, ws, rows, now, draws).Stored?
    ensures mid == ImportAll(db, actor, ws, rows[..|rows| - 1], now, draws) && mid.Stored? && |mid.items| == |rows| - 1
    ensures one.Stored? && |one.items| == 1 && ImportAll(db, actor, ws, rows, now, draws) == Stored(one.db, mid.items + one.items)
    ensures var draw, item := draws[|rows| - 1], one.items[0];
      && RowStored(rows[|rows| - 1], item) && item == Item(draw.item, ws, actor.user, item.title, item.status, 1, now, now)
      && draw.item !in db.items && draw.item !in mid.db.items && one.db.items == mid.db.items[draw.item := item]
  {
    var last := |rows| - 1;
    mid := ImportAll(db, actor, ws, rows[..last], now, draws);
    one := ImportOne(mid.db, actor, ws, rows[last], now, draws[last]);
    LastRow(db, actor, ws, rows, now, draws);
    OneStored(mid.db, actor, ws, rows[last], now, draws[last]);
    ImportAdds(db, actor, ws, rows[..last], now, draws);
  }

  /** A stored import has left one item for each row, in order, the caller's, at version one. */
  lemma {:induction false} ImportLeavesRows(
    db: Db, actor: Actor, ws: Id, rows: seq<ImportRow>, now: int, draws: seq<Draw>, k: nat, r: Imported)
    requires k < |rows| <= |draws| && r == ImportAll(db, actor, ws, rows, now, draws) && r.Stored?
    ensures StoredAt(db, actor, ws, rows, now, draws, r, k)
    decreases |rows|
  {
    var mid, one := LastStored(db, actor, ws, rows, now, draws);
    if k < |rows| - 1 {
      ImportLeavesRows(db, actor, ws, rows[..|rows| - 1], now, draws, k, mid);
      StoredBefore(db, actor, ws, rows, now, draws, mid, one, k);
    } else {
      StoredLast(db, actor, ws, rows, now, draws, mid, one);
    }
  }

  /** A title of one to two hundred characters, and a status that is known or left out. */
  predicate RowProper(row: ImportRow) {
    1 <= |Trim(row.title)| <= 200 && row.status != Some(Unknown)
  }

  /** Neither the item nor the event is there yet. */
  predicate DrawFresh(db: Db, draw: Draw) {
    draw.item !in db.items && draw.event !in db.events
  }

  lemma OneStoredIff(db: Db, actor: Actor, ws: Id, row: ImportRow, now: int, draw: Draw)
    ensures ImportOne(db, actor, ws, row, now, draw).Stored? <==> RowProper(row) && DrawFresh(db, draw)
  {
    TitleIsProper(row.title);
  }

  lemma OneStoredKeys(db: Db, actor: Actor, ws: Id, row: ImportRow, now: int, draw: Draw, other: Draw)
    requires ImportOne(db, actor, ws, row, now, draw).Stored? && other.item != draw.item && other.event != draw.event && DrawFresh(db, other)
    ensures DrawFresh(ImportOne(db, actor, ws, row, now, draw).db, other)
  {
  }

  lemma {:induction false} LaterDrawFresh(db: Db, actor: Actor, ws: Id, rows: seq<ImportRow>, now: int, draws: seq<Draw>, other: Draw)
    requires |rows| <= |draws| && ImportAll(db, actor, ws, rows, now, draws).Stored? && DrawFresh(db, other)
    requires forall k :: 0 <= k < |rows| ==> other.item != draws[k].item && other.event != draws[k].event
    ensures DrawFresh(ImportAll(db, actor, ws, rows, now, draws).db, other)
    decreases |rows|
  {
    if rows != [] {
      var last := |rows| - 1;
      LaterDrawFresh(db, actor, ws, rows[..last], now, draws, other);
      OneStoredKeys(ImportAll(db, actor, ws, rows[..last], now, draws).db, actor, ws, rows[last], now, draws[last], other);
    }
  }

  predicate RowsProper(rows: seq<ImportRow>) {
    forall k | 0 <= k < |rows| :: RowProper(rows[k])
  }

  lemma RowsProperSnoc(rows: seq<ImportRow>)
    requires rows != []
    ensures RowsProper(rows) <==> RowsProper(rows[..|rows| - 1]) && RowProper(rows[|rows| - 1])
  {
    var front := rows[..|rows| - 1];
    assert forall k :: 0 <= k < |front| ==> front[k] == rows[k];
  }

  /** Ids that are new and differ from one another. */
  predicate DrawsFresh(db: Db, draws: seq<Draw>) {
    && (forall k | 0 <= k < |draws| :: DrawFresh(db, draws[k]))
    && (forall j, k | 0 <= j < k < |draws| :: draws[j].item != draws[k].item && draws[j].event != draws[k].event)
  }

  /** With fresh ids, an import's rows are all stored exactly if each of them is proper. */
  lemma {:induction false} ImportStoresIff(db: Db, actor: Actor, ws: Id, rows: seq<ImportRow>, now: int, draws: seq<Draw>)
    requires |rows| <= |draws| && DrawsFresh(db, draws)
    ensures ImportAll(db, actor, ws, rows, now, draws).Stored? <==> RowsProper(rows)
    decreases |rows|
  {
    if rows != [] {
      var last := |rows| - 1;
      LastRow(db, actor, ws, rows, now, draws);
      RowsProperSnoc(rows);
      ImportStoresIff(db, actor, ws, rows[..last], now, draws);
      var mid := ImportAll(db, actor, ws, rows[..last], now, draws);
      if mid.Stored? {
        LaterDrawFresh(db, actor, ws, rows[..last], now, draws, draws[last]);
        OneStoredIff(mid.db, actor, ws, rows[last], now, draws[last]);
      }
    }
  }

  /** An import takes effect exactly if its caller may write, it has rows, they fit beside the
      items there are, and each is proper; if ids are not drawn twice. */
  lemma ImportDecides(s: Store, op: Op, most: int)
    requires op.Import? && |op.rows| <= |op.draws| && DrawsFresh(s.db, op.draws)
    ensures ImportResult(s.db, op.authorized, op.actor, op.ws, op.rows, op.now, op.draws, most).Stored? <==>
      && op.authorized && op.rows != [] && |ItemsOf(s.db.items, op.ws)| + |op.rows| <= most
      && RowsProper(op.rows)
  {
    ImportStoresIff(s.db, op.actor, op.ws, op.rows, op.now, op.draws);
  }

  /** An import that takes effect was made by a caller who may write, has a row, and fits
      beside the items there are. */
  lemma ImportAllowed(s: Store, op: Op, most: int)
    requires op.Import? && Apply(s, op, most) != s
    ensures op.authorized && op.rows != [] && |ItemsOf(s.db.items, op.ws)| + |op.rows| <= most
    ensures |op.rows| <= |op.draws| && ImportAll(s.db, op.actor, op.ws, op.rows, op.now, op.draws).Stored?
    ensures Apply(s, op, most).db == ImportAll(s.db, op.actor, op.ws, op.rows, op.now, op.draws).db
  {
  }

  // ---------- nothing reaches another workspace ----------

  predicate Acts(s: Store, op: Op) {
    if op.FinishCreate? then op.tx in s.begun && s.begun[op.tx].call.authorized else !op.Begin? && op.authorized
  }

  function PlaceOf(s: Store, op: Op): Id
    requires if op.FinishCreate? then op.tx in s.begun else !op.Begin?
  {
    if op.FinishCreate? then s.begun[op.tx].call.ws else op.ws
  }

  ghost predicate ItemsOnlyIn(items: map<Id, Item>, items': map<Id, Item>, ws: Id) {
    && (forall i :: i in items && items[i].ws != ws ==> i in items' && items'[i] == items[i])
    && (forall i :: i in items' && items'[i].ws != ws ==> i in items && items[i] == items'[i])
  }

  lemma ImportedOnlyIn(db: Db, actor: Actor, ws: Id, rows: seq<ImportRow>, now: int, draws: seq<Draw>)
    requires |rows| <= |draws| && ImportAll(db, actor, ws, rows, now, draws).Stored?
    ensures ItemsOnlyIn(db.items, ImportAll(db, actor, ws, rows, now, draws).db.items, ws)
  {
    ImportAdds(db, actor, ws, rows, now, draws);
  }

  lemma CreateOnlyIn(s: Store, op: Op, most: int)
    requires op.FinishCreate? && ChangeOf(s, op, most).Some?
    ensures Acts(s, op) && ItemsOnlyIn(s.db.items, DbAfter(s, op, most).items, PlaceOf(s, op))
  {
    CreateDecides(s, op, most);
    CreatedItem(s, op, most);
  }

  lemma WriteAllowed(s: Store, op: Op, most: int)
    requires (op.Update? || op.Delete?) && ChangeOf(s, op, most).Some?
    ensures op.authorized && op.id in s.db.items && s.db.items[op.id].ws == op.ws
  {
  }

  lemma OneItemOnlyIn(items: map<Id, Item>, i: Id, item: Item)
    requires i in items && items[i].ws == item.ws
    ensures ItemsOnlyIn(items, items[i := item], item.ws) && ItemsOnlyIn(items, items - {i}, item.ws)
  {
  }

  lemma DeletedTables(s: Store, op: Op, most: int)
    requires Keyed(s.db) && op.Delete? && ChangeOf(s, op, most).Some?
    ensures op.id in s.db.items && Apply(s, op, most).db.items == s.db.items - {op.id}
  {
    DeleteAllowed(s.db, op.authorized, op.ws, op.id, op.version, op.now, op.draw);
    assert Apply(s, op, most).db == DbAfter(s, op, most);
    assert s.db.items[op.id].id == op.id;
  }

  lemma WriteOnlyIn(s: Store, op: Op, most: int)
    requires Keyed(s.db) && (op.Update? || op.Delete?) && ChangeOf(s, op, most).Some?
    ensures Acts(s, op) && ItemsOnlyIn(s.db.items, Apply(s, op, most).db.items, op.ws)
  {
    WriteAllowed(s, op, most);
    if op.Update? {
      UpdatedTables(s, op, most);
      OneItemOnlyIn(s.db.items, op.id, EditedItem(s.db.items[op.id], op.edit, op.now));
    } else {
      DeletedTables(s, op, most);
      OneItemOnlyIn(s.db.items, op.id, s.db.items[op.id]);
    }
  }

  lemma AppliedWrite(s: Store, op: Op, most: int)
    requires !op.Import? && Apply(s, op, most).db != s.db
    ensures ChangeOf(s, op, most).Some? && (op.FinishCreate? || op.Update? || op.Delete?) && Apply(s, op, most).db == DbAfter(s, op, most)
  {
  }

  lemma ImportOnlyIn(s: Store, op: Op, most: int)
    requires op.Import? && Apply(s, op, most).db != s.db
    ensures Acts(s, op) && ItemsOnlyIn(s.db.items, Apply(s, op, most).db.items, op.ws)
  {
    ImportAllowed(s, op, most);
    ImportedOnlyIn(s.db, op.actor, op.ws, op.rows, op.now, op.draws);
  }

  /** In any run, a write changes something only if its caller may write, and then changes
      items of its own workspace only. */
  lemma WritesStayInTheirWorkspace(before: seq<Op>, op: Op, most: int)
    requires Apply(Run(FRESH, before, most), op, most).db != Run(FRESH, before, most).db
    ensures var s := Run(FRESH, before, most); Acts(s, op) && ItemsOnlyIn(s.db.items, Apply(s, op, most).db.items, PlaceOf(s, op))
  {
    FreshKeeps();
    RunKeeps(FRESH, before, most);
    WriteStays(Run(FRESH, before, most), op, most);
  }

  lemma WriteStays(s: Store, op: Op, most: int)
    requires Keyed(s.db) && Apply(s, op, most).db != s.db
    ensures Acts(s, op) && ItemsOnlyIn(s.db.items, Apply(s, op, most).db.items, PlaceOf(s, op))
  {
    if op.Import? {
      ImportOnlyIn(s, op, most);
    } else {
      AppliedWrite(s, op, most);
      if op.FinishCreate? {
        CreateOnlyIn(s, op, most);
      } else {
        WriteOnlyIn(s, op, most);
      }
    }
  }
}
