/** The item service's transactions as they run: each works on a copy of the
    tables and assigns it back to commit, so an early return is a rollback. */
module ItemService {
  import opened Wrappers
  import opened Ordering
  import opened ItemTables
  import opened ChangeFeed
  import opened ItemOps
  import Outbox
  import Pagination

  /** One attempt at a create: its clock reading, the record its snapshot holds, and its random ids. */
  datatype Try = Try(now: int, seen: Option<Record>, draw: Draw)

  /** recordChange: prune the workspace's events, then insert the new one. */
  method RecordEvent(events: Events, c: Change) returns (events': Events)
    ensures events' == RecordChange(events, c)
  {
    var newest := Ordered(StampsOf(events, c.ws), true);
    var keep := IdsOf(if |newest| <= MAX_RETAINED - 1 then newest else newest[..MAX_RETAINED - 1]);
    events' := map e | e in events && (events[e].ws != c.ws || e in keep) :: events[e];
    events' := events'[c.id := c];
  }

  method Publish(tx: Db, ws: Id, kind: Outbox.EventType, draw: Draw, at: int) returns (ok: bool, tx': Db)
    ensures ok == CanPublish(tx.outbox, ws, kind, draw)
    ensures ok ==> tx' == tx.(outbox := Outbox.Published(tx.outbox, ws, kind, draw.out, at))
  {
    if !CanPublish(tx.outbox, ws, kind, draw) {
      return false, tx;
    }
    var outbox := Outbox.PublishInTx(tx.outbox, ws, kind, draw.out, at);
    return true, tx.(outbox := outbox);
  }

  /** The inserts of a create: item, event, deliveries and jobs. */
  method InsertItem(before: Db, ghost call: CreateCall, item: Item, draw: Draw) returns (ok: bool, tx: Db)
    requires item.id == draw.item && item.version == 1
    ensures ok == (draw.item !in before.items && Insertable(before, item.ws, Outbox.ItemCreated, draw))
    ensures ok ==> CanPublish(before.outbox, item.ws, Outbox.ItemCreated, draw)
    ensures ok ==> tx == CreateEffect(before, call, item, draw).(records := before.records)
  {
    tx := before;
    if item.id in tx.items || draw.event in tx.events {
      return false, before;
    }
    tx := tx.(items := tx.items[item.id := item]);
    var events := RecordEvent(tx.events, Change(draw.event, item.ws, item.id, Created, 1, item.createdAt));
    tx := tx.(events := events);
    ok, tx := Publish(tx, item.ws, Outbox.ItemCreated, draw, item.createdAt);
  }

  method InsertRecord(records: map<RecordKey, Record>, k: RecordKey, item: Item) returns (records': map<RecordKey, Record>)
    ensures records' == Recorded(records, k, item)
  {
    records' := records[k := Record(item.title, item, item.createdAt + RETENTION)];
  }

  /** The part of a create after the record was read: the limit, the inserts, and
      the new record, unless one has appeared. */
  method MakeItem(before: Db, call: CreateCall, title: string, t: Try, most: int) returns (outcome: Outcome, tx: Db)
    ensures outcome ==
      if CountItems(before.items, call.ws) >= most then Failed(LimitReached)
      else if t.draw.item in before.items || !Insertable(before, call.ws, Outbox.ItemCreated, t.draw) then Failed(StorageFailure)
      else if KeyOfCall(call) in before.records then Collided
      else Made(NewItem(call, title, t.now, t.draw.item))
    ensures outcome.Made? ==> CanPublish(before.outbox, call.ws, Outbox.ItemCreated, t.draw)
    ensures outcome.Made? ==> tx == CreateEffect(before, call, outcome.item, t.draw)
  {
    tx := before;
    if CountItems(tx.items, call.ws) >= most {
      return Failed(LimitReached), tx;
    }
    var item := Item(t.draw.item, call.ws, call.actor.user, title, Active, 1, t.now, t.now);
    var ok;
    ok, tx := InsertItem(tx, call, item, t.draw);
    if !ok {
      return Failed(StorageFailure), before;
    }
    if KeyOfCall(call) in tx.records {
      return Collided, before;
    }
    var records := InsertRecord(tx.records, KeyOfCall(call), item);
    tx := tx.(records := records);
    outcome := Made(item);
  }

  /** The writes of an update: item, event, deliveries and jobs. */
  method StoreItem(before: Db, item: Item, draw: Draw) returns (ok: bool, tx: Db)
    ensures ok == Insertable(before, item.ws, Outbox.ItemUpdated, draw)
    ensures ok ==> tx == UpdateEffect(before, item, draw)
  {
    tx := before.(items := before.items[item.id := item]);
    if draw.event in tx.events {
      return false, before;
    }
    var events := RecordEvent(tx.events, Change(draw.event, item.ws, item.id, Updated, item.version, item.updatedAt));
    tx := tx.(events := events);
    ok, tx := Publish(tx, item.ws, Outbox.ItemUpdated, draw, item.updatedAt);
  }

  method EditItem(before: Item, edit: Edit, now: int) returns (item: Item)
    requires EditValid(edit)
    ensures item == EditedItem(before, edit, now)
  {
    item := before;
    if edit.title.Some? {
      item := item.(title := ValidateTitle(edit.title.value).value);
    }
    if edit.status.Some? {
      item := item.(status := edit.status.value.status);
    }
    item := item.(version := item.version + 1, updatedAt := now);
  }

  lemma EditKeepsPlace(item: Item, edit: Edit, now: int)
    requires EditValid(edit)
    ensures EditedItem(item, edit, now).id == item.id && EditedItem(item, edit, now).ws == item.ws
  {
  }

  /** Taking an expired record out first makes no difference to what a create leaves. */
  lemma RecordReplaced(db: Db, tx: Db, call: CreateCall, item: Item, draw: Draw)
    requires CanPublish(db.outbox, item.ws, Outbox.ItemCreated, draw)
    requires tx == db.(records := tx.records) && (tx.records == db.records || tx.records == db.records - {KeyOfCall(call)})
    ensures CreateEffect(tx, call, item, draw) == CreateEffect(db, call, item, draw)
  {
    RemoveThenSet(db.records, KeyOfCall(call), RecordOf(item));
    assert Recorded(tx.records, KeyOfCall(call), item) == Recorded(db.records, KeyOfCall(call), item);
  }

  lemma RemoveThenSet(records: map<RecordKey, Record>, k: RecordKey, r: Record)
    ensures (records - {k})[k := r] == records[k := r]
  {
  }

  class Items {
    var db: Db
    const most: int

    constructor (most: int)
      ensures db == EMPTY && this.most == most
    {
      this.most := most;
      db := EMPTY;
    }

    /** A create, and one more attempt if the first runs into a record that was
        written after its snapshot was taken; `meanwhile` are the tables as other
        transactions have left them by then. */
    method Create(call: CreateCall, first: Try, second: Try, meanwhile: Db) returns (outcome: Outcome)
      modifies this
      ensures var one := CreateDecision(old(db), first.seen, call, first.now, first.draw, most);
        var two := CreateDecision(meanwhile, second.seen, call, second.now, second.draw, most);
        if one.Collided? then
          && outcome == (if two.Collided? then Failed(IdempotencyConflict) else two)
          && db == (if two.Made? then CreateEffect(meanwhile, call, two.item, second.draw) else meanwhile)
        else
          && outcome == one
          && db == (if one.Made? then CreateEffect(old(db), call, one.item, first.draw) else old(db))
    {
      outcome := CreateOnce(call, first);
      if outcome.Collided? {
        db := meanwhile;
        outcome := CreateOnce(call, second);
        if outcome.Collided? {
          outcome := Failed(IdempotencyConflict);
        }
      }
    }

    method CreateOnce(call: CreateCall, t: Try) returns (outcome: Outcome)
      modifies this
      ensures outcome == CreateDecision(old(db), t.seen, call, t.now, t.draw, most)
      ensures db == if outcome.Made? then CreateEffect(old(db), call, outcome.item, t.draw) else old(db)
    {
      var title := ValidateTitle(call.title);
      if title.None? || !ValidKey(call.key) {
        return Failed(InvalidInput);
      }
      if !call.authorized {
        return Failed(Forbidden);
      }
      var tx, k := db, KeyOfCall(call);
      if t.seen.Some? {
        var record := t.seen.value;
        if t.now < record.expiresAt {
          if record.request != title.value {
            return Failed(IdempotencyConflict);
          }
          return Replayed(record.result);
        }
        if Lookup(tx, k) != t.seen {
          return Failed(StorageFailure);
        }
        tx := tx.(records := tx.records - {k});
      }
      outcome, tx := MakeItem(tx, call, title.value, t, most);
      if outcome.Made? {
        RecordReplaced(db, if t.seen.Some? then db.(records := db.records - {k}) else db, call, outcome.item, t.draw);
        db := tx;
      }
    }

    method Update(authorized: bool, ws: Id, id: Id, version: int, edit: Edit, now: int, draw: Draw) returns (fault: Option<Fault>)
      requires Keyed(db)
      modifies this
      ensures fault == UpdateFault(old(db), authorized, ws, id, version, edit, draw)
      ensures db == if fault.Some? then old(db) else UpdateEffect(old(db), EditedItem(old(db).items[id], edit, now), draw)
    {
      if version < 1 || !EditValid(edit) {
        return Some(InvalidInput);
      }
      if !authorized {
        return Some(Forbidden);
      }
      var tx := db;
      if id !in tx.items || tx.items[id].ws != ws {
        return Some(NotFound);
      }
      var item := tx.items[id];
      if item.version != version {
        return Some(PreconditionFailed);
      }
      EditKeepsPlace(item, edit, now);
      item := EditItem(item, edit, now);
      var ok;
      ok, tx := StoreItem(tx, item, draw);
      if !ok {
        return Some(StorageFailure);
      }
      db := tx;
      fault := None;
    }

    method Delete(authorized: bool, ws: Id, id: Id, version: int, now: int, draw: Draw) returns (fault: Option<Fault>)
      requires Keyed(db)
      modifies this
      ensures fault == DeleteFault(old(db), authorized, ws, id, version, draw)
      ensures db == if fault.Some? then old(db) else DeleteEffect(old(db), old(db).items[id], now, draw)
    {
      if version < 1 {
        return Some(InvalidInput);
      }
      if !authorized {
        return Some(Forbidden);
      }
      var tx := db;
      if id !in tx.items || tx.items[id].ws != ws {
        return Some(NotFound);
      }
      var item := tx.items[id];
      if item.version != version {
        return Some(PreconditionFailed);
      }
      tx := tx.(items := tx.items - {id});
      if draw.event in tx.events {
        return Some(StorageFailure);
      }
      var events := RecordEvent(tx.events, Change(draw.event, ws, id, Deleted, item.version + 1, now));
      tx := tx.(events := events);
      var ok;
      ok, tx := Publish(tx, ws, Outbox.ItemDeleted, draw, now);
      if !ok {
        return Some(StorageFailure);
      }
      db := tx;
      fault := None;
    }

    /** All rows are stored, or the transaction is given up at the first bad one. */
    method ImportInTx(authorized: bool, actor: Actor, ws: Id, rows: seq<ImportRow>, now: int, draws: seq<Draw>)
      returns (fault: Option<Fault>, stored: seq<Item>)
      requires |rows| <= |draws|
      modifies this
      ensures var result := ImportResult(old(db), authorized, actor, ws, rows, now, draws, most);
        if fault.Some? then result == Stopped(fault.value) && db == old(db) else result == Stored(db, stored)
    {
      if rows == [] {
        return Some(InvalidInput), [];
      }
      if !authorized {
        return Some(Forbidden), [];
      }
      if CountItems(db.items, ws) > most - |rows| {
        return Some(LimitReached), [];
      }
      var tx := db;
      stored := [];
      for n := 0 to |rows|
        invariant db == old(db)
        invariant ImportAll(db, actor, ws, rows[..n], now, draws) == Stored(tx, stored)
      {
        ImportPrefix(db, actor, ws, rows, now, draws, n);
        var row := Normalized(rows[n]);
        if row.None? {
          return Some(InvalidInput), [];
        }
        var item := Item(draws[n].item, ws, actor.user, row.value.0, row.value.1, 1, now, now);
        if item.id in tx.items || draws[n].event in tx.events {
          return Some(StorageFailure), [];
        }
        var events := RecordEvent(tx.events, Change(draws[n].event, ws, item.id, Created, 1, now));
        tx := tx.(items := tx.items[item.id := item], events := events);
        stored := stored + [item];
      }
      assert rows[..|rows|] == rows;
      db := tx;
      fault := None;
    }

    // ---------- reading ----------

    /** Changes: three queries, between which others may commit (`second` and `third` are
        the events as the later two find them); rows are read into the page one by one,
        and the cursor moves with them. */
    method Changes(authorized: bool, ws: Id, after: Cursor, limit: int, second: Events, third: Events)
      returns (fault: Option<Fault>, page: ChangeFeed.Page)
      ensures fault == if limit < 1 || limit > 100 then Some(InvalidInput) else if !authorized then Some(Forbidden) else None
      ensures fault.None? ==> page == ChangesAcross(db.events, second, third, ws, after, limit)
      ensures fault.None? && second == third == db.events ==> page == ChangesAfter(db.events, ws, after, limit)
    {
      page := ChangeFeed.Page([], NoCursor, false);
      if limit < 1 || limit > 100 {
        return Some(InvalidInput), page;
      }
      if !authorized {
        return Some(Forbidden), page;
      }
      OneReadIsAtomic(db.events, ws, after, limit);
      var latest := Latest(db.events, ws);
      if after.NoCursor? {
        return None, ChangeFeed.Page([], latest, true);
      }
      if after.After? && (after.event !in second || second[after.event].ws != ws) {
        return None, ChangeFeed.Page([], latest, true);
      }
      page := ReadChanges(second, third, ws, after, limit);
      fault := None;
    }

    method List(ws: Id, input: Pagination.ListInput, authorized: bool) returns (listing: Pagination.Listing)
      ensures listing == Pagination.List(db.items, ws, input, authorized)
    {
      var checked := Pagination.CheckInput(input);
      if checked.None? {
        return Pagination.Refused(InvalidInput);
      }
      var q := checked.value;
      var after := None;
      if !input.cursor.NoToken? {
        if input.cursor.Garbage? || !Pagination.Accepts(q, input.cursor.position) {
          return Pagination.Refused(InvalidCursor);
        }
        after := Some(input.cursor.position.at);
      }
      if !authorized {
        return Pagination.Refused(Forbidden);
      }
      var page := ReadPage(db.items, ws, q, after);
      listing := Pagination.Listed(page);
    }
  }

  method ReadChanges(second: Events, third: Events, ws: Id, after: Cursor, limit: nat) returns (page: ChangeFeed.Page)
    requires !after.NoCursor? && (after.After? ==> after.event in second && second[after.event].ws == ws)
    ensures page == ChangesAcross(second, second, third, ws, after, limit)
  {
    StampsKnown(third, ws, SelectedAfter(second, third, ws, after), false);
    var rows := FirstOf(Ordered(SelectedAfter(second, third, ws, after), false), limit);
    page := ReadRows(third, rows, after);
  }

  method ReadRows(events: Events, rows: seq<Stamp>, after: Cursor) returns (page: ChangeFeed.Page)
    requires forall s :: s in rows ==> s.id in events
    ensures var read := Rows(events, rows);
      page == ChangeFeed.Page(read, if read == [] then after else After(read[|read| - 1].id), false)
  {
    var read, next: Cursor := [], after;
    for n := 0 to |rows|
      invariant |read| == n && forall i :: 0 <= i < n ==> read[i] == events[rows[i].id]
      invariant next == if n == 0 then after else After(read[n - 1].id)
    {
      var change := events[rows[n].id];
      read, next := read + [change], After(change.id);
    }
    assert read == Rows(events, rows);
    page := ChangeFeed.Page(read, next, false);
  }

  /** At most one row more than the limit is read, to see whether there is a next page. */
  method ReadPage(items: map<Id, Item>, ws: Id, q: Pagination.Query, after: Option<Stamp>) returns (page: Pagination.Page)
    requires q.limit > 0
    ensures page == Pagination.PageAfter(items, ws, q, after)
  {
    Pagination.RowsKnown(items, ws, q, after);
    var selected := Ordered(Pagination.Remaining(items, ws, q, after), Pagination.Descending(q));
    var rows := if |selected| > q.limit + 1 then selected[..q.limit + 1] else selected;
    var read: seq<Item> := [];
    for n := 0 to |rows|
      invariant |read| == n && forall i :: 0 <= i < n ==> read[i] == items[rows[i].id]
    {
      read := read + [items[rows[n].id]];
    }
    page := Pagination.Page(read, Pagination.NoToken);
    if |read| > q.limit {
      var last := rows[q.limit - 1];
      page := Pagination.Page(read[..q.limit], Pagination.Encoded(Pagination.PositionAt(q, last)));
    }
    assert page.items == Pagination.ItemsAt(items, Pagination.PageStamps(items, ws, q, after));
  }

  /** One more row of an import, on the tables the rows before it left. */
  lemma ImportPrefix(db: Db, actor: Actor, ws: Id, rows: seq<ImportRow>, now: int, draws: seq<Draw>, n: nat)
    requires n < |rows| <= |draws|
    ensures match ImportAll(db, actor, ws, rows[..n], now, draws)
      case Stopped(_) => true
      case Stored(mid, items) =>
        match ImportOne(mid, actor, ws, rows[n], now, draws[n])
        case Stopped(fault) => ImportAll(db, actor, ws, rows, now, draws) == Stopped(fault)
        case Stored(db', one) => ImportAll(db, actor, ws, rows[..n + 1], now, draws) == Stored(db', items + one)
  {
    assert rows[..n + 1][..n] == rows[..n];
    ImportStops(db, actor, ws, rows, now, draws, n + 1);
  }

  lemma {:induction false} ImportStops(db: Db, actor: Actor, ws: Id, rows: seq<ImportRow>, now: int, draws: seq<Draw>, n: nat)
    requires n <= |rows| <= |draws|
    ensures ImportAll(db, actor, ws, rows[..n], now, draws).Stopped? ==>
      ImportAll(db, actor, ws, rows, now, draws) == ImportAll(db, actor, ws, rows[..n], now, draws)
    decreases |rows|
  {
    if n < |rows| {
      ImportStops(db, actor, ws, rows[..|rows| - 1], now, draws, n);
      assert rows[..|rows| - 1][..n] == rows[..n];
    } else {
      assert rows[..n] == rows;
    }
  }
}
