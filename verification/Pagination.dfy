/** Keyset pagination (items/service.go, List and the cursor functions).  A page
    is cut from the matching rows in order; its cursor names the last row and
    repeats the filter, and is refused if it is too long or the filter changed. */
module Pagination {
  import opened Wrappers
  import opened Ordering
  import opened ItemTables
  import opened ItemOps
  import Search

  const MAX_CURSOR := 512

  datatype Sort = ByCreated | ByCreatedDescending | OtherSort

  /** The position a cursor encodes. */
  datatype Position = Position(status: Option<ItemStatus>, search: string, sort: Sort, at: Stamp)

  /** What a client can send as a cursor: nothing, the encoding of a position, or anything else. */
  datatype Token = NoToken | Encoded(position: Position) | Garbage

  datatype ListInput = ListInput(status: Option<StatusText>, search: string, sort: Sort, limit: int, cursor: Token)

  /** The input once it has been checked. */
  datatype Query = Query(status: Option<ItemStatus>, search: string, sort: Sort, limit: nat)

  datatype Page = Page(items: seq<Item>, next: Token)

  // ---------- the length of a cursor ----------

  /** Bytes that a character takes in the JSON text. */
  function CharCost(ch: char): nat {
    if ch in {'"', '\\', '\n', '\r', '\t', '\U{08}', '\U{0C}'} then 2
    else if ch < ' ' || ch in {'<', '>', '&', '\U{2028}', '\U{2029}'} then 6
    else if ch < '\U{80}' then 1
    else if ch < '\U{800}' then 2
    else if ch < '\U{10000}' then 3
    else 4
  }

  function Cost(text: string): nat {
    if text == [] then 0 else CharCost(text[0]) + Cost(text[1..])
  }

  function StatusLength(status: Option<ItemStatus>): nat {
    if status == None then 0 else if status.value == Active then 6 else 8
  }

  function SortLength(sort: Sort): nat {
    if sort == ByCreated then 10 else 11
  }

  /** Member names, quotes and braces take 58 bytes, the timestamp 30, the id 32. */
  function CursorLength(p: Position): nat {
    58 + 30 + 32 + StatusLength(p.status) + SortLength(p.sort) + Cost(p.search)
  }

  // ---------- one call ----------

  function CheckInput(input: ListInput): Option<Query> {
    var search := ValidateSearch(input.search);
    if search.None? || input.limit < 1 || input.limit > 100 || input.status == Some(Unknown) || input.sort == OtherSort then None
    else Some(Query(if input.status.None? then None else Some(input.status.value.status), search.value, input.sort, input.limit))
  }

  predicate Accepts(q: Query, p: Position) {
    CursorLength(p) <= MAX_CURSOR && p.status == q.status && p.search == q.search && p.sort == q.sort
  }

  predicate Descending(q: Query) {
    q.sort == ByCreatedDescending
  }

  function StampOf(item: Item): Stamp {
    Stamp(item.createdAt, item.id)
  }

  predicate Matches(q: Query, ws: Id, item: Item) {
    && item.ws == ws
    && (q.status.Some? ==> item.status == q.status.value)
    && (q.search != "" ==> Search.Contains(Search.Lower(Search.AsciiLower, item.title), Search.Lower(Search.AsciiLower, q.search)))
  }

  /** The WHERE clause as SQLite evaluates it: equality of status, and LIKE on the
      escaped search; for an empty search the clause is left out, which changes nothing. */
  lemma MatchesIsTheQuery(q: Query, ws: Id, item: Item)
    ensures Matches(q, ws, item) <==>
      && item.ws == ws
      && (q.status == None || q.status == Some(item.status))
      && Search.Like((a, b) => Search.AsciiLower(a) == Search.AsciiLower(b),
           Search.Lower(Search.AsciiLower, Search.Pattern(q.search)), Search.Lower(Search.AsciiLower, item.title))
  {
    Search.SearchIsLiteralOnSqlite(q.search, item.title);
    Search.EmptySearchFindsAll(Search.Lower(Search.AsciiLower, item.title));
  }

  function Matching(items: map<Id, Item>, ws: Id, q: Query): set<Stamp> {
    set i | i in items && Matches(q, ws, items[i]) :: Stamp(items[i].createdAt, i)
  }

  function Remaining(items: map<Id, Item>, ws: Id, q: Query, after: Option<Stamp>): set<Stamp> {
    if after.None? then Matching(items, ws, q)
    else set s | s in Matching(items, ws, q) && Precedes(Descending(q), after.value, s)
  }

  /** The stamps of one page, in order. */
  function PageStamps(items: map<Id, Item>, ws: Id, q: Query, after: Option<Stamp>): seq<Stamp> {
    var rows := Ordered(Remaining(items, ws, q, after), Descending(q));
    if |rows| > q.limit then rows[..q.limit] else rows
  }

  predicate HasMore(items: map<Id, Item>, ws: Id, q: Query, after: Option<Stamp>) {
    |Ordered(Remaining(items, ws, q, after), Descending(q))| > q.limit
  }

  function ItemsAt(items: map<Id, Item>, rows: seq<Stamp>): seq<Item>
    requires forall s :: s in rows ==> s.id in items
  {
    seq(|rows|, i requires 0 <= i < |rows| => items[rows[i].id])
  }

  lemma RowsKnown(items: map<Id, Item>, ws: Id, q: Query, after: Option<Stamp>)
    ensures forall s :: s in Ordered(Remaining(items, ws, q, after), Descending(q)) ==>
      s.id in items && s == Stamp(items[s.id].createdAt, s.id) && Matches(q, ws, items[s.id])
  {
    var rows := Ordered(Remaining(items, ws, q, after), Descending(q));
    OrderedIs(Remaining(items, ws, q, after), Descending(q));
    assert forall s :: s in rows ==> s in Elements(rows);
  }

  function PositionAt(q: Query, s: Stamp): Position {
    Position(q.status, q.search, q.sort, s)
  }

  function PageAfter(items: map<Id, Item>, ws: Id, q: Query, after: Option<Stamp>): Page {
    RowsKnown(items, ws, q, after);
    var stamps := PageStamps(items, ws, q, after);
    Page(ItemsAt(items, stamps),
         if HasMore(items, ws, q, after) && q.limit > 0 then Encoded(PositionAt(q, stamps[q.limit - 1])) else NoToken)
  }

  datatype Listing = Refused(fault: Fault) | Listed(page: Page)

  function List(items: map<Id, Item>, ws: Id, input: ListInput, authorized: bool): Listing {
    var q := CheckInput(input);
    if q.None? then Refused(InvalidInput)
    else if input.cursor.Garbage? || (input.cursor.Encoded? && !Accepts(q.value, input.cursor.position)) then Refused(InvalidCursor)
    else if !authorized then Refused(Forbidden)
    else Listed(PageAfter(items, ws, q.value, if input.cursor.Encoded? then Some(input.cursor.position.at) else None))
  }

  // ---------- what a listing says of its input ----------

  /** Earlier by creation time, and by id within one instant. */
  predicate Earlier(a: Item, b: Item) {
    a.createdAt < b.createdAt || (a.createdAt == b.createdAt && a.id < b.id)
  }

  /** The item is what the input asks for. */
  predicate Wanted(input: ListInput, ws: Id, item: Item) {
    && item.ws == ws
    && (input.status.Some? ==> input.status.value == Known(item.status))
    && (var search := Trim(input.search);
        search == "" || Search.Contains(Search.Lower(Search.AsciiLower, item.title), Search.Lower(Search.AsciiLower, search)))
  }

  /** It comes after the row at which the cursor was cut. */
  predicate PastCursor(input: ListInput, item: Item) {
    input.cursor.Encoded? ==>
      var at := input.cursor.position.at;
      if input.sort == ByCreatedDescending then item.createdAt < at.time || (item.createdAt == at.time && item.id < at.id)
      else at.time < item.createdAt || (item.createdAt == at.time && at.id < item.id)
  }

  ghost predicate RowsKeyed(items: map<Id, Item>) {
    forall i :: i in items ==> items[i].id == i
  }

  /** A listing is given exactly to those who may read, for a search of at most a hundred
      characters, a limit from 1 to 100, a known status and one of the two sorts, with no
      cursor or one that was cut for the same filter and fits in 512 bytes. */
  lemma ListedIff(items: map<Id, Item>, ws: Id, input: ListInput, authorized: bool)
    ensures List(items, ws, input, authorized).Listed? <==>
      && authorized && |Trim(input.search)| <= 100 && 1 <= input.limit <= 100 && input.status != Some(Unknown)
      && (input.sort == ByCreated || input.sort == ByCreatedDescending)
      && (input.cursor.NoToken? ||
          (&& input.cursor.Encoded? && CursorLength(input.cursor.position) <= 512
           && input.cursor.position.search == Trim(input.search) && input.cursor.position.sort == input.sort
           && (input.status.None? <==> input.cursor.position.status.None?)
           && (input.status.Some? ==> input.status.value == Known(input.cursor.position.status.value))))
  {
  }

  lemma WantedIs(items: map<Id, Item>, ws: Id, input: ListInput, q: Query, i: Id)
    requires CheckInput(input) == Some(q) && RowsKeyed(items) && i in items
    ensures var after := if input.cursor.Encoded? then Some(input.cursor.position.at) else None;
      Stamp(items[i].createdAt, i) in Remaining(items, ws, q, after) <==> Wanted(input, ws, items[i]) && PastCursor(input, items[i])
  {
  }

  lemma EarlierIs(a: Item, b: Item)
    ensures Precedes(false, StampOf(a), StampOf(b)) <==> Earlier(a, b)
    ensures Precedes(true, StampOf(a), StampOf(b)) <==> Earlier(b, a)
  {
  }

  lemma PageItem(items: map<Id, Item>, ws: Id, input: ListInput, q: Query, after: Option<Stamp>, k: nat)
    requires CheckInput(input) == Some(q) && RowsKeyed(items) && k < |PageStamps(items, ws, q, after)|
    requires after == if input.cursor.Encoded? then Some(input.cursor.position.at) else None
    ensures |PageAfter(items, ws, q, after).items| == |PageStamps(items, ws, q, after)|
    ensures var item := PageAfter(items, ws, q, after).items[k];
      && item.id in items && items[item.id] == item && StampOf(item) == PageStamps(items, ws, q, after)[k]
      && Wanted(input, ws, item) && PastCursor(input, item)
  {
    var rows := Ordered(Remaining(items, ws, q, after), Descending(q));
    RowsKnown(items, ws, q, after);
    OrderedIs(Remaining(items, ws, q, after), Descending(q));
    assert rows[k] in Elements(rows);
    WantedIs(items, ws, input, q, rows[k].id);
  }

  /** The items of a page are rows of the workspace that the input asks for and that come
      after the cursor, as many as the limit allows, in the order the input asks for. */
  lemma ListedItems(items: map<Id, Item>, ws: Id, input: ListInput, authorized: bool)
    requires RowsKeyed(items) && List(items, ws, input, authorized).Listed?
    ensures var page := List(items, ws, input, authorized).page.items;
      && |page| <= input.limit
      && (forall k :: 0 <= k < |page| ==> page[k].id in items && items[page[k].id] == page[k] && Wanted(input, ws, page[k]) && PastCursor(input, page[k]))
      && (forall j, k :: 0 <= j < k < |page| ==> if input.sort == ByCreated then Earlier(page[j], page[k]) else Earlier(page[k], page[j]))
  {
    var q := CheckInput(input).value;
    var after := if input.cursor.Encoded? then Some(input.cursor.position.at) else None;
    var page, stamps := PageAfter(items, ws, q, after).items, PageStamps(items, ws, q, after);
    forall k | 0 <= k < |stamps| { PageItem(items, ws, input, q, after, k); }
    PageInOrder(items, ws, q, after);
    forall j, k | 0 <= j < k < |page| ensures if input.sort == ByCreated then Earlier(page[j], page[k]) else Earlier(page[k], page[j]) {
      assert Precedes(Descending(q), stamps[j], stamps[k]);
      EarlierIs(page[j], page[k]);
    }
  }

  /** Whatever the input asks for and comes after the cursor is on the page, or the page is
      full, ends before it, and has a cursor at its last item. */
  lemma ListedAll(items: map<Id, Item>, ws: Id, input: ListInput, authorized: bool, i: Id)
    requires RowsKeyed(items) && List(items, ws, input, authorized).Listed?
    requires i in items && Wanted(input, ws, items[i]) && PastCursor(input, items[i])
    ensures var page := List(items, ws, input, authorized).page;
      || items[i] in page.items
      || (&& |page.items| == input.limit && page.next.Encoded?
          && (var last := page.items[input.limit - 1];
              && page.next.position.at == Stamp(last.createdAt, last.id)
              && if input.sort == ByCreated then Earlier(last, items[i]) else Earlier(items[i], last)))
  {
    var q := CheckInput(input).value;
    var after := if input.cursor.Encoded? then Some(input.cursor.position.at) else None;
    var page, stamps, s := PageAfter(items, ws, q, after), PageStamps(items, ws, q, after), StampOf(items[i]);
    WantedIs(items, ws, input, q, i);
    OnPageOrLater(items, ws, q, after, s);
    if s in stamps {
      var k :| 0 <= k < |stamps| && stamps[k] == s;
      PageItem(items, ws, input, q, after, k);
      assert page.items[k] == items[i];
    } else {
      PageItem(items, ws, input, q, after, q.limit - 1);
      EarlierIs(page.items[q.limit - 1], items[i]);
    }
  }

  /** A cursor is handed out exactly if something the input asks for is left after the page. */
  lemma NextIff(items: map<Id, Item>, ws: Id, input: ListInput, authorized: bool)
    requires RowsKeyed(items) && List(items, ws, input, authorized).Listed?
    ensures var page := List(items, ws, input, authorized).page;
      page.next.Encoded? <==> exists i :: i in items && Wanted(input, ws, items[i]) && PastCursor(input, items[i]) && items[i] !in page.items
  {
    var q := CheckInput(input).value;
    var after := if input.cursor.Encoded? then Some(input.cursor.position.at) else None;
    var page := PageAfter(items, ws, q, after);
    if HasMore(items, ws, q, after) {
      LeftOver(items, ws, input, q, after);
    }
    forall i | i in items && Wanted(input, ws, items[i]) && PastCursor(input, items[i]) && items[i] !in page.items ensures page.next.Encoded? {
      ListedAll(items, ws, input, authorized, i);
    }
  }

  lemma LeftOver(items: map<Id, Item>, ws: Id, input: ListInput, q: Query, after: Option<Stamp>)
    requires CheckInput(input) == Some(q) && RowsKeyed(items) && HasMore(items, ws, q, after)
    requires after == if input.cursor.Encoded? then Some(input.cursor.position.at) else None
    ensures exists i :: i in items && Wanted(input, ws, items[i]) && PastCursor(input, items[i]) && items[i] !in PageAfter(items, ws, q, after).items
  {
    var rows := Ordered(Remaining(items, ws, q, after), Descending(q));
    RowsKnown(items, ws, q, after);
    OrderedIs(Remaining(items, ws, q, after), Descending(q));
    var x := rows[q.limit];
    assert x in Elements(rows);
    WantedIs(items, ws, input, q, x.id);
    var page := PageAfter(items, ws, q, after).items;
    forall k | 0 <= k < |page| ensures page[k] != items[x.id] {
      PageItem(items, ws, input, q, after, k);
      assert Precedes(Descending(q), rows[k], rows[q.limit]);
    }
  }

  // ---------- cursors ----------

  /** Whether a cursor that List hands out will be taken back depends only on the
      filter: the text must cost at most what the rest leaves of 512 bytes. */
  predicate CursorsFit(q: Query) {
    Cost(q.search) <= MAX_CURSOR - 120 - StatusLength(q.status) - SortLength(q.sort)
  }

  /** A page's own cursor is taken back by the same query exactly when cursors fit. */
  lemma OwnCursorAccepted(q: Query, s: Stamp)
    ensures Accepts(q, PositionAt(q, s)) <==> CursorsFit(q)
  {
  }

  lemma {:induction false} CostAtMost(text: string)
    ensures Cost(text) <= 6 * |text|
  {
    if text != [] {
      CostAtMost(text[1..]);
    }
  }

  /** Searches of up to 62 characters always fit. */
  lemma ShortSearchesFit(q: Query)
    requires |q.search| <= 62
    ensures CursorsFit(q)
  {
    CostAtMost(q.search);
  }

  lemma {:induction false} AnglesCost(text: string)
    requires forall i :: 0 <= i < |text| ==> text[i] == '<'
    ensures Cost(text) == 6 * |text|
  {
    if text != [] {
      AnglesCost(text[1..]);
    }
  }

  // ---------- following the cursors on a table that does not change ----------

  lemma RemainingAfter(items: map<Id, Item>, ws: Id, q: Query, after: Option<Stamp>, last: Stamp)
    requires last in Remaining(items, ws, q, after)
    ensures Remaining(items, ws, q, Some(last)) == set x | x in Remaining(items, ws, q, after) && Precedes(Descending(q), last, x)
  {
  }

  lemma OrderedRemaining(items: map<Id, Item>, ws: Id, q: Query, after: Option<Stamp>, n: nat)
    requires 0 < n <= |Ordered(Remaining(items, ws, q, after), Descending(q))|
    ensures var rows := Ordered(Remaining(items, ws, q, after), Descending(q));
      Ordered(Remaining(items, ws, q, Some(rows[n - 1])), Descending(q)) == rows[n..]
  {
    var desc, s := Descending(q), Remaining(items, ws, q, after);
    OrderedIs(s, desc);
    assert Ordered(s, desc)[n - 1] in Elements(Ordered(s, desc));
    RemainingAfter(items, ws, q, after, Ordered(s, desc)[n - 1]);
    OrderedAfter(s, desc, n - 1);
  }

  /** The rows a client collects from `after` on, and whether it reached the end or was refused. */
  datatype Walk = Walk(rows: seq<Stamp>, finished: bool)

  function Follow(items: map<Id, Item>, ws: Id, q: Query, after: Option<Stamp>): Walk
    requires q.limit > 0
    decreases |Ordered(Remaining(items, ws, q, after), Descending(q))|
  {
    var page := PageStamps(items, ws, q, after);
    if !HasMore(items, ws, q, after) then Walk(page, true)
    else
      var last := page[q.limit - 1];
      OrderedRemaining(items, ws, q, after, q.limit);
      if !Accepts(q, PositionAt(q, last)) then Walk(page, false)
      else
        var rest := Follow(items, ws, q, Some(last));
        Walk(page + rest.rows, rest.finished)
  }

  /** All rows from `after` on. */
  function Rest(items: map<Id, Item>, ws: Id, q: Query, after: Option<Stamp>): seq<Stamp> {
    Ordered(Remaining(items, ws, q, after), Descending(q))
  }

  lemma FollowOnce(items: map<Id, Item>, ws: Id, q: Query, after: Option<Stamp>)
    requires q.limit > 0
    ensures var rows := Rest(items, ws, q, after);
      Follow(items, ws, q, after) ==
        if |rows| <= q.limit then Walk(rows, true)
        else if !CursorsFit(q) then Walk(rows[..q.limit], false)
        else
          var next := Follow(items, ws, q, Some(rows[q.limit - 1]));
          Walk(rows[..q.limit] + next.rows, next.finished)
  {
    var rows := Rest(items, ws, q, after);
    if |rows| > q.limit {
      OwnCursorAccepted(q, rows[q.limit - 1]);
    }
  }

  lemma {:induction false} FollowFrom(items: map<Id, Item>, ws: Id, q: Query, after: Option<Stamp>)
    requires q.limit > 0
    ensures var rows := Rest(items, ws, q, after);
      Follow(items, ws, q, after) ==
        if |rows| <= q.limit || CursorsFit(q) then Walk(rows, true) else Walk(rows[..q.limit], false)
    decreases |Rest(items, ws, q, after)|
  {
    var rows := Rest(items, ws, q, after);
    FollowOnce(items, ws, q, after);
    if |rows| > q.limit && CursorsFit(q) {
      OrderedRemaining(items, ws, q, after, q.limit);
      FollowFrom(items, ws, q, Some(rows[q.limit - 1]));
      SplitAt(rows, q.limit);
    }
  }

  lemma SplitAt(rows: seq<Stamp>, n: nat)
    requires n <= |rows|
    ensures rows[..n] + rows[n..] == rows
  {
  }

  /** Following the cursors yields every matching item exactly once and in order,
      and ends, if and only if all matches fit on one page or cursors fit; if not,
      the client is refused right after the first page. */
  lemma PaginationIsExact(items: map<Id, Item>, ws: Id, q: Query)
    requires q.limit > 0
    ensures var all := Ordered(Matching(items, ws, q), Descending(q)); var walk := Follow(items, ws, q, None);
      && (walk == Walk(all, true) <==> |Matching(items, ws, q)| <= q.limit || CursorsFit(q))
      && (walk != Walk(all, true) ==> walk == Walk(all[..q.limit], false))
      && Elements(all) == Matching(items, ws, q) && |all| == |Matching(items, ws, q)|
      && Ascends(Descending(q), all)
  {
    FollowFrom(items, ws, q, None);
    OrderedIs(Matching(items, ws, q), Descending(q));
  }

  /** The calls a walk stands for: each page is a call of List with the last page's cursor. */
  lemma FollowIsListing(items: map<Id, Item>, ws: Id, input: ListInput, q: Query, after: Option<Stamp>)
    requires CheckInput(input) == Some(q)
    requires input.cursor == if after.None? then NoToken else Encoded(PositionAt(q, after.value))
    requires after.None? || CursorsFit(q)
    ensures List(items, ws, input, true) == Listed(PageAfter(items, ws, q, after))
    ensures |PageAfter(items, ws, q, after).items| == |PageStamps(items, ws, q, after)|
    ensures PageAfter(items, ws, q, after).next == NoToken <==> !HasMore(items, ws, q, after)
  {
  }

  // ---------- a search too long to page through ----------

  /** A hundred `<` is a valid search, but each becomes six bytes, so the cursor
      of its first page is refused. */
  lemma LongSearchIsRefused(items: map<Id, Item>, ws: Id, search: string, limit: int)
    requires 1 <= limit <= 100 && |search| == 100 && forall i :: 0 <= i < |search| ==> search[i] == '<'
    ensures var input := ListInput(None, search, ByCreated, limit, NoToken);
      var q := Query(None, search, ByCreated, limit);
      && CheckInput(input) == Some(q)
      && (HasMore(items, ws, q, None) ==>
            List(items, ws, input.(cursor := PageAfter(items, ws, q, None).next), true) == Refused(InvalidCursor))
  {
    AnglesCost(search);
    assert TrimLeft(search) == search && TrimRight(search) == search;
    var q := Query(None, search, ByCreated, limit);
    assert !CursorsFit(q);
    if HasMore(items, ws, q, None) {
      UnfitIsRefused(items, ws, ListInput(None, search, ByCreated, limit, NoToken), q);
    }
  }

  /** When cursors do not fit, no second page can be had. */
  lemma UnfitIsRefused(items: map<Id, Item>, ws: Id, input: ListInput, q: Query)
    requires CheckInput(input) == Some(q) && !CursorsFit(q) && HasMore(items, ws, q, None)
    ensures List(items, ws, input.(cursor := PageAfter(items, ws, q, None).next), true) == Refused(InvalidCursor)
  {
    OwnCursorAccepted(q, PageStamps(items, ws, q, None)[q.limit - 1]);
    assert CheckInput(input.(cursor := PageAfter(items, ws, q, None).next)) == Some(q);
  }

  // ---------- following the cursors while the table changes ----------

  /** Page after page, each cut from the table as it is when that page is asked for. */
  function FollowAcross(tables: seq<map<Id, Item>>, ws: Id, q: Query, after: Option<Stamp>): Walk
    requires q.limit > 0
    decreases |tables|
  {
    if tables == [] then Walk([], false)
    else
      var page := PageStamps(tables[0], ws, q, after);
      if !HasMore(tables[0], ws, q, after) then Walk(page, true)
      else if !Accepts(q, PositionAt(q, page[q.limit - 1])) then Walk(page, false)
      else
        var rest := FollowAcross(tables[1..], ws, q, Some(page[q.limit - 1]));
        Walk(page + rest.rows, rest.finished)
  }

  /** If nothing changes, this is the walk that PaginationIsExact speaks of. */
  lemma {:induction false} StillTables(tables: seq<map<Id, Item>>, items: map<Id, Item>, ws: Id, q: Query, after: Option<Stamp>)
    requires q.limit > 0 && |tables| > |Rest(items, ws, q, after)| && forall k :: 0 <= k < |tables| ==> tables[k] == items
    ensures FollowAcross(tables, ws, q, after) == Follow(items, ws, q, after)
    decreases |tables|
  {
    var rows := Rest(items, ws, q, after);
    if HasMore(items, ws, q, after) {
      var last := PageStamps(items, ws, q, after)[q.limit - 1];
      assert last == rows[q.limit - 1];
      OrderedRemaining(items, ws, q, after, q.limit);
      assert |Rest(items, ws, q, Some(last))| < |rows|;
      StillTables(tables[1..], items, ws, q, Some(last));
    }
  }

  predicate AllAfter(desc: bool, rows: seq<Stamp>, after: Option<Stamp>) {
    after.Some? ==> forall i :: 0 <= i < |rows| ==> Precedes(desc, after.value, rows[i])
  }

  lemma PageInOrder(items: map<Id, Item>, ws: Id, q: Query, after: Option<Stamp>)
    ensures var page := PageStamps(items, ws, q, after);
      && Ascends(Descending(q), page) && AllAfter(Descending(q), page, after)
      && Elements(page) <= Remaining(items, ws, q, after)
      && (HasMore(items, ws, q, after) ==> |page| == q.limit)
  {
    var s, desc := Remaining(items, ws, q, after), Descending(q);
    OrderedIs(s, desc);
    assert forall i :: 0 <= i < |Ordered(s, desc)| ==> Ordered(s, desc)[i] in Elements(Ordered(s, desc));
  }

  lemma AscendsJoin(desc: bool, a: seq<Stamp>, b: seq<Stamp>)
    requires Ascends(desc, a) && Ascends(desc, b) && a != [] && AllAfter(desc, b, Some(a[|a| - 1]))
    ensures Ascends(desc, a + b)
  {
    forall i, j | 0 <= i < j < |a + b| ensures Precedes(desc, (a + b)[i], (a + b)[j]) {
      if i < |a| <= j {
        assert i == |a| - 1 || Precedes(desc, a[i], a[|a| - 1]);
        assert (a + b)[j] == b[j - |a|];
      }
    }
  }

  /** Whatever is created, changed or deleted between pages, rows come strictly in order. */
  lemma {:induction false} AcrossInOrder(tables: seq<map<Id, Item>>, ws: Id, q: Query, after: Option<Stamp>)
    requires q.limit > 0
    ensures var rows := FollowAcross(tables, ws, q, after).rows;
      Ascends(Descending(q), rows) && AllAfter(Descending(q), rows, after)
    decreases |tables|
  {
    if tables != [] {
      var desc, page := Descending(q), PageStamps(tables[0], ws, q, after);
      PageInOrder(tables[0], ws, q, after);
      if HasMore(tables[0], ws, q, after) {
        var last := page[q.limit - 1];
        AcrossInOrder(tables[1..], ws, q, Some(last));
        var rest := FollowAcross(tables[1..], ws, q, Some(last)).rows;
        AscendsJoin(desc, page, rest);
        AfterJoin(desc, page, rest, after);
      }
    }
  }

  lemma AfterJoin(desc: bool, a: seq<Stamp>, b: seq<Stamp>, after: Option<Stamp>)
    requires a != [] && AllAfter(desc, a, after) && AllAfter(desc, b, Some(a[|a| - 1]))
    ensures AllAfter(desc, a + b, after)
  {
    if after.Some? {
      forall i | 0 <= i < |a + b| ensures Precedes(desc, after.value, (a + b)[i]) {
        if i >= |a| {
          assert (a + b)[i] == b[i - |a|];
          assert Precedes(desc, after.value, a[|a| - 1]) && Precedes(desc, a[|a| - 1], b[i - |a|]);
        }
      }
    }
  }

  /** The item is there and matches at every page. */
  ghost predicate Throughout(tables: seq<map<Id, Item>>, ws: Id, q: Query, s: Stamp) {
    forall k :: 0 <= k < |tables| ==> s in Matching(tables[k], ws, q)
  }

  lemma OnPageOrLater(items: map<Id, Item>, ws: Id, q: Query, after: Option<Stamp>, s: Stamp)
    requires q.limit > 0 && s in Remaining(items, ws, q, after)
    ensures var page := PageStamps(items, ws, q, after);
      if HasMore(items, ws, q, after) then |page| == q.limit && (s in page || Precedes(Descending(q), page[q.limit - 1], s)) else s in page
  {
    var rows := Ordered(Remaining(items, ws, q, after), Descending(q));
    OrderedIs(Remaining(items, ws, q, after), Descending(q));
    assert s in Elements(rows);
    var i :| 0 <= i < |rows| && rows[i] == s;
    if i < q.limit && HasMore(items, ws, q, after) {
      assert rows[..q.limit][i] == s;
    }
  }

  /** A walk that is not refused never skips an item that exists and matches
      whenever a page is cut. */
  lemma {:induction false} NeverSkipped(tables: seq<map<Id, Item>>, ws: Id, q: Query, after: Option<Stamp>, s: Stamp)
    requires q.limit > 0 && Throughout(tables, ws, q, s) && (after.Some? ==> Precedes(Descending(q), after.value, s))
    requires FollowAcross(tables, ws, q, after).finished
    ensures s in FollowAcross(tables, ws, q, after).rows
    decreases |tables|
  {
    var page := PageStamps(tables[0], ws, q, after);
    assert s in Matching(tables[0], ws, q);
    OnPageOrLater(tables[0], ws, q, after, s);
    if HasMore(tables[0], ws, q, after) && s !in page {
      assert Throughout(tables[1..], ws, q, s);
      NeverSkipped(tables[1..], ws, q, Some(page[q.limit - 1]), s);
    }
  }

  /** Every row of a walk was in one of the tables. */
  lemma {:induction false} RowFromTable(tables: seq<map<Id, Item>>, ws: Id, q: Query, after: Option<Stamp>, s: Stamp)
    requires q.limit > 0 && s in FollowAcross(tables, ws, q, after).rows
    ensures exists k :: 0 <= k < |tables| && s in Matching(tables[k], ws, q)
    decreases |tables|
  {
    var page := PageStamps(tables[0], ws, q, after);
    PageInOrder(tables[0], ws, q, after);
    if s in page {
      assert s in Elements(page);
      assert s in Matching(tables[0], ws, q);
    } else {
      RowFromTable(tables[1..], ws, q, Some(page[q.limit - 1]), s);
      var k :| 0 <= k < |tables| - 1 && s in Matching(tables[1..][k], ws, q);
      assert tables[1..][k] == tables[k + 1];
    }
  }

  /** An item that lives in two of the tables has the same creation time in both. */
  ghost predicate CreatedAtFixed(tables: seq<map<Id, Item>>) {
    forall j, k, i :: 0 <= j < |tables| && 0 <= k < |tables| && i in tables[j] && i in tables[k] ==>
      tables[j][i].createdAt == tables[k][i].createdAt
  }

  /** No item comes up twice. */
  lemma NeverRepeated(tables: seq<map<Id, Item>>, ws: Id, q: Query, a: nat, b: nat)
    requires q.limit > 0 && CreatedAtFixed(tables) && a < b < |FollowAcross(tables, ws, q, None).rows|
    ensures FollowAcross(tables, ws, q, None).rows[a].id != FollowAcross(tables, ws, q, None).rows[b].id
  {
    var rows := FollowAcross(tables, ws, q, None).rows;
    AcrossInOrder(tables, ws, q, None);
    assert Precedes(Descending(q), rows[a], rows[b]);
    RowFromTable(tables, ws, q, None, rows[a]);
    RowFromTable(tables, ws, q, None, rows[b]);
  }
}
