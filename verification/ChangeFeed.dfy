/** The change feed (items/events.go): each write keeps the newest 999 events of
    its workspace and adds one, and a client resumes after the last event it has
    seen.  What a client is promised is stated against the full history, which
    the table no longer holds. */
module ChangeFeed {
  import opened Ordering
  import opened Sums
  import opened ItemTables

  const MAX_RETAINED := 1000

  type Events = map<Id, Change>

  function StampOf(c: Change): Stamp {
    Stamp(c.at, c.id)
  }

  function StampsOf(events: Events, ws: Id): set<Stamp> {
    set e | e in events && events[e].ws == ws :: Stamp(events[e].at, e)
  }

  function IdsOf(q: seq<Stamp>): set<Id> {
    set s | s in q :: s.id
  }

  function FirstOf<T>(q: seq<T>, n: nat): seq<T> {
    if |q| <= n then q else q[..n]
  }

  function LastOf<T>(q: seq<T>, n: nat): seq<T> {
    if |q| <= n then q else q[|q| - n..]
  }

  /** The ids the subquery of recordChange selects. */
  function Newest(events: Events, ws: Id): set<Id> {
    IdsOf(FirstOf(Ordered(StampsOf(events, ws), true), MAX_RETAINED - 1))
  }

  function Pruned(events: Events, ws: Id): Events {
    map e | e in events && (events[e].ws != ws || e in Newest(events, ws)) :: events[e]
  }

  function RecordChange(events: Events, c: Change): Events {
    Pruned(events, c.ws)[c.id := c]
  }

  // ---------- reading ----------

  datatype Cursor = NoCursor | Origin | After(event: Id)

  datatype Page = Page(changes: seq<Change>, next: Cursor, resync: bool)

  function Latest(events: Events, ws: Id): Cursor {
    var newest := Ordered(StampsOf(events, ws), true);
    if newest == [] then Origin else After(newest[0].id)
  }

  function Rows(events: Events, q: seq<Stamp>): seq<Change>
    requires forall s :: s in q ==> s.id in events
  {
    seq(|q|, i requires 0 <= i < |q| => events[q[i].id])
  }

  /** The stamps a page is cut from: everything, or everything after the cursor's event. */
  function Following(events: Events, ws: Id, after: Cursor): set<Stamp>
    requires after.After? ==> after.event in events
  {
    if after.After? then
      var cut := Stamp(events[after.event].at, after.event);
      set s | s in StampsOf(events, ws) && Precedes(false, cut, s)
    else StampsOf(events, ws)
  }

  lemma StampsKnown(events: Events, ws: Id, s: set<Stamp>, desc: bool)
    requires s <= StampsOf(events, ws)
    ensures forall x :: x in Ordered(s, desc) ==> x.id in events && events[x.id].ws == ws && x == Stamp(events[x.id].at, x.id)
  {
    OrderedIs(s, desc);
    assert forall x :: x in Ordered(s, desc) ==> x in Elements(Ordered(s, desc));
  }

  function ChangesAfter(events: Events, ws: Id, after: Cursor, limit: nat): Page {
    if after.NoCursor? || (after.After? && (after.event !in events || events[after.event].ws != ws))
    then Page([], Latest(events, ws), true)
    else
      StampsKnown(events, ws, Following(events, ws, after), false);
      var rows := Rows(events, FirstOf(Ordered(Following(events, ws, after), false), limit));
      Page(rows, if rows == [] then after else After(rows[|rows| - 1].id), false)
  }

  // ---------- the feed of a workspace, in order ----------

  function StampsIn(changes: seq<Change>): (q: seq<Stamp>)
    ensures |q| == |changes| && forall i :: 0 <= i < |q| ==> q[i] == StampOf(changes[i])
  {
    seq(|changes|, i requires 0 <= i < |changes| => StampOf(changes[i]))
  }

  /** Event keys rise strictly. */
  ghost predicate Rising(changes: seq<Change>) {
    Ascends(false, StampsIn(changes))
  }

  /** The table holds exactly these rows for the workspace. */
  ghost predicate Holds(events: Events, ws: Id, rows: seq<Change>) {
    && (forall i :: 0 <= i < |rows| ==> rows[i].id in events && events[rows[i].id] == rows[i] && rows[i].ws == ws)
    && (forall e :: e in events && events[e].ws == ws ==> exists i :: 0 <= i < |rows| && rows[i].id == e)
  }

  lemma HeldStamps(events: Events, ws: Id, rows: seq<Change>)
    requires Holds(events, ws, rows)
    ensures StampsOf(events, ws) == Elements(StampsIn(rows))
  {
    var q := StampsIn(rows);
    forall s | s in StampsOf(events, ws) ensures s in Elements(q) {
      var e :| e in events && events[e].ws == ws && s == Stamp(events[e].at, e);
      var i :| 0 <= i < |rows| && rows[i].id == e;
      assert q[i] == s;
    }
    forall s | s in Elements(q) ensures s in StampsOf(events, ws) {
      var i :| 0 <= i < |q| && q[i] == s;
      assert rows[i].id in events;
    }
  }

  /** In a rising feed, ascending order is the order of the feed. */
  lemma HeldInOrder(events: Events, ws: Id, rows: seq<Change>)
    requires Holds(events, ws, rows) && Rising(rows)
    ensures Ordered(StampsOf(events, ws), false) == StampsIn(rows)
    ensures Ordered(StampsOf(events, ws), true) == Backwards(StampsIn(rows))
  {
    HeldStamps(events, ws, rows);
    OrderIsUnique(StampsIn(rows), false);
    OrderedReversed(StampsOf(events, ws));
  }

  // ---------- recording ----------

  lemma NewestIds(events: Events, ws: Id)
    ensures Newest(events, ws) == set s | s in Top(StampsOf(events, ws), MAX_RETAINED - 1) :: s.id
  {
    var q := Ordered(StampsOf(events, ws), true);
    TopIsFront(StampsOf(events, ws), MAX_RETAINED - 1);
    assert q[..|q|] == q;
    var front := FirstOf(q, MAX_RETAINED - 1);
    assert Elements(front) == Top(StampsOf(events, ws), MAX_RETAINED - 1);
    assert forall s :: s in front <==> s in Elements(front);
  }

  /** A retained row keeps its stamp; of its own workspace only the top is retained. */
  lemma PrunedStamps(events: Events, c: Change, x: Stamp)
    requires c.id !in events
    ensures x in StampsOf(Pruned(events, c.ws), c.ws) <==> x in Top(StampsOf(events, c.ws), MAX_RETAINED - 1)
  {
    NewestIds(events, c.ws);
    var top := Top(StampsOf(events, c.ws), MAX_RETAINED - 1);
    if x in StampsOf(Pruned(events, c.ws), c.ws) {
      var s :| s in top && s.id == x.id;
      assert s in StampsOf(events, c.ws);
    }
    if x in top {
      assert x in StampsOf(events, c.ws);
      assert x.id in events && events[x.id].ws == c.ws && x == Stamp(events[x.id].at, x.id);
      assert x.id in Newest(events, c.ws);
      assert x.id in Pruned(events, c.ws) && Pruned(events, c.ws)[x.id] == events[x.id];
    }
  }

  lemma AddedStamps(events: Events, c: Change, ws: Id)
    requires c.id !in events
    ensures StampsOf(events[c.id := c], ws) == StampsOf(events, ws) + if ws == c.ws then {StampOf(c)} else {}
  {
    var events' := events[c.id := c];
    forall s | s in StampsOf(events, ws) ensures s in StampsOf(events', ws) {
      assert s.id in events && events'[s.id] == events[s.id];
    }
    assert events'[c.id] == c;
  }

  lemma PrunedElsewhere(events: Events, gone: Id, ws: Id)
    requires ws != gone
    ensures StampsOf(Pruned(events, gone), ws) == StampsOf(events, ws)
  {
    var events' := Pruned(events, gone);
    forall s | s in StampsOf(events, ws) ensures s in StampsOf(events', ws) {
      assert s.id in events && events[s.id].ws == ws;
      assert s.id in events' && events'[s.id] == events[s.id];
    }
  }

  /** Recording keeps the newest 999 events of the workspace and adds one; other
      workspaces keep theirs. */
  lemma RecordStamps(events: Events, c: Change, ws: Id)
    requires c.id !in events
    ensures StampsOf(RecordChange(events, c), ws) ==
      if ws == c.ws then Top(StampsOf(events, ws), 999) + {StampOf(c)} else StampsOf(events, ws)
  {
    AddedStamps(Pruned(events, c.ws), c, ws);
    if ws == c.ws {
      forall x ensures x in StampsOf(Pruned(events, ws), ws) <==> x in Top(StampsOf(events, ws), MAX_RETAINED - 1) {
        PrunedStamps(events, c, x);
      }
    } else {
      PrunedElsewhere(events, c.ws, ws);
    }
  }

  /** The stamps that are in the table when `q` has been recorded, in that order:
      the newest 999 of all but the last, and the last. */
  function TableOf(q: seq<Stamp>): set<Stamp> {
    if q == [] then {} else Top(Elements(q[..|q| - 1]), MAX_RETAINED - 1) + {q[|q| - 1]}
  }

  lemma ElementsSnoc(q: seq<Stamp>, x: Stamp)
    ensures Elements(q + [x]) == Elements(q) + {x}
  {
  }

  /** Pruning at every step comes to the same as pruning once, before the last. */
  lemma TableSnoc(q: seq<Stamp>, x: Stamp)
    ensures TableOf(q + [x]) == Top(TableOf(q), MAX_RETAINED - 1) + {x}
  {
    assert (q + [x])[..|q|] == q;
    if q == [] {
      assert Top({}, MAX_RETAINED - 1) == {};
      assert Elements(q) == {};
    } else {
      var front, last := q[..|q| - 1], q[|q| - 1];
      assert q == front + [last];
      ElementsSnoc(front, last);
      TopAbsorbs(Elements(front), MAX_RETAINED - 1, last);
    }
  }

  /** Nothing above a retained stamp is missing from the table. */
  predicate UpwardClosed(table: set<Stamp>, all: set<Stamp>) {
    table <= all && forall t, y :: t in table && y in all && Before(t, y) ==> y in table
  }

  /** Exactly when fewer than a thousand stamps are above the last one recorded. */
  lemma TableIsUpwardClosed(q: seq<Stamp>)
    requires q != [] && q[|q| - 1] !in q[..|q| - 1]
    ensures UpwardClosed(TableOf(q), Elements(q)) <==> |Above(Elements(q), q[|q| - 1])| < 1000
  {
    var front, x := q[..|q| - 1], q[|q| - 1];
    var all, early, n := Elements(q), Elements(front), MAX_RETAINED - 1;
    assert q == front + [x];
    ElementsSnoc(front, x);
    if |Above(all, x)| < MAX_RETAINED {
      forall t, y | t in TableOf(q) && y in all && Before(t, y) ensures y in TableOf(q) {
        if y !in TableOf(q) {
          BelowTheTop(early, n, y);
          assert t == x;
          MoreAbove(all, x, Top(early, n), y);
        }
      }
    } else if UpwardClosed(TableOf(q), all) {
      assert Above(all, x) <= Top(early, n);
      SubsetFewer(Above(all, x), Top(early, n));
      TopIsFront(early, n);
    }
  }

  lemma MoreAbove(all: set<Stamp>, x: Stamp, top: set<Stamp>, y: Stamp)
    requires top <= all && y in all && y !in top && Before(x, y) && forall t :: t in top ==> Before(y, t)
    ensures |Above(all, x)| > |top|
  {
    SubsetFewer(top + {y}, Above(all, x));
  }

  lemma RisingPart(rows: seq<Change>, i: nat, j: nat)
    requires Rising(rows) && i <= j <= |rows|
    ensures Rising(rows[i..j])
  {
    assert StampsIn(rows[i..j]) == StampsIn(rows)[i..j];
  }

  // ---------- reading ----------

  lemma FollowingIs(events: Events, ws: Id, rows: seq<Change>, p: nat)
    requires Holds(events, ws, rows) && Rising(rows) && p < |rows|
    ensures Ordered(Following(events, ws, After(rows[p].id)), false) == StampsIn(rows)[p + 1..]
  {
    HeldInOrder(events, ws, rows);
    assert rows[p].id in events;
    OrderedAfter(StampsOf(events, ws), false, p);
    assert StampsIn(rows)[p] == Stamp(rows[p].at, rows[p].id);
  }

  lemma LatestIs(events: Events, ws: Id, rows: seq<Change>)
    requires Holds(events, ws, rows) && Rising(rows)
    ensures Latest(events, ws) == if rows == [] then Origin else After(rows[|rows| - 1].id)
  {
    HeldInOrder(events, ws, rows);
  }

  /** A cursor at a retained event gets the rows that follow it, in order. */
  lemma ChangesFollow(events: Events, ws: Id, rows: seq<Change>, p: nat, limit: nat)
    requires Holds(events, ws, rows) && Rising(rows) && p < |rows|
    ensures var page := ChangesAfter(events, ws, After(rows[p].id), limit); var next := FirstOf(rows[p + 1..], limit);
      page == Page(next, if next == [] then After(rows[p].id) else After(next[|next| - 1].id), false)
  {
    FollowingIs(events, ws, rows, p);
    assert rows[p].id in events && events[rows[p].id].ws == ws;
    var following := Following(events, ws, After(rows[p].id));
    StampsKnown(events, ws, following, false);
    var q, next := FirstOf(Ordered(following, false), limit), FirstOf(rows[p + 1..], limit);
    assert |q| == |next|;
    forall i | 0 <= i < |q| ensures events[q[i].id] == next[i] {
      assert q[i] == StampOf(rows[p + 1 + i]) && next[i] == rows[p + 1 + i];
      assert rows[p + 1 + i].id in events;
    }
    assert Rows(events, q) == next;
  }

  /** Any other cursor but the origin asks the client to start over from the newest event. */
  lemma ChangesResync(events: Events, ws: Id, rows: seq<Change>, after: Cursor, limit: nat)
    requires Holds(events, ws, rows) && Rising(rows) && !after.Origin?
    requires after.After? ==> forall i :: 0 <= i < |rows| ==> rows[i].id != after.event
    ensures ChangesAfter(events, ws, after, limit) == Page([], if rows == [] then Origin else After(rows[|rows| - 1].id), true)
  {
    LatestIs(events, ws, rows);
  }

  predicate HasEvent(rows: seq<Change>, e: Id) {
    exists i | 0 <= i < |rows| :: rows[i].id == e
  }

  /** The page is the next `limit` events of the history after position `p`. */
  predicate IsPageAfter(history: seq<Change>, p: int, e: Id, limit: nat, page: Page) {
    0 <= p < |history| && history[p].id == e &&
    (var next := FirstOf(history[p + 1..], limit);
     page == Page(next, if next == [] then After(e) else After(next[|next| - 1].id), false))
  }

  lemma RetainedPage(events: Events, ws: Id, history: seq<Change>, k: nat, i: nat, limit: nat)
    requires k + i < |history| && Rising(history[k..]) && Holds(events, ws, history[k..])
    ensures var e := history[k + i].id; IsPageAfter(history, k + i, e, limit, ChangesAfter(events, ws, After(e), limit))
  {
    var rows := history[k..];
    assert rows[i] == history[k + i] && rows[i + 1..] == history[k + i + 1..];
    ChangesFollow(events, ws, rows, i, limit);
  }

  lemma LastOfIs<T>(q: seq<T>, n: nat)
    ensures LastOf(q, n) == q[|q| - |LastOf(q, n)|..]
    ensures |LastOf(q, n)| == if |q| < n then |q| else n
  {
  }

  /** The page after event `e` is either the next events of the full history or a
      request to start over; the latter exactly when `e` is not among the newest 1000. */
  lemma NoGaps(events: Events, ws: Id, history: seq<Change>, e: Id, limit: nat)
    requires Rising(history) && Holds(events, ws, LastOf(history, MAX_RETAINED))
    ensures var page := ChangesAfter(events, ws, After(e), limit);
      && (page.resync <==> !HasEvent(LastOf(history, MAX_RETAINED), e))
      && (page.resync ==> page.next == if history == [] then Origin else After(history[|history| - 1].id))
      && (!page.resync ==> exists p :: IsPageAfter(history, p, e, limit, page))
  {
    var rows := LastOf(history, MAX_RETAINED);
    var k := |history| - |rows|;
    LastOfIs(history, MAX_RETAINED);
    RisingPart(history, k, |history|);
    assert history[k..|history|] == rows;
    if HasEvent(rows, e) {
      var i :| 0 <= i < |rows| && rows[i].id == e;
      RetainedPage(events, ws, history, k, i, limit);
    } else {
      ChangesResync(events, ws, rows, After(e), limit);
      assert rows != [] ==> rows[|rows| - 1] == history[|history| - 1];
    }
  }

  // ---------- exactly when there are no gaps ----------

  ghost predicate PageFollows(events: Events, ws: Id, history: seq<Change>, e: Id, limit: nat) {
    exists p :: IsPageAfter(history, p, e, limit, ChangesAfter(events, ws, After(e), limit))
  }

  /** The page after every retained event, whatever its size, is the next part of the history. */
  ghost predicate GapFree(events: Events, ws: Id, history: seq<Change>) {
    forall e, limit: nat :: e in events && events[e].ws == ws && limit >= 1 ==> PageFollows(events, ws, history, e, limit)
  }

  /** Ids are unique in a history. */
  ghost predicate IdsDiffer(history: seq<Change>) {
    forall i, j :: 0 <= i < |history| && 0 <= j < |history| && history[i].id == history[j].id ==> i == j
  }

  /** Rows are stored under their ids, the history is of this workspace, and what
      the table retains of it is unchanged. */
  ghost predicate Agrees(events: Events, ws: Id, history: seq<Change>) {
    && (forall e :: e in events ==> events[e].id == e)
    && forall i :: 0 <= i < |history| ==> history[i].ws == ws && (history[i].id in events ==> events[history[i].id] == history[i])
  }

  /** The table is the history from position `k` on, and keys rise from there. */
  ghost predicate RisingSuffix(events: Events, ws: Id, history: seq<Change>, k: int) {
    0 <= k <= |history| && Holds(events, ws, history[k..]) && Rising(history[k..])
  }

  lemma SuffixIsGapFree(events: Events, ws: Id, history: seq<Change>, k: int)
    requires RisingSuffix(events, ws, history, k)
    ensures GapFree(events, ws, history)
  {
    forall e, limit: nat | e in events && events[e].ws == ws && limit >= 1 ensures PageFollows(events, ws, history, e, limit) {
      var i :| 0 <= i < |history[k..]| && history[k..][i].id == e;
      assert history[k..][i] == history[k + i];
      RetainedPage(events, ws, history, k, i, limit);
    }
  }

  /** If the table's rows in order are `rows`, the table holds them and they rise. */
  lemma InOrderIsHeld(events: Events, ws: Id, rows: seq<Change>)
    requires Agrees(events, ws, rows) && StampsIn(rows) == Ordered(StampsOf(events, ws), false)
    ensures Holds(events, ws, rows) && Rising(rows)
  {
    var q := StampsIn(rows);
    OrderedIs(StampsOf(events, ws), false);
    forall i | 0 <= i < |rows| ensures rows[i].id in events {
      assert q[i] in Elements(q);
    }
    forall e | e in events && events[e].ws == ws ensures exists i :: 0 <= i < |rows| && rows[i].id == e {
      assert Stamp(events[e].at, e) in Elements(q);
      var i :| 0 <= i < |q| && q[i] == Stamp(events[e].at, e);
      assert rows[i].id == e;
    }
  }

  /** The longest page after the oldest retained event shows the whole table. */
  lemma PageAfterOldest(events: Events, ws: Id, limit: nat, rest: seq<Change>)
    requires StampsOf(events, ws) != {} && forall e :: e in events ==> events[e].id == e
    requires var oldest := First(StampsOf(events, ws), false);
      oldest.id in events && events[oldest.id].ws == ws && ChangesAfter(events, ws, After(oldest.id), limit).changes == rest && |rest| < limit
    ensures var oldest := First(StampsOf(events, ws), false); Ordered(StampsOf(events, ws), false) == [oldest] + StampsIn(rest)
  {
    var table := StampsOf(events, ws);
    var oldest := First(table, false);
    assert oldest == Stamp(events[oldest.id].at, oldest.id);
    assert Following(events, ws, After(oldest.id)) == table - {oldest};
    StampsKnown(events, ws, table - {oldest}, false);
    var q := Ordered(table - {oldest}, false);
    assert ChangesAfter(events, ws, After(oldest.id), limit).changes == Rows(events, FirstOf(q, limit));
    assert |FirstOf(q, limit)| == |rest|;
    assert FirstOf(q, limit) == q && |StampsIn(rest)| == |q|;
    forall i | 0 <= i < |q| ensures q[i] == StampsIn(rest)[i] {
      assert rest[i] == events[q[i].id];
      assert q[i] in q;
    }
  }

  lemma GapFreeIsSuffix(events: Events, ws: Id, history: seq<Change>)
    requires GapFree(events, ws, history) && Agrees(events, ws, history)
    ensures exists k :: RisingSuffix(events, ws, history, k)
  {
    var table := StampsOf(events, ws);
    if table == {} {
      assert forall e :: e in events && events[e].ws == ws ==> Stamp(events[e].at, e) in table;
      assert history[|history|..] == [];
      assert RisingSuffix(events, ws, history, |history|);
    } else {
      var oldest := First(table, false);
      var limit := |history| + 1;
      assert PageFollows(events, ws, history, oldest.id, limit);
      var p :| IsPageAfter(history, p, oldest.id, limit, ChangesAfter(events, ws, After(oldest.id), limit));
      PageIsSuffix(events, ws, history, p);
    }
  }

  lemma AgreesFrom(events: Events, ws: Id, history: seq<Change>, p: nat)
    requires Agrees(events, ws, history) && p <= |history|
    ensures Agrees(events, ws, history[p..])
  {
    forall i | 0 <= i < |history[p..]| ensures history[p..][i] == history[p + i] {
    }
  }

  lemma PageIsSuffix(events: Events, ws: Id, history: seq<Change>, p: int)
    requires Agrees(events, ws, history) && StampsOf(events, ws) != {}
    requires var e, limit := First(StampsOf(events, ws), false).id, |history| + 1;
      IsPageAfter(history, p, e, limit, ChangesAfter(events, ws, After(e), limit))
    ensures RisingSuffix(events, ws, history, p)
  {
    var oldest, rows := First(StampsOf(events, ws), false), history[p..];
    assert rows == [history[p]] + history[p + 1..];
    PageAfterOldest(events, ws, |history| + 1, history[p + 1..]);
    assert StampOf(history[p]) == oldest;
    assert StampsIn(rows) == [oldest] + StampsIn(history[p + 1..]);
    AgreesFrom(events, ws, history, p);
    InOrderIsHeld(events, ws, rows);
  }

  /** A feed has no gaps if and only if the table is the end of the history, with
      keys that rise. */
  lemma NoGapsIffRisingSuffix(events: Events, ws: Id, history: seq<Change>)
    requires Agrees(events, ws, history)
    ensures GapFree(events, ws, history) <==> exists k :: RisingSuffix(events, ws, history, k)
  {
    if GapFree(events, ws, history) {
      GapFreeIsSuffix(events, ws, history);
    }
    if k :| RisingSuffix(events, ws, history, k) {
      SuffixIsGapFree(events, ws, history, k);
    }
  }

  /** Of two neighbours whose keys do not rise, the second is on no page after the first. */
  lemma OutOfOrderSkips(events: Events, ws: Id, rows: seq<Change>, i: nat, limit: nat)
    requires Holds(events, ws, rows) && i + 1 < |rows| && !Precedes(false, StampOf(rows[i]), StampOf(rows[i + 1]))
    ensures rows[i + 1] !in ChangesAfter(events, ws, After(rows[i].id), limit).changes
  {
    var after := After(rows[i].id);
    assert rows[i].id in events && rows[i + 1].id in events;
    var following := Following(events, ws, after);
    OrderedIs(following, false);
    StampsKnown(events, ws, following, false);
    var q := Ordered(following, false);
    var page := ChangesAfter(events, ws, after, limit).changes;
    forall j | 0 <= j < |page| ensures page[j] != rows[i + 1] {
      assert page[j] == events[q[j].id] && q[j] in Elements(q);
    }
  }

  /** When the table holds all of `rows`, their pages follow one another if and
      only if the keys rise. */
  lemma PagesFollowIffRising(events: Events, ws: Id, rows: seq<Change>)
    requires Holds(events, ws, rows) && IdsDiffer(rows) && forall e :: e in events ==> events[e].id == e
    ensures GapFree(events, ws, rows) <==> Rising(rows)
  {
    assert rows[0..] == rows;
    NoGapsIffRisingSuffix(events, ws, rows);
    forall k | 0 < k <= |rows| ensures !RisingSuffix(events, ws, rows, k) {
      WholeSuffix(events, ws, rows, k);
    }
    if Rising(rows) {
      assert RisingSuffix(events, ws, rows, 0);
    }
  }

  /** No proper suffix holds all that the whole holds. */
  lemma WholeSuffix(events: Events, ws: Id, rows: seq<Change>, k: int)
    requires Holds(events, ws, rows) && IdsDiffer(rows) && 0 < k <= |rows|
    ensures !Holds(events, ws, rows[k..])
  {
    assert rows[0].id in events && events[rows[0].id].ws == ws;
    forall i | 0 <= i < |rows[k..]| ensures rows[k..][i].id != rows[0].id {
      assert rows[k..][i] == rows[k + i];
    }
  }

  // ---------- what that means for recorded changes ----------

  lemma RisingIndex(rows: seq<Change>, i: nat, j: nat)
    requires Rising(rows) && i < |rows| && j < |rows| && Before(StampOf(rows[i]), StampOf(rows[j]))
    ensures i < j
  {
    var q := StampsIn(rows);
    assert j < i ==> Precedes(false, q[j], q[i]);
  }

  lemma ClosedIsSuffix(events: Events, ws: Id, history: seq<Change>)
    requires Rising(history) && Agrees(events, ws, history)
    requires UpwardClosed(StampsOf(events, ws), Elements(StampsIn(history)))
    ensures exists k :: RisingSuffix(events, ws, history, k)
  {
    var table, q := StampsOf(events, ws), StampsIn(history);
    if table == {} {
      assert forall e :: e in events && events[e].ws == ws ==> Stamp(events[e].at, e) in table;
      assert history[|history|..] == [];
      assert RisingSuffix(events, ws, history, |history|);
    } else {
      var oldest := First(table, false);
      var k :| 0 <= k < |q| && q[k] == oldest;
      var rows := history[k..];
      RisingPart(history, k, |history|);
      assert history[k..|history|] == rows;
      SuffixStamps(history, k, table);
      OrderIsUnique(StampsIn(rows), false);
      forall i | 0 <= i < |rows| ensures rows[i] == history[k + i] {
      }
      InOrderIsHeld(events, ws, rows);
      assert RisingSuffix(events, ws, history, k);
    }
  }

  lemma SuffixStamps(history: seq<Change>, k: nat, table: set<Stamp>)
    requires Rising(history) && k < |history| && UpwardClosed(table, Elements(StampsIn(history)))
    requires Leads(table, false, StampOf(history[k]))
    ensures Elements(StampsIn(history[k..])) == table
  {
    var q, rest := StampsIn(history), StampsIn(history[k..]);
    forall x | x in table ensures x in rest {
      assert x in Elements(q);
      var j :| 0 <= j < |q| && q[j] == x;
      if x != q[k] {
        RisingIndex(history, k, j);
      }
      assert rest[j - k] == x;
    }
    forall x | x in rest ensures x in table {
      var j :| 0 <= j < |rest| && rest[j] == x;
      assert x == q[k + j] && x in Elements(q);
      assert j > 0 ==> Precedes(false, q[k], q[k + j]);
    }
  }

  lemma SuffixIsClosed(events: Events, ws: Id, history: seq<Change>, k: int)
    requires Rising(history) && RisingSuffix(events, ws, history, k)
    ensures UpwardClosed(StampsOf(events, ws), Elements(StampsIn(history)))
  {
    HeldStamps(events, ws, history[k..]);
    SuffixStampsClosed(history, k);
  }

  lemma StampAt(rows: seq<Change>, x: Stamp)
    ensures x in Elements(StampsIn(rows)) <==> exists i :: 0 <= i < |rows| && StampOf(rows[i]) == x
  {
    var q := StampsIn(rows);
    if i :| 0 <= i < |rows| && StampOf(rows[i]) == x {
      assert q[i] == x;
    }
  }

  lemma ClosedFrom(q: seq<Stamp>, k: nat)
    requires Ascends(false, q) && k <= |q|
    ensures UpwardClosed(Elements(q[k..]), Elements(q))
  {
    forall t | t in q[k..] ensures t in q {
      var i :| 0 <= i < |q| - k && q[k..][i] == t;
      assert q[k + i] == t;
    }
    forall t, y | t in q[k..] && y in q && Before(t, y) ensures y in q[k..] {
      var i :| 0 <= i < |q| - k && q[k..][i] == t;
      var j :| 0 <= j < |q| && q[j] == y;
      assert q[k + i] == t && k + i < j;
      assert q[k..][j - k] == y;
    }
  }

  lemma SuffixStampsClosed(history: seq<Change>, k: int)
    requires Rising(history) && 0 <= k <= |history|
    ensures UpwardClosed(Elements(StampsIn(history[k..])), Elements(StampsIn(history)))
  {
    assert StampsIn(history[k..]) == StampsIn(history)[k..];
    ClosedFrom(StampsIn(history), k);
  }

  /** `q` are the stamps of the history in the order they were recorded. */
  ghost predicate RecordedAs(events: Events, ws: Id, history: seq<Change>, q: seq<Stamp>) {
    && Agrees(events, ws, history)
    && Elements(q) == Elements(StampsIn(history))
    && StampsOf(events, ws) == TableOf(q)
    && (q != [] ==> q[|q| - 1] !in q[..|q| - 1])
  }

  /** How many recorded stamps are above the last one. */
  function AboveLast(q: seq<Stamp>): nat {
    if q == [] then 0 else |Above(Elements(q), q[|q| - 1])|
  }

  /** In a history whose keys rise, no gap opens if and only if fewer than a
      thousand recorded events are above the last one recorded. */
  lemma NoGapsIffLastIsNearTheTop(events: Events, ws: Id, history: seq<Change>, q: seq<Stamp>)
    requires Rising(history) && RecordedAs(events, ws, history, q)
    ensures GapFree(events, ws, history) <==> AboveLast(q) < MAX_RETAINED
  {
    NoGapsIffRisingSuffix(events, ws, history);
    if q == [] {
      assert Elements(StampsIn(history)) == {};
      assert UpwardClosed(StampsOf(events, ws), Elements(StampsIn(history)));
      ClosedIsSuffix(events, ws, history);
    } else {
      TableIsUpwardClosed(q);
      if UpwardClosed(TableOf(q), Elements(q)) {
        ClosedIsSuffix(events, ws, history);
      }
      if k :| RisingSuffix(events, ws, history, k) {
        SuffixIsClosed(events, ws, history, k);
      }
    }
  }

  lemma RisingCount(rows: seq<Change>)
    requires Rising(rows)
    ensures |Elements(StampsIn(rows))| == |rows|
  {
    OrderIsUnique(StampsIn(rows), false);
    OrderedIs(Elements(StampsIn(rows)), false);
  }

  lemma TableCount(q: seq<Stamp>)
    requires q != [] && q[|q| - 1] !in q[..|q| - 1]
    ensures |TableOf(q)| == if |Elements(q)| < MAX_RETAINED then |Elements(q)| else MAX_RETAINED
  {
    var early, x := Elements(q[..|q| - 1]), q[|q| - 1];
    assert q == q[..|q| - 1] + [x];
    ElementsSnoc(q[..|q| - 1], x);
    TopIsFront(early, MAX_RETAINED - 1);
    OrderedIs(early, true);
    assert x !in Top(early, MAX_RETAINED - 1);
  }

  lemma SuffixIsLast(events: Events, ws: Id, history: seq<Change>, k: int)
    requires Rising(history) && RisingSuffix(events, ws, history, k)
    requires |StampsOf(events, ws)| == if |history| < MAX_RETAINED then |history| else MAX_RETAINED
    ensures history[k..] == LastOf(history, MAX_RETAINED)
  {
    HeldStamps(events, ws, history[k..]);
    RisingCount(history[k..]);
  }

  lemma RecordedCount(events: Events, ws: Id, history: seq<Change>, q: seq<Stamp>)
    requires Rising(history) && RecordedAs(events, ws, history, q)
    ensures |StampsOf(events, ws)| == if |history| < MAX_RETAINED then |history| else MAX_RETAINED
  {
    RisingCount(history);
    if q == [] {
      assert Elements(q) == {};
    } else {
      TableCount(q);
    }
  }

  /** Without gaps and with rising keys the table is exactly the newest 1000 changes. */
  lemma NewestAreHeld(events: Events, ws: Id, history: seq<Change>, q: seq<Stamp>)
    requires Rising(history) && RecordedAs(events, ws, history, q) && AboveLast(q) < MAX_RETAINED
    ensures Holds(events, ws, LastOf(history, MAX_RETAINED))
  {
    NoGapsIffLastIsNearTheTop(events, ws, history, q);
    GapFreeIsSuffix(events, ws, history);
    var k :| RisingSuffix(events, ws, history, k);
    RecordedCount(events, ws, history, q);
    SuffixIsLast(events, ws, history, k);
  }

  // ---------- changes of one transaction ----------

  function InsertByKey(rows: seq<Change>, c: Change): seq<Change> {
    if rows == [] then [c]
    else if Before(StampOf(c), StampOf(rows[0])) then [c] + rows
    else [rows[0]] + InsertByKey(rows[1..], c)
  }

  /** The order in which a reader sees the changes that one transaction commits. */
  function ByKey(batch: seq<Change>): seq<Change> {
    if batch == [] then [] else InsertByKey(ByKey(batch[..|batch| - 1]), batch[|batch| - 1])
  }

  lemma RisingCons(c: Change, rows: seq<Change>)
    requires Rising(rows) && (rows != [] ==> Before(StampOf(c), StampOf(rows[0])))
    ensures Rising([c] + rows)
  {
    var q := StampsIn(rows);
    assert StampsIn([c] + rows) == [StampOf(c)] + q;
    forall y | y in Elements(q) ensures Precedes(false, StampOf(c), y) {
      var j :| 0 <= j < |q| && q[j] == y;
      assert j > 0 ==> Precedes(false, q[0], q[j]);
    }
    AscendsCons(false, StampOf(c), q);
  }

  lemma {:induction false} InsertIs(rows: seq<Change>, c: Change)
    requires Rising(rows) && forall d :: d in rows ==> d.id != c.id
    ensures Rising(InsertByKey(rows, c)) && |InsertByKey(rows, c)| == |rows| + 1
    ensures forall d :: d in InsertByKey(rows, c) <==> d in rows || d == c
    ensures rows != [] ==> InsertByKey(rows, c)[0] in [c, rows[0]]
    decreases |rows|
  {
    if rows == [] {
      assert StampsIn([c]) == [StampOf(c)];
    } else if Before(StampOf(c), StampOf(rows[0])) {
      RisingCons(c, rows);
    } else {
      RisingPart(rows, 1, |rows|);
      assert rows[1..|rows|] == rows[1..] && rows == [rows[0]] + rows[1..];
      InsertIs(rows[1..], c);
      assert rows[0] in rows;
      assert |rows| > 1 ==> Precedes(false, StampsIn(rows)[0], StampsIn(rows)[1]);
      RisingCons(rows[0], InsertByKey(rows[1..], c));
    }
  }

  lemma {:induction false} ByKeyIs(batch: seq<Change>)
    requires IdsDiffer(batch)
    ensures Rising(ByKey(batch)) && |ByKey(batch)| == |batch|
    ensures forall d :: d in ByKey(batch) <==> d in batch
    decreases |batch|
  {
    if batch != [] {
      var front, c := batch[..|batch| - 1], batch[|batch| - 1];
      assert batch == front + [c];
      assert forall i :: 0 <= i < |front| ==> front[i] == batch[i];
      ByKeyIs(front);
      InsertIs(ByKey(front), c);
    }
  }

  lemma SameElements(a: seq<Change>, b: seq<Change>)
    requires forall d :: d in a <==> d in b
    ensures Elements(StampsIn(a)) == Elements(StampsIn(b))
  {
    forall x ensures x in Elements(StampsIn(a)) <==> x in Elements(StampsIn(b)) {
      StampAt(a, x);
      StampAt(b, x);
      if i :| 0 <= i < |a| && StampOf(a[i]) == x {
        assert a[i] in b;
      }
      if i :| 0 <= i < |b| && StampOf(b[i]) == x {
        assert b[i] in a;
      }
    }
  }

  lemma PageIsAbove(events: Events, ws: Id, e: Id, limit: nat, c: Change)
    requires (forall i :: i in events ==> events[i].id == i) && e in events && events[e].ws == ws
    requires c in ChangesAfter(events, ws, After(e), limit).changes
    ensures Before(Stamp(events[e].at, e), StampOf(c))
  {
    var following := Following(events, ws, After(e));
    OrderedIs(following, false);
    StampsKnown(events, ws, following, false);
    var q, page := Ordered(following, false), ChangesAfter(events, ws, After(e), limit).changes;
    var j :| 0 <= j < |page| && page[j] == c;
    assert c == events[q[j].id] && q[j] in Elements(q);
  }

  lemma RisingJoin(a: seq<Change>, b: seq<Change>)
    requires Rising(a) && Rising(b) && (a != [] && b != [] ==> Before(StampOf(a[|a| - 1]), StampOf(b[0])))
    ensures Rising(a + b)
    decreases |a|
  {
    if a == [] {
      assert a + b == b;
    } else {
      RisingPart(a, 1, |a|);
      assert a[1..|a|] == a[1..];
      RisingJoin(a[1..], b);
      assert a + b == [a[0]] + (a[1..] + b);
      assert |a| > 1 ==> Precedes(false, StampsIn(a)[0], StampsIn(a)[1]);
      RisingCons(a[0], a[1..] + b);
    }
  }

  lemma LastIsHighest(rows: seq<Change>, x: Stamp)
    requires Rising(rows) && rows != [] && x in Elements(StampsIn(rows))
    ensures !Before(StampOf(rows[|rows| - 1]), x)
  {
    var q := StampsIn(rows);
    var i :| 0 <= i < |q| && q[i] == x;
    assert i < |q| - 1 ==> Precedes(false, q[i], q[|q| - 1]);
  }

  lemma ElementsFew(q: seq<Stamp>)
    ensures |Elements(q)| <= |q|
  {
    if q != [] {
      ElementsFew(q[..|q| - 1]);
      assert q == q[..|q| - 1] + [q[|q| - 1]];
      ElementsSnoc(q[..|q| - 1], q[|q| - 1]);
    }
  }

  /** Fewer than 1000 changes at once do not push the newest event before them out. */
  lemma NewestStays(history: seq<Change>, q: seq<Stamp>, more: seq<Stamp>)
    requires Rising(history) && history != [] && Elements(q) == Elements(StampsIn(history))
    requires 0 < |more| < MAX_RETAINED
    ensures StampOf(history[|history| - 1]) in TableOf(q + more)
  {
    var z, all, m := StampOf(history[|history| - 1]), q + more, more[..|more| - 1];
    assert all[..|all| - 1] == q + m;
    StampAt(history, z);
    assert z in q + m;
    forall y | y in Above(Elements(q + m), z) ensures y in Elements(m) {
      if y in Elements(q) {
        LastIsHighest(history, y);
      }
    }
    SubsetFewer(Above(Elements(q + m), z), Elements(m));
    ElementsFew(m);
  }

  /** If a transaction of fewer than 1000 changes leaves no gap, its keys exceed all earlier ones. */
  lemma {:induction false} NoGapNeedsRisingKeys(events: Events, ws: Id, history: seq<Change>, q: seq<Stamp>, batch: seq<Change>)
    requires Rising(history) && Elements(q) == Elements(StampsIn(history)) && |batch| < MAX_RETAINED
    requires IdsDiffer(batch) && IdsDiffer(history + ByKey(batch)) && Agrees(events, ws, history + ByKey(batch))
    requires StampsOf(events, ws) == TableOf(q + StampsIn(batch)) && GapFree(events, ws, history + ByKey(batch))
    ensures Rising(history + ByKey(batch))
  {
    var rows, n := ByKey(batch), |history|;
    ByKeyIs(batch);
    if history != [] && batch != [] {
      var z, all := history[n - 1], history + rows;
      NewestStays(history, q, StampsIn(batch));
      assert StampOf(z) in StampsOf(events, ws);
      assert all[n - 1] == z && all[n] == rows[0];
      assert z.id in events && events[z.id] == z;
      assert PageFollows(events, ws, all, z.id, 1);
      var p :| IsPageAfter(all, p, z.id, 1, ChangesAfter(events, ws, After(z.id), 1));
      assert p == n - 1;
      var page := ChangesAfter(events, ws, After(z.id), 1).changes;
      assert |page| == 1 && page[0] == rows[0];
      PageIsAbove(events, ws, z.id, 1, page[0]);
    }
    RisingJoin(history, rows);
  }

  /** In a rising history, what a transaction of at most 1000 changes records last
      has fewer than 1000 recorded events above it. */
  lemma {:induction false} BatchIsNearTheTop(history: seq<Change>, q: seq<Stamp>, batch: seq<Change>)
    requires Rising(history + ByKey(batch)) && Elements(q) == Elements(StampsIn(history))
    requires IdsDiffer(batch) && 0 < |batch| <= MAX_RETAINED
    ensures AboveLast(q + StampsIn(batch)) < MAX_RETAINED
  {
    var all, rows, more := q + StampsIn(batch), ByKey(batch), StampsIn(batch);
    var c := batch[|batch| - 1];
    var x := StampOf(c);
    ByKeyIs(batch);
    assert all[|all| - 1] == x && c in rows;
    forall y | y in Above(Elements(all), x) ensures y in Elements(more[..|more| - 1]) {
      if y in q {
        assert y in Elements(StampsIn(history));
        KeysBefore(history, rows, y, c);
      } else {
        assert more == more[..|more| - 1] + [x];
      }
    }
    SubsetFewer(Above(Elements(all), x), Elements(more[..|more| - 1]));
    ElementsFew(more[..|more| - 1]);
  }

  lemma KeysBefore(history: seq<Change>, rows: seq<Change>, y: Stamp, c: Change)
    requires Rising(history + rows) && y in Elements(StampsIn(history)) && c in rows
    ensures Before(y, StampOf(c))
  {
    var q := StampsIn(history + rows);
    StampAt(history, y);
    var i :| 0 <= i < |history| && StampOf(history[i]) == y;
    var j :| 0 <= j < |rows| && rows[j] == c;
    assert q[i] == y && q[|history| + j] == StampOf(c);
    assert Precedes(false, q[i], q[|history| + j]);
  }

  // ---------- a polling client ----------

  /** One poll: the history at that moment, the table, and how much the client asks for. */
  datatype Poll = Poll(history: seq<Change>, events: Events, limit: nat)

  ghost predicate PollOk(poll: Poll, ws: Id) {
    poll.limit >= 1 && GapFree(poll.events, ws, poll.history)
  }

  /** Every poll sees some earlier stage of the final history. */
  ghost predicate PollsOk(polls: seq<Poll>, ws: Id, final: seq<Change>) {
    polls == [] || (PollOk(polls[0], ws) && polls[0].history <= final && PollsOk(polls[1..], ws, final))
  }

  /** What a client that resumes at each page's cursor receives before it is told to start over. */
  function Received(polls: seq<Poll>, ws: Id, after: Cursor): seq<Change> {
    if polls == [] then []
    else
      var page := ChangesAfter(polls[0].events, ws, after, polls[0].limit);
      if page.resync then [] else page.changes + Received(polls[1..], ws, page.next)
  }

  /** `part` is what comes right after position `p`. */
  predicate ComesAfter(final: seq<Change>, p: nat, part: seq<Change>) {
    p + |part| < |final| && forall i :: 0 <= i < |part| ==> part[i] == final[p + 1 + i]
  }

  /** A page of an earlier history is part of the final one, and its cursor the last event of the page. */
  lemma PageInFinal(history: seq<Change>, final: seq<Change>, p: nat, q: int, limit: nat, page: Page)
    requires history <= final && IdsDiffer(final) && p < |final| && IsPageAfter(history, q, final[p].id, limit, page)
    ensures ComesAfter(final, p, page.changes) && page.next == After(final[p + |page.changes|].id)
  {
    assert history[q] == final[q];
    assert q == p;
    var n := |page.changes|;
    forall i | 0 <= i < n ensures page.changes[i] == final[p + 1 + i] {
      assert page.changes[i] == history[p + 1..][i];
    }
  }

  lemma FollowingPage(history: seq<Change>, final: seq<Change>, p: nat, limit: nat, page: Page)
    requires history <= final && IdsDiffer(final) && p < |final| && exists q :: IsPageAfter(history, q, final[p].id, limit, page)
    ensures ComesAfter(final, p, page.changes) && page.next == After(final[p + |page.changes|].id)
  {
    var q :| IsPageAfter(history, q, final[p].id, limit, page);
    PageInFinal(history, final, p, q, limit, page);
  }

  lemma OnePoll(poll: Poll, ws: Id, final: seq<Change>, p: nat)
    requires PollOk(poll, ws) && poll.history <= final && IdsDiffer(final) && p < |final|
    ensures var page := ChangesAfter(poll.events, ws, After(final[p].id), poll.limit);
      page.resync || (ComesAfter(final, p, page.changes) && page.next == After(final[p + |page.changes|].id))
  {
    var e := final[p].id;
    if e in poll.events && poll.events[e].ws == ws {
      assert PageFollows(poll.events, ws, poll.history, e, poll.limit);
      FollowingPage(poll.history, final, p, poll.limit, ChangesAfter(poll.events, ws, After(e), poll.limit));
    }
  }

  lemma PartsJoin(final: seq<Change>, p: nat, a: seq<Change>, q: nat, b: seq<Change>)
    requires ComesAfter(final, p, a) && q == p + |a| && ComesAfter(final, q, b)
    ensures ComesAfter(final, p, a + b)
  {
    forall i | 0 <= i < |a + b| ensures (a + b)[i] == final[p + 1 + i] {
      if i >= |a| {
        assert (a + b)[i] == b[i - |a|];
      }
    }
  }

  /** However the feed grows and is pruned between polls, what the client receives
      from event `p` on is the history after `p`, without gap or repetition. */
  lemma {:induction false} PollsAreContiguous(polls: seq<Poll>, ws: Id, final: seq<Change>, p: nat)
    requires PollsOk(polls, ws, final) && p < |final| && IdsDiffer(final)
    ensures ComesAfter(final, p, Received(polls, ws, After(final[p].id)))
    decreases |polls|
  {
    if polls != [] {
      OnePoll(polls[0], ws, final, p);
      var page := ChangesAfter(polls[0].events, ws, After(final[p].id), polls[0].limit);
      if !page.resync {
        var q := p + |page.changes|;
        PollsAreContiguous(polls[1..], ws, final, q);
        var rest := Received(polls[1..], ws, After(final[q].id));
        assert Received(polls, ws, After(final[p].id)) == page.changes + rest;
        PartsJoin(final, p, page.changes, q, rest);
      }
    }
  }

  // ---------- the three queries of one call ----------

  /** The stamps the last query selects, with the cursor's key read by the query before it. */
  function SelectedAfter(second: Events, third: Events, ws: Id, after: Cursor): set<Stamp>
    requires after.After? ==> after.event in second
  {
    if after.After? then
      var cut := Stamp(second[after.event].at, after.event);
      set s | s in StampsOf(third, ws) && Precedes(false, cut, s)
    else StampsOf(third, ws)
  }

  /** Changes reads the newest event, the cursor's event and the rows in three queries
      that share no transaction, so the table may move on between them. */
  function ChangesAcross(first: Events, second: Events, third: Events, ws: Id, after: Cursor, limit: nat): Page {
    if after.NoCursor? || (after.After? && (after.event !in second || second[after.event].ws != ws))
    then Page([], Latest(first, ws), true)
    else
      StampsKnown(third, ws, SelectedAfter(second, third, ws, after), false);
      var rows := Rows(third, FirstOf(Ordered(SelectedAfter(second, third, ws, after), false), limit));
      Page(rows, if rows == [] then after else After(rows[|rows| - 1].id), false)
  }

  lemma OneReadIsAtomic(events: Events, ws: Id, after: Cursor, limit: nat)
    ensures ChangesAcross(events, events, events, ws, after, limit) == ChangesAfter(events, ws, after, limit)
  {
    if after.After? && after.event in events {
      assert SelectedAfter(events, events, ws, after) == Following(events, ws, after);
    }
  }

  /** Of an ordered sequence from `k` on, what is above `q[p]` is the rest from the later of the two. */
  lemma AboveFrom(q: seq<Stamp>, k: nat, p: nat, m: nat)
    requires Ascends(false, q) && k <= |q| && p < |q| && m == if k <= p then p + 1 else k
    ensures (set x | x in Elements(q[k..]) && Precedes(false, q[p], x)) == Elements(q[m..])
  {
    forall x | x in Elements(q[k..]) && Precedes(false, q[p], x) ensures x in q[m..] {
      var i :| 0 <= i < |q| - k && q[k..][i] == x;
      assert q[k + i] == x && p < k + i;
      assert q[m..][k + i - m] == x;
    }
    forall x | x in q[m..] ensures x in q[k..] && Precedes(false, q[p], x) {
      var i :| 0 <= i < |q| - m && q[m..][i] == x;
      assert q[m + i] == x;
      assert q[k..][m + i - k] == x;
    }
  }

  lemma AboveCursor(history: seq<Change>, k: nat, p: nat, m: nat)
    requires Rising(history) && k <= |history| && p < |history| && m == if k <= p then p + 1 else k
    ensures (set x | x in Elements(StampsIn(history[k..])) && Precedes(false, StampOf(history[p]), x)) == Elements(StampsIn(history[m..]))
  {
    assert StampsIn(history[k..]) == StampsIn(history)[k..];
    assert StampsIn(history[m..]) == StampsIn(history)[m..];
    AboveFrom(StampsIn(history), k, p, m);
  }

  lemma RowsOfSuffix(events: Events, ws: Id, history: seq<Change>, k: nat, m: nat, limit: nat)
    requires RisingSuffix(events, ws, history, k) && Rising(history) && k <= m <= |history|
    requires forall s :: s in FirstOf(StampsIn(history[m..]), limit) ==> s.id in events
    ensures Rows(events, FirstOf(StampsIn(history[m..]), limit)) == FirstOf(history[m..], limit)
  {
    forall i | 0 <= i < |history[m..]| ensures history[m..][i].id in events && events[history[m..][i].id] == history[m..][i] {
      assert history[m..][i] == history[k..][m - k + i];
    }
  }

  /** The page that the split read returns: what is above the cursor in the last table read. */
  lemma SplitPage(first: Events, second: Events, third: Events, ws: Id, history: seq<Change>, k: nat, p: nat, limit: nat)
    requires Rising(history) && RisingSuffix(third, ws, history, k) && p < |history|
    requires history[p].id in second && second[history[p].id] == history[p] && history[p].ws == ws
    ensures var next := FirstOf(history[if k <= p then p + 1 else k..], limit); var e := history[p].id;
      ChangesAcross(first, second, third, ws, After(e), limit)
        == Page(next, if next == [] then After(e) else After(next[|next| - 1].id), false)
  {
    var m := if k <= p then p + 1 else k;
    var selected := SelectedAfter(second, third, ws, After(history[p].id));
    HeldStamps(third, ws, history[k..]);
    AboveCursor(history, k, p, m);
    RisingPart(history, m, |history|);
    assert history[m..|history|] == history[m..];
    OrderIsUnique(StampsIn(history[m..]), false);
    assert selected == Elements(StampsIn(history[m..]));
    StampsKnown(third, ws, selected, false);
    RowsOfSuffix(third, ws, history, k, m, limit);
  }

  lemma LateRowsDiffer(history: seq<Change>, k: nat, p: nat, limit: nat)
    requires IdsDiffer(history) && p + 1 < k <= |history| && limit >= 1
    ensures FirstOf(history[p + 1..], limit) != FirstOf(history[k..], limit)
  {
    var next, late := FirstOf(history[p + 1..], limit), FirstOf(history[k..], limit);
    assert next[0] == history[p + 1];
    assert late != [] ==> late[0] == history[k];
  }

  /** A call whose table moves on while it reads still returns the next changes if and
      only if none of those after the cursor has been pruned by the time the rows are read. */
  lemma SplitReadIsExact(first: Events, second: Events, third: Events, ws: Id, history: seq<Change>, k: nat, p: nat, limit: nat)
    requires Rising(history) && IdsDiffer(history) && RisingSuffix(third, ws, history, k) && p < |history| && limit >= 1
    requires history[p].id in second && second[history[p].id] == history[p] && history[p].ws == ws
    ensures IsPageAfter(history, p, history[p].id, limit, ChangesAcross(first, second, third, ws, After(history[p].id), limit))
      <==> k <= p + 1
  {
    SplitPage(first, second, third, ws, history, k, p, limit);
    if k <= p + 1 {
      assert history[if k <= p then p + 1 else k..] == history[p + 1..];
    } else {
      LateRowsDiffer(history, k, p, limit);
    }
  }

  // ---------- why keys must rise ----------

  const FIRST_EVENT := Change(9, 1, 4, Created, 1, 100)
  const SAME_INSTANT := Change(3, 1, 5, Created, 1, 100)

  lemma SameInstantTable()
    ensures RecordChange(RecordChange(map[], FIRST_EVENT), SAME_INSTANT) == map[9 := FIRST_EVENT, 3 := SAME_INSTANT]
  {
    var one := RecordChange(map[], FIRST_EVENT);
    var stamp := StampOf(FIRST_EVENT);
    RecordStamps(map[], FIRST_EVENT, 1);
    assert Top({}, MAX_RETAINED - 1) == {} && StampsOf(one, 1) == {stamp};
    assert Above({stamp}, stamp) == {};
    RecordStamps(one, SAME_INSTANT, 1);
    assert stamp in StampsOf(RecordChange(one, SAME_INSTANT), 1);
  }

  /** Two events in one instant with ids in the wrong order: a client that has
      seen the first is never shown the second. */
  lemma SameInstantSkipsAnEvent()
    ensures var events := RecordChange(RecordChange(map[], FIRST_EVENT), SAME_INSTANT);
      && Holds(events, 1, [FIRST_EVENT, SAME_INSTANT]) && !Rising([FIRST_EVENT, SAME_INSTANT])
      && ChangesAfter(events, 1, After(9), 100) == Page([], After(9), false)
  {
    SameInstantTable();
    var events, rows := map[9 := FIRST_EVENT, 3 := SAME_INSTANT], [FIRST_EVENT, SAME_INSTANT];
    assert forall i :: 0 <= i < 2 ==> rows[i].id in events && events[rows[i].id] == rows[i];
    assert rows[0].id == 9 && rows[1].id == 3;
    assert Following(events, 1, After(9)) == {};
    var q := StampsIn(rows);
    assert !Precedes(false, q[0], q[1]);
  }
}
