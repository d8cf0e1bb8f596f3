/** What the item service promises its clients over whole runs: a feed without
    gaps, creates that happen once, webhooks told of every change, and a limit. */
module ItemGuarantees {
  import opened Wrappers
  import opened ItemTables
  import opened Ordering
  import opened ChangeFeed
  import opened ItemOps
  import opened ItemRuns
  import Outbox
  import Pagination

  // ---------- the feed ----------

  /** The changes of one workspace. */
  function OfWorkspace(rows: seq<Change>, ws: Id): seq<Change> {
    if rows == [] then []
    else OfWorkspace(rows[..|rows| - 1], ws) + if rows[|rows| - 1].ws == ws then [rows[|rows| - 1]] else []
  }

  /** The workspace's changes, transaction by transaction, each transaction's by key. */
  function HistoryOf(s: Store, ws: Id): seq<Change> {
    OfWorkspace(s.history, ws)
  }

  /** Their keys in the order they were recorded. */
  function RecordedOf(s: Store, ws: Id): seq<Stamp> {
    StampsIn(OfWorkspace(s.log, ws))
  }

  /** The table is what recording the log leaves of it. */
  ghost predicate TableKept(db: Db, log: seq<Change>, ws: Id) {
    StampsOf(db.events, ws) == TableOf(StampsIn(OfWorkspace(log, ws)))
  }

  lemma WorkspaceSnoc(rows: seq<Change>, c: Change, ws: Id)
    ensures OfWorkspace(rows + [c], ws) == OfWorkspace(rows, ws) + if c.ws == ws then [c] else []
  {
    assert (rows + [c])[..|rows|] == rows;
  }

  lemma {:induction false} WorkspaceAppend(rows: seq<Change>, more: seq<Change>, ws: Id)
    ensures OfWorkspace(rows + more, ws) == OfWorkspace(rows, ws) + OfWorkspace(more, ws)
    decreases |more|
  {
    if more == [] {
      assert rows + more == rows;
    } else {
      var front, c := more[..|more| - 1], more[|more| - 1];
      WorkspaceAppend(rows, front, ws);
      assert rows + more == rows + front + [c] && more == front + [c];
      WorkspaceSnoc(rows + front, c, ws);
      WorkspaceSnoc(front, c, ws);
    }
  }

  lemma {:induction false} WorkspaceIs(rows: seq<Change>, ws: Id)
    ensures forall c :: c in OfWorkspace(rows, ws) <==> c in rows && c.ws == ws
    ensures |OfWorkspace(rows, ws)| <= |rows|
    decreases |rows|
  {
    if rows != [] {
      WorkspaceIs(rows[..|rows| - 1], ws);
      assert rows == rows[..|rows| - 1] + [rows[|rows| - 1]];
    }
  }

  lemma CommitTable(db: Db, db': Db, log: seq<Change>, c: Change, draw: Draw, ws: Id)
    requires TableKept(db, log, ws) && Commits(db, db', c, draw)
    ensures TableKept(db', log + [c], ws)
  {
    WorkspaceSnoc(log, c, ws);
    RecordStamps(db.events, c, ws);
    if c.ws == ws {
      var q := StampsIn(OfWorkspace(log, ws));
      TableSnoc(q, StampOf(c));
      assert StampsIn(OfWorkspace(log + [c], ws)) == q + [StampOf(c)];
    } else {
      assert OfWorkspace(log + [c], ws) == OfWorkspace(log, ws);
    }
  }

  lemma ImportOneCommits(db: Db, actor: Actor, ws: Id, row: ImportRow, now: int, draw: Draw)
    requires ImportOne(db, actor, ws, row, now, draw).Stored?
    ensures var r := ImportOne(db, actor, ws, row, now, draw);
      Commits(db, r.db, CreatedEvent(r.items[0], draw.event), draw)
  {
  }

  lemma EventsSnoc(items: seq<Item>, one: seq<Item>, draws: seq<Draw>)
    requires |items| < |draws| && |one| == 1
    ensures EventsOf(items + one, draws) == EventsOf(items, draws) + [CreatedEvent(one[0], draws[|items|].event)]
  {
  }

  lemma {:induction false} ImportTable(db: Db, log: seq<Change>, actor: Actor, ws: Id, rows: seq<ImportRow>, now: int, draws: seq<Draw>, w: Id)
    requires TableKept(db, log, w) && |rows| <= |draws| && ImportAll(db, actor, ws, rows, now, draws).Stored?
    ensures var r := ImportAll(db, actor, ws, rows, now, draws);
      TableKept(r.db, log + EventsOf(r.items, draws), w)
    decreases |rows|
  {
    if rows == [] {
      assert log + EventsOf([], draws) == log;
    } else {
      var n := |rows| - 1;
      var mid := ImportAll(db, actor, ws, rows[..n], now, draws);
      var one := ImportOne(mid.db, actor, ws, rows[n], now, draws[n]);
      var more, c := log + EventsOf(mid.items, draws), CreatedEvent(one.items[0], draws[n].event);
      ImportTable(db, log, actor, ws, rows[..n], now, draws, w);
      ImportOneCommits(mid.db, actor, ws, rows[n], now, draws[n]);
      CommitTable(mid.db, one.db, more, c, draws[n], w);
      EventsSnoc(mid.items, one.items, draws);
      assert log + EventsOf(mid.items + one.items, draws) == more + [c];
    }
  }

  lemma StepTable(s: Store, op: Op, most: int, ws: Id)
    requires Inv(s) && TableKept(s.db, s.log, ws)
    ensures TableKept(Apply(s, op, most).db, Apply(s, op, most).log, ws)
  {
    if op.Import? {
      if Apply(s, op, most) != s {
        ImportTable(s.db, s.log, op.actor, op.ws, op.rows, op.now, op.draws, ws);
      }
    } else if ChangeOf(s, op, most).Some? {
      OpCommits(s, op, most);
      CommitTable(s.db, DbAfter(s, op, most), s.log, ChangeOf(s, op, most).value, op.draw, ws);
    }
  }

  // ---------- log and history ----------

  /** What an operation records, in that order. */
  function BatchOf(s: Store, op: Op, most: int): seq<Change> {
    if |Apply(s, op, most).log| >= |s.log| then Apply(s, op, most).log[|s.log|..] else []
  }

  lemma BatchIs(s: Store, op: Op, most: int)
    ensures Apply(s, op, most).log == s.log + BatchOf(s, op, most)
    ensures Apply(s, op, most).history == s.history + ByKey(BatchOf(s, op, most))
    ensures op.Import? ==> |BatchOf(s, op, most)| <= |op.rows|
    ensures !op.Import? ==> |BatchOf(s, op, most)| <= 1
  {
    var batch := BatchOf(s, op, most);
    LogGrows(s, op, most);
    assert ByKey([]) == [] && s.history + [] == s.history;
    if !op.Import? && ChangeOf(s, op, most).Some? {
      var c := ChangeOf(s, op, most).value;
      assert batch == [c];
      assert [c][..0] == [] && ByKey([c]) == InsertByKey(ByKey([]), c);
    }
  }

  /** One workspace per operation. */
  lemma {:induction false} ImportPlaces(items: seq<Item>, draws: seq<Draw>, ws: Id, w: Id)
    requires |items| <= |draws| && forall i :: 0 <= i < |items| ==> items[i].ws == ws
    ensures OfWorkspace(EventsOf(items, draws), w) == if w == ws then EventsOf(items, draws) else []
    decreases |items|
  {
    if items != [] {
      var front, batch := items[..|items| - 1], EventsOf(items, draws);
      ImportPlaces(front, draws, ws, w);
      assert batch[..|batch| - 1] == EventsOf(front, draws);
      assert w == ws ==> batch == batch[..|batch| - 1] + [batch[|batch| - 1]];
    }
  }

  lemma ImportBatch(s: Store, op: Op, most: int)
    requires op.Import? && Apply(s, op, most) != s
    ensures |op.rows| <= |op.draws| && ImportAll(s.db, op.actor, op.ws, op.rows, op.now, op.draws).Stored?
    ensures BatchOf(s, op, most) == EventsOf(ImportAll(s.db, op.actor, op.ws, op.rows, op.now, op.draws).items, op.draws)
  {
  }

  lemma OneChange(c: Change, w: Id)
    ensures OfWorkspace([c], w) == [] || OfWorkspace([c], w) == [c]
  {
    assert [c][..0] == [];
  }

  lemma BatchPlace(s: Store, op: Op, most: int, w: Id)
    ensures OfWorkspace(BatchOf(s, op, most), w) == [] || OfWorkspace(BatchOf(s, op, most), w) == BatchOf(s, op, most)
  {
    var batch := BatchOf(s, op, most);
    BatchIs(s, op, most);
    if op.Import? {
      if Apply(s, op, most) != s {
        ImportBatch(s, op, most);
        ImportPlaces(ImportAll(s.db, op.actor, op.ws, op.rows, op.now, op.draws).items, op.draws, op.ws, w);
      }
    } else if |batch| == 1 {
      assert batch == [batch[0]];
      OneChange(batch[0], w);
    }
  }

  /** What an operation adds to the log and the history of a workspace. */
  function Added(s: Store, op: Op, most: int, ws: Id): seq<Change> {
    OfWorkspace(BatchOf(s, op, most), ws)
  }

  lemma {:induction false} ByKeyPlaces(batch: seq<Change>, ws: Id)
    requires IdsDiffer(batch) && (OfWorkspace(batch, ws) == [] || OfWorkspace(batch, ws) == batch)
    ensures OfWorkspace(ByKey(batch), ws) == ByKey(OfWorkspace(batch, ws))
  {
    ByKeyIs(batch);
    WorkspaceIs(batch, ws);
    if OfWorkspace(batch, ws) == [] {
      assert forall c :: c in batch && c.ws == ws ==> c in OfWorkspace(batch, ws);
      NoneInWorkspace(ByKey(batch), ws);
    } else {
      AllInWorkspace(ByKey(batch), ws);
    }
  }

  lemma {:induction false} NoneInWorkspace(rows: seq<Change>, ws: Id)
    requires forall c :: c in rows ==> c.ws != ws
    ensures OfWorkspace(rows, ws) == []
    decreases |rows|
  {
    if rows != [] {
      NoneInWorkspace(rows[..|rows| - 1], ws);
      assert rows == rows[..|rows| - 1] + [rows[|rows| - 1]];
    }
  }

  lemma {:induction false} AllInWorkspace(rows: seq<Change>, ws: Id)
    requires forall c :: c in rows ==> c.ws == ws
    ensures OfWorkspace(rows, ws) == rows
    decreases |rows|
  {
    if rows != [] {
      AllInWorkspace(rows[..|rows| - 1], ws);
      assert rows == rows[..|rows| - 1] + [rows[|rows| - 1]];
    }
  }

  /** No id twice. */
  lemma {:induction false} LogIdsDiffer(log: seq<Change>)
    requires Contiguous(log)
    ensures IdsDiffer(log)
    decreases |log|
  {
    if log != [] {
      LogIdsDiffer(log[..|log| - 1]);
    }
  }

  lemma PartDiffers(a: seq<Change>, b: seq<Change>)
    requires IdsDiffer(a + b)
    ensures IdsDiffer(a) && IdsDiffer(b)
  {
    forall i, j | 0 <= i < |b| && 0 <= j < |b| && b[i].id == b[j].id ensures i == j {
      assert (a + b)[|a| + i] == b[i] && (a + b)[|a| + j] == b[j];
    }
    forall i, j | 0 <= i < |a| && 0 <= j < |a| && a[i].id == a[j].id ensures i == j {
      assert (a + b)[i] == a[i] && (a + b)[j] == a[j];
    }
  }

  lemma JoinDiffers(a: seq<Change>, b: seq<Change>)
    requires IdsDiffer(a) && IdsDiffer(b) && forall c, d :: c in a && d in b ==> c.id != d.id
    ensures IdsDiffer(a + b)
  {
  }

  lemma DifferAt(batch: seq<Change>, c: Change, d: Change)
    requires IdsDiffer(batch) && c in batch && d in batch && c != d
    ensures c.id != d.id
  {
    var m :| 0 <= m < |batch| && batch[m] == c;
    var n :| 0 <= n < |batch| && batch[n] == d;
  }

  lemma RisingDiffers(rows: seq<Change>, batch: seq<Change>)
    requires Rising(rows) && IdsDiffer(batch) && forall c :: c in rows ==> c in batch
    ensures IdsDiffer(rows)
  {
    forall i, j | 0 <= i < j < |rows| ensures rows[i].id != rows[j].id {
      var q := StampsIn(rows);
      assert Precedes(false, q[i], q[j]);
      assert rows[i] in rows && rows[j] in rows;
      DifferAt(batch, rows[i], rows[j]);
    }
  }

  /** Log and history list the same changes. */
  ghost predicate SameChanges(s: Store) {
    (forall c :: c in s.log <==> c in s.history) && IdsDiffer(s.history)
  }

  lemma StepChanges(s: Store, op: Op, most: int)
    requires Inv(s) && SameChanges(s)
    ensures SameChanges(Apply(s, op, most)) && IdsDiffer(BatchOf(s, op, most))
  {
    var batch, s' := BatchOf(s, op, most), Apply(s, op, most);
    StepKeeps(s, op, most);
    BatchIs(s, op, most);
    LogIdsDiffer(s'.log);
    PartDiffers(s.log, batch);
    ByKeyIs(batch);
    RisingDiffers(ByKey(batch), batch);
    forall c, d | c in s.history && d in ByKey(batch) ensures c.id != d.id {
      SplitDiffers(s.log, batch, c, d);
    }
    JoinDiffers(s.history, ByKey(batch));
  }

  lemma SplitDiffers(a: seq<Change>, b: seq<Change>, c: Change, d: Change)
    requires IdsDiffer(a + b) && c in a && d in b
    ensures c.id != d.id
  {
    var i :| 0 <= i < |a| && a[i] == c;
    var j :| 0 <= j < |b| && b[j] == d;
    assert (a + b)[i] == c && (a + b)[|a| + j] == d;
  }

  // ---------- every run ----------

  ghost predicate FeedInv(s: Store, ws: Id) {
    Inv(s) && SameChanges(s) && TableKept(s.db, s.log, ws)
  }

  lemma {:induction false} RunFeeds(s: Store, ops: seq<Op>, most: int, ws: Id)
    requires FeedInv(s, ws)
    ensures FeedInv(Run(s, ops, most), ws)
    decreases |ops|
  {
    if ops != [] {
      StepKeeps(s, ops[0], most);
      StepChanges(s, ops[0], most);
      StepTable(s, ops[0], most, ws);
      RunFeeds(Apply(s, ops[0], most), ops[1..], most, ws);
    }
  }

  lemma FreshFeeds(ws: Id)
    ensures FeedInv(FRESH, ws)
  {
    FreshKeeps();
  }

  lemma {:induction false} WorkspaceDiffers(rows: seq<Change>, ws: Id)
    requires IdsDiffer(rows)
    ensures IdsDiffer(OfWorkspace(rows, ws))
    decreases |rows|
  {
    if rows != [] {
      var front, c := rows[..|rows| - 1], rows[|rows| - 1];
      assert rows == front + [c];
      PartDiffers(front, [c]);
      WorkspaceDiffers(front, ws);
      WorkspaceIs(front, ws);
      forall d | d in OfWorkspace(front, ws) ensures d.id != c.id {
        SplitDiffers(front, [c], d, c);
      }
      if c.ws == ws {
        JoinDiffers(OfWorkspace(front, ws), [c]);
      }
    }
  }

  lemma DifferentStamps(rows: seq<Change>)
    requires IdsDiffer(rows) && rows != []
    ensures StampsIn(rows)[|rows| - 1] !in StampsIn(rows)[..|rows| - 1]
  {
  }

  /** What the table has and what was recorded are in the relation the feed's laws speak of. */
  lemma FeedIsRecorded(s: Store, ws: Id)
    requires FeedInv(s, ws)
    ensures RecordedAs(s.db.events, ws, HistoryOf(s, ws), RecordedOf(s, ws)) && IdsDiffer(HistoryOf(s, ws))
  {
    var history, log := HistoryOf(s, ws), OfWorkspace(s.log, ws);
    WorkspaceIs(s.history, ws);
    WorkspaceIs(s.log, ws);
    SameElements(log, history);
    LogIdsDiffer(s.log);
    WorkspaceDiffers(s.log, ws);
    WorkspaceDiffers(s.history, ws);
    if log != [] {
      DifferentStamps(log);
    }
    forall i | 0 <= i < |history| ensures history[i].ws == ws && (history[i].id in s.db.events ==> s.db.events[history[i].id] == history[i]) {
      assert history[i] in history;
      if history[i].id in s.db.events {
        RetainedIs(s, history[i]);
      }
    }
  }

  lemma RetainedIs(s: Store, c: Change)
    requires Inv(s) && IdsDiffer(s.log) && c in s.log && c.id in s.db.events
    ensures s.db.events[c.id] == c
  {
    var d := s.db.events[c.id];
    assert d in s.log && d.id == c.id;
    var i :| 0 <= i < |s.log| && s.log[i] == c;
    var j :| 0 <= j < |s.log| && s.log[j] == d;
  }

  // ---------- when the feed has gaps, and when not ----------

  /** After every run, with no condition on keys or imports: the table of each workspace
      holds the newest 999 of all events recorded before the last, and the last; and no
      gap has opened exactly if what it holds is the end of the history, with keys that rise. */
  lemma FeedAfterAnyRun(ops: seq<Op>, most: int, ws: Id)
    ensures var s := Run(FRESH, ops, most); var events, history := s.db.events, HistoryOf(s, ws);
      && StampsOf(events, ws) == TableOf(RecordedOf(s, ws))
      && (GapFree(events, ws, history) <==> exists k :: RisingSuffix(events, ws, history, k))
  {
    var s := Run(FRESH, ops, most);
    FreshFeeds(ws);
    RunFeeds(FRESH, ops, most, ws);
    FeedIsRecorded(s, ws);
    NoGapsIffRisingSuffix(s.db.events, ws, HistoryOf(s, ws));
  }

  /** If each transaction's keys exceed all earlier ones, imports of whatever size open
      no gap if and only if fewer than 1000 events are above the last one recorded. */
  lemma RisingFeedIsExact(ops: seq<Op>, most: int, ws: Id)
    requires Rising(HistoryOf(Run(FRESH, ops, most), ws))
    ensures var s := Run(FRESH, ops, most);
      GapFree(s.db.events, ws, HistoryOf(s, ws)) <==> AboveLast(RecordedOf(s, ws)) < 1000
  {
    var s := Run(FRESH, ops, most);
    FreshFeeds(ws);
    RunFeeds(FRESH, ops, most, ws);
    FeedIsRecorded(s, ws);
    NoGapsIffLastIsNearTheTop(s.db.events, ws, HistoryOf(s, ws), RecordedOf(s, ws));
  }

  /** Every import has at most `n` rows. */
  predicate ImportsAtMost(ops: seq<Op>, n: nat) {
    forall i :: 0 <= i < |ops| && ops[i].Import? ==> |ops[i].rows| <= n
  }

  lemma StepFeeds(s: Store, op: Op, most: int, ws: Id)
    requires FeedInv(s, ws)
    ensures FeedInv(Apply(s, op, most), ws) && IdsDiffer(BatchOf(s, op, most))
  {
    StepKeeps(s, op, most);
    StepChanges(s, op, most);
    StepTable(s, op, most, ws);
  }

  lemma HistoryNext(s: Store, op: Op, most: int, ws: Id)
    requires IdsDiffer(BatchOf(s, op, most))
    ensures HistoryOf(Apply(s, op, most), ws) == HistoryOf(s, ws) + ByKey(Added(s, op, most, ws))
  {
    var batch := BatchOf(s, op, most);
    BatchIs(s, op, most);
    BatchPlace(s, op, most, ws);
    ByKeyPlaces(batch, ws);
    WorkspaceAppend(s.history, ByKey(batch), ws);
  }

  lemma RecordedNext(s: Store, op: Op, most: int, ws: Id)
    ensures RecordedOf(Apply(s, op, most), ws) == RecordedOf(s, ws) + StampsIn(Added(s, op, most, ws))
  {
    BatchIs(s, op, most);
    WorkspaceAppend(s.log, BatchOf(s, op, most), ws);
  }

  /** What one operation adds, in the order it is recorded and in the order it is read. */
  lemma StepHistory(s: Store, op: Op, most: int, ws: Id)
    requires FeedInv(s, ws)
    ensures FeedInv(Apply(s, op, most), ws) && IdsDiffer(Added(s, op, most, ws))
    ensures HistoryOf(Apply(s, op, most), ws) == HistoryOf(s, ws) + ByKey(Added(s, op, most, ws))
    ensures RecordedOf(Apply(s, op, most), ws) == RecordedOf(s, ws) + StampsIn(Added(s, op, most, ws))
    ensures |Added(s, op, most, ws)| <= if op.Import? then |op.rows| else 1
  {
    StepFeeds(s, op, most, ws);
    HistoryNext(s, op, most, ws);
    RecordedNext(s, op, most, ws);
    BatchIs(s, op, most);
    WorkspaceIs(BatchOf(s, op, most), ws);
    WorkspaceDiffers(BatchOf(s, op, most), ws);
  }

  lemma StepNearTheTop(s: Store, op: Op, most: int, ws: Id)
    requires FeedInv(s, ws) && (op.Import? ==> |op.rows| <= MAX_RETAINED)
    requires Rising(HistoryOf(Apply(s, op, most), ws)) && AboveLast(RecordedOf(s, ws)) < MAX_RETAINED
    ensures AboveLast(RecordedOf(Apply(s, op, most), ws)) < MAX_RETAINED
  {
    var more := Added(s, op, most, ws);
    StepHistory(s, op, most, ws);
    FeedIsRecorded(s, ws);
    if more == [] {
      assert RecordedOf(s, ws) + StampsIn(more) == RecordedOf(s, ws);
    } else {
      BatchIsNearTheTop(HistoryOf(s, ws), RecordedOf(s, ws), more);
    }
  }

  lemma {:induction false} RunSplits(s: Store, ops: seq<Op>, n: nat, most: int)
    requires n <= |ops|
    ensures Run(s, ops, most) == Run(Run(s, ops[..n], most), ops[n..], most)
    decreases |ops|
  {
    if n == 0 {
      assert ops[..0] == [] && ops[0..] == ops;
    } else {
      assert ops[..n][0] == ops[0] && ops[..n][1..] == ops[1..][..n - 1] && ops[1..][n - 1..] == ops[n..];
      RunSplits(Apply(s, ops[0], most), ops[1..], n - 1, most);
    }
  }

  lemma RunLast(ops: seq<Op>, most: int)
    requires ops != []
    ensures Run(FRESH, ops, most) == Apply(Run(FRESH, ops[..|ops| - 1], most), ops[|ops| - 1], most)
  {
    var n := |ops| - 1;
    RunSplits(FRESH, ops, n, most);
    var s := Run(FRESH, ops[..n], most);
    assert ops[n..] == [ops[n]] && ops[n..][1..] == [];
    assert Run(Apply(s, ops[n], most), [], most) == Apply(s, ops[n], most);
  }

  lemma {:induction false} HistoryGrows(ops: seq<Op>, n: nat, most: int, ws: Id)
    requires n <= |ops|
    ensures HistoryOf(Run(FRESH, ops[..n], most), ws) <= HistoryOf(Run(FRESH, ops, most), ws)
    decreases |ops|
  {
    if n == |ops| {
      assert ops[..n] == ops;
    } else {
      var front := ops[..|ops| - 1];
      assert front[..n] == ops[..n];
      HistoryGrows(front, n, most, ws);
      RunLast(ops, most);
      FreshFeeds(ws);
      RunFeeds(FRESH, front, most, ws);
      StepHistory(Run(FRESH, front, most), ops[|ops| - 1], most, ws);
    }
  }

  lemma RisingEarlier(ops: seq<Op>, n: nat, most: int, ws: Id)
    requires n <= |ops| && Rising(HistoryOf(Run(FRESH, ops, most), ws))
    ensures Rising(HistoryOf(Run(FRESH, ops[..n], most), ws))
  {
    HistoryGrows(ops, n, most, ws);
    var h := HistoryOf(Run(FRESH, ops[..n], most), ws);
    assert h == HistoryOf(Run(FRESH, ops, most), ws)[0..|h|];
    RisingPart(HistoryOf(Run(FRESH, ops, most), ws), 0, |h|);
  }

  lemma {:induction false} NearTheTop(ops: seq<Op>, most: int, ws: Id)
    requires ImportsAtMost(ops, MAX_RETAINED) && Rising(HistoryOf(Run(FRESH, ops, most), ws))
    ensures AboveLast(RecordedOf(Run(FRESH, ops, most), ws)) < MAX_RETAINED
    decreases |ops|
  {
    if ops == [] {
      assert RecordedOf(FRESH, ws) == [];
    } else {
      var front := ops[..|ops| - 1];
      assert front == ops[..|front|];
      RisingEarlier(ops, |front|, most, ws);
      NearTheTop(front, most, ws);
      RunLast(ops, most);
      FreshFeeds(ws);
      RunFeeds(FRESH, front, most, ws);
      StepNearTheTop(Run(FRESH, front, most), ops[|ops| - 1], most, ws);
    }
  }

  /** With imports of at most 1000 rows, and each transaction's keys above all earlier
      ones, the table holds exactly the newest 1000 changes of each workspace, and a page
      after any event is the next changes of the whole history, or says that the client
      must start over; the latter exactly if the event is no longer among those 1000. */
  lemma FeedHasNoGaps(ops: seq<Op>, most: int, ws: Id, e: Id, limit: nat)
    requires ImportsAtMost(ops, MAX_RETAINED) && Rising(HistoryOf(Run(FRESH, ops, most), ws))
    ensures var s := Run(FRESH, ops, most); var events, history := s.db.events, HistoryOf(s, ws);
      var page := ChangesAfter(events, ws, After(e), limit);
      && Holds(events, ws, LastOf(history, 1000))
      && (page.resync <==> !HasEvent(LastOf(history, 1000), e))
      && (!page.resync ==> exists p :: IsPageAfter(history, p, e, limit, page))
  {
    var s := Run(FRESH, ops, most);
    NearTheTop(ops, most, ws);
    FreshFeeds(ws);
    RunFeeds(FRESH, ops, most, ws);
    FeedIsRecorded(s, ws);
    NewestAreHeld(s.db.events, ws, HistoryOf(s, ws), RecordedOf(s, ws));
    NoGaps(s.db.events, ws, HistoryOf(s, ws), e, limit);
  }

  /** No gap at any stage of the run. */
  ghost predicate NeverAGap(ops: seq<Op>, most: int, ws: Id) {
    forall n :: 0 <= n <= |ops| ==> NoGapAt(ops, n, most, ws)
  }

  ghost predicate NoGapAt(ops: seq<Op>, n: nat, most: int, ws: Id)
    requires n <= |ops|
  {
    var s := Run(FRESH, ops[..n], most);
    GapFree(s.db.events, ws, HistoryOf(s, ws))
  }

  lemma StageHasNoGap(ops: seq<Op>, n: nat, most: int, ws: Id)
    requires n <= |ops| && ImportsAtMost(ops, MAX_RETAINED) && Rising(HistoryOf(Run(FRESH, ops, most), ws))
    ensures NoGapAt(ops, n, most, ws)
  {
    RisingEarlier(ops, n, most, ws);
    NearTheTop(ops[..n], most, ws);
    RisingFeedIsExact(ops[..n], most, ws);
  }

  lemma {:induction false} GapsShow(ops: seq<Op>, most: int, ws: Id)
    requires ImportsAtMost(ops, MAX_RETAINED - 1) && NeverAGap(ops, most, ws)
    ensures Rising(HistoryOf(Run(FRESH, ops, most), ws))
    decreases |ops|
  {
    if ops != [] {
      var front, op := ops[..|ops| - 1], ops[|ops| - 1];
      forall n | 0 <= n <= |front| ensures NoGapAt(front, n, most, ws) {
        assert front[..n] == ops[..n];
        assert NoGapAt(ops, n, most, ws);
      }
      GapsShow(front, most, ws);
      RunLast(ops, most);
      assert ops[..|ops|] == ops;
      assert NoGapAt(ops, |ops|, most, ws);
      FreshFeeds(ws);
      RunFeeds(FRESH, front, most, ws);
      StepShows(Run(FRESH, front, most), op, most, ws);
    }
  }

  lemma StepShows(s: Store, op: Op, most: int, ws: Id)
    requires FeedInv(s, ws) && Rising(HistoryOf(s, ws)) && (op.Import? ==> |op.rows| < MAX_RETAINED)
    requires GapFree(Apply(s, op, most).db.events, ws, HistoryOf(Apply(s, op, most), ws))
    ensures Rising(HistoryOf(Apply(s, op, most), ws))
  {
    StepHistory(s, op, most, ws);
    FeedIsRecorded(s, ws);
    FeedIsRecorded(Apply(s, op, most), ws);
    NoGapNeedsRisingKeys(Apply(s, op, most).db.events, ws, HistoryOf(s, ws), RecordedOf(s, ws), Added(s, op, most, ws));
  }

  /** With imports of fewer than 1000 rows, a gap never opens at any stage of a run if
      and only if every transaction's keys exceed all earlier ones. */
  lemma NeverAGapIffKeysRise(ops: seq<Op>, most: int, ws: Id)
    requires ImportsAtMost(ops, MAX_RETAINED - 1)
    ensures NeverAGap(ops, most, ws) <==> Rising(HistoryOf(Run(FRESH, ops, most), ws))
  {
    if NeverAGap(ops, most, ws) {
      GapsShow(ops, most, ws);
    }
    if Rising(HistoryOf(Run(FRESH, ops, most), ws)) {
      forall n | 0 <= n <= |ops| ensures NoGapAt(ops, n, most, ws) {
        StageHasNoGap(ops, n, most, ws);
      }
    }
  }

  /** The rows of an import that has gone through, all of one instant. */
  lemma {:induction false} ImportInstant(db: Db, actor: Actor, ws: Id, rows: seq<ImportRow>, now: int, draws: seq<Draw>)
    requires |rows| <= |draws| && ImportAll(db, actor, ws, rows, now, draws).Stored?
    ensures forall i :: 0 <= i < |rows| ==> ImportAll(db, actor, ws, rows, now, draws).items[i].createdAt == now
    decreases |rows|
  {
    if rows != [] {
      ImportInstant(db, actor, ws, rows[..|rows| - 1], now, draws);
    }
  }

  lemma FirstImport(op: Op, most: int)
    requires op.Import? && Apply(FRESH, op, most) != FRESH
    ensures var s := Apply(FRESH, op, most); var items := ImportAll(FRESH.db, op.actor, op.ws, op.rows, op.now, op.draws).items;
      && RecordedOf(s, op.ws) == StampsIn(EventsOf(items, op.draws)) && HistoryOf(s, op.ws) == ByKey(EventsOf(items, op.draws))
      && IdsDiffer(EventsOf(items, op.draws)) && FeedInv(s, op.ws) && items != []
      && forall i :: 0 <= i < |items| ==> items[i].createdAt == op.now
  {
    var ws := op.ws;
    ImportBatch(FRESH, op, most);
    var items := ImportAll(FRESH.db, op.actor, ws, op.rows, op.now, op.draws).items;
    FreshFeeds(ws);
    StepHistory(FRESH, op, most, ws);
    ImportPlaces(items, op.draws, ws, ws);
    ImportInstant(FRESH.db, op.actor, ws, op.rows, op.now, op.draws);
    assert HistoryOf(FRESH, ws) == [] && RecordedOf(FRESH, ws) == [];
  }

  /** The first import of a workspace, whose event ids happen to fall: it leaves a gap
      exactly if it has more than 1000 rows. */
  lemma FallingImport(op: Op, most: int)
    requires op.Import? && Apply(FRESH, op, most) != FRESH
    requires forall i, j :: 0 <= i < j < |op.draws| ==> op.draws[j].event < op.draws[i].event
    ensures var s := Apply(FRESH, op, most);
      && Rising(HistoryOf(s, op.ws)) && |HistoryOf(s, op.ws)| == |op.rows|
      && (GapFree(s.db.events, op.ws, HistoryOf(s, op.ws)) <==> |op.rows| <= 1000)
  {
    var s, ws := Apply(FRESH, op, most), op.ws;
    ImportBatch(FRESH, op, most);
    FirstImport(op, most);
    var items := ImportAll(FRESH.db, op.actor, ws, op.rows, op.now, op.draws).items;
    ByKeyIs(EventsOf(items, op.draws));
    FeedIsRecorded(s, ws);
    NoGapsIffLastIsNearTheTop(s.db.events, ws, HistoryOf(s, ws), RecordedOf(s, ws));
    FallingAbove(items, op.draws, op.now);
  }

  lemma FallingAbove(items: seq<Item>, draws: seq<Draw>, now: int)
    requires items != [] && |items| <= |draws| && forall i :: 0 <= i < |items| ==> items[i].createdAt == now
    requires forall i, j :: 0 <= i < j < |draws| ==> draws[j].event < draws[i].event
    ensures AboveLast(StampsIn(EventsOf(items, draws))) == |items| - 1
  {
    var q := StampsIn(EventsOf(items, draws));
    var n := |q| - 1;
    assert forall i :: 0 <= i < |q| ==> q[i] == Stamp(now, draws[i].event);
    assert forall i :: 0 <= i < n ==> Before(q[n], q[i]);
    assert Above(Elements(q), q[n]) == Elements(q[..n]);
    AscendsTake(true, q, n);
    FrontCount(q, n);
  }

  // ---------- creates happen once ----------

  /** The key has a record that lasts at least until `expiry`. */
  predicate Taken(s: Store, k: RecordKey, expiry: int) {
    k in s.db.records && s.db.records[k].expiresAt >= expiry
  }

  /** The record `r` is in place, and no create that has already begun can replace it. */
  ghost predicate Remembered(s: Store, k: RecordKey, r: Record) {
    && Lookup(s.db, k) == Some(r)
    && forall tx :: tx in s.begun && KeyOfCall(s.begun[tx].call) == k ==> s.begun[tx].now < r.expiresAt || s.begun[tx].seen != Some(r)
  }

  /** Whatever record a create saw when it began, its key now has one that lasts as long. */
  ghost predicate SeenIsOld(s: Store) {
    forall tx :: tx in s.begun && s.begun[tx].seen.Some? ==> Taken(s, KeyOfCall(s.begun[tx].call), s.begun[tx].seen.value.expiresAt)
  }

  predicate BeginsBefore(op: Op, k: RecordKey, time: int) {
    op.Begin? && KeyOfCall(op.call) == k ==> op.now < time
  }

  /** The end of a create under `k` that read the clock before `expiry` when it began. */
  predicate EarlyFinish(s: Store, op: Op, k: RecordKey, expiry: int) {
    op.FinishCreate? && op.tx in s.begun && KeyOfCall(s.begun[op.tx].call) == k && s.begun[op.tx].now < expiry
  }

  lemma SameRecords(s: Store, op: Op, most: int)
    requires ChangeOf(s, op, most).Some?
    ensures op.FinishCreate? ==>
      DbAfter(s, op, most).records == s.db.records[KeyOfCall(s.begun[op.tx].call) := RecordOf(Decision(s, op, most).item)]
    ensures !op.FinishCreate? ==> DbAfter(s, op, most).records == s.db.records
  {
  }

  lemma {:induction false} ImportRecords(db: Db, actor: Actor, ws: Id, rows: seq<ImportRow>, now: int, draws: seq<Draw>)
    requires |rows| <= |draws| && ImportAll(db, actor, ws, rows, now, draws).Stored?
    ensures var r := ImportAll(db, actor, ws, rows, now, draws);
      r.db.records == db.records && r.db.outbox == db.outbox
    decreases |rows|
  {
    if rows != [] {
      ImportRecords(db, actor, ws, rows[..|rows| - 1], now, draws);
    }
  }

  /** A key's record is only ever replaced by one that lasts longer. */
  lemma ExpiryRises(s: Store, op: Op, most: int, k: RecordKey, expiry: int)
    requires Taken(s, k, expiry)
    ensures Taken(Apply(s, op, most), k, expiry)
  {
    if op.Import? {
      if Apply(s, op, most) != s {
        ImportRecords(s.db, op.actor, op.ws, op.rows, op.now, op.draws);
      }
    } else if ChangeOf(s, op, most).Some? {
      SameRecords(s, op, most);
      if op.FinishCreate? {
        var b := s.begun[op.tx];
        MadeMeans(s.db, b.seen, b.call, b.now, op.draw, most);
      }
    }
  }

  lemma NotMadeAgain(s: Store, op: Op, most: int, k: RecordKey, expiry: int)
    requires Taken(s, k, expiry) && EarlyFinish(s, op, k, expiry)
    ensures !Decision(s, op, most).Made? && Apply(s, op, most).db == s.db
  {
    var b := s.begun[op.tx];
    if Decision(s, op, most).Made? {
      MadeMeans(s.db, b.seen, b.call, b.now, op.draw, most);
    }
  }

  /** How many items a run makes by creates under `k` that began before `expiry`. */
  function MadeFor(s: Store, ops: seq<Op>, most: int, k: RecordKey, expiry: int): nat
    decreases |ops|
  {
    if ops == [] then 0
    else
      (if EarlyFinish(s, ops[0], k, expiry) && Decision(s, ops[0], most).Made? then 1 else 0)
      + MadeFor(Apply(s, ops[0], most), ops[1..], most, k, expiry)
  }

  /** Once a key is taken until `expiry`, no create under it that began before then makes
      an item: whatever it saw when it began, and whatever else is created meanwhile. */
  lemma {:induction false} MadeOnce(s: Store, ops: seq<Op>, most: int, k: RecordKey, expiry: int)
    requires Taken(s, k, expiry)
    ensures MadeFor(s, ops, most, k, expiry) == 0 && Taken(Run(s, ops, most), k, expiry)
    decreases |ops|
  {
    if ops != [] {
      ExpiryRises(s, ops[0], most, k, expiry);
      if EarlyFinish(s, ops[0], k, expiry) {
        NotMadeAgain(s, ops[0], most, k, expiry);
      }
      MadeOnce(Apply(s, ops[0], most), ops[1..], most, k, expiry);
    }
  }

  lemma StillRemembered(s: Store, op: Op, most: int, k: RecordKey, r: Record)
    requires Remembered(s, k, r) && BeginsBefore(op, k, r.expiresAt)
    ensures Remembered(Apply(s, op, most), k, r)
  {
    if op.Import? {
      if Apply(s, op, most) != s {
        ImportRecords(s.db, op.actor, op.ws, op.rows, op.now, op.draws);
      }
    } else if ChangeOf(s, op, most).Some? {
      SameRecords(s, op, most);
      if op.FinishCreate? {
        var b := s.begun[op.tx];
        MadeMeans(s.db, b.seen, b.call, b.now, op.draw, most);
      }
    }
  }

  /** The very same record stays until a create begins that finds it expired. */
  lemma {:induction false} RecordStays(s: Store, ops: seq<Op>, most: int, k: RecordKey, r: Record)
    requires Remembered(s, k, r) && forall i :: 0 <= i < |ops| ==> BeginsBefore(ops[i], k, r.expiresAt)
    ensures Remembered(Run(s, ops, most), k, r)
    decreases |ops|
  {
    if ops != [] {
      StillRemembered(s, ops[0], most, k, r);
      RecordStays(Apply(s, ops[0], most), ops[1..], most, k, r);
    }
  }

  lemma SeenNext(s: Store, op: Op, most: int)
    requires SeenIsOld(s)
    ensures SeenIsOld(Apply(s, op, most))
  {
    var s' := Apply(s, op, most);
    forall tx | tx in s'.begun && s'.begun[tx].seen.Some?
      ensures Taken(s', KeyOfCall(s'.begun[tx].call), s'.begun[tx].seen.value.expiresAt)
    {
      var b := s'.begun[tx];
      assert Taken(s, KeyOfCall(b.call), b.seen.value.expiresAt);
      ExpiryRises(s, op, most, KeyOfCall(b.call), b.seen.value.expiresAt);
    }
  }

  lemma {:induction false} SeenAlways(s: Store, ops: seq<Op>, most: int)
    requires SeenIsOld(s)
    ensures SeenIsOld(Run(s, ops, most))
    decreases |ops|
  {
    if ops != [] {
      SeenNext(s, ops[0], most);
      SeenAlways(Apply(s, ops[0], most), ops[1..], most);
    }
  }

  /** The record a committed create leaves behind lasts 24 hours. */
  lemma CreateIsRemembered(s: Store, tx: Id, draw: Draw, most: int)
    requires SeenIsOld(s) && ChangeOf(s, FinishCreate(tx, draw), most).Some?
    ensures var b := s.begun[tx]; var item := Decision(s, FinishCreate(tx, draw), most).item;
      && Remembered(Apply(s, FinishCreate(tx, draw), most), KeyOfCall(b.call), RecordOf(item))
      && RecordOf(item).expiresAt == b.now + RETENTION && ValidateTitle(b.call.title) == Some(item.title)
  {
    var b, op := s.begun[tx], FinishCreate(tx, draw);
    var k, item := KeyOfCall(b.call), Decision(s, op, most).item;
    MadeMeans(s.db, b.seen, b.call, b.now, draw, most);
    SameRecords(s, op, most);
    assert Apply(s, op, most).begun == s.begun - {tx};
    forall t | t in s.begun && KeyOfCall(s.begun[t].call) == k ensures s.begun[t].seen != Some(RecordOf(item)) {
      if s.begun[t].seen.Some? {
        assert Taken(s, k, s.begun[t].seen.value.expiresAt);
      }
    }
  }

  /** Nothing in these operations begins or finishes transaction `tx`. */
  predicate LeavesAlone(op: Op, tx: Id) {
    (op.Begin? || op.FinishCreate?) ==> op.tx != tx
  }

  lemma {:induction false} BegunStays(s: Store, ops: seq<Op>, most: int, tx: Id)
    requires tx in s.begun && forall i :: 0 <= i < |ops| ==> LeavesAlone(ops[i], tx)
    ensures tx in Run(s, ops, most).begun && Run(s, ops, most).begun[tx] == s.begun[tx]
    decreases |ops|
  {
    if ops != [] {
      BegunStays(Apply(s, ops[0], most), ops[1..], most, tx);
    }
  }

  /** What a create answers that finds record `r` still valid. */
  function AnswerFrom(r: Record, call: CreateCall): Outcome {
    if ValidateTitle(call.title).None? || !ValidKey(call.key) then Failed(InvalidInput)
    else if !call.authorized then Failed(Forbidden)
    else if ValidateTitle(call.title).value == r.request then Outcome.Replayed(r.result)
    else Failed(IdempotencyConflict)
  }

  /** A create that begins while the key is remembered returns that same item if it
      asks for the same title and a conflict if not, unless it is malformed or
      forbidden; whatever else commits before it finishes, it makes nothing. */
  lemma CreateIsIdempotent(
    s: Store, k: RecordKey, r: Record, tx: Id, call: CreateCall, now: int, between: seq<Op>, draw: Draw, most: int)
    requires Remembered(s, k, r) && KeyOfCall(call) == k && now < r.expiresAt
    requires forall i :: 0 <= i < |between| ==> LeavesAlone(between[i], tx)
    ensures var s' := Run(Apply(s, Begin(tx, call, now), most), between, most);
      && tx in s'.begun
      && Decision(s', FinishCreate(tx, draw), most) == AnswerFrom(r, call)
      && Apply(s', FinishCreate(tx, draw), most).db == s'.db
  {
    BegunStays(Apply(s, Begin(tx, call, now), most), between, most, tx);
  }

  lemma SeenInRuns(ops: seq<Op>, most: int)
    ensures SeenIsOld(Run(FRESH, ops, most))
  {
    SeenAlways(FRESH, ops, most);
  }

  /** The create `op` commits the item of record `r` under `k`. */
  ghost predicate Creates(s: Store, op: Op, most: int, k: RecordKey, r: Record) {
    && op.FinishCreate? && ChangeOf(s, op, most).Some?
    && k == KeyOfCall(s.begun[op.tx].call) && r == RecordOf(Decision(s, op, most).item)
  }

  lemma CreateTakes(s: Store, op: Op, most: int, k: RecordKey, r: Record, s': Store)
    requires SeenIsOld(s) && Creates(s, op, most, k, r) && s' == Apply(s, op, most)
    ensures Remembered(s', k, r) && Taken(s', k, r.expiresAt) && r.expiresAt == s.begun[op.tx].now + RETENTION
  {
    CreateIsRemembered(s, op.tx, op.draw, most);
  }

  /** After a committed create of any run, no create under its key whose clock reading is
      within 24 hours makes an item, whenever it finishes. */
  lemma CreatesHappenOnce(before: seq<Op>, op: Op, after: seq<Op>, most: int, k: RecordKey, r: Record)
    requires Creates(Run(FRESH, before, most), op, most, k, r)
    ensures r.expiresAt == Run(FRESH, before, most).begun[op.tx].now + RETENTION
    ensures MadeFor(Apply(Run(FRESH, before, most), op, most), after, most, k, r.expiresAt) == 0
  {
    var s := Run(FRESH, before, most);
    var s' := Apply(s, op, most);
    SeenInRuns(before, most);
    CreateTakes(s, op, most, k, r, s');
    MadeOnce(s', after, most, k, r.expiresAt);
  }

  /** ... and each that begins after it returns the same item for the same title and a
      conflict for another, unless it is malformed or forbidden, and changes nothing;
      `after` runs before it begins, `between` before it finishes. */
  lemma CreatesAreReplayed(
    before: seq<Op>, op: Op, after: seq<Op>, tx: Id, call: CreateCall, now: int, between: seq<Op>, draw: Draw, most: int, k: RecordKey, r: Record)
    requires Creates(Run(FRESH, before, most), op, most, k, r) && KeyOfCall(call) == k && now < r.expiresAt
    requires forall i :: 0 <= i < |after| ==> BeginsBefore(after[i], k, r.expiresAt)
    requires forall i :: 0 <= i < |between| ==> LeavesAlone(between[i], tx)
    ensures var mid := Run(Apply(Run(FRESH, before, most), op, most), after, most);
      var s := Run(Apply(mid, Begin(tx, call, now), most), between, most);
      && tx in s.begun && Decision(s, FinishCreate(tx, draw), most) == AnswerFrom(r, call)
      && Apply(s, FinishCreate(tx, draw), most).db == s.db
  {
    var s' := Apply(Run(FRESH, before, most), op, most);
    SeenInRuns(before, most);
    CreateTakes(Run(FRESH, before, most), op, most, k, r, s');
    RecordStays(s', after, most, k, r);
    CreateIsIdempotent(Run(s', after, most), k, r, tx, call, now, between, draw, most);
  }

  // ---------- webhooks hear of every change but imports ----------

  function EventFor(action: Action): Outbox.EventType {
    match action
    case Created => Outbox.ItemCreated
    case Updated => Outbox.ItemUpdated
    case Deleted => Outbox.ItemDeleted
  }

  /** A committed create, update or delete adds one delivery and one job for each
      webhook of the workspace that is subscribed to that event at that moment. */
  lemma ChangesArePublished(s: Store, op: Op, most: int)
    requires ChangeOf(s, op, most).Some? && Keyed(s.db)
    ensures var c := ChangeOf(s, op, most).value; var before, after := s.db.outbox, Apply(s, op, most).db.outbox;
      var kind := EventFor(c.action); var ids := op.draw.out;
      && Outbox.IdsFresh(before, Outbox.Targets(before, c.ws, kind), ids)
      && after == Outbox.Published(before, c.ws, kind, ids, c.at)
      && (forall w :: w in before.webhooks && before.webhooks[w].ws == c.ws && kind in before.webhooks[w].events ==>
            && w in ids.delivery && w in ids.job
            && (forall d :: d in after.deliveries && after.deliveries[d].event == ids.event && after.deliveries[d].webhook == w <==> d == ids.delivery[w])
            && (forall j :: j in after.jobs && after.jobs[j].payload == Some(ids.delivery[w]) <==> j == ids.job[w]))
  {
    var c := ChangeOf(s, op, most).value;
    var before, kind := s.db.outbox, EventFor(c.action);
    PublishedBy(s, op, most);
    forall w | w in before.webhooks && before.webhooks[w].ws == c.ws && kind in before.webhooks[w].events {
      Outbox.SubscribersAreServed(before, c.ws, kind, op.draw.out, c.at, w);
    }
  }

  lemma PublishedBy(s: Store, op: Op, most: int)
    requires ChangeOf(s, op, most).Some? && Keyed(s.db)
    ensures var c := ChangeOf(s, op, most).value; var kind := EventFor(c.action);
      && CanPublish(s.db.outbox, c.ws, kind, op.draw)
      && DbAfter(s, op, most).outbox == Outbox.Published(s.db.outbox, c.ws, kind, op.draw.out, c.at)
  {
    match op
    case FinishCreate(tx, draw) => MadeMeans(s.db, s.begun[tx].seen, s.begun[tx].call, s.begun[tx].now, draw, most);
    case Update(authorized, ws, id, version, edit, now, draw) => UpdateAllowed(s.db, authorized, ws, id, version, edit, now, draw);
    case Delete(authorized, ws, id, version, now, draw) => DeleteAllowed(s.db, authorized, ws, id, version, now, draw);
  }

  lemma UpdateAllowed(db: Db, authorized: bool, ws: Id, id: Id, version: int, edit: Edit, now: int, draw: Draw)
    requires UpdateFault(db, authorized, ws, id, version, edit, draw).None?
    ensures id in db.items && db.items[id].ws == ws && EditValid(edit) && CanPublish(db.outbox, ws, Outbox.ItemUpdated, draw)
    ensures EditedItem(db.items[id], edit, now).ws == ws && EditedItem(db.items[id], edit, now).updatedAt == now
  {
  }

  lemma DeleteAllowed(db: Db, authorized: bool, ws: Id, id: Id, version: int, now: int, draw: Draw)
    requires DeleteFault(db, authorized, ws, id, version, draw).None?
    ensures id in db.items && db.items[id].ws == ws && CanPublish(db.outbox, ws, Outbox.ItemDeleted, draw)
  {
  }

  /** Everything else, imports included, leaves deliveries and jobs as they were. */
  lemma OtherwiseUnpublished(s: Store, op: Op, most: int)
    requires ChangeOf(s, op, most).None?
    ensures Apply(s, op, most).db.outbox == s.db.outbox
  {
    if op.Import? && Apply(s, op, most) != s {
      ImportRecords(s.db, op.actor, op.ws, op.rows, op.now, op.draws);
    }
  }

  // ---------- what an update leaves alone ----------

  /** A committed update moves one item's version up by one, changes its title or
      status only if asked to, never its origin, and touches no other item. */
  lemma UpdatesLeaveTheRest(s: Store, op: Op, most: int)
    requires op.Update? && ChangeOf(s, op, most).Some? && Keyed(s.db)
    ensures var before, after := s.db.items, Apply(s, op, most).db.items;
      && op.id in before && op.id in after && after.Keys == before.Keys
      && (forall i :: i in before && i != op.id ==> after[i] == before[i])
      && (var old', new' := before[op.id], after[op.id];
          && new'.version == old'.version + 1 == op.version + 1 && new'.updatedAt == op.now
          && new'.id == old'.id && new'.ws == old'.ws && new'.author == old'.author && new'.createdAt == old'.createdAt
          && (if op.edit.title.Some? then ValidateTitle(op.edit.title.value) == Some(new'.title) else new'.title == old'.title)
          && (if op.edit.status.Some? then op.edit.status.value == Known(new'.status) else new'.status == old'.status))
  {
    UpdateAllowed(s.db, op.authorized, op.ws, op.id, op.version, op.edit, op.now, op.draw);
  }

  // ---------- the limit ----------

  ghost predicate WithinLimit(db: Db, most: int) {
    forall ws :: CountItems(db.items, ws) <= most
  }

  lemma InsertCount(items: map<Id, Item>, id: Id, item: Item, ws: Id)
    requires id !in items
    ensures CountItems(items[id := item], ws) == CountItems(items, ws) + if item.ws == ws then 1 else 0
  {
    if item.ws == ws {
      assert ItemsOf(items[id := item], ws) == ItemsOf(items, ws) + {id};
    } else {
      assert ItemsOf(items[id := item], ws) == ItemsOf(items, ws);
    }
  }

  lemma EditCount(items: map<Id, Item>, id: Id, item: Item, ws: Id)
    requires id in items && items[id].ws == item.ws
    ensures CountItems(items[id := item], ws) == CountItems(items, ws)
  {
    assert ItemsOf(items[id := item], ws) == ItemsOf(items, ws);
  }

  lemma DeleteCount(items: map<Id, Item>, id: Id, ws: Id)
    ensures CountItems(items - {id}, ws) <= CountItems(items, ws)
  {
    assert ItemsOf(items - {id}, ws) == ItemsOf(items, ws) - {id};
    if id in ItemsOf(items, ws) {
      assert |ItemsOf(items, ws) - {id}| == |ItemsOf(items, ws)| - 1;
    } else {
      assert ItemsOf(items, ws) - {id} == ItemsOf(items, ws);
    }
  }

  lemma ImportOneCount(db: Db, actor: Actor, ws: Id, row: ImportRow, now: int, draw: Draw, w: Id)
    requires ImportOne(db, actor, ws, row, now, draw).Stored?
    ensures var r := ImportOne(db, actor, ws, row, now, draw);
      CountItems(r.db.items, w) == CountItems(db.items, w) + if w == ws then 1 else 0
  {
    var r := ImportOne(db, actor, ws, row, now, draw);
    InsertCount(db.items, draw.item, r.items[0], w);
  }

  lemma {:induction false} ImportCount(db: Db, actor: Actor, ws: Id, rows: seq<ImportRow>, now: int, draws: seq<Draw>, w: Id)
    requires |rows| <= |draws| && ImportAll(db, actor, ws, rows, now, draws).Stored?
    ensures var r := ImportAll(db, actor, ws, rows, now, draws);
      CountItems(r.db.items, w) == CountItems(db.items, w) + if w == ws then |rows| else 0
    decreases |rows|
  {
    if rows != [] {
      var n := |rows| - 1;
      var mid := ImportAll(db, actor, ws, rows[..n], now, draws);
      ImportCount(db, actor, ws, rows[..n], now, draws, w);
      ImportOneCount(mid.db, actor, ws, rows[n], now, draws[n], w);
    }
  }

  lemma StepWithinLimit(s: Store, op: Op, most: int)
    requires Keyed(s.db) && WithinLimit(s.db, most)
    ensures WithinLimit(Apply(s, op, most).db, most)
  {
    forall ws ensures CountItems(Apply(s, op, most).db.items, ws) <= most {
      if op.Import? {
        if Apply(s, op, most) != s {
          ImportCount(s.db, op.actor, op.ws, op.rows, op.now, op.draws, ws);
        }
      } else if ChangeOf(s, op, most).Some? {
        CommitCount(s, op, most, ws);
      }
    }
  }

  lemma CommitCount(s: Store, op: Op, most: int, ws: Id)
    requires Keyed(s.db) && CountItems(s.db.items, ws) <= most && ChangeOf(s, op, most).Some?
    ensures CountItems(DbAfter(s, op, most).items, ws) <= most
  {
    match op
    case FinishCreate(tx, draw) =>
      MadeMeans(s.db, s.begun[tx].seen, s.begun[tx].call, s.begun[tx].now, draw, most);
      InsertCount(s.db.items, draw.item, Decision(s, op, most).item, ws);
    case Update(_, _, id, _, edit, now, _) => EditCount(s.db.items, id, EditedItem(s.db.items[id], edit, now), ws);
    case Delete(_, _, id, _, _, _) => DeleteCount(s.db.items, id, ws);
  }

  lemma {:induction false} RunWithinLimit(s: Store, ops: seq<Op>, most: int)
    requires Inv(s) && WithinLimit(s.db, most)
    ensures WithinLimit(Run(s, ops, most).db, most)
    decreases |ops|
  {
    if ops != [] {
      StepWithinLimit(s, ops[0], most);
      StepKeeps(s, ops[0], most);
      RunWithinLimit(Apply(s, ops[0], most), ops[1..], most);
    }
  }

  /** No run of creates and imports takes a workspace, with all its items, over its limit. */
  lemma WorkspacesStayWithinLimit(ops: seq<Op>, most: nat, ws: Id, all: set<Id>)
    requires var items := Run(FRESH, ops, most).db.items; forall i :: i in all <==> i in items && items[i].ws == ws
    ensures |all| <= most
  {
    FreshKeeps();
    forall w ensures CountItems(FRESH.db.items, w) == 0 {
      assert ItemsOf(FRESH.db.items, w) == {};
    }
    RunWithinLimit(FRESH, ops, most);
    assert CountItems(Run(FRESH, ops, most).db.items, ws) <= most;
    assert ItemsOf(Run(FRESH, ops, most).db.items, ws) == all;
  }

  // ---------- the stages of a run ----------

  /** Every stage of such a run is one a polling client may see, so that
      PollsAreContiguous speaks of all clients of all runs. */
  lemma StageIsPollable(ops: seq<Op>, n: nat, most: int, ws: Id, limit: nat)
    requires n <= |ops| && limit >= 1 && ImportsAtMost(ops, MAX_RETAINED) && Rising(HistoryOf(Run(FRESH, ops, most), ws))
    ensures var stage, final := Run(FRESH, ops[..n], most), HistoryOf(Run(FRESH, ops, most), ws);
      && PollOk(Poll(HistoryOf(stage, ws), stage.db.events, limit), ws)
      && HistoryOf(stage, ws) <= final && IdsDiffer(final)
  {
    StageHasNoGap(ops, n, most, ws);
    HistoryGrows(ops, n, most, ws);
    FreshFeeds(ws);
    RunFeeds(FRESH, ops, most, ws);
    FeedIsRecorded(Run(FRESH, ops, most), ws);
  }

  // ---------- the items of a run ----------

  predicate Mentioned(log: seq<Change>, id: Id) {
    exists i | 0 <= i < |log| :: log[i].item == id
  }

  /** `later` is `item` or comes of it by updates: the origin is the same, the version
      has not fallen, and nothing else changes without it. */
  predicate ComesOf(item: Item, later: Item) {
    && later.id == item.id && later.ws == item.ws && later.author == item.author && later.createdAt == item.createdAt
    && item.version <= later.version && (item.version == later.version ==> item == later)
  }

  /** The item has been created, and if it lives it comes of `item`. */
  predicate Descends(s: Store, id: Id, item: Item) {
    Mentioned(s.log, id) && (id in s.db.items ==> ComesOf(item, s.db.items[id]))
  }

  lemma MentionedStill(log: seq<Change>, more: seq<Change>, id: Id)
    requires Mentioned(log, id)
    ensures Mentioned(log + more, id)
  {
    var i :| 0 <= i < |log| && log[i].item == id;
    assert (log + more)[i].item == id;
  }

  lemma {:induction false} ImportLeaves(db: Db, actor: Actor, ws: Id, rows: seq<ImportRow>, now: int, draws: seq<Draw>, id: Id)
    requires |rows| <= |draws| && ImportAll(db, actor, ws, rows, now, draws).Stored?
    requires forall i :: 0 <= i < |draws| ==> draws[i].item != id
    ensures var items := ImportAll(db, actor, ws, rows, now, draws).db.items;
      (id in items <==> id in db.items) && (id in items ==> items[id] == db.items[id])
    decreases |rows|
  {
    if rows != [] {
      ImportLeaves(db, actor, ws, rows[..|rows| - 1], now, draws, id);
    }
  }

  lemma UnusedElsewhere(log: seq<Change>, draw: Draw, id: Id)
    requires Unused(log, draw) && Mentioned(log, id)
    ensures draw.item != id
  {
  }

  lemma CommitDescends(s: Store, op: Op, most: int, id: Id, item: Item)
    requires Keyed(s.db) && ChangeOf(s, op, most).Some? && Descends(s, id, item)
    ensures id in DbAfter(s, op, most).items ==> ComesOf(item, DbAfter(s, op, most).items[id])
  {
    match op
    case FinishCreate(tx, draw) =>
      UnusedElsewhere(s.log, draw, id);
      MadeMeans(s.db, s.begun[tx].seen, s.begun[tx].call, s.begun[tx].now, draw, most);
    case Update(_, _, _, _, _, _, _) => UpdatesLeaveTheRest(s, op, most);
    case Delete(_, _, _, _, _, _) =>
  }

  lemma StepDescends(s: Store, op: Op, most: int, id: Id, item: Item)
    requires Inv(s) && Descends(s, id, item)
    ensures Descends(Apply(s, op, most), id, item)
  {
    LogGrows(s, op, most);
    var more := Apply(s, op, most).log[|s.log|..];
    assert Apply(s, op, most).log == s.log + more;
    MentionedStill(s.log, more, id);
    if op.Import? {
      if Apply(s, op, most) != s {
        forall i | 0 <= i < |op.draws| ensures op.draws[i].item != id {
          UnusedElsewhere(s.log, op.draws[i], id);
        }
        ImportLeaves(s.db, op.actor, op.ws, op.rows, op.now, op.draws, id);
      }
    } else if ChangeOf(s, op, most).Some? {
      CommitDescends(s, op, most, id, item);
    }
  }

  lemma {:induction false} RunDescends(s: Store, ops: seq<Op>, most: int, id: Id, item: Item)
    requires Inv(s) && Descends(s, id, item)
    ensures Descends(Run(s, ops, most), id, item)
    decreases |ops|
  {
    if ops != [] {
      StepDescends(s, ops[0], most, id, item);
      StepKeeps(s, ops[0], most);
      RunDescends(Apply(s, ops[0], most), ops[1..], most, id, item);
    }
  }

  lemma LiveIsMentioned(log: seq<Change>, id: Id)
    requires Contiguous(log) && id in Replay(log)
    ensures Mentioned(log, id)
  {
    StoryOf(log, id);
  }

  /** The tables a client pages through, taken at any stages of one run. */
  function TablesAt(ops: seq<Op>, stages: seq<nat>, most: int): seq<map<Id, Item>>
    requires forall k :: 0 <= k < |stages| ==> stages[k] <= |ops|
  {
    seq(|stages|, k requires 0 <= k < |stages| => Run(FRESH, ops[..stages[k]], most).db.items)
  }

  /** An item read at two stages of a run has the same origin both times, its version
      does not fall, and equal versions mean equal items: the version is an ETag. */
  lemma VersionIdentifiesItem(ops: seq<Op>, j: nat, k: nat, most: int, id: Id)
    requires j <= k <= |ops| && id in Run(FRESH, ops[..j], most).db.items && id in Run(FRESH, ops[..k], most).db.items
    ensures var item, later := Run(FRESH, ops[..j], most).db.items[id], Run(FRESH, ops[..k], most).db.items[id];
      && later.id == item.id && later.ws == item.ws && later.author == item.author && later.createdAt == item.createdAt
      && item.version <= later.version
      && (item.version == later.version <==> item == later)
  {
    var s := Run(FRESH, ops[..j], most);
    FreshKeeps();
    RunKeeps(FRESH, ops[..j], most);
    RunSplits(FRESH, ops[..k], j, most);
    assert ops[..k][..j] == ops[..j];
    LiveIsMentioned(s.log, id);
    RunDescends(s, ops[..k][j..], most, id, s.db.items[id]);
  }

  /** Items never change their creation time, so no walk through the pages of a
      live workspace shows one twice. */
  lemma PagesOfARunNeverRepeat(ops: seq<Op>, stages: seq<nat>, most: int, ws: Id, q: Pagination.Query, a: nat, b: nat)
    requires forall k :: 0 <= k < |stages| ==> stages[k] <= |ops|
    requires q.limit > 0 && a < b < |Pagination.FollowAcross(TablesAt(ops, stages, most), ws, q, None).rows|
    ensures var rows := Pagination.FollowAcross(TablesAt(ops, stages, most), ws, q, None).rows; rows[a].id != rows[b].id
  {
    var tables: seq<map<Id, Item>> := TablesAt(ops, stages, most);
    forall j, k, i: Id | 0 <= j < |tables| && 0 <= k < |tables| && i in tables[j] && i in tables[k]
      ensures tables[j][i].createdAt == tables[k][i].createdAt
    {
      if stages[j] <= stages[k] {
        VersionIdentifiesItem(ops, stages[j], stages[k], most, i);
      } else {
        VersionIdentifiesItem(ops, stages[k], stages[j], most, i);
      }
    }
    Pagination.NeverRepeated(tables, ws, q, a, b);
  }
}
