/** The item service and the webhook workers on one database.  Item writes publish
    into the outbox tables that the workers move, so that what is promised about a
    committed change spans both. */
module SystemRuns {
  import opened Wrappers
  import opened ItemTables
  import Outbox
  import Items = ItemRuns
  import Guarantees = ItemGuarantees
  import Workers = OutboxRuns

  datatype System = System(store: Items.Store, workers: map<Id, Workers.Worker>)

  datatype Act = Write(op: Items.Op) | Other(move: Workers.Move)

  const START := System(Items.FRESH, map[])

  /** What the workers see of the system. */
  function View(s: System): Workers.World {
    Workers.World(s.store.db.outbox, s.workers)
  }

  /** The publication that an item operation commits, if it commits a change. */
  function Publication(s: System, op: Items.Op, most: int): Option<Workers.Move> {
    var change := Items.ChangeOf(s.store, op, most);
    if change.None? then None
    else Some(Workers.Publish(change.value.ws, Guarantees.EventFor(change.value.action), op.draw.out, change.value.at))
  }

  /** Ids are random: an operation that would draw one a worker still holds does not happen. */
  predicate Drawable(s: System, op: Items.Op, most: int) {
    Publication(s, op, most).Some? ==> !Workers.HeldByWorker(s.workers, op.draw.out)
  }

  function Step(s: System, act: Act, most: int): System {
    match act
    case Write(op) => if Drawable(s, op, most) then s.(store := Items.Apply(s.store, op, most)) else s
    case Other(move) =>
      if move.Publish? then s
      else
        var w := Workers.Next(View(s), move);
        System(s.store.(db := s.store.db.(outbox := w.tables)), w.workers)
  }

  function Run(s: System, acts: seq<Act>, most: int): System
    decreases |acts|
  {
    if acts == [] then s else Run(Step(s, acts[0], most), acts[1..], most)
  }

  /** The step as the outbox sees it. */
  function MoveOf(s: System, act: Act, most: int): Option<Workers.Move> {
    match act
    case Write(op) => if Drawable(s, op, most) then Publication(s, op, most) else None
    case Other(move) => if move.Publish? then None else Some(move)
  }

  lemma OutboxOnly(store: Items.Store, outbox: Outbox.Tables)
    requires Items.Inv(store)
    ensures Items.Inv(store.(db := store.db.(outbox := outbox)))
  {
  }

  lemma PublishMove(w: Workers.World, ws: Id, kind: Outbox.EventType, ids: Outbox.Ids, at: int)
    requires Workers.CanPublish(w, ws, kind, ids)
    ensures Workers.Next(w, Workers.Publish(ws, kind, ids, at)) == w.(tables := Outbox.Published(w.tables, ws, kind, ids, at))
  {
  }

  lemma CommitIsMove(s: System, op: Items.Op, most: int)
    requires Items.Inv(s.store) && Publication(s, op, most).Some? && Drawable(s, op, most)
    ensures View(Step(s, Write(op), most)) == Workers.Next(View(s), Publication(s, op, most).value)
  {
    var c := Items.ChangeOf(s.store, op, most).value;
    var kind := Guarantees.EventFor(c.action);
    Guarantees.PublishedBy(s.store, op, most);
    PublishMove(View(s), c.ws, kind, op.draw.out, c.at);
    AppliedOutbox(s.store, op, most);
  }

  lemma AppliedOutbox(store: Items.Store, op: Items.Op, most: int)
    requires Items.ChangeOf(store, op, most).Some?
    ensures Items.Apply(store, op, most).db == Items.DbAfter(store, op, most)
  {
  }

  /** An item operation is a publication to the workers, or nothing; the workers are nothing to the items. */
  lemma StepIsMove(s: System, act: Act, most: int)
    requires Items.Inv(s.store)
    ensures Items.Inv(Step(s, act, most).store)
    ensures var m := MoveOf(s, act, most); View(Step(s, act, most)) == if m.Some? then Workers.Next(View(s), m.value) else View(s)
  {
    match act
    case Write(op) =>
      Items.StepKeeps(s.store, op, most);
      if Drawable(s, op, most) {
        if Publication(s, op, most).Some? {
          CommitIsMove(s, op, most);
        } else {
          Guarantees.OtherwiseUnpublished(s.store, op, most);
        }
      }
    case Other(move) =>
      if !move.Publish? {
        OutboxOnly(s.store, Workers.Next(View(s), move).tables);
      }
  }

  /** No worker that lost a statement in its fifth attempt gives up a job it still holds
      while the delivery still waits. */
  predicate NeverStrands(s: System, acts: seq<Act>, most: int)
    decreases |acts|
  {
    acts == [] ||
    (var m := MoveOf(s, acts[0], most);
     && (m.Some? ==> !Workers.Strands(View(s), m.value))
     && NeverStrands(Step(s, acts[0], most), acts[1..], most))
  }

  ghost predicate Inv(s: System) {
    Items.Inv(s.store) && Workers.Inv(View(s)) && Workers.OneJobEach(s.store.db.outbox.jobs)
  }

  lemma StepKeeps(s: System, act: Act, most: int)
    requires Inv(s) && (MoveOf(s, act, most).Some? ==> !Workers.Strands(View(s), MoveOf(s, act, most).value))
    ensures Inv(Step(s, act, most))
  {
    StepIsMove(s, act, most);
    var m := MoveOf(s, act, most);
    if m.Some? {
      Workers.NextKeeps(View(s), m.value);
      Workers.OneJobNext(View(s), m.value);
    }
  }

  lemma {:induction false} RunKeeps(s: System, acts: seq<Act>, most: int)
    requires Inv(s) && NeverStrands(s, acts, most)
    ensures Inv(Run(s, acts, most))
    decreases |acts|
  {
    if acts != [] {
      StepKeeps(s, acts[0], most);
      RunKeeps(Step(s, acts[0], most), acts[1..], most);
    }
  }

  lemma StartKeeps()
    ensures Inv(START)
  {
    Items.FreshKeeps();
  }

  /** At every stage, every waiting delivery has a job that is pending or running. */
  ghost predicate AlwaysCarried(s: System, acts: seq<Act>, most: int)
    decreases |acts|
  {
    Workers.NoneStranded(s.store.db.outbox) && (acts == [] || AlwaysCarried(Step(s, acts[0], most), acts[1..], most))
  }

  lemma {:induction false} CarryingIsExact(s: System, acts: seq<Act>, most: int)
    requires Inv(s)
    ensures AlwaysCarried(s, acts, most) <==> NeverStrands(s, acts, most)
    decreases |acts|
  {
    if acts != [] {
      var m := MoveOf(s, acts[0], most);
      if m.Some? && Workers.Strands(View(s), m.value) {
        StepIsMove(s, acts[0], most);
        Workers.StrandStrands(View(s), m.value);
      } else {
        StepKeeps(s, acts[0], most);
        CarryingIsExact(Step(s, acts[0], most), acts[1..], most);
      }
    }
  }

  /** In the whole system, whatever item writes, workers, crashes, storage errors and
      clean-up do in whatever order: at every stage each delivery of each committed change
      is settled, is gone, or has a job that will come for it, if and only if no
      worker strands one. */
  lemma ChangesAreDeliveredOrUnderWay(acts: seq<Act>, most: int)
    ensures AlwaysCarried(START, acts, most) <==> NeverStrands(START, acts, most)
  {
    StartKeeps();
    CarryingIsExact(START, acts, most);
  }

  /** A committed create, update or delete has, from that moment on, for each webhook then
      subscribed to it one delivery, and at any later time that delivery is settled, is
      gone, or has a job that is pending or running. */
  lemma CommittedChangeReachesWebhooks(before: seq<Act>, op: Items.Op, after: seq<Act>, most: int, webhook: Id)
    requires NeverStrands(START, before, most)
    requires var s := Run(START, before, most);
      && Items.ChangeOf(s.store, op, most).Some? && Drawable(s, op, most)
      && webhook in Outbox.Targets(s.store.db.outbox, Items.ChangeOf(s.store, op, most).value.ws,
                                   Guarantees.EventFor(Items.ChangeOf(s.store, op, most).value.action))
      && NeverStrands(Step(s, Write(op), most), after, most)
    ensures var s := Run(START, before, most); var s' := Step(s, Write(op), most); var end := Run(s', after, most).store.db.outbox;
      && webhook in op.draw.out.delivery
      && (var d := op.draw.out.delivery[webhook];
          && Outbox.IsWaiting(s'.store.db.outbox, d) && s'.store.db.outbox.deliveries[d].webhook == webhook
          && (Outbox.IsWaiting(end, d) ==> exists j :: Workers.Carrier(end.jobs, j, d)))
  {
    var s := Run(START, before, most);
    StartKeeps();
    RunKeeps(START, before, most);
    Guarantees.ChangesArePublished(s.store, op, most);
    StepKeeps(s, Write(op), most);
    RunKeeps(Step(s, Write(op), most), after, most);
  }
}
