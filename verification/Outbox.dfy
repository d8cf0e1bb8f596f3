/** The webhook outbox (webhooks/service.go) on top of the job queue.  Publishing
    writes one delivery and one job per subscribed webhook in the caller's
    transaction; afterwards workers move both tables one statement at a time, so
    any two statements may be separated by other workers, or by a crash. */
module Outbox {
  import opened Wrappers
  import opened JobQueue

  datatype EventType = ItemCreated | ItemUpdated | ItemDeleted

  datatype Webhook = Webhook(ws: Id, events: set<EventType>)

  /** 'pending', 'delivered' and 'failed' in the status column. */
  datatype DeliveryStatus = Waiting | Delivered | Abandoned

  datatype Delivery = Delivery(webhook: Id, event: Id, kind: EventType, status: DeliveryStatus, attempts: nat)

  datatype Tables = Tables(webhooks: map<Id, Webhook>, deliveries: map<Id, Delivery>, jobs: Table)

  /** The number that stands for the kind "webhook.delivery". */
  const JOB_KIND: Id := 0

  const EMPTY := Tables(map[], map[], map[])

  // ---------- publishing ----------

  function Targets(t: Tables, ws: Id, kind: EventType): set<Id> {
    set w | w in t.webhooks && t.webhooks[w].ws == ws && kind in t.webhooks[w].events
  }

  /** The random ids one publication draws: the event's, and a delivery and a job id per webhook. */
  datatype Ids = Ids(event: Id, delivery: map<Id, Id>, job: map<Id, Id>)

  predicate Mentions(jobs: Table, d: Id) {
    exists j | j in jobs :: jobs[j].key == d || jobs[j].payload == Some(d)
  }

  predicate OneToOne(m: map<Id, Id>) {
    forall v, w | v in m && w in m :: m[v] == m[w] ==> v == w
  }

  predicate IdsFresh(t: Tables, targets: set<Id>, ids: Ids) {
    && targets <= ids.delivery.Keys && targets <= ids.job.Keys && OneToOne(ids.delivery) && OneToOne(ids.job)
    && (forall d | d in t.deliveries :: t.deliveries[d].event != ids.event)
    && (forall w | w in ids.delivery :: ids.delivery[w] !in t.deliveries && !Mentions(t.jobs, ids.delivery[w]))
    && (forall w | w in ids.job :: ids.job[w] !in t.jobs)
  }

  /** The webhook whose delivery (or job) was given this id. */
  predicate Owns(targets: set<Id>, ids: map<Id, Id>, w: Id, x: Id) {
    w in targets && w in ids && ids[w] == x
  }

  function NewDeliveries(targets: set<Id>, kind: EventType, ids: Ids): map<Id, Delivery>
    requires targets <= ids.delivery.Keys && OneToOne(ids.delivery)
  {
    map w | w in targets :: ids.delivery[w] := Delivery(w, ids.event, kind, Waiting, 0)
  }

  function NewJobs(targets: set<Id>, ws: Id, ids: Ids, at: int): Table
    requires targets <= ids.delivery.Keys && targets <= ids.job.Keys && OneToOne(ids.job)
  {
    map w | w in targets :: ids.job[w] := FreshJob(ws, JOB_KIND, ids.delivery[w], Some(ids.delivery[w]), at)
  }

  function PublishTo(t: Tables, targets: set<Id>, ws: Id, kind: EventType, ids: Ids, at: int): Tables
    requires targets <= ids.delivery.Keys && targets <= ids.job.Keys && OneToOne(ids.delivery) && OneToOne(ids.job)
  {
    t.(deliveries := t.deliveries + NewDeliveries(targets, kind, ids), jobs := t.jobs + NewJobs(targets, ws, ids, at))
  }

  function Published(t: Tables, ws: Id, kind: EventType, ids: Ids, at: int): Tables
    requires IdsFresh(t, Targets(t, ws, kind), ids)
  {
    PublishTo(t, Targets(t, ws, kind), ws, kind, ids, at)
  }

  lemma DeliveriesOneMore(done: set<Id>, w: Id, kind: EventType, ids: Ids)
    requires done + {w} <= ids.delivery.Keys && OneToOne(ids.delivery) && w !in done
    ensures NewDeliveries(done + {w}, kind, ids) == NewDeliveries(done, kind, ids)[ids.delivery[w] := Delivery(w, ids.event, kind, Waiting, 0)]
  {
  }

  lemma JobsOneMore(done: set<Id>, w: Id, ws: Id, ids: Ids, at: int)
    requires done + {w} <= ids.delivery.Keys && done + {w} <= ids.job.Keys && OneToOne(ids.job) && w !in done
    ensures NewJobs(done + {w}, ws, ids, at) ==
      NewJobs(done, ws, ids, at)[ids.job[w] := FreshJob(ws, JOB_KIND, ids.delivery[w], Some(ids.delivery[w]), at)]
  {
  }

  lemma AddLast<T>(a: map<Id, T>, b: map<Id, T>, k: Id, v: T)
    ensures a + b[k := v] == (a + b)[k := v]
  {
  }

  /** Inserting the two rows of one more webhook. */
  function PublishOne(t: Tables, w: Id, ws: Id, kind: EventType, ids: Ids, at: int): Tables
    requires w in ids.delivery && w in ids.job
  {
    var d := ids.delivery[w];
    t.(deliveries := t.deliveries[d := Delivery(w, ids.event, kind, Waiting, 0)],
       jobs := t.jobs[ids.job[w] := FreshJob(ws, JOB_KIND, d, Some(d), at)])
  }

  lemma PublishOneMore(t: Tables, done: set<Id>, w: Id, ws: Id, kind: EventType, ids: Ids, at: int)
    requires done + {w} <= ids.delivery.Keys && done + {w} <= ids.job.Keys && OneToOne(ids.delivery) && OneToOne(ids.job) && w !in done
    ensures PublishTo(t, done + {w}, ws, kind, ids, at) == PublishOne(PublishTo(t, done, ws, kind, ids, at), w, ws, kind, ids, at)
  {
    DeliveriesOneMore(done, w, kind, ids);
    JobsOneMore(done, w, ws, ids, at);
    AddLast(t.deliveries, NewDeliveries(done, kind, ids), ids.delivery[w], Delivery(w, ids.event, kind, Waiting, 0));
    AddLast(t.jobs, NewJobs(done, ws, ids, at), ids.job[w], FreshJob(ws, JOB_KIND, ids.delivery[w], Some(ids.delivery[w]), at));
  }

  lemma KeyStillFree(t: Tables, done: set<Id>, w: Id, ws: Id, kind: EventType, ids: Ids, at: int)
    requires IdsFresh(t, done + {w}, ids) && w !in done
    ensures var mid := PublishTo(t, done, ws, kind, ids, at);
      && !KeyTaken(mid.jobs, ws, JOB_KIND, ids.delivery[w]) && ids.job[w] !in mid.jobs
      && !HasDelivery(mid, w, ids.event) && ids.delivery[w] !in mid.deliveries
  {
    var mid := PublishTo(t, done, ws, kind, ids, at);
    forall j | j in mid.jobs ensures mid.jobs[j].key != ids.delivery[w] {
      if j in NewJobs(done, ws, ids, at) {
        var v :| v in done && ids.job[v] == j;
        assert mid.jobs[j].key == ids.delivery[v];
      } else {
        assert j in t.jobs;
      }
    }
    forall d | d in mid.deliveries ensures mid.deliveries[d].event != ids.event || mid.deliveries[d].webhook != w {
      if d in NewDeliveries(done, kind, ids) {
        var v :| v in done && ids.delivery[v] == d;
      } else {
        assert d in t.deliveries;
      }
    }
  }

  predicate HasDelivery(t: Tables, w: Id, event: Id) {
    exists d | d in t.deliveries :: t.deliveries[d].webhook == w && t.deliveries[d].event == event
  }

  /** The two inserts of the loop body; the job only if the delivery was new. */
  method InsertDelivery(t: Tables, w: Id, ws: Id, kind: EventType, ids: Ids, at: int) returns (t': Tables)
    requires w in ids.delivery && w in ids.job
    ensures t' == if HasDelivery(t, w, ids.event) then t
      else t.(deliveries := t.deliveries[ids.delivery[w] := Delivery(w, ids.event, kind, Waiting, 0)],
              jobs := Enqueue(t.jobs, ids.job[w], ws, JOB_KIND, ids.delivery[w], Some(ids.delivery[w]), at))
  {
    t' := t;
    var d := ids.delivery[w];
    if !HasDelivery(t, w, ids.event) {
      t' := t'.(deliveries := t'.deliveries[d := Delivery(w, ids.event, kind, Waiting, 0)]);
      t' := t'.(jobs := Enqueue(t'.jobs, ids.job[w], ws, JOB_KIND, d, Some(d), at));
    }
  }

  lemma PublishStep(t: Tables, targets: set<Id>, done: set<Id>, w: Id, ws: Id, kind: EventType, ids: Ids, at: int)
    requires IdsFresh(t, targets, ids) && done + {w} <= targets && w !in done
    ensures var mid := PublishTo(t, done, ws, kind, ids, at);
      && !HasDelivery(mid, w, ids.event)
      && PublishTo(t, done + {w}, ws, kind, ids, at) ==
           mid.(deliveries := mid.deliveries[ids.delivery[w] := Delivery(w, ids.event, kind, Waiting, 0)],
                jobs := Enqueue(mid.jobs, ids.job[w], ws, JOB_KIND, ids.delivery[w], Some(ids.delivery[w]), at))
  {
    FreshPart(t, targets, done + {w}, ids);
    KeyStillFree(t, done, w, ws, kind, ids, at);
    PublishOneMore(t, done, w, ws, kind, ids, at);
  }

  lemma PublishNone(t: Tables, ws: Id, kind: EventType, ids: Ids, at: int)
    requires OneToOne(ids.delivery) && OneToOne(ids.job)
    ensures PublishTo(t, {}, ws, kind, ids, at) == t
  {
    AddNothing(t.deliveries, NewDeliveries({}, kind, ids));
    AddNothing(t.jobs, NewJobs({}, ws, ids, at));
  }

  lemma AddNothing<T>(a: map<Id, T>, none: map<Id, T>)
    requires none.Keys == {}
    ensures a + none == a
  {
  }

  /** PublishInTx: for each subscribed webhook a delivery and a job. */
  method PublishInTx(t: Tables, ws: Id, kind: EventType, ids: Ids, at: int) returns (t': Tables)
    requires IdsFresh(t, Targets(t, ws, kind), ids)
    ensures t' == Published(t, ws, kind, ids, at)
  {
    t' := t;
    var targets := Targets(t, ws, kind);
    var rest := targets;
    ghost var done: set<Id> := {};
    PublishNone(t, ws, kind, ids, at);
    while rest != {}
      invariant done + rest == targets && done !! rest
      invariant t' == PublishTo(t, done, ws, kind, ids, at)
      decreases rest
    {
      var w :| w in rest;
      PublishStep(t, targets, done, w, ws, kind, ids, at);
      t' := InsertDelivery(t', w, ws, kind, ids, at);
      done := done + {w};
      rest := rest - {w};
    }
    assert done == targets;
  }

  lemma FreshPart(t: Tables, targets: set<Id>, part: set<Id>, ids: Ids)
    requires IdsFresh(t, targets, ids) && part <= targets
    ensures IdsFresh(t, part, ids)
  {
  }

  /** Exactly one delivery of the event for each webhook subscribed at that moment,
      none for any other, and all deliveries there were stay as they were. */
  lemma OneDeliveryPerSubscriber(t: Tables, ws: Id, kind: EventType, ids: Ids, at: int)
    requires IdsFresh(t, Targets(t, ws, kind), ids)
    ensures var t' := Published(t, ws, kind, ids, at);
      var subscribed := set w | w in t.webhooks && t.webhooks[w].ws == ws && kind in t.webhooks[w].events;
      && (forall d :: d in t.deliveries ==> d in t'.deliveries && t'.deliveries[d] == t.deliveries[d])
      && (forall w :: w in subscribed ==>
            forall d :: (d in t'.deliveries && t'.deliveries[d].event == ids.event && t'.deliveries[d].webhook == w <==> d == ids.delivery[w]))
      && (forall d :: d in t'.deliveries && d !in t.deliveries ==>
            t'.deliveries[d].webhook in subscribed && t'.deliveries[d] == Delivery(t'.deliveries[d].webhook, ids.event, kind, Waiting, 0))
  {
    var t' := Published(t, ws, kind, ids, at);
    var subscribed := Targets(t, ws, kind);
    forall w, d | w in subscribed && d in t'.deliveries && t'.deliveries[d].event == ids.event && t'.deliveries[d].webhook == w
      ensures d == ids.delivery[w]
    {
      assert d in NewDeliveries(subscribed, kind, ids);
    }
  }

  /** Exactly one pending job for each new delivery, and all jobs there were stay as they were. */
  lemma OneJobPerDelivery(t: Tables, ws: Id, kind: EventType, ids: Ids, at: int)
    requires IdsFresh(t, Targets(t, ws, kind), ids)
    ensures var t' := Published(t, ws, kind, ids, at);
      var subscribed := set w | w in t.webhooks && t.webhooks[w].ws == ws && kind in t.webhooks[w].events;
      && (forall j :: j in t.jobs ==> j in t'.jobs && t'.jobs[j] == t.jobs[j])
      && (forall w :: w in subscribed ==>
            forall j :: (j in t'.jobs && t'.jobs[j].payload == Some(ids.delivery[w]) <==> j == ids.job[w]))
      && (forall j :: j in t'.jobs && j !in t.jobs ==>
            && t'.jobs[j].ws == ws && t'.jobs[j].status == Pending && t'.jobs[j].attempts == 0 && t'.jobs[j].availableAt == at
            && exists w :: Owns(subscribed, ids.job, w, j))
  {
    var t' := Published(t, ws, kind, ids, at);
    var subscribed := Targets(t, ws, kind);
    forall w, j | w in subscribed && j in t'.jobs && t'.jobs[j].payload == Some(ids.delivery[w]) ensures j == ids.job[w] {
      assert j in t.jobs ==> Mentions(t.jobs, ids.delivery[w]);
      var v :| v in subscribed && ids.job[v] == j;
      assert t'.jobs[j].payload == Some(ids.delivery[v]);
    }
    forall j | j in t'.jobs && j !in t.jobs ensures t'.jobs[j].ws == ws && t'.jobs[j].status == Pending && exists w :: Owns(subscribed, ids.job, w, j) {
      var v :| v in subscribed && ids.job[v] == j;
      assert Owns(subscribed, ids.job, v, j);
    }
  }

  /** The same of deliveries and jobs together, for the webhooks subscribed at that moment. */
  lemma SubscribersAreServed(t: Tables, ws: Id, kind: EventType, ids: Ids, at: int, w: Id)
    requires IdsFresh(t, Targets(t, ws, kind), ids)
    requires w in t.webhooks && t.webhooks[w].ws == ws && kind in t.webhooks[w].events
    ensures var t' := Published(t, ws, kind, ids, at);
      && w in ids.delivery && w in ids.job
      && (forall d :: d in t'.deliveries && t'.deliveries[d].event == ids.event && t'.deliveries[d].webhook == w <==> d == ids.delivery[w])
      && (forall j :: j in t'.jobs && t'.jobs[j].payload == Some(ids.delivery[w]) <==> j == ids.job[w])
  {
    OneDeliveryPerSubscriber(t, ws, kind, ids, at);
    OneJobPerDelivery(t, ws, kind, ids, at);
    assert w in set v | v in t.webhooks && t.webhooks[v].ws == ws && kind in t.webhooks[v].events;
  }

  // ---------- the statements of a delivery attempt ----------

  predicate IsWaiting(t: Tables, d: Id) {
    d in t.deliveries && t.deliveries[d].status == Waiting
  }

  predicate InWorkspace(t: Tables, ws: Id, d: Id) {
    d in t.deliveries && t.deliveries[d].webhook in t.webhooks && t.webhooks[t.deliveries[d].webhook].ws == ws
  }

  /** The attempt number of the delivery, read through the join with webhooks. */
  function Selected(t: Tables, ws: Id, d: Id): Option<nat> {
    if IsWaiting(t, d) && InWorkspace(t, ws, d) then Some(t.deliveries[d].attempts) else None
  }

  function AttemptFor(read: nat, jobAttempt: nat): nat {
    if read + 1 < jobAttempt then jobAttempt else read + 1
  }

  function CountAttempt(t: Tables, d: Id, attempt: nat): Tables {
    if IsWaiting(t, d) then t.(deliveries := t.deliveries[d := t.deliveries[d].(attempts := attempt)]) else t
  }

  function RecordReply(t: Tables, d: Id, attempt: nat, delivered: bool): Tables {
    if !IsWaiting(t, d) then t
    else
      var status := if delivered then Delivered else if attempt >= MAX_ATTEMPTS then Abandoned else Waiting;
      t.(deliveries := t.deliveries[d := t.deliveries[d].(status := status)])
  }

  function GiveUp(t: Tables, ws: Id, d: Id): Tables {
    if IsWaiting(t, d) && InWorkspace(t, ws, d) then
      var row := t.deliveries[d];
      t.(deliveries := t.deliveries[d := row.(status := Abandoned, attempts := if row.attempts < MAX_ATTEMPTS then MAX_ATTEMPTS else row.attempts)])
    else t
  }

  /** Which statements of an attempt the database accepts, and how the receiver answers. */
  datatype Weather = Weather(select: bool, count: bool, record: bool, delivered: bool)

  class Deliverer {
    var tables: Tables

    constructor (tables: Tables)
      ensures this.tables == tables
    {
      this.tables := tables;
    }

    /** One uninterrupted attempt.  Without storage errors it reports success exactly
        when the delivery is settled or not this workspace's, and failure otherwise;
        a failed fifth attempt settles it too. */
    method DeliverOne(ws: Id, d: Id, jobAttempt: nat, weather: Weather) returns (ok: bool)
      modifies this
      ensures tables.webhooks == old(tables.webhooks) && tables.jobs == old(tables.jobs)
      ensures forall e :: e in old(tables.deliveries) && e != d ==> e in tables.deliveries && tables.deliveries[e] == old(tables.deliveries)[e]
      ensures tables.deliveries.Keys == old(tables.deliveries.Keys)
      ensures var deliveries, webhooks := old(tables).deliveries, old(tables).webhooks;
        var due := d in deliveries && deliveries[d].status == Waiting && deliveries[d].webhook in webhooks && webhooks[deliveries[d].webhook].ws == ws;
        if !weather.select || (due && !weather.count) then !ok && tables == old(tables)
        else if !due then ok && tables == old(tables)
        else
          && tables.deliveries[d].attempts == (if deliveries[d].attempts + 1 < jobAttempt then jobAttempt else deliveries[d].attempts + 1)
          && ok == (weather.delivered && weather.record)
          && tables.deliveries[d] == deliveries[d].(attempts := tables.deliveries[d].attempts, status :=
               (if !weather.record then Waiting
                else if weather.delivered then Delivered
                else if tables.deliveries[d].attempts >= 5 then Abandoned else Waiting))
    {
      if !weather.select {
        return false;
      }
      var read := Selected(tables, ws, d);
      if read.None? {
        return true;
      }
      var attempt := read.value + 1;
      if attempt < jobAttempt {
        attempt := jobAttempt;
      }
      if !weather.count {
        return false;
      }
      tables := CountAttempt(tables, d, attempt);
      if !weather.delivered {
        DeliveryFailure(d, attempt, weather.record);
        return false;
      }
      if !weather.record {
        return false;
      }
      tables := RecordReply(tables, d, attempt, true);
      ok := true;
    }

    method DeliveryFailure(d: Id, attempt: nat, record: bool)
      modifies this
      ensures tables == if record then RecordReply(old(tables), d, attempt, false) else old(tables)
      ensures d in tables.deliveries ==> d in old(tables).deliveries && (tables.deliveries[d].status == Abandoned <==>
        old(tables).deliveries[d].status == Abandoned || (record && old(tables).deliveries[d].status == Waiting && attempt >= 5))
    {
      var status := Waiting;
      if attempt >= MAX_ATTEMPTS {
        status := Abandoned;
      }
      if record && IsWaiting(tables, d) {
        tables := tables.(deliveries := tables.deliveries[d := tables.deliveries[d].(status := status)]);
      }
    }

    /** The path for a claim beyond the fifth attempt. */
    method HandleExhausted(ws: Id, d: Id, storageOk: bool) returns (ok: bool)
      modifies this
      ensures ok == storageOk
      ensures tables == if storageOk then GiveUp(old(tables), ws, d) else old(tables)
      ensures var deliveries, webhooks := old(tables).deliveries, old(tables).webhooks;
        if ok && d in deliveries && deliveries[d].status == Waiting && deliveries[d].webhook in webhooks && webhooks[deliveries[d].webhook].ws == ws then
          tables == old(tables).(deliveries := deliveries[d := deliveries[d].(
            status := Abandoned, attempts := if deliveries[d].attempts < 5 then 5 else deliveries[d].attempts)])
        else tables == old(tables)
    {
      if !storageOk {
        return false;
      }
      tables := GiveUp(tables, ws, d);
      ok := true;
    }
  }
}
