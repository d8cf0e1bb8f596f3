/** Every interleaving of publications, webhook changes, clean-up and any number
    of delivery workers, one statement per move.  A worker that stops moving has
    crashed; one that moves after its lease was taken over is stale. */
module OutboxRuns {
  import opened Wrappers
  import opened JobQueue
  import opened Outbox

  /** How far a worker is with its claim; attempts are its own copies. */
  datatype Phase =
    | Started
    | Loaded(attempt: nat)
    | Counted(attempt: nat)
    | Replied(attempt: nat, delivered: bool)
    | Returned(ok: bool)

  /** `lost` says that the database refused a statement of this attempt. */
  datatype Worker = Worker(claim: Claimed, ws: Id, payload: Option<Id>, phase: Phase, lost: bool)

  datatype World = World(tables: Tables, workers: map<Id, Worker>)

  datatype Move =
    | Publish(ws: Id, kind: EventType, ids: Ids, at: int)
    | AddWebhook(id: Id, webhook: Webhook)
    | DropWebhook(id: Id)
    | Prune(deliveries: set<Id>, jobs: set<Id>)
    | Claim(job: Id, token: Id, now: int)
    | Load(token: Id, stored: bool)
    | Count(token: Id, stored: bool)
    | Send(token: Id, delivered: bool)
    | Record(token: Id, stored: bool)
    | Exhaust(token: Id, stored: bool)
    | FinishJob(token: Id, now: int)

  const QUIET := World(EMPTY, map[])

  // ---------- what a move does ----------

  predicate HeldByWorker(workers: map<Id, Worker>, ids: Ids) {
    || (exists t, w | t in workers && w in ids.delivery :: workers[t].payload == Some(ids.delivery[w]))
    || (exists t, w | t in workers && w in ids.job :: workers[t].claim.job == ids.job[w])
  }

  /** Ids are random: none is in use in a table, or in a worker's hands. */
  predicate CanPublish(w: World, ws: Id, kind: EventType, ids: Ids) {
    IdsFresh(w.tables, Targets(w.tables, ws, kind), ids) && !HeldByWorker(w.workers, ids)
  }

  predicate TokenUnused(w: World, token: Id) {
    && token !in w.workers
    && forall j | j in w.tables.jobs :: w.tables.jobs[j].lease.Some? ==> w.tables.jobs[j].lease.value.token != token
  }

  predicate CanClaim(w: World, job: Id, token: Id) {
    job in w.tables.jobs && Claimable(w.tables.jobs[job]) && TokenUnused(w, token)
  }

  function WithoutWebhook(t: Tables, id: Id): Tables {
    t.(webhooks := t.webhooks - {id}, deliveries := map d | d in t.deliveries && t.deliveries[d].webhook != id :: t.deliveries[d])
  }

  /** Clean-up removes settled deliveries and finished jobs, as many as it likes. */
  function Pruned(t: Tables, deliveries: set<Id>, jobs: set<Id>): Tables {
    t.(deliveries := map d | d in t.deliveries && (d !in deliveries || t.deliveries[d].status == Waiting) :: t.deliveries[d],
       jobs := map j | j in t.jobs && (j !in jobs || !Over(t.jobs[j])) :: t.jobs[j])
  }

  function StartWorker(t: Tables, job: Id, token: Id): Worker
    requires job in t.jobs
  {
    Worker(Claimed(job, token, t.jobs[job].attempts + 1), t.jobs[job].ws, t.jobs[job].payload, Started, false)
  }

  /** What one statement of a worker does to the tables. */
  function TablesAfter(t: Tables, k: Worker, m: Move): Tables {
    if k.payload.None? then t
    else
      var d := k.payload.value;
      if m.Count? && m.stored && k.phase.Loaded? then CountAttempt(t, d, k.phase.attempt)
      else if m.Record? && m.stored && k.phase.Replied? then RecordReply(t, d, k.phase.attempt, k.phase.delivered)
      else if m.Exhaust? && m.stored && k.phase.Started? && k.claim.attempt > MAX_ATTEMPTS then GiveUp(t, k.ws, d)
      else t
  }

  /** Where that statement leaves the worker. */
  function PhaseAfter(t: Tables, k: Worker, m: Move): Phase {
    if m.Load? && k.phase.Started? && k.claim.attempt <= MAX_ATTEMPTS then
      if k.payload.None? || !m.stored then Returned(false)
      else
        var read := Selected(t, k.ws, k.payload.value);
        if read.None? then Returned(true) else Loaded(AttemptFor(read.value, k.claim.attempt))
    else if m.Count? && k.phase.Loaded? then if m.stored then Counted(k.phase.attempt) else Returned(false)
    else if m.Send? && k.phase.Counted? then Replied(k.phase.attempt, m.delivered)
    else if m.Record? && k.phase.Replied? then Returned(m.stored && k.phase.delivered)
    else if m.Exhaust? && k.phase.Started? && k.claim.attempt > MAX_ATTEMPTS && m.stored then Returned(false)
    else k.phase
  }

  /** The statement this move stands for is refused. */
  predicate Loses(k: Worker, m: Move) {
    || (m.Load? && !m.stored && k.phase.Started? && k.claim.attempt <= MAX_ATTEMPTS && k.payload.Some?)
    || (m.Count? && !m.stored && k.phase.Loaded?)
    || (m.Record? && !m.stored && k.phase.Replied?)
  }

  function WorkerAfter(t: Tables, k: Worker, m: Move): Worker {
    k.(phase := PhaseAfter(t, k, m), lost := k.lost || Loses(k, m))
  }

  predicate WorkerMove(m: Move) {
    m.Load? || m.Count? || m.Send? || m.Record? || m.Exhaust?
  }

  function Next(w: World, m: Move): World {
    match m
    case Publish(ws, kind, ids, at) =>
      if CanPublish(w, ws, kind, ids) then w.(tables := Published(w.tables, ws, kind, ids, at)) else w
    case AddWebhook(id, webhook) =>
      if id in w.tables.webhooks then w else w.(tables := w.tables.(webhooks := w.tables.webhooks[id := webhook]))
    case DropWebhook(id) => w.(tables := WithoutWebhook(w.tables, id))
    case Prune(deliveries, jobs) => w.(tables := Pruned(w.tables, deliveries, jobs))
    case Claim(job, token, now) =>
      if CanClaim(w, job, token) then
        World(w.tables.(jobs := ClaimRow(w.tables.jobs, job, token, now)), w.workers[token := StartWorker(w.tables, job, token)])
      else w
    case FinishJob(token, now) =>
      if token in w.workers && w.workers[token].phase.Returned? then
        var k := w.workers[token];
        World(w.tables.(jobs := Finish(w.tables.jobs, k.claim, k.phase.ok, now)), w.workers - {token})
      else w
    case _ =>
      if m.token in w.workers then
        var k := w.workers[m.token];
        World(TablesAfter(w.tables, k, m), w.workers[m.token := WorkerAfter(w.tables, k, m)])
      else w
  }

  // ---------- invariant ----------

  predicate Settled(t: Tables, d: Id) {
    !IsWaiting(t, d)
  }

  /** If the delivery still exists, it belongs to a webhook of this workspace. */
  predicate Home(t: Tables, ws: Id, d: Id) {
    d in t.deliveries ==> InWorkspace(t, ws, d)
  }

  predicate JobFine(t: Tables, job: Job) {
    job.payload.Some? ==> Home(t, job.ws, job.payload.value) && (Over(job) ==> Settled(t, job.payload.value))
  }

  predicate WorkerFine(t: Tables, k: Worker) {
    && (k.payload.Some? ==> Home(t, k.ws, k.payload.value))
    && (match k.phase
        case Started => true
        case Loaded(a) => k.payload.Some? && k.claim.attempt <= a
        case Counted(a) => k.payload.Some? && k.claim.attempt <= a
        case Replied(a, _) => k.payload.Some? && k.claim.attempt <= a
        case Returned(ok) => k.payload.Some? && !k.lost && (ok || k.claim.attempt >= MAX_ATTEMPTS) ==> Settled(t, k.payload.value))
    && (k.phase.Returned? && k.phase.ok ==> k.payload.Some?)
    && (k.lost ==> k.phase == Returned(false))
  }

  /** A worker's copy of its job is right, if the job is still there. */
  predicate CopyRight(jobs: Table, k: Worker) {
    k.claim.job in jobs ==> jobs[k.claim.job].payload == k.payload && jobs[k.claim.job].ws == k.ws
  }

  ghost predicate JobsFine(t: Tables, jobs: Table) {
    forall j :: j in jobs ==> JobFine(t, jobs[j])
  }

  ghost predicate WorkersFine(t: Tables, jobs: Table, workers: map<Id, Worker>) {
    forall k :: k in workers ==> WorkerFine(t, workers[k]) && CopyRight(jobs, workers[k])
  }

  ghost predicate Carrier(jobs: Table, j: Id, d: Id) {
    j in jobs && jobs[j].payload == Some(d) && !Over(jobs[j])
  }

  /** Every waiting delivery has a job that is not over. */
  ghost predicate NoneStranded(t: Tables) {
    forall d :: IsWaiting(t, d) ==> exists j :: Carrier(t.jobs, j, d)
  }

  ghost predicate Inv(w: World) {
    JobsFine(w.tables, w.tables.jobs) && WorkersFine(w.tables, w.tables.jobs, w.workers) && NoneStranded(w.tables)
  }

  // ---------- what carries over from one state of the tables to the next ----------

  /** A delivery keeps its webhook and workspace, and is not reopened. */
  predicate Carried(t: Tables, t': Tables, d: Id) {
    d in t'.deliveries ==>
      && d in t.deliveries && t'.deliveries[d].webhook == t.deliveries[d].webhook
      && (t'.deliveries[d].status == Waiting ==> t.deliveries[d].status == Waiting)
      && (t.deliveries[d].webhook in t.webhooks ==>
            t.deliveries[d].webhook in t'.webhooks && t'.webhooks[t.deliveries[d].webhook].ws == t.webhooks[t.deliveries[d].webhook].ws)
  }

  lemma JobsCarried(t: Tables, t': Tables, jobs: Table)
    requires JobsFine(t, jobs)
    requires forall j :: j in jobs && jobs[j].payload.Some? ==> Carried(t, t', jobs[j].payload.value)
    ensures JobsFine(t', jobs)
  {
    forall j | j in jobs ensures JobFine(t', jobs[j]) {
      assert JobFine(t, jobs[j]);
    }
  }

  lemma WorkerCarried(t: Tables, t': Tables, k: Worker)
    requires WorkerFine(t, k) && (k.payload.Some? ==> Carried(t, t', k.payload.value))
    ensures WorkerFine(t', k)
  {
  }

  lemma WorkersCarried(t: Tables, t': Tables, jobs: Table, workers: map<Id, Worker>)
    requires WorkersFine(t, jobs, workers)
    requires forall k :: k in workers && workers[k].payload.Some? ==> Carried(t, t', workers[k].payload.value)
    ensures WorkersFine(t', jobs, workers)
  {
    forall k | k in workers ensures WorkerFine(t', workers[k]) {
      WorkerCarried(t, t', workers[k]);
    }
  }

  /** Tables that changed only in deliveries and webhooks, carrying everything over. */
  lemma TablesCarried(w: World, t': Tables)
    requires Inv(w) && t'.jobs == w.tables.jobs && forall d :: Carried(w.tables, t', d)
    ensures Inv(World(t', w.workers))
  {
    JobsCarried(w.tables, t', t'.jobs);
    WorkersCarried(w.tables, t', t'.jobs, w.workers);
    forall d | IsWaiting(t', d) ensures exists j :: Carrier(t'.jobs, j, d) {
      assert Carried(w.tables, t', d);
      assert IsWaiting(w.tables, d);
    }
  }

  // ---------- one lemma per kind of move ----------

  /** A worker that lost a statement in its fifth attempt gives up the job: it still
      holds the lease, and the delivery still waits. */
  predicate Strands(w: World, m: Move) {
    m.FinishJob? && m.token in w.workers &&
    (var k := w.workers[m.token];
     && k.lost && k.claim.attempt >= MAX_ATTEMPTS && k.payload.Some?
     && Holds(w.tables.jobs, k.claim) && IsWaiting(w.tables, k.payload.value))
  }

  lemma WorkerTables(t: Tables, k: Worker, m: Move)
    ensures TablesAfter(t, k, m).jobs == t.jobs
    ensures forall d :: Carried(t, TablesAfter(t, k, m), d)
  {
  }

  lemma WorkerPhase(t: Tables, k: Worker, m: Move)
    requires WorkerFine(t, k) && WorkerMove(m)
    ensures WorkerFine(TablesAfter(t, k, m), WorkerAfter(t, k, m))
  {
  }

  lemma WorkerMoveKeeps(w: World, m: Move)
    requires Inv(w) && WorkerMove(m) && m.token in w.workers
    ensures Inv(Next(w, m))
  {
    var k := w.workers[m.token];
    var t' := TablesAfter(w.tables, k, m);
    WorkerTables(w.tables, k, m);
    WorkerPhase(w.tables, k, m);
    TablesCarried(w, t');
    OneWorker(t', w.workers, m.token, WorkerAfter(w.tables, k, m));
  }

  lemma OneWorker(t: Tables, workers: map<Id, Worker>, token: Id, k: Worker)
    requires WorkersFine(t, t.jobs, workers) && WorkerFine(t, k) && CopyRight(t.jobs, k)
    ensures WorkersFine(t, t.jobs, workers[token := k])
  {
  }

  lemma OneJob(t: Tables, j: Id, job: Job, workers: map<Id, Worker>)
    requires JobsFine(t, t.jobs) && j in t.jobs && JobFine(t, job) && WorkersFine(t, t.jobs, workers)
    requires job.payload == t.jobs[j].payload && job.ws == t.jobs[j].ws
    ensures var t' := t.(jobs := t.jobs[j := job]);
      JobsFine(t', t'.jobs) && WorkersFine(t', t'.jobs, workers)
  {
    var t' := t.(jobs := t.jobs[j := job]);
    forall i | i in t'.jobs ensures JobFine(t', t'.jobs[i]) {
      assert JobFine(t, if i == j then job else t.jobs[i]);
    }
    forall k | k in workers ensures WorkerFine(t', workers[k]) {
      WorkerCarried(t, t', workers[k]);
    }
  }

  /** A job row may change its status if it stays unfinished, or its delivery is settled. */
  lemma StillCarried(t: Tables, j: Id, job: Job)
    requires NoneStranded(t) && j in t.jobs && job.payload == t.jobs[j].payload
    requires Over(job) && job.payload.Some? ==> Settled(t, job.payload.value)
    ensures NoneStranded(t.(jobs := t.jobs[j := job]))
  {
    var t' := t.(jobs := t.jobs[j := job]);
    forall d | IsWaiting(t', d) ensures exists i :: Carrier(t'.jobs, i, d) {
      assert IsWaiting(t, d);
      var i :| Carrier(t.jobs, i, d);
      assert Carrier(t'.jobs, i, d);
    }
  }

  lemma ClaimKeeps(w: World, m: Move)
    requires Inv(w) && m.Claim? && CanClaim(w, m.job, m.token)
    ensures Inv(Next(w, m))
  {
    var t := w.tables;
    var job' := ClaimRow(t.jobs, m.job, m.token, m.now)[m.job];
    var t' := t.(jobs := t.jobs[m.job := job']);
    assert JobFine(t, t.jobs[m.job]);
    OneJob(t, m.job, job', w.workers);
    StillCarried(t, m.job, job');
    OneWorker(t', w.workers, m.token, StartWorker(t, m.job, m.token));
  }

  lemma FinishMoveKeeps(w: World, m: Move)
    requires Inv(w) && m.FinishJob? && m.token in w.workers && w.workers[m.token].phase.Returned? && !Strands(w, m)
    ensures Inv(Next(w, m))
  {
    var t, k := w.tables, w.workers[m.token];
    if Holds(t.jobs, k.claim) {
      var job' := FinishedRow(t.jobs[k.claim.job], k.claim.attempt, k.phase.ok, m.now);
      assert JobFine(t, t.jobs[k.claim.job]);
      assert WorkerFine(t, k) && CopyRight(t.jobs, k);
      OneJob(t, k.claim.job, job', w.workers);
      StillCarried(t, k.claim.job, job');
    }
  }

  lemma WebhookMoveKeeps(w: World, m: Move)
    requires Inv(w) && (m.AddWebhook? || m.DropWebhook?)
    ensures Inv(Next(w, m))
  {
    TablesCarried(w, Next(w, m).tables);
  }

  lemma PruneKeeps(w: World, deliveries: set<Id>, jobs: set<Id>)
    requires Inv(w)
    ensures Inv(w.(tables := Pruned(w.tables, deliveries, jobs)))
  {
    var fewer := w.tables.(deliveries := Pruned(w.tables, deliveries, jobs).deliveries);
    TablesCarried(w, fewer);
    PruneJobsKeeps(World(fewer, w.workers), jobs);
  }

  lemma PruneJobsKeeps(w: World, jobs: set<Id>)
    requires Inv(w)
    ensures Inv(w.(tables := w.tables.(jobs := map j | j in w.tables.jobs && (j !in jobs || !Over(w.tables.jobs[j])) :: w.tables.jobs[j])))
  {
    var t := w.tables;
    var t' := t.(jobs := map j | j in t.jobs && (j !in jobs || !Over(t.jobs[j])) :: t.jobs[j]);
    forall j | j in t'.jobs ensures JobFine(t', t'.jobs[j]) {
      assert JobFine(t, t.jobs[j]);
    }
    forall k | k in w.workers ensures WorkerFine(t', w.workers[k]) {
      WorkerCarried(t, t', w.workers[k]);
    }
    forall d | IsWaiting(t', d) ensures exists j :: Carrier(t'.jobs, j, d) {
      assert IsWaiting(t, d);
      var j :| Carrier(t.jobs, j, d);
      assert Carrier(t'.jobs, j, d);
    }
  }

  /** What a publication leaves alone, and what each of its new rows is. */
  ghost predicate Extends(t: Tables, t': Tables, ws: Id, ids: Ids) {
    && t'.webhooks == t.webhooks
    && (forall d :: d in t.deliveries ==> d in t'.deliveries && t'.deliveries[d] == t.deliveries[d])
    && (forall j :: j in t.jobs ==> j in t'.jobs && t'.jobs[j] == t.jobs[j])
    && (forall d :: d in t'.deliveries && d !in t.deliveries ==>
          NewRow(t, t', ws, ids, d) && exists j :: Carrier(t'.jobs, j, d))
    && (forall j :: j in t'.jobs && j !in t.jobs ==> NewJob(t, t', ws, ids, j))
  }

  ghost predicate NewRow(t: Tables, t': Tables, ws: Id, ids: Ids, d: Id) {
    d in ids.delivery.Values && InWorkspace(t', ws, d)
  }

  ghost predicate NewJob(t: Tables, t': Tables, ws: Id, ids: Ids, j: Id) {
    && j in ids.job.Values && j in t'.jobs && t'.jobs[j].ws == ws && t'.jobs[j].status == Pending
    && t'.jobs[j].payload.Some? && t'.jobs[j].payload.value in ids.delivery.Values && InWorkspace(t', ws, t'.jobs[j].payload.value)
  }

  lemma NewRowsOf(t: Tables, ws: Id, kind: EventType, ids: Ids, at: int, w: Id)
    requires IdsFresh(t, Targets(t, ws, kind), ids) && w in Targets(t, ws, kind)
    ensures var t', d, j := Published(t, ws, kind, ids, at), ids.delivery[w], ids.job[w];
      && d in t'.deliveries && t'.deliveries[d] == Delivery(w, ids.event, kind, Waiting, 0)
      && j in t'.jobs && t'.jobs[j] == FreshJob(ws, JOB_KIND, d, Some(d), at)
  {
    var targets := Targets(t, ws, kind);
    DeliveryOf(targets, kind, ids, w);
    JobOf(targets, ws, ids, at, w);
  }

  lemma DeliveryOf(targets: set<Id>, kind: EventType, ids: Ids, w: Id)
    requires targets <= ids.delivery.Keys && OneToOne(ids.delivery) && w in targets
    ensures var d, rows := ids.delivery[w], NewDeliveries(targets, kind, ids);
      d in rows && rows[d] == Delivery(w, ids.event, kind, Waiting, 0)
  {
  }

  lemma JobOf(targets: set<Id>, ws: Id, ids: Ids, at: int, w: Id)
    requires targets <= ids.delivery.Keys && targets <= ids.job.Keys && OneToOne(ids.job) && w in targets
    ensures var j, d, rows := ids.job[w], ids.delivery[w], NewJobs(targets, ws, ids, at);
      j in rows && rows[j] == FreshJob(ws, JOB_KIND, d, Some(d), at)
  {
  }

  lemma InValues(m: map<Id, Id>, w: Id)
    requires w in m
    ensures m[w] in m.Values
  {
  }

  lemma PublishedKeys(t: Tables, ws: Id, kind: EventType, ids: Ids, at: int)
    requires IdsFresh(t, Targets(t, ws, kind), ids)
    ensures var t', targets := Published(t, ws, kind, ids, at), Targets(t, ws, kind);
      && t'.webhooks == t.webhooks
      && (forall d :: d in t.deliveries ==> d in t'.deliveries && t'.deliveries[d] == t.deliveries[d])
      && (forall j :: j in t.jobs ==> j in t'.jobs && t'.jobs[j] == t.jobs[j])
      && (forall d :: d in t'.deliveries && d !in t.deliveries ==> exists w :: Owns(targets, ids.delivery, w, d))
      && (forall j :: j in t'.jobs && j !in t.jobs ==> exists w :: Owns(targets, ids.job, w, j))
  {
    var t', targets := Published(t, ws, kind, ids, at), Targets(t, ws, kind);
    forall d | d in t'.deliveries && d !in t.deliveries ensures exists w :: Owns(targets, ids.delivery, w, d) {
      assert d in NewDeliveries(targets, kind, ids);
      var w :| w in targets && ids.delivery[w] == d;
      assert Owns(targets, ids.delivery, w, d);
    }
    forall j | j in t'.jobs && j !in t.jobs ensures exists w :: Owns(targets, ids.job, w, j) {
      assert j in NewJobs(targets, ws, ids, at);
      var w :| w in targets && ids.job[w] == j;
      assert Owns(targets, ids.job, w, j);
    }
  }

  lemma NewDeliveryFits(t: Tables, ws: Id, kind: EventType, ids: Ids, at: int, w: Id)
    requires IdsFresh(t, Targets(t, ws, kind), ids) && w in Targets(t, ws, kind)
    ensures var t', d := Published(t, ws, kind, ids, at), ids.delivery[w];
      NewRow(t, t', ws, ids, d) && Carrier(t'.jobs, ids.job[w], d)
  {
    NewRowsOf(t, ws, kind, ids, at, w);
    InValues(ids.delivery, w);
  }

  lemma NewJobFits(t: Tables, ws: Id, kind: EventType, ids: Ids, at: int, w: Id)
    requires IdsFresh(t, Targets(t, ws, kind), ids) && w in Targets(t, ws, kind)
    ensures NewJob(t, Published(t, ws, kind, ids, at), ws, ids, ids.job[w])
  {
    NewRowsOf(t, ws, kind, ids, at, w);
    InValues(ids.delivery, w);
    InValues(ids.job, w);
  }

  lemma PublishedRows(t: Tables, ws: Id, kind: EventType, ids: Ids, at: int)
    requires IdsFresh(t, Targets(t, ws, kind), ids)
    ensures Extends(t, Published(t, ws, kind, ids, at), ws, ids)
  {
    var t', targets := Published(t, ws, kind, ids, at), Targets(t, ws, kind);
    PublishedKeys(t, ws, kind, ids, at);
    forall d | d in t'.deliveries && d !in t.deliveries ensures NewRow(t, t', ws, ids, d) && exists j :: Carrier(t'.jobs, j, d) {
      var w :| Owns(targets, ids.delivery, w, d);
      NewDeliveryFits(t, ws, kind, ids, at, w);
    }
    forall j | j in t'.jobs && j !in t.jobs ensures NewJob(t, t', ws, ids, j) {
      var w :| Owns(targets, ids.job, w, j);
      NewJobFits(t, ws, kind, ids, at, w);
    }
  }

  lemma UnusedJob(w: World, ws: Id, kind: EventType, ids: Ids, j: Id)
    requires CanPublish(w, ws, kind, ids) && j in ids.job.Values
    ensures forall k :: k in w.workers ==> w.workers[k].claim.job != j
  {
    var x :| x in ids.job && ids.job[x] == j;
  }

  lemma UnusedId(w: World, ws: Id, kind: EventType, ids: Ids, d: Id)
    requires CanPublish(w, ws, kind, ids) && d in ids.delivery.Values
    ensures d !in w.tables.deliveries && !Mentions(w.tables.jobs, d)
    ensures forall k :: k in w.workers ==> w.workers[k].payload != Some(d)
  {
    var x :| x in ids.delivery && ids.delivery[x] == d;
  }

  lemma PublishCarries(w: World, t': Tables, ws: Id, kind: EventType, ids: Ids)
    requires CanPublish(w, ws, kind, ids) && Extends(w.tables, t', ws, ids)
    ensures forall j :: j in w.tables.jobs && w.tables.jobs[j].payload.Some? ==> Carried(w.tables, t', w.tables.jobs[j].payload.value)
    ensures forall k :: k in w.workers && w.workers[k].payload.Some? ==> Carried(w.tables, t', w.workers[k].payload.value)
  {
    var t := w.tables;
    forall d | d in t'.deliveries && d !in t.deliveries
      ensures (forall j :: j in t.jobs ==> t.jobs[j].payload != Some(d)) && (forall k :: k in w.workers ==> w.workers[k].payload != Some(d))
    {
      assert NewRow(t, t', ws, ids, d);
      UnusedId(w, ws, kind, ids, d);
      assert forall j :: j in t.jobs && t.jobs[j].payload == Some(d) ==> Mentions(t.jobs, d);
    }
  }

  lemma PublishCopies(w: World, t': Tables, ws: Id, kind: EventType, ids: Ids)
    requires CanPublish(w, ws, kind, ids) && Extends(w.tables, t', ws, ids)
    requires WorkersFine(t', w.tables.jobs, w.workers)
    ensures WorkersFine(t', t'.jobs, w.workers)
  {
    forall j | j in t'.jobs && j !in w.tables.jobs ensures forall k :: k in w.workers ==> w.workers[k].claim.job != j {
      assert NewJob(w.tables, t', ws, ids, j);
      UnusedJob(w, ws, kind, ids, j);
    }
    forall k | k in w.workers ensures CopyRight(t'.jobs, w.workers[k]) {
      assert CopyRight(w.tables.jobs, w.workers[k]);
    }
  }

  lemma PublishJobs(t: Tables, t': Tables, ws: Id, ids: Ids)
    requires Extends(t, t', ws, ids) && JobsFine(t', t.jobs) && NoneStranded(t)
    requires forall d :: d in ids.delivery.Values ==> d !in t.deliveries
    ensures JobsFine(t', t'.jobs) && NoneStranded(t')
  {
    forall j | j in t'.jobs ensures JobFine(t', t'.jobs[j]) {
      if j in t.jobs {
        assert JobFine(t', t.jobs[j]);
      } else {
        assert NewJob(t, t', ws, ids, j);
      }
    }
    forall d | IsWaiting(t', d) ensures exists j :: Carrier(t'.jobs, j, d) {
      if d in t.deliveries {
        assert IsWaiting(t, d);
        var j :| Carrier(t.jobs, j, d);
        assert Carrier(t'.jobs, j, d);
      }
    }
  }

  lemma PublishKeeps(w: World, ws: Id, kind: EventType, ids: Ids, at: int)
    requires Inv(w) && CanPublish(w, ws, kind, ids)
    ensures Inv(w.(tables := Published(w.tables, ws, kind, ids, at)))
  {
    var t, t' := w.tables, Published(w.tables, ws, kind, ids, at);
    PublishedRows(t, ws, kind, ids, at);
    PublishCarries(w, t', ws, kind, ids);
    JobsCarried(t, t', t.jobs);
    WorkersCarried(t, t', t.jobs, w.workers);
    PublishCopies(w, t', ws, kind, ids);
    forall d | d in ids.delivery.Values ensures d !in t.deliveries {
      UnusedId(w, ws, kind, ids, d);
    }
    PublishJobs(t, t', ws, ids);
  }

  lemma NextKeeps(w: World, m: Move)
    requires Inv(w) && !Strands(w, m)
    ensures Inv(Next(w, m))
  {
    match m
    case Publish(ws, kind, ids, at) => if CanPublish(w, ws, kind, ids) { PublishKeeps(w, ws, kind, ids, at); }
    case AddWebhook(_, _) => WebhookMoveKeeps(w, m);
    case DropWebhook(_) => WebhookMoveKeeps(w, m);
    case Prune(deliveries, jobs) => PruneKeeps(w, deliveries, jobs);
    case Claim(job, token, _) => if CanClaim(w, job, token) { ClaimKeeps(w, m); }
    case FinishJob(token, _) => if token in w.workers && w.workers[token].phase.Returned? { FinishMoveKeeps(w, m); }
    case _ => if m.token in w.workers { WorkerMoveKeeps(w, m); }
  }

  /** A job that is over has no waiting delivery. */
  ghost predicate Promised(t: Tables) {
    forall j :: j in t.jobs && Over(t.jobs[j]) && t.jobs[j].payload.Some? ==> Settled(t, t.jobs[j].payload.value)
  }

  /** Exactly the stranding moves break the promise. */
  lemma StrandBreaks(w: World, m: Move)
    requires Inv(w) && Strands(w, m)
    ensures !Promised(Next(w, m).tables)
  {
    var k := w.workers[m.token];
    assert WorkerFine(w.tables, k) && CopyRight(w.tables.jobs, k);
    var t' := Next(w, m).tables;
    assert Over(t'.jobs[k.claim.job]) && t'.jobs[k.claim.job].payload == k.payload;
  }

  lemma InvIsPromised(w: World)
    requires Inv(w)
    ensures Promised(w.tables)
  {
    forall j | j in w.tables.jobs && Over(w.tables.jobs[j]) && w.tables.jobs[j].payload.Some?
      ensures Settled(w.tables, w.tables.jobs[j].payload.value)
    {
      assert JobFine(w.tables, w.tables.jobs[j]);
    }
  }

  // ---------- no two jobs for one delivery ----------

  ghost predicate OneJobEach(jobs: Table) {
    forall i, j :: i in jobs && j in jobs && jobs[i].payload.Some? && jobs[i].payload == jobs[j].payload ==> i == j
  }

  ghost predicate CarriesFor(jobs: Table, targets: set<Id>, ids: Ids, j: Id, w: Id) {
    j in jobs && Owns(targets, ids.job, w, j) && w in ids.delivery && jobs[j].payload == Some(ids.delivery[w])
  }

  lemma NewPayloads(t: Tables, ws: Id, kind: EventType, ids: Ids, at: int)
    requires IdsFresh(t, Targets(t, ws, kind), ids)
    ensures var t', targets := Published(t, ws, kind, ids, at), Targets(t, ws, kind);
      && (forall j :: j in t.jobs ==> j in t'.jobs && t'.jobs[j] == t.jobs[j])
      && (forall j :: j in t'.jobs && j !in t.jobs ==> exists w :: CarriesFor(t'.jobs, targets, ids, j, w))
  {
    var t', targets := Published(t, ws, kind, ids, at), Targets(t, ws, kind);
    PublishedKeys(t, ws, kind, ids, at);
    forall j | j in t'.jobs && j !in t.jobs ensures exists w :: CarriesFor(t'.jobs, targets, ids, j, w) {
      var w :| Owns(targets, ids.job, w, j);
      NewRowsOf(t, ws, kind, ids, at, w);
      assert CarriesFor(t'.jobs, targets, ids, j, w);
    }
  }

  lemma PublishedOnce(t: Tables, ws: Id, kind: EventType, ids: Ids, at: int)
    requires IdsFresh(t, Targets(t, ws, kind), ids) && OneJobEach(t.jobs)
    ensures OneJobEach(Published(t, ws, kind, ids, at).jobs)
  {
    NewPayloads(t, ws, kind, ids, at);
    AddedOnce(t, Published(t, ws, kind, ids, at).jobs, Targets(t, ws, kind), ids);
  }

  lemma AddedOnce(t: Tables, jobs: Table, targets: set<Id>, ids: Ids)
    requires IdsFresh(t, targets, ids) && OneJobEach(t.jobs)
    requires forall j :: j in t.jobs ==> j in jobs && jobs[j] == t.jobs[j]
    requires forall j :: j in jobs && j !in t.jobs ==> exists w :: CarriesFor(jobs, targets, ids, j, w)
    ensures OneJobEach(jobs)
  {
    forall i, j | i in t.jobs && j in jobs && j !in t.jobs ensures t.jobs[i].payload != jobs[j].payload {
      var w :| CarriesFor(jobs, targets, ids, j, w);
      NeverMentioned(t, targets, ids, w, i);
    }
    forall i, j | i in jobs && i !in t.jobs && j in jobs && j !in t.jobs && jobs[i].payload == jobs[j].payload ensures i == j {
      var v :| CarriesFor(jobs, targets, ids, i, v);
      var w :| CarriesFor(jobs, targets, ids, j, w);
    }
  }

  lemma NeverMentioned(t: Tables, targets: set<Id>, ids: Ids, w: Id, i: Id)
    requires IdsFresh(t, targets, ids) && w in ids.delivery && i in t.jobs
    ensures t.jobs[i].payload != Some(ids.delivery[w])
  {
    assert !Mentions(t.jobs, ids.delivery[w]);
  }

  lemma OneJobNext(w: World, m: Move)
    requires OneJobEach(w.tables.jobs)
    ensures OneJobEach(Next(w, m).tables.jobs)
  {
    if m.Publish? && CanPublish(w, m.ws, m.kind, m.ids) {
      PublishedOnce(w.tables, m.ws, m.kind, m.ids, m.at);
    } else if WorkerMove(m) && m.token in w.workers {
      WorkerTables(w.tables, w.workers[m.token], m);
    }
  }

  /** ... and leave the delivery with no job that would come back for it. */
  lemma StrandStrands(w: World, m: Move)
    requires Inv(w) && OneJobEach(w.tables.jobs) && Strands(w, m)
    ensures !NoneStranded(Next(w, m).tables)
  {
    var k := w.workers[m.token];
    var d, t' := k.payload.value, Next(w, m).tables;
    assert WorkerFine(w.tables, k) && CopyRight(w.tables.jobs, k);
    OneJobNext(w, m);
    assert IsWaiting(t', d);
    assert k.claim.job in t'.jobs && Over(t'.jobs[k.claim.job]) && t'.jobs[k.claim.job].payload == Some(d);
    forall j ensures !Carrier(t'.jobs, j, d) {
    }
  }

  // ---------- every run ----------

  function RunAll(w: World, moves: seq<Move>): World
    decreases |moves|
  {
    if moves == [] then w else RunAll(Next(w, moves[0]), moves[1..])
  }

  predicate NeverStrands(w: World, moves: seq<Move>)
    decreases |moves|
  {
    moves == [] || (!Strands(w, moves[0]) && NeverStrands(Next(w, moves[0]), moves[1..]))
  }

  /** At every stage of the run, a job that is over has no waiting delivery. */
  ghost predicate AlwaysPromised(w: World, moves: seq<Move>)
    decreases |moves|
  {
    Promised(w.tables) && (moves == [] || AlwaysPromised(Next(w, moves[0]), moves[1..]))
  }

  /** At every stage of the run, a waiting delivery has a job that is not over. */
  ghost predicate AlwaysCarried(w: World, moves: seq<Move>)
    decreases |moves|
  {
    NoneStranded(w.tables) && (moves == [] || AlwaysCarried(Next(w, moves[0]), moves[1..]))
  }

  lemma {:induction false} PromiseIsExact(w: World, moves: seq<Move>)
    requires Inv(w)
    ensures AlwaysPromised(w, moves) <==> NeverStrands(w, moves)
    ensures NeverStrands(w, moves) ==> Inv(RunAll(w, moves))
    decreases |moves|
  {
    InvIsPromised(w);
    if moves != [] {
      if Strands(w, moves[0]) {
        StrandBreaks(w, moves[0]);
      } else {
        NextKeeps(w, moves[0]);
        PromiseIsExact(Next(w, moves[0]), moves[1..]);
      }
    }
  }

  lemma {:induction false} CarryingIsExact(w: World, moves: seq<Move>)
    requires Inv(w) && OneJobEach(w.tables.jobs)
    ensures AlwaysCarried(w, moves) <==> NeverStrands(w, moves)
    decreases |moves|
  {
    if moves != [] {
      if Strands(w, moves[0]) {
        StrandStrands(w, moves[0]);
      } else {
        NextKeeps(w, moves[0]);
        OneJobNext(w, moves[0]);
        CarryingIsExact(Next(w, moves[0]), moves[1..]);
      }
    }
  }

  /** However publications, workers, crashes, storage errors and clean-up interleave: at
      every stage the jobs that succeeded or failed have no delivery still waiting, if and
      only if no worker that lost a statement in its fifth attempt finishes its job
      while it still holds the lease and the delivery still waits. */
  lemma FinishedJobsAreSettled(moves: seq<Move>)
    ensures AlwaysPromised(QUIET, moves) <==> NeverStrands(QUIET, moves)
  {
    PromiseIsExact(QUIET, moves);
  }

  /** On the same condition, and only on it, every waiting delivery has at every stage
      a job that is pending or running. */
  lemma WaitingDeliveriesHaveJobs(moves: seq<Move>)
    ensures AlwaysCarried(QUIET, moves) <==> NeverStrands(QUIET, moves)
  {
    CarryingIsExact(QUIET, moves);
  }

  /** A refused statement of a fifth attempt does harm exactly if at that moment the
      worker still holds the lease and the delivery still waits; stale workers, settled
      deliveries and earlier attempts do not mind it. */
  lemma LostStatementMatters(w: World, m: Move, now: int)
    requires Inv(w) && WorkerMove(m) && m.token in w.workers && Loses(w.workers[m.token], m)
    ensures var k, w' := w.workers[m.token], Next(Next(w, m), FinishJob(m.token, now));
      var stranded := k.payload.Some? && k.claim.job in w'.tables.jobs && Over(w'.tables.jobs[k.claim.job]) && IsWaiting(w'.tables, k.payload.value);
      stranded <==> k.claim.attempt >= MAX_ATTEMPTS && Holds(w.tables.jobs, k.claim) && k.payload.Some? && IsWaiting(w.tables, k.payload.value)
  {
    var k := w.workers[m.token];
    assert WorkerFine(w.tables, k) && CopyRight(w.tables.jobs, k);
    var w1 := Next(w, m);
    assert w1.tables == w.tables && w1.workers[m.token].phase == Returned(false) && w1.workers[m.token].claim == k.claim;
    if k.claim.job in w.tables.jobs {
      assert JobFine(w.tables, w.tables.jobs[k.claim.job]);
    }
  }

  /** A delivery that is settled, or gone, is never waiting again: its id is not drawn twice. */
  lemma {:induction false} SettledIsFinal(w: World, moves: seq<Move>, d: Id)
    requires Settled(w.tables, d)
    requires forall m :: m in moves && m.Publish? ==> d !in m.ids.delivery.Values
    ensures Settled(RunAll(w, moves).tables, d)
    decreases |moves|
  {
    if moves != [] {
      SettledStep(w, moves[0], d);
      SettledIsFinal(Next(w, moves[0]), moves[1..], d);
    }
  }

  lemma SettledStep(w: World, m: Move, d: Id)
    requires Settled(w.tables, d) && (m.Publish? ==> d !in m.ids.delivery.Values)
    ensures Settled(Next(w, m).tables, d)
  {
    if m.Publish? && CanPublish(w, m.ws, m.kind, m.ids) {
      PublishedRows(w.tables, m.ws, m.kind, m.ids, m.at);
      assert d in Next(w, m).tables.deliveries && d !in w.tables.deliveries ==> NewRow(w.tables, Next(w, m).tables, m.ws, m.ids, d);
    } else if WorkerMove(m) && m.token in w.workers {
      WorkerTables(w.tables, w.workers[m.token], m);
      assert Carried(w.tables, Next(w, m).tables, d);
    }
  }

  // ---------- a run that strands a delivery ----------

  const HOOK := Webhook(1, {ItemCreated})
  const DRAWN := Ids(3, map[7 := 2], map[7 := 5])

  /** After `n` attempts: one delivery that waits, and its pending job. */
  function AfterAttempts(n: nat, at: int): World {
    World(Tables(map[7 := HOOK], map[2 := Delivery(7, 3, ItemCreated, Waiting, n)],
                 map[5 := Job(1, JOB_KIND, 2, Some(2), Pending, n, at, None, 0)]), map[])
  }

  const PUBLISHED := [AddWebhook(7, HOOK), Publish(1, ItemCreated, DRAWN, 0)]
  const ANOTHER_FAILURE := [Claim(5, 9, 0), Load(9, true), Count(9, true), Send(9, false), Record(9, true), FinishJob(9, 0)]
  const LOST := [Claim(5, 9, 0), Load(9, false), FinishJob(9, 0)]

  lemma {:induction false} RunAppend(w: World, a: seq<Move>, b: seq<Move>)
    ensures RunAll(w, a + b) == RunAll(RunAll(w, a), b)
    decreases |a|
  {
    if a == [] {
      assert a + b == b;
    } else {
      assert (a + b)[1..] == a[1..] + b;
      RunAppend(Next(w, a[0]), a[1..], b);
    }
  }

  lemma RunTwo(w: World, a: Move, b: Move)
    ensures RunAll(w, [a, b]) == Next(Next(w, a), b)
  {
    assert [a, b][1..] == [b] && [b][1..] == [];
    assert RunAll(Next(w, a), [b]) == RunAll(Next(Next(w, a), b), []);
  }

  lemma RunThree(w: World, a: Move, b: Move, c: Move)
    ensures RunAll(w, [a, b, c]) == Next(Next(Next(w, a), b), c)
  {
    assert [a, b, c] == [a, b] + [c] && [c][1..] == [];
    RunAppend(w, [a, b], [c]);
    RunTwo(w, a, b);
    assert RunAll(Next(Next(w, a), b), [c]) == RunAll(Next(Next(Next(w, a), b), c), []);
  }

  lemma OneDelivery(w: Id, kind: EventType, ids: Ids)
    requires w in ids.delivery && OneToOne(ids.delivery)
    ensures NewDeliveries({w}, kind, ids) == map[ids.delivery[w] := Delivery(w, ids.event, kind, Waiting, 0)]
  {
    assert {} + {w} == {w};
    DeliveriesOneMore({}, w, kind, ids);
    assert NewDeliveries({}, kind, ids) == map[];
  }

  lemma OneNewJob(w: Id, ws: Id, ids: Ids, at: int)
    requires w in ids.delivery && w in ids.job && OneToOne(ids.job)
    ensures NewJobs({w}, ws, ids, at) == map[ids.job[w] := FreshJob(ws, JOB_KIND, ids.delivery[w], Some(ids.delivery[w]), at)]
  {
    assert {} + {w} == {w};
    JobsOneMore({}, w, ws, ids, at);
    assert NewJobs({}, ws, ids, at) == map[];
  }

  lemma OneEntry(k: Id, v: Id)
    ensures OneToOne(map[k := v])
  {
  }

  lemma FirstIdsFresh(t: Tables)
    requires t == Tables(map[7 := HOOK], map[], map[])
    ensures IdsFresh(t, {7}, DRAWN)
  {
    OneEntry(7, 2);
    OneEntry(7, 5);
    assert forall d :: !Mentions(t.jobs, d);
  }

  lemma FirstCanPublish(t: Tables)
    requires t == Tables(map[7 := HOOK], map[], map[])
    ensures CanPublish(World(t, map[]), 1, ItemCreated, DRAWN)
  {
    FirstTargets(t);
    FirstIdsFresh(t);
  }

  lemma FirstPublish(t: Tables)
    requires t == Tables(map[7 := HOOK], map[], map[])
    ensures IdsFresh(t, Targets(t, 1, ItemCreated), DRAWN)
    ensures Published(t, 1, ItemCreated, DRAWN, 0) == AfterAttempts(0, 0).tables
  {
    FirstTargets(t);
    FirstIdsFresh(t);
    OneDelivery(7, ItemCreated, DRAWN);
    OneNewJob(7, 1, DRAWN, 0);
    FirstRows(t);
  }

  lemma FirstRows(t: Tables)
    requires t == Tables(map[7 := HOOK], map[], map[])
    ensures AfterAttempts(0, 0).tables == t.(
      deliveries := t.deliveries + map[2 := Delivery(7, 3, ItemCreated, Waiting, 0)],
      jobs := t.jobs + map[5 := FreshJob(1, JOB_KIND, 2, Some(2), 0)])
  {
  }

  lemma FirstTargets(t: Tables)
    requires t.webhooks == map[7 := HOOK]
    ensures Targets(t, 1, ItemCreated) == {7}
  {
  }

  lemma FirstPublication()
    ensures RunAll(QUIET, PUBLISHED) == AfterAttempts(0, 0)
  {
    var t := Tables(map[7 := HOOK], map[], map[]);
    var w := World(t, map[]);
    assert Next(QUIET, AddWebhook(7, HOOK)) == w;
    FirstCanPublish(t);
    FirstPublish(t);
    RunTwo(QUIET, AddWebhook(7, HOOK), Publish(1, ItemCreated, DRAWN, 0));
  }

  function Claimant(n: nat, phase: Phase): Worker {
    Worker(Claimed(5, 9, n + 1), 1, Some(2), phase, false)
  }

  lemma FailureCounted(n: nat, at: int, w: World)
    requires n < 4 && w == AfterAttempts(n, at)
    ensures var w' := Next(Next(Next(w, Claim(5, 9, 0)), Load(9, true)), Count(9, true));
      && w'.workers == map[9 := Claimant(n, Counted(n + 1))]
      && w'.tables == w.tables.(deliveries := map[2 := Delivery(7, 3, ItemCreated, Waiting, n + 1)],
           jobs := map[5 := w.tables.jobs[5].(status := Running, attempts := n + 1, lease := Some(Lease(9, LEASE)))])
  {
    var w1 := Next(w, Claim(5, 9, 0));
    var w2 := Next(w1, Load(9, true));
    var w3 := Next(w2, Count(9, true));
    assert w1.workers == map[9 := Claimant(n, Started)];
    assert w2.workers == map[9 := Claimant(n, Loaded(n + 1))];
    assert w3.workers == map[9 := Claimant(n, Counted(n + 1))];
  }

  lemma FailureRecorded(n: nat, at: int, w: World)
    requires n < 4 && w.workers == map[9 := Claimant(n, Counted(n + 1))]
    requires w.tables == AfterAttempts(n, at).tables.(deliveries := map[2 := Delivery(7, 3, ItemCreated, Waiting, n + 1)],
      jobs := map[5 := AfterAttempts(n, at).tables.jobs[5].(status := Running, attempts := n + 1, lease := Some(Lease(9, LEASE)))])
    ensures Next(Next(Next(w, Send(9, false)), Record(9, true)), FinishJob(9, 0)) == AfterAttempts(n + 1, RetryDelay(n + 1))
  {
    var w4 := Next(w, Send(9, false));
    var w5 := Next(w4, Record(9, true));
    var w6 := Next(w5, FinishJob(9, 0));
    assert w4.workers == map[9 := Claimant(n, Replied(n + 1, false))];
    assert w5.workers == map[9 := Claimant(n, Returned(false))];
    assert w6.workers == map[];
  }

  lemma OneMoreFailure(n: nat, at: int)
    requires n < 4
    ensures RunAll(AfterAttempts(n, at), ANOTHER_FAILURE) == AfterAttempts(n + 1, RetryDelay(n + 1))
  {
    var w := AfterAttempts(n, at);
    var w3 := Next(Next(Next(w, Claim(5, 9, 0)), Load(9, true)), Count(9, true));
    FailureCounted(n, at, w);
    FailureRecorded(n, at, w3);
    RunThree(w, Claim(5, 9, 0), Load(9, true), Count(9, true));
    RunThree(w3, Send(9, false), Record(9, true), FinishJob(9, 0));
    assert ANOTHER_FAILURE == [Claim(5, 9, 0), Load(9, true), Count(9, true)] + [Send(9, false), Record(9, true), FinishJob(9, 0)];
    RunAppend(w, [Claim(5, 9, 0), Load(9, true), Count(9, true)], [Send(9, false), Record(9, true), FinishJob(9, 0)]);
  }

  /** `n` failed attempts, one after another. */
  function Failures(n: nat): seq<Move> {
    if n == 0 then [] else Failures(n - 1) + ANOTHER_FAILURE
  }

  lemma {:induction false} FailuresLead(n: nat)
    requires n <= 4
    ensures RunAll(AfterAttempts(0, 0), Failures(n)) == AfterAttempts(n, if n == 0 then 0 else RetryDelay(n))
  {
    if n > 0 {
      FailuresLead(n - 1);
      RunAppend(AfterAttempts(0, 0), Failures(n - 1), ANOTHER_FAILURE);
      OneMoreFailure(n - 1, if n == 1 then 0 else RetryDelay(n - 1));
    }
  }

  /** The condition can fail from the empty tables on: a publication, four failed
      attempts, and a fifth whose read the database refuses.  The job is failed, its
      delivery waits, and no job will come back for it. */
  lemma LostWriteStrandsDelivery()
    ensures var w := RunAll(QUIET, PUBLISHED + (Failures(4) + LOST));
      && 5 in w.tables.jobs && w.tables.jobs[5].status == Failed && w.tables.jobs[5].payload == Some(2)
      && IsWaiting(w.tables, 2) && !exists j :: Carrier(w.tables.jobs, j, 2)
  {
    var n := 4;
    RunAppend(QUIET, PUBLISHED, Failures(n) + LOST);
    FirstPublication();
    RunAppend(AfterAttempts(0, 0), Failures(n), LOST);
    FailuresLead(n);
    LastAttemptLost(RetryDelay(n));
  }

  lemma LastAttemptLost(at: int)
    ensures var w := RunAll(AfterAttempts(4, at), LOST);
      && 5 in w.tables.jobs && w.tables.jobs[5].status == Failed && w.tables.jobs[5].payload == Some(2)
      && IsWaiting(w.tables, 2) && !exists j :: Carrier(w.tables.jobs, j, 2)
  {
    var w := AfterAttempts(4, at);
    var w1 := Next(w, Claim(5, 9, 0));
    var w2 := Next(w1, Load(9, false));
    var w3 := Next(w2, FinishJob(9, 0));
    assert w1.workers == map[9 := Worker(Claimed(5, 9, 5), 1, Some(2), Started, false)];
    assert w2.workers[9].phase == Returned(false);
    assert w3.tables.jobs[5].status == Failed;
    RunThree(w, Claim(5, 9, 0), Load(9, false), FinishJob(9, 0));
  }

  // ---------- an uninterrupted attempt ----------

  /** What DeliverOne does in one go is what a worker's four moves do when nobody
      comes between them and every statement is stored. */
  lemma AttemptAsMoves(w: World, token: Id, delivered: bool)
    requires token in w.workers && w.workers[token].phase.Started? && w.workers[token].claim.attempt <= MAX_ATTEMPTS
    requires w.workers[token].payload.Some?
    ensures var k, t := w.workers[token], w.tables; var d := k.payload.value;
      var w' := Next(Next(Next(Next(w, Load(token, true)), Count(token, true)), Send(token, delivered)), Record(token, true));
      var read := Selected(t, k.ws, d);
      if read.None? then w'.tables == t && w'.workers[token].phase == Returned(true)
      else
        var attempt := AttemptFor(read.value, k.claim.attempt);
        && w'.tables == RecordReply(CountAttempt(t, d, attempt), d, attempt, delivered)
        && w'.workers[token].phase == Returned(delivered)
  {
    var w1 := Next(w, Load(token, true));
    var w2 := Next(w1, Count(token, true));
    var w3 := Next(w2, Send(token, delivered));
    assert w1.tables == w.tables;
    assert w3.tables == w2.tables;
  }
}
