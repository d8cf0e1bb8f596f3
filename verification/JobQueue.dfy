/** The leased job queue (queue.go).  Workers claim a row, run its handler
    outside any transaction, and finish the row if they still hold its lease.
    They may stall or crash between the two, and any number may run at once. */
module JobQueue {
  import opened Wrappers
  import opened Sums

  type Id = nat

  const MAX_ATTEMPTS := 5
  const SECOND := 1_000_000_000
  const LEASE := 60 * SECOND

  datatype Status = Pending | Running | Succeeded | Failed

  datatype Lease = Lease(token: Id, until: int)

  /** `payload` is the delivery id in the payload, None if there is none to read. */
  datatype Job = Job(
    ws: Id, kind: Id, key: Id, payload: Option<Id>, status: Status, attempts: nat,
    availableAt: int, lease: Option<Lease>, createdAt: int)

  type Table = map<Id, Job>

  /** What a worker takes away from a claim. */
  datatype Claimed = Claimed(job: Id, token: Id, attempt: nat)

  function Power(n: nat): nat {
    if n == 0 then 1 else 2 * Power(n - 1)
  }

  function RetryDelay(attempt: int): int {
    SECOND * Power(if attempt < 1 then 0 else attempt - 1)
  }

  // ---------- the statements ----------

  /** The row a claim may take, whatever its timestamps say. */
  predicate Claimable(job: Job) {
    job.status == Pending || (job.status == Running && job.lease.Some?)
  }

  function ClaimRow(jobs: Table, id: Id, token: Id, now: int): Table
    requires id in jobs
  {
    jobs[id := jobs[id].(status := Running, attempts := jobs[id].attempts + 1, lease := Some(Lease(token, now + LEASE)))]
  }

  /** The condition of the UPDATE in finish. */
  predicate Holds(jobs: Table, c: Claimed) {
    && c.job in jobs && jobs[c.job].status == Running
    && jobs[c.job].lease.Some? && jobs[c.job].lease.value.token == c.token
  }

  function FinishedRow(job: Job, attempt: nat, ok: bool, now: int): Job {
    if ok then job.(status := Succeeded, lease := None)
    else if attempt >= MAX_ATTEMPTS then job.(status := Failed, lease := None)
    else job.(status := Pending, lease := None, availableAt := now + RetryDelay(attempt))
  }

  function Finish(jobs: Table, c: Claimed, ok: bool, now: int): Table {
    if Holds(jobs, c) then jobs[c.job := FinishedRow(jobs[c.job], c.attempt, ok, now)] else jobs
  }

  predicate KeyTaken(jobs: Table, ws: Id, kind: Id, key: Id) {
    exists i | i in jobs :: jobs[i].ws == ws && jobs[i].kind == kind && jobs[i].key == key
  }

  function FreshJob(ws: Id, kind: Id, key: Id, payload: Option<Id>, at: int): Job {
    Job(ws, kind, key, payload, Pending, 0, at, None, at)
  }

  /** A second job under the same key is silently dropped. */
  function Enqueue(jobs: Table, id: Id, ws: Id, kind: Id, key: Id, payload: Option<Id>, at: int): Table {
    if KeyTaken(jobs, ws, kind, key) then jobs else jobs[id := FreshJob(ws, kind, key, payload, at)]
  }

  // ---------- runs ----------

  /** The table, and the claims handed out so far, oldest first. */
  datatype State = State(jobs: Table, claims: seq<Claimed>)

  datatype Step =
    | Enqueuing(id: Id, ws: Id, kind: Id, key: Id, payload: Option<Id>, at: int)
    | Claiming(id: Id, token: Id, now: int)
    | Finishing(claim: Claimed, ok: bool, now: int)

  predicate TokenFresh(s: State, token: Id) {
    forall c :: c in s.claims ==> c.token != token
  }

  /** Any claimable row may be the one a claim picks; job ids and tokens are random,
      so a step that would repeat one does not happen. */
  predicate Claims(s: State, step: Step, id: Id) {
    step.Claiming? && step.id == id && id in s.jobs && Claimable(s.jobs[id]) && TokenFresh(s, step.token)
  }

  function Apply(s: State, step: Step): State {
    match step
    case Enqueuing(id, ws, kind, key, payload, at) =>
      if id in s.jobs then s else s.(jobs := Enqueue(s.jobs, id, ws, kind, key, payload, at))
    case Claiming(id, token, now) =>
      if Claims(s, step, id) then
        State(ClaimRow(s.jobs, id, token, now), s.claims + [Claimed(id, token, s.jobs[id].attempts + 1)])
      else s
    case Finishing(claim, ok, now) =>
      if claim in s.claims then s.(jobs := Finish(s.jobs, claim, ok, now)) else s
  }

  function Run(s: State, steps: seq<Step>): State
    decreases |steps|
  {
    if steps == [] then s else Run(Apply(s, steps[0]), steps[1..])
  }

  const START := State(map[], [])

  // ---------- invariant ----------

  function CountOf(claims: seq<Claimed>, id: Id): nat {
    if claims == [] then 0
    else CountOf(claims[..|claims| - 1], id) + if claims[|claims| - 1].job == id then 1 else 0
  }

  predicate JobOk(job: Job) {
    && (job.status == Running <==> job.lease.Some?)
    && (job.status == Pending ==> job.attempts < MAX_ATTEMPTS)
    && (job.status == Failed ==> job.attempts >= MAX_ATTEMPTS)
  }

  /** The row counts its claims, and its lease is that of the newest one. */
  predicate RowAgrees(job: Job, id: Id, claims: seq<Claimed>) {
    && job.attempts == CountOf(claims, id)
    && (job.lease.Some? ==> Claimed(id, job.lease.value.token, job.attempts) in claims)
  }

  /** Each claim was the next of its job, under a token not used before. */
  predicate ClaimsOk(claims: seq<Claimed>) {
    claims == [] ||
    (var front, last := claims[..|claims| - 1], claims[|claims| - 1];
     && ClaimsOk(front)
     && last.attempt == CountOf(front, last.job) + 1
     && forall c :: c in front ==> c.token != last.token)
  }

  ghost predicate RowsOk(jobs: Table, claims: seq<Claimed>) {
    && (forall id :: id in jobs ==> JobOk(jobs[id]) && RowAgrees(jobs[id], id, claims))
    && (forall c :: c in claims ==> c.job in jobs)
  }

  ghost predicate Inv(s: State) {
    RowsOk(s.jobs, s.claims) && ClaimsOk(s.claims)
  }

  lemma CountSnoc(claims: seq<Claimed>, c: Claimed, id: Id)
    ensures CountOf(claims + [c], id) == CountOf(claims, id) + if c.job == id then 1 else 0
  {
    assert (claims + [c])[..|claims|] == claims;
  }

  lemma {:induction false} CountNone(claims: seq<Claimed>, id: Id)
    requires forall c :: c in claims ==> c.job != id
    ensures CountOf(claims, id) == 0
    decreases |claims|
  {
    if claims != [] {
      CountNone(claims[..|claims| - 1], id);
    }
  }

  lemma ClaimsSnoc(claims: seq<Claimed>, c: Claimed)
    requires ClaimsOk(claims) && c.attempt == CountOf(claims, c.job) + 1
    requires forall d :: d in claims ==> d.token != c.token
    ensures ClaimsOk(claims + [c])
  {
    assert (claims + [c])[..|claims|] == claims;
  }

  lemma EnqueueKeeps(s: State, step: Step)
    requires Inv(s) && step.Enqueuing?
    ensures Inv(Apply(s, step))
  {
    if step.id !in s.jobs {
      CountNone(s.claims, step.id);
    }
  }

  lemma ClaimedRows(jobs: Table, claims: seq<Claimed>, id: Id, token: Id, now: int)
    requires RowsOk(jobs, claims) && id in jobs && Claimable(jobs[id])
    ensures RowsOk(ClaimRow(jobs, id, token, now), claims + [Claimed(id, token, jobs[id].attempts + 1)])
  {
    var c := Claimed(id, token, jobs[id].attempts + 1);
    var jobs', claims' := ClaimRow(jobs, id, token, now), claims + [c];
    forall i | i in jobs' ensures JobOk(jobs'[i]) && RowAgrees(jobs'[i], i, claims') {
      CountSnoc(claims, c, i);
      assert RowAgrees(jobs[i], i, claims) && JobOk(jobs[i]);
      assert claims'[|claims|] == c;
    }
  }

  lemma ClaimKeeps(s: State, step: Step)
    requires Inv(s) && step.Claiming? && Claims(s, step, step.id)
    ensures Inv(Apply(s, step))
  {
    var c := Claimed(step.id, step.token, s.jobs[step.id].attempts + 1);
    assert RowAgrees(s.jobs[step.id], step.id, s.claims);
    ClaimsSnoc(s.claims, c);
    ClaimedRows(s.jobs, s.claims, step.id, step.token, step.now);
  }

  predicate TokensDiffer(claims: seq<Claimed>) {
    forall c, d :: c in claims && d in claims && c.token == d.token ==> c == d
  }

  lemma {:induction false} TokensUnique(claims: seq<Claimed>)
    requires ClaimsOk(claims)
    ensures TokensDiffer(claims)
    decreases |claims|
  {
    if claims != [] {
      TokensUnique(claims[..|claims| - 1]);
      assert claims == claims[..|claims| - 1] + [claims[|claims| - 1]];
    }
  }

  lemma FinishKeeps(s: State, step: Step)
    requires Inv(s) && step.Finishing? && step.claim in s.claims
    ensures Inv(Apply(s, step))
  {
    var c := step.claim;
    if Holds(s.jobs, c) {
      TokensUnique(s.claims);
      assert RowAgrees(s.jobs[c.job], c.job, s.claims);
    }
  }

  lemma StepKeeps(s: State, step: Step)
    requires Inv(s)
    ensures Inv(Apply(s, step))
  {
    match step
    case Enqueuing(_, _, _, _, _, _) => EnqueueKeeps(s, step);
    case Claiming(id, _, _) => if Claims(s, step, id) { ClaimKeeps(s, step); }
    case Finishing(claim, _, _) => if claim in s.claims { FinishKeeps(s, step); }
  }

  lemma {:induction false} RunKeeps(s: State, steps: seq<Step>)
    requires Inv(s)
    ensures Inv(Run(s, steps))
    decreases |steps|
  {
    if steps != [] {
      StepKeeps(s, steps[0]);
      RunKeeps(Apply(s, steps[0]), steps[1..]);
    }
  }

  lemma StartKeeps()
    ensures Inv(START)
  {
  }

  /** In every reachable state: running means leased, pending means at most four
      attempts so far, failed means at least five, and attempts count claims. */
  lemma ReachableJobs(steps: seq<Step>, id: Id)
    requires id in Run(START, steps).jobs
    ensures var s := Run(START, steps); var job := s.jobs[id];
      && (job.status == Running <==> job.lease.Some?)
      && (job.status == Pending ==> job.attempts <= 4)
      && (job.status == Failed ==> job.attempts >= 5)
      && job.attempts == CountOf(s.claims, id)
  {
    StartKeeps();
    RunKeeps(START, steps);
    assert JobOk(Run(START, steps).jobs[id]);
  }

  // ---------- keys ----------

  ghost predicate KeysDiffer(jobs: Table) {
    forall i, j :: i in jobs && j in jobs && jobs[i].ws == jobs[j].ws && jobs[i].kind == jobs[j].kind && jobs[i].key == jobs[j].key ==> i == j
  }

  lemma KeysNext(s: State, step: Step)
    requires KeysDiffer(s.jobs)
    ensures KeysDiffer(Apply(s, step).jobs)
  {
  }

  lemma {:induction false} KeysStay(s: State, steps: seq<Step>)
    requires KeysDiffer(s.jobs)
    ensures KeysDiffer(Run(s, steps).jobs)
    decreases |steps|
  {
    if steps != [] {
      KeysNext(s, steps[0]);
      KeysStay(Apply(s, steps[0]), steps[1..]);
    }
  }

  /** In every reachable state there is at most one job per workspace, kind and key. */
  lemma OneJobPerKey(steps: seq<Step>, i: Id, j: Id)
    requires i in Run(START, steps).jobs && j in Run(START, steps).jobs
    requires var a, b := Run(START, steps).jobs[i], Run(START, steps).jobs[j]; a.ws == b.ws && a.kind == b.kind && a.key == b.key
    ensures i == j
  {
    KeysStay(START, steps);
  }

  // ---------- attempts ----------

  /** How often the normal handler of a job has been given a claim. */
  function NormalRuns(claims: seq<Claimed>, id: Id): nat {
    if claims == [] then 0
    else
      var last := claims[|claims| - 1];
      NormalRuns(claims[..|claims| - 1], id) + if last.job == id && last.attempt <= MAX_ATTEMPTS then 1 else 0
  }

  lemma {:induction false} NormalRunsAre(claims: seq<Claimed>, id: Id)
    requires ClaimsOk(claims)
    ensures NormalRuns(claims, id) == if CountOf(claims, id) < MAX_ATTEMPTS then CountOf(claims, id) else MAX_ATTEMPTS
    decreases |claims|
  {
    if claims != [] {
      NormalRunsAre(claims[..|claims| - 1], id);
    }
  }

  /** However many workers there are, a job's normal handler runs at most five times. */
  lemma HandlerRunsAtMostFiveTimes(steps: seq<Step>, id: Id)
    ensures NormalRuns(Run(START, steps).claims, id) <= MAX_ATTEMPTS
  {
    StartKeeps();
    RunKeeps(START, steps);
    NormalRunsAre(Run(START, steps).claims, id);
  }

  lemma {:induction false} AttemptCounted(claims: seq<Claimed>, c: Claimed)
    requires ClaimsOk(claims) && c in claims
    ensures c.attempt <= CountOf(claims, c.job)
    decreases |claims|
  {
    if c != claims[|claims| - 1] {
      AttemptCounted(claims[..|claims| - 1], c);
    }
  }

  lemma {:induction false} AttemptsRiseIn(claims: seq<Claimed>, i: nat, j: nat)
    requires ClaimsOk(claims) && i < j < |claims| && claims[i].job == claims[j].job
    ensures claims[i].attempt < claims[j].attempt
    decreases |claims|
  {
    var front := claims[..|claims| - 1];
    if j < |front| {
      AttemptsRiseIn(front, i, j);
    } else {
      assert front[i] == claims[i];
      AttemptCounted(front, claims[i]);
    }
  }

  /** Successive claims of one job carry strictly rising attempt numbers. */
  lemma AttemptsRise(steps: seq<Step>, i: nat, j: nat)
    requires i < j < |Run(START, steps).claims| && Run(START, steps).claims[i].job == Run(START, steps).claims[j].job
    ensures Run(START, steps).claims[i].attempt < Run(START, steps).claims[j].attempt
  {
    StartKeeps();
    RunKeeps(START, steps);
    AttemptsRiseIn(Run(START, steps).claims, i, j);
  }

  // ---------- whose finish counts ----------

  predicate Disturbs(s: State, step: Step, c: Claimed) {
    Claims(s, step, c.job) || (step.Finishing? && step.claim == c)
  }

  lemma HoldsStep(s: State, step: Step, c: Claimed)
    requires TokensDiffer(s.claims) && c in s.claims && c.job in s.jobs
    ensures Holds(Apply(s, step).jobs, c) <==> Holds(s.jobs, c) && !Disturbs(s, step, c)
    ensures c in Apply(s, step).claims
  {
  }

  /** No later claim of the row, and no earlier finish by the same worker. */
  predicate Undisturbed(s: State, steps: seq<Step>, c: Claimed)
    decreases |steps|
  {
    steps == [] || (!Disturbs(s, steps[0], c) && Undisturbed(Apply(s, steps[0]), steps[1..], c))
  }

  lemma {:induction false} HoldsRun(s: State, steps: seq<Step>, c: Claimed)
    requires Inv(s) && c in s.claims
    ensures Holds(Run(s, steps).jobs, c) <==> Holds(s.jobs, c) && Undisturbed(s, steps, c)
    decreases |steps|
  {
    if steps != [] {
      TokensUnique(s.claims);
      HoldsStep(s, steps[0], c);
      StepKeeps(s, steps[0]);
      HoldsRun(Apply(s, steps[0]), steps[1..], c);
    }
  }

  /** Whatever other workers do after a claim, its finish changes the table exactly
      when nobody claimed the row again and this claim was not finished before. */
  lemma FinishIffLatest(s: State, id: Id, token: Id, at: int, steps: seq<Step>, ok: bool, now: int)
    requires Inv(s) && Claims(s, Claiming(id, token, at), id)
    ensures var c := Claimed(id, token, s.jobs[id].attempts + 1);
      var claimed := Apply(s, Claiming(id, token, at)); var s' := Run(claimed, steps);
      && c in claimed.claims
      && (Finish(s'.jobs, c, ok, now) != s'.jobs <==> Undisturbed(claimed, steps, c))
  {
    var c := Claimed(id, token, s.jobs[id].attempts + 1);
    var claimed := Apply(s, Claiming(id, token, at));
    assert claimed.claims[|s.claims|] == c;
    StepKeeps(s, Claiming(id, token, at));
    HoldsRun(claimed, steps, c);
    FinishChanges(Run(claimed, steps).jobs, c, ok, now);
  }

  lemma FinishChanges(jobs: Table, c: Claimed, ok: bool, now: int)
    ensures Finish(jobs, c, ok, now) != jobs <==> Holds(jobs, c)
  {
    if Holds(jobs, c) {
      assert Finish(jobs, c, ok, now)[c.job].status != Running;
    }
  }

  predicate Over(job: Job) {
    job.status == Succeeded || job.status == Failed
  }

  /** Succeeded and failed rows never change again. */
  lemma {:induction false} OverIsFinal(s: State, steps: seq<Step>, id: Id)
    requires id in s.jobs && Over(s.jobs[id])
    ensures id in Run(s, steps).jobs && Run(s, steps).jobs[id] == s.jobs[id]
    decreases |steps|
  {
    if steps != [] {
      OverIsFinal(Apply(s, steps[0]), steps[1..], id);
    }
  }

  // ---------- draining ----------

  /** One turn of the Process loop whose handler returns before the lease expires. */
  datatype Turn = Turn(id: Id, token: Id, ok: bool, claimedAt: int, finishedAt: int)

  predicate CanTurn(s: State, t: Turn) {
    t.id in s.jobs && s.jobs[t.id].status == Pending && s.jobs[t.id].availableAt <= t.claimedAt && TokenFresh(s, t.token)
  }

  function FinishTurn(claimed: State, attempt: nat, t: Turn): State {
    Apply(claimed, Finishing(Claimed(t.id, t.token, attempt), t.ok, t.finishedAt))
  }

  function Turned(s: State, t: Turn): State
    requires t.id in s.jobs
  {
    FinishTurn(Apply(s, Claiming(t.id, t.token, t.claimedAt)), s.jobs[t.id].attempts + 1, t)
  }

  predicate CanTurnAll(s: State, turns: seq<Turn>)
    decreases |turns|
  {
    turns == [] || (CanTurn(s, turns[0]) && CanTurnAll(Turned(s, turns[0]), turns[1..]))
  }

  function TurnedAll(s: State, turns: seq<Turn>): State
    requires CanTurnAll(s, turns)
    decreases |turns|
  {
    if turns == [] then s else TurnedAll(Turned(s, turns[0]), turns[1..])
  }

  function Owed(job: Job): nat {
    if job.status == Pending && job.attempts < MAX_ATTEMPTS then MAX_ATTEMPTS - job.attempts else 0
  }

  function OwedAll(jobs: Table): map<Id, nat> {
    map id | id in jobs :: Owed(jobs[id])
  }

  predicate Idle(jobs: Table) {
    forall id | id in jobs :: jobs[id].status != Running
  }

  function TurnedRow(job: Job, t: Turn): Job {
    FinishedRow(job.(status := Running, attempts := job.attempts + 1, lease := None), job.attempts + 1, t.ok, t.finishedAt)
  }

  lemma TurnEffect(s: State, t: Turn)
    requires CanTurn(s, t)
    ensures Turned(s, t).jobs == s.jobs[t.id := TurnedRow(s.jobs[t.id], t)]
  {
    var c := Claimed(t.id, t.token, s.jobs[t.id].attempts + 1);
    assert Apply(s, Claiming(t.id, t.token, t.claimedAt)).claims[|s.claims|] == c;
  }

  lemma TurnKeeps(s: State, claimed: State, t: Turn)
    requires Inv(claimed) && t.id in s.jobs && claimed == Apply(s, Claiming(t.id, t.token, t.claimedAt))
    ensures Inv(Turned(s, t))
  {
    StepKeeps(claimed, Finishing(Claimed(t.id, t.token, s.jobs[t.id].attempts + 1), t.ok, t.finishedAt));
    assert Turned(s, t) == FinishTurn(claimed, s.jobs[t.id].attempts + 1, t);
  }

  lemma TurnOwes(job: Job, t: Turn)
    requires JobOk(job) && job.status == Pending
    ensures TurnedRow(job, t).status != Running && Owed(TurnedRow(job, t)) < Owed(job)
  {
  }

  lemma TurnPays(s: State, t: Turn)
    requires Idle(s.jobs) && CanTurn(s, t) && JobOk(s.jobs[t.id])
    ensures Idle(Turned(s, t).jobs) && Total(OwedAll(Turned(s, t).jobs)) < Total(OwedAll(s.jobs))
  {
    var job' := TurnedRow(s.jobs[t.id], t);
    TurnEffect(s, t);
    TurnOwes(s.jobs[t.id], t);
    assert OwedAll(s.jobs[t.id := job']) == OwedAll(s.jobs)[t.id := Owed(job')];
    TotalUpdate(OwedAll(s.jobs), t.id, Owed(job'));
  }

  lemma {:induction false} TurnsPay(s: State, turns: seq<Turn>)
    requires Inv(s) && Idle(s.jobs) && CanTurnAll(s, turns)
    ensures Idle(TurnedAll(s, turns).jobs) && Inv(TurnedAll(s, turns))
    ensures |turns| + Total(OwedAll(TurnedAll(s, turns).jobs)) <= Total(OwedAll(s.jobs))
    decreases |turns|
  {
    if turns != [] {
      assert JobOk(s.jobs[turns[0].id]);
      TurnPays(s, turns[0]);
      StepKeeps(s, Claiming(turns[0].id, turns[0].token, turns[0].claimedAt));
      TurnKeeps(s, Apply(s, Claiming(turns[0].id, turns[0].token, turns[0].claimedAt)), turns[0]);
      TurnsPay(Turned(s, turns[0]), turns[1..]);
    }
  }

  lemma OwedAtMost(jobs: Table)
    ensures Total(OwedAll(jobs)) <= 5 * |jobs|
  {
    assert OwedAll(jobs).Keys == jobs.Keys;
    assert |OwedAll(jobs)| == |OwedAll(jobs).Keys| == |jobs.Keys|;
    TotalAtMost(OwedAll(jobs), 5);
  }

  /** With handlers that return in time, n fresh jobs take at most 5n turns, and
      once no turn is possible although every delay has passed, all jobs are over. */
  lemma Drains(s: State, turns: seq<Turn>, token: Id, late: int)
    requires Inv(s) && CanTurnAll(s, turns)
    requires forall id :: id in s.jobs ==> s.jobs[id].status == Pending && s.jobs[id].attempts == 0
    ensures |turns| <= 5 * |s.jobs|
    ensures var s' := TurnedAll(s, turns);
      (forall id :: id in s'.jobs ==> s'.jobs[id].availableAt <= late) && TokenFresh(s', token) &&
      (forall t: Turn :: t.token == token && t.claimedAt == late ==> !CanTurn(s', t)) ==>
        forall id :: id in s'.jobs ==> Over(s'.jobs[id])
  {
    TurnsPay(s, turns);
    OwedAtMost(s.jobs);
    var s' := TurnedAll(s, turns);
    forall id | id in s'.jobs && !Over(s'.jobs[id]) && s'.jobs[id].availableAt <= late && TokenFresh(s', token)
      ensures exists t: Turn :: t.token == token && t.claimedAt == late && CanTurn(s', t)
    {
      assert CanTurn(s', Turn(id, token, true, late, late));
    }
  }

  /** The delays that the turns schedule for one job. */
  function Backoff(s: State, turns: seq<Turn>, id: Id): int
    requires CanTurnAll(s, turns)
    decreases |turns|
  {
    if turns == [] then 0
    else
      var t := turns[0];
      Backoff(Turned(s, t), turns[1..], id) +
      if t.id == id && !t.ok && s.jobs[id].attempts + 1 < MAX_ATTEMPTS then RetryDelay(s.jobs[id].attempts + 1) else 0
  }

  function BackoffLeft(job: Job): int {
    if job.status == Pending then SECOND * (16 - Power(job.attempts)) else 0
  }

  lemma TurnBackoff(job: Job, t: Turn)
    requires JobOk(job) && job.status == Pending
    ensures BackoffLeft(TurnedRow(job, t)) + (if !t.ok && job.attempts + 1 < MAX_ATTEMPTS then RetryDelay(job.attempts + 1) else 0)
      <= BackoffLeft(job)
  {
    PowersOfTwo();
  }

  lemma {:induction false} BackoffFrom(s: State, turns: seq<Turn>, id: Id)
    requires Inv(s) && CanTurnAll(s, turns) && id in s.jobs && s.jobs[id].status != Running
    ensures Backoff(s, turns, id) <= BackoffLeft(s.jobs[id])
    decreases |turns|
  {
    assert JobOk(s.jobs[id]);
    if turns == [] {
      PowersOfTwo();
    } else {
      TurnEffect(s, turns[0]);
      StepKeeps(s, Claiming(turns[0].id, turns[0].token, turns[0].claimedAt));
      TurnKeeps(s, Apply(s, Claiming(turns[0].id, turns[0].token, turns[0].claimedAt)), turns[0]);
      BackoffFrom(Turned(s, turns[0]), turns[1..], id);
      if turns[0].id == id {
        TurnBackoff(s.jobs[id], turns[0]);
      }
    }
  }

  lemma PowersOfTwo()
    ensures Power(0) == 1 && Power(1) == 2 && Power(2) == 4 && Power(3) == 8 && Power(4) == 16
  {
  }

  lemma FailureBacksOff(job: Job, t: Turn)
    requires JobOk(job) && job.status == Pending && !t.ok
    ensures BackoffLeft(TurnedRow(job, t)) + (if job.attempts + 1 < MAX_ATTEMPTS then RetryDelay(job.attempts + 1) else 0) == BackoffLeft(job)
  {
    PowersOfTwo();
  }

  lemma {:induction false} OverStays(s: State, turns: seq<Turn>, id: Id)
    requires CanTurnAll(s, turns) && id in s.jobs && Over(s.jobs[id])
    ensures id in TurnedAll(s, turns).jobs && TurnedAll(s, turns).jobs[id] == s.jobs[id]
    decreases |turns|
  {
    if turns != [] {
      TurnEffect(s, turns[0]);
      OverStays(Turned(s, turns[0]), turns[1..], id);
    }
  }

  lemma TurnStep(s: State, t: Turn, id: Id)
    requires Inv(s) && CanTurn(s, t) && id in s.jobs
    ensures JobOk(s.jobs[id]) && Inv(Turned(s, t)) && id in Turned(s, t).jobs
    ensures Turned(s, t).jobs[id] == if t.id == id then TurnedRow(s.jobs[id], t) else s.jobs[id]
    ensures t.id == id ==> s.jobs[id].status == Pending && Turned(s, t).jobs[id].status != Running
  {
    assert JobOk(s.jobs[id]);
    TurnEffect(s, t);
    StepKeeps(s, Claiming(t.id, t.token, t.claimedAt));
    TurnKeeps(s, Apply(s, Claiming(t.id, t.token, t.claimedAt)), t);
  }

  lemma {:induction false} BackoffOfFailed(s: State, turns: seq<Turn>, id: Id)
    requires Inv(s) && CanTurnAll(s, turns) && id in s.jobs && s.jobs[id].status != Running
    requires id in TurnedAll(s, turns).jobs && TurnedAll(s, turns).jobs[id].status == Failed
    ensures Backoff(s, turns, id) == BackoffLeft(s.jobs[id])
    decreases |turns|
  {
    if turns != [] {
      var t := turns[0];
      TurnStep(s, t, id);
      if t.id == id {
        if t.ok {
          OverStays(Turned(s, t), turns[1..], id);
        } else {
          FailureBacksOff(s.jobs[id], t);
        }
      }
      BackoffOfFailed(Turned(s, t), turns[1..], id);
    }
  }

  /** A fresh job waits at most 1 + 2 + 4 + 8 seconds for its retries, and exactly that
      if it ends up failed. */
  lemma BackoffAtMostFifteenSeconds(steps: seq<Step>, turns: seq<Turn>, id: Id)
    requires CanTurnAll(Run(START, steps), turns) && id in Run(START, steps).jobs
    requires Run(START, steps).jobs[id].status == Pending && Run(START, steps).jobs[id].attempts == 0
    ensures Backoff(Run(START, steps), turns, id) <= 15 * SECOND
    ensures var jobs := TurnedAll(Run(START, steps), turns).jobs;
      id in jobs && jobs[id].status == Failed ==> Backoff(Run(START, steps), turns, id) == 15 * SECOND
  {
    StartKeeps();
    RunKeeps(START, steps);
    BackoffFrom(Run(START, steps), turns, id);
    PowersOfTwo();
    var jobs := TurnedAll(Run(START, steps), turns).jobs;
    if id in jobs && jobs[id].status == Failed {
      BackoffOfFailed(Run(START, steps), turns, id);
    }
  }

  // ---------- the queue itself ----------

  /** What the surroundings contribute to one turn of the loop: clock readings, a
      random token, the row the subquery would pick, and what the handlers return. */
  datatype Round = Round(claimedAt: int, finishedAt: int, token: Id, handlerOk: bool, exhaustedOk: bool)

  /** Turn `i` of a trace claims a row and then finishes that claim, and reports success
      exactly if the kind has a handler, the attempt was one of the first five, and the
      handler succeeded. */
  predicate TurnsAs(trace: seq<Step>, i: nat, r: Round, jobs: Table, handlers: set<Id>) {
    2 * i + 1 < |trace| &&
    (var claim, finish := trace[2 * i], trace[2 * i + 1];
     && claim.Claiming? && claim.token == r.token && claim.now == r.claimedAt && claim.id in jobs
     && finish.Finishing? && finish.claim.job == claim.id && finish.claim.token == r.token && finish.now == r.finishedAt
     && (finish.ok <==> jobs[claim.id].kind in handlers && finish.claim.attempt <= 5 && r.handlerOk))
  }

  predicate TurnsSoFar(trace: seq<Step>, n: nat, round: nat -> Round, jobs: Table, handlers: set<Id>) {
    |trace| == 2 * n && forall i :: 0 <= i < n ==> TurnsAs(trace, i, round(i), jobs, handlers)
  }

  lemma OneMoreTurn(trace: seq<Step>, n: nat, round: nat -> Round, jobs: Table, handlers: set<Id>, claim: Step, finish: Step)
    requires TurnsSoFar(trace, n, round, jobs, handlers) && TurnsAs([claim, finish], 0, round(n), jobs, handlers)
    ensures TurnsSoFar(trace + [claim, finish], n + 1, round, jobs, handlers)
  {
    var more := trace + [claim, finish];
    forall i | 0 <= i < n + 1 ensures TurnsAs(more, i, round(i), jobs, handlers) {
      if i < n {
        assert TurnsAs(trace, i, round(i), jobs, handlers);
      } else {
        assert more[2 * n] == claim && more[2 * n + 1] == finish;
      }
    }
  }

  /** The claims that the turns of a trace have given to normal handlers, in order. */
  function HandledIn(trace: seq<Step>, n: nat, jobs: Table, handlers: set<Id>): seq<Claimed> {
    if n == 0 || 2 * n > |trace| || !trace[2 * n - 1].Finishing? then []
    else
      var c := trace[2 * n - 1].claim;
      HandledIn(trace, n - 1, jobs, handlers) + if c.job in jobs && jobs[c.job].kind in handlers && c.attempt <= 5 then [c] else []
  }

  lemma {:induction false} HandledBefore(trace: seq<Step>, more: seq<Step>, n: nat, jobs: Table, handlers: set<Id>)
    requires 2 * n <= |trace|
    ensures HandledIn(trace + more, n, jobs, handlers) == HandledIn(trace, n, jobs, handlers)
  {
    if n > 0 {
      assert (trace + more)[2 * n - 1] == trace[2 * n - 1];
      HandledBefore(trace, more, n - 1, jobs, handlers);
    }
  }

  /** A timestamp that the engine says has been reached makes a waiting row due, and takes
      the lease from a running one. */
  predicate IsDue(jobs: Table, reached: (int, int) -> bool, now: int, i: Id) {
    i in jobs &&
    (|| (jobs[i].status == Pending && reached(jobs[i].availableAt, now))
     || (jobs[i].status == Running && jobs[i].lease.Some? && reached(jobs[i].lease.value.until, now)))
  }

  /** The subquery of a claim: of the due rows, the first in the engine's order. */
  method FirstDue(jobs: Table, reached: (int, int) -> bool, rank: (Id, Job) -> int, now: int) returns (first: Option<Id>)
    ensures first.None? ==> forall i :: i in jobs ==> !IsDue(jobs, reached, now, i)
    ensures first.Some? ==> IsDue(jobs, reached, now, first.value)
    ensures first.Some? ==> forall i :: IsDue(jobs, reached, now, i) ==> rank(first.value, jobs[first.value]) <= rank(i, jobs[i])
  {
    var dues := map i | i in jobs && IsDue(jobs, reached, now, i) :: rank(i, jobs[i]);
    assert forall i :: IsDue(jobs, reached, now, i) <==> i in dues;
    if dues == map[] {
      return None;
    }
    LeastRank(dues);
    ghost var least :| Least(dues, least);
    assert least in dues && forall j :: j in dues ==> dues[least] <= dues[j];
    var i :| i in dues && forall j :: j in dues ==> dues[i] <= dues[j];
    first := Some(i);
  }

  ghost predicate Least(ranks: map<Id, int>, i: Id) {
    i in ranks && forall j :: j in ranks ==> ranks[i] <= ranks[j]
  }

  lemma LeastRank(ranks: map<Id, int>)
    requires ranks != map[]
    ensures exists i :: Least(ranks, i)
    decreases |ranks|
  {
    var k :| k in ranks;
    var rest := ranks - {k};
    if rest == map[] {
      assert forall j :: j in ranks ==> j == k || j in rest;
      assert Least(ranks, k);
    } else {
      LeastRank(rest);
      var m :| Least(rest, m);
      LeastOfBoth(ranks, k, m);
    }
  }

  lemma LeastOfBoth(ranks: map<Id, int>, k: Id, m: Id)
    requires k in ranks && Least(ranks - {k}, m)
    ensures Least(ranks, if ranks[k] <= ranks[m] then k else m)
  {
    forall j | j in ranks ensures ranks[if ranks[k] <= ranks[m] then k else m] <= ranks[j] {
      assert j != k ==> j in ranks - {k};
    }
  }

  class Queue {
    var jobs: Table
    const handlers: set<Id>
    const exhausted: set<Id>
    /** How the engine compares the stored timestamps with the clock. */
    const reached: (int, int) -> bool
    /** Where it puts a row in the order of availability, creation and id. */
    const rank: (Id, Job) -> int

    constructor (handlers: set<Id>, exhausted: set<Id>, reached: (int, int) -> bool, rank: (Id, Job) -> int)
      ensures jobs == map[] && this.handlers == handlers && this.exhausted == exhausted && this.reached == reached && this.rank == rank
    {
      jobs, this.handlers, this.exhausted, this.reached, this.rank := map[], handlers, exhausted, reached, rank;
    }

    method EnqueueTx(id: Id, ws: Id, kind: Id, key: Id, payload: Option<Id>, at: int) returns (ok: bool)
      modifies this
      ensures ok == (id !in old(jobs))
      ensures jobs == if ok then Enqueue(old(jobs), id, ws, kind, key, payload, at) else old(jobs)
      ensures ok ==> (jobs == if exists i | i in old(jobs) :: old(jobs)[i].ws == ws && old(jobs)[i].kind == kind && old(jobs)[i].key == key
                              then old(jobs) else old(jobs)[id := Job(ws, kind, key, payload, Pending, 0, at, None, at)])
    {
      if id in jobs {
        return false;
      }
      if !KeyTaken(jobs, ws, kind, key) {
        jobs := jobs[id := FreshJob(ws, kind, key, payload, at)];
      }
      ok := true;
    }

    /** Takes the first due row if there is one. */
    method Claim(token: Id, now: int) returns (claimed: Option<Claimed>)
      modifies this
      ensures claimed.None? ==> jobs == old(jobs) && forall i :: i in jobs ==> !IsDue(jobs, reached, now, i)
      ensures claimed.Some? ==>
        var c := claimed.value;
        && IsDue(old(jobs), reached, now, c.job)
        && c == Claimed(c.job, token, old(jobs)[c.job].attempts + 1)
        && jobs == ClaimRow(old(jobs), c.job, token, now)
        && jobs == old(jobs)[c.job := old(jobs)[c.job].(status := Running, attempts := c.attempt, lease := Some(Lease(token, now + 60 * SECOND)))]
        && forall i :: IsDue(old(jobs), reached, now, i) ==> rank(c.job, old(jobs)[c.job]) <= rank(i, old(jobs)[i])
    {
      var first := FirstDue(jobs, reached, rank, now);
      if first.Some? {
        var i := first.value;
        jobs := jobs[i := jobs[i].(status := Running, attempts := jobs[i].attempts + 1, lease := Some(Lease(token, now + LEASE)))];
        claimed := Some(Claimed(i, token, jobs[i].attempts));
      } else {
        claimed := None;
      }
    }

    method FinishClaim(c: Claimed, ok: bool, now: int)
      modifies this
      ensures jobs == Finish(old(jobs), c, ok, now)
      ensures Holds(old(jobs), c) ==>
        && c.job in jobs && jobs[c.job].lease == None
        && jobs[c.job].status == (if ok then Succeeded else if c.attempt >= 5 then Failed else Pending)
        && jobs[c.job].availableAt ==
             (if ok || c.attempt >= 5 then old(jobs)[c.job].availableAt else now + SECOND * Power(if c.attempt < 1 then 0 else c.attempt - 1))
    {
      var status, next := Succeeded, None;
      if !ok {
        status, next := Pending, Some(now + RetryDelay(c.attempt));
        if c.attempt >= MAX_ATTEMPTS {
          status, next := Failed, None;
        }
      }
      if c.job in jobs && jobs[c.job].status == Running && jobs[c.job].lease.Some? && jobs[c.job].lease.value.token == c.token {
        var row := jobs[c.job];
        jobs := jobs[c.job := row.(status := status, lease := None,
          availableAt := if next.Some? then next.value else row.availableAt)];
      }
    }

    /** One turn of the worker loop: nothing is due, or a claim whose exhausted handler
        refuses is left as it is, or the claim is finished. */
    method TakeTurn(r: Round) returns (turn: Taken)
      modifies this
      ensures turn.NothingDue? ==> jobs == old(jobs) && forall i :: i in jobs ==> !IsDue(jobs, reached, r.claimedAt, i)
      ensures !turn.NothingDue? ==>
        var c, was := turn.claim, old(jobs);
        && IsDue(was, reached, r.claimedAt, c.job) && c == Claimed(c.job, r.token, was[c.job].attempts + 1)
        && (var claimed, kind := ClaimRow(was, c.job, r.token, r.claimedAt), was[c.job].kind;
            if turn.Stuck? then
              kind in handlers && kind in exhausted && c.attempt > 5 && !r.exhaustedOk && jobs == claimed
            else
              && (turn.ran <==> kind in handlers && c.attempt <= 5) && (turn.ok <==> turn.ran && r.handlerOk)
              && (kind in handlers && c.attempt > 5 && kind in exhausted ==> r.exhaustedOk)
              && jobs == Finish(claimed, c, turn.ok, r.finishedAt))
    {
      var claimed := Claim(r.token, r.claimedAt);
      if claimed.None? {
        return NothingDue;
      }
      var c := claimed.value;
      var kind := jobs[c.job].kind;
      var ran, ok := false, false;
      if kind !in handlers {
      } else if c.attempt > MAX_ATTEMPTS {
        if kind in exhausted && !r.exhaustedOk {
          return Stuck(c);
        }
      } else {
        ran := true;
        ok := r.handlerOk;
      }
      FinishClaim(c, ok, r.finishedAt);
      turn := Done(c, ran, ok);
    }

    /** The worker loop: every change it makes is a run of the state machine; it ends
        early only if nothing is due or an exhausted handler refuses. */
    method Process(limit: nat, round: nat -> Round, ghost claims: seq<Claimed>)
      returns (processed: nat, ghost trace: seq<Step>, handled: seq<Claimed>)
      requires limit >= 1
      requires forall i, j :: 0 <= i < j ==> round(i).token != round(j).token
      requires forall c, i :: c in claims && 0 <= i ==> c.token != round(i).token
      modifies this
      ensures processed <= limit && 2 * processed <= |trace| <= 2 * processed + 1
      ensures forall i :: 0 <= i < processed ==> TurnsAs(trace, i, round(i), old(jobs), handlers)
      ensures Run(State(old(jobs), claims), trace).jobs == jobs
      ensures handled == HandledIn(trace, processed, old(jobs), handlers)
      ensures forall c :: c in handled ==> c in Run(State(old(jobs), claims), trace).claims
      ensures processed < limit && |trace| == 2 * processed ==> forall i :: i in jobs ==>
        && !(jobs[i].status == Pending && reached(jobs[i].availableAt, round(processed).claimedAt))
        && !(jobs[i].status == Running && jobs[i].lease.Some? && reached(jobs[i].lease.value.until, round(processed).claimedAt))
      ensures |trace| == 2 * processed + 1 ==>
        && processed < limit && !round(processed).exhaustedOk
        && (var last := trace[2 * processed];
            last.Claiming? && last.id in old(jobs) && old(jobs)[last.id].kind in handlers * exhausted && last.id in jobs && jobs[last.id].attempts > 5)
    {
      processed, trace, handled := 0, [], [];
      ghost var start, s := State(jobs, claims), State(jobs, claims);
      while processed < limit
        invariant processed <= limit && s.jobs == jobs && start == State(old(jobs), claims)
        invariant Looping(start, trace, processed, round, handlers, handled, s)
      {
        ghost var r, before := round(processed), jobs;
        var turn := TakeTurn(round(processed));
        if turn.NothingDue? {
          return;
        }
        var c := turn.claim;
        ghost var claim := Claiming(c.job, r.token, r.claimedAt);
        if turn.Stuck? {
          StuckTurn(start, trace, processed, round, handlers, handled, s, c);
          trace := trace + [claim];
          return;
        }
        TurnDone(start, trace, processed, round, handlers, handled, s, c, turn.ran, turn.ok);
        trace := trace + [claim, Finishing(c, turn.ok, r.finishedAt)];
        s := State(jobs, s.claims + [c]);
        if turn.ran {
          handled := handled + [c];
        }
        processed := processed + 1;
      }
    }
  }

  /** Where the loop stands after `n` turns. */
  ghost predicate Looping(start: State, trace: seq<Step>, n: nat, round: nat -> Round, handlers: set<Id>, handled: seq<Claimed>, s: State) {
    && TurnsSoFar(trace, n, round, start.jobs, handlers)
    && s == Run(start, trace) && SameKinds(start.jobs, s.jobs)
    && (forall c, i :: c in s.claims && n <= i ==> c.token != round(i).token)
    && handled == HandledIn(trace, n, start.jobs, handlers)
    && forall c :: c in handled ==> c in s.claims
  }

  predicate Takes(s: State, r: Round, c: Claimed) {
    c.job in s.jobs && Claimable(s.jobs[c.job]) && c == Claimed(c.job, r.token, s.jobs[c.job].attempts + 1)
  }

  lemma StuckTurn(
    start: State, trace: seq<Step>, n: nat, round: nat -> Round, handlers: set<Id>, handled: seq<Claimed>, s: State, c: Claimed)
    requires Looping(start, trace, n, round, handlers, handled, s) && Takes(s, round(n), c)
    ensures var r := round(n); var more := trace + [Claiming(c.job, r.token, r.claimedAt)];
      && Run(start, more) == State(ClaimRow(s.jobs, c.job, r.token, r.claimedAt), s.claims + [c])
      && more[..2 * n] == trace && handled == HandledIn(more, n, start.jobs, handlers)
      && forall i :: 0 <= i < n ==> TurnsAs(more, i, round(i), start.jobs, handlers)
  {
    var claim := Claiming(c.job, round(n).token, round(n).claimedAt);
    ClaimApplied(s, claim);
    RunSnoc(start, trace, claim);
    HandledBefore(trace, [claim], n, start.jobs, handlers);
    forall i | 0 <= i < n ensures TurnsAs(trace + [claim], i, round(i), start.jobs, handlers) {
      assert TurnsAs(trace, i, round(i), start.jobs, handlers);
    }
  }

  lemma TurnDone(
    start: State, trace: seq<Step>, n: nat, round: nat -> Round, handlers: set<Id>, handled: seq<Claimed>, s: State, c: Claimed, ran: bool, ok: bool)
    requires Looping(start, trace, n, round, handlers, handled, s) && Takes(s, round(n), c)
    requires forall i, j :: 0 <= i < j ==> round(i).token != round(j).token
    requires ran <==> s.jobs[c.job].kind in handlers && c.attempt <= 5
    requires ok <==> ran && round(n).handlerOk
    ensures var r := round(n);
      Looping(start, trace + [Claiming(c.job, r.token, r.claimedAt), Finishing(c, ok, r.finishedAt)], n + 1, round, handlers,
        if ran then handled + [c] else handled,
        State(Finish(ClaimRow(s.jobs, c.job, r.token, r.claimedAt), c, ok, r.finishedAt), s.claims + [c]))
  {
    var r := round(n);
    var claim, finish := Claiming(c.job, r.token, r.claimedAt), Finishing(c, ok, r.finishedAt);
    ClaimApplied(s, claim);
    RunTurn(start, trace, claim, finish);
    OneMoreTurn(trace, n, round, start.jobs, handlers, claim, finish);
    HandledOneMore(trace, n, start.jobs, handlers, claim, finish);
  }

  lemma HandledOneMore(trace: seq<Step>, n: nat, jobs: Table, handlers: set<Id>, claim: Step, finish: Step)
    requires |trace| == 2 * n && finish.Finishing?
    ensures var c := finish.claim;
      HandledIn(trace + [claim, finish], n + 1, jobs, handlers) == HandledIn(trace, n, jobs, handlers)
        + if c.job in jobs && jobs[c.job].kind in handlers && c.attempt <= 5 then [c] else []
  {
    HandledBefore(trace, [claim, finish], n, jobs, handlers);
    assert (trace + [claim, finish])[2 * n + 1] == finish;
  }

  /** What one turn of the loop comes to. */
  datatype Taken = NothingDue | Stuck(claim: Claimed) | Done(claim: Claimed, ran: bool, ok: bool)

  ghost predicate SameKinds(before: Table, after: Table) {
    forall i :: i in after ==> i in before && after[i].kind == before[i].kind
  }

  lemma ClaimApplied(s: State, step: Step)
    requires step.Claiming? && Claims(s, step, step.id)
    ensures var c := Claimed(step.id, step.token, s.jobs[step.id].attempts + 1);
      Apply(s, step) == State(ClaimRow(s.jobs, step.id, step.token, step.now), s.claims + [c]) && c in Apply(s, step).claims
  {
    assert (s.claims + [Claimed(step.id, step.token, s.jobs[step.id].attempts + 1)])[|s.claims|].job == step.id;
  }

  lemma RunTurn(s: State, steps: seq<Step>, claim: Step, finish: Step)
    ensures Run(s, steps + [claim, finish]) == Apply(Apply(Run(s, steps), claim), finish)
  {
    RunSnoc(s, steps, claim);
    RunSnoc(s, steps + [claim], finish);
    assert steps + [claim] + [finish] == steps + [claim, finish];
  }

  lemma {:induction false} RunSnoc(s: State, steps: seq<Step>, step: Step)
    ensures Run(s, steps + [step]) == Apply(Run(s, steps), step)
    decreases |steps|
  {
    if steps == [] {
      assert steps + [step] == [step] && [step][1..] == [];
      assert Run(Apply(s, step), []) == Apply(s, step);
    } else {
      assert (steps + [step])[1..] == steps[1..] + [step];
      RunSnoc(Apply(s, steps[0]), steps[1..], step);
    }
  }
}
