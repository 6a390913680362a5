/**
 Any number of workers and admin calls interleaved over the `gateways` table. Each SQL statement or
 transaction is one step; a worker holds the job it claimed for as long as it likes and may write late.
 */
module GatewaySystem {
  import opened Options
  import opened GatewayTable
  import opened GatewayWorker

  /** A claimed job in a worker's memory, when it was claimed, and the priority its handler has reserved so far. */
  datatype Held = Held(job: Job, claimedAt: int, reserved: Option<int>)

  /** `held` also records which tokens have been drawn: entries are never removed. */
  datatype System = System(rows: map<string, Row>, held: map<Token, Held>)

  datatype Step =
    | Insert(id: string, now: int)
    | MarkReady(id: string, port: int, now: int)
    | QueueDeprovisioning(id: string, drain: int, now: int)
    | SetStatus(id: string, status: string)
    | SoftDecommission(id: string)
    | Claim(id: string, token: Token, now: int, timeout: int)
    | Reserve(token: Token)
    | WorkerWrite(token: Token, cloud: Cloud, now: int)

  const INITIAL := System(map[], map[])

  /** UUIDs are fresh and AWS answers are lawful. All workers share one allocator range. */
  predicate Enabled(s: System, step: Step) {
    match step
    case Insert(id, _) => id !in s.rows
    case MarkReady(id, _, _) => id in s.rows
    case QueueDeprovisioning(id, _, _) => id in s.rows
    case SetStatus(id, _) => id in s.rows
    case SoftDecommission(id) => id in s.rows
    case Claim(id, token, now, timeout) => id in s.rows && token !in s.held && Eligible(s.rows[id], now, timeout)
    case Reserve(token) => token in s.held && s.held[token].job.stage == CreatingListenerRule
    case WorkerWrite(token, cloud, _) => token in s.held && Lawful(cloud)
  }

  function Apply(s: System, step: Step, low: int, high: int): System
    requires Enabled(s, step)
  {
    match step
    case Insert(id, now) => s.(rows := s.rows[id := Inserted(now)])
    case MarkReady(id, port, now) => s.(rows := s.rows[id := ContainerMarkedReady(s.rows[id], port, now)])
    case QueueDeprovisioning(id, drain, now) =>
      s.(rows := s.rows[id := DeprovisioningQueued(s.rows[id], drain, now)])
    case SetStatus(id, status) => s.(rows := s.rows[id := StatusUpdated(s.rows[id], status)])
    case SoftDecommission(id) => s.(rows := s.rows[id := SoftDeleted(s.rows[id])])
    case Claim(id, token, now, _) =>
      System(s.rows[id := Claimed(s.rows[id], token, now)],
             s.held[token := Held(JobOf(id, s.rows[id], token), now, None)])
    case Reserve(token) =>
      var h := s.held[token];
      var answer := ReservationFor(s.rows, h.job.externalId, token, low, high);
      System(AfterReservation(s.rows, h.job.externalId, token, low, high),
             if answer.Reserved? then s.held[token := h.(reserved := Some(answer.priority))] else s.held)
    case WorkerWrite(token, cloud, now) =>
      var h := s.held[token];
      match Decide(h.job, h.reserved, cloud, now)
      case None => s
      case Some(w) => s.(rows := ExecuteOn(s.rows, h.job.externalId, token, w, now))
  }

  /** The Provision handler's order: the container-ready write is the first event on its row. */
  predicate InOrder(s: System, step: Step) {
    step.MarkReady? && step.id in s.rows ==> s.rows[step.id].stage == NotStarted
  }

  ghost predicate Run(s: System, steps: seq<Step>, low: int, high: int, s': System)
    decreases |steps|
  {
    if steps == [] then s == s'
    else Enabled(s, steps[0]) && InOrder(s, steps[0]) && Run(Apply(s, steps[0], low, high), steps[1..], low, high, s')
  }

  // ---------------------------------------------------------------- the invariant

  predicate NonEmpty(s: Option<string>) {
    s.Some? && s.value != ""
  }

  predicate Port(r: Row) {
    r.hostPort.Some? && ValidPort(r.hostPort.value)
  }

  /** What each stage needs to have been recorded before it. */
  predicate StageData(r: Row) {
    match r.stage
    case ContainerReady => Port(r)
    case RegisteringTarget | CreatingListenerRule => Port(r) && NonEmpty(r.targetGroup)
    case WaitingForTargetHealth | Completed =>
      Port(r) && NonEmpty(r.targetGroup) && NonEmpty(r.ruleArn) && r.priority.Some?
    case CreatingTargetGroup => false
    case Deprovisioned => r.deleted
    case _ => true
  }

  predicate TearingDown(stage: Stage) {
    stage.Deprovisioning? || stage.Failed? || stage.Deprovisioned?
  }

  predicate RowOk(r: Row, low: int, high: int) {
    && StageData(r)
    && (!Claimable(r.stage) ==> r.lease.None?)
    && (r.priority.Some? ==> low <= r.priority.value <= high)
    && (r.drainStartedAt.Some? ==> TearingDown(r.stage))
    && r.retryCount < MAX_RETRIES
  }

  /** Lease fencing: while the token is on the row, the job is still an exact picture of it. */
  predicate Fenced(r: Row, h: Held) {
    r.lease == Some(h.job.token) ==>
      && h.job == JobOf(h.job.externalId, r, h.job.token).(priority := h.job.priority)
      && (h.reserved.Some? ==> r.priority == h.reserved)
      && r.lockedAt == Some(h.claimedAt)
  }

  predicate HeldOk(rows: map<string, Row>, token: Token, h: Held) {
    && h.job.token == token
    && h.job.externalId in rows
    && !TakesBrokenRowBranch(h.job)
    && (h.reserved.Some? ==> h.job.stage == CreatingListenerRule)
    && Fenced(rows[h.job.externalId], h)
  }

  ghost predicate DistinctPriorities(rows: map<string, Row>) {
    forall i, j ::
      i in rows && j in rows && i != j && !rows[i].deleted && !rows[j].deleted && rows[i].priority.Some? ==>
        rows[i].priority != rows[j].priority
  }

  ghost predicate LeaseHolders(s: System) {
    forall id :: id in s.rows && s.rows[id].lease.Some? ==>
      s.rows[id].lease.value in s.held && s.held[s.rows[id].lease.value].job.externalId == id
  }

  ghost predicate Inv(s: System, low: int, high: int) {
    && (forall id :: id in s.rows ==> RowOk(s.rows[id], low, high))
    && (forall t :: t in s.held ==> HeldOk(s.rows, t, s.held[t]))
    && DistinctPriorities(s.rows)
    && LeaseHolders(s)
  }

  // ---------------------------------------------------------------- one step

  /** The columns a claim returns, and the time of the lock. */
  predicate SamePicture(r: Row, q: Row) {
    && r.stage == q.stage
    && r.hostPort == q.hostPort
    && r.targetGroup == q.targetGroup
    && r.ruleArn == q.ruleArn
    && r.priority == q.priority
    && r.retryCount == q.retryCount
    && r.lockedAt == q.lockedAt
  }

  /** A change that one statement may make: a good row again, and either no lease or an unchanged picture. */
  predicate Good(r: Row, r': Row, low: int, high: int) {
    && RowOk(r', low, high)
    && (r'.lease.None? || (r'.lease == r.lease && SamePicture(r, r')))
    && (r'.priority == r.priority || r'.priority.None?)
    && (r.deleted ==> r'.deleted)
  }

  lemma RowChangeKeepsInv(s: System, id: string, r: Row, low: int, high: int)
    requires Inv(s, low, high) && id in s.rows && Good(s.rows[id], r, low, high)
    ensures Inv(s.(rows := s.rows[id := r]), low, high)
  {
    hide RowOk, TakesBrokenRowBranch;
    var s' := s.(rows := s.rows[id := r]);
    forall t | t in s'.held
      ensures HeldOk(s'.rows, t, s'.held[t])
    {
      assert HeldOk(s.rows, t, s.held[t]);
    }
  }

  /** Which write a handler can end with, stage by stage. */
  predicate Fits(job: Job, reserved: Option<int>, w: Write) {
    && Claimable(job.stage)
    && match w
       case TargetGroupCreated(arn) => job.stage == ContainerReady && arn != ""
       case TargetRegistered => job.stage == RegisteringTarget
       case ListenerRuleCreated(arn, _) => job.stage == CreatingListenerRule && arn != "" && reserved.Some?
       case HealthCheckRescheduled(_) => job.stage == WaitingForTargetHealth
       case IngressActive => job.stage == WaitingForTargetHealth
       case RetryScheduled(_) => job.retryCount + 1 < MAX_RETRIES
       case IngressFailed => true
       case GatewayDecommissioned => job.stage == Deprovisioning
  }

  lemma DecisionFits(job: Job, reserved: Option<int>, cloud: Cloud, now: int)
    requires Lawful(cloud)
    ensures Decide(job, reserved, cloud, now).Some? ==> Fits(job, reserved, Decide(job, reserved, cloud, now).value)
  {
  }

  /** A worker's write leaves a good row, although it checks the token and, mostly, not the stage. */
  lemma WriteKeepsRow(r: Row, h: Held, w: Write, now: int, low: int, high: int)
    requires RowOk(r, low, high) && Fenced(r, h) && Fits(h.job, h.reserved, w)
    ensures Good(r, Execute(r, h.job.token, w, now), low, high)
  {
  }

  lemma ExecuteKeepsInv(s: System, token: Token, cloud: Cloud, now: int, low: int, high: int)
    requires Inv(s, low, high) && token in s.held && Lawful(cloud)
    ensures Inv(Apply(s, WorkerWrite(token, cloud, now), low, high), low, high)
  {
    hide Inv, Fits, Decide, Fenced, TakesBrokenRowBranch, Lawful;
    var h := s.held[token];
    var decision := Decide(h.job, h.reserved, cloud, now);
    HeldIsOk(s, token, low, high);
    assert HeldOk(s.rows, token, h);
    if decision.Some? {
      DecisionFits(h.job, h.reserved, cloud, now);
      WriteKeepsInv(s, token, decision.value, now, low, high);
    }
  }

  lemma WriteKeepsInv(s: System, token: Token, w: Write, now: int, low: int, high: int)
    requires Inv(s, low, high) && token in s.held && s.held[token].job.externalId in s.rows
    requires Fits(s.held[token].job, s.held[token].reserved, w)
    ensures Inv(s.(rows := ExecuteOn(s.rows, s.held[token].job.externalId, token, w, now)), low, high)
  {
    HeldIsOk(s, token, low, high);
    var h := s.held[token];
    var r := s.rows[h.job.externalId];
    WriteKeepsRow(r, h, w, now, low, high);
    RowChangeKeepsInv(s, h.job.externalId, Execute(r, token, w, now), low, high);
  }

  lemma ClaimKeepsInv(s: System, id: string, token: Token, now: int, timeout: int, low: int, high: int)
    requires Inv(s, low, high) && Enabled(s, Claim(id, token, now, timeout))
    ensures Inv(Apply(s, Claim(id, token, now, timeout), low, high), low, high)
  {
    var s' := Apply(s, Claim(id, token, now, timeout), low, high);
    assert RowOk(s.rows[id], low, high);
    assert RowOk(s'.rows[id], low, high);
    assert HeldOk(s'.rows, token, s'.held[token]);
    hide RowOk, TakesBrokenRowBranch, Eligible, JobOf;
    forall t | t in s'.held && t != token
      ensures HeldOk(s'.rows, t, s'.held[t])
    {
      assert HeldOk(s.rows, t, s.held[t]);
    }
  }

  lemma ReserveKeepsInv(s: System, token: Token, low: int, high: int)
    requires Inv(s, low, high) && Enabled(s, Reserve(token))
    ensures Inv(Apply(s, Reserve(token), low, high), low, high)
  {
    var s' := Apply(s, Reserve(token), low, high);
    var h := s.held[token];
    var id := h.job.externalId;
    assert HeldOk(s.rows, token, h);
    if ReservationFor(s.rows, id, token, low, high).Reserved? {
      assert RowOk(s.rows[id], low, high);
      forall t | t in s'.held
        ensures HeldOk(s'.rows, t, s'.held[t])
      {
        assert HeldOk(s.rows, t, s.held[t]);
      }
      ReservationKeepsDistinct(s.rows, id, token, low, high);
    }
  }

  /** The allocator never hands out a priority that another live gateway holds. */
  lemma ReservationKeepsDistinct(rows: map<string, Row>, id: string, token: Token, low: int, high: int)
    requires DistinctPriorities(rows)
    ensures DistinctPriorities(AfterReservation(rows, id, token, low, high))
  {
    var rows' := AfterReservation(rows, id, token, low, high);
    forall i, j |
      i in rows' && j in rows' && i != j && !rows'[i].deleted && !rows'[j].deleted && rows'[i].priority.Some?
      ensures rows'[i].priority != rows'[j].priority
    {
      var held := HeldPriorities(rows);
      if i != id && rows[i].priority.Some? {
        assert HeldPriority(rows, rows[i].priority.value);
      }
      if j != id && rows[j].priority.Some? {
        assert HeldPriority(rows, rows[j].priority.value);
      }
    }
  }

  lemma InsertKeepsInv(s: System, id: string, now: int, low: int, high: int)
    requires Inv(s, low, high) && id !in s.rows
    ensures Inv(s.(rows := s.rows[id := Inserted(now)]), low, high)
  {
    assert RowOk(Inserted(now), low, high);
    hide RowOk, TakesBrokenRowBranch, Fenced;
    var s' := s.(rows := s.rows[id := Inserted(now)]);
    forall t | t in s'.held
      ensures HeldOk(s'.rows, t, s'.held[t])
    {
      assert HeldOk(s.rows, t, s.held[t]);
    }
  }

  lemma AdminStatementsAreGood(r: Row, status: string, drain: int, now: int, low: int, high: int)
    requires RowOk(r, low, high)
    ensures Good(r, DeprovisioningQueued(r, drain, now), low, high)
    ensures Good(r, StatusUpdated(r, status), low, high)
    ensures Good(r, SoftDeleted(r), low, high)
  {
  }

  lemma ContainerReadyIsGood(r: Row, port: int, now: int, low: int, high: int)
    requires RowOk(r, low, high) && r.stage == NotStarted
    ensures Good(r, ContainerMarkedReady(r, port, now), low, high)
  {
  }

  lemma StepKeepsInv(s: System, step: Step, low: int, high: int)
    requires Inv(s, low, high) && Enabled(s, step) && InOrder(s, step)
    ensures Inv(Apply(s, step, low, high), low, high)
  {
    hide Inv, RowOk, Good, Decide, ContainerMarkedReady, DeprovisioningQueued, StatusUpdated, SoftDeleted, Claimed,
      JobOf, ReservationFor, AfterReservation, Eligible, Lawful, ExecuteOn;
    match step
    case Insert(id, now) => InsertKeepsInv(s, id, now, low, high);
    case MarkReady(id, port, now) =>
      RowIsOk(s, id, low, high);
      ContainerReadyIsGood(s.rows[id], port, now, low, high);
      RowChangeKeepsInv(s, id, ContainerMarkedReady(s.rows[id], port, now), low, high);
    case QueueDeprovisioning(id, drain, now) =>
      RowIsOk(s, id, low, high);
      AdminStatementsAreGood(s.rows[id], "", drain, now, low, high);
      RowChangeKeepsInv(s, id, DeprovisioningQueued(s.rows[id], drain, now), low, high);
    case SetStatus(id, status) =>
      RowIsOk(s, id, low, high);
      AdminStatementsAreGood(s.rows[id], status, 0, 0, low, high);
      RowChangeKeepsInv(s, id, StatusUpdated(s.rows[id], status), low, high);
    case SoftDecommission(id) =>
      RowIsOk(s, id, low, high);
      AdminStatementsAreGood(s.rows[id], "", 0, 0, low, high);
      RowChangeKeepsInv(s, id, SoftDeleted(s.rows[id]), low, high);
    case Claim(id, token, now, timeout) => ClaimKeepsInv(s, id, token, now, timeout, low, high);
    case Reserve(token) => ReserveKeepsInv(s, token, low, high);
    case WorkerWrite(token, cloud, now) => ExecuteKeepsInv(s, token, cloud, now, low, high);
  }

  lemma HeldIsOk(s: System, token: Token, low: int, high: int)
    requires Inv(s, low, high) && token in s.held
    ensures HeldOk(s.rows, token, s.held[token]) && RowOk(s.rows[s.held[token].job.externalId], low, high)
  {
  }

  lemma RowIsOk(s: System, id: string, low: int, high: int)
    requires Inv(s, low, high) && id in s.rows
    ensures RowOk(s.rows[id], low, high)
  {
  }

  // ---------------------------------------------------------------- whole runs

  /** Every state of every in-order run satisfies the invariant. */
  lemma {:induction false} RunKeepsInv(s: System, steps: seq<Step>, low: int, high: int, s': System)
    requires Inv(s, low, high) && Run(s, steps, low, high, s')
    ensures Inv(s', low, high)
    decreases |steps|
  {
    if steps != [] {
      StepKeepsInv(s, steps[0], low, high);
      RunKeepsInv(Apply(s, steps[0], low, high), steps[1..], low, high, s');
    }
  }
}
