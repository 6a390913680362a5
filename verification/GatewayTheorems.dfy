/** What the gateway queue guarantees over every interleaving, and where it does not. */
module GatewayTheorems {
  import opened Options
  import opened GatewayTable
  import opened GatewayWorker
  import opened GatewaySystem
  import opened Queueing

  // ---------------------------------------------------------------- every reachable state

  /**
   In every state of every in-order run: stages carry the data they need, live gateways hold distinct
   priorities inside the range, and no worker, however late, is about to take a broken-row branch.
   */
  lemma ReachableGateways(steps: seq<Step>, low: int, high: int, s: System)
    requires Run(INITIAL, steps, low, high, s)
    ensures forall id :: id in s.rows ==> RowOk(s.rows[id], low, high)
    ensures DistinctPriorities(s.rows)
    ensures forall t :: t in s.held ==> !TakesBrokenRowBranch(s.held[t].job)
    ensures forall t :: t in s.held ==>
      s.held[t].job.externalId in s.rows && Fenced(s.rows[s.held[t].job.externalId], s.held[t])
  {
    RunKeepsInv(INITIAL, steps, low, high, s);
    assert forall t :: t in s.held ==> HeldOk(s.rows, t, s.held[t]);
  }

  /** A worker whose token is no longer on the row cannot change anything. */
  lemma SupersededWriteIsInert(s: System, token: Token, cloud: Cloud, now: int, low: int, high: int)
    requires Inv(s, low, high) && Enabled(s, WorkerWrite(token, cloud, now))
    requires s.rows[s.held[token].job.externalId].lease != Some(token)
    ensures Apply(s, WorkerWrite(token, cloud, now), low, high) == s
  {
    assert HeldOk(s.rows, token, s.held[token]);
    var id := s.held[token].job.externalId;
    assert s.rows[id := s.rows[id]] == s.rows;
  }

  // ---------------------------------------------------------------- how rows move

  predicate NextStage(p: Stage, q: Stage) {
    || (p == NotStarted && q == ContainerReady)
    || (p == ContainerReady && q == RegisteringTarget)
    || (p == RegisteringTarget && q == CreatingListenerRule)
    || (p == CreatingListenerRule && q == WaitingForTargetHealth)
    || (p == WaitingForTargetHealth && q == Completed)
    || (p == Deprovisioning && q == Deprovisioned)
  }

  /** The only ways a stage changes: forward by one, to failed from a stage under work, or into teardown. */
  predicate Moves(p: Stage, q: Stage) {
    || p == q
    || NextStage(p, q)
    || (q == Failed && Claimable(p))
    || (q == Deprovisioning && p != Deprovisioned)
  }

  predicate Evolves(r: Row, r': Row) {
    && Moves(r.stage, r'.stage)
    && (r.drainStartedAt.Some? ==> r'.drainStartedAt == r.drainStartedAt)
    && (r.drainStartedAt.Some? ==> TearingDown(r'.stage))
    && (r.priority.Some? && r'.priority != r.priority ==> r'.stage == Deprovisioned && r'.deleted)
    && (r.deleted ==> r'.deleted && r'.stage == r.stage)
  }

  lemma WriteEvolves(r: Row, h: Held, w: Write, now: int, low: int, high: int)
    requires RowOk(r, low, high) && Fenced(r, h) && Fits(h.job, h.reserved, w)
    ensures Evolves(r, Execute(r, h.job.token, w, now))
  {
    WriteKeepsRow(r, h, w, now, low, high);
  }

  lemma AdminEvolves(r: Row, port: int, drain: int, status: string, now: int, low: int, high: int)
    requires RowOk(r, low, high)
    ensures r.stage == NotStarted ==> Evolves(r, ContainerMarkedReady(r, port, now))
    ensures Evolves(r, DeprovisioningQueued(r, drain, now))
    ensures Evolves(r, StatusUpdated(r, status)) && Evolves(r, SoftDeleted(r))
  {
  }

  lemma LockEvolves(r: Row, token: Token, now: int, low: int, high: int)
    requires RowOk(r, low, high)
    ensures Evolves(r, Claimed(r, token, now))
  {
  }

  lemma ReservationEvolves(rows: map<string, Row>, id: string, target: string, token: Token, low: int, high: int)
    requires id in rows && RowOk(rows[id], low, high) && 0 < low
    ensures id in AfterReservation(rows, target, token, low, high)
    ensures Evolves(rows[id], AfterReservation(rows, target, token, low, high)[id])
  {
    hide LeastFree, HeldPriorities;
    UnchangedEvolves(rows[id], low, high);
  }

  /** One in-order step moves every row along the graph, whatever the interleaving did before. */
  lemma StepEvolves(s: System, step: Step, id: string, low: int, high: int)
    requires Inv(s, low, high) && Enabled(s, step) && InOrder(s, step) && id in s.rows
    requires 0 < low
    ensures id in Apply(s, step, low, high).rows
    ensures Evolves(s.rows[id], Apply(s, step, low, high).rows[id])
  {
    hide Inv, RowOk, Evolves, Decide, Fits, Fenced, Execute, TakesBrokenRowBranch, ReservationFor, AfterReservation,
      ContainerMarkedReady, DeprovisioningQueued, StatusUpdated, SoftDeleted, Eligible, Lawful, Claimed, JobOf;
    var r := s.rows[id];
    RowIsOk(s, id, low, high);
    UnchangedEvolves(r, low, high);
    match step
    case Insert(_, _) =>
    case MarkReady(_, port, now) => AdminEvolves(r, port, 0, "", now, low, high);
    case QueueDeprovisioning(_, drain, now) => AdminEvolves(r, 0, drain, "", now, low, high);
    case SetStatus(_, status) => AdminEvolves(r, 0, 0, status, 0, low, high);
    case SoftDecommission(_) => AdminEvolves(r, 0, 0, "", 0, low, high);
    case Claim(_, token, now, _) => LockEvolves(r, token, now, low, high);
    case Reserve(token) => ReservationEvolves(s.rows, id, s.held[token].job.externalId, token, low, high);
    case WorkerWrite(token, cloud, now) =>
      var h := s.held[token];
      HeldIsOk(s, token, low, high);
      var decision := Decide(h.job, h.reserved, cloud, now);
      if decision.Some? {
        DecisionFits(h.job, h.reserved, cloud, now);
        if h.job.externalId == id {
          WriteEvolves(r, h, decision.value, now, low, high);
        }
      }
  }

  lemma UnchangedEvolves(r: Row, low: int, high: int)
    requires RowOk(r, low, high)
    ensures Evolves(r, r)
  {
  }

  // ---------------------------------------------------------------- leases

  lemma {:induction false} HeldJobsStay(s: System, steps: seq<Step>, low: int, high: int, s': System, token: Token)
    requires Run(s, steps, low, high, s') && token in s.held
    ensures token in s'.held && s'.held[token].job == s.held[token].job
    ensures s'.held[token].claimedAt == s.held[token].claimedAt
    decreases |steps|
  {
    if steps != [] {
      hide Decide, ReservationFor, AfterReservation, Eligible, ExecuteOn;
      HeldJobsStay(Apply(s, steps[0], low, high), steps[1..], low, high, s', token);
    }
  }

  /**
   Along any run after a claim at time `at`: while the row carries that claim's token it is locked since
   `at`, so no second claim of the row is possible before the lock timeout has passed.
   */
  lemma LeaseIsExclusive(s: System, id: string, token: Token, at: int, allowed: int, steps: seq<Step>, s': System,
                         low: int, high: int, now: int, timeout: int)
    requires Inv(s, low, high) && Enabled(s, Claim(id, token, at, allowed))
    requires Run(Apply(s, Claim(id, token, at, allowed), low, high), steps, low, high, s')
    requires id in s'.rows && s'.rows[id].lease == Some(token)
    ensures s'.rows[id].lockedAt == Some(at)
    ensures now < at + (if timeout > 0 then timeout else 300) ==> forall t :: !Enabled(s', Claim(id, t, now, timeout))
  {
    var s1 := Apply(s, Claim(id, token, at, allowed), low, high);
    StepKeepsInv(s, Claim(id, token, at, allowed), low, high);
    RunKeepsInv(s1, steps, low, high, s');
    HeldJobsStay(s1, steps, low, high, s', token);
    HeldIsOk(s', token, low, high);
  }

  // ---------------------------------------------------------------- teardown

  /** A container-ready write that respects queued teardown: none is queued, or the write is refused. */
  predicate Respectful(s: System, step: Step) {
    step.MarkReady? && step.id in s.rows ==>
      s.rows[step.id].drainStartedAt.None? || s.rows[step.id].deleted || !ValidPort(step.port)
  }

  ghost predicate RespectfulRun(s: System, steps: seq<Step>, low: int, high: int, s': System)
    decreases |steps|
  {
    if steps == [] then s == s'
    else
      && Enabled(s, steps[0]) && Respectful(s, steps[0])
      && RespectfulRun(Apply(s, steps[0], low, high), steps[1..], low, high, s')
  }

  /** A row whose teardown is queued is past provisioning, and only a job claimed for teardown holds it. */
  predicate Draining(held: map<Token, Held>, r: Row) {
    && (r.lease.Some? ==> r.lease.value in held)
    && (r.drainStartedAt.Some? ==>
          && TearingDown(r.stage)
          && (r.lease.Some? ==> held[r.lease.value].job.stage == Deprovisioning))
  }

  ghost predicate TeardownInv(s: System) {
    forall id :: id in s.rows ==> Draining(s.held, s.rows[id])
  }

  lemma WriteKeepsDraining(s: System, token: Token, cloud: Cloud, now: int, r: Row)
    requires token in s.held && Lawful(cloud) && Draining(s.held, r)
    ensures var h := s.held[token];
      var decision := Decide(h.job, h.reserved, cloud, now);
      decision.Some? ==>
        var r' := Execute(r, token, decision.value, now);
        && Draining(s.held, r') && r'.drainStartedAt == r.drainStartedAt
  {
    var h := s.held[token];
    DecisionFits(h.job, h.reserved, cloud, now);
    hide Decide;
  }

  lemma StepKeepsTeardown(s: System, step: Step, low: int, high: int)
    requires TeardownInv(s) && Enabled(s, step) && Respectful(s, step)
    ensures TeardownInv(Apply(s, step, low, high))
    ensures forall id :: id in s.rows && s.rows[id].drainStartedAt.Some? ==>
      id in Apply(s, step, low, high).rows
      && Apply(s, step, low, high).rows[id].drainStartedAt == s.rows[id].drainStartedAt
  {
    hide Decide, Lawful, ReservationFor, Execute;
    if step.WorkerWrite? {
      var id := s.held[step.token].job.externalId;
      if id in s.rows {
        WriteKeepsDraining(s, step.token, step.cloud, step.now, s.rows[id]);
      }
    } else if step.Reserve? {
      ReserveKeepsTeardown(s, step.token, low, high);
    }
  }

  lemma ReserveKeepsTeardown(s: System, token: Token, low: int, high: int)
    requires TeardownInv(s) && Enabled(s, Reserve(token))
    ensures TeardownInv(Apply(s, Reserve(token), low, high))
    ensures forall id :: id in s.rows ==>
      id in Apply(s, Reserve(token), low, high).rows
      && Apply(s, Reserve(token), low, high).rows[id].drainStartedAt == s.rows[id].drainStartedAt
  {
    hide LeastFree, HeldPriorities;
    var s' := Apply(s, Reserve(token), low, high);
    assert forall t :: t in s.held ==> t in s'.held && s'.held[t].job == s.held[t].job;
  }

  /**
   Once deprovisioning has been queued, no later step returns the row to a provisioning stage or to
   completed, in every run whose container-ready writes respect queued teardown, in order or not.
   */
  lemma {:induction false} TeardownIsFinal(s: System, steps: seq<Step>, low: int, high: int, s': System, id: string)
    requires TeardownInv(s) && RespectfulRun(s, steps, low, high, s')
    requires id in s.rows && s.rows[id].drainStartedAt.Some?
    ensures id in s'.rows && s'.rows[id].drainStartedAt == s.rows[id].drainStartedAt
    ensures TearingDown(s'.rows[id].stage)
    decreases |steps|
  {
    if steps == [] {
      assert Draining(s.held, s.rows[id]);
    } else {
      hide TeardownInv, Apply, Enabled, Respectful;
      StepKeepsTeardown(s, steps[0], low, high);
      TeardownIsFinal(Apply(s, steps[0], low, high), steps[1..], low, high, s', id);
    }
  }

  /** Every state of a respectful run from the empty table is one that `TeardownIsFinal` starts from. */
  lemma {:induction false} RespectfulRunsKeepTeardown(s: System, steps: seq<Step>, low: int, high: int, s': System)
    requires TeardownInv(s) && RespectfulRun(s, steps, low, high, s')
    ensures TeardownInv(s')
    decreases |steps|
  {
    hide TeardownInv, Apply, Enabled, Respectful;
    if steps != [] {
      StepKeepsTeardown(s, steps[0], low, high);
      RespectfulRunsKeepTeardown(Apply(s, steps[0], low, high), steps[1..], low, high, s');
    }
  }

  /** In-order runs are respectful. */
  lemma {:induction false} InOrderIsRespectful(s: System, steps: seq<Step>, low: int, high: int, s': System)
    requires Inv(s, low, high) && Run(s, steps, low, high, s')
    ensures RespectfulRun(s, steps, low, high, s')
    decreases |steps|
  {
    if steps != [] {
      var step := steps[0];
      if step.MarkReady? {
        RowIsOk(s, step.id, low, high);
      }
      StepKeepsInv(s, step, low, high);
      InOrderIsRespectful(Apply(s, step, low, high), steps[1..], low, high, s');
    }
  }

  /** A reserved priority survives every retry, failure and requeue; only decommissioning gives it up. */
  lemma {:induction false} ReservedPrioritySurvives(s: System, steps: seq<Step>, low: int, high: int, s': System,
                                                    id: string)
    requires Inv(s, low, high) && Run(s, steps, low, high, s') && 0 < low
    requires id in s.rows && s.rows[id].priority.Some?
    ensures id in s'.rows
    ensures s'.rows[id].priority == s.rows[id].priority || s'.rows[id].stage == Deprovisioned
    decreases |steps|
  {
    if steps != [] {
      StepEvolves(s, steps[0], id, low, high);
      StepKeepsInv(s, steps[0], low, high);
      var s1 := Apply(s, steps[0], low, high);
      if s1.rows[id].priority == s.rows[id].priority {
        ReservedPrioritySurvives(s1, steps[1..], low, high, s', id);
      } else {
        DeletedRowsRest(s1, steps[1..], low, high, s', id);
      }
    }
  }

  lemma {:induction false} DeletedRowsRest(s: System, steps: seq<Step>, low: int, high: int, s': System, id: string)
    requires Inv(s, low, high) && Run(s, steps, low, high, s') && 0 < low
    requires id in s.rows && s.rows[id].deleted
    ensures id in s'.rows && s'.rows[id].deleted && s'.rows[id].stage == s.rows[id].stage
    decreases |steps|
  {
    if steps != [] {
      StepEvolves(s, steps[0], id, low, high);
      StepKeepsInv(s, steps[0], low, high);
      DeletedRowsRest(Apply(s, steps[0], low, high), steps[1..], low, high, s', id);
    }
  }

  // ---------------------------------------------------------------- the priority allocator

  ghost function LiveIds(rows: map<string, Row>): set<string> {
    set id | id in rows && !rows[id].deleted
  }

  ghost function Holder(rows: map<string, Row>, p: int): string
    requires HeldPriority(rows, p)
  {
    var id :| id in rows && !rows[id].deleted && rows[id].priority == Some(p);
    id
  }

  /** The reservation succeeds exactly when something in the range is free, and then takes the least free value. */
  lemma AllocatorIsLeastFree(rows: map<string, Row>, id: string, token: Token, low: int, high: int)
    requires ValidRange(low, high)
    requires id in rows && !rows[id].deleted && rows[id].lease == Some(token) && rows[id].priority.None?
    ensures var answer := ReservationFor(rows, id, token, low, high);
      && (answer == NoPriorityLeft <==> forall p :: low <= p <= high ==> HeldPriority(rows, p))
      && (answer != NoPriorityLeft ==>
          && answer.Reserved?
          && low <= answer.priority <= high
          && !HeldPriority(rows, answer.priority)
          && forall p :: low <= p < answer.priority ==> HeldPriority(rows, p))
  {
    var held := HeldPriorities(rows);
    assert forall p :: p in held <==> HeldPriority(rows, p);
  }

  /** A refusal for lack of space means at least as many live gateways as there are priorities. */
  lemma RefusalMeansFull(rows: map<string, Row>, id: string, token: Token, low: int, high: int)
    requires ReservationFor(rows, id, token, low, high) == NoPriorityLeft
    ensures |LiveIds(rows)| >= high - low + 1
  {
    var held := HeldPriorities(rows);
    assert forall p :: low <= p <= high ==> HeldPriority(rows, p);
    HoldersAreMany(rows, low, high);
  }

  lemma {:induction false} HoldersAreMany(rows: map<string, Row>, low: int, high: int)
    requires low <= high + 1
    requires forall p :: low <= p <= high ==> HeldPriority(rows, p)
    ensures |LiveIds(rows)| >= high - low + 1
    decreases high - low + 1
  {
    if low <= high {
      var id := Holder(rows, low);
      var rest := rows - {id};
      forall p | low + 1 <= p <= high
        ensures HeldPriority(rest, p)
      {
        assert Holder(rows, p) in rest;
      }
      HoldersAreMany(rest, low + 1, high);
      assert LiveIds(rest) == LiveIds(rows) - {id};
    }
  }

  // ---------------------------------------------------------------- admin calls

  /** A repeated delete request keeps the drain time and the retry that is already scheduled. */
  lemma QueueAgainChangesNothing(r: Row, drain: int, now: int, drain': int, now': int)
    ensures var queued := DeprovisioningQueued(r, drain, now);
      DeprovisioningQueued(queued, drain', now') == queued
  {
  }

  /** Out of order, the container-ready write resurrects a gateway whose deletion was already queued. */
  lemma LateContainerReadyResurrects(id: string, low: int, high: int)
    ensures var s1 := Apply(INITIAL, Insert(id, 0), low, high);
      var s2 := Apply(s1, QueueDeprovisioning(id, 30, 0), low, high);
      var s3 := Apply(s2, MarkReady(id, 8080, 5), low, high);
      && TearingDown(s2.rows[id].stage)
      && s3.rows[id].drainStartedAt.Some?
      && s3.rows[id].stage == ContainerReady
      && Eligible(s3.rows[id], 5, 300)
  {
    var s1 := Apply(INITIAL, Insert(id, 0), low, high);
    var s2 := Apply(s1, QueueDeprovisioning(id, 30, 0), low, high);
    assert s2.rows[id] == DeprovisioningQueued(Inserted(0), 30, 0);
    assert s2.rows[id].stage == Deprovisioning;
    var s3 := Apply(s2, MarkReady(id, 8080, 5), low, high);
    assert s3.rows[id] == ContainerMarkedReady(s2.rows[id], 8080, 5);
  }

  /** The container-ready write respects queued teardown exactly on the rows it refuses or finds not queued. */
  lemma ContainerReadyRespectsTeardown(r: Row, port: int, now: int)
    requires r.drainStartedAt.Some? ==> TearingDown(r.stage)
    ensures var r' := ContainerMarkedReady(r, port, now);
      (r'.drainStartedAt.Some? ==> TearingDown(r'.stage))
      <==> r.drainStartedAt.None? || r.deleted || !ValidPort(port)
  {
  }

  // ---------------------------------------------------------------- bounded work

  /** One undisturbed turn of a worker on one row, and what its environment answered. */
  datatype Turn = Turn(token: Token, reserved: Option<int>, cloud: Cloud, now: int)

  function Decision(id: string, r: Row, t: Turn): Option<Write> {
    Decide(JobOf(id, r, t.token), t.reserved, t.cloud, t.now)
  }

  function HandledRow(id: string, r: Row, t: Turn): Row {
    var claimed := Claimed(r, t.token, t.now);
    var reserves := r.stage == CreatingListenerRule && r.targetGroup.GetOr("") != "" && t.reserved.Some?;
    var r' := if reserves then claimed.(priority := t.reserved) else claimed;
    match Decision(id, r, t)
    case None => r'
    case Some(w) => Execute(r', t.token, w, t.now)
  }

  /** The row-level turn is what the worker does to that row of the table. */
  lemma HandledRowsAtRow(rows: map<string, Row>, id: string, t: Turn, low: int, high: int)
    requires id in rows
    requires !rows[id].deleted
    requires var answer := ReservationFor(rows[id := Claimed(rows[id], t.token, t.now)], id, t.token, low, high);
      t.reserved ==
        if rows[id].stage == CreatingListenerRule && rows[id].targetGroup.GetOr("") != "" && answer.Reserved?
        then Some(answer.priority) else None
    ensures var claimed := rows[id := Claimed(rows[id], t.token, t.now)];
      HandledRows(claimed, JobOf(id, rows[id], t.token), t.cloud, low, high, t.now)
      == claimed[id := HandledRow(id, rows[id], t)]
  {
    var claimed := rows[id := Claimed(rows[id], t.token, t.now)];
    var job := JobOf(id, rows[id], t.token);
    var reserves := job.stage == CreatingListenerRule && job.targetGroup != "";
    var rows' := if reserves then AfterReservation(claimed, id, t.token, low, high) else claimed;
    var r' := if reserves && t.reserved.Some? then claimed[id].(priority := t.reserved) else claimed[id];
    assert rows' == claimed[id := r'];
  }

  function StagesLeft(stage: Stage): nat {
    match stage
    case ContainerReady => 4
    case RegisteringTarget => 3
    case CreatingListenerRule => 2
    case WaitingForTargetHealth => 1
    case Deprovisioning => 1
    case _ => 0
  }

  /** Stages left plus retries left; zero exactly when the row has left the queue. */
  function WorkLeft(r: Row): int {
    if StagesLeft(r.stage) == 0 then 0 else StagesLeft(r.stage) + MAX_RETRIES - 1 - r.retryCount
  }

  predicate IsReschedule(id: string, r: Row, t: Turn) {
    Decision(id, r, t).Some? && Decision(id, r, t).value.HealthCheckRescheduled?
  }

  predicate Sound(r: Row) {
    StageData(r) && r.retryCount < MAX_RETRIES && !r.deleted
  }

  predicate FairTurn(r: Row, t: Turn) {
    Lawful(t.cloud) && Claimable(r.stage)
  }

  predicate InPipeline(stage: Stage) {
    || stage.ContainerReady?
    || stage.RegisteringTarget?
    || stage.CreatingListenerRule?
    || stage.WaitingForTargetHealth?
    || stage.Completed?
    || stage.Failed?
  }

  /** Every handled claim other than a health reschedule uses up some of the work left. */
  lemma TurnUsesWork(id: string, r: Row, t: Turn)
    requires Sound(r) && FairTurn(r, t)
    ensures var r' := HandledRow(id, r, t);
      && (IsReschedule(id, r, t) ==> WorkLeft(r') == WorkLeft(r))
      && (!IsReschedule(id, r, t) ==> WorkLeft(r') < WorkLeft(r))
      && Lands(r, r')
  {
    hide Decide, Lawful;
    TurnDecides(id, r, t);
  }

  lemma TurnDecides(id: string, r: Row, t: Turn)
    requires Sound(r) && FairTurn(r, t)
    ensures Decision(id, r, t).Some? && Fits(JobOf(id, r, t.token), t.reserved, Decision(id, r, t).value)
  {
    DecisionFits(JobOf(id, r, t.token), t.reserved, t.cloud, t.now);
  }

  /** What every turn leaves behind. */
  predicate Lands(r: Row, r': Row) {
    && 0 <= WorkLeft(r')
    && StageData(r')
    && r'.retryCount < MAX_RETRIES
    && (r'.deleted ==> r'.stage == Deprovisioned)
    && (InPipeline(r.stage) ==> InPipeline(r'.stage))
    && (TearingDown(r.stage) ==> TearingDown(r'.stage))
  }

  /** A run of turns on one row, each made while the row is in the queue. */
  ghost predicate Turns(id: string, r: Row, turns: seq<Turn>, r': Row)
    decreases |turns|
  {
    if turns == [] then r == r'
    else !r.deleted && FairTurn(r, turns[0]) && Turns(id, HandledRow(id, r, turns[0]), turns[1..], r')
  }

  ghost function HandledClaims(id: string, r: Row, turns: seq<Turn>): nat
    decreases |turns|
  {
    if turns == [] then 0
    else (if IsReschedule(id, r, turns[0]) then 0 else 1) + HandledClaims(id, HandledRow(id, r, turns[0]), turns[1..])
  }

  lemma {:induction false} TurnsUseWork(id: string, r: Row, turns: seq<Turn>, r': Row)
    requires Sound(r) && Turns(id, r, turns, r')
    ensures HandledClaims(id, r, turns) + WorkLeft(r') <= WorkLeft(r)
    ensures 0 <= WorkLeft(r') && r'.retryCount < MAX_RETRIES
    ensures InPipeline(r.stage) ==> InPipeline(r'.stage)
    ensures TearingDown(r.stage) ==> TearingDown(r'.stage)
    decreases |turns|
  {
    if turns != [] {
      TurnUsesWork(id, r, turns[0]);
      var r1 := HandledRow(id, r, turns[0]);
      if r1.deleted {
        assert turns[1..] == [];
      } else {
        TurnsUseWork(id, r1, turns[1..], r');
      }
    }
  }

  /** From container_ready with no retries yet, 13 handled claims are the most there can be, and end the work. */
  lemma ProvisioningWorkIsBounded(id: string, r: Row, turns: seq<Turn>, r': Row)
    requires Sound(r) && r.stage == ContainerReady && r.retryCount == 0 && Turns(id, r, turns, r')
    ensures HandledClaims(id, r, turns) <= 13
    ensures HandledClaims(id, r, turns) == 13 ==> r'.stage.Completed? || r'.stage.Failed?
  {
    TurnsUseWork(id, r, turns, r');
  }

  /** A newly queued teardown ends within 10 handled claims. */
  lemma TeardownWorkIsBounded(id: string, r: Row, drain: int, now: int, turns: seq<Turn>, r': Row)
    requires Sound(r) && r.stage != Deprovisioning && r.status != "decommissioned"
    requires Turns(id, DeprovisioningQueued(r, drain, now), turns, r')
    ensures HandledClaims(id, DeprovisioningQueued(r, drain, now), turns) <= 10
    ensures HandledClaims(id, DeprovisioningQueued(r, drain, now), turns) == 10 ==>
      r'.stage.Deprovisioned? || r'.stage.Failed?
  {
    TurnsUseWork(id, DeprovisioningQueued(r, drain, now), turns, r');
  }
}
