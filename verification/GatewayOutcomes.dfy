/** What the answers of AWS and Docker do to a gateway row, in one write and over whole runs. */
module GatewayOutcomes {
  import opened Options
  import opened GatewayTable
  import opened GatewayWorker
  import opened GatewaySystem
  import opened GatewayTheorems
  import opened Queueing
  import Text

  // ---------------------------------------------------------------- one write

  /** AWS described the target's health with this word, whatever its case and padding. */
  predicate Reported(c: Cloud, state: string) {
    c.health.Some? && Text.ToLower(Text.TrimSpace(c.health.value)) == state
  }

  /** Every resource the job knows of was removed, and the container with it. */
  predicate CleanedUp(ruleArn: string, targetGroup: string, port: int, c: Cloud) {
    && (ruleArn == "" || c.ruleDeleted)
    && (targetGroup == "" || port <= 0 || c.deregistered)
    && (targetGroup == "" || c.targetGroupDeleted)
    && c.containerRemoved == Some(true)
  }

  /** A failed attempt: the tenth ends the work, an earlier one is repeated after a delay. */
  predicate Retried(r: Row, now: int, r': Row) {
    if r.retryCount + 1 < 10
    then r' == r.(retryCount := r.retryCount + 1, nextRetryAt := Some(now + RetryDelay(r.retryCount + 1)),
                  lockedAt := None, lease := None)
    else r' == r.(status := "failed", stage := Failed, nextRetryAt := None, lockedAt := None, lease := None)
  }

  /** How a row that a worker holds depends on what the worker was told. */
  ghost predicate Answered(r: Row, reserved: Option<int>, c: Cloud, now: int, r': Row) {
    match r.stage
    case ContainerReady =>
      if c.targetGroup.Some?
      then r' == r.(targetGroup := c.targetGroup, stage := RegisteringTarget, nextRetryAt := Some(now),
                    lockedAt := None, lease := None)
      else Retried(r, now, r')
    case RegisteringTarget =>
      if c.registered
      then r' == r.(stage := CreatingListenerRule, nextRetryAt := Some(now), lockedAt := None, lease := None)
      else Retried(r, now, r')
    case CreatingListenerRule =>
      if reserved.Some? && c.rule.Some?
      then r' == r.(ruleArn := c.rule, stage := WaitingForTargetHealth, nextRetryAt := Some(now + 15),
                    lockedAt := None, lease := None)
      else Retried(r, now, r')
    case WaitingForTargetHealth =>
      if Reported(c, "healthy")
      then r' == r.(status := "active", stage := Completed, nextRetryAt := None, lockedAt := None, lease := None)
      else if c.health.None? || Reported(c, "unhealthy") then Retried(r, now, r')
      else r' == r.(nextRetryAt := Some(now + 15), lockedAt := None, lease := None)
    case Deprovisioning =>
      if CleanedUp(r.ruleArn.GetOr(""), r.targetGroup.GetOr(""), r.hostPort.GetOr(0), c)
      then r' == r.(status := "decommissioned", stage := Deprovisioned, hostPort := None, targetGroup := None,
                    ruleArn := None, priority := None, nextRetryAt := None, lockedAt := None, lease := None,
                    deleted := true)
      else Retried(r, now, r')
    case _ => r' == r
  }

  /** The row as the job pictures it, still under the job's lease. */
  predicate Pictured(r: Row, job: Job) {
    && !r.deleted && r.lease == Some(job.token) && StageData(r) && Claimable(r.stage)
    && job == JobOf(job.externalId, r, job.token).(priority := job.priority)
  }

  lemma DecisionAnswers(r: Row, job: Job, reserved: Option<int>, c: Cloud, now: int)
    requires Pictured(r, job)
    ensures Decide(job, reserved, c, now).Some?
    ensures Answered(r, reserved, c, now, Execute(r, job.token, Decide(job, reserved, c, now).value, now))
  {
    hide Text.ToLower, Text.TrimSpace;
  }

  /**
   A worker's write, however late: while the token is on the row the stage moves on exactly when the call of
   that stage succeeded, and is repeated or given up otherwise.
   */
  lemma AnswersDecide(s: System, token: Token, cloud: Cloud, now: int, low: int, high: int)
    requires Inv(s, low, high) && Enabled(s, WorkerWrite(token, cloud, now))
    requires s.held[token].job.externalId in s.rows
    requires var r := s.rows[s.held[token].job.externalId]; r.lease == Some(token) && !r.deleted
    ensures var h := s.held[token];
      var s' := Apply(s, WorkerWrite(token, cloud, now), low, high);
      && h.job.externalId in s'.rows
      && Answered(s.rows[h.job.externalId], h.reserved, cloud, now, s'.rows[h.job.externalId])
  {
    HeldIsOk(s, token, low, high);
    var h := s.held[token];
    assert Pictured(s.rows[h.job.externalId], h.job);
    hide Decide, Answered, Inv, Execute;
    DecisionAnswers(s.rows[h.job.externalId], h.job, h.reserved, cloud, now);
  }

  /** One undisturbed turn of a worker on a row in the queue. */
  lemma TurnAnswers(id: string, r: Row, t: Turn)
    requires Sound(r) && FairTurn(r, t)
    requires t.reserved.Some? ==> r.stage == CreatingListenerRule
    ensures var claimed := r.(lockedAt := Some(t.now), lease := Some(t.token));
      var held := if t.reserved.Some? then claimed.(priority := t.reserved) else claimed;
      Answered(held, t.reserved, t.cloud, t.now, HandledRow(id, r, t))
  {
    var claimed := Claimed(r, t.token, t.now);
    var held := if t.reserved.Some? then claimed.(priority := t.reserved) else claimed;
    assert Pictured(held, JobOf(id, r, t.token));
    hide Decide, Answered, Execute;
    DecisionAnswers(held, JobOf(id, r, t.token), t.reserved, t.cloud, t.now);
  }

  /** The row carries what a finished provisioning leaves behind. */
  predicate Provisioned(r: Row, port: int, targetGroup: string, rule: string, priority: int) {
    && r.stage == Completed && r.status == "active" && !r.deleted && r.lease.None? && r.nextRetryAt.None?
    && r.hostPort == Some(port) && r.targetGroup == Some(targetGroup) && r.ruleArn == Some(rule)
    && r.priority == Some(priority)
  }

  /** When every call succeeds, four turns take a gateway from its container to completed, with what AWS returned. */
  lemma FourTurnsComplete(id: string, now: int, port: int, t1: Turn, t2: Turn, t3: Turn, t4: Turn)
    requires ValidPort(port) && Lawful(t1.cloud) && Lawful(t2.cloud) && Lawful(t3.cloud) && Lawful(t4.cloud)
    requires t1.cloud.targetGroup.Some? && t2.cloud.registered && t3.cloud.rule.Some? && Reported(t4.cloud, "healthy")
    requires t1.reserved.None? && t2.reserved.None? && t3.reserved.Some? && t4.reserved.None?
    ensures var r := ContainerMarkedReady(Inserted(now), port, now);
      var r3 := HandledRow(id, HandledRow(id, HandledRow(id, r, t1), t2), t3);
      Provisioned(HandledRow(id, r3, t4), port, t1.cloud.targetGroup.value, t3.cloud.rule.value, t3.reserved.value)
  {
    hide HandledRow, Reported;
    var r := ContainerMarkedReady(Inserted(now), port, now);
    TurnAnswers(id, r, t1);
    var r1 := HandledRow(id, r, t1);
    TurnAnswers(id, r1, t2);
    var r2 := HandledRow(id, r1, t2);
    TurnAnswers(id, r2, t3);
    var r3 := HandledRow(id, r2, t3);
    TurnAnswers(id, r3, t4);
  }

  /** A row that was put off stays out of every claim until its time has come. */
  lemma PutOffRowsWait(s: System, token: Token, cloud: Cloud, now: int, low: int, high: int, t: Token, at: int,
                       timeout: int)
    requires Inv(s, low, high) && Enabled(s, WorkerWrite(token, cloud, now))
    requires s.held[token].job.externalId in s.rows
    requires var r := s.rows[s.held[token].job.externalId];
      r.lease == Some(token) && !r.deleted && r.stage == WaitingForTargetHealth && !Reported(cloud, "healthy")
    requires at < now + 15
    ensures var s' := Apply(s, WorkerWrite(token, cloud, now), low, high);
      !Enabled(s', Claim(s.held[token].job.externalId, t, at, timeout))
  {
    AnswersDecide(s, token, cloud, now, low, high);
  }

  /** A live gateway with a valid port enters the queue at once, with all its retries; otherwise nothing happens. */
  lemma ContainerReadyQueues(r: Row, port: int, now: int, timeout: int)
    ensures var r' := ContainerMarkedReady(r, port, now);
      if r.deleted || port < 1 || port > 65535 then r' == r
      else
        && r'.stage == ContainerReady && r'.status == "provisioning" && r'.hostPort == Some(port)
        && WorkLeft(r') == 13 && (r.lockedAt.None? ==> Eligible(r', now, timeout))
  {
  }

  /** Cleanup is due when the drain time has passed since draining began, and is claimed from then on. */
  lemma CleanupWaitsForDrain(r: Row, drain: int, now: int, at: int, timeout: int)
    requires !r.deleted && r.status != "decommissioned" && r.stage != Deprovisioning
    ensures var r' := DeprovisioningQueued(r, drain, now);
      && r'.stage == Deprovisioning && r'.status == "draining" && r'.retryCount == 0
      && r'.drainStartedAt == Some(if r.drainStartedAt.Some? then r.drainStartedAt.value else now)
      && (Eligible(r', at, timeout) <==> r'.drainStartedAt.value + (if drain > 0 then drain else 0) <= at)
  {
  }

  // ---------------------------------------------------------------- whole runs

  /** A write that changed its row, and what the worker had been told before it. */
  datatype Report = Report(job: Job, reserved: Option<int>, cloud: Cloud)

  predicate TakesEffect(s: System, step: Step) {
    && step.WorkerWrite? && step.token in s.held && s.held[step.token].job.externalId in s.rows
    && var r := s.rows[s.held[step.token].job.externalId]; r.lease == Some(step.token) && !r.deleted
  }

  /** The reports of one step, and of a run. */
  function ReportsOf(s: System, step: Step): set<Report> {
    if TakesEffect(s, step)
    then {Report(s.held[step.token].job, s.held[step.token].reserved, step.cloud)} else {}
  }

  ghost function Reports(s: System, steps: seq<Step>, low: int, high: int): set<Report>
    decreases |steps|
  {
    if steps == [] || !Enabled(s, steps[0]) then {}
    else ReportsOf(s, steps[0]) + Reports(Apply(s, steps[0], low, high), steps[1..], low, high)
  }

  /** The report is about this gateway with the row's port and target group. */
  predicate About(rep: Report, id: string, r: Row) {
    rep.job.externalId == id && r.targetGroup == Some(rep.job.targetGroup) && r.hostPort == Some(rep.job.hostPort)
  }

  predicate GaveTargetGroup(rep: Report, id: string, r: Row) {
    rep.job.externalId == id && rep.cloud.targetGroup.Some? && rep.cloud.targetGroup == r.targetGroup
  }

  predicate RegisteredTarget(rep: Report, id: string, r: Row) {
    About(rep, id, r) && rep.job.stage == RegisteringTarget && rep.cloud.registered
  }

  predicate GaveRule(rep: Report, id: string, r: Row) {
    About(rep, id, r) && rep.cloud.rule.Some? && rep.cloud.rule == r.ruleArn
    && rep.reserved.Some? && rep.reserved == r.priority
  }

  predicate FoundHealthy(rep: Report, id: string, r: Row) {
    About(rep, id, r) && rep.job.stage == WaitingForTargetHealth && Reported(rep.cloud, "healthy")
  }

  predicate RemovedAll(rep: Report, id: string) {
    rep.job.externalId == id && rep.job.stage == Deprovisioning
    && CleanedUp(rep.job.ruleArn, rep.job.targetGroup, rep.job.hostPort, rep.cloud)
  }

  /** Every stage of a row was earned by an answer about that row's own resources. */
  ghost predicate Earned(reports: set<Report>, id: string, r: Row) {
    && (r.stage in {RegisteringTarget, CreatingListenerRule, WaitingForTargetHealth, Completed} ==>
          exists rep :: rep in reports && GaveTargetGroup(rep, id, r))
    && (r.stage in {CreatingListenerRule, WaitingForTargetHealth, Completed} ==>
          exists rep :: rep in reports && RegisteredTarget(rep, id, r))
    && (r.stage in {WaitingForTargetHealth, Completed} ==> exists rep :: rep in reports && GaveRule(rep, id, r))
    && (r.stage == Completed ==> exists rep :: rep in reports && FoundHealthy(rep, id, r))
    && (r.stage == Deprovisioned ==> exists rep :: rep in reports && RemovedAll(rep, id))
  }

  ghost predicate AllEarned(reports: set<Report>, s: System) {
    forall id :: id in s.rows ==> Earned(reports, id, s.rows[id])
  }

  lemma MoreReports(reports: set<Report>, more: set<Report>, id: string, r: Row)
    requires Earned(reports, id, r) && reports <= more
    ensures Earned(more, id, r)
  {
  }

  /** A statement that takes the row off the pipeline, or leaves stage and ingress columns alone. */
  predicate Harmless(r: Row, r': Row) {
    || r'.stage in {NotStarted, ContainerReady, Deprovisioning, Failed}
    || (&& r'.stage == r.stage && r'.hostPort == r.hostPort && r'.targetGroup == r.targetGroup
        && r'.ruleArn == r.ruleArn && (r'.priority == r.priority || r.stage == CreatingListenerRule))
  }

  lemma HarmlessKeepsEarned(reports: set<Report>, id: string, r: Row, r': Row)
    requires Earned(reports, id, r) && Harmless(r, r')
    ensures Earned(reports, id, r')
  {
  }

  lemma AnswerEarns(reports: set<Report>, id: string, r: Row, h: Held, cloud: Cloud, now: int, r': Row)
    requires Earned(reports, id, r) && Pictured(r, h.job) && h.job.externalId == id
    requires h.reserved.Some? ==> h.reserved == r.priority
    requires Answered(r, h.reserved, cloud, now, r')
    ensures Earned(reports + {Report(h.job, h.reserved, cloud)}, id, r')
  {
    var rep := Report(h.job, h.reserved, cloud);
    var more := reports + {rep};
    hide Reported;
    MoreReports(reports, more, id, r);
    if r'.stage in {r.stage, Failed} {
      HarmlessKeepsEarned(more, id, r, r');
    } else {
      assert rep in more;
      match r.stage
      case ContainerReady => assert GaveTargetGroup(rep, id, r');
      case RegisteringTarget => assert RegisteredTarget(rep, id, r');
      case CreatingListenerRule => assert GaveRule(rep, id, r');
      case WaitingForTargetHealth => assert FoundHealthy(rep, id, r');
      case Deprovisioning => assert RemovedAll(rep, id);
    }
  }

  lemma AdminIsHarmless(r: Row, port: int, drain: int, status: string, token: Token, now: int)
    ensures Harmless(r, ContainerMarkedReady(r, port, now)) && Harmless(r, DeprovisioningQueued(r, drain, now))
    ensures Harmless(r, StatusUpdated(r, status)) && Harmless(r, SoftDeleted(r)) && Harmless(r, Claimed(r, token, now))
  {
  }

  /** Reservations change nothing but the priority of the row under the lease, which is about to create its rule. */
  lemma ReserveIsHarmless(s: System, token: Token, id: string, low: int, high: int)
    requires Inv(s, low, high) && Enabled(s, Reserve(token)) && id in s.rows
    ensures var rows := Apply(s, Reserve(token), low, high).rows; id in rows && Harmless(s.rows[id], rows[id])
  {
    HeldIsOk(s, token, low, high);
    hide Inv, LeastFree, HeldPriorities;
  }

  lemma WriteKeepsEarned(reports: set<Report>, s: System, token: Token, cloud: Cloud, now: int, low: int, high: int,
                         id: string)
    requires Inv(s, low, high) && AllEarned(reports, s) && Enabled(s, WorkerWrite(token, cloud, now)) && id in s.rows
    ensures var step := WorkerWrite(token, cloud, now);
      var rows := Apply(s, step, low, high).rows;
      id in rows && Earned(reports + ReportsOf(s, step), id, rows[id])
  {
    hide Decide, Inv, Earned, Answered;
    var step := WorkerWrite(token, cloud, now);
    var h := s.held[token];
    var target := h.job.externalId;
    HeldIsOk(s, token, low, high);
    MoreReports(reports, reports + ReportsOf(s, step), id, s.rows[id]);
    if TakesEffect(s, step) {
      AnswersDecide(s, token, cloud, now, low, high);
      if target == id {
        AnswerEarns(reports, id, s.rows[id], h, cloud, now, Apply(s, step, low, high).rows[id]);
      }
    } else {
      NoEffect(s, step, low, high);
    }
  }

  lemma NoEffect(s: System, step: Step, low: int, high: int)
    requires step.WorkerWrite? && Enabled(s, step) && !TakesEffect(s, step)
    ensures Apply(s, step, low, high) == s
  {
    hide Decide;
    var id := s.held[step.token].job.externalId;
    if id in s.rows {
      assert s.rows[id := s.rows[id]] == s.rows;
    }
  }

  lemma StepKeepsEarned(reports: set<Report>, s: System, step: Step, low: int, high: int)
    requires Inv(s, low, high) && AllEarned(reports, s) && Enabled(s, step)
    ensures AllEarned(reports + ReportsOf(s, step), Apply(s, step, low, high))
  {
    hide Decide, Inv, Earned, Harmless, ContainerMarkedReady, DeprovisioningQueued, StatusUpdated, SoftDeleted, Claimed,
      ReservationFor, AfterReservation, Eligible, JobOf;
    var s' := Apply(s, step, low, high);
    var more := reports + ReportsOf(s, step);
    forall id | id in s'.rows
      ensures Earned(more, id, s'.rows[id])
    {
      if id !in s.rows {
        NewRowsEarnNothing(more, s, step, low, high, id);
      } else if step.WorkerWrite? {
        WriteKeepsEarned(reports, s, step.token, step.cloud, step.now, low, high, id);
      } else {
        OtherStepIsHarmless(s, step, low, high, id);
        HarmlessKeepsEarned(reports, id, s.rows[id], s'.rows[id]);
        assert more == reports;
      }
    }
  }

  lemma NewRowsEarnNothing(reports: set<Report>, s: System, step: Step, low: int, high: int, id: string)
    requires Enabled(s, step) && id !in s.rows && id in Apply(s, step, low, high).rows
    ensures Earned(reports, id, Apply(s, step, low, high).rows[id])
  {
    hide Decide, LeastFree, HeldPriorities;
  }

  lemma OtherStepIsHarmless(s: System, step: Step, low: int, high: int, id: string)
    requires Inv(s, low, high) && Enabled(s, step) && id in s.rows && !step.WorkerWrite?
    ensures ReportsOf(s, step) == {}
    ensures id in Apply(s, step, low, high).rows && Harmless(s.rows[id], Apply(s, step, low, high).rows[id])
  {
    hide Inv, ContainerMarkedReady, DeprovisioningQueued, StatusUpdated, SoftDeleted, Claimed, ReservationFor,
      AfterReservation, Eligible, JobOf;
    var r := s.rows[id];
    match step
    case Insert(_, _) =>
    case MarkReady(_, port, now) => AdminIsHarmless(r, port, 0, "", 0, now);
    case QueueDeprovisioning(_, drain, now) => AdminIsHarmless(r, 0, drain, "", 0, now);
    case SetStatus(_, status) => AdminIsHarmless(r, 0, 0, status, 0, 0);
    case SoftDecommission(_) => AdminIsHarmless(r, 0, 0, "", 0, 0);
    case Claim(_, token, now, _) => AdminIsHarmless(r, 0, 0, "", token, now);
    case Reserve(token) => ReserveIsHarmless(s, token, id, low, high);
  }

  lemma {:induction false} RunKeepsEarned(reports: set<Report>, s: System, steps: seq<Step>, low: int, high: int,
                                          s': System)
    requires Inv(s, low, high) && AllEarned(reports, s) && Run(s, steps, low, high, s')
    ensures AllEarned(reports + Reports(s, steps, low, high), s')
    decreases |steps|
  {
    hide Inv, AllEarned, Apply, Enabled, InOrder, ReportsOf;
    if steps == [] {
      assert reports + Reports(s, steps, low, high) == reports;
    } else {
      var s1, more := Apply(s, steps[0], low, high), reports + ReportsOf(s, steps[0]);
      StepKeepsInv(s, steps[0], low, high);
      StepKeepsEarned(reports, s, steps[0], low, high);
      RunKeepsEarned(more, s1, steps[1..], low, high, s');
      assert more + Reports(s1, steps[1..], low, high) == reports + Reports(s, steps, low, high);
    }
  }

  /**
   In every state of every in-order run: a completed gateway has a target group that AWS returned for it, its port was
   registered there, its rule was returned by a call with that target group and its own reserved priority, and AWS
   called that target healthy. A gateway is deprovisioned only after everything its job knew of was removed.
   */
  lemma StagesAreEarned(steps: seq<Step>, low: int, high: int, s: System, id: string)
    requires Run(INITIAL, steps, low, high, s) && id in s.rows
    ensures Earned(Reports(INITIAL, steps, low, high), id, s.rows[id])
  {
    hide Earned, Run, Reports;
    assert AllEarned({}, INITIAL);
    RunKeepsEarned({}, INITIAL, steps, low, high, s);
    assert {} + Reports(INITIAL, steps, low, high) == Reports(INITIAL, steps, low, high);
  }
}
