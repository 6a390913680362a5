/**
 The `gateways` table, and the SQL statements that the control plane and the workers issue on its provisioning
 columns. A statement is a function on one row; the repository class runs the statements in place.
 */
module GatewayTable {
  import opened Options
  import opened Queueing

  /** Lease tokens are UUIDs; only equality and freshness matter. */
  type Token = nat

  datatype Stage =
    | NotStarted
    | ContainerReady
    | CreatingTargetGroup
    | RegisteringTarget
    | CreatingListenerRule
    | WaitingForTargetHealth
    | Completed
    | Failed
    | Deprovisioning
    | Deprovisioned

  datatype Row = Row(
    status: string,
    stage: Stage,
    hostPort: Option<int>,
    targetGroup: Option<string>,
    ruleArn: Option<string>,
    priority: Option<int>,
    retryCount: nat,
    nextRetryAt: Option<int>,
    lockedAt: Option<int>,
    lease: Option<Token>,
    drainStartedAt: Option<int>,
    createdAt: int,
    deleted: bool)

  /** What a claim returns to the worker: a snapshot that may go stale. */
  datatype Job = Job(
    externalId: string,
    hostPort: int,
    targetGroup: string,
    ruleArn: string,
    priority: int,
    stage: Stage,
    retryCount: nat,
    token: Token)

  function Inserted(now: int): Row {
    Row("provisioning", NotStarted, None, None, None, None, 0, None, None, None, None, now, false)
  }

  /** The writes a worker may issue with its lease token. */
  datatype Write =
    | TargetGroupCreated(arn: string)
    | TargetRegistered
    | ListenerRuleCreated(ruleArn: string, nextCheckAt: int)
    | HealthCheckRescheduled(nextCheckAt: int)
    | IngressActive
    | RetryScheduled(nextRetryAt: int)
    | IngressFailed
    | GatewayDecommissioned

  /** The WHERE clause: all writes check the token, only the last one checks the stage. */
  predicate Matches(r: Row, token: Token, w: Write) {
    && !r.deleted
    && r.lease == Some(token)
    && (w.GatewayDecommissioned? ==> r.stage == Deprovisioning)
  }

  function Unlocked(r: Row): Row {
    r.(lockedAt := None, lease := None)
  }

  /** The SET clause. Every worker write gives the lease back. */
  function Effect(r: Row, w: Write, now: int): Row {
    match w
    case TargetGroupCreated(arn) =>
      Unlocked(r).(targetGroup := Some(arn), stage := RegisteringTarget, nextRetryAt := Some(now))
    case TargetRegistered =>
      Unlocked(r).(stage := CreatingListenerRule, nextRetryAt := Some(now))
    case ListenerRuleCreated(ruleArn, nextCheckAt) =>
      Unlocked(r).(ruleArn := Some(ruleArn), stage := WaitingForTargetHealth, nextRetryAt := Some(nextCheckAt))
    case HealthCheckRescheduled(nextCheckAt) =>
      Unlocked(r).(nextRetryAt := Some(nextCheckAt))
    case IngressActive =>
      Unlocked(r).(status := "active", stage := Completed, nextRetryAt := None)
    case RetryScheduled(nextRetryAt) =>
      Unlocked(r).(retryCount := r.retryCount + 1, nextRetryAt := Some(nextRetryAt))
    case IngressFailed =>
      Unlocked(r).(status := "failed", stage := Failed, nextRetryAt := None)
    case GatewayDecommissioned =>
      Unlocked(r).(status := "decommissioned", stage := Deprovisioned, hostPort := None, targetGroup := None,
                   ruleArn := None, priority := None, nextRetryAt := None, deleted := true)
  }

  function Execute(r: Row, token: Token, w: Write, now: int): Row {
    if Matches(r, token, w) then Effect(r, w, now) else r
  }

  // ---------------------------------------------------------------- claim

  predicate Claimable(stage: Stage) {
    || stage.ContainerReady?
    || stage.CreatingTargetGroup?
    || stage.RegisteringTarget?
    || stage.WaitingForTargetHealth?
    || stage.CreatingListenerRule?
    || stage.Deprovisioning?
  }

  predicate Eligible(r: Row, now: int, timeout: int) {
    && !r.deleted
    && Claimable(r.stage)
    && (r.nextRetryAt.Some? ==> r.nextRetryAt.value <= now)
    && (r.lockedAt.Some? ==> r.lockedAt.value <= now - LockTimeout(timeout))
  }

  function Claimed(r: Row, token: Token, now: int): Row {
    r.(lockedAt := Some(now), lease := Some(token))
  }

  function JobOf(id: string, r: Row, token: Token): Job {
    Job(id, r.hostPort.GetOr(0), r.targetGroup.GetOr(""), r.ruleArn.GetOr(""), r.priority.GetOr(0),
        r.stage, r.retryCount, token)
  }

  // ---------------------------------------------------------------- admin writes

  predicate ValidPort(port: int) {
    1 <= port <= 65535
  }

  /** MarkContainerReady: it tests neither the stage nor the lease, and clears no lease. */
  function ContainerMarkedReady(r: Row, port: int, now: int): Row {
    if r.deleted || !ValidPort(port) then r
    else r.(hostPort := Some(port), status := "provisioning", stage := ContainerReady, retryCount := 0,
            nextRetryAt := Some(now))
  }

  function DeprovisioningQueued(r: Row, drain: int, now: int): Row {
    if r.deleted || r.status == "decommissioned" then r
    else
      var started := r.drainStartedAt.GetOr(now);
      var wait := if drain < 0 then 0 else drain;
      var again := r.stage == Deprovisioning;
      Unlocked(r).(
        status := "draining",
        drainStartedAt := Some(started),
        stage := Deprovisioning,
        retryCount := if again then r.retryCount else 0,
        nextRetryAt := if again && r.nextRetryAt.Some? then r.nextRetryAt else Some(started + wait))
  }

  /** GatewayRepo.UpdateStatus. */
  function StatusUpdated(r: Row, status: string): Row {
    if r.deleted then r else r.(status := status)
  }

  /** GatewayRepo.Decommission, run by the stale-drain reconciler. */
  function SoftDeleted(r: Row): Row {
    if r.deleted then r else r.(status := "decommissioned", deleted := true)
  }

  // ---------------------------------------------------------------- listener priorities

  predicate ValidRange(low: int, high: int) {
    1 <= low <= high <= 50000
  }

  ghost predicate HeldPriority(rows: map<string, Row>, p: int) {
    exists id :: id in rows && !rows[id].deleted && rows[id].priority == Some(p)
  }

  /** The set a NOT EXISTS subquery tests candidates against. */
  function HeldPriorities(rows: map<string, Row>): (held: set<int>)
    ensures forall p :: p in held <==> HeldPriority(rows, p)
  {
    set id | id in rows && !rows[id].deleted && rows[id].priority.Some? :: rows[id].priority.value
  }

  /** The first free candidate from `low` up: ORDER BY candidate LIMIT 1. */
  function LeastFree(held: set<int>, low: int, high: int): (r: Option<int>)
    ensures r.None? <==> forall p :: low <= p <= high ==> p in held
    ensures r.Some? ==> low <= r.value <= high && r.value !in held
    ensures r.Some? ==> forall p :: low <= p < r.value ==> p in held
    decreases high - low + 1
  {
    if low > high then None
    else if low !in held then Some(low)
    else LeastFree(held, low + 1, high)
  }

  datatype Reservation =
    | Reserved(priority: int)
    | InvalidRange
    | StaleLease
    | NoPriorityLeft

  /** The answer of the reservation transaction. */
  function ReservationFor(rows: map<string, Row>, id: string, token: Token, low: int, high: int): Reservation {
    if !ValidRange(low, high) then InvalidRange
    else if id !in rows || rows[id].deleted || rows[id].lease != Some(token) then StaleLease
    else if rows[id].priority.GetOr(0) > 0 then Reserved(rows[id].priority.value)
    else
      match LeastFree(HeldPriorities(rows), low, high)
      case None => NoPriorityLeft
      case Some(p) => Reserved(p)
  }

  /** The table after the reservation transaction. */
  function AfterReservation(rows: map<string, Row>, id: string, token: Token, low: int, high: int): map<string, Row> {
    match ReservationFor(rows, id, token, low, high)
    case Reserved(p) => rows[id := rows[id].(priority := Some(p))]
    case _ => rows
  }

  // ---------------------------------------------------------------- whole-table statements

  function ExecuteOn(rows: map<string, Row>, id: string, token: Token, w: Write, now: int): map<string, Row> {
    if id in rows then rows[id := Execute(rows[id], token, w, now)] else rows
  }

  predicate MatchesIn(rows: map<string, Row>, id: string, token: Token, w: Write) {
    id in rows && Matches(rows[id], token, w)
  }
}
