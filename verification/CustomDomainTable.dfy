/** The `custom_domains` table and the statements on its provisioning columns, as functions on one row. */
module CustomDomainTable {
  import opened Options
  import opened Queueing
  import Text

  type Token = nat

  datatype Status = PendingVerification | Verified | Active

  datatype Routing = RoutingPending | RoutingReady | RoutingFailed

  datatype Stage =
    | NotStarted
    | RequestingCertificate
    | WaitingForValidationRecord
    | WaitingForDns
    | WaitingForCertificate
    | AttachingCertificate
    | Completed
    | Failed
    | Deprovisioning
    | Deprovisioned
    | DeprovisionFailed

  datatype Row = Row(
    project: string,
    hostname: string,
    createdAt: int,
    status: Status,
    verifiedAt: Option<int>,
    routing: Routing,
    stage: Stage,
    arn: Option<string>,
    certStatus: Option<string>,
    managed: bool,
    validationName: Option<string>,
    validationValue: Option<string>,
    ruleArn: Option<string>,
    rulePriority: Option<int>,
    attempts: nat,
    nextRetryAt: Option<int>,
    lockedAt: Option<int>,
    lease: Option<Token>,
    deleted: bool)

  /** A claimed job: the row as it was when the lease was taken. */
  datatype Job = Job(id: string, row: Row, token: Token)

  function Created(project: string, hostname: string, now: int): Row {
    Row(project, hostname, now, PendingVerification, None, RoutingPending, NotStarted, None, Some("not_requested"),
        false, None, None, None, None, 0, None, None, None, false)
  }

  /** The unique index on LOWER(hostname) over rows that are not deleted. */
  predicate HostnameTaken(rows: map<string, Row>, hostname: string) {
    exists id :: id in rows && !rows[id].deleted && Text.ToLower(rows[id].hostname) == Text.ToLower(hostname)
  }

  // ---------------------------------------------------------------- worker writes

  datatype Certificate = Certificate(
    arn: Option<string>,
    status: Option<string>,
    managed: Option<bool>,
    validationName: Option<string>,
    validationValue: Option<string>)

  datatype Write =
    | Advance(expected: Stage, next: Stage, cert: Certificate, nextRetryAt: int)
    | Poll(expected: Stage, nextPollAt: int)
    | Retry(expected: Stage, nextRetryAt: int)
    | Fail(expected: Stage)
    | Complete(ruleArn: string, rulePriority: int)
    | FinishDeprovisioning
    | FailDeprovisioning
    | Release

  /** The stage a write's WHERE clause names; releasing a lease names none. */
  function ExpectedStage(w: Write): Option<Stage> {
    match w
    case Advance(expected, _, _, _) => Some(expected)
    case Poll(expected, _) => Some(expected)
    case Retry(expected, _) => Some(expected)
    case Fail(expected) => Some(expected)
    case Complete(_, _) => Some(AttachingCertificate)
    case FinishDeprovisioning => Some(Deprovisioning)
    case FailDeprovisioning => Some(Deprovisioning)
    case Release => None
  }

  /** The two writes that end teardown do not test deleted_at. */
  predicate Matches(r: Row, token: Token, w: Write) {
    && r.lease == Some(token)
    && (ExpectedStage(w).Some? ==> r.stage == ExpectedStage(w).value)
    && (w.FinishDeprovisioning? || w.FailDeprovisioning? || !r.deleted)
  }

  function Unlocked(r: Row): Row {
    r.(lockedAt := None, lease := None)
  }

  function Effect(r: Row, w: Write): Row {
    match w
    case Advance(_, next, cert, nextRetryAt) =>
      Unlocked(r).(
        stage := next,
        arn := cert.arn.OrElse(r.arn),
        certStatus := cert.status.OrElse(r.certStatus),
        managed := cert.managed.GetOr(r.managed),
        validationName := cert.validationName.OrElse(r.validationName),
        validationValue := cert.validationValue.OrElse(r.validationValue),
        nextRetryAt := Some(nextRetryAt))
    case Poll(_, nextPollAt) => Unlocked(r).(nextRetryAt := Some(nextPollAt))
    case Retry(_, nextRetryAt) => Unlocked(r).(attempts := r.attempts + 1, nextRetryAt := Some(nextRetryAt))
    case Fail(_) => Unlocked(r).(stage := Failed, attempts := r.attempts + 1, nextRetryAt := None)
    case Complete(ruleArn, rulePriority) =>
      Unlocked(r).(status := Active, stage := Completed, certStatus := Some("issued"), ruleArn := Some(ruleArn),
                   rulePriority := Some(rulePriority), nextRetryAt := None)
    case FinishDeprovisioning => Unlocked(r).(stage := Deprovisioned, deleted := true, nextRetryAt := None)
    case FailDeprovisioning => Unlocked(r).(stage := DeprovisionFailed)
    case Release => Unlocked(r)
  }

  function Execute(r: Row, token: Token, w: Write): Row {
    if Matches(r, token, w) then Effect(r, w) else r
  }

  datatype Outcome = Ok | NotFound | StaleLease | InvalidTransition

  /** What the caller is told when a guarded write touched no row. */
  function Diagnose(rows: map<string, Row>, id: string, token: Token, expected: Stage): Outcome {
    if id !in rows then NotFound
    else if rows[id].deleted || rows[id].lease != Some(token) then StaleLease
    else if rows[id].stage != expected then InvalidTransition
    else StaleLease
  }

  function OutcomeOf(rows: map<string, Row>, id: string, token: Token, w: Write): Outcome {
    if id in rows && Matches(rows[id], token, w) then Ok
    else if ExpectedStage(w).None? then StaleLease
    else Diagnose(rows, id, token, ExpectedStage(w).value)
  }

  function ExecuteOn(rows: map<string, Row>, id: string, token: Token, w: Write): map<string, Row> {
    if id in rows then rows[id := Execute(rows[id], token, w)] else rows
  }

  // ---------------------------------------------------------------- claim

  predicate InPipeline(stage: Stage) {
    || stage.RequestingCertificate?
    || stage.WaitingForValidationRecord?
    || stage.WaitingForDns?
    || stage.WaitingForCertificate?
    || stage.AttachingCertificate?
  }

  predicate Teardown(stage: Stage) {
    stage.Deprovisioning? || stage.Deprovisioned? || stage.DeprovisionFailed?
  }

  predicate Claimable(stage: Stage) {
    InPipeline(stage) || stage.Deprovisioning?
  }

  predicate Eligible(r: Row, now: int, timeout: int) {
    && !r.deleted
    && Claimable(r.stage)
    && (r.nextRetryAt.Some? ==> r.nextRetryAt.value <= now)
    && (r.lockedAt.Some? ==> r.lockedAt.value <= now - LockTimeout(timeout))
  }

  function Claimed(r: Row, token: Token, now: int): Row {
    r.(lockedAt := Some(now), lease := Some(token))
  }

  // ---------------------------------------------------------------- admin statements

  /** GetByIDForProject and the first three conjuncts of every admin WHERE clause. */
  predicate Visible(r: Row, project: string) {
    r.project == project && !r.deleted
  }

  function VerifiedRow(r: Row, project: string, now: int): Row {
    if Visible(r, project) then r.(status := Verified, verifiedAt := Some(now)) else r
  }

  function RoutingUpdated(r: Row, project: string, routing: Routing): Row {
    if Visible(r, project) then r.(routing := routing) else r
  }

  function ActivatedRow(r: Row, project: string): Row {
    if Visible(r, project) && r.status == Verified && r.routing == RoutingReady then r.(status := Active) else r
  }

  function SoftDeleted(r: Row, project: string): Row {
    if Visible(r, project) then r.(deleted := true) else r
  }

  predicate CanEnqueue(r: Row, project: string) {
    Visible(r, project) && r.status == Verified && r.routing == RoutingReady && (r.stage.NotStarted? || r.stage.Failed?)
  }

  function Requeued(r: Row, stage: Stage, now: int): Row {
    Unlocked(r).(stage := stage, attempts := 0, nextRetryAt := Some(now))
  }

  function ProvisioningEnqueued(r: Row, project: string, now: int): Row {
    if CanEnqueue(r, project) then Requeued(r, RequestingCertificate, now) else r
  }

  function ProvisioningReset(r: Row, project: string, target: Stage, now: int): Row {
    if Visible(r, project) && r.stage == Failed then Requeued(r, target, now) else r
  }

  function DeprovisioningEnqueued(r: Row, project: string, now: int): Row {
    if Visible(r, project) && !r.stage.Deprovisioning? && !r.stage.Deprovisioned?
    then Unlocked(r).(stage := Deprovisioning, nextRetryAt := Some(now))
    else r
  }

  function DeprovisioningReset(r: Row, project: string, now: int): Row {
    if Visible(r, project) && r.stage == DeprovisionFailed then Requeued(r, Deprovisioning, now) else r
  }
}
