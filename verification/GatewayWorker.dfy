/**
 The dedicated-gateway worker. A handler talks to AWS and Docker and then issues one repository write,
 so it is a function from the claimed job and the answers it would get to that write.
 */
module GatewayWorker {
  import opened Options
  import opened GatewayTable
  import opened GatewayRepository
  import opened Queueing
  import Text

  const MAX_RETRIES := 10
  const HEALTH_POLL_INTERVAL := 15

  /** The answers AWS and Docker give to one handler run: None and false stand for errors. */
  datatype Cloud = Cloud(
    targetGroup: Option<string>,
    registered: bool,
    rule: Option<string>,
    health: Option<string>,
    ruleDeleted: bool,
    deregistered: bool,
    targetGroupDeleted: bool,
    containerRemoved: Option<bool>)

  /** Identifiers that AWS returns on success are not empty. */
  predicate Lawful(c: Cloud) {
    && (c.targetGroup.Some? ==> c.targetGroup.value != "")
    && (c.rule.Some? ==> c.rule.value != "")
  }

  function RetryOrFail(job: Job, now: int): Write {
    if job.retryCount + 1 >= MAX_RETRIES then IngressFailed
    else RetryScheduled(now + RetryDelay(job.retryCount + 1))
  }

  predicate DeprovisioningSucceeds(job: Job, c: Cloud) {
    && (job.ruleArn != "" ==> c.ruleDeleted)
    && (job.targetGroup != "" && job.hostPort > 0 ==> c.deregistered)
    && (job.targetGroup != "" ==> c.targetGroupDeleted)
    && c.containerRemoved == Some(true)
  }

  /**
   The write that ends one handler run. `reserved` is the listener priority the handler obtained, if any.
   None means that the status has no handler and the row keeps its lease until it expires.
   */
  function Decide(job: Job, reserved: Option<int>, c: Cloud, now: int): Option<Write> {
    match job.stage
    case ContainerReady =>
      Some(if !ValidPort(job.hostPort) then IngressFailed
           else if c.targetGroup.None? then RetryOrFail(job, now)
           else TargetGroupCreated(c.targetGroup.value))
    case RegisteringTarget =>
      Some(if job.targetGroup == "" then IngressFailed
           else if !c.registered then RetryOrFail(job, now)
           else TargetRegistered)
    case CreatingListenerRule =>
      Some(if job.targetGroup == "" then IngressFailed
           else if reserved.None? || c.rule.None? then RetryOrFail(job, now)
           else ListenerRuleCreated(c.rule.value, now + HEALTH_POLL_INTERVAL))
    case WaitingForTargetHealth =>
      Some(if job.targetGroup == "" then IngressFailed
           else if c.health.None? then RetryOrFail(job, now)
           else
             var state := Text.ToLower(Text.TrimSpace(c.health.value));
             if state == "healthy" then IngressActive
             else if state == "unhealthy" then RetryOrFail(job, now)
             else HealthCheckRescheduled(now + HEALTH_POLL_INTERVAL))
    case Deprovisioning =>
      Some(if DeprovisioningSucceeds(job, c) then GatewayDecommissioned else RetryOrFail(job, now))
    case _ => None
  }

  /** The branches that only a broken row could take: a bad port, a missing target group, an unsupported status. */
  predicate TakesBrokenRowBranch(job: Job) {
    match job.stage
    case ContainerReady => !ValidPort(job.hostPort)
    case RegisteringTarget | CreatingListenerRule | WaitingForTargetHealth => job.targetGroup == ""
    case Deprovisioning => false
    case _ => true
  }

  /** The table after one undisturbed handler run on a claimed job. */
  function HandledRows(rows: map<string, Row>, job: Job, c: Cloud, low: int, high: int, now: int): map<string, Row> {
    var id, token := job.externalId, job.token;
    var reserves := job.stage == CreatingListenerRule && job.targetGroup != "";
    var answer := ReservationFor(rows, id, token, low, high);
    var reserved := if reserves && answer.Reserved? then Some(answer.priority) else None;
    var rows' := if reserves then AfterReservation(rows, id, token, low, high) else rows;
    match Decide(job, reserved, c, now)
    case None => rows'
    case Some(w) => ExecuteOn(rows', id, token, w, now)
  }

  class GatewayProvisioner {
    const repo: GatewayRepo
    const low: int
    const high: int

    constructor (repo: GatewayRepo, low: int, high: int)
      ensures this.repo == repo && this.low == low && this.high == high
    {
      this.repo := repo;
      this.low := low;
      this.high := high;
    }

    method Issue(job: Job, w: Write, now: int) returns (ok: bool)
      modifies repo
      ensures ok <==> MatchesIn(old(repo.rows), job.externalId, job.token, w)
      ensures repo.rows == ExecuteOn(old(repo.rows), job.externalId, job.token, w, now)
    {
      match w
      case TargetGroupCreated(arn) => ok := repo.MarkGatewayTargetGroupCreated(job.externalId, job.token, arn, now);
      case TargetRegistered => ok := repo.MarkGatewayTargetRegistered(job.externalId, job.token, now);
      case ListenerRuleCreated(arn, next) =>
        ok := repo.MarkGatewayListenerRuleCreated(job.externalId, job.token, arn, next, now);
      case HealthCheckRescheduled(next) =>
        ok := repo.RescheduleGatewayHealthCheck(job.externalId, job.token, next, now);
      case IngressActive => ok := repo.MarkGatewayIngressActive(job.externalId, job.token, now);
      case RetryScheduled(next) => ok := repo.ScheduleGatewayIngressRetry(job.externalId, job.token, next, now);
      case IngressFailed => ok := repo.MarkGatewayIngressFailed(job.externalId, job.token, now);
      case GatewayDecommissioned => ok := repo.MarkGatewayDecommissioned(job.externalId, job.token, now);
    }

    /** Claim, handle, write, with nobody else touching the table meanwhile. */
    method ProcessNextJob(token: Token, c: Cloud, now: int) returns (job: Option<Job>)
      modifies repo
      ensures job.None? <==> forall id :: id in old(repo.rows) ==> !Eligible(old(repo.rows)[id], now, 300)
      ensures job.None? ==> repo.rows == old(repo.rows)
      ensures job.Some? ==>
        var id := job.value.externalId;
        && id in old(repo.rows)
        && Eligible(old(repo.rows)[id], now, 300)
        && job.value == JobOf(id, old(repo.rows)[id], token)
        && repo.rows ==
           HandledRows(old(repo.rows)[id := Claimed(old(repo.rows)[id], token, now)], job.value, c, low, high, now)
    {
      job := repo.ClaimNextGatewayIngressJob(token, now, 300);
      if job.None? {
        return;
      }
      var reserved := None;
      if job.value.stage == CreatingListenerRule && job.value.targetGroup != "" {
        var answer := repo.ReserveGatewayListenerRulePriority(job.value.externalId, token, low, high);
        if answer.Reserved? {
          reserved := Some(answer.priority);
        }
      }
      var w := Decide(job.value, reserved, c, now);
      if w.Some? {
        var ok := Issue(job.value, w.value, now);
      }
    }
  }
}
