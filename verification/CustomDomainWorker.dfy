/**
 The custom-domain worker and the admin service around it. A handler calls ACM and the load balancer and ends
 with exactly one repository write, so it is a function from the claimed job and the answers to that write.
 */
module CustomDomainWorker {
  import opened Options
  import opened CustomDomainTable
  import opened Queueing
  import Text

  const POLL_INTERVAL := 30

  /** An AWS call: its result, a failure that says "not found", or one classified as transient or terminal. */
  datatype Answer<T> = Done(value: T) | Missing(terminal: bool) | Error(terminal: bool)
  {
    predicate Terminal() {
      !Done? && terminal
    }
  }

  datatype Details = Details(status: string, failureReason: string, validationName: string, validationValue: string)

  datatype RuleAnswer = RuleReady(arn: string, priority: int) | RuleConflict | RuleError(terminal: bool)

  /** Everything one handler run may be told from outside; `ingress` is the project's gateway target group. */
  datatype Cloud = Cloud(
    request: Answer<string>,
    describe: Answer<Details>,
    attach: Answer<()>,
    ingress: Option<string>,
    ensureRule: RuleAnswer,
    deleteRule: Answer<()>,
    detach: Answer<()>,
    deleteCertificate: Answer<()>,
    hasLoadBalancer: bool,
    hasCertificates: bool,
    hasListener: bool)

  /** Identifiers that AWS returns on success are not empty. */
  predicate Lawful(c: Cloud) {
    && (c.request.Done? ==> c.request.value != "")
    && (c.ensureRule.RuleReady? ==> c.ensureRule.arn != "")
  }

  predicate Present(s: Option<string>) {
    s.Some? && s.value != ""
  }

  function RetryJob(job: Job, now: int): Write {
    Retry(job.row.stage, now + RetryDelay(job.row.attempts + 1))
  }

  function FailOrRetry(job: Job, terminal: bool, now: int): Write {
    if terminal then Fail(job.row.stage) else RetryJob(job, now)
  }

  function HandleRequesting(job: Job, c: Cloud, now: int): Write {
    var known := Present(job.row.arn);
    if !known && !c.request.Done? then FailOrRetry(job, c.request.Terminal(), now)
    else
      var arn := if known then job.row.arn else Some(c.request.value);
      Advance(RequestingCertificate, WaitingForValidationRecord,
              Certificate(arn, Some("pending_validation"), Some(true), None, None), now)
  }

  function HandleValidationRecord(job: Job, c: Cloud, now: int): Write {
    if !Present(job.row.arn) then Fail(WaitingForValidationRecord)
    else if !c.describe.Done? then FailOrRetry(job, c.describe.Terminal(), now)
    else
      var d := c.describe.value;
      if d.status == "FAILED" || d.failureReason != "" then Fail(WaitingForValidationRecord)
      else if d.validationName == "" || d.validationValue == "" then
        Poll(WaitingForValidationRecord, now + POLL_INTERVAL)
      else
        Advance(WaitingForValidationRecord, WaitingForDns,
                Certificate(None, Some(d.status), None, Some(d.validationName), Some(d.validationValue)),
                now + POLL_INTERVAL)
  }

  function AcmStatus(d: Details): string {
    Text.ToUpper(Text.TrimSpace(d.status))
  }

  predicate DeadStatus(status: string) {
    status in {"FAILED", "VALIDATION_TIMED_OUT", "REVOKED", "EXPIRED", "INACTIVE"}
  }

  function HandleDns(job: Job, c: Cloud, now: int): Write {
    if !Present(job.row.arn) then Fail(WaitingForDns)
    else if !c.describe.Done? then FailOrRetry(job, c.describe.Terminal(), now)
    else
      var status := AcmStatus(c.describe.value);
      if status == "ISSUED" then
        Advance(WaitingForDns, AttachingCertificate, Certificate(None, Some("issued"), None, None, None), now)
      else if status == "PENDING_VALIDATION" then Poll(WaitingForDns, now + POLL_INTERVAL)
      else if DeadStatus(status) then Fail(WaitingForDns)
      else FailOrRetry(job, job.row.attempts >= 5, now)
  }

  function HandleAttaching(job: Job, c: Cloud, now: int): Write {
    if !Present(job.row.arn) || !job.row.managed then Fail(AttachingCertificate)
    else if !c.describe.Done? then FailOrRetry(job, c.describe.Terminal(), now)
    else
      var status := AcmStatus(c.describe.value);
      if status == "PENDING_VALIDATION" then Poll(AttachingCertificate, now + POLL_INTERVAL)
      else if status != "ISSUED" then FailOrRetry(job, DeadStatus(status), now)
      else if !c.attach.Done? then FailOrRetry(job, c.attach.Terminal(), now)
      else if c.ingress.None? then RetryJob(job, now)
      else
        match c.ensureRule
        case RuleReady(arn, priority) => Complete(arn, priority)
        case RuleConflict => Fail(AttachingCertificate)
        case RuleError(terminal) => FailOrRetry(job, terminal, now)
  }

  /** The first cleanup call that fails for real; calls that the job or the configuration skips succeed. */
  function CleanupFailure(job: Job, c: Cloud): Option<bool> {
    var certificate := Present(job.row.arn) && job.row.managed;
    if job.row.ruleArn.Some? && Text.TrimSpace(job.row.ruleArn.value) != "" && c.hasLoadBalancer && c.deleteRule.Error?
    then Some(c.deleteRule.terminal)
    else if certificate && c.hasListener && c.hasLoadBalancer && c.detach.Error? then Some(c.detach.terminal)
    else if certificate && c.hasCertificates && c.deleteCertificate.Error? then Some(c.deleteCertificate.terminal)
    else None
  }

  function HandleDeprovisioning(job: Job, c: Cloud, now: int): Write {
    match CleanupFailure(job, c)
    case None => FinishDeprovisioning
    case Some(terminal) => if terminal then FailDeprovisioning else RetryJob(job, now)
  }

  /** ProcessNextJob after the claim. */
  function Decide(job: Job, c: Cloud, now: int): Write {
    match job.row.stage
    case RequestingCertificate => HandleRequesting(job, c, now)
    case WaitingForValidationRecord => HandleValidationRecord(job, c, now)
    case WaitingForDns => HandleDns(job, c, now)
    case AttachingCertificate => HandleAttaching(job, c, now)
    case Deprovisioning => HandleDeprovisioning(job, c, now)
    case _ => Release
  }

  /** Branches that only a broken row could take: no ARN, a certificate not ours, a status without handler. */
  predicate TakesBrokenRowBranch(job: Job) {
    match job.row.stage
    case RequestingCertificate => false
    case WaitingForValidationRecord | WaitingForDns => !Present(job.row.arn)
    case AttachingCertificate => !Present(job.row.arn) || !job.row.managed
    case Deprovisioning => false
    case _ => true
  }

  // ---------------------------------------------------------------- the admin service

  /** performRetry's choice of the stage to resume from, computed on the row the service read. */
  function RetryTarget(seen: Row): Stage {
    if !Present(seen.arn) then RequestingCertificate
    else if !Present(seen.validationName) then WaitingForValidationRecord
    else if seen.certStatus == Some("issued") then AttachingCertificate
    else WaitingForDns
  }

  /** VerifyCustomDomain on the row it read, when the TXT record matched. */
  function Verify(seen: Row, r: Row, now: int): Row {
    if seen.status == PendingVerification then VerifiedRow(r, seen.project, now) else r
  }

  /** CheckCustomDomainRouting on the row it read. */
  function CheckRouting(seen: Row, r: Row, ready: bool): Row {
    if seen.status == PendingVerification then r
    else RoutingUpdated(r, seen.project, if ready then RoutingReady else RoutingFailed)
  }

  /** ActivateCustomDomain on the row it read. */
  function Activate(seen: Row, r: Row, now: int): Row {
    if seen.status == Active || seen.stage == Completed || InPipeline(seen.stage) then r
    else if seen.status != Verified || seen.routing != RoutingReady then r
    else if seen.stage == Failed then ProvisioningReset(r, seen.project, RetryTarget(seen), now)
    else ProvisioningEnqueued(r, seen.project, now)
  }

  /** RetryProvisioning on the row it read. */
  function RetryProvisioning(seen: Row, r: Row, now: int): Row {
    if seen.stage != Failed || seen.status != Verified || seen.routing != RoutingReady then r
    else ProvisioningReset(r, seen.project, RetryTarget(seen), now)
  }

  /** RetryDeprovisioning on the row it read. */
  function RetryDeprovisioning(seen: Row, r: Row, now: int): Row {
    if seen.stage != DeprovisionFailed then r else DeprovisioningReset(r, seen.project, now)
  }
}
