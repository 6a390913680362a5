/** What the answers of ACM and the load balancer do to a custom domain, in one write and over whole runs. */
module CustomDomainOutcomes {
  import opened Options
  import opened CustomDomainTable
  import opened CustomDomainWorker
  import opened CustomDomainSystem
  import opened CustomDomainTheorems
  import opened Queueing
  import Text

  // ---------------------------------------------------------------- one write

  /** ACM described the certificate with this status, whatever its case and padding. */
  predicate Said(c: Cloud, status: string) {
    c.describe.Done? && Text.ToUpper(Text.TrimSpace(c.describe.value.status)) == status
  }

  predicate SaidDead(c: Cloud) {
    || Said(c, "FAILED") || Said(c, "VALIDATION_TIMED_OUT") || Said(c, "REVOKED") || Said(c, "EXPIRED")
    || Said(c, "INACTIVE")
  }

  /** An error that another attempt may get over, and one that it will not. */
  predicate Passing<T>(a: Answer<T>) {
    !a.Done? && !a.terminal
  }

  predicate Final<T>(a: Answer<T>) {
    !a.Done? && a.terminal
  }

  predicate GaveUp(r: Row, r': Row) {
    r' == r.(stage := Failed, attempts := r.attempts + 1, nextRetryAt := None, lockedAt := None, lease := None)
  }

  predicate Retried(r: Row, now: int, r': Row) {
    r' == r.(attempts := r.attempts + 1, nextRetryAt := Some(now + RetryDelay(r.attempts + 1)), lockedAt := None,
             lease := None)
  }

  predicate Polled(r: Row, now: int, r': Row) {
    r' == r.(nextRetryAt := Some(now + 30), lockedAt := None, lease := None)
  }

  ghost predicate RequestAnswered(r: Row, c: Cloud, now: int, r': Row) {
    if r.arn.Some? || c.request.Done?
    then r' == r.(stage := WaitingForValidationRecord, arn := if r.arn.Some? then r.arn else Some(c.request.value),
                  certStatus := Some("pending_validation"), managed := true, nextRetryAt := Some(now),
                  lockedAt := None, lease := None)
    else if Final(c.request) then GaveUp(r, r')
    else Retried(r, now, r')
  }

  ghost predicate RecordAnswered(r: Row, c: Cloud, now: int, r': Row) {
    if Passing(c.describe) then Retried(r, now, r')
    else if Final(c.describe) || c.describe.value.status == "FAILED" || c.describe.value.failureReason != ""
    then GaveUp(r, r')
    else
      var d := c.describe.value;
      if d.validationName != "" && d.validationValue != ""
      then r' == r.(stage := WaitingForDns, certStatus := Some(d.status), validationName := Some(d.validationName),
                    validationValue := Some(d.validationValue), nextRetryAt := Some(now + 30), lockedAt := None,
                    lease := None)
      else Polled(r, now, r')
  }

  ghost predicate DnsAnswered(r: Row, c: Cloud, now: int, r': Row) {
    if Said(c, "ISSUED")
    then r' == r.(stage := AttachingCertificate, certStatus := Some("issued"), nextRetryAt := Some(now),
                  lockedAt := None, lease := None)
    else if Said(c, "PENDING_VALIDATION") then Polled(r, now, r')
    else if Final(c.describe) || SaidDead(c) || (c.describe.Done? && r.attempts >= 5) then GaveUp(r, r')
    else Retried(r, now, r')
  }

  ghost predicate AttachAnswered(r: Row, c: Cloud, now: int, r': Row) {
    var issued := Said(c, "ISSUED");
    if issued && c.attach.Done? && c.ingress.Some? && c.ensureRule.RuleReady?
    then r' == r.(status := Active, stage := Completed, certStatus := Some("issued"),
                  ruleArn := Some(c.ensureRule.arn), rulePriority := Some(c.ensureRule.priority), nextRetryAt := None,
                  lockedAt := None, lease := None)
    else if Said(c, "PENDING_VALIDATION") then Polled(r, now, r')
    else if Final(c.describe) || SaidDead(c) || (issued && Final(c.attach))
            || (issued && c.attach.Done? && c.ingress.Some?
                && (c.ensureRule.RuleConflict? || c.ensureRule == RuleError(true)))
    then GaveUp(r, r')
    else Retried(r, now, r')
  }

  /** The cleanup calls that the row's columns and the configuration ask for, in the order they are made. */
  predicate DeletesRule(ruleArn: Option<string>, c: Cloud) {
    ruleArn.Some? && Text.TrimSpace(ruleArn.value) != "" && c.hasLoadBalancer
  }

  predicate Detaches(arn: Option<string>, managed: bool, c: Cloud) {
    arn.Some? && managed && c.hasListener && c.hasLoadBalancer
  }

  predicate DeletesCertificate(arn: Option<string>, managed: bool, c: Cloud) {
    arn.Some? && managed && c.hasCertificates
  }

  /** None of them failed; a resource that is gone already counts as removed. */
  predicate CleanedUp(ruleArn: Option<string>, arn: Option<string>, managed: bool, c: Cloud) {
    && (DeletesRule(ruleArn, c) ==> !c.deleteRule.Error?)
    && (Detaches(arn, managed, c) ==> !c.detach.Error?)
    && (DeletesCertificate(arn, managed, c) ==> !c.deleteCertificate.Error?)
  }

  /** The first one that failed will fail again. */
  predicate StuckCleanup(ruleArn: Option<string>, arn: Option<string>, managed: bool, c: Cloud) {
    if DeletesRule(ruleArn, c) && c.deleteRule.Error? then c.deleteRule.terminal
    else if Detaches(arn, managed, c) && c.detach.Error? then c.detach.terminal
    else DeletesCertificate(arn, managed, c) && c.deleteCertificate.Error? && c.deleteCertificate.terminal
  }

  ghost predicate TeardownAnswered(r: Row, c: Cloud, now: int, r': Row) {
    if CleanedUp(r.ruleArn, r.arn, r.managed, c)
    then r' == r.(stage := Deprovisioned, deleted := true, nextRetryAt := None, lockedAt := None, lease := None)
    else if StuckCleanup(r.ruleArn, r.arn, r.managed, c)
    then r' == r.(stage := DeprovisionFailed, lockedAt := None, lease := None)
    else Retried(r, now, r')
  }

  /** How a row that a worker holds depends on what the worker was told. */
  ghost predicate Answered(r: Row, c: Cloud, now: int, r': Row) {
    match r.stage
    case RequestingCertificate => RequestAnswered(r, c, now, r')
    case WaitingForValidationRecord => RecordAnswered(r, c, now, r')
    case WaitingForDns => DnsAnswered(r, c, now, r')
    case AttachingCertificate => AttachAnswered(r, c, now, r')
    case Deprovisioning => TeardownAnswered(r, c, now, r')
    case _ => r' == r.(lockedAt := None, lease := None)
  }

  lemma RequestDecides(r: Row, job: Job, c: Cloud, now: int)
    requires SamePicture(r, job.row) && r.stage == RequestingCertificate && (r.arn.Some? ==> r.arn.value != "")
    ensures RequestAnswered(r, c, now, Effect(r, HandleRequesting(job, c, now)))
  {
  }

  lemma RecordDecides(r: Row, job: Job, c: Cloud, now: int)
    requires SamePicture(r, job.row) && r.stage == WaitingForValidationRecord && Present(r.arn)
    ensures RecordAnswered(r, c, now, Effect(r, HandleValidationRecord(job, c, now)))
  {
  }

  /** The switch over ACM's statuses has disjoint cases. */
  lemma StatusCases(c: Cloud)
    requires c.describe.Done?
    ensures DeadStatus(AcmStatus(c.describe.value)) <==> SaidDead(c)
    ensures Said(c, "ISSUED") <==> AcmStatus(c.describe.value) == "ISSUED"
    ensures Said(c, "PENDING_VALIDATION") <==> AcmStatus(c.describe.value) == "PENDING_VALIDATION"
    ensures !(Said(c, "ISSUED") && Said(c, "PENDING_VALIDATION"))
    ensures Said(c, "ISSUED") || Said(c, "PENDING_VALIDATION") ==> !SaidDead(c)
  {
    hide Text.ToUpper, Text.TrimSpace;
  }

  lemma UnansweredSaysNothing(c: Cloud)
    requires !c.describe.Done?
    ensures !SaidDead(c) && forall status :: !Said(c, status)
  {
  }

  lemma DnsDecides(r: Row, job: Job, c: Cloud, now: int)
    requires SamePicture(r, job.row) && r.stage == WaitingForDns && Present(r.arn)
    ensures DnsAnswered(r, c, now, Effect(r, HandleDns(job, c, now)))
  {
    if c.describe.Done? {
      StatusCases(c);
    } else {
      UnansweredSaysNothing(c);
    }
    hide Said, SaidDead, DeadStatus, AcmStatus;
  }

  lemma AttachDecides(r: Row, job: Job, c: Cloud, now: int)
    requires SamePicture(r, job.row) && r.stage == AttachingCertificate && Present(r.arn) && r.managed
    ensures AttachAnswered(r, c, now, Effect(r, HandleAttaching(job, c, now)))
  {
    if c.describe.Done? {
      StatusCases(c);
    } else {
      UnansweredSaysNothing(c);
    }
    hide Said, SaidDead, DeadStatus, AcmStatus;
  }

  lemma CleanupCases(job: Job, c: Cloud)
    requires job.row.arn.Some? ==> job.row.arn.value != ""
    ensures CleanupFailure(job, c).None? <==> CleanedUp(job.row.ruleArn, job.row.arn, job.row.managed, c)
    ensures CleanupFailure(job, c).Some? ==>
      CleanupFailure(job, c).value == StuckCleanup(job.row.ruleArn, job.row.arn, job.row.managed, c)
  {
    hide Text.TrimSpace;
  }

  lemma TeardownDecides(r: Row, job: Job, c: Cloud, now: int)
    requires SamePicture(r, job.row) && r.stage == Deprovisioning && (r.arn.Some? ==> r.arn.value != "")
    ensures TeardownAnswered(r, c, now, Effect(r, HandleDeprovisioning(job, c, now)))
  {
    CleanupCases(job, c);
    hide CleanupFailure, CleanedUp, StuckCleanup;
  }

  lemma DecisionAnswers(r: Row, job: Job, c: Cloud, now: int)
    requires RowOk(r) && SamePicture(r, job.row) && Claimable(r.stage)
    ensures Answered(r, c, now, Effect(r, Decide(job, c, now)))
  {
    hide Effect, RequestAnswered, RecordAnswered, DnsAnswered, AttachAnswered, TeardownAnswered, HandleRequesting,
      HandleValidationRecord, HandleDns, HandleAttaching, HandleDeprovisioning;
    match r.stage
    case RequestingCertificate => RequestDecides(r, job, c, now);
    case WaitingForValidationRecord => RecordDecides(r, job, c, now);
    case WaitingForDns => DnsDecides(r, job, c, now);
    case AttachingCertificate => AttachDecides(r, job, c, now);
    case Deprovisioning => TeardownDecides(r, job, c, now);
  }

  /** The row one undisturbed turn leaves. */
  function HandledRow(id: string, r: Row, token: Token, c: Cloud, now: int): Row {
    Effect(Claimed(r, token, now), Decide(Job(id, Claimed(r, token, now), token), c, now))
  }

  /** One undisturbed turn, as `Provisioner.ProcessNextJob` leaves the row. */
  lemma TurnAnswers(id: string, r: Row, token: Token, c: Cloud, now: int)
    requires RowOk(r) && Eligible(r, now, 300)
    ensures var claimed := r.(lockedAt := Some(now), lease := Some(token));
      Answered(claimed, c, now, HandledRow(id, r, token, c, now))
  {
    var claimed := Claimed(r, token, now);
    assert RowOk(claimed);
    hide Decide, Answered, RowOk, Effect;
    DecisionAnswers(claimed, Job(id, claimed, token), c, now);
  }

  /** From the three admin calls to a queued domain. */
  lemma AdminCallsQueue(project: string, hostname: string, t0: int, t1: int, t2: int)
    ensures var r0 := Created(project, hostname, t0);
      var r1 := AdminEffect(r0, r0, VerifyCall(t1));
      var r2 := AdminEffect(r1, r1, RoutingCall(true));
      AdminEffect(r2, r2, ActivateCall(t2))
        == r0.(status := Verified, verifiedAt := Some(t1), routing := RoutingReady, stage := RequestingCertificate,
               nextRetryAt := Some(t2))
  {
  }

  /** When every call succeeds, four turns take a queued domain to completed and active, with what AWS returned. */
  lemma FourTurnsComplete(id: string, r: Row, token: Token, c: Cloud, t1: int, t2: int, t3: int, t4: int)
    requires RowOk(r) && !r.deleted && r.stage == RequestingCertificate && r.arn.None? && r.lockedAt.None?
    requires r.nextRetryAt.Some? && r.nextRetryAt.value <= t1 <= t2 && t2 + 30 <= t3 <= t4
    requires Lawful(c) && c.request.Done? && c.describe.Done? && Said(c, "ISSUED")
    requires c.describe.value.failureReason == "" && c.describe.value.status != "FAILED"
    requires c.describe.value.validationName != "" && c.describe.value.validationValue != ""
    requires c.attach.Done? && c.ingress.Some? && c.ensureRule.RuleReady?
    ensures var r3 := HandledRow(id, HandledRow(id, HandledRow(id, r, token, c, t1), token, c, t2), token, c, t3);
      var r4 := HandledRow(id, r3, token, c, t4);
      && r4.stage == Completed && r4.status == Active && r4.arn == Some(c.request.value)
      && r4.certStatus == Some("issued") && r4.ruleArn == Some(c.ensureRule.arn)
      && r4.rulePriority == Some(c.ensureRule.priority) && !r4.deleted && r4.lease.None?
  {
    hide HandledRow, Said;
    TurnAnswers(id, r, token, c, t1);
    var r1 := HandledRow(id, r, token, c, t1);
    TurnAnswers(id, r1, token, c, t2);
    var r2 := HandledRow(id, r1, token, c, t2);
    TurnAnswers(id, r2, token, c, t3);
    var r3 := HandledRow(id, r2, token, c, t3);
    TurnAnswers(id, r3, token, c, t4);
  }

  /** The writer still holds its row. */
  predicate Holds(s: System, step: Step) {
    && step.WorkerWrite? && step.token in s.held && s.held[step.token].id in s.rows
    && s.rows[s.held[step.token].id].lease == Some(step.token)
  }

  /**
   A worker's write, however late: while its token is on the row the domain moves on exactly when the answers of its
   stage allow it, and is polled, retried or given up otherwise. A row deleted meanwhile may also stay as it is.
   */
  lemma AnswersDecide(s: System, step: Step)
    requires Inv(s) && Enabled(s, step) && Holds(s, step)
    ensures var id := s.held[step.token].id;
      && id in Apply(s, step).rows
      && (Answered(s.rows[id], step.cloud, step.now, Apply(s, step).rows[id])
          || (s.rows[id].deleted && Apply(s, step) == s))
  {
    var job := s.held[step.token];
    var r := s.rows[job.id];
    var w := Decide(job, step.cloud, step.now);
    assert JobOk(s.rows, step.token, job) && RowOk(r);
    DecisionFits(job, step.cloud, step.now);
    assert Claimable(r.stage) && SamePicture(r, job.row);
    hide Decide, Answered, RowOk, Effect, Lawful;
    DecisionAnswers(r, job, step.cloud, step.now);
    if r.deleted {
      assert s.rows[job.id := r] == s.rows;
    } else {
      assert Matches(r, step.token, w);
    }
  }

  // ---------------------------------------------------------------- whole runs

  /** What the outside world has told the system: answers to a worker, a matching TXT record, a routing check. */
  datatype Fact = Told(job: Job, cloud: Cloud) | TxtMatched(id: string, at: int) | RoutingFound(id: string, ready: bool)

  function FactsOf(s: System, step: Step): set<Fact> {
    match step
    case WorkerWrite(token, cloud, _) => if Holds(s, step) then {Told(s.held[token], cloud)} else {}
    case AdminWrite(id, _, VerifyCall(now)) => {TxtMatched(id, now)}
    case AdminWrite(id, _, RoutingCall(ready)) => {RoutingFound(id, ready)}
    case _ => {}
  }

  ghost function Facts(s: System, steps: seq<Step>): set<Fact>
    decreases |steps|
  {
    if steps == [] || !Enabled(s, steps[0]) then {}
    else FactsOf(s, steps[0]) + Facts(Apply(s, steps[0]), steps[1..])
  }

  /** A worker holding the domain was told something while the certificate was already known. */
  predicate ToldAbout(f: Fact, id: string, arn: Option<string>) {
    f.Told? && f.job.id == id && f.job.row.arn == arn
  }

  /** ACM returned this ARN to a request for the domain's certificate. */
  ghost predicate Requested(facts: set<Fact>, id: string, arn: Option<string>) {
    exists f :: f in facts && f.Told? && f.job.id == id && f.job.row.stage == RequestingCertificate
                && f.cloud.request.Done? && arn == Some(f.cloud.request.value)
  }

  /** ACM returned this validation record for the certificate. */
  ghost predicate GaveRecord(facts: set<Fact>, id: string, arn: Option<string>, name: Option<string>,
                             value: Option<string>) {
    exists f :: f in facts && ToldAbout(f, id, arn) && f.cloud.describe.Done?
                && name == Some(f.cloud.describe.value.validationName)
                && value == Some(f.cloud.describe.value.validationValue)
  }

  /** ACM called the certificate issued. */
  ghost predicate Issued(facts: set<Fact>, id: string, arn: Option<string>) {
    exists f :: f in facts && ToldAbout(f, id, arn) && Said(f.cloud, "ISSUED")
  }

  /** While it was issued, it was attached and this rule was in place for the project's own gateway. */
  ghost predicate PutInPlace(facts: set<Fact>, id: string, arn: Option<string>, ruleArn: Option<string>,
                             priority: Option<int>) {
    exists f :: f in facts && ToldAbout(f, id, arn) && Said(f.cloud, "ISSUED") && f.cloud.attach.Done?
                && f.cloud.ingress.Some? && f.cloud.ensureRule.RuleReady?
                && ruleArn == Some(f.cloud.ensureRule.arn) && priority == Some(f.cloud.ensureRule.priority)
  }

  /** Rule, listener certificate and certificate were removed as far as they were needed. */
  ghost predicate Removed(facts: set<Fact>, id: string, ruleArn: Option<string>, arn: Option<string>, managed: bool) {
    exists f :: f in facts && ToldAbout(f, id, arn) && f.job.row.stage == Deprovisioning
                && CleanedUp(ruleArn, arn, managed, f.cloud)
  }

  /** Everything the row records about its certificate, routing and ownership goes back to an answer. */
  ghost predicate Earned(facts: set<Fact>, id: string, r: Row) {
    && (r.arn.Some? ==> Requested(facts, id, r.arn))
    && (r.validationName.Some? ==> GaveRecord(facts, id, r.arn, r.validationName, r.validationValue))
    && (r.certStatus == Some("issued") ==> Issued(facts, id, r.arn))
    && (r.stage in {AttachingCertificate, Completed} ==> Issued(facts, id, r.arn))
    && (r.stage == Completed ==> PutInPlace(facts, id, r.arn, r.ruleArn, r.rulePriority))
    && (r.stage == Deprovisioned ==> Removed(facts, id, r.ruleArn, r.arn, r.managed))
    && (r.verifiedAt.Some? ==> TxtMatched(id, r.verifiedAt.value) in facts)
    && (r.routing == RoutingReady || NeedsVerification(r.stage) ==> RoutingFound(id, true) in facts)
    && (r.routing == RoutingFailed ==> RoutingFound(id, false) in facts)
  }

  ghost predicate AllEarned(facts: set<Fact>, s: System) {
    && (forall id :: id in s.rows ==> Earned(facts, id, s.rows[id]))
    && (forall id, row :: (id, row) in s.seen ==> Earned(facts, id, row))
  }

  lemma MoreFacts(facts: set<Fact>, more: set<Fact>, id: string, r: Row)
    requires Earned(facts, id, r) && facts <= more
    ensures Earned(more, id, r)
  {
    hide Said, CleanedUp;
  }

  lemma LowerCaseIssued(status: string)
    requires status == "issued"
    ensures Text.ToUpper(Text.TrimSpace(status)) == "ISSUED"
  {
    assert Text.TrimLeft("issued") == "issued" && Text.TrimRight("issued") == "issued";
  }

  /** The columns that the evidence is about are unchanged, and the stage asks for no more of it. */
  predicate Harmless(r: Row, r': Row) {
    && r'.arn == r.arn && r'.validationName == r.validationName && r'.validationValue == r.validationValue
    && (r'.certStatus == r.certStatus || r'.certStatus != Some("issued"))
    && r'.ruleArn == r.ruleArn && r'.rulePriority == r.rulePriority && r'.managed == r.managed
    && r'.verifiedAt == r.verifiedAt && r'.routing == r.routing
    && (r'.stage == r.stage
        || (r'.stage !in {AttachingCertificate, Completed, Deprovisioned}
            && (NeedsVerification(r'.stage) ==> NeedsVerification(r.stage) || r.routing == RoutingReady)))
  }

  lemma HarmlessKeepsEarned(facts: set<Fact>, id: string, r: Row, r': Row)
    requires Earned(facts, id, r) && Harmless(r, r')
    ensures Earned(facts, id, r')
  {
    hide Requested, GaveRecord, Issued, PutInPlace, Removed;
  }

  /** The fact f is an answer to the worker that holds the row. */
  ghost predicate Heard(facts: set<Fact>, f: Fact, id: string, r: Row) {
    Earned(facts, id, r) && RowOk(r) && f in facts && f.Told? && f.job.id == id && SamePicture(r, f.job.row)
  }

  lemma HeardMeans(facts: set<Fact>, f: Fact, id: string, r: Row)
    requires Heard(facts, f, id, r)
    ensures Earned(facts, id, r) && f in facts && f.Told? && f.job.id == id && f.job.row.stage == r.stage
    ensures ToldAbout(f, id, r.arn)
    ensures r.validationName.Some? ==> r.arn.Some?
  {
  }

  /** An answer that leaves the row where it is, or gives it up, asks for no evidence. */
  lemma UnfinishedIsHarmless(r: Row, c: Cloud, now: int, r': Row)
    requires Answered(r, c, now, r') && Claimable(r.stage) && r'.stage in {r.stage, Failed, DeprovisionFailed}
    ensures Harmless(r, r')
  {
    hide Said, SaidDead, CleanedUp, StuckCleanup;
    match r.stage
    case RequestingCertificate =>
    case WaitingForValidationRecord =>
    case WaitingForDns =>
    case AttachingCertificate =>
    case Deprovisioning =>
    case _ =>
  }

  /** Otherwise the row moves on by one stage. */
  lemma FinishedMovesOn(r: Row, c: Cloud, now: int, r': Row)
    requires Answered(r, c, now, r') && Claimable(r.stage) && r.stage != WaitingForCertificate
    requires r'.stage !in {r.stage, Failed, DeprovisionFailed}
    ensures NextStage(r.stage, r'.stage) && r'.stage != Deprovisioning
  {
    hide Said, SaidDead, CleanedUp, StuckCleanup;
    match r.stage
    case RequestingCertificate =>
    case WaitingForValidationRecord =>
    case WaitingForDns =>
    case AttachingCertificate =>
    case Deprovisioning =>
  }

  lemma RequestEarns(facts: set<Fact>, f: Fact, id: string, r: Row, now: int, r': Row)
    requires Heard(facts, f, id, r) && r.stage == RequestingCertificate && RequestAnswered(r, f.cloud, now, r')
    requires r'.stage == WaitingForValidationRecord
    ensures Earned(facts, id, r')
  {
    HeardMeans(facts, f, id, r);
    hide Heard, GaveRecord, Issued, PutInPlace, Removed;
    assert r.arn.None? ==> Requested(facts, id, r'.arn);
    hide Requested;
  }

  lemma RecordEarns(facts: set<Fact>, f: Fact, id: string, r: Row, now: int, r': Row)
    requires Heard(facts, f, id, r) && r.stage == WaitingForValidationRecord && RecordAnswered(r, f.cloud, now, r')
    requires r'.stage == WaitingForDns
    ensures Earned(facts, id, r')
  {
    HeardMeans(facts, f, id, r);
    hide Heard, Requested, PutInPlace, Removed, ToldAbout;
    assert GaveRecord(facts, id, r'.arn, r'.validationName, r'.validationValue);
    if r'.certStatus == Some("issued") {
      LowerCaseIssued(f.cloud.describe.value.status);
      assert Issued(facts, id, r'.arn);
    }
    hide GaveRecord, Issued;
  }

  lemma DnsEarns(facts: set<Fact>, f: Fact, id: string, r: Row, now: int, r': Row)
    requires Heard(facts, f, id, r) && r.stage == WaitingForDns && DnsAnswered(r, f.cloud, now, r')
    requires r'.stage == AttachingCertificate
    ensures Earned(facts, id, r')
  {
    HeardMeans(facts, f, id, r);
    hide Heard, SaidDead, Said, Requested, GaveRecord, PutInPlace, Removed, ToldAbout;
    assert Issued(facts, id, r'.arn);
    hide Issued;
  }

  lemma AttachEarns(facts: set<Fact>, f: Fact, id: string, r: Row, now: int, r': Row)
    requires Heard(facts, f, id, r) && r.stage == AttachingCertificate && AttachAnswered(r, f.cloud, now, r')
    requires r'.stage == Completed
    ensures Earned(facts, id, r')
  {
    HeardMeans(facts, f, id, r);
    hide Heard, SaidDead, Said, Requested, GaveRecord, Removed, ToldAbout;
    assert Issued(facts, id, r'.arn) && PutInPlace(facts, id, r'.arn, r'.ruleArn, r'.rulePriority);
    hide Issued, PutInPlace;
  }

  lemma TeardownEarns(facts: set<Fact>, f: Fact, id: string, r: Row, now: int, r': Row)
    requires Heard(facts, f, id, r) && r.stage == Deprovisioning && TeardownAnswered(r, f.cloud, now, r')
    requires r'.stage == Deprovisioned
    ensures Earned(facts, id, r')
  {
    HeardMeans(facts, f, id, r);
    hide Heard, CleanedUp, StuckCleanup, Requested, GaveRecord, Issued, PutInPlace, ToldAbout;
    assert Removed(facts, id, r'.ruleArn, r'.arn, r'.managed);
    hide Removed;
  }

  lemma AnswerEarns(facts: set<Fact>, id: string, r: Row, job: Job, c: Cloud, now: int, r': Row)
    requires Earned(facts, id, r) && RowOk(r) && SamePicture(r, job.row) && job.id == id && Claimable(r.stage)
    requires Answered(r, c, now, r')
    ensures Earned(facts + {Told(job, c)}, id, r')
  {
    var f := Told(job, c);
    var more := facts + {f};
    MoreFacts(facts, more, id, r);
    assert Heard(more, f, id, r);
    assert r.stage != WaitingForCertificate;
    hide Heard, RowOk, Earned, SamePicture, Harmless, RequestAnswered, RecordAnswered, DnsAnswered, AttachAnswered,
      TeardownAnswered;
    if r'.stage in {r.stage, Failed, DeprovisionFailed} {
      UnfinishedIsHarmless(r, c, now, r');
      HarmlessKeepsEarned(more, id, r, r');
    } else {
      FinishedMovesOn(r, c, now, r');
      match r.stage
      case RequestingCertificate => RequestEarns(more, f, id, r, now, r');
      case WaitingForValidationRecord => RecordEarns(more, f, id, r, now, r');
      case WaitingForDns => DnsEarns(more, f, id, r, now, r');
      case AttachingCertificate => AttachEarns(more, f, id, r, now, r');
      case Deprovisioning => TeardownEarns(more, f, id, r, now, r');
    }
  }

  // ---------------------------------------------------------------- admin statements

  lemma VerifyEarns(facts: set<Fact>, id: string, seen: Row, r: Row, now: int)
    requires Earned(facts, id, r)
    ensures Earned(facts + {TxtMatched(id, now)}, id, Verify(seen, r, now))
  {
    MoreFacts(facts, facts + {TxtMatched(id, now)}, id, r);
    hide Requested, GaveRecord, Issued, PutInPlace, Removed;
  }

  lemma RoutingEarns(facts: set<Fact>, id: string, seen: Row, r: Row, ready: bool)
    requires Earned(facts, id, r)
    ensures Earned(facts + {RoutingFound(id, ready)}, id, CheckRouting(seen, r, ready))
  {
    MoreFacts(facts, facts + {RoutingFound(id, ready)}, id, r);
    hide Requested, GaveRecord, Issued, PutInPlace, Removed;
  }

  /** A retry resumes at attaching_certificate only for a certificate that was issued, however old the read. */
  lemma ResetEarns(facts: set<Fact>, id: string, seen: Row, r: Row, now: int)
    requires Earned(facts, id, r) && Earned(facts, id, seen) && Grown(seen, r)
    ensures Earned(facts, id, ProvisioningReset(r, seen.project, RetryTarget(seen), now))
  {
    hide Requested, GaveRecord, Issued, PutInPlace, Removed;
  }

  lemma OtherStatementsAreHarmless(r: Row, project: string, now: int, token: Token)
    ensures Harmless(r, ProvisioningEnqueued(r, project, now)) && Harmless(r, ActivatedRow(r, project))
    ensures Harmless(r, DeprovisioningEnqueued(r, project, now)) && Harmless(r, DeprovisioningReset(r, project, now))
    ensures Harmless(r, SoftDeleted(r, project)) && Harmless(r, Claimed(r, token, now)) && Harmless(r, r)
  {
  }

  lemma AdminEarns(facts: set<Fact>, s: System, id: string, row: Row, call: Admin)
    requires Inv(s) && AllEarned(facts, s) && Enabled(s, AdminWrite(id, row, call))
    ensures var step := AdminWrite(id, row, call);
      Earned(facts + FactsOf(s, step), id, AdminEffect(row, s.rows[id], call))
  {
    var r := s.rows[id];
    assert Earned(facts, id, row) && Grown(row, r);
    hide Earned, Grown, Inv, ProvisioningReset, ProvisioningEnqueued, DeprovisioningReset, Verify, CheckRouting,
      Harmless;
    OtherStatementsAreHarmless(r, row.project, if call.RoutingCall? then 0 else call.now, 0);
    match call
    case VerifyCall(now) => VerifyEarns(facts, id, row, r, now);
    case RoutingCall(ready) => RoutingEarns(facts, id, row, r, ready);
    case ActivateCall(now) =>
      assert facts + FactsOf(s, AdminWrite(id, row, call)) == facts;
      ResetEarns(facts, id, row, r, now);
      HarmlessKeepsEarned(facts, id, r, ProvisioningEnqueued(r, row.project, now));
    case RetryCall(now) =>
      assert facts + FactsOf(s, AdminWrite(id, row, call)) == facts;
      ResetEarns(facts, id, row, r, now);
    case RetryTeardownCall(now) =>
      assert facts + FactsOf(s, AdminWrite(id, row, call)) == facts;
      HarmlessKeepsEarned(facts, id, r, DeprovisioningReset(r, row.project, now));
  }

  // ---------------------------------------------------------------- steps and runs

  lemma WriteEarns(facts: set<Fact>, s: System, step: Step)
    requires Inv(s) && AllEarned(facts, s) && Enabled(s, step) && step.WorkerWrite?
    ensures forall id :: id in Apply(s, step).rows ==>
      id in s.rows && Earned(facts + FactsOf(s, step), id, Apply(s, step).rows[id])
  {
    var job := s.held[step.token];
    assert JobOk(s.rows, step.token, job) && RowOk(s.rows[job.id]);
    assert s.rows[job.id].lease.Some? ==> Claimable(s.rows[job.id].stage);
    hide Earned, Answered, Decide, RowOk, Lawful, Inv, SamePicture;
    forall id | id in s.rows
      ensures Earned(facts + FactsOf(s, step), id, s.rows[id])
    {
      MoreFacts(facts, facts + FactsOf(s, step), id, s.rows[id]);
    }
    if Holds(s, step) {
      AnswersDecide(s, step);
      if Apply(s, step) != s {
        AnswerEarns(facts, job.id, s.rows[job.id], job, step.cloud, step.now, Apply(s, step).rows[job.id]);
      }
    } else {
      assert s.rows[job.id := s.rows[job.id]] == s.rows;
    }
  }

  lemma RowStepEarns(facts: set<Fact>, s: System, step: Step, id: string)
    requires Inv(s) && AllEarned(facts, s) && Enabled(s, step) && !step.WorkerWrite? && id in Apply(s, step).rows
    ensures Earned(facts + FactsOf(s, step), id, Apply(s, step).rows[id])
  {
    if id !in s.rows {
      NewRowEarnsNothing(facts + FactsOf(s, step), s, step, id);
    } else {
      var r := s.rows[id];
      hide Earned, Inv, Harmless, AdminEffect, ActivatedRow, DeprovisioningEnqueued, SoftDeleted, Claimed, Eligible;
      MoreFacts(facts, facts + FactsOf(s, step), id, r);
      var more := facts + FactsOf(s, step);
      match step
      case AdminWrite(target, row, call) =>
        if target == id {
          AdminEarns(facts, s, id, row, call);
        }
      case Delete(_, project, now) =>
        OtherStatementsAreHarmless(r, project, now, 0);
        HarmlessKeepsEarned(more, id, r, DeprovisioningEnqueued(r, project, now));
      case MarkActive(_, project) =>
        OtherStatementsAreHarmless(r, project, 0, 0);
        HarmlessKeepsEarned(more, id, r, ActivatedRow(r, project));
      case SoftDelete(_, project) =>
        OtherStatementsAreHarmless(r, project, 0, 0);
        HarmlessKeepsEarned(more, id, r, SoftDeleted(r, project));
      case Claim(_, token, now, _) =>
        OtherStatementsAreHarmless(r, "", now, token);
        HarmlessKeepsEarned(more, id, r, Claimed(r, token, now));
      case _ =>
    }
  }

  lemma NewRowEarnsNothing(facts: set<Fact>, s: System, step: Step, id: string)
    requires Enabled(s, step) && !step.WorkerWrite? && id !in s.rows && id in Apply(s, step).rows
    ensures Earned(facts, id, Apply(s, step).rows[id])
  {
    hide AdminEffect;
  }

  lemma StepKeepsEarned(facts: set<Fact>, s: System, step: Step)
    requires Inv(s) && AllEarned(facts, s) && Enabled(s, step)
    ensures AllEarned(facts + FactsOf(s, step), Apply(s, step))
  {
    var s', more := Apply(s, step), facts + FactsOf(s, step);
    hide Earned, Inv, FactsOf;
    forall id | id in s'.rows
      ensures Earned(more, id, s'.rows[id])
    {
      if step.WorkerWrite? {
        WriteEarns(facts, s, step);
      } else {
        RowStepEarns(facts, s, step, id);
      }
    }
    forall id, row | (id, row) in s'.seen
      ensures Earned(more, id, row)
    {
      assert (id, row) in s.seen || (id in s.rows && row == s.rows[id]);
      MoreFacts(facts, more, id, row);
    }
  }

  lemma {:induction false} RunKeepsEarned(facts: set<Fact>, s: System, steps: seq<Step>, s': System)
    requires Inv(s) && AllEarned(facts, s) && Run(s, steps, s')
    ensures AllEarned(facts + Facts(s, steps), s')
    decreases |steps|
  {
    hide Inv, AllEarned, Apply, Enabled, FactsOf;
    if steps == [] {
      assert facts + Facts(s, steps) == facts;
    } else {
      var s1, more := Apply(s, steps[0]), facts + FactsOf(s, steps[0]);
      StepKeepsInv(s, steps[0]);
      StepKeepsEarned(facts, s, steps[0]);
      RunKeepsEarned(more, s1, steps[1..], s');
      assert more + Facts(s1, steps[1..]) == facts + Facts(s, steps);
    }
  }

  /**
   In every reachable state: the ARN is one that ACM returned for the domain, the validation record one it gave for that
   ARN, the certificate counts as issued only after ACM called it so, a completed domain was attached and routed by the
   rule it records, and nothing was requested before the TXT record matched and the routing check succeeded.
   */
  lemma RecordsAreEarned(steps: seq<Step>, s: System, id: string)
    requires Run(INITIAL, steps, s) && id in s.rows
    ensures Earned(Facts(INITIAL, steps), id, s.rows[id])
  {
    hide Earned, Run, Facts;
    assert AllEarned({}, INITIAL);
    RunKeepsEarned({}, INITIAL, steps, s);
    assert {} + Facts(INITIAL, steps) == Facts(INITIAL, steps);
  }

  // ---------------------------------------------------------------- what admin statements do

  /** No statement issued for a project touches another project's domain, nor a deleted one. */
  lemma OtherDomainsAreUntouched(r: Row, project: string, now: int, routing: Routing, target: Stage)
    requires r.project != project || r.deleted
    ensures VerifiedRow(r, project, now) == r && RoutingUpdated(r, project, routing) == r
    ensures ActivatedRow(r, project) == r
    ensures SoftDeleted(r, project) == r && ProvisioningEnqueued(r, project, now) == r
    ensures ProvisioningReset(r, project, target, now) == r && DeprovisioningEnqueued(r, project, now) == r
    ensures DeprovisioningReset(r, project, now) == r
  {
  }

  /** The statements that leave the queue alone, on a domain of the project. */
  lemma StatusStatements(r: Row, now: int, routing: Routing)
    requires !r.deleted
    ensures VerifiedRow(r, r.project, now) == r.(status := Verified, verifiedAt := Some(now))
    ensures RoutingUpdated(r, r.project, routing) == r.(routing := routing)
    ensures ActivatedRow(r, r.project)
      == r.(status := if r.status == Verified && r.routing == RoutingReady then Active else r.status)
    ensures SoftDeleted(r, r.project) == r.(deleted := true)
  {
  }

  /** Free for the next worker: claimable now, with no lease and, after a restart, no attempt counted. */
  predicate Queued(r: Row, stage: Stage, now: int, timeout: int) {
    r.stage == stage && Eligible(r, now, timeout) && r.lease.None?
  }

  /** The statements that queue a domain of the project, and when they do. */
  lemma QueueStatements(r: Row, now: int, timeout: int, target: Stage)
    requires !r.deleted && InPipeline(target)
    ensures var r' := ProvisioningEnqueued(r, r.project, now);
      if r.status == Verified && r.routing == RoutingReady && r.stage in {NotStarted, Failed}
      then Queued(r', RequestingCertificate, now, timeout) && r'.attempts == 0 && SameRecords(r, r') else r' == r
    ensures var r' := ProvisioningReset(r, r.project, target, now);
      if r.stage == Failed then Queued(r', target, now, timeout) && r'.attempts == 0 && SameRecords(r, r') else r' == r
    ensures var r' := DeprovisioningEnqueued(r, r.project, now);
      if r.stage in {Deprovisioning, Deprovisioned} then r' == r
      else Queued(r', Deprovisioning, now, timeout) && r'.attempts == r.attempts && SameRecords(r, r')
    ensures var r' := DeprovisioningReset(r, r.project, now);
      if r.stage == DeprovisionFailed
      then Queued(r', Deprovisioning, now, timeout) && r'.attempts == 0 && SameRecords(r, r') else r' == r
  {
  }

  /** Queueing keeps everything the domain has on record. */
  predicate SameRecords(r: Row, r': Row) {
    && r'.project == r.project && r'.hostname == r.hostname && r'.status == r.status && r'.verifiedAt == r.verifiedAt
    && r'.routing == r.routing && r'.arn == r.arn && r'.certStatus == r.certStatus && r'.managed == r.managed
    && r'.validationName == r.validationName && r'.validationValue == r.validationValue && r'.ruleArn == r.ruleArn
    && r'.rulePriority == r.rulePriority && r'.createdAt == r.createdAt && r'.deleted == r.deleted
  }

  // ---------------------------------------------------------------- where a retry resumes

  /** The pipeline's order. */
  function Rank(stage: Stage): nat {
    match stage
    case RequestingCertificate => 1
    case WaitingForValidationRecord => 2
    case WaitingForDns => 3
    case AttachingCertificate => 4
    case _ => 0
  }

  /** The columns that were read are those the stage works from. */
  predicate Resumable(seen: Row, stage: Stage) {
    match stage
    case RequestingCertificate => true
    case WaitingForValidationRecord => Present(seen.arn)
    case WaitingForDns => Present(seen.arn) && Present(seen.validationName)
    case AttachingCertificate => Present(seen.arn) && Present(seen.validationName) && seen.certStatus == Some("issued")
    case _ => false
  }

  /** A retry resumes at the furthest stage that the columns allow. */
  lemma RetryResumesFurthest(seen: Row)
    ensures Resumable(seen, RetryTarget(seen))
    ensures forall stage :: Resumable(seen, stage) ==> Rank(stage) <= Rank(RetryTarget(seen))
  {
  }
}
