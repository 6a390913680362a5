/**
 Any number of workers and admin calls interleaved over the `custom_domains` table. Workers hold claimed jobs and
 admin calls hold rows they have read; both may act on them arbitrarily late.
 */
module CustomDomainSystem {
  import opened Options
  import opened CustomDomainTable
  import opened CustomDomainWorker

  /** `held` maps every token ever drawn to its job; `seen` holds every row an admin call has read. */
  datatype System = System(rows: map<string, Row>, held: map<Token, Job>, seen: set<(string, Row)>)

  datatype Admin =
    | VerifyCall(now: int)
    | RoutingCall(ready: bool)
    | ActivateCall(now: int)
    | RetryCall(now: int)
    | RetryTeardownCall(now: int)

  datatype Step =
    | Create(id: string, project: string, hostname: string, now: int)
    | Read(id: string, project: string)
    | AdminWrite(id: string, row: Row, call: Admin)
    | Delete(id: string, project: string, now: int)
    | MarkActive(id: string, project: string)
    | SoftDelete(id: string, project: string)
    | Claim(id: string, token: Token, now: int, timeout: int)
    | WorkerWrite(token: Token, cloud: Cloud, now: int)

  const INITIAL := System(map[], map[], {})

  predicate Enabled(s: System, step: Step) {
    match step
    case Create(id, _, hostname, _) => id !in s.rows && !HostnameTaken(s.rows, hostname)
    case Read(id, project) => id in s.rows && Visible(s.rows[id], project)
    case AdminWrite(id, row, _) => id in s.rows && (id, row) in s.seen
    case Delete(id, _, _) => id in s.rows
    case MarkActive(id, _) => id in s.rows
    case SoftDelete(id, _) => id in s.rows
    case Claim(id, token, now, timeout) => id in s.rows && token !in s.held && Eligible(s.rows[id], now, timeout)
    case WorkerWrite(token, cloud, _) => token in s.held && Lawful(cloud)
  }

  function AdminEffect(seen: Row, r: Row, call: Admin): Row {
    match call
    case VerifyCall(now) => Verify(seen, r, now)
    case RoutingCall(ready) => CheckRouting(seen, r, ready)
    case ActivateCall(now) => Activate(seen, r, now)
    case RetryCall(now) => RetryProvisioning(seen, r, now)
    case RetryTeardownCall(now) => RetryDeprovisioning(seen, r, now)
  }

  function Apply(s: System, step: Step): System
    requires Enabled(s, step)
  {
    match step
    case Create(id, project, hostname, now) => s.(rows := s.rows[id := Created(project, hostname, now)])
    case Read(id, _) => s.(seen := s.seen + {(id, s.rows[id])})
    case AdminWrite(id, row, call) => s.(rows := s.rows[id := AdminEffect(row, s.rows[id], call)])
    case Delete(id, project, now) => s.(rows := s.rows[id := DeprovisioningEnqueued(s.rows[id], project, now)])
    case MarkActive(id, project) => s.(rows := s.rows[id := ActivatedRow(s.rows[id], project)])
    case SoftDelete(id, project) => s.(rows := s.rows[id := SoftDeleted(s.rows[id], project)])
    case Claim(id, token, now, _) =>
      var r := Claimed(s.rows[id], token, now);
      s.(rows := s.rows[id := r], held := s.held[token := Job(id, r, token)])
    case WorkerWrite(token, cloud, now) =>
      var job := s.held[token];
      s.(rows := ExecuteOn(s.rows, job.id, token, Decide(job, cloud, now)))
  }

  ghost predicate Run(s: System, steps: seq<Step>, s': System)
    decreases |steps|
  {
    if steps == [] then s == s'
    else Enabled(s, steps[0]) && Run(Apply(s, steps[0]), steps[1..], s')
  }

  // ---------------------------------------------------------------- the invariant

  predicate NeedsVerification(stage: Stage) {
    InPipeline(stage) || stage == Failed || stage == Completed
  }

  predicate NeedsCertificate(stage: Stage) {
    stage.WaitingForValidationRecord? || NeedsValidation(stage)
  }

  predicate NeedsValidation(stage: Stage) {
    stage.WaitingForDns? || stage.AttachingCertificate? || stage.Completed?
  }

  /** What every reachable row has recorded. */
  predicate RowOk(r: Row) {
    && (r.arn.Some? ==> r.arn.value != "" && r.managed)
    && (r.validationName.Some? ==> r.validationName.value != "" && r.arn.Some?)
    && (r.validationName.Some? <==> r.validationValue.Some?)
    && (r.validationValue.Some? ==> r.validationValue.value != "")
    && (r.status != PendingVerification ==> r.verifiedAt.Some?)
    && (NeedsVerification(r.stage) ==> r.verifiedAt.Some?)
    && (NeedsCertificate(r.stage) ==> r.arn.Some?)
    && (NeedsValidation(r.stage) ==> r.validationName.Some?)
    && (r.stage == Completed ==> Present(r.ruleArn))
    && r.stage != WaitingForCertificate
    && (r.stage == Deprovisioned ==> r.deleted)
    && (!Claimable(r.stage) ==> r.lease.None?)
  }

  /** The columns a handler decides on, and the time of the lock. */
  predicate SamePicture(r: Row, q: Row) {
    && r.stage == q.stage
    && r.arn == q.arn
    && r.certStatus == q.certStatus
    && r.managed == q.managed
    && r.validationName == q.validationName
    && r.validationValue == q.validationValue
    && r.ruleArn == q.ruleArn
    && r.rulePriority == q.rulePriority
    && r.attempts == q.attempts
    && r.lockedAt == q.lockedAt
  }

  predicate Fenced(r: Row, job: Job) {
    r.lease == Some(job.token) ==> SamePicture(r, job.row)
  }

  predicate JobOk(rows: map<string, Row>, token: Token, job: Job) {
    && job.token == token
    && job.id in rows
    && !TakesBrokenRowBranch(job)
    && (job.row.arn.Some? ==> job.row.arn.value != "")
    && Fenced(rows[job.id], job)
  }

  /** What an admin call has read stays true where it matters: columns only get filled in. */
  predicate Grown(seen: Row, r: Row) {
    && (seen.arn.Some? ==> r.arn == seen.arn)
    && (seen.validationName.Some? ==> r.validationName.Some?)
    && (seen.verifiedAt.Some? ==> r.verifiedAt.Some?)
    && seen.project == r.project
    && seen.hostname == r.hostname
  }

  ghost predicate Inv(s: System) {
    && (forall id :: id in s.rows ==> RowOk(s.rows[id]))
    && (forall t :: t in s.held ==> JobOk(s.rows, t, s.held[t]))
    && (forall id, row :: (id, row) in s.seen ==> id in s.rows && Grown(row, s.rows[id]))
    && (forall id :: id in s.rows && s.rows[id].lease.Some? ==>
          s.rows[id].lease.value in s.held && s.held[s.rows[id].lease.value].id == id)
  }

  // ---------------------------------------------------------------- how one row moves

  predicate NextStage(p: Stage, q: Stage) {
    || (p == NotStarted && q == RequestingCertificate)
    || (p == RequestingCertificate && q == WaitingForValidationRecord)
    || (p == WaitingForValidationRecord && q == WaitingForDns)
    || (p == WaitingForDns && q == AttachingCertificate)
    || (p == AttachingCertificate && q == Completed)
    || (InPipeline(p) && q == Failed)
    || (p == Failed && InPipeline(q))
    || (p == Deprovisioning && (q.Deprovisioned? || q.DeprovisionFailed?))
    || (q == Deprovisioning && p != Deprovisioned)
  }

  predicate Evolves(r: Row, r': Row) {
    && (r.stage == r'.stage || NextStage(r.stage, r'.stage))
    && (r.arn.Some? ==> r'.arn == r.arn)
    && (Teardown(r.stage) ==> Teardown(r'.stage))
    && Grown(r, r')
    && (r.deleted ==> r'.deleted)
  }

  /** Which write a handler can end with, given the row the job pictures. */
  predicate Fits(job: Job, w: Write) {
    && Claimable(job.row.stage)
    && match w
       case Advance(expected, next, cert, _) =>
         && expected == job.row.stage
         && (|| (expected == RequestingCertificate && next == WaitingForValidationRecord
                 && Present(cert.arn) && (job.row.arn.Some? ==> cert.arn == job.row.arn)
                 && cert.managed == Some(true) && cert.validationName.None? && cert.validationValue.None?)
             || (expected == WaitingForValidationRecord && next == WaitingForDns
                 && cert.arn.None? && cert.managed.None?
                 && Present(cert.validationName) && Present(cert.validationValue))
             || (expected == WaitingForDns && next == AttachingCertificate
                 && cert.arn.None? && cert.managed.None? && cert.validationName.None? && cert.validationValue.None?))
       case Poll(expected, _) => expected == job.row.stage
       case Retry(expected, _) => expected == job.row.stage
       case Fail(expected) => expected == job.row.stage && InPipeline(expected)
       case Complete(ruleArn, _) => job.row.stage == AttachingCertificate && ruleArn != ""
       case FinishDeprovisioning => job.row.stage == Deprovisioning
       case FailDeprovisioning => job.row.stage == Deprovisioning
       case Release => false
  }

  lemma DecisionFits(job: Job, cloud: Cloud, now: int)
    requires Lawful(cloud) && !TakesBrokenRowBranch(job)
    requires job.row.arn.Some? ==> job.row.arn.value != ""
    ensures Fits(job, Decide(job, cloud, now))
  {
    match job.row.stage
    case RequestingCertificate => assert Fits(job, HandleRequesting(job, cloud, now));
    case WaitingForValidationRecord => assert Fits(job, HandleValidationRecord(job, cloud, now));
    case WaitingForDns => assert Fits(job, HandleDns(job, cloud, now));
    case AttachingCertificate => assert Fits(job, HandleAttaching(job, cloud, now));
    case Deprovisioning => assert Fits(job, HandleDeprovisioning(job, cloud, now));
    case _ =>
  }

  lemma EffectIsGood(r: Row, job: Job, w: Write)
    requires RowOk(r) && SamePicture(r, job.row) && Fits(job, w)
    ensures RowOk(Effect(r, w)) && Evolves(r, Effect(r, w))
  {
  }

  lemma WriteIsGood(r: Row, job: Job, w: Write)
    requires RowOk(r) && Fenced(r, job) && Fits(job, w)
    ensures Good(r, Execute(r, job.token, w))
  {
    if Matches(r, job.token, w) {
      EffectIsGood(r, job, w);
      hide RowOk, Evolves, Fits, SamePicture;
    } else {
      hide RowOk, Fits;
      UnchangedIsGood(r);
    }
  }

  /** A change that one statement may make: a good row again, and fencing intact. */
  predicate Good(r: Row, r': Row) {
    && RowOk(r')
    && Evolves(r, r')
    && (r'.lease.None? || (r'.lease == r.lease && SamePicture(r, r')))
  }

  /** A reset to the stage chosen on a stale read lands on a row that has what that stage needs. */
  lemma ResetIsGood(seen: Row, r: Row, now: int)
    requires RowOk(r) && Grown(seen, r)
    ensures Good(r, ProvisioningReset(r, seen.project, RetryTarget(seen), now))
  {
  }

  /** The admin statements that leave the queue columns alone. */
  lemma StatusChangeIsGood(r: Row, status: Status, verifiedAt: Option<int>, routing: Routing, deleted: bool)
    requires RowOk(r)
    requires r.verifiedAt.Some? || status != PendingVerification ==> verifiedAt.Some?
    requires r.deleted ==> deleted
    ensures Good(r, r.(status := status, verifiedAt := verifiedAt, routing := routing, deleted := deleted))
  {
  }

  lemma StatusStatementsAreGood(r: Row, project: string, routing: Routing, now: int)
    requires RowOk(r)
    ensures Good(r, VerifiedRow(r, project, now))
    ensures Good(r, RoutingUpdated(r, project, routing))
    ensures Good(r, ActivatedRow(r, project))
    ensures Good(r, SoftDeleted(r, project))
  {
    assert r.status != PendingVerification ==> r.verifiedAt.Some?;
    hide RowOk, Good;
    UnchangedIsGood(r);
    StatusChangeIsGood(r, Verified, Some(now), r.routing, r.deleted);
    StatusChangeIsGood(r, r.status, r.verifiedAt, routing, r.deleted);
    StatusChangeIsGood(r, r.status, r.verifiedAt, r.routing, true);
    if r.status == Verified {
      StatusChangeIsGood(r, Active, r.verifiedAt, r.routing, r.deleted);
    }
  }

  lemma EnqueueIsGood(r: Row, project: string, now: int)
    requires RowOk(r)
    ensures Good(r, ProvisioningEnqueued(r, project, now))
  {
  }

  lemma TeardownStatementsAreGood(r: Row, project: string, now: int)
    requires RowOk(r)
    ensures Good(r, DeprovisioningEnqueued(r, project, now))
    ensures Good(r, DeprovisioningReset(r, project, now))
  {
  }

  lemma AdminIsGood(seen: Row, r: Row, call: Admin)
    requires RowOk(r) && Grown(seen, r)
    ensures Good(r, AdminEffect(seen, r, call))
  {
    hide RowOk, Evolves, SamePicture, ProvisioningReset, ProvisioningEnqueued, VerifiedRow, RoutingUpdated,
      DeprovisioningReset;
    UnchangedIsGood(r);
    match call
    case VerifyCall(now) => StatusStatementsAreGood(r, seen.project, RoutingReady, now);
    case RoutingCall(ready) =>
      StatusStatementsAreGood(r, seen.project, if ready then RoutingReady else RoutingFailed, 0);
    case ActivateCall(now) =>
      EnqueueIsGood(r, seen.project, now);
      ResetIsGood(seen, r, now);
    case RetryCall(now) => ResetIsGood(seen, r, now);
    case RetryTeardownCall(now) => TeardownStatementsAreGood(r, seen.project, now);
  }

  lemma UnchangedIsGood(r: Row)
    requires RowOk(r)
    ensures Good(r, r)
  {
  }

  // ---------------------------------------------------------------- one step

  lemma GoodKeepsFence(r: Row, r': Row, job: Job)
    requires Good(r, r') && Fenced(r, job)
    ensures Fenced(r', job)
  {
    hide RowOk, Evolves;
  }

  lemma GoodKeepsSeen(seen: Row, r: Row, r': Row)
    requires Good(r, r') && Grown(seen, r)
    ensures Grown(seen, r')
  {
    hide RowOk, SamePicture;
  }

  lemma GoodRow(r: Row, r': Row)
    requires Good(r, r')
    ensures RowOk(r') && (r'.lease.None? || r'.lease == r.lease)
  {
    hide RowOk, SamePicture, Evolves;
  }

  lemma RowChangeKeepsInv(s: System, id: string, r: Row)
    requires Inv(s) && id in s.rows && Good(s.rows[id], r)
    ensures Inv(s.(rows := s.rows[id := r]))
  {
    hide RowOk, TakesBrokenRowBranch, Good, Fenced, Grown;
    var s' := s.(rows := s.rows[id := r]);
    GoodRow(s.rows[id], r);
    forall t | t in s'.held
      ensures JobOk(s'.rows, t, s'.held[t])
    {
      assert JobOk(s.rows, t, s.held[t]);
      if s.held[t].id == id {
        GoodKeepsFence(s.rows[id], r, s.held[t]);
      }
    }
    forall i, row | (i, row) in s'.seen
      ensures i in s'.rows && Grown(row, s'.rows[i])
    {
      if i == id {
        GoodKeepsSeen(row, s.rows[id], r);
      }
    }
  }

  lemma WorkerKeepsInv(s: System, token: Token, cloud: Cloud, now: int)
    requires Inv(s) && Enabled(s, WorkerWrite(token, cloud, now))
    ensures Inv(Apply(s, WorkerWrite(token, cloud, now)))
  {
    hide RowOk, Fits, Good, Decide, Execute, Lawful;
    var job := s.held[token];
    assert JobOk(s.rows, token, job);
    DecisionFits(job, cloud, now);
    var w := Decide(job, cloud, now);
    WriteIsGood(s.rows[job.id], job, w);
    RowChangeKeepsInv(s, job.id, Execute(s.rows[job.id], token, w));
  }

  lemma ClaimKeepsInv(s: System, id: string, token: Token, now: int, timeout: int)
    requires Inv(s) && Enabled(s, Claim(id, token, now, timeout))
    ensures Inv(Apply(s, Claim(id, token, now, timeout)))
  {
    var s' := Apply(s, Claim(id, token, now, timeout));
    assert RowOk(s.rows[id]);
    assert RowOk(s'.rows[id]);
    assert JobOk(s'.rows, token, s'.held[token]);
    hide RowOk, TakesBrokenRowBranch, Eligible, SamePicture;
    forall t | t in s'.held && t != token
      ensures JobOk(s'.rows, t, s'.held[t])
    {
      assert JobOk(s.rows, t, s.held[t]);
    }
  }

  lemma CreateKeepsInv(s: System, id: string, project: string, hostname: string, now: int)
    requires Inv(s) && id !in s.rows
    ensures Inv(s.(rows := s.rows[id := Created(project, hostname, now)]))
  {
    assert RowOk(Created(project, hostname, now));
    hide RowOk, TakesBrokenRowBranch, Grown, SamePicture;
    var s' := s.(rows := s.rows[id := Created(project, hostname, now)]);
    forall t | t in s'.held
      ensures JobOk(s'.rows, t, s'.held[t])
    {
      assert JobOk(s.rows, t, s.held[t]);
    }
  }

  lemma StepKeepsInv(s: System, step: Step)
    requires Inv(s) && Enabled(s, step)
    ensures Inv(Apply(s, step))
  {
    match step
    case Create(id, project, hostname, now) => CreateKeepsInv(s, id, project, hostname, now);
    case Read(id, _) =>
    case AdminWrite(id, row, call) =>
      AdminIsGood(row, s.rows[id], call);
      RowChangeKeepsInv(s, id, AdminEffect(row, s.rows[id], call));
    case Delete(id, project, now) =>
      TeardownStatementsAreGood(s.rows[id], project, now);
      RowChangeKeepsInv(s, id, DeprovisioningEnqueued(s.rows[id], project, now));
    case MarkActive(id, project) =>
      StatusStatementsAreGood(s.rows[id], project, RoutingReady, 0);
      RowChangeKeepsInv(s, id, ActivatedRow(s.rows[id], project));
    case SoftDelete(id, project) =>
      StatusStatementsAreGood(s.rows[id], project, RoutingReady, 0);
      RowChangeKeepsInv(s, id, SoftDeleted(s.rows[id], project));
    case Claim(id, token, now, timeout) => ClaimKeepsInv(s, id, token, now, timeout);
    case WorkerWrite(token, cloud, now) => WorkerKeepsInv(s, token, cloud, now);
  }

  lemma GoodEvolves(r: Row, r': Row)
    requires Good(r, r')
    ensures Evolves(r, r')
  {
  }

  lemma ClaimEvolves(r: Row, token: Token, now: int)
    requires RowOk(r)
    ensures Evolves(r, Claimed(r, token, now)) && Evolves(r, r)
  {
  }

  lemma StepEvolves(s: System, step: Step, id: string)
    requires Inv(s) && Enabled(s, step) && id in s.rows
    ensures id in Apply(s, step).rows && Evolves(s.rows[id], Apply(s, step).rows[id])
  {
    var r := s.rows[id];
    assert RowOk(r);
    hide RowOk, Good, Evolves, Decide, AdminEffect, Eligible, Lawful, ActivatedRow, SoftDeleted, DeprovisioningEnqueued;
    ClaimEvolves(r, if step.Claim? then step.token else 0, if step.Claim? then step.now else 0);
    match step
    case WorkerWrite(token, cloud, now) =>
      var job := s.held[token];
      assert JobOk(s.rows, token, job);
      DecisionFits(job, cloud, now);
      if job.id == id {
        WriteIsGood(r, job, Decide(job, cloud, now));
        GoodEvolves(r, Execute(r, token, Decide(job, cloud, now)));
      }
    case AdminWrite(target, row, call) =>
      if target == id {
        AdminIsGood(row, r, call);
        GoodEvolves(r, AdminEffect(row, r, call));
      }
    case Delete(target, project, now) =>
      TeardownStatementsAreGood(r, project, now);
      GoodEvolves(r, DeprovisioningEnqueued(r, project, now));
    case MarkActive(_, project) =>
      StatusStatementsAreGood(r, project, RoutingReady, 0);
      GoodEvolves(r, ActivatedRow(r, project));
    case SoftDelete(_, project) =>
      StatusStatementsAreGood(r, project, RoutingReady, 0);
      GoodEvolves(r, SoftDeleted(r, project));
    case _ =>
  }
}
