/** The custom-domain worker loop and the admin service, driving the repository in place. */
module CustomDomainServices {
  import opened Options
  import opened CustomDomainTable
  import opened CustomDomainRepository
  import opened CustomDomainWorker

  const LOCK_TIMEOUT := 300

  class Provisioner {
    const repo: CustomDomainRepo

    constructor (repo: CustomDomainRepo)
      ensures this.repo == repo
    {
      this.repo := repo;
    }

    method Issue(job: Job, w: Write) returns (outcome: Outcome)
      modifies repo
      ensures outcome == OutcomeOf(old(repo.rows), job.id, job.token, w)
      ensures repo.rows == ExecuteOn(old(repo.rows), job.id, job.token, w)
    {
      match w
      case Advance(expected, next, cert, at) =>
        outcome := repo.AdvanceProvisioningState(job.id, job.token, expected, next, cert, at);
      case Poll(expected, at) => outcome := repo.ScheduleProvisioningPoll(job.id, job.token, expected, at);
      case Retry(expected, at) => outcome := repo.ScheduleProvisioningRetry(job.id, job.token, expected, at);
      case Fail(expected) => outcome := repo.MarkProvisioningFailed(job.id, job.token, expected);
      case Complete(arn, priority) => outcome := repo.MarkProvisioningCompleted(job.id, job.token, arn, priority);
      case FinishDeprovisioning => outcome := repo.MarkDeprovisioned(job.id, job.token);
      case FailDeprovisioning => outcome := repo.MarkDeprovisionFailed(job.id, job.token);
      case Release => outcome := repo.ReleaseProvisioningLease(job.id, job.token);
    }

    /** Claim, handle, write, with nobody else touching the table meanwhile; the claimed row ends up unlocked. */
    method ProcessNextJob(token: Token, cloud: Cloud, now: int) returns (job: Option<Job>)
      modifies repo
      ensures job.None? <==> forall id :: id in old(repo.rows) ==> !Eligible(old(repo.rows)[id], now, LOCK_TIMEOUT)
      ensures job.None? ==> repo.rows == old(repo.rows)
      ensures job.Some? ==>
        var id := job.value.id;
        && id in old(repo.rows) && Eligible(old(repo.rows)[id], now, LOCK_TIMEOUT)
        && job.value == Job(id, Claimed(old(repo.rows)[id], token, now), token)
        && repo.rows == old(repo.rows)[id := Effect(job.value.row, Decide(job.value, cloud, now))]
        && repo.rows[id].lease.None?
    {
      hide Decide, Eligible;
      job := repo.ClaimNextProvisioningJob(token, now, LOCK_TIMEOUT);
      if job.None? {
        return;
      }
      var w := Decide(job.value, cloud, now);
      var outcome := Issue(job.value, w);
      ghost var claimed := job.value.row;
      EligibleRowsAreVisible(old(repo.rows)[job.value.id], now);
      DecisionMatchesClaim(job.value, cloud, now);
      EffectUnlocks(claimed, w);
    }
  }

  lemma EligibleRowsAreVisible(r: Row, now: int)
    requires Eligible(r, now, LOCK_TIMEOUT)
    ensures !r.deleted && Claimable(r.stage)
  {
  }

  /** The write a handler ends with always fits the row it was claimed from. */
  lemma DecisionMatchesClaim(job: Job, cloud: Cloud, now: int)
    requires job.row.lease == Some(job.token) && !job.row.deleted
    ensures Matches(job.row, job.token, Decide(job, cloud, now))
  {
    var w := Decide(job, cloud, now);
    match job.row.stage
    case RequestingCertificate => assert w == HandleRequesting(job, cloud, now);
    case WaitingForValidationRecord => assert w == HandleValidationRecord(job, cloud, now);
    case WaitingForDns => assert w == HandleDns(job, cloud, now);
    case AttachingCertificate => assert w == HandleAttaching(job, cloud, now);
    case Deprovisioning => assert w == HandleDeprovisioning(job, cloud, now);
    case _ =>
  }

  lemma EffectUnlocks(r: Row, w: Write)
    ensures Effect(r, w).lease.None? && Effect(r, w).lockedAt.None?
  {
  }

  /** Admin calls read the row first and write later; `seen` is the row they read. */
  class CustomDomainService {
    const repo: CustomDomainRepo

    constructor (repo: CustomDomainRepo)
      ensures this.repo == repo
    {
      this.repo := repo;
    }

    /** performRetry: resume from the furthest stage the columns read allow. */
    method PerformRetry(id: string, seen: Row, now: int) returns (ok: bool)
      requires id in repo.rows
      modifies repo
      ensures ok <==> Visible(old(repo.rows)[id], seen.project) && old(repo.rows)[id].stage == Failed
      ensures repo.rows ==
        old(repo.rows)[id := ProvisioningReset(old(repo.rows)[id], seen.project, RetryTarget(seen), now)]
    {
      var target: Stage;
      if seen.arn.None? || seen.arn.value == "" {
        target := RequestingCertificate;
      } else if seen.validationName.None? || seen.validationName.value == "" {
        target := WaitingForValidationRecord;
      } else if seen.certStatus == Some("issued") {
        target := AttachingCertificate;
      } else {
        target := WaitingForDns;
      }
      ok := repo.ResetProvisioningForRetry(id, seen.project, target, now);
    }

    method RetryProvisioningCall(id: string, seen: Row, now: int) returns (accepted: bool)
      requires id in repo.rows
      modifies repo
      ensures repo.rows == old(repo.rows)[id := RetryProvisioning(seen, old(repo.rows)[id], now)]
      ensures accepted <==>
        && seen.stage == Failed && seen.status == Verified && seen.routing == RoutingReady
        && Visible(old(repo.rows)[id], seen.project) && old(repo.rows)[id].stage == Failed
    {
      if seen.stage != Failed || seen.status != Verified || seen.routing != RoutingReady {
        assert repo.rows[id := repo.rows[id]] == repo.rows;
        return false;
      }
      accepted := PerformRetry(id, seen, now);
    }

    method ActivateCall(id: string, seen: Row, now: int) returns (accepted: bool)
      requires id in repo.rows
      modifies repo
      ensures repo.rows == old(repo.rows)[id := Activate(seen, old(repo.rows)[id], now)]
      ensures var r := old(repo.rows)[id];
        accepted <==>
          || seen.status == Active || seen.stage == Completed || InPipeline(seen.stage)
          || (&& seen.status == Verified && seen.routing == RoutingReady && Visible(r, seen.project)
              && if seen.stage == Failed then r.stage == Failed
                 else r.status == Verified && r.routing == RoutingReady && !Teardown(r.stage))
    {
      assert repo.rows[id := repo.rows[id]] == repo.rows;
      if seen.status == Active || seen.stage == Completed || InPipeline(seen.stage) {
        return true;
      }
      if seen.status != Verified || seen.routing != RoutingReady {
        return false;
      }
      if seen.stage == Failed {
        accepted := PerformRetry(id, seen, now);
        return;
      }
      var found := repo.EnqueueProvisioning(id, seen.project, now);
      return found.Some?;
    }
  }
}
