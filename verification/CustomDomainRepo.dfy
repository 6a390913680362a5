/** The repository that runs the `custom_domains` statements on the table in place. */
module CustomDomainRepository {
  import opened Options
  import opened CustomDomainTable
  import opened Queueing

  class CustomDomainRepo {
    var rows: map<string, Row>

    constructor ()
      ensures rows == map[]
    {
      rows := map[];
    }

    /** Refused for an id in use, and for the hostname of a row that is not deleted, whatever its letter case. */
    method Create(id: string, project: string, hostname: string, now: int) returns (ok: bool)
      modifies this
      ensures ok <==> id !in old(rows) && !HostnameTaken(old(rows), hostname)
      ensures rows == if ok then old(rows)[id := Created(project, hostname, now)] else old(rows)
    {
      ok := id !in rows && !HostnameTaken(rows, hostname);
      if ok {
        rows := rows[id := Created(project, hostname, now)];
      }
    }

    /** The eligible row that is first in queue order is claimed; ties are broken arbitrarily. */
    method ClaimNextProvisioningJob(token: Token, now: int, lockTimeout: int) returns (job: Option<Job>)
      modifies this
      ensures job.None? <==> forall id :: id in old(rows) ==> !Eligible(old(rows)[id], now, lockTimeout)
      ensures job.None? ==> rows == old(rows)
      ensures job.Some? ==>
        var id := job.value.id;
        && id in old(rows)
        && Eligible(old(rows)[id], now, lockTimeout)
        && (forall other :: other in old(rows) && Eligible(old(rows)[other], now, lockTimeout) ==>
              !Before(Slot(old(rows)[other].nextRetryAt, old(rows)[other].createdAt),
                      Slot(old(rows)[id].nextRetryAt, old(rows)[id].createdAt)))
        && rows == old(rows)[id := Claimed(old(rows)[id], token, now)]
        && job.value == Job(id, rows[id], token)
    {
      var eligible := map id | id in rows && Eligible(rows[id], now, lockTimeout) ::
        Slot(rows[id].nextRetryAt, rows[id].createdAt);
      if eligible == map[] {
        assert forall id :: id in rows && Eligible(rows[id], now, lockTimeout) ==> id in eligible;
        return None;
      }
      var id := First(eligible);
      assert forall other :: other in rows && Eligible(rows[other], now, lockTimeout) ==>
        other in eligible && eligible[other] == Slot(rows[other].nextRetryAt, rows[other].createdAt);
      rows := rows[id := rows[id].(lockedAt := Some(now), lease := Some(token))];
      return Some(Job(id, rows[id], token));
    }

    /** The part of the WHERE clause that most worker writes share. */
    predicate Held(id: string, token: Token, expected: Stage)
      reads this
    {
      id in rows && rows[id].lease == Some(token) && rows[id].stage == expected && !rows[id].deleted
    }

    method AdvanceProvisioningState(id: string, token: Token, expected: Stage, next: Stage, cert: Certificate,
                                    nextRetryAt: int)
      returns (outcome: Outcome)
      modifies this
      ensures outcome == OutcomeOf(old(rows), id, token, Advance(expected, next, cert, nextRetryAt))
      ensures rows == ExecuteOn(old(rows), id, token, Advance(expected, next, cert, nextRetryAt))
    {
      if !Held(id, token, expected) {
        return Diagnose(rows, id, token, expected);
      }
      var r := rows[id];
      var arn, status := cert.arn.OrElse(r.arn), cert.status.OrElse(r.certStatus);
      var managed := cert.managed.GetOr(r.managed);
      var name, value := cert.validationName.OrElse(r.validationName), cert.validationValue.OrElse(r.validationValue);
      var r' := Row(r.project, r.hostname, r.createdAt, r.status, r.verifiedAt, r.routing, next, arn, status,
                    managed, name, value, r.ruleArn, r.rulePriority, r.attempts, Some(nextRetryAt),
                    None, None, r.deleted);
      assert r' == Effect(r, Advance(expected, next, cert, nextRetryAt));
      rows := rows[id := r'];
      return Ok;
    }

    method ScheduleProvisioningPoll(id: string, token: Token, expected: Stage, nextPollAt: int)
      returns (outcome: Outcome)
      modifies this
      ensures outcome == OutcomeOf(old(rows), id, token, Poll(expected, nextPollAt))
      ensures rows == ExecuteOn(old(rows), id, token, Poll(expected, nextPollAt))
    {
      if !Held(id, token, expected) {
        return Diagnose(rows, id, token, expected);
      }
      rows := rows[id := rows[id].(nextRetryAt := Some(nextPollAt), lockedAt := None, lease := None)];
      return Ok;
    }

    method ScheduleProvisioningRetry(id: string, token: Token, expected: Stage, nextRetryAt: int)
      returns (outcome: Outcome)
      modifies this
      ensures outcome == OutcomeOf(old(rows), id, token, Retry(expected, nextRetryAt))
      ensures rows == ExecuteOn(old(rows), id, token, Retry(expected, nextRetryAt))
    {
      if !Held(id, token, expected) {
        return Diagnose(rows, id, token, expected);
      }
      rows := rows[id := rows[id].(attempts := rows[id].attempts + 1, nextRetryAt := Some(nextRetryAt),
                                   lockedAt := None, lease := None)];
      return Ok;
    }

    method MarkProvisioningFailed(id: string, token: Token, expected: Stage) returns (outcome: Outcome)
      modifies this
      ensures outcome == OutcomeOf(old(rows), id, token, Fail(expected))
      ensures rows == ExecuteOn(old(rows), id, token, Fail(expected))
    {
      if !Held(id, token, expected) {
        return Diagnose(rows, id, token, expected);
      }
      rows := rows[id := rows[id].(stage := Failed, attempts := rows[id].attempts + 1, nextRetryAt := None,
                                   lockedAt := None, lease := None)];
      return Ok;
    }

    method MarkProvisioningCompleted(id: string, token: Token, ruleArn: string, rulePriority: int)
      returns (outcome: Outcome)
      modifies this
      ensures outcome == OutcomeOf(old(rows), id, token, Complete(ruleArn, rulePriority))
      ensures rows == ExecuteOn(old(rows), id, token, Complete(ruleArn, rulePriority))
    {
      if !Held(id, token, AttachingCertificate) {
        return Diagnose(rows, id, token, AttachingCertificate);
      }
      rows := rows[id := rows[id].(status := Active, stage := Completed, certStatus := Some("issued"),
                                   ruleArn := Some(ruleArn), rulePriority := Some(rulePriority),
                                   nextRetryAt := None, lockedAt := None, lease := None)];
      return Ok;
    }

    method MarkDeprovisioned(id: string, token: Token) returns (outcome: Outcome)
      modifies this
      ensures outcome == OutcomeOf(old(rows), id, token, FinishDeprovisioning)
      ensures rows == ExecuteOn(old(rows), id, token, FinishDeprovisioning)
    {
      if id !in rows || rows[id].lease != Some(token) || rows[id].stage != Deprovisioning {
        return Diagnose(rows, id, token, Deprovisioning);
      }
      rows := rows[id := rows[id].(deleted := true, stage := Deprovisioned, nextRetryAt := None,
                                   lockedAt := None, lease := None)];
      return Ok;
    }

    method MarkDeprovisionFailed(id: string, token: Token) returns (outcome: Outcome)
      modifies this
      ensures outcome == OutcomeOf(old(rows), id, token, FailDeprovisioning)
      ensures rows == ExecuteOn(old(rows), id, token, FailDeprovisioning)
    {
      if id !in rows || rows[id].lease != Some(token) || rows[id].stage != Deprovisioning {
        return Diagnose(rows, id, token, Deprovisioning);
      }
      rows := rows[id := rows[id].(stage := DeprovisionFailed, lockedAt := None, lease := None)];
      return Ok;
    }

    method ReleaseProvisioningLease(id: string, token: Token) returns (outcome: Outcome)
      modifies this
      ensures outcome == OutcomeOf(old(rows), id, token, Release)
      ensures rows == ExecuteOn(old(rows), id, token, Release)
    {
      if id !in rows || rows[id].lease != Some(token) || rows[id].deleted {
        return StaleLease;
      }
      rows := rows[id := rows[id].(lockedAt := None, lease := None)];
      return Ok;
    }

    method MarkVerified(id: string, project: string, now: int) returns (ok: bool)
      modifies this
      ensures ok <==> id in old(rows) && Visible(old(rows)[id], project)
      ensures rows == if id in old(rows) then old(rows)[id := VerifiedRow(old(rows)[id], project, now)] else old(rows)
    {
      ok := id in rows && rows[id].project == project && !rows[id].deleted;
      if ok {
        rows := rows[id := rows[id].(status := Verified, verifiedAt := Some(now))];
      }
    }

    method UpdateRoutingStatus(id: string, project: string, routing: Routing) returns (ok: bool)
      modifies this
      ensures ok <==> id in old(rows) && Visible(old(rows)[id], project)
      ensures rows ==
        if id in old(rows) then old(rows)[id := RoutingUpdated(old(rows)[id], project, routing)] else old(rows)
    {
      ok := id in rows && rows[id].project == project && !rows[id].deleted;
      if ok {
        rows := rows[id := rows[id].(routing := routing)];
      }
    }

    method MarkActive(id: string, project: string) returns (ok: bool)
      modifies this
      ensures ok <==> id in old(rows) && Visible(old(rows)[id], project) && old(rows)[id].status == Verified
                      && old(rows)[id].routing == RoutingReady
      ensures rows == if id in old(rows) then old(rows)[id := ActivatedRow(old(rows)[id], project)] else old(rows)
    {
      ok := id in rows && rows[id].project == project && !rows[id].deleted && rows[id].status == Verified
            && rows[id].routing == RoutingReady;
      if ok {
        rows := rows[id := rows[id].(status := Active)];
      }
    }

    /** Returns the row when it was queued now, or was already in the pipeline or completed. */
    method EnqueueProvisioning(id: string, project: string, now: int) returns (found: Option<Row>)
      modifies this
      ensures rows ==
        if id in old(rows) then old(rows)[id := ProvisioningEnqueued(old(rows)[id], project, now)] else old(rows)
      ensures found.Some? <==>
        && id in old(rows)
        && Visible(old(rows)[id], project)
        && old(rows)[id].status == Verified
        && old(rows)[id].routing == RoutingReady
        && !Teardown(old(rows)[id].stage)
      ensures found.Some? ==> found.value == rows[id]
    {
      if id !in rows || rows[id].project != project || rows[id].deleted
         || rows[id].status != Verified || rows[id].routing != RoutingReady {
        return None;
      }
      var r := rows[id];
      if r.stage == NotStarted || r.stage == Failed {
        r := r.(stage := RequestingCertificate, attempts := 0, nextRetryAt := Some(now),
                lockedAt := None, lease := None);
        rows := rows[id := r];
        return Some(r);
      }
      if InPipeline(r.stage) || r.stage == Completed {
        return Some(r);
      }
      return None;
    }

    method ResetProvisioningForRetry(id: string, project: string, target: Stage, now: int) returns (ok: bool)
      modifies this
      ensures ok <==> id in old(rows) && Visible(old(rows)[id], project) && old(rows)[id].stage == Failed
      ensures rows ==
        if id in old(rows) then old(rows)[id := ProvisioningReset(old(rows)[id], project, target, now)] else old(rows)
    {
      ok := id in rows && rows[id].project == project && !rows[id].deleted && rows[id].stage == Failed;
      if ok {
        rows := rows[id := rows[id].(stage := target, attempts := 0, nextRetryAt := Some(now),
                                     lockedAt := None, lease := None)];
      }
    }

    method EnqueueDeprovisioning(id: string, project: string, now: int) returns (ok: bool)
      modifies this
      ensures ok <==> id in old(rows) && Visible(old(rows)[id], project)
      ensures rows ==
        if id in old(rows) then old(rows)[id := DeprovisioningEnqueued(old(rows)[id], project, now)] else old(rows)
    {
      ok := id in rows && rows[id].project == project && !rows[id].deleted;
      if ok && rows[id].stage != Deprovisioning && rows[id].stage != Deprovisioned {
        rows := rows[id := rows[id].(stage := Deprovisioning, nextRetryAt := Some(now),
                                     lockedAt := None, lease := None)];
      }
    }

    method ResetDeprovisioningForRetry(id: string, project: string, now: int) returns (ok: bool)
      modifies this
      ensures ok <==> id in old(rows) && Visible(old(rows)[id], project) && old(rows)[id].stage == DeprovisionFailed
      ensures rows ==
        if id in old(rows) then old(rows)[id := DeprovisioningReset(old(rows)[id], project, now)] else old(rows)
    {
      ok := id in rows && rows[id].project == project && !rows[id].deleted && rows[id].stage == DeprovisionFailed;
      if ok {
        rows := rows[id := rows[id].(stage := Deprovisioning, attempts := 0, nextRetryAt := Some(now),
                                     lockedAt := None, lease := None)];
      }
    }
  }
}
