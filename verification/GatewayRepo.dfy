/** The repository that runs the `gateways` statements on the table in place. */
module GatewayRepository {
  import opened Options
  import opened GatewayTable
  import opened Queueing

  datatype Queued = QueuedAt(drainStartedAt: int, cleanupReadyAt: int) | AlreadyDecommissioned | GatewayNotFound

  class GatewayRepo {
    var rows: map<string, Row>

    constructor ()
      ensures rows == map[]
    {
      rows := map[];
    }

    /** Provision: a second insert under the same external id violates its uniqueness. */
    method Provision(id: string, now: int) returns (ok: bool)
      modifies this
      ensures ok <==> id !in old(rows)
      ensures rows == if ok then old(rows)[id := Inserted(now)] else old(rows)
      ensures ok ==> rows[id].status == "provisioning" && rows[id].stage == NotStarted && rows[id].retryCount == 0
    {
      ok := id !in rows;
      if ok {
        rows := rows[id := Inserted(now)];
      }
    }

    method MarkContainerReady(id: string, port: int, now: int) returns (ok: bool)
      modifies this
      ensures ok <==> 1 <= port <= 65535 && id in old(rows) && !old(rows)[id].deleted
      ensures rows ==
        if id in old(rows) then old(rows)[id := ContainerMarkedReady(old(rows)[id], port, now)] else old(rows)
    {
      ok := false;
      if port < 1 || port > 65535 || id !in rows || rows[id].deleted {
        return;
      }
      var r := rows[id];
      rows := rows[id := r.(hostPort := Some(port), status := "provisioning", stage := ContainerReady,
                            retryCount := 0, nextRetryAt := Some(now))];
      ok := true;
    }

    /** The eligible row that is first in queue order is claimed; ties are broken arbitrarily. */
    method ClaimNextGatewayIngressJob(token: Token, now: int, lockTimeout: int) returns (job: Option<Job>)
      modifies this
      ensures job.None? <==> forall id :: id in old(rows) ==> !Eligible(old(rows)[id], now, lockTimeout)
      ensures job.None? ==> rows == old(rows)
      ensures job.Some? ==>
        var id := job.value.externalId;
        && id in old(rows)
        && Eligible(old(rows)[id], now, lockTimeout)
        && (forall other :: other in old(rows) && Eligible(old(rows)[other], now, lockTimeout) ==>
              !Before(Slot(old(rows)[other].nextRetryAt, old(rows)[other].createdAt),
                      Slot(old(rows)[id].nextRetryAt, old(rows)[id].createdAt)))
        && rows == old(rows)[id := Claimed(old(rows)[id], token, now)]
        && job.value == JobOf(id, old(rows)[id], token)
        && job.value.priority == old(rows)[id].priority.GetOr(0) && job.value.token == token
    {
      var eligible := map id | id in rows && Eligible(rows[id], now, lockTimeout) ::
        Slot(rows[id].nextRetryAt, rows[id].createdAt);
      if eligible == map[] {
        assert forall id :: id in rows && Eligible(rows[id], now, lockTimeout) ==> id in eligible;
        return None;
      }
      var id := First(eligible);
      assert forall other :: other in rows && Eligible(rows[other], now, lockTimeout) ==>
        other in eligible && eligible[other] == Slot(rows[other].nextRetryAt, rows[other].createdAt);
      var r := rows[id];
      rows := rows[id := r.(lockedAt := Some(now), lease := Some(token))];
      return Some(Job(id, r.hostPort.GetOr(0), r.targetGroup.GetOr(""), r.ruleArn.GetOr(""), r.priority.GetOr(0),
                      r.stage, r.retryCount, token));
    }

    /** The row a token-guarded statement may touch. */
    predicate Held(id: string, token: Token)
      reads this
    {
      id in rows && !rows[id].deleted && rows[id].lease == Some(token)
    }

    method MarkGatewayTargetGroupCreated(id: string, token: Token, arn: string, now: int) returns (ok: bool)
      modifies this
      ensures ok <==> MatchesIn(old(rows), id, token, TargetGroupCreated(arn))
      ensures rows == ExecuteOn(old(rows), id, token, TargetGroupCreated(arn), now)
    {
      ok := Held(id, token);
      if ok {
        rows := rows[id := rows[id].(targetGroup := Some(arn), stage := RegisteringTarget,
                                     nextRetryAt := Some(now), lockedAt := None, lease := None)];
      }
    }

    method MarkGatewayTargetRegistered(id: string, token: Token, now: int) returns (ok: bool)
      modifies this
      ensures ok <==> MatchesIn(old(rows), id, token, TargetRegistered)
      ensures rows == ExecuteOn(old(rows), id, token, TargetRegistered, now)
    {
      ok := Held(id, token);
      if ok {
        rows := rows[id := rows[id].(stage := CreatingListenerRule, nextRetryAt := Some(now),
                                     lockedAt := None, lease := None)];
      }
    }

    /** One transaction under an advisory lock: read the lease, scan for the least free candidate, store it. */
    method ReserveGatewayListenerRulePriority(id: string, token: Token, low: int, high: int)
      returns (answer: Reservation)
      modifies this
      ensures answer == ReservationFor(old(rows), id, token, low, high)
      ensures answer == InvalidRange <==> !(1 <= low <= high <= 50000)
      ensures rows == AfterReservation(old(rows), id, token, low, high)
    {
      if low < 1 || high > 50000 || low > high {
        return InvalidRange;
      }
      if !Held(id, token) {
        return StaleLease;
      }
      var existing := rows[id].priority.GetOr(0);
      if existing > 0 {
        assert rows[id].(priority := Some(existing)) == rows[id];
        return Reserved(existing);
      }
      var held := HeldPriorities(rows);
      var candidate := low;
      while candidate <= high && candidate in held
        invariant low <= candidate <= high + 1
        invariant LeastFree(held, low, high) == LeastFree(held, candidate, high)
      {
        candidate := candidate + 1;
      }
      if candidate > high {
        return NoPriorityLeft;
      }
      rows := rows[id := rows[id].(priority := Some(candidate))];
      return Reserved(candidate);
    }

    method MarkGatewayListenerRuleCreated(id: string, token: Token, arn: string, nextCheckAt: int, now: int)
      returns (ok: bool)
      modifies this
      ensures ok <==> MatchesIn(old(rows), id, token, ListenerRuleCreated(arn, nextCheckAt))
      ensures rows == ExecuteOn(old(rows), id, token, ListenerRuleCreated(arn, nextCheckAt), now)
    {
      ok := Held(id, token);
      if ok {
        rows := rows[id := rows[id].(ruleArn := Some(arn), stage := WaitingForTargetHealth,
                                     nextRetryAt := Some(nextCheckAt), lockedAt := None, lease := None)];
      }
    }

    method RescheduleGatewayHealthCheck(id: string, token: Token, nextCheckAt: int, now: int) returns (ok: bool)
      modifies this
      ensures ok <==> MatchesIn(old(rows), id, token, HealthCheckRescheduled(nextCheckAt))
      ensures rows == ExecuteOn(old(rows), id, token, HealthCheckRescheduled(nextCheckAt), now)
    {
      ok := Held(id, token);
      if ok {
        rows := rows[id := rows[id].(nextRetryAt := Some(nextCheckAt), lockedAt := None, lease := None)];
      }
    }

    method MarkGatewayIngressActive(id: string, token: Token, now: int) returns (ok: bool)
      modifies this
      ensures ok <==> MatchesIn(old(rows), id, token, IngressActive)
      ensures rows == ExecuteOn(old(rows), id, token, IngressActive, now)
    {
      ok := Held(id, token);
      if ok {
        rows := rows[id := rows[id].(status := "active", stage := Completed, nextRetryAt := None,
                                     lockedAt := None, lease := None)];
      }
    }

    method ScheduleGatewayIngressRetry(id: string, token: Token, nextRetryAt: int, now: int) returns (ok: bool)
      modifies this
      ensures ok <==> MatchesIn(old(rows), id, token, RetryScheduled(nextRetryAt))
      ensures rows == ExecuteOn(old(rows), id, token, RetryScheduled(nextRetryAt), now)
    {
      ok := Held(id, token);
      if ok {
        rows := rows[id := rows[id].(retryCount := rows[id].retryCount + 1, nextRetryAt := Some(nextRetryAt),
                                     lockedAt := None, lease := None)];
      }
    }

    method MarkGatewayIngressFailed(id: string, token: Token, now: int) returns (ok: bool)
      modifies this
      ensures ok <==> MatchesIn(old(rows), id, token, IngressFailed)
      ensures rows == ExecuteOn(old(rows), id, token, IngressFailed, now)
    {
      ok := Held(id, token);
      if ok {
        rows := rows[id := rows[id].(status := "failed", stage := Failed, nextRetryAt := None,
                                     lockedAt := None, lease := None)];
      }
    }

    /**
     Queues the teardown and returns when draining started and when cleanup is due. A gateway already
     decommissioned is accepted with no times; any other missing row is refused.
     */
    method QueueGatewayDeprovisioning(id: string, drain: int, now: int) returns (answer: Queued)
      modifies this
      ensures rows ==
        if id in old(rows) then old(rows)[id := DeprovisioningQueued(old(rows)[id], drain, now)] else old(rows)
      ensures answer.GatewayNotFound? <==>
        id !in old(rows) || (old(rows)[id].deleted && old(rows)[id].status != "decommissioned")
      ensures answer.AlreadyDecommissioned? <==> id in old(rows) && old(rows)[id].status == "decommissioned"
      ensures answer.QueuedAt? ==>
        && Some(answer.drainStartedAt) == rows[id].drainStartedAt && Some(answer.cleanupReadyAt) == rows[id].nextRetryAt
        && (old(rows)[id].drainStartedAt.Some? ==> Some(answer.drainStartedAt) == old(rows)[id].drainStartedAt)
    {
      if id in rows && !rows[id].deleted && rows[id].status != "decommissioned" {
        var r := rows[id];
        var started := r.drainStartedAt.GetOr(now);
        var next := started + if drain < 0 then 0 else drain;
        var retries := 0;
        if r.stage == Deprovisioning {
          retries := r.retryCount;
          if r.nextRetryAt.Some? {
            next := r.nextRetryAt.value;
          }
        }
        rows := rows[id := r.(status := "draining", drainStartedAt := Some(started), stage := Deprovisioning,
                              retryCount := retries, nextRetryAt := Some(next), lockedAt := None, lease := None)];
        return QueuedAt(started, next);
      }
      if id in rows && rows[id].status == "decommissioned" {
        return AlreadyDecommissioned;
      }
      return GatewayNotFound;
    }

    /** UpdateStatus, and Register as far as the status goes. */
    method UpdateStatus(id: string, status: string) returns (ok: bool)
      modifies this
      ensures ok <==> id in old(rows) && !old(rows)[id].deleted
      ensures rows == if id in old(rows) then old(rows)[id := StatusUpdated(old(rows)[id], status)] else old(rows)
      ensures ok ==> rows[id] == old(rows)[id].(status := status)
      ensures !ok ==> rows == old(rows)
    {
      ok := id in rows && !rows[id].deleted;
      if ok {
        rows := rows[id := rows[id].(status := status)];
      } else if id in rows {
        assert rows[id := rows[id]] == rows;
      }
    }

    /** The stale-drain reconciler's soft delete. */
    method Decommission(id: string) returns (ok: bool)
      modifies this
      ensures ok <==> id in old(rows) && !old(rows)[id].deleted
      ensures rows == if id in old(rows) then old(rows)[id := SoftDeleted(old(rows)[id])] else old(rows)
      ensures ok ==> rows[id] == old(rows)[id].(status := "decommissioned", deleted := true)
      ensures !ok ==> rows == old(rows)
    {
      ok := id in rows && !rows[id].deleted;
      if ok {
        rows := rows[id := rows[id].(status := "decommissioned", deleted := true)];
      } else if id in rows {
        assert rows[id := rows[id]] == rows;
      }
    }

    method MarkGatewayDecommissioned(id: string, token: Token, now: int) returns (ok: bool)
      modifies this
      ensures ok <==> MatchesIn(old(rows), id, token, GatewayDecommissioned)
      ensures rows == ExecuteOn(old(rows), id, token, GatewayDecommissioned, now)
    {
      ok := Held(id, token) && rows[id].stage == Deprovisioning;
      if ok {
        rows := rows[id := rows[id].(status := "decommissioned", stage := Deprovisioned, hostPort := None,
                                     targetGroup := None, ruleArn := None, priority := None, nextRetryAt := None,
                                     lockedAt := None, lease := None, deleted := true)];
      }
    }
  }
}
