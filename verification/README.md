# EliteGate in Dafny

EliteGate is an API gateway with an admin control plane, background workers and a data plane. This project models
the parts of it whose correctness spans many calls, and proves what they guarantee. `dafny verify dfyconfig.toml`
checks everything.

- **Two leased job queues.** `GatewayTable`, `GatewayRepo`, `GatewayWorker`, `GatewaySystem`, `GatewayTheorems`
  (dedicated-gateway ingress) and `CustomDomainTable`, `CustomDomainRepo`, `CustomDomainWorker`,
  `CustomDomainServices`, `CustomDomainSystem`, `CustomDomainTheorems` (custom-domain provisioning). Each SQL
  statement or transaction is one atomic step. Workers hold job snapshots and admin calls hold rows they have read;
  both may act arbitrarily late. AWS and Docker answer as they like; `GatewayOutcomes` and `CustomDomainOutcomes` say
  what their answers do to a row, and that over every run each stage goes back to answers that justify it.
- **Project JWT configuration.** `JwtSettings` (normalisation), `JwtSaga` and `JwtService` (create, rotate, delete
  across database and secret store, one external call per step), `JwtManager` (the gateway's incremental rebuild),
  `JwtTheorems` (histories, and control plane and gateway together) and `JwtLedger` (row, secret and verifier are those
  of the last accepted submissions).
- **Sliding-window rate limiting.** `SlidingWindow`, `MemoryLimiter`, `RedisLimiter`.
- **Load balancing under hot reload.** `RoundRobin`, `LeastConn`, and `PoolOrigins` (which configuration a request is
  balanced by).
- **Matching and indexes.** `HttpMatcher`, `GrpcRouting`, `IpFilter`, `HostRules`, with `Sorting`, `Text` and
  `Options` beneath them; `Queueing` holds the claim order and the retry delay.

Objects whose methods change their fields are classes; each of their methods is proved equal to a function of the
old state, and the theorems are about runs of those functions.

## Assumptions

- Lease tokens, secret ARNs and secret version ids are fresh; secret versions are immutable. A secret-store or
  database call of the JWT saga that fails has no effect, and calls for one project are sequential.
- AWS identifiers returned on success are not empty. A load-balancer listener never holds two rules with one
  priority, and its listing shows every rule created before it was read.
- Clocks do not run backwards, and the clocks of gateway and Redis server agree. The in-memory limiter reads its clock
  under its mutex, so its calls are in clock order. The Redis limiter reads its clock before the round trip and under
  no lock; its script runs later on the server, where keys also expire. That a script runs at most d milliseconds after
  its reading is an assumption wherever d appears: the client stops waiting after 50 milliseconds, but a script already
  sent may still run. Scripts and fallbacks of concurrent requests interleave freely: a request may fall back before its
  own script runs, and requests may fall back in another order than their scripts ran.
- The container-ready write is the first event on its gateway row, as in the Provision handler
  (`GatewaySystem.InOrder`), and an inserted gateway is not claimable. All workers share one priority range.
- No address or prefix is written with a comma (`IpFiltering.Lawful`, used only where commas are in question).

## Where the code falls short of what one would expect

- The container-ready write tests neither stage nor lease: after a queued deletion it makes the gateway
  provisionable again (`LateContainerReadyResurrects`, exact condition in `ContainerReadyRespectsTeardown`).
- A failed JWT deletion puts the row back without its version, so it restarts at 1 and a gateway may keep an older
  verifier (`RolledBackDeletionReusesVersion`, `RolledBackDeletionLeavesStaleVerifier`, `PutBackLeavesStaleVerifier`).
  As long as no other row past version 1 is put back, no continuation is ambiguous exactly if the history was not and
  the row's secret version was published only as version 1 of the same settings (`FailedDeletionIsHarmlessIff`, in every
  reachable state). At the first put-back that means: exactly if the row was at version 1 before the deletion
  (`FirstFailedDeletionIsHarmlessIff`); later, version 1 is not enough (`VersionOneIsNotEnough`).
- A Redis limit above 10000 is never enforced (`LimitAboveCapAcceptsEverything`). The limit is kept while no
  request for a key falls back, or none is answered by Redis (`OneSourceKeepsLimit`); with both sources twice the limit is the bound and is
  reached (`AtMostTwiceTheLimit`, `TwiceTheLimitIsReached`).
- Scripts that run d milliseconds after their readings, and so out of their order, exceed these bounds over windows of
  60 seconds less d (`ReorderingExceedsLimit`, `ReorderingExceedsTwiceTheLimit`); windows one millisecond shorter are
  always safe (`WindowBoundIff`, `TwiceTheLimitIff`).
- Two enabled gRPC routes on one path are checked by the first one's policy and sent to the last one's upstream
  (`DuplicatePathsDisagree`, exact condition in `AgreeIff`).
- A rule with a comma can be answered with another list's checker (`CommaRuleHitsOtherEntry`, exact condition in
  `TransparentIff`). The comment in `internal/gateway/middleware/ip_filter.go` says that a list that does not parse
  fails closed; the middleware does not enforce such a list (`FilterDecision`, `BadRuleForwardsEveryone`).
- A prefix route 500000 bytes longer hides a parametric one (`LongPrefixHidesParameter`, exact condition in
  `PreferredWinsIff`).
- Round robin is unfair around the wrap of its 64-bit counter, unless the length of the expanded list divides 2^64
  (`WraparoundIsFairIff`; for equal weights that length is the pool size, `EqualWeightsWraparound`).

## Model

| member | source | states |
|---|---|---|
| `GatewayTheorems.ReachableGateways` | internal/storage/gateway_ingress_state.go:15-353 | In every state of every in-order interleaving of claims, lease expiries, reservations, worker writes and admin calls: each row carries the port, target group, priority and rule ARN its stage needs, priorities of live gateways are distinct and in range, a job whose token is still on its row pictures that row exactly, and no held job leads to a missing-data branch |
| `GatewayTheorems.SupersededWriteIsInert` | internal/storage/gateway_ingress_state.go:290-353 | A write by a worker whose token is no longer on the row leaves the whole system unchanged |
| `GatewayTheorems.StepEvolves` | cmd/worker/gateway_provisioner.go:208-360 | Each step moves a row only one stage forward, to failed from a stage under work, or into teardown, although most writes check the token alone |
| `GatewayTheorems.TeardownIsFinal` | internal/storage/gateway_deprovision_repo.go:16-94 | Once deprovisioning is queued no later step returns the row to a provisioning stage or to completed, in every run whose container-ready writes find no queued teardown or are refused, in order or not |
| `GatewayTheorems.RespectfulRunsKeepTeardown` | internal/storage/gateway_deprovision_repo.go:16-92 | The invariant behind it holds in every state of such runs |
| `GatewayTheorems.InOrderIsRespectful` | internal/storage/gateway_ingress_repo.go:11-64 | Runs in the handler's order are such runs |
| `GatewayTheorems.LeaseIsExclusive` | internal/storage/gateway_ingress_queue.go:29-107 | Along any run after a claim, while the row carries the token it is locked since the claim, so no second claim is possible before the lock timeout |
| `GatewayTheorems.ReservedPrioritySurvives` | internal/storage/gateway_ingress_state.go:75-183 | A reserved listener priority survives every retry, failure and requeue until the gateway is decommissioned |
| `GatewayTheorems.DeletedRowsRest` | internal/storage/gateway_deprovision_repo.go:96-136 | A soft-deleted gateway stays deleted and its stage never changes again |
| `GatewayTheorems.AllocatorIsLeastFree` | internal/storage/gateway_ingress_state.go:75-183 | The reservation refuses exactly when every priority of the range is held by a live gateway, and otherwise returns the least free one |
| `GatewayTheorems.RefusalMeansFull` | internal/storage/gateway_ingress_state.go:148-183 | A refusal for lack of space implies at least as many live gateways as priorities in the range |
| `GatewayTheorems.QueueAgainChangesNothing` | internal/storage/gateway_deprovision_repo.go:16-94 | Queueing deprovisioning twice equals queueing it once: drain time and scheduled retry are kept |
| `GatewayTheorems.LateContainerReadyResurrects` | internal/storage/gateway_ingress_repo.go:11-64 | A container-ready write that arrives after deprovisioning was queued makes the row claimable for provisioning again |
| `GatewayTheorems.ContainerReadyRespectsTeardown` | internal/storage/gateway_ingress_repo.go:11-64 | The container-ready write respects queued teardown if and only if none was queued, the row is deleted, or the port is refused |
| `GatewayTheorems.HandledRowsAtRow` | cmd/worker/gateway_provisioner.go:152-206 | A whole worker turn on the table changes the claimed row exactly as the row-level turn says, and no other row |
| `GatewayTheorems.TurnUsesWork` | cmd/worker/gateway_provisioner.go:435-462 | Every handled claim other than a health reschedule strictly decreases stages left plus retries left; a reschedule keeps it |
| `GatewayTheorems.ProvisioningWorkIsBounded` | cmd/worker/gateway_provisioner.go:152-206 | From container_ready with zero retries at most 13 such claims can happen, and the 13th leaves the row completed or failed |
| `GatewayTheorems.TeardownWorkIsBounded` | cmd/worker/gateway_provisioner.go:364-462 | A newly queued deprovisioning takes at most 10 such claims, and the 10th leaves the row deprovisioned or failed |
| `GatewayOutcomes.AnswersDecide` | cmd/worker/gateway_provisioner.go:208-462 | However late a worker writes, while its token is on the row: a stage is left for the next one exactly if its AWS call succeeded, for completed and active exactly if the trimmed, lower-cased health answer is "healthy", for deprovisioned exactly if every cleanup call the row needs succeeded and the container was removed; "unhealthy" and errors are retried after the growing delay or fail at the tenth, any other health answer is asked again after 15 seconds; no other column changes |
| `GatewayOutcomes.TurnAnswers` | cmd/worker/gateway_provisioner.go:152-206 | The same for one undisturbed turn, as the row-level turn leaves the row |
| `GatewayOutcomes.FourTurnsComplete` | cmd/worker/gateway_provisioner.go:208-351 | When every call succeeds four turns take an inserted gateway from its container to completed, with the port, target group, priority and rule obtained on the way |
| `GatewayOutcomes.PutOffRowsWait` | cmd/worker/gateway_provisioner.go:333-362 | A gateway not reported healthy is claimed by nobody for at least 15 seconds |
| `GatewayOutcomes.ContainerReadyQueues` | internal/storage/gateway_ingress_repo.go:11-64 | A live row with a port in 1..65535 enters the queue at once with all its retries; any other is left as it is |
| `GatewayOutcomes.CleanupWaitsForDrain` | internal/storage/gateway_deprovision_repo.go:16-94 | A newly queued teardown counts its drain time from the start of draining and is claimable exactly from then on |
| `GatewayOutcomes.StagesAreEarned` | cmd/worker/gateway_provisioner.go:208-433 | In every state of every in-order run, each stage goes back to effective answers about the row itself: its target group was returned for it, its port registered there, its rule created for that target group with the priority reserved, and a completed one was called healthy on that target; a deprovisioned one had everything its job knew of removed |
| `GatewaySystem.RunKeepsInv` | internal/storage/gateway_ingress_queue.go:29-107 | The invariant behind the results above holds along every run from any state that satisfies it |
| `GatewaySystem.StepKeepsInv` | internal/storage/gateway_ingress_state.go:15-353 | Each single statement or transaction preserves that invariant |
| `GatewaySystem.DecisionFits` | cmd/worker/gateway_provisioner.go:208-433 | Whatever AWS and Docker answer, a handler ends with a write that fits the stage of the claimed job |
| `GatewaySystem.WriteKeepsRow` | internal/storage/gateway_ingress_state.go:15-353 | A token-guarded write issued for a fenced job leaves a row with the data of its new stage and no lease |
| `GatewaySystem.ReservationKeepsDistinct` | internal/storage/gateway_ingress_state.go:75-183 | The reservation transaction never gives two live gateways one priority |
| `GatewayRepository.GatewayRepo.Provision` | internal/storage/gateway_repo.go:67-84 | Inserts a row that is not claimable; refused for an existing id. `Register`, which follows it, is a status write (`UpdateStatus`) |
| `GatewayRepository.GatewayRepo.MarkContainerReady` | internal/storage/gateway_ingress_repo.go:11-64 | Valid port and live row: the row is queued at container_ready; otherwise nothing changes |
| `GatewayRepository.GatewayRepo.ClaimNextGatewayIngressJob` | internal/storage/gateway_ingress_queue.go:29-107 | The eligible row first in order of next_retry_at and created_at gets the fresh token and is returned as read; none exactly when no row is eligible |
| `GatewayRepository.GatewayRepo.MarkGatewayTargetGroupCreated` | internal/storage/gateway_ingress_state.go:15-44 | Records the target group and moves to registering_target when the token is on the row; otherwise reports failure and changes nothing |
| `GatewayRepository.GatewayRepo.MarkGatewayTargetRegistered` | internal/storage/gateway_ingress_state.go:46-73 | Moves to creating_listener_rule under the token |
| `GatewayRepository.GatewayRepo.ReserveGatewayListenerRulePriority` | internal/storage/gateway_ingress_state.go:75-183 | Returns the priority already held, or stores the least free one, or refuses without effect |
| `GatewayRepository.GatewayRepo.MarkGatewayListenerRuleCreated` | internal/storage/gateway_ingress_state.go:186-221 | Records the rule and moves to waiting_for_target_health under the token |
| `GatewayRepository.GatewayRepo.RescheduleGatewayHealthCheck` | internal/storage/gateway_ingress_state.go:223-247 | Releases the lease and sets the next check without counting a retry |
| `GatewayRepository.GatewayRepo.MarkGatewayIngressActive` | internal/storage/gateway_ingress_state.go:249-288 | Completes the row under the token, keeping its retry count |
| `GatewayRepository.GatewayRepo.ScheduleGatewayIngressRetry` | internal/storage/gateway_ingress_state.go:290-324 | Counts one retry and releases the lease |
| `GatewayRepository.GatewayRepo.MarkGatewayIngressFailed` | internal/storage/gateway_ingress_state.go:326-353 | Fails the row and releases the lease |
| `GatewayRepository.GatewayRepo.QueueGatewayDeprovisioning` | internal/storage/gateway_deprovision_repo.go:16-94 | Moves a live row to deprovisioning once, revokes its lease and returns drain and cleanup times; accepts a decommissioned gateway without times and refuses a missing one |
| `GatewayRepository.GatewayRepo.UpdateStatus` | internal/storage/gateway_repo.go:120-142 | Sets the status of a live row and nothing else; refused for any other |
| `GatewayRepository.GatewayRepo.Decommission` | internal/storage/gateway_repo.go:145-167 | Soft-deletes a live row as decommissioned and leaves the other columns; refused for any other |
| `GatewayRepository.GatewayRepo.MarkGatewayDecommissioned` | internal/storage/gateway_deprovision_repo.go:96-136 | Under token and stage deprovisioning: clears the ingress columns and soft-deletes the row |
| `GatewayWorker.GatewayProvisioner.ProcessNextJob` | cmd/worker/gateway_provisioner.go:152-206 | Claim, reserve if the stage needs it, decide and write, as one function of the table when nobody else writes meanwhile; no job exactly when no row is eligible |
| `GatewayWorker.GatewayProvisioner.Issue` | cmd/worker/gateway_provisioner.go:435-475 | The write a handler chose is the repository call made, and its success is reported |
| `CustomDomainTheorems.ReachableDomains` | internal/storage/custom_domain_repo.go:663-1306 | In every reachable state rows have verified_at, ARN, managed flag, validation record and listener rule as their stage needs; a job whose token is still on its row agrees with the row on status, certificate, rule and attempts; no held job takes the missing-ARN, not-managed or unhandled-status branch |
| `CustomDomainTheorems.RunKeepsInv` | internal/admin/service/custom_domain_service.go:348-891 | The invariant holds along every interleaving, including admin calls that act on rows read arbitrarily long before |
| `CustomDomainTheorems.SupersededWriteIsInert` | internal/storage/custom_domain_repo.go:736-1089 | Every late write by a superseded worker changes nothing |
| `CustomDomainTheorems.WorkersNeverSeeInvalidTransition` | internal/storage/custom_domain_repo.go:624-660 | A worker is only ever told success or stale lease |
| `CustomDomainTheorems.RunEvolves` | internal/storage/custom_domain_repo.go:736-794 | Over any run certificate_arn never changes once set, and a row that entered deprovisioning never re-enters the pipeline |
| `CustomDomainTheorems.LeaseIsExclusive` | internal/storage/custom_domain_repo.go:663-733 | Along any run after a claim, while the row carries the token it is locked since the claim, so no second claim is possible before the lock timeout |
| `CustomDomainTheorems.HostnamesStayDistinct` | migrations/0026_create_custom_domains.up.sql:36-38 | The unique index on LOWER(hostname) over rows not deleted, together with no statement writing a hostname or undeleting a row: over every run no two live domains share a hostname |
| `CustomDomainSystem.StepKeepsInv` | internal/storage/custom_domain_repo.go:663-1352 | Each statement preserves the invariant |
| `CustomDomainSystem.DecisionFits` | cmd/worker/provisioner.go:246-980 | Whatever AWS answers, a handler on a sound job ends with a write that its stage allows, and an Advance never replaces a known ARN |
| `CustomDomainSystem.EffectIsGood` | internal/storage/custom_domain_repo.go:736-1055 | A write that fits leaves a row with the data of its new stage |
| `CustomDomainSystem.ResetIsGood` | internal/admin/service/custom_domain_service.go:875-891 | Resuming at the stage chosen on a stale read lands on a row that has what the stage needs |
| `CustomDomainSystem.StepEvolves` | internal/storage/custom_domain_repo.go:736-1352 | Each step moves a row only along the stage graph, fills columns in and never empties them |
| `CustomDomainOutcomes.AnswersDecide` | cmd/worker/provisioner.go:246-980 | However late a worker writes, while its token is on the row: waiting_for_dns is left for attaching_certificate exactly if ACM's trimmed, upper-cased status is ISSUED; completed is reached exactly if it is ISSUED, the attachment succeeded, the project's ingress was found and the rule is ready; deprovisioned exactly if no cleanup call that is needed failed; which answers poll, retry or fail is said for every stage, with the whole new row |
| `CustomDomainOutcomes.TurnAnswers` | cmd/worker/provisioner.go:167-244 | The same for one undisturbed turn |
| `CustomDomainOutcomes.AdminCallsQueue` | internal/admin/service/custom_domain_service.go:348-776 | Verification, a successful routing check and activation queue a new domain for its certificate |
| `CustomDomainOutcomes.FourTurnsComplete` | cmd/worker/provisioner.go:246-879 | When every call succeeds four turns complete and activate a queued domain, with the ARN and rule AWS returned |
| `CustomDomainOutcomes.RecordsAreEarned` | cmd/worker/provisioner.go:246-980 | In every reachable state: the ARN was returned by ACM for this domain, the validation record given for that ARN, certificate status issued and the stages from attaching_certificate on only after ACM said ISSUED for it, a completed domain was attached and routed by the very rule recorded, a deprovisioned one cleaned up, and nothing is queued before the TXT record matched and a routing check succeeded, however stale the reads of admin calls |
| `CustomDomainOutcomes.OtherDomainsAreUntouched` | internal/storage/custom_domain_repo.go:337-534 | No statement issued for one project changes a row of another project, or a deleted row |
| `CustomDomainOutcomes.StatusStatements` | internal/storage/custom_domain_repo.go:337-534 | What verification, routing check, activation and soft delete change, and that they change nothing else |
| `CustomDomainOutcomes.QueueStatements` | internal/storage/custom_domain_repo.go:1092-1352 | Exactly when provisioning, a retry, teardown and its retry queue a row; a row they queue is claimable at once, without lease, and keeps everything on record |
| `CustomDomainOutcomes.RetryResumesFurthest` | internal/admin/service/custom_domain_service.go:875-891 | A retry resumes at the furthest stage whose columns are all present in the row read |
| `CustomDomainRepository.CustomDomainRepo.Create` | internal/storage/custom_domain_repo.go:164-244 | Inserts an unverified row; refused for an id in use and for the hostname of a live row |
| `CustomDomainRepository.CustomDomainRepo.ClaimNextProvisioningJob` | internal/storage/custom_domain_repo.go:663-733 | The eligible row first in order of next_retry_at and created_at is leased and returned; none exactly when no row is eligible |
| `CustomDomainRepository.CustomDomainRepo.AdvanceProvisioningState` | internal/storage/custom_domain_repo.go:736-794 | Under token and expected status: moves the row, filling columns only where a value is given; otherwise diagnoses and changes nothing |
| `CustomDomainRepository.CustomDomainRepo.ScheduleProvisioningPoll` | internal/storage/custom_domain_repo.go:797-832 | Releases the lease and sets the next poll without counting an attempt |
| `CustomDomainRepository.CustomDomainRepo.ScheduleProvisioningRetry` | internal/storage/custom_domain_repo.go:835-873 | Counts one attempt, sets the next retry and releases the lease |
| `CustomDomainRepository.CustomDomainRepo.MarkProvisioningFailed` | internal/storage/custom_domain_repo.go:876-922 | Fails the row and releases the lease |
| `CustomDomainRepository.CustomDomainRepo.MarkProvisioningCompleted` | internal/storage/custom_domain_repo.go:956-1011 | Activates the domain with its rule, from attaching_certificate only |
| `CustomDomainRepository.CustomDomainRepo.MarkDeprovisioned` | internal/storage/custom_domain_repo.go:1014-1055 | Ends teardown and soft-deletes the row |
| `CustomDomainRepository.CustomDomainRepo.MarkDeprovisionFailed` | internal/storage/custom_domain_repo.go:1264-1306 | Marks the teardown failed and releases the lease |
| `CustomDomainRepository.CustomDomainRepo.ReleaseProvisioningLease` | internal/storage/custom_domain_repo.go:1058-1089 | Gives the lease back if it is still held |
| `CustomDomainRepository.CustomDomainRepo.MarkVerified` | internal/storage/custom_domain_repo.go:337-372 | Verifies a visible row of the project |
| `CustomDomainRepository.CustomDomainRepo.UpdateRoutingStatus` | internal/storage/custom_domain_repo.go:456-496 | Changes only the routing status |
| `CustomDomainRepository.CustomDomainRepo.MarkActive` | internal/storage/custom_domain_repo.go:499-534 | Activates exactly a visible, verified row that is ready for routing |
| `CustomDomainRepository.CustomDomainRepo.EnqueueProvisioning` | internal/storage/custom_domain_repo.go:1092-1159 | Queues from not_started or failed, returns a row already queued or completed, refuses all others |
| `CustomDomainRepository.CustomDomainRepo.ResetProvisioningForRetry` | internal/storage/custom_domain_repo.go:1162-1206 | Requeues exactly a visible failed row |
| `CustomDomainRepository.CustomDomainRepo.EnqueueDeprovisioning` | internal/storage/custom_domain_repo.go:1209-1261 | Starts teardown once and revokes the lease |
| `CustomDomainRepository.CustomDomainRepo.ResetDeprovisioningForRetry` | internal/storage/custom_domain_repo.go:1309-1352 | Requeues exactly a visible row whose teardown failed |
| `Queueing.First` | internal/storage/custom_domain_repo.go:689-691 | Picks a job that no other precedes in the claim order |
| `Queueing.OrderMeaning` | internal/storage/custom_domain_repo.go:689-691 | Jobs without a time come first, then earlier times, and older jobs among equals |
| `Queueing.OrderIsStrictWeak` | internal/storage/custom_domain_repo.go:689-691 | The claim order is strict, transitive, and treats alike what it does not tell apart |
| `Queueing.RetryDelayGrows` | cmd/worker/provisioner.go:30-45 | A later attempt never waits less: the delay doubles from 15 seconds up to the fourth attempt and is 300 seconds from the fifth on |
| `CustomDomainServices.Provisioner.ProcessNextJob` | cmd/worker/provisioner.go:167-244 | Undisturbed, one turn applies the handler's write to the claimed row, touches no other row and always leaves it unlocked |
| `CustomDomainServices.Provisioner.Issue` | cmd/worker/provisioner.go:196-242 | The write a handler chose is the repository call made, and its outcome is reported |
| `CustomDomainServices.DecisionMatchesClaim` | cmd/worker/provisioner.go:246-980 | A handler's write always matches the row it was claimed from |
| `CustomDomainServices.CustomDomainService.PerformRetry` | internal/admin/service/custom_domain_service.go:875-891 | Resets the row to the furthest stage the columns read allow; accepted exactly if the row is still failed |
| `CustomDomainServices.CustomDomainService.RetryProvisioningCall` | internal/admin/service/custom_domain_service.go:843-873 | Accepted exactly for a row read as failed, verified and ready that is still failed |
| `CustomDomainServices.CustomDomainService.ActivateCall` | internal/admin/service/custom_domain_service.go:705-776 | Idempotent on active, completed or queued rows; otherwise resumes or queues; says exactly when it is accepted |
| `MemoryLimiting.AnyWindowBound` | internal/ratelimit/memory_limiter.go:34-55 | For every history of checks, counts and cleanups with a constant limit L, no closed 60-second interval holds more than L accepted requests of a key |
| `MemoryLimiting.DecisionsMatchFullHistory` | internal/ratelimit/memory_limiter.go:26-55 | Each decision is the one computed from the full accepted history, so trimming and cleanup are invisible |
| `MemoryLimiting.HistoryInvariant` | internal/ratelimit/memory_limiter.go:26-98 | The stored entries agree with the accepted history on everything younger than the window |
| `MemoryLimiting.Trim` | internal/ratelimit/memory_limiter.go:26-32 | The index loop drops exactly the leading entries before the cutoff and keeps one equal to it |
| `MemoryLimiting.MemoryLimiter.CheckAndConsume` | internal/ratelimit/memory_limiter.go:34-55 | Trims, decides on what is left, and records the request exactly when it is allowed |
| `MemoryLimiting.RemainingIsQuotaLeft` | internal/ratelimit/memory_limiter.go:34-55 | After every history, the quota reported to an accepted request is the limit less the accepted requests of the closed last 60 seconds, itself included |
| `MemoryLimiting.MemoryLimiter.Count` | internal/ratelimit/memory_limiter.go:62-68 | Counts the live entries and stores the trimmed list |
| `MemoryLimiting.MemoryLimiter.Cleanup` | internal/ratelimit/memory_limiter.go:75-98 | Trims every key and deletes the keys left empty |
| `RedisLimiting.ScriptMatchesHistory` | internal/ratelimit/redis_limiter.go:22-45 | For limits up to 10000: the cap evicts no live entry, the script refuses whenever the 60 seconds before its run on the server are full, and accepts whenever the 60 seconds before the caller's reading have room |
| `RedisLimiting.ScriptMatchesFullHistory` | internal/ratelimit/redis_limiter.go:22-45 | A script that runs at its reading accepts exactly when fewer than L accepted entries lie in the half-open last 60 seconds |
| `RedisLimiting.RemainingIsQuotaLeft` | internal/ratelimit/redis_limiter.go:98-105 | For such a script the quota reported is the limit less the accepted requests of those 60 seconds, itself included |
| `RedisLimiting.ScriptWindowBound` | internal/ratelimit/redis_limiter.go:22-45 | With a constant limit up to 10000 and scripts that run at most d ms after their reading, no window of 60 seconds less d, half open, holds more than L accepted requests; d = 0 gives the full 60 seconds |
| `RedisLimiting.WindowBoundIff` | internal/ratelimit/redis_limiter.go:22-45 | The slack is exact: a window width is within the limit in every such history if and only if it leaves out d |
| `RedisLimiting.ReorderingExceedsLimit` | internal/ratelimit/redis_limiter.go:73-89 | For every limit L and every delay d > 0, 2L - 1 requests get into one window of 60 seconds less d |
| `RedisLimiting.DelayBoundsDisorder` | internal/ratelimit/redis_limiter.go:73-89 | Scripts that run at most d ms after their reading are out of the order of their readings by at most d |
| `RedisLimiting.LimitAboveCapAcceptsEverything` | internal/ratelimit/redis_limiter.go:22-45 | A limit above 10000 is never enforced |
| `RedisLimiting.AtMostTwiceTheLimit` | internal/ratelimit/redis_limiter.go:73-106 | Under every pattern of Redis failures and every interleaving of scripts and fallbacks, at most 2L requests are allowed per window of 60 seconds less d, half open, for scripts that run at most d ms after their reading; neither store's order constrains the other's |
| `RedisLimiting.TwiceTheLimitIff` | internal/ratelimit/redis_limiter.go:73-106 | The slack is exact for 2L too: a window width is within it in every such history if and only if it leaves out d |
| `RedisLimiting.OneSourceKeepsLimit` | internal/ratelimit/redis_limiter.go:73-106 | While no request for a key falls back, or none is answered by Redis, the limit itself is kept; in the second case without the slack |
| `RedisLimiting.TwiceTheLimitIsReached` | internal/ratelimit/redis_limiter.go:73-106 | For every limit L up to 10000 the factor two is reached at one instant, in a history in order on both stores, however many of the lost scripts ran |
| `RedisLimiting.ReorderingExceedsTwiceTheLimit` | internal/ratelimit/redis_limiter.go:73-106 | For every limit L up to 10000 and every delay d > 0, a history in order on both stores lets 3L - 1 requests into one window of 60 seconds less d |
| `RedisLimiting.AllowedSplits` | internal/ratelimit/redis_limiter.go:87-105 | In every window the allowed requests are those Redis answered with yes plus those the fallback accepted |
| `RedisLimiting.AnswersAreRecorded` | internal/ratelimit/redis_limiter.go:87-105 | Answers with yes are among the scripts that recorded their request: all of them if every script was answered, none if none was |
| `RedisLimiting.AcceptedIsRecorded` | internal/ratelimit/redis_limiter.go:73-106 | Every request allowed to a caller was recorded by Redis or by the fallback, in any interleaving |
| `RedisLimiting.PerformedStores` | internal/ratelimit/redis_limiter.go:73-106 | The acts of all requests, performed one by one, leave each store as its own calls in their own order do |
| `RedisLimiting.RedisLimiter.CheckAndConsume` | internal/ratelimit/redis_limiter.go:73-106 | Performs the acts of one request, a script, a fallback check or both, and returns the script's answer if it arrives, the fallback's otherwise, with remaining quota and reset time; a lost reply still leaves the script's effect |
| `RoundRobinBalancing.CycleIsFair` | internal/gateway/loadbalancer/round_robin.go:15-58 | Any run of picks as long as the expanded list selects each pool position exactly its own weight of times, once below 1 and 100 times above 100; once each if all weights are equal |
| `RoundRobinBalancing.AnyRunIsNearlyFair` | internal/gateway/loadbalancer/round_robin.go:15-58 | Any N picks stay within one cycle of that share |
| `RoundRobinBalancing.WraparoundIsFairIff` | internal/gateway/loadbalancer/round_robin.go:15-25 | Every cycle from every counter value, across the 64-bit wraparound, is fair if and only if the length of the expanded list divides 2^64 |
| `RoundRobinBalancing.EqualWeightsWraparound` | internal/gateway/loadbalancer/round_robin.go:15-58 | With equal weights the condition is that the pool size divides 2^64 |
| `RoundRobinBalancing.LayoutIsDue` | internal/gateway/loadbalancer/round_robin.go:30-58 | The expanded list holds each position exactly as often as its weight is due |
| `RoundRobinBalancing.LayoutShares` | internal/gateway/loadbalancer/round_robin.go:30-58 | The same for every prefix of the pool |
| `RoundRobinBalancing.ExpandByWeight` | internal/gateway/loadbalancer/round_robin.go:30-58 | The nested loops build exactly that list |
| `RoundRobinBalancing.RoundRobin.Pick` | internal/gateway/loadbalancer/round_robin.go:15-25 | Advances the counter modulo 2^64 and returns the slot it points at; pools of zero or one target leave the counter alone |
| `LeastConnBalancing.ConnectionsAreConserved` | internal/gateway/loadbalancer/least_conn.go:18-52 | Over every interleaving of reloads, strategy changes, picks and deferred releases, each strategy object's count for a target is the number of its requests in flight on that same object, and stored counts are at least 1 |
| `LeastConnBalancing.IdleGatewayHasNoCounts` | internal/gateway/loadbalancer/least_conn.go:41-52 | Once all requests have finished no strategy object, current or replaced, holds a count |
| `LeastConnBalancing.PickIsLeastLoaded` | internal/gateway/loadbalancer/least_conn.go:18-39 | Every pick is an offered target with the fewest requests in flight on that object |
| `LeastConnBalancing.LeastIndex` | internal/gateway/loadbalancer/least_conn.go:26-35 | The first target with the minimal count |
| `LeastConnBalancing.OfferedAreHealthy` | internal/gateway/handler/proxy_handler.go:110-122 | Exactly the targets that were healthy when asked are offered |
| `LeastConnBalancing.LeastConn.Pick` | internal/gateway/loadbalancer/least_conn.go:18-39 | Returns the first least-loaded target and counts it; an empty pool is refused without effect |
| `LeastConnBalancing.LeastConn.Release` | internal/gateway/loadbalancer/least_conn.go:41-52 | Uncounts one request and drops a count that reaches zero |
| `LeastConnBalancing.DataPlane.AddPool` | internal/gateway/runtime/loader.go:213-249 | Builds one pool from the enabled targets, or the upstream's own address, and reuses the strategy object when its kind is unchanged |
| `LeastConnBalancing.PoolMeaning` | internal/gateway/runtime/loader.go:219-238 | A target is in the pool of an upstream exactly if an enabled entry has its id, address and weight, or none is enabled and it is the upstream's own address |
| `LeastConnBalancing.DataPlane.Reload` | internal/gateway/runtime/loader.go:102-155 | A reload is a run of build steps followed by one swap; requests in flight are untouched and the snapshot holds exactly the given upstreams |
| `LeastConnBalancing.DataPlane.ResolveTarget` | internal/gateway/handler/proxy_handler.go:79-108 | Asks target by target; refuses exactly when none is healthy, otherwise picks a healthy one on the pool's strategy object |
| `LeastConnBalancing.DataPlane.Finish` | internal/gateway/handler/proxy_handler.go:60-63 | The release goes to the object the pick was made on |
| `PoolOrigins.RequestsGoToEnabledTargets` | internal/gateway/runtime/loader.go:213-249 | Over every interleaving of reloads and requests, a request in flight was sent to a target enabled in the very configuration it resolved, or to the upstream's own address when that enabled none |
| `PoolOrigins.LeastConnIsHonoured` | internal/gateway/handler/proxy_handler.go:79-98 | A request that resolved an upstream configured with least_conn goes to a healthy target of its pool with the fewest requests in flight |
| `PoolOrigins.PicksSeeEveryRequest` | internal/gateway/runtime/loader.go:271-292 | As long as an upstream is configured with least_conn, the counts a pick compares are exactly the requests in flight to that upstream's targets, also those balanced under earlier configurations |
| `PoolOrigins.RoundRobinTakesTurns` | internal/gateway/loadbalancer/round_robin.go:15-25 | On a round-robin object the k-th pick from the same targets is the one the fairness results count |
| `HttpMatching.MatchingFollowsPrecedence` | internal/gateway/router/matcher.go:10-61 | With all paths shorter than 500000 bytes: nothing is returned exactly when no enabled http route accepting the method matches; otherwise an exact match, else a longest parametric pattern, else a longest prefix ending on a segment boundary, first in list order on ties |
| `HttpMatching.PreferredWinsIff` | internal/gateway/router/matcher.go:10-61 | With paths of any length the preferred route is returned if and only if no lower-ranked candidate is longer by at least 500000 bytes per rank (ties by list order) |
| `HttpMatching.LongPrefixHidesParameter` | internal/gateway/router/matcher.go:45-61 | Beyond that bound a prefix route does hide a preferred parametric one |
| `HttpMatching.TiesAreIdentical` | internal/gateway/router/matcher.go:45-61 | Exact and prefix ties occur only between identical paths |
| `HttpMatching.MatchHTTP` | internal/gateway/router/matcher.go:10-31 | The loop returns the first route of maximal score, or nothing |
| `HttpMatching.MatchMethod` | internal/gateway/router/matcher.go:33-43 | Accepts exactly on an empty list, no method, OPTIONS, ANY, * or a case-insensitive match |
| `HttpMatching.MethodMeaning` | internal/gateway/router/matcher.go:33-43 | On ASCII methods: accepted exactly on an empty list, no method, OPTIONS, or a listed method that is equal in lower case or is any or * |
| `HttpMatching.ComputeScore` | internal/gateway/router/matcher.go:45-61 | Computes the score in the order exact, parametric, prefix |
| `HttpMatching.MatchParametric` | internal/gateway/router/matcher.go:76-97 | Compares segment by segment |
| `HttpMatching.ParametricMeaning` | internal/gateway/router/matcher.go:76-105 | A pattern with a parameter matches if and only if pattern and path, read as slash-free parts joined by single slashes with any slashes around, have equally many parts, each of the path equal to that of the pattern, or non-empty where that is a parameter |
| `HttpMatching.SplitThenJoin` | internal/gateway/router/matcher.go:99-105 | Splitting is undone by joining and leaves no separator in a part |
| `HttpMatching.BoundaryPrefixMeaning` | internal/gateway/router/matcher.go:63-74 | The prefix test holds exactly when the prefix stops at a slash or at the end |
| `GrpcRouting.DistinctPathsAgree` | internal/gateway/server/interceptors.go:79-96 | With distinct paths and non-empty rewritten upstreams the proxied address is that of exactly the route the policy checks select, and one finds nothing iff the other does |
| `GrpcRouting.AgreeIff` | internal/gateway/proxy/grpc_proxy.go:140-153 | They agree if and only if no route applies or the first and last enabled route on the longest matching path have the same non-empty rewritten upstream |
| `GrpcRouting.DuplicatePathsDisagree` | internal/gateway/server/grpc_server.go:116-124 | Two enabled routes on one path: the first one's policy, the last one's upstream |
| `GrpcRouting.ResolutionIsUnique` | internal/gateway/proxy/grpc_proxy.go:140-153 | The answer is the same for every map iteration order |
| `GrpcRouting.ResolveGRPCBackend` | internal/gateway/proxy/grpc_proxy.go:140-153 | Walking the map in any order yields the address of the longest prefix of the service called, or none; for a call s/m the service is s, and a name without a slash past its first character stands for itself |
| `GrpcRouting.MatchRoute` | internal/gateway/server/interceptors.go:79-96 | The policy route of the service called, with the same reading of the full method |
| `GrpcRouting.PolicyMeaning` | internal/gateway/server/interceptors.go:84-96 | That route is the first enabled gRPC route with the longest path that starts the service's name, and none exactly if no path does |
| `GrpcRouting.ServiceMeaning` | internal/gateway/server/interceptors.go:80-83 | The service of a call s/m is s; without a slash past the first character it is the whole name |
| `GrpcRouting.BuildGRPCBackends` | internal/gateway/server/grpc_server.go:116-124 | Each path maps to the last enabled route's rewritten upstream |
| `GrpcRouting.BackendKeys` | internal/gateway/server/grpc_server.go:116-124 | The keys are exactly the paths of the enabled gRPC routes |
| `IpFiltering.CacheIsTransparent` | internal/gateway/middleware/ip_filter.go:36-71 | Over every history of stores and full evictions, a lookup of comma-free rules in any order answers like a checker built on the spot: nil exactly when that build fails, same verdict on every address |
| `IpFiltering.TransparentIff` | internal/gateway/middleware/ip_filter.go:36-71 | With commas allowed, the answer is right if and only if the rules have none or their key is not cached |
| `IpFiltering.CommaRuleHitsOtherEntry` | internal/ipfilter/ip_filter.go:86-91 | One rule that spells out another list's key is answered with that list's checker although it does not parse |
| `IpFiltering.CacheStaysBounded` | internal/gateway/middleware/ip_filter.go:60-68 | The cache never exceeds 5000 entries |
| `IpFiltering.KeyIdentifiesRules` | internal/ipfilter/ip_filter.go:86-91 | On comma-free rules two keys are equal exactly when the lists are permutations of each other |
| `IpFiltering.CheckerMeansItsRules` | internal/ipfilter/ip_filter.go:40-78 | Building fails exactly on a bad rule; otherwise an address is allowed exactly when some rule covers it |
| `IpFiltering.OrderDoesNotMatter` | internal/ipfilter/ip_filter.go:40-78 | Reordering or repeating rules changes neither outcome nor verdicts |
| `IpFiltering.NewIPChecker` | internal/ipfilter/ip_filter.go:40-59 | The loop builds the checker or stops at the first bad rule |
| `IpFiltering.IsAllowed` | internal/ipfilter/ip_filter.go:61-78 | Allowed exactly when listed or inside a listed prefix |
| `IpFiltering.IPCheckerCache.Get` | internal/gateway/middleware/ip_filter.go:36-71 | Answers from the cache or builds and stores, clearing first when full; failures are not stored |
| `IpFiltering.FilterDecision` | internal/gateway/middleware/ip_filter.go:83-102 | A request passes exactly when no block rule covers it and an allow rule does, where an empty list or one with a bad rule is not enforced; the cache may change between the two lookups |
| `IpFiltering.BadRuleForwardsEveryone` | internal/gateway/middleware/ip_filter.go:90-102 | With one list empty and a rule that does not parse in the other, every address is forwarded |
| `HostRules.EnsureIsSafe` | internal/aws/gateway_alb.go:237-349 | While others add rules for other hosts and the service may act and still report an error: success leaves exactly one rule for the host, forwarding to the target group, and reports it; every outcome leaves at most one and keeps all existing rules |
| `HostRules.NewRuleIsUnique` | internal/aws/gateway_alb.go:291-345 | A rule made by the call has a priority in the requested range that no other rule has |
| `HostRules.EnsureAgainChangesNothing` | internal/aws/gateway_alb.go:282-289 | A later call creates nothing and returns the same ARN and priority |
| `HostRules.ConflictIff` | internal/aws/gateway_alb.go:282-289 | A conflict is reported exactly when the host's rule forwards elsewhere, never because of the call's own attempts |
| `HostRules.OnceIsSafe` | internal/aws/gateway_alb.go:262-346 | The same for one pass of the retry loop |
| `HostRules.FindMeaning` | internal/aws/gateway_alb.go:428-479 | The nested search examines the first rule for the host, or proves there is none |
| `HostRules.FindCustomDomainHostRuleDetails` | internal/aws/gateway_alb.go:428-479 | The nested loops compute that search |
| `HostRules.NormMeaning` | internal/aws/gateway_alb.go:433-455 | Two spellings name one host exactly when they differ in letter case, in blanks around them and in one final dot |
| `HostRules.FreshHostIsServed` | internal/aws/gateway_alb.go:262-346 | A host without a rule gets one at the first attempt, on the least free priority, when that is still free and the service creates it |
| `HostRules.LeastFree` | internal/aws/gateway_alb.go:302-311 | The least priority of the range that no listed rule has, none exactly when all are taken |
| `HostRules.SelectPriority` | internal/aws/gateway_alb.go:291-311 | The two loops compute it |
| `HostRules.Listener.EnsureHostRule` | internal/aws/gateway_alb.go:237-349 | Rejects bad input, otherwise runs up to five attempts on the listener in place |
| `HostRules.Listener.TryOnce` | internal/aws/gateway_alb.go:262-346 | One attempt on the listener in place |
| `JwtManaging.IncrementalEqualsFresh` | internal/gateway/runtime/project_jwt_manager.go:73-245 | Over every sequence of reloads in which version, ARN and secret version determine the rest, a successful Apply leaves exactly the state built from scratch and a failed one the previous state |
| `JwtManaging.RequestsUseLastApplied` | internal/gateway/runtime/project_jwt_manager.go:254-270 | Over every such sequence requests are checked with exactly the verifier of the last configuration applied with success, and with none while that one is absent or disabled |
| `JwtManaging.ApplySucceedsIff` | internal/gateway/runtime/project_jwt_manager.go:73-245 | Apply succeeds exactly when building from scratch does and a needed secret was delivered |
| `JwtManaging.FetchesOnlyWhenNeeded` | internal/gateway/runtime/project_jwt_manager.go:112-188 | The secret store is asked exactly on first load, re-enable, or changed ARN or version |
| `JwtManaging.DisablingForgets` | internal/gateway/runtime/project_jwt_manager.go:73-98 | Disabling succeeds without asking the secret store and forgets verifier and secret, so that the next enabled configuration fetches its secret |
| `JwtManaging.SkippedReloadIsRightIff` | internal/gateway/runtime/project_jwt_manager.go:112-121 | When the triple is unchanged nothing is rebuilt, and the state is right if and only if both settings build the same verifier |
| `JwtManaging.StateHasOrigin` | internal/gateway/runtime/project_jwt_manager.go:73-245 | Every reachable state was built from scratch for some configuration seen before |
| `JwtManaging.ProjectJWTManager.ApplyConfig` | internal/gateway/runtime/project_jwt_manager.go:73-245 | Every branch of Apply on the active state in place |
| `JwtVerifying.VerifierMeaning` | internal/auth/project_jwt_verifier.go:34-68 | A verifier is made exactly for HS256 and at least 32 bytes; it has the given secret and settings, each claim under its own name, and sub, role or scope only where that name is blank |
| `JwtSaga.SagaIsSafe` | internal/admin/service/project_jwt_config_service.go:151-400 | Under every pattern of failed calls, stops between calls and delayed removals the safety invariant holds |
| `JwtSaga.RowAlwaysReadable` | internal/admin/service/project_jwt_config_service.go:151-400 | Whenever the row exists its ARN and version name an existing secret version that is not scheduled for deletion |
| `JwtSaga.RowChangesOnlyByItsOwnWrites` | internal/admin/service/project_jwt_config_service.go:294-322 | The row changes only by a successful database write, so a failed rotation leaves it on the previous version |
| `JwtSaga.ArchiveOnlyGrows` | internal/admin/service/project_jwt_config_service.go:203-226 | Secret versions are never rewritten |
| `JwtSaga.StepIsSafe` | internal/storage/project_jwt_config_repo.go:138-263 | Each external call preserves the safety invariant |
| `JwtSettings.NormalizeAudiences` | internal/admin/service/project_jwt_config_service.go:525-565 | Fails exactly on more than 20 values or one too long; otherwise returns the sorted, duplicate-free set of trimmed non-blank values |
| `JwtSettings.AcceptedIff` | internal/admin/service/project_jwt_config_service.go:402-523 | Which submissions are accepted, field by field |
| `JwtSettings.StoredFields` | internal/admin/service/project_jwt_config_service.go:402-565 | What an accepted submission is stored as: trimmed, canonical audiences, and defaults where a field was left blank |
| `JwtSettings.AudiencesAgreeIff` | internal/admin/service/project_jwt_config_service.go:525-565 | Two accepted lists normalise alike exactly when they name the same audiences |
| `JwtSettings.EquivalentIff` | internal/admin/service/project_jwt_config_service.go:567-599 | Two accepted submissions are equivalent exactly when they mean the same up to order, repetition, padding, case and defaults |
| `JwtSettings.PaddingIsTrimmed` | internal/admin/service/project_jwt_config_service.go:423-565 | Padding on either side of a value disappears |
| `JwtSettings.VariantsMeanTheSame` | internal/admin/service/project_jwt_config_service.go:423-523 | Permuted, repeated or padded audiences, padded issuer and claims, algorithm case and an omitted default skew do not change the meaning |
| `JwtSettings.VariantsAreAccepted` | internal/admin/service/project_jwt_config_service.go:423-523 | A variant without a secret and with at most 20 audiences is accepted when the original is |
| `JwtTheorems.ResubmissionWritesNothing` | internal/admin/service/project_jwt_config_service.go:268-292 | In every reachable state, resubmitting such a variant without a secret performs no write and leaves row and config_version unchanged |
| `JwtTheorems.NoWriteIff` | internal/admin/service/project_jwt_config_service.go:286-292 | An accepted submission without a secret writes nothing if and only if it means what the row says |
| `JwtTheorems.PublishedIsBuildable` | internal/admin/service/project_jwt_config_service.go:402-523 | Every configuration ever published can be turned into a verifier |
| `JwtTheorems.HistoryIsDeterminate` | internal/storage/project_jwt_config_repo.go:152-193 | Over every history in which no row past version 1 was put back by a failed deletion, version, ARN and secret version determine the published configuration |
| `JwtTheorems.GatewayFollowsControlPlane` | internal/gateway/runtime/project_jwt_manager.go:73-245 | For such histories, a gateway reloading published configurations in any order holds after each success the verifier built from scratch, which has exactly the published settings and exactly the archived secret, after each failure the previous one, and fails only for lack of the secret |
| `JwtTheorems.BuildsExactly` | internal/auth/project_jwt_verifier.go:51-61 | No default is ever used for a published configuration |
| `JwtTheorems.PutBackIsHarmlessIff` | internal/admin/service/project_jwt_config_service.go:376-385 | Putting a row back after a failed deletion is harmless if and only if it was at version 1: then no continuation is ambiguous, and otherwise some continuation by settings changes alone is |
| `JwtTheorems.StaysDeterminateIff` | internal/storage/project_jwt_config_repo.go:152-193 | Without further put-backs past version 1, no continuation is ambiguous if and only if the history is not and the row is the newest configuration of its secret version |
| `JwtTheorems.FailedDeletionIsHarmlessIff` | internal/admin/service/project_jwt_config_service.go:340-400 | In every reachable state, a deletion that fails and puts the row back is harmless if and only if the history was unambiguous and the row's secret version was published only as version 1 of the same settings |
| `JwtTheorems.FirstFailedDeletionIsHarmlessIff` | internal/admin/service/project_jwt_config_service.go:340-400 | Without an earlier put-back past version 1, that is the case if and only if the row is at version 1 before the deletion |
| `JwtTheorems.VersionOneIsNotEnough` | internal/admin/service/project_jwt_config_service.go:340-400 | After an earlier put-back it is not: a reachable row at version 1 whose put-back is harmful |
| `JwtTheorems.PutBackLeavesStaleVerifier` | internal/gateway/runtime/project_jwt_manager.go:112-121 | Past version 1, a gateway that loaded the configuration at the version deleted reports success and keeps it when that version comes round again with other settings |
| `JwtTheorems.RolledBackDeletionReusesVersion` | internal/admin/service/project_jwt_config_service.go:363-391 | Configure, change, failed delete: two published configurations share version, ARN and secret version |
| `JwtTheorems.FailedDeletionHappens` | internal/admin/service/project_jwt_config_service.go:363-391 | The same history with concrete submissions from an empty database |
| `JwtTheorems.RolledBackDeletionLeavesStaleVerifier` | internal/gateway/runtime/project_jwt_manager.go:112-121 | After that history a gateway that loaded the first settings reports success and keeps them |
| `JwtLedger.RowIsLastAccepted` | internal/admin/service/project_jwt_config_service.go:151-400 | From an empty database, under every pattern of failures, stops and put-backs: the row means what the last accepted submission meant, and its secret version holds the last secret that was accepted |
| `JwtLedger.GatewayEnforcesLastAccepted` | internal/gateway/runtime/project_jwt_manager.go:73-245 | A gateway that reloads the current row with success verifies with that secret and those settings |
| `JwtService.ProjectJWTConfigService.Configure` | internal/admin/service/project_jwt_config_service.go:151-183 | Runs the saga to its end; success leaves a row that means what was submitted and names a version holding exactly the secret submitted, or the same version as before if none was; failure leaves the row as it was; accepted input fails only with an external call |
| `JwtService.ProjectJWTConfigService.Create` | internal/admin/service/project_jwt_config_service.go:185-266 | Creates or restores the secret, stores a row that names the secret submitted, and schedules the secret for deletion if that fails |
| `JwtService.ProjectJWTConfigService.Update` | internal/admin/service/project_jwt_config_service.go:268-334 | No-op on equivalent settings; otherwise rotates if a secret is given and stores the row, which then names a version holding exactly that secret |
| `JwtService.ProjectJWTConfigService.Remove` | internal/admin/service/project_jwt_config_service.go:340-400 | Removes the row and schedules its secret, which succeeds if both calls do; puts the row back under version 1 if the second fails |
| `JwtService.ProjectJWTConfigService.Upsert` | internal/storage/project_jwt_config_repo.go:138-225 | A new row starts at version 1, an existing one is incremented |
| `JwtService.FinishIsRun` | internal/admin/service/project_jwt_config_service.go:151-400 | A finished call is a run of the saga |
| `Sorting.SortIsCanonical` | internal/ipfilter/ip_filter.go:86-91 | Two lists sort alike exactly when one is a permutation of the other |
| `Sorting.JoinIsInjective` | internal/ipfilter/ip_filter.go:86-91 | Joining non-empty lists of separator-free strings loses nothing |

## Left out

- `SKIP LOCKED`: in the interleaved systems a claim may take any eligible row, since earlier ones may be locked by other claims; the queue order is stated for the repository alone.
- `MarkDraining` (`internal/storage/gateway_repo.go:432`), which sets the drain time without changing the stage: nothing in the repository calls it.
- Columns that no guard reads: `updated_at`, `locked_by`, `provisioning_error`, public endpoints, and the functions that derive resource names from ids.
- Error texts and their classification: an AWS failure is an arbitrary transient or terminal choice, and rejected JWT input is rejected without saying which rule it broke.
- AWS, Docker, Redis and SQL clients, timeouts, tenant row-level security; `CreateGatewayHostRule`, which reads only the first page of rules.
- Removal by AWS of secret versions that carry no staging label, Redis losing its data, and a Redis client that resends one script within one call.
- Orphaned AWS resources created by a superseded worker: the code makes no claim about them.
- JWT signature checking and claim extraction, CIDR and address parsing, URL rewriting: parameters or opaque functions.
- Unicode case mapping beyond characters whose other case is an ASCII letter; UTF-8 lengths are modelled.
- The 64-bit width of in-flight counts and of configuration versions.
- `resolveTarget`'s fallback for routes without a pool: it picks no strategy and so releases nothing.
- Database errors other than "no row matched" in the queue repositories; the JWT saga has them at every call.
- HTTP and gRPC handlers, health checking, logging, metrics, caches of dashboards and reverse proxies, tenant CRUD.
- JwtManaging.FetchesOnlyWhenNeeded: says when the secret store is asked, not how often a failing reload is repeated.
