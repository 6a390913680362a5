/** What both job queues share: the order in which jobs are claimed, and the delay before a retry. */
module Queueing {
  import opened Options

  /** The columns the claim query orders by. */
  datatype Slot = Slot(nextRetryAt: Option<int>, createdAt: int)

  /** ORDER BY next_retry_at ASC NULLS FIRST, created_at ASC. */
  predicate Before(a: Slot, b: Slot) {
    if a.nextRetryAt == b.nextRetryAt then a.createdAt < b.createdAt
    else a.nextRetryAt.None? || (b.nextRetryAt.Some? && a.nextRetryAt.value < b.nextRetryAt.value)
  }

  /** Jobs without a time come first, then earlier times; among equals the older job. */
  lemma OrderMeaning(a: Slot, b: Slot)
    ensures a.nextRetryAt.None? && b.nextRetryAt.Some? ==> Before(a, b) && !Before(b, a)
    ensures a.nextRetryAt.Some? && b.nextRetryAt.Some? && a.nextRetryAt.value < b.nextRetryAt.value ==>
      Before(a, b) && !Before(b, a)
    ensures a.nextRetryAt == b.nextRetryAt ==> (Before(a, b) <==> a.createdAt < b.createdAt)
  {
  }

  /** The order is strict, and jobs that it does not tell apart it treats alike. */
  lemma OrderIsStrictWeak(a: Slot, b: Slot, c: Slot)
    ensures !(Before(a, b) && Before(b, a))
    ensures Before(a, b) && Before(b, c) ==> Before(a, c)
    ensures Before(a, c) ==> Before(a, b) || Before(b, c)
  {
  }

  /** LIMIT 1: one of the jobs that no other comes before. */
  method First(jobs: map<string, Slot>) returns (id: string)
    requires jobs != map[]
    ensures id in jobs && forall other :: other in jobs ==> !Before(jobs[other], jobs[id])
  {
    id :| id in jobs;
    var left := jobs.Keys - {id};
    while left != {}
      invariant id in jobs && left <= jobs.Keys
      invariant forall other :: other in jobs && other !in left ==> !Before(jobs[other], jobs[id])
      decreases |left|
    {
      var other :| other in left;
      left := left - {other};
      if Before(jobs[other], jobs[id]) {
        id := other;
      }
    }
  }

  /** How long a lease lasts, in seconds: five minutes unless a positive time is asked for. */
  function LockTimeout(requested: int): int {
    if requested <= 0 then 300 else requested
  }

  /** CalculateRetryDelay, in seconds. */
  function RetryDelay(attempts: int): (delay: int)
    ensures 15 <= delay <= 300
  {
    if attempts <= 1 then 15
    else if attempts == 2 then 30
    else if attempts == 3 then 60
    else if attempts == 4 then 120
    else 300
  }

  /** A later attempt never waits less: the delay doubles from 15 seconds on and ends at five minutes. */
  lemma RetryDelayGrows(a: int, b: int)
    requires a <= b
    ensures RetryDelay(a) <= RetryDelay(b)
    ensures a <= 1 ==> RetryDelay(a) == 15
    ensures 1 <= a < 4 ==> RetryDelay(a + 1) == 2 * RetryDelay(a)
    ensures a >= 5 ==> RetryDelay(a) == 300
  {
  }
}
