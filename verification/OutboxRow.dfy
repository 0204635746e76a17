/** One outbox row: when it may be claimed, and what claiming and marking make of it. */
module OutboxRow {
  import opened Prelude
  import opened TimeBucket

  type RowId = string

  datatype RowStatus = Pending | Processing | Published | Failed

  /** The message body, or one that does not deserialize. */
  datatype Payload =
    | Payload(tenantId: string, securityEventId: string, source: string, eventType: string,
              severity: string, isAssetResolved: bool, assetId: Option<string>)
    | Malformed

  datatype OutboxEvent = OutboxEvent(
    id: RowId,
    tenantId: string,
    aggregateId: string,
    eventType: string,
    payload: Payload,
    idempotencyKey: string,
    status: RowStatus,
    retryCount: nat,
    nextRetryAt: Option<int>,
    createdAt: int,
    publishedAt: Option<int>,
    claimedAt: Option<int>,
    claimExpiresAt: Option<int>,
    lastError: Option<string>
  )

  /** `max_retries` and `backoff_seconds`. */
  datatype RetryPolicy = RetryPolicy(maxRetries: int, backoff: int)

  predicate Due(at: Option<int>, now: int) {
    at.Some? && at.value <= now
  }

  predicate LeaseExpired(r: OutboxEvent, now: int) {
    r.status == Processing && Due(r.claimExpiresAt, now)
  }

  /** New rows, failed rows whose retry is due, and rows whose lease ran out. */
  predicate Eligible(r: OutboxEvent, now: int) {
    r.status == Pending || (r.status == Failed && Due(r.nextRetryAt, now)) || LeaseExpired(r, now)
  }

  function Claimed(r: OutboxEvent, now: int, lease: int): OutboxEvent {
    r.(status := Processing,
       retryCount := if LeaseExpired(r, now) then r.retryCount + 1 else r.retryCount,
       claimedAt := Some(now),
       claimExpiresAt := Some(now + lease * SECOND))
  }

  function MarkedPublished(r: OutboxEvent, now: int): OutboxEvent {
    r.(status := Published, publishedAt := Some(now), claimExpiresAt := None)
  }

  function Pow2(n: nat): (p: nat)
    ensures p >= 1
  {
    if n == 0 then 1 else 2 * Pow2(n - 1)
  }

  /** Exponential backoff after the given number of failures, in microseconds. */
  function Delay(p: RetryPolicy, failures: nat): int
    requires failures > 0
  {
    p.backoff * Pow2(failures - 1) * SECOND
  }

  function Truncated(message: string): string {
    if |message| <= 1024 then message else message[..1024]
  }

  function MarkedFailed(r: OutboxEvent, now: int, message: string, p: RetryPolicy): OutboxEvent {
    var count := r.retryCount + 1;
    r.(status := Failed,
       retryCount := count,
       nextRetryAt := if count >= p.maxRetries then None else Some(now + Delay(p, count)),
       claimExpiresAt := None,
       lastError := Some(Truncated(message)))
  }
}
