/**
 * The retry machine of one row under any schedule of claim attempts and marks: what the retry count
 * counts, when a row is dead, how often it can be claimed, and how long it takes to die.
 */
module RetryBounds {
  import opened Prelude
  import opened TimeBucket
  import opened OutboxRow

  /** An operation aimed at the row. A claim has an effect only when the row is eligible. */
  datatype Op =
    | Claim(now: int, lease: int)
    | MarkPublished(now: int)
    | MarkFailed(now: int, message: string)

  function Step(r: OutboxEvent, op: Op, p: RetryPolicy): OutboxEvent {
    match op
    case Claim(now, lease) => if Eligible(r, now) then Claimed(r, now, lease) else r
    case MarkPublished(now) => MarkedPublished(r, now)
    case MarkFailed(now, message) => MarkedFailed(r, now, message, p)
  }

  function Run(r: OutboxEvent, ops: seq<Op>, p: RetryPolicy): OutboxEvent
    decreases |ops|
  {
    if ops == [] then r else Run(Step(r, ops[0], p), ops[1..], p)
  }

  /**
   * When a row can be claimed again: a claimed one when its lease has run out, a failed one when its
   * backoff has passed and its count is below the limit, a published one never.
   */
  lemma EligibleAgainWhen(r: OutboxEvent, now: int, lease: int, message: string, p: RetryPolicy, t: int)
    ensures Eligible(Claimed(r, now, lease), t) <==> now + lease * SECOND <= t
    ensures Eligible(OutboxRow.MarkedFailed(r, now, message, p), t) <==>
              r.retryCount + 1 < p.maxRetries && now + p.backoff * Pow2(r.retryCount) * SECOND <= t
    ensures !Eligible(OutboxRow.MarkedPublished(r, now), t)
  {
    hide Pow2, Truncated;
  }

  /** Claims that took effect. */
  function Claims(r: OutboxEvent, ops: seq<Op>, p: RetryPolicy): nat
    decreases |ops|
  {
    if ops == [] then 0
    else (if ops[0].Claim? && Eligible(r, ops[0].now) then 1 else 0) + Claims(Step(r, ops[0], p), ops[1..], p)
  }

  /** Claims that took effect because a lease had run out. */
  function Reclaims(r: OutboxEvent, ops: seq<Op>, p: RetryPolicy): nat
    decreases |ops|
  {
    if ops == [] then 0
    else (if ops[0].Claim? && LeaseExpired(r, ops[0].now) then 1 else 0) + Reclaims(Step(r, ops[0], p), ops[1..], p)
  }

  function FailedMarks(ops: seq<Op>): nat {
    if ops == [] then 0 else (if ops[0].MarkFailed? then 1 else 0) + FailedMarks(ops[1..])
  }

  /** The count is exactly the failed marks plus the reclaims of expired leases; it never falls. */
  lemma {:induction false} CountExplained(r: OutboxEvent, ops: seq<Op>, p: RetryPolicy)
    ensures Run(r, ops, p).retryCount == r.retryCount + FailedMarks(ops) + Reclaims(r, ops, p)
    decreases |ops|
  {
    if ops != [] { CountExplained(Step(r, ops[0], p), ops[1..], p); }
  }

  /** A failed row has a retry scheduled exactly while its count is below the limit. */
  predicate Consistent(r: OutboxEvent, p: RetryPolicy) {
    r.status == Failed ==> (r.nextRetryAt.Some? <==> r.retryCount < p.maxRetries)
  }

  lemma {:induction false} RunConsistent(r: OutboxEvent, ops: seq<Op>, p: RetryPolicy)
    requires Consistent(r, p)
    ensures Consistent(Run(r, ops, p), p)
    decreases |ops|
  {
    if ops != [] { RunConsistent(Step(r, ops[0], p), ops[1..], p); }
  }

  predicate Dead(r: OutboxEvent, p: RetryPolicy) {
    r.status == Failed && r.retryCount >= p.maxRetries
  }

  /** From a dead row on, no schedule claims the row again. */
  lemma {:induction false} DeadNeverClaimed(r: OutboxEvent, ops: seq<Op>, p: RetryPolicy)
    requires Consistent(r, p)
    requires Dead(r, p) || (r.status == Published && r.retryCount >= p.maxRetries)
    ensures Claims(r, ops, p) == 0
    decreases |ops|
  {
    if ops != [] { DeadNeverClaimed(Step(r, ops[0], p), ops[1..], p); }
  }

  /** The claims a row may still get without a lease running out. */
  function Budget(r: OutboxEvent, p: RetryPolicy): nat {
    var left := p.maxRetries - r.retryCount;
    match r.status
    case Pending => if left > 1 then left else 1
    case Failed => if r.nextRetryAt.None? || left <= 0 then 0 else left
    case _ => if left > 1 then left - 1 else 0
  }

  lemma {:induction false} ClaimsWithinBudget(r: OutboxEvent, ops: seq<Op>, p: RetryPolicy)
    requires Consistent(r, p)
    ensures Claims(r, ops, p) <= Budget(r, p) + Reclaims(r, ops, p)
    decreases |ops|
  {
    if ops != [] { ClaimsWithinBudget(Step(r, ops[0], p), ops[1..], p); }
  }

  /** A new row is claimed at most `max_retries` times, plus once for every expired lease. */
  lemma ClaimsBounded(r: OutboxEvent, ops: seq<Op>, p: RetryPolicy)
    requires r.status == Pending && r.retryCount == 0 && p.maxRetries >= 1
    ensures Claims(r, ops, p) <= p.maxRetries + Reclaims(r, ops, p)
  {
    ClaimsWithinBudget(r, ops, p);
  }

  // ---------------------------------------------------------------------------------------------
  // A publisher that always fails.

  /** The first instant from `t` on at which the row can be claimed. */
  function EligibleFrom(r: OutboxEvent, t: int): (at: Option<int>)
    ensures at.Some? ==> t <= at.value && Eligible(r, at.value) &&
                         forall t' | t <= t' < at.value :: !Eligible(r, t')
    ensures at.None? ==> forall t' | t <= t' :: !Eligible(r, t')
  {
    match r.status
    case Pending => Some(t)
    case Failed =>
      if r.nextRetryAt.None? then None
      else Some(if r.nextRetryAt.value < t then t else r.nextRetryAt.value)
    case Processing =>
      if r.claimExpiresAt.None? then None
      else Some(if r.claimExpiresAt.value < t then t else r.claimExpiresAt.value)
    case Published => None
  }

  /** The instants of the attempts: each claim is made the instant the row is eligible, and fails. */
  function Attempts(r: OutboxEvent, t: int, lease: int, message: string, p: RetryPolicy): seq<int>
    decreases r.status != Failed, if p.maxRetries > r.retryCount then p.maxRetries - r.retryCount else 0
    requires Consistent(r, p)
  {
    match EligibleFrom(r, t)
    case None => []
    case Some(at) =>
      var r' := MarkedFailed(Claimed(r, at, lease), at, message, p);
      [at] + Attempts(r', at, lease, message, p)
  }

  /** Watching the row from an earlier instant does not change when it is claimed. */
  lemma WaitIgnored(r: OutboxEvent, t: int, t': int, lease: int, message: string, p: RetryPolicy)
    requires Consistent(r, p) && r.status == Failed && r.nextRetryAt == Some(t') && t <= t'
    ensures Attempts(r, t, lease, message, p) == Attempts(r, t', lease, message, p)
  {}

  /** Whatever the backoff, a consistent row gets its remaining attempts and then no more. */
  lemma {:induction false} AttemptsCounted(r: OutboxEvent, t: int, lease: int, message: string, p: RetryPolicy)
    requires Consistent(r, p) && (r.status == Pending || r.status == Failed)
    ensures var left := p.maxRetries - r.retryCount;
            |Attempts(r, t, lease, message, p)| ==
              if left > 0 then left else if r.status == Pending then 1 else 0
    decreases r.status != Failed, if p.maxRetries > r.retryCount then p.maxRetries - r.retryCount else 0
  {
    hide Delay, Truncated;
    match EligibleFrom(r, t)
    case None =>
    case Some(at) =>
      var r' := MarkedFailed(Claimed(r, at, lease), at, message, p);
      AttemptsCounted(r', at, lease, message, p);
  }

  /** The gaps between attempts start at `gap` microseconds and double. */
  ghost predicate Doubling(s: seq<int>, gap: int) {
    |s| > 1 ==> s[1] - s[0] == gap && Doubling(s[1..], 2 * gap)
  }

  lemma DelayDoubles(p: RetryPolicy, failures: nat)
    requires failures > 0
    ensures Delay(p, failures + 1) == 2 * Delay(p, failures)
    ensures p.backoff >= 0 ==> Delay(p, failures) >= 0
  {}

  lemma {:induction false} AttemptsDouble(r: OutboxEvent, t: int, lease: int, message: string, p: RetryPolicy)
    requires r.status == Failed && r.retryCount < p.maxRetries && r.nextRetryAt == Some(t) && p.backoff >= 0
    ensures var s := Attempts(r, t, lease, message, p);
            s != [] && s[0] == t && Doubling(s, Delay(p, r.retryCount + 1))
    decreases p.maxRetries - r.retryCount
  {
    var r' := MarkedFailed(Claimed(r, t, lease), t, message, p);
    var s := Attempts(r, t, lease, message, p);
    assert EligibleFrom(r, t) == Some(t);
    hide Delay, Truncated;
    DelayDoubles(p, r'.retryCount);
    if r'.retryCount < p.maxRetries {
      var t' := t + Delay(p, r'.retryCount);
      WaitIgnored(r', t, t', lease, message, p);
      AttemptsDouble(r', t', lease, message, p);
      assert s[1..] == Attempts(r', t', lease, message, p);
    } else {
      assert EligibleFrom(r', t).None?;
    }
  }

  lemma {:induction false} DoublingTotal(s: seq<int>, gap: int)
    requires s != [] && Doubling(s, gap)
    ensures s[|s| - 1] - s[0] == gap * (Pow2(|s| - 1) - 1)
  {
    if |s| > 1 {
      DoublingTotal(s[1..], 2 * gap);
      var x := Pow2(|s| - 2);
      assert 2 * gap * (x - 1) + gap == gap * (2 * x - 1);
    }
  }

  /**
   * With a publisher that always fails, a new row gets exactly `max_retries` attempts, the gaps
   * between them start at the backoff and double, and all together it waits
   * backoff * (2^(max_retries - 1) - 1) seconds from its first attempt to its last.
   */
  lemma AlwaysFailing(r: OutboxEvent, t: int, lease: int, message: string, p: RetryPolicy)
    requires r.status == Pending && r.retryCount == 0 && p.maxRetries >= 1 && p.backoff >= 0
    ensures var s := Attempts(r, t, lease, message, p);
            && |s| == p.maxRetries && s[0] == t
            && Doubling(s, p.backoff * SECOND)
            && s[|s| - 1] - t == p.backoff * SECOND * (Pow2(p.maxRetries - 1) - 1)
  {
    var r' := MarkedFailed(Claimed(r, t, lease), t, message, p);
    var s := Attempts(r, t, lease, message, p);
    assert Delay(p, 1) == p.backoff * SECOND;
    hide Delay, Truncated;
    AttemptsCounted(r, t, lease, message, p);
    if p.maxRetries > 1 {
      var t' := t + Delay(p, 1);
      DelayDoubles(p, 1);
      WaitIgnored(r', t, t', lease, message, p);
      AttemptsDouble(r', t', lease, message, p);
      assert s[1..] == Attempts(r', t', lease, message, p);
    }
    DoublingTotal(s, p.backoff * SECOND);
  }
}
