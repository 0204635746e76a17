/** What the columns of an outbox row say after any schedule of claims and marks. */
module OutboxRowHistory {
  import opened Prelude
  import opened TimeBucket
  import opened OutboxRow
  import opened RetryBounds

  /** The operations that took effect: all marks, and the claims that found the row eligible. */
  function Effective(r: OutboxEvent, ops: seq<Op>, p: RetryPolicy): (done: seq<Op>)
  {
    if ops == [] then []
    else
      var n := |ops| - 1;
      var op := ops[n];
      Effective(r, ops[..n], p) +
      if op.Claim? && !Eligible(Run(r, ops[..n], p), op.now) then [] else [op]
  }

  /** The last operation of a kind. */
  function LastClaim(done: seq<Op>): Option<Op> {
    if done == [] then None
    else if done[|done| - 1].Claim? then Some(done[|done| - 1])
    else LastClaim(done[..|done| - 1])
  }

  function LastPublished(done: seq<Op>): Option<Op> {
    if done == [] then None
    else if done[|done| - 1].MarkPublished? then Some(done[|done| - 1])
    else LastPublished(done[..|done| - 1])
  }

  function LastFailed(done: seq<Op>): Option<Op> {
    if done == [] then None
    else if done[|done| - 1].MarkFailed? then Some(done[|done| - 1])
    else LastFailed(done[..|done| - 1])
  }

  /** The first 1024 characters of a text, or all of it. */
  predicate IsCut(kept: string, text: string) {
    kept <= text && |kept| == if |text| < 1024 then |text| else 1024
  }

  /** Which event the row is about never changes. */
  predicate SameEvent(r: OutboxEvent, r': OutboxEvent) {
    && r'.id == r.id && r'.tenantId == r.tenantId && r'.aggregateId == r.aggregateId
    && r'.eventType == r.eventType && r'.payload == r.payload
    && r'.idempotencyKey == r.idempotencyKey && r'.createdAt == r.createdAt
  }

  /** The status and the lease are those of the last operation that took effect. */
  predicate StatusTells(r: OutboxEvent, r': OutboxEvent, done: seq<Op>) {
    if done == [] then r'.status == r.status && r'.claimExpiresAt == r.claimExpiresAt
    else
      match done[|done| - 1]
      case Claim(now, lease) => r'.status == Processing && r'.claimExpiresAt == Some(now + lease * SECOND)
      case MarkPublished(_) => r'.status == Published && r'.claimExpiresAt == None
      case MarkFailed(_, _) => r'.status == Failed && r'.claimExpiresAt == None
  }

  /** Each time stamp and the error text are those of the last operation that writes them. */
  predicate StampsTell(r: OutboxEvent, r': OutboxEvent, done: seq<Op>) {
    && r'.claimedAt == (match LastClaim(done) case Some(op) => Some(op.now) case None => r.claimedAt)
    && r'.publishedAt == (match LastPublished(done)
                          case Some(op) => if op.MarkPublished? then Some(op.now) else None
                          case None => r.publishedAt)
    && (match LastFailed(done)
        case Some(op) => op.MarkFailed? && r'.lastError.Some? && IsCut(r'.lastError.value, op.message)
        case None => r'.lastError == r.lastError)
  }

  lemma {:induction false} RunGrows(r: OutboxEvent, ops: seq<Op>, op: Op, p: RetryPolicy)
    ensures Run(r, ops + [op], p) == Step(Run(r, ops, p), op, p)
    decreases |ops|
  {
    hide Step;
    if ops == [] {
      assert (ops + [op])[1..] == [];
    } else {
      assert (ops + [op])[0] == ops[0] && (ops + [op])[1..] == ops[1..] + [op];
      RunGrows(Step(r, ops[0], p), ops[1..], op, p);
    }
  }

  /** After any schedule, every column of the row is told by the operations that took effect. */
  lemma {:induction false} RowTells(r: OutboxEvent, ops: seq<Op>, p: RetryPolicy)
    ensures var r', done := Run(r, ops, p), Effective(r, ops, p);
            SameEvent(r, r') && StatusTells(r, r', done) && StampsTell(r, r', done)
    decreases |ops|
  {
    hide Step;
    if ops != [] {
      var n := |ops| - 1;
      RowTells(r, ops[..n], p);
      assert ops == ops[..n] + [ops[n]];
      RunGrows(r, ops[..n], ops[n], p);
      StepTells(r, Run(r, ops[..n], p), Effective(r, ops[..n], p), ops[n], p);
      assert Effective(r, ops[..n], p) + [] == Effective(r, ops[..n], p);
    }
  }

  lemma StepTells(r: OutboxEvent, now: OutboxEvent, done: seq<Op>, op: Op, p: RetryPolicy)
    requires SameEvent(r, now) && StatusTells(r, now, done) && StampsTell(r, now, done)
    ensures var done' := if op.Claim? && !Eligible(now, op.now) then done else done + [op];
            SameEvent(r, Step(now, op, p)) && StatusTells(r, Step(now, op, p), done') &&
            StampsTell(r, Step(now, op, p), done')
  {
    hide Delay, Eligible, LastClaim, LastPublished, LastFailed;
    LastsGrow(done, op);
    assert (done + [op])[|done|] == op && |done + [op]| - 1 == |done|;
    if op.MarkFailed? { CutIs(op.message); }
  }

  lemma LastsGrow(done: seq<Op>, op: Op)
    ensures LastClaim(done + [op]) == if op.Claim? then Some(op) else LastClaim(done)
    ensures LastPublished(done + [op]) == if op.MarkPublished? then Some(op) else LastPublished(done)
    ensures LastFailed(done + [op]) == if op.MarkFailed? then Some(op) else LastFailed(done)
  {
    assert (done + [op])[..|done|] == done;
  }

  lemma CutIs(text: string)
    ensures IsCut(Truncated(text), text)
  {}
}
