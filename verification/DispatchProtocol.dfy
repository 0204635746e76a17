/**
 * Several dispatchers over one outbox table. Each runs its batch in one transaction that holds row
 * locks on what it claimed; it may stop at any point, which undoes its marks but not its sends.
 */
module DispatchProtocol {
  import opened Prelude
  import opened OutboxRow
  import opened OutboxRepository
  import opened OutboxDispatcher

  /** Whether the message of the current row has been sent and the row not yet marked. */
  datatype Stage = Unsent | Unmarked

  datatype Tx = Tx(
    claimed: seq<RowId>,
    done: nat,                       // rows dealt with so far
    stage: Stage,
    work: map<RowId, OutboxEvent>,   // the locked rows as this transaction has them
    published: set<RowId>,
    failed: set<RowId>
  )

  /** A send that returned normally, and the transaction it was made in. */
  datatype Sending = Sending(tx: nat, row: RowId)

  datatype End = Aborted | Committed(published: set<RowId>, failed: set<RowId>)

  /** Committed rows, open transactions, the broker's log, and how past transactions ended. */
  datatype Sys = Sys(rows: map<RowId, OutboxEvent>, txs: map<nat, Tx>, log: seq<Sending>, ended: map<nat, End>)

  datatype Step =
    | Ingest(row: OutboxEvent)
    | Claim(t: nat, now: int, lease: int, limit: nat, picked: seq<RowId>)
    | Send(t: nat)
    | MarkPublished(t: nat, at: int)
    | MarkFailed(t: nat, at: int, message: string)
    | Commit(t: nat)
    | Abort(t: nat)

  function Locked(txs: map<nat, Tx>): set<RowId> {
    set t, id | t in txs && id in txs[t].work :: id
  }

  function Current(tx: Tx): RowId
    requires tx.done < |tx.claimed|
  {
    tx.claimed[tx.done]
  }

  ghost predicate Busy(s: Sys, t: nat) {
    t in s.txs && s.txs[t].done < |s.txs[t].claimed| && Current(s.txs[t]) in s.txs[t].work
  }

  /** When a step may happen. A claim that finds nothing ends its transaction at once and is no step. */
  ghost predicate Enabled(s: Sys, step: Step) {
    match step
    case Ingest(row) => row.id !in s.rows && row.status == Pending && row.retryCount == 0
    case Claim(t, now, lease, limit, picked) =>
      t !in s.txs && t !in s.ended && picked != [] && QueryResult(s.rows, Locked(s.txs), now, limit, picked)
    case Send(t) =>
      Busy(s, t) && s.txs[t].stage == Unsent && Deserialize(s.txs[t].work[Current(s.txs[t])]).Some?
    case MarkPublished(t, at) => Busy(s, t) && s.txs[t].stage == Unmarked
    case MarkFailed(t, at, message) => Busy(s, t)
    case Commit(t) => t in s.txs && s.txs[t].done == |s.txs[t].claimed|
    case Abort(t) => t in s.txs
  }

  function ClaimedRows(rows: map<RowId, OutboxEvent>, picked: seq<RowId>, now: int, lease: int): map<RowId, OutboxEvent>
    requires forall id | id in picked :: id in rows
  {
    map id | id in picked :: Claimed(rows[id], now, lease)
  }

  function TxAfter(tx: Tx, step: Step, p: RetryPolicy): Tx
    requires tx.done < |tx.claimed| && Current(tx) in tx.work
  {
    var id := Current(tx);
    match step
    case Send(_) => tx.(stage := Unmarked)
    case MarkPublished(_, at) =>
      tx.(work := tx.work[id := OutboxRow.MarkedPublished(tx.work[id], at)], published := tx.published + {id},
          done := tx.done + 1, stage := Unsent)
    case MarkFailed(_, at, message) =>
      tx.(work := tx.work[id := OutboxRow.MarkedFailed(tx.work[id], at, message, p)], failed := tx.failed + {id},
          done := tx.done + 1, stage := Unsent)
    case _ => tx
  }

  function Apply(p: RetryPolicy, s: Sys, step: Step): Sys
    requires Enabled(s, step)
  {
    match step
    case Ingest(row) => s.(rows := s.rows[row.id := row])
    case Claim(t, now, lease, limit, picked) =>
      s.(txs := s.txs[t := Tx(picked, 0, Unsent, ClaimedRows(s.rows, picked, now, lease), {}, {})])
    case Send(t) =>
      s.(txs := s.txs[t := TxAfter(s.txs[t], step, p)], log := s.log + [Sending(t, Current(s.txs[t]))])
    case MarkPublished(t, at) => s.(txs := s.txs[t := TxAfter(s.txs[t], step, p)])
    case MarkFailed(t, at, message) => s.(txs := s.txs[t := TxAfter(s.txs[t], step, p)])
    case Commit(t) =>
      s.(rows := s.rows + s.txs[t].work, txs := s.txs - {t},
         ended := s.ended[t := Committed(s.txs[t].published, s.txs[t].failed)])
    case Abort(t) => s.(txs := s.txs - {t}, ended := s.ended[t := Aborted])
  }

  const START: Sys := Sys(map[], map[], [], map[])

  ghost predicate ValidRun(p: RetryPolicy, s: Sys, steps: seq<Step>)
    decreases |steps|
  {
    steps != [] ==> Enabled(s, steps[0]) && ValidRun(p, Apply(p, s, steps[0]), steps[1..])
  }

  function After(p: RetryPolicy, s: Sys, steps: seq<Step>): Sys
    requires ValidRun(p, s, steps)
    decreases |steps|
  {
    if steps == [] then s else After(p, Apply(p, s, steps[0]), steps[1..])
  }

  // ---------------------------------------------------------------------------------------------
  // The clock.

  /** The clock reading a step uses, if it uses one; a row's creation time was read before it is committed. */
  function TimeOf(step: Step): Option<int> {
    match step
    case Claim(_, now, _, _, _) => Some(now)
    case MarkPublished(_, at) => Some(at)
    case MarkFailed(_, at, _) => Some(at)
    case _ => None
  }

  /** From `start` on, the clock of the run does not go back. */
  predicate InTime(steps: seq<Step>, start: int)
    decreases |steps|
  {
    steps != [] ==>
      match TimeOf(steps[0])
      case None => InTime(steps[1..], start)
      case Some(at) => start <= at && InTime(steps[1..], at)
  }

  /** The last clock reading of a run that starts at `start`. */
  function LastTime(steps: seq<Step>, start: int): int
    decreases |steps|
  {
    if steps == [] then start
    else LastTime(steps[1..], if TimeOf(steps[0]).Some? then TimeOf(steps[0]).value else start)
  }
}
