/** What every interleaving and every crash of dispatchers keeps. */
module DispatchSafety {
  import opened Prelude
  import opened OutboxRow
  import opened OutboxRepository
  import opened OutboxDispatcher
  import opened DispatchProtocol
  import opened RetryBounds

  /** The attempts a row gets: `max_retries`, but never fewer than one. */
  function AttemptLimit(p: RetryPolicy): nat {
    if p.maxRetries > 1 then p.maxRetries else 1
  }

  predicate PublishedBy(ended: map<nat, End>, t: nat, id: RowId) {
    t in ended && ended[t].Committed? && id in ended[t].published
  }

  predicate FailedBy(ended: map<nat, End>, t: nat, id: RowId) {
    t in ended && ended[t].Committed? && id in ended[t].failed
  }

  /** The committed transactions that marked a row failed. */
  function Failures(ended: map<nat, End>, id: RowId): set<nat> {
    set t | t in ended && FailedBy(ended, t, id)
  }

  // ---------------------------------------------------------------------------------------------
  // The invariant, one predicate per part of the state.

  ghost predicate RowOk(p: RetryPolicy, id: RowId, r: OutboxEvent, ended: map<nat, End>) {
    && r.id == id && r.status != Processing && Consistent(r, p)
    && r.retryCount == |Failures(ended, id)|
    && (r.status == Pending ==> r.retryCount == 0)
    && r.retryCount + (if r.status == Published then 1 else 0) <= AttemptLimit(p)
    && (r.status == Published <==> exists t :: PublishedBy(ended, t, id))
  }

  /** A row a transaction holds, against the committed row. */
  ghost predicate WorkOk(p: RetryPolicy, committed: OutboxEvent, mine: OutboxEvent, published: bool, failed: bool) {
    && mine.id == committed.id && Deserialize(mine) == Deserialize(committed)
    && (committed.status == Pending || (committed.status == Failed && committed.retryCount < p.maxRetries))
    && !(published && failed)
    && mine.status == (if published then Published else if failed then Failed else Processing)
    && mine.retryCount == committed.retryCount + (if failed then 1 else 0)
    && Consistent(mine, p)
  }

  ghost predicate TxOk(p: RetryPolicy, rows: map<RowId, OutboxEvent>, tx: Tx) {
    && Distinct(tx.claimed) && tx.done <= |tx.claimed|
    && (forall id :: id in tx.work <==> id in tx.claimed)
    && (forall id :: id in tx.published || id in tx.failed <==> id in tx.claimed[..tx.done])
    && (tx.stage == Unmarked ==> tx.done < |tx.claimed|)
    && (forall id | id in tx.work ::
          id in rows && WorkOk(p, rows[id], tx.work[id], id in tx.published, id in tx.failed))
  }

  /** What a transaction has sent: everything it marked published, and otherwise only rows it is past or at. */
  ghost predicate SentOk(log: seq<Sending>, t: nat, tx: Tx) {
    && (forall id | id in tx.published :: Sending(t, id) in log)
    && (tx.stage == Unmarked && tx.done < |tx.claimed| ==> Sending(t, Current(tx)) in log)
    && (forall id | Sending(t, id) in log ::
          id in tx.published || id in tx.failed ||
          (tx.stage == Unmarked && tx.done < |tx.claimed| && id == Current(tx)))
  }

  predicate Holds(txs: map<nat, Tx>, t: nat, id: RowId) {
    t in txs && id in txs[t].work
  }

  ghost predicate Disjoint(txs: map<nat, Tx>) {
    forall t, u, id | Holds(txs, t, id) && Holds(txs, u, id) :: t == u
  }

  ghost predicate EndedOk(rows: map<RowId, OutboxEvent>, log: seq<Sending>, ended: map<nat, End>) {
    && (forall t, id | PublishedBy(ended, t, id) :: id in rows && Sending(t, id) in log)
    && (forall t, u, id | PublishedBy(ended, t, id) && PublishedBy(ended, u, id) :: t == u)
    && (forall t, id | FailedBy(ended, t, id) :: id in rows && !PublishedBy(ended, t, id))
    && (forall t, id | t in ended && ended[t].Committed? && Sending(t, id) in log ::
          PublishedBy(ended, t, id) || FailedBy(ended, t, id))
  }

  ghost predicate LogOk(log: seq<Sending>, txs: map<nat, Tx>, ended: map<nat, End>) {
    && Distinct(log)
    && (forall x | x in log :: x.tx in txs || x.tx in ended)
    && (forall t | t in txs :: t !in ended)
  }

  ghost predicate RowsOk(p: RetryPolicy, rows: map<RowId, OutboxEvent>, ended: map<nat, End>) {
    forall id | id in rows :: RowOk(p, id, rows[id], ended)
  }

  ghost predicate TxsOk(p: RetryPolicy, rows: map<RowId, OutboxEvent>, log: seq<Sending>, txs: map<nat, Tx>) {
    forall t | t in txs :: TxOk(p, rows, txs[t]) && SentOk(log, t, txs[t])
  }

  ghost predicate Inv(p: RetryPolicy, s: Sys) {
    && RowsOk(p, s.rows, s.ended)
    && TxsOk(p, s.rows, s.log, s.txs)
    && Disjoint(s.txs)
    && EndedOk(s.rows, s.log, s.ended)
    && LogOk(s.log, s.txs, s.ended)
  }

  // ---------------------------------------------------------------------------------------------
  // Steps inside a transaction.

  lemma CurrentIsProcessing(p: RetryPolicy, rows: map<RowId, OutboxEvent>, tx: Tx)
    requires TxOk(p, rows, tx) && tx.done < |tx.claimed|
    ensures Current(tx) in tx.work && Current(tx) !in tx.published && Current(tx) !in tx.failed
    ensures tx.work[Current(tx)].status == Processing
  {}

  lemma WorkMarked(p: RetryPolicy, committed: OutboxEvent, mine: OutboxEvent, at: int, message: string)
    requires WorkOk(p, committed, mine, false, false)
    ensures WorkOk(p, committed, OutboxRow.MarkedPublished(mine, at), true, false)
    ensures WorkOk(p, committed, OutboxRow.MarkedFailed(mine, at, message, p), false, true)
  {}

  lemma MarkKeepsTx(p: RetryPolicy, rows: map<RowId, OutboxEvent>, tx: Tx, step: Step)
    requires TxOk(p, rows, tx) && tx.done < |tx.claimed| && (step.MarkPublished? || step.MarkFailed?)
    ensures Current(tx) in tx.work && TxOk(p, rows, TxAfter(tx, step, p))
  {
    hide Deserialize, Delay, Truncated;
    CurrentIsProcessing(p, rows, tx);
    var id := Current(tx);
    WorkMarked(p, rows[id], tx.work[id], step.at, if step.MarkFailed? then step.message else "");
    assert tx.claimed[..tx.done + 1] == tx.claimed[..tx.done] + [id];
    hide WorkOk, OutboxRow.MarkedPublished, OutboxRow.MarkedFailed;
  }

  lemma MarkKeepsSent(p: RetryPolicy, rows: map<RowId, OutboxEvent>, log: seq<Sending>, t: nat, tx: Tx, step: Step)
    requires TxOk(p, rows, tx) && SentOk(log, t, tx) && tx.done < |tx.claimed|
    requires step.MarkFailed? || (step.MarkPublished? && tx.stage == Unmarked)
    ensures Current(tx) in tx.work && SentOk(log, t, TxAfter(tx, step, p))
  {}

  // ---------------------------------------------------------------------------------------------
  // Each kind of step keeps the invariant.

  /** Steps that change one open transaction's marks and nothing shared. */
  lemma MarkKeepsInv(p: RetryPolicy, s: Sys, step: Step)
    requires Inv(p, s) && Enabled(s, step) && (step.MarkPublished? || step.MarkFailed?)
    ensures Inv(p, Apply(p, s, step))
  {
    hide RowsOk, TxOk, SentOk, Disjoint, EndedOk, TxAfter, TxsOk, Distinct;
    var tx := s.txs[step.t];
    var tx' := TxAfter(tx, step, p);
    assert Apply(p, s, step) == s.(txs := s.txs[step.t := tx']);
    TxTaken(p, s.rows, s.log, s.txs, step.t);
    MarkKeepsTx(p, s.rows, tx, step);
    MarkKeepsSent(p, s.rows, s.log, step.t, tx, step);
    TxReplaced(p, s.rows, s.log, s.txs, step.t, tx');
    SameHolds(p, s.txs, step.t, step);
  }

  lemma TxTaken(p: RetryPolicy, rows: map<RowId, OutboxEvent>, log: seq<Sending>, txs: map<nat, Tx>, t: nat)
    requires TxsOk(p, rows, log, txs) && t in txs
    ensures TxOk(p, rows, txs[t]) && SentOk(log, t, txs[t])
  {}

  lemma TxReplaced(p: RetryPolicy, rows: map<RowId, OutboxEvent>, log: seq<Sending>, txs: map<nat, Tx>, t: nat, tx: Tx)
    requires TxsOk(p, rows, log, txs) && TxOk(p, rows, tx) && SentOk(log, t, tx)
    ensures TxsOk(p, rows, log, txs[t := tx])
  {}

  /** A transaction that gets on with its rows holds the same rows. */
  lemma SameHolds(p: RetryPolicy, txs: map<nat, Tx>, t: nat, step: Step)
    requires t in txs && txs[t].done < |txs[t].claimed| && Current(txs[t]) in txs[t].work && Disjoint(txs)
    ensures Disjoint(txs[t := TxAfter(txs[t], step, p)])
  {
    hide OutboxRow.MarkedPublished, OutboxRow.MarkedFailed;
    var txs' := txs[t := TxAfter(txs[t], step, p)];
    assert txs'[t].work.Keys == txs[t].work.Keys;
    forall u, v, id | Holds(txs', u, id) && Holds(txs', v, id) ensures u == v {
      assert Holds(txs, u, id) && Holds(txs, v, id);
    }
  }

  lemma SendKeepsInv(p: RetryPolicy, s: Sys, step: Step)
    requires Inv(p, s) && Enabled(s, step) && step.Send?
    ensures Inv(p, Apply(p, s, step))
  {
    hide RowsOk, TxOk, SentOk, Disjoint, EndedOk, TxsOk, Distinct, Deserialize;
    var tx := s.txs[step.t];
    var x := Sending(step.t, Current(tx));
    var tx' := TxAfter(tx, step, p);
    assert Apply(p, s, step) == s.(txs := s.txs[step.t := tx'], log := s.log + [x]);
    TxTaken(p, s.rows, s.log, s.txs, step.t);
    SendIsNew(p, s.rows, s.log, step.t, tx);
    SendKeepsTx(p, s.rows, s.log, step.t, tx, step);
    LogGrows(p, s.rows, s.log, s.txs, step.t, x);
    TxReplaced(p, s.rows, s.log + [x], s.txs - {step.t}, step.t, tx');
    assert (s.txs - {step.t})[step.t := tx'] == s.txs[step.t := tx'];
    SameHolds(p, s.txs, step.t, step);
    EndedIgnoresOpen(s.rows, s.log, s.ended, x);
    DistinctGrows(s.log, x);
  }

  lemma DistinctGrows<T>(s: seq<T>, x: T)
    requires Distinct(s) && x !in s
    ensures Distinct(s + [x])
  {}

  lemma SendIsNew(p: RetryPolicy, rows: map<RowId, OutboxEvent>, log: seq<Sending>, t: nat, tx: Tx)
    requires TxOk(p, rows, tx) && SentOk(log, t, tx) && tx.done < |tx.claimed| && tx.stage == Unsent
    ensures Sending(t, Current(tx)) !in log
  {}

  lemma SendKeepsTx(p: RetryPolicy, rows: map<RowId, OutboxEvent>, log: seq<Sending>, t: nat, tx: Tx, step: Step)
    requires TxOk(p, rows, tx) && SentOk(log, t, tx) && tx.done < |tx.claimed| && tx.stage == Unsent && step.Send?
    ensures Current(tx) in tx.work
    ensures TxOk(p, rows, TxAfter(tx, step, p)) && SentOk(log + [Sending(t, Current(tx))], t, TxAfter(tx, step, p))
  {}

  /** A send of one transaction tells the others nothing. */
  lemma LogGrows(p: RetryPolicy, rows: map<RowId, OutboxEvent>, log: seq<Sending>, txs: map<nat, Tx>, t: nat,
                 x: Sending)
    requires TxsOk(p, rows, log, txs) && x.tx == t
    ensures TxsOk(p, rows, log + [x], txs - {t})
  {}

  lemma EndedIgnoresOpen(rows: map<RowId, OutboxEvent>, log: seq<Sending>, ended: map<nat, End>, x: Sending)
    requires EndedOk(rows, log, ended) && x.tx !in ended
    ensures EndedOk(rows, log + [x], ended)
  {}

  lemma AbortKeepsInv(p: RetryPolicy, s: Sys, step: Step)
    requires Inv(p, s) && Enabled(s, step) && step.Abort?
    ensures Inv(p, Apply(p, s, step))
  {
    hide TxsOk, Disjoint, EndedOk, Distinct, RowOk, Failures;
    var s' := Apply(p, s, step);
    forall id | id in s.rows ensures RowOk(p, id, s.rows[id], s'.ended) {
      EndedElsewhere(s.ended, step.t, Aborted, id);
      RowOkElsewhere(p, id, s.rows[id], s.ended, s'.ended);
    }
    FewerTxs(p, s.rows, s.log, s.txs, step.t);
    AbortKeepsEnded(s.rows, s.log, s.ended, step.t);
  }

  /** How a transaction ends does not matter to a row it did not mark. */
  lemma EndedElsewhere(ended: map<nat, End>, t: nat, end: End, id: RowId)
    requires t !in ended && (end.Committed? ==> id !in end.published && id !in end.failed)
    ensures forall u :: PublishedBy(ended[t := end], u, id) <==> PublishedBy(ended, u, id)
    ensures Failures(ended[t := end], id) == Failures(ended, id)
  {}

  lemma RowOkElsewhere(p: RetryPolicy, id: RowId, r: OutboxEvent, ended: map<nat, End>, ended': map<nat, End>)
    requires RowOk(p, id, r, ended) && Failures(ended', id) == Failures(ended, id)
    requires forall u :: PublishedBy(ended', u, id) <==> PublishedBy(ended, u, id)
    ensures RowOk(p, id, r, ended')
  {}

  lemma FewerTxs(p: RetryPolicy, rows: map<RowId, OutboxEvent>, log: seq<Sending>, txs: map<nat, Tx>, t: nat)
    requires Disjoint(txs) && TxsOk(p, rows, log, txs)
    ensures Disjoint(txs - {t}) && TxsOk(p, rows, log, txs - {t})
  {
    hide TxOk, SentOk;
    var txs' := txs - {t};
    forall u, v, id | Holds(txs', u, id) && Holds(txs', v, id) ensures u == v {
      assert Holds(txs, u, id) && Holds(txs, v, id);
    }
  }

  lemma AbortKeepsEnded(rows: map<RowId, OutboxEvent>, log: seq<Sending>, ended: map<nat, End>, t: nat)
    requires EndedOk(rows, log, ended) && t !in ended
    ensures EndedOk(rows, log, ended[t := Aborted])
  {
    var ended' := ended[t := Aborted];
    assert forall u, id :: PublishedBy(ended', u, id) <==> PublishedBy(ended, u, id);
    assert forall u, id :: FailedBy(ended', u, id) <==> FailedBy(ended, u, id);
  }

  lemma IngestKeepsInv(p: RetryPolicy, s: Sys, step: Step)
    requires Inv(p, s) && Enabled(s, step) && step.Ingest?
    ensures Inv(p, Apply(p, s, step))
  {
    hide Disjoint, SentOk, LogOk, RowOk, EndedOk, TxOk;
    NewRowOk(p, step.row, s.rows, s.log, s.ended);
    forall t | t in s.txs ensures TxOk(p, s.rows[step.row.id := step.row], s.txs[t]) {
      NewRowUnheld(p, s.rows, s.txs[t], step.row);
    }
  }

  lemma NewRowOk(p: RetryPolicy, row: OutboxEvent, rows: map<RowId, OutboxEvent>, log: seq<Sending>, ended: map<nat,
                 End>)
    requires row.id !in rows && row.status == Pending && row.retryCount == 0 && EndedOk(rows, log, ended)
    ensures RowOk(p, row.id, row, ended) && EndedOk(rows[row.id := row], log, ended)
  {}

  lemma NewRowUnheld(p: RetryPolicy, rows: map<RowId, OutboxEvent>, tx: Tx, row: OutboxEvent)
    requires TxOk(p, rows, tx) && row.id !in rows
    ensures TxOk(p, rows[row.id := row], tx)
  {}

  lemma ClaimKeepsInv(p: RetryPolicy, s: Sys, step: Step)
    requires Inv(p, s) && Enabled(s, step) && step.Claim?
    ensures Inv(p, Apply(p, s, step))
  {
    hide RowOk, TxOk, SentOk, Disjoint, EndedOk, RowsOk, QueryResult, Distinct, TxsOk, ClaimedRows, Locked;
    PickedExists(s, step);
    var tx := Tx(step.picked, 0, Unsent, ClaimedRows(s.rows, step.picked, step.now, step.lease), {}, {});
    assert Apply(p, s, step) == s.(txs := s.txs[step.t := tx]);
    ClaimedIsOk(p, s, step, tx);
    TxReplaced(p, s.rows, s.log, s.txs, step.t, tx);
    ClaimIsDisjoint(s, step, tx);
  }

  lemma PickedExists(s: Sys, step: Step)
    requires Enabled(s, step) && step.Claim?
    ensures forall id | id in step.picked :: id in s.rows
  {}

  lemma ClaimedIsOk(p: RetryPolicy, s: Sys, step: Step, tx: Tx)
    requires RowsOk(p, s.rows, s.ended) && LogOk(s.log, s.txs, s.ended) && Enabled(s, step) && step.Claim?
    requires forall id | id in step.picked :: id in s.rows
    requires tx == Tx(step.picked, 0, Unsent, ClaimedRows(s.rows, step.picked, step.now, step.lease), {}, {})
    ensures TxOk(p, s.rows, tx) && SentOk(s.log, step.t, tx)
    ensures forall id | id in tx.work :: id in step.picked
  {
    forall id | id in step.picked
      ensures WorkOk(p, s.rows[id], Claimed(s.rows[id], step.now, step.lease), false, false)
    {
      assert RowOk(p, id, s.rows[id], s.ended);
    }
    assert forall id :: Sending(step.t, id) !in s.log;
    hide RowOk, WorkOk;
  }

  lemma ClaimIsDisjoint(s: Sys, step: Step, tx: Tx)
    requires Disjoint(s.txs) && Enabled(s, step) && step.Claim? && forall id | id in tx.work :: id in step.picked
    ensures Disjoint(s.txs[step.t := tx])
  {
    hide Eligible;
    var txs' := s.txs[step.t := tx];
    forall u, v, id | Holds(txs', u, id) && Holds(txs', v, id) ensures u == v {
      if u != step.t { assert Holds(s.txs, u, id) && id in Locked(s.txs); }
      if v != step.t { assert Holds(s.txs, v, id) && id in Locked(s.txs); }
    }
  }

  lemma CommitKeepsInv(p: RetryPolicy, s: Sys, step: Step)
    requires Inv(p, s) && Enabled(s, step) && step.Commit?
    ensures Inv(p, Apply(p, s, step))
  {
    hide RowsOk, TxOk, SentOk, Disjoint, EndedOk, TxsOk, Distinct;
    var t := step.t;
    var tx := s.txs[t];
    TxTaken(p, s.rows, s.log, s.txs, t);
    AllMarked(p, s.rows, s.log, t, tx);
    CommitKeepsRows(p, s.rows, s.ended, t, tx);
    CommitKeepsOthers(p, s.rows, s.log, s.txs, t);
    FewerTxs(p, s.rows, s.log, s.txs, t);
    CommitKeepsEnded(p, s.rows, s.log, s.ended, t, tx);
  }

  /** When every claimed row is dealt with, each is marked one way or the other, and none sent but unmarked. */
  lemma AllMarked(p: RetryPolicy, rows: map<RowId, OutboxEvent>, log: seq<Sending>, t: nat, tx: Tx)
    requires TxOk(p, rows, tx) && SentOk(log, t, tx) && tx.done == |tx.claimed|
    ensures forall id :: id in tx.published || id in tx.failed <==> id in tx.work
    ensures forall id | Sending(t, id) in log :: id in tx.published || id in tx.failed
  {}

  lemma CommitKeepsRows(p: RetryPolicy, rows: map<RowId, OutboxEvent>, ended: map<nat, End>, t: nat, tx: Tx)
    requires RowsOk(p, rows, ended) && TxOk(p, rows, tx) && t !in ended
    requires forall id :: id in tx.published || id in tx.failed <==> id in tx.work
    ensures RowsOk(p, rows + tx.work, ended[t := Committed(tx.published, tx.failed)])
  {
    hide RowOk, WorkOk, Distinct, Failures, PublishedBy;
    var end := Committed(tx.published, tx.failed);
    forall id | id in rows + tx.work ensures RowOk(p, id, (rows + tx.work)[id], ended[t := end]) {
      if id in tx.work {
        CommittedRowOk(p, id, rows[id], tx.work[id], ended, t, tx);
      } else {
        EndedElsewhere(ended, t, end, id);
        RowOkElsewhere(p, id, rows[id], ended, ended[t := end]);
      }
    }
  }

  lemma CommittedRowOk(p: RetryPolicy, id: RowId, committed: OutboxEvent, mine: OutboxEvent, ended: map<nat, End>,
                       t: nat, tx: Tx)
    requires RowOk(p, id, committed, ended) && WorkOk(p, committed, mine, id in tx.published, id in tx.failed)
    requires t !in ended && (id in tx.published || id in tx.failed)
    ensures RowOk(p, id, mine, ended[t := Committed(tx.published, tx.failed)])
  {
    hide Deserialize;
    var ended' := ended[t := Committed(tx.published, tx.failed)];
    assert Failures(ended', id) == Failures(ended, id) + if id in tx.failed then {t} else {};
    assert PublishedBy(ended', t, id) <==> id in tx.published;
    assert forall u | u != t :: PublishedBy(ended', u, id) <==> PublishedBy(ended, u, id);
    hide Failures, PublishedBy;
  }

  lemma CommitKeepsOthers(p: RetryPolicy, rows: map<RowId, OutboxEvent>, log: seq<Sending>, txs: map<nat, Tx>, t: nat)
    requires Disjoint(txs) && TxsOk(p, rows, log, txs) && t in txs
    ensures TxsOk(p, rows + txs[t].work, log, txs - {t})
  {
    hide SentOk, WorkOk, Distinct;
    forall u | u in txs && u != t ensures TxOk(p, rows + txs[t].work, txs[u]) {
      assert TxOk(p, rows, txs[u]);
      forall id | id in txs[u].work ensures id !in txs[t].work {
        assert Holds(txs, u, id);
        assert Holds(txs, t, id) ==> u == t;
      }
    }
  }

  lemma CommitKeepsEnded(p: RetryPolicy, rows: map<RowId, OutboxEvent>, log: seq<Sending>, ended: map<nat, End>,
                         t: nat, tx: Tx)
    requires EndedOk(rows, log, ended) && RowsOk(p, rows, ended) && t !in ended
    requires TxOk(p, rows, tx) && SentOk(log, t, tx)
    requires forall id :: id in tx.published || id in tx.failed <==> id in tx.work
    requires forall id | Sending(t, id) in log :: id in tx.published || id in tx.failed
    ensures EndedOk(rows + tx.work, log, ended[t := Committed(tx.published, tx.failed)])
  {
    hide Consistent, Distinct, Failures;
    var ended' := ended[t := Committed(tx.published, tx.failed)];
    forall id ensures PublishedBy(ended', t, id) <==> id in tx.published {}
    forall id ensures FailedBy(ended', t, id) <==> id in tx.failed {}
    forall u, id | u != t ensures PublishedBy(ended', u, id) <==> PublishedBy(ended, u, id) {}
    forall u, id | u != t ensures FailedBy(ended', u, id) <==> FailedBy(ended, u, id) {}
    forall u, id | id in tx.work ensures !PublishedBy(ended, u, id) {
      assert RowOk(p, id, rows[id], ended);
    }
    hide PublishedBy, FailedBy, RowsOk, RowOk;
  }

  // ---------------------------------------------------------------------------------------------
  // Runs.

  lemma StepKeepsInv(p: RetryPolicy, s: Sys, step: Step)
    requires Inv(p, s) && Enabled(s, step)
    ensures Inv(p, Apply(p, s, step))
  {
    hide Inv, Enabled, Apply;
    match step
    case Ingest(_) => IngestKeepsInv(p, s, step);
    case Claim(_, _, _, _, _) => ClaimKeepsInv(p, s, step);
    case Send(_) => SendKeepsInv(p, s, step);
    case MarkPublished(_, _) => MarkKeepsInv(p, s, step);
    case MarkFailed(_, _, _) => MarkKeepsInv(p, s, step);
    case Commit(_) => CommitKeepsInv(p, s, step);
    case Abort(_) => AbortKeepsInv(p, s, step);
  }

  lemma {:induction false} RunKeepsInv(p: RetryPolicy, s: Sys, steps: seq<Step>)
    requires Inv(p, s) && ValidRun(p, s, steps)
    ensures Inv(p, After(p, s, steps))
    decreases |steps|
  {
    hide Inv, Enabled, Apply;
    if steps != [] {
      StepKeepsInv(p, s, steps[0]);
      RunKeepsInv(p, Apply(p, s, steps[0]), steps[1..]);
    }
  }

  lemma ReachableInv(p: RetryPolicy, steps: seq<Step>)
    requires ValidRun(p, START, steps)
    ensures Inv(p, After(p, START, steps))
  {
    RunKeepsInv(p, START, steps);
  }

  /**
   * At any moment of any run: no two open transactions hold the same row, and no committed row is in
   * processing, so no lease ever runs out.
   */
  lemma LocksAndLeases(p: RetryPolicy, steps: seq<Step>)
    requires ValidRun(p, START, steps)
    ensures var s := After(p, START, steps);
            && (forall t, u, id | Holds(s.txs, t, id) && Holds(s.txs, u, id) :: t == u)
            && (forall id | id in s.rows :: s.rows[id].status != Processing)
            && (forall t, id | Holds(s.txs, t, id) ::
                  id in s.rows && (s.rows[id].status == Pending || s.rows[id].status == Failed))
  {
    ReachableInv(p, steps);
    hide Consistent, EndedOk, LogOk, SentOk, Distinct, Failures, PublishedBy;
  }

  // ---------------------------------------------------------------------------------------------
  // Conservation of sends.

  /** What became of a send. */
  datatype Fate = InOpen | InAborted | ThenFailed | ThenPublished

  function FateOf(s: Sys, x: Sending): Fate {
    if x.tx !in s.ended then InOpen
    else match s.ended[x.tx]
         case Aborted => InAborted
         case Committed(published, _) => if x.row in published then ThenPublished else ThenFailed
  }

  /** The sends of a row. */
  function SendsOf(log: seq<Sending>, id: RowId): nat {
    if log == [] then 0 else SendsOf(log[..|log| - 1], id) + if log[|log| - 1].row == id then 1 else 0
  }

  /** The sends of a row that met a given fate. */
  function SendsThat(s: Sys, log: seq<Sending>, id: RowId, fate: Fate): nat {
    if log == [] then 0
    else
      var x := log[|log| - 1];
      SendsThat(s, log[..|log| - 1], id, fate) + if x.row == id && FateOf(s, x) == fate then 1 else 0
  }

  lemma {:induction false} FatesAddUp(s: Sys, log: seq<Sending>, id: RowId)
    ensures SendsOf(log, id) == SendsThat(s, log, id, InOpen) + SendsThat(s, log, id, InAborted) +
                                SendsThat(s, log, id, ThenFailed) + SendsThat(s, log, id, ThenPublished)
  {
    if log != [] { FatesAddUp(s, log[..|log| - 1], id); }
  }

  lemma {:induction false} NoSends(s: Sys, log: seq<Sending>, id: RowId, fate: Fate)
    requires forall x | x in log :: x.row == id ==> FateOf(s, x) != fate
    ensures SendsThat(s, log, id, fate) == 0
  {
    hide FateOf;
    if log != [] { NoSends(s, log[..|log| - 1], id, fate); }
  }

  lemma {:induction false} OneSend(s: Sys, log: seq<Sending>, id: RowId, fate: Fate, x: Sending)
    requires Distinct(log) && x in log && x.row == id && FateOf(s, x) == fate
    requires forall y | y in log :: y.row == id && FateOf(s, y) == fate ==> y == x
    ensures SendsThat(s, log, id, fate) == 1
  {
    hide FateOf;
    var n := |log| - 1;
    if log[n] == x {
      NoSends(s, log[..n], id, fate);
    } else {
      OneSend(s, log[..n], id, fate, x);
    }
  }

  lemma FatePublished(p: RetryPolicy, s: Sys, x: Sending)
    requires Inv(p, s)
    ensures FateOf(s, x) == ThenPublished ==> x.row in s.rows && s.rows[x.row].status == Published
  {}

  /** A published row has exactly one send whose transaction published it; any other row has none. */
  lemma PublishedSends(p: RetryPolicy, s: Sys, id: RowId)
    requires Inv(p, s)
    ensures SendsThat(s, s.log, id, ThenPublished) == if id in s.rows && s.rows[id].status == Published then 1 else 0
  {
    hide TxsOk, Disjoint, SendsThat, Consistent, Failures;
    if id in s.rows && s.rows[id].status == Published {
      assert RowOk(p, id, s.rows[id], s.ended);
      var t :| PublishedBy(s.ended, t, id);
      forall y | y in s.log && y.row == id && FateOf(s, y) == ThenPublished ensures y == Sending(t, id) {
        assert PublishedBy(s.ended, y.tx, id);
      }
      OneSend(s, s.log, id, ThenPublished, Sending(t, id));
    } else {
      forall y | y in s.log && y.row == id ensures FateOf(s, y) != ThenPublished {
        FatePublished(p, s, y);
      }
      NoSends(s, s.log, id, ThenPublished);
    }
  }

  /**
   * After any interleaving with any crashes, the successful sends of a row are one if it is published,
   * plus those in aborted and in still open transactions, plus those a failed mark followed; in
   * particular a published row was sent at least once.
   */
  lemma SendsConserved(p: RetryPolicy, steps: seq<Step>, id: RowId)
    requires ValidRun(p, START, steps)
    ensures var s := After(p, START, steps);
            var published := id in s.rows && s.rows[id].status == Published;
            && SendsOf(s.log, id) == (if published then 1 else 0) + SendsThat(s, s.log, id, InAborted) +
                                     SendsThat(s, s.log, id, InOpen) + SendsThat(s, s.log, id, ThenFailed)
            && (published ==> SendsOf(s.log, id) >= 1)
  {
    hide Inv, SendsOf, SendsThat;
    ReachableInv(p, steps);
    var s := After(p, START, steps);
    FatesAddUp(s, s.log, id);
    PublishedSends(p, s, id);
  }

  /**
   * Retries end: the committed attempts at a row are its failures plus one if it is published, the
   * stored count is exactly the failures, and there are at most `max_retries` attempts (at least one).
   */
  lemma AttemptsBounded(p: RetryPolicy, steps: seq<Step>, id: RowId)
    requires ValidRun(p, START, steps) && id in After(p, START, steps).rows
    ensures var s := After(p, START, steps);
            && s.rows[id].retryCount == |Failures(s.ended, id)|
            && |Failures(s.ended, id)| + (if s.rows[id].status == Published then 1 else 0) <= AttemptLimit(p)
  {
    ReachableInv(p, steps);
    hide TxsOk, Disjoint, EndedOk, LogOk, Failures;
    var s := After(p, START, steps);
    assert RowOk(p, id, s.rows[id], s.ended);
  }

  // ---------------------------------------------------------------------------------------------
  // Nothing is lost.

  /** A row that will not be claimed again. */
  predicate Final(r: OutboxEvent, p: RetryPolicy) {
    r.status == Published || Dead(r, p)
  }

  /** From any reachable state on, a row stays in the table, and once published or dead it never changes. */
  lemma {:induction false} FinalForGood(p: RetryPolicy, s: Sys, steps: seq<Step>, id: RowId)
    requires Inv(p, s) && ValidRun(p, s, steps) && id in s.rows
    ensures id in After(p, s, steps).rows
    ensures Final(s.rows[id], p) ==> After(p, s, steps).rows[id] == s.rows[id]
    decreases |steps|
  {
    hide Inv, Enabled, Apply, Final;
    if steps != [] {
      StepKeepsInv(p, s, steps[0]);
      StepKeepsFinal(p, s, steps[0], id);
      FinalForGood(p, Apply(p, s, steps[0]), steps[1..], id);
    }
  }

  lemma StepKeepsFinal(p: RetryPolicy, s: Sys, step: Step, id: RowId)
    requires Inv(p, s) && Enabled(s, step) && id in s.rows
    ensures id in Apply(p, s, step).rows
    ensures Final(s.rows[id], p) ==> Apply(p, s, step).rows[id] == s.rows[id]
  {
    hide RowsOk, EndedOk, LogOk, SentOk, Disjoint, Distinct, Consistent, TxAfter, QueryResult;
    if step.Commit? {
      TxTaken(p, s.rows, s.log, s.txs, step.t);
    }
  }
}
