/**
 * Ingestions and dispatchers over one outbox: every event a committed ingestion stored has a row the
 * dispatchers can still publish, and nothing but stored events is ever announced.
 */
module EventsDelivered {
  import opened Prelude
  import opened OutboxRow
  import opened OutboxDispatcher
  import opened RetryBounds
  import Ingestion
  import Ingest = ConcurrentIngestion
  import Dispatch = DispatchProtocol
  import DispatchSafety
  import DispatchProgress

  /** The ingestions' database and transactions, and the dispatchers' view of the outbox. */
  datatype Sys = Sys(ingestion: Ingest.Sys, dispatch: Dispatch.Sys)

  datatype Step = Ingesting(i: Ingest.Step) | Dispatching(d: Dispatch.Step)

  const START: Sys := Sys(Ingest.START, Dispatch.START)

  /** Row identifiers are drawn at random and never repeat. */
  ghost predicate FreshRow(s: Sys, row: RowId) {
    row !in s.dispatch.rows && forall t | t in s.ingestion.txs :: s.ingestion.txs[t].row != row
  }

  /** The transaction puts a new row into the outbox when it commits. */
  predicate Announcing(s: Sys, step: Step) {
    step.Ingesting? && step.i.Commit? && step.i.t in s.ingestion.txs && s.ingestion.txs[step.i.t].enqueued
  }

  ghost predicate Enabled(s: Sys, step: Step) {
    match step
    case Ingesting(i) => Ingest.Enabled(s.ingestion, i) && (i.Begin? ==> FreshRow(s, i.row))
    case Dispatching(d) => !d.Ingest? && Dispatch.Enabled(s.dispatch, d)
  }

  /** The row is there for the dispatchers once the transaction that wrote it has committed. */
  function DispatchAfter(p: RetryPolicy, s: Sys, step: Step): Dispatch.Sys
    requires Enabled(s, step)
  {
    match step
    case Ingesting(i) =>
      if Announcing(s, step) then
        var row := s.ingestion.txs[i.t].Row();
        s.dispatch.(rows := s.dispatch.rows[row.id := row])
      else s.dispatch
    case Dispatching(d) => Dispatch.Apply(p, s.dispatch, d)
  }

  function Apply(p: RetryPolicy, s: Sys, step: Step): Sys
    requires Enabled(s, step)
  {
    Sys(if step.Ingesting? then Ingest.Apply(s.ingestion, step.i) else s.ingestion, DispatchAfter(p, s, step))
  }

  ghost predicate ValidRun(p: RetryPolicy, s: Sys, steps: seq<Step>)
    decreases |steps|
  {
    steps != [] ==> Enabled(s, steps[0]) && ValidRun(p, Apply(p, s, steps[0]), steps[1..])
  }

  function After(p: RetryPolicy, s: Sys, steps: seq<Step>): Sys
    requires ValidRun(p, s, steps)
    decreases |steps|
  {
    if steps == [] then s else After(p, Apply(p, s, steps[0]), steps[1..])
  }

  // ---------------------------------------------------------------------------------------------
  // What every run keeps.

  /** Rows not committed yet have identifiers of their own. */
  ghost predicate RowsApart(s: Sys) {
    && (forall t | t in s.ingestion.txs :: s.ingestion.txs[t].row !in s.dispatch.rows)
    && (forall t, u | t in s.ingestion.txs && u in s.ingestion.txs && t != u ::
          s.ingestion.txs[t].row != s.ingestion.txs[u].row)
  }

  /** The dispatchers have a row that announces the event. */
  predicate Announced(s: Sys, i: nat)
    requires i < |s.ingestion.db.events| == |s.ingestion.db.outbox|
  {
    var id := s.ingestion.db.outbox[i].id;
    id in s.dispatch.rows && Deserialize(s.dispatch.rows[id]) == Some(Ingestion.MessageOf(s.ingestion.db.events[i]))
  }

  ghost predicate AllAnnounced(s: Sys) {
    && |s.ingestion.db.events| == |s.ingestion.db.outbox|
    && (forall i | 0 <= i < |s.ingestion.db.events| :: Announced(s, i))
    && (forall id | id in s.dispatch.rows :: exists i | 0 <= i < |s.ingestion.db.outbox| ::
          s.ingestion.db.outbox[i].id == id)
  }

  ghost predicate Inv(p: RetryPolicy, s: Sys) {
    Ingest.Inv(s.ingestion) && DispatchSafety.Inv(p, s.dispatch) && RowsApart(s) && AllAnnounced(s)
  }

  /** A committed new row is an enabled step of the dispatch protocol. */
  lemma NewRowEnters(p: RetryPolicy, s: Sys, step: Step)
    requires RowsApart(s) && Enabled(s, step) && Announcing(s, step)
    ensures var row := s.ingestion.txs[step.i.t].Row();
            && Ingestion.IsNew(row, row.id, row.createdAt) && Dispatch.Enabled(s.dispatch, Dispatch.Ingest(row))
            && DispatchAfter(p, s, step) == Dispatch.Apply(p, s.dispatch, Dispatch.Ingest(row))
  {
    var tx := s.ingestion.txs[step.i.t];
    Ingestion.RowIsNew(tx.Event(), tx.row, tx.now);
  }

  /** Dispatching never changes which rows there are, nor what they announce. */
  lemma MessagesStay(p: RetryPolicy, s: Dispatch.Sys, d: Dispatch.Step, id: RowId)
    requires DispatchSafety.Inv(p, s) && Dispatch.Enabled(s, d) && !d.Ingest?
    ensures var s' := Dispatch.Apply(p, s, d);
            && (id in s'.rows <==> id in s.rows)
            && (id in s.rows ==> Deserialize(s'.rows[id]) == Deserialize(s.rows[id]))
  {
    hide Deserialize, DispatchSafety.RowsOk, DispatchSafety.EndedOk, DispatchSafety.LogOk, DispatchSafety.SentOk,
         DispatchSafety.Disjoint, Consistent, Dispatch.TxAfter, Distinct;
    if d.Commit? { DispatchSafety.TxTaken(p, s.rows, s.log, s.txs, d.t); }
  }

  lemma DispatchingKeepsInv(p: RetryPolicy, s: Sys, step: Step)
    requires Inv(p, s) && Enabled(s, step) && step.Dispatching?
    ensures Inv(p, Apply(p, s, step))
  {
    hide Ingest.Inv, DispatchSafety.Inv, Dispatch.Enabled, Dispatch.Apply, Deserialize;
    DispatchSafety.StepKeepsInv(p, s.dispatch, step.d);
    var s' := Apply(p, s, step);
    forall id ensures id in s'.dispatch.rows <==> id in s.dispatch.rows { MessagesStay(p, s.dispatch, step.d, id); }
    forall i | 0 <= i < |s'.ingestion.db.events| ensures Announced(s', i) {
      assert Announced(s, i);
      MessagesStay(p, s.dispatch, step.d, s.ingestion.db.outbox[i].id);
    }
  }

  lemma IngestingKeepsApart(p: RetryPolicy, s: Sys, step: Step)
    requires RowsApart(s) && Enabled(s, step) && step.Ingesting?
    ensures RowsApart(Apply(p, s, step))
  {
    hide Ingestion.OutboxKey, Ingestion.AuditFor, Ingest.Known;
  }

  /** A new event comes with the row that announces it. */
  lemma OneMoreAnnounced(s: Sys, s': Sys, e: Ingestion.StoredEvent, row: OutboxEvent)
    requires AllAnnounced(s) && row.id !in s.dispatch.rows && Deserialize(row) == Some(Ingestion.MessageOf(e))
    requires s'.ingestion.db.events == s.ingestion.db.events + [e]
    requires s'.ingestion.db.outbox == s.ingestion.db.outbox + [row]
    requires s'.dispatch.rows == s.dispatch.rows[row.id := row]
    ensures AllAnnounced(s')
  {
    hide Deserialize, Ingestion.MessageOf;
    var n := |s.ingestion.db.events|;
    forall i | 0 <= i < n + 1 ensures Announced(s', i) {
      if i < n { assert Announced(s, i); }
    }
    forall id | id in s'.dispatch.rows
      ensures exists i | 0 <= i < |s'.ingestion.db.outbox| :: s'.ingestion.db.outbox[i].id == id
    {
      if id == row.id {
        assert s'.ingestion.db.outbox[n].id == id;
      } else {
        var i :| 0 <= i < |s.ingestion.db.outbox| && s.ingestion.db.outbox[i].id == id;
        assert s'.ingestion.db.outbox[i].id == id;
      }
    }
  }

  lemma SameAnnounced(s: Sys, s': Sys)
    requires AllAnnounced(s) && s'.dispatch == s.dispatch
    requires s'.ingestion.db.events == s.ingestion.db.events && s'.ingestion.db.outbox == s.ingestion.db.outbox
    ensures AllAnnounced(s')
  {
    assert forall i | 0 <= i < |s.ingestion.db.events| :: Announced(s', i) == Announced(s, i);
  }

  lemma IngestingKeepsAnnounced(p: RetryPolicy, s: Sys, step: Step)
    requires Ingest.Inv(s.ingestion) && RowsApart(s) && AllAnnounced(s) && Enabled(s, step) && step.Ingesting?
    ensures AllAnnounced(Apply(p, s, step))
  {
    hide Ingest.Inv, Ingest.TxsOk, Ingest.NoClash, Ingest.Merged, Ingest.TxOk, AllAnnounced, Ingest.Apply;
    var s' := Apply(p, s, step);
    if step.i.Commit? {
      var tx := s.ingestion.txs[step.i.t];
      CommittedTxIs(s.ingestion, step.i);
      if tx.inserted {
        RowAnnounces(tx);
        OneMoreAnnounced(s, s', tx.Event(), tx.Row());
      } else {
        SameAnnounced(s, s');
      }
    } else {
      Ingest.OnlyCommitsWrite(s.ingestion, step.i);
      SameAnnounced(s, s');
    }
  }

  /** What a commit writes. */
  lemma CommittedTxIs(s: Ingest.Sys, i: Ingest.Step)
    requires Ingest.Inv(s) && Ingest.Enabled(s, i) && i.Commit?
    ensures var tx, db, db' := s.txs[i.t], s.db, Ingest.Apply(s, i).db;
            && (tx.enqueued <==> tx.inserted)
            && db'.events == db.events + (if tx.inserted then [tx.Event()] else [])
            && db'.outbox == db.outbox + (if tx.inserted then [tx.Row()] else [])
  {
    Ingest.TxTaken(s.db, s.txs, i.t);
    EnqueuedIffInserted(s.db, s.txs[i.t]);
    Ingest.CommitAddsAllOrAudit(s, i);
    hide Ingest.Inv, Ingest.TxOk, Ingest.Merged, Ingest.Apply, Ingestion.AuditFor, Ingestion.OutboxFor;
  }

  lemma EnqueuedIffInserted(db: Ingestion.Db, tx: Ingest.Tx)
    requires Ingest.TxOk(db, tx) && tx.phase == Ingest.Ready
    ensures tx.enqueued <==> tx.inserted
  {}

  lemma RowAnnounces(tx: Ingest.Tx)
    ensures tx.Row().id == tx.row && Deserialize(tx.Row()) == Some(Ingestion.MessageOf(tx.Event()))
  {}

  lemma StepKeepsInv(p: RetryPolicy, s: Sys, step: Step)
    requires Inv(p, s) && Enabled(s, step)
    ensures Inv(p, Apply(p, s, step))
  {
    if step.Dispatching? {
      DispatchingKeepsInv(p, s, step);
    } else {
      hide Ingest.Inv, DispatchSafety.Inv, Ingest.Enabled, Ingest.Apply, RowsApart, AllAnnounced, Dispatch.Enabled,
           Dispatch.Apply;
      Ingest.StepKeepsInv(s.ingestion, step.i);
      IngestingKeepsApart(p, s, step);
      IngestingKeepsAnnounced(p, s, step);
      if Announcing(s, step) {
        NewRowEnters(p, s, step);
        DispatchSafety.StepKeepsInv(p, s.dispatch, Dispatch.Ingest(s.ingestion.txs[step.i.t].Row()));
      }
    }
  }

  // ---------------------------------------------------------------------------------------------
  // The dispatchers' part of a run.

  /** What the dispatchers see of a run: their own steps, and new rows as they are committed. */
  function Seen(p: RetryPolicy, s: Sys, steps: seq<Step>): seq<Dispatch.Step>
    requires ValidRun(p, s, steps)
    decreases |steps|
  {
    if steps == [] then []
    else
      var rest := Seen(p, Apply(p, s, steps[0]), steps[1..]);
      if steps[0].Dispatching? then [steps[0].d] + rest
      else if Announcing(s, steps[0]) then [Dispatch.Ingest(s.ingestion.txs[steps[0].i.t].Row())] + rest
      else rest
  }

  lemma {:induction false} SeenIsRun(p: RetryPolicy, s: Sys, steps: seq<Step>)
    requires Inv(p, s) && ValidRun(p, s, steps)
    ensures Inv(p, After(p, s, steps))
    ensures var seen := Seen(p, s, steps);
            Dispatch.ValidRun(p, s.dispatch, seen) && Dispatch.After(p, s.dispatch, seen) == After(p, s, steps).dispatch
    decreases |steps|
  {
    hide Inv, Enabled, Dispatch.Enabled, Dispatch.Apply, Ingest.Apply, Announcing;
    if steps != [] {
      StepKeepsInv(p, s, steps[0]);
      SeenIsRun(p, Apply(p, s, steps[0]), steps[1..]);
      FirstSeen(p, s, steps[0]);
    }
  }

  lemma FirstSeen(p: RetryPolicy, s: Sys, step: Step)
    requires Inv(p, s) && Enabled(s, step)
    ensures if step.Dispatching?
            then Dispatch.Enabled(s.dispatch, step.d) &&
                 Dispatch.Apply(p, s.dispatch, step.d) == Apply(p, s, step).dispatch
            else if Announcing(s, step)
            then var enter := Dispatch.Ingest(s.ingestion.txs[step.i.t].Row());
                 Dispatch.Enabled(s.dispatch, enter) &&
                 Dispatch.Apply(p, s.dispatch, enter) == Apply(p, s, step).dispatch
            else Apply(p, s, step).dispatch == s.dispatch
  {
    if Announcing(s, step) { NewRowEnters(p, s, step); }
    hide Ingest.Inv, DispatchSafety.Inv, Ingest.Enabled, Ingest.Apply, Dispatch.Enabled, Dispatch.Apply;
  }

  lemma StartIsInv(p: RetryPolicy)
    ensures Inv(p, START)
  {}

  /** Nothing but committed events is ever announced to the broker. */
  lemma OnlyStoredEventsAreSent(p: RetryPolicy, steps: seq<Step>, x: Dispatch.Sending)
    requires ValidRun(p, START, steps) && x in After(p, START, steps).dispatch.log
    ensures var s := After(p, START, steps);
            && x.row in s.dispatch.rows && |s.ingestion.db.events| == |s.ingestion.db.outbox|
            && exists i | 0 <= i < |s.ingestion.db.events| ::
                 && s.ingestion.db.outbox[i].id == x.row
                 && Deserialize(s.dispatch.rows[x.row]) == Some(Ingestion.MessageOf(s.ingestion.db.events[i]))
  {
    StartIsInv(p);
    SeenIsRun(p, START, steps);
    SentRowsExist(p, Seen(p, START, steps), x);
    hide Ingest.Inv, DispatchSafety.Inv, ValidRun, Deserialize;
    var s := After(p, START, steps);
    var i :| 0 <= i < |s.ingestion.db.outbox| && s.ingestion.db.outbox[i].id == x.row;
    assert Announced(s, i);
  }

  /** What is sent is a row of the table. */
  lemma SentRowsExist(p: RetryPolicy, run: seq<Dispatch.Step>, x: Dispatch.Sending)
    requires Dispatch.ValidRun(p, Dispatch.START, run) && x in Dispatch.After(p, Dispatch.START, run).log
    ensures x.row in Dispatch.After(p, Dispatch.START, run).rows
  {
    SentRowsStay(p, Dispatch.START, run, x);
  }

  lemma {:induction false} SentRowsStay(p: RetryPolicy, s: Dispatch.Sys, run: seq<Dispatch.Step>, x: Dispatch.Sending)
    requires DispatchSafety.Inv(p, s) && Dispatch.ValidRun(p, s, run) && x in Dispatch.After(p, s, run).log
    requires x in s.log ==> x.row in s.rows
    ensures x.row in Dispatch.After(p, s, run).rows
    decreases |run|
  {
    hide DispatchSafety.Inv, Dispatch.Enabled, Dispatch.Apply;
    if run != [] {
      DispatchSafety.StepKeepsInv(p, s, run[0]);
      SentRowStays(p, s, run[0], x);
      SentRowsStay(p, Dispatch.Apply(p, s, run[0]), run[1..], x);
    }
  }

  lemma SentRowStays(p: RetryPolicy, s: Dispatch.Sys, d: Dispatch.Step, x: Dispatch.Sending)
    requires DispatchSafety.Inv(p, s) && Dispatch.Enabled(s, d) && (x in s.log ==> x.row in s.rows)
    ensures var s' := Dispatch.Apply(p, s, d); x in s'.log ==> x.row in s'.rows
  {
    hide DispatchSafety.RowsOk, DispatchSafety.EndedOk, DispatchSafety.LogOk, DispatchSafety.SentOk, Deserialize,
         DispatchSafety.Disjoint, DispatchSafety.WorkOk, Dispatch.TxAfter, Distinct;
    if d.Send? { DispatchSafety.TxTaken(p, s.rows, s.log, s.txs, d.t); }
  }

  /**
   * Never lost from end to end: after any run of overlapping ingestions and dispatchers, aborts included,
   * and for any instant from then on, some continuation of the dispatchers publishes every stored event
   * whose row has not died; what it publishes tells of that event and has been sent.
   */
  lemma EveryEventDeliverable(p: RetryPolicy, steps: seq<Step>, start: int, from: int)
    returns (rest: seq<Dispatch.Step>)
    requires ValidRun(p, START, steps)
    requires var seen := Seen(p, START, steps); Dispatch.InTime(seen, start) && Dispatch.LastTime(seen, start) <= from
    ensures var s := After(p, START, steps);
            && Dispatch.ValidRun(p, s.dispatch, rest) && Dispatch.InTime(rest, from)
            && |s.ingestion.db.events| == |s.ingestion.db.outbox|
    ensures var s := After(p, START, steps);
            forall i | 0 <= i < |s.ingestion.db.events| ::
              IsDelivered(p, s.dispatch, Dispatch.After(p, s.dispatch, rest), s.ingestion.db.outbox[i].id,
                          s.ingestion.db.events[i])
  {
    StartIsInv(p);
    SeenIsRun(p, START, steps);
    var run, s := Seen(p, START, steps), After(p, START, steps);
    hide Ingest.Inv, DispatchSafety.Inv, ValidRun, After, Seen, Dispatch.ValidRun, Dispatch.After, IsDelivered,
         DispatchProgress.AllDelivered;
    rest := DispatchProgress.StillDeliverable(p, run, start, from);
    DispatchProgress.RunsCompose(p, Dispatch.START, run, rest);
    forall i | 0 <= i < |s.ingestion.db.events|
      ensures IsDelivered(p, s.dispatch, Dispatch.After(p, s.dispatch, rest), s.ingestion.db.outbox[i].id,
                          s.ingestion.db.events[i])
    {
      assert Announced(s, i);
      var id := s.ingestion.db.outbox[i].id;
      DispatchSafety.SendsConserved(p, run + rest, id);
      RowDelivered(p, s.dispatch, rest, id, s.ingestion.db.events[i]);
    }
  }

  /** Unless the row has died, it is there afterwards, published, sent, and tells of the event. */
  ghost predicate IsDelivered(p: RetryPolicy, before: Dispatch.Sys, after: Dispatch.Sys, id: RowId,
                              e: Ingestion.StoredEvent) {
    && id in before.rows
    && (!Dead(before.rows[id], p) ==>
          && id in after.rows && after.rows[id].status == Published
          && Deserialize(after.rows[id]) == Some(Ingestion.MessageOf(e))
          && DispatchSafety.SendsOf(after.log, id) >= 1)
  }

  lemma RowDelivered(p: RetryPolicy, s: Dispatch.Sys, rest: seq<Dispatch.Step>, id: RowId, e: Ingestion.StoredEvent)
    requires DispatchSafety.Inv(p, s) && Dispatch.ValidRun(p, s, rest) && id in s.rows
    requires Deserialize(s.rows[id]) == Some(Ingestion.MessageOf(e))
    requires var after := Dispatch.After(p, s, rest);
             && DispatchProgress.AllDelivered(p, s.rows, after.rows)
             && (id in after.rows && after.rows[id].status == Published ==> DispatchSafety.SendsOf(after.log, id) >= 1)
    ensures IsDelivered(p, s, Dispatch.After(p, s, rest), id, e)
  {
    MessageStaysOver(p, s, rest, id);
    hide DispatchSafety.Inv, Dispatch.ValidRun, Dispatch.After, Deserialize, DispatchSafety.SendsOf;
  }

  lemma {:induction false} MessageStaysOver(p: RetryPolicy, s: Dispatch.Sys, rest: seq<Dispatch.Step>, id: RowId)
    requires DispatchSafety.Inv(p, s) && Dispatch.ValidRun(p, s, rest) && id in s.rows
    ensures var s' := Dispatch.After(p, s, rest); id in s'.rows && Deserialize(s'.rows[id]) == Deserialize(s.rows[id])
    decreases |rest|
  {
    hide DispatchSafety.Inv, Dispatch.Enabled, Dispatch.Apply, Deserialize;
    if rest != [] {
      DispatchSafety.StepKeepsInv(p, s, rest[0]);
      if rest[0].Ingest? { IngestKeepsOthers(p, s, rest[0], id); } else { MessagesStay(p, s, rest[0], id); }
      MessageStaysOver(p, Dispatch.Apply(p, s, rest[0]), rest[1..], id);
    }
  }

  lemma IngestKeepsOthers(p: RetryPolicy, s: Dispatch.Sys, d: Dispatch.Step, id: RowId)
    requires Dispatch.Enabled(s, d) && d.Ingest? && id in s.rows
    ensures var s' := Dispatch.Apply(p, s, d); id in s'.rows && s'.rows[id] == s.rows[id]
  {}
}
