/**
 * Several ingestions at once, each in its own transaction, any of which may stop at any point. A
 * statement reads committed rows and its own. An insert waits while another open transaction holds a
 * rival row, and is undone by its savepoint when the rival is committed.
 */
module ConcurrentIngestion {
  import opened CorrelationRules
  import opened OutboxRow
  import opened Ingestion
  import opened OutboxDispatcher

  datatype Phase = Looking | Inserting | Rechecking | Enqueueing | Ready

  /** An open transaction and the rows it has written so far. */
  datatype Tx = Tx(submission: Submission, id: EventId, row: RowId, now: int, phase: Phase,
                   inserted: bool, enqueued: bool, audit: seq<AuditEntry>)
  {
    function Event(): StoredEvent {
      StoredEvent(id, submission)
    }

    function Row(): OutboxEvent {
      OutboxFor(Event(), row, now)
    }
  }

  datatype Sys = Sys(db: Db, txs: map<nat, Tx>)

  datatype Step =
    | Begin(t: nat, submission: Submission, id: EventId, row: RowId, now: int)
    | Found(t: nat)
    | NotFound(t: nat)
    | InsertEvent(t: nat)
    | InsertConflict(t: nat)
    | InsertOutbox(t: nat)
    | Commit(t: nat)
    | Abort(t: nat)

  predicate At(s: Sys, t: nat, phase: Phase) {
    t in s.txs && s.txs[t].phase == phase
  }

  /** A committed event has the key of the submission. */
  ghost predicate Known(s: Sys, sub: Submission) {
    exists i | 0 <= i < |s.db.events| :: SameKey(s.db.events[i].submission, sub)
  }

  /** Another open transaction has inserted an event with the same key. */
  predicate EventRival(txs: map<nat, Tx>, t: nat, u: nat) {
    t in txs && u in txs && u != t && txs[u].inserted && SameKey(txs[u].submission, txs[t].submission)
  }

  /** Another open transaction has inserted an outbox row with the same key. */
  predicate OutboxRival(txs: map<nat, Tx>, t: nat, u: nat) {
    t in txs && u in txs && u != t && txs[u].enqueued &&
    txs[u].submission.event.tenantId == txs[t].submission.event.tenantId &&
    OutboxKey(txs[u].submission) == OutboxKey(txs[t].submission)
  }

  /** Identifiers are drawn at random and never repeat. */
  ghost predicate FreshId(s: Sys, id: EventId) {
    && (forall i | 0 <= i < |s.db.events| :: s.db.events[i].id != id)
    && (forall t | t in s.txs :: s.txs[t].id != id)
  }

  ghost predicate Enabled(s: Sys, step: Step) {
    match step
    case Begin(t, sub, id, row, now) => t !in s.txs && Validated(sub) && FreshId(s, id)
    case Found(t) => (At(s, t, Looking) || At(s, t, Rechecking)) && Known(s, s.txs[t].submission)
    case NotFound(t) => At(s, t, Looking) && !Known(s, s.txs[t].submission)
    case InsertEvent(t) =>
      At(s, t, Inserting) && FitsEvents(s.txs[t].submission) && !Known(s, s.txs[t].submission) &&
      forall u :: !EventRival(s.txs, t, u)
    case InsertConflict(t) => At(s, t, Inserting) && Known(s, s.txs[t].submission)
    case InsertOutbox(t) =>
      At(s, t, Enqueueing) && FitsOutbox(s.txs[t].submission) &&
      !OutboxKeyTaken(s.db.outbox, s.txs[t].submission) && forall u :: !OutboxRival(s.txs, t, u)
    case Commit(t) => At(s, t, Ready)
    case Abort(t) => t in s.txs
  }

  function TxAfter(tx: Tx, step: Step): Tx {
    match step
    case Found(_) => tx.(phase := Ready, audit := [SuppressedFor(tx.submission)])
    case NotFound(_) => tx.(phase := Inserting)
    case InsertEvent(_) => tx.(phase := Enqueueing, inserted := true, audit := AuditFor(tx.Event()))
    case InsertConflict(_) => tx.(phase := Rechecking)
    case InsertOutbox(_) => tx.(phase := Ready, enqueued := true)
    case _ => tx
  }

  /** The database with a transaction's rows added. */
  function Merged(db: Db, tx: Tx): Db {
    Db(db.events + (if tx.inserted then [tx.Event()] else []),
       db.outbox + (if tx.enqueued then [tx.Row()] else []),
       db.audit + tx.audit)
  }

  function Apply(s: Sys, step: Step): Sys
    requires Enabled(s, step)
  {
    match step
    case Begin(t, sub, id, row, now) =>
      s.(txs := s.txs[t := Tx(sub, id, row, now, Looking, false, false, [])])
    case Commit(t) => Sys(Merged(s.db, s.txs[t]), s.txs - {t})
    case Abort(t) => s.(txs := s.txs - {t})
    case _ => s.(txs := s.txs[step.t := TxAfter(s.txs[step.t], step)])
  }

  ghost predicate ValidRun(s: Sys, steps: seq<Step>)
    decreases |steps|
  {
    steps != [] ==> Enabled(s, steps[0]) && ValidRun(Apply(s, steps[0]), steps[1..])
  }

  function After(s: Sys, steps: seq<Step>): Sys
    requires ValidRun(s, steps)
    decreases |steps|
  {
    if steps == [] then s else After(Apply(s, steps[0]), steps[1..])
  }

  const START: Sys := Sys(Db([], [], []), map[])

  // ---------------------------------------------------------------------------------------------
  // The invariant.

  /** What a transaction has written goes with how far it is, and clashes with nothing committed. */
  ghost predicate TxOk(db: Db, tx: Tx) {
    && (tx.enqueued ==> tx.inserted && tx.phase == Ready)
    && (tx.inserted <==> tx.phase == Enqueueing || (tx.phase == Ready && tx.enqueued))
    && (forall i | 0 <= i < |db.events| :: db.events[i].id != tx.id)
    && (tx.inserted ==> forall i | 0 <= i < |db.events| :: !SameKey(db.events[i].submission, tx.submission))
    && (tx.enqueued ==> forall i | 0 <= i < |db.outbox| :: !SameOutboxKey(db.outbox[i], tx.Row()))
    && (if tx.inserted then tx.audit == AuditFor(tx.Event())
        else tx.audit == if tx.phase == Ready then [SuppressedFor(tx.submission)] else [])
  }

  ghost predicate TxsOk(db: Db, txs: map<nat, Tx>) {
    forall t | t in txs :: TxOk(db, txs[t])
  }

  /** Open transactions clash neither in identifiers nor in what they hold. */
  ghost predicate NoClash(txs: map<nat, Tx>) {
    forall t, u | t in txs && u in txs && t != u :: Apart(txs[t], txs[u])
  }

  ghost predicate Apart(a: Tx, b: Tx) {
    && a.id != b.id
    && !(a.inserted && b.inserted && SameKey(a.submission, b.submission))
    && !(a.enqueued && b.enqueued && SameOutboxKey(a.Row(), b.Row()))
  }

  ghost predicate Inv(s: Sys) {
    Consistent(s.db) && TxsOk(s.db, s.txs) && NoClash(s.txs)
  }

  lemma TxTaken(db: Db, txs: map<nat, Tx>, t: nat)
    requires TxsOk(db, txs) && t in txs
    ensures TxOk(db, txs[t])
  {}

  lemma TxReplaced(db: Db, txs: map<nat, Tx>, t: nat, tx: Tx)
    requires TxsOk(db, txs) && TxOk(db, tx)
    ensures TxsOk(db, txs[t := tx])
  {}

  lemma ClashFree(txs: map<nat, Tx>, t: nat, tx: Tx)
    requires NoClash(txs) && forall u | u in txs && u != t :: Apart(txs[u], tx) && Apart(tx, txs[u])
    ensures NoClash(txs[t := tx])
  {}

  lemma BeginKeepsInv(s: Sys, step: Step)
    requires Inv(s) && Enabled(s, step) && step.Begin?
    ensures Inv(Apply(s, step))
  {}

  lemma AdvanceKeepsInv(s: Sys, step: Step)
    requires Inv(s) && Enabled(s, step) && !step.Begin? && !step.Commit? && !step.Abort?
    ensures Inv(Apply(s, step))
  {
    hide Consistent, TxsOk, NoClash, TxOk, TxAfter;
    var tx := s.txs[step.t];
    TxTaken(s.db, s.txs, step.t);
    TxAdvances(s, step);
    AdvanceIsApart(s, step);
    TxReplaced(s.db, s.txs, step.t, TxAfter(tx, step));
    ClashFree(s.txs, step.t, TxAfter(tx, step));
  }

  lemma TxAdvances(s: Sys, step: Step)
    requires Enabled(s, step) && !step.Begin? && !step.Commit? && !step.Abort? && TxOk(s.db, s.txs[step.t])
    ensures TxOk(s.db, TxAfter(s.txs[step.t], step))
  {}

  lemma AdvanceIsApart(s: Sys, step: Step)
    requires Enabled(s, step) && !step.Begin? && !step.Commit? && !step.Abort? && NoClash(s.txs)
    ensures forall u | u in s.txs && u != step.t ::
              Apart(s.txs[u], TxAfter(s.txs[step.t], step)) && Apart(TxAfter(s.txs[step.t], step), s.txs[u])
  {
    forall u | u in s.txs && u != step.t
      ensures Apart(s.txs[u], TxAfter(s.txs[step.t], step)) && Apart(TxAfter(s.txs[step.t], step), s.txs[u])
    {
      assert Apart(s.txs[u], s.txs[step.t]) && Apart(s.txs[step.t], s.txs[u]);
      if step.InsertEvent? { assert !EventRival(s.txs, step.t, u); }
      if step.InsertOutbox? { assert !OutboxRival(s.txs, step.t, u); }
      hide OutboxKey, AuditFor;
    }
  }

  lemma FewerTxs(db: Db, txs: map<nat, Tx>, t: nat)
    requires TxsOk(db, txs) && NoClash(txs)
    ensures TxsOk(db, txs - {t}) && NoClash(txs - {t})
  {}

  lemma AbortKeepsInv(s: Sys, step: Step)
    requires Inv(s) && Enabled(s, step) && step.Abort?
    ensures Inv(Apply(s, step))
  {}

  lemma CommitKeepsInv(s: Sys, step: Step)
    requires Inv(s) && Enabled(s, step) && step.Commit?
    ensures Inv(Apply(s, step))
  {
    hide Consistent, TxsOk, NoClash, TxOk, Merged;
    var tx := s.txs[step.t];
    TxTaken(s.db, s.txs, step.t);
    MergedConsistent(s.db, tx);
    FewerTxs(s.db, s.txs, step.t);
    CommitKeepsOthers(s, step.t);
  }

  lemma MergedConsistent(db: Db, tx: Tx)
    requires Consistent(db) && TxOk(db, tx) && tx.phase == Ready
    ensures Consistent(Merged(db, tx))
  {
    assert Announces(tx.Row(), tx.Event());
    hide Announces, OutboxKey, AuditFor;
  }

  lemma CommitKeepsOthers(s: Sys, t: nat)
    requires TxsOk(s.db, s.txs) && NoClash(s.txs) && t in s.txs
    ensures TxsOk(Merged(s.db, s.txs[t]), s.txs - {t})
  {
    forall u | u in s.txs && u != t ensures TxOk(Merged(s.db, s.txs[t]), s.txs[u]) {
      assert TxOk(s.db, s.txs[u]) && TxOk(s.db, s.txs[t]);
      assert Apart(s.txs[u], s.txs[t]) && Apart(s.txs[t], s.txs[u]);
      hide NoClash, OutboxKey, AuditFor;
    }
  }

  lemma StepKeepsInv(s: Sys, step: Step)
    requires Inv(s) && Enabled(s, step)
    ensures Inv(Apply(s, step))
  {
    hide Inv, Enabled, Apply;
    match step
    case Begin(_, _, _, _, _) => BeginKeepsInv(s, step);
    case Commit(_) => CommitKeepsInv(s, step);
    case Abort(_) => AbortKeepsInv(s, step);
    case _ => AdvanceKeepsInv(s, step);
  }

  lemma {:induction false} RunKeepsInv(s: Sys, steps: seq<Step>)
    requires Inv(s) && ValidRun(s, steps)
    ensures Inv(After(s, steps))
    decreases |steps|
  {
    hide Inv, Enabled, Apply;
    if steps != [] {
      StepKeepsInv(s, steps[0]);
      RunKeepsInv(Apply(s, steps[0]), steps[1..]);
    }
  }

  /**
   * After any run of overlapping ingestions, any of them aborted anywhere: the committed events and
   * the committed outbox rows match one to one by aggregate identifier, each row's message names its
   * event, and a tenant has at most one event per idempotency key.
   */
  lemma EventsMatchOutbox(steps: seq<Step>)
    requires ValidRun(START, steps)
    ensures var db := After(START, steps).db;
            && |db.events| == |db.outbox|
            && (forall i | 0 <= i < |db.events| :: Announces(db.outbox[i], db.events[i]))
            && (forall i, j | 0 <= i < |db.events| && 0 <= j < |db.outbox| &&
                              db.outbox[j].aggregateId == db.events[i].id :: i == j)
            && (forall i, j | 0 <= i < j < |db.events| :: !SameKey(db.events[i].submission, db.events[j].submission))
  {
    RunKeepsInv(START, steps);
    hide Deserialize, SameKey, SameOutboxKey, OutboxKey;
    var db := After(START, steps).db;
    forall i, j | 0 <= i < |db.events| && 0 <= j < |db.outbox| && db.outbox[j].aggregateId == db.events[i].id
      ensures i == j
    {
      assert Announces(db.outbox[j], db.events[j]);
    }
  }

  /**
   * The audit table tells the story: each event was recorded as persisted, exactly those without an asset
   * as unresolved, and nothing was recorded of any other event.
   */
  ghost predicate AuditTells(db: Db) {
    && (forall i | 0 <= i < |db.events| :: Told(db.audit, db.events[i]))
    && (forall a | a in db.audit && !a.Suppressed? :: OfEvent(db.events, a))
  }

  predicate Told(audit: seq<AuditEntry>, e: StoredEvent) {
    var s := e.submission;
    && Persisted(s.event.tenantId, e.id, s.key) in audit
    && (UnresolvedAsset(s.event.tenantId, e.id, s.event.source) in audit <==> s.event.assetId.None?)
  }

  ghost predicate OfEvent(events: seq<StoredEvent>, a: AuditEntry)
    requires !a.Suppressed?
  {
    exists i | 0 <= i < |events| :: events[i].id == a.event
  }

  /** Entries of other events change nothing for an event. */
  lemma ToldStays(audit: seq<AuditEntry>, more: seq<AuditEntry>, e: StoredEvent)
    requires Told(audit, e) && forall a | a in more && !a.Suppressed? :: a.event != e.id
    ensures Told(audit + more, e)
  {}

  lemma NewIsTold(events: seq<StoredEvent>, audit: seq<AuditEntry>, e: StoredEvent)
    requires forall a | a in audit && !a.Suppressed? :: OfEvent(events, a)
    requires forall i | 0 <= i < |events| :: events[i].id != e.id
    ensures Told(audit + AuditFor(e), e) && forall a | a in AuditFor(e) :: !a.Suppressed? && a.event == e.id
  {
    var s := e.submission;
    assert AuditFor(e)[0] == Persisted(s.event.tenantId, e.id, s.key);
    if s.event.assetId.None? {
      assert AuditFor(e)[1] == UnresolvedAsset(s.event.tenantId, e.id, s.event.source);
    }
  }

  lemma OfMoreEvents(events: seq<StoredEvent>, e: StoredEvent, a: AuditEntry)
    requires !a.Suppressed? && (a.event == e.id || OfEvent(events, a))
    ensures OfEvent(events + [e], a)
  {
    if a.event == e.id {
      assert (events + [e])[|events|] == e;
    } else {
      var i :| 0 <= i < |events| && events[i].id == a.event;
      assert (events + [e])[i] == events[i];
    }
  }

  lemma EventTells(db: Db, outbox: seq<OutboxEvent>, e: StoredEvent)
    requires AuditTells(db) && forall i | 0 <= i < |db.events| :: db.events[i].id != e.id
    ensures AuditTells(Db(db.events + [e], outbox, db.audit + AuditFor(e)))
  {
    NewIsTold(db.events, db.audit, e);
    hide Told, OfEvent, AuditFor;
    forall i | 0 <= i < |db.events| ensures Told(db.audit + AuditFor(e), db.events[i]) {
      ToldStays(db.audit, AuditFor(e), db.events[i]);
    }
    forall a | a in db.audit + AuditFor(e) && !a.Suppressed? ensures OfEvent(db.events + [e], a) {
      OfMoreEvents(db.events, e, a);
    }
  }

  lemma SuppressionTells(db: Db, s: Submission)
    requires AuditTells(db)
    ensures AuditTells(db.(audit := db.audit + [SuppressedFor(s)]))
  {
    hide Told, OfEvent;
    forall i | 0 <= i < |db.events| ensures Told(db.audit + [SuppressedFor(s)], db.events[i]) {
      ToldStays(db.audit, [SuppressedFor(s)], db.events[i]);
    }
  }

  lemma CommitTells(s: Sys, step: Step)
    requires Inv(s) && Enabled(s, step) && step.Commit? && AuditTells(s.db)
    ensures AuditTells(Apply(s, step).db)
  {
    var tx := s.txs[step.t];
    TxTaken(s.db, s.txs, step.t);
    CommitAddsAllOrAudit(s, step);
    TxIsFresh(s.db, tx);
    hide *;
    if tx.inserted {
      EventTells(s.db, s.db.outbox + [tx.Row()], tx.Event());
    } else {
      SuppressionTells(s.db, tx.submission);
    }
  }

  lemma TxIsFresh(db: Db, tx: Tx)
    requires TxOk(db, tx)
    ensures forall i | 0 <= i < |db.events| :: db.events[i].id != tx.Event().id
  {}

  lemma {:induction false} AuditStaysTold(s: Sys, steps: seq<Step>)
    requires Inv(s) && AuditTells(s.db) && ValidRun(s, steps)
    ensures AuditTells(After(s, steps).db)
    decreases |steps|
  {
    hide Inv, AuditTells, Enabled, Apply;
    if steps != [] {
      StepKeepsInv(s, steps[0]);
      if steps[0].Commit? { CommitTells(s, steps[0]); } else { OnlyCommitsWrite(s, steps[0]); }
      AuditStaysTold(Apply(s, steps[0]), steps[1..]);
    }
  }

  lemma OnlyCommitsWrite(s: Sys, step: Step)
    requires Enabled(s, step) && !step.Commit?
    ensures Apply(s, step).db == s.db
  {}

  lemma AuditTrail(steps: seq<Step>)
    requires ValidRun(START, steps)
    ensures AuditTells(After(START, steps).db)
  {
    AuditStaysTold(START, steps);
  }

  /**
   * A committed handling either adds one event with its audit rows and its outbox row, or finds the
   * event already committed and adds one audit row; an aborted one adds nothing.
   */
  lemma CommitAddsAllOrAudit(s: Sys, step: Step)
    requires Inv(s) && Enabled(s, step)
    ensures var db' := Apply(s, step).db;
            if !step.Commit? then db' == s.db
            else
              var tx := s.txs[step.t];
              if tx.inserted then
                db' == Db(s.db.events + [tx.Event()], s.db.outbox + [tx.Row()], s.db.audit + AuditFor(tx.Event()))
              else
                db' == s.db.(audit := s.db.audit + [SuppressedFor(tx.submission)])
  {}
}
