/**
 * Ingestion of one security event: the event, its audit rows and its outbox row are written in one
 * transaction. Column widths and unique constraints are those of the PostgreSQL tables.
 */
module Ingestion {
  import opened Prelude
  import opened CorrelationRules
  import opened OutboxRow
  import opened OutboxDispatcher

  /** A command after parsing: the event's fields, with stray blanks removed, and its idempotency key. */
  datatype Submission = Submission(event: SecurityEvent, key: string)

  datatype StoredEvent = StoredEvent(id: EventId, submission: Submission)

  datatype AuditEntry =
    | Persisted(tenantId: string, event: EventId, key: string)
    | UnresolvedAsset(tenantId: string, event: EventId, source: string)
    | Suppressed(tenantId: string, source: string, key: string)

  datatype Db = Db(events: seq<StoredEvent>, outbox: seq<OutboxEvent>, audit: seq<AuditEntry>)

  datatype Reply = Stored(id: EventId) | Duplicate(id: EventId) | Refused

  const SOURCE_WIDTH: nat := 64
  const EVENT_TYPE_WIDTH: nat := 64
  const KEY_WIDTH: nat := 128

  /** The printed length of a tenant identifier. */
  const UUID_LENGTH: nat := 36

  predicate Validated(s: Submission) {
    |s.event.tenantId| == UUID_LENGTH && s.event.source != "" && s.event.eventType != "" && s.key != ""
  }

  /** What the unique constraint on events compares. */
  predicate SameKey(a: Submission, b: Submission) {
    a.event.tenantId == b.event.tenantId && a.event.source == b.event.source && a.key == b.key
  }

  /** The outbox key leaves the source out. */
  function OutboxKey(s: Submission): string {
    "outbox-" + s.event.tenantId + "-" + s.key
  }

  predicate FitsEvents(s: Submission) {
    |s.event.source| <= SOURCE_WIDTH && |s.event.eventType| <= EVENT_TYPE_WIDTH && |s.key| <= KEY_WIDTH
  }

  predicate FitsOutbox(s: Submission) {
    |OutboxKey(s)| <= KEY_WIDTH
  }

  function SeverityName(s: Severity): string {
    match s
    case Info => "INFO"
    case Low => "LOW"
    case Medium => "MEDIUM"
    case High => "HIGH"
    case Critical => "CRITICAL"
  }

  /** The severity a name stands for. */
  function ParseSeverity(name: string): Option<Severity> {
    if name == "INFO" then Some(Info)
    else if name == "LOW" then Some(Low)
    else if name == "MEDIUM" then Some(Medium)
    else if name == "HIGH" then Some(High)
    else if name == "CRITICAL" then Some(Critical)
    else None
  }

  /** The name in a message reads back to the severity of the event. */
  lemma SeverityReadsBack(s: Severity)
    ensures ParseSeverity(SeverityName(s)) == Some(s)
  {}

  function OutboxFor(e: StoredEvent, row: RowId, now: int): OutboxEvent {
    var event := e.submission.event;
    OutboxEvent(row, event.tenantId, e.id, "SecurityEventReceivedEvent",
                Payload(event.tenantId, e.id, event.source, event.eventType, SeverityName(event.severity),
                        event.assetId.Some?, event.assetId),
                OutboxKey(e.submission), Pending, 0, None, now, None, None, None, None)
  }

  function AuditFor(e: StoredEvent): seq<AuditEntry> {
    var event := e.submission.event;
    [Persisted(event.tenantId, e.id, e.submission.key)] +
    if event.assetId.None? then [UnresolvedAsset(event.tenantId, e.id, event.source)] else []
  }

  function SuppressedFor(s: Submission): AuditEntry {
    Suppressed(s.event.tenantId, s.event.source, s.key)
  }

  /** The stored event with the key of a submission. */
  function FindByKey(events: seq<StoredEvent>, s: Submission): (r: Option<nat>)
    ensures r.Some? ==> r.value < |events| && SameKey(events[r.value].submission, s)
    ensures r.None? <==> forall i | 0 <= i < |events| :: !SameKey(events[i].submission, s)
  {
    if events == [] then None
    else
      var n := |events| - 1;
      if SameKey(events[n].submission, s) then Some(n) else FindByKey(events[..n], s)
  }

  predicate OutboxKeyTaken(outbox: seq<OutboxEvent>, s: Submission) {
    exists i | 0 <= i < |outbox| :: outbox[i].tenantId == s.event.tenantId && outbox[i].idempotencyKey == OutboxKey(s)
  }

  /** What handling a submission makes of the database, with the identifiers drawn for the new rows. */
  function Ingested(db: Db, s: Submission, id: EventId, row: RowId, now: int): (Db, Reply) {
    var e := StoredEvent(id, s);
    if !Validated(s) then (db, Refused)
    else
      match FindByKey(db.events, s)
      case Some(i) => (db.(audit := db.audit + [SuppressedFor(s)]), Duplicate(db.events[i].id))
      case None =>
        if FitsEvents(s) && FitsOutbox(s) && !OutboxKeyTaken(db.outbox, s) then
          (Db(db.events + [e], db.outbox + [OutboxFor(e, row, now)], db.audit + AuditFor(e)), Stored(id))
        else (db, Refused)
  }

  /** A database session: what is committed, and what the open transaction sees. */
  class SecurityEventUnitOfWork {
    var db: Db
    var session: Db

    constructor (db: Db)
      ensures this.db == this.session == db
    {
      this.db, this.session := db, db;
    }

    /** The stored event and whether it is new, or nothing if the database refuses the row. */
    method SaveEvent(s: Submission, id: EventId) returns (saved: Option<(StoredEvent, bool)>)
      modifies this`session
      ensures match FindByKey(old(session).events, s)
              case Some(i) => saved == Some((old(session).events[i], false)) && session == old(session)
              case None =>
                if FitsEvents(s)
                then saved == Some((StoredEvent(id, s), true)) &&
                     session == old(session).(events := old(session).events + [StoredEvent(id, s)])
                else saved == None && session == old(session)
    {
      var existing := FindByKey(session.events, s);
      if existing.Some? { return Some((session.events[existing.value], false)); }
      if !FitsEvents(s) { return None; }
      var e := StoredEvent(id, s);
      session := session.(events := session.events + [e]);
      return Some((e, true));
    }

    method SaveLog(entry: AuditEntry)
      modifies this`session
      ensures session == old(session).(audit := old(session).audit + [entry])
    {
      session := session.(audit := session.audit + [entry]);
    }

    method SaveOutbox(s: Submission, row: OutboxEvent) returns (ok: bool)
      modifies this`session
      ensures ok == (FitsOutbox(s) && !OutboxKeyTaken(old(session).outbox, s))
      ensures session == if ok then old(session).(outbox := old(session).outbox + [row]) else old(session)
    {
      ok := FitsOutbox(s) && !OutboxKeyTaken(session.outbox, s);
      if ok { session := session.(outbox := session.outbox + [row]); }
    }

    method Commit()
      modifies this`db
      ensures db == session
    {
      db := session;
    }

    method Rollback()
      modifies this`session
      ensures session == db
    {
      session := db;
    }
  }

  class IngestSecurityEventHandler {
    const uow: SecurityEventUnitOfWork

    constructor (uow: SecurityEventUnitOfWork)
      ensures this.uow == uow
    {
      this.uow := uow;
    }

    method Handle(s: Submission, id: EventId, row: RowId, now: int) returns (reply: Reply)
      requires uow.session == uow.db
      modifies uow
      ensures uow.session == uow.db
      ensures (uow.db, reply) == Ingested(old(uow.db), s, id, row, now)
    {
      if !Validated(s) { return Refused; }
      var saved := uow.SaveEvent(s, id);
      if saved.None? { return Refused; }
      var (e, created) := saved.value;
      if !created {
        uow.SaveLog(SuppressedFor(s));
        uow.Commit();
        return Duplicate(e.id);
      }
      uow.SaveLog(Persisted(s.event.tenantId, e.id, s.key));
      if s.event.assetId.None? {
        uow.SaveLog(UnresolvedAsset(s.event.tenantId, e.id, s.event.source));
      }
      var ok := uow.SaveOutbox(s, OutboxFor(e, row, now));
      if !ok {
        uow.Rollback();
        return Refused;
      }
      assert Reply.Stored(e.id) == Ingested(old(uow.db), s, id, row, now).1;
      assert uow.session.audit == old(uow.db).audit + AuditFor(e);
      uow.Commit();
      return Stored(e.id);
    }
  }

  // ---------------------------------------------------------------------------------------------
  // What the tables always satisfy.

  /** The message that tells of an event. */
  function MessageOf(e: StoredEvent): Message {
    var event := e.submission.event;
    Message(event.tenantId, e.id, event.source, event.eventType, SeverityName(event.severity), event.assetId.Some?,
            event.assetId)
  }

  /** An outbox row announces an event. */
  predicate Announces(row: OutboxEvent, e: StoredEvent) {
    && row.aggregateId == e.id && row.tenantId == e.submission.event.tenantId
    && row.idempotencyKey == OutboxKey(e.submission)
    && Deserialize(row) == Some(MessageOf(e))
  }

  /** A row no dispatcher has touched, which any may claim at once. */
  ghost predicate IsNew(row: OutboxEvent, id: RowId, now: int) {
    && row.id == id && row.createdAt == now && row.status == Pending && row.retryCount == 0
    && row.nextRetryAt == row.publishedAt == row.claimedAt == row.claimExpiresAt == None && row.lastError == None
    && forall t :: Eligible(row, t)
  }

  lemma RowIsNew(e: StoredEvent, row: RowId, now: int)
    ensures IsNew(OutboxFor(e, row, now), row, now)
  {}

  /** A stored submission adds one outbox row, which announces it and can be claimed at any time. */
  lemma StoredRowIsNew(db: Db, s: Submission, id: EventId, row: RowId, now: int)
    requires Ingested(db, s, id, row, now).1.Stored?
    ensures var outbox := Ingested(db, s, id, row, now).0.outbox;
            && |outbox| == |db.outbox| + 1 && outbox[..|db.outbox|] == db.outbox
            && IsNew(outbox[|db.outbox|], row, now) && Announces(outbox[|db.outbox|], StoredEvent(id, s))
  {
    RowIsNew(StoredEvent(id, s), row, now);
  }

  ghost predicate SameOutboxKey(a: OutboxEvent, b: OutboxEvent) {
    a.tenantId == b.tenantId && a.idempotencyKey == b.idempotencyKey
  }

  /**
   * Events and outbox rows match one to one in order, and no identifier, event key or outbox key
   * occurs twice.
   */
  ghost predicate Consistent(db: Db) {
    && |db.events| == |db.outbox|
    && (forall i | 0 <= i < |db.events| :: Announces(db.outbox[i], db.events[i]))
    && (forall i, j | 0 <= i < j < |db.events| :: db.events[i].id != db.events[j].id)
    && (forall i, j | 0 <= i < j < |db.events| :: !SameKey(db.events[i].submission, db.events[j].submission))
    && (forall i, j | 0 <= i < j < |db.outbox| :: !SameOutboxKey(db.outbox[i], db.outbox[j]))
  }

  /** The tenant already has an event with this idempotency key, from whichever source. */
  ghost predicate KeyUsed(db: Db, s: Submission) {
    exists i | 0 <= i < |db.events| ::
      db.events[i].submission.event.tenantId == s.event.tenantId && db.events[i].submission.key == s.key
  }

  /** Within a tenant the outbox key is as good as the idempotency key. */
  lemma OutboxKeyTells(a: Submission, b: Submission)
    requires a.event.tenantId == b.event.tenantId
    ensures OutboxKey(a) == OutboxKey(b) <==> a.key == b.key
  {
    var prefix := "outbox-" + a.event.tenantId + "-";
    assert OutboxKey(a)[|prefix|..] == a.key;
    assert OutboxKey(b)[|prefix|..] == b.key;
  }

  lemma TakenIffUsed(db: Db, s: Submission)
    requires Consistent(db)
    ensures OutboxKeyTaken(db.outbox, s) <==> KeyUsed(db, s)
  {
    hide OutboxKey, SameKey, SameOutboxKey, Deserialize;
    forall i | 0 <= i < |db.events| && db.events[i].submission.event.tenantId == s.event.tenantId
      ensures db.outbox[i].idempotencyKey == OutboxKey(s) <==> db.events[i].submission.key == s.key
    {
      assert Announces(db.outbox[i], db.events[i]);
      OutboxKeyTells(db.events[i].submission, s);
    }
    if i :| 0 <= i < |db.outbox| && db.outbox[i].tenantId == s.event.tenantId &&
            db.outbox[i].idempotencyKey == OutboxKey(s) {
      assert Announces(db.outbox[i], db.events[i]);
    }
    if i :| 0 <= i < |db.events| && db.events[i].submission.event.tenantId == s.event.tenantId &&
            db.events[i].submission.key == s.key {
      assert Announces(db.outbox[i], db.events[i]);
    }
  }

  /**
   * Exactly when a submission is stored, suppressed as a duplicate, or refused: a second source that
   * reuses a tenant's key is refused, and a refusal leaves no trace.
   */
  lemma ReplyExact(db: Db, s: Submission, id: EventId, row: RowId, now: int)
    requires Consistent(db)
    ensures var (db', reply) := Ingested(db, s, id, row, now);
            && (reply.Stored? <==> Validated(s) && FitsEvents(s) && FitsOutbox(s) && !KeyUsed(db, s))
            && (reply.Duplicate? <==>
                  Validated(s) && exists i | 0 <= i < |db.events| :: SameKey(db.events[i].submission, s))
            && (reply.Refused? ==> db' == db)
            && (reply.Duplicate? ==>
                  db' == db.(audit := db.audit + [Suppressed(s.event.tenantId, s.event.source, s.key)]))
  {
    hide Deserialize, OutboxKey;
    TakenIffUsed(db, s);
  }

  /**
   * An idempotency key is storable only up to 84 characters, although keys up to 128 are accepted: the
   * outbox key prefixes 44 characters and its column is no wider.
   */
  lemma StorableKeyLength(s: Submission)
    requires Validated(s)
    ensures FitsOutbox(s) <==> |s.key| <= KEY_WIDTH - 44
  {}

  lemma LongKeysNeverStored(db: Db, s: Submission, id: EventId, row: RowId, now: int)
    requires Validated(s) && |s.key| > 84
    ensures !Ingested(db, s, id, row, now).1.Stored?
  {}

  /** Handling keeps the tables consistent. */
  lemma IngestKeepsConsistent(db: Db, s: Submission, id: EventId, row: RowId, now: int)
    requires Consistent(db) && forall i | 0 <= i < |db.events| :: db.events[i].id != id
    ensures Consistent(Ingested(db, s, id, row, now).0)
  {
    TakenIffUsed(db, s);
    assert Announces(OutboxFor(StoredEvent(id, s), row, now), StoredEvent(id, s));
    hide Announces, OutboxKey;
  }

  /** Once stored, the same submission is ever after a duplicate, and each replay adds one audit row. */
  lemma ReplayAddsAudit(db: Db, s: Submission, id: EventId, row: RowId, now: int,
                        s': Submission, id': EventId, row': RowId, now': int)
    requires Consistent(db) && (forall i | 0 <= i < |db.events| :: db.events[i].id != id)
    requires Ingested(db, s, id, row, now).1.Stored? && SameKey(s, s') && Validated(s')
    ensures var stored := Ingested(db, s, id, row, now).0;
            Ingested(stored, s', id', row', now') ==
              (stored.(audit := stored.audit + [Suppressed(s.event.tenantId, s.event.source, s.key)]), Duplicate(id))
  {}

  /** A key a tenant uses from one source is refused from any other, before and after any retry. */
  lemma SecondSourceRefused(db: Db, i: nat, s: Submission, id: EventId, row: RowId, now: int)
    requires Consistent(db) && i < |db.events|
    requires var first := db.events[i].submission;
             first.event.tenantId == s.event.tenantId && first.key == s.key && first.event.source != s.event.source
    ensures Ingested(db, s, id, row, now) == (db, Refused)
  {}

  /** A tenant has at most one event per idempotency key, whatever the sources. */
  lemma OneEventPerKey(db: Db, i: nat, j: nat)
    requires Consistent(db) && i < |db.events| && j < |db.events|
    requires db.events[i].submission.event.tenantId == db.events[j].submission.event.tenantId
    requires db.events[i].submission.key == db.events[j].submission.key
    ensures i == j
  {}
}
