/**
 * One batch of the outbox dispatcher: claim, then for each claimed row deserialize, publish and mark.
 * What the publisher and the database answer for each row comes in as a parameter.
 */
module OutboxDispatcher {
  import opened Prelude
  import opened PythonText
  import opened OutboxRow
  import opened OutboxRepository
  import TimeBucket

  /** The domain event built from a row. Its own fresh identifier is left to the event bus. */
  datatype Message = Message(tenantId: string, securityEventId: string, source: string, eventType: string,
                             severity: string, isAssetResolved: bool, assetId: Option<string>)

  /** What happens to one row: whether the send succeeds, whether marking it then does, and the error text. */
  datatype Outcome = Outcome(sent: bool, marked: bool, error: string)

  const SECRET_WORDS: seq<string> := ["password", "token", "secret", "api_key", "bearer"]

  const HIDDEN_ERROR: string := "[REDACTED ERROR MESSAGE]"

  function Deserialize(r: OutboxEvent): Option<Message> {
    if r.eventType == "SecurityEventReceivedEvent" && r.payload.Payload? then
      var p := r.payload;
      Some(Message(p.tenantId, p.securityEventId, p.source, p.eventType, p.severity, p.isAssetResolved, p.assetId))
    else None
  }

  predicate MentionsSecret(u: UnicodeTable, message: string) {
    exists word | word in SECRET_WORDS :: Contains(Lower(u, message), word)
  }

  function SanitizeErrorMessage(u: UnicodeTable, message: string): (safe: string)
    ensures |safe| <= 1024
  {
    if MentionsSecret(u, Truncated(message)) then HIDDEN_ERROR else Truncated(message)
  }

  predicate Delivered(r: OutboxEvent, o: Outcome) {
    Deserialize(r).Some? && o.sent
  }

  /** The messages one row brings to the broker. */
  function Sent(r: OutboxEvent, o: Outcome): seq<Message> {
    if Delivered(r, o) then [Deserialize(r).value] else []
  }

  /** A claimed row once it has been dealt with. */
  function Settled(u: UnicodeTable, r: OutboxEvent, o: Outcome, at: int, p: RetryPolicy): OutboxEvent {
    if Delivered(r, o) && o.marked then MarkedPublished(r, at)
    else MarkedFailed(r, at, SanitizeErrorMessage(u, o.error), p)
  }

  /** A batch: what was claimed when, and what then happened to each row and when. */
  datatype Batch = Batch(now: int, lease: int, picked: seq<RowId>, outcomes: seq<Outcome>, clock: seq<int>) {
    ghost predicate Valid() {
      |outcomes| == |clock| == |picked| && Distinct(picked)
    }
  }

  /** The messages sent for the first `n` rows, in order. */
  function Sends(rows: map<RowId, OutboxEvent>, b: Batch, n: nat): seq<Message>
    requires n <= |b.picked| == |b.outcomes| && forall id | id in b.picked :: id in rows
  {
    if n == 0 then []
    else
      Sends(rows, b, n - 1) + Sent(rows[b.picked[n - 1]], b.outcomes[n - 1])
  }

  /** The table once `n` rows of the batch are dealt with. */
  ghost predicate SettledUpTo(u: UnicodeTable, rows: map<RowId, OutboxEvent>, rows': map<RowId, OutboxEvent>,
                              b: Batch, p: RetryPolicy, n: nat)
    requires b.Valid()
  {
    && n <= |b.picked| && rows'.Keys == rows.Keys
    && (forall id | id in b.picked :: id in rows)
    && (forall id | id in rows && id !in b.picked :: rows'[id] == rows[id])
    && (forall i | 0 <= i < |b.picked| ::
          var claimed := Claimed(rows[b.picked[i]], b.now, b.lease);
          rows'[b.picked[i]] == if i < n then Settled(u, claimed, b.outcomes[i], b.clock[i], p) else claimed)
  }

  function PublishedIds(rows: map<RowId, OutboxEvent>, ids: seq<RowId>): set<RowId> {
    set id | id in ids && id in rows && rows[id].status == Published
  }

  /** Every row is stored under its identifier. */
  ghost predicate Keyed(rows: map<RowId, OutboxEvent>) {
    forall id | id in rows :: rows[id].id == id
  }

  /** The state of a batch once `n` rows are dealt with: table, messages sent so far, result so far. */
  ghost predicate Progress(u: UnicodeTable, rows: map<RowId, OutboxEvent>, table: map<RowId, OutboxEvent>,
                           sends: seq<Message>, processed: nat, b: Batch, p: RetryPolicy, n: nat)
  {
    && b.Valid() && Keyed(rows) && SettledUpTo(u, rows, table, b, p, n)
    && sends == Sends(rows, b, n) && processed == |PublishedIds(table, b.picked)|
  }

  lemma NothingSettled(u: UnicodeTable, rows: map<RowId, OutboxEvent>, locked: set<RowId>, limit: nat, b: Batch,
                       p: RetryPolicy)
    requires b.Valid() && Keyed(rows) && QueryResult(rows, locked, b.now, limit, b.picked)
    ensures forall id | id in b.picked :: id in rows
    ensures Progress(u, rows, ClaimedTable(rows, b.picked, b.now, b.lease), [], 0, b, p, 0)
  {}

  lemma AllSettled(u: UnicodeTable, rows: map<RowId, OutboxEvent>, table: map<RowId, OutboxEvent>,
                   sends: seq<Message>, processed: nat, b: Batch, p: RetryPolicy)
    requires Progress(u, rows, table, sends, processed, b, p, |b.picked|)
    ensures b.Valid() && (forall id | id in b.picked :: id in rows)
    ensures SettledUpTo(u, rows, table, b, p, |b.picked|)
    ensures sends == Sends(rows, b, |b.picked|) && processed == |PublishedIds(table, b.picked)|
  {}

  /** Where the batch has not got to yet, a row is as the claim left it. */
  lemma ClaimedEntities(rows: map<RowId, OutboxEvent>, table: map<RowId, OutboxEvent>, b: Batch)
    requires table == ClaimedTable(rows, b.picked, b.now, b.lease) && forall id | id in b.picked :: id in rows
    ensures forall i | 0 <= i < |b.picked| ::
              Entity(table[b.picked[i]]) == Entity(Claimed(rows[b.picked[i]], b.now, b.lease))
  {}

  lemma NextClaimed(u: UnicodeTable, rows: map<RowId, OutboxEvent>, table: map<RowId, OutboxEvent>,
                    sends: seq<Message>, processed: nat, b: Batch, p: RetryPolicy, n: nat)
    requires Progress(u, rows, table, sends, processed, b, p, n) && n < |b.picked|
    ensures |b.outcomes| == |b.clock| == |b.picked| && (forall id | id in b.picked :: id in rows)
    ensures b.picked[n] in table && table[b.picked[n]] == Claimed(rows[b.picked[n]], b.now, b.lease)
    ensures Entity(table[b.picked[n]]).id == b.picked[n]
    ensures Deserialize(Entity(table[b.picked[n]])) == Deserialize(table[b.picked[n]])
  {}

  lemma PublishedGrows(table: map<RowId, OutboxEvent>, ids: seq<RowId>, id: RowId, row: OutboxEvent)
    requires id in ids && id in table && table[id].status != Published
    ensures |PublishedIds(table[id := row], ids)| ==
            |PublishedIds(table, ids)| + if row.status == Published then 1 else 0
  {
    assert PublishedIds(table[id := row], ids) ==
      PublishedIds(table, ids) + if row.status == Published then {id} else {};
  }

  lemma SettleNext(u: UnicodeTable, rows: map<RowId, OutboxEvent>, table: map<RowId, OutboxEvent>, b: Batch,
                   p: RetryPolicy, n: nat)
    requires b.Valid() && SettledUpTo(u, rows, table, b, p, n) && n < |b.picked|
    ensures var id := b.picked[n];
            id in table &&
            SettledUpTo(u, rows, table[id := Settled(u, table[id], b.outcomes[n], b.clock[n], p)], b, p, n + 1)
  {
    hide Settled, Claimed;
  }

  lemma RowSettled(u: UnicodeTable, rows: map<RowId, OutboxEvent>, table: map<RowId, OutboxEvent>,
                   sends: seq<Message>, processed: nat, b: Batch, p: RetryPolicy, n: nat)
    requires Progress(u, rows, table, sends, processed, b, p, n) && n < |b.picked|
    ensures var id, o := b.picked[n], b.outcomes[n];
            id in table &&
            var row := Settled(u, table[id], o, b.clock[n], p);
            Progress(u, rows, table[id := row],
                     sends + Sent(table[id], o), processed + if row.status == Published then 1 else 0, b, p, n + 1)
  {
    SettleNext(u, rows, table, b, p, n);
    NextClaimed(u, rows, table, sends, processed, b, p, n);
    var id := b.picked[n];
    assert table[id].status != Published;
    assert Sent(table[id], b.outcomes[n]) == Sent(rows[id], b.outcomes[n]);
    hide Settled, Claimed, Keyed, SettledUpTo, Deserialize, PublishedIds, Entity;
    PublishedGrows(table, b.picked, id, Settled(u, table[id], b.outcomes[n], b.clock[n], p));
  }

  class OutboxDispatcher {
    const outbox: PostgresOutboxRepository
    const policy: RetryPolicy
    const unicode: UnicodeTable
    var sent: seq<Message>

    constructor (outbox: PostgresOutboxRepository, policy: RetryPolicy, unicode: UnicodeTable)
      ensures this.outbox == outbox && this.policy == policy && this.unicode == unicode && sent == []
    {
      this.outbox, this.policy, this.unicode, sent := outbox, policy, unicode, [];
    }

    /** Publishes and marks one claimed row. */
    method Dispatch(row: OutboxEvent, o: Outcome, at: int) returns (published: bool)
      requires row.id in outbox.rows
      requires Deserialize(row) == Deserialize(outbox.rows[row.id])
      modifies this`sent, outbox
      ensures outbox.rows == old(outbox.rows)[row.id := Settled(unicode, old(outbox.rows)[row.id], o, at, policy)]
      ensures sent == old(sent) + Sent(old(outbox.rows)[row.id], o)
      ensures published <==> outbox.rows[row.id].status == Published
    {
      hide SanitizeErrorMessage, Deserialize;
      published := false;
      var message := Deserialize(row);
      if message.Some? && o.sent {
        sent := sent + [message.value];
        if o.marked {
          outbox.MarkPublished(row.id, at);
          return true;
        }
      }
      outbox.MarkFailed(row.id, at, SanitizeErrorMessage(unicode, o.error), policy);
    }

    /** Every claimed row ends published or failed, and the result counts the published ones. */
    method ProcessOutboxBatch(b: Batch, limit: nat, locked: set<RowId>) returns (processed: nat)
      requires b.Valid() && Keyed(outbox.rows) && QueryResult(outbox.rows, locked, b.now, limit, b.picked)
      modifies this`sent, outbox
      ensures SettledUpTo(unicode, old(outbox.rows), outbox.rows, b, policy, |b.picked|)
      ensures sent == old(sent) + Sends(old(outbox.rows), b, |b.picked|)
      ensures processed == |PublishedIds(outbox.rows, b.picked)|
    {
      hide *;
      ghost var rows := outbox.rows;
      ghost var before := sent;
      NothingSettled(unicode, rows, locked, limit, b, policy);
      var claimed := outbox.FetchPendingAndClaim(b.now, limit, b.lease, locked, b.picked);
      assert sent[|before|..] == [];
      if claimed == [] {
        AllSettled(unicode, rows, outbox.rows, [], 0, b, policy);
        return 0;
      }
      ClaimedEntities(rows, outbox.rows, b);
      processed := 0;
      for n := 0 to |claimed|
        invariant before <= sent
        invariant Progress(unicode, rows, outbox.rows, sent[|before|..], processed, b, policy, n)
      {
        NextClaimed(unicode, rows, outbox.rows, sent[|before|..], processed, b, policy, n);
        RowSettled(unicode, rows, outbox.rows, sent[|before|..], processed, b, policy, n);
        ghost var row, earlier := outbox.rows[b.picked[n]], sent;
        var published := Dispatch(claimed[n], b.outcomes[n], b.clock[n]);
        assert sent[|before|..] == earlier[|before|..] + Sent(row, b.outcomes[n]);
        if published { processed := processed + 1; }
      }
      AllSettled(unicode, rows, outbox.rows, sent[|before|..], processed, b, policy);
    }
  }

  // ---------------------------------------------------------------------------------------------
  // What a batch guarantees.

  /** The rows whose message went out although marking them published then failed. */
  function SentButFailed(rows: map<RowId, OutboxEvent>, b: Batch, n: nat): nat
    requires n <= |b.picked| == |b.outcomes| && forall id | id in b.picked :: id in rows
  {
    if n == 0 then 0
    else
      SentButFailed(rows, b, n - 1) +
      if Delivered(rows[b.picked[n - 1]], b.outcomes[n - 1]) && !b.outcomes[n - 1].marked then 1 else 0
  }

  /**
   * A batch leaves no claimed row in processing; a row is published exactly when its message was
   * sent and the mark went through, and the message sent for it is its own.
   */
  lemma BatchSettlesAll(u: UnicodeTable, rows: map<RowId, OutboxEvent>, rows': map<RowId, OutboxEvent>, b: Batch,
                        p: RetryPolicy, i: nat)
    requires b.Valid() && SettledUpTo(u, rows, rows', b, p, |b.picked|) && i < |b.picked|
    ensures var r, r' := rows[b.picked[i]], rows'[b.picked[i]];
            && (r'.status == Published || r'.status == Failed)
            && (r'.status == Published <==> Delivered(r, b.outcomes[i]) && b.outcomes[i].marked)
            && (r'.status == Failed ==> r'.retryCount > r.retryCount)
            && (r'.status == Published ==> Deserialize(r).value in Sends(rows, b, |b.picked|))
  {
    assert rows[b.picked[i]].id == rows'[b.picked[i]].id;
    if Delivered(rows[b.picked[i]], b.outcomes[i]) { SentForRow(rows, b, i, |b.picked|); }
  }

  lemma {:induction false} SentForRow(rows: map<RowId, OutboxEvent>, b: Batch, i: nat, n: nat)
    requires i < n <= |b.picked| == |b.outcomes| && forall id | id in b.picked :: id in rows
    requires Delivered(rows[b.picked[i]], b.outcomes[i])
    ensures Deserialize(rows[b.picked[i]]).value in Sends(rows, b, n)
    decreases n
  {
    hide Delivered, Deserialize;
    if i < n - 1 { SentForRow(rows, b, i, n - 1); }
  }

  /** What a row records once it has been dealt with at some time, with some error. */
  predicate Records(u: UnicodeTable, r: OutboxEvent, r': OutboxEvent, at: int, error: string, p: RetryPolicy) {
    && (r'.status == Published ==> r'.publishedAt == Some(at) && r'.lastError == r.lastError)
    && (r'.status == Failed ==>
          && r'.publishedAt == r.publishedAt && r'.lastError == Some(SanitizeErrorMessage(u, error))
          && r'.retryCount > 0
          && r'.nextRetryAt == if r'.retryCount >= p.maxRetries then None
                               else Some(at + p.backoff * Pow2(r'.retryCount - 1) * TimeBucket.SECOND))
    && r'.id == r.id && r'.tenantId == r.tenantId && r'.aggregateId == r.aggregateId
    && r'.eventType == r.eventType && r'.payload == r.payload
    && r'.idempotencyKey == r.idempotencyKey && r'.createdAt == r.createdAt
  }

  lemma RowRecords(u: UnicodeTable, r: OutboxEvent, o: Outcome, at: int, p: RetryPolicy, now: int, lease: int)
    ensures Records(u, r, Settled(u, Claimed(r, now, lease), o, at, p), at, o.error, p)
  {
    hide MentionsSecret, Pow2, Deserialize;
  }

  /**
   * What a settled row records: when it was published, or the error with its secrets hidden and when to
   * try again; and it is still the row of the same event.
   */
  lemma BatchRecords(u: UnicodeTable, rows: map<RowId, OutboxEvent>, rows': map<RowId, OutboxEvent>, b: Batch,
                     p: RetryPolicy, i: nat)
    requires b.Valid() && SettledUpTo(u, rows, rows', b, p, |b.picked|) && i < |b.picked|
    ensures Records(u, rows[b.picked[i]], rows'[b.picked[i]], b.clock[i], b.outcomes[i].error, p)
  {
    hide Settled, Claimed, Records;
    RowRecords(u, rows[b.picked[i]], b.outcomes[i], b.clock[i], p, b.now, b.lease);
  }

  /** A row of another event type, or whose body does not deserialize, is never sent and ends failed. */
  lemma OtherRowsFail(u: UnicodeTable, rows: map<RowId, OutboxEvent>, rows': map<RowId, OutboxEvent>, b: Batch,
                      p: RetryPolicy, i: nat)
    requires b.Valid() && SettledUpTo(u, rows, rows', b, p, |b.picked|) && i < |b.picked|
    requires var r := rows[b.picked[i]]; r.eventType != "SecurityEventReceivedEvent" || r.payload.Malformed?
    ensures rows'[b.picked[i]].status == Failed && Sent(rows[b.picked[i]], b.outcomes[i]) == []
  {
    hide MentionsSecret, Pow2;
    BatchSettlesAll(u, rows, rows', b, p, i);
  }

  /** Every message sent is accounted for: the rows published, and those sent and then marked failed. */
  lemma {:induction false} BatchConservesSends(u: UnicodeTable, rows: map<RowId, OutboxEvent>, rows': map<RowId,
                                               OutboxEvent>,
                                               b: Batch, p: RetryPolicy, n: nat)
    requires b.Valid() && SettledUpTo(u, rows, rows', b, p, n)
    ensures |Sends(rows, b, n)| == |PublishedIds(rows', b.picked)| + SentButFailed(rows, b, n)
    decreases n
  {
    hide Settled, Claimed, Delivered, PublishedIds, Deserialize;
    if n == 0 {
      NonePublished(u, rows, rows', b, p);
    } else {
      var id := b.picked[n - 1];
      var before := Claimed(rows[id], b.now, b.lease);
      PublishedIff(u, rows[id], b, p, n - 1);
      UnsettleLast(u, rows, rows', b, p, n);
      hide SettledUpTo, Distinct;
      BatchConservesSends(u, rows, rows'[id := before], b, p, n - 1);
      PublishedGrows(rows'[id := before], b.picked, id, rows'[id]);
    }
  }

  lemma NonePublished(u: UnicodeTable, rows: map<RowId, OutboxEvent>, rows': map<RowId, OutboxEvent>, b: Batch,
                      p: RetryPolicy)
    requires b.Valid() && SettledUpTo(u, rows, rows', b, p, 0)
    ensures PublishedIds(rows', b.picked) == {}
  {}

  lemma PublishedIff(u: UnicodeTable, r: OutboxEvent, b: Batch, p: RetryPolicy, i: nat)
    requires b.Valid() && i < |b.picked|
    ensures var row := Settled(u, Claimed(r, b.now, b.lease), b.outcomes[i], b.clock[i], p);
            row.status == Published <==> Delivered(r, b.outcomes[i]) && b.outcomes[i].marked
    ensures Claimed(r, b.now, b.lease).status != Published
  {}

  lemma UnsettleLast(u: UnicodeTable, rows: map<RowId, OutboxEvent>, rows': map<RowId, OutboxEvent>, b: Batch,
                     p: RetryPolicy, n: nat)
    requires b.Valid() && SettledUpTo(u, rows, rows', b, p, n) && n > 0
    ensures var id, before := b.picked[n - 1], Claimed(rows[b.picked[n - 1]], b.now, b.lease);
            && SettledUpTo(u, rows, rows'[id := before], b, p, n - 1)
            && id in rows' && rows'[id := before][id := rows'[id]] == rows'
            && rows'[id] == Settled(u, before, b.outcomes[n - 1], b.clock[n - 1], p)
  {}

  // ---------------------------------------------------------------------------------------------
  // The error text kept with a failed row.

  ghost predicate PairAt(s: string, first: char, second: char) {
    exists i: nat :: i + 1 < |s| && s[i] == first && s[i + 1] == second
  }

  lemma MentionNeedsPair(s: string, word: string)
    requires |word| >= 2 && Contains(s, word)
    ensures PairAt(s, word[0], word[1])
  {}

  lemma HiddenErrorIsSafe(u: UnicodeTable)
    ensures !MentionsSecret(u, HIDDEN_ERROR)
  {
    hide Lower, Contains, PairAt;
    LowerKeepsPlaces(u, HIDDEN_ERROR);
    var text := "[redacted error message]";
    assert Lower(u, HIDDEN_ERROR) == text;
    if word :| word in SECRET_WORDS && Contains(text, word) {
      MentionNeedsPair(text, word);
      NoPairs();
      NoOtherPairs();
      assert false;
    }
  }

  lemma NoPairs()
    ensures var text := "[redacted error message]";
            !PairAt(text, 'p', 'a') && !PairAt(text, 't', 'o') && !PairAt(text, 's', 'e')
  {}

  lemma NoOtherPairs()
    ensures var text := "[redacted error message]"; !PairAt(text, 'a', 'p') && !PairAt(text, 'b', 'e')
  {}

  /** For ASCII texts: a secret word stands somewhere in the text, in any mix of case. */
  lemma MentionsSecretIff(u: UnicodeTable, message: string)
    requires IsAscii(message)
    ensures MentionsSecret(u, message) <==>
      || FoundIn(message, "password") || FoundIn(message, "token") || FoundIn(message, "secret")
      || FoundIn(message, "api_key") || FoundIn(message, "bearer")
  {
    hide FoundIn, Contains, Lower;
    forall word | word in SECRET_WORDS ensures Contains(Lower(u, message), word) <==> FoundIn(message, word) {
      LowerContainsIff(u, message, word);
    }
    assert SECRET_WORDS[0] == "password" && SECRET_WORDS[1] == "token" && SECRET_WORDS[2] == "secret";
    assert SECRET_WORDS[3] == "api_key" && SECRET_WORDS[4] == "bearer";
  }

  /** The error text kept mentions no secret word, and is the cut message exactly when that mentions none. */
  lemma SanitizedErrorIs(u: UnicodeTable, message: string)
    ensures var safe := SanitizeErrorMessage(u, message);
            && |safe| <= 1024 && !MentionsSecret(u, safe)
            && (safe == Truncated(message) <==> !MentionsSecret(u, Truncated(message)))
  {
    hide MentionsSecret;
    HiddenErrorIsSafe(u);
  }

  /** No error text stored by a batch mentions a secret word, in any case. */
  lemma NoSecretStored(u: UnicodeTable, rows: map<RowId, OutboxEvent>, rows': map<RowId, OutboxEvent>, b: Batch,
                       p: RetryPolicy, i: nat)
    requires b.Valid() && SettledUpTo(u, rows, rows', b, p, |b.picked|) && i < |b.picked|
    requires rows'[b.picked[i]].status == Failed
    ensures rows'[b.picked[i]].lastError.Some? && !MentionsSecret(u, rows'[b.picked[i]].lastError.value)
  {
    hide MentionsSecret;
    HiddenErrorIsSafe(u);
  }
}
