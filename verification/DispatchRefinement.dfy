/** A batch of the dispatcher is a run of the protocol: one claim, the sends and marks, one commit. */
module DispatchRefinement {
  import opened Prelude
  import opened PythonText
  import opened OutboxRow
  import opened OutboxRepository
  import opened OutboxDispatcher
  import opened DispatchProtocol
  import opened DispatchProgress

  // ---------------------------------------------------------------------------------------------
  // What a batch leaves besides the table, for its first `n` rows.

  ghost predicate Known(rows: map<RowId, OutboxEvent>, b: Batch, n: nat) {
    n <= |b.picked| == |b.outcomes| && forall id | id in b.picked :: id in rows
  }

  /** The rows whose message goes out, in order, as the broker's log records them. */
  function Sendings(t: nat, rows: map<RowId, OutboxEvent>, b: Batch, n: nat): seq<Sending>
    requires Known(rows, b, n)
  {
    if n == 0 then []
    else
      Sendings(t, rows, b, n - 1) +
      if Delivered(rows[b.picked[n - 1]], b.outcomes[n - 1]) then [Sending(t, b.picked[n - 1])] else []
  }

  predicate MarkedThrough(r: OutboxEvent, o: Outcome) {
    Delivered(r, o) && o.marked
  }

  function PublishedOf(rows: map<RowId, OutboxEvent>, b: Batch, n: nat): set<RowId>
    requires Known(rows, b, n)
  {
    set i | 0 <= i < n && MarkedThrough(rows[b.picked[i]], b.outcomes[i]) :: b.picked[i]
  }

  function FailedOf(rows: map<RowId, OutboxEvent>, b: Batch, n: nat): set<RowId>
    requires Known(rows, b, n)
  {
    set i | 0 <= i < n && !MarkedThrough(rows[b.picked[i]], b.outcomes[i]) :: b.picked[i]
  }

  /** The log names, one by one, the rows whose messages the batch sends. */
  lemma {:induction false} SendingsAreSends(t: nat, rows: map<RowId, OutboxEvent>, b: Batch, n: nat)
    requires Known(rows, b, n)
    ensures |Sendings(t, rows, b, n)| == |Sends(rows, b, n)|
    ensures forall k | 0 <= k < |Sends(rows, b, n)| ::
              var x := Sendings(t, rows, b, n)[k];
              x.tx == t && x.row in rows && Deserialize(rows[x.row]) == Some(Sends(rows, b, n)[k])
    decreases n
  {
    hide Deserialize;
    if n > 0 { SendingsAreSends(t, rows, b, n - 1); }
  }

  // ---------------------------------------------------------------------------------------------
  // The transaction of a batch.

  /** The rows a transaction holds, the first `n` of its batch settled and the rest as claimed. */
  ghost predicate WorkIs(u: UnicodeTable, p: RetryPolicy, rows: map<RowId, OutboxEvent>, work: map<RowId, OutboxEvent>,
                         b: Batch, n: nat)
  {
    && b.Valid() && Known(rows, b, n)
    && (forall id :: id in work <==> id in b.picked)
    && (forall i | 0 <= i < |b.picked| ::
          var claimed := Claimed(rows[b.picked[i]], b.now, b.lease);
          work[b.picked[i]] == if i < n then Settled(u, claimed, b.outcomes[i], b.clock[i], p) else claimed)
  }

  /** The transaction itself once `n` rows are dealt with. */
  ghost predicate TxIs(u: UnicodeTable, p: RetryPolicy, rows: map<RowId, OutboxEvent>, tx: Tx, b: Batch, n: nat) {
    && WorkIs(u, p, rows, tx.work, b, n)
    && tx.claimed == b.picked && tx.done == n && tx.stage == Unsent
    && tx.published == PublishedOf(rows, b, n) && tx.failed == FailedOf(rows, b, n)
  }

  /** The state in between: nothing committed yet, the log grown by the sends so far. */
  ghost predicate Underway(u: UnicodeTable, p: RetryPolicy, s0: Sys, s: Sys, t: nat, b: Batch, n: nat) {
    && t in s.txs && t !in s0.txs && TxIs(u, p, s0.rows, s.txs[t], b, n)
    && s.rows == s0.rows && s.txs - {t} == s0.txs && s.ended == s0.ended
    && s.log == s0.log + Sendings(t, s0.rows, b, n)
  }

  lemma ClaimUnderway(u: UnicodeTable, p: RetryPolicy, s: Sys, t: nat, b: Batch, limit: nat)
    requires t !in s.txs && t !in s.ended && b.Valid() && b.picked != []
    requires QueryResult(s.rows, Locked(s.txs), b.now, limit, b.picked)
    ensures var claim := DispatchProtocol.Claim(t, b.now, b.lease, limit, b.picked);
            Enabled(s, claim) && Underway(u, p, s, Apply(p, s, claim), t, b, 0)
  {
    hide Eligible, Claimed, Settled;
    var s' := Apply(p, s, DispatchProtocol.Claim(t, b.now, b.lease, limit, b.picked));
    assert s'.txs - {t} == s.txs;
    assert PublishedOf(s.rows, b, 0) == {} && FailedOf(s.rows, b, 0) == {};
  }

  lemma WorkMovesOn(u: UnicodeTable, p: RetryPolicy, rows: map<RowId, OutboxEvent>, work: map<RowId, OutboxEvent>,
                    b: Batch, n: nat)
    requires WorkIs(u, p, rows, work, b, n) && n < |b.picked|
    ensures var id := b.picked[n];
            WorkIs(u, p, rows, work[id := Settled(u, work[id], b.outcomes[n], b.clock[n], p)], b, n + 1)
  {
    hide Settled, Claimed;
  }

  lemma MarksMoveOn(rows: map<RowId, OutboxEvent>, b: Batch, n: nat)
    requires Known(rows, b, n) && n < |b.picked|
    ensures var id, through := b.picked[n], MarkedThrough(rows[b.picked[n]], b.outcomes[n]);
            && PublishedOf(rows, b, n + 1) == PublishedOf(rows, b, n) + (if through then {id} else {})
            && FailedOf(rows, b, n + 1) == FailedOf(rows, b, n) + (if through then {} else {id})
  {
    hide MarkedThrough;
  }

  /** A claimed row has the message of the row as it was. */
  lemma ClaimedDelivers(r: OutboxEvent, now: int, lease: int, o: Outcome)
    ensures Delivered(Claimed(r, now, lease), o) == Delivered(r, o)
  {}

  /** The mark of one row. */
  function MarkFor(u: UnicodeTable, r: OutboxEvent, o: Outcome, t: nat, at: int): DispatchProtocol.Step {
    if MarkedThrough(r, o) then DispatchProtocol.MarkPublished(t, at)
    else DispatchProtocol.MarkFailed(t, at, SanitizeErrorMessage(u, o.error))
  }

  /** The protocol's mark of a row is the dispatcher's. */
  lemma MarkSettles(u: UnicodeTable, p: RetryPolicy, tx: Tx, o: Outcome, t: nat, at: int)
    requires tx.done < |tx.claimed| && Current(tx) in tx.work
    ensures var id := Current(tx);
            var through := MarkedThrough(tx.work[id], o);
            TxAfter(tx, MarkFor(u, tx.work[id], o, t, at), p) ==
              tx.(work := tx.work[id := Settled(u, tx.work[id], o, at, p)], done := tx.done + 1, stage := Unsent,
                  published := tx.published + (if through then {id} else {}),
                  failed := tx.failed + (if through then {} else {id}))
  {
    hide OutboxRow.MarkedPublished, OutboxRow.MarkedFailed, SanitizeErrorMessage, Delivered;
  }

  lemma TxMovesOn(u: UnicodeTable, p: RetryPolicy, rows: map<RowId, OutboxEvent>, tx: Tx, b: Batch, n: nat, t: nat,
                  stage: Stage)
    requires TxIs(u, p, rows, tx, b, n) && n < |b.picked|
    ensures Current(tx) in tx.work
    ensures var mark := MarkFor(u, tx.work[Current(tx)], b.outcomes[n], t, b.clock[n]);
            TxIs(u, p, rows, TxAfter(tx.(stage := stage), mark, p), b, n + 1)
  {
    hide Settled, Claimed, Delivered, MarkFor, TxAfter, Distinct, PublishedOf, FailedOf;
    MarkSettles(u, p, tx.(stage := stage), b.outcomes[n], t, b.clock[n]);
    WorkMovesOn(u, p, rows, tx.work, b, n);
    MarksMoveOn(rows, b, n);
    ClaimedDelivers(rows[b.picked[n]], b.now, b.lease, b.outcomes[n]);
    hide WorkIs;
  }

  /** What the marks make of the current row is what the dispatcher's batch makes of it. */
  lemma RowUnderway(u: UnicodeTable, p: RetryPolicy, s0: Sys, s: Sys, t: nat, b: Batch, n: nat)
    returns (steps: seq<DispatchProtocol.Step>)
    requires Underway(u, p, s0, s, t, b, n) && n < |b.picked|
    ensures ValidRun(p, s, steps) && Underway(u, p, s0, After(p, s, steps), t, b, n + 1)
  {
    hide Settled, Claimed, Delivered, Distinct, PublishedOf, FailedOf, Sendings;
    var tx := s.txs[t];
    var r, o := tx.work[b.picked[n]], b.outcomes[n];
    var mark := MarkFor(u, r, o, t, b.clock[n]);
    ClaimedDelivers(s0.rows[b.picked[n]], b.now, b.lease, o);
    if Delivered(r, o) {
      var send := DispatchProtocol.Send(t);
      SendUnderway(u, p, s0, s, t, b, n);
      var s1 := Apply(p, s, send);
      MarkUnderway(u, p, s0, s, s1, t, b, n, Unmarked);
      hide Underway, MarkFor, Apply, Enabled;
      OneStep(p, s, send);
      OneStep(p, s1, mark);
      RunsCompose(p, s, [send], [mark]);
      steps := [send] + [mark];
    } else {
      MarkUnderway(u, p, s0, s, s, t, b, n, Unsent);
      hide Underway, MarkFor, Apply, Enabled;
      OneStep(p, s, mark);
      steps := [mark];
    }
  }

  lemma SendUnderway(u: UnicodeTable, p: RetryPolicy, s0: Sys, s: Sys, t: nat, b: Batch, n: nat)
    requires Underway(u, p, s0, s, t, b, n) && n < |b.picked|
    requires Delivered(s.txs[t].work[b.picked[n]], b.outcomes[n])
    ensures Enabled(s, DispatchProtocol.Send(t))
    ensures Apply(p, s, DispatchProtocol.Send(t)) ==
            s.(txs := s.txs[t := s.txs[t].(stage := Unmarked)], log := s.log + [Sending(t, b.picked[n])])
  {
    hide Settled, Claimed, Deserialize, PublishedOf, FailedOf, Sendings, QueryResult, Locked;
  }

  lemma MarkUnderway(u: UnicodeTable, p: RetryPolicy, s0: Sys, s: Sys, s1: Sys, t: nat, b: Batch, n: nat, stage: Stage)
    requires Underway(u, p, s0, s, t, b, n) && n < |b.picked|
    requires s1 == s.(txs := s.txs[t := s.txs[t].(stage := stage)], log := s1.log)
    requires var r, o := s.txs[t].work[b.picked[n]], b.outcomes[n];
             && s1.log == s.log + (if Delivered(r, o) then [Sending(t, b.picked[n])] else [])
             && (Delivered(r, o) ==> stage == Unmarked)
    ensures var mark := MarkFor(u, s.txs[t].work[b.picked[n]], b.outcomes[n], t, b.clock[n]);
            Enabled(s1, mark) && Underway(u, p, s0, Apply(p, s1, mark), t, b, n + 1)
  {
    hide Settled, Claimed, Delivered, TxAfter, Distinct, PublishedOf, FailedOf, QueryResult, Locked, Deserialize,
         SanitizeErrorMessage;
    var tx := s1.txs[t];
    var mark := MarkFor(u, tx.work[b.picked[n]], b.outcomes[n], t, b.clock[n]);
    TxMovesOn(u, p, s0.rows, s.txs[t], b, n, t, stage);
    ClaimedDelivers(s0.rows[b.picked[n]], b.now, b.lease, b.outcomes[n]);
    assert Apply(p, s1, mark) == s1.(txs := s1.txs[t := TxAfter(tx, mark, p)]);
    MinusUpdate(s.txs, t, tx);
    MinusUpdate(s1.txs, t, TxAfter(tx, mark, p));
    hide TxIs;
  }

  lemma MinusUpdate(txs: map<nat, Tx>, t: nat, tx: Tx)
    ensures txs[t := tx] - {t} == txs - {t}
  {}

  lemma Bounded(u: UnicodeTable, p: RetryPolicy, s0: Sys, s: Sys, t: nat, b: Batch, n: nat)
    requires Underway(u, p, s0, s, t, b, n)
    ensures n <= |b.picked|
  {}

  lemma {:induction false} RestUnderway(u: UnicodeTable, p: RetryPolicy, s0: Sys, s: Sys, t: nat, b: Batch, n: nat)
    returns (steps: seq<DispatchProtocol.Step>)
    requires Underway(u, p, s0, s, t, b, n)
    ensures ValidRun(p, s, steps) && Underway(u, p, s0, After(p, s, steps), t, b, |b.picked|)
    decreases |b.picked| - n
  {
    hide Enabled, Apply, WorkIs;
    if n >= |b.picked| {
      Bounded(u, p, s0, s, t, b, n);
      steps := [];
    } else {
      hide Underway;
      var first := RowUnderway(u, p, s0, s, t, b, n);
      var rest := RestUnderway(u, p, s0, After(p, s, first), t, b, n + 1);
      RunsCompose(p, s, first, rest);
      steps := first + rest;
    }
  }

  lemma CommitSettles(u: UnicodeTable, p: RetryPolicy, s0: Sys, s: Sys, t: nat, b: Batch)
    requires Underway(u, p, s0, s, t, b, |b.picked|)
    ensures Enabled(s, DispatchProtocol.Commit(t))
    ensures var s', n := Apply(p, s, DispatchProtocol.Commit(t)), |b.picked|;
            && SettledUpTo(u, s0.rows, s'.rows, b, p, n) && s'.txs == s0.txs
            && s'.log == s0.log + Sendings(t, s0.rows, b, n)
            && s'.ended == s0.ended[t := Committed(PublishedOf(s0.rows, b, n), FailedOf(s0.rows, b, n))]
  {
    hide Settled, Claimed, PublishedOf, FailedOf, Sendings;
  }

  /**
   * In any state with any other transactions open, a batch run alone by the protocol leaves exactly the
   * table that processing the batch leaves, adds exactly the messages it sends to the log, in order, and
   * ends as a commit of the rows it published and failed.
   */
  lemma BatchIsRun(u: UnicodeTable, p: RetryPolicy, s: Sys, t: nat, b: Batch, limit: nat)
    returns (steps: seq<DispatchProtocol.Step>)
    requires t !in s.txs && t !in s.ended && b.Valid() && b.picked != []
    requires QueryResult(s.rows, Locked(s.txs), b.now, limit, b.picked)
    ensures ValidRun(p, s, steps) && Known(s.rows, b, |b.picked|)
    ensures var s', n := After(p, s, steps), |b.picked|;
            && SettledUpTo(u, s.rows, s'.rows, b, p, n) && s'.txs == s.txs
            && s'.log == s.log + Sendings(t, s.rows, b, n)
            && s'.ended == s.ended[t := Committed(PublishedOf(s.rows, b, n), FailedOf(s.rows, b, n))]
  {
    var claim, commit := DispatchProtocol.Claim(t, b.now, b.lease, limit, b.picked), DispatchProtocol.Commit(t);
    ClaimUnderway(u, p, s, t, b, limit);
    hide Enabled, Apply, SettledUpTo, QueryResult, Claimed, Settled, PublishedOf, FailedOf, Sendings;
    OneStep(p, s, claim);
    var open := Apply(p, s, claim);
    var marks := RestUnderway(u, p, s, open, t, b, 0);
    var full := After(p, open, marks);
    CommitSettles(u, p, s, full, t, b);
    OneStep(p, full, commit);
    RunsCompose(p, open, marks, [commit]);
    RunsCompose(p, s, [claim], marks + [commit]);
    steps := [claim] + (marks + [commit]);
  }
}
