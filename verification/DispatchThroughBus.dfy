/**
 * The outbox dispatcher and the event bus together: every attempt at a row builds an event with an
 * identifier of its own, and what the bus replies decides whether the row counts as sent.
 */
module DispatchThroughBus {
  import opened Prelude
  import opened PythonText
  import opened OutboxRow
  import opened OutboxDispatcher
  import Bus = KafkaEventBus

  /** The identifier drawn for the event of an attempt, and whether the broker accepts the send. */
  datatype Attempt = Attempt(id: string, accepted: bool)

  /** The bus as a batch finds it. */
  datatype Setup = Setup(state: Bus.State, fallback: bool, listeners: map<string, seq<string>>)

  /** A domain event carries an identifier but no correlation identifier. */
  function CallFor(a: Attempt): Bus.Call {
    Bus.Call(Bus.Event(None, Some(a.id), "SecurityEventReceivedEvent"), a.id, a.accepted)
  }

  /** The rows of a batch with an attempt for each. */
  predicate Fits(rows: map<RowId, OutboxEvent>, picked: seq<RowId>, attempts: seq<Attempt>) {
    |attempts| == |picked| && forall id | id in picked :: id in rows
  }

  /** The bus after the first `n` rows: a row that does not deserialize never reaches it. */
  function BusAfter(s: Setup, rows: map<RowId, OutboxEvent>, picked: seq<RowId>, attempts: seq<Attempt>, n: nat)
    : Bus.State
    requires Fits(rows, picked, attempts) && n <= |picked|
  {
    if n == 0 then s.state
    else
      var before := BusAfter(s, rows, picked, attempts, n - 1);
      if Deserialize(rows[picked[n - 1]]).None? then before
      else Bus.Published(before, s.fallback, s.listeners, CallFor(attempts[n - 1])).0
  }

  function ReplyTo(s: Setup, rows: map<RowId, OutboxEvent>, picked: seq<RowId>, attempts: seq<Attempt>, i: nat)
    : Bus.Reply
    requires Fits(rows, picked, attempts) && i < |picked|
  {
    Bus.Published(BusAfter(s, rows, picked, attempts, i), s.fallback, s.listeners, CallFor(attempts[i])).1
  }

  /** The batch took each reply of the bus for what it is: sent if it returned, not sent if it raised. */
  ghost predicate ThroughBus(s: Setup, rows: map<RowId, OutboxEvent>, b: Batch, attempts: seq<Attempt>) {
    && b.Valid() && Fits(rows, b.picked, attempts)
    && forall i | 0 <= i < |b.picked| && Deserialize(rows[b.picked[i]]).Some? ::
         b.outcomes[i].sent <==> ReplyTo(s, rows, b.picked, attempts, i) == Bus.Returned
  }

  /** Identifiers drawn for the attempts, none of them known to the bus. */
  ghost predicate DrawnFresh(attempts: seq<Attempt>, known: set<string>) {
    && (forall i | 0 <= i < |attempts| :: attempts[i].id != "" && attempts[i].id !in known)
    && (forall i, j | 0 <= i < j < |attempts| :: attempts[i].id != attempts[j].id)
  }

  /** What the bus does with an event it does not know. */
  predicate TakesSends(s: Bus.State) {
    s.useKafka && s.hasProducer
  }

  /** Which rows the first `n` calls of the bus handed to the producer, each with its identifier. */
  function Handed(rows: map<RowId, OutboxEvent>, picked: seq<RowId>, attempts: seq<Attempt>, n: nat)
    : seq<(RowId, string)>
    requires Fits(rows, picked, attempts) && n <= |picked|
  {
    if n == 0 then []
    else
      Handed(rows, picked, attempts, n - 1) +
      if Deserialize(rows[picked[n - 1]]).Some? then [(picked[n - 1], attempts[n - 1].id)] else []
  }

  /** The messages the broker accepted for the first `n` rows, in order. */
  function AcceptedMessages(rows: map<RowId, OutboxEvent>, picked: seq<RowId>, attempts: seq<Attempt>, n: nat)
    : seq<Message>
    requires Fits(rows, picked, attempts) && n <= |picked|
  {
    if n == 0 then []
    else
      var m := Deserialize(rows[picked[n - 1]]);
      AcceptedMessages(rows, picked, attempts, n - 1) +
      if m.Some? && attempts[n - 1].accepted then [m.value] else []
  }

  /** Rows whose send the broker refused. */
  function RefusedSends(rows: map<RowId, OutboxEvent>, picked: seq<RowId>, attempts: seq<Attempt>, n: nat): nat
    requires Fits(rows, picked, attempts) && n <= |picked|
  {
    if n == 0 then 0
    else
      RefusedSends(rows, picked, attempts, n - 1) +
      if Deserialize(rows[picked[n - 1]]).Some? && !attempts[n - 1].accepted then 1 else 0
  }

  function IdsOf(log: seq<(RowId, string)>): (ids: seq<string>)
    ensures |ids| == |log|
  {
    seq(|log|, i requires 0 <= i < |log| => log[i].1)
  }

  // ---------------------------------------------------------------------------------------------
  // One call.

  /** What a call returns and leaves, whatever the identifier and the mode of the bus. */
  lemma OneCall(s: Setup, before: Bus.State, a: Attempt)
    requires a.id != ""
    ensures var (after, reply) := Bus.Published(before, s.fallback, s.listeners, CallFor(a));
            && (reply == Bus.Returned <==>
                  || a.id in before.processed
                  || (if before.useKafka then before.hasProducer && a.accepted else s.fallback))
            && after.useKafka == before.useKafka && after.hasProducer == before.hasProducer
            && after.processed == before.processed + {a.id}
            && after.sent ==
                 if a.id in before.processed || !TakesSends(before) then before.sent else before.sent + [a.id]
  {
    assert a.id in before.processed ==> before.processed + {a.id} == before.processed;
  }

  /** The identifiers the bus knows after some attempts are those it knew and those drawn. */
  lemma {:induction false} KnownAfter(s: Setup, rows: map<RowId, OutboxEvent>, picked: seq<RowId>,
                                      attempts: seq<Attempt>, n: nat)
    requires Fits(rows, picked, attempts) && n <= |picked| && DrawnFresh(attempts, s.state.processed)
    ensures var s' := BusAfter(s, rows, picked, attempts, n);
            && s'.useKafka == s.state.useKafka && s'.hasProducer == s.state.hasProducer
            && (forall i | n <= i < |attempts| :: attempts[i].id !in s'.processed)
  {
    hide Deserialize, Bus.Published;
    if n > 0 {
      KnownAfter(s, rows, picked, attempts, n - 1);
      OneCall(s, BusAfter(s, rows, picked, attempts, n - 1), attempts[n - 1]);
    }
  }

  lemma IdsGrow(log: seq<(RowId, string)>, entry: (RowId, string))
    ensures IdsOf(log + [entry]) == IdsOf(log) + [entry.1]
  {}

  /** Every deserialized row is handed to the producer once, under its own identifier, and in order. */
  lemma {:induction false} EachRowHandedOnce(s: Setup, rows: map<RowId, OutboxEvent>, picked: seq<RowId>,
                                             attempts: seq<Attempt>, n: nat)
    requires Fits(rows, picked, attempts) && n <= |picked| && DrawnFresh(attempts, s.state.processed)
    ensures BusAfter(s, rows, picked, attempts, n).sent ==
              s.state.sent + if TakesSends(s.state) then IdsOf(Handed(rows, picked, attempts, n)) else []
  {
    hide Deserialize, Bus.Published, IdsOf;
    if n == 0 {
      assert IdsOf([]) == [];
    } else {
      EachRowHandedOnce(s, rows, picked, attempts, n - 1);
      KnownAfter(s, rows, picked, attempts, n - 1);
      OneCall(s, BusAfter(s, rows, picked, attempts, n - 1), attempts[n - 1]);
      var before, id := Handed(rows, picked, attempts, n - 1), attempts[n - 1].id;
      IdsGrow(before, (picked[n - 1], id));
      assert before + [] == before;
      assert s.state.sent + IdsOf(before) + [id] == s.state.sent + (IdsOf(before) + [id]);
    }
  }

  // ---------------------------------------------------------------------------------------------
  // What a row's fate says about its send.

  /** A row counts as sent exactly when the bus knew its identifier already or did something with it. */
  lemma DeliveredIff(s: Setup, rows: map<RowId, OutboxEvent>, b: Batch, attempts: seq<Attempt>, i: nat)
    requires ThroughBus(s, rows, b, attempts) && i < |b.picked| && attempts[i].id != ""
    ensures var before := BusAfter(s, rows, b.picked, attempts, i);
            Delivered(rows[b.picked[i]], b.outcomes[i]) <==>
              Deserialize(rows[b.picked[i]]).Some? &&
              (attempts[i].id in before.processed ||
               (if before.useKafka then before.hasProducer && attempts[i].accepted else s.fallback))
  {
    hide Deserialize;
    OneCall(s, BusAfter(s, rows, b.picked, attempts, i), attempts[i]);
  }

  /**
   * With Kafka in use, a row ends published if and only if it deserializes, the broker accepted its send
   * and the mark went through.
   */
  lemma PublishedIffAccepted(u: UnicodeTable, s: Setup, rows: map<RowId, OutboxEvent>, rows': map<RowId, OutboxEvent>,
                             b: Batch, p: RetryPolicy, attempts: seq<Attempt>, i: nat)
    requires ThroughBus(s, rows, b, attempts) && DrawnFresh(attempts, s.state.processed) && TakesSends(s.state)
    requires SettledUpTo(u, rows, rows', b, p, |b.picked|) && i < |b.picked|
    ensures rows'[b.picked[i]].status == Published <==>
              Deserialize(rows[b.picked[i]]).Some? && attempts[i].accepted && b.outcomes[i].marked
  {
    KnownAfter(s, rows, b.picked, attempts, i);
    DeliveredIff(s, rows, b, attempts, i);
    BatchSettlesAll(u, rows, rows', b, p, i);
    hide ThroughBus, SettledUpTo, Delivered, Deserialize;
  }

  /** The messages a batch sends are those the broker accepted, in order. */
  lemma {:induction false} SendsAreAccepted(s: Setup, rows: map<RowId, OutboxEvent>, b: Batch, attempts: seq<Attempt>,
                                            n: nat)
    requires ThroughBus(s, rows, b, attempts) && DrawnFresh(attempts, s.state.processed) && TakesSends(s.state)
    requires n <= |b.picked|
    ensures Sends(rows, b, n) == AcceptedMessages(rows, b.picked, attempts, n)
  {
    hide ThroughBus, Deserialize, DrawnFresh;
    if n > 0 {
      SendsAreAccepted(s, rows, b, attempts, n - 1);
      DeliveredWhenAccepted(s, rows, b, attempts, n - 1);
    }
  }

  lemma DeliveredWhenAccepted(s: Setup, rows: map<RowId, OutboxEvent>, b: Batch, attempts: seq<Attempt>, i: nat)
    requires ThroughBus(s, rows, b, attempts) && DrawnFresh(attempts, s.state.processed) && TakesSends(s.state)
    requires i < |b.picked|
    ensures b.Valid() && Fits(rows, b.picked, attempts)
    ensures Delivered(rows[b.picked[i]], b.outcomes[i]) <==>
              Deserialize(rows[b.picked[i]]).Some? && attempts[i].accepted
  {
    KnownAfter(s, rows, b.picked, attempts, i);
    DeliveredIff(s, rows, b, attempts, i);
  }

  lemma {:induction false} HandedCounts(rows: map<RowId, OutboxEvent>, picked: seq<RowId>, attempts: seq<Attempt>,
                                        n: nat)
    requires Fits(rows, picked, attempts) && n <= |picked|
    ensures |Handed(rows, picked, attempts, n)| ==
            |AcceptedMessages(rows, picked, attempts, n)| + RefusedSends(rows, picked, attempts, n)
  {
    hide Deserialize;
    if n > 0 { HandedCounts(rows, picked, attempts, n - 1); }
  }

  /**
   * Conservation through the bus: what it handed to the producer during a batch are the rows published,
   * those sent and then marked failed, and those whose send was refused.
   */
  lemma BusConservesRows(u: UnicodeTable, s: Setup, rows: map<RowId, OutboxEvent>, rows': map<RowId, OutboxEvent>,
                         b: Batch, p: RetryPolicy, attempts: seq<Attempt>)
    requires ThroughBus(s, rows, b, attempts) && DrawnFresh(attempts, s.state.processed) && TakesSends(s.state)
    requires SettledUpTo(u, rows, rows', b, p, |b.picked|)
    ensures var n := |b.picked|;
            |BusAfter(s, rows, b.picked, attempts, n).sent| ==
              |s.state.sent| + |PublishedIds(rows', b.picked)| + SentButFailed(rows, b, n) +
              RefusedSends(rows, b.picked, attempts, n)
  {
    var n := |b.picked|;
    EachRowHandedOnce(s, rows, b.picked, attempts, n);
    HandedCounts(rows, b.picked, attempts, n);
    SendsAreAccepted(s, rows, b, attempts, n);
    BatchConservesSends(u, rows, rows', b, p, n);
  }

  // ---------------------------------------------------------------------------------------------
  // Retries over any number of batches.

  /**
   * One batch of a run: the rows it found, what it claimed and what happened, the rows it made of them,
   * and whether its transaction committed.
   */
  datatype Round = Round(rows: map<RowId, OutboxEvent>, b: Batch, attempts: seq<Attempt>,
                         settled: map<RowId, OutboxEvent>, committed: bool)
  {
    /** The rows it leaves: an aborted batch leaves those it found, although its sends went out. */
    function Left(): map<RowId, OutboxEvent> {
      if committed then settled else rows
    }
  }

  /** Batches one after the other through one bus; identifiers drawn at random never repeat. */
  ghost predicate ValidRounds(u: UnicodeTable, p: RetryPolicy, s: Setup, rows: map<RowId, OutboxEvent>,
                              rounds: seq<Round>)
    decreases |rounds|
  {
    rounds != [] ==>
      var r := rounds[0];
      && r.rows == rows && ThroughBus(s, rows, r.b, r.attempts) && DrawnFresh(r.attempts, s.state.processed)
      && SettledUpTo(u, rows, r.settled, r.b, p, |r.b.picked|)
      && ValidRounds(u, p, AfterRound(s, r), r.Left(), rounds[1..])
  }

  function AfterRound(s: Setup, r: Round): Setup
    requires Fits(r.rows, r.b.picked, r.attempts)
  {
    s.(state := BusAfter(s, r.rows, r.b.picked, r.attempts, |r.b.picked|))
  }

  ghost function AfterRounds(u: UnicodeTable, p: RetryPolicy, s: Setup, rows: map<RowId, OutboxEvent>,
                             rounds: seq<Round>): Setup
    requires ValidRounds(u, p, s, rows, rounds)
    decreases |rounds|
  {
    if rounds == [] then s else AfterRounds(u, p, AfterRound(s, rounds[0]), rounds[0].Left(), rounds[1..])
  }

  /** Everything the run handed to the producer, each with the row it was for. */
  function HandedIn(rounds: seq<Round>): seq<(RowId, string)>
    requires forall r | r in rounds :: Fits(r.rows, r.b.picked, r.attempts)
    decreases |rounds|
  {
    if rounds == [] then []
    else
      var r := rounds[0];
      Handed(r.rows, r.b.picked, r.attempts, |r.b.picked|) + HandedIn(rounds[1..])
  }

  /** How often a row is in the log. */
  function SendsOf(log: seq<(RowId, string)>, id: RowId): nat {
    if log == [] then 0
    else
      var n := |log| - 1;
      SendsOf(log[..n], id) + if log[n].0 == id then 1 else 0
  }

  /** How often the batches claimed a row. */
  function ClaimsOf(rounds: seq<Round>, id: RowId): nat
    decreases |rounds|
  {
    if rounds == [] then 0 else (if id in rounds[0].b.picked then 1 else 0) + ClaimsOf(rounds[1..], id)
  }

  lemma {:induction false} RoundsFit(u: UnicodeTable, p: RetryPolicy, s: Setup, rows: map<RowId, OutboxEvent>,
                                     rounds: seq<Round>)
    requires ValidRounds(u, p, s, rows, rounds)
    ensures forall r | r in rounds :: Fits(r.rows, r.b.picked, r.attempts)
    decreases |rounds|
  {
    hide Fits, SettledUpTo, DrawnFresh, AfterRound;
    if rounds != [] {
      assert Fits(rows, rounds[0].b.picked, rounds[0].attempts);
      RoundsFit(u, p, AfterRound(s, rounds[0]), rounds[0].Left(), rounds[1..]);
      forall r | r in rounds ensures Fits(r.rows, r.b.picked, r.attempts) {
        assert r == rounds[0] || r in rounds[1..];
      }
    }
  }

  lemma IdsJoin(a: seq<(RowId, string)>, b: seq<(RowId, string)>)
    ensures IdsOf(a + b) == IdsOf(a) + IdsOf(b)
  {}

  lemma {:induction false} SendsOfJoin(a: seq<(RowId, string)>, b: seq<(RowId, string)>, id: RowId)
    ensures SendsOf(a + b, id) == SendsOf(a, id) + SendsOf(b, id)
    decreases |b|
  {
    if b == [] {
      assert a + b == a;
    } else {
      var n := |b| - 1;
      assert (a + b)[..|a + b| - 1] == a + b[..n];
      SendsOfJoin(a, b[..n], id);
    }
  }

  lemma SendsOfMore(log: seq<(RowId, string)>, entry: (RowId, string), id: RowId)
    ensures SendsOf(log + [entry], id) == SendsOf(log, id) + if entry.0 == id then 1 else 0
  {
    assert (log + [entry])[..|log|] == log;
  }

  lemma OnePickMore(picked: seq<RowId>, n: nat, id: RowId)
    requires 0 < n <= |picked| && Distinct(picked)
    ensures id in picked[..n] <==> id in picked[..n - 1] || picked[n - 1] == id
    ensures picked[n - 1] !in picked[..n - 1]
  {
    assert picked[..n] == picked[..n - 1] + [picked[n - 1]];
  }

  /** In one batch a row is handed over once if it was claimed and deserializes. */
  lemma {:induction false} HandedOnce(rows: map<RowId, OutboxEvent>, picked: seq<RowId>, attempts: seq<Attempt>,
                                      n: nat, id: RowId)
    requires Fits(rows, picked, attempts) && n <= |picked| && Distinct(picked)
    ensures SendsOf(Handed(rows, picked, attempts, n), id) ==
              if id in picked[..n] && Deserialize(rows[id]).Some? then 1 else 0
  {
    hide Deserialize, SendsOf, Distinct;
    if n == 0 {
      assert SendsOf([], id) == 0 by { NoSends(id); }
    } else {
      HandedOnce(rows, picked, attempts, n - 1, id);
      OnePickMore(picked, n, id);
      var before := Handed(rows, picked, attempts, n - 1);
      SendsOfMore(before, (picked[n - 1], attempts[n - 1].id), id);
      assert before + [] == before;
    }
  }

  lemma NoSends(id: RowId)
    ensures SendsOf([], id) == 0
  {}

  predicate Sendable(rows: map<RowId, OutboxEvent>, id: RowId) {
    id in rows && Deserialize(rows[id]).Some?
  }

  lemma SettledDeserializes(u: UnicodeTable, rows: map<RowId, OutboxEvent>, rows': map<RowId, OutboxEvent>, b: Batch,
                            p: RetryPolicy, id: RowId)
    requires b.Valid() && SettledUpTo(u, rows, rows', b, p, |b.picked|)
    ensures Sendable(rows', id) == Sendable(rows, id)
  {
    if id in b.picked {
      var i :| 0 <= i < |b.picked| && b.picked[i] == id;
      assert rows'[id] == Settled(u, Claimed(rows[id], b.now, b.lease), b.outcomes[i], b.clock[i], p);
    }
  }

  /**
   * Over any number of batches with Kafka in use, failures, refusals, aborts and retries included: what
   * reached the producer is one send for every claim of a row that deserializes and nothing else, so
   * deduplication never swallows a retry.
   */
  lemma {:induction false} EveryRetryIsSent(u: UnicodeTable, p: RetryPolicy, s: Setup, rows: map<RowId, OutboxEvent>,
                                            rounds: seq<Round>, id: RowId)
    requires ValidRounds(u, p, s, rows, rounds) && TakesSends(s.state)
    ensures forall r | r in rounds :: Fits(r.rows, r.b.picked, r.attempts)
    ensures AfterRounds(u, p, s, rows, rounds).state.sent == s.state.sent + IdsOf(HandedIn(rounds))
    ensures SendsOf(HandedIn(rounds), id) == if Sendable(rows, id) then ClaimsOf(rounds, id) else 0
    decreases |rounds|
  {
    hide Fits, SettledUpTo, DrawnFresh, Sendable, BusAfter, Handed, IdsOf, ThroughBus, AfterRound, SendsOf,
         TakesSends, Distinct;
    RoundsFit(u, p, s, rows, rounds);
    if rounds == [] {
      assert IdsOf([]) == [];
      NoSends(id);
      assert s.state.sent + [] == s.state.sent;
    } else {
      var r, rest := rounds[0], rounds[1..];
      RoundHands(s, r, id);
      SettledDeserializes(u, rows, r.settled, r.b, p, id);
      EveryRetryIsSent(u, p, AfterRound(s, r), r.Left(), rest, id);
      var log := Handed(r.rows, r.b.picked, r.attempts, |r.b.picked|);
      IdsJoin(log, HandedIn(rest));
      SendsOfJoin(log, HandedIn(rest), id);
      SentJoins(s.state.sent, IdsOf(log), IdsOf(HandedIn(rest)));
    }
  }

  lemma SentJoins(a: seq<string>, b: seq<string>, c: seq<string>)
    ensures a + b + c == a + (b + c)
  {}

  lemma RoundHands(s: Setup, r: Round, id: RowId)
    requires ThroughBus(s, r.rows, r.b, r.attempts) && DrawnFresh(r.attempts, s.state.processed)
    requires TakesSends(s.state)
    ensures r.b.Valid() && Fits(r.rows, r.b.picked, r.attempts) && TakesSends(AfterRound(s, r).state)
    ensures var log := Handed(r.rows, r.b.picked, r.attempts, |r.b.picked|);
            && AfterRound(s, r).state.sent == s.state.sent + IdsOf(log)
            && SendsOf(log, id) == if id in r.b.picked && Sendable(r.rows, id) then 1 else 0
  {
    var n := |r.b.picked|;
    KnownAfter(s, r.rows, r.b.picked, r.attempts, n);
    EachRowHandedOnce(s, r.rows, r.b.picked, r.attempts, n);
    HandedOnce(r.rows, r.b.picked, r.attempts, n, id);
    assert r.b.picked[..n] == r.b.picked;
  }
}
