/** What the consumer's trace of processings, offset commits and restarts always looks like. */
module OffsetCommits {
  import opened Prelude
  import opened CorrelationRules
  import opened CorrelationStore
  import opened CorrelationGrouping
  import opened CorrelationConsumer

  // ---------------------------------------------------------------------------------------------
  // What the broker delivers.

  /** A place in the log of a partition. Offsets may have gaps, where nothing is delivered. */
  datatype Place = Place(partition: Partition, offset: nat)

  /** The messages of all partitions, each fixed at its offset; a poll sees any stretch that is there by then. */
  type Log = map<Place, Message>

  ghost predicate NothingBetween(log: Log, p: Partition, from: nat, to: nat) {
    forall n | from <= n < to :: Place(p, n) !in log
  }

  /** The messages are those of the log from an offset on, none left out. */
  ghost predicate IsSlice(log: Log, p: Partition, messages: seq<Polled>, from: nat)
    decreases |messages|
  {
    messages != [] ==>
      var m := messages[0];
      && from <= m.offset && NothingBetween(log, p, from, m.offset)
      && Place(p, m.offset) in log && log[Place(p, m.offset)] == m.message
      && IsSlice(log, p, messages[1..], m.offset + 1)
  }

  /** One poll: no partition twice, of each a slice of its log from the fetch position. */
  ghost predicate ValidPoll(log: Log, position: map<Partition, nat>, parts: seq<Part>) {
    && (forall i, j | 0 <= i < j < |parts| :: parts[i].partition != parts[j].partition)
    && (forall i | 0 <= i < |parts| ::
          IsSlice(log, parts[i].partition, parts[i].messages, At(position, parts[i].partition)))
  }

  ghost predicate ValidLoop(log: Log, c: Consumer, polls: seq<seq<Part>>)
    decreases |polls|
  {
    polls != [] && c.running ==>
      ValidPoll(log, c.position, polls[0]) && ValidLoop(log, PollOnce(c, polls[0]), polls[1..])
  }

  /** The consumer's life: sessions, each begun by a start that fetches from the committed offsets. */
  ghost predicate ValidLife(log: Log, c: Consumer, sessions: seq<seq<seq<Part>>>)
    decreases |sessions|
  {
    sessions != [] ==>
      ValidLoop(log, Restart(c), sessions[0]) && ValidLife(log, Session(c, sessions[0]), sessions[1..])
  }

  function Live(c: Consumer, sessions: seq<seq<seq<Part>>>): Consumer
    decreases |sessions|
  {
    if sessions == [] then c else Live(Session(c, sessions[0]), sessions[1..])
  }

  /** Offsets rise from the given one on. */
  ghost predicate Rising(messages: seq<Polled>, from: nat) {
    && (forall i | 0 <= i < |messages| :: from <= messages[i].offset)
    && (forall i, j | 0 <= i < j < |messages| :: messages[i].offset < messages[j].offset)
  }

  lemma {:induction false} SliceRises(log: Log, p: Partition, messages: seq<Polled>, from: nat)
    requires IsSlice(log, p, messages, from)
    ensures Rising(messages, from)
    decreases |messages|
  {
    hide NothingBetween;
    if messages != [] {
      SliceRises(log, p, messages[1..], messages[0].offset + 1);
      assert forall i | 1 <= i < |messages| :: messages[i] == messages[1..][i - 1];
    }
  }

  ghost predicate RisingPoll(position: map<Partition, nat>, parts: seq<Part>) {
    && (forall i, j | 0 <= i < j < |parts| :: parts[i].partition != parts[j].partition)
    && (forall i | 0 <= i < |parts| :: Rising(parts[i].messages, At(position, parts[i].partition)))
  }

  lemma PollRises(log: Log, position: map<Partition, nat>, parts: seq<Part>)
    requires ValidPoll(log, position, parts)
    ensures RisingPoll(position, parts)
  {
    hide IsSlice, Rising;
    forall i | 0 <= i < |parts| ensures Rising(parts[i].messages, At(position, parts[i].partition)) {
      SliceRises(log, parts[i].partition, parts[i].messages, At(position, parts[i].partition));
    }
  }

  // ---------------------------------------------------------------------------------------------
  // What the trace satisfies.

  /** A commit directly follows the success it confirms. */
  predicate CommitOk(trace: seq<Action>, i: nat)
    requires i < |trace|
  {
    trace[i].Committed? ==>
      i > 0 && trace[i - 1].Processed? && trace[i - 1].ok &&
      trace[i - 1].partition == trace[i].partition && trace[i - 1].offset + 1 == trace[i].next
  }

  predicate SameSession(trace: seq<Action>, i: nat, j: nat) {
    forall r | i < r < j && r < |trace| :: trace[r] != Restarted
  }

  /** Nothing is processed below a commit made before it, and within a session offsets rise. */
  predicate PairOk(trace: seq<Action>, i: nat, j: nat)
    requires i < j < |trace|
  {
    trace[j].Processed? ==>
      && (trace[i].Committed? && trace[i].partition == trace[j].partition ==> trace[i].next <= trace[j].offset)
      && (trace[i].Processed? && trace[i].partition == trace[j].partition && SameSession(trace, i, j) ==>
            trace[i].offset < trace[j].offset)
  }

  ghost predicate TraceOk(trace: seq<Action>) {
    && (forall i | 0 <= i < |trace| :: CommitOk(trace, i))
    && (forall i, j | 0 <= i < j < |trace| :: PairOk(trace, i, j))
  }

  /** Every commit of the partition, and every offset processed in this session, is below the bound. */
  ghost predicate Below(trace: seq<Action>, p: Partition, bound: nat) {
    forall i | 0 <= i < |trace| :: BelowAt(trace, i, p, bound)
  }

  predicate BelowAt(trace: seq<Action>, i: nat, p: Partition, bound: nat)
    requires i < |trace|
  {
    && (trace[i].Committed? && trace[i].partition == p ==> trace[i].next <= bound)
    && (trace[i].Processed? && trace[i].partition == p && SameSession(trace, i, |trace|) ==> trace[i].offset < bound)
  }

  function LastCommit(trace: seq<Action>, p: Partition): nat {
    if trace == [] then 0
    else
      var n := |trace| - 1;
      if trace[n].Committed? && trace[n].partition == p then trace[n].next else LastCommit(trace[..n], p)
  }

  ghost predicate CommittedOk(c: Consumer) {
    forall p :: At(c.committed, p) == LastCommit(c.trace, p)
  }

  ghost predicate Positioned(c: Consumer) {
    forall p :: Below(c.trace, p, At(c.position, p))
  }

  ghost predicate Inv(c: Consumer) {
    TraceOk(c.trace) && CommittedOk(c) && Positioned(c)
  }

  // ---------------------------------------------------------------------------------------------
  // The trace grows at its end.

  lemma SameSessionGrows(trace: seq<Action>, a: Action, i: nat, j: nat)
    requires i < |trace| && j <= |trace|
    ensures SameSession(trace + [a], i, j) == SameSession(trace, i, j)
    ensures SameSession(trace + [a], i, |trace| + 1) == (SameSession(trace, i, |trace|) && a != Restarted)
  {
    var trace' := trace + [a];
    assert forall r | 0 <= r < |trace| :: trace'[r] == trace[r];
    assert trace'[|trace|] == a;
  }

  lemma PairsGrow(trace: seq<Action>, a: Action)
    requires TraceOk(trace) && (a.Processed? ==> Below(trace, a.partition, a.offset)) && CommitOk(trace + [a], |trace|)
    ensures TraceOk(trace + [a])
  {
    var trace' := trace + [a];
    forall i | 0 <= i < |trace'| ensures CommitOk(trace', i) {
      if i < |trace| { assert CommitOk(trace, i); }
    }
    forall i, j | 0 <= i < j < |trace'| ensures PairOk(trace', i, j) {
      SameSessionGrows(trace, a, i, if j < |trace| then j else |trace|);
      if j < |trace| {
        assert PairOk(trace, i, j);
      } else if a.Processed? {
        assert BelowAt(trace, i, a.partition, a.offset);
      }
    }
  }

  lemma BelowGrows(trace: seq<Action>, a: Action, p: Partition, bound: nat)
    requires Below(trace, p, bound)
    requires a.Processed? && a.partition == p ==> a.offset < bound
    requires a.Committed? && a.partition == p ==> a.next <= bound
    ensures Below(trace + [a], p, bound)
  {
    var trace' := trace + [a];
    forall i | 0 <= i < |trace'| ensures BelowAt(trace', i, p, bound) {
      if i < |trace| {
        assert BelowAt(trace, i, p, bound);
        SameSessionGrows(trace, a, i, i);
      }
    }
  }

  lemma LastCommitGrows(trace: seq<Action>, a: Action, p: Partition)
    ensures LastCommit(trace + [a], p) == if a.Committed? && a.partition == p then a.next else LastCommit(trace, p)
  {}

  // ---------------------------------------------------------------------------------------------
  // Handling keeps the trace in order.

  /** What handling leaves for later: a bound above everything handled stays one. */
  ghost predicate KeepsBounds(trace: seq<Action>, trace': seq<Action>, p: Partition, messages: seq<Polled>) {
    forall q, b | Below(trace, q, b) && (q == p ==> forall m | m in messages :: m.offset < b) :: Below(trace', q, b)
  }

  lemma HandleKeeps(c: Consumer, p: Partition, m: Polled)
    requires TraceOk(c.trace) && CommittedOk(c) && Below(c.trace, p, m.offset)
    ensures var c' := Handle(c, p, m);
            TraceOk(c'.trace) && CommittedOk(c') && KeepsBounds(c.trace, c'.trace, p, [m])
  {
    hide TraceOk, Below;
    var c' := Handle(c, p, m);
    var a, b := Done(p, m), Committed(p, m.offset + 1);
    var trace1 := c.trace + [a];
    assert CommitOk(trace1, |c.trace|);
    PairsGrow(c.trace, a);
    if Succeeds(m) && m.accepted {
      assert CommitOk(trace1 + [b], |trace1|);
      PairsGrow(trace1, b);
    }
    forall q ensures At(c'.committed, q) == LastCommit(c'.trace, q) {
      assert At(c.committed, q) == LastCommit(c.trace, q);
      LastCommitGrows(c.trace, a, q);
      LastCommitGrows(trace1, b, q);
    }
    forall q, bound | Below(c.trace, q, bound) && (q == p ==> m.offset < bound) ensures Below(c'.trace, q, bound) {
      BelowGrows(c.trace, a, q, bound);
      BelowGrows(trace1, b, q, bound);
    }
    assert m in [m];
  }

  lemma {:induction false} HandleAllKeeps(c: Consumer, p: Partition, messages: seq<Polled>)
    requires TraceOk(c.trace) && CommittedOk(c) && Rising(messages, 0)
    requires forall m | m in messages :: Below(c.trace, p, m.offset)
    ensures var c' := HandleAll(c, p, messages);
            && TraceOk(c'.trace) && CommittedOk(c') && KeepsBounds(c.trace, c'.trace, p, messages)
            && c'.position == c.position
    decreases |messages|
  {
    hide TraceOk, Below, CommittedOk, Handle;
    if messages != [] && c.running && !c.raised {
      var m, rest := messages[0], messages[1..];
      HandleKeeps(c, p, m);
      var c1 := Handle(c, p, m);
      HandleMoves(c, p, m);
      forall x | x in rest ensures Below(c1.trace, p, x.offset) {
        assert x in messages && m.offset < x.offset;
      }
      HandleAllKeeps(c1, p, rest);
      var c' := HandleAll(c1, p, rest);
      forall q, b | Below(c.trace, q, b) && (q == p ==> forall x | x in messages :: x.offset < b)
        ensures Below(c'.trace, q, b)
      {
        assert m in messages;
        assert Below(c1.trace, q, b);
      }
    }
  }

  lemma HandleMoves(c: Consumer, p: Partition, m: Polled)
    ensures Handle(c, p, m).position == c.position
  {}

  ghost predicate PartsBelow(trace: seq<Action>, parts: seq<Part>) {
    forall i, m | 0 <= i < |parts| && m in parts[i].messages :: Below(trace, parts[i].partition, m.offset)
  }

  ghost predicate Before(parts: seq<Part>, q: Partition, bound: nat) {
    forall i, m | 0 <= i < |parts| && parts[i].partition == q && m in parts[i].messages :: m.offset < bound
  }

  lemma {:induction false} HandlePartsKeeps(c: Consumer, parts: seq<Part>)
    requires TraceOk(c.trace) && CommittedOk(c) && PartsBelow(c.trace, parts)
    requires forall i, j | 0 <= i < j < |parts| :: parts[i].partition != parts[j].partition
    requires forall i | 0 <= i < |parts| :: Rising(parts[i].messages, 0)
    ensures var c' := HandleParts(c, parts);
            && TraceOk(c'.trace) && CommittedOk(c') && c'.position == c.position
            && (forall q, b | Below(c.trace, q, b) && Before(parts, q, b) :: Below(c'.trace, q, b))
    decreases |parts|
  {
    hide TraceOk, Below, CommittedOk, HandleAll, Rising;
    if parts != [] {
      var p, messages, rest := parts[0].partition, parts[0].messages, parts[1..];
      HandleAllKeeps(c, p, messages);
      var c1 := HandleAll(c, p, messages);
      forall i, m | 0 <= i < |rest| && m in rest[i].messages ensures Below(c1.trace, rest[i].partition, m.offset) {
        assert m in parts[i + 1].messages;
      }
      HandlePartsKeeps(c1, rest);
      var c' := HandleParts(c1, rest);
      forall q, b | Below(c.trace, q, b) && Before(parts, q, b) ensures Below(c'.trace, q, b) {
        assert Below(c1.trace, q, b);
        assert Before(rest, q, b);
      }
    }
  }

  /** The fetch position after one partition's messages are taken. */
  function FetchedOne(position: map<Partition, nat>, part: Part): map<Partition, nat> {
    var ms := part.messages;
    if ms == [] then position else position[part.partition := ms[|ms| - 1].offset + 1]
  }

  lemma RestRises(position: map<Partition, nat>, parts: seq<Part>)
    requires RisingPoll(position, parts) && parts != []
    ensures RisingPoll(FetchedOne(position, parts[0]), parts[1..])
    ensures forall q :: At(position, q) <= At(FetchedOne(position, parts[0]), q)
    ensures forall m | m in parts[0].messages :: m.offset < At(FetchedOne(position, parts[0]), parts[0].partition)
  {}

  lemma {:induction false} FetchedBeyond(position: map<Partition, nat>, parts: seq<Part>)
    requires RisingPoll(position, parts)
    ensures forall q :: At(position, q) <= At(Fetched(position, parts), q)
    ensures forall q :: Before(parts, q, At(Fetched(position, parts), q))
    decreases |parts|
  {
    if parts != [] {
      var position' := FetchedOne(position, parts[0]);
      RestRises(position, parts);
      FetchedBeyond(position', parts[1..]);
      assert Fetched(position, parts) == Fetched(position', parts[1..]);
      hide RisingPoll, FetchedOne, Fetched;
      forall q ensures Before(parts, q, At(Fetched(position', parts[1..]), q)) {
        assert Before(parts[1..], q, At(Fetched(position', parts[1..]), q));
        assert At(position', q) <= At(Fetched(position', parts[1..]), q);
      }
    }
  }

  lemma BelowMonotone(trace: seq<Action>, p: Partition, b: nat, b': nat)
    requires Below(trace, p, b) && b <= b'
    ensures Below(trace, p, b')
  {
    forall i | 0 <= i < |trace| ensures BelowAt(trace, i, p, b') { assert BelowAt(trace, i, p, b); }
  }

  lemma PollKeepsInv(log: Log, c: Consumer, parts: seq<Part>)
    requires Inv(c) && ValidPoll(log, c.position, parts)
    ensures Inv(PollOnce(c, parts))
  {
    hide TraceOk, Below, HandleParts, Fetched, Before, ValidPoll;
    PollRises(log, c.position, parts);
    var c1 := c.(position := Fetched(c.position, parts));
    forall i, m | 0 <= i < |parts| && m in parts[i].messages
      ensures Below(c.trace, parts[i].partition, m.offset)
    {
      assert Rising(parts[i].messages, At(c.position, parts[i].partition));
      BelowMonotone(c.trace, parts[i].partition, At(c.position, parts[i].partition), m.offset);
    }
    FetchedBeyond(c.position, parts);
    assert forall p :: At(c1.committed, p) == LastCommit(c1.trace, p);
    HandlePartsKeeps(c1, parts);
    forall q ensures Below(HandleParts(c1, parts).trace, q, At(c1.position, q)) {
      BelowMonotone(c.trace, q, At(c.position, q), At(c1.position, q));
    }
  }

  lemma {:induction false} LoopKeepsInv(log: Log, c: Consumer, polls: seq<seq<Part>>)
    requires Inv(c) && ValidLoop(log, c, polls)
    ensures Inv(RunLoop(c, polls))
    decreases |polls|
  {
    hide Inv, PollOnce, ValidPoll;
    if polls != [] && c.running {
      PollKeepsInv(log, c, polls[0]);
      LoopKeepsInv(log, PollOnce(c, polls[0]), polls[1..]);
    }
  }

  // ---------------------------------------------------------------------------------------------
  // Commits rise.

  /** Per partition, commits strictly increase, across restarts as well. */
  lemma CommitsIncrease(trace: seq<Action>, i: nat, j: nat)
    requires TraceOk(trace) && i < j < |trace|
    requires trace[i].Committed? && trace[j].Committed? && trace[i].partition == trace[j].partition
    ensures trace[i].next < trace[j].next
  {
    assert CommitOk(trace, j);
    assert PairOk(trace, i, j - 1);
  }

  lemma {:induction false} LastCommitIndex(trace: seq<Action>, p: Partition) returns (j: Option<nat>)
    ensures j.None? ==> (
              && LastCommit(trace, p) == 0
              && forall i | 0 <= i < |trace| :: !(trace[i].Committed? && trace[i].partition == p))
    ensures j.Some? ==> (
              && j.value < |trace| && trace[j.value].Committed? && trace[j.value].partition == p
              && trace[j.value].next == LastCommit(trace, p)
              && forall i | j.value < i < |trace| :: !(trace[i].Committed? && trace[i].partition == p))
  {
    if trace == [] {
      j := None;
    } else {
      var n := |trace| - 1;
      if trace[n].Committed? && trace[n].partition == p {
        j := Some(n);
      } else {
        j := LastCommitIndex(trace[..n], p);
      }
    }
  }

  lemma CommitsUpToLast(trace: seq<Action>, p: Partition, i: nat)
    requires TraceOk(trace) && i < |trace| && trace[i].Committed? && trace[i].partition == p
    ensures trace[i].next <= LastCommit(trace, p)
  {
    var j := LastCommitIndex(trace, p);
    if i < j.value { CommitsIncrease(trace, i, j.value); }
  }

  lemma RestartKeepsInv(c: Consumer)
    requires Inv(c)
    ensures Inv(Restart(c))
  {
    hide TraceOk;
    var c' := Restart(c);
    PairsGrow(c.trace, Restarted);
    forall p ensures At(c'.committed, p) == LastCommit(c'.trace, p) && Below(c'.trace, p, At(c'.position, p)) {
      LastCommitGrows(c.trace, Restarted, p);
      assert At(c.committed, p) == LastCommit(c.trace, p);
      forall i | 0 <= i < |c'.trace| ensures BelowAt(c'.trace, i, p, At(c'.position, p)) {
        if i < |c.trace| {
          SameSessionGrows(c.trace, Restarted, i, i);
          if c.trace[i].Committed? && c.trace[i].partition == p { CommitsUpToLast(c.trace, p, i); }
        }
      }
    }
  }

  lemma {:induction false} LifeKeepsInv(log: Log, c: Consumer, sessions: seq<seq<seq<Part>>>)
    requires Inv(c) && ValidLife(log, c, sessions)
    ensures Inv(Live(c, sessions))
    decreases |sessions|
  {
    hide Inv, RunLoop, Restart, ValidLoop;
    if sessions != [] {
      RestartKeepsInv(c);
      LoopKeepsInv(log, Restart(c), sessions[0]);
      StoppedKeepsInv(RunLoop(Restart(c), sessions[0]));
      LifeKeepsInv(log, Session(c, sessions[0]), sessions[1..]);
    }
  }

  lemma StoppedKeepsInv(c: Consumer)
    requires Inv(c)
    ensures Inv(c.(running := false))
  {
    hide TraceOk, Below;
    assert forall p :: At(c.committed, p) == LastCommit(c.trace, p);
  }

  /**
   * In every life of the consumer, with any failures, refusals, stops and restarts: each commit of an
   * offset directly follows the successful processing of the message before it, the commits of a
   * partition strictly increase, and the broker holds the last of them.
   */
  lemma CommitsConfirmSuccess(log: Log, sessions: seq<seq<seq<Part>>>, i: nat)
    requires ValidLife(log, NEW, sessions)
    requires i < |Live(NEW, sessions).trace| && Live(NEW, sessions).trace[i].Committed?
    ensures var c := Live(NEW, sessions);
            var p, next := c.trace[i].partition, c.trace[i].next;
            && i > 0 && next > 0
            && c.trace[i - 1].Processed? && c.trace[i - 1].ok
            && c.trace[i - 1].partition == p && c.trace[i - 1].offset == next - 1
            && (forall j | i < j < |c.trace| && c.trace[j].Committed? && c.trace[j].partition == p ::
                  next < c.trace[j].next)
            && next <= At(c.committed, p)
  {
    NewIsInv();
    LifeKeepsInv(log, NEW, sessions);
    hide Live, ValidLife, Positioned;
    var c := Live(NEW, sessions);
    var p := c.trace[i].partition;
    assert CommitOk(c.trace, i);
    forall j | i < j < |c.trace| && c.trace[j].Committed? && c.trace[j].partition == p
      ensures c.trace[i].next < c.trace[j].next
    {
      CommitsIncrease(c.trace, i, j);
    }
    CommitsUpToLast(c.trace, p, i);
    assert At(c.committed, p) == LastCommit(c.trace, p);
  }

  lemma NewIsInv()
    ensures Inv(NEW)
  {}

  // ---------------------------------------------------------------------------------------------
  // From trace to database.

  /** Some processing of the trace had this delivery correlated and stored. */
  predicate CorrelatedAt(trace: seq<Action>, k: nat, d: Delivery) {
    && k < |trace| && trace[k].Processed? && trace[k].stored && Correlatable(trace[k].message)
    && Delivery(trace[k].message.tenantId.value, trace[k].message.eventId.value) == d
  }

  lemma {:induction false} DeliveredIff(trace: seq<Action>, d: Delivery)
    ensures d in Deliveries(trace) <==> exists k :: CorrelatedAt(trace, k, d)
  {
    if trace != [] {
      var n := |trace| - 1;
      var before := trace[..n];
      DeliveredIff(before, d);
      forall k: nat | k < n ensures CorrelatedAt(trace, k, d) == CorrelatedAt(before, k, d) {
        assert trace[k] == before[k];
      }
      if d in Deliveries(before) {
        var k: nat :| CorrelatedAt(before, k, d);
        assert CorrelatedAt(trace, k, d);
      } else if d in Deliveries(trace) {
        assert CorrelatedAt(trace, n, d);
      }
    }
  }

  /**
   * Effectively once: with empty tables at the start and a fixed rule set, however often messages were
   * redelivered and in whatever order, an event is evidence for a key exactly when one of its
   * processings was stored, whether or not the database confirmed that, and a rule selects it for that
   * key; and it is linked once.
   */
  lemma EvidenceIffProcessed(s: Settings, events: map<EventId, SecurityEvent>, rules: seq<Rule>, trace: seq<Action>,
                             m: Membership)
    requires s.window > 0
    ensures var db := Process(s, Db(events, [], [], []), rules, Deliveries(trace));
            && ((exists i :: Holds(db, i, m)) <==>
                 && (exists k :: CorrelatedAt(trace, k, Delivery(m.tenant, m.event)))
                 && m.event in events && events[m.event].tenantId == m.tenant
                 && Selected(s, rules, events[m.event], m.key))
            && Distinct(db.evidence)
  {
    hide Process, Selected, Deliveries, CorrelatedAt;
    ProcessRepresents(s, events, rules, Deliveries(trace));
    DeliveredIff(trace, Delivery(m.tenant, m.event));
    var groups := Groups(s, events, rules, Deliveries(trace));
    assert m in groups <==> InGroup(s, events, rules, Deliveries(trace), m);
  }
}
