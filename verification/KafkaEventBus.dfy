/** Publishing with deduplication: an identifier is recorded as processed before it is sent. */
module KafkaEventBus {
  import opened Prelude

  /** The identifiers an event may carry, and its type. */
  datatype Event = Event(correlationId: Option<string>, id: Option<string>, eventType: string)

  /** What the broker answers, and the identifier drawn should the event carry none. */
  datatype Call = Call(event: Event, drawn: string, accepted: bool)

  datatype Reply = Returned | Raised

  datatype State = State(useKafka: bool, hasProducer: bool, processed: set<string>,
                         sent: seq<string>, heard: seq<(string, string)>)

  predicate Present(id: Option<string>) {
    id.Some? && id.value != ""
  }

  /** The identifier that deduplication goes by. */
  function DedupId(c: Call): string {
    if Present(c.event.correlationId) then c.event.correlationId.value
    else if Present(c.event.id) then c.event.id.value
    else c.drawn
  }

  function HeardBy(listeners: seq<string>, id: string): (heard: seq<(string, string)>)
    ensures |heard| == |listeners|
  {
    seq(|listeners|, i requires 0 <= i < |listeners| => (listeners[i], id))
  }

  /** One call of publish. */
  function Published(s: State, fallback: bool, listeners: map<string, seq<string>>, c: Call): (State, Reply) {
    var id := DedupId(c);
    if id in s.processed then (s, Returned)
    else
      var s' := s.(processed := s.processed + {id});
      if s.useKafka then
        if !s.hasProducer then (s', Raised)
        else (s'.(sent := s.sent + [id]), if c.accepted then Returned else Raised)
      else if !fallback then (s', Raised)
      else
        var named := if c.event.eventType in listeners then listeners[c.event.eventType] else [];
        (s'.(heard := s.heard + HeardBy(named, id)), Returned)
  }

  /** Starting creates the producer first; when the broker cannot be reached the fallback gives Kafka up. */
  function Started(s: State, fallback: bool, reachable: bool): (State, Reply) {
    if !s.useKafka then (s, Returned)
    else if reachable then (s.(hasProducer := true), Returned)
    else if !fallback then (s.(hasProducer := true), Raised)
    else (s.(hasProducer := true, useKafka := false), Returned)
  }

  class KafkaEventBus {
    /** In-memory delivery is permitted: neither staging nor production, and fallback allowed. */
    const fallback: bool
    var useKafka: bool
    var hasProducer: bool
    var processedEvents: set<string>
    var listeners: map<string, seq<string>>
    var sent: seq<string>                // identifiers handed to the producer
    var heard: seq<(string, string)>     // listeners called, each with the identifier

    ghost function View(): State
      reads this
    {
      State(useKafka, hasProducer, processedEvents, sent, heard)
    }

    constructor (useKafka: bool, fallback: bool)
      ensures this.fallback == fallback && listeners == map[]
      ensures View() == State(useKafka, false, {}, [], [])
    {
      this.useKafka, this.fallback, hasProducer := useKafka, fallback, false;
      processedEvents, listeners, sent, heard := {}, map[], [], [];
    }

    method Start(reachable: bool) returns (reply: Reply)
      modifies this`useKafka, this`hasProducer
      ensures (View(), reply) == Started(old(View()), fallback, reachable)
    {
      if !useKafka { return Returned; }
      hasProducer := true;
      if reachable { return Returned; }
      if !fallback { return Raised; }
      useKafka := false;
      return Returned;
    }

    method IsDuplicate(id: string) returns (known: bool)
      modifies this`processedEvents
      ensures known == (id in old(processedEvents)) && processedEvents == old(processedEvents) + {id}
    {
      if id in processedEvents { return true; }
      processedEvents := processedEvents + {id};
      return false;
    }

    method Publish(c: Call) returns (reply: Reply)
      modifies this`processedEvents, this`sent, this`heard
      ensures (View(), reply) == Published(old(View()), fallback, listeners, c)
    {
      var id := DedupId(c);
      var known := IsDuplicate(id);
      assert known ==> processedEvents == old(processedEvents);
      if known { return Returned; }
      if useKafka {
        if !hasProducer { return Raised; }
        sent := sent + [id];
        return if c.accepted then Returned else Raised;
      }
      if !fallback { return Raised; }
      var named := if c.event.eventType in listeners then listeners[c.event.eventType] else [];
      ghost var before := heard;
      for i := 0 to |named|
        invariant heard == before + HeardBy(named, id)[..i]
        invariant sent == old(sent) && processedEvents == old(processedEvents) + {id}
      {
        heard := heard + [(named[i], id)];
      }
      assert HeardBy(named, id)[..|named|] == HeardBy(named, id);
      return Returned;
    }
  }

  // ---------------------------------------------------------------------------------------------
  // Runs.

  datatype Op = Start(reachable: bool) | Publish(call: Call, listeners: map<string, seq<string>>)

  function Apply(s: State, fallback: bool, op: Op): State {
    match op
    case Start(reachable) => Started(s, fallback, reachable).0
    case Publish(call, listeners) => Published(s, fallback, listeners, call).0
  }

  function Run(s: State, fallback: bool, ops: seq<Op>): State {
    if ops == [] then s else Apply(Run(s, fallback, ops[..|ops| - 1]), fallback, ops[|ops| - 1])
  }

  /** The identifiers of the publish calls of a run, in order. */
  function Ids(ops: seq<Op>): seq<string> {
    if ops == [] then []
    else Ids(ops[..|ops| - 1]) + if ops[|ops| - 1].Publish? then [DedupId(ops[|ops| - 1].call)] else []
  }

  /** A sequence with every repetition of an earlier element left out. */
  function FirstOccurrences(ids: seq<string>): (firsts: seq<string>)
    ensures forall id :: id in firsts <==> id in ids
  {
    if ids == [] then []
    else
      var n := |ids| - 1;
      FirstOccurrences(ids[..n]) + if ids[n] in ids[..n] then [] else [ids[n]]
  }

  lemma {:induction false} FirstOccurrencesDistinct(ids: seq<string>)
    ensures Distinct(FirstOccurrences(ids))
  {
    if ids != [] { FirstOccurrencesDistinct(ids[..|ids| - 1]); }
  }

  ghost predicate Recorded(s: State) {
    Distinct(s.sent) && forall id | id in s.sent :: id in s.processed
  }

  lemma {:induction false} RunKeepsRecorded(s: State, fallback: bool, ops: seq<Op>)
    requires Recorded(s)
    ensures Recorded(Run(s, fallback, ops))
  {
    if ops != [] { RunKeepsRecorded(s, fallback, ops[..|ops| - 1]); }
  }

  /** Over any run of starts and publishes, whatever fails, no identifier reaches the producer twice. */
  lemma SentAtMostOnce(useKafka: bool, fallback: bool, ops: seq<Op>)
    ensures Distinct(Run(State(useKafka, false, {}, [], []), fallback, ops).sent)
  {
    hide Run;
    RunKeepsRecorded(State(useKafka, false, {}, [], []), fallback, ops);
  }

  lemma OnePublish(s: State, fallback: bool, op: Op)
    requires s.useKafka && s.hasProducer && op.Publish?
    ensures var id := DedupId(op.call);
            Apply(s, fallback, op) ==
              if id in s.processed then s else s.(processed := s.processed + {id}, sent := s.sent + [id])
  {}

  /**
   * With a producer, what reaches it is exactly the first occurrence of each identifier, whichever
   * sends are refused.
   */
  lemma {:induction false} SentAreFirstOccurrences(s: State, fallback: bool, ops: seq<Op>)
    requires s.useKafka && s.hasProducer && s.processed == {} && s.sent == []
    requires forall op | op in ops :: op.Publish?
    ensures var s' := Run(s, fallback, ops);
            && s'.useKafka && s'.hasProducer
            && s'.sent == FirstOccurrences(Ids(ops)) && (forall id :: id in s'.processed <==> id in Ids(ops))
  {
    if ops != [] {
      var n := |ops| - 1;
      assert ops[n] in ops;
      SentAreFirstOccurrences(s, fallback, ops[..n]);
      OnePublish(Run(s, fallback, ops[..n]), fallback, ops[n]);
      OneMoreOccurrence(Ids(ops[..n]), DedupId(ops[n].call));
      hide Apply, DedupId, FirstOccurrences;
    }
  }

  lemma OneMoreOccurrence(ids: seq<string>, id: string)
    ensures FirstOccurrences(ids + [id]) == FirstOccurrences(ids) + if id in ids then [] else [id]
  {
    assert (ids + [id])[..|ids|] == ids;
  }

  /** With Kafka, a call returns normally exactly when its identifier is known already or the send goes through. */
  lemma NormalReturnIff(s: State, fallback: bool, listeners: map<string, seq<string>>, c: Call)
    requires s.useKafka
    ensures var (s', reply) := Published(s, fallback, listeners, c);
            && (reply == Returned <==> DedupId(c) in s.processed || (s.hasProducer && c.accepted))
            && (reply == Returned && s'.sent == s.sent <==> DedupId(c) in s.processed)
  {}

  /** A refused send is never repeated under its identifier: the next call with it returns without sending. */
  lemma RefusedIsNotRetried(s: State, fallback: bool, listeners: map<string, seq<string>>, c: Call, retry: Call)
    requires s.useKafka && Published(s, fallback, listeners, c).1 == Raised && DedupId(retry) == DedupId(c)
    ensures var s' := Published(s, fallback, listeners, c).0;
            Published(s', fallback, listeners, retry) == (s', Returned)
  {}

  predicate OwnId(c: Call) {
    !Present(c.event.correlationId) && Present(c.event.id)
  }

  predicate NoId(c: Call) {
    !Present(c.event.correlationId) && !Present(c.event.id)
  }

  /**
   * What two calls are compared by: the correlation identifiers if both have one that is not empty,
   * whatever their own identifiers; and the own identifiers where there is no correlation identifier.
   */
  lemma SameEventIff(c: Call, c': Call)
    ensures Present(c.event.correlationId) && Present(c'.event.correlationId) ==>
              (DedupId(c) == DedupId(c') <==> c.event.correlationId == c'.event.correlationId)
    ensures OwnId(c) && OwnId(c') ==> (DedupId(c) == DedupId(c') <==> c.event.id == c'.event.id)
    ensures NoId(c) && NoId(c') ==> (DedupId(c) == DedupId(c') <==> c.drawn == c'.drawn)
  {}

  /** An event that repeats a correlation identifier is skipped, however new its own identifier is. */
  lemma RepeatedCorrelationSkipped(s: State, fallback: bool, listeners: map<string, seq<string>>, c: Call, c': Call)
    requires Present(c.event.correlationId) && c'.event.correlationId == c.event.correlationId
    ensures var s' := Published(s, fallback, listeners, c).0;
            Published(s', fallback, listeners, c') == (s', Returned)
  {}

  /**
   * A bus from its start on: a first event goes to the broker exactly when Kafka is in use and either the
   * broker was reached or no fallback is allowed; otherwise it goes to the listeners of its type, each
   * once and in order, or is refused.
   */
  lemma StartThenPublish(useKafka: bool, fallback: bool, reachable: bool, listeners: map<string, seq<string>>, c: Call)
    ensures var (started, first) := Started(State(useKafka, false, {}, [], []), fallback, reachable);
            var (s, reply) := Published(started, fallback, listeners, c);
            var id, toBroker := DedupId(c), useKafka && (reachable || !fallback);
            var named := if c.event.eventType in listeners then listeners[c.event.eventType] else [];
            && (first == Raised <==> useKafka && !reachable && !fallback)
            && s.sent == (if toBroker then [id] else [])
            && |s.heard| == (if !toBroker && fallback then |named| else 0)
            && (forall i | 0 <= i < |s.heard| :: s.heard[i] == (named[i], id))
            && (reply == Returned <==> if toBroker then c.accepted else fallback)
  {}

  // ---------------------------------------------------------------------------------------------
  // The outbox dispatcher publishes through the bus.

  /** The call made for the `n`-th attempt: a domain event carries no correlation identifier and a new identifier. */
  ghost predicate MintsFresh(ops: seq<Op>) {
    && (forall i | 0 <= i < |ops| :: ops[i].Publish?)
    && (forall i, j | 0 <= i < j < |ops| :: DedupId(ops[i].call) != DedupId(ops[j].call))
  }

  lemma {:induction false} IdsInOrder(ops: seq<Op>)
    requires forall i | 0 <= i < |ops| :: ops[i].Publish?
    ensures |Ids(ops)| == |ops| && forall i | 0 <= i < |ops| :: Ids(ops)[i] == DedupId(ops[i].call)
  {
    hide DedupId;
    if ops != [] { IdsInOrder(ops[..|ops| - 1]); }
  }

  /**
   * Since every attempt at an outbox row builds an event with an identifier of its own, every attempt is
   * handed to the producer, so a retried row is really sent again and a normal return means a send.
   */
  lemma {:induction false} FreshAttemptsAllSent(s: State, fallback: bool, ops: seq<Op>)
    requires s.useKafka && s.hasProducer && MintsFresh(ops)
    requires forall i | 0 <= i < |ops| :: DedupId(ops[i].call) !in s.processed
    ensures var s' := Run(s, fallback, ops);
            && s'.useKafka && s'.hasProducer && s'.sent == s.sent + Ids(ops)
            && (forall id :: id in s'.processed <==> id in s.processed || id in Ids(ops))
  {
    if ops != [] {
      var n := |ops| - 1;
      FreshAttemptsAllSent(s, fallback, ops[..n]);
      OnePublish(Run(s, fallback, ops[..n]), fallback, ops[n]);
      IdsInOrder(ops[..n]);
      hide Apply, DedupId;
      assert Ids(ops) == Ids(ops[..n]) + [DedupId(ops[n].call)];
    }
  }
}
