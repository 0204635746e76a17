/**
 * The consumer that feeds the correlation engine: it polls, processes each message in a transaction of
 * its own, and commits the message's offset when processing reports success.
 */
module CorrelationConsumer {
  import opened Prelude
  import opened CorrelationRules
  import opened CorrelationStore
  import opened CorrelationGrouping

  type Partition = nat

  /**
   * A message value: an object, with identifiers that are absent or empty left out, or some other JSON
   * value, at which processing raises.
   */
  datatype Message =
    | Message(eventType: string, tenantId: Option<string>, eventId: Option<EventId>, wellFormed: bool)
    | NotAnObject

  /** How a database commit ends: confirmed, in effect although it reports an error, or not in effect. */
  datatype DbCommit = Confirmed | AnswerLost | RolledBack

  /**
   * A polled message with what happens around it: how the database commit ends, whether the broker
   * accepts the offset, and whether a stop is requested before the next message.
   */
  datatype Polled = Polled(offset: nat, message: Message, db: DbCommit, accepted: bool, stop: bool)

  datatype Part = Part(partition: Partition, messages: seq<Polled>)

  datatype Action =
    | Processed(partition: Partition, offset: nat, message: Message, ok: bool, stored: bool)
    | Committed(partition: Partition, next: nat)
    | Restarted

  /**
   * The consumer and what the broker keeps for its group; raised ends the current batch. A poll that
   * itself fails is one that returns nothing.
   */
  datatype Consumer = Consumer(running: bool, raised: bool, position: map<Partition, nat>,
                               committed: map<Partition, nat>, trace: seq<Action>)

  function At(m: map<Partition, nat>, p: Partition): nat {
    if p in m then m[p] else 0
  }

  predicate Correlatable(m: Message) {
    m.Message? && m.eventType == "SecurityEventReceivedEvent" && m.tenantId.Some? && m.eventId.Some? && m.wellFormed
  }

  /** An object of another type, or without identifiers, or with identifiers that are no UUIDs. */
  predicate IsForOthers(m: Message) {
    && m.Message?
    && (m.eventType != "SecurityEventReceivedEvent" || m.tenantId.None? || m.eventId.None? || !m.wellFormed)
  }

  /** Objects that are not for the engine count as processed. */
  predicate Succeeds(m: Polled) {
    m.message.Message? && (Correlatable(m.message) ==> m.db.Confirmed?)
  }

  /** The correlation of the message is in the database, whatever processing reports. */
  predicate Stored(m: Polled) {
    Correlatable(m.message) && !m.db.RolledBack?
  }

  function Done(p: Partition, m: Polled): Action {
    Processed(p, m.offset, m.message, Succeeds(m), Stored(m))
  }

  function Handle(c: Consumer, p: Partition, m: Polled): Consumer {
    var trace := c.trace + [Done(p, m)];
    var c1 := c.(trace := trace, running := !m.stop);
    if m.message.NotAnObject? then c1.(raised := true)
    else if !Succeeds(m) then c1
    else if !m.accepted then c1.(raised := true)
    else c1.(committed := c.committed[p := m.offset + 1], trace := trace + [Committed(p, m.offset + 1)])
  }

  function HandleAll(c: Consumer, p: Partition, messages: seq<Polled>): Consumer
    decreases |messages|
  {
    if messages == [] || !c.running || c.raised then c
    else HandleAll(Handle(c, p, messages[0]), p, messages[1..])
  }

  function HandleParts(c: Consumer, parts: seq<Part>): Consumer
    decreases |parts|
  {
    if parts == [] then c
    else HandleParts(HandleAll(c, parts[0].partition, parts[0].messages), parts[1..])
  }

  /** A poll moves the fetch position past everything it returns. */
  function Fetched(position: map<Partition, nat>, parts: seq<Part>): map<Partition, nat>
    decreases |parts|
  {
    if parts == [] then position
    else
      var ms := parts[0].messages;
      Fetched(if ms == [] then position else position[parts[0].partition := ms[|ms| - 1].offset + 1], parts[1..])
  }

  function PollOnce(c: Consumer, parts: seq<Part>): Consumer {
    HandleParts(c.(position := Fetched(c.position, parts)), parts).(raised := false)
  }

  function RunLoop(c: Consumer, polls: seq<seq<Part>>): Consumer
    decreases |polls|
  {
    if polls == [] || !c.running then c else RunLoop(PollOnce(c, polls[0]), polls[1..])
  }

  /** A new start fetches from the committed offsets. */
  function Restart(c: Consumer): Consumer {
    c.(running := true, raised := false, position := c.committed, trace := c.trace + [Restarted])
  }

  /** One start and the polls until it stops. */
  function Session(c: Consumer, polls: seq<seq<Part>>): Consumer {
    RunLoop(Restart(c), polls).(running := false)
  }

  const NEW: Consumer := Consumer(false, false, map[], map[], [])

  /** What the trace has made the correlation engine handle for good. */
  function Deliveries(trace: seq<Action>): seq<Delivery> {
    if trace == [] then []
    else
      var n := |trace| - 1;
      var a := trace[n];
      Deliveries(trace[..n]) +
      if a.Processed? && a.stored && Correlatable(a.message)
      then [Delivery(a.message.tenantId.value, a.message.eventId.value)] else []
  }

  lemma DeliveriesGrow(trace: seq<Action>, a: Action)
    ensures Deliveries(trace + [a]) ==
              if a.Processed? && a.stored && Correlatable(a.message)
              then Deliveries(trace) + [Delivery(a.message.tenantId.value, a.message.eventId.value)]
              else Deliveries(trace)
  {}

  lemma ProcessOneMore(s: Settings, db: Db, rules: seq<Rule>, ds: seq<Delivery>, d: Delivery)
    requires s.window > 0
    ensures Process(s, db, rules, ds + [d]) == Handled(s, Process(s, db, rules, ds), rules, d.tenant, d.event)
  {}

  lemma DoneDelivers(trace: seq<Action>, p: Partition, m: Polled)
    ensures Deliveries(trace + [Done(p, m)]) ==
              if Stored(m) then Deliveries(trace) + [Delivery(m.message.tenantId.value, m.message.eventId.value)]
              else Deliveries(trace)
  {
    DeliveriesGrow(trace, Done(p, m));
  }

  // How the loops unfold.

  lemma PartStep(c: Consumer, p: Partition, messages: seq<Polled>, j: nat)
    requires j < |messages| && !c.raised
    ensures HandleAll(c, p, messages[j..]) ==
            if c.running then HandleAll(Handle(c, p, messages[j]), p, messages[j + 1..]) else c
  {}

  lemma PartBounds(c: Consumer, p: Partition, messages: seq<Polled>)
    ensures HandleAll(c, p, messages[0..]) == HandleAll(c, p, messages)
    ensures HandleAll(c, p, messages[|messages|..]) == c
    ensures c.raised ==> HandleAll(c, p, messages) == c
  {}

  lemma PartsStep(c: Consumer, parts: seq<Part>, i: nat)
    requires i < |parts|
    ensures HandleParts(c, parts[i..]) ==
            HandleParts(HandleAll(c, parts[i].partition, parts[i].messages), parts[i + 1..])
  {}

  lemma {:induction false} PartsBounds(c: Consumer, parts: seq<Part>)
    ensures HandleParts(c, parts[0..]) == HandleParts(c, parts)
    ensures HandleParts(c, parts[|parts|..]) == c
    ensures c.raised ==> HandleParts(c, parts) == c
    decreases |parts|
  {
    assert parts[0..] == parts;
    if parts != [] { PartsBounds(c, parts[1..]); }
  }

  /** A stop requested with a message ends the session after it: nothing else of any batch is processed. */
  lemma StopEndsSession(c: Consumer, p: Partition, m: Polled, messages: seq<Polled>, parts: seq<Part>,
                        polls: seq<seq<Part>>)
    requires m.stop
    ensures var c' := Handle(c, p, m);
            && !c'.running && HandleAll(c', p, messages) == c' && HandleParts(c', parts) == c'
            && RunLoop(c'.(raised := false), polls) == c'.(raised := false)
  {
    PartsAfterStop(Handle(c, p, m), parts);
  }

  lemma {:induction false} PartsAfterStop(c: Consumer, parts: seq<Part>)
    requires !c.running
    ensures HandleParts(c, parts) == c
    decreases |parts|
  {
    if parts != [] { PartsAfterStop(c, parts[1..]); }
  }

  lemma LoopStep(c: Consumer, polls: seq<seq<Part>>, n: nat)
    requires n < |polls| && c.running
    ensures RunLoop(c, polls[n..]) == RunLoop(PollOnce(c, polls[n]), polls[n + 1..])
  {}

  class CorrelationKafkaConsumer {
    const uow: CorrelationUnitOfWork
    const rules: seq<Rule>
    const settings: Settings
    ghost const start: Db
    var hasConsumer: bool
    var running: bool
    var position: map<Partition, nat>
    var committed: map<Partition, nat>
    var trace: seq<Action>

    ghost function View(): Consumer
      reads this
    {
      Consumer(running, false, position, committed, trace)
    }

    /** The database is what the deliveries so far make of the one at the start. */
    ghost predicate Valid()
      reads this, uow
    {
      settings.window > 0 && uow.View() == Process(settings, start, rules, Deliveries(trace))
    }

    constructor (uow: CorrelationUnitOfWork, rules: seq<Rule>, settings: Settings)
      requires settings.window > 0
      ensures Valid() && View() == NEW && this.uow == uow && this.rules == rules && this.settings == settings
      ensures start == uow.View() && !hasConsumer
    {
      this.uow, this.rules, this.settings, start := uow, rules, settings, uow.View();
      hasConsumer, running, position, committed, trace := false, false, map[], map[], [];
    }

    /** A consumer that exists already is left as it is, even one whose start failed. */
    method Start(reachable: bool) returns (raised: bool)
      requires Valid()
      modifies this
      ensures Valid() && hasConsumer
      ensures raised == (!old(hasConsumer) && !reachable)
      ensures View() == if !old(hasConsumer) && reachable then Restart(old(View())) else old(View())
    {
      if hasConsumer { return false; }
      hasConsumer := true;
      if !reachable { return true; }
      DeliveriesGrow(trace, Restarted);
      running, position, trace := true, committed, trace + [Restarted];
      return false;
    }

    method Stop()
      requires Valid()
      modifies this`running, this`hasConsumer
      ensures Valid() && !hasConsumer && View() == old(View()).(running := false)
    {
      running, hasConsumer := false, false;
    }

    /** Reports success, or raises at a value that is no object. */
    method ProcessSingleMessage(p: Partition, m: Polled) returns (ok: bool, raised: bool)
      requires Valid()
      modifies this`trace, uow
      ensures Valid() && ok == Succeeds(m) && raised == m.message.NotAnObject?
      ensures trace == old(trace) + [Done(p, m)]
      ensures m.message.NotAnObject? || IsForOthers(m.message) ==> uow.View() == old(uow.View())
      ensures IsForOthers(m.message) ==> ok
      ensures m.message.Message? && !IsForOthers(m.message) ==>
                && (ok <==> m.db.Confirmed?)
                && uow.View() == if m.db.RolledBack? then old(uow.View())
                                 else Handled(settings, old(uow.View()), rules, m.message.tenantId.value,
                                              m.message.eventId.value)
    {
      hide Process, Handled, Deliveries, ItemsReport;
      raised := m.message.NotAnObject?;
      ok := !raised && (!Correlatable(m.message) || m.db.Confirmed?);
      DoneDelivers(trace, p, m);
      if Correlatable(m.message) && !m.db.RolledBack? {
        var tenant, id := m.message.tenantId.value, m.message.eventId.value;
        ProcessOneMore(settings, start, rules, Deliveries(trace), Delivery(tenant, id));
        var handler := new CorrelateSecurityEventHandler(uow, rules, settings);
        var items := handler.Handle(tenant, id);
      }
      trace := trace + [Done(p, m)];
    }

    /** One message, and its offset if processing succeeded. */
    method ProcessAndCommit(p: Partition, m: Polled) returns (raised: bool)
      requires Valid()
      modifies this`trace, this`committed, this`running, uow
      ensures Valid()
      ensures running ==> old(running)
      ensures old(running) ==> View().(raised := raised) == Handle(old(View()), p, m)
    {
      hide Process, Deliveries, Correlatable;
      var ok: bool;
      ok, raised := ProcessSingleMessage(p, m);
      if m.stop { running := false; }
      if ok {
        if !m.accepted { return true; }
        committed := committed[p := m.offset + 1];
        DeliveriesGrow(trace, Committed(p, m.offset + 1));
        trace := trace + [Committed(p, m.offset + 1)];
      }
    }

    /** The messages of one partition, in order, until a stop or an offset the broker refuses. */
    method ConsumePart(p: Partition, messages: seq<Polled>) returns (raised: bool)
      requires Valid()
      modifies this`trace, this`committed, this`running, uow
      ensures Valid()
      ensures View().(raised := raised) == HandleAll(old(View()), p, messages)
    {
      hide Handle, HandleAll, Valid;
      raised := false;
      ghost var c := View();
      PartBounds(c, p, messages);
      for j := 0 to |messages|
        invariant Valid() && !raised
        invariant HandleAll(c, p, messages) == HandleAll(View(), p, messages[j..])
      {
        ghost var before := View();
        PartStep(before, p, messages, j);
        if !running { return; }
        raised := ProcessAndCommit(p, messages[j]);
        if raised {
          PartBounds(View().(raised := true), p, messages[j + 1..]);
          return;
        }
      }
      PartBounds(View(), p, messages);
    }

    method Consume(parts: seq<Part>)
      requires Valid()
      modifies this`trace, this`committed, this`running, uow
      ensures Valid()
      ensures View() == HandleParts(old(View()), parts).(raised := false)
    {
      hide HandleAll, HandleParts, Valid;
      ghost var c := View();
      PartsBounds(c, parts);
      for i := 0 to |parts|
        invariant Valid()
        invariant HandleParts(c, parts) == HandleParts(View(), parts[i..])
      {
        PartsStep(View(), parts, i);
        var raised := ConsumePart(parts[i].partition, parts[i].messages);
        if raised {
          PartsBounds(View().(raised := true), parts[i + 1..]);
          return;
        }
      }
      PartsBounds(View(), parts);
    }

    /** Starts unless there is a consumer, polls while running, and stops. */
    method Run(reachable: bool, polls: seq<seq<Part>>) returns (raised: bool)
      requires Valid()
      modifies this, uow
      ensures Valid() && raised == (!old(hasConsumer) && !reachable) && hasConsumer == raised
      ensures raised ==> View() == old(View())
      ensures !raised && !old(hasConsumer) ==> View() == Session(old(View()), polls)
      ensures old(hasConsumer) ==> View() == RunLoop(old(View()), polls).(running := false)
    {
      raised := Start(reachable);
      if raised { return; }
      PollWhileRunning(polls);
      Stop();
    }

    method PollWhileRunning(polls: seq<seq<Part>>)
      requires Valid()
      modifies this`running, this`position, this`committed, this`trace, uow
      ensures Valid() && View() == RunLoop(old(View()), polls)
    {
      var n := 0;
      while n < |polls| && running
        invariant 0 <= n <= |polls| && Valid()
        invariant RunLoop(old(View()), polls) == RunLoop(View(), polls[n..])
        decreases |polls| - n
      {
        ghost var before := View();
        LoopStep(before, polls, n);
        position := Fetched(position, polls[n]);
        Consume(polls[n]);
        assert View() == PollOnce(before, polls[n]);
        n := n + 1;
      }
    }
  }
}
