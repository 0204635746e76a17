/**
 * Several correlators at once, each handling one event in its own transaction, and operators saving
 * committed incidents. An operator saves the status of a copy, which may be out of date, so any status
 * may be written that the index on active incidents admits. Rows carry the transaction that wrote them
 * until it commits; a statement reads committed rows and its own. An insert that meets an uncommitted
 * rival waits, and one that meets a committed rival is undone by its savepoint, after which the
 * correlator looks the winner up again.
 */
module ConcurrentCorrelation {
  import opened Prelude
  import opened CorrelationRules
  import opened CorrelationStore
  import opened IncidentStatus
  import opened CorrelationGrouping

  /** What all correlators share: the events already ingested, the active rules, the settings. */
  datatype Config = Config(settings: Settings, events: map<EventId, SecurityEvent>, rules: seq<Rule>)

  /** An incident a transaction settled on for a key, as it read it. */
  datatype Choice = Choice(key: string, incident: nat, seen: Incident)

  datatype Phase = Lookup | Insert | Recheck | Attach(incident: nat, seen: Incident)

  datatype Tx = Tx(
    tenant: string,
    event: EventId,
    todo: seq<string>,      // keys of the rules still to apply, the current one first
    phase: Phase,
    chosen: seq<Choice>
  )

  /** An incident row; the owner is the open transaction that inserted it. */
  datatype Row = Row(owner: Option<nat>, incident: Incident)

  /** A committed handling of an event. */
  datatype Handling = Handling(tenant: string, event: EventId, chosen: seq<Choice>)

  datatype Sys = Sys(
    incidents: map<nat, Row>,
    evidence: map<Link, Option<nat>>,
    txs: map<nat, Tx>,
    nextId: nat,
    log: seq<Handling>
  )

  datatype Step =
    | Begin(t: nat, tenant: string, event: EventId)
    | LookupFound(t: nat, i: nat)
    | LookupNone(t: nat)
    | InsertOk(t: nat)
    | InsertConflict(t: nat)
    | RecheckFound(t: nat, i: nat)
    | RecheckNone(t: nat)
    | SaveEvidence(t: nat)
    | Commit(t: nat)
    | Abort(t: nat)
    | Operator(i: nat, status: Status)

  predicate ValidConfig(c: Config) {
    c.settings.window > 0
  }

  /** The keys of the eligible rules, in rule order. */
  function KeysFor(s: Settings, rules: seq<Rule>, e: SecurityEvent): (keys: seq<string>)
    requires s.window > 0
    ensures forall key :: key in keys <==> Selected(s, rules, e, key)
  {
    if rules == [] then []
    else
      var rest := KeysFor(s, rules[1..], e);
      if IsEligible(s, rules[0], e) then [KeyOf(s, rules[0], e)] + rest else rest
  }

  predicate Owns(c: Config, tenant: string, event: EventId) {
    event in c.events && c.events[event].tenantId == tenant
  }

  /** The keys a handling works through; none when the tenant has no such event. */
  function Plan(c: Config, tenant: string, event: EventId): seq<string>
    requires ValidConfig(c)
  {
    if Owns(c, tenant, event) then KeysFor(c.settings, c.rules, c.events[event]) else []
  }

  function SeverityOf(c: Config, event: EventId): Severity {
    if event in c.events then c.events[event].severity else Info
  }

  /** Whether a reader sees what an owner wrote; no reader means committed rows only. */
  predicate Seen(owner: Option<nat>, reader: Option<nat>) {
    owner.None? || owner == reader
  }

  /** An active row of the key that the reader sees. */
  predicate SeesActive(s: Sys, reader: Option<nat>, i: nat, tenant: string, key: string) {
    i in s.incidents && Seen(s.incidents[i].owner, reader) && ActiveFor(s.incidents[i].incident, tenant, key)
  }

  ghost predicate NoneSeen(s: Sys, reader: Option<nat>, tenant: string, key: string) {
    forall i :: !SeesActive(s, reader, i, tenant, key)
  }

  ghost predicate NoRival(s: Sys, tenant: string, key: string) {
    forall i | i in s.incidents :: !ActiveFor(s.incidents[i].incident, tenant, key)
  }

  /** No other row of the key is active. */
  ghost predicate OnlyActive(s: Sys, i: nat, tenant: string, key: string) {
    forall j | j in s.incidents && j != i :: !ActiveFor(s.incidents[j].incident, tenant, key)
  }

  predicate AtPhase(s: Sys, t: nat, phase: Phase) {
    t in s.txs && s.txs[t].todo != [] && s.txs[t].phase == phase
  }

  ghost predicate Enabled(s: Sys, step: Step) {
    match step
    case Begin(t, tenant, event) => t !in s.txs
    case LookupFound(t, i) =>
      AtPhase(s, t, Lookup) && SeesActive(s, Some(t), i, s.txs[t].tenant, s.txs[t].todo[0])
    case LookupNone(t) =>
      AtPhase(s, t, Lookup) && NoneSeen(s, Some(t), s.txs[t].tenant, s.txs[t].todo[0])
    case InsertOk(t) =>
      AtPhase(s, t, Insert) && NoRival(s, s.txs[t].tenant, s.txs[t].todo[0])
    case InsertConflict(t) =>
      AtPhase(s, t, Insert) && !NoneSeen(s, None, s.txs[t].tenant, s.txs[t].todo[0])
    case RecheckFound(t, i) =>
      AtPhase(s, t, Recheck) && SeesActive(s, Some(t), i, s.txs[t].tenant, s.txs[t].todo[0])
    case RecheckNone(t) =>
      AtPhase(s, t, Recheck) && NoneSeen(s, Some(t), s.txs[t].tenant, s.txs[t].todo[0])
    case SaveEvidence(t) =>
      && t in s.txs && s.txs[t].todo != [] && s.txs[t].phase.Attach?
      && (var l := Link(s.txs[t].phase.incident, s.txs[t].event);
          l in s.evidence ==> Seen(s.evidence[l], Some(t)))
    case Commit(t) => t in s.txs && s.txs[t].todo == []
    case Abort(t) => t in s.txs
    case Operator(i, status) =>
      && i in s.incidents && s.incidents[i].owner.None?
      && (IsActive(status) ==> OnlyActive(s, i, s.incidents[i].incident.tenantId, s.incidents[i].incident.key))
  }

  function WithTx(s: Sys, t: nat, tx: Tx): Sys {
    s.(txs := s.txs[t := tx])
  }

  /** What an aborted transaction leaves: everything but its own rows. */
  function Discarded(s: Sys, t: nat): Sys {
    s.(incidents := map i | i in s.incidents && s.incidents[i].owner != Some(t) :: s.incidents[i],
       evidence := map l | l in s.evidence && s.evidence[l] != Some(t) :: s.evidence[l],
       txs := s.txs - {t})
  }

  function Released(owner: Option<nat>, t: nat): Option<nat> {
    if owner == Some(t) then None else owner
  }

  function Apply(c: Config, s: Sys, step: Step): Sys
    requires ValidConfig(c) && Enabled(s, step)
  {
    match step
    case Begin(t, tenant, event) =>
      WithTx(s, t, Tx(tenant, event, Plan(c, tenant, event), Lookup, []))
    case LookupFound(t, i) =>
      WithTx(s, t, s.txs[t].(phase := Attach(i, s.incidents[i].incident)))
    case LookupNone(t) =>
      WithTx(s, t, s.txs[t].(phase := Insert))
    case InsertOk(t) =>
      var tx := s.txs[t];
      var incident := Incident(tx.tenant, tx.todo[0], SeverityOf(c, tx.event), Open);
      WithTx(s, t, tx.(phase := Attach(s.nextId, incident)))
        .(incidents := s.incidents[s.nextId := Row(Some(t), incident)], nextId := s.nextId + 1)
    case InsertConflict(t) =>
      WithTx(s, t, s.txs[t].(phase := Recheck))
    case RecheckFound(t, i) =>
      WithTx(s, t, s.txs[t].(phase := Attach(i, s.incidents[i].incident)))
    case RecheckNone(t) =>
      Discarded(s, t)
    case SaveEvidence(t) =>
      var tx := s.txs[t];
      var l := Link(tx.phase.incident, tx.event);
      WithTx(s, t, tx.(todo := tx.todo[1..], phase := Lookup,
                       chosen := tx.chosen + [Choice(tx.todo[0], tx.phase.incident, tx.phase.seen)]))
        .(evidence := if l in s.evidence then s.evidence else s.evidence[l := Some(t)])
    case Commit(t) =>
      s.(incidents := map i | i in s.incidents ::
             Row(Released(s.incidents[i].owner, t), s.incidents[i].incident),
         evidence := map l | l in s.evidence :: Released(s.evidence[l], t),
         txs := s.txs - {t},
         log := s.log + [Handling(s.txs[t].tenant, s.txs[t].event, s.txs[t].chosen)])
    case Abort(t) =>
      Discarded(s, t)
    case Operator(i, status) =>
      var row := s.incidents[i];
      s.(incidents := s.incidents[i := row.(incident := row.incident.(status := status))])
  }
}
