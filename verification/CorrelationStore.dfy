/**
 * The tables correlation writes, and the handler that correlates one event: for every eligible
 * rule, find or create the active incident of the event's key and link the event to it.
 *
 * A new row gets the next free position, which models fresh identifiers. The hash of a canonical
 * key is identified with the key, since SHA-256 is taken to be injective on keys.
 */
module CorrelationStore {
  import opened Prelude
  import opened CorrelationKey
  import opened CorrelationRules
  import opened IncidentStatus

  datatype Incident = Incident(tenantId: string, key: string, severity: Severity, status: Status)

  /** An evidence row: an event linked to an incident. */
  datatype Link = Link(incident: nat, event: EventId)

  /** The audit row written with a new incident. */
  datatype Created = Created(incident: nat, ruleId: string, event: EventId)

  datatype Db = Db(
    events: map<EventId, SecurityEvent>,
    incidents: seq<Incident>,
    evidence: seq<Link>,
    audit: seq<Created>
  )

  datatype Item = Item(ruleId: string, incident: nat, isNewIncident: bool, isNewEvidence: bool)

  predicate ActiveFor(i: Incident, tenant: string, key: string) {
    i.tenantId == tenant && i.key == key && IsActive(i.status)
  }

  /** The active incident of a key, if there is one. */
  function FindOpen(incidents: seq<Incident>, tenant: string, key: string): (r: Option<nat>)
    ensures r.Some? ==> r.value < |incidents| && ActiveFor(incidents[r.value], tenant, key)
    ensures r.None? <==> forall i | 0 <= i < |incidents| :: !ActiveFor(incidents[i], tenant, key)
  {
    if incidents == [] then None
    else
      var n := |incidents| - 1;
      if ActiveFor(incidents[n], tenant, key) then Some(n) else FindOpen(incidents[..n], tenant, key)
  }

  function WithLink(evidence: seq<Link>, l: Link): seq<Link> {
    if l in evidence then evidence else evidence + [l]
  }

  /** One eligible rule applied to one event. */
  function Correlate(db: Db, ruleId: string, key: string, id: EventId, e: SecurityEvent): Db {
    match FindOpen(db.incidents, e.tenantId, key)
    case Some(i) => db.(evidence := WithLink(db.evidence, Link(i, id)))
    case None =>
      var i := |db.incidents|;
      db.(incidents := db.incidents + [Incident(e.tenantId, key, e.severity, Open)],
          evidence := WithLink(db.evidence, Link(i, id)),
          audit := db.audit + [Created(i, ruleId, id)])
  }

  function ApplyRule(s: Settings, db: Db, r: Rule, id: EventId, e: SecurityEvent): Db
    requires s.window > 0
  {
    if IsEligible(s, r, e) then Correlate(db, r.ruleId, Canonical(BuildKey(s, r, e)), id, e) else db
  }

  function ApplyRules(s: Settings, db: Db, rules: seq<Rule>, id: EventId, e: SecurityEvent): Db
    requires s.window > 0
  {
    if rules == [] then db
    else
      var n := |rules| - 1;
      ApplyRule(s, ApplyRules(s, db, rules[..n], id, e), rules[n], id, e)
  }

  /** One delivery of an event: nothing happens unless the tenant owns an event of that identifier. */
  function Handled(s: Settings, db: Db, rules: seq<Rule>, tenant: string, id: EventId): Db
    requires s.window > 0
  {
    if id in db.events && db.events[id].tenantId == tenant
    then ApplyRules(s, db, rules, id, db.events[id])
    else db
  }

  class CorrelationUnitOfWork {
    var events: map<EventId, SecurityEvent>
    var incidents: seq<Incident>
    var evidence: seq<Link>
    var audit: seq<Created>

    ghost function View(): Db
      reads this
    {
      Db(events, incidents, evidence, audit)
    }

    constructor (events: map<EventId, SecurityEvent>)
      ensures View() == Db(events, [], [], [])
    {
      this.events := events;
      incidents, evidence, audit := [], [], [];
    }

    method FindOpenByCorrelationKey(tenant: string, key: string) returns (r: Option<nat>)
      ensures r == FindOpen(incidents, tenant, key)
    {
      var i := |incidents|;
      assert incidents[..i] == incidents;
      while i > 0
        invariant 0 <= i <= |incidents|
        invariant FindOpen(incidents, tenant, key) == FindOpen(incidents[..i], tenant, key)
      {
        i := i - 1;
        assert incidents[..i + 1][..i] == incidents[..i];
        if ActiveFor(incidents[i], tenant, key) { return Some(i); }
      }
      return None;
    }

    method SaveIncident(incident: Incident) returns (id: nat)
      modifies this`incidents
      ensures id == |old(incidents)| && incidents == old(incidents) + [incident]
    {
      id := |incidents|;
      incidents := incidents + [incident];
    }

    method EvidenceExists(l: Link) returns (known: bool)
      ensures known <==> l in evidence
    {
      known := l in evidence;
    }

    method SaveEvidence(l: Link)
      modifies this`evidence
      ensures evidence == WithLink(old(evidence), l)
    {
      var already := EvidenceExists(l);
      if already { return; }
      evidence := evidence + [l];
    }
  }

  class CorrelateSecurityEventHandler {
    const uow: CorrelationUnitOfWork
    const rules: seq<Rule>
    const settings: Settings

    constructor (uow: CorrelationUnitOfWork, rules: seq<Rule>, settings: Settings)
      ensures this.uow == uow && this.rules == rules && this.settings == settings
    {
      this.uow, this.rules, this.settings := uow, rules, settings;
    }

    /** One eligible rule: find or create the incident of the key, and link the event to it. */
    method CorrelateOne(ruleId: string, key: string, id: EventId, event: SecurityEvent) returns (item: Item)
      modifies uow
      ensures uow.View() == Correlate(old(uow.View()), ruleId, key, id, event)
      ensures ItemReports(item, old(uow.View()), uow.View(), ruleId, key, id, event)
    {
      var existing := uow.FindOpenByCorrelationKey(event.tenantId, key);
      var incident: nat;
      if existing.None? {
        incident := uow.SaveIncident(Incident(event.tenantId, key, event.severity, Open));
        uow.audit := uow.audit + [Created(incident, ruleId, id)];
      } else {
        incident := existing.value;
      }
      var known := uow.EvidenceExists(Link(incident, id));
      uow.SaveEvidence(Link(incident, id));
      item := Item(ruleId, incident, existing.None?, !known);
    }

    method Handle(tenant: string, id: EventId) returns (items: seq<Item>)
      requires settings.window > 0
      modifies uow
      ensures uow.View() == Handled(settings, old(uow.View()), rules, tenant, id)
      ensures if id in old(uow.events) && old(uow.events)[id].tenantId == tenant
              then ItemsReport(settings, rules, items, old(uow.View()), uow.View(), id, old(uow.events)[id])
              else items == []
    {
      hide IsEligible, Correlate, ItemReports, ItemsReport, Canonical, BuildKey;
      items := [];
      if id !in uow.events || uow.events[id].tenantId != tenant { return; }
      var event := uow.events[id];
      ghost var before := uow.View();
      assert rules[..0] == [];
      NothingToReport(settings, before, id, event);
      for n := 0 to |rules|
        invariant uow.View() == ApplyRules(settings, before, rules[..n], id, event)
        invariant ItemsReport(settings, rules[..n], items, before, uow.View(), id, event)
      {
        assert rules[..n + 1][..n] == rules[..n];
        ghost var now := uow.View();
        if !IsEligible(settings, rules[n], event) {
          RulePassedOver(settings, rules[..n + 1], items, before, now, id, event);
          continue;
        }
        var item := CorrelateOne(rules[n].ruleId, Canonical(BuildKey(settings, rules[n], event)), id, event);
        OneMoreItem(settings, rules[..n + 1], items, item, before, now, uow.View(), id, event);
        items := items + [item];
      }
      assert rules[..|rules|] == rules;
    }
  }

  /** The rules that apply to an event, in order. */
  function EligibleRules(s: Settings, rules: seq<Rule>, e: SecurityEvent): seq<Rule> {
    if rules == [] then []
    else
      var n := |rules| - 1;
      EligibleRules(s, rules[..n], e) + if IsEligible(s, rules[n], e) then [rules[n]] else []
  }

  /** An item names its rule and the active incident of the rule's key that the event is linked to. */
  ghost predicate ItemNames(item: Item, after: Db, ruleId: string, key: string, id: EventId, e: SecurityEvent) {
    && item.ruleId == ruleId && item.incident < |after.incidents|
    && ActiveFor(after.incidents[item.incident], e.tenantId, key) && Link(item.incident, id) in after.evidence
  }

  /** It also says what was new. */
  ghost predicate ItemReports(item: Item, before: Db, after: Db, ruleId: string, key: string, id: EventId,
                              e: SecurityEvent) {
    && ItemNames(item, after, ruleId, key, id, e)
    && (item.isNewIncident <==> FindOpen(before.incidents, e.tenantId, key).None?)
    && (item.isNewEvidence <==> Link(item.incident, id) !in before.evidence)
    && |after.incidents| == |before.incidents| + (if item.isNewIncident then 1 else 0)
    && |after.evidence| == |before.evidence| + (if item.isNewEvidence then 1 else 0)
    && before.incidents <= after.incidents && before.evidence <= after.evidence
  }

  /** There is one item for every rule that applies, in order, and together they count every new row. */
  ghost predicate ItemsReport(s: Settings, rules: seq<Rule>, items: seq<Item>, before: Db, after: Db, id: EventId,
                              e: SecurityEvent)
    requires s.window > 0
  {
    var applied := EligibleRules(s, rules, e);
    && |items| == |applied|
    && (forall i | 0 <= i < |items| ::
          ItemNames(items[i], after, applied[i].ruleId, Canonical(BuildKey(s, applied[i], e)), id, e))
    && |after.incidents| == |before.incidents| + NewIncidents(items)
    && |after.evidence| == |before.evidence| + NewEvidence(items)
  }

  lemma NothingToReport(s: Settings, db: Db, id: EventId, e: SecurityEvent)
    requires s.window > 0
    ensures ItemsReport(s, [], [], db, db, id, e)
  {}

  lemma RulePassedOver(s: Settings, rules: seq<Rule>, items: seq<Item>, before: Db, now: Db, id: EventId,
                       e: SecurityEvent)
    requires s.window > 0 && rules != [] && !IsEligible(s, rules[|rules| - 1], e)
    requires ItemsReport(s, rules[..|rules| - 1], items, before, now, id, e)
    ensures ItemsReport(s, rules, items, before, now, id, e)
  {
    hide IsEligible, ItemNames;
  }

  lemma OneMoreItem(s: Settings, rules: seq<Rule>, items: seq<Item>, item: Item, before: Db, now: Db, after: Db,
                    id: EventId, e: SecurityEvent)
    requires s.window > 0 && rules != [] && IsEligible(s, rules[|rules| - 1], e)
    requires ItemsReport(s, rules[..|rules| - 1], items, before, now, id, e)
    requires var r := rules[|rules| - 1];
             ItemReports(item, now, after, r.ruleId, Canonical(BuildKey(s, r, e)), id, e)
    ensures ItemsReport(s, rules, items + [item], before, after, id, e)
  {
    hide IsEligible, ActiveFor, BuildKey, Canonical, FindOpen;
    var applied := EligibleRules(s, rules, e);
    var items' := items + [item];
    assert items'[..|items|] == items;
    forall i | 0 <= i < |items'|
      ensures ItemNames(items'[i], after, applied[i].ruleId, Canonical(BuildKey(s, applied[i], e)), id, e)
    {
      if i < |items| {
        assert after.incidents[items[i].incident] == now.incidents[items[i].incident];
      }
    }
  }

  function NewIncidents(items: seq<Item>): nat {
    if items == [] then 0
    else NewIncidents(items[..|items| - 1]) + if items[|items| - 1].isNewIncident then 1 else 0
  }

  function NewEvidence(items: seq<Item>): nat {
    if items == [] then 0
    else NewEvidence(items[..|items| - 1]) + if items[|items| - 1].isNewEvidence then 1 else 0
  }
}
