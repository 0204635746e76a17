/**
 * The correlation engine refines a group-by: whatever the order and however often events are
 * delivered, the incidents are the non-empty groups and the evidence is their members, once each.
 * And replaying a single event, with operators moving incidents through their life cycle.
 */
module CorrelationGrouping {
  import opened Prelude
  import opened CorrelationKey
  import opened CorrelationRules
  import opened CorrelationStore
  import opened IncidentStatus

  datatype Delivery = Delivery(tenant: string, event: EventId)

  /** An event in the group of a key. */
  datatype Membership = Membership(tenant: string, key: string, event: EventId)

  function Process(s: Settings, db: Db, rules: seq<Rule>, ds: seq<Delivery>): Db
    requires s.window > 0
  {
    if ds == [] then db
    else
      var n := |ds| - 1;
      Handled(s, Process(s, db, rules, ds[..n]), rules, ds[n].tenant, ds[n].event)
  }

  function KeyOf(s: Settings, r: Rule, e: SecurityEvent): string
    requires s.window > 0
  {
    Canonical(BuildKey(s, r, e))
  }

  /** The pure group-by, read off the deliveries alone. */
  ghost predicate InGroup(s: Settings, events: map<EventId, SecurityEvent>, rules: seq<Rule>,
                          ds: seq<Delivery>, m: Membership)
    requires s.window > 0
  {
    && Delivery(m.tenant, m.event) in ds
    && m.event in events && events[m.event].tenantId == m.tenant
    && Selected(s, rules, events[m.event], m.key)
  }

  ghost predicate Selected(s: Settings, rules: seq<Rule>, e: SecurityEvent, key: string)
    requires s.window > 0
  {
    exists r :: r in rules && IsEligible(s, r, e) && KeyOf(s, r, e) == key
  }

  ghost predicate Holds(db: Db, i: nat, m: Membership) {
    && i < |db.incidents|
    && db.incidents[i].tenantId == m.tenant && db.incidents[i].key == m.key
    && Link(i, m.event) in db.evidence
  }

  /** The tables represent a set of memberships: one active incident a group, its evidence the group. */
  ghost predicate Represents(db: Db, members: iset<Membership>) {
    && (forall i | 0 <= i < |db.incidents| :: IsActive(db.incidents[i].status))
    && (forall i, j | 0 <= i < j < |db.incidents| :: !SameKey(db.incidents[i], db.incidents[j]))
    && (forall i | 0 <= i < |db.incidents| :: HasEvidence(db, i))
    && (forall l | l in db.evidence ::
          && l.incident < |db.incidents|
          && Membership(db.incidents[l.incident].tenantId, db.incidents[l.incident].key, l.event) in members)
    && (forall m | m in members :: exists i :: Holds(db, i, m))
    && Distinct(db.evidence)
  }

  ghost predicate HasEvidence(db: Db, i: nat) {
    exists id :: Link(i, id) in db.evidence
  }

  ghost predicate SameKey(a: Incident, b: Incident) {
    a.tenantId == b.tenantId && a.key == b.key
  }

  lemma LinkRepresents(db: Db, members: iset<Membership>, i: nat, id: EventId)
    requires Represents(db, members) && i < |db.incidents|
    ensures var m := Membership(db.incidents[i].tenantId, db.incidents[i].key, id);
            Represents(db.(evidence := WithLink(db.evidence, Link(i, id))), members + iset{m})
  {
    var m := Membership(db.incidents[i].tenantId, db.incidents[i].key, id);
    var db' := db.(evidence := WithLink(db.evidence, Link(i, id)));
    assert Holds(db', i, m);
    forall x | x in members ensures exists k :: Holds(db', k, x) {
      var k: nat :| Holds(db, k, x);
      assert Holds(db', k, x);
    }
    forall k | 0 <= k < |db'.incidents| ensures HasEvidence(db', k) {
      assert HasEvidence(db, k);
      var x :| Link(k, x) in db.evidence;
      assert Link(k, x) in db'.evidence;
    }
  }

  lemma OpenRepresents(db: Db, members: iset<Membership>, key: string, id: EventId, e: SecurityEvent,
                       audit: seq<Created>)
    requires Represents(db, members) && FindOpen(db.incidents, e.tenantId, key).None?
    ensures var i := |db.incidents|;
            var db' := db.(incidents := db.incidents + [Incident(e.tenantId, key, e.severity, Open)],
                           evidence := WithLink(db.evidence, Link(i, id)), audit := audit);
            Represents(db', members + iset{Membership(e.tenantId, key, id)})
  {
    var i := |db.incidents|;
    var db' := db.(incidents := db.incidents + [Incident(e.tenantId, key, e.severity, Open)],
                   evidence := WithLink(db.evidence, Link(i, id)), audit := audit);
    assert Holds(db', i, Membership(e.tenantId, key, id));
    forall x | x in members ensures exists k :: Holds(db', k, x) {
      var k: nat :| Holds(db, k, x);
      assert Holds(db', k, x);
    }
    forall k | 0 <= k < |db'.incidents| ensures HasEvidence(db', k) {
      if k < i {
        assert HasEvidence(db, k);
        var x :| Link(k, x) in db.evidence;
        assert Link(k, x) in db'.evidence;
      }
    }
  }

  lemma CorrelateRepresents(db: Db, members: iset<Membership>, ruleId: string, key: string, id: EventId,
                            e: SecurityEvent)
    requires Represents(db, members)
    ensures Represents(Correlate(db, ruleId, key, id, e), members + iset{Membership(e.tenantId, key, id)})
  {
    hide Represents, WithLink;
    match FindOpen(db.incidents, e.tenantId, key)
    case Some(i) => LinkRepresents(db, members, i, id);
    case None =>
      OpenRepresents(db, members, key, id, e, db.audit + [Created(|db.incidents|, ruleId, id)]);
  }

  ghost function Reached(s: Settings, rules: seq<Rule>, id: EventId, e: SecurityEvent): iset<Membership>
    requires s.window > 0
  {
    iset key | Selected(s, rules, e, key) :: Membership(e.tenantId, key, id)
  }

  lemma ReachedMore(s: Settings, rules: seq<Rule>, id: EventId, e: SecurityEvent)
    requires s.window > 0 && rules != []
    ensures var n, r := |rules| - 1, rules[|rules| - 1];
            Reached(s, rules, id, e) == Reached(s, rules[..n], id, e) +
              if IsEligible(s, r, e) then iset{Membership(e.tenantId, KeyOf(s, r, e), id)} else iset{}
  {
    hide IsEligible, KeyOf;
    var n := |rules| - 1;
    assert rules == rules[..n] + [rules[n]];
    forall key ensures Selected(s, rules, e, key) <==>
        Selected(s, rules[..n], e, key) || (IsEligible(s, rules[n], e) && KeyOf(s, rules[n], e) == key) {}
    hide Selected;
  }

  lemma ApplyRulesMore(s: Settings, db: Db, rules: seq<Rule>, id: EventId, e: SecurityEvent)
    requires s.window > 0 && rules != []
    ensures var r, before := rules[|rules| - 1], ApplyRules(s, db, rules[..|rules| - 1], id, e);
            ApplyRules(s, db, rules, id, e) ==
              if IsEligible(s, r, e) then Correlate(before, r.ruleId, KeyOf(s, r, e), id, e) else before
  {
    hide IsEligible, Correlate, BuildKey, Canonical;
  }

  lemma NoRules(s: Settings, db: Db, id: EventId, e: SecurityEvent)
    requires s.window > 0
    ensures ApplyRules(s, db, [], id, e) == db && Reached(s, [], id, e) == iset{}
  {}

  lemma {:induction false} ApplyRulesRepresents(s: Settings, db: Db, members: iset<Membership>, rules: seq<Rule>,
                                                id: EventId, e: SecurityEvent)
    requires s.window > 0 && Represents(db, members)
    ensures Represents(ApplyRules(s, db, rules, id, e), members + Reached(s, rules, id, e))
  {
    hide *;
    if rules == [] {
      NoRules(s, db, id, e);
      assert members + iset{} == members;
    } else {
      var n, r := |rules| - 1, rules[|rules| - 1];
      ApplyRulesRepresents(s, db, members, rules[..n], id, e);
      ApplyRulesMore(s, db, rules, id, e);
      ReachedMore(s, rules, id, e);
      var so := members + Reached(s, rules[..n], id, e);
      if IsEligible(s, r, e) {
        CorrelateRepresents(ApplyRules(s, db, rules[..n], id, e), so, r.ruleId, KeyOf(s, r, e), id, e);
        assert members + Reached(s, rules, id, e) == so + iset{Membership(e.tenantId, KeyOf(s, r, e), id)};
      } else {
        assert members + Reached(s, rules, id, e) == so;
      }
    }
  }

  ghost function Groups(s: Settings, events: map<EventId, SecurityEvent>, rules: seq<Rule>,
                        ds: seq<Delivery>): iset<Membership>
    requires s.window > 0
  {
    iset m | InGroup(s, events, rules, ds, m)
  }

  lemma GroupsMore(s: Settings, events: map<EventId, SecurityEvent>, rules: seq<Rule>, ds: seq<Delivery>)
    requires s.window > 0 && ds != []
    ensures var n, d := |ds| - 1, ds[|ds| - 1];
            Groups(s, events, rules, ds) == Groups(s, events, rules, ds[..n]) +
              if d.event in events && events[d.event].tenantId == d.tenant
              then Reached(s, rules, d.event, events[d.event]) else iset{}
  {
    hide Selected;
    assert ds == ds[..|ds| - 1] + [ds[|ds| - 1]];
  }

  lemma {:induction false} ProcessRepresents(s: Settings, events: map<EventId, SecurityEvent>, rules: seq<Rule>,
                                             ds: seq<Delivery>)
    requires s.window > 0
    ensures var db := Process(s, Db(events, [], [], []), rules, ds);
            db.events == events && Represents(db, Groups(s, events, rules, ds))
  {
    if ds == [] {
      assert Groups(s, events, rules, ds) == iset{};
    } else {
      hide Represents, IsEligible, ApplyRules, Groups, Reached;
      var n := |ds| - 1;
      var d := ds[n];
      var before := Process(s, Db(events, [], [], []), rules, ds[..n]);
      ProcessRepresents(s, events, rules, ds[..n]);
      GroupsMore(s, events, rules, ds);
      if d.event in events && events[d.event].tenantId == d.tenant {
        ApplyRulesRepresents(s, before, Groups(s, events, rules, ds[..n]), rules, d.event, events[d.event]);
        ApplyRulesKeepsEvents(s, before, rules, d.event, events[d.event]);
      } else {
        assert Groups(s, events, rules, ds) == Groups(s, events, rules, ds[..n]);
      }
    }
  }

  lemma ApplyRulesKeepsEvents(s: Settings, db: Db, rules: seq<Rule>, id: EventId, e: SecurityEvent)
    requires s.window > 0
    ensures ApplyRules(s, db, rules, id, e).events == db.events
  {}

  ghost predicate HasIncident(db: Db, tenant: string, key: string) {
    exists i :: 0 <= i < |db.incidents| && db.incidents[i].tenantId == tenant && db.incidents[i].key == key
  }

  /**
   * From empty tables, every sequence of deliveries ends in the group-by: an incident exists for a
   * key exactly when its group is not empty, no key has two, and the evidence of an incident is
   * exactly its group, every member once.
   */
  lemma EngineIsGroupBy(s: Settings, events: map<EventId, SecurityEvent>, rules: seq<Rule>, ds: seq<Delivery>)
    requires s.window > 0
    ensures var db := Process(s, Db(events, [], [], []), rules, ds);
            && (forall tenant, key :: HasIncident(db, tenant, key) <==>
                  exists id :: InGroup(s, events, rules, ds, Membership(tenant, key, id)))
            && (forall i, j | 0 <= i < j < |db.incidents| :: !SameKey(db.incidents[i], db.incidents[j]))
            && (forall i, id | 0 <= i < |db.incidents| ::
                  Link(i, id) in db.evidence <==>
                  InGroup(s, events, rules, ds, Membership(db.incidents[i].tenantId, db.incidents[i].key, id)))
            && Distinct(db.evidence)
  {
    hide IsEligible, Selected, Process, InGroup;
    ProcessRepresents(s, events, rules, ds);
    var db := Process(s, Db(events, [], [], []), rules, ds);
    var groups := Groups(s, events, rules, ds);
    forall tenant, key | HasIncident(db, tenant, key)
      ensures exists id :: InGroup(s, events, rules, ds, Membership(tenant, key, id))
    {
      var i :| 0 <= i < |db.incidents| && db.incidents[i].tenantId == tenant && db.incidents[i].key == key;
      assert HasEvidence(db, i);
      var id :| Link(i, id) in db.evidence;
      assert Membership(tenant, key, id) in groups;
    }
    forall tenant, key, id | InGroup(s, events, rules, ds, Membership(tenant, key, id))
      ensures HasIncident(db, tenant, key)
    {
      assert Membership(tenant, key, id) in groups;
      var i: nat :| Holds(db, i, Membership(tenant, key, id));
    }
    forall i, id | 0 <= i < |db.incidents|
      ensures Link(i, id) in db.evidence <==>
              InGroup(s, events, rules, ds, Membership(db.incidents[i].tenantId, db.incidents[i].key, id))
    {
      var m := Membership(db.incidents[i].tenantId, db.incidents[i].key, id);
      if InGroup(s, events, rules, ds, m) {
        assert m in groups;
        var k: nat :| Holds(db, k, m);
        assert SameKey(db.incidents[i], db.incidents[k]);
      }
    }
  }

  /** Order and duplication of deliveries do not change which event is evidence for which key. */
  lemma OrderAndDuplicatesDoNotMatter(s: Settings, events: map<EventId, SecurityEvent>, rules: seq<Rule>,
                                      ds: seq<Delivery>, ds': seq<Delivery>, m: Membership)
    requires s.window > 0 && forall d :: d in ds <==> d in ds'
    ensures (exists i :: Holds(Process(s, Db(events, [], [], []), rules, ds), i, m))
       <==> (exists i :: Holds(Process(s, Db(events, [], [], []), rules, ds'), i, m))
  {
    hide IsEligible, Selected, Process;
    ProcessRepresents(s, events, rules, ds);
    ProcessRepresents(s, events, rules, ds');
    assert Groups(s, events, rules, ds) == Groups(s, events, rules, ds');
  }
}
