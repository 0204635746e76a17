/** Where incidents come from: each tells, in the audit trail, the event and the rule that opened it. */
module IncidentOrigins {
  import opened CorrelationRules
  import opened CorrelationStore
  import opened CorrelationGrouping
  import opened IncidentStatus

  /** The first evidence of an incident. */
  ghost predicate FirstEvidence(evidence: seq<Link>, i: nat, id: EventId) {
    exists k | 0 <= k < |evidence| ::
      evidence[k] == Link(i, id) && forall m | 0 <= m < k :: evidence[m].incident != i
  }

  /** Some rule of the identifier selects the event for the key. */
  ghost predicate SelectedBy(s: Settings, rules: seq<Rule>, ruleId: string, e: SecurityEvent, key: string)
    requires s.window > 0
  {
    exists r :: r in rules && r.ruleId == ruleId && IsEligible(s, r, e) && KeyOf(s, r, e) == key
  }

  /** The incident is open, its audit entry names the event it was opened for, and that is its first evidence. */
  ghost predicate Explained(s: Settings, rules: seq<Rule>, db: Db, i: nat)
    requires s.window > 0 && i < |db.incidents| == |db.audit|
  {
    var incident, entry := db.incidents[i], db.audit[i];
    && entry.incident == i && entry.event in db.events && FirstEvidence(db.evidence, i, entry.event)
    && incident.status == Open && incident.tenantId == db.events[entry.event].tenantId
    && incident.severity == db.events[entry.event].severity
    && SelectedBy(s, rules, entry.ruleId, db.events[entry.event], incident.key)
  }

  ghost predicate AllExplained(s: Settings, rules: seq<Rule>, db: Db)
    requires s.window > 0
  {
    && |db.audit| == |db.incidents|
    && (forall l | l in db.evidence :: l.incident < |db.incidents|)
    && (forall i | 0 <= i < |db.incidents| :: Explained(s, rules, db, i))
  }

  lemma FirstEvidenceStays(evidence: seq<Link>, more: seq<Link>, i: nat, id: EventId)
    requires FirstEvidence(evidence, i, id)
    ensures FirstEvidence(evidence + more, i, id)
  {
    var k :| 0 <= k < |evidence| && evidence[k] == Link(i, id) && forall m | 0 <= m < k :: evidence[m].incident != i;
    assert (evidence + more)[k] == Link(i, id);
  }

  lemma NewFirstEvidence(evidence: seq<Link>, i: nat, id: EventId)
    requires forall l | l in evidence :: l.incident < i
    ensures FirstEvidence(WithLink(evidence, Link(i, id)), i, id)
  {
    var after := WithLink(evidence, Link(i, id));
    assert after[|evidence|] == Link(i, id);
  }

  lemma WithLinkGrows(evidence: seq<Link>, l: Link) returns (more: seq<Link>)
    ensures WithLink(evidence, l) == evidence + more && forall x | x in more :: x == l
  {
    more := if l in evidence then [] else [l];
  }

  lemma CorrelateExplains(s: Settings, rules: seq<Rule>, db: Db, r: Rule, id: EventId, e: SecurityEvent)
    requires s.window > 0 && AllExplained(s, rules, db) && r in rules && IsEligible(s, r, e)
    requires id in db.events && db.events[id] == e
    ensures AllExplained(s, rules, Correlate(db, r.ruleId, KeyOf(s, r, e), id, e))
  {
    hide IsEligible, KeyOf, FirstEvidence, WithLink;
    var key := KeyOf(s, r, e);
    var db' := Correlate(db, r.ruleId, key, id, e);
    var found := FindOpen(db.incidents, e.tenantId, key);
    var i := if found.Some? then found.value else |db.incidents|;
    var more := WithLinkGrows(db.evidence, Link(i, id));
    forall k | 0 <= k < |db.incidents| ensures Explained(s, rules, db', k) {
      assert Explained(s, rules, db, k);
      FirstEvidenceStays(db.evidence, more, k, db.audit[k].event);
    }
    if found.None? {
      NewFirstEvidence(db.evidence, i, id);
      assert SelectedBy(s, rules, r.ruleId, e, key);
      assert Explained(s, rules, db', i);
    }
  }

  lemma {:induction false} RulesExplain(s: Settings, all: seq<Rule>, rules: seq<Rule>, db: Db, id: EventId,
                                        e: SecurityEvent)
    requires s.window > 0 && AllExplained(s, all, db) && (forall r | r in rules :: r in all)
    requires id in db.events && db.events[id] == e
    ensures AllExplained(s, all, ApplyRules(s, db, rules, id, e))
  {
    hide IsEligible, AllExplained, Correlate;
    if rules != [] {
      var n := |rules| - 1;
      RulesExplain(s, all, rules[..n], db, id, e);
      ApplyRulesKeepsEvents(s, db, rules[..n], id, e);
      var now := ApplyRules(s, db, rules[..n], id, e);
      if IsEligible(s, rules[n], e) { CorrelateExplains(s, all, now, rules[n], id, e); }
    }
  }

  /**
   * After any sequence of deliveries from empty tables: one audit entry for each incident, naming an event
   * of its tenant that a rule of the named identifier selects for its key; that event is its first
   * evidence and gave it its severity; and it is open.
   */
  lemma {:induction false} IncidentsAreExplained(s: Settings, events: map<EventId, SecurityEvent>, rules: seq<Rule>,
                                                 ds: seq<Delivery>)
    requires s.window > 0
    ensures var db := Process(s, Db(events, [], [], []), rules, ds);
            db.events == events && AllExplained(s, rules, db)
  {
    hide IsEligible, ApplyRules;
    if ds != [] {
      hide AllExplained;
      var n := |ds| - 1;
      var d, before := ds[n], Process(s, Db(events, [], [], []), rules, ds[..n]);
      IncidentsAreExplained(s, events, rules, ds[..n]);
      if d.event in events && events[d.event].tenantId == d.tenant {
        RulesExplain(s, rules, rules, before, d.event, events[d.event]);
        ApplyRulesKeepsEvents(s, before, rules, d.event, events[d.event]);
      }
    }
  }
}
