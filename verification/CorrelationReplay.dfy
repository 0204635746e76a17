/** Replaying one event after operators have moved incidents through their life cycle. */
module CorrelationReplay {
  import opened CorrelationRules
  import opened CorrelationStore
  import opened IncidentStatus
  import opened CorrelationGrouping

  /** The partial unique index: at most one active incident for a tenant and key. */
  ghost predicate OneActive(db: Db) {
    forall i, j | 0 <= i < j < |db.incidents| ::
      !(&& SameKey(db.incidents[i], db.incidents[j])
        && IsActive(db.incidents[i].status) && IsActive(db.incidents[j].status))
  }

  /** Some active incident of the key holds the event. */
  ghost predicate Held(db: Db, tenant: string, key: string, id: EventId) {
    exists i :: 0 <= i < |db.incidents| && ActiveFor(db.incidents[i], tenant, key) && Link(i, id) in db.evidence
  }

  ghost function Size(db: Db): nat {
    |db.incidents| + |db.evidence|
  }

  /** One rule changes nothing exactly when an active incident of its key already holds the event. */
  lemma CorrelateNoOpIff(db: Db, ruleId: string, key: string, id: EventId, e: SecurityEvent)
    requires OneActive(db)
    ensures Correlate(db, ruleId, key, id, e) == db <==> Held(db, e.tenantId, key, id)
    ensures Correlate(db, ruleId, key, id, e) != db ==> Size(Correlate(db, ruleId, key, id, e)) > Size(db)
  {}

  lemma CorrelateKeepsOneActive(db: Db, ruleId: string, key: string, id: EventId, e: SecurityEvent)
    requires OneActive(db)
    ensures OneActive(Correlate(db, ruleId, key, id, e))
  {}

  lemma CorrelateHolds(db: Db, ruleId: string, key: string, id: EventId, e: SecurityEvent)
    ensures Held(Correlate(db, ruleId, key, id, e), e.tenantId, key, id)
  {}

  lemma CorrelateKeepsHeld(db: Db, ruleId: string, key: string, id: EventId, e: SecurityEvent, tenant: string,
                           key': string)
    requires Held(db, tenant, key', id)
    ensures Held(Correlate(db, ruleId, key, id, e), tenant, key', id)
  {}

  /** Every eligible rule finds the event already held. */
  ghost predicate AllHeld(s: Settings, db: Db, rules: seq<Rule>, id: EventId, e: SecurityEvent)
    requires s.window > 0
  {
    forall r | r in rules && IsEligible(s, r, e) :: Held(db, e.tenantId, KeyOf(s, r, e), id)
  }

  lemma {:induction false} ApplyRulesGrows(s: Settings, db: Db, rules: seq<Rule>, id: EventId, e: SecurityEvent)
    requires s.window > 0 && OneActive(db)
    ensures var db' := ApplyRules(s, db, rules, id, e);
            && OneActive(db') && Size(db) <= Size(db') && (Size(db') == Size(db) ==> db' == db)
            && AllHeld(s, db', rules, id, e)
  {
    hide IsEligible, Correlate, OneActive, Held;
    if rules != [] {
      var n := |rules| - 1;
      var r := rules[n];
      var before := ApplyRules(s, db, rules[..n], id, e);
      ApplyRulesGrows(s, db, rules[..n], id, e);
      assert rules == rules[..n] + [r];
      if IsEligible(s, r, e) {
        var key := KeyOf(s, r, e);
        CorrelateNoOpIff(before, r.ruleId, key, id, e);
        CorrelateKeepsOneActive(before, r.ruleId, key, id, e);
        CorrelateHolds(before, r.ruleId, key, id, e);
        forall q | q in rules[..n] && IsEligible(s, q, e)
          ensures Held(ApplyRules(s, db, rules, id, e), e.tenantId, KeyOf(s, q, e), id)
        {
          CorrelateKeepsHeld(before, r.ruleId, key, id, e, e.tenantId, KeyOf(s, q, e));
        }
      }
    }
  }

  lemma {:induction false} HeldRulesDoNothing(s: Settings, db: Db, rules: seq<Rule>, id: EventId, e: SecurityEvent)
    requires s.window > 0 && OneActive(db) && AllHeld(s, db, rules, id, e)
    ensures ApplyRules(s, db, rules, id, e) == db
  {
    hide IsEligible, Correlate, OneActive, Held;
    if rules != [] {
      var n := |rules| - 1;
      var r := rules[n];
      HeldRulesDoNothing(s, db, rules[..n], id, e);
      if IsEligible(s, r, e) { CorrelateNoOpIff(db, r.ruleId, KeyOf(s, r, e), id, e); }
    }
  }

  /**
   * Replaying an event leaves the tables as they are exactly while, for every eligible rule, an
   * active incident of the rule's key holds the event.
   */
  lemma ReplayNoOpIff(s: Settings, db: Db, rules: seq<Rule>, tenant: string, id: EventId)
    requires s.window > 0 && OneActive(db)
    requires id in db.events && db.events[id].tenantId == tenant
    ensures Handled(s, db, rules, tenant, id) == db <==> AllHeld(s, db, rules, id, db.events[id])
  {
    hide IsEligible, OneActive, Held, ApplyRules;
    ApplyRulesGrows(s, db, rules, id, db.events[id]);
    if AllHeld(s, db, rules, id, db.events[id]) { HeldRulesDoNothing(s, db, rules, id, db.events[id]); }
  }

  /** Delivering an event twice in a row is delivering it once. */
  lemma ReplayTwice(s: Settings, db: Db, rules: seq<Rule>, tenant: string, id: EventId)
    requires s.window > 0 && OneActive(db)
    ensures var once := Handled(s, db, rules, tenant, id); Handled(s, once, rules, tenant, id) == once
  {
    hide IsEligible, OneActive, Held, ApplyRules;
    if id in db.events && db.events[id].tenantId == tenant {
      var e := db.events[id];
      ApplyRulesGrows(s, db, rules, id, e);
      ApplyRulesKeepsEvents(s, db, rules, id, e);
      HeldRulesDoNothing(s, ApplyRules(s, db, rules, id, e), rules, id, e);
    }
  }

  /** What a delivery adds: old rows stay, and every new incident is open, linked and was missing. */
  ghost predicate OpensMissing(db: Db, db': Db, tenant: string, id: EventId) {
    && db.incidents <= db'.incidents && db.evidence <= db'.evidence
    && forall i | |db.incidents| <= i < |db'.incidents| ::
         var inc := db'.incidents[i];
         && inc.tenantId == tenant && inc.status == Open && Link(i, id) in db'.evidence
         && FindOpen(db.incidents, tenant, inc.key).None?
  }

  /** A rule opens an incident only for a key that had no active one. */
  lemma CorrelateOpens(db: Db, before: Db, ruleId: string, key: string, id: EventId, e: SecurityEvent)
    requires OpensMissing(db, before, e.tenantId, id)
    ensures var db' := Correlate(before, ruleId, key, id, e);
            && OpensMissing(db, db', e.tenantId, id) && before.incidents <= db'.incidents
            && forall i | |before.incidents| <= i < |db'.incidents| :: db'.incidents[i].key == key
  {}

  ghost predicate OpenedForRules(s: Settings, rules: seq<Rule>, e: SecurityEvent, db: Db, db': Db)
    requires s.window > 0
  {
    forall i | |db.incidents| <= i < |db'.incidents| :: Selected(s, rules, e, db'.incidents[i].key)
  }

  lemma {:induction false} ApplyRulesOpens(s: Settings, db: Db, rules: seq<Rule>, id: EventId, e: SecurityEvent)
    requires s.window > 0
    ensures var db' := ApplyRules(s, db, rules, id, e);
            OpensMissing(db, db', e.tenantId, id) && OpenedForRules(s, rules, e, db, db')
  {
    if rules != [] {
      var n := |rules| - 1;
      var r := rules[n];
      var before := ApplyRules(s, db, rules[..n], id, e);
      ApplyRulesOpens(s, db, rules[..n], id, e);
      SelectedMore(s, rules, e);
      CorrelateOpens(db, before, r.ruleId, KeyOf(s, r, e), id, e);
      hide IsEligible, Selected, Correlate, OpensMissing;
    }
  }

  lemma SelectedMore(s: Settings, rules: seq<Rule>, e: SecurityEvent)
    requires s.window > 0 && rules != []
    ensures var n := |rules| - 1;
            && (forall key | Selected(s, rules[..n], e, key) :: Selected(s, rules, e, key))
            && (IsEligible(s, rules[n], e) ==> Selected(s, rules, e, KeyOf(s, rules[n], e)))
  {}

  /**
   * One delivery opens exactly one incident for every key of an eligible rule that has no active
   * incident, for instance because it was resolved or closed, and opens nothing else.
   */
  lemma OpensExactlyTheMissing(s: Settings, db: Db, rules: seq<Rule>, tenant: string, id: EventId, key: string)
    requires s.window > 0 && OneActive(db)
    requires id in db.events && db.events[id].tenantId == tenant
    ensures var db' := Handled(s, db, rules, tenant, id);
            && OpensMissing(db, db', tenant, id)
            && (forall i, j | |db.incidents| <= i < j < |db'.incidents| :: !SameKey(db'.incidents[i], db'.incidents[j]))
            && ((exists i :: |db.incidents| <= i < |db'.incidents| && db'.incidents[i].key == key) <==>
                Selected(s, rules, db.events[id], key) && FindOpen(db.incidents, tenant, key).None?)
  {
    hide IsEligible, ApplyRules;
    var e := db.events[id];
    var db' := ApplyRules(s, db, rules, id, e);
    ApplyRulesGrows(s, db, rules, id, e);
    ApplyRulesOpens(s, db, rules, id, e);
    if Selected(s, rules, e, key) && FindOpen(db.incidents, tenant, key).None? {
      var r :| r in rules && IsEligible(s, r, e) && KeyOf(s, r, e) == key;
      assert forall k | 0 <= k < |db.incidents| :: db.incidents[k] == db'.incidents[k];
      assert Held(db', tenant, key, id);
      var i :| 0 <= i < |db'.incidents| && ActiveFor(db'.incidents[i], tenant, key) && Link(i, id) in db'.evidence;
    }
  }
}
