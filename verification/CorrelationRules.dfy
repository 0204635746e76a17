/** Security events, the two correlation rules, and the keys they give to events. */
module CorrelationRules {
  import opened Prelude
  import opened PythonText
  import opened CorrelationKey
  import IsoTime
  import TimeBucket

  datatype Severity = Info | Low | Medium | High | Critical

  type EventId = string

  /** The fields of a normalized security event that correlation reads. */
  datatype SecurityEvent = SecurityEvent(
    tenantId: string,
    source: string,
    eventType: string,
    severity: Severity,
    occurredAt: int,
    assetId: Option<string>
  )

  /** A rule is its identity and its criterion: keywords of the event type, or severities. */
  datatype Rule = Rule(
    ruleId: string,
    version: string,
    category: string,
    keywords: seq<string>,
    severities: set<Severity>
  )

  const INFRA_AVAILABILITY := Rule(
    "R-INFRA-001", "1.0.0", "availability",
    ["down", "unreachable", "timeout", "failure", "unavailable"], {High, Critical})

  const AUTH_BRUTE_FORCE := Rule(
    "R-AUTH-001", "1.0.0", "authentication",
    ["login_failed", "auth_failure", "brute_force", "invalid_credentials"], {})

  /** The rules every tenant gets. */
  const AVAILABLE_RULES := [INFRA_AVAILABILITY, AUTH_BRUTE_FORCE]

  /** What the deployment fixes: the Unicode tables and the window in seconds. */
  datatype Settings = Settings(unicode: UnicodeTable, window: int)

  predicate IsEligible(s: Settings, r: Rule, e: SecurityEvent) {
    || (exists i | 0 <= i < |r.keywords| :: Contains(Lower(s.unicode, e.eventType), r.keywords[i]))
    || e.severity in r.severities
  }

  function AssetKey(e: SecurityEvent): string {
    if e.assetId.Some? then e.assetId.value else e.source + ":" + e.eventType
  }

  function BuildKey(s: Settings, r: Rule, e: SecurityEvent): CorrelationKey
    requires s.window > 0
  {
    CorrelationKey(e.tenantId, r.ruleId, r.version, AssetKey(e), r.category,
                   IsoTime.IsoText(TimeBucket.Bucket(e.occurredAt, s.window)))
  }

  /** The key with the window left open, as `evaluate` builds it. */
  function PlaceholderKey(r: Rule, e: SecurityEvent): CorrelationKey {
    CorrelationKey(e.tenantId, r.ruleId, r.version, AssetKey(e), r.category, "placeholder")
  }

  function EligibleEvents(s: Settings, r: Rule, events: seq<SecurityEvent>): (chosen: seq<SecurityEvent>)
    ensures forall e :: e in chosen <==> e in events && IsEligible(s, r, e)
    ensures |chosen| <= |events|
  {
    if events == [] then []
    else
      var n := |events| - 1;
      EligibleEvents(s, r, events[..n]) + if IsEligible(s, r, events[n]) then [events[n]] else []
  }

  /** The key of an event under a rule, field by field, with the window left open. */
  predicate IsPlaceholder(k: CorrelationKey, r: Rule, e: SecurityEvent) {
    && k.tenantId == e.tenantId && k.ruleId == r.ruleId && k.ruleVersion == r.version && k.category == r.category
    && k.assetKey == (match e.assetId case Some(asset) => asset case None => e.source + ":" + e.eventType)
    && k.timeWindow == "placeholder"
  }

  predicate KeysOf(r: Rule, keys: seq<CorrelationKey>, events: seq<SecurityEvent>) {
    |keys| == |events| && forall i | 0 <= i < |keys| :: IsPlaceholder(keys[i], r, events[i])
  }

  lemma PlaceholderIs(r: Rule, e: SecurityEvent)
    ensures IsPlaceholder(PlaceholderKey(r, e), r, e)
  {}

  /** One key for every eligible event, in the order of the events. */
  method Evaluate(s: Settings, r: Rule, events: seq<SecurityEvent>) returns (keys: seq<CorrelationKey>)
    ensures KeysOf(r, keys, EligibleEvents(s, r, events))
  {
    hide IsEligible, PlaceholderKey, IsPlaceholder;
    keys := [];
    for n := 0 to |events|
      invariant KeysOf(r, keys, EligibleEvents(s, r, events[..n]))
    {
      assert events[..n + 1][..n] == events[..n];
      if IsEligible(s, r, events[n]) {
        PlaceholderIs(r, events[n]);
        keys := keys + [PlaceholderKey(r, events[n])];
      }
    }
    assert events[..|events|] == events;
  }

  predicate PlainRule(r: Rule) {
    ':' !in r.ruleId && ':' !in r.version && ':' !in r.category
  }

  lemma AvailableRulesArePlain()
    ensures forall i | 0 <= i < |AVAILABLE_RULES| :: PlainRule(AVAILABLE_RULES[i])
  {}

  /** The event's window starts in a year a datetime can hold. */
  predicate HasWindow(s: Settings, e: SecurityEvent)
    requires s.window > 0
  {
    IsoTime.Printable(TimeBucket.Bucket(e.occurredAt, s.window))
  }

  /** From the epoch to the last second of year 9999 every event has one. */
  lemma EventsHaveWindows(s: Settings, e: SecurityEvent)
    requires s.window > 0 && 0 <= e.occurredAt < (IsoTime.LAST + 1) * TimeBucket.SECOND
    ensures HasWindow(s, e)
  {
    TimeBucket.BucketCovers(e.occurredAt, s.window);
  }

  /**
   * Two rules and two events get the same canonical key exactly when tenant, rule, asset key and window
   * agree: no event of another tenant, rule, asset key or window is ever put in the same incident. What
   * the asset key tells of the asset is another matter.
   */
  lemma SameKeyIff(s: Settings, r: Rule, e: SecurityEvent, r': Rule, e': SecurityEvent)
    requires s.window > 0 && PlainRule(r) && PlainRule(r') && HasWindow(s, e) && HasWindow(s, e')
    requires ':' !in e.tenantId && ':' !in e'.tenantId
    ensures Canonical(BuildKey(s, r, e)) == Canonical(BuildKey(s, r', e')) <==>
      && e.tenantId == e'.tenantId
      && r.ruleId == r'.ruleId && r.version == r'.version && r.category == r'.category
      && AssetKey(e) == AssetKey(e')
      && TimeBucket.Bucket(e.occurredAt, s.window) == TimeBucket.Bucket(e'.occurredAt, s.window)
  {
    hide Canonical, IsoTime.IsoText, TimeBucket.Bucket, AssetKey;
    var b, b' := TimeBucket.Bucket(e.occurredAt, s.window), TimeBucket.Bucket(e'.occurredAt, s.window);
    IsoTime.IsoTextInjective(b, b');
    IsoTime.IsoTextInjective(b', b');
    CanonicalInjective(BuildKey(s, r, e), BuildKey(s, r', e'));
  }

  /** One source followed by a colon begins the other. */
  predicate SourcesClash(a: string, b: string) {
    a + ":" <= b || b + ":" <= a
  }

  /** Texts that agree up to different sources followed by a colon come from clashing sources. */
  lemma SharedText(a: string, t: string, b: string, t': string)
    requires a + ":" + t == b + ":" + t' && |a| < |b|
    ensures a + ":" <= b && t == b[|a| + 1..] + ":" + t'
  {
    var whole := a + ":" + t;
    assert whole[..|b|] == b && whole[|a|] == ':' && whole[..|a|] == a;
    assert whole[|a| + 1..] == t;
    assert (b + ":" + t')[|a| + 1..] == b[|a| + 1..] + ":" + t';
  }

  lemma DifferentSources(a: string, t: string, b: string, t': string)
    requires a + ":" + t == b + ":" + t' && a != b
    ensures |a| != |b| && SourcesClash(a, b)
  {
    assert a == (a + ":" + t)[..|a|] && b == (b + ":" + t')[..|b|];
    if |a| < |b| { SharedText(a, t, b, t'); } else { SharedText(b, t', a, t); }
  }

  /**
   * What an asset key tells while the sources do not clash: the asset, or the source and the type of an
   * unresolved event. Asset identifiers carry no colon, so resolved and unresolved assets never meet.
   */
  lemma AssetKeyTells(e: SecurityEvent, e': SecurityEvent)
    requires e.assetId.Some? ==> ':' !in e.assetId.value
    requires e'.assetId.Some? ==> ':' !in e'.assetId.value
    requires !SourcesClash(e.source, e'.source)
    ensures AssetKey(e) == AssetKey(e') <==>
      e.assetId == e'.assetId && (e.assetId.None? ==> e.source == e'.source && e.eventType == e'.eventType)
  {
    assert forall x: SecurityEvent | x.assetId.None? :: AssetKey(x)[|x.source|] == ':';
    if e.assetId.None? && e'.assetId.None? && AssetKey(e) == AssetKey(e') {
      if e.source != e'.source { DifferentSources(e.source, e.eventType, e'.source, e'.eventType); }
      assert e.eventType == AssetKey(e)[|e.source| + 1..];
      assert e'.eventType == AssetKey(e')[|e'.source| + 1..];
    }
  }

  predicate Unresolved(e: SecurityEvent, source: string) {
    e.assetId.None? && e.source == source
  }

  /** Two different sources have unresolved events with one asset key exactly when the sources clash. */
  lemma SourcesClashIff(a: string, b: string)
    requires a != b
    ensures (exists e, e' :: Unresolved(e, a) && Unresolved(e', b) && AssetKey(e) == AssetKey(e')) <==>
            SourcesClash(a, b)
  {
    if e, e' :| Unresolved(e, a) && Unresolved(e', b) && AssetKey(e) == AssetKey(e') {
      DifferentSources(a, e.eventType, b, e'.eventType);
    }
    if a + ":" <= b {
      var e, e' := ClashingEvents(a, b, "");
    } else if b + ":" <= a {
      var e', e := ClashingEvents(b, a, "");
      assert Unresolved(e, a) && Unresolved(e', b);
    }
  }

  /** An event of the shorter source and one of the longer source with the same asset key. */
  lemma ClashingEvents(a: string, b: string, eventType: string) returns (e: SecurityEvent, e': SecurityEvent)
    requires a + ":" <= b
    ensures e == SecurityEvent("tenant", a, b[|a| + 1..] + ":" + eventType, High, 0, None)
    ensures e' == SecurityEvent("tenant", b, eventType, High, 0, None)
    ensures Unresolved(e, a) && Unresolved(e', b) && AssetKey(e) == AssetKey(e')
  {
    e := SecurityEvent("tenant", a, b[|a| + 1..] + ":" + eventType, High, 0, None);
    e' := SecurityEvent("tenant", b, eventType, High, 0, None);
    assert b == a + ":" + b[|a| + 1..];
  }

  /**
   * For instance, a colon in the source makes two kinds of unresolved event that the availability rule
   * selects share their canonical key, and so their incident.
   */
  lemma SourceColonCollision(s: Settings, e: SecurityEvent)
    requires s.window > 0 && e.assetId.None?
    ensures var x, y := e.(source := "fw:edge", eventType := "down"), e.(source := "fw", eventType := "edge:down");
            && IsEligible(s, INFRA_AVAILABILITY, x) && IsEligible(s, INFRA_AVAILABILITY, y)
            && Canonical(BuildKey(s, INFRA_AVAILABILITY, x)) == Canonical(BuildKey(s, INFRA_AVAILABILITY, y))
  {
    hide Canonical, TimeBucket.Bucket, IsoTime.IsoText;
    var x, y := e.(source := "fw:edge", eventType := "down"), e.(source := "fw", eventType := "edge:down");
    HasDown(s.unicode);
    assert INFRA_AVAILABILITY.keywords[0] == "down";
    assert AssetKey(x) == "fw:edge" + ":" + "down" == "fw" + ":" + "edge:down" == AssetKey(y);
  }

  lemma HasDown(u: UnicodeTable)
    ensures Contains(Lower(u, "down"), "down") && Contains(Lower(u, "edge:down"), "down")
  {
    LowerStays(u, "down");
    LowerStays(u, "edge:down");
    assert "edge:down"[1..] == "dge:down" && "dge:down"[1..] == "ge:down" && "ge:down"[1..] == "e:down";
    assert "e:down"[1..] == ":down" && ":down"[1..] == "down";
    assert Contains("e:down", "down");
    assert Contains("ge:down", "down");
  }

  /** A text of small letters and punctuation is its own lower case. */
  lemma {:induction false} LowerStays(u: UnicodeTable, s: string)
    requires forall i | 0 <= i < |s| :: s[i] < 128 as char && !('A' <= s[i] <= 'Z')
    ensures Lower(u, s) == s
  {
    if s != "" { LowerStays(u, s[1..]); }
  }

  // ---------------------------------------------------------------------------------------------
  // Which rules the consumer hands to the handler.

  /** A catalogue row: a rule version and its activation flag. */
  datatype RuleVersion = RuleVersion(ruleId: string, version: string, isActive: bool)

  /** The active versions, as the catalogue query returns them. */
  function ListActive(catalogue: seq<RuleVersion>): (active: seq<RuleVersion>)
    ensures forall v :: v in active <==> v in catalogue && v.isActive
  {
    if catalogue == [] then []
    else
      var rest := ListActive(catalogue[1..]);
      if catalogue[0].isActive then [catalogue[0]] + rest else rest
  }

  predicate Catalogued(active: seq<RuleVersion>, r: Rule) {
    RuleVersion(r.ruleId, r.version, true) in active
  }

  /** The catalogued rules, each as often and in the order it is listed. */
  function CataloguedRules(rules: seq<Rule>, active: seq<RuleVersion>): (chosen: seq<Rule>)
    ensures forall r :: r in chosen <==> r in rules && Catalogued(active, r)
  {
    if rules == [] then []
    else
      var n := |rules| - 1;
      CataloguedRules(rules[..n], active) + if Catalogued(active, rules[n]) then [rules[n]] else []
  }

  method SelectActiveRules(rules: seq<Rule>, active: seq<RuleVersion>) returns (chosen: seq<Rule>)
    requires forall v | v in active :: v.isActive
    ensures chosen == if active == [] then rules else CataloguedRules(rules, active)
    ensures active != [] ==> forall r :: r in chosen <==> r in rules && Catalogued(active, r)
  {
    if active == [] { return rules; }
    chosen := [];
    for i := 0 to |rules|
      invariant chosen == CataloguedRules(rules[..i], active)
    {
      assert rules[..i + 1][..i] == rules[..i];
      if Catalogued(active, rules[i]) {
        chosen := chosen + [rules[i]];
      }
    }
    assert rules[..|rules|] == rules;
  }

  /** Whether the consumer applies a rule under a catalogue. */
  predicate Applied(rules: seq<Rule>, catalogue: seq<RuleVersion>, r: Rule) {
    var active := ListActive(catalogue);
    r in rules && (active == [] || Catalogued(active, r))
  }

  /**
   * A deactivated rule stays out exactly while some version is still active: once every version in
   * the catalogue is deactivated the listing is empty and all rules apply again.
   */
  lemma DeactivatedRuleApplies(rules: seq<Rule>, catalogue: seq<RuleVersion>, r: Rule)
    requires r in rules && RuleVersion(r.ruleId, r.version, true) !in catalogue
    ensures Applied(rules, catalogue, r) <==> forall v | v in catalogue :: !v.isActive
  {
    var active := ListActive(catalogue);
    if active != [] { assert active[0] in active; }
    if forall v | v in catalogue :: !v.isActive { if active != [] { assert false; } }
  }
}
