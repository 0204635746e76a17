/** Which events the two correlation rules select, read off the event alone, and the keys they give. */
module Eligibility {
  import opened PythonText
  import opened CorrelationKey
  import opened CorrelationRules
  import IsoTime
  import TimeBucket

  /** The availability rule: one of five words in the event type, in any case, or a high severity. */
  lemma AvailabilityIff(s: Settings, e: SecurityEvent)
    requires IsAscii(e.eventType)
    ensures IsEligible(s, INFRA_AVAILABILITY, e) <==>
      || FoundIn(e.eventType, "down") || FoundIn(e.eventType, "unreachable") || FoundIn(e.eventType, "timeout")
      || FoundIn(e.eventType, "failure") || FoundIn(e.eventType, "unavailable")
      || e.severity == High || e.severity == Critical
  {
    hide FoundIn, Contains, Lower, IsAscii;
    KeywordsFound(s, INFRA_AVAILABILITY, e);
    var words := INFRA_AVAILABILITY.keywords;
    assert words[0] == "down" && words[1] == "unreachable" && words[2] == "timeout";
    assert words[3] == "failure" && words[4] == "unavailable";
  }

  /** The brute-force rule: one of four words in the event type, in any case, whatever the severity. */
  lemma BruteForceIff(s: Settings, e: SecurityEvent)
    requires IsAscii(e.eventType)
    ensures IsEligible(s, AUTH_BRUTE_FORCE, e) <==>
      || FoundIn(e.eventType, "login_failed") || FoundIn(e.eventType, "auth_failure")
      || FoundIn(e.eventType, "brute_force") || FoundIn(e.eventType, "invalid_credentials")
  {
    hide FoundIn, Contains, Lower, IsAscii;
    KeywordsFound(s, AUTH_BRUTE_FORCE, e);
    var words := AUTH_BRUTE_FORCE.keywords;
    assert words[0] == "login_failed" && words[1] == "auth_failure";
    assert words[2] == "brute_force" && words[3] == "invalid_credentials";
  }

  lemma WordsAreAscii()
    ensures forall word | word in INFRA_AVAILABILITY.keywords || word in AUTH_BRUTE_FORCE.keywords :: IsAscii(word)
  {}

  lemma KeywordsFound(s: Settings, r: Rule, e: SecurityEvent)
    requires IsAscii(e.eventType) && (r == INFRA_AVAILABILITY || r == AUTH_BRUTE_FORCE)
    ensures forall i | 0 <= i < |r.keywords| ::
              Contains(Lower(s.unicode, e.eventType), r.keywords[i]) <==> FoundIn(e.eventType, r.keywords[i])
  {
    WordsAreAscii();
    hide FoundIn, Contains, Lower, IsAscii;
    forall i | 0 <= i < |r.keywords|
      ensures Contains(Lower(s.unicode, e.eventType), r.keywords[i]) <==> FoundIn(e.eventType, r.keywords[i])
    {
      assert r.keywords[i] in r.keywords;
      LowerContainsIff(s.unicode, e.eventType, r.keywords[i]);
    }
  }

  /** In any text, whatever else it holds, a keyword in any case makes the event eligible. */
  lemma KeywordSelects(s: Settings, r: Rule, e: SecurityEvent, k: nat, i: nat)
    requires k < |r.keywords| && IsAscii(r.keywords[k]) && FoundAt(e.eventType, r.keywords[k], i)
    ensures IsEligible(s, r, e)
  {
    FoundIsContained(s.unicode, e.eventType, r.keywords[k], i);
  }

  /** Events whose types differ only in case are selected alike, by every rule. */
  lemma CaseDoesNotMatter(s: Settings, r: Rule, e: SecurityEvent, e': SecurityEvent)
    requires SameButCase(e.eventType, e'.eventType) && e.severity == e'.severity
    ensures IsEligible(s, r, e) <==> IsEligible(s, r, e')
  {
    CaseIsLowered(s.unicode, e.eventType, e'.eventType);
  }

  // ---------------------------------------------------------------------------------------------
  // The canonical strings of the two rules.

  /** The text an asset key is made of: the asset, or source and type of an unresolved event. */
  lemma AssetKeyText(e: SecurityEvent)
    ensures e.assetId.Some? ==> AssetKey(e) == e.assetId.value
    ensures e.assetId.None? ==> AssetKey(e) == e.source + ":" + e.eventType
  {}

  lemma AvailabilityKeyText(s: Settings, e: SecurityEvent)
    requires s.window > 0
    ensures Canonical(BuildKey(s, INFRA_AVAILABILITY, e)) ==
              e.tenantId + (":R-INFRA-001:1.0.0:" + (AssetKey(e) +
                (":availability:" + IsoTime.IsoText(TimeBucket.Bucket(e.occurredAt, s.window)))))
  {
    hide AssetKey, IsoTime.IsoText, TimeBucket.Bucket;
    var k := BuildKey(s, INFRA_AVAILABILITY, e);
    CanonicalNests(k);
    TextOf(k, "R-INFRA-001", "1.0.0", "availability");
    assert ":" + ("R-INFRA-001" + (":" + ("1.0.0" + ":"))) == ":R-INFRA-001:1.0.0:";
    assert ":" + ("availability" + ":") == ":availability:";
  }

  lemma BruteForceKeyText(s: Settings, e: SecurityEvent)
    requires s.window > 0
    ensures Canonical(BuildKey(s, AUTH_BRUTE_FORCE, e)) ==
              e.tenantId + (":R-AUTH-001:1.0.0:" + (AssetKey(e) +
                (":authentication:" + IsoTime.IsoText(TimeBucket.Bucket(e.occurredAt, s.window)))))
  {
    hide AssetKey, IsoTime.IsoText, TimeBucket.Bucket;
    var k := BuildKey(s, AUTH_BRUTE_FORCE, e);
    TextOf(k, "R-AUTH-001", "1.0.0", "authentication");
    assert ":" + ("R-AUTH-001" + (":" + ("1.0.0" + ":"))) == ":R-AUTH-001:1.0.0:";
    assert ":" + ("authentication" + ":") == ":authentication:";
  }

  lemma TextOf(k: CorrelationKey, rule: string, version: string, category: string)
    requires k.ruleId == rule && k.ruleVersion == version && k.category == category
    ensures Canonical(k) == k.tenantId + ((":" + (rule + (":" + (version + ":")))) +
                              (k.assetKey + ((":" + (category + ":")) + k.timeWindow)))
  {}
}
