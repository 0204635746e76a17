/** Which sources, as ingestion accepts them, have unresolved events put into one incident. */
module SourceClashes {
  import opened PythonText
  import opened CorrelationKey
  import opened CorrelationRules
  import Ingestion

  /** A source or event type after ingestion: not empty, blanks stripped at both ends, within its column. */
  predicate Accepted(u: UnicodeTable, text: string, width: nat) {
    text != "" && !IsSpace(u, text[0]) && !IsSpace(u, text[|text| - 1]) && |text| <= width
  }

  /** An unresolved event of the source that the availability rule selects. */
  predicate Reported(s: Settings, e: SecurityEvent, source: string)
    requires s.window > 0
  {
    && Unresolved(e, source) && |e.tenantId| == Ingestion.UUID_LENGTH && ':' !in e.tenantId
    && Accepted(s.unicode, e.eventType, Ingestion.EVENT_TYPE_WIDTH)
    && IsEligible(s, INFRA_AVAILABILITY, e) && HasWindow(s, e)
  }

  predicate Merged(s: Settings, e: SecurityEvent, e': SecurityEvent)
    requires s.window > 0
  {
    Canonical(BuildKey(s, INFRA_AVAILABILITY, e)) == Canonical(BuildKey(s, INFRA_AVAILABILITY, e'))
  }

  /** The second source is the first, a colon, and maybe more that does not begin with white space. */
  predicate Continues(u: UnicodeTable, a: string, b: string) {
    a + ":" <= b && (|b| == |a| + 1 || !IsSpace(u, b[|a| + 1]))
  }

  /**
   * Two different sources have unresolved events that end in one incident if and only if one of them
   * continues the other after a colon.
   */
  lemma SourcesMergeIff(s: Settings, a: string, b: string)
    requires s.window > 0 && a != b
    requires Accepted(s.unicode, a, Ingestion.SOURCE_WIDTH) && Accepted(s.unicode, b, Ingestion.SOURCE_WIDTH)
    ensures (exists e, e' :: Reported(s, e, a) && Reported(s, e', b) && Merged(s, e, e')) <==>
            Continues(s.unicode, a, b) || Continues(s.unicode, b, a)
  {
    hide Reported, Merged, Continues, Accepted;
    if e, e' :| Reported(s, e, a) && Reported(s, e', b) && Merged(s, e, e') {
      MergedContinue(s, e, e', a, b);
    }
    if Continues(s.unicode, a, b) {
      var e, e' := MergingEvents(s, a, b);
    } else if Continues(s.unicode, b, a) {
      var e', e := MergingEvents(s, b, a);
      assert Merged(s, e, e') by { MergedEitherWay(s, e, e'); }
    }
  }

  lemma MergedEitherWay(s: Settings, e: SecurityEvent, e': SecurityEvent)
    requires s.window > 0
    ensures Merged(s, e, e') == Merged(s, e', e)
  {}

  lemma MergedContinue(s: Settings, e: SecurityEvent, e': SecurityEvent, a: string, b: string)
    requires s.window > 0 && a != b && Reported(s, e, a) && Reported(s, e', b) && Merged(s, e, e')
    ensures Continues(s.unicode, a, b) || Continues(s.unicode, b, a)
  {
    hide Canonical, BuildKey, IsEligible, IsSpace, HasWindow;
    AvailableRulesArePlain();
    assert AVAILABLE_RULES[0] == INFRA_AVAILABILITY;
    SameKeyIff(s, INFRA_AVAILABILITY, e, INFRA_AVAILABILITY, e');
    DifferentSources(a, e.eventType, b, e'.eventType);
    if |a| < |b| {
      SharedText(a, e.eventType, b, e'.eventType);
    } else {
      SharedText(b, e'.eventType, a, e.eventType);
    }
  }

  lemma MergingEvents(s: Settings, a: string, b: string) returns (e: SecurityEvent, e': SecurityEvent)
    requires s.window > 0 && Continues(s.unicode, a, b)
    requires Accepted(s.unicode, a, Ingestion.SOURCE_WIDTH) && Accepted(s.unicode, b, Ingestion.SOURCE_WIDTH)
    ensures Reported(s, e, a) && Reported(s, e', b) && Merged(s, e, e')
  {
    hide Canonical, IsoTime.IsoText, TimeBucket.Bucket, HasWindow, Lower;
    e, e' := ClashingEvents(a, b, "x");
    var tenant := seq(Ingestion.UUID_LENGTH, i => '0');
    e, e' := e.(tenantId := tenant), e'.(tenantId := tenant);
    EventsHaveWindows(s, e);
    EventsHaveWindows(s, e');
    assert e.eventType[|e.eventType| - 1] == 'x';
  }
}
