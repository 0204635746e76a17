/** The versioned correlation key, its canonical string, and what that string determines. */
module CorrelationKey {
  import opened Prelude
  import opened IsoTime

  datatype CorrelationKey = CorrelationKey(
    tenantId: string,      // the printed UUID
    ruleId: string,
    ruleVersion: string,
    assetKey: string,
    category: string,
    timeWindow: string     // the ISO 8601 start of the window
  )

  function Canonical(k: CorrelationKey): string {
    k.tenantId + ":" + k.ruleId + ":" + k.ruleVersion + ":" + k.assetKey + ":" + k.category + ":" + k.timeWindow
  }

  datatype Cut = Cut(left: string, right: string)

  /** Cuts a text at its first colon. */
  function CutFirst(s: string): (r: Option<Cut>)
    ensures r.Some? ==> r.value.left + ":" + r.value.right == s && ':' !in r.value.left
    ensures r.None? <==> ':' !in s
  {
    if s == "" then None
    else if s[0] == ':' then Some(Cut("", s[1..]))
    else
      match CutFirst(s[1..])
      case Some(Cut(left, right)) => Some(Cut([s[0]] + left, right))
      case None => None
  }

  /** Cuts a text at its last colon. */
  function CutLast(s: string): (r: Option<Cut>)
    ensures r.Some? ==> r.value.left + ":" + r.value.right == s && ':' !in r.value.right
    ensures r.None? <==> ':' !in s
  {
    if s == "" then None
    else
      match CutLast(s[1..])
      case Some(Cut(left, right)) => Some(Cut([s[0]] + left, right))
      case None => if s[0] == ':' then Some(Cut("", s[1..])) else None
  }

  /** The three fields read from the right: the window by its length, then the category. */
  datatype Tail = Tail(assetKey: string, category: string, timeWindow: string)

  function DecodeTail(s: string): Option<Tail> {
    var e := |s| - ISO_LENGTH;
    if e <= 0 || s[e - 1] != ':' then None
    else
      match CutLast(s[..e - 1])
      case Some(Cut(asset, category)) => Some(Tail(asset, category, s[e..]))
      case None => None
  }

  /** Reads a canonical string back: three fields from the left, three from the right. */
  function Decode(s: string): Option<CorrelationKey> {
    match CutFirst(s)
    case None => None
    case Some(Cut(tenant, s1)) =>
      match CutFirst(s1)
      case None => None
      case Some(Cut(rule, s2)) =>
        match CutFirst(s2)
        case None => None
        case Some(Cut(version, s3)) =>
          match DecodeTail(s3)
          case None => None
          case Some(t) => Some(CorrelationKey(tenant, rule, version, t.assetKey, t.category, t.timeWindow))
  }

  /** What makes the canonical string readable; the asset key may hold any number of colons. */
  predicate WellFormed(k: CorrelationKey) {
    && ':' !in k.tenantId && ':' !in k.ruleId && ':' !in k.ruleVersion && ':' !in k.category
    && |k.timeWindow| == ISO_LENGTH
  }

  /** The text starts with its first colon. */
  lemma CutFirstHere(right: string)
    ensures CutFirst(":" + right) == Some(Cut("", right))
  {
    assert (":" + right)[1..] == right;
  }

  /** A character that is no colon goes to the left part. */
  lemma CutFirstLater(c: char, s: string)
    requires c != ':' && CutFirst(s).Some?
    ensures CutFirst([c] + s) == Some(Cut([c] + CutFirst(s).value.left, CutFirst(s).value.right))
  {
    assert ([c] + s)[1..] == s;
  }

  lemma {:induction false} CutFirstAt(left: string, right: string)
    requires ':' !in left
    ensures CutFirst(left + (":" + right)) == Some(Cut(left, right))
  {
    hide CutFirst;
    if left == "" {
      CutFirstHere(right);
      assert left + (":" + right) == ":" + right;
    } else {
      var c, rest := left[0], left[1..];
      CutFirstAt(rest, right);
      CutFirstLater(c, rest + (":" + right));
      assert left == [c] + rest;
      assert [c] + rest + (":" + right) == [c] + (rest + (":" + right));
    }
  }

  /** A text without a colon after its first character, which is one, is cut there. */
  lemma CutLastHere(right: string)
    requires ':' !in right
    ensures CutLast(":" + right) == Some(Cut("", right))
  {
    assert (":" + right)[1..] == right;
  }

  lemma CutLastLater(c: char, s: string)
    requires CutLast(s).Some?
    ensures CutLast([c] + s) == Some(Cut([c] + CutLast(s).value.left, CutLast(s).value.right))
  {
    assert ([c] + s)[1..] == s;
  }

  lemma {:induction false} CutLastAt(left: string, right: string)
    requires ':' !in right
    ensures CutLast(left + (":" + right)) == Some(Cut(left, right))
  {
    hide CutLast;
    if left == "" {
      CutLastHere(right);
      assert left + (":" + right) == ":" + right;
    } else {
      var c, rest := left[0], left[1..];
      CutLastAt(rest, right);
      CutLastLater(c, rest + (":" + right));
      assert left == [c] + rest;
      assert [c] + rest + (":" + right) == [c] + (rest + (":" + right));
    }
  }

  function CanonicalTail(t: Tail): string {
    t.assetKey + (":" + t.category) + (":" + t.timeWindow)
  }

  lemma DecodeTailAt(t: Tail)
    requires ':' !in t.category && |t.timeWindow| == ISO_LENGTH
    ensures DecodeTail(CanonicalTail(t)) == Some(t)
  {
    var s := CanonicalTail(t);
    var left := t.assetKey + (":" + t.category);
    CutLastAt(t.assetKey, t.category);
    assert s[..|left|] == left && s[|left| + 1..] == t.timeWindow;
  }

  lemma CanonicalNests(k: CorrelationKey)
    ensures Canonical(k) == k.tenantId + (":" + (k.ruleId + (":" + (k.ruleVersion + (":"
                            + CanonicalTail(Tail(k.assetKey, k.category, k.timeWindow)))))))
  {}

  /** The canonical string of a well-formed key reads back to the key. */
  lemma DecodeCanonical(k: CorrelationKey)
    requires WellFormed(k)
    ensures Decode(Canonical(k)) == Some(k)
  {
    hide CutFirst, DecodeTail, Canonical, CanonicalTail;
    var t := Tail(k.assetKey, k.category, k.timeWindow);
    var s3 := CanonicalTail(t);
    var s2 := k.ruleVersion + (":" + s3);
    CanonicalNests(k);
    CutFirstAt(k.tenantId, k.ruleId + (":" + s2));
    CutFirstAt(k.ruleId, s2);
    CutFirstAt(k.ruleVersion, s3);
    DecodeTailAt(t);
  }

  lemma DecodedTail(s: string, t: Tail)
    requires DecodeTail(s) == Some(t)
    ensures ':' !in t.category && |t.timeWindow| == ISO_LENGTH && CanonicalTail(t) == s
  {}

  /** Whatever decodes is well formed and is the text of the key it decodes to. */
  lemma CanonicalDecode(s: string)
    ensures Decode(s).Some? ==> WellFormed(Decode(s).value) && Canonical(Decode(s).value) == s
  {
    hide CutFirst, DecodeTail, Canonical, CanonicalTail;
    if Decode(s).Some? {
      var c1 := CutFirst(s).value;
      var c2 := CutFirst(c1.right).value;
      var c3 := CutFirst(c2.right).value;
      DecodedTail(c3.right, DecodeTail(c3.right).value);
      CanonicalNests(Decode(s).value);
      Grouped(c3.left, c3.right);
      Grouped(c2.left, c2.right);
      Grouped(c1.left, c1.right);
    }
  }

  lemma Grouped(left: string, right: string)
    ensures left + ":" + right == left + (":" + right)
  {}

  /** A key survives the round trip exactly when it is well formed. */
  lemma RoundTripIff(k: CorrelationKey)
    ensures Decode(Canonical(k)) == Some(k) <==> WellFormed(k)
  {
    hide Decode, Canonical;
    CanonicalDecode(Canonical(k));
    if WellFormed(k) { DecodeCanonical(k); }
  }

  /** Well-formed keys share a canonical string, and so a hash, only when all six fields agree. */
  lemma CanonicalInjective(k: CorrelationKey, k': CorrelationKey)
    requires WellFormed(k) && WellFormed(k')
    ensures Canonical(k) == Canonical(k') <==> k == k'
  {
    hide Decode, Canonical;
    DecodeCanonical(k);
    DecodeCanonical(k');
  }

  // ---------------------------------------------------------------------------------------------
  // Which keys share their string with another.

  function Colons(s: string): nat {
    multiset(s)[':']
  }

  lemma ColonsAdd(a: string, b: string)
    ensures Colons(a + b) == Colons(a) + Colons(b)
  {}

  lemma NoColons(s: string)
    ensures ':' !in s <==> Colons(s) == 0
  {
    assert ':' in s <==> ':' in multiset(s);
  }

  lemma OneColon()
    ensures Colons(":") == 1
  {}

  /** Cutting a text takes one colon, and what follows the text stays behind it. */
  lemma CutWithin(s: string, after: string)
    requires Colons(s) >= 1
    ensures CutFirst(s).Some? && Colons(CutFirst(s).value.right) == Colons(s) - 1
    ensures CutFirst(s + after) == Some(Cut(CutFirst(s).value.left, CutFirst(s).value.right + after))
  {
    hide CutFirst, Colons;
    NoColons(s);
    var left, right := CutFirst(s).value.left, CutFirst(s).value.right;
    Grouped(left, right);
    NoColons(left);
    OneColon();
    ColonsAdd(left, ":" + right);
    ColonsAdd(":", right);
    CutFirstAt(left, right + after);
    assert s + after == left + (":" + (right + after));
  }

  /** A tail whose first part has a colon, followed by the window, decodes. */
  lemma TailDecodes(before: string, window: string)
    requires Colons(before) >= 1 && |window| == ISO_LENGTH
    ensures DecodeTail(before + (":" + window)).Some?
  {
    hide CutLast, Colons;
    NoColons(before);
    var s := before + (":" + window);
    assert s[..|before|] == before && s[|before|] == ':';
  }

  /** The five fields before the window. */
  function Front(k: CorrelationKey): string {
    k.tenantId + ":" + k.ruleId + ":" + k.ruleVersion + ":" + k.assetKey + ":" + k.category
  }

  lemma FrontColons(k: CorrelationKey)
    ensures Colons(Front(k)) == 4 + Colons(k.tenantId) + Colons(k.ruleId) + Colons(k.ruleVersion) +
                                Colons(k.assetKey) + Colons(k.category)
  {
    hide Colons;
    var s1 := k.tenantId + ":" + k.ruleId;
    var s2 := s1 + ":" + k.ruleVersion;
    var s3 := s2 + ":" + k.assetKey;
    OneColon();
    ColonsAdd(k.tenantId + ":", k.ruleId);
    ColonsAdd(k.tenantId, ":");
    ColonsAdd(s1 + ":", k.ruleVersion);
    ColonsAdd(s1, ":");
    ColonsAdd(s2 + ":", k.assetKey);
    ColonsAdd(s2, ":");
    ColonsAdd(s3 + ":", k.category);
    ColonsAdd(s3, ":");
  }

  lemma CanonicalSplits(k: CorrelationKey)
    ensures Canonical(k) == Front(k) + (":" + k.timeWindow)
  {}

  /** Whatever colons its fields have, a canonical string reads back to some key. */
  lemma CanonicalDecodes(k: CorrelationKey)
    requires |k.timeWindow| == ISO_LENGTH
    ensures Decode(Canonical(k)).Some?
  {
    hide CutFirst, DecodeTail, Canonical, Front, Colons;
    var after := ":" + k.timeWindow;
    CanonicalSplits(k);
    FrontColons(k);
    CutWithin(Front(k), after);
    var s1 := CutFirst(Front(k)).value.right;
    CutWithin(s1, after);
    var s2 := CutFirst(s1).value.right;
    CutWithin(s2, after);
    TailDecodes(CutFirst(s2).value.right, k.timeWindow);
  }

  /**
   * Every malformed key shares its string, and so its hash, with a well-formed one; a well-formed key
   * shares its string with no other well-formed key.
   */
  lemma SharesWithNoneIff(k: CorrelationKey)
    requires |k.timeWindow| == ISO_LENGTH
    ensures WellFormed(k) <==> forall k' | WellFormed(k') && Canonical(k') == Canonical(k) :: k' == k
  {
    hide Decode, Canonical;
    CanonicalDecodes(k);
    CanonicalDecode(Canonical(k));
    if WellFormed(k) {
      forall k' | WellFormed(k') && Canonical(k') == Canonical(k) ensures k' == k {
        CanonicalInjective(k, k');
      }
    } else {
      assert Decode(Canonical(k)).value != k;
    }
  }

  predicate ColonFree(k: CorrelationKey) {
    ':' !in k.tenantId && ':' !in k.ruleId && ':' !in k.ruleVersion && ':' !in k.assetKey && ':' !in k.category
  }

  /**
   * Among all keys, malformed ones included, a key shares its string with no other exactly when no field
   * before its window has a colon.
   */
  lemma AloneIff(k: CorrelationKey)
    requires |k.timeWindow| == ISO_LENGTH
    ensures ColonFree(k) <==>
              forall k': CorrelationKey | |k'.timeWindow| == ISO_LENGTH && Canonical(k') == Canonical(k) :: k' == k
  {
    hide Canonical, WellFormed;
    if ColonFree(k) {
      forall k': CorrelationKey | |k'.timeWindow| == ISO_LENGTH && Canonical(k') == Canonical(k) ensures k' == k {
        SharersAreColonFree(k, k');
        ColonFreeIsWellFormed(k);
        ColonFreeIsWellFormed(k');
        CanonicalInjective(k, k');
      }
    } else {
      var k' := Sharer(k);
    }
  }

  lemma ColonFreeIsWellFormed(k: CorrelationKey)
    requires ColonFree(k) && |k.timeWindow| == ISO_LENGTH
    ensures WellFormed(k)
  {}

  lemma SharersAreColonFree(k: CorrelationKey, k': CorrelationKey)
    requires ColonFree(k) && |k.timeWindow| == |k'.timeWindow| && Canonical(k) == Canonical(k')
    ensures ColonFree(k')
  {
    hide Canonical, Front, Colons;
    CanonicalSplits(k);
    CanonicalSplits(k');
    var s := Canonical(k);
    assert |Front(k)| == |Front(k')|;
    assert Front(k) == s[..|Front(k)|] == Front(k');
    FrontColons(k);
    FrontColons(k');
    forall part | part in [k.tenantId, k.ruleId, k.ruleVersion, k.assetKey, k.category,
                           k'.tenantId, k'.ruleId, k'.ruleVersion, k'.assetKey, k'.category]
      ensures ':' !in part <==> Colons(part) == 0
    {
      NoColons(part);
    }
  }

  /** Another key with the same string: a malformed key's decoding, or the asset key cut in two. */
  lemma Sharer(k: CorrelationKey) returns (k': CorrelationKey)
    requires |k.timeWindow| == ISO_LENGTH && !ColonFree(k)
    ensures k' != k && |k'.timeWindow| == ISO_LENGTH && Canonical(k') == Canonical(k)
  {
    if WellFormed(k) {
      hide CutFirst;
      var c := CutFirst(k.assetKey).value;
      k' := k.(assetKey := c.left, category := c.right + ":" + k.category);
      assert |k'.category| > |k.category|;
    } else {
      hide Decode, Canonical;
      CanonicalDecodes(k);
      CanonicalDecode(Canonical(k));
      k' := Decode(Canonical(k)).value;
    }
  }

  /** A colon in the category lets two different assets share one canonical string. */
  lemma ColonCollision(tenant: string, rule: string, version: string, window: string)
    ensures var k := CorrelationKey(tenant, rule, version, "syslog", "link:down", window);
            var k' := CorrelationKey(tenant, rule, version, "syslog:link", "down", window);
            k != k' && Canonical(k) == Canonical(k')
  {}
}
