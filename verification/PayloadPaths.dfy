/**
 * What the payload sanitizer keeps: at every path that passes no sensitive key the same kind of value
 * with the same keys, items and leaves, and at a sensitive key the mask.
 */
module PayloadPaths {
  import opened Prelude
  import opened PythonText
  import opened TextSanitizer
  import opened PayloadSanitizer

  /** One step down: to an item of a list, tuple or set, or to the entry at a position of a dictionary. */
  datatype Hop = Item(index: nat) | Field(index: nat)

  /** The items of a list, tuple or set. */
  function ItemsOf(v: Value): Option<seq<Value>> {
    match v
    case List(items) => Some(items)
    case Tuple(items) => Some(items)
    case SetOf(items) => Some(items)
    case _ => None
  }

  function Child(v: Value, hop: Hop): Option<Value> {
    match hop
    case Item(i) => if ItemsOf(v).Some? && i < |ItemsOf(v).value| then Some(ItemsOf(v).value[i]) else None
    case Field(i) => if v.Dict? && i < |v.entries| then Some(v.entries[i].value) else None
  }

  /** The value at the end of a path, if the path exists. */
  function At(v: Value, path: seq<Hop>): Option<Value> {
    if path == [] then Some(v)
    else
      var child := Child(v, path[0]);
      if child.Some? then At(child.value, path[1..]) else None
  }

  /** The step goes to an entry with a sensitive key. */
  predicate IsMaskedHop(u: UnicodeTable, v: Value, hop: Hop) {
    hop.Field? && v.Dict? && hop.index < |v.entries| && IsSensitive(u, v.entries[hop.index].key)
  }

  /** The path goes through an entry with a sensitive key. */
  predicate PassesSensitive(u: UnicodeTable, v: Value, path: seq<Hop>) {
    path != [] && Child(v, path[0]).Some? &&
    (IsMaskedHop(u, v, path[0]) || PassesSensitive(u, Child(v, path[0]).value, path[1..]))
  }

  /** What a value becomes, one level deep. */
  predicate Keeps(u: UnicodeTable, v: Value, clean: Value) {
    match v
    case Dict(entries) =>
      && clean.Dict? && |clean.entries| == |entries|
      && forall i | 0 <= i < |entries| ::
           && clean.entries[i].key == entries[i].key
           && (IsSensitive(u, entries[i].key) ==> clean.entries[i].value == Text("[REDACTED]"))
    case Text(t) => clean == Text(SanitizeText(u, t))
    case List(items) => clean.List? && |clean.items| == |items|
    case Tuple(items) => clean.List? && |clean.items| == |items|
    case SetOf(items) => clean.List? && |clean.items| == |items|
    case _ => clean == v
  }

  lemma {:induction false} ItemsOneByOne(u: UnicodeTable, items: seq<Value>)
    ensures |SanitizedItems(u, items)| == |items|
    ensures forall i | 0 <= i < |items| :: SanitizedItems(u, items)[i] == SanitizedValue(u, items[i])
  {
    hide SanitizedValue;
    if items != [] { ItemsOneByOne(u, items[1..]); }
  }

  lemma {:induction false} EntriesOneByOne(u: UnicodeTable, entries: seq<Entry>)
    ensures |SanitizedEntries(u, entries)| == |entries|
    ensures forall i | 0 <= i < |entries| ::
              && SanitizedEntries(u, entries)[i].key == entries[i].key
              && SanitizedEntries(u, entries)[i].value ==
                   if IsSensitive(u, entries[i].key) then MASK else SanitizedValue(u, entries[i].value)
  {
    hide SanitizedValue, IsSensitive;
    if entries != [] { EntriesOneByOne(u, entries[1..]); }
  }

  lemma OneLevel(u: UnicodeTable, v: Value)
    ensures Keeps(u, v, SanitizedValue(u, v))
  {
    hide IsSensitive, SanitizeText;
    match v
    case Dict(entries) => EntriesOneByOne(u, entries);
    case List(items) => ItemsOneByOne(u, items);
    case Tuple(items) => ItemsOneByOne(u, items);
    case SetOf(items) => ItemsOneByOne(u, items);
    case _ =>
  }

  /** One step down, sanitizing first or last makes no difference, but for sensitive keys. */
  lemma ChildIsSanitized(u: UnicodeTable, v: Value, hop: Hop)
    ensures Child(SanitizedValue(u, v), hop).Some? <==> Child(v, hop).Some?
    ensures Child(v, hop).Some? ==>
              Child(SanitizedValue(u, v), hop).value ==
              if IsMaskedHop(u, v, hop) then Text("[REDACTED]") else SanitizedValue(u, Child(v, hop).value)
  {
    hide IsSensitive, SanitizeText;
    match v
    case Dict(entries) => EntriesOneByOne(u, entries);
    case List(items) => ItemsOneByOne(u, items);
    case Tuple(items) => ItemsOneByOne(u, items);
    case SetOf(items) => ItemsOneByOne(u, items);
    case _ =>
  }

  /**
   * On every path that passes no sensitive key the sanitized value has a value exactly where the original
   * has one, and that is what the original value becomes.
   */
  lemma {:induction false} PathsAreKept(u: UnicodeTable, v: Value, path: seq<Hop>)
    requires !PassesSensitive(u, v, path)
    ensures var before, after := At(v, path), At(SanitizedValue(u, v), path);
            && (after.Some? <==> before.Some?)
            && (before.Some? ==> after.value == SanitizedValue(u, before.value) && Keeps(u, before.value, after.value))
    decreases |path|
  {
    hide IsMaskedHop, SanitizedValue, Child, Keeps;
    if path == [] {
      OneLevel(u, v);
    } else {
      ChildIsSanitized(u, v, path[0]);
      if Child(v, path[0]).Some? { PathsAreKept(u, Child(v, path[0]).value, path[1..]); }
    }
  }

  lemma {:induction false} PathsJoin(v: Value, a: seq<Hop>, b: seq<Hop>)
    ensures At(v, a + b) == if At(v, a).Some? then At(At(v, a).value, b) else None
    decreases |a|
  {
    hide Child;
    if a == [] {
      assert a + b == b;
    } else {
      assert (a + b)[0] == a[0] && (a + b)[1..] == a[1..] + b;
      if Child(v, a[0]).Some? { PathsJoin(Child(v, a[0]).value, a[1..], b); }
    }
  }

  /** The first sensitive key on a path holds the mask, and nothing is left below it. */
  lemma SensitiveIsMasked(u: UnicodeTable, v: Value, path: seq<Hop>, hop: Hop, more: seq<Hop>)
    requires !PassesSensitive(u, v, path) && At(v, path).Some? && IsMaskedHop(u, At(v, path).value, hop)
    ensures At(SanitizedValue(u, v), path + ([hop] + more)) == if more == [] then Some(Text("[REDACTED]")) else None
  {
    hide SanitizedValue, IsMaskedHop, Keeps;
    PathsAreKept(u, v, path);
    PathsJoin(SanitizedValue(u, v), path, [hop] + more);
    assert Child(At(v, path).value, hop).Some? by { MaskedHopExists(u, At(v, path).value, hop); }
    ChildIsSanitized(u, At(v, path).value, hop);
    assert ([hop] + more)[0] == hop && ([hop] + more)[1..] == more;
  }

  lemma MaskedHopExists(u: UnicodeTable, v: Value, hop: Hop)
    requires IsMaskedHop(u, v, hop)
    ensures Child(v, hop).Some?
  {}

  // ---------------------------------------------------------------------------------------------
  // Sensitive keys, spelled out.

  /** The word stands at the position of the key, dashes read as underscores and in any case. */
  predicate KeyFoundAt(key: string, word: string, i: nat) {
    i + |word| <= |key| &&
    forall j | 0 <= j < |word| :: (if key[i + j] == '-' then '_' else LowerAscii(key[i + j])) == word[j]
  }

  ghost predicate KeyHolds(key: string, word: string) {
    exists i: nat :: KeyFoundAt(key, word, i)
  }

  /** The key as the test reads it, character by character. */
  predicate ReadsAs(text: string, key: string) {
    |text| == |key| && forall i | 0 <= i < |key| :: text[i] == if key[i] == '-' then '_' else LowerAscii(key[i])
  }

  lemma KeyIsReadAs(u: UnicodeTable, key: string)
    requires IsAscii(key)
    ensures ReadsAs(DashesToUnderscores(Lower(u, key)), key)
  {
    LowerKeepsPlaces(u, key);
  }

  lemma ContainedIsFound(text: string, key: string, word: string) returns (i: nat)
    requires ReadsAs(text, key) && Contains(text, word)
    ensures KeyFoundAt(key, word, i)
  {
    i := ContainsAt(text, word);
    forall j | 0 <= j < |word| ensures text[i + j] == word[j] { assert text[i..][..|word|][j] == text[i + j]; }
  }

  lemma FoundIsContained(text: string, key: string, word: string, i: nat)
    requires ReadsAs(text, key) && KeyFoundAt(key, word, i)
    ensures Contains(text, word)
  {
    var before, middle, after := text[..i], text[i..i + |word|], text[i + |word|..];
    forall j | 0 <= j < |word| ensures middle[j] == word[j] { assert middle[j] == text[i + j]; }
    assert middle == word;
    hide ReadsAs, KeyFoundAt;
    AtContains(before, word, after);
    assert text == before + (middle + after);
  }

  lemma KeyContainsIff(u: UnicodeTable, key: string, word: string)
    requires IsAscii(key)
    ensures Contains(DashesToUnderscores(Lower(u, key)), word) <==> KeyHolds(key, word)
  {
    hide Contains, Lower, DashesToUnderscores, IsAscii, ReadsAs, KeyFoundAt;
    var text := DashesToUnderscores(Lower(u, key));
    KeyIsReadAs(u, key);
    if Contains(text, word) { var i := ContainedIsFound(text, key, word); }
    if i: nat :| KeyFoundAt(key, word, i) { FoundIsContained(text, key, word, i); }
  }

  /** For ASCII keys: one of the words stands in the key, in any case, dashes counting as underscores. */
  lemma SensitiveIff(u: UnicodeTable, key: Key)
    requires IsAscii(Printed(key))
    ensures var k := Printed(key);
            IsSensitive(u, key) <==>
              || KeyHolds(k, "password") || KeyHolds(k, "passwd") || KeyHolds(k, "secret") || KeyHolds(k, "token")
              || KeyHolds(k, "authorization") || KeyHolds(k, "cookie") || KeyHolds(k, "api_key")
              || KeyHolds(k, "apikey") || KeyHolds(k, "private_key") || KeyHolds(k, "credential")
  {
    hide KeyFoundAt, Contains, Lower, DashesToUnderscores, IsAscii;
    var k := Printed(key);
    forall i | 0 <= i < |SENSITIVE_KEYS|
      ensures Contains(DashesToUnderscores(Lower(u, k)), SENSITIVE_KEYS[i]) <==> KeyHolds(k, SENSITIVE_KEYS[i])
    {
      KeyContainsIff(u, k, SENSITIVE_KEYS[i]);
    }
    hide KeyHolds;
    LongerWords(k);
    SensitiveWords();
  }

  lemma SensitiveWords()
    ensures SENSITIVE_KEYS[0] == "password" && SENSITIVE_KEYS[1] == "passwd" && SENSITIVE_KEYS[2] == "secret"
    ensures SENSITIVE_KEYS[3] == "client_secret" && SENSITIVE_KEYS[4] == "token" && SENSITIVE_KEYS[5] == "access_token"
    ensures SENSITIVE_KEYS[6] == "refresh_token" && SENSITIVE_KEYS[7] == "authorization"
    ensures SENSITIVE_KEYS[8] == "cookie" && SENSITIVE_KEYS[9] == "set_cookie" && SENSITIVE_KEYS[10] == "api_key"
    ensures SENSITIVE_KEYS[11] == "apikey" && SENSITIVE_KEYS[12] == "private_key" && SENSITIVE_KEYS[13] == "credential"
    ensures |SENSITIVE_KEYS| == 14
  {}

  /** The four longer words of the list end in a shorter one, so they add nothing. */
  lemma LongerWords(key: string)
    ensures KeyHolds(key, "client_secret") ==> KeyHolds(key, "secret")
    ensures KeyHolds(key, "access_token") || KeyHolds(key, "refresh_token") ==> KeyHolds(key, "token")
    ensures KeyHolds(key, "set_cookie") ==> KeyHolds(key, "cookie")
  {
    hide KeyHolds;
    Ending(key, "client_", "secret");
    Ending(key, "access_", "token");
    Ending(key, "refresh_", "token");
    Ending(key, "set_", "cookie");
    assert "client_" + "secret" == "client_secret" && "access_" + "token" == "access_token";
    assert "refresh_" + "token" == "refresh_token" && "set_" + "cookie" == "set_cookie";
  }

  lemma Ending(key: string, before: string, word: string)
    ensures KeyHolds(key, before + word) ==> KeyHolds(key, word)
  {
    if i: nat :| KeyFoundAt(key, before + word, i) {
      forall j | 0 <= j < |word|
        ensures (if key[i + |before| + j] == '-' then '_' else LowerAscii(key[i + |before| + j])) == word[j]
      {
        assert (before + word)[|before| + j] == word[j];
        assert key[i + (|before| + j)] == key[i + |before| + j];
      }
      assert KeyFoundAt(key, word, i + |before|);
    }
  }
}
