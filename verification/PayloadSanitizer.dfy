/**
 * The recursive payload sanitizer: entries under a sensitive key lose their value, every other
 * value is sanitized in place, and every text goes through the credential scrubber.
 */
module PayloadSanitizer {
  import opened PythonText
  import opened TextSanitizer
  import TextSanitizerTheory

  /** A dictionary key and the text `str` prints for it. */
  datatype Key = TextKey(text: string) | OtherKey(printed: string)

  datatype Entry = Entry(key: Key, value: Value)

  /** A payload value. Sets carry the order in which they are iterated. */
  datatype Value =
    | Null
    | Bool(b: bool)
    | Number(n: real)
    | Text(text: string)
    | List(items: seq<Value>)
    | Tuple(items: seq<Value>)
    | SetOf(items: seq<Value>)
    | Dict(entries: seq<Entry>)

  const MASK := Text(REDACTED)

  const SENSITIVE_KEYS := [
    "password", "passwd", "secret", "client_secret", "token", "access_token", "refresh_token",
    "authorization", "cookie", "set_cookie", "api_key", "apikey", "private_key", "credential"
  ]

  function Printed(key: Key): string {
    match key
    case TextKey(t) => t
    case OtherKey(p) => p
  }

  function DashesToUnderscores(s: string): string {
    seq(|s|, i requires 0 <= i < |s| => if s[i] == '-' then '_' else s[i])
  }

  predicate IsSensitive(u: UnicodeTable, key: Key) {
    var lowered := DashesToUnderscores(Lower(u, Printed(key)));
    exists i | 0 <= i < |SENSITIVE_KEYS| :: Contains(lowered, SENSITIVE_KEYS[i])
  }

  function SanitizedValue(u: UnicodeTable, v: Value): Value
    decreases v, 1
  {
    match v
    case Dict(entries) => Dict(SanitizedEntries(u, entries))
    case List(items) => List(SanitizedItems(u, items))
    case Tuple(items) => List(SanitizedItems(u, items))
    case SetOf(items) => List(SanitizedItems(u, items))
    case Text(t) => Text(SanitizeText(u, t))
    case _ => v
  }

  function SanitizedItems(u: UnicodeTable, items: seq<Value>): seq<Value>
    decreases items, 0
  {
    if items == [] then [] else [SanitizedValue(u, items[0])] + SanitizedItems(u, items[1..])
  }

  function SanitizedEntry(u: UnicodeTable, e: Entry): Entry
    decreases e, 0
  {
    Entry(e.key, if IsSensitive(u, e.key) then MASK else SanitizedValue(u, e.value))
  }

  function SanitizedEntries(u: UnicodeTable, entries: seq<Entry>): seq<Entry>
    decreases entries, 0
  {
    if entries == [] then [] else [SanitizedEntry(u, entries[0])] + SanitizedEntries(u, entries[1..])
  }

  // ---------------------------------------------------------------------------------------------
  // The operations, in the source's form.

  method SanitizePayload(u: UnicodeTable, payload: seq<Entry>) returns (sanitized: seq<Entry>)
    ensures sanitized == SanitizedEntries(u, payload)
    decreases payload, 0
  {
    sanitized := [];
    for i := 0 to |payload|
      invariant SanitizedEntries(u, payload) == sanitized + SanitizedEntries(u, payload[i..])
    {
      var key, value := payload[i].key, payload[i].value;
      if IsSensitive(u, key) {
        sanitized := sanitized + [Entry(key, MASK)];
      } else {
        assert payload[i] in payload && (payload[i] decreases to value);
        var clean := SanitizeValue(u, value);
        sanitized := sanitized + [Entry(key, clean)];
      }
      assert payload[i..][1..] == payload[i + 1..];
    }
  }

  method SanitizeValue(u: UnicodeTable, value: Value) returns (clean: Value)
    ensures clean == SanitizedValue(u, value)
    decreases value, 1
  {
    match value
    case Dict(entries) =>
      var sanitized := SanitizePayload(u, entries);
      clean := Dict(sanitized);
    case List(items) =>
      var sanitized := SanitizeItems(u, items);
      clean := List(sanitized);
    case Tuple(items) =>
      var sanitized := SanitizeItems(u, items);
      clean := List(sanitized);
    case SetOf(items) =>
      var sanitized := SanitizeItems(u, items);
      clean := List(sanitized);
    case Text(t) =>
      clean := Text(SanitizeText(u, t));
    case _ =>
      clean := value;
  }

  method SanitizeItems(u: UnicodeTable, items: seq<Value>) returns (clean: seq<Value>)
    ensures clean == SanitizedItems(u, items)
    decreases items, 0
  {
    clean := [];
    for i := 0 to |items|
      invariant SanitizedItems(u, items) == clean + SanitizedItems(u, items[i..])
    {
      var item := SanitizeValue(u, items[i]);
      clean := clean + [item];
      assert items[i..][1..] == items[i + 1..];
    }
  }

  // ---------------------------------------------------------------------------------------------
  // What the result promises.

  /** No secret is readable: sensitive entries hold the mask, every text is clean, all nested. */
  ghost predicate Safe(u: UnicodeTable, v: Value)
    decreases v
  {
    match v
    case Dict(entries) =>
      forall i | 0 <= i < |entries| ::
        if IsSensitive(u, entries[i].key) then entries[i].value == MASK else Safe(u, entries[i].value)
    case List(items) => forall i | 0 <= i < |items| :: Safe(u, items[i])
    case Tuple(_) => false
    case SetOf(_) => false
    case Text(t) => TextSanitizerTheory.Clean(u, false, t)
    case _ => true
  }

  lemma {:induction false} SanitizedIsSafe(u: UnicodeTable, v: Value)
    ensures Safe(u, SanitizedValue(u, v))
    decreases v, 1
  {
    hide IsSensitive, TextSanitizer.Scrub, TextSanitizerTheory.Clean;
    match v
    case Dict(entries) => EntriesAreSafe(u, entries);
    case List(items) => ItemsAreSafe(u, items);
    case Tuple(items) => ItemsAreSafe(u, items);
    case SetOf(items) => ItemsAreSafe(u, items);
    case Text(t) => TextSanitizerTheory.ScrubIsClean(u, false, t);
    case _ =>
  }

  lemma {:induction false} ItemsAreSafe(u: UnicodeTable, items: seq<Value>)
    ensures |SanitizedItems(u, items)| == |items|
    ensures forall i | 0 <= i < |items| :: Safe(u, SanitizedItems(u, items)[i])
    decreases items, 0
  {
    hide SanitizedValue, Safe;
    if items != [] {
      SanitizedIsSafe(u, items[0]);
      ItemsAreSafe(u, items[1..]);
    }
  }

  /** Keys and their order survive; the values under them are masked or safe. */
  lemma {:induction false} EntriesAreSafe(u: UnicodeTable, entries: seq<Entry>)
    ensures var r := SanitizedEntries(u, entries);
            && |r| == |entries|
            && forall i | 0 <= i < |r| ::
                 && r[i].key == entries[i].key
                 && if IsSensitive(u, r[i].key) then r[i].value == MASK else Safe(u, r[i].value)
    decreases entries, 0
  {
    hide SanitizedValue, Safe, IsSensitive;
    if entries != [] {
      assert entries[0] in entries && (entries[0] decreases to entries[0].value);
      SanitizedIsSafe(u, entries[0].value);
      EntriesAreSafe(u, entries[1..]);
    }
  }

  lemma {:induction false} SafeIsKept(u: UnicodeTable, v: Value)
    requires Safe(u, v)
    ensures SanitizedValue(u, v) == v
    decreases v, 1
  {
    hide IsSensitive, TextSanitizer.Scrub, TextSanitizerTheory.Clean;
    match v
    case Dict(entries) => SafeEntriesAreKept(u, entries);
    case List(items) => SafeItemsAreKept(u, items);
    case Text(t) => TextSanitizerTheory.ScrubKeepsClean(u, false, t);
    case _ =>
  }

  lemma {:induction false} SafeItemsAreKept(u: UnicodeTable, items: seq<Value>)
    requires forall i | 0 <= i < |items| :: Safe(u, items[i])
    ensures SanitizedItems(u, items) == items
    decreases items, 0
  {
    hide SanitizedValue, Safe;
    if items != [] {
      SafeIsKept(u, items[0]);
      SafeItemsAreKept(u, items[1..]);
    }
  }

  lemma {:induction false} SafeEntriesAreKept(u: UnicodeTable, entries: seq<Entry>)
    requires forall i | 0 <= i < |entries| ::
               if IsSensitive(u, entries[i].key) then entries[i].value == MASK else Safe(u, entries[i].value)
    ensures SanitizedEntries(u, entries) == entries
    decreases entries, 0
  {
    hide SanitizedValue, Safe, IsSensitive;
    if entries != [] {
      assert entries[0] in entries && (entries[0] decreases to entries[0].value);
      if !IsSensitive(u, entries[0].key) { SafeIsKept(u, entries[0].value); }
      SafeEntriesAreKept(u, entries[1..]);
    }
  }

  /** A payload is left alone exactly when it is already safe. */
  lemma KeptIffSafe(u: UnicodeTable, v: Value)
    ensures SanitizedValue(u, v) == v <==> Safe(u, v)
  {
    hide SanitizedValue, Safe;
    SanitizedIsSafe(u, v);
    if Safe(u, v) { SafeIsKept(u, v); }
  }

  /** Entity construction, evidence creation and the REST response sanitize one after another. */
  lemma SanitizeTwice(u: UnicodeTable, payload: seq<Entry>)
    ensures SanitizedEntries(u, SanitizedEntries(u, payload)) == SanitizedEntries(u, payload)
  {
    hide SanitizedValue, SanitizedEntry, Safe, IsSensitive;
    EntriesAreSafe(u, payload);
    SafeEntriesAreKept(u, SanitizedEntries(u, payload));
  }
}
