/**
 * The credential scrubber for free text: one left-to-right pass of a regular expression with
 * four alternatives, every match keeping its prefix and losing its token.
 *
 * White space given back by a greedy run never helps a match, because no token class contains
 * white space; so each alternative below is the first match a backtracking engine finds.
 */
module TextSanitizer {
  import opened Prelude
  import opened PythonText

  /** The character classes the expression uses. */
  datatype CharClass = Word | White | HeaderToken | BearerToken | BasicToken | ParamToken | Padding

  const REDACTED := "[REDACTED]"

  /** The credential parameters, all written in lower case. */
  function Keywords(): (names: seq<string>)
    ensures forall i | 0 <= i < |names| :: names[i] != "" && 'a' <= names[i][0] <= 'z' && Lowercase(names[i])
  {
    [
      "api_key", "apikey", "token", "access_token", "refresh_token",
      "password", "passwd", "secret", "client_secret", "cookie"
    ]
  }

  predicate Lowercase(literal: string) {
    forall i | 0 <= i < |literal| :: 'a' <= literal[i] <= 'z' || literal[i] == '_'
  }

  /** The letters a case-insensitive `[A-Za-z]` accepts: ASCII and four characters that fold to it. */
  predicate IsLetter(c: char) {
    || 'a' <= c <= 'z' || 'A' <= c <= 'Z'
    || c == '\U{0130}' || c == '\U{0131}' || c == '\U{017F}' || c == '\U{212A}'
  }

  predicate IsAlnum(c: char) {
    IsLetter(c) || '0' <= c <= '9'
  }

  predicate IsWord(u: UnicodeTable, c: char) {
    IsAlnum(c) || c == '_' || (c as int >= 128 && u.word(c))
  }

  predicate IsWhite(u: UnicodeTable, c: char) {
    !IsWord(u, c) && IsSpace(u, c)
  }

  predicate In(u: UnicodeTable, k: CharClass, c: char) {
    match k
    case Word => IsWord(u, c)
    case White => IsWhite(u, c)
    case HeaderToken => !IsWhite(u, c) && c != ',' && c != ';'
    case BearerToken => IsAlnum(c) || c in "-._~+/"
    case BasicToken => IsAlnum(c) || c == '+' || c == '/'
    case ParamToken => !IsWhite(u, c) && c != '&' && c != ';'
    case Padding => c == '='
  }

  /** Simple case folding, as the ignore-case flag applies it. */
  function Fold(c: char): char {
    if 'A' <= c <= 'Z' then (c as int + 32) as char
    else if c == '\U{0130}' || c == '\U{0131}' then 'i'
    else if c == '\U{017F}' then 's'
    else if c == '\U{212A}' then 'k'
    else c
  }

  predicate StartsFolded(s: string, literal: string) {
    |literal| <= |s| && forall i | 0 <= i < |literal| :: Fold(s[i]) == literal[i]
  }

  /** Length of the longest prefix made of one class: what a greedy `*` consumes. */
  function Run(u: UnicodeTable, k: CharClass, s: string): (n: nat)
    ensures n <= |s|
    ensures forall i | 0 <= i < n :: In(u, k, s[i])
    ensures n < |s| ==> !In(u, k, s[n])
  {
    if s == "" || !In(u, k, s[0]) then 0 else 1 + Run(u, k, s[1..])
  }

  /** A match at the head of a text: `prefix` characters kept, then `token` characters replaced. */
  datatype Hit = Hit(prefix: nat, token: nat)

  /** First alternative: `Authorization:`, white space, an optional scheme, white space, a token. */
  function MatchHeader(u: UnicodeTable, s: string): (r: Option<Hit>)
    ensures r.Some? ==> 0 < r.value.prefix && 0 < r.value.token && r.value.prefix + r.value.token <= |s|
  {
    if !StartsFolded(s, "authorization:") then None
    else
      var j := 14 + Run(u, White, s[14..]);
      var k := j + SchemeLength(s[j..]);
      var l := k + Run(u, White, s[k..]);
      if j < k && l < |s| && In(u, HeaderToken, s[l]) then Some(Hit(l, Run(u, HeaderToken, s[l..])))
      else if j < |s| && In(u, HeaderToken, s[j]) then Some(Hit(j, Run(u, HeaderToken, s[j..])))
      else None
  }

  function SchemeLength(s: string): (n: nat)
    ensures n <= |s|
    ensures forall i | 0 <= i < n :: IsLetter(s[i])
  {
    if StartsFolded(s, "bearer") then 6 else if StartsFolded(s, "basic") then 5 else 0
  }

  /** Second and third alternative: a scheme name, white space, a run of its alphabet, `=` padding. */
  function MatchScheme(u: UnicodeTable, s: string, scheme: string, k: CharClass): (r: Option<Hit>)
    requires scheme != ""
    ensures r.Some? ==> 0 < r.value.prefix && 0 < r.value.token && r.value.prefix + r.value.token <= |s|
  {
    if !StartsFolded(s, scheme) then None
    else
      var j := |scheme| + Run(u, White, s[|scheme|..]);
      if j == |scheme| || j == |s| || !In(u, k, s[j]) then None
      else
        var body := Run(u, k, s[j..]);
        Some(Hit(j, body + Run(u, Padding, s[j + body..])))
  }

  /** Fourth alternative: a credential keyword, `=`, a token. */
  function MatchParam(u: UnicodeTable, s: string, keywords: seq<string>): (r: Option<Hit>)
    ensures r.Some? ==> 0 < r.value.prefix && 0 < r.value.token && r.value.prefix + r.value.token <= |s|
  {
    if keywords == [] then None
    else
      var n := |keywords[0]| + 1;
      if StartsFolded(s, keywords[0] + "=") && n < |s| && In(u, ParamToken, s[n])
      then Some(Hit(n, Run(u, ParamToken, s[n..])))
      else MatchParam(u, s, keywords[1..])
  }

  function MatchHead(u: UnicodeTable, s: string): (r: Option<Hit>)
    ensures r.Some? ==> 0 < r.value.prefix && 0 < r.value.token && r.value.prefix + r.value.token <= |s|
  {
    var header := MatchHeader(u, s);
    var bearer := MatchScheme(u, s, "bearer", BearerToken);
    var basic := MatchScheme(u, s, "basic", BasicToken);
    if header.Some? then header
    else if bearer.Some? then bearer
    else if basic.Some? then basic
    else MatchParam(u, s, Keywords())
  }

  /**
   * The substitution from one position on. `afterWord` says whether the character before it is a
   * word character; every alternative starts with a letter, so `\b` holds exactly when it is not.
   */
  function Scrub(u: UnicodeTable, afterWord: bool, s: string): string
    decreases |s|
  {
    if s == "" then ""
    else if afterWord || MatchHead(u, s).None? then [s[0]] + Scrub(u, IsWord(u, s[0]), s[1..])
    else
      var h := MatchHead(u, s).value;
      var end := h.prefix + h.token;
      s[..h.prefix] + (REDACTED + Scrub(u, IsWord(u, s[end - 1]), s[end..]))
  }

  function SanitizeText(u: UnicodeTable, s: string): string {
    Scrub(u, false, s)
  }
}
