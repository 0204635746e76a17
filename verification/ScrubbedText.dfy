/**
 * What the scrubber makes of a text, told without the substitution: which stretches of the text are
 * tokens, that they alone are replaced, and what a match keeps and takes.
 */
module ScrubbedText {
  import opened Prelude
  import opened PythonText
  import opened TextSanitizer
  import opened TextSanitizerTheory

  // ---------------------------------------------------------------------------------------------
  // The tokens of a text.

  /** A match starts at `at`, and its token lies from `from` up to `to`. */
  datatype Token = Token(at: nat, from: nat, to: nat)

  ghost predicate IsToken(u: UnicodeTable, s: string, t: Token) {
    && t.at < t.from < t.to <= |s| && Boundary(u, s, t.at)
    && MatchHead(u, s[t.at..]) == Some(Hit(t.from - t.at, t.to - t.from))
  }

  /** No match starts at a word boundary between two positions. */
  ghost predicate NoneOpens(u: UnicodeTable, s: string, from: nat, to: nat)
    requires from <= to <= |s|
  {
    forall k | from <= k < to :: !(Boundary(u, s, k) && MatchHead(u, s[k..]).Some?)
  }

  /** From a position on these are the tokens, each of the first match at or after the one before it. */
  ghost predicate TokensFrom(u: UnicodeTable, s: string, pos: nat, ts: seq<Token>)
    decreases |ts|
  {
    pos <= |s| &&
    if ts == [] then NoneOpens(u, s, pos, |s|)
    else
      && pos <= ts[0].at && IsToken(u, s, ts[0]) && NoneOpens(u, s, pos, ts[0].at)
      && TokensFrom(u, s, ts[0].to, ts[1..])
  }

  /** The pieces around the tokens. */
  ghost function Kept(u: UnicodeTable, s: string, pos: nat, ts: seq<Token>): (pieces: seq<string>)
    requires TokensFrom(u, s, pos, ts)
    ensures |pieces| == |ts| + 1
    decreases |ts|
  {
    if ts == [] then [s[pos..]] else [s[pos..ts[0].from]] + Kept(u, s, ts[0].to, ts[1..])
  }

  /** The tokens themselves. */
  ghost function Taken(u: UnicodeTable, s: string, pos: nat, ts: seq<Token>): (texts: seq<string>)
    requires TokensFrom(u, s, pos, ts)
    ensures |texts| == |ts|
    decreases |ts|
  {
    if ts == [] then [] else [s[ts[0].from..ts[0].to]] + Taken(u, s, ts[0].to, ts[1..])
  }

  function Masks(n: nat): (masks: seq<string>)
    ensures |masks| == n
  {
    seq(n, _ => REDACTED)
  }

  /** kept[0] + fills[0] + kept[1] + .. + kept[n] */
  function Joined(kept: seq<string>, fills: seq<string>): string
    requires |kept| == |fills| + 1
  {
    if fills == [] then kept[0] else kept[0] + (fills[0] + Joined(kept[1..], fills[1..]))
  }

  // ---------------------------------------------------------------------------------------------
  // The text is its pieces and tokens, and the scrubbed text its pieces and masks.

  lemma {:induction false} TextIsJoined(u: UnicodeTable, s: string, pos: nat, ts: seq<Token>)
    requires TokensFrom(u, s, pos, ts)
    ensures Joined(Kept(u, s, pos, ts), Taken(u, s, pos, ts)) == s[pos..]
    decreases |ts|
  {
    hide MatchHead, IsWord, NoneOpens;
    if ts != [] {
      var t := ts[0];
      TextIsJoined(u, s, t.to, ts[1..]);
      assert Kept(u, s, pos, ts)[1..] == Kept(u, s, t.to, ts[1..]);
      assert Taken(u, s, pos, ts)[1..] == Taken(u, s, t.to, ts[1..]);
      assert s[pos..] == s[pos..t.from] + (s[t.from..t.to] + s[t.to..]);
    }
  }

  /** Up to the next match the text is copied. */
  lemma CopiedTo(u: UnicodeTable, s: string, pos: nat, next: nat)
    requires pos <= next <= |s| && NoneOpens(u, s, pos, next)
    ensures Scrub(u, AfterWord(u, false, s, pos), s[pos..]) ==
            s[pos..next] + Scrub(u, AfterWord(u, false, s, next), s[next..])
  {
    hide MatchHead, IsWord, Scrub;
    var rest, w := s[pos..], AfterWord(u, false, s, pos);
    forall k | 0 <= k < next - pos ensures AfterWord(u, w, rest, k) || MatchHead(u, rest[k..]).None? {
      assert rest[k..] == s[pos + k..];
      assert k > 0 ==> rest[k - 1] == s[pos + k - 1];
    }
    CopiedToFirstMatch(u, w, rest, next - pos);
    assert rest[..next - pos] == s[pos..next] && rest[next - pos..] == s[next..];
    assert next > pos ==> rest[next - pos - 1] == s[next - 1];
  }

  lemma TokenIsMasked(u: UnicodeTable, s: string, t: Token)
    requires IsToken(u, s, t)
    ensures Scrub(u, AfterWord(u, false, s, t.at), s[t.at..]) ==
            s[t.at..t.from] + (REDACTED + Scrub(u, AfterWord(u, false, s, t.to), s[t.to..]))
  {
    hide MatchHead, IsWord, Scrub;
    var rest, h := s[t.at..], Hit(t.from - t.at, t.to - t.from);
    ScrubHits(u, rest, REDACTED, h);
    assert rest[..h.prefix] == s[t.at..t.from] && rest[h.prefix + h.token..] == s[t.to..];
    assert rest[h.prefix + h.token - 1] == s[t.to - 1];
  }

  lemma {:induction false} ScrubIsJoined(u: UnicodeTable, s: string, pos: nat, ts: seq<Token>)
    requires TokensFrom(u, s, pos, ts)
    ensures Scrub(u, AfterWord(u, false, s, pos), s[pos..]) == Joined(Kept(u, s, pos, ts), Masks(|ts|))
    decreases |ts|
  {
    hide MatchHead, IsWord, Scrub, AfterWord, NoneOpens, IsToken;
    if ts == [] {
      CopiedTo(u, s, pos, |s|);
      ScrubHead(u, AfterWord(u, false, s, |s|), s[|s|..]);
      assert s[|s|..] == "" && s[pos..|s|] == s[pos..] == s[pos..] + "";
    } else {
      var t := ts[0];
      ScrubIsJoined(u, s, t.to, ts[1..]);
      TokenPlaces(u, s, t);
      CopiedTo(u, s, pos, t.at);
      TokenIsMasked(u, s, t);
      assert Kept(u, s, pos, ts)[1..] == Kept(u, s, t.to, ts[1..]);
      assert Masks(|ts|)[1..] == Masks(|ts[1..]|);
      var tail := REDACTED + Scrub(u, AfterWord(u, false, s, t.to), s[t.to..]);
      assert s[pos..t.at] + (s[t.at..t.from] + tail) == s[pos..t.from] + tail;
    }
  }

  lemma TokenPlaces(u: UnicodeTable, s: string, t: Token)
    requires IsToken(u, s, t)
    ensures t.at < t.from < t.to <= |s|
  {}

  /** The first match from a position on, if there is one. */
  lemma {:induction false} NextToken(u: UnicodeTable, s: string, pos: nat) returns (t: Option<Token>)
    requires pos <= |s|
    ensures t.None? ==> NoneOpens(u, s, pos, |s|)
    ensures t.Some? ==> pos <= t.value.at && IsToken(u, s, t.value) && NoneOpens(u, s, pos, t.value.at)
    decreases |s| - pos
  {
    hide MatchHead, IsWord, Boundary;
    if pos == |s| {
      t := None;
    } else if Boundary(u, s, pos) && MatchHead(u, s[pos..]).Some? {
      var h := MatchHead(u, s[pos..]).value;
      t := Some(Token(pos, pos + h.prefix, pos + h.prefix + h.token));
    } else {
      t := NextToken(u, s, pos + 1);
    }
  }

  lemma {:induction false} TokensExist(u: UnicodeTable, s: string, pos: nat) returns (ts: seq<Token>)
    requires pos <= |s|
    ensures TokensFrom(u, s, pos, ts)
    decreases |s| - pos
  {
    hide MatchHead, IsWord, NoneOpens, Boundary;
    var t := NextToken(u, s, pos);
    if t.None? {
      ts := [];
    } else {
      var rest := TokensExist(u, s, t.value.to);
      ts := [t.value] + rest;
    }
  }

  /** However the tokens of a text are found, the scrubbed text is the text with just them replaced. */
  lemma OnlyTokensReplaced(u: UnicodeTable, s: string, ts: seq<Token>)
    requires TokensFrom(u, s, 0, ts)
    ensures s == Joined(Kept(u, s, 0, ts), Taken(u, s, 0, ts))
    ensures SanitizeText(u, s) == Joined(Kept(u, s, 0, ts), Masks(|ts|))
  {
    hide Scrub, TokensFrom, Kept, Taken, Joined, Masks, IsWord;
    TextIsJoined(u, s, 0, ts);
    ScrubIsJoined(u, s, 0, ts);
    assert s[0..] == s;
  }

  /**
   * Every text is pieces and tokens in turn, each token that of the first match at or after the end of
   * the one before it; and the scrubbed text is the same pieces with the mask for every token.
   */
  lemma SanitizedTextIs(u: UnicodeTable, s: string) returns (ts: seq<Token>)
    ensures TokensFrom(u, s, 0, ts)
    ensures s == Joined(Kept(u, s, 0, ts), Taken(u, s, 0, ts))
    ensures SanitizeText(u, s) == Joined(Kept(u, s, 0, ts), Masks(|ts|))
  {
    hide SanitizeText, TokensFrom, Kept, Taken, Joined, Masks;
    ts := TokensExist(u, s, 0);
    OnlyTokensReplaced(u, s, ts);
  }

  // ---------------------------------------------------------------------------------------------
  // What a match keeps and what it takes.

  /** From one position to another all characters are of the class, and no more follow. */
  predicate IsRun(u: UnicodeTable, k: CharClass, s: string, from: nat, to: nat) {
    && from <= to <= |s| && (forall i | from <= i < to :: In(u, k, s[i]))
    && (to < |s| ==> !In(u, k, s[to]))
  }

  /** `keyword=` is kept, and everything up to white space, `&` or `;` is taken. */
  ghost predicate ParamHit(u: UnicodeTable, s: string, h: Hit) {
    && h.token > 0 && IsRun(u, ParamToken, s, h.prefix, h.prefix + h.token)
    && exists i | 0 <= i < |Keywords()| ::
         h.prefix == |Keywords()[i]| + 1 && StartsFolded(s, Keywords()[i] + "=")
  }

  /** The scheme and the white space after it are kept; its alphabet and then its padding are taken. */
  ghost predicate SchemeHit(u: UnicodeTable, s: string, scheme: string, k: CharClass, h: Hit) {
    && StartsFolded(s, scheme) && |scheme| < h.prefix && IsRun(u, White, s, |scheme|, h.prefix)
    && exists body: nat ::
         && h.prefix < body <= h.prefix + h.token
         && IsRun(u, k, s, h.prefix, body) && IsRun(u, Padding, s, body, h.prefix + h.token)
  }

  /**
   * The header name, white space and, when a token follows it, the scheme with its white space are kept;
   * everything up to white space, `,` or `;` is taken.
   */
  ghost predicate HeaderHit(u: UnicodeTable, s: string, h: Hit) {
    && h.token > 0 && IsRun(u, HeaderToken, s, h.prefix, h.prefix + h.token)
    && StartsFolded(s, "authorization:")
    && exists j: nat ::
         && IsRun(u, White, s, 14, j)
         && var scheme := j + SchemeLength(s[j..]);
            if j < scheme && TokenAfter(u, s, scheme) then IsRun(u, White, s, scheme, h.prefix) else h.prefix == j
  }

  /** After white space a header token follows. */
  ghost predicate TokenAfter(u: UnicodeTable, s: string, from: nat) {
    exists l: nat :: IsRun(u, White, s, from, l) && l < |s| && In(u, HeaderToken, s[l])
  }

  lemma RunIsRun(u: UnicodeTable, k: CharClass, s: string, from: nat)
    requires from <= |s|
    ensures IsRun(u, k, s, from, from + Run(u, k, s[from..]))
  {
    hide In;
    var n := Run(u, k, s[from..]);
    forall i | from <= i < from + n ensures In(u, k, s[i]) { assert s[i] == s[from..][i - from]; }
    assert from + n < |s| ==> s[from + n] == s[from..][n];
  }

  lemma RunsAgree(u: UnicodeTable, k: CharClass, s: string, from: nat, to: nat, to': nat)
    requires IsRun(u, k, s, from, to) && IsRun(u, k, s, from, to')
    ensures to == to'
  {
    hide In;
  }

  lemma {:induction false} ParamHits(u: UnicodeTable, s: string, keywords: seq<string>, h: Hit)
    requires MatchParam(u, s, keywords) == Some(h)
    ensures h.token > 0 && IsRun(u, ParamToken, s, h.prefix, h.prefix + h.token)
    ensures exists i | 0 <= i < |keywords| :: h.prefix == |keywords[i]| + 1 && StartsFolded(s, keywords[i] + "=")
  {
    hide In, StartsFolded, Run, IsRun;
    var n := |keywords[0]| + 1;
    if StartsFolded(s, keywords[0] + "=") && n < |s| && In(u, ParamToken, s[n]) {
      RunIsRun(u, ParamToken, s, n);
    } else {
      ParamHits(u, s, keywords[1..], h);
      var i :| 0 <= i < |keywords[1..]| && h.prefix == |keywords[1..][i]| + 1 &&
               StartsFolded(s, keywords[1..][i] + "=");
      assert keywords[1..][i] == keywords[i + 1];
    }
  }

  lemma SchemeCases(u: UnicodeTable, s: string, scheme: string, k: CharClass, h: Hit) returns (body: nat)
    requires scheme != "" && MatchScheme(u, s, scheme, k) == Some(h)
    ensures StartsFolded(s, scheme) && |scheme| < h.prefix < |s| && h.prefix == |scheme| + Run(u, White, s[|scheme|..])
    ensures In(u, k, s[h.prefix]) && body == h.prefix + Run(u, k, s[h.prefix..]) && body <= |s|
    ensures h.prefix + h.token == body + Run(u, Padding, s[body..])
  {
    hide In, StartsFolded, Run;
    body := h.prefix + Run(u, k, s[h.prefix..]);
  }

  lemma RunTakesFirst(u: UnicodeTable, k: CharClass, s: string, at: nat)
    requires at < |s| && In(u, k, s[at])
    ensures Run(u, k, s[at..]) > 0
  {
    hide In;
    assert s[at..][0] == s[at];
  }

  lemma SchemeHits(u: UnicodeTable, s: string, scheme: string, k: CharClass, h: Hit)
    requires scheme != "" && MatchScheme(u, s, scheme, k) == Some(h)
    ensures SchemeHit(u, s, scheme, k, h)
  {
    hide In, IsRun, Run, StartsFolded, MatchScheme;
    var body := SchemeCases(u, s, scheme, k, h);
    RunIsRun(u, White, s, |scheme|);
    RunIsRun(u, k, s, h.prefix);
    RunIsRun(u, Padding, s, body);
    RunTakesFirst(u, k, s, h.prefix);
  }

  /** Where a header match ends its white space, its scheme, and the white space after that. */
  lemma HeaderCases(u: UnicodeTable, s: string, h: Hit) returns (j: nat, k: nat, l: nat)
    requires MatchHeader(u, s) == Some(h)
    ensures StartsFolded(s, "authorization:") && 14 <= j <= k <= l <= |s|
    ensures j == 14 + Run(u, White, s[14..]) && k == j + SchemeLength(s[j..]) && l == k + Run(u, White, s[k..])
    ensures h == if j < k && l < |s| && In(u, HeaderToken, s[l]) then Hit(l, Run(u, HeaderToken, s[l..]))
                 else Hit(j, Run(u, HeaderToken, s[j..]))
  {
    hide In, StartsFolded, Run, SchemeLength;
    j := 14 + Run(u, White, s[14..]);
    k := j + SchemeLength(s[j..]);
    l := k + Run(u, White, s[k..]);
  }

  /** The white space after a position runs to where `Run` says, so a token follows or not. */
  lemma TokenAfterIff(u: UnicodeTable, s: string, k: nat)
    requires k <= |s|
    ensures var l := k + Run(u, White, s[k..]);
            && IsRun(u, White, s, k, l)
            && (TokenAfter(u, s, k) <==> l < |s| && In(u, HeaderToken, s[l]))
  {
    hide In, IsRun, Run;
    var l := k + Run(u, White, s[k..]);
    RunIsRun(u, White, s, k);
    if l': nat :| IsRun(u, White, s, k, l') && l' < |s| && In(u, HeaderToken, s[l']) {
      RunsAgree(u, White, s, k, l, l');
    }
  }

  lemma HeaderHits(u: UnicodeTable, s: string, h: Hit)
    requires MatchHeader(u, s) == Some(h)
    ensures HeaderHit(u, s, h)
  {
    hide In, IsRun, StartsFolded, SchemeLength, Run, MatchHeader, TokenAfter;
    var j, k, l := HeaderCases(u, s, h);
    RunIsRun(u, White, s, 14);
    TokenAfterIff(u, s, k);
    RunIsRun(u, HeaderToken, s, h.prefix);
    assert IsRun(u, White, s, 14, j);
  }

  /** Every match is one of the four forms: this tells where its token starts and where it ends. */
  lemma HitIs(u: UnicodeTable, s: string, h: Hit)
    requires MatchHead(u, s) == Some(h)
    ensures || HeaderHit(u, s, h) || SchemeHit(u, s, "bearer", BearerToken, h)
            || SchemeHit(u, s, "basic", BasicToken, h) || ParamHit(u, s, h)
  {
    hide MatchHeader, MatchScheme, MatchParam, HeaderHit, SchemeHit, Keywords;
    if MatchHeader(u, s).Some? {
      HeaderHits(u, s, h);
    } else if MatchScheme(u, s, "bearer", BearerToken).Some? {
      SchemeHits(u, s, "bearer", BearerToken, h);
    } else if MatchScheme(u, s, "basic", BasicToken).Some? {
      SchemeHits(u, s, "basic", BasicToken, h);
    } else {
      ParamHits(u, s, Keywords(), h);
    }
  }

  /** An ASCII letter in either case, one of the four characters that fold to one, or a digit. */
  predicate IsAlphanumeric(c: char) {
    || 'a' <= LowerAscii(c) <= 'z' || '0' <= c <= '9'
    || c == '\U{0130}' || c == '\U{0131}' || c == '\U{017F}' || c == '\U{212A}'
  }

  /** The ASCII characters that keep a match from starting after them, and those that are white space. */
  lemma AsciiClasses(u: UnicodeTable, c: char)
    requires c < 128 as char
    ensures IsWord(u, c) <==> 'a' <= LowerAscii(c) <= 'z' || '0' <= c <= '9' || c == '_'
    ensures IsWhite(u, c) <==> c == ' ' || 9 <= c as int <= 13 || 28 <= c as int <= 31
  {}

  /** Where tokens end: at white space, and at the signs each form stops at. */
  lemma TokenStops(u: UnicodeTable, s: string, h: Hit)
    requires h.prefix + h.token <= |s|
    ensures HeaderHit(u, s, h) ==>
              && (forall i | h.prefix <= i < h.prefix + h.token :: !IsWhite(u, s[i]) && s[i] != ',' && s[i] != ';')
              && var end := h.prefix + h.token;
                 end == |s| || IsWhite(u, s[end]) || s[end] == ',' || s[end] == ';'
    ensures ParamHit(u, s, h) ==>
              && (forall i | h.prefix <= i < h.prefix + h.token :: !IsWhite(u, s[i]) && s[i] != '&' && s[i] != ';')
              && var end := h.prefix + h.token;
                 end == |s| || IsWhite(u, s[end]) || s[end] == '&' || s[end] == ';'
  {
    hide IsWhite, Keywords, SchemeLength, StartsFolded;
    var end := h.prefix + h.token;
    if HeaderHit(u, s, h) {
      forall i | h.prefix <= i < end ensures !IsWhite(u, s[i]) && s[i] != ',' && s[i] != ';' {
        assert In(u, HeaderToken, s[i]);
      }
    }
    if ParamHit(u, s, h) {
      forall i | h.prefix <= i < end ensures !IsWhite(u, s[i]) && s[i] != '&' && s[i] != ';' {
        assert In(u, ParamToken, s[i]);
      }
    }
  }

  /** A bearer token: its alphabet, then equals signs as padding. */
  lemma BearerTokenIs(u: UnicodeTable, s: string, h: Hit) returns (body: nat)
    requires h.prefix + h.token <= |s| && SchemeHit(u, s, "bearer", BearerToken, h)
    ensures h.prefix < body <= h.prefix + h.token
    ensures forall i | h.prefix <= i < body :: IsAlphanumeric(s[i]) || s[i] in {'-', '.', '_', '~', '+', '/'}
    ensures body < |s| ==> !IsAlphanumeric(s[body]) && s[body] !in {'-', '.', '_', '~', '+', '/'}
    ensures forall i | body <= i < h.prefix + h.token :: s[i] == '='
    ensures h.prefix + h.token < |s| ==> s[h.prefix + h.token] != '='
  {
    hide IsWhite, StartsFolded;
    var end := h.prefix + h.token;
    body :| h.prefix < body <= end && IsRun(u, BearerToken, s, h.prefix, body) && IsRun(u, Padding, s, body, end);
    PaddingIs(u, s, body, end);
    forall i | h.prefix <= i < body ensures IsAlphanumeric(s[i]) || s[i] in {'-', '.', '_', '~', '+', '/'} {
      assert In(u, BearerToken, s[i]);
    }
    assert body < |s| ==> !In(u, BearerToken, s[body]);
    assert end < |s| ==> !In(u, Padding, s[end]);
  }

  /** A basic token, likewise. */
  lemma BasicTokenIs(u: UnicodeTable, s: string, h: Hit) returns (body: nat)
    requires h.prefix + h.token <= |s| && SchemeHit(u, s, "basic", BasicToken, h)
    ensures h.prefix < body <= h.prefix + h.token
    ensures forall i | h.prefix <= i < body :: IsAlphanumeric(s[i]) || s[i] == '+' || s[i] == '/'
    ensures body < |s| ==> !IsAlphanumeric(s[body]) && s[body] != '+' && s[body] != '/'
    ensures forall i | body <= i < h.prefix + h.token :: s[i] == '='
    ensures h.prefix + h.token < |s| ==> s[h.prefix + h.token] != '='
  {
    hide IsWhite, StartsFolded;
    var end := h.prefix + h.token;
    body :| h.prefix < body <= end && IsRun(u, BasicToken, s, h.prefix, body) && IsRun(u, Padding, s, body, end);
    PaddingIs(u, s, body, end);
    forall i | h.prefix <= i < body ensures IsAlphanumeric(s[i]) || s[i] == '+' || s[i] == '/' {
      assert In(u, BasicToken, s[i]);
    }
    assert body < |s| ==> !In(u, BasicToken, s[body]);
    assert end < |s| ==> !In(u, Padding, s[end]);
  }

  lemma PaddingIs(u: UnicodeTable, s: string, from: nat, to: nat)
    requires IsRun(u, Padding, s, from, to)
    ensures forall i | from <= i < to :: s[i] == '='
  {
    forall i | from <= i < to ensures s[i] == '=' { assert In(u, Padding, s[i]); }
  }

  // ---------------------------------------------------------------------------------------------
  // Single credentials.

  /** A text that is one match from its head to its end keeps the prefix and loses all the rest. */
  lemma OneToken(u: UnicodeTable, s: string, h: Hit)
    requires MatchHead(u, s) == Some(h) && h.prefix + h.token == |s|
    ensures SanitizeText(u, s) == s[..h.prefix] + REDACTED
  {
    hide MatchHead, SanitizeText, Kept;
    var t := Token(0, h.prefix, |s|);
    assert s[0..] == s && s[|s|..] == "";
    assert TokensFrom(u, s, |s|, []);
    assert IsToken(u, s, t);
    assert TokensFrom(u, s, 0, [t]) by { assert [t][1..] == []; }
    OnlyTokensReplaced(u, s, [t]);
    OneTokenKept(u, s, t);
  }

  lemma OneTokenKept(u: UnicodeTable, s: string, t: Token)
    requires TokensFrom(u, s, 0, [t]) && t.to == |s|
    ensures Joined(Kept(u, s, 0, [t]), Masks(1)) == s[..t.from] + REDACTED
  {
    hide MatchHead, IsWord;
    assert [t][1..] == [];
    assert Kept(u, s, 0, [t]) == [s[0..t.from], s[|s|..]];
    assert Masks(1) == [REDACTED];
    assert [s[0..t.from], s[|s|..]][1..] == [s[|s|..]] && [REDACTED][1..] == [];
    assert s[|s|..] == "" && s[0..t.from] == s[..t.from];
  }

  /** The names of credential parameters, in any case. */
  predicate NamesCredential(name: string) {
    || Reads(name, "api_key") || Reads(name, "apikey") || Reads(name, "token") || Reads(name, "access_token")
    || Reads(name, "refresh_token") || Reads(name, "password") || Reads(name, "passwd") || Reads(name, "secret")
    || Reads(name, "client_secret") || Reads(name, "cookie")
  }

  predicate Reads(name: string, literal: string) {
    |name| == |literal| && forall i | 0 <= i < |name| :: LowerAscii(name[i]) == literal[i]
  }

  predicate AllIn(u: UnicodeTable, k: CharClass, s: string) {
    s != "" && forall i | 0 <= i < |s| :: In(u, k, s[i])
  }

  lemma ReadIsSpelled(name: string, literal: string)
    requires Lowercase(literal) && Reads(name, literal)
    ensures Spells(name, literal)
  {
    forall i | 0 <= i < |name| ensures Fold(name[i]) == literal[i] {
      assert LowerAscii(name[i]) == literal[i];
    }
  }

  lemma CredentialIsKeyword(name: string)
    requires NamesCredential(name)
    ensures IsKeyword(name)
  {
    hide Spells, Reads;
    var names := Keywords();
    assert names[0] == "api_key" && names[1] == "apikey" && names[2] == "token" && names[3] == "access_token";
    assert names[4] == "refresh_token" && names[5] == "password" && names[6] == "passwd" && names[7] == "secret";
    assert names[8] == "client_secret" && names[9] == "cookie" && |names| == 10;
    var i: nat :| i < |Keywords()| && Reads(name, Keywords()[i]);
    ReadIsSpelled(name, Keywords()[i]);
  }

  /** How a text of a word, something that is no word, and the rest is read. */
  lemma ViewIs(u: UnicodeTable, word: string, gap: string, rest: string)
    requires (forall i | 0 <= i < |word| :: IsWord(u, word[i])) && gap != "" && !IsWord(u, gap[0])
    requires (forall i | 0 < i < |gap| :: IsWhite(u, gap[i])) && rest != "" && !IsWhite(u, rest[0])
    ensures ViewOf(u, word + (gap + rest)) == View(word, Some(gap[0]), |gap| - 1, Some(rest[0]))
  {
    hide IsWord, IsWhite;
    var s := word + (gap + rest);
    RunIs(u, Word, s, |word|);
    var after := s[|word| + 1..];
    assert after == gap[1..] + rest;
    RunIs(u, White, after, |gap| - 1);
    assert s[..|word|] == word;
  }

  lemma SpelledIsWord(u: UnicodeTable, word: string, literal: string)
    requires Lowercase(literal) && Spells(word, literal)
    ensures forall i | 0 <= i < |word| :: IsWord(u, word[i])
  {}

  /** `name=value` keeps its name and loses its value. */
  lemma ParamIsMasked(u: UnicodeTable, name: string, value: string)
    requires NamesCredential(name) && AllIn(u, ParamToken, value)
    ensures SanitizeText(u, name + ("=" + value)) == name + "=" + REDACTED
  {
    hide MatchHead, MatchParam, SanitizeText, ViewOf, NamesCredential, Spells, Keywords, Run, IsWord;
    var s := name + ("=" + value);
    CredentialIsKeyword(name);
    KeywordIsWord(u, name);
    EqualsAndBracket(u);
    ViewIs(u, name, "=", value);
    KeywordMatches(u, s);
    OnlyParam(u, s);
    var h := MatchHead(u, s).value;
    ParamShape(u, s, Keywords(), h);
    RunIs(u, Word, s, |name|);
    var rest := s[|name| + 1..];
    assert rest == value;
    RunIs(u, ParamToken, value, |value|);
    OneToken(u, s, h);
    assert s[..h.prefix] == name + "=";
  }

  lemma KeywordIsWord(u: UnicodeTable, name: string)
    requires IsKeyword(name)
    ensures name != "" && forall i | 0 <= i < |name| :: IsWord(u, name[i])
  {
    hide Spells, Keywords, IsWord;
    var i :| 0 <= i < |Keywords()| && Spells(name, Keywords()[i]);
    SpelledIsWord(u, name, Keywords()[i]);
    assert |name| == |Keywords()[i]| by { SameLength(name, Keywords()[i]); }
  }

  lemma SameLength(word: string, literal: string)
    requires Spells(word, literal)
    ensures |word| == |literal|
  {}

  /** `Bearer value` and `Basic value` keep scheme and white space and lose the value. */
  lemma SchemeIsMasked(u: UnicodeTable, name: string, gap: string, value: string)
    requires AllIn(u, White, gap)
    requires || (Reads(name, "bearer") && AllIn(u, BearerToken, value))
             || (Reads(name, "basic") && AllIn(u, BasicToken, value))
    ensures SanitizeText(u, name + (gap + value)) == name + gap + REDACTED
  {
    hide MatchHeader, MatchScheme, MatchParam, SanitizeText, ViewOf, Spells, Run, IsRun, Keywords;
    var s := name + (gap + value);
    var bearer := Reads(name, "bearer");
    var scheme, k := if bearer then "bearer" else "basic", if bearer then BearerToken else BasicToken;
    SchemeNames();
    ReadIsSpelled(name, scheme);
    SpelledIsWord(u, name, scheme);
    ValueIsNotWhite(u, k, value);
    WhiteIsNoWord(u, gap);
    ViewIs(u, name, gap, value);
    OtherSpelling(name);
    HeaderOpens(u, s);
    SchemeOpens(u, s, "bearer", BearerToken);
    SchemeOpens(u, s, "basic", BasicToken);
    assert In(u, k, value[0]);
    var h := MatchScheme(u, s, scheme, k).value;
    SchemeHits(u, s, scheme, k, h);
    SchemeEnds(u, s, name, gap, value, scheme, k, h);
    assert MatchHead(u, s) == Some(h);
    hide MatchHead;
    OneToken(u, s, h);
    assert s[..h.prefix] == name + gap;
  }

  lemma OtherSpelling(name: string)
    ensures Spells(name, "bearer") ==> !Spells(name, "basic") && !Spells(name, "authorization")
    ensures Spells(name, "basic") ==> !Spells(name, "bearer") && !Spells(name, "authorization")
  {}

  lemma WhiteIsNoWord(u: UnicodeTable, gap: string)
    requires AllIn(u, White, gap)
    ensures !IsWord(u, gap[0]) && forall i | 0 <= i < |gap| :: IsWhite(u, gap[i])
  {
    assert forall i | 0 <= i < |gap| :: In(u, White, gap[i]);
  }

  lemma ValueIsNotWhite(u: UnicodeTable, k: CharClass, value: string)
    requires (k == BearerToken || k == BasicToken) && AllIn(u, k, value)
    ensures forall i | 0 <= i < |value| :: !IsWhite(u, value[i])
  {
    forall i | 0 <= i < |value| ensures !IsWhite(u, value[i]) { assert In(u, k, value[i]); }
  }

  lemma SchemeEnds(u: UnicodeTable, s: string, name: string, gap: string, value: string, scheme: string, k: CharClass,
                   h: Hit)
    requires s == name + (gap + value) && |name| == |scheme| && SchemeHit(u, s, scheme, k, h)
    requires AllIn(u, White, gap) && AllIn(u, k, value) && !In(u, White, value[0])
    ensures h.prefix == |name| + |gap| && h.prefix + h.token == |s|
  {
    hide In, StartsFolded;
    var at := |name| + |gap|;
    assert forall i | |name| <= i < at :: s[i] == gap[i - |name|];
    assert forall i | at <= i < |s| :: s[i] == value[i - at];
    assert IsRun(u, White, s, |scheme|, at);
    RunsAgree(u, White, s, |scheme|, h.prefix, at);
    var body: nat :| h.prefix < body <= h.prefix + h.token && IsRun(u, k, s, h.prefix, body) &&
                     IsRun(u, Padding, s, body, h.prefix + h.token);
    assert IsRun(u, k, s, at, |s|);
    RunsAgree(u, k, s, at, body, |s|);
  }

  /** `Authorization: Bearer value` keeps the header name and the scheme and loses the value. */
  lemma HeaderIsMasked(u: UnicodeTable, name: string, scheme: string, value: string)
    requires Reads(name, "authorization") && (Reads(scheme, "bearer") || Reads(scheme, "basic"))
    requires AllIn(u, HeaderToken, value)
    ensures SanitizeText(u, name + ": " + scheme + " " + value) == name + ": " + scheme + " " + REDACTED
  {
    hide MatchHead, MatchHeader, SanitizeText, Run, IsWord;
    var s := name + ": " + scheme + " " + value;
    var k := 15 + |scheme|;
    HeaderPlaces(u, name, scheme, value);
    assert s[k + 1..] == value;
    RunIs(u, HeaderToken, value, |value|);
    HeaderAt(u, s, 15, k, k + 1);
    HeaderFirst(u, s);
    OneToken(u, s, Hit(k + 1, |value|));
    assert s[..k + 1] == name + ": " + scheme + " ";
  }

  lemma BlankIsWhite(u: UnicodeTable)
    ensures IsWhite(u, ' ') && !IsWhite(u, ':')
  {}

  lemma HeaderPlaces(u: UnicodeTable, name: string, scheme: string, value: string)
    requires Reads(name, "authorization") && (Reads(scheme, "bearer") || Reads(scheme, "basic"))
    requires AllIn(u, HeaderToken, value)
    ensures var s := name + ": " + scheme + " " + value;
            var k := 15 + |scheme|;
            && StartsFolded(s, "authorization:") && |s| == k + 1 + |value|
            && s[14] == s[k] == ' ' && IsWhite(u, ' ') && !IsWhite(u, s[15])
            && s[k + 1] == value[0] && In(u, HeaderToken, value[0]) && k == 15 + SchemeLength(s[15..])
  {
    var s := name + ": " + scheme + " " + value;
    BlankIsWhite(u);
    hide IsWhite, IsWord;
    ReadIsSpelled(name, "authorization");
    forall i | 0 <= i < 14 ensures Fold(s[i]) == "authorization:"[i] {
      if i < 13 { assert s[i] == name[i] && Fold(name[i]) == "authorization"[i]; }
    }
    SchemeNames();
    var tail := s[15..];
    assert tail == scheme + " " + value;
    if Reads(scheme, "bearer") {
      ReadIsSpelled(scheme, "bearer");
      assert StartsFolded(tail, "bearer") by { assert forall i | 0 <= i < 6 :: tail[i] == scheme[i]; }
    } else {
      ReadIsSpelled(scheme, "basic");
      assert forall i | 0 <= i < 5 :: tail[i] == scheme[i];
      assert StartsFolded(tail, "basic");
      assert Fold(tail[1]) == 'a' && "bearer"[1] == 'e';
    }
    SchemeNotWhite(u, tail);
    assert tail[0] == s[15];
  }
}
