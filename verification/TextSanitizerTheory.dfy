/**
 * What the scrubber guarantees: after one pass no position of the text opens a match whose token
 * is still readable, the texts it leaves alone are exactly the clean ones, and so a second pass
 * changes nothing.
 */
module TextSanitizerTheory {
  import opened Prelude
  import opened PythonText
  import opened TextSanitizer

  /** The whole text, read at every position: a match may start there only on a masked token. */
  ghost predicate Clean(u: UnicodeTable, afterWord: bool, s: string)
    decreases |s|
  {
    s == "" || (Masked(u, afterWord, s) && Clean(u, IsWord(u, s[0]), s[1..]))
  }

  ghost predicate Masked(u: UnicodeTable, afterWord: bool, s: string) {
    var hit := MatchHead(u, s);
    !afterWord && hit.Some? ==>
      s[hit.value.prefix..hit.value.prefix + hit.value.token] == REDACTED
  }

  // ---------------------------------------------------------------------------------------------
  // When a match starts: a decision on the leading word, what separates it, and what follows.

  datatype View = View(word: string, separator: Option<char>, gap: nat, next: Option<char>)

  ghost function ViewOf(u: UnicodeTable, s: string): View {
    var n := Run(u, Word, s);
    if n == |s| then View(s, None, 0, None)
    else
      var m := Run(u, White, s[n + 1..]);
      View(s[..n], Some(s[n]), m, if n + 1 + m < |s| then Some(s[n + 1 + m]) else None)
  }

  ghost predicate Spells(word: string, literal: string) {
    |word| == |literal| && StartsFolded(word, literal)
  }

  ghost predicate IsKeyword(word: string) {
    exists i | 0 <= i < |Keywords()| :: Spells(word, Keywords()[i])
  }

  ghost predicate Opens(u: UnicodeTable, v: View) {
    && v.separator.Some? && v.next.Some?
    && (|| (Spells(v.word, "authorization") && v.separator.value == ':' && In(u, HeaderToken, v.next.value))
        || (Spells(v.word, "bearer") && IsWhite(u, v.separator.value) && In(u, BearerToken, v.next.value))
        || (Spells(v.word, "basic") && IsWhite(u, v.separator.value) && In(u, BasicToken, v.next.value))
        || (IsKeyword(v.word) && v.separator.value == '=' && v.gap == 0 && In(u, ParamToken, v.next.value)))
  }

  lemma {:induction false} RunIs(u: UnicodeTable, k: CharClass, s: string, n: nat)
    requires n <= |s|
    requires forall i | 0 <= i < n :: In(u, k, s[i])
    requires n < |s| ==> !In(u, k, s[n])
    ensures Run(u, k, s) == n
  {}

  /** A literal read at the head of a text is exactly its leading word. */
  lemma LiteralIsWord(u: UnicodeTable, s: string, literal: string)
    requires Lowercase(literal) && StartsFolded(s, literal)
    requires |literal| < |s| && !IsWord(u, s[|literal|])
    ensures Run(u, Word, s) == |literal| && Spells(s[..|literal|], literal)
  {}

  lemma HeaderOpens(u: UnicodeTable, s: string)
    ensures MatchHeader(u, s).Some? <==>
      var v := ViewOf(u, s);
      && v.separator == Some(':') && Spells(v.word, "authorization")
      && v.next.Some? && In(u, HeaderToken, v.next.value)
  {
    if StartsFolded(s, "authorization:") {
      assert Fold(s[13]) == "authorization:"[13] == ':';
      assert StartsFolded(s, "authorization") by {
        forall i | 0 <= i < 13 ensures Fold(s[i]) == "authorization"[i] {
          assert "authorization:"[i] == "authorization"[i];
        }
      }
      LiteralIsWord(u, s, "authorization");
      var j := 14 + Run(u, White, s[14..]);
      if SchemeLength(s[j..]) > 0 { assert IsLetter(s[j..][0]); }
    } else {
      var v := ViewOf(u, s);
      if v.separator == Some(':') && Spells(v.word, "authorization") {
        forall i | 0 <= i < 14 ensures Fold(s[i]) == "authorization:"[i] {
          if i < 13 { assert Fold(v.word[i]) == "authorization"[i]; }
        }
      }
    }
  }

  lemma SchemeOpens(u: UnicodeTable, s: string, scheme: string, k: CharClass)
    requires scheme != "" && Lowercase(scheme)
    ensures MatchScheme(u, s, scheme, k).Some? <==>
      var v := ViewOf(u, s);
      && v.separator.Some? && IsWhite(u, v.separator.value) && Spells(v.word, scheme)
      && v.next.Some? && In(u, k, v.next.value)
  {
    hide IsWord, Run;
    var n := |scheme|;
    var v := ViewOf(u, s);
    if StartsFolded(s, scheme) && n < |s| && IsWhite(u, s[n]) {
      LiteralIsWord(u, s, scheme);
      var m := Run(u, White, s[n + 1..]);
      forall i | 0 <= i < m + 1 ensures In(u, White, s[n..][i]) {
        if i > 0 { assert s[n..][i] == s[n + 1..][i - 1]; }
      }
      RunIs(u, White, s[n..], m + 1);
    } else if v.separator.Some? && Spells(v.word, scheme) {
      assert forall i | 0 <= i < n :: Fold(s[i]) == Fold(v.word[i]) == scheme[i];
    }
  }

  /** A keyword and `=` are read at the head exactly when the leading word spells the keyword and `=` follows. */
  lemma KeywordAtHead(u: UnicodeTable, s: string, keyword: string)
    requires Lowercase(keyword)
    ensures var n := Run(u, Word, s);
            StartsFolded(s, keyword + "=") <==> n < |s| && s[n] == '=' && Spells(s[..n], keyword)
    ensures StartsFolded(s, keyword + "=") ==> Run(u, Word, s) == |keyword|
  {
    hide Run;
    var literal := keyword + "=";
    var k := |keyword|;
    if StartsFolded(s, literal) {
      assert Fold(s[k]) == literal[k] == '=';
      assert forall i | 0 <= i < k :: Fold(s[i]) == literal[i] == keyword[i];
      LiteralIsWord(u, s, keyword);
    }
    var n := Run(u, Word, s);
    if n < |s| && s[n] == '=' && Spells(s[..n], keyword) {
      forall i | 0 <= i < |literal| ensures Fold(s[i]) == literal[i] {
        if i < k { assert Fold(s[..n][i]) == keyword[i]; }
      }
    }
  }

  lemma {:induction false} ParamOpens(u: UnicodeTable, s: string, keywords: seq<string>)
    requires forall i | 0 <= i < |keywords| :: Lowercase(keywords[i])
    ensures MatchParam(u, s, keywords).Some? <==>
      var v := ViewOf(u, s);
      && v.separator == Some('=') && v.gap == 0 && v.next.Some? && In(u, ParamToken, v.next.value)
      && exists i | 0 <= i < |keywords| :: Spells(v.word, keywords[i])
  {
    hide Spells, IsWord, StartsFolded;
    if keywords != [] {
      ParamOpens(u, s, keywords[1..]);
      KeywordAtHead(u, s, keywords[0]);
      assert forall i | 0 < i < |keywords| :: keywords[i] == keywords[1..][i - 1];
    }
  }

  /** The matcher succeeds at the head of a text exactly when the view of the text opens a match. */
  lemma MatchIffOpens(u: UnicodeTable, s: string)
    ensures MatchHead(u, s).Some? <==> Opens(u, ViewOf(u, s))
  {
    hide Keywords;
    HeaderOpens(u, s);
    SchemeOpens(u, s, "bearer", BearerToken);
    SchemeOpens(u, s, "basic", BasicToken);
    ParamOpens(u, s, Keywords());
  }

  // ---------------------------------------------------------------------------------------------
  // Scrubbing keeps the view of the text it has not matched.

  lemma FoldsOnlyLetters(s: string, literal: string)
    requires s == "" || !IsLetter(s[0])
    requires literal != "" && 'a' <= literal[0] <= 'z'
    ensures !StartsFolded(s, literal)
  {}

  /** No match starts on a character that is not a letter. */
  lemma NoMatchOffLetters(u: UnicodeTable, s: string)
    requires s == "" || !IsLetter(s[0])
    ensures MatchHead(u, s).None?
  {
    hide MatchHead, Keywords;
    MatchIffOpens(u, s);
    var word := ViewOf(u, s).word;
    assert word == "" || word[0] == s[0];
    FoldsOnlyLetters(word, "authorization");
    FoldsOnlyLetters(word, "bearer");
    FoldsOnlyLetters(word, "basic");
    forall i | 0 <= i < |Keywords()| ensures !StartsFolded(word, Keywords()[i]) {
      FoldsOnlyLetters(word, Keywords()[i]);
    }
  }

  lemma ScrubHead(u: UnicodeTable, w: bool, s: string)
    ensures s == "" <==> Scrub(u, w, s) == ""
    ensures s != "" ==> Scrub(u, w, s)[0] == s[0]
  {}

  lemma ScrubCopies(u: UnicodeTable, w: bool, s: string)
    requires s != "" && (w || MatchHead(u, s).None?)
    ensures Scrub(u, w, s) == [s[0]] + Scrub(u, IsWord(u, s[0]), s[1..])
  {}

  /** A match at the head keeps its prefix and loses its token. */
  lemma ScrubHits(u: UnicodeTable, s: string, mask: string, h: Hit)
    requires s != "" && MatchHead(u, s) == Some(h) && mask == REDACTED
    ensures var end := h.prefix + h.token;
            Scrub(u, false, s) == s[..h.prefix] + (mask + Scrub(u, IsWord(u, s[end - 1]), s[end..]))
  {}

  /** Inside a word nothing matches, so the rest of the word is copied. */
  lemma {:induction false} ScrubWord(u: UnicodeTable, s: string)
    ensures var n := Run(u, Word, s); Scrub(u, true, s) == s[..n] + Scrub(u, true, s[n..])
  {
    hide MatchHead, IsWord, Scrub;
    var n := Run(u, Word, s);
    if n > 0 {
      ScrubCopies(u, true, s);
      ScrubWord(u, s[1..]);
      assert s[1..][..n - 1] == s[1..n] && s[1..][n - 1..] == s[n..];
      assert s[..n] == [s[0]] + s[1..n];
    } else {
      assert s[n..] == s;
    }
  }

  lemma ScrubOther(u: UnicodeTable, w: bool, s: string)
    requires s != "" && !IsWord(u, s[0])
    ensures Scrub(u, w, s) == [s[0]] + Scrub(u, false, s[1..])
  {
    hide MatchHead, Keywords;
    NoMatchOffLetters(u, s);
  }

  lemma {:induction false} ScrubWhite(u: UnicodeTable, s: string)
    ensures var m := Run(u, White, s); Scrub(u, false, s) == s[..m] + Scrub(u, false, s[m..])
  {
    hide MatchHead, IsWord;
    var m := Run(u, White, s);
    if m > 0 {
      ScrubOther(u, false, s);
      ScrubWhite(u, s[1..]);
      assert s[1..][..m - 1] == s[1..m] && s[1..][m - 1..] == s[m..];
      assert s[..m] == [s[0]] + s[1..m];
    } else {
      assert s[m..] == s;
    }
  }

  /** The view of a text determined by its leading word, its separator and the white space after. */
  lemma ViewFrom(u: UnicodeTable, s: string, n: nat, m: nat)
    requires n < |s| && n + 1 + m <= |s|
    requires forall i | 0 <= i < n :: IsWord(u, s[i])
    requires !IsWord(u, s[n])
    requires forall i | n < i <= n + m :: IsWhite(u, s[i])
    requires n + 1 + m < |s| ==> !IsWhite(u, s[n + 1 + m])
    ensures ViewOf(u, s) == View(s[..n], Some(s[n]), m, if n + 1 + m < |s| then Some(s[n + 1 + m]) else None)
  {}

  /** A text whose head does not match, scrubbed: its leading word is copied as it stands. */
  lemma ScrubLeadingWord(u: UnicodeTable, s: string)
    requires s != ""
    ensures var n := Run(u, Word, s);
            var t := [s[0]] + Scrub(u, IsWord(u, s[0]), s[1..]);
            t == if n == |s| then s else s[..n] + [s[n]] + Scrub(u, false, s[n + 1..])
  {
    hide Scrub, MatchHead, IsWord, Run;
    var n := Run(u, Word, s);
    if n > 0 {
      assert In(u, Word, s[0]);
      forall i | 0 <= i < n - 1 ensures In(u, Word, s[1..][i]) { assert s[1..][i] == s[i + 1]; }
      RunIs(u, Word, s[1..], n - 1);
      ScrubWord(u, s[1..]);
      assert s[1..][..n - 1] == s[1..n] && s[1..][n - 1..] == s[n..];
      assert s[..n] == [s[0]] + s[1..n];
      if n < |s| {
        ScrubOther(u, true, s[n..]);
        assert s[n..][1..] == s[n + 1..];
      } else {
        assert s[n..] == "";
        ScrubHead(u, true, "");
      }
    }
  }

  /** Two texts with the same first `n + 1 + m` characters and the same character after them. */
  lemma SameView(u: UnicodeTable, s: string, rest: string, tail: string, n: nat, m: nat)
    requires n == Run(u, Word, s) < |s| && rest == s[n + 1..] && m == Run(u, White, rest)
    requires tail == "" <==> |rest| == m
    requires tail != "" ==> tail[0] == rest[m]
    ensures ViewOf(u, s[..n] + [s[n]] + (rest[..m] + tail)) == ViewOf(u, s)
  {
    hide IsWord, IsWhite, Run;
    var t := s[..n] + [s[n]] + (rest[..m] + tail);
    forall i | n < i <= n + m ensures IsWhite(u, t[i]) {
      assert t[i] == rest[i - n - 1] && In(u, White, rest[i - n - 1]);
    }
    forall i | 0 <= i < n ensures IsWord(u, t[i]) {
      assert t[i] == s[i] && In(u, Word, s[i]);
    }
    if n + 1 + m < |t| { assert t[n + 1 + m] == tail[0]; }
    ViewFrom(u, t, n, m);
    assert t[..n] == s[..n];
  }

  lemma ScrubbedRestKeepsView(u: UnicodeTable, s: string, body: string)
    requires var n := Run(u, Word, s); n < |s| && body == Scrub(u, false, s[n + 1..])
    ensures var n := Run(u, Word, s); ViewOf(u, s[..n] + [s[n]] + body) == ViewOf(u, s)
  {
    hide Scrub, IsWord, IsWhite, ViewOf, Run;
    var n := Run(u, Word, s);
    var rest := s[n + 1..];
    var m := Run(u, White, rest);
    ScrubWhite(u, rest);
    ScrubHead(u, false, rest[m..]);
    SameView(u, s, rest, Scrub(u, false, rest[m..]), n, m);
  }

  lemma ScrubKeepsView(u: UnicodeTable, s: string, t: string)
    requires s != "" && t == [s[0]] + Scrub(u, IsWord(u, s[0]), s[1..])
    ensures ViewOf(u, t) == ViewOf(u, s)
  {
    hide Scrub, IsWord, ViewOf, Run;
    ScrubLeadingWord(u, s);
    var n := Run(u, Word, s);
    if n < |s| {
      ScrubbedRestKeepsView(u, s, Scrub(u, false, s[n + 1..]));
    }
  }

  lemma NoNewMatch(u: UnicodeTable, s: string)
    requires s != "" && MatchHead(u, s).None?
    ensures MatchHead(u, [s[0]] + Scrub(u, IsWord(u, s[0]), s[1..])).None?
  {
    hide MatchHead, Keywords;
    var t := [s[0]] + Scrub(u, IsWord(u, s[0]), s[1..]);
    ScrubKeepsView(u, s, t);
    MatchIffOpens(u, s);
    MatchIffOpens(u, t);
  }

  // ---------------------------------------------------------------------------------------------
  // The scrubbed text is clean.

  lemma {:induction false} CleanAfterOthers(u: UnicodeTable, w: bool, a: string, y: string)
    requires a != "" && forall i | 0 <= i < |a| :: !IsWord(u, a[i])
    requires Clean(u, false, y)
    ensures Clean(u, w, a + y)
  {
    hide MatchHead, Keywords;
    var s := a + y;
    NoMatchOffLetters(u, s);
    assert s[1..] == a[1..] + y;
    if |a| > 1 { CleanAfterOthers(u, false, a[1..], y); } else { assert s[1..] == y; }
  }

  lemma {:induction false} CleanInsideWord(u: UnicodeTable, a: string, y: string)
    requires forall i | 0 <= i < |a| :: IsWord(u, a[i])
    requires Clean(u, true, y)
    ensures Clean(u, true, a + y)
  {
    hide MatchHead, IsWord;
    if a == "" {
      assert a + y == y;
    } else {
      CleanInsideWord(u, a[1..], y);
      assert (a + y)[1..] == a[1..] + y;
    }
  }

  /** A whole word whose first position is masked or does not match. */
  lemma CleanWord(u: UnicodeTable, w: bool, word: string, y: string)
    requires word != "" && forall i | 0 <= i < |word| :: IsWord(u, word[i])
    requires Masked(u, false, word + y) && Clean(u, true, y)
    ensures Clean(u, w, word + y)
  {
    hide MatchHead, IsWord;
    CleanInsideWord(u, word[1..], y);
    assert (word + y)[1..] == word[1..] + y;
  }

  /** A word followed by something that is neither white space nor `:` nor `=` opens no match. */
  lemma OddSeparatorShut(u: UnicodeTable, s: string, n: nat)
    requires n < |s| && (forall i | 0 <= i < n :: IsWord(u, s[i])) && !IsWord(u, s[n])
    requires !IsWhite(u, s[n]) && s[n] != ':' && s[n] != '='
    ensures MatchHead(u, s).None?
  {
    hide MatchHead, Keywords, IsWord, IsWhite, Run, Spells;
    RunIs(u, Word, s, n);
    MatchIffOpens(u, s);
  }

  lemma BracketsAreOdd(u: UnicodeTable)
    ensures !IsWord(u, '[') && !IsWhite(u, '[') && !IsWord(u, ']') && !IsWhite(u, ']')
    ensures !In(u, BearerToken, '[') && !In(u, BasicToken, '[')
  {}

  lemma WhiteIsNoSign(u: UnicodeTable, c: char)
    requires IsWhite(u, c)
    ensures c != ':' && c != '='
  {}

  /** A word, white space and a bracket open no match. */
  lemma BracketShutsScheme(u: UnicodeTable, s: string, n: nat, m: nat)
    requires n + 1 + m < |s| && (forall i | 0 <= i < n :: IsWord(u, s[i]))
    requires (forall i | n <= i <= n + m :: IsWhite(u, s[i])) && s[n + 1 + m] == '['
    ensures MatchHead(u, s).None?
  {
    BracketsAreOdd(u);
    WhiteIsNoSign(u, s[n]);
    assert !IsWord(u, s[n]);
    hide MatchHead, Keywords, IsWord, IsWhite, ViewOf, Spells;
    ViewFrom(u, s, n, m);
    MatchIffOpens(u, s);
  }

  lemma RedactedIsWord(u: UnicodeTable)
    ensures forall i | 0 <= i < 8 :: IsWord(u, "REDACTED"[i])
  {}

  lemma CleanRedacted(u: UnicodeTable, w: bool, y: string)
    requires Clean(u, false, y)
    ensures Clean(u, w, REDACTED + y)
  {
    hide MatchHead, Keywords, IsWord, IsWhite, Clean;
    BracketsAreOdd(u);
    RedactedIsWord(u);
    CleanAfterOthers(u, true, "]", y);
    var s := "REDACTED" + ("]" + y);
    OddSeparatorShut(u, s, 8);
    CleanWord(u, false, "REDACTED", "]" + y);
    CleanAfterOthers(u, w, "[", s);
    assert REDACTED + y == "[" + s;
  }

  /** A word, white space and a masked token: a scheme name no longer opens a match there. */
  lemma MaskedSchemeShut(u: UnicodeTable, word: string, gap: string, y: string)
    requires forall i | 0 <= i < |word| :: IsWord(u, word[i])
    requires forall i | 0 <= i < |gap| :: IsWhite(u, gap[i])
    ensures MatchHead(u, word + (gap + (REDACTED + y))).None?
  {
    hide MatchHead, Keywords, IsWord, IsWhite;
    BracketsAreOdd(u);
    var s := word + (gap + (REDACTED + y));
    if gap == "" {
      OddSeparatorShut(u, s, |word|);
    } else {
      BracketShutsScheme(u, s, |word|, |gap| - 1);
    }
  }

  lemma CleanScheme(u: UnicodeTable, w: bool, word: string, gap: string, y: string)
    requires word != "" && forall i | 0 <= i < |word| :: IsWord(u, word[i])
    requires forall i | 0 <= i < |gap| :: IsWhite(u, gap[i])
    requires Clean(u, false, y)
    ensures Clean(u, w, word + (gap + (REDACTED + y)))
  {
    hide MatchHead, Keywords;
    var masked := REDACTED + y;
    MaskedSchemeShut(u, word, gap, y);
    if gap == "" {
      CleanRedacted(u, true, y);
      assert gap + masked == masked;
    } else {
      CleanRedacted(u, false, y);
      CleanAfterOthers(u, true, gap, masked);
    }
    CleanWord(u, w, word, gap + masked);
  }

  lemma CleanEither(u: UnicodeTable, w: bool, y: string)
    requires Clean(u, w, y)
    requires w && y != "" ==> !IsLetter(y[0])
    ensures Clean(u, false, y)
  {
    hide MatchHead, Keywords;
    NoMatchOffLetters(u, if w then y else "");
  }

  lemma HitFrom(u: UnicodeTable, s: string, h: Hit)
    requires MatchHead(u, s) == Some(h)
    ensures || MatchHeader(u, s) == Some(h)
            || MatchScheme(u, s, "bearer", BearerToken) == Some(h)
            || MatchScheme(u, s, "basic", BasicToken) == Some(h)
            || MatchParam(u, s, Keywords()) == Some(h)
  {}

  /** What follows a token that ends in a word character cannot start a match. */
  lemma AfterToken(u: UnicodeTable, s: string, h: Hit)
    requires MatchHead(u, s) == Some(h)
    ensures var end := h.prefix + h.token;
            end < |s| && IsWord(u, s[end - 1]) ==> !IsLetter(s[end])
  {
    HitFrom(u, s, h);
    hide *;
    var end := h.prefix + h.token;
    if MatchHeader(u, s) == Some(h) {
      HeaderShape(u, s, h);
      if end < |s| { OffTokenIsNoLetter(u, HeaderToken, s[end]); }
    } else if MatchScheme(u, s, "bearer", BearerToken) == Some(h) {
      SchemeTokenEnd(u, s, "bearer", BearerToken, h);
    } else if MatchScheme(u, s, "basic", BasicToken) == Some(h) {
      SchemeTokenEnd(u, s, "basic", BasicToken, h);
    } else {
      ParamShape(u, s, Keywords(), h);
      if end < |s| { OffTokenIsNoLetter(u, ParamToken, s[end]); }
    }
  }

  lemma OffTokenIsNoLetter(u: UnicodeTable, k: CharClass, c: char)
    requires k == HeaderToken || k == ParamToken
    ensures !In(u, k, c) ==> !IsLetter(c)
  {}

  lemma HeaderShape(u: UnicodeTable, s: string, h: Hit)
    requires MatchHeader(u, s) == Some(h)
    ensures h.token == Run(u, HeaderToken, s[h.prefix..])
  {}

  lemma SchemeTokenEnd(u: UnicodeTable, s: string, scheme: string, k: CharClass, h: Hit)
    requires scheme != "" && (k == BearerToken || k == BasicToken)
    requires MatchScheme(u, s, scheme, k) == Some(h)
    ensures var end := h.prefix + h.token;
            end < |s| && IsWord(u, s[end - 1]) ==> !IsLetter(s[end])
  {}

  lemma ParamShape(u: UnicodeTable, s: string, keywords: seq<string>, h: Hit)
    requires forall i | 0 <= i < |keywords| :: Lowercase(keywords[i])
    requires MatchParam(u, s, keywords) == Some(h)
    ensures h.prefix == Run(u, Word, s) + 1 && s[h.prefix - 1] == '='
    ensures h.token == Run(u, ParamToken, s[h.prefix..])
  {
    var literal := keywords[0] + "=";
    var n := |literal|;
    if StartsFolded(s, literal) {
      assert Fold(s[n - 1]) == literal[n - 1] == '=';
      assert forall i | 0 <= i < n - 1 :: Fold(s[i]) == literal[i] == keywords[0][i];
      LiteralIsWord(u, s, keywords[0]);
    }
    if !(StartsFolded(s, literal) && n < |s| && In(u, ParamToken, s[n])) {
      ParamShape(u, s, keywords[1..], h);
    }
  }

  lemma ParamPrefix(u: UnicodeTable, s: string, h: Hit)
    requires MatchParam(u, s, Keywords()) == Some(h)
    ensures 1 < h.prefix && forall i | 0 <= i < h.prefix - 1 :: IsWord(u, s[i])
    ensures s[h.prefix - 1] == '='
    ensures IsKeyword(s[..h.prefix - 1])
  {
    hide IsWord, IsWhite, Run, Keywords;
    ParamShape(u, s, Keywords(), h);
    ParamOpens(u, s, Keywords());
    var i :| 0 <= i < |Keywords()| && Spells(ViewOf(u, s).word, Keywords()[i]);
    assert |Keywords()[i]| > 0;
    forall i | 0 <= i < h.prefix - 1 ensures IsWord(u, s[i]) { assert In(u, Word, s[i]); }
  }

  /** Only the fourth alternative matches across an equals sign. */
  lemma OnlyParam(u: UnicodeTable, s: string)
    requires ViewOf(u, s).separator == Some('=')
    ensures MatchHead(u, s) == MatchParam(u, s, Keywords())
  {
    hide MatchHeader, MatchScheme, MatchParam, ViewOf, Keywords;
    HeaderOpens(u, s);
    SchemeOpens(u, s, "bearer", BearerToken);
    SchemeOpens(u, s, "basic", BasicToken);
  }

  lemma KeywordMatches(u: UnicodeTable, s: string)
    requires var v := ViewOf(u, s);
             && IsKeyword(v.word) && v.separator == Some('=') && v.gap == 0
             && v.next.Some? && In(u, ParamToken, v.next.value)
    ensures MatchParam(u, s, Keywords()).Some?
  {
    hide MatchParam, ViewOf, Spells, Keywords;
    ParamOpens(u, s, Keywords());
  }

  lemma EqualsAndBracket(u: UnicodeTable)
    ensures !IsWord(u, '=') && !IsWhite(u, '[') && In(u, ParamToken, '[')
    ensures forall i | 0 <= i < 10 :: In(u, ParamToken, REDACTED[i])
  {}

  /** After masking a parameter the same parameter matches, and its token is the mask. */
  lemma MaskedParam(u: UnicodeTable, word: string, y: string)
    requires forall i | 0 <= i < |word| :: IsWord(u, word[i])
    requires IsKeyword(word)
    requires y != "" ==> !In(u, ParamToken, y[0])
    ensures MatchHead(u, word + ("=" + (REDACTED + y))) == Some(Hit(|word| + 1, 10))
  {
    hide MatchHead, MatchParam, ViewOf, Run, Keywords, IsKeyword, IsWord, IsWhite;
    var tail := REDACTED + y;
    var t := word + ("=" + tail);
    var n := |word|;
    EqualsAndBracket(u);
    assert t[..n] == word && t[n] == '=' && t[n + 1] == '[' && t[n + 1..] == tail;
    ViewFrom(u, t, n, 0);
    OnlyParam(u, t);
    KeywordMatches(u, t);
    ParamShape(u, t, Keywords(), MatchParam(u, t, Keywords()).value);
    RunIs(u, Word, t, n);
    MaskIsParamToken(u, y);
  }

  lemma MaskIsParamToken(u: UnicodeTable, y: string)
    requires y != "" ==> !In(u, ParamToken, y[0])
    ensures Run(u, ParamToken, REDACTED + y) == 10
  {
    hide IsWord, IsWhite, Run;
    EqualsAndBracket(u);
    RunIs(u, ParamToken, REDACTED + y, 10);
  }

  lemma MaskedAt(u: UnicodeTable, w: bool, prefix: string, y: string)
    requires MatchHead(u, prefix + (REDACTED + y)) == Some(Hit(|prefix|, 10))
    ensures Masked(u, w, prefix + (REDACTED + y))
  {
    hide MatchHead;
    var t := prefix + (REDACTED + y);
    assert t[|prefix|..] == REDACTED + y && t[|prefix|..|prefix| + 10] == (REDACTED + y)[..10];
  }

  lemma CleanParamWord(u: UnicodeTable, word: string, y: string)
    requires forall i | 0 <= i < |word| :: IsWord(u, word[i])
    requires word != "" && IsKeyword(word)
    requires Clean(u, false, y) && (y != "" ==> !In(u, ParamToken, y[0]))
    ensures Clean(u, false, word + ("=" + (REDACTED + y)))
  {
    hide MatchHead, Clean, Keywords, Masked, In;
    MaskedParam(u, word, y);
    assert word + ("=" + (REDACTED + y)) == (word + "=") + (REDACTED + y);
    MaskedAt(u, false, word + "=", y);
    CleanRedacted(u, false, y);
    CleanAfterOthers(u, true, "=", REDACTED + y);
    CleanWord(u, false, word, "=" + (REDACTED + y));
  }

  lemma CleanParam(u: UnicodeTable, s: string, h: Hit, y: string)
    requires MatchParam(u, s, Keywords()) == Some(h)
    requires Clean(u, false, y) && (y != "" ==> !In(u, ParamToken, y[0]))
    ensures Clean(u, false, s[..h.prefix] + (REDACTED + y))
  {
    hide *;
    ParamPrefix(u, s, h);
    var word := s[..h.prefix - 1];
    CleanParamWord(u, word, y);
    assert s[..h.prefix] + (REDACTED + y) == word + ("=" + (REDACTED + y));
  }

  lemma CleanSchemeHit(u: UnicodeTable, s: string, scheme: string, k: CharClass, h: Hit, y: string)
    requires scheme != "" && Lowercase(scheme)
    requires MatchScheme(u, s, scheme, k) == Some(h) && Clean(u, false, y)
    ensures Clean(u, false, s[..h.prefix] + (REDACTED + y))
  {
    hide Clean, Run, MatchHead, IsWhite, SchemeLength;
    var n := |scheme|;
    forall i | 0 <= i < n ensures IsWord(u, s[i]) { assert Fold(s[i]) == scheme[i]; }
    var gap := s[n..h.prefix];
    forall i | 0 <= i < |gap| ensures IsWhite(u, gap[i]) {
      assert In(u, White, s[n..][i]);
    }
    CleanScheme(u, false, s[..n], gap, y);
    assert s[..n] + (gap + (REDACTED + y)) == s[..h.prefix] + (REDACTED + y);
  }

  /** What a first-alternative match has kept: the header name, a gap, a scheme and its gap. */
  lemma HeaderPrefix(u: UnicodeTable, s: string, h: Hit) returns (j: nat, k: nat)
    requires MatchHeader(u, s) == Some(h)
    ensures StartsFolded(s, "authorization:") && s[13] == ':' && 14 <= j <= k <= h.prefix
    ensures forall i | 0 <= i < 13 :: IsWord(u, s[i])
    ensures forall i | 14 <= i < j :: IsWhite(u, s[i])
    ensures k - j == SchemeLength(s[j..]) || h.prefix == j == k
    ensures forall i | k <= i < h.prefix :: IsWhite(u, s[i])
    ensures k == j ==> h.prefix == j
  {
    hide IsWhite, Run, SchemeLength;
    forall i | 0 <= i < 13 ensures IsWord(u, s[i]) {
      assert Fold(s[i]) == "authorization:"[i] == "authorization"[i];
    }
    assert Fold(s[13]) == "authorization:"[13] == ':';
    j := 14 + Run(u, White, s[14..]);
    forall i | 14 <= i < j ensures IsWhite(u, s[i]) { assert In(u, White, s[14..][i - 14]); }
    k := if h.prefix == j then j else j + SchemeLength(s[j..]);
    if k < h.prefix {
      forall i | k <= i < h.prefix ensures IsWhite(u, s[i]) { assert In(u, White, s[k..][i - k]); }
    }
  }

  lemma HeaderAt(u: UnicodeTable, t: string, j: nat, k: nat, l: nat)
    requires StartsFolded(t, "authorization:") && 14 <= j <= k <= l < |t|
    requires forall i | 14 <= i < j :: IsWhite(u, t[i])
    requires forall i | k <= i < l :: IsWhite(u, t[i])
    requires !IsWhite(u, t[j]) && In(u, HeaderToken, t[l])
    requires k == j + SchemeLength(t[j..]) && (j == k ==> j == l)
    ensures MatchHeader(u, t) == Some(Hit(l, Run(u, HeaderToken, t[l..])))
  {
    hide IsWhite, Run, SchemeLength, StartsFolded;
    RunIs(u, White, t[14..], j - 14);
    RunIs(u, White, t[k..], l - k);
  }

  lemma SchemeStable(s: string, t: string)
    requires var n := SchemeLength(s); n > 0 && n <= |t| && s[..n] == t[..n]
    ensures SchemeLength(t) == SchemeLength(s)
  {}

  lemma MaskAsToken(u: UnicodeTable, y: string)
    requires y != "" ==> !In(u, HeaderToken, y[0])
    ensures Run(u, HeaderToken, REDACTED + y) == 10
    ensures |REDACTED + y| == 10 + |y| && (REDACTED + y)[0] == '['
    ensures In(u, HeaderToken, '[') && !IsWhite(u, '[')
  {
    RunIs(u, HeaderToken, REDACTED + y, 10);
  }

  /** After masking a header the same header matches, and its token is the mask. */
  lemma MaskedHeader(u: UnicodeTable, s: string, h: Hit, y: string)
    requires MatchHeader(u, s) == Some(h)
    requires y != "" ==> !In(u, HeaderToken, y[0])
    ensures MatchHeader(u, s[..h.prefix] + (REDACTED + y)) == Some(Hit(h.prefix, 10))
  {
    hide *;
    var j, k := HeaderPrefix(u, s, h);
    var l := h.prefix;
    var tail := REDACTED + y;
    MaskAsToken(u, y);
    var t := s[..l] + tail;
    assert forall i | 0 <= i < l :: t[i] == s[i];
    assert t[l] == '[' && t[l..] == tail;
    HeaderStarts(s, t);
    if l == j {
      NoScheme(t[j..]);
      HeaderAt(u, t, j, j, l);
    } else {
      assert t[j..][..k - j] == s[j..][..k - j];
      SchemeStable(s[j..], t[j..]);
      SchemeNotWhite(u, t[j..]);
      assert t[j] == t[j..][0];
      HeaderAt(u, t, j, k, l);
    }
  }

  lemma HeaderStarts(s: string, t: string)
    requires StartsFolded(s, "authorization:") && |t| >= 14
    requires forall i | 0 <= i < 14 :: s[i] == t[i]
    ensures StartsFolded(t, "authorization:")
  {}

  lemma NoScheme(s: string)
    requires s != "" && s[0] == '['
    ensures SchemeLength(s) == 0
  {}

  lemma SchemeNotWhite(u: UnicodeTable, s: string)
    requires SchemeLength(s) > 0
    ensures !IsWhite(u, s[0])
  {}

  /** What follows the header name is clean: a gap, perhaps a scheme and its gap, then the mask. */
  lemma CleanHeaderTail(u: UnicodeTable, scheme: string, gap: string, y: string)
    requires forall i | 0 <= i < |scheme| :: IsWord(u, scheme[i])
    requires forall i | 0 <= i < |gap| :: IsWhite(u, gap[i])
    requires scheme == "" ==> gap == ""
    requires Clean(u, false, y)
    ensures Clean(u, false, scheme + (gap + (REDACTED + y)))
  {
    hide *;
    if scheme == "" {
      CleanRedacted(u, false, y);
      assert scheme + (gap + (REDACTED + y)) == REDACTED + y;
    } else {
      CleanScheme(u, false, scheme, gap, y);
    }
  }

  lemma SchemeIsWord(u: UnicodeTable, s: string)
    ensures forall i | 0 <= i < SchemeLength(s) :: IsWord(u, s[i])
  {}

  lemma GapIsNoWord(u: UnicodeTable, gap: string)
    requires gap != "" && gap[0] == ':' && forall i | 0 < i < |gap| :: IsWhite(u, gap[i])
    ensures forall i | 0 <= i < |gap| :: !IsWord(u, gap[i])
  {}

  lemma CleanHeader(u: UnicodeTable, s: string, h: Hit, y: string)
    requires MatchHeader(u, s) == Some(h)
    requires Clean(u, false, y) && (y != "" ==> !In(u, HeaderToken, y[0]))
    ensures Clean(u, false, s[..h.prefix] + (REDACTED + y))
  {
    hide *;
    var j, k := HeaderPrefix(u, s, h);
    var name, colon, scheme, gap := s[..13], s[13..j], s[j..k], s[k..h.prefix];
    assert forall i | 0 < i < |colon| :: colon[i] == s[13 + i];
    GapIsNoWord(u, colon);
    SchemeIsWord(u, s[j..]);
    assert forall i | 0 <= i < k - j :: scheme[i] == s[j..][i];
    CleanHeaderTail(u, scheme, gap, y);
    var rest := scheme + (gap + (REDACTED + y));
    CleanAfterOthers(u, true, colon, rest);
    MaskedHeader(u, s, h, y);
    HeaderFirst(u, s[..h.prefix] + (REDACTED + y));
    MaskedAt(u, false, s[..h.prefix], y);
    Regroup(s, j, k, h.prefix, REDACTED + y);
    CleanWord(u, false, name, colon + rest);
  }

  lemma Regroup(s: string, j: nat, k: nat, l: nat, tail: string)
    requires 13 <= j <= k <= l <= |s|
    ensures s[..l] + tail == s[..13] + (s[13..j] + (s[j..k] + (s[k..l] + tail)))
  {}

  lemma HeaderFirst(u: UnicodeTable, s: string)
    ensures MatchHeader(u, s).Some? ==> MatchHead(u, s) == MatchHeader(u, s)
  {}

  /** The text that replaces a match is clean, whichever alternative found it. */
  lemma CleanHit(u: UnicodeTable, s: string, h: Hit, y: string)
    requires MatchHead(u, s) == Some(h) && Clean(u, false, y)
    requires var end := h.prefix + h.token;
             (y == "" && end == |s|) || (y != "" && end < |s| && y[0] == s[end])
    ensures Clean(u, false, s[..h.prefix] + (REDACTED + y))
  {
    hide *;
    HitFrom(u, s, h);
    if MatchHeader(u, s) == Some(h) {
      HeaderShape(u, s, h);
      CleanHeader(u, s, h, y);
    } else if MatchScheme(u, s, "bearer", BearerToken) == Some(h) {
      SchemeNames();
      CleanSchemeHit(u, s, "bearer", BearerToken, h, y);
    } else if MatchScheme(u, s, "basic", BasicToken) == Some(h) {
      SchemeNames();
      CleanSchemeHit(u, s, "basic", BasicToken, h, y);
    } else {
      ParamShape(u, s, Keywords(), h);
      CleanParam(u, s, h, y);
    }
  }

  lemma SchemeNames()
    ensures Lowercase("bearer") && Lowercase("basic")
  {}

  /** After one pass no readable token is left at any position. */
  lemma {:induction false} ScrubIsClean(u: UnicodeTable, w: bool, s: string)
    ensures Clean(u, w, Scrub(u, w, s))
    decreases |s|
  {
    hide MatchHead, IsWord, Masked;
    if s != "" {
      var hit := if w then None else MatchHead(u, s);
      match hit
      case Some(h) =>
        var end := h.prefix + h.token;
        var w' := IsWord(u, s[end - 1]);
        var y := Scrub(u, w', s[end..]);
        ScrubIsClean(u, w', s[end..]);
        ScrubHead(u, w', s[end..]);
        AfterToken(u, s, h);
        CleanEither(u, w', y);
        CleanHit(u, s, h, y);
        assert Scrub(u, w, s) == s[..h.prefix] + (REDACTED + y);
      case None =>
        ScrubIsClean(u, IsWord(u, s[0]), s[1..]);
        HeadStaysMasked(u, w, s);
    }
  }

  lemma HeadStaysMasked(u: UnicodeTable, w: bool, s: string)
    requires s != "" && (w || MatchHead(u, s).None?)
    ensures Masked(u, w, [s[0]] + Scrub(u, IsWord(u, s[0]), s[1..]))
  {
    hide MatchHead, IsWord, Scrub;
    if !w { NoNewMatch(u, s); }
  }

  /** A clean text is left alone. */
  lemma {:induction false} ScrubKeepsClean(u: UnicodeTable, w: bool, s: string)
    requires Clean(u, w, s)
    ensures Scrub(u, w, s) == s
    decreases |s|
  {
    hide MatchHead, IsWord, Scrub;
    if s == "" {
      ScrubHead(u, w, s);
    } else if w || MatchHead(u, s).None? {
      ScrubKeepsClean(u, IsWord(u, s[0]), s[1..]);
      ScrubCopies(u, w, s);
    } else {
      var h := MatchHead(u, s).value;
      var end := h.prefix + h.token;
      assert s[h.prefix..end] == REDACTED;
      hide Clean;
      CleanFrom(u, w, s, end);
      ScrubKeepsClean(u, IsWord(u, s[end - 1]), s[end..]);
      ScrubHits(u, s, REDACTED, h);
      InThree(s, h.prefix, end);
    }
  }

  lemma InThree(s: string, i: nat, j: nat)
    requires i <= j <= |s|
    ensures s == s[..i] + (s[i..j] + s[j..])
  {}

  lemma {:induction false} CleanFrom(u: UnicodeTable, w: bool, s: string, k: nat)
    requires Clean(u, w, s) && 0 < k <= |s|
    ensures Clean(u, IsWord(u, s[k - 1]), s[k..])
    decreases |s|
  {
    hide MatchHead, IsWord, Masked;
    if k > 1 {
      CleanFrom(u, IsWord(u, s[0]), s[1..], k - 1);
      assert s[1..][k - 1..] == s[k..];
    }
  }

  /** Whether a pattern may start at position `i`: the word-boundary test. */
  ghost predicate Boundary(u: UnicodeTable, s: string, i: nat)
    requires i <= |s|
  {
    i == 0 || !IsWord(u, s[i - 1])
  }

  /** The promise of the scrubber: wherever a credential pattern still matches, its token is the mask. */
  lemma NoCredentialSurvives(u: UnicodeTable, s: string, i: nat)
    requires i < |SanitizeText(u, s)|
    ensures var t := SanitizeText(u, s);
            var hit := MatchHead(u, t[i..]);
            Boundary(u, t, i) && hit.Some? ==>
              t[i + hit.value.prefix..i + hit.value.prefix + hit.value.token] == REDACTED
  {
    hide MatchHead, IsWord, Scrub;
    var t := SanitizeText(u, s);
    ScrubIsClean(u, false, s);
    if i > 0 { CleanFrom(u, false, t, i); }
    var hit := MatchHead(u, t[i..]);
    if Boundary(u, t, i) && hit.Some? {
      var p, q := hit.value.prefix, hit.value.prefix + hit.value.token;
      assert t[i..] == if i == 0 then t else t[i..];
      assert t[i..][p..q] == t[i + p..i + q];
    }
  }

  /** The texts a pass leaves alone are exactly the clean ones. */
  lemma UnchangedIffClean(u: UnicodeTable, s: string)
    ensures SanitizeText(u, s) == s <==> Clean(u, false, s)
  {
    hide MatchHead, IsWord, Scrub, Clean;
    ScrubIsClean(u, false, s);
    if Clean(u, false, s) { ScrubKeepsClean(u, false, s); }
  }

  lemma SanitizeTextTwice(u: UnicodeTable, s: string)
    ensures SanitizeText(u, SanitizeText(u, s)) == SanitizeText(u, s)
  {
    hide MatchHead, IsWord, Scrub, Clean;
    ScrubIsClean(u, false, s);
    ScrubKeepsClean(u, false, SanitizeText(u, s));
  }

  /** Whether the character before position `i` is a word character. */
  predicate AfterWord(u: UnicodeTable, w: bool, s: string, i: nat)
    requires i <= |s|
  {
    if i == 0 then w else IsWord(u, s[i - 1])
  }

  /** Nothing but tokens is lost: up to the first match the text is copied. */
  lemma {:induction false} CopiedToFirstMatch(u: UnicodeTable, w: bool, s: string, i: nat)
    requires i <= |s|
    requires forall k | 0 <= k < i :: AfterWord(u, w, s, k) || MatchHead(u, s[k..]).None?
    ensures Scrub(u, w, s) == s[..i] + Scrub(u, AfterWord(u, w, s, i), s[i..])
    decreases i
  {
    hide MatchHead, IsWord, Scrub;
    if i == 0 {
      assert s[0..] == s;
    } else {
      CopiedToFirstMatch(u, w, s, i - 1);
      ScrubCopies(u, AfterWord(u, w, s, i - 1), s[i - 1..]);
      assert s[i - 1..][0] == s[i - 1] && s[i - 1..][1..] == s[i..];
      assert s[..i - 1] + [s[i - 1]] == s[..i];
    }
  }
}
