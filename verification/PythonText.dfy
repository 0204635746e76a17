/** The text operations of the source's language that the model needs. */
module PythonText {
  /**
   * How Unicode classifies and lowers the characters beyond ASCII. Every result holds for every
   * table.
   */
  datatype UnicodeTable = UnicodeTable(word: char -> bool, space: char -> bool, lower: char -> string)

  function Lower(u: UnicodeTable, s: string): string {
    if s == "" then ""
    else
      var c := s[0];
      (if 'A' <= c <= 'Z' then [(c as int + 32) as char]
       else if c as int >= 128 then u.lower(c)
       else [c]) + Lower(u, s[1..])
  }

  predicate Contains(s: string, part: string) {
    part <= s || (s != "" && Contains(s[1..], part))
  }

  predicate IsSpace(u: UnicodeTable, c: char) {
    c == ' ' || 9 <= c as int <= 13 || 28 <= c as int <= 31 || (c as int >= 128 && u.space(c))
  }

  /** Nothing is left when the white space at both ends is stripped. */
  predicate IsBlank(u: UnicodeTable, s: string) {
    forall i | 0 <= i < |s| :: IsSpace(u, s[i])
  }

  // ---------------------------------------------------------------------------------------------
  // Where a text holds a word in any mix of case.

  function LowerAscii(c: char): char {
    if 'A' <= c <= 'Z' then (c as int + 32) as char else c
  }

  predicate IsAscii(s: string) {
    forall i | 0 <= i < |s| :: s[i] < 128 as char
  }

  /** The word, written in small letters, stands at the position, in whatever case. */
  predicate FoundAt(s: string, word: string, i: nat) {
    i + |word| <= |s| && forall j | 0 <= j < |word| :: LowerAscii(s[i + j]) == word[j]
  }

  ghost predicate FoundIn(s: string, word: string) {
    exists i: nat :: FoundAt(s, word, i)
  }

  /** The texts differ at most in the case of ASCII letters. */
  predicate SameButCase(a: string, b: string) {
    |a| == |b| && forall i | 0 <= i < |a| :: LowerAscii(a[i]) == LowerAscii(b[i])
  }

  lemma {:induction false} ContainsAt(s: string, part: string) returns (i: nat)
    requires Contains(s, part)
    ensures i + |part| <= |s| && s[i..][..|part|] == part
  {
    if part <= s {
      i := 0;
    } else {
      var j := ContainsAt(s[1..], part);
      i := j + 1;
      assert s[i..] == s[1..][j..];
    }
  }

  lemma {:induction false} AtContains(before: string, part: string, after: string)
    ensures Contains(before + (part + after), part)
  {
    var s := before + (part + after);
    if before == "" {
      assert s == part + after;
    } else {
      AtContains(before[1..], part, after);
      assert s[1..] == before[1..] + (part + after);
    }
  }

  lemma {:induction false} LowerKeepsPlaces(u: UnicodeTable, s: string)
    requires IsAscii(s)
    ensures |Lower(u, s)| == |s| && forall i | 0 <= i < |s| :: Lower(u, s)[i] == LowerAscii(s[i])
  {
    if s != "" { LowerKeepsPlaces(u, s[1..]); }
  }

  lemma {:induction false} LowerJoins(u: UnicodeTable, a: string, b: string)
    ensures Lower(u, a + b) == Lower(u, a) + Lower(u, b)
  {
    if a == "" {
      assert a + b == b;
    } else {
      assert (a + b)[0] == a[0] && (a + b)[1..] == a[1..] + b;
      LowerJoins(u, a[1..], b);
    }
  }

  /** A word found in any text is in its lower case, whatever else the text holds. */
  lemma FoundIsContained(u: UnicodeTable, s: string, word: string, i: nat)
    requires IsAscii(word) && FoundAt(s, word, i)
    ensures Contains(Lower(u, s), word)
  {
    var middle, rest := s[i..i + |word|], s[i + |word|..];
    assert s == s[..i] + (middle + rest);
    LowerJoins(u, s[..i], middle + rest);
    LowerJoins(u, middle, rest);
    forall j | 0 <= j < |middle| ensures LowerAscii(middle[j]) == word[j] && middle[j] < 128 as char {
      assert LowerAscii(s[i + j]) == word[j];
    }
    LowerKeepsPlaces(u, middle);
    assert Lower(u, middle) == word;
    AtContains(Lower(u, s[..i]), word, Lower(u, rest));
  }

  /** In an ASCII text nothing else is. */
  lemma LowerContainsIff(u: UnicodeTable, s: string, word: string)
    requires IsAscii(s) && IsAscii(word)
    ensures Contains(Lower(u, s), word) <==> FoundIn(s, word)
  {
    if Contains(Lower(u, s), word) {
      LowerKeepsPlaces(u, s);
      var i := ContainsAt(Lower(u, s), word);
      forall j | 0 <= j < |word| ensures LowerAscii(s[i + j]) == word[j] {
        assert Lower(u, s)[i..][..|word|][j] == Lower(u, s)[i + j];
      }
      assert FoundAt(s, word, i);
    }
    if i: nat :| FoundAt(s, word, i) { FoundIsContained(u, s, word, i); }
  }

  lemma {:induction false} CaseIsLowered(u: UnicodeTable, a: string, b: string)
    requires SameButCase(a, b)
    ensures Lower(u, a) == Lower(u, b)
  {
    if a != "" {
      assert LowerAscii(a[0]) == LowerAscii(b[0]);
      assert forall i | 0 <= i < |a[1..]| :: a[1..][i] == a[i + 1] && b[1..][i] == b[i + 1];
      CaseIsLowered(u, a[1..], b[1..]);
    }
  }
}
