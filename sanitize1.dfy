/**
 * The file-name expression htmlGenerator.js writes out three times (for
 * areas, sectors and problems): eight string-pattern `replace` calls, each
 * of which replaces only the FIRST occurrence of its letter, then
 * `replace(/\W+/g, "-")`, then `toLowerCase()`.
 */
module Sanitize1 {
  import opened Maybe
  import opened JsString

  /** `s.indexOf(c)` for a single character, with `None` for -1. */
  function FirstIndex(s: string, c: char): (r: Option<nat>)
    ensures r.None? <==> c !in s
    ensures r.Some? ==> r.value < |s| && s[r.value] == c && c !in s[..r.value]
    decreases |s|
  {
    if s == [] then None
    else if s[0] == c then Some(0)
    else match FirstIndex(s[1..], c)
      case None => None
      case Some(i) =>
        assert s[..i + 1] == [s[0]] + s[1..][..i];
        Some(i + 1)
  }

  /** `s.replace(c, d)` with a one-character string pattern: the first `c` only. */
  function ReplaceFirst(s: string, c: char, d: char): (r: string)
    ensures |r| == |s|
    ensures c !in s ==> r == s
  {
    match FirstIndex(s, c)
    case None => s
    case Some(i) => s[..i] + [d] + s[i + 1..]
  }

  /** When `c` occurs, exactly its first occurrence becomes `d`. */
  lemma ReplaceFirstOnlyFirst(s: string, c: char, d: char)
    requires c in s
    ensures exists i :: 0 <= i < |s| && s[i] == c && c !in s[..i] && ReplaceFirst(s, c, d) == s[..i] + [d] + s[i + 1..]
  {
    var i := FirstIndex(s, c).value;
    assert ReplaceFirst(s, c, d) == s[..i] + [d] + s[i + 1..];
  }

  /** The eight replacements, in the order the source chains them. */
  function Transliterate(s: string): (r: string)
    ensures |r| == |s|
  {
    var s1 := ReplaceFirst(s, '\U{00F6}', 'o');   // ö
    var s2 := ReplaceFirst(s1, '\U{00E4}', 'a');  // ä
    var s3 := ReplaceFirst(s2, '\U{00E5}', 'a');  // å
    var s4 := ReplaceFirst(s3, '\U{00FC}', 'u');  // ü
    var s5 := ReplaceFirst(s4, '\U{00DF}', 's');  // ß
    var s6 := ReplaceFirst(s5, '\U{00D6}', 'O');  // Ö
    var s7 := ReplaceFirst(s6, '\U{00DC}', 'U');  // Ü
    ReplaceFirst(s7, '\U{00C4}', 'A')             // Ä
  }

  /** `\w`: `[A-Za-z0-9_]`. */
  predicate IsWordChar(c: char) {
    'A' <= c <= 'Z' || 'a' <= c <= 'z' || '0' <= c <= '9' || c == '_'
  }

  predicate NotWord(c: char) {
    !IsWordChar(c)
  }

  function LowerChar(c: char): char {
    if 'A' <= c <= 'Z' then (c as int + 32) as char else c
  }

  /**
   * `toLowerCase()` on the ASCII alphabet. After the `\W` replacement only
   * `[A-Za-z0-9_-]` is left, on which this agrees with ECMAScript.
   */
  function AsciiLower(s: string): (r: string)
    ensures |r| == |s|
    ensures forall i :: 0 <= i < |s| ==> r[i] == LowerChar(s[i])
  {
    seq(|s|, i requires 0 <= i < |s| => LowerChar(s[i]))
  }

  /** The characters a slug is made of: `[a-z0-9_-]`. */
  predicate IsSlugChar(c: char) {
    'a' <= c <= 'z' || '0' <= c <= '9' || c == '_' || c == '-'
  }

  /** No dash is directly followed by another. */
  predicate NoDoubleDash(s: string) {
    forall i :: 0 <= i < |s| - 1 ==> !(s[i] == '-' && s[i + 1] == '-')
  }

  /** `s.replace(/\W+/g, "-")`: every character left is a word character or an isolated dash. */
  function Dashed(s: string): (w: string)
    ensures forall i :: 0 <= i < |w| ==> IsWordChar(w[i]) || w[i] == '-'
    ensures Separated(w, NotWord)
  {
    var w := ReplaceRuns(s, NotWord, "-");
    ReplaceRunsChars(s, NotWord, "-");
    ReplaceRunsSeparated(s, NotWord, '-');
    forall i | 0 <= i < |w| ensures IsWordChar(w[i]) || w[i] == '-' {
      assert w[i] in w;
    }
    w
  }

  /** The file-name token for a name. */
  function Slug(name: string): (r: string)
    ensures forall i :: 0 <= i < |r| ==> IsSlugChar(r[i])
    ensures NoDoubleDash(r)
  {
    var w := Dashed(Transliterate(name));
    LowerOfDashed(w);
    AsciiLower(w)
  }

  lemma LowerOfDashed(w: string)
    requires forall i :: 0 <= i < |w| ==> IsWordChar(w[i]) || w[i] == '-'
    requires Separated(w, NotWord)
    ensures forall i :: 0 <= i < |w| ==> IsSlugChar(AsciiLower(w)[i])
    ensures NoDoubleDash(AsciiLower(w))
  {
    var r := AsciiLower(w);
    forall i | 0 <= i < |w| ensures IsSlugChar(r[i]) && (r[i] == '-' <==> w[i] == '-') {
      assert r[i] == LowerChar(w[i]);
    }
  }

  lemma AsciiLowerOfLower(s: string)
    requires forall i :: 0 <= i < |s| ==> !('A' <= s[i] <= 'Z')
    ensures AsciiLower(s) == s
  {
  }

  /** None of the eight transliterated letters occurs in `s`. */
  predicate NoListedLetter(s: string) {
    '\U{00F6}' !in s && '\U{00E4}' !in s && '\U{00E5}' !in s && '\U{00FC}' !in s
    && '\U{00DF}' !in s && '\U{00D6}' !in s && '\U{00DC}' !in s && '\U{00C4}' !in s
  }

  lemma TransliterateUnlisted(s: string)
    requires NoListedLetter(s)
    ensures Transliterate(s) == s
  {
  }

  /** Slugging a slug changes nothing. */
  lemma SlugIdempotent(name: string)
    ensures Slug(Slug(name)) == Slug(name)
  {
    SlugOfSlugChars(Slug(name));
  }

  /** A string of slug characters without a double dash is its own slug. */
  lemma SlugOfSlugChars(s: string)
    requires forall i :: 0 <= i < |s| ==> IsSlugChar(s[i])
    requires NoDoubleDash(s)
    ensures Slug(s) == s
  {
    assert NoListedLetter(s) by {
      forall c | c in s ensures IsSlugChar(c) {
        var i :| 0 <= i < |s| && s[i] == c;
      }
    }
    TransliterateUnlisted(s);
    DashedOfSlugChars(s);
    AsciiLowerOfLower(s);
  }

  lemma DashedOfSlugChars(s: string)
    requires forall i :: 0 <= i < |s| ==> IsSlugChar(s[i])
    requires NoDoubleDash(s)
    ensures Dashed(s) == s
  {
    assert Separated(s, NotWord) by {
      forall i | 0 <= i < |s| - 1 ensures !(NotWord(s[i]) && NotWord(s[i + 1])) {
        assert IsSlugChar(s[i]) && IsSlugChar(s[i + 1]);
      }
    }
    ReplaceRunsFixed(s, NotWord, '-');
  }

  /** A letter missing from the list is not transliterated: it becomes a dash, which is not trimmed. */
  lemma SlugUnlistedLetter()
    ensures Slug("\U{00C5}") == "-"
  {
    var a := "\U{00C5}";
    assert NoListedLetter(a);
    TransliterateUnlisted(a);
    ReplaceRunsAllInRun(a, NotWord, "-");
  }

  /** A problem named "index" gets the token of the folder's own page, `index`. */
  lemma SlugOfIndex()
    ensures Slug("index") == "index"
  {
    SlugOfSlugChars("index");
  }

  /** Only the first occurrence of a listed letter is transliterated. */
  lemma SlugSecondOccurrence()
    ensures Slug("\U{00F6}\U{00F6}") == "o-"
  {
    TransliterateTwice();
    DashedTransliterated();
  }

  lemma DashedTransliterated()
    ensures AsciiLower(Dashed("o\U{00F6}")) == "o-"
  {
    DashedPair('o', '\U{00F6}');
    AsciiLowerOfLower("o-");
  }

  lemma TransliterateTwice()
    ensures Transliterate("\U{00F6}\U{00F6}") == "o\U{00F6}"
  {
    var t := "o\U{00F6}";
    assert ReplaceFirst("\U{00F6}\U{00F6}", '\U{00F6}', 'o') == t;
    assert '\U{00E4}' !in t && '\U{00E5}' !in t && '\U{00FC}' !in t && '\U{00DF}' !in t;
    assert '\U{00D6}' !in t && '\U{00DC}' !in t && '\U{00C4}' !in t;
  }

  /** A word character followed by a non-word one: the second becomes a dash. */
  lemma DashedPair(x: char, y: char)
    requires IsWordChar(x) && NotWord(y)
    ensures Dashed([x, y]) == [x, '-']
  {
    var t := [x, y];
    ReplaceRunsKeep(t, NotWord, "-");
    assert t[1..] == [y];
    ReplaceRunsAllInRun(t[1..], NotWord, "-");
  }
}
