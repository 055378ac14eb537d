/**
 * `sanitizeFilename` of htmlGenerator2.js: decompose (`normalize("NFD")`),
 * delete the combining marks U+0300 to U+036F, turn every character outside
 * `[a-zA-Z0-9_-]` into `_`, then `trim`. Both regular expressions lack the
 * `u` flag, so they match UTF-16 code units: a character outside the Basic
 * Multilingual Plane is two units and becomes two underscores.
 */
module Sanitize2 {
  import opened JsString

  predicate IsCombiningMark(c: char) {
    '\U{0300}' <= c <= '\U{036F}'
  }

  predicate IsAsciiLetter(c: char) {
    'A' <= c <= 'Z' || 'a' <= c <= 'z'
  }

  /** The class `[a-zA-Z0-9_-]` the sanitizer keeps. */
  predicate IsFileChar(c: char) {
    IsAsciiLetter(c) || '0' <= c <= '9' || c == '_' || c == '-'
  }

  /** Number of UTF-16 code units of `c`. */
  function Utf16Units(c: char): nat {
    if c as int > 0xFFFF then 2 else 1
  }

  /** Grave, acute, circumflex, tilde, diaeresis. */
  const GraveToDiaeresis: string := "\U{0300}\U{0301}\U{0302}\U{0303}\U{0308}"
  /** Grave, acute, circumflex, diaeresis. */
  const GraveAcuteCircDiaeresis: string := "\U{0300}\U{0301}\U{0302}\U{0308}"

  /**
   * Canonical decomposition of the precomposed capital letters of Latin-1
   * (U+00C0 to U+00DD) into base letter and combining mark; empty for the
   * code points of that block that have none.
   */
  function DecomposeCapital(n: int): (d: string)
    ensures d == [] || (|d| == 2 && 'A' <= d[0] <= 'Z' && IsCombiningMark(d[1]))
  {
    if 0xC0 <= n <= 0xC4 then ['A', GraveToDiaeresis[n - 0xC0]]
    else if n == 0xC5 then "A\U{030A}"
    else if n == 0xC7 then "C\U{0327}"
    else if 0xC8 <= n <= 0xCB then ['E', GraveAcuteCircDiaeresis[n - 0xC8]]
    else if 0xCC <= n <= 0xCF then ['I', GraveAcuteCircDiaeresis[n - 0xCC]]
    else if n == 0xD1 then "N\U{0303}"
    else if 0xD2 <= n <= 0xD6 then ['O', GraveToDiaeresis[n - 0xD2]]
    else if 0xD9 <= n <= 0xDC then ['U', GraveAcuteCircDiaeresis[n - 0xD9]]
    else if n == 0xDD then "Y\U{0301}"
    else []
  }

  /**
   * `normalize("NFD")` of one character, for the precomposed letters of
   * Latin-1; every other character is left as it is.
   */
  function Decompose(c: char): (d: string)
    ensures d == [c] || (c as int > 0x7F && |d| == 2 && IsAsciiLetter(d[0]) && IsCombiningMark(d[1]))
  {
    var n := c as int;
    if 0xC0 <= n <= 0xDD && DecomposeCapital(n) != [] then DecomposeCapital(n)
    else if 0xE0 <= n <= 0xFD && DecomposeCapital(n - 0x20) != [] then
      var d := DecomposeCapital(n - 0x20);
      [(d[0] as int + 0x20) as char, d[1]]
    else if n == 0xFF then "y\U{0308}"
    else [c]
  }

  /** `normalize("NFD")`, character by character. */
  function Nfd(s: string): string
    decreases |s|
  {
    if s == [] then [] else Decompose(s[0]) + Nfd(s[1..])
  }

  /** `replace(/[̀-ͯ]/g, "")` */
  function StripMarks(s: string): string
    decreases |s|
  {
    if s == [] then []
    else (if IsCombiningMark(s[0]) then [] else [s[0]]) + StripMarks(s[1..])
  }

  /** `replace(/[^a-zA-Z0-9_-]/g, "_")`, one underscore per UTF-16 unit. */
  function ReplaceDisallowed(s: string): string
    decreases |s|
  {
    if s == [] then []
    else (if IsFileChar(s[0]) then [s[0]] else Repeat('_', Utf16Units(s[0]))) + ReplaceDisallowed(s[1..])
  }

  predicate AllFileChars(s: string) {
    forall i :: 0 <= i < |s| ==> IsFileChar(s[i])
  }

  lemma {:induction false} ReplaceDisallowedAlphabet(s: string)
    ensures AllFileChars(ReplaceDisallowed(s))
    decreases |s|
  {
    if s != [] {
      ReplaceDisallowedAlphabet(s[1..]);
      var h := if IsFileChar(s[0]) then [s[0]] else Repeat('_', Utf16Units(s[0]));
      var r := ReplaceDisallowed(s);
      assert r == h + ReplaceDisallowed(s[1..]);
      assert AllFileChars(h);
    }
  }

  function SanitizeFilename(name: string): (r: string)
    ensures AllFileChars(r)
  {
    ReplaceDisallowedAlphabet(StripMarks(Nfd(name)));
    Trim(ReplaceDisallowed(StripMarks(Nfd(name))))
  }

  /** The final `trim` never removes anything: no kept character is whitespace. */
  lemma TrimIsNoOp(name: string)
    ensures SanitizeFilename(name) == ReplaceDisallowed(StripMarks(Nfd(name)))
  {
    var s := ReplaceDisallowed(StripMarks(Nfd(name)));
    ReplaceDisallowedAlphabet(StripMarks(Nfd(name)));
    TrimOfTrimmed(s);
  }

  /** What one character of the name becomes: the sanitizer stated per character. */
  function CharToken(c: char): string {
    if Decompose(c) != [c] then [Decompose(c)[0]]
    else if IsCombiningMark(c) then []
    else if IsFileChar(c) then [c]
    else Repeat('_', Utf16Units(c))
  }

  function Tokens(s: string): string
    decreases |s|
  {
    if s == [] then [] else CharToken(s[0]) + Tokens(s[1..])
  }

  lemma {:induction false} StripMarksConcat(a: string, b: string)
    ensures StripMarks(a + b) == StripMarks(a) + StripMarks(b)
    decreases |a|
  {
    if a != [] {
      var h := if IsCombiningMark(a[0]) then [] else [a[0]];
      var ab := a + b;
      assert ab != [] && ab[0] == a[0] && ab[1..] == a[1..] + b;
      StripMarksConcat(a[1..], b);
      calc {
        StripMarks(ab);
        h + StripMarks(a[1..] + b);
        h + (StripMarks(a[1..]) + StripMarks(b));
        (h + StripMarks(a[1..])) + StripMarks(b);
      }
    } else {
      assert a + b == b;
    }
  }

  lemma {:induction false} ReplaceDisallowedConcat(a: string, b: string)
    ensures ReplaceDisallowed(a + b) == ReplaceDisallowed(a) + ReplaceDisallowed(b)
    decreases |a|
  {
    if a != [] {
      var h := if IsFileChar(a[0]) then [a[0]] else Repeat('_', Utf16Units(a[0]));
      var ab := a + b;
      assert ab != [] && ab[0] == a[0] && ab[1..] == a[1..] + b;
      ReplaceDisallowedConcat(a[1..], b);
      calc {
        ReplaceDisallowed(ab);
        h + ReplaceDisallowed(a[1..] + b);
        h + (ReplaceDisallowed(a[1..]) + ReplaceDisallowed(b));
        (h + ReplaceDisallowed(a[1..])) + ReplaceDisallowed(b);
      }
    } else {
      assert a + b == b;
    }
  }

  lemma CharTokenCorrect(c: char)
    ensures ReplaceDisallowed(StripMarks(Decompose(c))) == CharToken(c)
  {
    var d := Decompose(c);
    if d != [c] {
      assert d == [d[0]] + [d[1]];
      StripMarksConcat([d[0]], [d[1]]);
      assert StripMarks([d[1]]) == [];
      assert StripMarks(d) == [d[0]];
      assert ReplaceDisallowed([d[0]]) == [d[0]];
    } else {
      assert StripMarks([c]) == if IsCombiningMark(c) then [] else [c];
    }
  }

  lemma {:induction false} PipelineCharwise(s: string)
    ensures ReplaceDisallowed(StripMarks(Nfd(s))) == Tokens(s)
    decreases |s|
  {
    if s != [] {
      PipelineCharwise(s[1..]);
      StripMarksConcat(Decompose(s[0]), Nfd(s[1..]));
      ReplaceDisallowedConcat(StripMarks(Decompose(s[0])), StripMarks(Nfd(s[1..])));
      CharTokenCorrect(s[0]);
    }
  }

  /**
   * The sanitizer works character by character: a Latin-1 letter with a
   * diacritic keeps its base letter, a combining mark vanishes, a kept
   * character stays as it is (case included), and anything else becomes one
   * `_` per UTF-16 unit.
   */
  lemma SanitizeCharwise(name: string)
    ensures SanitizeFilename(name) == Tokens(name)
  {
    TrimIsNoOp(name);
    PipelineCharwise(name);
  }

  lemma {:induction false} TokensOfFileChars(s: string)
    requires AllFileChars(s)
    ensures Tokens(s) == s
    decreases |s|
  {
    if s != [] {
      assert s[0] as int <= 0x7F;
      TokensOfFileChars(s[1..]);
      assert [s[0]] + s[1..] == s;
    }
  }

  /** Sanitizing a sanitized name changes nothing. */
  lemma SanitizeIdempotent(name: string)
    ensures SanitizeFilename(SanitizeFilename(name)) == SanitizeFilename(name)
  {
    var t := SanitizeFilename(name);
    SanitizeCharwise(t);
    TokensOfFileChars(t);
  }

  predicate IsAscii(s: string) {
    forall i :: 0 <= i < |s| ==> s[i] as int <= 0x7F
  }

  lemma {:induction false} TokensAsciiLength(s: string)
    requires IsAscii(s)
    ensures |Tokens(s)| == |s|
    decreases |s|
  {
    if s != [] {
      assert IsAscii(s[1..]);
      TokensAsciiLength(s[1..]);
    }
  }

  /** On ASCII input every character maps to exactly one character. */
  lemma SanitizeAsciiLength(name: string)
    requires IsAscii(name)
    ensures |SanitizeFilename(name)| == |name|
  {
    SanitizeCharwise(name);
    TokensAsciiLength(name);
  }

  lemma {:induction false} TokensAgree(a: string, b: string)
    requires |a| == |b|
    requires forall i :: 0 <= i < |a| ==> CharToken(a[i]) == CharToken(b[i])
    ensures Tokens(a) == Tokens(b)
    decreases |a|
  {
    if a != [] {
      TokensAgree(a[1..], b[1..]);
    }
  }

  /** Names that agree character by character up to what the sanitizer keeps share a file name. */
  lemma SanitizeCollides(a: string, b: string)
    requires |a| == |b|
    requires forall i :: 0 <= i < |a| ==> CharToken(a[i]) == CharToken(b[i])
    ensures SanitizeFilename(a) == SanitizeFilename(b)
  {
    SanitizeCharwise(a);
    SanitizeCharwise(b);
    TokensAgree(a, b);
  }

  /** Which characters collide: a letter and its accented forms, and every disallowed BMP character with `_`. */
  lemma CharTokenExamples()
    ensures CharToken('\U{00F6}') == CharToken('o') == "o"
    ensures CharToken('\U{00C5}') == CharToken('A') == "A"
    ensures CharToken(' ') == CharToken('_') == CharToken('\U{00DF}') == "_"
    ensures CharToken('\U{0301}') == ""
    ensures CharToken('\U{1F600}') == "__"
  {
  }
}
