/**
 * The ECMAScript string operations the crawlers and the site generators use,
 * over `string` (a sequence of Unicode scalar values): `trim`, `split` with a
 * non-empty separator read at index 0 or 1, `startsWith`, global replacement
 * of every maximal run of a character class (`/X+/g`), `Array.join` and
 * `String.repeat`. Together with the substring predicates the templates'
 * contracts are stated in.
 */
module JsString {
  import opened Maybe

  /** ECMAScript WhiteSpace and LineTerminator: what `trim` removes and what `\s` matches. */
  predicate IsSpace(c: char) {
    c == '\t' || c == '\n' || c == '\U{000B}' || c == '\U{000C}' || c == '\r' || c == ' '
    || c == '\U{00A0}' || c == '\U{1680}' || ('\U{2000}' <= c <= '\U{200A}')
    || c == '\U{2028}' || c == '\U{2029}' || c == '\U{202F}' || c == '\U{205F}'
    || c == '\U{3000}' || c == '\U{FEFF}'
  }

  predicate IsNewline(c: char) {
    c == '\n'
  }

  /** No whitespace at either end. */
  predicate NoEdgeSpace(s: string) {
    s != [] ==> !IsSpace(s[0]) && !IsSpace(s[|s| - 1])
  }

  /** `d` occurs in `s` starting at index `k`. */
  predicate OccursAt(s: string, d: string, k: int) {
    0 <= k && k + |d| <= |s| && s[k..k + |d|] == d
  }

  predicate Contains(s: string, d: string) {
    exists k :: 0 <= k <= |s| && OccursAt(s, d, k)
  }

  predicate StartsWith(s: string, p: string) {
    |p| <= |s| && s[..|p|] == p
  }

  /** Drops the longest prefix whose characters satisfy `p`. */
  function DropWhile(s: string, p: char -> bool): (r: string)
    ensures |r| <= |s| && r == s[|s| - |r|..]
    ensures forall i :: 0 <= i < |s| - |r| ==> p(s[i])
    ensures r != [] ==> !p(r[0])
  {
    if s != [] && p(s[0]) then
      var r := DropWhile(s[1..], p);
      assert s[1..][|s| - 1 - |r|..] == s[|s| - |r|..];
      assert forall i :: 1 <= i < |s| - |r| ==> s[i] == s[1..][i - 1];
      r
    else s
  }

  /** Drops the longest suffix whose characters satisfy `p`. */
  function DropWhileEnd(s: string, p: char -> bool): (r: string)
    ensures |r| <= |s| && r == s[..|r|]
    ensures forall i :: |r| <= i < |s| ==> p(s[i])
    ensures r != [] ==> !p(r[|r| - 1])
  {
    if s != [] && p(s[|s| - 1]) then
      var r := DropWhileEnd(s[..|s| - 1], p);
      assert s[..|s| - 1][..|r|] == s[..|r|];
      assert forall i :: |r| <= i < |s| - 1 ==> s[i] == s[..|s| - 1][i];
      r
    else s
  }

  /** `r` is `s` with the whitespace before index `i` and after `r` removed. */
  ghost predicate TrimmedAt(s: string, r: string, i: int) {
    0 <= i && i + |r| <= |s| && s[i..i + |r|] == r
    && (forall k :: 0 <= k < i ==> IsSpace(s[k]))
    && (forall k :: i + |r| <= k < |s| ==> IsSpace(s[k]))
  }

  /** `s.trim()` */
  function Trim(s: string): (r: string)
    ensures NoEdgeSpace(r)
    ensures exists i :: 0 <= i <= |s| && TrimmedAt(s, r, i)
    ensures forall c :: c in r ==> c in s
  {
    var t := DropWhile(s, IsSpace);
    var r := DropWhileEnd(t, IsSpace);
    TrimPieces(s, t, r);
    r
  }

  lemma TrimPieces(s: string, t: string, r: string)
    requires |t| <= |s| && t == s[|s| - |t|..] && forall i :: 0 <= i < |s| - |t| ==> IsSpace(s[i])
    requires |r| <= |t| && r == t[..|r|] && forall i :: |r| <= i < |t| ==> IsSpace(t[i])
    requires t != [] ==> !IsSpace(t[0])
    requires r != [] ==> !IsSpace(r[|r| - 1])
    ensures NoEdgeSpace(r)
    ensures TrimmedAt(s, r, |s| - |t|)
    ensures forall c :: c in r ==> c in s
  {
    var i := |s| - |t|;
    if r != [] {
      assert r[0] == t[0];
    }
    assert s[i..i + |r|] == r;
    forall k | i + |r| <= k < |s| ensures IsSpace(s[k]) {
      assert s[k] == t[k - i];
    }
    forall c | c in r ensures c in s {
      var j :| 0 <= j < |r| && r[j] == c;
      assert s[i + j] == c;
    }
  }

  lemma TrimOfTrimmed(s: string)
    requires NoEdgeSpace(s)
    ensures Trim(s) == s
  {
  }

  /** The index of the first occurrence of `d` at or after `from`. */
  function IndexFrom(s: string, d: string, from: nat): (r: Option<nat>)
    requires from <= |s|
    ensures r.Some? ==> from <= r.value && OccursAt(s, d, r.value)
    ensures r.Some? ==> forall k :: from <= k < r.value ==> !OccursAt(s, d, k)
    ensures r.None? ==> forall k :: from <= k ==> !OccursAt(s, d, k)
    decreases |s| - from
  {
    if OccursAt(s, d, from) then Some(from)
    else if from == |s| then None
    else IndexFrom(s, d, from + 1)
  }

  /** `s.indexOf(d)`, with `None` for -1. */
  function IndexOf(s: string, d: string): (r: Option<nat>)
    ensures r.Some? ==> OccursAt(s, d, r.value) && forall k :: 0 <= k < r.value ==> !OccursAt(s, d, k)
    ensures r.None? <==> !Contains(s, d)
  {
    IndexFrom(s, d, 0)
  }

  lemma OccursInPrefix(s: string, d: string, i: int, k: int)
    requires 0 <= i <= |s| && OccursAt(s[..i], d, k)
    ensures OccursAt(s, d, k)
  {
    assert s[..i][k..k + |d|] == s[k..k + |d|];
  }

  /** `s.split(d)[0]`: everything before the first occurrence of `d`, or all of `s`. */
  function SplitHead(s: string, d: string): (r: string)
    requires d != []
    ensures r <= s
    ensures !Contains(r, d)
    ensures r == s || OccursAt(s, d, |r|)
  {
    match IndexOf(s, d)
    case None => s
    case Some(i) =>
      assert forall k :: OccursAt(s[..i], d, k) ==> OccursAt(s, d, k) by {
        forall k | OccursAt(s[..i], d, k) ensures OccursAt(s, d, k) {
          OccursInPrefix(s, d, i, k);
        }
      }
      s[..i]
  }

  /** `s.split(d)[1]`: the piece between the first and the second occurrence of `d`, or undefined. */
  function SplitSecond(s: string, d: string): (r: Option<string>)
    requires d != []
    ensures r.None? <==> !Contains(s, d)
  {
    match IndexOf(s, d)
    case None => None
    case Some(i) => Some(SplitHead(s[i + |d|..], d))
  }

  /** `s.replace(/X+/g, rep)` where `X` is the character class `inRun`. */
  function ReplaceRuns(s: string, inRun: char -> bool, rep: string): (r: string)
    ensures s == [] ==> r == []
    ensures s != [] && !inRun(s[0]) ==> r != [] && r[0] == s[0]
    ensures s != [] && inRun(s[0]) ==> |rep| <= |r| && r[..|rep|] == rep
    decreases |s|
  {
    if s == [] then []
    else if inRun(s[0]) then rep + ReplaceRuns(DropWhile(s, inRun), inRun, rep)
    else [s[0]] + ReplaceRuns(s[1..], inRun, rep)
  }

  /** Every character of the result is from `rep`, or a character of `s` outside the class. */
  lemma {:induction false} ReplaceRunsChars(s: string, inRun: char -> bool, rep: string)
    ensures forall c :: c in ReplaceRuns(s, inRun, rep) ==> c in rep || (c in s && !inRun(c))
    decreases |s|
  {
    if s == [] {
    } else if inRun(s[0]) {
      var rest := DropWhile(s, inRun);
      ReplaceRunsChars(rest, inRun, rep);
      assert forall c :: c in rest ==> c in s;
    } else {
      ReplaceRunsChars(s[1..], inRun, rep);
      assert forall c :: c in s[1..] ==> c in s;
    }
  }

  /** No two neighbouring characters are both in the class. */
  predicate Separated(s: string, inRun: char -> bool) {
    forall i :: 0 <= i < |s| - 1 ==> !(inRun(s[i]) && inRun(s[i + 1]))
  }

  lemma SeparatedCons(x: char, t: string, inRun: char -> bool)
    requires Separated(t, inRun)
    requires t != [] && inRun(x) ==> !inRun(t[0])
    ensures Separated([x] + t, inRun)
  {
    var r := [x] + t;
    forall i | 0 <= i < |r| - 1 ensures !(inRun(r[i]) && inRun(r[i + 1])) {
      assert r[i + 1] == t[i];
      if i > 0 { assert r[i] == t[i - 1]; }
    }
  }

  /** A run replaced by a single character that is itself in the class never abuts another. */
  lemma {:induction false} ReplaceRunsSeparated(s: string, inRun: char -> bool, c: char)
    requires inRun(c)
    ensures Separated(ReplaceRuns(s, inRun, [c]), inRun)
    decreases |s|
  {
    if s == [] {
    } else if inRun(s[0]) {
      var rest := DropWhile(s, inRun);
      ReplaceRunsSeparated(rest, inRun, c);
      SeparatedCons(c, ReplaceRuns(rest, inRun, [c]), inRun);
    } else {
      ReplaceRunsSeparated(s[1..], inRun, c);
      SeparatedCons(s[0], ReplaceRuns(s[1..], inRun, [c]), inRun);
    }
  }

  /** Replacing runs by `[c]` leaves a string alone whose only class members are isolated `c`s. */
  lemma {:induction false} ReplaceRunsFixed(s: string, inRun: char -> bool, c: char)
    requires forall i :: 0 <= i < |s| && inRun(s[i]) ==> s[i] == c
    requires Separated(s, inRun)
    ensures ReplaceRuns(s, inRun, [c]) == s
    decreases |s|
  {
    if s == [] {
    } else if inRun(s[0]) {
      var rest := DropWhile(s, inRun);
      assert rest == s[1..] by {
        if |s| > 1 { assert !inRun(s[1]); assert DropWhile(s[1..], inRun) == s[1..]; }
      }
      ReplaceRunsFixed(s[1..], inRun, c);
      assert [c] + s[1..] == s;
    } else {
      ReplaceRunsFixed(s[1..], inRun, c);
      assert [s[0]] + s[1..] == s;
    }
  }

  /** A string made of class members only is one run: it becomes `rep`. */
  lemma ReplaceRunsAllInRun(s: string, inRun: char -> bool, rep: string)
    requires s != [] && forall i :: 0 <= i < |s| ==> inRun(s[i])
    ensures ReplaceRuns(s, inRun, rep) == rep
  {
    assert DropWhile(s, inRun) == [];
  }

  /** A leading character outside the class is copied through. */
  lemma ReplaceRunsKeep(s: string, inRun: char -> bool, rep: string)
    requires s != [] && !inRun(s[0])
    ensures ReplaceRuns(s, inRun, rep) == [s[0]] + ReplaceRuns(s[1..], inRun, rep)
  {
  }

  /** Without class members there is nothing to replace. */
  lemma {:induction false} ReplaceRunsNone(s: string, inRun: char -> bool, rep: string)
    requires forall i :: 0 <= i < |s| ==> !inRun(s[i])
    ensures ReplaceRuns(s, inRun, rep) == s
    decreases |s|
  {
    if s != [] {
      ReplaceRunsNone(s[1..], inRun, rep);
      assert [s[0]] + s[1..] == s;
    }
  }

  /** `split(d)[0]` cuts at the first occurrence of `d`. */
  lemma SplitHeadAt(s: string, d: string, k: nat)
    requires d != []
    requires OccursAt(s, d, k)
    requires forall j :: 0 <= j < k ==> !OccursAt(s, d, j)
    ensures SplitHead(s, d) == s[..k]
  {
    assert IndexOf(s, d) == Some(k);
  }

  /** With the first occurrence of `d` at `k`, `split(d)[1]` is the head of what follows it. */
  lemma SplitSecondAt(s: string, d: string, k: nat)
    requires d != []
    requires OccursAt(s, d, k)
    requires forall j :: 0 <= j < k ==> !OccursAt(s, d, j)
    ensures SplitSecond(s, d) == Some(SplitHead(s[k + |d|..], d))
  {
    assert IndexOf(s, d) == Some(k);
  }

  /** A prefix free of `d`'s first character survives `split(d)[0]`. */
  lemma SplitHeadKeepsPrefix(x: string, d: string, p: string)
    requires d != []
    requires p <= x
    requires forall j :: 0 <= j < |p| ==> p[j] != d[0]
    ensures p <= SplitHead(x, d)
  {
    var h := SplitHead(x, d);
    if h != x {
      assert x[|h|] == d[0];
    }
  }

  /** `split(d)[0]` of a string without `d` is the whole string. */
  lemma SplitHeadWhole(s: string, d: string)
    requires d != []
    requires forall j :: 0 <= j <= |s| ==> !OccursAt(s, d, j)
    ensures SplitHead(s, d) == s
  {
  }

  /** `s.replace(/\n+/g, " ")` */
  function CollapseNewlines(s: string): (r: string)
    ensures forall c :: c in r ==> c != '\n'
    ensures forall c :: c in r && c != ' ' ==> c in s
  {
    ReplaceRunsChars(s, IsNewline, " ");
    ReplaceRuns(s, IsNewline, " ")
  }

  /** `s.replace(/\s+/g, " ")` */
  function CollapseSpaces(s: string): (r: string)
    ensures forall c :: c in r && IsSpace(c) ==> c == ' '
    ensures Separated(r, IsSpace)
  {
    ReplaceRunsSeparated(s, IsSpace, ' ');
    ReplaceRunsChars(s, IsSpace, " ");
    ReplaceRuns(s, IsSpace, " ")
  }

  /** `items.join(sep)` */
  function Join(items: seq<string>, sep: string): string
    decreases |items|
  {
    if |items| == 0 then ""
    else if |items| == 1 then items[0]
    else items[0] + sep + Join(items[1..], sep)
  }

  /** `str.repeat(n)` for a one-character `str`. */
  function Repeat(c: char, n: nat): (r: string)
    ensures |r| == n && forall i :: 0 <= i < n ==> r[i] == c
  {
    seq(n, _ => c)
  }

  /** The strings of `parts` appear in `s` one after another, without overlapping. */
  ghost predicate InOrder(s: string, parts: seq<string>)
    decreases |parts|
  {
    parts == [] || exists k :: OccursAt(s, parts[0], k) && InOrder(s[k + |parts[0]|..], parts[1..])
  }

  lemma InOrderPrepend(a: string, s: string, parts: seq<string>)
    requires InOrder(s, parts)
    ensures InOrder(a + s, parts)
  {
    if parts != [] {
      var k :| OccursAt(s, parts[0], k) && InOrder(s[k + |parts[0]|..], parts[1..]);
      assert (a + s)[|a| + k..|a| + k + |parts[0]|] == s[k..k + |parts[0]|];
      assert (a + s)[|a| + k + |parts[0]|..] == s[k + |parts[0]|..];
      assert OccursAt(a + s, parts[0], |a| + k);
    }
  }

  lemma {:induction false} InOrderAppend(s: string, b: string, parts: seq<string>)
    requires InOrder(s, parts)
    ensures InOrder(s + b, parts)
    decreases |parts|
  {
    if parts != [] {
      var k :| OccursAt(s, parts[0], k) && InOrder(s[k + |parts[0]|..], parts[1..]);
      InOrderAppend(s[k + |parts[0]|..], b, parts[1..]);
      assert (s + b)[k..k + |parts[0]|] == s[k..k + |parts[0]|];
      assert (s + b)[k + |parts[0]|..] == s[k + |parts[0]|..] + b;
      assert OccursAt(s + b, parts[0], k);
    }
  }

  /** Each item of a joined list appears in the result, in list order. */
  lemma {:induction false} JoinInOrder(items: seq<string>, sep: string)
    ensures InOrder(Join(items, sep), items)
    decreases |items|
  {
    if |items| == 1 {
      assert OccursAt(items[0], items[0], 0);
      assert InOrder(items[0][|items[0]|..], items[1..]);
    } else if |items| > 1 {
      var rest := Join(items[1..], sep);
      JoinInOrder(items[1..], sep);
      InOrderPrepend(sep, rest, items[1..]);
      var j := Join(items, sep);
      assert j == items[0] + (sep + rest);
      assert j[0..|items[0]|] == items[0];
      assert j[|items[0]|..] == sep + rest;
      assert OccursAt(j, items[0], 0);
    }
  }

  lemma InOrderInfix(a: string, s: string, b: string, parts: seq<string>)
    requires InOrder(s, parts)
    ensures InOrder(a + s + b, parts)
  {
    InOrderPrepend(a, s, parts);
    InOrderAppend(a + s, b, parts);
  }

  lemma ContainsInfix(a: string, s: string, b: string)
    ensures Contains(a + s + b, s)
  {
    assert (a + s + b)[|a|..|a| + |s|] == s;
    assert OccursAt(a + s + b, s, |a|);
  }

  /**
   * A template literal: the literal text `lits[0]`, then each substituted
   * value `holes[i]` followed by the literal text `lits[i + 1]`.
   */
  function Fill(lits: seq<string>, holes: seq<string>): string
    decreases |holes|
  {
    var head := if lits == [] then "" else lits[0];
    if holes == [] then head
    else head + holes[0] + Fill(if lits == [] then [] else lits[1..], holes[1..])
  }

  /** The whole is some text, then the substituted value `holes[k]`, then more text. */
  lemma {:induction false} FillSplit(lits: seq<string>, holes: seq<string>, k: int) returns (before: string, after: string)
    requires 0 <= k < |holes|
    ensures Fill(lits, holes) == before + holes[k] + after
    decreases |holes|
  {
    var head := if lits == [] then "" else lits[0];
    var rest := Fill(if lits == [] then [] else lits[1..], holes[1..]);
    if k == 0 {
      before, after := head, rest;
    } else {
      var b, a := FillSplit(if lits == [] then [] else lits[1..], holes[1..], k - 1);
      before, after := head + holes[0] + b, a;
      assert holes[1..][k - 1] == holes[k];
    }
  }

  /** Every substituted value occurs in the whole. */
  lemma FillContains(lits: seq<string>, holes: seq<string>, k: int)
    requires 0 <= k < |holes|
    ensures Contains(Fill(lits, holes), holes[k])
  {
    var before, after := FillSplit(lits, holes, k);
    ContainsInfix(before, holes[k], after);
  }

  /** What appears in order within one substituted value appears in order within the whole. */
  lemma FillInOrder(lits: seq<string>, holes: seq<string>, k: int, items: seq<string>)
    requires 0 <= k < |holes| && InOrder(holes[k], items)
    ensures InOrder(Fill(lits, holes), items)
  {
    var before, after := FillSplit(lits, holes, k);
    InOrderInfix(before, holes[k], after, items);
  }

  /** Appending one item to a joined list. */
  lemma {:induction false} JoinSnoc(items: seq<string>, x: string, sep: string)
    ensures Join(items + [x], sep) == if items == [] then x else Join(items, sep) + sep + x
    decreases |items|
  {
    if |items| == 1 {
      assert (items + [x])[1..] == [x];
    } else if |items| > 1 {
      assert (items + [x])[1..] == items[1..] + [x];
      JoinSnoc(items[1..], x, sep);
      assert Join(items + [x], sep) == items[0] + sep + (Join(items[1..], sep) + sep + x);
    }
  }

  /** Building a string by `+=` of one item after another is joining the items with "". */
  lemma JoinAppend(items: seq<string>, x: string)
    ensures Join(items + [x], "") == Join(items, "") + x
  {
    JoinSnoc(items, x, "");
  }

  /** One more `+=` of the next item onto a string that starts with `head`. */
  lemma JoinPrefixStep(head: string, items: seq<string>, i: int)
    requires 0 <= i < |items|
    ensures head + Join(items[..i], "") + items[i] == head + Join(items[..i + 1], "")
  {
    assert items[..i + 1] == items[..i] + [items[i]];
    JoinAppend(items[..i], items[i]);
  }
}
