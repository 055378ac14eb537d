/**
 * The string steps scraper.js applies to the text and attributes it
 * selects. The crawl is stated for any `TextRules` (module ScraperPage) and
 * `Builtins` is the choice scraper.js makes; what these steps guarantee on
 * their own is proved here, once.
 */
module ScraperText {
  import opened Maybe
  import opened JsString

  /** `s.split("\n")[0]` */
  function FirstLine(s: string): (r: string)
    ensures r <= s
    ensures '\n' !in r
    ensures r == s || s[|r|] == '\n'
  {
    var r := SplitHead(s, "\n");
    assert forall k :: 0 <= k < |r| ==> r[k] != '\n' by {
      forall k | 0 <= k < |r| ensures r[k] != '\n' {
        assert r[k] == '\n' ==> OccursAt(r, "\n", k);
      }
    }
    r
  }

  /** `s.split(", ")[0]` */
  function BeforeComma(s: string): (r: string)
    ensures r <= s && !Contains(r, ", ")
    ensures r == s || OccursAt(s, ", ", |r|)
  {
    SplitHead(s, ", ")
  }

  /** `text.replace(/\n+/g, " ").trim()` */
  function Description(text: string): (r: string)
    ensures '\n' !in r
    ensures NoEdgeSpace(r)
    ensures forall c :: c in r && c != ' ' ==> c in text
  {
    Trim(CollapseNewlines(text))
  }

  lemma DescriptionIdempotent(text: string)
    ensures Description(Description(text)) == Description(text)
  {
    var d := Description(text);
    assert forall i :: 0 <= i < |d| ==> !IsNewline(d[i]) by {
      forall i | 0 <= i < |d| ensures !IsNewline(d[i]) {
        assert d[i] in d;
      }
    }
    ReplaceRunsNone(d, IsNewline, " ");
    assert CollapseNewlines(d) == d;
    TrimOfTrimmed(d);
  }

  /** `text.split(": ")[1]`: the piece after the first ": ", up to the next one. */
  function AfterColon(text: string): (r: Option<string>)
    ensures r.None? <==> !Contains(text, ": ")
    ensures r.Some? ==> !Contains(r.value, ": ") && Contains(text, ": " + r.value)
  {
    var r := SplitSecond(text, ": ");
    assert r.Some? ==> Contains(text, ": " + r.value) by {
      if r.Some? {
        var k := IndexOf(text, ": ").value;
        SplitSecondAt(text, ": ", k);
        var rest := text[k + 2..];
        assert r.value <= rest;
        assert text[k..k + 2 + |r.value|] == ": " + r.value;
        assert OccursAt(text, ": " + r.value, k);
      }
    }
    r
  }

  datatype Title = Title(name: string, grade: string)

  /** `w` is the first space-delimited word of `s`: a prefix ending at a space or at the end. */
  predicate FirstWord(w: string, s: string) {
    w <= s && (|w| == |s| || s[|w|] == ' ')
  }

  /**
   * The problem page's title: the name before the first ", " and the first
   * space-delimited word of the second piece. `None` where the source throws
   * (a title without ", " has no second piece to split).
   */
  function ParseTitle(heading: string): (r: Option<Title>)
    ensures r.None? <==> !Contains(Trim(heading), ", ")
    ensures r.Some? ==> r.value.name == SplitHead(Trim(heading), ", ") && !Contains(r.value.name, ", ")
    ensures r.Some? ==> !Contains(r.value.grade, " ")
    ensures r.Some? ==> SplitSecond(Trim(heading), ", ").Some? && FirstWord(r.value.grade, SplitSecond(Trim(heading), ", ").value)
  {
    var t := Trim(heading);
    match SplitSecond(t, ", ")
    case None => None
    case Some(second) =>
      SplitHeadFirstWord(second);
      Some(Title(SplitHead(t, ", "), SplitHead(second, " ")))
  }

  /** `split(" ")[0]` is the first space-delimited word. */
  lemma SplitHeadFirstWord(s: string)
    ensures FirstWord(SplitHead(s, " "), s)
  {
    var g := SplitHead(s, " ");
    assert g == s || OccursAt(s, " ", |g|);
  }

  /**
   * A title `name, grade rest` parses back into `name` and `grade` when
   * `name` holds no ", ", `grade` is one word without a comma, and `rest`
   * is empty or starts with a space.
   */
  lemma ParseTitleOf(name: string, grade: string, rest: string)
    requires !Contains(name, ", ")
    requires grade != [] && ' ' !in grade && ',' !in grade
    requires rest == [] || rest[0] == ' '
    requires NoEdgeSpace(name + ", " + (grade + rest))
    ensures ParseTitle(name + ", " + (grade + rest)) == Some(Title(name, grade))
  {
    ParseTitleOfTrimmed(name, grade, rest, name + ", " + (grade + rest));
  }

  lemma ParseTitleOfTrimmed(name: string, grade: string, rest: string, t: string)
    requires !Contains(name, ", ")
    requires ' ' !in grade && ',' !in grade
    requires rest == [] || rest[0] == ' '
    requires t == name + ", " + (grade + rest) && NoEdgeSpace(t)
    ensures ParseTitle(t) == Some(Title(name, grade))
  {
    TrimOfTrimmed(t);
    TitlePieces(name, grade, rest);
    ParseTitleFromParts(t, SplitHead(grade + rest, ", "), name, grade);
  }

  lemma TitlePieces(name: string, grade: string, rest: string)
    requires !Contains(name, ", ")
    requires ' ' !in grade && ',' !in grade
    requires rest == [] || rest[0] == ' '
    ensures SplitHead(name + ", " + (grade + rest), ", ") == name
    ensures SplitSecond(name + ", " + (grade + rest), ", ") == Some(SplitHead(grade + rest, ", "))
    ensures SplitHead(SplitHead(grade + rest, ", "), " ") == grade
  {
    SecondAfterComma(name, grade + rest);
    FirstWordOf(grade, rest);
  }

  lemma FirstWordOf(grade: string, rest: string)
    requires ' ' !in grade && ',' !in grade
    requires rest == [] || rest[0] == ' '
    ensures SplitHead(SplitHead(grade + rest, ", "), " ") == grade
  {
    var after := grade + rest;
    SplitHeadKeepsPrefix(after, ", ", grade);
    GradeWord(SplitHead(after, ", "), grade, rest);
  }

  lemma ParseTitleFromParts(t: string, second: string, name: string, grade: string)
    requires Trim(t) == t
    requires SplitHead(t, ", ") == name
    requires SplitSecond(t, ", ") == Some(second)
    requires SplitHead(second, " ") == grade
    ensures ParseTitle(t) == Some(Title(name, grade))
  {
  }

  lemma SecondAfterComma(name: string, after: string)
    requires !Contains(name, ", ")
    ensures SplitHead(name + ", " + after, ", ") == name
    ensures SplitSecond(name + ", " + after, ", ") == Some(SplitHead(after, ", "))
  {
    var t := name + ", " + after;
    NameBeforeComma(name, after);
    assert t[|name| + 2..] == after;
  }

  lemma NameBeforeComma(name: string, after: string)
    requires !Contains(name, ", ")
    ensures SplitHead(name + ", " + after, ", ") == name
    ensures SplitSecond(name + ", " + after, ", ") == Some(SplitHead((name + ", " + after)[|name| + 2..], ", "))
  {
    var t := name + ", " + after;
    assert OccursAt(t, ", ", |name|);
    forall k | 0 <= k < |name| ensures !OccursAt(t, ", ", k) {
      if k + 2 <= |name| {
        assert t[k..k + 2] == name[k..k + 2];
        assert !OccursAt(name, ", ", k);
      } else {
        assert t[k + 1] == ',';
      }
    }
    SplitHeadAt(t, ", ", |name|);
    SplitSecondAt(t, ", ", |name|);
    assert t[..|name|] == name;
  }

  lemma GradeWord(second: string, grade: string, rest: string)
    requires grade <= second <= grade + rest
    requires ' ' !in grade
    requires rest == [] || rest[0] == ' '
    ensures SplitHead(second, " ") == grade
  {
    forall k | 0 <= k <= |grade| && k < |second| ensures k < |grade| ==> !OccursAt(second, " ", k) {
      if k < |grade| {
        assert second[k] == grade[k];
      }
    }
    if |second| == |grade| {
      assert second == grade;
      SplitHeadWhole(second, " ");
    } else {
      assert second[|grade|] == (grade + rest)[|grade|] == rest[0];
      assert OccursAt(second, " ", |grade|);
      SplitHeadAt(second, " ", |grade|);
    }
  }

  /**
   * The string steps of the crawler as function values, so that the crawl
   * can be stated once for whichever string semantics it runs on.
   */
  datatype TextRules = TextRules(
    trim: string -> string,                 // String.prototype.trim
    firstLine: string -> string,            // s.split("\n")[0]
    beforeComma: string -> string,          // s.split(", ")[0]
    description: string -> string,          // s.replace(/\n+/g, " ").trim()
    afterColon: string -> Option<string>,   // s.split(": ")[1]
    parseTitle: string -> Option<Title>)    // the problem page's title, or a throw

  /** The ECMAScript semantics scraper.js runs on. */
  const Builtins: TextRules := TextRules(Trim, FirstLine, BeforeComma, Description, AfterColon, ParseTitle)

  /** `text.trim().split("\n")[0]`: how a link or heading becomes a name. */
  function LinkName(tx: TextRules, text: string): string {
    tx.firstLine(tx.trim(text))
  }

  /** Under the builtins a link name is one line, and a prefix of the trimmed text. */
  lemma BuiltinLinkName(text: string)
    ensures '\n' !in LinkName(Builtins, text)
    ensures LinkName(Builtins, text) <= Trim(text)
  {
  }

  /** Under the builtins a problem's name from an area page never contains ", ". */
  lemma BuiltinBeforeComma(text: string)
    ensures !Contains(Builtins.beforeComma(Builtins.trim(text)), ", ")
    ensures Builtins.beforeComma(Builtins.trim(text)) <= Trim(text)
  {
  }
}
