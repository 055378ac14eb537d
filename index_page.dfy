/**
 * What index.js reads from a fetched page, the records it builds, and the
 * value-level specification of its crawl. The methods of module IndexCrawl
 * are proved against `CrawlSpec`.
 */
module IndexPage {
  import opened Maybe
  import opened JsString
  import opened Fetch
  import opened ScraperText

  /** The results of the cheerio selectors index.js evaluates on a page. */
  datatype Page = Page(
    areaLinks: seq<Link>,     // a.inlinetable
    sectorLinks: seq<Link>,   // .sectorlinkitem a
    problemLinks: seq<Link>)  // h3:not(#comments):first-of-type + .object-list li a

  /** `{ problemName, problemGrade, problemUrl }`; an undefined field is `None`. */
  datatype ProblemEntry = ProblemEntry(problemName: string, problemGrade: Option<string>, problemUrl: Option<string>)

  /** `{ sectorName, sectorUrl, problems }` */
  datatype SectorEntry = SectorEntry(sectorName: string, sectorUrl: Option<string>, problems: Option<seq<ProblemEntry>>)

  /** `{ name, url, sectors }` */
  datatype AreaEntry = AreaEntry(name: string, url: Option<string>, sectors: Option<seq<SectorEntry>>)

  // ------------------------------------------------------------------ text

  /** `text.replace(/\s+/g, " ").trim().split(" (")[0]` */
  function AreaName(text: string): string {
    SplitHead(Trim(CollapseSpaces(text)), " (")
  }

  /** Every whitespace character of `s` is a plain space, and no two are adjacent. */
  predicate SingleSpaced(s: string) {
    (forall i :: 0 <= i < |s| && IsSpace(s[i]) ==> s[i] == ' ') && Separated(s, IsSpace)
  }

  lemma SeparatedSlice(s: string, i: int, j: int)
    requires 0 <= i <= j <= |s| && Separated(s, IsSpace)
    ensures Separated(s[i..j], IsSpace)
  {
    var t := s[i..j];
    forall k | 0 <= k < |t| - 1 ensures !(IsSpace(t[k]) && IsSpace(t[k + 1])) {
      assert t[k] == s[i + k] && t[k + 1] == s[i + k + 1];
    }
  }

  /** An area name is single-spaced, has no whitespace at either end and holds no " (". */
  lemma AreaNameShape(text: string)
    ensures SingleSpaced(AreaName(text))
    ensures NoEdgeSpace(AreaName(text))
    ensures !Contains(AreaName(text), " (")
  {
    var c := CollapseSpaces(text);
    CollapsedSingleSpaced(c);
    TrimSingleSpaced(c);
    HeadSingleSpaced(Trim(c));
  }

  lemma CollapsedSingleSpaced(c: string)
    requires forall x :: x in c && IsSpace(x) ==> x == ' '
    requires Separated(c, IsSpace)
    ensures SingleSpaced(c)
  {
    forall k | 0 <= k < |c| && IsSpace(c[k]) ensures c[k] == ' ' {
      assert c[k] in c;
    }
  }

  lemma TrimSingleSpaced(c: string)
    requires SingleSpaced(c)
    ensures SingleSpaced(Trim(c))
  {
    var t := Trim(c);
    var i :| 0 <= i <= |c| && TrimmedAt(c, t, i);
    TrimmedSingleSpaced(c, t, i);
  }

  lemma TrimmedSingleSpaced(c: string, t: string, i: int)
    requires SingleSpaced(c) && TrimmedAt(c, t, i)
    ensures SingleSpaced(t)
  {
    SlicedSingleSpaced(c, i, i + |t|);
  }

  lemma SlicedSingleSpaced(s: string, i: int, j: int)
    requires 0 <= i <= j <= |s| && SingleSpaced(s)
    ensures SingleSpaced(s[i..j])
  {
    SeparatedSlice(s, i, j);
    var t := s[i..j];
    forall k | 0 <= k < |t| && IsSpace(t[k]) ensures t[k] == ' ' {
      assert t[k] == s[i + k];
    }
  }

  /** Cutting a single-spaced, trimmed string at its first " (" keeps it so. */
  lemma HeadSingleSpaced(t: string)
    requires SingleSpaced(t) && NoEdgeSpace(t)
    ensures SingleSpaced(SplitHead(t, " (")) && NoEdgeSpace(SplitHead(t, " (")) && !Contains(SplitHead(t, " ("), " (")
  {
    var r := SplitHead(t, " (");
    assert r == t[..|r|];
    SlicedSingleSpaced(t, 0, |r|);
    if r != [] && r != t {
      assert OccursAt(t, " (", |r|);
      assert t[|r|] == t[|r|..|r| + 2][0] == ' ';
      assert r[|r| - 1] == t[|r| - 1];
      assert r[0] == t[0];
    }
  }

  /** Parsing an area name again gives the same name. */
  lemma AreaNameIdempotent(text: string)
    ensures AreaName(AreaName(text)) == AreaName(text)
  {
    AreaNameShape(text);
    AreaNameOfClean(AreaName(text));
  }

  /** A clean name is its own area name. */
  lemma AreaNameOfClean(r: string)
    requires SingleSpaced(r) && NoEdgeSpace(r) && !Contains(r, " (")
    ensures AreaName(r) == r
  {
    CollapseOfSingleSpaced(r);
    TrimOfTrimmed(r);
    SplitHeadWhole(r, " (");
  }

  lemma CollapseOfSingleSpaced(r: string)
    requires SingleSpaced(r)
    ensures CollapseSpaces(r) == r
  {
    ReplaceRunsFixed(r, IsSpace, ' ');
  }

  /** `text.trim()`: how a sector link becomes a sector name. */
  function SectorName(text: string): (r: string)
    ensures NoEdgeSpace(r)
  {
    Trim(text)
  }

  /** A problem of a sector listing: the name before the first ", " and the whole second piece as grade. */
  function ListedProblem(l: Link): ProblemEntry {
    var t := Trim(l.text);
    ProblemEntry(SplitHead(t, ", "), SplitSecond(t, ", "), l.href)
  }

  /** A listed title `name, grade` gives back `name` and the whole of `grade`, spaces included. */
  lemma ListedProblemOf(name: string, grade: string, href: Option<string>)
    requires !Contains(name, ", ") && !Contains(grade, ", ")
    requires NoEdgeSpace(name + ", " + grade)
    ensures ListedProblem(Link(href, name + ", " + grade)) == ProblemEntry(name, Some(grade), href)
  {
    var t := name + ", " + grade;
    TrimOfTrimmed(t);
    CommaSplit(name, grade);
    ListedOfPieces(t, name, grade, href);
  }

  lemma CommaSplit(name: string, grade: string)
    requires !Contains(name, ", ") && !Contains(grade, ", ")
    ensures SplitHead(name + ", " + grade, ", ") == name
    ensures SplitSecond(name + ", " + grade, ", ") == Some(grade)
  {
    SecondAfterComma(name, grade);
    SplitHeadWhole(grade, ", ");
  }

  lemma ListedOfPieces(t: string, name: string, grade: string, href: Option<string>)
    requires Trim(t) == t && SplitHead(t, ", ") == name && SplitSecond(t, ", ") == Some(grade)
    ensures ListedProblem(Link(href, t)) == ProblemEntry(name, Some(grade), href)
  {
  }

  /** A listed title without ", " is all name, and the grade is undefined. */
  lemma ListedProblemNoComma(l: Link)
    requires !Contains(Trim(l.text), ", ")
    ensures ListedProblem(l) == ProblemEntry(Trim(l.text), None, l.href)
  {
    SplitHeadWhole(Trim(l.text), ", ");
  }

  /**
   * A problem of the "main" sector: the grade is the first space-delimited
   * word of the second piece. `None` where `.split(" ")` is applied to the
   * undefined second piece of a title without ", ", which throws.
   */
  function MainProblem(l: Link): (r: Option<ProblemEntry>)
    ensures r.None? <==> !Contains(Trim(l.text), ", ")
  {
    match ParseTitle(l.text)
    case None => None
    case Some(t) => Some(ProblemEntry(t.name, Some(t.grade), l.href))
  }

  /** A main-sector title `name, grade rest` gives back `name` and only the word `grade`. */
  lemma MainProblemOf(name: string, grade: string, rest: string, href: Option<string>)
    requires !Contains(name, ", ")
    requires grade != [] && ' ' !in grade && ',' !in grade
    requires rest == [] || rest[0] == ' '
    requires NoEdgeSpace(name + ", " + (grade + rest))
    ensures MainProblem(Link(href, name + ", " + (grade + rest))) == Some(ProblemEntry(name, Some(grade), href))
  {
    ParseTitleOf(name, grade, rest);
  }

  lemma NoCommaNoSeparator(s: string)
    requires ',' !in s
    ensures !Contains(s, ", ")
  {
    forall k | 0 <= k <= |s| ensures !OccursAt(s, ", ", k) {
      if k + 2 <= |s| {
        assert s[k..k + 2][0] == s[k] && s[k] in s;
      }
    }
  }

  /** The same title yields different grades in a sector listing and in the "main" sector. */
  lemma ListedAndMainGradesDiffer()
    ensures ListedProblem(Link(None, "Stina, 6B *")) == ProblemEntry("Stina", Some("6B *"), None)
    ensures MainProblem(Link(None, "Stina, 6B *")) == Some(ProblemEntry("Stina", Some("6B"), None))
  {
    ListedExample();
    MainExample();
  }

  lemma ListedExample()
    ensures ListedProblem(Link(None, "Stina, 6B *")) == ProblemEntry("Stina", Some("6B *"), None)
  {
    assert "Stina, 6B *" == "Stina" + ", " + "6B *";
    NoCommaNoSeparator("6B *");
    NoCommaNoSeparator("Stina");
    ListedProblemOf("Stina", "6B *", None);
  }

  lemma MainExample()
    ensures MainProblem(Link(None, "Stina, 6B *")) == Some(ProblemEntry("Stina", Some("6B"), None))
  {
    assert "Stina, 6B *" == "Stina" + ", " + ("6B" + " *");
    NoCommaNoSeparator("Stina");
    MainProblemOf("Stina", "6B", " *", None);
  }

  /**
   * The string steps of index.js as function values, so that the crawl can
   * be stated once for whichever string semantics it runs on; `Rules` is
   * the ECMAScript choice.
   */
  datatype IndexRules = IndexRules(
    areaName: string -> string,                 // the area link text, cleaned and cut at " ("
    sectorName: string -> string,               // the sector link text, trimmed
    listedProblem: Link -> ProblemEntry,        // a problem of a sector listing
    mainProblem: Link -> Option<ProblemEntry>)  // a problem of the "main" sector, or a throw

  const Rules: IndexRules := IndexRules(AreaName, SectorName, ListedProblem, MainProblem)

  // ------------------------------------------------------------------ lists

  function ListedProblems(tx: IndexRules, links: seq<Link>): (r: seq<ProblemEntry>)
    ensures |r| == |links| && forall i :: 0 <= i < |links| ==> r[i] == tx.listedProblem(links[i])
  {
    seq(|links|, i requires 0 <= i < |links| => tx.listedProblem(links[i]))
  }

  /** The "main" sector's problems, or `None` when one of the titles throws. */
  function MainProblems(tx: IndexRules, links: seq<Link>): (r: Option<seq<ProblemEntry>>)
    ensures r.None? <==> exists i :: 0 <= i < |links| && tx.mainProblem(links[i]).None?
    ensures r.Some? ==> |r.value| == |links| && forall i :: 0 <= i < |links| ==> tx.mainProblem(links[i]) == Some(r.value[i])
  {
    if forall i :: 0 <= i < |links| ==> tx.mainProblem(links[i]).Some? then
      Some(seq(|links|, i requires 0 <= i < |links| => tx.mainProblem(links[i]).value))
    else None
  }

  function SectorOfLink(tx: IndexRules, l: Link): SectorEntry {
    SectorEntry(tx.sectorName(l.text), l.href, None)
  }

  /** `{ sectorName: "main", problems }` */
  function MainSector(ps: seq<ProblemEntry>): SectorEntry {
    SectorEntry("main", None, Some(ps))
  }

  /** One area record per `a.inlinetable` link; the href is taken as it is. */
  function AreaOfLink(tx: IndexRules, l: Link): AreaEntry {
    AreaEntry(tx.areaName(l.text), l.href, None)
  }

  // ------------------------------------------------------------------ crawl

  /** One sector iteration: a failed fetch is caught; problems are attached only when there are any. */
  function SectorVisit(web: Web<Page>, tx: IndexRules, s: SectorEntry): SectorEntry {
    match Get(web, s.sectorUrl)
    case Ok(page) =>
      if |page.problemLinks| > 0 then s.(problems := Some(ListedProblems(tx, page.problemLinks))) else s
    case _ => s
  }

  /** The sectors of an area page after the sector loop, in link order. */
  function SectorsVisit(web: Web<Page>, tx: IndexRules, links: seq<Link>): (r: seq<SectorEntry>)
    ensures |r| == |links| && forall i :: 0 <= i < |links| ==> r[i] == SectorVisit(web, tx, SectorOfLink(tx, links[i]))
  {
    seq(|links|, i requires 0 <= i < |links| => SectorVisit(web, tx, SectorOfLink(tx, links[i])))
  }

  /**
   * One area iteration. Any failure (the fetch, or a main-sector title
   * without ", ") is caught before `area.sectors` is assigned, so the area
   * keeps what it had.
   */
  function AreaVisit(web: Web<Page>, tx: IndexRules, a: AreaEntry): AreaEntry {
    match Get(web, a.url)
    case Ok(page) =>
      if |page.sectorLinks| > 0 then a.(sectors := Some(SectorsVisit(web, tx, page.sectorLinks)))
      else (match MainProblems(tx, page.problemLinks)
            case Some(ps) => if |ps| > 0 then a.(sectors := Some([MainSector(ps)])) else a
            case None => a)
    case _ => a
  }

  /** The array index.js serialises, or `None` when fetching the start page fails and nothing is written. */
  function CrawlSpec(web: Web<Page>, tx: IndexRules, url: string): Option<seq<AreaEntry>> {
    match Get(web, Some(url))
    case Ok(home) =>
      Some(seq(|home.areaLinks|, i requires 0 <= i < |home.areaLinks| => AreaVisit(web, tx, AreaOfLink(tx, home.areaLinks[i]))))
    case _ => None
  }

  // ------------------------------------------------------------------ properties

  /** Visiting a sector twice changes nothing more: the second fetch yields the same listing. */
  lemma SectorVisitIdempotent(web: Web<Page>, tx: IndexRules, s: SectorEntry)
    ensures SectorVisit(web, tx, SectorVisit(web, tx, s)) == SectorVisit(web, tx, s)
  {
  }

  /**
   * A sector keeps its name and URL; it gains `problems` exactly when its
   * page was fetched and lists at least one problem, and then they are the
   * listing's problems in order.
   */
  lemma SectorVisitEffect(web: Web<Page>, tx: IndexRules, s: SectorEntry)
    requires s.problems.None?
    ensures var r := SectorVisit(web, tx, s);
      r.sectorName == s.sectorName && r.sectorUrl == s.sectorUrl
      && (r.problems.Some? <==> Get(web, s.sectorUrl).Ok? && |Get(web, s.sectorUrl).page.problemLinks| > 0)
      && (r.problems.Some? ==> r.problems.value == ListedProblems(tx, Get(web, s.sectorUrl).page.problemLinks) && |r.problems.value| > 0)
  {
  }

  /** A failed area, whatever the cause, keeps only its `{ name, url }`. */
  lemma AreaFailureKeepsRecord(web: Web<Page>, a: AreaEntry)
    requires !Get(web, a.url).Ok?
      || (|Get(web, a.url).page.sectorLinks| == 0
          && exists i :: 0 <= i < |Get(web, a.url).page.problemLinks| && !Contains(Trim(Get(web, a.url).page.problemLinks[i].text), ", "))
    ensures AreaVisit(web, Rules, a) == a
  {
    if Get(web, a.url).Ok? {
      var links := Get(web, a.url).page.problemLinks;
      var i :| 0 <= i < |links| && !Contains(Trim(links[i].text), ", ");
      assert Rules.mainProblem(links[i]).None?;
    }
  }

  /**
   * An area with sector links gets exactly those sectors, in order, each
   * named by its link text and visited; a sector whose fetch failed is
   * still there, without problems.
   */
  lemma AreaWithSectors(web: Web<Page>, tx: IndexRules, a: AreaEntry)
    requires Get(web, a.url).Ok? && |Get(web, a.url).page.sectorLinks| > 0
    ensures var links := Get(web, a.url).page.sectorLinks;
      var r := AreaVisit(web, tx, a);
      r.name == a.name && r.url == a.url && r.sectors.Some? && |r.sectors.value| == |links|
      && forall i :: 0 <= i < |links| ==>
           r.sectors.value[i].sectorName == tx.sectorName(links[i].text) && r.sectors.value[i].sectorUrl == links[i].href
           && (!Get(web, links[i].href).Ok? ==> r.sectors.value[i].problems.None?)
           && (r.sectors.value[i].problems.Some? ==> |r.sectors.value[i].problems.value| > 0)
  {
  }

  /**
   * Without sector links the problems go into one synthetic "main" sector,
   * which the area gets exactly when every title parses and there is at
   * least one; otherwise the area has no `sectors` at all.
   */
  lemma AreaMainFallback(web: Web<Page>, tx: IndexRules, a: AreaEntry)
    requires a.sectors.None?
    requires Get(web, a.url).Ok? && |Get(web, a.url).page.sectorLinks| == 0
    ensures var links := Get(web, a.url).page.problemLinks;
      var r := AreaVisit(web, tx, a);
      r.name == a.name && r.url == a.url
      && (r.sectors.Some? <==> MainProblems(tx, links).Some? && |links| > 0)
      && (r.sectors.Some? ==> r.sectors == Some([SectorEntry("main", None, MainProblems(tx, links))]))
  {
  }

  /**
   * The output holds one record per area link, failed areas included, in
   * link order, each with the parsed name and the href unchanged; none has
   * an empty `sectors` list.
   */
  lemma CrawlKeepsEveryArea(web: Web<Page>, tx: IndexRules, url: string)
    ensures CrawlSpec(web, tx, url).Some? <==> Get(web, Some(url)).Ok?
    ensures CrawlSpec(web, tx, url).Some? ==>
      var links := Get(web, Some(url)).page.areaLinks;
      var out := CrawlSpec(web, tx, url).value;
      |out| == |links|
      && forall i :: 0 <= i < |links| ==>
           out[i].name == tx.areaName(links[i].text) && out[i].url == links[i].href
           && (out[i].sectors.Some? ==> |out[i].sectors.value| > 0)
  {
    if Get(web, Some(url)).Ok? {
      var links := Get(web, Some(url)).page.areaLinks;
      forall i | 0 <= i < |links|
        ensures var r := AreaVisit(web, tx, AreaOfLink(tx, links[i]));
          r.name == tx.areaName(links[i].text) && r.url == links[i].href && (r.sectors.Some? ==> |r.sectors.value| > 0)
      {
        var a := AreaOfLink(tx, links[i]);
        match Get(web, a.url)
        case Ok(page) =>
          if |page.sectorLinks| > 0 {
            AreaWithSectors(web, tx, a);
          } else {
            AreaMainFallback(web, tx, a);
          }
        case _ =>
      }
    }
  }

  /** Under the ECMAScript rules every area name in the output is clean: single-spaced, trimmed, without " (". */
  lemma CrawlAreaNames(web: Web<Page>, url: string)
    requires CrawlSpec(web, Rules, url).Some?
    ensures var out := CrawlSpec(web, Rules, url).value;
      forall i :: 0 <= i < |out| ==>
        SingleSpaced(out[i].name) && NoEdgeSpace(out[i].name) && !Contains(out[i].name, " (")
  {
    CrawlKeepsEveryArea(web, Rules, url);
    var links := Get(web, Some(url)).page.areaLinks;
    forall i | 0 <= i < |links| ensures SingleSpaced(AreaName(links[i].text)) && NoEdgeSpace(AreaName(links[i].text)) && !Contains(AreaName(links[i].text), " (") {
      AreaNameShape(links[i].text);
    }
  }
}
