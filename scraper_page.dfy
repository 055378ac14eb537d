/**
 * What scraper.js reads from one fetched page, and the record updates it
 * derives from that, as values. A `Page` holds the results of the cheerio
 * selectors the crawler evaluates; which page kind it is (main, area,
 * sector or problem page) only decides which of the fields are consulted.
 * The value-level specification of the whole crawl is at the end; the
 * methods of module Scraper are proved against it.
 */
module ScraperPage {
  import opened Maybe
  import opened JsString
  import opened Fetch
  import opened Records
  import opened ScraperText

  const BaseUrl: string := "https://gbo.crimp.se"

  /** An `h3` element: its text, and the `a` elements inside its next sibling. */
  datatype H3Section = H3Section(text: string, nextLinks: seq<Link>)

  datatype Page = Page(
    areaLinks: seq<Link>,              // #arealist2 a.inlinetable
    heading: string,                   // .breadcrumb + h2, text
    descriptionText: string,           // div.description p, text
    directDescriptionText: string,     // div.description > p, text
    mapsText: string,                  // a[href*="maps.google.com"], text
    mapsHref: Option<string>,          // a[href*="maps.google.com"], href of the first
    thumbnails: seq<Option<string>>,   // a.thumbnail, href of each
    sectorLinks: seq<Link>,            // .sectorlinkitem > a
    h3Sections: seq<H3Section>,        // h3
    sectorProblemLinks: seq<Link>,     // h3:first-of-type + ul.nav-list.object-list a
    stars: nat,                        // h2 i.staricon, count
    landingText: string,               // ul.nav-list li:contains("Landning"), text
    sitStartText: string)              // ul.nav-list li:contains("Sittstart"), text

  /** `new URL(href, base).href`, with `None` when the constructor throws. */
  type Resolver = (string, string) -> Option<string>

  /** The "make sure URL is absolute" rule: a non-empty href not starting with "http" gets the site prefix. */
  function Absolutize(href: Option<string>): (r: Option<string>)
    ensures r.Some? <==> href.Some?
    ensures r == href || r == Some(BaseUrl + href.value)
    ensures href.Some? && StartsWith(href.value, "http") ==> r == href
    ensures href == Some("") ==> r == href
    ensures r.Some? && r.value != "" ==> StartsWith(r.value, "http")
  {
    if href.Some? && href.value != "" && !StartsWith(href.value, "http") then
      assert (BaseUrl + href.value)[..4] == BaseUrl[..4];
      Some(BaseUrl + href.value)
    else href
  }

  lemma AbsolutizeIdempotent(href: Option<string>)
    ensures Absolutize(Absolutize(href)) == Absolutize(href)
  {
  }
  /** The record for one area link of the main page. */
  function AreaOfLink(tx: TextRules, l: Link): AreaRec {
    LinkedArea(LinkName(tx, l.text), Absolutize(l.href))
  }

  /** What `scrapeMainPage` returns: one `{ name, url }` per area link, or undefined when the fetch fails. */
  function MainPageSpec(web: Web<Page>, tx: TextRules): (r: Option<seq<AreaRec>>)
    ensures r.Some? <==> Get(web, Some(BaseUrl)).Ok?
    ensures r.Some? ==> var links := Get(web, Some(BaseUrl)).page.areaLinks;
                        |r.value| == |links| && forall i :: 0 <= i < |links| ==> r.value[i] == AreaOfLink(tx, links[i])
  {
    match Get(web, Some(BaseUrl))
    case Ok(page) => Some(seq(|page.areaLinks|, i requires 0 <= i < |page.areaLinks| => AreaOfLink(tx, page.areaLinks[i])))
    case _ => None
  }

  /** `heading.trim().split("\n")[0] || old`: the heading's first line, unless that is empty. */
  function HeadingName(tx: TextRules, heading: string, old_: string): string {
    var line := LinkName(tx, heading);
    if line != "" then line else old_
  }

  /** A heading that yields a name yields it again; an empty one keeps whatever name there was. */
  lemma HeadingNameStable(tx: TextRules, heading: string, name: string)
    ensures HeadingName(tx, heading, HeadingName(tx, heading, name)) == HeadingName(tx, heading, name)
    ensures HeadingName(tx, heading, name) == name || HeadingName(tx, heading, name) == LinkName(tx, heading)
  {
  }

  // ---------------------------------------------------------------- problems

  /** The fields `scrapeProblemPage` assigns once the title has parsed into `t`. */
  function ProblemFill(tx: TextRules, p: ProblemRec, t: Title, page: Page): ProblemRec {
    p.(name := t.name, grade := Some(t.grade), rating := Some(page.stars),
       description := Some(tx.description(page.directDescriptionText)),
       coordinate := tx.afterColon(page.mapsText), mapsLink := page.mapsHref,
       landing := tx.afterColon(page.landingText), sitStart := tx.afterColon(page.sitStartText),
       images := Some(page.thumbnails))
  }

  /** Everything `scrapeProblemPage` assigns, or `None` when it throws before the first assignment. */
  function ProblemDetails(tx: TextRules, p: ProblemRec, page: Page): (r: Option<ProblemRec>)
    ensures r.None? <==> tx.parseTitle(page.heading).None?
    ensures r.Some? ==> r.value.url == p.url && r.value.rating == Some(page.stars)
  {
    match tx.parseTitle(page.heading)
    case None => None
    case Some(t) => Some(ProblemFill(tx, p, t, page))
  }

  /** The problem record after `scrapeProblemPage`: fully updated, or untouched. */
  function ProblemPageSpec(web: Web<Page>, tx: TextRules, p: ProblemRec): ProblemRec {
    match Get(web, p.url)
    case Ok(page) => (match ProblemDetails(tx, p, page) case Some(q) => q case None => p)
    case _ => p
  }

  /** Either every field of the problem page is taken over, or none is; the URL never changes. */
  lemma ProblemPageAllOrNothing(web: Web<Page>, tx: TextRules, p: ProblemRec)
    ensures var q := ProblemPageSpec(web, tx, p);
            q.url == p.url &&
            (q == p ||
             (Get(web, p.url).Ok? && q.grade.Some? && q.rating == Some(Get(web, p.url).page.stars)
              && q.images == Some(Get(web, p.url).page.thumbnails) && q.description.Some?
              && q.landing == tx.afterColon(Get(web, p.url).page.landingText)))
    ensures Get(web, p.url).Ok? && tx.parseTitle(Get(web, p.url).page.heading).Some? ==>
              ProblemPageSpec(web, tx, p).grade.Some?
  {
  }

  /** Under the builtins a scraped problem's name is the title before its first ", ", and holds none. */
  lemma BuiltinProblemName(web: Web<Page>, p: ProblemRec)
    requires Get(web, p.url).Ok? && ParseTitle(Get(web, p.url).page.heading).Some?
    ensures var q := ProblemPageSpec(web, Builtins, p);
            q.name == SplitHead(Trim(Get(web, p.url).page.heading), ", ") && !Contains(q.name, ", ")
  {
  }

  /** Scraping a problem page a second time changes nothing more, since it keys on the URL alone. */
  lemma ProblemPageIdempotent(web: Web<Page>, tx: TextRules, p: ProblemRec)
    ensures ProblemPageSpec(web, tx, ProblemPageSpec(web, tx, p)) == ProblemPageSpec(web, tx, p)
  {
  }

  // ----------------------------------------------------------------- sectors

  /** The outcome of `scrapeSectorPage`: the updated record, `null` on a 404, `undefined` otherwise. */
  datatype SectorOutcome = Scraped(rec: SectorRec) | Missing | Failed

  function SectorProblemOfLink(tx: TextRules, l: Link): ProblemRec {
    LinkedProblem(tx.trim(l.text), Absolutize(l.href))
  }

  function SectorProblemRecs(tx: TextRules, links: seq<Link>): (r: seq<ProblemRec>)
    ensures |r| == |links| && forall i :: 0 <= i < |links| ==> r[i] == SectorProblemOfLink(tx, links[i])
  {
    seq(|links|, i requires 0 <= i < |links| => SectorProblemOfLink(tx, links[i]))
  }

  function SectorDetails(tx: TextRules, s: SectorRec, page: Page): SectorRec {
    s.(name := HeadingName(tx, page.heading, s.name),
       description := Some(tx.description(page.descriptionText)),
       coordinate := tx.afterColon(page.mapsText), mapsLink := page.mapsHref,
       images := Some(page.thumbnails),
       problems := Some(SectorProblemRecs(tx, page.sectorProblemLinks)))
  }

  function SectorPageSpec(web: Web<Page>, tx: TextRules, s: SectorRec): (r: SectorOutcome)
    ensures r.Scraped? <==> Get(web, s.url).Ok?
    ensures r.Missing? <==> Get(web, s.url).NotFound?
    ensures r.Scraped? ==> r.rec.url == s.url && r.rec.problems.Some?
  {
    match Get(web, s.url)
    case Ok(page) => Scraped(SectorDetails(tx, s, page))
    case NotFound => Missing
    case Error => Failed
  }

  // ------------------------------------------------------------------- areas

  /** The URL pushed for a kept sector link; the outer `None` is a throwing `new URL`. */
  function SectorUrl(href: Option<string>, base: string, resolve: Resolver): Option<Option<string>> {
    if href.Some? && href.value != "" && !StartsWith(href.value, "http") then
      match resolve(href.value, base)
      case None => None
      case Some(u) => Some(Some(u))
    else Some(href)
  }

  function SectorOfLink(tx: TextRules, l: Link, base: string, resolve: Resolver): Option<SectorRec> {
    match SectorUrl(l.href, base, resolve)
    case None => None
    case Some(u) => Some(LinkedSector(LinkName(tx, l.text), u))
  }

  /** The sector records for `links` in order, or `None` once a URL cannot be built. */
  function SectorRecs(tx: TextRules, links: seq<Link>, base: string, resolve: Resolver): (r: Option<seq<SectorRec>>)
    ensures r.Some? <==> forall i :: 0 <= i < |links| ==> SectorOfLink(tx, links[i], base, resolve).Some?
    ensures r.Some? ==> |r.value| == |links|
    ensures r.Some? ==> forall i :: 0 <= i < |links| ==> SectorOfLink(tx, links[i], base, resolve) == Some(r.value[i])
  {
    AllSome(SectorLinkResults(tx, links, base, resolve))
  }

  function SectorLinkResults(tx: TextRules, links: seq<Link>, base: string, resolve: Resolver): (r: seq<Option<SectorRec>>)
    ensures |r| == |links| && forall i :: 0 <= i < |links| ==> r[i] == SectorOfLink(tx, links[i], base, resolve)
  {
    seq(|links|, i requires 0 <= i < |links| => SectorOfLink(tx, links[i], base, resolve))
  }

  /** The first ten sector links are kept, in document order; one URL that fails to build fails them all. */
  function KeptSectorLinks(links: seq<Link>): (r: seq<Link>)
    ensures |r| == if |links| < 10 then |links| else 10
    ensures r <= links
  {
    if |links| < 10 then links else links[..10]
  }

  function AreaProblemOfLink(tx: TextRules, l: Link): ProblemRec {
    LinkedProblem(tx.beforeComma(tx.trim(l.text)), Absolutize(l.href))
  }

  /** An `h3` whose trimmed text is "Problem" introduces the area's direct problems. */
  predicate IsProblemHeading(tx: TextRules, sec: H3Section) {
    tx.trim(sec.text) == "Problem"
  }

  /** The problems one `h3` contributes: its next sibling's links if it is a "Problem" heading. */
  function SectionProblems(tx: TextRules, sec: H3Section): seq<ProblemRec> {
    if IsProblemHeading(tx, sec) then
      seq(|sec.nextLinks|, i requires 0 <= i < |sec.nextLinks| => AreaProblemOfLink(tx, sec.nextLinks[i]))
    else []
  }

  function AreaProblemRecs(tx: TextRules, secs: seq<H3Section>): seq<ProblemRec>
    decreases |secs|
  {
    if secs == [] then [] else AreaProblemRecs(tx, secs[..|secs| - 1]) + SectionProblems(tx, secs[|secs| - 1])
  }

  /** Every direct problem of an area page comes from an `h3` whose text is "Problem". */
  lemma {:induction false} AreaProblemsFromProblemSections(tx: TextRules, secs: seq<H3Section>)
    ensures forall q :: q in AreaProblemRecs(tx, secs) ==>
              exists j :: 0 <= j < |secs| && IsProblemHeading(tx, secs[j]) && q in SectionProblems(tx, secs[j])
    ensures (forall j :: 0 <= j < |secs| ==> !IsProblemHeading(tx, secs[j])) ==> AreaProblemRecs(tx, secs) == []
    decreases |secs|
  {
    if secs != [] {
      var init := secs[..|secs| - 1];
      AreaProblemsFromProblemSections(tx, init);
      assert forall j :: 0 <= j < |init| ==> init[j] == secs[j];
    }
  }

  /** The record fields `scrapeAreaPage` assigns before it builds the sector list. */
  function AreaHead(tx: TextRules, a: AreaRec, page: Page): AreaRec {
    a.(name := HeadingName(tx, page.heading, a.name),
       description := Some(tx.description(page.descriptionText)),
       coordinate := tx.afterColon(page.mapsText), mapsLink := page.mapsHref,
       images := Some(page.thumbnails))
  }

  /**
   * The area record after `scrapeAreaPage`: untouched when the fetch fails,
   * only the head fields when a sector URL cannot be built, and everything
   * otherwise.
   */
  function AreaPageSpec(web: Web<Page>, resolve: Resolver, tx: TextRules, a: AreaRec): AreaRec {
    match Get(web, a.url)
    case Ok(page) =>
      (match SectorRecs(tx, KeptSectorLinks(page.sectorLinks), a.url.value, resolve)
       case None => AreaHead(tx, a, page)
       case Some(ss) => AreaHead(tx, a, page).(sectors := Some(ss), problems := Some(AreaProblemRecs(tx, page.h3Sections))))
    case _ => a
  }

  // ------------------------------------------------------------------- crawl

  function ProblemsCrawl(web: Web<Page>, tx: TextRules, ps: seq<ProblemRec>): (r: seq<ProblemRec>)
    ensures |r| == |ps| && forall i :: 0 <= i < |ps| ==> r[i] == ProblemPageSpec(web, tx, ps[i])
  {
    seq(|ps|, i requires 0 <= i < |ps| => ProblemPageSpec(web, tx, ps[i]))
  }

  /** A sector after the main loop: scraped with its problems, or, when skipped, exactly as it was. */
  function SectorCrawlSpec(web: Web<Page>, tx: TextRules, s: SectorRec): SectorRec {
    match SectorPageSpec(web, tx, s)
    case Scraped(r) => r.(problems := Some(ProblemsCrawl(web, tx, r.problems.value)))
    case _ => s
  }

  function SectorsCrawl(web: Web<Page>, tx: TextRules, ss: seq<SectorRec>): (r: seq<SectorRec>)
    ensures |r| == |ss| && forall i :: 0 <= i < |ss| ==> r[i] == SectorCrawlSpec(web, tx, ss[i])
  {
    seq(|ss|, i requires 0 <= i < |ss| => SectorCrawlSpec(web, tx, ss[i]))
  }

  /**
   * One iteration of the main loop, or `None` when its `area.sectors.length`
   * throws because the area scrape never assigned `sectors`.
   */
  function AreaCrawlSpec(web: Web<Page>, resolve: Resolver, tx: TextRules, a: AreaRec): Option<AreaRec> {
    var b := AreaPageSpec(web, resolve, tx, a);
    if b.sectors.None? then None else Some(AreaListsCrawl(web, tx, b))
  }

  /**
   * The rest of the area's iteration once `sectors` is assigned: the direct
   * problems only when there are no sectors, then every sector.
   */
  function AreaListsCrawl(web: Web<Page>, tx: TextRules, b: AreaRec): AreaRec
    requires b.sectors.Some?
  {
    var ss := b.sectors.value;
    var ps := if |ss| == 0 && b.problems.Some? then Some(ProblemsCrawl(web, tx, b.problems.value)) else b.problems;
    b.(sectors := Some(SectorsCrawl(web, tx, ss)), problems := ps)
  }

  /** `Some` of all values when every element is `Some`. */
  function AllSome<T>(xs: seq<Option<T>>): (r: Option<seq<T>>)
    ensures r.Some? <==> forall i :: 0 <= i < |xs| ==> xs[i].Some?
    ensures r.Some? ==> |r.value| == |xs| && forall i :: 0 <= i < |xs| ==> xs[i] == Some(r.value[i])
    decreases |xs|
  {
    if xs == [] then Some([])
    else if xs[|xs| - 1].None? then None
    else match AllSome(xs[..|xs| - 1])
      case None => None
      case Some(vs) => Some(vs + [xs[|xs| - 1].value])
  }

  function AreaResults(web: Web<Page>, resolve: Resolver, tx: TextRules, areas: seq<AreaRec>): (r: seq<Option<AreaRec>>)
    ensures |r| == |areas| && forall i :: 0 <= i < |areas| ==> r[i] == AreaCrawlSpec(web, resolve, tx, areas[i])
  {
    seq(|areas|, i requires 0 <= i < |areas| => AreaCrawlSpec(web, resolve, tx, areas[i]))
  }

  /** The content of data/output.json, or `None` when `main` ends in its catch without writing it. */
  function CrawlSpec(web: Web<Page>, resolve: Resolver, tx: TextRules): Option<seq<AreaRec>> {
    match MainPageSpec(web, tx)
    case None => None
    case Some(areas) => AllSome(AreaResults(web, resolve, tx, areas))
  }

  // -------------------------------------------------------------- properties

  /** An area whose page cannot be fetched leaves `sectors` unassigned, so the run aborts. */
  lemma AreaFetchFailureAborts(web: Web<Page>, resolve: Resolver, tx: TextRules, a: AreaRec)
    requires a.sectors.None?
    requires !Get(web, a.url).Ok?
    ensures AreaCrawlSpec(web, resolve, tx, a).None?
  {
  }

  /** One area that aborts means no output at all. */
  lemma CrawlAbortsOnAreaFailure(web: Web<Page>, resolve: Resolver, tx: TextRules, i: nat)
    requires MainPageSpec(web, tx).Some? && i < |MainPageSpec(web, tx).value|
    requires AreaCrawlSpec(web, resolve, tx, MainPageSpec(web, tx).value[i]).None?
    ensures CrawlSpec(web, resolve, tx).None?
  {
    assert AreaResults(web, resolve, tx, MainPageSpec(web, tx).value)[i].None?;
  }

  /** When there is output, it has one record per area link, in order, each the crawled area. */
  lemma CrawlOutputShape(web: Web<Page>, resolve: Resolver, tx: TextRules)
    requires CrawlSpec(web, resolve, tx).Some?
    ensures MainPageSpec(web, tx).Some?
    ensures var areas := MainPageSpec(web, tx).value; var out := CrawlSpec(web, resolve, tx).value;
            |out| == |areas| && forall i :: 0 <= i < |areas| ==> AreaCrawlSpec(web, resolve, tx, areas[i]) == Some(out[i])
  {
  }

  /** Conversely, areas that all crawl make up the output, in order. */
  lemma CrawlOutputOfAreas(web: Web<Page>, resolve: Resolver, tx: TextRules, out: seq<AreaRec>)
    requires MainPageSpec(web, tx).Some? && |out| == |MainPageSpec(web, tx).value|
    requires forall i :: 0 <= i < |out| ==> AreaCrawlSpec(web, resolve, tx, MainPageSpec(web, tx).value[i]) == Some(out[i])
    ensures CrawlSpec(web, resolve, tx) == Some(out)
  {
    var r := AllSome(AreaResults(web, resolve, tx, MainPageSpec(web, tx).value));
    assert r.Some? && r.value == out;
  }

  /**
   * In a crawled area: direct problems are enriched only when there are no
   * sectors, and a sector whose page is missing or fails keeps the record it
   * had, without problems.
   */
  lemma AreaCrawlShape(web: Web<Page>, resolve: Resolver, tx: TextRules, a: AreaRec)
    requires AreaCrawlSpec(web, resolve, tx, a).Some?
    ensures var b := AreaPageSpec(web, resolve, tx, a); var r := AreaCrawlSpec(web, resolve, tx, a).value;
            b.sectors.Some? && r.sectors.Some? && |r.sectors.value| == |b.sectors.value|
            && (|b.sectors.value| > 0 || b.problems.None? ==> r.problems == b.problems)
            && (|b.sectors.value| == 0 && b.problems.Some? ==> r.problems == Some(ProblemsCrawl(web, tx, b.problems.value)))
            && forall i :: 0 <= i < |b.sectors.value| && !Get(web, b.sectors.value[i].url).Ok? ==>
                 r.sectors.value[i] == b.sectors.value[i]
  {
  }

  /** A skipped sector keeps its link record: neither its page fields nor problems are filled in. */
  lemma SkippedSectorKeepsLinkRecord(web: Web<Page>, tx: TextRules, name: string, url: Option<string>)
    requires !Get(web, url).Ok?
    ensures SectorCrawlSpec(web, tx, LinkedSector(name, url)) == LinkedSector(name, url)
    ensures SectorCrawlSpec(web, tx, LinkedSector(name, url)).problems.None?
  {
  }

  /**
   * Crawling a sector a second time changes nothing more: the page is found
   * by the URL, which the scrape never changes, and every field it assigns
   * comes from the page alone (the name falls back to the old one only when
   * the heading is empty, and then stays).
   */
  lemma SectorCrawlIdempotent(web: Web<Page>, tx: TextRules, s: SectorRec)
    ensures SectorCrawlSpec(web, tx, SectorCrawlSpec(web, tx, s)) == SectorCrawlSpec(web, tx, s)
  {
    var c := SectorCrawlSpec(web, tx, s);
    if Get(web, s.url).Ok? {
      var page := Get(web, s.url).page;
      assert c.url == s.url;
      HeadingNameStable(tx, page.heading, s.name);
    }
  }
}
