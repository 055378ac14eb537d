/**
 * The crawler of scraper.js as it runs: the scrape functions update the
 * area, sector and problem objects in place, field by field, and `main`
 * walks the objects it got from the main page. Each object has a `Json()`
 * snapshot (what `JSON.stringify` would see), and every method is proved
 * against the value-level specification of module ScraperPage.
 */
module Scraper {
  import opened Maybe
  import opened JsString
  import opened Fetch
  import opened Records
  import opened ScraperText
  import opened ScraperPage

  /** What an async scrape function resolves to: the object it was given, `null`, or `undefined`. */
  datatype Returned<T> = Value(obj: T) | Null | Undefined

  class Problem {
    var name: string
    var url: Option<string>
    var grade: Option<string>
    var rating: Option<nat>
    var description: Option<string>
    var coordinate: Option<string>
    var mapsLink: Option<string>
    var landing: Option<string>
    var sitStart: Option<string>
    var images: Option<seq<Option<string>>>

    /** `{ name, url }` */
    constructor (name: string, url: Option<string>)
      ensures Json() == LinkedProblem(name, url)
    {
      this.name, this.url := name, url;
      grade, rating, description, coordinate := None, None, None, None;
      mapsLink, landing, sitStart, images := None, None, None, None;
    }

    function Json(): ProblemRec
      reads this
    {
      ProblemRec(name, url, grade, rating, description, coordinate, mapsLink, landing, sitStart, images)
    }
  }

  function ProblemSeq(o: Option<seq<Problem>>): seq<Problem> {
    if o.Some? then o.value else []
  }

  function ProblemsJson(ps: seq<Problem>): (r: seq<ProblemRec>)
    reads ps
    ensures |r| == |ps| && forall i :: 0 <= i < |ps| ==> r[i] == ps[i].Json()
  {
    seq(|ps|, i requires 0 <= i < |ps| reads ps => ps[i].Json())
  }

  /** A `problems` field as serialized: absent, or the records of its objects. */
  function ProblemsOpt(o: Option<seq<Problem>>): (r: Option<seq<ProblemRec>>)
    reads ProblemSeq(o)
    ensures r.Some? <==> o.Some?
  {
    if o.Some? then Some(ProblemsJson(o.value)) else None
  }

  class Sector {
    var name: string
    var url: Option<string>
    var description: Option<string>
    var coordinate: Option<string>
    var mapsLink: Option<string>
    var images: Option<seq<Option<string>>>
    var problems: Option<seq<Problem>>

    constructor (name: string, url: Option<string>)
      ensures Json() == LinkedSector(name, url)
    {
      this.name, this.url := name, url;
      description, coordinate, mapsLink, images, problems := None, None, None, None, None;
    }

    function Json(): SectorRec
      reads this, ProblemSeq(problems)
    {
      SectorRec(name, url, description, coordinate, mapsLink, images,
                ProblemsOpt(problems))
    }
  }

  function SectorSeq(o: Option<seq<Sector>>): seq<Sector> {
    if o.Some? then o.value else []
  }

  /** Every problem object hanging off the sectors `ss` is in `fp`. */
  ghost predicate ProblemsWithin(ss: seq<Sector>, fp: set<Problem>)
    reads ss
  {
    forall i, p :: 0 <= i < |ss| && p in ProblemSeq(ss[i].problems) ==> p in fp
  }

  /** A list of sectors as serialized; `fp` holds the problem objects they reach. */
  function SectorsJson(ss: seq<Sector>, ghost fp: set<Problem>): (r: seq<SectorRec>)
    requires ProblemsWithin(ss, fp)
    reads ss, fp
    ensures |r| == |ss| && forall i :: 0 <= i < |ss| ==> r[i] == ss[i].Json()
  {
    seq(|ss|, i requires 0 <= i < |ss| && ProblemsWithin(ss, fp) reads ss, fp => ss[i].Json())
  }

  /** The problem objects the sectors `ss` reach. */
  ghost function Reached(ss: seq<Sector>): (fp: set<Problem>)
    reads ss
    ensures ProblemsWithin(ss, fp)
  {
    set i, p | 0 <= i < |ss| && p in ProblemSeq(ss[i].problems) :: p
  }

  /** The serialization does not depend on which footprint vouches for it. */
  lemma SectorsJsonFootprint(ss: seq<Sector>, fp1: set<Problem>, fp2: set<Problem>)
    requires ProblemsWithin(ss, fp1) && ProblemsWithin(ss, fp2)
    ensures SectorsJson(ss, fp1) == SectorsJson(ss, fp2)
  {
  }

  /**
   * An area object. Its own fields are kept as a value: `scrapeAreaPage`
   * returns the updated area and `main` puts it back in its place in
   * `areas`. Its sectors and problems are objects, updated in place.
   */
  datatype Area = Area(name: string, url: Option<string>, description: Option<string>, coordinate: Option<string>,
                       mapsLink: Option<string>, images: Option<seq<Option<string>>>,
                       sectors: Option<seq<Sector>>, problems: Option<seq<Problem>>)

  /** `{ name, url }` */
  function LinkedAreaObj(name: string, url: Option<string>): Area {
    Area(name, url, None, None, None, None, None, None)
  }

  /** An area as serialized; `fp` holds the problem objects its sectors reach. */
  function AreaJson(a: Area, ghost fp: set<Problem>): (r: AreaRec)
    requires ProblemsWithin(SectorSeq(a.sectors), fp)
    reads SectorSeq(a.sectors), fp, ProblemSeq(a.problems)
  {
    AreaRec(a.name, a.url, a.description, a.coordinate, a.mapsLink, a.images,
            if a.sectors.Some? then Some(SectorsJson(a.sectors.value, fp)) else None,
            ProblemsOpt(a.problems))
  }

  lemma AreaJsonFootprint(a: Area, fp1: set<Problem>, fp2: set<Problem>)
    requires ProblemsWithin(SectorSeq(a.sectors), fp1) && ProblemsWithin(SectorSeq(a.sectors), fp2)
    ensures AreaJson(a, fp1) == AreaJson(a, fp2)
  {
    if a.sectors.Some? {
      SectorsJsonFootprint(a.sectors.value, fp1, fp2);
    }
  }

  /** `sfp` and `fp` hold every sector and problem object `areas` reach. */
  ghost predicate Covers(areas: seq<Area>, sfp: set<Sector>, fp: set<Problem>)
    reads sfp
  {
    forall i :: 0 <= i < |areas| ==>
      (forall s :: s in SectorSeq(areas[i].sectors) ==> s in sfp)
      && ProblemsWithin(SectorSeq(areas[i].sectors), fp)
      && (forall p :: p in ProblemSeq(areas[i].problems) ==> p in fp)
  }

  /** What `JSON.stringify(areas)` serializes. */
  function AreasJson(areas: seq<Area>, ghost sfp: set<Sector>, ghost fp: set<Problem>): (r: seq<AreaRec>)
    requires Covers(areas, sfp, fp)
    reads sfp, fp
    ensures |r| == |areas| && forall i :: 0 <= i < |areas| ==> r[i] == AreaJson(areas[i], fp)
  {
    seq(|areas|, i requires 0 <= i < |areas| && Covers(areas, sfp, fp) reads sfp, fp => AreaJson(areas[i], fp))
  }

  // ------------------------------------------------------------ page pieces

  /** The `a.thumbnail` loop: one entry per thumbnail, in document order. */
  method CollectImages(thumbnails: seq<Option<string>>) returns (images: seq<Option<string>>)
    ensures images == thumbnails
  {
    images := [];
    var i := 0;
    while i < |thumbnails|
      invariant 0 <= i <= |thumbnails|
      invariant images == thumbnails[..i]
    {
      images := images + [thumbnails[i]];
      i := i + 1;
    }
  }

  /** A link-listing loop that pushes a fresh `{ name, url }` per link, the URL made absolute. */
  method CollectProblems(links: seq<Link>, nameOf: string -> string) returns (ps: seq<Problem>)
    ensures |ps| == |links|
    ensures forall i :: 0 <= i < |links| ==> ps[i].Json() == LinkedProblem(nameOf(links[i].text), Absolutize(links[i].href))
    ensures forall p :: p in ps ==> fresh(p)
  {
    ps := [];
    var i := 0;
    while i < |links|
      invariant 0 <= i <= |links| && |ps| == i
      invariant forall j :: 0 <= j < i ==> ps[j].Json() == LinkedProblem(nameOf(links[j].text), Absolutize(links[j].href))
      invariant forall p :: p in ps ==> fresh(p)
    {
      var p := new Problem(nameOf(links[i].text), Absolutize(links[i].href));
      ps := ps + [p];
      i := i + 1;
    }
  }

  /** The `.sectorlinkitem > a` loop: links from index 10 on are passed over; a throwing `new URL` ends it. */
  method CollectSectors(tx: TextRules, links: seq<Link>, base: string, resolve: Resolver) returns (ss: Option<seq<Sector>>)
    ensures ss.None? <==> SectorRecs(tx, KeptSectorLinks(links), base, resolve).None?
    ensures ss.Some? ==> |ss.value| == |SectorRecs(tx, KeptSectorLinks(links), base, resolve).value|
    ensures ss.Some? ==> forall j :: 0 <= j < |ss.value| ==>
      ss.value[j].Json() == SectorRecs(tx, KeptSectorLinks(links), base, resolve).value[j] && ss.value[j].problems.None?
    ensures ss.Some? ==> forall s :: s in ss.value ==> fresh(s)
  {
    ghost var kept := KeptSectorLinks(links);
    ghost var recs := SectorLinkResults(tx, kept, base, resolve);
    var acc: seq<Sector> := [];
    var i := 0;
    while i < |links|
      invariant 0 <= i <= |links|
      invariant |acc| == if i < 10 then i else 10
      invariant forall j :: 0 <= j < |acc| ==> recs[j] == Some(acc[j].Json()) && acc[j].problems.None?
      invariant forall s :: s in acc ==> fresh(s)
    {
      if i < 10 {
        assert kept[i] == links[i];
        var u := SectorUrl(links[i].href, base, resolve);
        if u.None? {
          assert recs[i].None?;
          return None;
        }
        var s := new Sector(LinkName(tx, links[i].text), u.value);
        assert recs[i] == Some(s.Json());
        acc := acc + [s];
      }
      i := i + 1;
    }
    ghost var v := SectorRecs(tx, kept, base, resolve);
    assert v.Some? && |v.value| == |acc|;
    ss := Some(acc);
  }

  /** One `h3` of the area page: the links after it when it is a "Problem" heading, else nothing. */
  method CollectSectionProblems(tx: TextRules, sec: H3Section) returns (more: seq<Problem>)
    ensures ProblemsJson(more) == SectionProblems(tx, sec)
    ensures forall p :: p in more ==> fresh(p)
  {
    more := [];
    if tx.trim(sec.text) == "Problem" {
      more := CollectProblems(sec.nextLinks, t => tx.beforeComma(tx.trim(t)));
    }
  }

  lemma AreaProblemRecsStep(tx: TextRules, secs: seq<H3Section>, k: int)
    requires 0 <= k < |secs|
    ensures AreaProblemRecs(tx, secs[..k + 1]) == AreaProblemRecs(tx, secs[..k]) + SectionProblems(tx, secs[k])
  {
    assert secs[..k + 1][..k] == secs[..k];
  }

  lemma ProblemsJsonConcat(a: seq<Problem>, b: seq<Problem>)
    ensures ProblemsJson(a + b) == ProblemsJson(a) + ProblemsJson(b)
  {
  }

  /** The `h3` loop of the area page: the links after each "Problem" heading, in document order. */
  method CollectAreaProblems(tx: TextRules, secs: seq<H3Section>) returns (ps: seq<Problem>)
    ensures ProblemsJson(ps) == AreaProblemRecs(tx, secs)
    ensures forall p :: p in ps ==> fresh(p)
  {
    ps := [];
    var k := 0;
    while k < |secs|
      invariant 0 <= k <= |secs|
      invariant ProblemsJson(ps) == AreaProblemRecs(tx, secs[..k])
      invariant forall p :: p in ps ==> fresh(p)
    {
      ghost var before := ProblemsJson(ps);
      var more := CollectSectionProblems(tx, secs[k]);
      assert ProblemsJson(ps) == before;
      AreaProblemRecsStep(tx, secs, k);
      ProblemsJsonConcat(ps, more);
      ps := ps + more;
      k := k + 1;
    }
    assert secs[..|secs|] == secs;
  }

  // ---------------------------------------------------------- scrape methods

  /** The assignments of `scrapeProblemPage`, once the title has parsed. */
  method AssignProblemFields(tx: TextRules, problem: Problem, t: Title, page: Page)
    modifies problem
    ensures problem.Json() == ProblemFill(tx, old(problem.Json()), t, page)
  {
    var images := CollectImages(page.thumbnails);
    problem.name := t.name;
    problem.grade := Some(t.grade);
    problem.rating := Some(page.stars);
    problem.description := Some(tx.description(page.directDescriptionText));
    problem.coordinate := tx.afterColon(page.mapsText);
    problem.mapsLink := page.mapsHref;
    problem.landing := tx.afterColon(page.landingText);
    problem.sitStart := tx.afterColon(page.sitStartText);
    problem.images := Some(images);
  }

  /** `scrapeProblemPage`: every field from the page, or none of them. */
  method ScrapeProblemPage(web: Web<Page>, tx: TextRules, problem: Problem) returns (r: Returned<Problem>)
    modifies problem
    ensures problem.Json() == ProblemPageSpec(web, tx, old(problem.Json()))
    ensures r.Value? <==> Get(web, old(problem.url)).Ok? && tx.parseTitle(Get(web, old(problem.url)).page.heading).Some?
    ensures r.Value? ==> r.obj == problem
    ensures !r.Value? ==> r.Undefined?
  {
    var res := Get(web, problem.url);
    if !res.Ok? {
      return Undefined;
    }
    var title := tx.parseTitle(res.page.heading);
    if title.None? {
      return Undefined;
    }
    AssignProblemFields(tx, problem, title.value, res.page);
    return Value(problem);
  }

  /** The field assignments of `scrapeSectorPage`; `url` keeps its value. */
  method SetSector(sector: Sector, name: string, description: Option<string>, coordinate: Option<string>,
                   mapsLink: Option<string>, images: Option<seq<Option<string>>>, problems: Option<seq<Problem>>)
    modifies sector
    ensures sector.problems == problems
    ensures sector.Json() == SectorRec(name, old(sector.url), description, coordinate, mapsLink, images, old(ProblemsOpt(problems)))
  {
    ghost var pj := ProblemsOpt(problems);
    sector.name, sector.description, sector.coordinate := name, description, coordinate;
    sector.mapsLink, sector.images, sector.problems := mapsLink, images, problems;
    assert ProblemsOpt(problems) == pj;
  }

  /** The details of a fetched sector page. */
  method AssignSectorFields(tx: TextRules, sector: Sector, page: Page)
    modifies sector
    ensures sector.Json() == SectorDetails(tx, old(sector.Json()), page)
    ensures sector.problems.Some? && forall p :: p in sector.problems.value ==> fresh(p)
  {
    var images := CollectImages(page.thumbnails);
    var ps := CollectProblems(page.sectorProblemLinks, tx.trim);
    assert ProblemsJson(ps) == SectorProblemRecs(tx, page.sectorProblemLinks);
    SetSector(sector, HeadingName(tx, page.heading, sector.name), Some(tx.description(page.descriptionText)),
              tx.afterColon(page.mapsText), page.mapsHref, Some(images), Some(ps));
  }

  /** `scrapeSectorPage`: the updated sector, `null` on a 404, `undefined` on any other failure. */
  method ScrapeSectorPage(web: Web<Page>, tx: TextRules, sector: Sector) returns (r: Returned<Sector>)
    modifies sector
    ensures SectorPageSpec(web, tx, old(sector.Json())).Scraped? ==> sector.Json() == SectorPageSpec(web, tx, old(sector.Json())).rec
    ensures !SectorPageSpec(web, tx, old(sector.Json())).Scraped? ==> sector.Json() == old(sector.Json())
    ensures r.Value? <==> SectorPageSpec(web, tx, old(sector.Json())).Scraped?
    ensures r.Null? <==> SectorPageSpec(web, tx, old(sector.Json())).Missing?
    ensures r.Value? ==> r.obj == sector && sector.problems.Some? && forall p :: p in sector.problems.value ==> fresh(p)
  {
    var res := Get(web, sector.url);
    match res
    case NotFound => return Null;
    case Error => return Undefined;
    case Ok(page) =>
      AssignSectorFields(tx, sector, page);
      return Value(sector);
  }

  /**
   * `scrapeAreaPage`, on an area object from the main page: the area with
   * its fields assigned, and whether the call resolved to it (`false` where
   * it resolves to `undefined`). When the fetch fails nothing is assigned;
   * when a sector URL cannot be built the fields before `sectors` are.
   */
  method ScrapeAreaPage(web: Web<Page>, resolve: Resolver, tx: TextRules, area: Area) returns (updated: Area, ok: bool)
    requires area.sectors.None? && area.problems.None?
    ensures ProblemsWithin(SectorSeq(updated.sectors), {})
    ensures AreaJson(updated, {}) == AreaPageSpec(web, resolve, tx, AreaJson(area, {}))
    ensures ok <==> updated.sectors.Some?
    ensures updated.problems.Some? <==> updated.sectors.Some?
    ensures forall s :: s in SectorSeq(updated.sectors) ==> fresh(s)
    ensures forall p :: p in ProblemSeq(updated.problems) ==> fresh(p)
  {
    var res := Get(web, area.url);
    if !res.Ok? {
      return area, false;
    }
    var page := res.page;
    updated := area.(name := HeadingName(tx, page.heading, area.name),
                     description := Some(tx.description(page.descriptionText)),
                     coordinate := tx.afterColon(page.mapsText), mapsLink := page.mapsHref);
    var images := CollectImages(page.thumbnails);
    updated := updated.(images := Some(images));
    ghost var recs := SectorRecs(tx, KeptSectorLinks(page.sectorLinks), area.url.value, resolve);
    var ss := CollectSectors(tx, page.sectorLinks, area.url.value, resolve);
    if ss.None? {
      return updated, false;
    }
    updated := updated.(sectors := ss);
    var ps := CollectAreaProblems(tx, page.h3Sections);
    updated := updated.(problems := Some(ps));
    assert SectorsJson(ss.value, {}) == recs.value;
    ok := true;
  }

  // ------------------------------------------------------------- main loop

  /** The `for (let problem of …)` loops: each problem object is scraped in place. */
  method ScrapeProblems(web: Web<Page>, tx: TextRules, ps: seq<Problem>)
    modifies set p | p in ps
    ensures forall j :: 0 <= j < |ps| ==> ps[j].Json() == ProblemPageSpec(web, tx, old(ps[j].Json()))
  {
    ghost var init := ProblemsJson(ps);
    ghost var targets := ProblemsCrawl(web, tx, init);
    var i := 0;
    while i < |ps|
      invariant 0 <= i <= |ps|
      invariant forall j :: 0 <= j < |ps| ==> ps[j].Json() == if ps[j] in ps[..i] then targets[j] else init[j]
    {
      ProblemPageIdempotent(web, tx, init[i]);
      label L:
      var _ := ScrapeProblemPage(web, tx, ps[i]);
      assert ps[i].Json() == targets[i];
      assert ps[..i + 1] == ps[..i] + [ps[i]];
      forall j | 0 <= j < |ps|
        ensures ps[j].Json() == if ps[j] in ps[..i + 1] then targets[j] else init[j]
      {
        if ps[j] == ps[i] {
          assert init[j] == init[i];
        } else {
          assert ps[j].Json() == old@L(ps[j].Json());
        }
      }
      i := i + 1;
    }
    assert ps[..|ps|] == ps;
  }

  /**
   * One sector of the main loop. `sector = await scrapeSectorPage(sector)`
   * only rebinds the loop variable: a skipped sector object is left as it
   * was, in its place in `area.sectors`.
   */
  method CrawlSector(web: Web<Page>, tx: TextRules, sector: Sector)
    modifies sector
    ensures sector.Json() == SectorCrawlSpec(web, tx, old(sector.Json()))
  {
    var r := ScrapeSectorPage(web, tx, sector);
    if !r.Value? {
      return;
    }
    ghost var mid := sector.Json();
    var ps := sector.problems.value;
    assert mid.problems == Some(ProblemsJson(ps));
    ScrapeProblems(web, tx, ps);
    assert ProblemsJson(ps) == ProblemsCrawl(web, tx, mid.problems.value);
    assert sector.Json() == mid.(problems := Some(ProblemsJson(ps)));
  }

  method CrawlSectors(web: Web<Page>, tx: TextRules, ss: seq<Sector>)
    modifies set s | s in ss
    ensures forall j :: 0 <= j < |ss| ==> ss[j].Json() == SectorCrawlSpec(web, tx, old(ss[j].Json()))
  {
    ghost var init := SectorsJson(ss, Reached(ss));
    ghost var targets := SectorsCrawl(web, tx, init);
    var i := 0;
    while i < |ss|
      invariant 0 <= i <= |ss|
      invariant forall j :: 0 <= j < |ss| ==> ss[j].Json() == if ss[j] in ss[..i] then targets[j] else init[j]
    {
      SectorCrawlIdempotent(web, tx, init[i]);
      label L:
      CrawlSector(web, tx, ss[i]);
      assert ss[i].Json() == targets[i];
      assert ss[..i + 1] == ss[..i] + [ss[i]];
      forall j | 0 <= j < |ss|
        ensures ss[j].Json() == if ss[j] in ss[..i + 1] then targets[j] else init[j]
      {
        if ss[j] == ss[i] {
          assert init[j] == init[i];
        } else {
          assert ss[j].Json() == old@L(ss[j].Json());
        }
      }
      i := i + 1;
    }
    assert ss[..|ss|] == ss;
  }

  /**
   * The sector and problem loops of one area iteration, on an area whose
   * lists were just assigned by its scrape (so its sectors have no problems yet).
   */
  method CrawlLists(web: Web<Page>, tx: TextRules, area: Area) returns (ghost fp: set<Problem>)
    requires area.sectors.Some? && area.problems.Some? && ProblemsWithin(SectorSeq(area.sectors), {})
    modifies (set s | s in SectorSeq(area.sectors)), (set p | p in ProblemSeq(area.problems))
    ensures ProblemsWithin(SectorSeq(area.sectors), fp) && forall p :: p in ProblemSeq(area.problems) ==> p in fp
    ensures AreaJson(area, fp) == AreaListsCrawl(web, tx, old(AreaJson(area, {})))
  {
    ghost var b := AreaJson(area, {});
    var ss := area.sectors.value;
    var ps := area.problems.value;
    if |ss| == 0 {
      ScrapeProblems(web, tx, ps);
      assert ProblemsJson(ps) == ProblemsCrawl(web, tx, b.problems.value);
    }
    CrawlSectors(web, tx, ss);
    fp := Reached(ss) + set p | p in ps;
    assert SectorsJson(ss, fp) == SectorsCrawl(web, tx, b.sectors.value);
  }

  /**
   * One iteration of `main`'s area loop on an area fresh from the main page.
   * `false` when `area.sectors.length` throws, which ends the run; `fp`
   * holds the problem objects the area reaches afterwards.
   */
  method CrawlArea(web: Web<Page>, resolve: Resolver, tx: TextRules, area: Area) returns (ok: bool, updated: Area, ghost fp: set<Problem>)
    requires area.sectors.None? && area.problems.None?
    ensures ok <==> AreaCrawlSpec(web, resolve, tx, AreaJson(area, {})).Some?
    ensures ok ==> ProblemsWithin(SectorSeq(updated.sectors), fp) && forall p :: p in ProblemSeq(updated.problems) ==> p in fp
    ensures ok ==> AreaJson(updated, fp) == AreaCrawlSpec(web, resolve, tx, AreaJson(area, {})).value
  {
    updated, ok := ScrapeAreaPage(web, resolve, tx, area);
    fp := {};
    if !ok {
      return;
    }
    fp := CrawlLists(web, tx, updated);
  }

  /** The `#arealist2 a.inlinetable` loop: one `{ name, url }` object per link. */
  method CollectAreas(tx: TextRules, links: seq<Link>) returns (acc: seq<Area>)
    ensures |acc| == |links|
    ensures forall j :: 0 <= j < |links| ==> acc[j] == LinkedAreaObj(LinkName(tx, links[j].text), Absolutize(links[j].href))
  {
    acc := [];
    var i := 0;
    while i < |links|
      invariant 0 <= i <= |links| && |acc| == i
      invariant forall j :: 0 <= j < i ==> acc[j] == LinkedAreaObj(LinkName(tx, links[j].text), Absolutize(links[j].href))
    {
      acc := acc + [LinkedAreaObj(LinkName(tx, links[i].text), Absolutize(links[i].href))];
      i := i + 1;
    }
  }

  /** `scrapeMainPage`: one `{ name, url }` object per area link. */
  method ScrapeMainPage(web: Web<Page>, tx: TextRules) returns (areas: Option<seq<Area>>)
    ensures areas.Some? <==> MainPageSpec(web, tx).Some?
    ensures areas.Some? ==> |areas.value| == |MainPageSpec(web, tx).value|
    ensures areas.Some? ==> forall i :: 0 <= i < |areas.value| ==>
      areas.value[i].sectors.None? && areas.value[i].problems.None? && AreaJson(areas.value[i], {}) == MainPageSpec(web, tx).value[i]
  {
    var res := Get(web, Some(BaseUrl));
    if !res.Ok? {
      return None;
    }
    var acc := CollectAreas(tx, res.page.areaLinks);
    areas := Some(acc);
  }

  /** The areas before `k` are crawled and reach only `sfp` and `fp`; those from `k` on are as the main page made them. */
  ghost predicate CrawledUpTo(web: Web<Page>, resolve: Resolver, tx: TextRules, done: seq<Area>, k: int,
                              init: seq<AreaRec>, sfp: set<Sector>, fp: set<Problem>)
    reads sfp, fp
  {
    0 <= k <= |done| == |init|
    && (forall j, t :: 0 <= j < k && t in SectorSeq(done[j].sectors) ==> t in sfp)
    && (forall j, p :: 0 <= j < k && p in ProblemSeq(done[j].problems) ==> p in fp)
    && (forall j :: 0 <= j < k ==> ProblemsWithin(SectorSeq(done[j].sectors), fp))
    && (forall j :: 0 <= j < k ==> AreaCrawlSpec(web, resolve, tx, init[j]) == Some(AreaJson(done[j], fp)))
    && (forall j :: k <= j < |done| ==> done[j].sectors.None? && done[j].problems.None? && AreaJson(done[j], {}) == init[j])
  }

  /** One iteration of `main`'s area loop: area `k` is crawled, the areas before it are left as they were. */
  method CrawlNext(web: Web<Page>, resolve: Resolver, tx: TextRules, done: seq<Area>, k: int,
                   ghost init: seq<AreaRec>, ghost sfp: set<Sector>, ghost fp: set<Problem>)
    returns (ok: bool, next: seq<Area>, ghost sfp': set<Sector>, ghost fp': set<Problem>)
    requires CrawledUpTo(web, resolve, tx, done, k, init, sfp, fp) && k < |done|
    ensures !ok ==> AreaCrawlSpec(web, resolve, tx, init[k]).None?
    ensures ok ==> CrawledUpTo(web, resolve, tx, next, k + 1, init, sfp', fp')
  {
    var upd;
    ghost var more;
    ok, upd, more := CrawlArea(web, resolve, tx, done[k]);
    if !ok {
      return ok, done, sfp, fp;
    }
    assert CrawledUpTo(web, resolve, tx, done, k, init, sfp, fp);
    CrawledStep(web, resolve, tx, done, k, init, sfp, fp, upd, more);
    next := done[k := upd];
    fp' := fp + more;
    sfp' := sfp + set t | t in SectorSeq(upd.sectors);
  }

  /** Crawling area `k` into `upd`, reaching `more`, extends the crawled prefix by one. */
  lemma CrawledStep(web: Web<Page>, resolve: Resolver, tx: TextRules, done: seq<Area>, k: int,
                    init: seq<AreaRec>, sfp: set<Sector>, fp: set<Problem>, upd: Area, more: set<Problem>)
    requires CrawledUpTo(web, resolve, tx, done, k, init, sfp, fp) && k < |done|
    requires ProblemsWithin(SectorSeq(upd.sectors), more) && forall p :: p in ProblemSeq(upd.problems) ==> p in more
    requires AreaCrawlSpec(web, resolve, tx, init[k]) == Some(AreaJson(upd, more))
    ensures CrawledUpTo(web, resolve, tx, done[k := upd], k + 1, init, sfp + (set t | t in SectorSeq(upd.sectors)), fp + more)
  {
    forall j | 0 <= j < k
      ensures ProblemsWithin(SectorSeq(done[j].sectors), fp + more)
      ensures AreaJson(done[j], fp + more) == AreaJson(done[j], fp)
    {
      AreaJsonFootprint(done[j], fp, fp + more);
    }
    AreaJsonFootprint(upd, more, fp + more);
  }

  /**
   * `main`'s `for (let area of areas)` loop. `false` when some area throws,
   * which ends the run in its catch; otherwise every area has been crawled
   * and `sfp`, `fp` hold the sector and problem objects the areas reach.
   */
  method CrawlAreas(web: Web<Page>, resolve: Resolver, tx: TextRules, areas: seq<Area>, ghost init: seq<AreaRec>)
    returns (ok: bool, done: seq<Area>, ghost sfp: set<Sector>, ghost fp: set<Problem>)
    requires |init| == |areas|
    requires forall j :: 0 <= j < |areas| ==> areas[j].sectors.None? && areas[j].problems.None? && AreaJson(areas[j], {}) == init[j]
    ensures !ok ==> exists j :: 0 <= j < |init| && AreaCrawlSpec(web, resolve, tx, init[j]).None?
    ensures ok ==> |done| == |init| && Covers(done, sfp, fp)
    ensures ok ==> forall j :: 0 <= j < |init| ==> AreaCrawlSpec(web, resolve, tx, init[j]) == Some(AreaJson(done[j], fp))
  {
    done := areas;
    fp := {};
    sfp := {};
    var k := 0;
    while k < |done|
      invariant CrawledUpTo(web, resolve, tx, done, k, init, sfp, fp)
    {
      ok, done, sfp, fp := CrawlNext(web, resolve, tx, done, k, init, sfp, fp);
      if !ok {
        return;
      }
      k := k + 1;
    }
    ok := true;
  }

  /** `main`: the records written to data/output.json, or `None` when the run ends without writing. */
  method Crawl(web: Web<Page>, resolve: Resolver, tx: TextRules) returns (output: Option<seq<AreaRec>>)
    ensures output == CrawlSpec(web, resolve, tx)
  {
    var areas := ScrapeMainPage(web, tx);
    if areas.None? {
      return None;
    }
    ghost var init := MainPageSpec(web, tx).value;
    var ok, done;
    ghost var sfp, fp;
    ok, done, sfp, fp := CrawlAreas(web, resolve, tx, areas.value, init);
    if !ok {
      ghost var j :| 0 <= j < |init| && AreaCrawlSpec(web, resolve, tx, init[j]).None?;
      CrawlAbortsOnAreaFailure(web, resolve, tx, j);
      return None;
    }
    var out := AreasJson(done, sfp, fp);
    CrawlOutputOfAreas(web, resolve, tx, out);
    output := Some(out);
  }
}
