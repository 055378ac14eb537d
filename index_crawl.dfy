/**
 * `scrapeDataAndWriteToFile` of index.js as it runs: area and sector objects
 * are created from the link lists and then updated in place inside the
 * nested loops, each level with its own `try`/`catch`. Every method is
 * proved against the value-level specification of module IndexPage.
 */
module IndexCrawl {
  import opened Maybe
  import opened Fetch
  import opened IndexPage

  class Sector {
    var sectorName: string
    var sectorUrl: Option<string>
    var problems: Option<seq<ProblemEntry>>

    /** `{ sectorName, sectorUrl }` */
    constructor (sectorName: string, sectorUrl: Option<string>)
      ensures Json() == SectorEntry(sectorName, sectorUrl, None)
    {
      this.sectorName, this.sectorUrl, problems := sectorName, sectorUrl, None;
    }

    /** `{ sectorName: "main", problems: [] }` */
    constructor Synthetic()
      ensures Json() == MainSector([])
    {
      sectorName, sectorUrl, problems := "main", None, Some([]);
    }

    function Json(): SectorEntry
      reads this
    {
      SectorEntry(sectorName, sectorUrl, problems)
    }
  }

  function SectorSeq(o: Option<seq<Sector>>): seq<Sector> {
    if o.Some? then o.value else []
  }

  function SectorsJson(ss: seq<Sector>): (r: seq<SectorEntry>)
    reads ss
    ensures |r| == |ss| && forall i :: 0 <= i < |ss| ==> r[i] == ss[i].Json()
  {
    seq(|ss|, i requires 0 <= i < |ss| reads ss => ss[i].Json())
  }

  class Area {
    var name: string
    var url: Option<string>
    var sectors: Option<seq<Sector>>

    /** `{ name, url }` */
    constructor (name: string, url: Option<string>)
      ensures this.sectors.None? && Json() == AreaEntry(name, url, None)
    {
      this.name, this.url, sectors := name, url, None;
    }

    function Json(): AreaEntry
      reads this, SectorSeq(sectors)
    {
      AreaEntry(name, url, if sectors.Some? then Some(SectorsJson(sectors.value)) else None)
    }
  }

  /** The `a.inlinetable` loop: one fresh `{ name, url }` object per link, pushed in order. */
  method CollectAreas(tx: IndexRules, links: seq<Link>) returns (areas: seq<Area>)
    ensures |areas| == |links|
    ensures forall i :: 0 <= i < |areas| ==> fresh(areas[i]) && areas[i].sectors.None? && areas[i].Json() == AreaOfLink(tx, links[i])
    ensures forall i, j :: 0 <= i < j < |areas| ==> areas[i] != areas[j]
  {
    areas := [];
    for i := 0 to |links|
      invariant |areas| == i
      invariant forall j :: 0 <= j < i ==> fresh(areas[j]) && areas[j].sectors.None? && areas[j].Json() == AreaOfLink(tx, links[j])
      invariant forall j, k :: 0 <= j < k < i ==> areas[j] != areas[k]
    {
      var area := new Area(tx.areaName(links[i].text), links[i].href);
      areas := areas + [area];
    }
  }

  /** The `.sectorlinkitem a` loop: one fresh `{ sectorName, sectorUrl }` object per link. */
  method CollectSectors(tx: IndexRules, links: seq<Link>) returns (sectors: seq<Sector>)
    ensures |sectors| == |links|
    ensures forall i :: 0 <= i < |sectors| ==> fresh(sectors[i]) && sectors[i].Json() == SectorOfLink(tx, links[i])
  {
    sectors := [];
    for i := 0 to |links|
      invariant |sectors| == i
      invariant forall j :: 0 <= j < i ==> fresh(sectors[j]) && sectors[j].Json() == SectorOfLink(tx, links[j])
    {
      var sector := new Sector(tx.sectorName(links[i].text), links[i].href);
      sectors := sectors + [sector];
    }
  }

  /** The problem loop of a sector page: one entry per listed link, in order. */
  method CollectListedProblems(tx: IndexRules, links: seq<Link>) returns (problems: seq<ProblemEntry>)
    ensures problems == ListedProblems(tx, links)
  {
    problems := [];
    for i := 0 to |links|
      invariant |problems| == i && forall j :: 0 <= j < i ==> problems[j] == tx.listedProblem(links[j])
    {
      problems := problems + [tx.listedProblem(links[i])];
    }
  }

  /**
   * The problem loop of an area page without sectors, pushing into
   * `mainSector.problems`; `false` when a title without ", " throws, which
   * abandons the main sector.
   */
  method ListMainProblems(tx: IndexRules, mainSector: Sector, links: seq<Link>) returns (ok: bool)
    requires mainSector.Json() == MainSector([])
    modifies mainSector
    ensures ok <==> MainProblems(tx, links).Some?
    ensures ok ==> mainSector.Json() == MainSector(MainProblems(tx, links).value)
  {
    for i := 0 to |links|
      invariant mainSector.Json().sectorName == "main" && mainSector.sectorUrl.None?
      invariant mainSector.problems.Some? && |mainSector.problems.value| == i
      invariant forall j :: 0 <= j < i ==> tx.mainProblem(links[j]) == Some(mainSector.problems.value[j])
    {
      var p := tx.mainProblem(links[i]);
      if p.None? {
        return false;
      }
      mainSector.problems := Some(mainSector.problems.value + [p.value]);
    }
    ok := true;
    assert mainSector.problems.value == MainProblems(tx, links).value;
  }

  /** One sector iteration, inside its own `try`: a failed fetch leaves the sector object as it was. */
  method VisitSector(web: Web<Page>, tx: IndexRules, sector: Sector)
    modifies sector
    ensures sector.Json() == SectorVisit(web, tx, old(sector.Json()))
  {
    match Get(web, sector.sectorUrl)
    case Ok(page) =>
      var problems := CollectListedProblems(tx, page.problemLinks);
      if |problems| > 0 {
        sector.problems := Some(problems);
      }
    case _ =>
  }

  /** The sector loop, over the very objects already stored in `area.sectors`. */
  method VisitSectors(web: Web<Page>, tx: IndexRules, ss: seq<Sector>)
    modifies set s | s in ss
    ensures forall j :: 0 <= j < |ss| ==> ss[j].Json() == SectorVisit(web, tx, old(ss[j].Json()))
  {
    ghost var init := SectorsJson(ss);
    var i := 0;
    while i < |ss|
      invariant 0 <= i <= |ss|
      invariant forall j :: 0 <= j < |ss| ==> ss[j].Json() == if ss[j] in ss[..i] then SectorVisit(web, tx, init[j]) else init[j]
    {
      SectorVisitIdempotent(web, tx, init[i]);
      label L:
      VisitSector(web, tx, ss[i]);
      assert ss[..i + 1] == ss[..i] + [ss[i]];
      forall j | 0 <= j < |ss|
        ensures ss[j].Json() == if ss[j] in ss[..i + 1] then SectorVisit(web, tx, init[j]) else init[j]
      {
        if ss[j] == ss[i] {
          assert init[j] == init[i];
        } else {
          assert ss[j].Json() == old@L(ss[j].Json());
        }
      }
      i := i + 1;
    }
    assert ss[..|ss|] == ss;
  }

  /**
   * One area iteration, inside its own `try`. With sector links the area
   * gets its sector array before the sector loop updates the objects in it;
   * otherwise it gets the "main" sector only when that holds problems.
   */
  method VisitArea(web: Web<Page>, tx: IndexRules, area: Area)
    requires area.sectors.None?
    modifies area
    ensures area.Json() == AreaVisit(web, tx, old(area.Json()))
  {
    var r := Get(web, area.url);
    if !r.Ok? {
      return;
    }
    var sectors := CollectSectors(tx, r.page.sectorLinks);
    if |sectors| > 0 {
      area.sectors := Some(sectors);
      VisitSectors(web, tx, sectors);
      assert SectorsJson(sectors) == SectorsVisit(web, tx, r.page.sectorLinks);
    } else {
      var mainSector := new Sector.Synthetic();
      var ok := ListMainProblems(tx, mainSector, r.page.problemLinks);
      if ok && |mainSector.problems.value| > 0 {
        area.sectors := Some([mainSector]);
        assert SectorsJson([mainSector]) == [mainSector.Json()];
      }
    }
  }

  /** Every sector object the areas hold is in `sfp`. */
  ghost predicate SectorsWithin(areas: seq<Area>, sfp: set<Sector>)
    reads areas
  {
    forall i, s :: 0 <= i < |areas| && s in SectorSeq(areas[i].sectors) ==> s in sfp
  }

  /** All area records as serialised; `sfp` holds the sector objects they reach. */
  function AreasJson(areas: seq<Area>, ghost sfp: set<Sector>): (r: seq<AreaEntry>)
    requires SectorsWithin(areas, sfp)
    reads areas, sfp
    ensures |r| == |areas| && forall i :: 0 <= i < |areas| ==> r[i] == areas[i].Json()
  {
    seq(|areas|, i requires 0 <= i < |areas| && SectorsWithin(areas, sfp) reads areas, sfp => areas[i].Json())
  }

  /**
   * `scrapeDataAndWriteToFile(url, ...)`: the array it serialises, in area
   * link order, or `None` when the start page cannot be fetched and the
   * outer `catch` ends the run without writing.
   */
  method Crawl(web: Web<Page>, tx: IndexRules, url: string) returns (output: Option<seq<AreaEntry>>)
    ensures output == CrawlSpec(web, tx, url)
  {
    match Get(web, Some(url))
    case Ok(home) =>
      var areas := CollectAreas(tx, home.areaLinks);
      ghost var init := seq(|areas|, i requires 0 <= i < |areas| => AreaOfLink(tx, home.areaLinks[i]));
      var k := 0;
      while k < |areas|
        invariant 0 <= k <= |areas|
        invariant forall i, j :: 0 <= i < j < |areas| ==> areas[i] != areas[j]
        invariant forall j :: 0 <= j < |areas| ==> areas[j].Json() == if j < k then AreaVisit(web, tx, init[j]) else init[j]
        invariant forall j :: k <= j < |areas| ==> areas[j].sectors.None?
      {
        VisitArea(web, tx, areas[k]);
        k := k + 1;
      }
      ghost var sfp := set i, s | 0 <= i < |areas| && s in SectorSeq(areas[i].sectors) :: s;
      var out := AreasJson(areas, sfp);
      assert out == CrawlSpec(web, tx, url).value;
      output := Some(out);
    case _ =>
      output := None;
  }
}
