/**
 * `createHtmlFiles` of htmlGenerator.js: one pass over areas, their sectors
 * and the sectors' problems that builds each listing page with `+=` and
 * writes problem pages, then the sector page, then the area page, and the
 * homepage last. `slug` is the file-name expression the script spells out
 * three times (module Sanitize1's `Slug`).
 */
module Site1 {
  import opened Maybe
  import opened JsString
  import opened Records
  import opened FileSystem
  import opened Sanitize1

  // ------------------------------------------------------------------ contents

  /** `<li><a href="./HREF">NAME</a></li>` */
  function LinkItem(href: string, name: string): string {
    "<li><a href=\"./" + href + "\">" + name + "</a></li>"
  }

  function AreaLink(slug: string -> string, a: AreaRec): string {
    LinkItem(slug(a.name) + "/index.html", a.name)
  }

  function SectorLink(slug: string -> string, s: SectorRec): string {
    LinkItem(slug(s.name) + "/index.html", s.name)
  }

  function ProblemLink(slug: string -> string, p: ProblemRec): string {
    LinkItem(slug(p.name) + ".html", p.name)
  }

  function AreaLinks(slug: string -> string, areas: seq<AreaRec>): (r: seq<string>)
    ensures |r| == |areas| && forall i :: 0 <= i < |areas| ==> r[i] == AreaLink(slug, areas[i])
  {
    seq(|areas|, i requires 0 <= i < |areas| => AreaLink(slug, areas[i]))
  }

  function SectorLinks(slug: string -> string, ss: seq<SectorRec>): (r: seq<string>)
    ensures |r| == |ss| && forall i :: 0 <= i < |ss| ==> r[i] == SectorLink(slug, ss[i])
  {
    seq(|ss|, i requires 0 <= i < |ss| => SectorLink(slug, ss[i]))
  }

  function ProblemLinks(slug: string -> string, ps: seq<ProblemRec>): (r: seq<string>)
    ensures |r| == |ps| && forall i :: 0 <= i < |ps| ==> r[i] == ProblemLink(slug, ps[i])
  {
    seq(|ps|, i requires 0 <= i < |ps| => ProblemLink(slug, ps[i]))
  }

  /** A listing page: the opening `<h1>...</h1><ul>`, one item after another, `</ul>`. */
  function Listing(open: string, items: seq<string>): string {
    open + Join(items, "") + "</ul>"
  }

  function HomeContent(slug: string -> string, areas: seq<AreaRec>): string {
    Listing("<h1>Areas</h1><ul>", AreaLinks(slug, areas))
  }

  function AreaContent(slug: string -> string, a: AreaRec, ss: seq<SectorRec>): string {
    Listing("<h1>" + a.name + "</h1><ul>", SectorLinks(slug, ss))
  }

  function SectorContent(slug: string -> string, s: SectorRec, ps: seq<ProblemRec>): string {
    Listing("<h1>" + s.name + "</h1><ul>", ProblemLinks(slug, ps))
  }

  function ProblemContent(p: ProblemRec): string {
    "<h1>" + p.name + "</h1><p>Details about " + p.name + ".</p>"
  }

  // ------------------------------------------------------------------ paths and writes

  function HomePath(outDir: string): string {
    PathJoin(outDir, "index.html")
  }

  function AreaDir(slug: string -> string, outDir: string, a: AreaRec): string {
    PathJoin(outDir, slug(a.name))
  }

  function SectorDir(slug: string -> string, areaDir: string, s: SectorRec): string {
    PathJoin(areaDir, slug(s.name))
  }

  function ProblemPath(slug: string -> string, sectorDir: string, p: ProblemRec): string {
    PathJoin(sectorDir, slug(p.name) + ".html")
  }

  function ProblemWrites(slug: string -> string, sectorDir: string, ps: seq<ProblemRec>): (r: seq<FileWrite>)
    ensures |r| == |ps|
    ensures forall i :: 0 <= i < |ps| ==> r[i] == FileWrite(ProblemPath(slug, sectorDir, ps[i]), ProblemContent(ps[i]))
  {
    seq(|ps|, i requires 0 <= i < |ps| => FileWrite(ProblemPath(slug, sectorDir, ps[i]), ProblemContent(ps[i])))
  }

  /** One sector: its problem pages, then its own page; iterating an absent problem list throws first. */
  function SectorRun(slug: string -> string, areaDir: string, s: SectorRec): Run {
    if s.problems.None? then Run([], false)
    else
      var dir := SectorDir(slug, areaDir, s);
      Run(ProblemWrites(slug, dir, s.problems.value) + [FileWrite(PathJoin(dir, "index.html"), SectorContent(slug, s, s.problems.value))], true)
  }

  /** The sector loop, which stops at the first sector that throws. */
  function SectorsRun(slug: string -> string, areaDir: string, ss: seq<SectorRec>): Run
    decreases |ss|
  {
    if ss == [] then Run([], true)
    else
      var before := SectorsRun(slug, areaDir, ss[..|ss| - 1]);
      if !before.complete then before
      else
        var r := SectorRun(slug, areaDir, ss[|ss| - 1]);
        Run(before.writes + r.writes, r.complete)
  }

  /** One area: its sectors, then its own page; iterating an absent sector list throws first. */
  function AreaRun(slug: string -> string, outDir: string, a: AreaRec): Run {
    if a.sectors.None? then Run([], false)
    else
      var dir := AreaDir(slug, outDir, a);
      var r := SectorsRun(slug, dir, a.sectors.value);
      if !r.complete then r
      else Run(r.writes + [FileWrite(PathJoin(dir, "index.html"), AreaContent(slug, a, a.sectors.value))], true)
  }

  function AreasRun(slug: string -> string, outDir: string, areas: seq<AreaRec>): Run
    decreases |areas|
  {
    if areas == [] then Run([], true)
    else
      var before := AreasRun(slug, outDir, areas[..|areas| - 1]);
      if !before.complete then before
      else
        var r := AreaRun(slug, outDir, areas[|areas| - 1]);
        Run(before.writes + r.writes, r.complete)
  }

  /** `createHtmlFiles(areas, outputDir)`: all areas, then the homepage, unless something threw. */
  function CreateRun(slug: string -> string, outDir: string, areas: seq<AreaRec>): Run {
    var r := AreasRun(slug, outDir, areas);
    if !r.complete then r
    else Run(r.writes + [FileWrite(HomePath(outDir), HomeContent(slug, areas))], true)
  }

  lemma SectorsRunStep(slug: string -> string, areaDir: string, ss: seq<SectorRec>, i: int)
    requires 0 <= i < |ss| && SectorsRun(slug, areaDir, ss[..i]).complete
    ensures SectorsRun(slug, areaDir, ss[..i + 1])
         == Run(SectorsRun(slug, areaDir, ss[..i]).writes + SectorRun(slug, areaDir, ss[i]).writes, SectorRun(slug, areaDir, ss[i]).complete)
  {
    assert ss[..i + 1][..i] == ss[..i];
  }

  lemma AreasRunStep(slug: string -> string, outDir: string, areas: seq<AreaRec>, i: int)
    requires 0 <= i < |areas| && AreasRun(slug, outDir, areas[..i]).complete
    ensures AreasRun(slug, outDir, areas[..i + 1])
         == Run(AreasRun(slug, outDir, areas[..i]).writes + AreaRun(slug, outDir, areas[i]).writes, AreaRun(slug, outDir, areas[i]).complete)
  {
    assert areas[..i + 1][..i] == areas[..i];
  }

  /** Once a sector throws, the later sectors add nothing. */
  lemma {:induction false} SectorsRunStops(slug: string -> string, areaDir: string, ss: seq<SectorRec>, i: int)
    requires 0 <= i < |ss| && !SectorsRun(slug, areaDir, ss[..i + 1]).complete
    ensures SectorsRun(slug, areaDir, ss) == SectorsRun(slug, areaDir, ss[..i + 1])
    decreases |ss|
  {
    if i < |ss| - 1 {
      var init := ss[..|ss| - 1];
      assert init[..i + 1] == ss[..i + 1];
      SectorsRunStops(slug, areaDir, init, i);
    } else {
      assert ss[..i + 1] == ss;
    }
  }

  lemma {:induction false} AreasRunStops(slug: string -> string, outDir: string, areas: seq<AreaRec>, i: int)
    requires 0 <= i < |areas| && !AreasRun(slug, outDir, areas[..i + 1]).complete
    ensures AreasRun(slug, outDir, areas) == AreasRun(slug, outDir, areas[..i + 1])
    decreases |areas|
  {
    if i < |areas| - 1 {
      var init := areas[..|areas| - 1];
      assert init[..i + 1] == areas[..i + 1];
      AreasRunStops(slug, outDir, init, i);
    } else {
      assert areas[..i + 1] == areas;
    }
  }

  // ------------------------------------------------------------------ the script

  /** The body of the sector loop: the problem pages, each linked from `sectorContent`, then the sector page. */
  method CreateSectorPage(slug: string -> string, areaDir: string, sector: SectorRec, files: Files) returns (result: Files, ok: bool)
    ensures ok == SectorRun(slug, areaDir, sector).complete
    ensures result == ApplyWrites(files, SectorRun(slug, areaDir, sector).writes)
  {
    if sector.problems.None? {
      return files, false;
    }
    var ps := sector.problems.value;
    var sectorDir := SectorDir(slug, areaDir, sector);
    var head := "<h1>" + sector.name + "</h1><ul>";
    ghost var links := ProblemLinks(slug, ps);
    ghost var writes := ProblemWrites(slug, sectorDir, ps);
    var sectorContent := head;
    result := files;
    for i := 0 to |ps|
      invariant sectorContent == head + Join(links[..i], "")
      invariant result == ApplyWrites(files, writes[..i])
    {
      JoinPrefixStep(head, links, i);
      sectorContent := sectorContent + ProblemLink(slug, ps[i]);
      ApplyWritesStep(files, writes, i);
      result := result[ProblemPath(slug, sectorDir, ps[i]) := ProblemContent(ps[i])];
    }
    assert links[..|ps|] == links && writes[..|ps|] == writes;
    sectorContent := sectorContent + "</ul>";
    ApplyWritesSnoc(files, writes, FileWrite(PathJoin(sectorDir, "index.html"), sectorContent));
    result := result[PathJoin(sectorDir, "index.html") := sectorContent];
    ok := true;
  }

  /** The body of the area loop: each sector, linked from `areaContent`, then the area page. */
  method CreateAreaPage(slug: string -> string, outDir: string, area: AreaRec, files: Files) returns (result: Files, ok: bool)
    ensures ok == AreaRun(slug, outDir, area).complete
    ensures result == ApplyWrites(files, AreaRun(slug, outDir, area).writes)
  {
    if area.sectors.None? {
      return files, false;
    }
    var ss := area.sectors.value;
    var areaDir := AreaDir(slug, outDir, area);
    var head := "<h1>" + area.name + "</h1><ul>";
    ghost var links := SectorLinks(slug, ss);
    var areaContent := head;
    result := files;
    for i := 0 to |ss|
      invariant SectorsRun(slug, areaDir, ss[..i]).complete
      invariant areaContent == head + Join(links[..i], "")
      invariant result == ApplyWrites(files, SectorsRun(slug, areaDir, ss[..i]).writes)
    {
      JoinPrefixStep(head, links, i);
      areaContent := areaContent + SectorLink(slug, ss[i]);
      SectorsRunStep(slug, areaDir, ss, i);
      ApplyWritesConcat(files, SectorsRun(slug, areaDir, ss[..i]).writes, SectorRun(slug, areaDir, ss[i]).writes);
      var sectorOk;
      result, sectorOk := CreateSectorPage(slug, areaDir, ss[i], result);
      if !sectorOk {
        SectorsRunStops(slug, areaDir, ss, i);
        return result, false;
      }
    }
    assert links[..|ss|] == links && ss[..|ss|] == ss;
    areaContent := areaContent + "</ul>";
    ApplyWritesSnoc(files, SectorsRun(slug, areaDir, ss).writes, FileWrite(PathJoin(areaDir, "index.html"), areaContent));
    result := result[PathJoin(areaDir, "index.html") := areaContent];
    ok := true;
  }

  /**
   * `createHtmlFiles(areas, outputDir)` applied to the files already there;
   * `ok` is false when it throws, which the caller's `catch` only logs.
   */
  method CreateHtmlFiles(slug: string -> string, areas: seq<AreaRec>, outDir: string, files: Files) returns (result: Files, ok: bool)
    ensures ok == CreateRun(slug, outDir, areas).complete
    ensures result == ApplyWrites(files, CreateRun(slug, outDir, areas).writes)
  {
    var head := "<h1>Areas</h1><ul>";
    ghost var links := AreaLinks(slug, areas);
    var homepageContent := head;
    result := files;
    for i := 0 to |areas|
      invariant AreasRun(slug, outDir, areas[..i]).complete
      invariant homepageContent == head + Join(links[..i], "")
      invariant result == ApplyWrites(files, AreasRun(slug, outDir, areas[..i]).writes)
    {
      JoinPrefixStep(head, links, i);
      homepageContent := homepageContent + AreaLink(slug, areas[i]);
      AreasRunStep(slug, outDir, areas, i);
      ApplyWritesConcat(files, AreasRun(slug, outDir, areas[..i]).writes, AreaRun(slug, outDir, areas[i]).writes);
      var areaOk;
      result, areaOk := CreateAreaPage(slug, outDir, areas[i], result);
      if !areaOk {
        AreasRunStops(slug, outDir, areas, i);
        return result, false;
      }
    }
    assert links[..|areas|] == links && areas[..|areas|] == areas;
    homepageContent := homepageContent + "</ul>";
    ApplyWritesSnoc(files, AreasRun(slug, outDir, areas).writes, FileWrite(HomePath(outDir), homepageContent));
    result := result[HomePath(outDir) := homepageContent];
    ok := true;
  }

  /** `path.join("./site", x)` normalises to `site/x`. */
  const OutputDir: string := "site"

  /** `generateHtmlFromJson` on the parsed data: the `catch` only logs, so the partial writes remain. */
  method GenerateHtmlFromJson(areas: seq<AreaRec>, files: Files) returns (result: Files)
    ensures result == ApplyWrites(files, CreateRun(Slug, OutputDir, areas).writes)
  {
    var ok;
    result, ok := CreateHtmlFiles(Slug, areas, OutputDir, files);
  }

  // ------------------------------------------------------------------ properties

  /** An area the script can walk: it has a sector list, and every sector a problem list. */
  predicate Traversable(a: AreaRec) {
    a.sectors.Some? && forall j :: 0 <= j < |a.sectors.value| ==> a.sectors.value[j].problems.Some?
  }

  lemma {:induction false} SectorsRunComplete(slug: string -> string, areaDir: string, ss: seq<SectorRec>)
    ensures SectorsRun(slug, areaDir, ss).complete <==> forall j :: 0 <= j < |ss| ==> ss[j].problems.Some?
    decreases |ss|
  {
    if ss != [] {
      var init := ss[..|ss| - 1];
      SectorsRunComplete(slug, areaDir, init);
      assert forall j :: 0 <= j < |init| ==> init[j] == ss[j];
    }
  }

  lemma {:induction false} AreasRunComplete(slug: string -> string, outDir: string, areas: seq<AreaRec>)
    ensures AreasRun(slug, outDir, areas).complete <==> forall i :: 0 <= i < |areas| ==> Traversable(areas[i])
    decreases |areas|
  {
    if areas != [] {
      var init := areas[..|areas| - 1];
      AreasRunComplete(slug, outDir, init);
      assert forall i :: 0 <= i < |init| ==> init[i] == areas[i];
      var a := areas[|areas| - 1];
      if a.sectors.Some? {
        SectorsRunComplete(slug, AreaDir(slug, outDir, a), a.sectors.value);
      }
    }
  }

  /**
   * The script gets to its end, writing the homepage, exactly when every
   * area has sectors and every sector has problems.
   */
  lemma CreateComplete(slug: string -> string, outDir: string, areas: seq<AreaRec>)
    ensures CreateRun(slug, outDir, areas).complete <==> forall i :: 0 <= i < |areas| ==> Traversable(areas[i])
  {
    AreasRunComplete(slug, outDir, areas);
  }

  /** Each listing page starts with its heading and shows its links one after another in input order. */
  lemma ListingInOrder(open: string, items: seq<string>)
    ensures StartsWith(Listing(open, items), open)
    ensures InOrder(Listing(open, items), items)
  {
    JoinInOrder(items, "");
    InOrderInfix(open, Join(items, ""), "</ul>", items);
    assert Listing(open, items)[..|open|] == open;
  }

  /** A link item points at `./HREF`. */
  lemma LinkItemHref(href: string, name: string)
    ensures Contains(LinkItem(href, name), "./" + href)
  {
    assert LinkItem(href, name) == "<li><a href=\"" + ("./" + href) + ("\">" + name + "</a></li>");
    ContainsInfix("<li><a href=\"", "./" + href, "\">" + name + "</a></li>");
  }

  /** The homepage links every area, in input order, to `./TOKEN/index.html`. */
  lemma HomeListsAreas(slug: string -> string, areas: seq<AreaRec>)
    ensures StartsWith(HomeContent(slug, areas), "<h1>Areas</h1><ul>")
    ensures InOrder(HomeContent(slug, areas), AreaLinks(slug, areas))
    ensures forall i :: 0 <= i < |areas| ==> Contains(AreaLinks(slug, areas)[i], "./" + slug(areas[i].name) + "/index.html")
  {
    ListingInOrder("<h1>Areas</h1><ul>", AreaLinks(slug, areas));
    forall i | 0 <= i < |areas|
      ensures Contains(AreaLinks(slug, areas)[i], "./" + slug(areas[i].name) + "/index.html")
    {
      LinkItemHref(slug(areas[i].name) + "/index.html", areas[i].name);
      assert "./" + (slug(areas[i].name) + "/index.html") == "./" + slug(areas[i].name) + "/index.html";
    }
  }

  /**
   * The sector page is written after the sector's problem pages, so it is
   * what its path holds even when a problem's token is "index".
   */
  lemma SectorPageLast(slug: string -> string, areaDir: string, s: SectorRec, files: Files)
    requires s.problems.Some?
    ensures var f, p := ApplyWrites(files, SectorRun(slug, areaDir, s).writes), PathJoin(SectorDir(slug, areaDir, s), "index.html");
      p in f && f[p] == SectorContent(slug, s, s.problems.value)
  {
    var dir := SectorDir(slug, areaDir, s);
    ApplyWritesSnoc(files, ProblemWrites(slug, dir, s.problems.value), FileWrite(PathJoin(dir, "index.html"), SectorContent(slug, s, s.problems.value)));
  }

  /** The area page is written after everything below it, so a sector whose token is empty cannot replace it. */
  lemma AreaPageLast(slug: string -> string, outDir: string, a: AreaRec, files: Files)
    requires Traversable(a)
    ensures AreaRun(slug, outDir, a).complete
    ensures var f, p := ApplyWrites(files, AreaRun(slug, outDir, a).writes), PathJoin(AreaDir(slug, outDir, a), "index.html");
      p in f && f[p] == AreaContent(slug, a, a.sectors.value)
  {
    var dir := AreaDir(slug, outDir, a);
    SectorsRunComplete(slug, dir, a.sectors.value);
    ApplyWritesSnoc(files, SectorsRun(slug, dir, a.sectors.value).writes, FileWrite(PathJoin(dir, "index.html"), AreaContent(slug, a, a.sectors.value)));
  }

  /** When the script completes, the homepage is its last write and what the root index holds. */
  lemma HomepageLast(slug: string -> string, outDir: string, areas: seq<AreaRec>, files: Files)
    requires CreateRun(slug, outDir, areas).complete
    ensures var ws := CreateRun(slug, outDir, areas).writes; |ws| > 0 && ws[|ws| - 1] == FileWrite(HomePath(outDir), HomeContent(slug, areas))
    ensures var f := ApplyWrites(files, CreateRun(slug, outDir, areas).writes);
      HomePath(outDir) in f && f[HomePath(outDir)] == HomeContent(slug, areas)
  {
    ApplyWritesSnoc(files, AreasRun(slug, outDir, areas).writes, FileWrite(HomePath(outDir), HomeContent(slug, areas)));
  }

  /** Whatever one sector writes is among the writes of a completed sector loop. */
  lemma {:induction false} SectorsRunIncludes(slug: string -> string, areaDir: string, ss: seq<SectorRec>, j: int)
    requires 0 <= j < |ss| && SectorsRun(slug, areaDir, ss).complete
    ensures forall w :: w in SectorRun(slug, areaDir, ss[j]).writes ==> w in SectorsRun(slug, areaDir, ss).writes
    decreases |ss|
  {
    var init := ss[..|ss| - 1];
    if j < |ss| - 1 {
      assert init[j] == ss[j];
      SectorsRunIncludes(slug, areaDir, init, j);
    }
  }

  lemma {:induction false} AreasRunIncludes(slug: string -> string, outDir: string, areas: seq<AreaRec>, i: int)
    requires 0 <= i < |areas| && AreasRun(slug, outDir, areas).complete
    ensures forall w :: w in AreaRun(slug, outDir, areas[i]).writes ==> w in AreasRun(slug, outDir, areas).writes
    decreases |areas|
  {
    var init := areas[..|areas| - 1];
    if i < |areas| - 1 {
      assert init[i] == areas[i];
      AreasRunIncludes(slug, outDir, init, i);
    }
  }

  /**
   * In a completed run, every problem of every sector gets the page
   * `<h1>N</h1><p>Details about N.</p>` at `outDir/areaTok/sectorTok/problemTok.html`.
   */
  lemma ProblemPagePlaced(slug: string -> string, outDir: string, areas: seq<AreaRec>, i: int, j: int, k: int)
    requires CreateRun(slug, outDir, areas).complete
    requires 0 <= i < |areas| && areas[i].sectors.Some? && 0 <= j < |areas[i].sectors.value|
    requires areas[i].sectors.value[j].problems.Some? && 0 <= k < |areas[i].sectors.value[j].problems.value|
    ensures var a := areas[i]; var s := a.sectors.value[j]; var p := s.problems.value[k];
      FileWrite(PathJoin(PathJoin(PathJoin(outDir, slug(a.name)), slug(s.name)), slug(p.name) + ".html"), ProblemContent(p))
        in CreateRun(slug, outDir, areas).writes
  {
    var a := areas[i];
    var s := a.sectors.value[j];
    var p := s.problems.value[k];
    var dir := AreaDir(slug, outDir, a);
    var w := FileWrite(ProblemPath(slug, SectorDir(slug, dir, s), p), ProblemContent(p));
    assert w in SectorRun(slug, dir, s).writes by {
      assert ProblemWrites(slug, SectorDir(slug, dir, s), s.problems.value)[k] == w;
    }
    AreasRunComplete(slug, outDir, areas);
    assert Traversable(a);
    SectorsRunComplete(slug, dir, a.sectors.value);
    SectorsRunIncludes(slug, dir, a.sectors.value, j);
    assert w in AreaRun(slug, outDir, a).writes;
    AreasRunIncludes(slug, outDir, areas, i);
  }

  /** Problems attached directly to an area play no part: the run depends only on names and sectors. */
  lemma {:induction false} AreaProblemsIgnored(slug: string -> string, outDir: string, areas: seq<AreaRec>, other: seq<AreaRec>)
    requires |areas| == |other|
    requires forall i :: 0 <= i < |areas| ==> areas[i].name == other[i].name && areas[i].sectors == other[i].sectors
    ensures CreateRun(slug, outDir, areas) == CreateRun(slug, outDir, other)
  {
    AreasRunIgnores(slug, outDir, areas, other);
    assert AreaLinks(slug, areas) == AreaLinks(slug, other);
  }

  lemma {:induction false} AreasRunIgnores(slug: string -> string, outDir: string, areas: seq<AreaRec>, other: seq<AreaRec>)
    requires |areas| == |other|
    requires forall i :: 0 <= i < |areas| ==> areas[i].name == other[i].name && areas[i].sectors == other[i].sectors
    ensures AreasRun(slug, outDir, areas) == AreasRun(slug, outDir, other)
    decreases |areas|
  {
    if areas != [] {
      AreasRunIgnores(slug, outDir, areas[..|areas| - 1], other[..|other| - 1]);
      var a, b := areas[|areas| - 1], other[|other| - 1];
      assert AreaDir(slug, outDir, a) == AreaDir(slug, outDir, b);
      assert a.sectors.Some? ==> AreaContent(slug, a, a.sectors.value) == AreaContent(slug, b, b.sectors.value);
    }
  }
}
