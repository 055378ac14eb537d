/**
 * The static-site generator of htmlGenerator2.js: page templates as string
 * builders over the records of data/output.json, the sequence of file
 * writes they produce, and the generator that performs them on the output
 * directory.
 */
module Site2 {
  import opened Maybe
  import opened JsString
  import opened Records
  import opened FileSystem
  import opened Sanitize2

  // ------------------------------------------------------------------ values in templates

  /** `${x}` for a field that may be undefined. */
  function Text(x: Option<string>): string {
    if x.Some? then x.value else "undefined"
  }

  /** `${img}` for an image entry, which is `null` when the thumbnail had no href. */
  function ImageText(img: Option<string>): string {
    if img.Some? then img.value else "null"
  }

  const NoDescription: string := "No description available."

  /** `description || "No description available."`: both an absent and an empty description are falsy. */
  function DescriptionOrDefault(d: Option<string>): (r: string)
    ensures d.None? || d == Some("") ==> r == NoDescription
    ensures d.Some? && d.value != "" ==> r == d.value
  {
    if d.Some? && d.value != "" then d.value else NoDescription
  }

  /** `"★".repeat(rating)`; an undefined rating repeats zero times. */
  function Stars(rating: Option<nat>): (r: string)
    ensures |r| == (if rating.Some? then rating.value else 0)
    ensures forall i :: 0 <= i < |r| ==> r[i] == '\U{2605}'
  {
    Repeat('\U{2605}', if rating.Some? then rating.value else 0)
  }

  function BackButton(backPath: string): string {
    "<a href=\"" + backPath + "\" style=\"display:block; margin-bottom:10px;\">\U{2B05} Back</a>"
  }

  const BackToParent: string := "../index.html"

  // ------------------------------------------------------------------ list items and sections

  /** `<li><a href="HREF">CAPTION</a></li>` */
  function ListItem(href: string, caption: string): string {
    Fill(["<li><a href=\"", "\">", "</a></li>"], [href, caption])
  }

  function AreaItem(a: AreaRec): string {
    ListItem(SanitizeFilename(a.name) + "/index.html", a.name)
  }

  function SectorItem(s: SectorRec): string {
    ListItem(SanitizeFilename(s.name) + "/index.html", s.name)
  }

  function ProblemItem(p: ProblemRec): string {
    ListItem(SanitizeFilename(p.name) + ".html", p.name + " (" + Text(p.grade) + ")")
  }

  function ImageItem(img: Option<string>): string {
    "<img class=\"image\" src=\"" + ImageText(img) + "\">"
  }

  function AreaItems(areas: seq<AreaRec>): (r: seq<string>)
    ensures |r| == |areas| && forall i :: 0 <= i < |areas| ==> r[i] == AreaItem(areas[i])
  {
    seq(|areas|, i requires 0 <= i < |areas| => AreaItem(areas[i]))
  }

  function SectorItems(ss: seq<SectorRec>): (r: seq<string>)
    ensures |r| == |ss| && forall i :: 0 <= i < |ss| ==> r[i] == SectorItem(ss[i])
  {
    seq(|ss|, i requires 0 <= i < |ss| => SectorItem(ss[i]))
  }

  /** The items of a problem list; an absent list has none. */
  function ProblemItems(ps: Option<seq<ProblemRec>>): (r: seq<string>)
    ensures ps.None? ==> r == []
    ensures ps.Some? ==> |r| == |ps.value| && forall i :: 0 <= i < |ps.value| ==> r[i] == ProblemItem(ps.value[i])
  {
    if ps.None? then [] else seq(|ps.value|, i requires 0 <= i < |ps.value| => ProblemItem(ps.value[i]))
  }

  function ImageItems(imgs: Option<seq<Option<string>>>): (r: seq<string>)
    ensures imgs.None? ==> r == []
    ensures imgs.Some? ==> |r| == |imgs.value| && forall i :: 0 <= i < |imgs.value| ==> r[i] == ImageItem(imgs.value[i])
  {
    if imgs.None? then [] else seq(|imgs.value|, i requires 0 <= i < |imgs.value| => ImageItem(imgs.value[i]))
  }

  /**
   * `items.length > 0 ? open + items.join("\n") + close : ""`: a section is
   * empty exactly when its list is, and otherwise opens with its heading and
   * shows every item in list order.
   */
  function Section(open: string, items: seq<string>, close: string): (r: string)
    requires open != ""
    ensures r == "" <==> |items| == 0
    ensures |items| > 0 ==> StartsWith(r, open) && InOrder(r, items)
  {
    if |items| == 0 then ""
    else
      var r := open + Join(items, "\n") + close;
      JoinInOrder(items, "\n");
      InOrderInfix(open, Join(items, "\n"), close, items);
      assert r[..|open|] == open;
      r
  }

  function SectorsSection(ss: seq<SectorRec>): string {
    Section("<h2>Sectors</h2><ul>", SectorItems(ss), "</ul>")
  }

  function ProblemsSection(ps: Option<seq<ProblemRec>>): string {
    Section("<h2>Problems</h2><ul>", ProblemItems(ps), "</ul>")
  }

  function ImagesSection(imgs: Option<seq<Option<string>>>): string {
    Section("<h2>Images</h2><section class=\"gallery\">", ImageItems(imgs), "</section>")
  }

  // ------------------------------------------------------------------ templates

  /*
   * Each template is its literal text with the substituted values in
   * between: `Fill(text, values)` is `text[0] + values[0] + text[1] + ...`.
   */

  const IndexText: seq<string> := [
    "\n    <html>\n      <head>\n      <title>Climbing Areas</title>\n      <link rel=\"stylesheet\" href=\"styles.css\">\n      </head>\n      <body>\n        <h1>Climbing Areas</h1>\n        <ul>\n          ",
    "\n        </ul>\n      </body>\n    </html>" ]

  function IndexTemplate(areas: seq<AreaRec>): string {
    Fill(IndexText, [Join(AreaItems(areas), "\n")])
  }

  /** An area page can be rendered only when its three lists are present; otherwise `.length` throws. */
  predicate Renderable(a: AreaRec) {
    a.sectors.Some? && a.problems.Some? && a.images.Some?
  }

  const AreaText: seq<string> := [
    "\n    <html>\n      <head><title>",
    "</title>\n      <link rel=\"stylesheet\" href=\"../styles.css\">\n      </head>\n      <body>\n        ",
    "\n        ", "\n        ", "\n        <p><a href=\"",
    "\" target=\"_blank\">View on Google Maps</a></p>\n        \n        ",
    "\n        \n        ", "\n\n                \n        ",
    "\n      </body>\n    </html>" ]

  /** The values substituted into an area page. */
  function AreaValues(a: AreaRec): seq<string> {
    [ a.name, BackButton(BackToParent), "<h1>" + a.name + "</h1>", "<p>" + DescriptionOrDefault(a.description) + "</p>", Text(a.mapsLink),
      SectorsSection(if a.sectors.Some? then a.sectors.value else []), ProblemsSection(a.problems), ImagesSection(a.images) ]
  }

  /** Defined on every area; the generator applies it only to renderable ones. */
  function AreaTemplate(a: AreaRec): string {
    Fill(AreaText, AreaValues(a))
  }

  const SectorText: seq<string> := [
    "\n    <html>\n      <head>\n        <title>",
    "</title>\n        <link rel=\"stylesheet\" href=\"../../styles.css\">\n        </head>\n      <body>\n        ",
    "\n        ", "\n        ", "\n        \n        ",
    "\n                \n        ",
    "\n      </body>\n    </html>" ]

  function SectorValues(s: SectorRec): seq<string> {
    [ s.name, BackButton(BackToParent), "<h1>" + s.name + "</h1>", "<p>" + DescriptionOrDefault(s.description) + "</p>",
      ProblemsSection(s.problems), ImagesSection(s.images) ]
  }

  function SectorTemplate(s: SectorRec): string {
    Fill(SectorText, SectorValues(s))
  }

  const ProblemText: seq<string> := [
    "\n    <html>\n      <head><title>",
    "</title></head>\n      <link rel=\"stylesheet\" href=\"../../styles.css\">\n      <link rel=\"stylesheet\" href=\"../styles.css\">\n      <body>\n        ",
    "\n        ", "\n        ", "\n        ", "\n        <p><a href=\"",
    "\" target=\"_blank\">View on Google Maps</a></p>\n        \n        ",
    "\n      </body>\n    </html>" ]

  function ProblemValues(backPath: string, p: ProblemRec): seq<string> {
    [ p.name, BackButton(backPath), "<h1>" + p.name + " (" + Text(p.grade) + ")</h1>",
      "<p class=\"description\">" + DescriptionOrDefault(p.description) + "</p>",
      "<p class=\"rating\">Rating: " + Stars(p.rating) + "</p>", Text(p.mapsLink), ImagesSection(p.images) ]
  }

  function ProblemTemplate(backPath: string, p: ProblemRec): string {
    Fill(ProblemText, ProblemValues(backPath, p))
  }

  /** The file-name sanitizer and the four page builders the generator applies. */
  datatype SiteRules = SiteRules(
    token: string -> string,
    index: seq<AreaRec> -> string,
    area: AreaRec -> string,
    sector: SectorRec -> string,
    problem: (string, ProblemRec) -> string)

  /** The sanitizer and templates of htmlGenerator2.js. */
  const Standard: SiteRules := SiteRules(SanitizeFilename, IndexTemplate, AreaTemplate, SectorTemplate, ProblemTemplate)

  // ------------------------------------------------------------------ paths and writes

  function IndexPath(outDir: string): string {
    PathJoin(outDir, "index.html")
  }

  function AreaFolder(rules: SiteRules, outDir: string, a: AreaRec): string {
    PathJoin(outDir, rules.token(a.name))
  }

  function SectorFolder(rules: SiteRules, areaFolder: string, s: SectorRec): string {
    PathJoin(areaFolder, rules.token(s.name))
  }

  function ProblemFile(rules: SiteRules, parentFolder: string, p: ProblemRec): string {
    PathJoin(parentFolder, rules.token(p.name) + ".html")
  }

  /** `generateProblemPage` for each problem, in order. */
  function ProblemWrites(rules: SiteRules, parentFolder: string, ps: seq<ProblemRec>, backPath: string): (r: seq<FileWrite>)
    ensures |r| == |ps|
    ensures forall i :: 0 <= i < |ps| ==> r[i] == FileWrite(ProblemFile(rules, parentFolder, ps[i]), rules.problem(backPath, ps[i]))
  {
    seq(|ps|, i requires 0 <= i < |ps| => FileWrite(ProblemFile(rules, parentFolder, ps[i]), rules.problem(backPath, ps[i])))
  }

  lemma ProblemWritesPrefix(rules: SiteRules, parentFolder: string, ps: seq<ProblemRec>, backPath: string, i: int)
    requires 0 <= i < |ps|
    ensures ProblemWrites(rules, parentFolder, ps[..i + 1], backPath)
         == ProblemWrites(rules, parentFolder, ps[..i], backPath) + [FileWrite(ProblemFile(rules, parentFolder, ps[i]), rules.problem(backPath, ps[i]))]
  {
  }

  /** `generateSectorPage`: the sector page, then its problems' pages. */
  function SectorWrites(rules: SiteRules, areaFolder: string, s: SectorRec): seq<FileWrite> {
    var folder := SectorFolder(rules, areaFolder, s);
    [FileWrite(PathJoin(folder, "index.html"), rules.sector(s))]
      + (if s.problems.Some? then ProblemWrites(rules, folder, s.problems.value, BackToParent) else [])
  }

  function SectorsWrites(rules: SiteRules, areaFolder: string, ss: seq<SectorRec>): seq<FileWrite>
    decreases |ss|
  {
    if ss == [] then []
    else SectorsWrites(rules, areaFolder, ss[..|ss| - 1]) + SectorWrites(rules, areaFolder, ss[|ss| - 1])
  }

  /** One iteration of `generateAreaPages`: the area page, its sectors, then its direct problems. */
  function AreaWrites(rules: SiteRules, outDir: string, a: AreaRec): seq<FileWrite>
    requires Renderable(a)
  {
    var folder := AreaFolder(rules, outDir, a);
    [FileWrite(PathJoin(folder, "index.html"), rules.area(a))]
      + SectorsWrites(rules, folder, a.sectors.value)
      + ProblemWrites(rules, folder, a.problems.value, BackToParent)
  }

  /** `generateAreaPages`: stops, with what it wrote so far, at the first area it cannot render. */
  function AreasRun(rules: SiteRules, outDir: string, areas: seq<AreaRec>): Run
    decreases |areas|
  {
    if areas == [] then Run([], true)
    else
      var before := AreasRun(rules, outDir, areas[..|areas| - 1]);
      var a := areas[|areas| - 1];
      if !before.complete then before
      else if !Renderable(a) then Run(before.writes, false)
      else Run(before.writes + AreaWrites(rules, outDir, a), true)
  }

  /** The whole script: the style sheet when the module loads, then `generateStaticSite`. */
  function SiteRun(rules: SiteRules, outDir: string, css: string, data: seq<AreaRec>): Run {
    var areas := AreasRun(rules, outDir, data);
    Run([FileWrite(PathJoin(outDir, "styles.css"), css), FileWrite(IndexPath(outDir), rules.index(data))] + areas.writes,
        areas.complete)
  }

  /** Once an area cannot be rendered, the later ones add nothing. */
  lemma {:induction false} AreasRunStops(rules: SiteRules, outDir: string, areas: seq<AreaRec>, i: int)
    requires 0 <= i < |areas| && AreasRun(rules, outDir, areas[..i]).complete && !Renderable(areas[i])
    ensures AreasRun(rules, outDir, areas) == Run(AreasRun(rules, outDir, areas[..i]).writes, false)
    decreases |areas|
  {
    if i < |areas| - 1 {
      var init := areas[..|areas| - 1];
      assert init[..i] == areas[..i] && init[i] == areas[i];
      AreasRunStops(rules, outDir, init, i);
    } else {
      assert areas[..|areas| - 1] == areas[..i];
    }
  }

  // ------------------------------------------------------------------ the generator

  /** The module state of htmlGenerator2.js: the output directory, the parsed data, and the files. */
  class Generator {
    const rules: SiteRules
    const outDir: string
    const data: seq<AreaRec>
    var files: Files

    /** Loading the module: `styles.css` is written before anything else. */
    constructor (rules: SiteRules, outDir: string, data: seq<AreaRec>, css: string, files: Files)
      ensures this.rules == rules && this.outDir == outDir && this.data == data
      ensures this.files == files[PathJoin(outDir, "styles.css") := css]
    {
      this.rules, this.outDir, this.data := rules, outDir, data;
      this.files := files[PathJoin(outDir, "styles.css") := css];
    }

    /** `generatePage`: creating the directory always succeeds, then the file is (over)written. */
    method GeneratePage(filePath: string, content: string)
      modifies this
      ensures files == old(files)[filePath := content]
    {
      files := files[filePath := content];
    }

    method GenerateIndex()
      modifies this
      ensures files == old(files)[IndexPath(outDir) := rules.index(data)]
    {
      GeneratePage(IndexPath(outDir), rules.index(data));
    }

    method GenerateProblemPage(parentFolder: string, problem: ProblemRec, backPath: string)
      modifies this
      ensures files == old(files)[ProblemFile(rules, parentFolder, problem) := rules.problem(backPath, problem)]
    {
      GeneratePage(ProblemFile(rules, parentFolder, problem), rules.problem(backPath, problem));
    }

    /** The `forEach` over a problem list. */
    method GenerateProblemPages(parentFolder: string, ps: seq<ProblemRec>, backPath: string)
      modifies this
      ensures files == ApplyWrites(old(files), ProblemWrites(rules, parentFolder, ps, backPath))
    {
      ghost var start := files;
      for i := 0 to |ps|
        invariant files == ApplyWrites(start, ProblemWrites(rules, parentFolder, ps[..i], backPath))
      {
        ghost var w := FileWrite(ProblemFile(rules, parentFolder, ps[i]), rules.problem(backPath, ps[i]));
        ProblemWritesPrefix(rules, parentFolder, ps, backPath, i);
        ApplyWritesSnoc(start, ProblemWrites(rules, parentFolder, ps[..i], backPath), w);
        GenerateProblemPage(parentFolder, ps[i], backPath);
      }
      assert ps[..|ps|] == ps;
    }

    method GenerateSectorPage(areaFolder: string, sector: SectorRec)
      modifies this
      ensures files == ApplyWrites(old(files), SectorWrites(rules, areaFolder, sector))
    {
      var sectorFolder := SectorFolder(rules, areaFolder, sector);
      ghost var w := FileWrite(PathJoin(sectorFolder, "index.html"), rules.sector(sector));
      ghost var start := files;
      GeneratePage(PathJoin(sectorFolder, "index.html"), rules.sector(sector));
      assert files == ApplyWrites(start, [w]);
      ghost var mid := files;
      if sector.problems.Some? {
        GenerateProblemPages(sectorFolder, sector.problems.value, BackToParent);
        ApplyWritesConcat(start, [w], ProblemWrites(rules, sectorFolder, sector.problems.value, BackToParent));
      } else {
        assert SectorWrites(rules, areaFolder, sector) == [w];
      }
    }

    /** The `forEach` over an area's sectors. */
    method GenerateSectorPages(areaFolder: string, ss: seq<SectorRec>)
      modifies this
      ensures files == ApplyWrites(old(files), SectorsWrites(rules, areaFolder, ss))
    {
      ghost var start := files;
      for i := 0 to |ss|
        invariant files == ApplyWrites(start, SectorsWrites(rules, areaFolder, ss[..i]))
      {
        assert ss[..i + 1][..i] == ss[..i];
        ApplyWritesConcat(start, SectorsWrites(rules, areaFolder, ss[..i]), SectorWrites(rules, areaFolder, ss[i]));
        GenerateSectorPage(areaFolder, ss[i]);
      }
      assert ss[..|ss|] == ss;
    }

    /** The body of the `data.forEach` in `generateAreaPages`, for an area it can render. */
    method GenerateAreaPage(area: AreaRec)
      requires Renderable(area)
      modifies this
      ensures files == ApplyWrites(old(files), AreaWrites(rules, outDir, area))
    {
      var areaFolder := AreaFolder(rules, outDir, area);
      ghost var start := files;
      ghost var w := FileWrite(PathJoin(areaFolder, "index.html"), rules.area(area));
      GeneratePage(PathJoin(areaFolder, "index.html"), rules.area(area));
      assert files == ApplyWrites(start, [w]);
      GenerateSectorPages(areaFolder, area.sectors.value);
      ApplyWritesConcat(start, [w], SectorsWrites(rules, areaFolder, area.sectors.value));
      GenerateProblemPages(areaFolder, area.problems.value, BackToParent);
      ApplyWritesConcat(start, [w] + SectorsWrites(rules, areaFolder, area.sectors.value), ProblemWrites(rules, areaFolder, area.problems.value, BackToParent));
    }

    /** `generateAreaPages`; `false` when an area without its lists makes the template throw. */
    method GenerateAreaPages() returns (complete: bool)
      modifies this
      ensures complete == AreasRun(rules, outDir, data).complete
      ensures files == ApplyWrites(old(files), AreasRun(rules, outDir, data).writes)
    {
      ghost var start := files;
      for i := 0 to |data|
        invariant AreasRun(rules, outDir, data[..i]).complete
        invariant files == ApplyWrites(start, AreasRun(rules, outDir, data[..i]).writes)
      {
        assert data[..i + 1][..i] == data[..i];
        if !Renderable(data[i]) {
          AreasRunStops(rules, outDir, data, i);
          return false;
        }
        ApplyWritesConcat(start, AreasRun(rules, outDir, data[..i]).writes, AreaWrites(rules, outDir, data[i]));
        GenerateAreaPage(data[i]);
      }
      assert data[..|data|] == data;
      complete := true;
    }

    /** `generateStaticSite` after the module has loaded. */
    method GenerateStaticSite() returns (complete: bool)
      modifies this
      ensures complete == AreasRun(rules, outDir, data).complete
      ensures files == ApplyWrites(old(files), [FileWrite(IndexPath(outDir), rules.index(data))] + AreasRun(rules, outDir, data).writes)
    {
      ghost var start := files;
      GenerateIndex();
      ghost var w := FileWrite(IndexPath(outDir), rules.index(data));
      assert files == ApplyWrites(start, [w]);
      complete := GenerateAreaPages();
      ApplyWritesConcat(start, [w], AreasRun(rules, outDir, data).writes);
    }
  }

  /** Running the script over the files already on disk performs exactly the writes of `SiteRun`. */
  method RunScript(rules: SiteRules, outDir: string, css: string, data: seq<AreaRec>, files: Files) returns (result: Files, complete: bool)
    ensures complete == SiteRun(rules, outDir, css, data).complete
    ensures result == ApplyWrites(files, SiteRun(rules, outDir, css, data).writes)
  {
    var g := new Generator(rules, outDir, data, css, files);
    ghost var s := FileWrite(PathJoin(outDir, "styles.css"), css);
    assert g.files == ApplyWrites(files, [s]);
    complete := g.GenerateStaticSite();
    ApplyWritesConcat(files, [s], [FileWrite(IndexPath(outDir), rules.index(data))] + AreasRun(rules, outDir, data).writes);
    result := g.files;
  }

  // ------------------------------------------------------------------ properties of the pages

  /** The root index shows one link per area, in the order of the data (no sorting happens). */
  lemma IndexListsAreas(areas: seq<AreaRec>)
    ensures InOrder(IndexTemplate(areas), AreaItems(areas))
  {
    JoinInOrder(AreaItems(areas), "\n");
    FillInOrder(IndexText, [Join(AreaItems(areas), "\n")], 0, AreaItems(areas));
  }

  /** A list item links to the file the generator writes for that child. */
  lemma ItemsLinkToPages(a: AreaRec, s: SectorRec, p: ProblemRec)
    ensures Contains(AreaItem(a), SanitizeFilename(a.name) + "/index.html")
    ensures Contains(SectorItem(s), SanitizeFilename(s.name) + "/index.html")
    ensures Contains(ProblemItem(p), SanitizeFilename(p.name) + ".html")
  {
    FillContains(["<li><a href=\"", "\">", "</a></li>"], [SanitizeFilename(a.name) + "/index.html", a.name], 0);
    FillContains(["<li><a href=\"", "\">", "</a></li>"], [SanitizeFilename(s.name) + "/index.html", s.name], 0);
    FillContains(["<li><a href=\"", "\">", "</a></li>"], [SanitizeFilename(p.name) + ".html", p.name + " (" + Text(p.grade) + ")"], 0);
  }

  /**
   * A problem page: its back link, the heading `name (grade)`, the
   * description or the fallback text, a rating of exactly `rating` stars,
   * and its images in order.
   */
  lemma ProblemPageShows(backPath: string, p: ProblemRec)
    ensures Contains(ProblemTemplate(backPath, p), BackButton(backPath))
    ensures Contains(ProblemTemplate(backPath, p), "<h1>" + p.name + " (" + Text(p.grade) + ")</h1>")
    ensures Contains(ProblemTemplate(backPath, p), "<p class=\"description\">" + DescriptionOrDefault(p.description) + "</p>")
    ensures Contains(ProblemTemplate(backPath, p), "<p class=\"rating\">Rating: " + Stars(p.rating) + "</p>")
    ensures p.images.Some? && |p.images.value| > 0 ==> InOrder(ProblemTemplate(backPath, p), ImageItems(p.images))
  {
    var v := ProblemValues(backPath, p);
    FillContains(ProblemText, v, 1);
    FillContains(ProblemText, v, 2);
    FillContains(ProblemText, v, 3);
    FillContains(ProblemText, v, 4);
    if p.images.Some? && |p.images.value| > 0 {
      FillInOrder(ProblemText, v, 6, ImageItems(p.images));
    }
  }

  /** A sector page: the back link to the area, the heading, the description or fallback, and its lists in order. */
  lemma SectorPageShows(s: SectorRec)
    ensures Contains(SectorTemplate(s), BackButton(BackToParent))
    ensures Contains(SectorTemplate(s), "<h1>" + s.name + "</h1>")
    ensures Contains(SectorTemplate(s), "<p>" + DescriptionOrDefault(s.description) + "</p>")
    ensures s.problems.Some? && |s.problems.value| > 0 ==> InOrder(SectorTemplate(s), ProblemItems(s.problems))
    ensures s.images.Some? && |s.images.value| > 0 ==> InOrder(SectorTemplate(s), ImageItems(s.images))
  {
    var v := SectorValues(s);
    FillContains(SectorText, v, 1);
    FillContains(SectorText, v, 2);
    FillContains(SectorText, v, 3);
    if s.problems.Some? && |s.problems.value| > 0 {
      FillInOrder(SectorText, v, 4, ProblemItems(s.problems));
    }
    if s.images.Some? && |s.images.value| > 0 {
      FillInOrder(SectorText, v, 5, ImageItems(s.images));
    }
  }

  /** An area page: the back link to the root index, the heading, the description or fallback, and its lists in order. */
  lemma AreaPageShows(a: AreaRec)
    requires Renderable(a)
    ensures Contains(AreaTemplate(a), BackButton(BackToParent))
    ensures Contains(AreaTemplate(a), "<h1>" + a.name + "</h1>")
    ensures Contains(AreaTemplate(a), "<p>" + DescriptionOrDefault(a.description) + "</p>")
    ensures |a.sectors.value| > 0 ==> InOrder(AreaTemplate(a), SectorItems(a.sectors.value))
    ensures |a.problems.value| > 0 ==> InOrder(AreaTemplate(a), ProblemItems(a.problems))
    ensures |a.images.value| > 0 ==> InOrder(AreaTemplate(a), ImageItems(a.images))
  {
    var v := AreaValues(a);
    FillContains(AreaText, v, 1);
    FillContains(AreaText, v, 2);
    FillContains(AreaText, v, 3);
    if |a.sectors.value| > 0 {
      FillInOrder(AreaText, v, 5, SectorItems(a.sectors.value));
    }
    if |a.problems.value| > 0 {
      FillInOrder(AreaText, v, 6, ProblemItems(a.problems));
    }
    if |a.images.value| > 0 {
      FillInOrder(AreaText, v, 7, ImageItems(a.images));
    }
  }


  // ------------------------------------------------------------------ properties of the run

  /** All areas render exactly when the run reaches its end. */
  lemma {:induction false} AreasRunComplete(rules: SiteRules, outDir: string, areas: seq<AreaRec>)
    ensures AreasRun(rules, outDir, areas).complete <==> forall i :: 0 <= i < |areas| ==> Renderable(areas[i])
    decreases |areas|
  {
    if areas != [] {
      var init := areas[..|areas| - 1];
      AreasRunComplete(rules, outDir, init);
      assert forall i :: 0 <= i < |init| ==> init[i] == areas[i];
    }
  }

  /**
   * The script aborts at the first area that lacks a list: the files
   * written are exactly those of the areas before it, and the run is
   * incomplete.
   */
  lemma FirstFailureStops(rules: SiteRules, outDir: string, areas: seq<AreaRec>, i: int)
    requires 0 <= i < |areas| && !Renderable(areas[i])
    requires forall j :: 0 <= j < i ==> Renderable(areas[j])
    ensures AreasRun(rules, outDir, areas) == Run(AreasRun(rules, outDir, areas[..i]).writes, false)
  {
    AreasRunComplete(rules, outDir, areas[..i]);
    AreasRunStops(rules, outDir, areas, i);
  }

  /** A page below the root that offers the back link "../index.html". */
  predicate NestedPage(root: string, w: FileWrite) {
    Within(root, w.path) && Contains(w.content, BackButton(BackToParent))
  }

  predicate AllNested(root: string, ws: seq<FileWrite>) {
    forall k :: 0 <= k < |ws| ==> NestedPage(root, ws[k])
  }

  lemma AllNestedConcat(root: string, a: seq<FileWrite>, b: seq<FileWrite>)
    requires AllNested(root, a) && AllNested(root, b)
    ensures AllNested(root, a + b)
  {
    forall k | 0 <= k < |a + b|
      ensures NestedPage(root, (a + b)[k])
    {
      if k >= |a| {
        assert (a + b)[k] == b[k - |a|];
      }
    }
  }

  lemma ProblemWritesNested(root: string, folder: string, ps: seq<ProblemRec>)
    requires Within(root, folder)
    ensures AllNested(root, ProblemWrites(Standard, folder, ps, BackToParent))
  {
    forall k | 0 <= k < |ps|
      ensures NestedPage(root, ProblemWrites(Standard, folder, ps, BackToParent)[k])
    {
      ProblemPageShows(BackToParent, ps[k]);
      PathJoinWithin(root, folder, SanitizeFilename(ps[k].name) + ".html");
    }
  }

  lemma SectorWritesNested(root: string, areaFolder: string, s: SectorRec)
    requires Within(root, areaFolder)
    ensures AllNested(root, SectorWrites(Standard, areaFolder, s))
  {
    var folder := SectorFolder(Standard, areaFolder, s);
    PathJoinWithin(root, areaFolder, SanitizeFilename(s.name));
    PathJoinWithin(root, folder, "index.html");
    SectorPageShows(s);
    var page := [FileWrite(PathJoin(folder, "index.html"), SectorTemplate(s))];
    assert AllNested(root, page);
    if s.problems.Some? {
      ProblemWritesNested(root, folder, s.problems.value);
      AllNestedConcat(root, page, ProblemWrites(Standard, folder, s.problems.value, BackToParent));
    } else {
      assert SectorWrites(Standard, areaFolder, s) == page;
    }
  }

  lemma {:induction false} SectorsWritesNested(root: string, areaFolder: string, ss: seq<SectorRec>)
    requires Within(root, areaFolder)
    ensures AllNested(root, SectorsWrites(Standard, areaFolder, ss))
    decreases |ss|
  {
    if ss != [] {
      SectorsWritesNested(root, areaFolder, ss[..|ss| - 1]);
      SectorWritesNested(root, areaFolder, ss[|ss| - 1]);
      AllNestedConcat(root, SectorsWrites(Standard, areaFolder, ss[..|ss| - 1]), SectorWrites(Standard, areaFolder, ss[|ss| - 1]));
    }
  }

  lemma AreaWritesNested(outDir: string, a: AreaRec)
    requires Renderable(a)
    ensures AllNested(outDir, AreaWrites(Standard, outDir, a))
  {
    var folder := AreaFolder(Standard, outDir, a);
    PathJoinWithin(outDir, outDir, SanitizeFilename(a.name));
    PathJoinWithin(outDir, folder, "index.html");
    AreaPageShows(a);
    var page := [FileWrite(PathJoin(folder, "index.html"), AreaTemplate(a))];
    assert AllNested(outDir, page);
    SectorsWritesNested(outDir, folder, a.sectors.value);
    ProblemWritesNested(outDir, folder, a.problems.value);
    AllNestedConcat(outDir, page, SectorsWrites(Standard, folder, a.sectors.value));
    AllNestedConcat(outDir, page + SectorsWrites(Standard, folder, a.sectors.value), ProblemWrites(Standard, folder, a.problems.value, BackToParent));
  }

  lemma {:induction false} AreasRunNested(outDir: string, areas: seq<AreaRec>)
    ensures AllNested(outDir, AreasRun(Standard, outDir, areas).writes)
    decreases |areas|
  {
    if areas != [] {
      var init := areas[..|areas| - 1];
      AreasRunNested(outDir, init);
      var a := areas[|areas| - 1];
      if AreasRun(Standard, outDir, init).complete && Renderable(a) {
        AreaWritesNested(outDir, a);
        AllNestedConcat(outDir, AreasRun(Standard, outDir, init).writes, AreaWrites(Standard, outDir, a));
      }
    }
  }

  /**
   * Of everything the script writes, only the style sheet and the root
   * index are not pages with the back link "../index.html"; every file lies
   * in the output directory. This includes problems placed directly in an
   * area folder, whose link therefore leads above the area.
   */
  lemma SiteBackLinks(outDir: string, css: string, data: seq<AreaRec>)
    ensures var ws := SiteRun(Standard, outDir, css, data).writes;
      |ws| >= 2 && ws[0].path == PathJoin(outDir, "styles.css") && ws[1].path == IndexPath(outDir)
      && forall k :: 2 <= k < |ws| ==> NestedPage(outDir, ws[k])
  {
    AreasRunNested(outDir, data);
    var areas := AreasRun(Standard, outDir, data).writes;
    var head := [FileWrite(PathJoin(outDir, "styles.css"), css), FileWrite(IndexPath(outDir), IndexTemplate(data))];
    assert SiteRun(Standard, outDir, css, data).writes == head + areas;
    forall k | 2 <= k < |head + areas|
      ensures NestedPage(outDir, (head + areas)[k])
    {
      assert (head + areas)[k] == areas[k - 2];
    }
  }

  /**
   * Sibling problems whose names sanitize alike are written to one path,
   * and the last of them decides that file's content.
   */
  lemma SiblingCollision(rules: SiteRules, files: Files, folder: string, ps: seq<ProblemRec>, backPath: string, j: int)
    requires 0 <= j < |ps|
    requires forall k :: j < k < |ps| ==> rules.token(ps[k].name) != rules.token(ps[j].name)
    ensures ProblemFile(rules, folder, ps[j]) in ApplyWrites(files, ProblemWrites(rules, folder, ps, backPath))
    ensures ApplyWrites(files, ProblemWrites(rules, folder, ps, backPath))[ProblemFile(rules, folder, ps[j])] == rules.problem(backPath, ps[j])
  {
    var ws := ProblemWrites(rules, folder, ps, backPath);
    var p := ProblemFile(rules, folder, ps[j]);
    forall k | j < k < |ws|
      ensures ws[k].path != p
    {
      var a, b := rules.token(ps[k].name), rules.token(ps[j].name);
      assert (a + ".html")[..|a|] == a && (b + ".html")[..|b|] == b;
      PathJoinInjective(folder, a + ".html", b + ".html");
    }
    LastWriteAt(ws, j, p);
    LastWriterWins(files, ws, p);
  }

  /**
   * An area whose name sanitizes to nothing (an empty name, or one made
   * only of combining marks) has its page written onto the root index path.
   */
  lemma EmptyTokenOverwritesIndex(rules: SiteRules, outDir: string, a: AreaRec)
    requires Renderable(a) && rules.token(a.name) == ""
    ensures AreaWrites(rules, outDir, a)[0] == FileWrite(IndexPath(outDir), rules.area(a))
  {
  }

  /**
   * An area's direct problems are written after the area page into the same
   * folder, so the last of them whose token is "index" replaces that page.
   */
  lemma DirectProblemReplacesAreaPage(rules: SiteRules, outDir: string, a: AreaRec, files: Files, j: int)
    requires Renderable(a) && 0 <= j < |a.problems.value|
    requires rules.token(a.problems.value[j].name) == "index"
    requires forall k :: j < k < |a.problems.value| ==> rules.token(a.problems.value[k].name) != "index"
    ensures var f, p := ApplyWrites(files, AreaWrites(rules, outDir, a)), PathJoin(AreaFolder(rules, outDir, a), "index.html");
      p in f && f[p] == rules.problem(BackToParent, a.problems.value[j])
  {
    var folder := AreaFolder(rules, outDir, a);
    var ps := a.problems.value;
    var pre := [FileWrite(PathJoin(folder, "index.html"), rules.area(a))] + SectorsWrites(rules, folder, a.sectors.value);
    ApplyWritesConcat(files, pre, ProblemWrites(rules, folder, ps, BackToParent));
    SiblingCollision(rules, ApplyWrites(files, pre), folder, ps, BackToParent, j);
    assert rules.token(ps[j].name) + ".html" == "index.html";
  }
}
