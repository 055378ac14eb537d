# gboc-get in Dafny

gboc-get collects the boulder guide on gbo.crimp.se: areas, their sectors, and the problems in
them. It then turns the collected records into a static web site. The repository has two crawlers
and two site generators. They are separate versions of the same script, and they behave
differently, so this project models each one on its own:

- `scraper.js` crawls the main page, then every area page, sector page and problem page. It updates
  shared record objects in place and writes `data/output.json`. Modules: `ScraperText` (the string
  post-processing), `ScraperPage` (what each scrape does, as functions on records), and `Scraper`
  (the scrape functions and `main`, as methods over `Problem` and `Sector` objects).
- `index.js` is the older crawler. It collects area links and the sectors of each area. When an
  area has no sectors, it files the area's problems under a synthetic `"main"` sector. Each level
  has its own error handling. Modules: `IndexPage` (value-level specification) and `IndexCrawl`
  (the nested loops over `Area` and `Sector` objects).
- `htmlGenerator2.js` is the site generator in use. It has a filename sanitizer, the four page
  templates, and the `generate*` functions that write pages. Modules: `Sanitize2` and `Site2`. The
  `Site2.Generator` class holds the file system the script writes into.
- `htmlGenerator.js` is the older generator. It has an inlined transliterating sanitizer, and
  `createHtmlFiles` builds the homepage, area, sector and problem contents with `+=` in nested
  loops. Modules: `Sanitize1` and `Site1`.

The modules all share a few pieces:

- `Maybe` holds `Option`. `JsString` holds the JavaScript string built-ins the code uses
  (`trim`, `split(sep)[0]` and `[1]`, `replace` with a global regex, `repeat`, `join`) and the
  `Fill` form of template literals.
- `Records` holds the plain-data records (`ProblemRec`, `SectorRec`, `AreaRec`) that the crawler
  serialises and the generators read back. A field that is missing or `undefined` in the JSON is
  `None`. A template shows a missing scalar as `undefined`, and it shows a missing image URL as
  `null`, because `JSON.stringify` turns a hole in an array into `null`.
- `Fetch` models `axios.get`: a `Web` maps each URL to `Ok(page)`, `NotFound` or `Error`. A missing
  URL is an error.
- `FileSystem` models the disk as a map from path to content. Writes are applied in order, and the
  last write to a path wins. `path.join` is `/`-concatenation.

A fetched page is a datatype of the values the cheerio selectors return: link lists of
`(href, text)` pairs, the heading text, the description text, the maps link's text and href, the
thumbnail hrefs and the star count. The selector engine itself is not modelled.

The code runs its string steps through a record of functions: `ScraperText.TextRules`,
`IndexPage.IndexRules`, `Site2.SiteRules`, and the `slug` parameter in `Site1`. The constants
`Builtins`, `Rules`, `Standard` and `Sanitize1.Slug` are what JavaScript actually computes. Their
properties are proved as lemmas about those constants. The methods are proved against the
specification functions for any rules.

The transliteration list of htmlGenerator.js is followed as written: `Å` is not in it, so
`Sanitize1.Slug("Åsa")` starts with `-` (`Sanitize1.SlugUnlistedLetter`).

## Model

| member | source | states |
|---|---|---|
| Fetch.Get | scraper.js:194 | A page comes back only for a URL that is defined and present in the web. |
| JsString.Trim | scraper.js:22 | The result has no leading or trailing whitespace, is a slice of the input with only whitespace cut from both ends, and keeps only characters of the input. |
| JsString.SplitHead | scraper.js:88 | `s.split(d)[0]`: a prefix of `s` that does not contain `d`, and is either all of `s` or is followed by `d`. |
| JsString.SplitSecond | scraper.js:200 | `s.split(d)[1]` is undefined exactly when `s` does not contain `d`. |
| JsString.SplitSecondAt | scraper.js:200 | At the first occurrence of `d`, the second segment is the text after it, cut at the next `d`. |
| JsString.CollapseNewlines | scraper.js:44 | `replace(/\n+/g, " ")` leaves no newline, and every non-space character comes from the input. |
| JsString.CollapseSpaces | index.js:16 | `replace(/\s+/g, " ")` leaves only plain spaces as whitespace, never two in a row. |
| JsString.ReplaceRunsFixed | index.js:16 | Collapsing runs changes nothing on a text that is already collapsed. |
| JsString.Repeat | htmlGenerator2.js:197 | `c.repeat(n)` has length `n`, and every character is `c`. |
| JsString.JoinInOrder | htmlGenerator2.js:59-66 | `items.join(sep)` contains every item, in order and without overlap. |
| JsString.FillContains | htmlGenerator2.js:49-70 | A template literal contains each interpolated value. |
| JsString.FillInOrder | htmlGenerator2.js:49-70 | A list shown in order inside one interpolation is shown in order in the whole page. |
| FileSystem.LastWrite | htmlGenerator2.js:33-36 | The last content written to a path is one of the writes to it; when there is none, no write names the path. |
| FileSystem.LastWriterWins | htmlGenerator2.js:33-36 | After a sequence of writes, a path exists iff it existed before or was written, its content is that of the last write to it, and unwritten paths keep their content. |
| FileSystem.ApplyWritesConcat | htmlGenerator2.js:33-36 | Writing `a` and then `b` is writing `a + b`. |
| FileSystem.WritesIdempotent | htmlGenerator2.js:33-36 | Repeating the same sequence of writes changes nothing more. |
| FileSystem.ApplyWritesSnoc | htmlGenerator2.js:35 | One more write replaces only the content at its path. |
| FileSystem.LastWriteAt | htmlGenerator2.js:33-36 | A write with no later write to the same path decides that path's content. |
| FileSystem.PathJoinWithin | htmlGenerator2.js:228 | Joining a segment onto a folder under the root stays under the root. |
| FileSystem.PathJoinInjective | htmlGenerator2.js:262 | Two different non-empty segments joined onto the same folder give different paths. |
| ScraperText.FirstLine | scraper.js:22 | `split("\n")[0]` is a prefix without a newline, and is the whole text or is followed by a newline. |
| ScraperText.BeforeComma | scraper.js:88 | `split(", ")[0]` is a prefix without `", "`, and is the whole text or is followed by `", "`. |
| ScraperText.Description | scraper.js:202-205 | The description holds no newline, has no leading or trailing whitespace, and keeps only non-space characters of the page text. |
| ScraperText.DescriptionIdempotent | scraper.js:202-205 | Cleaning a description a second time gives the same text. |
| ScraperText.AfterColon | scraper.js:206-215 | The coordinate, landing and sit-start texts are undefined exactly when there is no `": "`; otherwise the value follows a `": "` in the text and holds none itself. |
| ScraperText.ParseTitle | scraper.js:198-200 | The title throws exactly when the trimmed heading has no `", "`; otherwise the name is the text before the first `", "`, and the grade is the first space-delimited word of the text after it (a prefix of it ending at a space or at its end). |
| ScraperText.SplitHeadFirstWord | scraper.js:200 | `split(" ")[0]` is a prefix that ends at a space or at the end of the text. |
| ScraperText.ParseTitleOf | scraper.js:198-200 | A heading `name, grade rest` yields exactly that name and grade. |
| ScraperText.BuiltinLinkName | scraper.js:22 | A link name is a single line and a prefix of the trimmed link text. |
| ScraperText.BuiltinBeforeComma | scraper.js:87-88 | A direct problem's name holds no `", "` and is a prefix of the trimmed title. |
| ScraperPage.Absolutize | scraper.js:19-21 | A defined href stays defined and an undefined one stays undefined. An href starting with `http` is unchanged, and so is an empty one; any other href gets `BASE_URL` in front, and a non-empty result starts with `http`. |
| ScraperPage.AbsolutizeIdempotent | scraper.js:19-21 | Making a URL absolute twice is the same as doing it once. |
| ScraperPage.MainPageSpec | scraper.js:8-30 | The main page gives one `{name, url}` per area link, in document order, and undefined when its fetch fails. |
| ScraperPage.HeadingNameStable | scraper.js:40-41 | The name becomes the heading's first line, or keeps its old value when that line is empty. Applying the rule again changes nothing. |
| ScraperPage.ProblemDetails | scraper.js:198-232 | The details exist exactly when the title parses. The rating is the star count, unclamped, and the URL is kept. |
| ScraperPage.ProblemPageAllOrNothing | scraper.js:192-237 | A problem scrape takes over every field of the page, or leaves the record exactly as it was; the URL never changes. |
| ScraperPage.BuiltinProblemName | scraper.js:198-199 | A scraped problem's name is the trimmed title up to its first `", "`. |
| ScraperPage.ProblemPageIdempotent | scraper.js:192-237 | Scraping a problem a second time changes nothing more. |
| ScraperPage.SectorProblemRecs | scraper.js:170-179 | A sector page's problems are one `{name, url}` per listed link, in order, named by the trimmed text with the URL made absolute. |
| ScraperPage.SectorPageSpec | scraper.js:143-189 | A sector scrape returns the updated record exactly when the fetch succeeds, `null` exactly on a 404, and `undefined` otherwise. The updated record keeps its URL and has a problem list. |
| ScraperPage.SectorRecs | scraper.js:59-71 | The sector records are there exactly when every link's URL can be built; then there is one per link, in order. |
| ScraperPage.KeptSectorLinks | scraper.js:59-60 | Only the first ten sector links are kept, in document order. |
| ScraperPage.AreaProblemsFromProblemSections | scraper.js:75-134 | Every direct problem comes from an `h3` whose trimmed text is `Problem`; with no such heading there are none. |
| ScraperPage.ProblemsCrawl | scraper.js:268-271 | Every problem of a list is scraped, in place and in order. |
| ScraperPage.SectorsCrawl | scraper.js:262-272 | Every sector of an area goes through its own scrape-then-problems step. |
| ScraperPage.AreaFetchFailureAborts | scraper.js:249-251 | An area whose page fetch fails never gets `sectors`, so `area.sectors.length` throws. |
| ScraperPage.CrawlAbortsOnAreaFailure | scraper.js:276-279 | One area that throws means `main` writes no output at all. |
| ScraperPage.CrawlOutputShape | scraper.js:244-276 | When output is written, it holds one crawled record per area link, in link order. |
| ScraperPage.CrawlOutputOfAreas | scraper.js:244-276 | Conversely, when every area crawls, those records are the output. |
| ScraperPage.AreaCrawlShape | scraper.js:251-272 | Direct problems are enriched only when the area has no sectors. A sector whose page cannot be fetched stays in `area.sectors` as the record it was. |
| ScraperPage.SkippedSectorKeepsLinkRecord | scraper.js:262-265 | A skipped sector remains its `{name, url}` record, without problems, because only the loop variable is reassigned. |
| ScraperPage.SectorCrawlIdempotent | scraper.js:262-272 | Crawling a sector a second time changes nothing more. |
| Scraper.Problem.constructor | scraper.js:117-119 | A new problem object holds only its name and URL. |
| Scraper.Sector.constructor | scraper.js:68 | A new sector object holds only its name and URL. |
| Scraper.AreasJson | scraper.js:276 | The serialised output has one record per area, each as the area object reads. |
| Scraper.CollectImages | scraper.js:50-54 | The images are the thumbnail hrefs, in document order. |
| Scraper.CollectProblems | scraper.js:171-178 | The push loop creates one fresh problem object per link, in order, named from the link text, with the URL made absolute. |
| Scraper.CollectSectors | scraper.js:58-71 | The sector loop creates one fresh object per kept link, or throws when a URL cannot be built. |
| Scraper.CollectSectionProblems | scraper.js:79-130 | One `h3`: when its text is `Problem`, one fresh object per link of the next element. |
| Scraper.CollectAreaProblems | scraper.js:75-134 | The direct problems of an area are those of all `Problem` headings, in order. |
| Scraper.AssignProblemFields | scraper.js:224-232 | The nine field assignments leave the problem exactly as its record with the page's values. |
| Scraper.ScrapeProblemPage | scraper.js:192-238 | The problem ends as `ProblemPageSpec` says. The object is returned exactly when the fetch and the title both succeed, and undefined otherwise. |
| Scraper.AssignSectorFields | scraper.js:150-179 | The sector ends with the page's name, details, images and a fresh problem list. |
| Scraper.ScrapeSectorPage | scraper.js:143-189 | The sector is updated exactly when its page is scraped and is unchanged otherwise. It returns the sector, `null` on a 404, or `undefined`. |
| Scraper.ScrapeAreaPage | scraper.js:33-140 | The area record becomes `AreaPageSpec`. It succeeds exactly when `sectors` gets assigned, and `problems` is assigned exactly then. |
| Scraper.ScrapeProblems | scraper.js:253-258 | Every direct problem object is scraped in place. |
| Scraper.CrawlSector | scraper.js:263-271 | The array's sector object ends as `SectorCrawlSpec`: scraped with its problems, or left as it was. |
| Scraper.CrawlSectors | scraper.js:262-272 | Every sector object of the area is crawled in turn. |
| Scraper.CrawlLists | scraper.js:251-272 | The lists of an area whose page was read are crawled as `AreaListsCrawl` says. |
| Scraper.CrawlArea | scraper.js:248-272 | One area iteration succeeds exactly when `AreaCrawlSpec` does, and then yields its record. |
| Scraper.CollectAreas | scraper.js:13-25 | One `{name, url}` area per main-page link, in order. |
| Scraper.ScrapeMainPage | scraper.js:8-30 | The areas are those of `MainPageSpec`, or undefined when that fetch fails. |
| Scraper.CrawlAreas | scraper.js:247-273 | The area loop stops at the first area that throws; otherwise every area is crawled in order. |
| Scraper.Crawl | scraper.js:241-281 | `main`'s output is exactly `CrawlSpec`: the crawled areas, or nothing when a step throws. |
| IndexPage.AreaNameShape | index.js:16-17 | An area name is single-spaced, has no edge whitespace, and holds no `" ("`. |
| IndexPage.AreaNameIdempotent | index.js:16-17 | Parsing an area name again gives the same name. |
| IndexPage.SectorName | index.js:31 | A sector name has no edge whitespace. |
| IndexPage.ListedProblemOf | index.js:54-61 | A listed title `name, grade` gives that name and the whole of `grade`, spaces included. |
| IndexPage.ListedProblemNoComma | index.js:54-61 | A listed title without `", "` is all name, with an undefined grade. |
| IndexPage.MainProblem | index.js:94-98 | A problem of the `"main"` fallback throws exactly when its title has no `", "`. |
| IndexPage.MainProblemOf | index.js:94-98 | A `"main"` title `name, grade rest` gives that name and only the first word of the grade. |
| IndexPage.ListedAndMainGradesDiffer | index.js:92-98 | The same title `Stina, 6B *` gets grade `6B *` in a sector listing and `6B` under `"main"`. |
| IndexPage.ListedProblems | index.js:50-69 | One problem entry per listed link, in order. |
| IndexPage.MainProblems | index.js:88-105 | The `"main"` problems are there exactly when no title throws; then there is one per link, in order. |
| IndexPage.SectorsVisit | index.js:40-85 | Every sector of an area is visited, in order. |
| IndexPage.SectorVisitIdempotent | index.js:40-85 | Visiting a sector a second time changes nothing more. |
| IndexPage.SectorVisitEffect | index.js:41-74 | A sector gets `problems` exactly when its fetch succeeds and lists at least one problem; name and URL stay. |
| IndexPage.AreaFailureKeepsRecord | index.js:94-120 | An area whose fetch fails, or whose fallback throws, keeps only `{name, url}`. |
| IndexPage.AreaWithSectors | index.js:36-85 | With sector links, `area.sectors` is one entry per link, in order. A failed sector has no `problems`, and a present `problems` list is non-empty. |
| IndexPage.AreaMainFallback | index.js:86-110 | Without sector links, the area gets `[main]` exactly when no title throws and there is a problem. |
| IndexPage.CrawlKeepsEveryArea | index.js:9-129 | Output exists exactly when the start page is fetched. It then holds every area, failed ones included, in link order, and any `sectors` list is non-empty. |
| IndexPage.CrawlAreaNames | index.js:15-20 | Every output area name is single-spaced, has no edge whitespace, and holds no `" ("`. |
| IndexCrawl.Area.constructor | index.js:19 | A new area object is `{name, url}` without `sectors`. |
| IndexCrawl.Sector.constructor | index.js:33 | A new sector object is `{sectorName, sectorUrl}` without `problems`. |
| IndexCrawl.Sector.Synthetic | index.js:88 | The fallback sector is `{sectorName: "main", problems: []}`. |
| IndexCrawl.CollectAreas | index.js:14-20 | One fresh, distinct area object per link, in order. |
| IndexCrawl.CollectSectors | index.js:29-34 | One fresh sector object per link, in order. |
| IndexCrawl.CollectListedProblems | index.js:50-69 | The push loop builds exactly `ListedProblems`. |
| IndexCrawl.ListMainProblems | index.js:89-105 | The loop finishes exactly when no title throws, and then holds exactly the `"main"` problems. |
| IndexCrawl.VisitSector | index.js:41-84 | The sector object ends as `SectorVisit` says, and a failed fetch leaves it as it was. |
| IndexCrawl.VisitSectors | index.js:40-85 | Every sector object held by the area is updated in place, as `SectorVisit` says. |
| IndexCrawl.VisitArea | index.js:24-120 | The area object ends as `AreaVisit` says. |
| IndexCrawl.AreasJson | index.js:126 | The serialised array has one record per area object. |
| IndexCrawl.Crawl | index.js:5-135 | The array written is exactly `CrawlSpec`, and nothing is written when the start page fails. |
| Sanitize2.Decompose | htmlGenerator2.js:24 | NFD leaves a character alone, or splits a non-ASCII letter into an ASCII letter and a combining mark. |
| Sanitize2.ReplaceDisallowedAlphabet | htmlGenerator2.js:26 | After the `_` replacement only `[A-Za-z0-9_-]` remains. |
| Sanitize2.SanitizeFilename | htmlGenerator2.js:22-28 | The result holds only `[A-Za-z0-9_-]`. |
| Sanitize2.TrimIsNoOp | htmlGenerator2.js:27 | The trailing `trim` never changes anything. |
| Sanitize2.CharTokenCorrect | htmlGenerator2.js:24-26 | The pipeline run on one character gives that character's token. |
| Sanitize2.SanitizeCharwise | htmlGenerator2.js:22-28 | The sanitizer works character by character: marks vanish, and every other disallowed UTF-16 unit becomes one `_`. |
| Sanitize2.SanitizeIdempotent | htmlGenerator2.js:22-28 | Sanitizing twice is sanitizing once. |
| Sanitize2.SanitizeAsciiLength | htmlGenerator2.js:22-28 | On ASCII input the length is preserved. |
| Sanitize2.SanitizeCollides | htmlGenerator2.js:22-28 | Two names of equal length whose characters have the same tokens, position by position, get the same filename (for example `Öl` and `Ol`). |
| Sanitize2.CharTokenExamples | htmlGenerator2.js:24-26 | `ö` and `o` share a token, as do `Å` and `A`. A space, `_` and `ß` all give `_`. A combining acute vanishes, and an astral emoji gives `__`. |
| Sanitize1.ReplaceFirst | htmlGenerator.js:19 | A string-pattern `replace` keeps the length and changes nothing when the letter is absent. |
| Sanitize1.ReplaceFirstOnlyFirst | htmlGenerator.js:19-26 | Only the first occurrence of the letter is replaced, and the rest stays. |
| Sanitize1.Transliterate | htmlGenerator.js:19-26 | The eight replacements keep the length. |
| Sanitize1.Dashed | htmlGenerator.js:27 | After `replace(/\W+/g, "-")` only word characters and `-` remain, and no two `-` are adjacent. |
| Sanitize1.AsciiLower | htmlGenerator.js:28 | `toLowerCase` maps each character on its own. |
| Sanitize1.Slug | htmlGenerator.js:18-28 | A token holds only `[a-z0-9_-]` and never two `-` in a row. |
| Sanitize1.SlugIdempotent | htmlGenerator.js:18-28 | Sanitizing twice is sanitizing once. |
| Sanitize1.SlugOfSlugChars | htmlGenerator.js:18-28 | A string already in the token alphabet is its own token. |
| Sanitize1.SlugUnlistedLetter | htmlGenerator.js:18-28 | `Å` is not transliterated: it becomes `-`, and no dash is trimmed. |
| Sanitize1.SlugOfIndex | htmlGenerator.js:18-28 | The name `index` gives the token `index`. |
| Sanitize1.SlugSecondOccurrence | htmlGenerator.js:19-28 | `öö` gives `o-`: only the first `ö` is transliterated. |
| Sanitize1.TransliterateTwice | htmlGenerator.js:19-26 | The replacement step alone turns `öö` into `oö`. |
| Site2.DescriptionOrDefault | htmlGenerator2.js:84 | A missing or empty description shows as "No description available."; any other description shows as itself. |
| Site2.Stars | htmlGenerator2.js:197 | The rating line holds exactly `rating` `★` characters, and none when the rating is missing. |
| Site2.AreaItems | htmlGenerator2.js:59-66 | One list item per area, in input order. |
| Site2.SectorItems | htmlGenerator2.js:92-99 | One list item per sector, in input order. |
| Site2.ProblemItems | htmlGenerator2.js:154-163 | One list item per problem, in order; there are none when the list is missing. |
| Site2.ImageItems | htmlGenerator2.js:172-174 | One `<img>` per image, in order. |
| Site2.Section | htmlGenerator2.js:151-166 | A section is empty exactly when its list is. Otherwise it starts with its heading and shows the items in order. |
| Site2.ProblemWrites | htmlGenerator2.js:251-253 | One write per problem, in order, to `parent/S(name).html` with the problem page. |
| Site2.AreasRunStops | htmlGenerator2.js:226-238 | The area loop writes nothing after an area that cannot be rendered. |
| Site2.Generator.constructor | htmlGenerator2.js:4-17 | The script starts by writing `styles.css` into the output folder. |
| Site2.Generator.GeneratePage | htmlGenerator2.js:33-36 | One page write, at its path. |
| Site2.Generator.GenerateIndex | htmlGenerator2.js:219-221 | The root `index.html` gets the index page. |
| Site2.Generator.GenerateProblemPage | htmlGenerator2.js:260-265 | The problem page goes to `parent/S(name).html`. |
| Site2.Generator.GenerateProblemPages | htmlGenerator2.js:251-253 | The `forEach` performs exactly the problem writes, in order. |
| Site2.Generator.GenerateSectorPage | htmlGenerator2.js:243-255 | The sector page is written first, then its problems. |
| Site2.Generator.GenerateSectorPages | htmlGenerator2.js:231-233 | Every sector is written in order. |
| Site2.Generator.GenerateAreaPage | htmlGenerator2.js:227-237 | The area page is written, then its sectors, then its direct problems. |
| Site2.Generator.GenerateAreaPages | htmlGenerator2.js:226-238 | The loop performs `AreasRun`'s writes and reports whether it got through every area. |
| Site2.Generator.GenerateStaticSite | htmlGenerator2.js:270-277 | The root index comes first, then the area loop. |
| Site2.RunScript | htmlGenerator2.js:1-280 | The whole script leaves the disk as `SiteRun` says. |
| Site2.IndexListsAreas | htmlGenerator2.js:49-70 | The root index lists every area in input order, with no sorting. |
| Site2.ItemsLinkToPages | htmlGenerator2.js:59-116 | Each area or sector item links to `S(name)/index.html`, and each problem item links to `S(name).html`. |
| Site2.ProblemPageShows | htmlGenerator2.js:185-214 | A problem page shows its back link, the heading `name (grade)`, the description or its fallback, exactly `rating` stars, and its images in order. |
| Site2.SectorPageShows | htmlGenerator2.js:139-180 | A sector page shows `../index.html` as its back link, its heading, the description or its fallback, and its problems and images in order. |
| Site2.AreaPageShows | htmlGenerator2.js:75-134 | An area page shows `../index.html` as its back link, its heading, the description or its fallback, and its sectors, problems and images in order. |
| Site2.AreasRunComplete | htmlGenerator2.js:226-238 | The run gets through every area exactly when every area has sector, problem and image lists. |
| Site2.FirstFailureStops | htmlGenerator2.js:226-238 | At the first area without its lists the script stops, keeping only the writes made before it. |
| Site2.ProblemWritesNested | htmlGenerator2.js:260-265 | Every problem page lies under the output folder and carries the `../index.html` back link. |
| Site2.SectorWritesNested | htmlGenerator2.js:243-255 | Every page a sector writes lies under the output folder and carries the `../index.html` back link. |
| Site2.SectorsWritesNested | htmlGenerator2.js:231-233 | The same holds for all sectors of an area. |
| Site2.AreaWritesNested | htmlGenerator2.js:228-236 | The same holds for every page of an area, direct problems included. |
| Site2.AreasRunNested | htmlGenerator2.js:226-238 | The same holds for every page of the area loop. |
| Site2.SiteBackLinks | htmlGenerator2.js:219-238 | The script writes `styles.css`, then the root index. Every later page lies under the output folder and carries the `../index.html` back link. |
| Site2.SiblingCollision | htmlGenerator2.js:260-265 | Among sibling problems whose names sanitize alike, the last one's page is the one left on disk. |
| Site2.EmptyTokenOverwritesIndex | htmlGenerator2.js:228-229 | An area whose name sanitizes to nothing writes its page over the root `index.html`. |
| Site2.DirectProblemReplacesAreaPage | htmlGenerator2.js:228-236 | A direct problem whose name sanitizes to `index` replaces the area's own page. |
| Site1.AreaLinks | htmlGenerator.js:17-33 | One homepage link per area, in order. |
| Site1.SectorLinks | htmlGenerator.js:37-53 | One area-page link per sector, in order. |
| Site1.ProblemLinks | htmlGenerator.js:57-73 | One sector-page link per problem, in order. |
| Site1.ProblemWrites | htmlGenerator.js:57-82 | One write per problem, in order, to `sectorDir/token.html` with `<h1>N</h1><p>Details about N.</p>`. |
| Site1.SectorsRunStops | htmlGenerator.js:37-91 | The sector loop writes nothing after a sector without problems. |
| Site1.AreasRunStops | htmlGenerator.js:17-100 | The area loop writes nothing after an area that throws. |
| Site1.CreateSectorPage | htmlGenerator.js:38-90 | One sector iteration performs exactly `SectorRun`'s writes and fails as it says. |
| Site1.CreateAreaPage | htmlGenerator.js:18-99 | One area iteration performs exactly `AreaRun`'s writes and fails as it says. |
| Site1.CreateHtmlFiles | htmlGenerator.js:11-109 | `createHtmlFiles` performs exactly `CreateRun`'s writes and rejects as it says. |
| Site1.GenerateHtmlFromJson | htmlGenerator.js:112-123 | The script writes `CreateRun`'s pages under `./site`; a rejection is caught. |
| Site1.SectorsRunComplete | htmlGenerator.js:37-91 | An area iteration gets through all its sectors exactly when every sector has a problem list. |
| Site1.AreasRunComplete | htmlGenerator.js:17-100 | The area loop gets through exactly when every area has sectors that all have problem lists. |
| Site1.CreateComplete | htmlGenerator.js:11-109 | `createHtmlFiles` resolves under exactly that condition. |
| Site1.ListingInOrder | htmlGenerator.js:56-83 | A listing starts with its heading and holds every link in order. |
| Site1.LinkItemHref | htmlGenerator.js:33 | Each link item points at `./href`. |
| Site1.HomeListsAreas | htmlGenerator.js:16-101 | The homepage starts with `<h1>Areas</h1><ul>`, and lists each area in order with a link to `./token/index.html`. |
| Site1.SectorPageLast | htmlGenerator.js:57-90 | Within a sector, the index is written after the problem pages, so its content is what remains at that path. |
| Site1.AreaPageLast | htmlGenerator.js:37-99 | Within an area, the index is written after every sector, so its content is what remains at that path. |
| Site1.HomepageLast | htmlGenerator.js:101-108 | The homepage is the last write, and its content is what remains at the root `index.html`. |
| Site1.SectorsRunIncludes | htmlGenerator.js:37-91 | In a complete run, every write of each sector is made. |
| Site1.AreasRunIncludes | htmlGenerator.js:17-100 | In a complete run, every write of each area is made. |
| Site1.ProblemPagePlaced | htmlGenerator.js:60-81 | In a complete run, each problem page is written to `outputDir/areaTok/sectorTok/problemTok.html` with its content. |
| Site1.AreaProblemsIgnored | htmlGenerator.js:37-57 | Problems attached directly to an area, and every field other than names and lists, have no effect on the site. |
| Site1.AreasRunIgnores | htmlGenerator.js:17-100 | Likewise for the area loop alone. |

## Left out

- HTTP (`axios`) and `cheerio` selector evaluation: a page is the list of values the selectors
  return, and `Fetch.Web` stands for the network. Only the selector results enter the model.
- `new URL(href, base).href` (scraper.js:64) is a `Resolver` parameter. Returning `None` means it
  throws. URL parsing itself is not modelled.
- `Sanitize2.Decompose`: the NFD step decomposes only the Latin-1 letters U+00C0–U+00FF, and leaves
  every other character alone. The full Unicode decomposition tables are not modelled.
- JSON serialisation and parsing (`JSON.stringify`, `JSON.parse`), the field order of the output,
  and reading the input file. The generators take the parsed `Records` values. The writers
  return the serialised arrays as values, not as text.
- `index.js` writing `scraped_data.json`, and `scraper.js` writing `data/output.json`: the output
  is the returned `Option`, where `None` means nothing is written. A failure of `writeFile` itself
  is not modelled.
- `fs.mkdirSync` / `fs.mkdir` are taken to always succeed, so directories are not part of the file
  map. `path.join` is plain `/`-concatenation, so it does not normalise `..` or doubled slashes.
- The output folder `path.join(__dirname, "static_site")` and the CSS string are parameters of the
  `Site2.Generator` constructor.
- `console.log`, `console.warn`, `console.error` and the trailing script invocations have no
  observable effect on the modelled state.
- `async`/`await`: every call is awaited in sequence, so the model is sequential.
- Scraper areas are values: in `Scraper`, an area is an `AreaRec`-shaped value holding `Problem`
  and `Sector` objects. `main` writes each updated area back into its array slot. Nothing else
  refers to an area object, so this matches the in-place update in scraper.js.
- scraper.js's `scrapeMainPage` reads `#arealist2 a.inlinetable` on `BASE_URL` only. Its
  commented-out code (lines 16, 77, 89-115 and 120-127) is not modelled.
- Behaviour the code does not implement is not modelled: disambiguating sibling names, clamping
  ratings, dropping empty names, and keeping sectors and direct problems apart.
  `Site2.SiblingCollision`, `Site2.EmptyTokenOverwritesIndex` and
  `Site2.DirectProblemReplacesAreaPage` state what happens instead.
