/**
 * The records the crawler of scraper.js builds and serialises to
 * data/output.json, which htmlGenerator2.js and htmlGenerator.js read back.
 * A field that the JavaScript object never received, or that received
 * `undefined`, is `None`; both are dropped by `JSON.stringify`.
 * An image list entry is `None` when the thumbnail had no `href`; it is
 * serialised as `null`.
 */
module Records {
  import opened Maybe

  datatype ProblemRec = ProblemRec(
    name: string,
    url: Option<string>,
    grade: Option<string>,
    rating: Option<nat>,
    description: Option<string>,
    coordinate: Option<string>,
    mapsLink: Option<string>,
    landing: Option<string>,
    sitStart: Option<string>,
    images: Option<seq<Option<string>>>)

  datatype SectorRec = SectorRec(
    name: string,
    url: Option<string>,
    description: Option<string>,
    coordinate: Option<string>,
    mapsLink: Option<string>,
    images: Option<seq<Option<string>>>,
    problems: Option<seq<ProblemRec>>)

  datatype AreaRec = AreaRec(
    name: string,
    url: Option<string>,
    description: Option<string>,
    coordinate: Option<string>,
    mapsLink: Option<string>,
    images: Option<seq<Option<string>>>,
    sectors: Option<seq<SectorRec>>,
    problems: Option<seq<ProblemRec>>)

  /** A `{ name, url }` object as the link-listing pages create them. */
  function LinkedProblem(name: string, url: Option<string>): ProblemRec {
    ProblemRec(name, url, None, None, None, None, None, None, None, None)
  }

  function LinkedSector(name: string, url: Option<string>): SectorRec {
    SectorRec(name, url, None, None, None, None, None)
  }

  function LinkedArea(name: string, url: Option<string>): AreaRec {
    AreaRec(name, url, None, None, None, None, None, None)
  }
}
