/**
 * The HTTP side of the crawlers, abstracted: a web is a map from URL to what
 * fetching that URL yields. A URL that is absent from the map, or an
 * undefined URL, fails like a network error does.
 */
module Fetch {
  import opened Maybe

  /** `axios.get` either resolves with a page, rejects with status 404, or rejects otherwise. */
  datatype FetchResult<P> = Ok(page: P) | NotFound | Error

  type Web<P> = map<string, FetchResult<P>>

  function Get<P>(web: Web<P>, url: Option<string>): (r: FetchResult<P>)
    ensures r.Ok? ==> url.Some? && url.value in web
  {
    if url.Some? && url.value in web then web[url.value] else Error
  }

  /** A selected `<a>` element: its `href` attribute (if any) and its text. */
  datatype Link = Link(href: Option<string>, text: string)
}
