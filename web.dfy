/**
 * The scraper's view of the outside world: the site it fetches from and the ways a
 * step can fail. HTTP, HTML parsing and UTF-8 decoding are not modelled; a response
 * carries what the scraper reads from it.
 */
module Web {
  import opened Wrappers
  import Format

  const BaseUrl := "https://www.realmofdarkness.net"
  const TargetUrl := "https://www.realmofdarkness.net/sb/soundboards/"

  type Bytes = seq<bv8>

  /**
   * What one GET returns: the text of the `<title>` tag (None when the page has none),
   * the string form of every `<a>` tag in document order, the body decoded as text,
   * and the raw body.
   */
  datatype Response = Response(title: Option<string>, anchors: seq<string>, text: string, content: Bytes)

  /** The site: the response of every URL that answers; any other URL fails to fetch. */
  type Site = map<string, Response>

  /** The exceptions that abort a run. */
  datatype Error =
    | FetchError(url: string)                   // the GET itself failed
    | NoTitle                                   // `soup.find("title")` is None, so `.text` raises
    | IndexError                                // a `pop` or an index past the end of a list
    | FormatError(reason: Format.FormatError)   // `audio_url % sound_file` raised
    | FileError(path: string)                   // `open(path, "wb")` in a directory that does not exist

  /** `requests.get(url)`. */
  function Get(site: Site, url: string): (r: Result<Response, Error>)
    ensures r.Success? <==> url in site
    ensures r.Success? ==> r.value == site[url]
    ensures r.Failure? ==> r.error == FetchError(url)
  {
    if url in site then Success(site[url]) else Failure(FetchError(url))
  }
}
