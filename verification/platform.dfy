/** The foreign capabilities the crawler calls, reduced to the values it
    reads from them. */
module Platform {
  import opened Fallible

  /** The fields of a WHATWG `URL` object the crawler reads. */
  datatype Url = Url(href: string, origin: string, pathname: string)

  /** A fetch response: status code, the `content-type` header (empty when
      absent, as `headers.get(..) || ''` yields) and the body text. */
  datatype Response = Response(status: nat, contentType: string, body: string) {
    /** `response.ok` */
    predicate Ok() {
      200 <= status <= 299
    }
  }

  /** What one call of the transport produced: a response, or a thrown
      error with its message. */
  datatype Attempt = Responded(response: Response) | Threw(message: string)

  /** What the crawler reads from a parsed HTML page: `doc.title` and the
      `href` attribute of every `a[href]`, in document order. */
  datatype PageDoc = PageDoc(title: string, hrefs: seq<string>)

  /** What the crawler reads from a parsed sitemap: the text of every
      `url loc` element and of every `sitemap loc` element, in order. */
  datatype SitemapDoc = SitemapDoc(urlLocs: seq<string>, sitemapLocs: seq<string>)

  /** The foreign engines, as total functions:
      - `parse(s)` is `new URL(s)`;
      - `resolve(ref, base)` is `new URL(ref, base).href`;
      - `regexTest(p, s)` is `new RegExp(p).test(s)`, `Err` for a pattern
        that does not compile;
      - `parseHtml(html)` is `DOMParser.parseFromString(html, 'text/html')`;
      - `parseXml(xml)` is `DOMParser.parseFromString(xml, 'text/xml')`;
      - `fetch(u)` is the single GET of `robots.txt` or of a sitemap. */
  datatype Env = Env(
    parse: string -> Result<Url>,
    resolve: (string, string) -> Result<string>,
    regexTest: (string, string) -> Result<bool>,
    parseHtml: string -> PageDoc,
    parseXml: string -> SitemapDoc,
    fetch: string -> Attempt)
}
