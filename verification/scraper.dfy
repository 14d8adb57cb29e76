/** The page extraction of the `Scraper` class: `extractData` and the
    extractors it assembles. The DOM, URL resolution, selector engines and
    the LLM call are foreign; the model receives what they return. */
module Scrape {
  import opened Fallible
  import opened Strings
  import opened Seqs
  import Text

  /** The scraper's options, as the constructor fills them in. */
  datatype ScrapeConfig = ScrapeConfig(
    extractText: bool,
    extractImages: bool,
    extractLinks: bool,
    extractVideos: bool,
    includeHeaders: bool,
    extractCss: bool,
    extractHtml: bool,
    cssSelector: string,
    xpathSelector: string,
    enableLlm: bool,
    llmProvider: string,
    llmModel: string,
    llmPrompt: string)

  /** The constructor's defaults: text only, no selectors, no LLM. */
  const DefaultScrapeConfig := ScrapeConfig(true, false, false, false, false, false, false, "", "", false,
                                            "openrouter", "openai/gpt-3.5-turbo", "")

  /** An `a[href]` element: its `href` attribute and its text content. */
  datatype Anchor = Anchor(href: string, text: string)

  /** What the extractors read from a parsed page, in document order:
      `body.textContent`, the `src` of every `img[src]`, every `a[href]`,
      the `src` of every `video source[src]` and the text of every `style`. */
  datatype Document = Document(
    bodyText: string,
    imgSrcs: seq<string>,
    anchors: seq<Anchor>,
    videoSrcs: seq<string>,
    styles: seq<string>)

  /** An extracted link: trimmed text and absolute URL. */
  datatype Link = Link(text: string, href: string)

  /** The foreign engines, as total functions:
      - `parseHtml(html)` is `DOMParser.parseFromString(html, 'text/html')`;
      - `resolve(ref, base)` is `new URL(ref, base).href`;
      - `querySelector(doc, sel)` is the text content of the first match,
        `None` when nothing matches, `Err` for a selector that throws;
      - `evaluateXPath(doc, x)` is the `stringValue` of the expression as a
        string, `Err` when the evaluation throws;
      - `sendToLlm(text, provider, model, prompt)` is the LLM's reply or the
        message of the error it throws. */
  datatype Host = Host(
    parseHtml: string -> Document,
    resolve: (string, string) -> Result<string>,
    querySelector: (Document, string) -> Result<Option<string>>,
    evaluateXPath: (Document, string) -> Result<string>,
    sendToLlm: (string, string, string, string) -> Result<string>)

  /** The object `extractData` resolves to; a field is `None` when the
      object has no such property. */
  datatype Extracted = Extracted(
    text: Option<string>,
    images: Option<seq<string>>,
    links: Option<seq<Link>>,
    videos: Option<seq<string>>,
    css: Option<string>,
    html: Option<string>,
    customCss: Option<string>,
    customXPath: Option<string>,
    llm: Option<string>)

  /** `extractText(doc)`: the body's text in normal form, made of its words. */
  function ExtractText(doc: Document): (r: string)
    ensures Text.Normalized(r)
    ensures Text.Words(r) == Text.Words(doc.bodyText)
  {
    Text.NormalizeKeepsWords(doc.bodyText);
    Text.NormalizeText(doc.bodyText)
  }

  /** Resolving one reference against the page URL; a reference that
      throws is skipped. */
  function ResolveStep(host: Host, base: string): string -> Option<string> {
    s => host.resolve(s, base).ToOption()
  }

  /** The loop shared by `extractImages` and `extractVideos`: each `src`
      resolved in document order, the ones that throw skipped. */
  function ResolveAll(host: Host, srcs: seq<string>, base: string): (us: seq<string>)
    ensures |us| <= |srcs|
    ensures forall k | 0 <= k < |us| :: exists i | 0 <= i < |srcs| :: host.resolve(srcs[i], base) == Ok(us[k])
  {
    var f := ResolveStep(host, base);
    var us := FilterMap(f, srcs);
    forall k | 0 <= k < |us|
      ensures exists i | 0 <= i < |srcs| :: host.resolve(srcs[i], base) == Ok(us[k])
    {
      FilterMapMember(f, srcs, us[k]);
      var i :| 0 <= i < |srcs| && f(srcs[i]) == Some(us[k]);
      assert host.resolve(srcs[i], base) == Ok(us[k]);
    }
    us
  }

  /** `extractImages(doc, baseUrl)`: each image URL is the resolution of
      some `img[src]`. */
  function ExtractImages(host: Host, doc: Document, base: string): (us: seq<string>)
    ensures |us| <= |doc.imgSrcs|
    ensures forall k | 0 <= k < |us| :: exists i | 0 <= i < |doc.imgSrcs| :: host.resolve(doc.imgSrcs[i], base) == Ok(us[k])
  {
    ResolveAll(host, doc.imgSrcs, base)
  }

  /** `extractVideos(doc, baseUrl)`: each video URL is the resolution of
      some `video source[src]`. */
  function ExtractVideos(host: Host, doc: Document, base: string): (us: seq<string>)
    ensures |us| <= |doc.videoSrcs|
    ensures forall k | 0 <= k < |us| :: exists i | 0 <= i < |doc.videoSrcs| :: host.resolve(doc.videoSrcs[i], base) == Ok(us[k])
  {
    ResolveAll(host, doc.videoSrcs, base)
  }

  /** One anchor of `extractLinks`: its trimmed text and resolved `href`,
      nothing when the `href` does not resolve. */
  function LinkOf(host: Host, base: string, a: Anchor): Option<Link> {
    match host.resolve(a.href, base)
    case Ok(h) => Some(Link(Trim(a.text), h))
    case Err(_) => None
  }

  function LinkStep(host: Host, base: string): Anchor -> Option<Link> {
    a => LinkOf(host, base, a)
  }

  /** `extractLinks(doc, baseUrl)`: one link per resolvable anchor, in
      document order, its text trimmed. */
  function ExtractLinks(host: Host, doc: Document, base: string): (links: seq<Link>)
    ensures |links| <= |doc.anchors|
    ensures forall k | 0 <= k < |links| :: Trimmed(links[k].text)
    ensures forall k | 0 <= k < |links| :: exists i | 0 <= i < |doc.anchors| ::
      host.resolve(doc.anchors[i].href, base).Ok? &&
      links[k] == Link(Trim(doc.anchors[i].text), host.resolve(doc.anchors[i].href, base).value)
  {
    var f := LinkStep(host, base);
    var links := FilterMap(f, doc.anchors);
    forall k | 0 <= k < |links|
      ensures Trimmed(links[k].text)
      ensures exists i | 0 <= i < |doc.anchors| ::
        host.resolve(doc.anchors[i].href, base).Ok? &&
        links[k] == Link(Trim(doc.anchors[i].text), host.resolve(doc.anchors[i].href, base).value)
    {
      FilterMapMember(f, doc.anchors, links[k]);
      var i :| 0 <= i < |doc.anchors| && f(doc.anchors[i]) == Some(links[k]);
      assert LinkOf(host, base, doc.anchors[i]) == Some(links[k]);
    }
    links
  }

  /** `extractCss(doc)`: `css += style.textContent + '\n'` over the style
      blocks in document order. */
  function ExtractCss(styles: seq<string>): (css: string)
    ensures css == "" <==> |styles| == 0
    ensures |styles| > 0 ==> css[|css| - 1] == '\n'
    ensures |styles| <= |css|
    decreases |styles|
  {
    if |styles| == 0 then ""
    else ExtractCss(styles[..|styles| - 1]) + styles[|styles| - 1] + "\n"
  }

  /** `extractWithCssSelector(doc, selector)`: the trimmed text of the first
      match; the empty string when nothing matches or the selector throws. */
  function ExtractWithCssSelector(host: Host, doc: Document, selector: string): (r: string)
    ensures Trimmed(r)
    ensures r != "" ==> host.querySelector(doc, selector).Ok? && host.querySelector(doc, selector).value.Some?
    ensures host.querySelector(doc, selector).Ok? && host.querySelector(doc, selector).value.Some? ==>
      r == Trim(host.querySelector(doc, selector).value.value)
  {
    match host.querySelector(doc, selector)
    case Ok(Some(t)) => Trim(t)
    case Ok(None) => ""
    case Err(_) => ""
  }

  /** `extractWithXPath(doc, xpath)`: the trimmed string value; the empty
      string when the evaluation throws. */
  function ExtractWithXPath(host: Host, doc: Document, xpath: string): (r: string)
    ensures Trimmed(r)
    ensures r != "" ==> host.evaluateXPath(doc, xpath).Ok?
    ensures host.evaluateXPath(doc, xpath).Ok? ==> r == Trim(host.evaluateXPath(doc, xpath).value)
  {
    match host.evaluateXPath(doc, xpath)
    case Ok(v) => Trim(v)
    case Err(_) => ""
  }

  /** What `applyLlm` answers when there is no text. */
  const NoText := "No text to analyze."

  /** `applyLlm(text, url)`: no text (absent or empty) short-circuits; the
      LLM's reply otherwise, and a failure becomes `Error: <message>`
      instead of a throw. */
  function ApplyLlm(host: Host, cfg: ScrapeConfig, text: Option<string>): (r: string)
    ensures text.None? || text.value == "" ==> r == NoText
    ensures text.Some? && text.value != "" ==>
      match host.sendToLlm(text.value, cfg.llmProvider, cfg.llmModel, cfg.llmPrompt)
      case Ok(reply) => r == reply
      case Err(m) => r == "Error: " + m
  {
    if text.None? || text.value == "" then NoText
    else
      match host.sendToLlm(text.value, cfg.llmProvider, cfg.llmModel, cfg.llmPrompt)
      case Ok(reply) => reply
      case Err(m) => "Error: " + m
  }

  /** `extractData(html, url)`: every field present exactly when its option
      is set and then holding its extractor's result on the parsed page, the
      text in normal form, the html unchanged, the selector results trimmed,
      and the LLM fed the extracted text. */
  function ExtractData(host: Host, cfg: ScrapeConfig, html: string, url: string): (r: Extracted)
    ensures r.text.Some? <==> cfg.extractText
    ensures r.images.Some? <==> cfg.extractImages
    ensures r.links.Some? <==> cfg.extractLinks
    ensures r.videos.Some? <==> cfg.extractVideos
    ensures r.css.Some? <==> cfg.extractCss
    ensures r.html.Some? <==> cfg.extractHtml
    ensures r.customCss.Some? <==> cfg.cssSelector != ""
    ensures r.customXPath.Some? <==> cfg.xpathSelector != ""
    ensures r.llm.Some? <==> cfg.enableLlm
    ensures r.html.Some? ==> r.html.value == html
    ensures r.text.Some? ==> (Text.Normalized(r.text.value) &&
      Text.Words(r.text.value) == Text.Words(host.parseHtml(html).bodyText))
    ensures r.images.Some? ==> r.images.value == ExtractImages(host, host.parseHtml(html), url)
    ensures r.links.Some? ==> r.links.value == ExtractLinks(host, host.parseHtml(html), url)
    ensures r.videos.Some? ==> r.videos.value == ExtractVideos(host, host.parseHtml(html), url)
    ensures r.css.Some? ==> r.css.value == ExtractCss(host.parseHtml(html).styles)
    ensures r.customCss.Some? ==> r.customCss.value == ExtractWithCssSelector(host, host.parseHtml(html), cfg.cssSelector)
    ensures r.customXPath.Some? ==> r.customXPath.value == ExtractWithXPath(host, host.parseHtml(html), cfg.xpathSelector)
    ensures r.customCss.Some? ==> Trimmed(r.customCss.value)
    ensures r.customXPath.Some? ==> Trimmed(r.customXPath.value)
    ensures r.llm.Some? ==> r.llm.value == ApplyLlm(host, cfg, r.text)
  {
    var doc := host.parseHtml(html);
    var text := When(cfg.extractText, ExtractText(doc));
    Extracted(
      text,
      When(cfg.extractImages, ExtractImages(host, doc, url)),
      When(cfg.extractLinks, ExtractLinks(host, doc, url)),
      When(cfg.extractVideos, ExtractVideos(host, doc, url)),
      When(cfg.extractCss, ExtractCss(doc.styles)),
      When(cfg.extractHtml, html),
      When(cfg.cssSelector != "", ExtractWithCssSelector(host, doc, cfg.cssSelector)),
      When(cfg.xpathSelector != "", ExtractWithXPath(host, doc, cfg.xpathSelector)),
      When(cfg.enableLlm, ApplyLlm(host, cfg, text)))
  }

  /** A property set only under its option. */
  function When<T>(on: bool, v: T): (o: Option<T>)
    ensures o.Some? <==> on
    ensures o.Some? ==> o.value == v
  {
    if on then Some(v) else None
  }

  /** A URL is extracted exactly when some `src` resolves to it. */
  lemma ResolvedMember(host: Host, srcs: seq<string>, base: string, u: string)
    ensures u in ResolveAll(host, srcs, base) <==>
      exists i | 0 <= i < |srcs| :: host.resolve(srcs[i], base) == Ok(u)
  {
    var f := ResolveStep(host, base);
    FilterMapMember(f, srcs, u);
    assert forall i | 0 <= i < |srcs| :: (f(srcs[i]) == Some(u) <==> host.resolve(srcs[i], base) == Ok(u));
  }

  /** When every `src` resolves, the result has one URL per element, each
      the resolution of the element at the same position. */
  lemma AllResolved(host: Host, srcs: seq<string>, base: string)
    requires forall i | 0 <= i < |srcs| :: host.resolve(srcs[i], base).Ok?
    ensures |ResolveAll(host, srcs, base)| == |srcs|
    ensures forall i | 0 <= i < |srcs| :: ResolveAll(host, srcs, base)[i] == host.resolve(srcs[i], base).value
  {
    FilterMapTotal(ResolveStep(host, base), srcs);
  }

  /** Document order is kept: the URLs of two runs of elements are those of
      the first run, then those of the second. */
  lemma ResolveInOrder(host: Host, a: seq<string>, b: seq<string>, base: string)
    ensures ResolveAll(host, a + b, base) == ResolveAll(host, a, base) + ResolveAll(host, b, base)
  {
    FilterMapAppend(ResolveStep(host, base), a, b);
  }

  function HrefStep(): Anchor -> Option<string> {
    (a: Anchor) => Some(a.href)
  }

  function LinkHrefStep(): Link -> Option<string> {
    (l: Link) => Some(l.href)
  }

  /** The links' URLs are exactly the resolved `href`s, as the same loop
      over the hrefs alone would give them. */
  lemma LinkHrefsResolved(host: Host, doc: Document, base: string)
    ensures FilterMap(LinkHrefStep(), ExtractLinks(host, doc, base)) ==
      ResolveAll(host, FilterMap(HrefStep(), doc.anchors), base)
  {
    var h := (a: Anchor) => host.resolve(a.href, base).ToOption();
    FilterMapCompose(LinkStep(host, base), LinkHrefStep(), h, doc.anchors);
    FilterMapCompose(HrefStep(), ResolveStep(host, base), h, doc.anchors);
  }

  /** A link is extracted exactly when some anchor resolves to its URL
      and has its text, trimmed. */
  lemma LinkMember(host: Host, doc: Document, base: string, l: Link)
    ensures l in ExtractLinks(host, doc, base) <==>
      exists i | 0 <= i < |doc.anchors| ::
        host.resolve(doc.anchors[i].href, base) == Ok(l.href) && l.text == Trim(doc.anchors[i].text)
  {
    var f := LinkStep(host, base);
    FilterMapMember(f, doc.anchors, l);
    forall i | 0 <= i < |doc.anchors|
      ensures f(doc.anchors[i]) == Some(l) <==>
        host.resolve(doc.anchors[i].href, base) == Ok(l.href) && l.text == Trim(doc.anchors[i].text)
    {
      assert f(doc.anchors[i]) == LinkOf(host, base, doc.anchors[i]);
    }
  }

  function LinkTextStep(): Link -> Option<string> {
    (l: Link) => Some(l.text)
  }

  /** The trimmed text of an anchor whose `href` resolves. */
  function ResolvableText(host: Host, base: string): Anchor -> Option<string> {
    (a: Anchor) => if host.resolve(a.href, base).Ok? then Some(Trim(a.text)) else None
  }

  /** The links' texts are the trimmed texts of the resolvable anchors, in
      document order. */
  lemma LinkTextsTrimmed(host: Host, doc: Document, base: string)
    ensures FilterMap(LinkTextStep(), ExtractLinks(host, doc, base)) ==
      FilterMap(ResolvableText(host, base), doc.anchors)
  {
    FilterMapCompose(LinkStep(host, base), LinkTextStep(), ResolvableText(host, base), doc.anchors);
  }

  /** The style blocks joined by newlines, with a final newline. */
  lemma {:induction false} CssIsJoin(styles: seq<string>)
    ensures ExtractCss(styles) == JoinWith(styles + [""], '\n')
    decreases |styles|
  {
    if |styles| > 0 {
      var xs, y := styles[..|styles| - 1], styles[|styles| - 1];
      assert styles == xs + [y];
      CssIsJoin(xs);
      JoinSnoc(xs + [y], "", '\n');
      if |xs| == 0 {
        assert JoinWith(xs + [y], '\n') == y;
      } else {
        JoinSnoc(xs, y, '\n');
        JoinSnoc(xs, "", '\n');
      }
    }
  }

  /** Splitting the CSS at newlines gives the blocks back, followed by the
      empty piece after the final newline, when no block holds a newline. */
  lemma CssSplitsIntoBlocks(styles: seq<string>)
    requires forall i | 0 <= i < |styles| :: '\n' !in styles[i]
    ensures SplitOn(ExtractCss(styles), '\n') == styles + [""]
  {
    NewlineFreeWithEmpty(styles);
    CssIsJoin(styles);
    SplitJoin(styles + [""], '\n');
  }

  lemma NewlineFreeWithEmpty(styles: seq<string>)
    requires forall i | 0 <= i < |styles| :: '\n' !in styles[i]
    ensures forall k | 0 <= k < |styles + [""]| :: '\n' !in (styles + [""])[k]
  {
    var parts := styles + [""];
    forall k | 0 <= k < |parts| ensures '\n' !in parts[k] {
      if k < |styles| { assert parts[k] == styles[k]; }
    }
  }

  /** A selector that throws, or matches nothing, yields the empty string. */
  lemma SelectorFailureIsEmpty(host: Host, doc: Document, selector: string)
    requires host.querySelector(doc, selector).Err? || host.querySelector(doc, selector) == Ok(None)
    ensures ExtractWithCssSelector(host, doc, selector) == ""
  {
  }

  /** The selector yields the empty string exactly when it throws, matches
      nothing, or matches an element whose text is all whitespace. */
  lemma CssSelectorEmpty(host: Host, doc: Document, selector: string)
    ensures var q := host.querySelector(doc, selector);
      ExtractWithCssSelector(host, doc, selector) == "" <==> q.Err? || q.value.None? || AllSpace(q.value.value)
  {
    var q := host.querySelector(doc, selector);
    if q.Ok? && q.value.Some? {
      TrimEmpty(q.value.value);
    }
  }

  /** The XPath yields the empty string exactly when the evaluation throws
      or gives a string that is all whitespace. */
  lemma XPathEmpty(host: Host, doc: Document, xpath: string)
    ensures var v := host.evaluateXPath(doc, xpath);
      ExtractWithXPath(host, doc, xpath) == "" <==> v.Err? || AllSpace(v.value)
  {
    var v := host.evaluateXPath(doc, xpath);
    if v.Ok? {
      TrimEmpty(v.value);
    }
  }

  /** With no text the LLM is never consulted: any two LLMs give the same
      answer. */
  lemma LlmSkippedWithoutText(host: Host, host': Host, cfg: ScrapeConfig, text: Option<string>)
    requires text.None? || text.value == ""
    ensures ApplyLlm(host, cfg, text) == ApplyLlm(host', cfg, text)
  {
  }

  /** With text extraction off, an enabled LLM always answers that there is
      no text. */
  lemma LlmNeedsText(host: Host, cfg: ScrapeConfig, html: string, url: string)
    requires cfg.enableLlm && !cfg.extractText
    ensures ExtractData(host, cfg, html, url).llm == Some(NoText)
  {
  }

  /** The defaults extract the text and nothing else. */
  lemma DefaultsExtractTextOnly(host: Host, html: string, url: string)
    ensures var r := ExtractData(host, DefaultScrapeConfig, html, url);
      r.text.Some? && r.images.None? && r.links.None? && r.videos.None? && r.css.None? &&
      r.html.None? && r.customCss.None? && r.customXPath.None? && r.llm.None?
  {
  }
}
