/** `extractLinks(doc, baseUrl)`: the absolute URLs of a page's anchors
    that the crawl may follow. */
module Links {
  import opened Fallible
  import opened Strings
  import opened Seqs
  import opened Platform

  /** Anchors the crawler never resolves: an empty `href`, and the
      `javascript:`, `mailto:`, `tel:` and fragment-only ones (all
      case-sensitive prefixes). */
  predicate SkippedHref(href: string) {
    href == "" || StartsWith(href, "javascript:") || StartsWith(href, "mailto:") ||
    StartsWith(href, "tel:") || StartsWith(href, "#")
  }

  /** What one anchor contributes. A reference or resolved URL that does
      not parse throws inside the per-anchor `try` and is skipped; an
      external link survives only with `followExternal`. */
  function LinkTarget(env: Env, origin: string, followExternal: bool, pageUrl: string, href: string): Option<string> {
    if SkippedHref(href) then None
    else
      match env.resolve(href, pageUrl)
      case Err(_) => None
      case Ok(abs) =>
        match env.parse(abs)
        case Err(_) => None
        case Ok(u) => if u.origin != origin && !followExternal then None else Some(abs)
  }

  /** The links of a page, in document order, one per surviving anchor
      (duplicates kept). `origin` is the crawl's base origin, `pageUrl` the
      page the relative references are resolved against. */
  function ExtractLinks(env: Env, origin: string, followExternal: bool, pageUrl: string, doc: PageDoc): (links: seq<string>)
    ensures |links| <= |doc.hrefs|
    ensures forall k | 0 <= k < |links| :: env.parse(links[k]).Ok? && (env.parse(links[k]).value.origin == origin || followExternal)
  {
    var f := href => LinkTarget(env, origin, followExternal, pageUrl, href);
    var links := FilterMap(f, doc.hrefs);
    forall k | 0 <= k < |links|
      ensures env.parse(links[k]).Ok? && (env.parse(links[k]).value.origin == origin || followExternal)
    {
      FilterMapMember(f, doc.hrefs, links[k]);
    }
    links
  }

  /** A URL is extracted exactly when some anchor that is not skipped
      resolves to it, and it parses to the crawl's origin or external links
      are followed. */
  lemma ExtractedLink(env: Env, origin: string, followExternal: bool, pageUrl: string, doc: PageDoc, l: string)
    ensures l in ExtractLinks(env, origin, followExternal, pageUrl, doc) <==>
      exists i | 0 <= i < |doc.hrefs| ::
        !SkippedHref(doc.hrefs[i]) && env.resolve(doc.hrefs[i], pageUrl) == Ok(l) &&
        env.parse(l).Ok? && (env.parse(l).value.origin == origin || followExternal)
  {
    var f := href => LinkTarget(env, origin, followExternal, pageUrl, href);
    FilterMapMember(f, doc.hrefs, l);
  }

  /** Without `followExternal`, every extracted link has the crawl's
      origin. */
  lemma LinksStayOnOrigin(env: Env, origin: string, pageUrl: string, doc: PageDoc, l: string)
    requires l in ExtractLinks(env, origin, false, pageUrl, doc)
    ensures env.parse(l).Ok? && env.parse(l).value.origin == origin
  {
    ExtractedLink(env, origin, false, pageUrl, doc, l);
  }

  /** Keep a link only if it parses to the given origin. */
  function SameOrigin(env: Env, origin: string, l: string): Option<string> {
    match env.parse(l)
    case Err(_) => None
    case Ok(u) => if u.origin == origin then Some(l) else None
  }

  /** Turning `followExternal` off keeps exactly the same-origin links of
      the followed list, in the same order. */
  lemma FollowExternalFilters(env: Env, origin: string, pageUrl: string, doc: PageDoc)
    ensures ExtractLinks(env, origin, false, pageUrl, doc) ==
      FilterMap(l => SameOrigin(env, origin, l), ExtractLinks(env, origin, true, pageUrl, doc))
  {
    var f := href => LinkTarget(env, origin, true, pageUrl, href);
    var g := l => SameOrigin(env, origin, l);
    var h := href => LinkTarget(env, origin, false, pageUrl, href);
    FilterMapCompose(f, g, h, doc.hrefs);
  }

  /** An anchor that is skipped contributes nothing, wherever it stands. */
  lemma SkippedAnchorIgnored(env: Env, origin: string, followExternal: bool, pageUrl: string,
                             a: seq<string>, href: string, b: seq<string>)
    requires SkippedHref(href)
    ensures ExtractLinks(env, origin, followExternal, pageUrl, PageDoc("", a + [href] + b)) ==
      ExtractLinks(env, origin, followExternal, pageUrl, PageDoc("", a + b))
  {
    var f := h => LinkTarget(env, origin, followExternal, pageUrl, h);
    FilterMapAppend(f, a + [href], b);
    FilterMapAppend(f, a, [href]);
    FilterMapAppend(f, a, b);
  }
}
