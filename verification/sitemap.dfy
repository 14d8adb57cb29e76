/** URL discovery before the crawl: `fetchRobotsTxt`, `fetchSitemap` and
    `fetchSitemapFromUrl`. Every failure here is caught and logged, so each
    operation yields what it found, possibly nothing. */
module Sitemaps {
  import opened Fallible
  import opened Strings
  import opened Seqs
  import opened Platform
  import Robots

  /** A URL the crawl may take from a sitemap: it parses, and it is on the
      crawl's origin unless external URLs are followed. */
  predicate Admissible(env: Env, origin: string, followExternal: bool, u: string) {
    env.parse(u).Ok? && (env.parse(u).value.origin == origin || followExternal)
  }

  /** What one `url loc` contributes: its raw text, when admissible. */
  function SitemapEntry(env: Env, origin: string, followExternal: bool, loc: string): (r: Option<string>)
    ensures r.Some? <==> Admissible(env, origin, followExternal, loc)
    ensures r.Some? ==> r.value == loc
  {
    match env.parse(loc)
    case Err(_) => None
    case Ok(u) => if u.origin != origin && !followExternal then None else Some(loc)
  }

  /** `fetchSitemapFromUrl(sitemapUrl)`: the admissible `url loc` texts of
      the document, in order, or the error it throws (the transport's, or
      `Failed to fetch sitemap: <status>`). */
  function FetchSitemapFromUrl(env: Env, origin: string, followExternal: bool, sitemapUrl: string): (r: Result<seq<string>>)
    ensures r.Ok? ==> forall i | 0 <= i < |r.value| :: Admissible(env, origin, followExternal, r.value[i])
  {
    match env.fetch(sitemapUrl)
    case Threw(m) => Err(m)
    case Responded(resp) =>
      if !resp.Ok() then Err("Failed to fetch sitemap: " + NatToString(resp.status))
      else
        var locs := env.parseXml(resp.body).urlLocs;
        var f := loc => SitemapEntry(env, origin, followExternal, loc);
        var kept := FilterMap(f, locs);
        forall i | 0 <= i < |kept| ensures Admissible(env, origin, followExternal, kept[i]) {
          FilterMapMember(f, locs, kept[i]);
        }
        Ok(kept)
  }

  /** The URLs a sitemap fetch added, nothing when it threw. */
  function Found(r: Result<seq<string>>): seq<string> {
    match r
    case Ok(us) => us
    case Err(_) => []
  }

  /** Fetch each listed sitemap in turn, each failure caught on its own. */
  function SitemapsFrom(env: Env, origin: string, followExternal: bool, locs: seq<string>): (us: seq<string>)
    ensures forall i | 0 <= i < |us| :: Admissible(env, origin, followExternal, us[i])
  {
    if |locs| == 0 then []
    else Found(FetchSitemapFromUrl(env, origin, followExternal, locs[0])) + SitemapsFrom(env, origin, followExternal, locs[1..])
  }

  /** `fetchSitemap()`: `/sitemap.xml` on the origin; only when that throws,
      the `sitemap loc` entries of `/sitemap_index.xml`, one level deep. */
  function FetchSitemap(env: Env, origin: string, followExternal: bool): (us: seq<string>)
    ensures forall i | 0 <= i < |us| :: Admissible(env, origin, followExternal, us[i])
  {
    match FetchSitemapFromUrl(env, origin, followExternal, origin + "/sitemap.xml")
    case Ok(us) => us
    case Err(_) =>
      match env.fetch(origin + "/sitemap_index.xml")
      case Threw(_) => []
      case Responded(resp) =>
        if !resp.Ok() then []
        else SitemapsFrom(env, origin, followExternal, env.parseXml(resp.body).sitemapLocs)
  }

  /** The request to `url` came back with an ok status. */
  predicate FetchedOk(env: Env, url: string) {
    env.fetch(url).Responded? && env.fetch(url).response.Ok()
  }

  /** What `fetchRobotsTxt()` leaves behind: the file's text, the
      disallowed paths, and the URLs of the sitemaps it names. */
  datatype RobotsFetch = RobotsFetch(robotsTxt: Option<string>, disallowed: seq<string>, sitemapUrls: seq<string>)

  /** `fetchRobotsTxt()`: a thrown fetch or a status that is not ok leaves
      no rules; otherwise the file is parsed, and with `useSitemap` every
      sitemap it names is fetched, each failure caught on its own. */
  function FetchRobotsTxt(env: Env, origin: string, useSitemap: bool, followExternal: bool): (r: RobotsFetch)
    ensures r.robotsTxt.None? ==> r.disallowed == [] && r.sitemapUrls == []
    ensures r.robotsTxt.Some? <==> FetchedOk(env, origin + "/robots.txt")
    ensures r.robotsTxt.Some? ==>
      r.robotsTxt.value == env.fetch(origin + "/robots.txt").response.body &&
      r.disallowed == Robots.ParseRobots(r.robotsTxt.value).disallowed
    ensures forall i | 0 <= i < |r.sitemapUrls| :: Admissible(env, origin, followExternal, r.sitemapUrls[i])
  {
    match env.fetch(origin + "/robots.txt")
    case Threw(_) => RobotsFetch(None, [], [])
    case Responded(resp) =>
      if !resp.Ok() then RobotsFetch(None, [], [])
      else
        var rules := Robots.ParseRobots(resp.body);
        RobotsFetch(Some(resp.body), rules.disallowed,
          if useSitemap then SitemapsFrom(env, origin, followExternal, rules.sitemaps) else [])
  }

  /** A URL comes from a sitemap exactly when it is the text of one of its
      `url loc` elements and is admissible. */
  lemma SitemapEntryMember(env: Env, origin: string, followExternal: bool, sitemapUrl: string, u: string)
    requires FetchSitemapFromUrl(env, origin, followExternal, sitemapUrl).Ok?
    ensures var resp := env.fetch(sitemapUrl).response;
      u in FetchSitemapFromUrl(env, origin, followExternal, sitemapUrl).value <==>
      u in env.parseXml(resp.body).urlLocs && Admissible(env, origin, followExternal, u)
  {
    var resp := env.fetch(sitemapUrl).response;
    var locs := env.parseXml(resp.body).urlLocs;
    FilterMapMember(loc => SitemapEntry(env, origin, followExternal, loc), locs, u);
  }

  /** A sitemap fetch fails exactly when the transport throws or the status
      is not ok. */
  lemma SitemapFetchFails(env: Env, origin: string, followExternal: bool, sitemapUrl: string)
    ensures FetchSitemapFromUrl(env, origin, followExternal, sitemapUrl).Err? <==>
      (env.fetch(sitemapUrl).Threw? || !env.fetch(sitemapUrl).response.Ok())
  {
  }

  /** The index is consulted only when `/sitemap.xml` fails. */
  lemma IndexOnlyOnFailure(env: Env, origin: string, followExternal: bool)
    requires FetchSitemapFromUrl(env, origin, followExternal, origin + "/sitemap.xml").Ok?
    ensures FetchSitemap(env, origin, followExternal) ==
      FetchSitemapFromUrl(env, origin, followExternal, origin + "/sitemap.xml").value
  {
  }

  /** Listing sitemaps one after the other collects their URLs one after
      the other. */
  lemma {:induction false} SitemapsFromAppend(env: Env, origin: string, followExternal: bool, a: seq<string>, b: seq<string>)
    ensures SitemapsFrom(env, origin, followExternal, a + b) ==
      SitemapsFrom(env, origin, followExternal, a) + SitemapsFrom(env, origin, followExternal, b)
    decreases |a|
  {
    if |a| == 0 {
      assert a + b == b;
    } else {
      assert (a + b)[1..] == a[1..] + b;
      SitemapsFromAppend(env, origin, followExternal, a[1..], b);
      AppendAssoc(Found(FetchSitemapFromUrl(env, origin, followExternal, a[0])),
                  SitemapsFrom(env, origin, followExternal, a[1..]),
                  SitemapsFrom(env, origin, followExternal, b));
    }
  }

  /** A URL is gathered from a list of sitemaps exactly when one of them
      was fetched and yielded it. */
  lemma {:induction false} SitemapsFromMember(env: Env, origin: string, followExternal: bool, locs: seq<string>, u: string)
    ensures u in SitemapsFrom(env, origin, followExternal, locs) <==>
      exists i | 0 <= i < |locs| :: u in Found(FetchSitemapFromUrl(env, origin, followExternal, locs[i]))
    decreases |locs|
  {
    if |locs| > 0 {
      SitemapsFromMember(env, origin, followExternal, locs[1..], u);
      if u in SitemapsFrom(env, origin, followExternal, locs[1..]) {
        var j :| 0 <= j < |locs[1..]| && u in Found(FetchSitemapFromUrl(env, origin, followExternal, locs[1..][j]));
        assert locs[1..][j] == locs[j + 1];
      }
      if exists i | 0 <= i < |locs| :: u in Found(FetchSitemapFromUrl(env, origin, followExternal, locs[i])) {
        var i :| 0 <= i < |locs| && u in Found(FetchSitemapFromUrl(env, origin, followExternal, locs[i]));
        if i > 0 {
          assert locs[i] == locs[1..][i - 1];
        }
      }
    }
  }

  /** With `useSitemap`, a URL comes from robots.txt exactly when one of the
      sitemaps its `Sitemap:` lines name was fetched and yielded it. */
  lemma RobotsSitemapMember(env: Env, origin: string, followExternal: bool, u: string)
    requires FetchedOk(env, origin + "/robots.txt")
    ensures var named := Robots.ParseRobots(env.fetch(origin + "/robots.txt").response.body).sitemaps;
      u in FetchRobotsTxt(env, origin, true, followExternal).sitemapUrls <==>
      exists i | 0 <= i < |named| :: FetchSitemapFromUrl(env, origin, followExternal, named[i]).Ok? &&
        u in FetchSitemapFromUrl(env, origin, followExternal, named[i]).value
  {
    var named := Robots.ParseRobots(env.fetch(origin + "/robots.txt").response.body).sitemaps;
    SitemapsFromMember(env, origin, followExternal, named, u);
  }

  /** With `useSitemap` off, robots.txt yields its rules but no URLs. */
  lemma RobotsSitemapsNeedFlag(env: Env, origin: string, followExternal: bool)
    ensures FetchRobotsTxt(env, origin, false, followExternal).sitemapUrls == []
  {
  }

  /** A robots.txt that was read yields the paths its parse collected. */
  lemma RobotsRulesAreParsed(env: Env, origin: string, useSitemap: bool, followExternal: bool)
    requires env.fetch(origin + "/robots.txt").Responded?
    requires env.fetch(origin + "/robots.txt").response.Ok()
    ensures FetchRobotsTxt(env, origin, useSitemap, followExternal).disallowed ==
      Robots.ParseRobots(env.fetch(origin + "/robots.txt").response.body).disallowed
  {
  }
}
