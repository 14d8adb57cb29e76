/** The `Crawler` class: its state, `reset`, `start`, the `processQueue`
    loop, `processUrl`, `stop`, `pause`, `resume` and `getStats`.

    The asynchronous run is a transition system. A `World` holds the
    crawler's fields, the `processUrl` promises still in flight (`tasks`),
    and the pending `start` calls, each waiting on its own top-level
    `processQueue` (`drivers`). Every `await` of the source is a point where
    another event may run; each event below is the code between two such
    points. */
module Crawl {
  import opened Fallible
  import opened Strings
  import opened Platform
  import Policy
  import Retry
  import Links
  import Sitemaps

  /** The configuration fields the crawl logic reads. */
  datatype Config = Config(
    maxDepth: nat,
    maxPages: nat,
    maxRetries: nat,
    respectRobots: bool,
    followExternal: bool,
    useSitemap: bool,
    includePattern: string,
    excludePattern: string,
    concurrentRequests: nat)
  {
    /** The fields `shouldCrawl` reads. */
    function Filter(): Policy.Filter {
      Policy.Filter(maxDepth, followExternal, includePattern, excludePattern)
    }
  }

  /** The constructor's defaults, each overridable by the caller. */
  const DefaultConfig: Config := Config(3, 100, 3, true, false, true, "", "", 3)

  /** A queued URL, its link depth, and where it came from: `"sitemap"`,
      `"start"` or the URL of the page that linked to it. */
  datatype QueueItem = QueueItem(url: string, depth: nat, from: string)

  /** A crawled page. */
  datatype PageResult = PageResult(url: string, depth: nat, from: string, title: string, html: string)

  /** A page whose processing threw. */
  datatype CrawlError = CrawlError(url: string, error: string, from: string)

  /** The crawler's fields. `activeRequests` is a plain counter and can go
      below zero (see `RestartWhileDraining`). */
  datatype Crawler = Crawler(
    config: Config,
    queue: seq<QueueItem>,
    visited: set<string>,
    inProgress: set<string>,
    robotsTxt: Option<string>,
    disallowed: seq<string>,
    sitemapUrls: seq<string>,
    baseUrl: string,
    running: bool,
    paused: bool,
    activeRequests: int,
    pagesProcessed: nat,
    totalPages: nat,
    results: seq<PageResult>,
    errors: seq<CrawlError>)

  /** `reset()`: every field back to its initial value except the
      configuration. */
  function Reset(c: Crawler): (r: Crawler)
    ensures r.config == c.config && Fresh(r)
  {
    Crawler(c.config, [], {}, {}, None, [], [], "", false, false, 0, 0, 0, [], [])
  }

  /** Nothing queued, seen, collected or counted, and not running. */
  predicate Fresh(c: Crawler) {
    c.queue == [] && c.visited == {} && c.inProgress == {} && c.robotsTxt == None &&
    c.disallowed == [] && c.sitemapUrls == [] && c.baseUrl == "" && !c.running && !c.paused &&
    c.activeRequests == 0 && c.pagesProcessed == 0 && c.totalPages == 0 &&
    c.results == [] && c.errors == []
  }

  /** `new Crawler(config)` */
  function NewCrawler(config: Config): (c: Crawler)
    ensures Fresh(c) && c.config == config
  {
    Reset(Crawler(config, [], {}, {}, None, [], [], "", false, false, 0, 0, 0, [], []))
  }

  /** `queue.some(item => item.url === url)` */
  predicate Queued(queue: seq<QueueItem>, url: string) {
    exists k | 0 <= k < |queue| :: queue[k].url == url
  }

  /** The sitemap URLs as depth-0 queue items, in order. */
  function SitemapItems(urls: seq<string>): (q: seq<QueueItem>)
    ensures |q| == |urls|
    ensures forall k | 0 <= k < |q| :: q[k] == QueueItem(urls[k], 0, "sitemap")
  {
    if |urls| == 0 then [] else [QueueItem(urls[0], 0, "sitemap")] + SitemapItems(urls[1..])
  }

  /** How a call of `start(url)` returns control. */
  datatype StartOutcome =
    | Rejected(message: string)  // already running: nothing changes
    | Aborted(message: string)   // the URL did not parse
    | Started                    // the queue is seeded and the loop runs

  /** What `start` learns before crawling: robots.txt when it is respected,
      then, with `useSitemap`, the sitemap URLs it names followed by those
      of the origin's own sitemap. */
  function Discover(env: Env, cfg: Config, origin: string): (r: Sitemaps.RobotsFetch)
    ensures !cfg.respectRobots ==> r.robotsTxt.None? && r.disallowed == []
    ensures !cfg.useSitemap ==> r.sitemapUrls == []
    ensures cfg.respectRobots ==>
      var robots := Sitemaps.FetchRobotsTxt(env, origin, cfg.useSitemap, cfg.followExternal);
      && r.robotsTxt == robots.robotsTxt && r.disallowed == robots.disallowed
      && |robots.sitemapUrls| <= |r.sitemapUrls| && r.sitemapUrls[..|robots.sitemapUrls|] == robots.sitemapUrls
    ensures cfg.useSitemap ==>
      var own := Sitemaps.FetchSitemap(env, origin, cfg.followExternal);
      |own| <= |r.sitemapUrls| && r.sitemapUrls[|r.sitemapUrls| - |own|..] == own
    ensures |r.sitemapUrls| ==
      (if cfg.respectRobots then |Sitemaps.FetchRobotsTxt(env, origin, cfg.useSitemap, cfg.followExternal).sitemapUrls| else 0) +
      (if cfg.useSitemap then |Sitemaps.FetchSitemap(env, origin, cfg.followExternal)| else 0)
    ensures forall i | 0 <= i < |r.sitemapUrls| :: Sitemaps.Admissible(env, origin, cfg.followExternal, r.sitemapUrls[i])
  {
    var robots := if cfg.respectRobots then Sitemaps.FetchRobotsTxt(env, origin, cfg.useSitemap, cfg.followExternal)
                  else Sitemaps.RobotsFetch(None, [], []);
    Sitemaps.RobotsFetch(robots.robotsTxt, robots.disallowed,
      robots.sitemapUrls + (if cfg.useSitemap then Sitemaps.FetchSitemap(env, origin, cfg.followExternal) else []))
  }

  /** The initial queue: the sitemap URLs at depth 0, in order, then the
      start URL unless one of them is that very string. */
  function Seed(sitemapUrls: seq<string>, url: string): (q: seq<QueueItem>)
    ensures Queued(q, url)
    ensures |sitemapUrls| <= |q| <= |sitemapUrls| + 1
    ensures forall k | 0 <= k < |sitemapUrls| :: q[k] == QueueItem(sitemapUrls[k], 0, "sitemap")
    ensures |q| == |sitemapUrls| + 1 <==> url !in sitemapUrls
    ensures |q| > |sitemapUrls| ==> q[|sitemapUrls|] == QueueItem(url, 0, "start")
    ensures forall k | 0 <= k < |q| :: q[k].depth == 0
  {
    var queue := SitemapItems(sitemapUrls);
    assert Queued(queue, url) <==> url in sitemapUrls by {
      if url in sitemapUrls {
        var k :| 0 <= k < |sitemapUrls| && sitemapUrls[k] == url;
        assert queue[k].url == url;
      }
    }
    if Queued(queue, url) then queue
    else
      var q := queue + [QueueItem(url, 0, "start")];
      assert q[|queue|].url == url;
      q
  }

  /** The synchronous part of `start(url)`: reset, discover, and seed the
      queue. */
  function Start(env: Env, c: Crawler, url: string): (r: (Crawler, StartOutcome))
    ensures c.running ==> r == (c, Rejected("Crawler is already running"))
    ensures !c.running ==> (r.0.config == c.config && r.0.visited == {} && r.0.inProgress == {} &&
      r.0.activeRequests == 0 && r.0.pagesProcessed == 0 && r.0.results == [] && r.0.errors == [] && !r.0.paused)
    ensures r.1.Aborted? <==> !c.running && env.parse(url).Err?
    ensures r.1.Aborted? ==> Fresh(r.0)
    ensures r.1.Started? ==> (r.0.running && Queued(r.0.queue, url) &&
      r.0.baseUrl == env.parse(url).value.origin &&
      forall k | 0 <= k < |r.0.queue| :: r.0.queue[k].depth == 0)
    ensures r.1.Started? ==>
      var found := Discover(env, c.config, env.parse(url).value.origin);
      && r.0.queue == Seed(found.sitemapUrls, url) && r.0.totalPages == |r.0.queue|
      && r.0.robotsTxt == found.robotsTxt && r.0.disallowed == found.disallowed
      && r.0.sitemapUrls == found.sitemapUrls
  {
    if c.running then (c, Rejected("Crawler is already running"))
    else
      var clean := Reset(c).(running := true, paused := false);
      match env.parse(url)
      case Err(m) => (clean.(running := false), Aborted(m))
      case Ok(u) =>
        var found := Discover(env, c.config, u.origin);
        var queue := Seed(found.sitemapUrls, url);
        (clean.(baseUrl := u.origin, robotsTxt := found.robotsTxt, disallowed := found.disallowed,
                sitemapUrls := found.sitemapUrls, queue := queue, totalPages := |queue|), Started)
  }

  /** The `processQueue` loop's condition. */
  predicate LoopGuard(c: Crawler) {
    c.running && |c.queue| > 0 && c.pagesProcessed < c.config.maxPages &&
    c.activeRequests < c.config.concurrentRequests
  }

  /** A loop iteration that shifts the queue: the loop guard holds and the
      crawler is not paused (a paused loop only sleeps). */
  predicate CanDispatch(c: Crawler) {
    LoopGuard(c) && !c.paused
  }

  /** One dispatching iteration: shift the head; drop it if it is visited,
      in progress, or refused by `shouldCrawl`; otherwise mark it in
      progress and start its `processUrl` (the returned task). */
  function Dispatch(env: Env, c: Crawler): (r: (Crawler, Option<QueueItem>))
    requires |c.queue| > 0
    ensures r.0.queue == c.queue[1..]
    ensures r.1.Some? <==>
      c.queue[0].url !in c.visited && c.queue[0].url !in c.inProgress &&
      Policy.ShouldCrawl(env, c.config.Filter(), c.baseUrl, c.visited, c.queue[0].url, c.queue[0].depth)
    ensures r.1.Some? ==> (r.1.value == c.queue[0] &&
      r.0 == c.(queue := c.queue[1..], inProgress := c.inProgress + {c.queue[0].url}, activeRequests := c.activeRequests + 1))
    ensures r.1.None? ==> r.0 == c.(queue := c.queue[1..])
  {
    var item := c.queue[0];
    var shifted := c.(queue := c.queue[1..]);
    if item.url in c.visited || item.url in c.inProgress then (shifted, None)
    else if !Policy.ShouldCrawl(env, c.config.Filter(), c.baseUrl, c.visited, item.url, item.depth) then (shifted, None)
    else (shifted.(inProgress := c.inProgress + {item.url}, activeRequests := c.activeRequests + 1), Some(item))
  }

  /** Queue one extracted link unless it is visited, in progress or already
      queued. */
  function EnqueueLink(visited: set<string>, inProgress: set<string>, queue: seq<QueueItem>, link: string, depth: nat, from: string): seq<QueueItem> {
    if link in visited || link in inProgress || Queued(queue, link) then queue
    else queue + [QueueItem(link, depth + 1, from)]
  }

  /** The `links.forEach` of `processUrl`: each link in turn, checked
      against the queue as it grows. */
  function EnqueueLinks(visited: set<string>, inProgress: set<string>, queue: seq<QueueItem>, links: seq<string>, depth: nat, from: string): (q: seq<QueueItem>)
    ensures |queue| <= |q| <= |queue| + |links|
    ensures q[..|queue|] == queue
    decreases |links|
  {
    if |links| == 0 then queue
    else EnqueueLinks(visited, inProgress, EnqueueLink(visited, inProgress, queue, links[0], depth, from), links[1..], depth, from)
  }

  /** The items that `EnqueueLinks` appends: fresh links at the next depth
      from the given page, no URL twice and none already queued. */
  predicate NewItems(visited: set<string>, inProgress: set<string>, queue: seq<QueueItem>, q: seq<QueueItem>,
                     links: seq<string>, depth: nat, from: string) {
    |queue| <= |q| && q[..|queue|] == queue &&
    (forall k | |queue| <= k < |q| ::
       q[k].depth == depth + 1 && q[k].from == from && q[k].url in links &&
       q[k].url !in visited && q[k].url !in inProgress) &&
    (forall j, k | 0 <= j < k < |q| && |queue| <= k :: q[j].url != q[k].url)
  }

  /** `EnqueueLinks` appends only `NewItems`, and every link that is not
      visited, in progress or queued ends up queued. */
  lemma {:induction false} EnqueueLinksSpec(visited: set<string>, inProgress: set<string>, queue: seq<QueueItem>,
                                            links: seq<string>, depth: nat, from: string)
    ensures NewItems(visited, inProgress, queue, EnqueueLinks(visited, inProgress, queue, links, depth, from), links, depth, from)
    ensures forall l | l in links && l !in visited && l !in inProgress ::
      Queued(EnqueueLinks(visited, inProgress, queue, links, depth, from), l)
    decreases |links|
  {
    var q := EnqueueLinks(visited, inProgress, queue, links, depth, from);
    if |links| > 0 {
      var q1 := EnqueueLink(visited, inProgress, queue, links[0], depth, from);
      EnqueueLinksSpec(visited, inProgress, q1, links[1..], depth, from);
      assert q1[..|queue|] == queue;
      assert q[..|q1|] == q1;
      assert q[..|queue|] == queue by {
        assert q[..|queue|] == q[..|q1|][..|queue|];
      }
      forall k | |queue| <= k < |q|
        ensures q[k].depth == depth + 1 && q[k].from == from && q[k].url in links &&
                q[k].url !in visited && q[k].url !in inProgress
      {
        if k < |q1| {
          assert q[k] == q1[k];
        } else {
          assert q[k].url in links[1..];
        }
      }
      forall j, k | 0 <= j < k < |q| && |queue| <= k
        ensures q[j].url != q[k].url
      {
        if k < |q1| {
          assert q[k] == q1[k] && q[j] == q1[j];
          assert !Queued(queue, links[0]);
        }
      }
      forall l | l in links && l !in visited && l !in inProgress
        ensures Queued(q, l)
      {
        if l == links[0] {
          var k :| 0 <= k < |q1| && q1[k].url == l;
          assert q[k] == q1[k];
        } else {
          assert l in links[1..];
        }
      }
    }
  }

  /** What `processUrl` did with a dispatched item. */
  datatype Outcome =
    | Refused                             // robots.txt disallows it
    | NotHtml                             // fetched, but not `text/html`
    | Crawled(doc: PageDoc, html: string) // fetched and parsed
    | Failed(message: string)             // the fetch threw after its retries

  /** `processUrl(item)` up to its first effect on the crawler: the
      robots.txt check, the fetch with retries (`attempt(j)` is what the
      transport did on attempt `j`), the content-type check. */
  function Classify(env: Env, c: Crawler, item: QueueItem, attempt: nat -> Attempt): (o: Outcome)
    ensures var refused := c.config.respectRobots && !Policy.IsAllowed(env, c.disallowed, item.url);
      var f := Retry.FetchWithRetry(attempt, c.config.maxRetries).result;
      && (o.Refused? <==> refused)
      && (o.Failed? <==> !refused && f.Err?)
      && (o.Failed? ==> o.message == f.message)
      && (o.NotHtml? <==> !refused && f.Ok? && !Contains(f.value.contentType, "text/html"))
      && (o.Crawled? <==> !refused && f.Ok? && Contains(f.value.contentType, "text/html"))
      && (o.Crawled? ==> o.html == f.value.body && o.doc == env.parseHtml(o.html))
  {
    if c.config.respectRobots && !Policy.IsAllowed(env, c.disallowed, item.url) then Refused
    else
      match Retry.FetchWithRetry(attempt, c.config.maxRetries).result
      case Err(m) => Failed(m)
      case Ok(resp) =>
        if !Contains(resp.contentType, "text/html") then NotHtml
        else Crawled(env.parseHtml(resp.body), resp.body)
  }

  /** The effect of `processUrl(item)` with the given outcome, including the
      error record that the `.catch` in `processQueue` pushes. A crawled page
      below `maxDepth` queues its links; a crawled or failed page is marked
      visited and counted; a refused or non-HTML page leaves no trace. */
  function ProcessUrl(env: Env, c: Crawler, item: QueueItem, o: Outcome): (r: Crawler)
    ensures r.config == c.config && r.inProgress == c.inProgress && r.activeRequests == c.activeRequests
    ensures r.running == c.running && r.paused == c.paused && r.disallowed == c.disallowed && r.baseUrl == c.baseUrl
    ensures o.Refused? || o.NotHtml? ==> r == c
    ensures o.Failed? ==> r == c.(visited := c.visited + {item.url}, pagesProcessed := c.pagesProcessed + 1,
                                  errors := c.errors + [CrawlError(item.url, o.message, item.from)])
    ensures o.Crawled? ==>
      r.visited == c.visited + {item.url} && r.pagesProcessed == c.pagesProcessed + 1 && r.errors == c.errors &&
      r.results == c.results + [PageResult(item.url, item.depth, item.from, o.doc.title, o.html)]
    ensures o.Crawled? && item.depth < c.config.maxDepth ==>
      NewItems(c.visited, c.inProgress, c.queue, r.queue,
               Links.ExtractLinks(env, c.baseUrl, c.config.followExternal, item.url, o.doc), item.depth, item.url)
    ensures o.Crawled? && item.depth < c.config.maxDepth ==>
      forall l | l in Links.ExtractLinks(env, c.baseUrl, c.config.followExternal, item.url, o.doc) &&
                 l !in c.visited && l !in c.inProgress :: Queued(r.queue, l)
    ensures item.depth >= c.config.maxDepth ==> r.queue == c.queue
    ensures r.robotsTxt == c.robotsTxt && r.sitemapUrls == c.sitemapUrls
    ensures |c.queue| <= |r.queue| && r.totalPages == c.totalPages + (|r.queue| - |c.queue|)
  {
    match o
    case Refused => c
    case NotHtml => c
    case Failed(m) =>
      c.(visited := c.visited + {item.url}, pagesProcessed := c.pagesProcessed + 1,
         errors := c.errors + [CrawlError(item.url, m, item.from)])
    case Crawled(doc, html) =>
      var c1 :=
        if item.depth < c.config.maxDepth then
          var links := Links.ExtractLinks(env, c.baseUrl, c.config.followExternal, item.url, doc);
          var q := EnqueueLinks(c.visited, c.inProgress, c.queue, links, item.depth, item.url);
          EnqueueLinksSpec(c.visited, c.inProgress, c.queue, links, item.depth, item.url);
          c.(queue := q, totalPages := c.totalPages + (|q| - |c.queue|))
        else c;
      c1.(visited := c.visited + {item.url}, pagesProcessed := c.pagesProcessed + 1,
          results := c.results + [PageResult(item.url, item.depth, item.from, doc.title, html)])
  }

  /** The `.finally` of a dispatched promise. */
  function Release(c: Crawler, url: string): (r: Crawler)
    ensures r == c.(inProgress := c.inProgress - {url}, activeRequests := c.activeRequests - 1)
  {
    c.(inProgress := c.inProgress - {url}, activeRequests := c.activeRequests - 1)
  }

  /** `stop()` */
  function Stop(c: Crawler): (r: Crawler)
    ensures !r.running && r == c.(running := false)
  {
    c.(running := false)
  }

  /** `pause()`: idempotent. */
  function Pause(c: Crawler): (r: Crawler)
    ensures r.paused && r == c.(paused := true)
  {
    if !c.paused then c.(paused := true) else c
  }

  /** `resume()`: idempotent; the loop it restarts is an `Iterate` event. */
  function Resume(c: Crawler): (r: Crawler)
    ensures !r.paused && r == c.(paused := false)
  {
    if c.paused then c.(paused := false) else c
  }

  /** `getStats()` without the clock-dependent duration and the formatted
      rate. */
  datatype Stats = Stats(pagesProcessed: nat, totalPagesEstimate: nat, urlsInQueue: nat, successCount: int, errorCount: nat)

  function GetStats(c: Crawler): (s: Stats)
    ensures s.successCount + s.errorCount == s.pagesProcessed == c.pagesProcessed
    ensures s.urlsInQueue == |c.queue| && s.errorCount == |c.errors|
    ensures s.totalPagesEstimate == c.totalPages
  {
    Stats(c.pagesProcessed, c.totalPages, |c.queue|, c.pagesProcessed - |c.errors|, |c.errors|)
  }

  /** Where a pending `start` call's top-level `processQueue` is: in its
      dispatch loop, or past it, waiting for `activeRequests` to fall to
      zero. */
  datatype Phase = Looping | Draining

  datatype World = World(crawler: Crawler, tasks: seq<QueueItem>, drivers: seq<Phase>)

  /** What can happen next. Loops started from a `.finally` or from
      `resume()` run unawaited; `Iterate` stands for an iteration of any
      of them, and is allowed whenever its condition holds. */
  datatype Event =
    | Begin(url: string)                        // a call of `start(url)`
    | Iterate                                   // a loop iteration that shifts the queue
    | Complete(i: nat, attempt: nat -> Attempt) // task `i` settles
    | Exit(d: nat)                              // driver `d` leaves its loop
    | Settle(d: nat)                            // driver `d` sees no active request
    | PauseEvent
    | ResumeEvent
    | StopEvent

  predicate Enabled(w: World, e: Event) {
    match e
    case Begin(_) => true
    case Iterate => CanDispatch(w.crawler)
    case Complete(i, _) => i < |w.tasks|
    case Exit(d) => d < |w.drivers| && w.drivers[d] == Looping && !LoopGuard(w.crawler)
    case Settle(d) => d < |w.drivers| && w.drivers[d] == Draining && w.crawler.activeRequests <= 0
    case PauseEvent => true
    case ResumeEvent => true
    case StopEvent => true
  }

  /** Whether a draining driver loops again rather than ending its run. */
  predicate Continues(c: Crawler) {
    c.running && !c.paused && |c.queue| > 0 && c.pagesProcessed < c.config.maxPages
  }

  function Remove<T>(s: seq<T>, i: nat): (r: seq<T>)
    requires i < |s|
    ensures |r| == |s| - 1
    ensures forall k | 0 <= k < i :: r[k] == s[k]
    ensures forall k | i <= k < |r| :: r[k] == s[k + 1]
  {
    s[..i] + s[i + 1..]
  }

  /** One event; none changes the configuration (`CrawlRun.KeepsHistory`
      says what only `start` may forget). */
  function Step(env: Env, w: World, e: Event): (r: World)
    requires Enabled(w, e)
    ensures r.crawler.config == w.crawler.config
  {
    var c := w.crawler;
    match e
    case Begin(url) =>
      var (c', o) := Start(env, c, url);
      World(c', w.tasks, if o.Started? then w.drivers + [Looping] else w.drivers)
    case Iterate =>
      var (c', t) := Dispatch(env, c);
      World(c', if t.Some? then w.tasks + [t.value] else w.tasks, w.drivers)
    case Complete(i, attempt) =>
      var item := w.tasks[i];
      var c' := ProcessUrl(env, c, item, Classify(env, c, item, attempt));
      World(Release(c', item.url), Remove(w.tasks, i), w.drivers)
    case Exit(d) => w.(drivers := w.drivers[d := Draining])
    case Settle(d) =>
      if Continues(c) then w.(drivers := w.drivers[d := Looping])
      else World(c.(running := false), w.tasks, Remove(w.drivers, d))
    case PauseEvent => w.(crawler := Pause(c))
    case ResumeEvent => w.(crawler := Resume(c))
    case StopEvent => w.(crawler := Stop(c))
  }

  /** The URLs of the tasks in flight. */
  function TaskUrls(tasks: seq<QueueItem>): set<string> {
    set k | 0 <= k < |tasks| :: tasks[k].url
  }

  predicate DistinctUrls(tasks: seq<QueueItem>) {
    forall j, k | 0 <= j < k < |tasks| :: tasks[j].url != tasks[k].url
  }

  function ResultUrls(rs: seq<PageResult>): set<string> {
    set k | 0 <= k < |rs| :: rs[k].url
  }

  function ErrorUrls(es: seq<CrawlError>): set<string> {
    set k | 0 <= k < |es| :: es[k].url
  }

  /** Each page is reported once: as a result or as an error, never both,
      never twice. */
  predicate ReportedOnce(c: Crawler) {
    (forall j, k | 0 <= j < k < |c.results| :: c.results[j].url != c.results[k].url) &&
    (forall j, k | 0 <= j < k < |c.errors| :: c.errors[j].url != c.errors[k].url) &&
    ResultUrls(c.results) !! ErrorUrls(c.errors)
  }

  /** The tasks in flight: `activeRequests` counts them, and `inProgress`
      holds exactly their URLs, each once and none visited yet. */
  predicate Tracked(w: World) {
    w.crawler.activeRequests == |w.tasks| &&
    DistinctUrls(w.tasks) && w.crawler.inProgress == TaskUrls(w.tasks) &&
    w.crawler.inProgress !! w.crawler.visited
  }

  /** The visited set is exactly the reported pages, each reported once,
      and `pagesProcessed` counts them. */
  predicate Counted(c: Crawler) {
    c.visited == ResultUrls(c.results) + ErrorUrls(c.errors) && ReportedOnce(c) &&
    c.pagesProcessed == |c.results| + |c.errors| && |c.visited| == c.pagesProcessed
  }

  /** At most `concurrentRequests` tasks are in flight, and the page cap is
      soft: pages processed plus pages in flight stay below
      `maxPages + concurrentRequests`. */
  predicate Bounded(c: Crawler) {
    c.activeRequests <= c.config.concurrentRequests &&
    (c.pagesProcessed + c.activeRequests == 0 ||
     c.pagesProcessed + c.activeRequests < c.config.maxPages + c.config.concurrentRequests)
  }

  /** Nothing queued, in flight or reported lies beyond `maxDepth`. */
  predicate Shallow(w: World) {
    var c := w.crawler;
    (forall k | 0 <= k < |c.queue| :: c.queue[k].depth <= c.config.maxDepth) &&
    (forall k | 0 <= k < |w.tasks| :: w.tasks[k].depth <= c.config.maxDepth) &&
    (forall k | 0 <= k < |c.results| :: c.results[k].depth <= c.config.maxDepth)
  }

  /** The bookkeeping the crawl keeps while no `start` overlaps the tasks of
      an earlier run. */
  predicate Inv(w: World) {
    Tracked(w) && Counted(w.crawler) && Bounded(w.crawler) && Shallow(w)
  }
}
