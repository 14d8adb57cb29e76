# Web scraper crawl engine and page extraction, in Dafny

This project models the core of a browser-side web scraper. It covers two classes:

- the `Crawler` class in `web-scraper/public/js/core/crawler.js`;
- the `Scraper` class in `web-scraper/public/js/core/scraper.js`.

The crawler starts from one URL. It may read `robots.txt` and sitemaps, then runs a bounded-concurrency breadth-first crawl over a URL queue. It filters each URL by depth, origin, include/exclude patterns and robots rules. It fetches pages with retries and exponential back-off, and collects results and errors. The scraper turns one HTML page into a record of optional fields: normalised text, images, links, videos, CSS, raw HTML, selector results and an LLM answer.

Everything foreign is a parameter: URL parsing and resolution, regular expressions, the DOM parsers, the network and the LLM. `Platform.Env` holds the crawler's engines and `Scrape.Host` the scraper's. Each is a total function that returns a `Result` where the JavaScript call can throw.

Modules, following the source:

- `Fallible`, `Strings`, `Seqs` and `Text` are shared vocabulary:
  - option and result values;
  - the JavaScript string primitives (`trim`, `split`, `join`, `toLowerCase`);
  - order-preserving filtering;
  - the `\s+` normalisation.
- `Platform` holds the foreign engines and the values the crawler reads from them.
- `Robots` is the robots.txt line parser inside `fetchRobotsTxt`.
- `Sitemaps` covers `fetchRobotsTxt`, `fetchSitemap` and `fetchSitemapFromUrl`.
- `Policy` covers `isAllowed` and `shouldCrawl`, plus a reference glob semantics for wildcard rules.
- `Retry` covers `fetchWithRetry` and its back-off schedule.
- `Links` is the crawler's `extractLinks`.
- `Crawl` covers the crawler's state and operations. It also defines the asynchronous run as a transition system:
  - the state is a `World`: the crawler's fields, the `processUrl` promises in flight, and the pending `start` calls;
  - the events are `start`, one dispatching loop iteration, a task settling, a loop exit, the final drain check, `pause`, `resume` and `stop`.
- `CrawlRun` holds the run invariant and its preservation by every event, plus lemmas about whole runs.
- `Scrape` is the `Scraper` class.

Some behaviour of the source is modelled as written and stated as lemmas, because the code does it:

- `Disallow: /a:b` keeps only `/a`, because the value is `split(':')[1]`.
- A `User-agent: x:y` line switches to agent `x`.
- The page cap is checked only at dispatch. Two requests dispatched at `maxPages - 1` pages end the crawl at `maxPages + 1`.
- `stop()` does not cancel requests in flight. A `start` issued while they drain resets `activeRequests` to 0, which the old requests then drive below zero.
- A run that is paused when its top-level loop drains ends for good. `resume()` does not set `running` again.

The code also does the following, which a reader may not expect:

- A page refused by robots.txt, or one that is not HTML, is not added to `visited` and not counted.
- Sitemap lines of robots.txt are read only when robots.txt is fetched, i.e. with `respectRobots`.
- A sitemap index is followed one level deep.
- Robots wildcard rules go through `new RegExp`, so other metacharacters keep their regex meaning.

## Model

| member | source | states |
|---|---|---|
| Crawl.Reset | web-scraper/public/js/core/crawler.js:48-65 | every field returns to its initial value (empty queue, sets and lists, counters zero, not running, not paused); only the configuration is kept |
| Crawl.NewCrawler | web-scraper/public/js/core/crawler.js:12-31 | a new crawler is in the initial state with the given configuration |
| Crawl.SitemapItems | web-scraper/public/js/core/crawler.js:104-114 | one queue item per sitemap URL, in order, at depth 0 from `sitemap` |
| Crawl.Discover | web-scraper/public/js/core/crawler.js:94-102 | robots.txt leaves no rules unless `respectRobots`, and when it is respected its text and rules are those `fetchRobotsTxt` reads; no sitemap URLs are found unless `useSitemap`; the sitemap URLs are exactly those named by robots.txt (when respected) followed by those of the origin's own sitemap (with `useSitemap`), duplicates kept, so their number is the sum of the two; every sitemap URL parses and is on the crawl's origin unless external URLs are followed |
| Crawl.Seed | web-scraper/public/js/core/crawler.js:104-133 | the sitemap URLs come first, in order, at depth 0; the start URL is appended, from `start`, exactly when it is not one of them; the start URL is always queued and every seed has depth 0 |
| Crawl.Start | web-scraper/public/js/core/crawler.js:72-133 | a running crawler rejects `start` and is unchanged; otherwise the state is reset (counters, sets, results, errors, not paused); an unparsable URL aborts with a fresh, stopped crawler; a started crawl is running, takes the URL's origin as base, installs the discovered `robots.txt`, disallowed paths and sitemap URLs, and has as queue the seed of those sitemap URLs and the start URL (all at depth 0), with `totalPages` its length |
| Crawl.Dispatch | web-scraper/public/js/core/crawler.js:180-195 | the head is always shifted; it is dispatched exactly when it is neither visited nor in progress and `shouldCrawl` accepts it; dispatch adds it to `inProgress` and increments `activeRequests`, and nothing else changes |
| Crawl.EnqueueLinks | web-scraper/public/js/core/crawler.js:277-299 | the queue only grows at the end, by at most one item per link (its meaning is `EnqueueLinksSpec`) |
| Crawl.EnqueueLinksSpec | web-scraper/public/js/core/crawler.js:277-299 | enqueueing only appends items at depth + 1 from the page, each an extracted link not visited and not in progress, no URL twice; every extracted link not visited or in progress ends up queued |
| Crawl.Classify | web-scraper/public/js/core/crawler.js:252-274 | a page is refused exactly when robots are respected and `isAllowed` fails; otherwise it fails exactly when the fetch with retries throws, with that message; it is not HTML exactly when the response's content type lacks `text/html`; it is crawled exactly when the content type has it, with the response body as html and its parse as document |
| Crawl.ProcessUrl | web-scraper/public/js/core/crawler.js:241-336 | refused and non-HTML pages change nothing; a failed page is visited, counted and gets one error record; a crawled page is visited, counted, gets one result and queues only fresh extracted links, and below `maxDepth` every extracted link not visited or in progress ends up queued; at `maxDepth` nothing is queued; `totalPages` grows by the number of items appended; flags, robots data and in-flight bookkeeping are untouched |
| Crawl.Release | web-scraper/public/js/core/crawler.js:207-211 | the settled URL leaves `inProgress` and `activeRequests` drops by one |
| Crawl.Stop | web-scraper/public/js/core/crawler.js:845-848 | only `running` changes, to false |
| Crawl.Pause | web-scraper/public/js/core/crawler.js:853-858 | the crawler is paused afterwards whatever it was before; nothing else changes |
| Crawl.Resume | web-scraper/public/js/core/crawler.js:863-871 | the crawler is not paused afterwards; nothing else changes |
| Crawl.GetStats | web-scraper/public/js/core/crawler.js:919-933 | success count plus error count equals pages processed; the queue length, error count and `totalPages` estimate are reported |
| Crawl.Step | web-scraper/public/js/core/crawler.js:166-234 | no event changes the configuration (the events' effects are `CrawlRun.StepPreservesInv`, `CrawlRun.KeepsHistory` and `CrawlRun.OnlyBeginRuns`) |
| CrawlRun.InitialInv | web-scraper/public/js/core/crawler.js:48-65 | a new crawler with nothing in flight satisfies the run invariant |
| CrawlRun.BeginPreservesInv | web-scraper/public/js/core/crawler.js:72-133 | `start` with no requests left over from an earlier run keeps the invariant |
| CrawlRun.DispatchPreservesInv | web-scraper/public/js/core/crawler.js:166-222 | a loop iteration keeps the invariant: in-flight URLs stay distinct and unvisited, `activeRequests` never exceeds `concurrentRequests`, and depths stay within `maxDepth` |
| CrawlRun.CompletePreservesInv | web-scraper/public/js/core/crawler.js:198-216 | a settling request keeps the invariant whatever its outcome: visited equals the reported pages, each reported once, and `pagesProcessed` counts them |
| CrawlRun.FailedCompletion | web-scraper/public/js/core/crawler.js:199-211 | settling a failed request keeps the invariant: its URL leaves the in-flight set and becomes visited with exactly one error record |
| CrawlRun.CrawledCompletion | web-scraper/public/js/core/crawler.js:277-316 | settling a crawled request keeps the invariant: its URL becomes visited with exactly one result, and the links it queues stay within `maxDepth` |
| CrawlRun.ControlPreservesInv | web-scraper/public/js/core/crawler.js:845-871 | `stop`, `pause`, `resume`, a loop exit and the final drain check keep the invariant, since they change only the flags and the pending `start` calls |
| CrawlRun.StepPreservesInv | web-scraper/public/js/core/crawler.js:166-234 | every event keeps the invariant, provided `start` is not called while requests of a stopped run are in flight |
| CrawlRun.PagesBounded | web-scraper/public/js/core/crawler.js:168-173 | under the run invariant (no `start` while a stopped run drains), `activeRequests` is non-negative, and `pagesProcessed` is 0 or below `maxPages + concurrentRequests` |
| CrawlRun.SuccessCountIsResults | web-scraper/public/js/core/crawler.js:919-933 | the reported success count is the number of results and the error count the number of errors |
| CrawlRun.RestartWhileDraining | web-scraper/public/js/core/crawler.js:72-83 | a `start` while a stopped run's request is in flight breaks the invariant, and that request's settling drives `activeRequests` to -1 |
| CrawlRun.KeepsHistory | web-scraper/public/js/core/crawler.js:166-234 | every event but `start` lets the visited set and the page count only grow, and only appends to the results and the errors |
| CrawlRun.StopKeepsTasks | web-scraper/public/js/core/crawler.js:845-848 | `stop` leaves the requests in flight and `activeRequests` as they were |
| CrawlRun.OnlyBeginRuns | web-scraper/public/js/core/crawler.js:157-159 | once not running, no event but `start` sets `running` again |
| CrawlRun.PausedRunEnds | web-scraper/public/js/core/crawler.js:225-234 | a draining run that finds the crawler paused ends with its queue still full, and `resume` cannot revive it |
| CrawlRun.PageCapOvershoot | web-scraper/public/js/core/crawler.js:168-216 | with one page left under the cap and room for two requests, two dispatches and two failures end with `maxPages + 1` pages processed |
| CrawlRun.OvershootDispatch | web-scraper/public/js/core/crawler.js:168-195 | both queue heads are dispatched before either settles |
| CrawlRun.OvershootFailure | web-scraper/public/js/core/crawler.js:322-335 | with robots ignored and a transport that always throws, a settling request is counted |
| Links.ExtractLinks | web-scraper/public/js/core/crawler.js:344-381 | at most one link per anchor; every link parses and is on the crawl's origin unless external links are followed (the iff is `Links.ExtractedLink`) |
| Links.ExtractedLink | web-scraper/public/js/core/crawler.js:344-381 | a URL is extracted exactly when some anchor that is not skipped resolves to it and it parses to the crawl's origin, or external links are followed |
| Links.LinksStayOnOrigin | web-scraper/public/js/core/crawler.js:364-370 | without `followExternal` every extracted link has the crawl's origin |
| Links.FollowExternalFilters | web-scraper/public/js/core/crawler.js:364-373 | the links without `followExternal` are exactly the same-origin links of those with it, in order |
| Links.SkippedAnchorIgnored | web-scraper/public/js/core/crawler.js:355-358 | an empty, `javascript:`, `mailto:`, `tel:` or `#` anchor contributes nothing wherever it stands |
| Robots.IsDirectiveIsLowerPrefix | web-scraper/public/js/core/crawler.js:418 | the keyword test is "the lower-cased line starts with the keyword" |
| Robots.FieldValue | web-scraper/public/js/core/crawler.js:419 | a `split(':')[1].trim()` value holds no colon and is trimmed |
| Robots.UrlValue | web-scraper/public/js/core/crawler.js:434 | the sitemap value is everything after the first colon, trimmed |
| Robots.DisallowValue | web-scraper/public/js/core/crawler.js:424-429 | a collected path is non-empty, trimmed and colon-free |
| Robots.SitemapValue | web-scraper/public/js/core/crawler.js:433-435 | a collected sitemap URL is non-empty and trimmed |
| Robots.Classify | web-scraper/public/js/core/crawler.js:409-443 | a line is skipped exactly when, trimmed, it is blank or starts with `#`; every value it carries is well formed |
| Robots.Step | web-scraper/public/js/core/crawler.js:418-443 | a blank line changes nothing; a `User-agent` line changes only the agent; any other line keeps the agent; each list grows at the end by at most one entry |
| Robots.ParseLines | web-scraper/public/js/core/crawler.js:409-444 | each line adds at most one path and one sitemap URL (the lists only grow at the end, with well-formed entries: `Robots.ParseLinesExtends`) |
| Robots.ParseLinesExtends | web-scraper/public/js/core/crawler.js:406-444 | while reading, both lists only grow at the end, with well-formed entries |
| Robots.ParseRobots | web-scraper/public/js/core/crawler.js:406-444 | every collected path is non-empty, trimmed and colon-free; every sitemap URL is non-empty and trimmed |
| Robots.ParseLinesAppend | web-scraper/public/js/core/crawler.js:409 | reading two blocks of lines is reading the first, then the second from where it left off |
| Robots.SkippedLineIgnored | web-scraper/public/js/core/crawler.js:413-415 | a comment or blank line can be inserted anywhere without effect |
| Robots.StepKeepsAgent | web-scraper/public/js/core/crawler.js:424-443 | a line other than `User-agent` keeps the agent, appends its path only under a governing agent, and appends its sitemap URL |
| Robots.SitemapsIgnoreAgent | web-scraper/public/js/core/crawler.js:433-443 | the sitemap URLs are those of the sitemap lines, in order, whatever the agents |
| Robots.ForeignBlockIgnored | web-scraper/public/js/core/crawler.js:424-430 | under an agent other than `*` or `webscraperbot`, `Disallow` lines add nothing |
| Robots.GoverningBlockCollected | web-scraper/public/js/core/crawler.js:424-430 | under `*` or `webscraperbot`, the `Disallow` paths are collected in file order |
| Robots.UserAgentLineSwitches | web-scraper/public/js/core/crawler.js:418-421 | a `User-agent` line in any case switches the agent to the trimmed text up to the next colon |
| Robots.DisallowStopsAtSecondColon | web-scraper/public/js/core/crawler.js:425-429 | `Disallow: p:q` under a governing agent collects only `p`, trimmed |
| Robots.SitemapKeepsWholeUrl | web-scraper/public/js/core/crawler.js:433-435 | `Sitemap: u` keeps all of `u`, colons included |
| Sitemaps.FetchSitemapFromUrl | web-scraper/public/js/core/crawler.js:506-546 | every URL taken from a sitemap parses and is on the crawl's origin unless external URLs are followed |
| Sitemaps.SitemapsFrom | web-scraper/public/js/core/crawler.js:485-494 | every URL gathered from a list of sitemaps is admissible |
| Sitemaps.FetchSitemap | web-scraper/public/js/core/crawler.js:456-499 | every URL found through the sitemap or the sitemap index is admissible |
| Sitemaps.FetchRobotsTxt | web-scraper/public/js/core/crawler.js:387-450 | the text is kept exactly when the fetch returns an ok status, and it is then the response body with the rules its parse collects; a failed fetch leaves no rules and no sitemap URLs; every sitemap URL is admissible |
| Sitemaps.SitemapsFromMember | web-scraper/public/js/core/crawler.js:485-494 | a URL is gathered from a list of sitemaps exactly when one of them was fetched and yielded it |
| Sitemaps.RobotsSitemapMember | web-scraper/public/js/core/crawler.js:433-442 | with `useSitemap`, a URL comes from robots.txt exactly when a sitemap named by one of its `Sitemap:` lines was fetched and yielded it |
| Sitemaps.SitemapEntry | web-scraper/public/js/core/crawler.js:526-543 | a `url loc` text is kept exactly when it parses and is on the crawl's origin or external URLs are followed, and then unchanged |
| Sitemaps.SitemapEntryMember | web-scraper/public/js/core/crawler.js:523-543 | a URL comes from a sitemap exactly when it is a `url loc` text of the document and admissible |
| Sitemaps.SitemapFetchFails | web-scraper/public/js/core/crawler.js:509-516 | a sitemap fetch throws exactly when the transport throws or the status is not ok |
| Sitemaps.IndexOnlyOnFailure | web-scraper/public/js/core/crawler.js:456-463 | the sitemap index is consulted only when `/sitemap.xml` fails |
| Sitemaps.SitemapsFromAppend | web-scraper/public/js/core/crawler.js:485-494 | URLs from consecutive sitemaps are collected in sitemap order |
| Sitemaps.RobotsSitemapsNeedFlag | web-scraper/public/js/core/crawler.js:435 | without `useSitemap` robots.txt yields no sitemap URLs |
| Sitemaps.RobotsRulesAreParsed | web-scraper/public/js/core/crawler.js:402-444 | a robots.txt that was read yields exactly the paths its parse collects |
| Policy.PathPasses | web-scraper/public/js/core/crawler.js:564-584 | a path passes the rule loop exactly when every rule lets it through, whatever their order |
| Policy.IsAllowed | web-scraper/public/js/core/crawler.js:553-589 | no rules allow everything; otherwise a URL is allowed exactly when it parses and every rule lets its path through |
| Policy.IsAllowedByGlobs | web-scraper/public/js/core/crawler.js:564-582 | with a regex engine that gives simple wildcard rules their glob meaning on single-line paths (a JavaScript `.` matches no line terminator), a URL whose path is on one line is allowed exactly when no rule blocks it under the reference semantics |
| Policy.StarFreeRulesNeedNoEngine | web-scraper/public/js/core/crawler.js:576-581 | without `*` in any rule the regex engine is never consulted |
| Policy.UnparsableRefused | web-scraper/public/js/core/crawler.js:559-588 | an unparsable URL is refused as soon as there is a rule |
| Policy.ExactRuleRefuses | web-scraper/public/js/core/crawler.js:566-568 | a rule equal to the path refuses the URL |
| Policy.DirectoryRuleRefuses | web-scraper/public/js/core/crawler.js:571-573 | a rule ending in `/` refuses every path below it |
| Policy.PlainRuleBlocksOnlyItself | web-scraper/public/js/core/crawler.js:566-581 | a star-free rule not ending in `/` blocks only the path equal to it |
| Policy.ReplaceStarsStarFree | web-scraper/public/js/core/crawler.js:577 | a star-free rule compiles to itself between the anchors |
| Policy.GlobStarFree | web-scraper/public/js/core/crawler.js:576-581 | without `*` the glob meaning is equality |
| Policy.StarMatchesAll | web-scraper/public/js/core/crawler.js:577 | a lone `*` matches every path |
| Policy.GlobTrailingStar | web-scraper/public/js/core/crawler.js:577 | a star-free rule followed by `*` is a prefix test |
| Policy.ShouldCrawl | web-scraper/public/js/core/crawler.js:597-639 | a URL is crawled exactly when it is within depth, unvisited, parses, is on the base origin or external URLs are followed, matches the include pattern if set and misses the exclude pattern if set; a pattern that does not compile refuses |
| Policy.ShouldCrawlAntitone | web-scraper/public/js/core/crawler.js:605-607 | visiting more pages never makes a URL crawlable again |
| Policy.VisitedNotCrawled | web-scraper/public/js/core/crawler.js:605-607 | a visited URL is never crawled |
| Retry.RetryFrom | web-scraper/public/js/core/crawler.js:650-693 | the loop makes between 1 and `maxRetries + 1` attempts and waits before each retry; all attempts but the last failed; it succeeds exactly when its last attempt did, with that response; otherwise all attempts were used and the give-up message names the last failure |
| Retry.FetchWithRetry | web-scraper/public/js/core/crawler.js:646-694 | between 1 and `maxRetries + 1` attempts, all but the last failed; retry `j` is preceded by a wait of `min(1000 · 2^(j-1), 10000)` ms; the fetch succeeds exactly when the last attempt did, with its response; otherwise it made every attempt and throws `Failed after <maxRetries> retries: <last error>` |
| Retry.FirstSuccessWins | web-scraper/public/js/core/crawler.js:650-678 | the first successful attempt within the budget is returned, after exactly that many attempts |
| Retry.AllFailuresGiveUp | web-scraper/public/js/core/crawler.js:674-693 | when every allowed attempt fails, the fetch throws `Failed after N retries: <last error>` after `maxRetries` waits |
| Retry.LaterAttemptsIrrelevant | web-scraper/public/js/core/crawler.js:650 | only the first `maxRetries + 1` attempts matter |
| Retry.BackoffBounded | web-scraper/public/js/core/crawler.js:687 | every wait is between 1 and 10 seconds |
| Retry.BackoffMonotone | web-scraper/public/js/core/crawler.js:687 | waits never shrink |
| Retry.BackoffDoubles | web-scraper/public/js/core/crawler.js:687 | waits double until the cap |
| Retry.BackoffSchedule | web-scraper/public/js/core/crawler.js:687 | the first four waits are 1000, 2000, 4000 and 8000 ms; from the fifth on, 10000 ms |
| Retry.WaitBounded | web-scraper/public/js/core/crawler.js:683-689 | the total wait is at most 10 seconds per retry |
| Scrape.ExtractText | web-scraper/public/js/core/scraper.js:91-98 | the text is in normal form (trimmed, only single spaces between words) and has exactly the body's words |
| Text.NormalizeText | web-scraper/public/js/core/scraper.js:95 | replace-then-trim yields the words joined by single spaces, and the result is in normal form |
| Text.NormalizeIsJoinOfWords | web-scraper/public/js/core/scraper.js:95 | replacing every whitespace run by a space and trimming equals joining the words with single spaces |
| Text.NormalizeIdempotent | web-scraper/public/js/core/scraper.js:95 | normalising twice is normalising once |
| Text.NormalizeKeepsWords | web-scraper/public/js/core/scraper.js:95 | normalisation keeps the words, in order |
| Text.WordsOfJoin | web-scraper/public/js/core/scraper.js:95 | the words of words joined by spaces are those words |
| Text.JoinWordsNormalized | web-scraper/public/js/core/scraper.js:95 | words joined by single spaces are in normal form |
| Text.CollapseWords | web-scraper/public/js/core/scraper.js:95 | the replacement on text that starts with a word gives its words joined by spaces, plus one space if the text ends in whitespace |
| Scrape.ResolveAll | web-scraper/public/js/core/scraper.js:106-126 | no more URLs than elements, each the resolution of some element's `src` |
| Scrape.ExtractImages | web-scraper/public/js/core/scraper.js:106-126 | at most one URL per `img[src]`, each the resolution of some image's `src` against the page URL |
| Scrape.ExtractVideos | web-scraper/public/js/core/scraper.js:165-185 | at most one URL per `video source[src]`, each the resolution of some source's `src` against the page URL |
| Scrape.ResolvedMember | web-scraper/public/js/core/scraper.js:106-126 | a URL is extracted exactly when some element's `src` resolves to it |
| Scrape.AllResolved | web-scraper/public/js/core/scraper.js:165-185 | when every `src` resolves, there is one URL per element, in document order |
| Scrape.ResolveInOrder | web-scraper/public/js/core/scraper.js:110-123 | document order is kept across runs of elements |
| Scrape.ExtractLinks | web-scraper/public/js/core/scraper.js:134-157 | at most one link per anchor; each link is the trimmed text and resolved `href` of some anchor whose `href` resolves |
| Scrape.LinkMember | web-scraper/public/js/core/scraper.js:138-150 | a link is extracted exactly when some anchor's `href` resolves to its URL and its text is that anchor's text trimmed |
| Scrape.LinkTextsTrimmed | web-scraper/public/js/core/scraper.js:138-150 | the links' texts are the trimmed texts of the anchors whose `href` resolves, in document order |
| Scrape.LinkHrefsResolved | web-scraper/public/js/core/scraper.js:138-150 | the links' URLs are exactly the resolved `href`s, in order |
| Scrape.ExtractCss | web-scraper/public/js/core/scraper.js:192-201 | the CSS is empty exactly when there is no style element; otherwise it ends in a newline and has at least one character per block (the exact text is `Scrape.CssIsJoin`) |
| Scrape.CssIsJoin | web-scraper/public/js/core/scraper.js:192-201 | the CSS is the style blocks joined by newlines with a final newline |
| Scrape.CssSplitsIntoBlocks | web-scraper/public/js/core/scraper.js:192-201 | splitting the CSS at newlines gives back the blocks and one empty piece, when no block holds a newline |
| Scrape.ExtractWithCssSelector | web-scraper/public/js/core/scraper.js:209-217 | on a match the result is the element's text trimmed; it is non-empty only when the selector is valid and matches |
| Scrape.CssSelectorEmpty | web-scraper/public/js/core/scraper.js:209-217 | the result is empty exactly when the selector throws, matches nothing, or matches an element whose text is all whitespace |
| Scrape.SelectorFailureIsEmpty | web-scraper/public/js/core/scraper.js:210-216 | an invalid selector or no match gives the empty string instead of a throw |
| Scrape.ExtractWithXPath | web-scraper/public/js/core/scraper.js:225-239 | on success the result is the evaluated string trimmed; it is non-empty only when the evaluation succeeds |
| Scrape.XPathEmpty | web-scraper/public/js/core/scraper.js:225-239 | the result is empty exactly when the evaluation throws or gives a string that is all whitespace |
| Scrape.ApplyLlm | web-scraper/public/js/core/scraper.js:247-268 | no text, absent or empty, answers `No text to analyze.`; otherwise the LLM's reply, or `Error: <message>` when it fails |
| Scrape.LlmSkippedWithoutText | web-scraper/public/js/core/scraper.js:248-250 | without text the LLM is never consulted |
| Scrape.ExtractData | web-scraper/public/js/core/scraper.js:36-79 | each field is present exactly when its option or selector is set, and then holds its extractor's result on the parsed page: images, links, videos, CSS, CSS-selector and XPath results; the html field is the input unchanged; the text is normalised with the body's words; selector results are trimmed; the LLM answers on the extracted text |
| Scrape.LlmNeedsText | web-scraper/public/js/core/scraper.js:74-77 | with text extraction off, an enabled LLM always answers that there is no text |
| Scrape.DefaultsExtractTextOnly | web-scraper/public/js/core/scraper.js:11-28 | the default options extract the text and nothing else |

## Left out

- Timing: `crawlDelay`, `requestTimeout`, the 100 ms polling sleeps, `startTime`, the duration and the `timestamp` of results. The model has no clock; a sleep is a point where other events may run.
- Logging (`log`, `console.*`) and `updateProgress`, which only report to the UI.
- The proxy, JSONP and iframe transports of `fetchWithRetry` (`fetchWithProxy`, `fetchWithJsonp`, `fetchWithIframe`). They are other modules. The transport is the parameter `attempt`, what the fetch did on each attempt.
- `getResults` and `getErrors`, which return fields unchanged, and the value `start` resolves to, which repeats the results, errors and statistics.
- `successRate` and the `duration` of `getStats`: floating-point formatting.
- Crawl.Start: the reset, the `robots.txt` and sitemap requests and the seeding run as one atomic step. A `stop` or `pause` issued during them has the effect it has right after the step. For `stop` this is what the source does too: a `stop` during those requests leaves `running` false, and the loop exits at once. A request left over from a stopped run is settled only before or after the whole step, never between the reset and the seeding.
- Crawl.Start: `totalPages` is set to the length of the seeded queue. This equals the source's `sitemapUrls.length` plus one for a new start URL.
- The unawaited `processQueue` calls from a request's `.finally` and from `resume()` are not tracked one by one. An `Iterate` event may happen whenever the loop condition holds and the crawler is not paused, which over-approximates every such loop.
- Crawl.Classify: the fetch of one page is deterministic for the run, and `response.text()` is the body carried by the response.
- Policy.IsAllowed: wildcard rules go to the regular-expression engine `regexTest`. The glob reading is proved only for rules whose only metacharacter is `*` (`Policy.IsAllowedByGlobs`), because other metacharacters keep their regex meaning in the source.
- Strings: JavaScript strings are sequences of UTF-16 code units, while a Dafny `string` holds Unicode scalar values, so a lone surrogate cannot be represented. No modelled result depends on a length or an index of such a string, so no result changes.
- Robots: JavaScript `toLowerCase` is modelled on ASCII letters only. The texts compared against (`user-agent:`, `disallow:`, `sitemap:`, `webscraperbot`) are ASCII. Only two non-ASCII characters lower-case to text holding an ASCII letter. U+212A (Kelvin sign) gives `k`, which none of these texts contains. U+0130 gives `i` followed by U+0307, and no text has `i` as its last character, so the U+0307 always breaks the match. Neither can make a match the ASCII model misses.
- Crawl.Config: `maxDepth`, `maxPages`, `maxRetries` and `concurrentRequests` are natural numbers. The page that fills them uses `parseInt`, which can give `NaN` or a negative number, and the model does not cover those values. In the source, a negative or `NaN` `maxRetries` skips the retry loop. `lastError.message` is then read on `null`, so every fetch throws a TypeError and every page becomes an error record. A `maxDepth` of -1 refuses even the start URL. A `NaN` `maxDepth` passes every depth test of `shouldCrawl` but never queues a link.
- Scrape.ExtractData: the `try`/`catch` that logs and rethrows is left out. None of the modelled extractors throws: selector and LLM failures are caught where they occur. `includeHeaders` is accepted but read by nothing.
- The DOM is reduced to what the extractors read: the body's text content, the `src` of `img[src]` and of `video source[src]`, the `href` and text of `a[href]`, the text of `style` elements, the page title, and the `url loc` and `sitemap loc` texts of sitemaps.
- The LLM call (`sendToLlm`) is a parameter. Its provider, model and prompt are passed through unchanged.
