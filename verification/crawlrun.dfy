/** Properties of whole crawl runs: the bookkeeping invariant and what
    each event does to it, and the run-level behaviours that follow from the
    loop's structure. */
module CrawlRun {
  import opened Fallible
  import opened Platform
  import opened Crawl
  import Policy
  import Retry

  /** A new crawler, before any `start`, satisfies the invariant. */
  lemma InitialInv(config: Config)
    ensures Inv(World(NewCrawler(config), [], []))
  {
  }

  lemma ResultUrlsAppend(rs: seq<PageResult>, r: PageResult)
    ensures ResultUrls(rs + [r]) == ResultUrls(rs) + {r.url}
  {
    var rs' := rs + [r];
    assert rs'[|rs|].url == r.url;
    forall u | u in ResultUrls(rs') ensures u in ResultUrls(rs) + {r.url} {
      var k :| 0 <= k < |rs'| && rs'[k].url == u;
      if k < |rs| { assert rs[k].url == u; }
    }
    forall u | u in ResultUrls(rs) ensures u in ResultUrls(rs') {
      var k :| 0 <= k < |rs| && rs[k].url == u;
      assert rs'[k].url == u;
    }
  }

  lemma ErrorUrlsAppend(es: seq<CrawlError>, e: CrawlError)
    ensures ErrorUrls(es + [e]) == ErrorUrls(es) + {e.url}
  {
    var es' := es + [e];
    assert es'[|es|].url == e.url;
    forall u | u in ErrorUrls(es') ensures u in ErrorUrls(es) + {e.url} {
      var k :| 0 <= k < |es'| && es'[k].url == u;
      if k < |es| { assert es[k].url == u; }
    }
    forall u | u in ErrorUrls(es) ensures u in ErrorUrls(es') {
      var k :| 0 <= k < |es| && es[k].url == u;
      assert es'[k].url == u;
    }
  }

  lemma TaskUrlsAppend(ts: seq<QueueItem>, t: QueueItem)
    ensures TaskUrls(ts + [t]) == TaskUrls(ts) + {t.url}
  {
    var ts' := ts + [t];
    assert ts'[|ts|].url == t.url;
    forall u | u in TaskUrls(ts') ensures u in TaskUrls(ts) + {t.url} {
      var k :| 0 <= k < |ts'| && ts'[k].url == u;
      if k < |ts| { assert ts[k].url == u; }
    }
    forall u | u in TaskUrls(ts) ensures u in TaskUrls(ts') {
      var k :| 0 <= k < |ts| && ts[k].url == u;
      assert ts'[k].url == u;
    }
  }

  /** Removing a task whose URL no other task shares removes exactly its
      URL. */
  lemma TaskUrlsRemove(ts: seq<QueueItem>, i: nat)
    requires i < |ts| && DistinctUrls(ts)
    ensures TaskUrls(Remove(ts, i)) == TaskUrls(ts) - {ts[i].url}
    ensures DistinctUrls(Remove(ts, i))
  {
    var ts' := Remove(ts, i);
    forall u | u in TaskUrls(ts') ensures u in TaskUrls(ts) - {ts[i].url} {
      var k :| 0 <= k < |ts'| && ts'[k].url == u;
      if k < i { assert ts[k].url == u; } else { assert ts[k + 1].url == u; }
    }
    forall u | u in TaskUrls(ts) - {ts[i].url} ensures u in TaskUrls(ts') {
      var k :| 0 <= k < |ts| && ts[k].url == u;
      if k < i { assert ts'[k].url == u; } else { assert ts'[k - 1].url == u; }
    }
    forall j, k | 0 <= j < k < |ts'| ensures ts'[j].url != ts'[k].url {
      var j' := if j < i then j else j + 1;
      var k' := if k < i then k else k + 1;
      assert ts'[j] == ts[j'] && ts'[k] == ts[k'];
    }
  }

  /** `start` keeps the invariant when no earlier task is still in flight. */
  lemma BeginPreservesInv(env: Env, w: World, url: string, drivers: seq<Phase>)
    requires Inv(w)
    requires w.crawler.running || |w.tasks| == 0
    ensures Inv(World(Start(env, w.crawler, url).0, w.tasks, drivers))
  {
    if !w.crawler.running {
      StartFromRestInv(env, w.crawler, url, drivers);
    }
  }

  /** A crawler at rest with nothing in flight starts in a state that
      satisfies the invariant. */
  lemma StartFromRestInv(env: Env, c: Crawler, url: string, drivers: seq<Phase>)
    requires !c.running
    ensures Inv(World(Start(env, c, url).0, [], drivers))
  {
    EmptyInv(Start(env, c, url).0, drivers);
  }

  /** Nothing seen, reported or in flight, and a queue at depth 0. */
  lemma EmptyInv(c: Crawler, drivers: seq<Phase>)
    requires c.visited == {} && c.inProgress == {} && c.activeRequests == 0 && c.pagesProcessed == 0
    requires c.results == [] && c.errors == []
    requires forall k | 0 <= k < |c.queue| :: c.queue[k].depth == 0
    ensures Inv(World(c, [], drivers))
  {
    assert ResultUrls([]) == {} && ErrorUrls([]) == {} && TaskUrls([]) == {};
  }

  /** A dispatch keeps the invariant: the item it starts is neither visited
      nor in flight, and the loop's guard keeps both counters in bounds. */
  lemma DispatchPreservesInv(env: Env, w: World)
    requires Inv(w) && CanDispatch(w.crawler)
    ensures Inv(AfterDispatch(env, w))
  {
    DispatchTracked(env, w);
    DispatchShallow(env, w);
  }

  lemma DispatchTracked(env: Env, w: World)
    requires Tracked(w) && |w.crawler.queue| > 0
    ensures Tracked(AfterDispatch(env, w))
  {
    var (c', t) := Dispatch(env, w.crawler);
    if t.Some? {
      TrackedAfterAdding(w, t.value, AfterDispatch(env, w));
    }
  }

  lemma DispatchShallow(env: Env, w: World)
    requires Shallow(w) && |w.crawler.queue| > 0
    ensures Shallow(AfterDispatch(env, w))
  {
    var c := w.crawler;
    var (c', t) := Dispatch(env, c);
    var w' := AfterDispatch(env, w);
    assert forall k | 0 <= k < |c'.queue| :: c'.queue[k] == c.queue[k + 1];
    if t.Some? {
      assert forall k | 0 <= k < |w.tasks| :: w'.tasks[k] == w.tasks[k];
    }
  }

  /** The state after one dispatching iteration. */
  function AfterDispatch(env: Env, w: World): World
    requires |w.crawler.queue| > 0
  {
    var (c', t) := Dispatch(env, w.crawler);
    World(c', if t.Some? then w.tasks + [t.value] else w.tasks, w.drivers)
  }

  /** A new task whose URL is neither in flight nor visited joins the
      in-flight set. */
  lemma TrackedAfterAdding(w: World, t: QueueItem, w': World)
    requires Tracked(w) && t.url !in w.crawler.inProgress && t.url !in w.crawler.visited
    requires w'.tasks == w.tasks + [t]
    requires w'.crawler.activeRequests == w.crawler.activeRequests + 1
    requires w'.crawler.inProgress == w.crawler.inProgress + {t.url}
    requires w'.crawler.visited == w.crawler.visited
    ensures Tracked(w')
  {
    TaskUrlsAppend(w.tasks, t);
    var ts := w'.tasks;
    forall j, k | 0 <= j < k < |ts| ensures ts[j].url != ts[k].url {
      if k == |w.tasks| {
        assert ts[j].url in TaskUrls(w.tasks);
      } else {
        assert ts[j] == w.tasks[j] && ts[k] == w.tasks[k];
      }
    }
  }

  /** A task's completion keeps the invariant: a page is counted once, when
      it leaves the in-flight set for the visited set, and the links it
      queues are one level deeper than a page below `maxDepth`. This holds
      whatever the outcome. */
  lemma CompletePreservesInv(env: Env, w: World, i: nat, o: Outcome)
    requires Inv(w) && i < |w.tasks|
    ensures Inv(AfterCompletion(env, w, i, o))
  {
    match o
    case Refused => UncountedCompletion(env, w, i, o);
    case NotHtml => UncountedCompletion(env, w, i, o);
    case Failed(_) => FailedCompletion(env, w, i, o);
    case Crawled(_, _) => CrawledCompletion(env, w, i, o);
  }

  /** The state after task `i` finished with outcome `o`. */
  function AfterCompletion(env: Env, w: World, i: nat, o: Outcome): World
    requires i < |w.tasks|
  {
    var item := w.tasks[i];
    World(Release(ProcessUrl(env, w.crawler, item, o), item.url), Remove(w.tasks, i), w.drivers)
  }

  /** The part of the invariant that a completion re-establishes as soon as
      the task list and the in-flight set agree again. */
  lemma RemovedTask(w: World, i: nat)
    requires Inv(w) && i < |w.tasks|
    ensures TaskUrls(Remove(w.tasks, i)) == w.crawler.inProgress - {w.tasks[i].url}
    ensures DistinctUrls(Remove(w.tasks, i))
    ensures forall k | 0 <= k < |Remove(w.tasks, i)| :: Remove(w.tasks, i)[k].depth <= w.crawler.config.maxDepth
    ensures w.tasks[i].url in w.crawler.inProgress && w.tasks[i].url !in w.crawler.visited
  {
    TaskUrlsRemove(w.tasks, i);
  }

  lemma UncountedCompletion(env: Env, w: World, i: nat, o: Outcome)
    requires Inv(w) && i < |w.tasks| && (o.Refused? || o.NotHtml?)
    ensures Inv(AfterCompletion(env, w, i, o))
  {
    RemovedTask(w, i);
    var w' := AfterCompletion(env, w, i, o);
    assert Tracked(w');
    assert Counted(w'.crawler);
  }

  /** Reporting a page that was not visited keeps the reporting part of the
      invariant. */
  lemma CountError(c: Crawler, c': Crawler, e: CrawlError)
    requires Counted(c) && e.url !in c.visited
    requires c'.visited == c.visited + {e.url} && c'.pagesProcessed == c.pagesProcessed + 1
    requires c'.results == c.results && c'.errors == c.errors + [e]
    ensures Counted(c')
  {
    ErrorUrlsAppend(c.errors, e);
    assert c'.visited == ResultUrls(c'.results) + ErrorUrls(c'.errors);
    assert |c'.visited| == |c.visited| + 1;
    assert forall j, k | 0 <= j < k < |c'.errors| :: c'.errors[j].url != c'.errors[k].url by {
      forall j, k | 0 <= j < k < |c'.errors| ensures c'.errors[j].url != c'.errors[k].url {
        if k == |c.errors| {
          assert c'.errors[j] == c.errors[j];
          assert c.errors[j].url in ErrorUrls(c.errors);
        } else {
          assert c'.errors[j] == c.errors[j] && c'.errors[k] == c.errors[k];
        }
      }
    }
    assert ResultUrls(c'.results) !! ErrorUrls(c'.errors);
    assert ReportedOnce(c');
  }

  lemma CountResult(c: Crawler, c': Crawler, r: PageResult)
    requires Counted(c) && r.url !in c.visited
    requires c'.visited == c.visited + {r.url} && c'.pagesProcessed == c.pagesProcessed + 1
    requires c'.errors == c.errors && c'.results == c.results + [r]
    ensures Counted(c')
  {
    ResultUrlsAppend(c.results, r);
    assert c'.visited == ResultUrls(c'.results) + ErrorUrls(c'.errors);
    assert |c'.visited| == |c.visited| + 1;
    assert forall j, k | 0 <= j < k < |c'.results| :: c'.results[j].url != c'.results[k].url by {
      forall j, k | 0 <= j < k < |c'.results| ensures c'.results[j].url != c'.results[k].url {
        if k == |c.results| {
          assert c'.results[j] == c.results[j];
          assert c.results[j].url in ResultUrls(c.results);
        } else {
          assert c'.results[j] == c.results[j] && c'.results[k] == c.results[k];
        }
      }
    }
    assert ResultUrls(c'.results) !! ErrorUrls(c'.errors);
    assert ReportedOnce(c');
  }

  /** Task `i` leaves the in-flight set without touching the other
      tasks, and its URL is the only one that may become visited. */
  lemma TrackedAfterRemoval(w: World, i: nat, w': World)
    requires Tracked(w) && i < |w.tasks|
    requires w'.tasks == Remove(w.tasks, i)
    requires w'.crawler.activeRequests == w.crawler.activeRequests - 1
    requires w'.crawler.inProgress == w.crawler.inProgress - {w.tasks[i].url}
    requires w'.crawler.visited <= w.crawler.visited + {w.tasks[i].url}
    ensures Tracked(w')
  {
    TaskUrlsRemove(w.tasks, i);
  }

  /** A completion leaves the depths of the queue, tasks and results
      within `maxDepth` when what it adds is. */
  lemma ShallowAfterRemoval(w: World, i: nat, w': World)
    requires Shallow(w) && i < |w.tasks| && w'.crawler.config == w.crawler.config
    requires w'.tasks == Remove(w.tasks, i)
    requires |w.crawler.queue| <= |w'.crawler.queue| && w'.crawler.queue[..|w.crawler.queue|] == w.crawler.queue
    requires forall k | |w.crawler.queue| <= k < |w'.crawler.queue| :: w'.crawler.queue[k].depth <= w.crawler.config.maxDepth
    requires |w.crawler.results| <= |w'.crawler.results| <= |w.crawler.results| + 1
    requires w'.crawler.results[..|w.crawler.results|] == w.crawler.results
    requires |w'.crawler.results| > |w.crawler.results| ==> w'.crawler.results[|w.crawler.results|].depth == w.tasks[i].depth
    ensures Shallow(w')
  {
    var c := w.crawler;
    var c' := w'.crawler;
    forall k | 0 <= k < |c.queue| ensures c'.queue[k] == c.queue[k] {
      assert c'.queue[..|c.queue|][k] == c'.queue[k];
    }
    forall k | 0 <= k < |c.results| ensures c'.results[k] == c.results[k] {
      assert c'.results[..|c.results|][k] == c'.results[k];
    }
  }

  /** A failed page is reported as an error, marked visited and counted,
      and its task leaves the in-flight set; nothing else changes. */
  lemma FailedShape(env: Env, w: World, i: nat, o: Outcome)
    requires i < |w.tasks| && o.Failed?
    ensures var c := w.crawler; var item := w.tasks[i];
      AfterCompletion(env, w, i, o) ==
      World(c.(visited := c.visited + {item.url}, pagesProcessed := c.pagesProcessed + 1,
               errors := c.errors + [CrawlError(item.url, o.message, item.from)],
               inProgress := c.inProgress - {item.url}, activeRequests := c.activeRequests - 1),
            Remove(w.tasks, i), w.drivers)
  {
  }

  /** A crawled page is reported as a result, marked visited and counted,
      its links may be queued, and its task leaves the in-flight set. */
  lemma CrawledShape(env: Env, w: World, i: nat, o: Outcome)
    requires i < |w.tasks| && o.Crawled?
    ensures var c := w.crawler; var item := w.tasks[i]; var w' := AfterCompletion(env, w, i, o);
      w'.tasks == Remove(w.tasks, i) && w'.crawler.config == c.config &&
      w'.crawler.visited == c.visited + {item.url} && w'.crawler.pagesProcessed == c.pagesProcessed + 1 &&
      w'.crawler.errors == c.errors &&
      w'.crawler.results == c.results + [PageResult(item.url, item.depth, item.from, o.doc.title, o.html)] &&
      w'.crawler.inProgress == c.inProgress - {item.url} && w'.crawler.activeRequests == c.activeRequests - 1
  {
  }

  /** A crawled page only appends to the queue, at depths within
      `maxDepth`. */
  lemma CrawledQueue(env: Env, w: World, i: nat, o: Outcome)
    requires i < |w.tasks| && o.Crawled?
    ensures var q := w.crawler.queue; var q' := AfterCompletion(env, w, i, o).crawler.queue;
      |q| <= |q'| && q'[..|q|] == q &&
      forall k | |q| <= k < |q'| :: q'[k].depth <= w.crawler.config.maxDepth
  {
  }

  /** A completion that adds nothing to the queue or the results keeps
      every depth within `maxDepth`. */
  lemma ShallowAfterFailure(w: World, i: nat, w': World)
    requires Shallow(w) && i < |w.tasks| && w'.crawler.config == w.crawler.config
    requires w'.tasks == Remove(w.tasks, i)
    requires w'.crawler.queue == w.crawler.queue && w'.crawler.results == w.crawler.results
    ensures Shallow(w')
  {
  }

  lemma FailedCompletion(env: Env, w: World, i: nat, o: Outcome)
    requires Inv(w) && i < |w.tasks| && o.Failed?
    ensures Inv(AfterCompletion(env, w, i, o))
  {
    var c := w.crawler;
    var item := w.tasks[i];
    var w' := AfterCompletion(env, w, i, o);
    FailedShape(env, w, i, o);
    assert item.url in c.inProgress;
    assert Tracked(w') by { TrackedAfterRemoval(w, i, w'); }
    assert Counted(w'.crawler) by { CountError(c, w'.crawler, CrawlError(item.url, o.message, item.from)); }
    assert Bounded(w'.crawler);
    assert Shallow(w') by { ShallowAfterFailure(w, i, w'); }
  }

  lemma CrawledCompletion(env: Env, w: World, i: nat, o: Outcome)
    requires Inv(w) && i < |w.tasks| && o.Crawled?
    ensures Inv(AfterCompletion(env, w, i, o))
  {
    var c := w.crawler;
    var item := w.tasks[i];
    var w' := AfterCompletion(env, w, i, o);
    var c' := w'.crawler;
    CrawledShape(env, w, i, o);
    CrawledQueue(env, w, i, o);
    assert item.url in c.inProgress;
    assert Tracked(w') by { TrackedAfterRemoval(w, i, w'); }
    assert Counted(c') by { CountResult(c, c', PageResult(item.url, item.depth, item.from, o.doc.title, o.html)); }
    assert Bounded(c');
    assert Shallow(w') by {
      assert c'.results[..|c.results|] == c.results;
      ShallowAfterRemoval(w, i, w');
    }
  }

  /** Changing only the `running` and `paused` flags, or the drivers, keeps
      the invariant. */
  lemma FlagsKeepInv(w: World, w': World)
    requires Inv(w)
    requires w'.tasks == w.tasks
    requires w'.crawler == w.crawler.(running := w'.crawler.running, paused := w'.crawler.paused)
    ensures Inv(w')
  {
  }

  /** The events that touch only the flags or the drivers keep the
      invariant. */
  lemma ControlPreservesInv(env: Env, w: World, e: Event)
    requires Inv(w) && Enabled(w, e)
    requires e.Exit? || e.Settle? || e.PauseEvent? || e.ResumeEvent? || e.StopEvent?
    ensures Inv(Step(env, w, e))
  {
    FlagsKeepInv(w, Step(env, w, e));
  }

  /** Every event keeps the invariant, except a `start` while tasks of a
      stopped run are still in flight. */
  lemma StepPreservesInv(env: Env, w: World, e: Event)
    requires Inv(w) && Enabled(w, e)
    requires e.Begin? ==> w.crawler.running || |w.tasks| == 0
    ensures Inv(Step(env, w, e))
  {
    match e
    case Begin(url) =>
      var (c', o) := Start(env, w.crawler, url);
      BeginPreservesInv(env, w, url, if o.Started? then w.drivers + [Looping] else w.drivers);
    case Iterate =>
      DispatchPreservesInv(env, w);
      assert Step(env, w, e) == AfterDispatch(env, w);
    case Complete(i, attempt) =>
      var o := Classify(env, w.crawler, w.tasks[i], attempt);
      CompletePreservesInv(env, w, i, o);
      assert Step(env, w, e) == AfterCompletion(env, w, i, o);
    case _ => ControlPreservesInv(env, w, e);
  }

  /** With the invariant, nothing is in flight below zero, and pages
      processed stay below `maxPages + concurrentRequests`: the cap is
      checked only when a page is dispatched. */
  lemma PagesBounded(w: World)
    requires Inv(w)
    ensures w.crawler.activeRequests >= 0
    ensures w.crawler.pagesProcessed == 0 ||
      w.crawler.pagesProcessed < w.crawler.config.maxPages + w.crawler.config.concurrentRequests
  {
  }

  /** `getStats().successCount` is the number of crawled pages. */
  lemma SuccessCountIsResults(w: World)
    requires Inv(w)
    ensures GetStats(w.crawler).successCount == |w.crawler.results|
    ensures GetStats(w.crawler).errorCount == |w.crawler.errors|
  {
  }

  /** `stop()` only clears `running`; the tasks in flight keep going. A
      `start` issued while they drain resets `activeRequests` to zero, and
      the old task's `.finally` then drives it to -1. */
  lemma RestartWhileDraining(env: Env, w: World, url: string, attempt: nat -> Attempt)
    requires |w.tasks| == 1 && !w.crawler.running && env.parse(url).Ok?
    ensures var w1 := Step(env, w, Begin(url));
      w1.crawler.running && w1.crawler.activeRequests == 0 && |w1.tasks| == 1 && !Inv(w1) &&
      Step(env, w1, Complete(0, attempt)).crawler.activeRequests == -1
  {
    var w1 := Step(env, w, Begin(url));
    RestartKeepsTasks(env, w, url);
    assert !Tracked(w1);
    SettleBelowZero(env, w1, attempt);
  }

  /** A `start` from rest keeps the tasks in flight and zeroes the counter. */
  lemma RestartKeepsTasks(env: Env, w: World, url: string)
    requires !w.crawler.running && env.parse(url).Ok?
    ensures var w1 := Step(env, w, Begin(url));
      w1.tasks == w.tasks && w1.crawler.running && w1.crawler.activeRequests == 0
  {
    assert Step(env, w, Begin(url)).crawler == Start(env, w.crawler, url).0;
  }

  /** A task settling while the counter is zero drives it to -1. */
  lemma SettleBelowZero(env: Env, w: World, attempt: nat -> Attempt)
    requires |w.tasks| == 1 && w.crawler.activeRequests == 0
    ensures Step(env, w, Complete(0, attempt)).crawler.activeRequests == -1
  {
    var c2 := ProcessUrl(env, w.crawler, w.tasks[0], Classify(env, w.crawler, w.tasks[0], attempt));
    assert c2.activeRequests == 0;
  }

  /** Stopping a running crawl with a task in flight reaches the state in
      which `RestartWhileDraining` applies. */
  lemma StopKeepsTasks(env: Env, w: World)
    requires Inv(w) && w.crawler.running && |w.tasks| == 1
    ensures var w' := Step(env, w, StopEvent);
      !w'.crawler.running && w'.tasks == w.tasks && w'.crawler.activeRequests == 1
  {
  }

  /** Only `start` sets `running`: once stopped or finished, no other event
      revives the crawl. */
  lemma OnlyBeginRuns(env: Env, w: World, e: Event)
    requires Enabled(w, e) && !e.Begin? && !w.crawler.running
    ensures !Step(env, w, e).crawler.running
  {
  }

  /** Only `start` forgets what the crawl has seen: every other event lets
      the visited set and the page count only grow, and only appends to the
      results and the errors. */
  lemma KeepsHistory(env: Env, w: World, e: Event)
    requires Enabled(w, e) && !e.Begin?
    ensures var r := Step(env, w, e).crawler;
      && w.crawler.visited <= r.visited
      && w.crawler.pagesProcessed <= r.pagesProcessed
      && |w.crawler.results| <= |r.results| && r.results[..|w.crawler.results|] == w.crawler.results
      && |w.crawler.errors| <= |r.errors| && r.errors[..|w.crawler.errors|] == w.crawler.errors
  {
    match e
    case Complete(i, attempt) =>
      var item := w.tasks[i];
      CompletionKeeps(env, w.crawler, item, Classify(env, w.crawler, item, attempt));
    case Iterate =>
      assert Step(env, w, e).crawler == Dispatch(env, w.crawler).0;
    case _ =>
  }

  /** A settling request only adds to what the crawl has seen. */
  lemma CompletionKeeps(env: Env, c: Crawler, item: QueueItem, o: Outcome)
    ensures var r := Release(ProcessUrl(env, c, item, o), item.url);
      && c.visited <= r.visited
      && c.pagesProcessed <= r.pagesProcessed
      && |c.results| <= |r.results| && r.results[..|c.results|] == c.results
      && |c.errors| <= |r.errors| && r.errors[..|c.errors|] == c.errors
  {
  }

  /** A draining driver that finds the crawler paused ends the run, queued
      work and all, and `resume()` cannot bring it back. */
  lemma PausedRunEnds(env: Env, w: World, d: nat)
    requires d < |w.drivers| && w.drivers[d] == Draining && w.crawler.activeRequests <= 0
    requires w.crawler.running && w.crawler.paused && |w.crawler.queue| > 0
    ensures Enabled(w, Settle(d))
    ensures var w' := Step(env, w, Settle(d));
      !w'.crawler.running && w'.crawler.queue == w.crawler.queue &&
      !Step(env, w', ResumeEvent).crawler.running &&
      !CanDispatch(Step(env, w', ResumeEvent).crawler)
  {
  }

  /** The transport failure used to exhibit the overshoot: every attempt
      throws. */
  function Unreachable(): nat -> Attempt {
    j => Threw("unreachable")
  }

  /** Two heads of the queue that the filter accepts, with room for two
      requests and one page left under the cap. */
  predicate OvershootReady(env: Env, c: Crawler) {
    c.running && !c.paused && !c.config.respectRobots &&
    c.pagesProcessed + 1 == c.config.maxPages && c.activeRequests == 0 && c.config.concurrentRequests >= 2 &&
    |c.queue| >= 2 && c.queue[0].url != c.queue[1].url &&
    c.queue[0].url !in c.inProgress && c.queue[1].url !in c.inProgress &&
    Policy.ShouldCrawl(env, c.config.Filter(), c.baseUrl, c.visited, c.queue[0].url, c.queue[0].depth) &&
    Policy.ShouldCrawl(env, c.config.Filter(), c.baseUrl, c.visited, c.queue[1].url, c.queue[1].depth)
  }

  /** Two dispatches at `maxPages - 1` pages are both counted: the crawl
      ends with `maxPages + 1` pages processed. */
  lemma PageCapOvershoot(env: Env, w: World)
    requires OvershootReady(env, w.crawler)
    ensures Enabled(w, Iterate)
    ensures var w1 := Step(env, w, Iterate);
      Enabled(w1, Iterate) &&
      var w2 := Step(env, w1, Iterate);
      |w2.tasks| == |w.tasks| + 2 &&
      var w3 := Step(env, w2, Complete(0, Unreachable()));
      |w3.tasks| == |w.tasks| + 1 &&
      Step(env, w3, Complete(0, Unreachable())).crawler.pagesProcessed == w.crawler.config.maxPages + 1
  {
    OvershootDispatch(env, w);
    var w2 := Step(env, Step(env, w, Iterate), Iterate);
    OvershootFailure(env, w2, 0);
    OvershootFailure(env, Step(env, w2, Complete(0, Unreachable())), 0);
  }

  /** Both heads are dispatched before either completes. */
  lemma OvershootDispatch(env: Env, w: World)
    requires OvershootReady(env, w.crawler)
    ensures Enabled(w, Iterate)
    ensures var w1 := Step(env, w, Iterate);
      Enabled(w1, Iterate) &&
      var w2 := Step(env, w1, Iterate);
      |w2.tasks| == |w.tasks| + 2 && !w2.crawler.config.respectRobots &&
      w2.crawler.pagesProcessed == w.crawler.pagesProcessed &&
      w2.crawler.config == w.crawler.config
  {
    var c := w.crawler;
    var w1 := Step(env, w, Iterate);
    assert w1 == AfterDispatch(env, w);
    assert w1.crawler.queue == c.queue[1..] && w1.crawler.inProgress == c.inProgress + {c.queue[0].url};
    assert w1.crawler.queue[0] == c.queue[1];
    var w2 := Step(env, w1, Iterate);
    assert w2 == AfterDispatch(env, w1);
  }

  /** With robots.txt ignored and a transport that always throws, a task
      fails and is counted. */
  lemma OvershootFailure(env: Env, w: World, i: nat)
    requires i < |w.tasks| && !w.crawler.config.respectRobots
    ensures Classify(env, w.crawler, w.tasks[i], Unreachable()) ==
      Failed(Retry.GiveUpMessage(w.crawler.config.maxRetries, Threw("unreachable")))
    ensures Step(env, w, Complete(i, Unreachable())).crawler.pagesProcessed == w.crawler.pagesProcessed + 1
  {
    Retry.AllFailuresGiveUp(Unreachable(), w.crawler.config.maxRetries);
  }
}
