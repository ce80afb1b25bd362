/**
 * What a run of the crawl loop of `crawlGovernmentSite` leaves behind,
 * described on values: the queue entries, the log of the URLs the loop
 * fetched (a ghost record the source does not keep), the links of a page that
 * are queued, and the breadth-first invariants that the class's loop keeps.
 *
 * Web pages are an oracle `pages` from URL to the outcome of `scrapePage`; a
 * URL is fetched at most once per crawl, so one answer per URL is enough.
 * `accepts` stands for `isValidUrl` with the crawl's allowed domains and
 * start URL.
 */
module CrawlLog {
  import opened Wrappers
  import Extraction

  /** `{ url, depth }`, an entry of `urlQueue`. */
  datatype Entry = Entry(url: string, depth: int)

  /** The `{ notifications, links }` that `scrapePage` returns. */
  datatype PageData = PageData(notifications: seq<Extraction.Item>, links: seq<Extraction.Link>)

  /** What `scrapePage` gives for a URL: the page data, or an error thrown by
      the browser (navigation failure, time-out). */
  datatype PageResult = Loaded(data: PageData) | LoadFailed

  // ---------------------------------------------------------------------
  // The links of one page that are queued

  /** The entries the `pageData.links.forEach` pushes, at depth `depth`, when
      the URLs in `visited` have been visited. */
  function Admitted(links: seq<Extraction.Link>, visited: set<string>, accepts: Extraction.Link -> bool, depth: int): (r: seq<Entry>)
    ensures |r| <= |links|
    ensures forall k :: 0 <= k < |r| ==> r[k].depth == depth && r[k].url !in visited
    decreases |links|
  {
    if links == [] then []
    else
      var l := links[|links| - 1];
      Admitted(links[..|links| - 1], visited, accepts, depth)
      + (if l.href !in visited && accepts(l) then [Entry(l.href, depth)] else [])
  }

  /** Every queued entry comes from an accepted link of the page. */
  lemma {:induction false} AdmittedLinked(links: seq<Extraction.Link>, visited: set<string>, accepts: Extraction.Link -> bool, depth: int, k: int)
    requires 0 <= k < |Admitted(links, visited, accepts, depth)|
    ensures exists l :: l in links && l.href == Admitted(links, visited, accepts, depth)[k].url
                        && accepts(l)
    decreases |links|
  {
    var init := links[..|links| - 1];
    var l := links[|links| - 1];
    var a := Admitted(init, visited, accepts, depth);
    if k < |a| {
      AdmittedLinked(init, visited, accepts, depth, k);
      var m :| m in init && m.href == a[k].url && accepts(m);
      assert m in links;
    } else {
      assert l in links;
    }
  }

  /** Every accepted link of the page to an unvisited URL is queued. */
  lemma {:induction false} AdmittedCovers(links: seq<Extraction.Link>, visited: set<string>, accepts: Extraction.Link -> bool, depth: int, l: Extraction.Link)
    requires l in links && l.href !in visited && accepts(l)
    ensures Entry(l.href, depth) in Admitted(links, visited, accepts, depth)
    decreases |links|
  {
    var init := links[..|links| - 1];
    if l != links[|links| - 1] {
      assert links == init + [links[|links| - 1]];
      assert l in init;
      AdmittedCovers(init, visited, accepts, depth, l);
    }
  }

  // ---------------------------------------------------------------------
  // The log of fetched URLs

  /** `visitedUrls` as the set of the logged URLs. */
  function UrlsOf(log: seq<Entry>): set<string> {
    set i | 0 <= i < |log| :: log[i].url
  }

  lemma UrlsOfAppend(log: seq<Entry>, e: Entry)
    ensures UrlsOf(log + [e]) == UrlsOf(log) + {e.url}
  {
    forall u | u in UrlsOf(log + [e]) ensures u in UrlsOf(log) + {e.url} {
      var i :| 0 <= i < |log + [e]| && (log + [e])[i].url == u;
      if i < |log| {
        assert (log + [e])[i] == log[i];
      }
    }
    forall u | u in UrlsOf(log) ensures u in UrlsOf(log + [e]) {
      var i :| 0 <= i < |log| && log[i].url == u;
      assert (log + [e])[i] == log[i];
    }
    assert (log + [e])[|log|] == e;
  }

  /** How many logged fetches loaded a page (`successfulRequests`). */
  function Loads(log: seq<Entry>, pages: string -> PageResult): (n: nat)
    ensures n <= |log|
    decreases |log|
  {
    if log == [] then 0
    else Loads(log[..|log| - 1], pages) + (if pages(log[|log| - 1].url).Loaded? then 1 else 0)
  }

  /** The items of one fetch: those of a loaded page, none after an error. */
  function ItemsOf(r: PageResult): seq<Extraction.Item> {
    match r
    case Loaded(data) => data.notifications
    case LoadFailed => []
  }

  /** `allNotifications`: the items of the logged fetches, in order. */
  function Notifications(log: seq<Entry>, pages: string -> PageResult): seq<Extraction.Item>
    decreases |log|
  {
    if log == [] then [] else Notifications(log[..|log| - 1], pages) + ItemsOf(pages(log[|log| - 1].url))
  }

  lemma LogSnoc(log: seq<Entry>, e: Entry, pages: string -> PageResult)
    ensures Loads(log + [e], pages) == Loads(log, pages) + (if pages(e.url).Loaded? then 1 else 0)
    ensures Notifications(log + [e], pages) == Notifications(log, pages) + ItemsOf(pages(e.url))
  {
    assert (log + [e])[..|log|] == log;
  }

  // ---------------------------------------------------------------------
  // Breadth-first invariants

  /** Depths never decrease along `q`. */
  predicate Sorted(q: seq<Entry>) {
    forall i, j :: 0 <= i <= j < |q| ==> q[i].depth <= q[j].depth
  }

  /** No entry is more than one level below the first. */
  predicate Spread(q: seq<Entry>) {
    q != [] ==> forall i :: 0 <= i < |q| ==> q[i].depth <= q[0].depth + 1
  }

  /** The fetch `r` loaded a page with an accepted link to `url`. */
  ghost predicate LinkedFrom(r: PageResult, url: string, accepts: Extraction.Link -> bool) {
    r.Loaded? && exists l :: l in r.data.links && l.href == url && accepts(l)
  }

  /** One of the first `n` logged fetches, one level up, linked to `e`. */
  ghost predicate Discovered(log: seq<Entry>, n: int, e: Entry, pages: string -> PageResult,
                             accepts: Extraction.Link -> bool) {
    exists j :: 0 <= j < n && j < |log| && log[j].depth == e.depth - 1
                && LinkedFrom(pages(log[j].url), e.url, accepts)
  }

  /** An entry a breadth-first crawl from `start` can hold once the first `n`
      fetches of `log` are done: the start URL at depth 0, or a link found one
      level up, no deeper than `maxDepth`. */
  ghost predicate EntryOk(e: Entry, log: seq<Entry>, n: int, start: string, maxDepth: int,
                          pages: string -> PageResult, accepts: Extraction.Link -> bool) {
    0 <= e.depth
    && (e.depth == 0 ==> e.url == start)
    && (e.depth > 0 ==> e.depth <= maxDepth && Discovered(log, n, e, pages, accepts))
  }

  /** No URL is logged twice. */
  predicate DistinctUrls(log: seq<Entry>) {
    forall i, j :: 0 <= i < j < |log| ==> log[i].url != log[j].url
  }

  /** The log of a breadth-first crawl from `start`: each URL at most once,
      depths within `0..maxDepth` and in order, depth 0 only for `start`,
      and every other entry discovered on a page fetched before it. */
  ghost predicate WellFormedLog(log: seq<Entry>, start: string, maxDepth: int, pages: string -> PageResult,
                                accepts: Extraction.Link -> bool) {
    DistinctUrls(log)
    && Sorted(log)
    && (forall i :: 0 <= i < |log| ==> log[i].depth <= maxDepth)
    // The trigger keeps the witness `log[j]` of `Discovered` from firing
    // this quantifier again.
    && forall i {:trigger EntryOk(log[i], log, i, start, maxDepth, pages, accepts)} :: 0 <= i < |log| ==>
         EntryOk(log[i], log, i, start, maxDepth, pages, accepts)
  }

  /** The queue is in breadth-first order behind `log`. */
  predicate InOrder(q: seq<Entry>, log: seq<Entry>) {
    Sorted(q) && Spread(q) && (q != [] && log != [] ==> log[|log| - 1].depth <= q[0].depth)
  }

  /** The queue of a breadth-first crawl that has fetched `log`. */
  ghost predicate WellFormedQueue(q: seq<Entry>, log: seq<Entry>, start: string, maxDepth: int,
                                  pages: string -> PageResult, accepts: Extraction.Link -> bool) {
    InOrder(q, log)
    && forall i :: 0 <= i < |q| ==> EntryOk(q[i], log, |log|, start, maxDepth, pages, accepts)
  }

  /** `url` waits in `q` at a depth the loop will not skip. */
  predicate Queued(q: seq<Entry>, url: string, maxDepth: int) {
    exists k :: 0 <= k < |q| && q[k].url == url && q[k].depth <= maxDepth
  }

  /** `l` is a link the loop follows from the logged fetch `e`. */
  ghost predicate Follows(e: Entry, l: Extraction.Link, maxDepth: int, pages: string -> PageResult,
                          accepts: Extraction.Link -> bool) {
    pages(e.url).Loaded? && e.depth < maxDepth && l in pages(e.url).data.links
    && accepts(l)
  }

  /** Every link followed from a logged page is visited or still waits. */
  ghost predicate Covered(log: seq<Entry>, q: seq<Entry>, maxDepth: int, pages: string -> PageResult,
                          accepts: Extraction.Link -> bool) {
    forall j, l :: 0 <= j < |log| && Follows(log[j], l, maxDepth, pages, accepts) ==>
      l.href in UrlsOf(log) || Queued(q, l.href, maxDepth)
  }

  /** Every link followed from a logged page has been visited. */
  ghost predicate Closed(log: seq<Entry>, maxDepth: int, pages: string -> PageResult,
                         accepts: Extraction.Link -> bool) {
    forall j, l :: 0 <= j < |log| && Follows(log[j], l, maxDepth, pages, accepts) ==>
      l.href in UrlsOf(log)
  }

  // ---------------------------------------------------------------------
  // One step of the loop

  /** Logging one more fetch keeps what the first `n` fetches justified. */
  lemma EntryOkGrows(e: Entry, log: seq<Entry>, n: int, x: Entry, start: string, maxDepth: int,
                     pages: string -> PageResult, accepts: Extraction.Link -> bool)
    requires 0 <= n <= |log|
    requires EntryOk(e, log, n, start, maxDepth, pages, accepts)
    ensures EntryOk(e, log + [x], n, start, maxDepth, pages, accepts)
  {
    if e.depth > 0 {
      var j :| 0 <= j < n && j < |log| && log[j].depth == e.depth - 1
               && LinkedFrom(pages(log[j].url), e.url, accepts);
      assert (log + [x])[j] == log[j];
    }
  }

  /** Dropping the head of the queue without fetching it. */
  lemma QueueAfterSkip(q: seq<Entry>, log: seq<Entry>, start: string, maxDepth: int,
                       pages: string -> PageResult, accepts: Extraction.Link -> bool)
    requires q != [] && WellFormedQueue(q, log, start, maxDepth, pages, accepts)
    ensures WellFormedQueue(q[1..], log, start, maxDepth, pages, accepts)
  {
    var q' := q[1..];
    assert forall i :: 0 <= i < |q'| ==> q'[i] == q[i + 1];
    if q' != [] {
      assert q[0].depth <= q'[0].depth;
    }
  }

  /** The skipped head was visited already or beyond the depth limit, so what
      it stood for in `Covered` is visited. */
  lemma CoveredAfterSkip(q: seq<Entry>, log: seq<Entry>, maxDepth: int, pages: string -> PageResult,
                         accepts: Extraction.Link -> bool)
    requires q != [] && (q[0].url in UrlsOf(log) || q[0].depth > maxDepth)
    requires Covered(log, q, maxDepth, pages, accepts)
    ensures Covered(log, q[1..], maxDepth, pages, accepts)
  {
    forall j, l | 0 <= j < |log| && Follows(log[j], l, maxDepth, pages, accepts)
      ensures l.href in UrlsOf(log) || Queued(q[1..], l.href, maxDepth)
    {
      if l.href !in UrlsOf(log) {
        var k :| 0 <= k < |q| && q[k].url == l.href && q[k].depth <= maxDepth;
        assert k != 0;
        assert q[1..][k - 1] == q[k];
      }
    }
  }

  /** After the head of the queue is fetched, the rest followed by the
      entries one level deeper is still in breadth-first order. */
  lemma OrderAfterVisit(q: seq<Entry>, log: seq<Entry>, pushed: seq<Entry>)
    requires q != [] && InOrder(q, log)
    requires forall k :: 0 <= k < |pushed| ==> pushed[k].depth == q[0].depth + 1
    ensures InOrder(q[1..] + pushed, log + [q[0]])
  {
    var d := q[0].depth;
    var q' := q[1..] + pushed;
    forall i | 0 <= i < |q'| ensures d <= q'[i].depth <= d + 1 && (i >= |q| - 1 ==> q'[i].depth == d + 1) {
      if i < |q| - 1 {
        assert q'[i] == q[i + 1];
      } else {
        assert q'[i] == pushed[i - (|q| - 1)];
      }
    }
    forall i, j | 0 <= i <= j < |q'| ensures q'[i].depth <= q'[j].depth {
      if j < |q| - 1 {
        assert q'[i] == q[i + 1] && q'[j] == q[j + 1];
      }
    }
  }

  /** Fetching the head `e` of the queue; `pushed` is what the page pushed. */
  lemma QueueAfterVisit(q: seq<Entry>, log: seq<Entry>, pushed: seq<Entry>, start: string, maxDepth: int,
                        pages: string -> PageResult, accepts: Extraction.Link -> bool)
    requires q != [] && WellFormedQueue(q, log, start, maxDepth, pages, accepts)
    requires pushed != [] ==> q[0].depth < maxDepth
    requires forall k :: 0 <= k < |pushed| ==>
               pushed[k].depth == q[0].depth + 1 && LinkedFrom(pages(q[0].url), pushed[k].url, accepts)
    ensures WellFormedQueue(q[1..] + pushed, log + [q[0]], start, maxDepth, pages, accepts)
  {
    var e := q[0];
    var log' := log + [e];
    var q' := q[1..] + pushed;
    OrderAfterVisit(q, log, pushed);
    forall i | 0 <= i < |q'| ensures EntryOk(q'[i], log', |log'|, start, maxDepth, pages, accepts) {
      if i < |q| - 1 {
        assert q'[i] == q[i + 1];
        EntryOkGrows(q[i + 1], log, |log|, e, start, maxDepth, pages, accepts);
        assert Discovered(log', |log|, q'[i], pages, accepts) ==> Discovered(log', |log'|, q'[i], pages, accepts);
      } else {
        var p := pushed[i - (|q| - 1)];
        assert q'[i] == p;
        assert log'[|log|] == e;
        assert Discovered(log', |log'|, p, pages, accepts);
      }
    }
  }

  /** Logging the head `e` of the queue keeps the log well formed. */
  lemma LogAfterVisit(q: seq<Entry>, log: seq<Entry>, start: string, maxDepth: int,
                      pages: string -> PageResult, accepts: Extraction.Link -> bool)
    requires q != [] && WellFormedQueue(q, log, start, maxDepth, pages, accepts)
    requires WellFormedLog(log, start, maxDepth, pages, accepts)
    requires q[0].url !in UrlsOf(log) && q[0].depth <= maxDepth
    ensures WellFormedLog(log + [q[0]], start, maxDepth, pages, accepts)
  {
    var e := q[0];
    var log' := log + [e];
    forall i | 0 <= i < |log'|
      ensures log'[i].depth <= maxDepth && EntryOk(log'[i], log', i, start, maxDepth, pages, accepts)
    {
      if i < |log| {
        assert log'[i] == log[i];
        EntryOkGrows(log[i], log, i, e, start, maxDepth, pages, accepts);
      } else {
        EntryOkGrows(e, log, |log|, e, start, maxDepth, pages, accepts);
      }
    }
    DistinctAfterVisit(log, e);
    SortedAfterVisit(log, e);
  }

  lemma DistinctAfterVisit(log: seq<Entry>, e: Entry)
    requires DistinctUrls(log) && e.url !in UrlsOf(log)
    ensures DistinctUrls(log + [e])
  {
    var log' := log + [e];
    forall i, j | 0 <= i < j < |log'| ensures log'[i].url != log'[j].url {
      assert log'[i] == log[i];
      if j == |log| {
        assert log[i].url in UrlsOf(log);
      } else {
        assert log'[j] == log[j];
      }
    }
  }

  lemma SortedAfterVisit(log: seq<Entry>, e: Entry)
    requires Sorted(log) && (log != [] ==> log[|log| - 1].depth <= e.depth)
    ensures Sorted(log + [e])
  {
    var log' := log + [e];
    forall i, j | 0 <= i <= j < |log'| ensures log'[i].depth <= log'[j].depth {
      if i < |log| {
        assert log'[i] == log[i];
        if j < |log| {
          assert log'[j] == log[j];
        } else {
          assert log[i].depth <= log[|log| - 1].depth;
        }
      }
    }
  }

  /** After fetching the head `e`, every link it follows is visited or was
      pushed with `pushed`, and every older obligation is kept. */
  lemma CoveredAfterVisit(q: seq<Entry>, log: seq<Entry>, pushed: seq<Entry>, maxDepth: int,
                          pages: string -> PageResult, accepts: Extraction.Link -> bool)
    requires q != [] && Covered(log, q, maxDepth, pages, accepts)
    requires forall l :: Follows(q[0], l, maxDepth, pages, accepts) ==>
               l.href in UrlsOf(log) || Entry(l.href, q[0].depth + 1) in pushed
    ensures Covered(log + [q[0]], q[1..] + pushed, maxDepth, pages, accepts)
  {
    var e := q[0];
    var log' := log + [e];
    var q' := q[1..] + pushed;
    UrlsOfAppend(log, e);
    forall j, l | 0 <= j < |log'| && Follows(log'[j], l, maxDepth, pages, accepts)
      ensures l.href in UrlsOf(log') || Queued(q', l.href, maxDepth)
    {
      if j < |log| {
        assert log'[j] == log[j];
        if l.href !in UrlsOf(log) {
          var k :| 0 <= k < |q| && q[k].url == l.href && q[k].depth <= maxDepth;
          if k > 0 {
            assert q'[k - 1] == q[k];
          }
        }
      } else {
        assert log'[j] == e;
        if l.href !in UrlsOf(log) {
          var k :| 0 <= k < |pushed| && pushed[k] == Entry(l.href, e.depth + 1);
          assert q'[|q| - 1 + k] == pushed[k];
        }
      }
    }
  }

  /** Fetching the head `e` when the fetch failed: nothing is pushed. */
  lemma CoveredAfterFailure(q: seq<Entry>, log: seq<Entry>, maxDepth: int,
                            pages: string -> PageResult, accepts: Extraction.Link -> bool)
    requires q != [] && Covered(log, q, maxDepth, pages, accepts)
    requires pages(q[0].url).LoadFailed?
    ensures Covered(log + [q[0]], q[1..], maxDepth, pages, accepts)
  {
    assert q[1..] + [] == q[1..];
    CoveredAfterVisit(q, log, [], maxDepth, pages, accepts);
  }

  /** The entries a loaded page pushes meet the requirements of
      `QueueAfterVisit` and `CoveredAfterVisit`. */
  lemma AdmittedFits(page: PageData, e: Entry, visited: set<string>, pushed: seq<Entry>, maxDepth: int,
                     pages: string -> PageResult, accepts: Extraction.Link -> bool)
    requires pages(e.url) == Loaded(page)
    requires pushed == if e.depth < maxDepth then Admitted(page.links, visited, accepts, e.depth + 1) else []
    ensures forall k :: 0 <= k < |pushed| ==>
              pushed[k].depth == e.depth + 1 && LinkedFrom(pages(e.url), pushed[k].url, accepts)
    ensures forall l :: Follows(e, l, maxDepth, pages, accepts) ==>
              l.href in visited || Entry(l.href, e.depth + 1) in pushed
  {
    var links := page.links;
    if e.depth < maxDepth {
      forall k | 0 <= k < |pushed| ensures LinkedFrom(pages(e.url), pushed[k].url, accepts) {
        AdmittedLinked(links, visited, accepts, e.depth + 1, k);
      }
      forall l | Follows(e, l, maxDepth, pages, accepts) && l.href !in visited
        ensures Entry(l.href, e.depth + 1) in pushed
      {
        AdmittedCovers(links, visited, accepts, e.depth + 1, l);
      }
    }
  }

  // ---------------------------------------------------------------------
  // What the invariants give at the end

  /** The first fetch of a well-formed log is the start URL at depth 0, the
      only entry at depth 0. */
  lemma LogStartsAtStart(log: seq<Entry>, start: string, maxDepth: int, pages: string -> PageResult,
                         accepts: Extraction.Link -> bool)
    requires WellFormedLog(log, start, maxDepth, pages, accepts) && log != []
    ensures log[0] == Entry(start, 0)
    ensures forall i :: 0 < i < |log| ==> log[i].depth > 0
  {
    assert !Discovered(log, 0, log[0], pages, accepts);
    assert EntryOk(log[0], log, 0, start, maxDepth, pages, accepts);
    forall i | 0 < i < |log| ensures log[i].depth > 0 {
      assert log[0].url != log[i].url;
      assert log[0].depth <= log[i].depth;
      assert EntryOk(log[i], log, i, start, maxDepth, pages, accepts);
    }
  }

  /** A crawl whose queue ran dry visited every link it followed: no
      accepted link from a fetched page above the depth limit was missed. */
  lemma EmptyQueueClosed(log: seq<Entry>, maxDepth: int, pages: string -> PageResult,
                         accepts: Extraction.Link -> bool)
    requires Covered(log, [], maxDepth, pages, accepts)
    ensures Closed(log, maxDepth, pages, accepts)
  {
    forall j, l | 0 <= j < |log| && Follows(log[j], l, maxDepth, pages, accepts)
      ensures l.href in UrlsOf(log)
    {
      assert !Queued([], l.href, maxDepth);
    }
  }

  // ---------------------------------------------------------------------
  // The loop as a step function

  /** What the loop reads and never changes: the start URL, the limits, the
      pages, and the `isValidUrl` parameters. */
  datatype Context = Context(start: string, maxDepth: int, maxPages: int, pages: string -> PageResult,
                             accepts: Extraction.Link -> bool)

  /** What the loop changes: `urlQueue`, `visitedUrls`, `crawledPages` and
      the three request counters. */
  datatype Crawl = Crawl(queue: seq<Entry>, visited: set<string>, crawled: int,
                         total: int, successful: int, failed: int)

  /** The state the loop starts from. */
  function Start(x: Context): Crawl {
    Crawl([Entry(x.start, 0)], {}, 0, 0, 0, 0)
  }

  /** The head of the queue is skipped: visited already, or too deep. */
  predicate Skips(x: Context, c: Crawl)
    requires c.queue != []
  {
    c.queue[0].url in c.visited || c.queue[0].depth > x.maxDepth
  }

  /** The entries pushed after the head `e` loaded as `page`. */
  function Pushed(x: Context, c: Crawl, e: Entry, page: PageData): seq<Entry> {
    if e.depth < x.maxDepth
    then Admitted(page.links, c.visited, x.accepts, e.depth + 1)
    else []
  }

  /** One iteration of the loop. */
  function Step(x: Context, c: Crawl): Crawl
    requires c.queue != []
  {
    var e := c.queue[0];
    var rest := c.queue[1..];
    if Skips(x, c) then c.(queue := rest)
    else match x.pages(e.url)
      case Loaded(page) =>
        Crawl(rest + Pushed(x, c, e, page), c.visited + {e.url}, c.crawled + 1,
              c.total + 1, c.successful + 1, c.failed)
      case LoadFailed =>
        Crawl(rest, c.visited + {e.url}, c.crawled, c.total + 1, c.successful, c.failed + 1)
  }

  /** The log after one iteration: the head is logged unless skipped. */
  function StepLog(x: Context, c: Crawl, log: seq<Entry>): seq<Entry>
    requires c.queue != []
  {
    if Skips(x, c) then log else log + [c.queue[0]]
  }

  /** The items one iteration adds to `allNotifications`. */
  function StepItems(x: Context, c: Crawl): seq<Extraction.Item>
    requires c.queue != []
  {
    if Skips(x, c) then [] else ItemsOf(x.pages(c.queue[0].url))
  }

  /** The notifications of the log grow by the items of each iteration. */
  lemma StepNotifications(x: Context, c: Crawl, log: seq<Entry>)
    requires c.queue != []
    ensures Notifications(StepLog(x, c, log), x.pages) == Notifications(log, x.pages) + StepItems(x, c)
  {
    if !Skips(x, c) {
      LogSnoc(log, c.queue[0], x.pages);
    }
  }

  /** Every iteration fetches a page or shortens the queue, so the loop,
      which stops at `maxPages` fetched pages, ends. */
  lemma StepProgress(x: Context, c: Crawl)
    requires c.queue != []
    ensures Step(x, c).crawled == c.crawled + 1
            || (Step(x, c).crawled == c.crawled && |Step(x, c).queue| < |c.queue|)
  {
  }

  /** What the loop keeps, with `log` the entries it fetched. */
  ghost predicate Invariant(x: Context, c: Crawl, log: seq<Entry>) {
    WellFormedLog(log, x.start, x.maxDepth, x.pages, x.accepts)
    && WellFormedQueue(c.queue, log, x.start, x.maxDepth, x.pages, x.accepts)
    && Covered(log, c.queue, x.maxDepth, x.pages, x.accepts)
    && c.visited == UrlsOf(log) && |c.visited| == |log|
    && c.crawled == c.successful == Loads(log, x.pages)
    && c.failed == |log| - Loads(log, x.pages)
    && c.total == |log|
    && (c.crawled == 0 || c.crawled <= x.maxPages)
    && (log == [] && x.maxDepth >= 0 ==> c.queue == [Entry(x.start, 0)])
  }

  lemma InvariantAtStart(x: Context)
    ensures Invariant(x, Start(x), [])
  {
    var q := Start(x).queue;
    assert EntryOk(q[0], [], 0, x.start, x.maxDepth, x.pages, x.accepts);
  }

  /** A skipped head keeps the invariant. */
  lemma SkipKeeps(x: Context, c: Crawl, log: seq<Entry>)
    requires Invariant(x, c, log) && c.queue != [] && Skips(x, c)
    ensures Invariant(x, Step(x, c), StepLog(x, c, log))
  {
    QueueAfterSkip(c.queue, log, x.start, x.maxDepth, x.pages, x.accepts);
    CoveredAfterSkip(c.queue, log, x.maxDepth, x.pages, x.accepts);
  }

  /** The counters after logging `e`. */
  lemma CountsAfterVisit(x: Context, c: Crawl, log: seq<Entry>, e: Entry, c': Crawl)
    requires Invariant(x, c, log) && e.url !in c.visited && c.crawled < x.maxPages
    requires c'.visited == c.visited + {e.url} && c'.total == c.total + 1
    requires x.pages(e.url).Loaded? ==>
               c'.crawled == c.crawled + 1 && c'.successful == c.successful + 1 && c'.failed == c.failed
    requires x.pages(e.url).LoadFailed? ==>
               c'.crawled == c.crawled && c'.successful == c.successful && c'.failed == c.failed + 1
    ensures c'.visited == UrlsOf(log + [e]) && |c'.visited| == |log + [e]|
    ensures c'.crawled == c'.successful == Loads(log + [e], x.pages)
    ensures c'.failed == |log + [e]| - Loads(log + [e], x.pages)
    ensures c'.total == |log + [e]|
    ensures c'.crawled == 0 || c'.crawled <= x.maxPages
  {
    UrlsOfAppend(log, e);
    LogSnoc(log, e, x.pages);
  }

  /** A head that loads keeps the invariant. */
  lemma LoadedKeeps(x: Context, c: Crawl, log: seq<Entry>, page: PageData)
    requires Invariant(x, c, log) && c.queue != [] && !Skips(x, c) && c.crawled < x.maxPages
    requires x.pages(c.queue[0].url) == Loaded(page)
    ensures Invariant(x, Step(x, c), StepLog(x, c, log))
  {
    var e := c.queue[0];
    var q := c.queue;
    var pushed := Pushed(x, c, e, page);
    var c' := Step(x, c);
    assert c' == Crawl(q[1..] + pushed, c.visited + {e.url}, c.crawled + 1, c.total + 1, c.successful + 1, c.failed);
    assert StepLog(x, c, log) == log + [e];
    var log' := log + [e];
    assert WellFormedLog(log', x.start, x.maxDepth, x.pages, x.accepts) by {
      LogAfterVisit(q, log, x.start, x.maxDepth, x.pages, x.accepts);
    }
    LoadedQueue(x, c, log, page);
    CountsAfterVisit(x, c, log, e, c');
  }

  /** The queue part of `LoadedKeeps`. */
  lemma LoadedQueue(x: Context, c: Crawl, log: seq<Entry>, page: PageData)
    requires c.queue != [] && x.pages(c.queue[0].url) == Loaded(page) && c.visited == UrlsOf(log)
    requires WellFormedQueue(c.queue, log, x.start, x.maxDepth, x.pages, x.accepts)
    requires Covered(log, c.queue, x.maxDepth, x.pages, x.accepts)
    ensures var q' := c.queue[1..] + Pushed(x, c, c.queue[0], page);
            WellFormedQueue(q', log + [c.queue[0]], x.start, x.maxDepth, x.pages, x.accepts)
            && Covered(log + [c.queue[0]], q', x.maxDepth, x.pages, x.accepts)
  {
    LoadedWellFormed(x, c, log, page);
    LoadedCovered(x, c, log, page);
  }

  lemma LoadedWellFormed(x: Context, c: Crawl, log: seq<Entry>, page: PageData)
    requires c.queue != [] && x.pages(c.queue[0].url) == Loaded(page) && c.visited == UrlsOf(log)
    requires WellFormedQueue(c.queue, log, x.start, x.maxDepth, x.pages, x.accepts)
    ensures WellFormedQueue(c.queue[1..] + Pushed(x, c, c.queue[0], page), log + [c.queue[0]],
                            x.start, x.maxDepth, x.pages, x.accepts)
  {
    var pushed := Pushed(x, c, c.queue[0], page);
    AdmittedFits(page, c.queue[0], c.visited, pushed, x.maxDepth, x.pages, x.accepts);
    QueueAfterVisit(c.queue, log, pushed, x.start, x.maxDepth, x.pages, x.accepts);
  }

  lemma LoadedCovered(x: Context, c: Crawl, log: seq<Entry>, page: PageData)
    requires c.queue != [] && x.pages(c.queue[0].url) == Loaded(page) && c.visited == UrlsOf(log)
    requires Covered(log, c.queue, x.maxDepth, x.pages, x.accepts)
    ensures Covered(log + [c.queue[0]], c.queue[1..] + Pushed(x, c, c.queue[0], page),
                    x.maxDepth, x.pages, x.accepts)
  {
    var pushed := Pushed(x, c, c.queue[0], page);
    AdmittedFits(page, c.queue[0], c.visited, pushed, x.maxDepth, x.pages, x.accepts);
    CoveredAfterVisit(c.queue, log, pushed, x.maxDepth, x.pages, x.accepts);
  }

  /** A head whose fetch fails keeps the invariant. */
  lemma FailedKeeps(x: Context, c: Crawl, log: seq<Entry>)
    requires Invariant(x, c, log) && c.queue != [] && !Skips(x, c) && c.crawled < x.maxPages
    requires x.pages(c.queue[0].url).LoadFailed?
    ensures Invariant(x, Step(x, c), StepLog(x, c, log))
  {
    var e := c.queue[0];
    var q := c.queue;
    var c' := Step(x, c);
    assert c' == Crawl(q[1..], c.visited + {e.url}, c.crawled, c.total + 1, c.successful, c.failed + 1);
    assert StepLog(x, c, log) == log + [e];
    var log' := log + [e];
    assert WellFormedLog(log', x.start, x.maxDepth, x.pages, x.accepts) by {
      LogAfterVisit(q, log, x.start, x.maxDepth, x.pages, x.accepts);
    }
    assert WellFormedQueue(c'.queue, log', x.start, x.maxDepth, x.pages, x.accepts) by {
      QueueAfterVisit(q, log, [], x.start, x.maxDepth, x.pages, x.accepts);
      assert q[1..] + [] == q[1..];
    }
    assert Covered(log', c'.queue, x.maxDepth, x.pages, x.accepts) by {
      CoveredAfterFailure(q, log, x.maxDepth, x.pages, x.accepts);
    }
    CountsAfterVisit(x, c, log, e, c');
  }

  /** The loop invariant is kept by every iteration. */
  lemma StepKeeps(x: Context, c: Crawl, log: seq<Entry>)
    requires Invariant(x, c, log) && c.queue != [] && c.crawled < x.maxPages
    ensures Invariant(x, Step(x, c), StepLog(x, c, log))
  {
    if Skips(x, c) {
      SkipKeeps(x, c, log);
    } else {
      match x.pages(c.queue[0].url) {
        case Loaded(page) => LoadedKeeps(x, c, log, page);
        case LoadFailed => FailedKeeps(x, c, log);
      }
    }
  }
}
