/**
 * The `GovernmentScraper` class of backend/services/scraper.js: a polite
 * breadth-first crawler for government web sites.  It checks robots.txt
 * (with a per-host cache), chooses a delay for the host, fetches pages in
 * breadth-first order up to a depth and a page budget, and collects the
 * items and links the page extraction finds; it also rate-limits the AI
 * summaries.
 *
 * The outside world is passed in: `parsed` is what `new URL(startUrl)` gives
 * (`None` when it throws), `robots` is the answer of the robots.txt request,
 * `launchOk` says whether the browser starts, `pages` gives the outcome of
 * `scrapePage` for each URL, and `now` is `Date.now()`.
 */
module Scraper {
  import opened Wrappers
  import opened Text
  import Robots
  import LinkFilter
  import Summary
  import Extraction
  import opened CrawlLog

  /** The option defaults of `crawlGovernmentSite`. */
  const DefaultMaxDepth := 3
  const DefaultMaxPages := 50

  /** The limits the constructor sets before any crawl. */
  const InitialMaxDepth := 2
  const InitialMaxPages := 20

  /** The delays of the constructor, in milliseconds. */
  const GovernmentDelayMs := 3000
  const RegularDelayMs := 1000

  /** Hostname parts that mark a government site. */
  const GovernmentDomains := [".gov", ".gov.in", ".gov.uk", ".europa.eu", ".gc.ca"]

  /** A parsed URL: `href` (the normalised URL) and `hostname`. */
  datatype Url = Url(href: string, hostname: string)

  // ---------------------------------------------------------------------
  // Government hosts

  /** `domains.some(domain => hostname.includes(domain))` */
  predicate SomeContained(hostname: string, domains: seq<string>) {
    domains != [] && (Contains(hostname, domains[0]) || SomeContained(hostname, domains[1..]))
  }

  /** `some` finds a domain exactly when one of them occurs in the host name. */
  lemma {:induction false} SomeContainedIff(hostname: string, domains: seq<string>)
    ensures SomeContained(hostname, domains) <==> exists k :: 0 <= k < |domains| && Contains(hostname, domains[k])
  {
    if domains != [] {
      SomeContainedIff(hostname, domains[1..]);
      assert forall k :: 1 <= k < |domains| ==> domains[k] == domains[1..][k - 1];
      if SomeContained(hostname, domains[1..]) {
        var k :| 0 <= k < |domains[1..]| && Contains(hostname, domains[1..][k]);
        assert Contains(hostname, domains[k + 1]);
      }
    }
  }

  /** The host name of a government site. */
  predicate IsGovernmentHost(hostname: string) {
    SomeContained(hostname, GovernmentDomains)
  }

  /** `.gov.in` and `.gov.uk` add nothing to `.gov`: a host is a government
      host exactly when it contains `.gov`, `.europa.eu` or `.gc.ca`. */
  lemma GovernmentHostIff(hostname: string)
    ensures IsGovernmentHost(hostname) <==>
              Contains(hostname, ".gov") || Contains(hostname, ".europa.eu") || Contains(hostname, ".gc.ca")
  {
    SomeContainedIff(hostname, GovernmentDomains);
    assert GovernmentDomains[0] == ".gov" && GovernmentDomains[3] == ".europa.eu" && GovernmentDomains[4] == ".gc.ca";
    if Contains(hostname, GovernmentDomains[1]) {
      assert StartsWith(GovernmentDomains[1], ".gov");
      ContainsPrefixOf(hostname, GovernmentDomains[1], ".gov");
    }
    if Contains(hostname, GovernmentDomains[2]) {
      assert StartsWith(GovernmentDomains[2], ".gov");
      ContainsPrefixOf(hostname, GovernmentDomains[2], ".gov");
    }
  }

  // ---------------------------------------------------------------------
  // The robots.txt check

  /** What the robots.txt request gave: `fetch` or `response.text()` threw,
      a response that is not `ok`, or the body of an `ok` response. */
  datatype RobotsResponse = FetchFailed | NotOk | Body(text: string)

  /** An entry of `crawlStats.robotsChecked`. */
  datatype RobotsCheck = RobotsCheck(domain: string, allowed: bool)

  /** The state `checkRobotsTxt` reads and writes: `robotsCache`,
      `crawlStats.robotsChecked` and `governmentDelayMs`. */
  datatype RobotsState = RobotsState(cache: map<string, bool>, checked: seq<RobotsCheck>, delayMs: int)

  /** `checkRobotsTxt(url)`: the answer and the new state.  A URL that does
      not parse, or a request that fails, is allowed without caching; a host
      in the cache gets the cached answer; a response that is not `ok` is
      cached as allowed; a body is parsed, and its answer cached and
      recorded. */
  function CheckRobots(s: RobotsState, url: string, parsed: Option<Url>, response: RobotsResponse): (r: (bool, RobotsState))
    ensures r.1 == s || (parsed.Some? && parsed.value.hostname !in s.cache
                         && r.1.cache == s.cache[parsed.value.hostname := r.0])
    ensures parsed.None? || (parsed.value.hostname !in s.cache && response.FetchFailed?) ==> r == (true, s)
    ensures r.1.checked == s.checked
            || (parsed.Some? && parsed.value.hostname !in s.cache && response.Body?
                && r.1.checked == s.checked + [RobotsCheck(parsed.value.hostname, r.0)])
  {
    match parsed
    case None => (true, s)
    case Some(u) =>
      if u.hostname in s.cache then (s.cache[u.hostname], s)
      else match response
        case FetchFailed => (true, s)
        case NotOk => (true, s.(cache := s.cache[u.hostname := true]))
        case Body(text) =>
          var v := Robots.RobotsVerdict(text, url, s.delayMs);
          (v.allowed, RobotsState(s.cache[u.hostname := v.allowed],
                                  s.checked + [RobotsCheck(u.hostname, v.allowed)], v.delayMs))
  }

  /** Every recorded check is in the cache with the recorded answer, and no
      host is recorded twice. */
  predicate CacheAgrees(s: RobotsState) {
    (forall i :: 0 <= i < |s.checked| ==>
       s.checked[i].domain in s.cache && s.cache[s.checked[i].domain] == s.checked[i].allowed)
    && (forall i, j :: 0 <= i < j < |s.checked| ==> s.checked[i].domain != s.checked[j].domain)
  }

  /** The check keeps the cache and the record in agreement. */
  lemma CheckRobotsKeepsAgreement(s: RobotsState, url: string, parsed: Option<Url>, response: RobotsResponse)
    requires CacheAgrees(s)
    ensures CacheAgrees(CheckRobots(s, url, parsed, response).1)
  {
    if parsed.Some? && parsed.value.hostname !in s.cache && response.Body? {
      var v := Robots.RobotsVerdict(response.text, url, s.delayMs);
      RecordKeepsAgreement(s, parsed.value.hostname, v.allowed, v.delayMs);
    }
  }

  /** Caching and recording the answer for a host not yet cached keeps the
      agreement. */
  lemma RecordKeepsAgreement(s: RobotsState, h: string, allowed: bool, delayMs: int)
    requires CacheAgrees(s) && h !in s.cache
    ensures CacheAgrees(RobotsState(s.cache[h := allowed], s.checked + [RobotsCheck(h, allowed)], delayMs))
  {
    var s' := RobotsState(s.cache[h := allowed], s.checked + [RobotsCheck(h, allowed)], delayMs);
    forall i | 0 <= i < |s.checked| ensures s.checked[i].domain != h {
      assert s.checked[i].domain in s.cache;
    }
    assert forall i :: 0 <= i < |s.checked| ==> s'.checked[i] == s.checked[i];
  }

  /** The first answer for a host sticks: once a check has cached it, every
      later check of any URL on the same host returns it and changes
      nothing, whatever the server would answer then. */
  lemma CachedAnswerSticks(s: RobotsState, url: string, u: Url, response: RobotsResponse,
                           url': string, u': Url, response': RobotsResponse)
    requires u'.hostname == u.hostname
    requires u.hostname in s.cache || !response.FetchFailed?
    ensures var (allowed, s') := CheckRobots(s, url, Some(u), response);
            CheckRobots(s', url', Some(u'), response') == (allowed, s')
  {
  }

  /** The check never lowers the government delay. */
  lemma CheckRobotsNeverLowersDelay(s: RobotsState, url: string, parsed: Option<Url>, response: RobotsResponse)
    ensures CheckRobots(s, url, parsed, response).1.delayMs >= s.delayMs
  {
    if parsed.Some? && parsed.value.hostname !in s.cache && response.Body? {
      Robots.ScanDelayNeverLowers(Robots.Lines(response.text), url, false, s.delayMs);
    }
  }

  /** On a cache miss the answer is "disallowed" exactly when the body has a
      relevant `Disallow` line that blocks the URL. */
  lemma DisallowedIff(s: RobotsState, url: string, u: Url, response: RobotsResponse)
    requires u.hostname !in s.cache
    ensures !CheckRobots(s, url, Some(u), response).0 <==>
              response.Body? && exists k :: Robots.BlocksAt(Robots.Lines(response.text), url, false, k)
  {
    if response.Body? {
      Robots.ScanBlockedIff(Robots.Lines(response.text), url, false, s.delayMs);
    }
  }

  // ---------------------------------------------------------------------
  // The crawl's inputs and results

  /** The `options` of `crawlGovernmentSite`; `None` is a missing option. */
  datatype CrawlOptions = CrawlOptions(maxDepth: Option<int>, maxPages: Option<int>,
                                       allowedDomains: seq<string>, delay: Option<int>)

  /** The returned `crawlStats`, without the clock readings. */
  datatype CrawlStats = CrawlStats(totalRequests: int, successfulRequests: int, failedRequests: int,
                                   robotsChecked: seq<RobotsCheck>, visitedDomains: set<string>,
                                   totalPages: int, totalUrls: int, notificationsFound: int)

  datatype CrawlResult = CrawlResult(notifications: seq<Extraction.Item>, crawlStats: CrawlStats)

  /** Why the crawl threw: `new URL` failed, robots.txt forbids the start
      URL, or the browser could not be started. */
  datatype CrawlError = InvalidUrl | RobotsDisallowed(hostname: string) | BrowserFailed

  datatype Outcome = Crawled(result: CrawlResult) | Failed(error: CrawlError)

  /** A destructuring default: `o`, or `d` when the option is missing. */
  function OrDefault(o: Option<int>, d: int): int {
    match o
    case Some(v) => v
    case None => d
  }

  function SetOf(s: seq<string>): set<string> {
    set x | x in s
  }

  /** `delay || this.determineDelay(hostname)`: a delay of 0 counts as none. */
  function ChosenDelay(delay: Option<int>, determined: int): (ms: int)
    ensures delay.Some? && delay.value != 0 ==> ms == delay.value
    ensures delay.None? || delay.value == 0 ==> ms == determined
  {
    if delay.Some? && delay.value != 0 then delay.value else determined
  }

  /** `scrapePage` on a page that loaded (`None`: the browser threw). */
  function ScrapeResult(p: Option<Extraction.Page>): PageResult {
    match p
    case Some(page) => Loaded(PageData(Extraction.PageItems(page), Extraction.PageLinks(page)))
    case None => LoadFailed
  }

  /** `scraped` gives, for every URL, what `scrapePage` extracts from the
      page `pages` loads there. */
  ghost predicate Scrapes(pages: string -> Option<Extraction.Page>, scraped: string -> PageResult) {
    forall u {:trigger ScrapeResult(pages(u))} :: scraped(u) == ScrapeResult(pages(u))
  }

  /** There is such a function for every `pages`. */
  lemma ScrapingOf(pages: string -> Option<Extraction.Page>) returns (scraped: string -> PageResult)
    ensures Scrapes(pages, scraped)
  {
    scraped := u => ScrapeResult(pages(u));
  }

  /** `accepts` is `isValidUrl` with the allowed domains `allowed` and the
      start URL `baseHref`. */
  ghost predicate Filters(accepts: Extraction.Link -> bool, allowed: set<string>, baseHref: Option<string>) {
    forall l: Extraction.Link {:trigger LinkFilter.IsValidUrl(l.href, l.host, allowed, baseHref)} ::
      accepts(l) == LinkFilter.IsValidUrl(l.href, l.host, allowed, baseHref)
  }

  /** There is such a function for every set of domains and start URL. */
  lemma FilterOf(allowed: set<string>, baseHref: Option<string>) returns (accepts: Extraction.Link -> bool)
    ensures Filters(accepts, allowed, baseHref)
  {
    accepts := (l: Extraction.Link) => LinkFilter.IsValidUrl(l.href, l.host, allowed, baseHref);
  }

  /** The state after the loop, and the result it returns: the loop
      invariant holds, the queue is empty or the budget spent, and the
      result holds the notifications of the log and the counters. */
  ghost predicate Finished(x: Context, c: Crawl, checked: seq<RobotsCheck>, domains: set<string>,
                           outcome: Outcome, log: seq<Entry>)
  {
    var found := Notifications(log, x.pages);
    Invariant(x, c, log) && (c.queue == [] || c.crawled >= x.maxPages)
    && outcome == Crawled(CrawlResult(found, CrawlStats(c.total, c.successful, c.failed, checked, domains,
                                                         c.crawled, |c.visited|, |found|)))
  }

  /** A finished crawl that stopped because its queue ran dry, not because
      of the page budget, visited every link it followed. */
  lemma DrainedCrawlIsClosed(x: Context, c: Crawl, checked: seq<RobotsCheck>, domains: set<string>,
                             outcome: Outcome, log: seq<Entry>)
    requires Finished(x, c, checked, domains, outcome, log) && c.queue == []
    ensures Closed(log, x.maxDepth, x.pages, x.accepts)
  {
    EmptyQueueClosed(log, x.maxDepth, x.pages, x.accepts);
  }

  /** The fields of a scraper a crawl sets. */
  datatype Snapshot = Snapshot(baseUrl: Option<Url>, allowedDomains: set<string>, visitedDomains: set<string>,
                               robots: RobotsState, crawl: Crawl, maxDepth: int, maxPages: int)

  /** What a crawl from the parsed start URL `u` leaves in `s`, given the
      robots state, the visited domains and the loop state before it: the
      start URL and its domains are set, robots.txt is checked; a
      disallowed start URL throws with the counters reset; otherwise the
      delay is chosen and the queue reset, and a browser that does not
      start throws, while one that does runs the loop to its end. */
  ghost predicate Parsed(robots0: RobotsState, domains0: set<string>, crawl0: Crawl, startUrl: string, u: Url,
                         options: CrawlOptions, robots: RobotsResponse, launchOk: bool,
                         outcome: Outcome, crawlDelay: int, robotsAllowed: bool, log: seq<Entry>,
                         scraped: string -> PageResult, accepts: Extraction.Link -> bool, s: Snapshot)
  {
    s.baseUrl == Some(u)
    && s.allowedDomains == {u.hostname} + SetOf(options.allowedDomains)
    && s.visitedDomains == domains0 + {u.hostname}
    && (robotsAllowed, s.robots) == CheckRobots(robots0, startUrl, Some(u), robots)
    && Filters(accepts, s.allowedDomains, Some(u.href))
    && (!robotsAllowed ==>
          outcome == Failed(RobotsDisallowed(u.hostname))
          && s.crawl == crawl0.(total := 0, successful := 0, failed := 0))
    && (robotsAllowed ==>
          crawlDelay == ChosenDelay(options.delay,
                                    if IsGovernmentHost(u.hostname) then s.robots.delayMs else RegularDelayMs))
    && (robotsAllowed && !launchOk ==>
          outcome == Failed(BrowserFailed) && s.crawl == Crawl([Entry(startUrl, 0)], {}, 0, 0, 0, 0))
    && (robotsAllowed && launchOk ==>
          Finished(Context(startUrl, s.maxDepth, s.maxPages, scraped, accepts), s.crawl, s.robots.checked,
                   s.visitedDomains, outcome, log))
  }

  // ---------------------------------------------------------------------
  // The class

  class GovernmentScraper {
    /** Whether `this.model` is set: an API key was given and the client
        could be created. */
    const hasModel: bool

    var visitedUrls: set<string>
    var urlQueue: seq<Entry>
    var maxDepth: int
    var maxPages: int
    var crawledPages: int
    var baseUrl: Option<Url>
    var allowedDomains: set<string>

    var aiRequestCount: int
    var aiRequestWindow: int
    const maxAiRequestsPerMinute: int

    var robotsCache: map<string, bool>

    // The fields of `crawlStats` other than the clock readings.
    var totalRequests: int
    var successfulRequests: int
    var failedRequests: int
    var robotsChecked: seq<RobotsCheck>
    var visitedDomains: set<string>

    var governmentDelayMs: int
    const regularDelayMs: int

    /** The robots.txt state of this scraper. */
    function RobotsView(): RobotsState
      reads this`robotsCache, this`robotsChecked, this`governmentDelayMs
    {
      RobotsState(robotsCache, robotsChecked, governmentDelayMs)
    }

    /** The AI rate limiter of this scraper. */
    function LimiterView(): Summary.Limiter
      reads this`aiRequestCount, this`aiRequestWindow
    {
      Summary.Limiter(aiRequestCount, aiRequestWindow)
    }

    /** `this.baseUrl?.href` */
    function BaseHref(): Option<string>
      reads this`baseUrl
    {
      match baseUrl
      case Some(u) => Some(u.href)
      case None => None
    }

    /** What every operation keeps: the constants, the rate limiter within
        `0..25`, a government delay of at least 3 seconds, and a robots
        cache in agreement with the record of checks. */
    ghost predicate Valid()
      reads this`governmentDelayMs, this`aiRequestCount, this`robotsCache, this`robotsChecked
    {
      maxAiRequestsPerMinute == Summary.MaxAiRequestsPerMinute && regularDelayMs == RegularDelayMs
      && governmentDelayMs >= GovernmentDelayMs
      && 0 <= aiRequestCount <= maxAiRequestsPerMinute
      && CacheAgrees(RobotsView())
    }

    /** `new GovernmentScraper()` at time `now`. */
    constructor (hasApiKey: bool, clientCreated: bool, now: int)
      ensures Valid()
      ensures hasModel == (hasApiKey && clientCreated)
      ensures visitedUrls == {} && urlQueue == [] && crawledPages == 0
      ensures maxDepth == InitialMaxDepth && maxPages == InitialMaxPages
      ensures baseUrl == None && allowedDomains == {}
      ensures aiRequestCount == 0 && aiRequestWindow == now
      ensures robotsCache == map[] && robotsChecked == [] && visitedDomains == {}
      ensures totalRequests == 0 && successfulRequests == 0 && failedRequests == 0
      ensures governmentDelayMs == GovernmentDelayMs
    {
      hasModel := hasApiKey && clientCreated;
      visitedUrls := {};
      urlQueue := [];
      maxDepth := InitialMaxDepth;
      maxPages := InitialMaxPages;
      crawledPages := 0;
      baseUrl := None;
      allowedDomains := {};
      aiRequestCount := 0;
      aiRequestWindow := now;
      maxAiRequestsPerMinute := Summary.MaxAiRequestsPerMinute;
      robotsCache := map[];
      totalRequests := 0;
      successfulRequests := 0;
      failedRequests := 0;
      robotsChecked := [];
      visitedDomains := {};
      governmentDelayMs := GovernmentDelayMs;
      regularDelayMs := RegularDelayMs;
    }

    /** `determineDelay(hostname)`: the government delay for a government
        host, the regular one for any other. */
    function DetermineDelay(hostname: string): (delayMs: int)
      reads this`governmentDelayMs
      ensures delayMs == governmentDelayMs || delayMs == regularDelayMs
    {
      if IsGovernmentHost(hostname) then governmentDelayMs else regularDelayMs
    }

    /** With the class invariant, the delay is at least the 3-second
        government delay exactly for government hosts. */
    lemma DelayIff(hostname: string)
      requires Valid()
      ensures DetermineDelay(hostname) >= GovernmentDelayMs <==> IsGovernmentHost(hostname)
    {
    }

    /** `parseRobotsTxt(robotsText, targetUrl)`: the answer of the scan, and
        the government delay it leaves. */
    method ParseRobotsTxt(robotsText: string, targetUrl: string) returns (allowed: bool)
      modifies this`governmentDelayMs
      ensures allowed == Robots.RobotsVerdict(robotsText, targetUrl, old(governmentDelayMs)).allowed
      ensures governmentDelayMs == Robots.RobotsVerdict(robotsText, targetUrl, old(governmentDelayMs)).delayMs
    {
      var lines := Robots.Lines(robotsText);
      var isRelevantSection := false;
      assert lines[0..] == lines;
      for i := 0 to |lines|
        invariant Robots.Scan(lines[i..], targetUrl, isRelevantSection, governmentDelayMs)
                  == Robots.RobotsVerdict(robotsText, targetUrl, old(governmentDelayMs))
      {
        Robots.ScanFrom(lines, i, targetUrl, isRelevantSection, governmentDelayMs);
        var blocked;
        blocked, isRelevantSection := ReadRobotsLine(lines[i], targetUrl, isRelevantSection);
        if blocked {
          return false;
        }
      }
      assert lines[|lines|..] == [];
      return true;
    }

    /** The body of the loop of `parseRobotsTxt` for one trimmed `line`: the
        source's `if … else if …` chain on the line's prefix, in the order
        `Robots.Classify` tests it.  `blocked` says the loop returns `false`
        here; otherwise the relevance and the government delay move on. */
    method ReadRobotsLine(line: string, targetUrl: string, isRelevantSection: bool)
      returns (blocked: bool, relevant: bool)
      modifies this`governmentDelayMs
      ensures blocked == (isRelevantSection && Robots.IsBlocking(line, targetUrl))
      ensures blocked ==> governmentDelayMs == old(governmentDelayMs)
      ensures !blocked ==> relevant == Robots.NextRelevance(isRelevantSection, line)
      ensures !blocked ==> governmentDelayMs == Robots.NextDelay(isRelevantSection, old(governmentDelayMs), line)
    {
      Robots.StepByDirective(line, targetUrl, isRelevantSection, governmentDelayMs);
      blocked, relevant := false, isRelevantSection;
      match Robots.Classify(line) {
        case UserAgent(currentUserAgent) =>
          relevant := Robots.IsRelevantAgent(currentUserAgent);
        case Disallow(disallowPath) =>
          if isRelevantSection && (disallowPath == "/" || Contains(targetUrl, disallowPath)) {
            blocked := true;
          }
        case CrawlDelay(value) =>
          if isRelevantSection {
            Robots.RaiseIs(governmentDelayMs, value);
            var delay := Robots.DelayMs(value);
            if delay.Some? && delay.value > governmentDelayMs {
              governmentDelayMs := delay.value;
            }
          }
        case Other =>
      }
    }

    /** `checkRobotsTxt(url)`; `response` is what the request for the host's
        robots.txt would give, and is looked at only on a cache miss. */
    method CheckRobotsTxt(url: string, parsed: Option<Url>, response: RobotsResponse) returns (allowed: bool)
      requires Valid()
      modifies this`robotsCache, this`robotsChecked, this`governmentDelayMs
      ensures Valid()
      ensures (allowed, RobotsView()) == CheckRobots(old(RobotsView()), url, parsed, response)
    {
      CheckRobotsKeepsAgreement(RobotsView(), url, parsed, response);
      CheckRobotsNeverLowersDelay(RobotsView(), url, parsed, response);
      allowed := true;
      if parsed.Some? {
        var hostname := parsed.value.hostname;
        if hostname in robotsCache {
          allowed := robotsCache[hostname];
        } else if response.NotOk? {
          robotsCache := robotsCache[hostname := true];
        } else if response.Body? {
          allowed := ParseRobotsTxt(response.text, url);
          robotsCache := robotsCache[hostname := allowed];
          robotsChecked := robotsChecked + [RobotsCheck(hostname, allowed)];
        }
      }
    }

    /** The rate-limit part of `summarizeContent`: open a new window when
        the current one is more than a minute old, refuse at the limit, and
        otherwise count the request. */
    method ReserveAiRequest(now: int) returns (admitted: bool)
      requires Valid()
      modifies this`aiRequestCount, this`aiRequestWindow
      ensures Valid()
      ensures admitted == Summary.Admits(old(LimiterView()), now)
      ensures LimiterView() == Summary.Tick(old(LimiterView()), now)
    {
      Summary.TickBounds(LimiterView(), now);
      if now - aiRequestWindow > Summary.WindowMs {
        aiRequestCount := 0;
        aiRequestWindow := now;
      }
      if aiRequestCount >= maxAiRequestsPerMinute {
        return false;
      }
      aiRequestCount := aiRequestCount + 1;
      return true;
    }

    /** `summarizeContent(content, title)` at time `now`, where `reply` is
        what the model would answer: the summary and the new limiter are
        those of `Summary.Summarize`. */
    method SummarizeContent(content: string, title: string, now: int, reply: Summary.AiReply) returns (summary: string)
      requires Valid()
      modifies this`aiRequestCount, this`aiRequestWindow
      ensures Valid()
      ensures (LimiterView(), summary)
              == Summary.Summarize(hasModel, old(LimiterView()), now, reply, content, title)
    {
      if !hasModel {
        return Summary.FallbackSummary(content, title);
      }
      var admitted := ReserveAiRequest(now);
      if !admitted {
        return Summary.FallbackSummary(content, title);
      }
      match reply {
        case AiFailed =>
          summary := Summary.FallbackSummary(content, title);
        case AiText(text) =>
          summary := Trim(text);
      }
    }

    /** The loop's context: the start URL, the limits, what `scrapePage`
        gives for each URL and the link filter. */
    function CrawlContext(startUrl: string, scraped: string -> PageResult, accepts: Extraction.Link -> bool): Context
      reads this`maxDepth, this`maxPages
    {
      Context(startUrl, maxDepth, maxPages, scraped, accepts)
    }

    /** What the crawl loop changes. */
    function CrawlView(): Crawl
      reads this`urlQueue, this`visitedUrls, this`crawledPages
      reads this`totalRequests, this`successfulRequests, this`failedRequests
    {
      Crawl(urlQueue, visitedUrls, crawledPages, totalRequests, successfulRequests, failedRequests)
    }

    /** `accepts` is this crawl's `isValidUrl`. */
    ghost predicate FiltersHere(accepts: Extraction.Link -> bool)
      reads this`allowedDomains, this`baseUrl
    {
      Filters(accepts, allowedDomains, BaseHref())
    }

    /** The `pageData.links.forEach`: push every link not yet visited that
        `isValidUrl` accepts, at depth `depth`. */
    method EnqueueLinks(links: seq<Extraction.Link>, depth: int, ghost accepts: Extraction.Link -> bool)
      requires FiltersHere(accepts)
      modifies this`urlQueue
      ensures urlQueue == old(urlQueue) + Admitted(links, visitedUrls, accepts, depth)
    {
      for i := 0 to |links|
        invariant urlQueue == old(urlQueue) + Admitted(links[..i], visitedUrls, accepts, depth)
      {
        var link := links[i];
        assert links[..i + 1][..i] == links[..i] && links[..i + 1][i] == link;
        if link.href !in visitedUrls && LinkFilter.IsValidUrl(link.href, link.host, allowedDomains, BaseHref()) {
          urlQueue := urlQueue + [Entry(link.href, depth)];
        }
      }
      assert links[..|links|] == links;
    }

    /** One iteration of the crawl loop: take the head of the queue; skip it
        when visited or too deep; otherwise scrape it and count the request.
        `items` is what it adds to `allNotifications`. */
    method CrawlNext(pages: string -> Option<Extraction.Page>, ghost x: Context)
      returns (items: seq<Extraction.Item>)
      requires Scrapes(pages, x.pages) && FiltersHere(x.accepts) && x.maxDepth == maxDepth
      requires urlQueue != []
      modifies this`urlQueue, this`visitedUrls, this`crawledPages
      modifies this`totalRequests, this`successfulRequests, this`failedRequests
      ensures CrawlView() == Step(x, old(CrawlView()))
      ensures items == StepItems(x, old(CrawlView()))
    {
      ghost var c := CrawlView();
      var entry := urlQueue[0];
      urlQueue := urlQueue[1..];
      if entry.url in visitedUrls || entry.depth > maxDepth {
        return [];
      }
      match pages(entry.url) {
        case Some(page) =>
          var data := ScrapeFor(entry.url, page, pages, x.pages);
          items := VisitLoaded(entry, data, x, c);
        case None =>
          assert x.pages(entry.url) == ScrapeResult(pages(entry.url));
          items := [];
          visitedUrls := visitedUrls + {entry.url};
          failedRequests := failedRequests + 1;
          totalRequests := totalRequests + 1;
      }
    }

    /** `scrapePage` on the page loaded at `url`: it extracts what `scraped`
        gives for that URL. */
    method ScrapeFor(url: string, page: Extraction.Page, pages: string -> Option<Extraction.Page>,
                     ghost scraped: string -> PageResult)
      returns (data: PageData)
      requires Scrapes(pages, scraped) && pages(url) == Some(page)
      ensures scraped(url) == Loaded(data)
    {
      var items, links := Extraction.ScrapePage(page);
      data := PageData(items, links);
      assert scraped(url) == ScrapeResult(pages(url));
    }

    /** The rest of an iteration whose head `entry` loaded as `data`: its
        links are pushed when it is above the depth limit, and it counts as
        crawled and as a successful request. */
    method VisitLoaded(entry: Entry, data: PageData, ghost x: Context, ghost c: Crawl)
      returns (items: seq<Extraction.Item>)
      requires c.queue != [] && c.queue[0] == entry && !Skips(x, c)
      requires x.pages(entry.url) == Loaded(data)
      requires FiltersHere(x.accepts) && x.maxDepth == maxDepth
      requires CrawlView() == c.(queue := c.queue[1..])
      modifies this`urlQueue, this`visitedUrls, this`crawledPages
      modifies this`totalRequests, this`successfulRequests
      ensures CrawlView() == Step(x, c)
      ensures items == StepItems(x, c)
    {
      items := data.notifications;
      if entry.depth < maxDepth {
        EnqueueLinks(data.links, entry.depth + 1, x.accepts);
      }
      visitedUrls := visitedUrls + {entry.url};
      crawledPages := crawledPages + 1;
      successfulRequests := successfulRequests + 1;
      totalRequests := totalRequests + 1;
    }

    /** The `while` loop of `crawlGovernmentSite`, from the queue holding only
        the start URL: every iteration is a `Step`, so the loop keeps
        `Invariant`, and it stops with the queue empty or the page budget
        spent.  `found` is `allNotifications`. */
    method CrawlQueue(startUrl: string, pages: string -> Option<Extraction.Page>,
                      ghost scraped: string -> PageResult, ghost accepts: Extraction.Link -> bool)
      returns (found: seq<Extraction.Item>, ghost log: seq<Entry>)
      requires Scrapes(pages, scraped) && FiltersHere(accepts)
      requires CrawlView() == Start(CrawlContext(startUrl, scraped, accepts))
      modifies this`urlQueue, this`visitedUrls, this`crawledPages
      modifies this`totalRequests, this`successfulRequests, this`failedRequests
      ensures Invariant(CrawlContext(startUrl, scraped, accepts), CrawlView(), log)
      ensures found == Notifications(log, scraped)
      ensures urlQueue == [] || crawledPages >= maxPages
    {
      ghost var x := CrawlContext(startUrl, scraped, accepts);
      InvariantAtStart(x);
      found := [];
      log := [];
      while urlQueue != [] && crawledPages < maxPages
        invariant Invariant(x, CrawlView(), log)
        invariant found == Notifications(log, x.pages)
        decreases maxPages - crawledPages, |urlQueue|
      {
        ghost var c := CrawlView();
        ghost var next := StepLog(x, c, log);
        StepKeeps(x, c, log);
        StepNotifications(x, c, log);
        StepProgress(x, c);
        assert Invariant(x, Step(x, c), next);
        var items := CrawlNext(pages, x);
        assert CrawlView() == Step(x, c);
        found := found + items;
        log := next;
      }
    }

    /** The fields a crawl sets. */
    function Snap(): Snapshot
      reads this
    {
      Snapshot(baseUrl, allowedDomains, visitedDomains, RobotsView(), CrawlView(), maxDepth, maxPages)
    }

    /** The loop and the result once the browser is up: the notifications
        found and the statistics. */
    method RunCrawl(startUrl: string, pages: string -> Option<Extraction.Page>,
                    ghost scraped: string -> PageResult, ghost accepts: Extraction.Link -> bool)
      returns (outcome: Outcome, ghost log: seq<Entry>)
      requires Scrapes(pages, scraped) && FiltersHere(accepts)
      requires CrawlView() == Start(CrawlContext(startUrl, scraped, accepts))
      modifies this`urlQueue, this`visitedUrls, this`crawledPages
      modifies this`totalRequests, this`successfulRequests, this`failedRequests
      ensures Finished(CrawlContext(startUrl, scraped, accepts), CrawlView(), robotsChecked, visitedDomains,
                       outcome, log)
    {
      var allNotifications;
      allNotifications, log := CrawlQueue(startUrl, pages, scraped, accepts);
      var stats := CrawlStats(totalRequests, successfulRequests, failedRequests, robotsChecked,
                              visitedDomains, crawledPages, |visitedUrls|, |allNotifications|);
      outcome := Crawled(CrawlResult(allNotifications, stats));
    }

    /** The set-up of a crawl from the parsed start URL `u`: remember it,
        allow its host and the option's domains, reset the request counters,
        record the host as visited, and check robots.txt.  `accepts` is the
        link filter this set-up makes. */
    method PrepareCrawl(startUrl: string, u: Url, options: CrawlOptions, robots: RobotsResponse)
      returns (allowed: bool, ghost accepts: Extraction.Link -> bool)
      requires Valid()
      modifies this`baseUrl, this`allowedDomains, this`visitedDomains
      modifies this`totalRequests, this`successfulRequests, this`failedRequests
      modifies this`robotsCache, this`robotsChecked, this`governmentDelayMs
      ensures Valid()
      ensures baseUrl == Some(u) && allowedDomains == {u.hostname} + SetOf(options.allowedDomains)
      ensures visitedDomains == old(visitedDomains) + {u.hostname}
      ensures totalRequests == 0 && successfulRequests == 0 && failedRequests == 0
      ensures (allowed, RobotsView()) == CheckRobots(old(RobotsView()), startUrl, Some(u), robots)
      ensures FiltersHere(accepts)
    {
      baseUrl := Some(u);
      allowedDomains := {u.hostname} + SetOf(options.allowedDomains);
      totalRequests := 0;
      successfulRequests := 0;
      failedRequests := 0;
      visitedDomains := visitedDomains + {u.hostname};
      accepts := FilterOf(allowedDomains, BaseHref());
      allowed := CheckRobotsTxt(startUrl, Some(u), robots);
    }

    /** The rest of a crawl that robots.txt allows: `visitedUrls.clear()`,
        the queue holding only the start URL, no page crawled yet, the delay
        chosen, and the loop run unless the browser does not start. */
    method LaunchCrawl(startUrl: string, hostname: string, options: CrawlOptions, launchOk: bool,
                       pages: string -> Option<Extraction.Page>,
                       ghost scraped: string -> PageResult, ghost accepts: Extraction.Link -> bool)
      returns (outcome: Outcome, crawlDelay: int, ghost log: seq<Entry>)
      requires Valid() && Scrapes(pages, scraped) && FiltersHere(accepts)
      requires totalRequests == 0 && successfulRequests == 0 && failedRequests == 0
      modifies this`visitedUrls, this`urlQueue, this`crawledPages
      modifies this`totalRequests, this`successfulRequests, this`failedRequests
      ensures crawlDelay == ChosenDelay(options.delay, DetermineDelay(hostname))
      ensures !launchOk ==> outcome == Failed(BrowserFailed) && CrawlView() == Crawl([Entry(startUrl, 0)], {}, 0, 0, 0, 0)
      ensures launchOk ==> Finished(CrawlContext(startUrl, scraped, accepts), CrawlView(), robotsChecked,
                                    visitedDomains, outcome, log)
    {
      log := [];
      visitedUrls := {};
      urlQueue := [Entry(startUrl, 0)];
      crawledPages := 0;
      crawlDelay := ChosenDelay(options.delay, DetermineDelay(hostname));
      if !launchOk {
        return Failed(BrowserFailed), crawlDelay, log;
      }
      outcome, log := RunCrawl(startUrl, pages, scraped, accepts);
    }

    /** `crawlGovernmentSite(startUrl, options)`.  The limits are set first;
        a start URL that does not parse throws at once; otherwise the crawl
        goes on as `Parsed` says.  The ghost results name what the crawl
        saw: the robots.txt answer, the fetched entries, what `scrapePage`
        gives for each URL and the link filter. */
    method CrawlGovernmentSite(startUrl: string, parsed: Option<Url>, options: CrawlOptions,
                               robots: RobotsResponse, launchOk: bool, pages: string -> Option<Extraction.Page>)
      returns (outcome: Outcome, crawlDelay: int, ghost robotsAllowed: bool, ghost log: seq<Entry>,
               ghost scraped: string -> PageResult, ghost accepts: Extraction.Link -> bool)
      requires Valid()
      modifies this`maxDepth, this`maxPages
      modifies this`baseUrl, this`allowedDomains, this`visitedDomains
      modifies this`totalRequests, this`successfulRequests, this`failedRequests
      modifies this`robotsCache, this`robotsChecked, this`governmentDelayMs
      modifies this`visitedUrls, this`urlQueue, this`crawledPages
      ensures Valid()
      ensures maxDepth == OrDefault(options.maxDepth, DefaultMaxDepth)
      ensures maxPages == OrDefault(options.maxPages, DefaultMaxPages)
      ensures aiRequestCount == old(aiRequestCount) && aiRequestWindow == old(aiRequestWindow)
      ensures Scrapes(pages, scraped)
      ensures parsed.None? ==>
                outcome == Failed(InvalidUrl)
                && Snap() == old(Snap()).(maxDepth := maxDepth, maxPages := maxPages)
      ensures parsed.Some? ==>
                Parsed(old(RobotsView()), old(visitedDomains), old(CrawlView()), startUrl, parsed.value, options,
                       robots, launchOk, outcome, crawlDelay, robotsAllowed, log, scraped, accepts, Snap())
    {
      scraped := ScrapingOf(pages);
      maxDepth := OrDefault(options.maxDepth, DefaultMaxDepth);
      maxPages := OrDefault(options.maxPages, DefaultMaxPages);
      log := [];
      crawlDelay := 0;
      if parsed.None? {
        accepts := FilterOf(allowedDomains, BaseHref());
        return Failed(InvalidUrl), crawlDelay, true, log, scraped, accepts;
      }
      outcome, crawlDelay, robotsAllowed, log, accepts :=
        CrawlParsed(startUrl, parsed.value, options, robots, launchOk, pages, scraped);
    }

    /** The crawl from the parsed start URL `u`, as `Parsed` describes it:
        set up and check robots.txt, and go on unless it disallows the start
        URL. */
    method CrawlParsed(startUrl: string, u: Url, options: CrawlOptions, robots: RobotsResponse, launchOk: bool,
                       pages: string -> Option<Extraction.Page>, ghost scraped: string -> PageResult)
      returns (outcome: Outcome, crawlDelay: int, ghost robotsAllowed: bool, ghost log: seq<Entry>,
               ghost accepts: Extraction.Link -> bool)
      requires Valid() && Scrapes(pages, scraped)
      modifies this`baseUrl, this`allowedDomains, this`visitedDomains
      modifies this`totalRequests, this`successfulRequests, this`failedRequests
      modifies this`robotsCache, this`robotsChecked, this`governmentDelayMs
      modifies this`visitedUrls, this`urlQueue, this`crawledPages
      ensures Valid()
      ensures Parsed(old(RobotsView()), old(visitedDomains), old(CrawlView()), startUrl, u, options,
                     robots, launchOk, outcome, crawlDelay, robotsAllowed, log, scraped, accepts, Snap())
    {
      log := [];
      crawlDelay := 0;
      var allowed;
      allowed, accepts := PrepareCrawl(startUrl, u, options, robots);
      robotsAllowed := allowed;
      if !allowed {
        outcome := Failed(RobotsDisallowed(u.hostname));
        return;
      }
      outcome, crawlDelay, log := LaunchCrawl(startUrl, u.hostname, options, launchOk, pages, scraped, accepts);
    }
  }
}
