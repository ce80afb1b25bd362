# GovNav crawler core in Dafny

This project models the `GovernmentScraper` class of GovNav's backend
(`backend/services/scraper.js`). The class is a polite breadth-first crawler
for government web sites. It:

- checks robots.txt through a per-host cache;
- picks a politeness delay for the host;
- fetches pages in breadth-first order, within a depth limit and a page budget;
- extracts notification items and links from each page;
- filters the links it queues;
- categorizes notifications by weighted keywords;
- summarizes them through a rate-limited AI model, with a deterministic fallback.

The modules follow the pieces of the class:

| module | file | what it holds |
|---|---|---|
| `Wrappers` | wrappers.dfy | `Option`, for `null`, `undefined` and `NaN` |
| `Text` | text.dfy | the JavaScript string operations the class uses: `includes`, `startsWith`, `trim`, `toLowerCase`, `split` on one character, `join` |
| `Robots` | robots.dfy | the `parseRobotsTxt` line scan as a function `Scan`, with `parseInt` written out, and its properties |
| `LinkFilter` | link_filter.dfy | `isValidUrl`, with each regular expression written as a string predicate |
| `Categorizer` | categorizer.dfy | `categorizeNotification`: the ten category tables, the scoring loop, the choice of the first best category |
| `Summary` | summary.dfy | `generateFallbackSummary`, `calculateReadingTime`, and the request limiter of `summarizeContent` as values |
| `Extraction` | extraction.dfy | what `scrapePage` does with a loaded page: the generic item extractor with its metadata and navigation filters, and link de-duplication |
| `CrawlLog` | crawl_log.dfy | one iteration of the crawl loop as a step function on values, and the breadth-first invariant it keeps |
| `Scraper` | scraper.dfy | the class `GovernmentScraper`: fields updated in place, the crawl loop as a `while` loop proved against `CrawlLog.Step`, the robots.txt cache, `parseRobotsTxt` as a `for` loop proved against `Robots.Scan`, `determineDelay`, and `summarizeContent` |

The outside world is passed in as parameters:

- the result of `new URL(startUrl)`;
- the robots.txt response: failed, not `ok`, or a body;
- whether the browser starts;
- a function from URL to the page loaded there (or a load failure);
- the AI model's reply;
- the clock reading `now`.

Each URL is fetched at most once per crawl, which is proved. So a page function of the URL loses nothing against a server that could answer differently each time.

The scores of `categorizeNotification` are multiples of 0.5. The model doubles them to stay in integers: weights 6, 3, 4 and 2, and a threshold of 4.

The source's quirks are kept:

- `split(':')[1]` keeps only the text between the first and second colons.
- An empty `Disallow:` path occurs in every URL, so it forbids the crawl. The lemma `Robots.EmptyDisallowBlocksAll` below states this.
- A `Crawl-delay` with no digits reads as `NaN` and never raises the delay.
- A `delay` option of 0 falls back to the host's delay, because of `delay || …`.

On these points the model keeps the code's exact behaviour:

1. Titles must be strictly longer than 10 and shorter than 300 characters (headings: longer than 15).
2. The limiter window resets only when strictly more than 60000 ms have passed.
3. The fallback's "too short" test (`> 10` on the joined lead) is met by every lead that exists.
4. The robots cache, the robots check record, the visited domains and the government delay survive from one crawl to the next on the same instance.

## Model

| member | source | states |
|---|---|---|
| Text.TrimStart | backend/services/scraper.js:735 | the result is a suffix of the input; it is empty or starts with a non-space; everything dropped is white space |
| Text.TrimEnd | backend/services/scraper.js:735 | the result is a prefix of the input; it is empty or ends with a non-space; everything dropped is white space |
| Text.TrimIsSlice | backend/services/scraper.js:735 | `trim` gives a contiguous slice of its input, with only white space outside it, and it neither starts nor ends with white space |
| Text.TrimLastFromSuffix | backend/services/scraper.js:580 | if `l` holds a non-space, then `(p + l).trim()` is non-empty and its last character comes from `l` |
| Text.Lower | backend/services/scraper.js:591 | lower-casing keeps the length and maps every character on its own |
| Text.LowerConcat | backend/services/scraper.js:591 | lower-casing distributes over concatenation |
| Text.ContainsIff | backend/services/scraper.js:747 | `includes` holds exactly when the word occurs at some index |
| Text.IndexOf | backend/services/scraper.js:741 | the first index of the character, or the length when it does not occur |
| Text.Split | backend/services/scraper.js:735 | `split(c)` gives at least one piece, no piece contains `c`, and it gives two or more pieces exactly when `c` occurs |
| Text.JoinSplit | backend/services/scraper.js:735 | joining the pieces of `split(c)` with `c` gives the input back |
| Text.SplitJoin | backend/services/scraper.js:735 | splitting a `c`-join of pieces free of `c` gives the pieces back |
| Text.SplitCount | backend/services/scraper.js:691 | `split(c)` has one more piece than `c` has occurrences |
| Robots.DigitRun | backend/services/scraper.js:751 | the longest run of digits at the front: every character in it is a digit, and the next one is not |
| Robots.DecimalParses | backend/services/scraper.js:751 | `parseInt` of a non-empty string of decimal digits is its decimal value |
| Robots.ParseInt | backend/services/scraper.js:751 | definition of `parseInt` with no radix: leading white space and one sign skipped, `0x` selects base 16, the longest digit run read, no digit gives `NaN` (`None`); `DigitRun` and `DecimalParses` state what it reads |
| Robots.Classify | backend/services/scraper.js:740-751 | definition: the `if … else if` chain on the trimmed line, tested by prefix in the source's order, with the value between the first and second colons, trimmed, and lower-cased for `User-agent` |
| Robots.IsRelevantAgent | backend/services/scraper.js:741-744 | definition: the agent is `*`, `civicspherebot`, or contains `bot` |
| Robots.Raise | backend/services/scraper.js:751-755 | a `Crawl-delay` in a relevant section never lowers the government delay; any new value is the line's value in milliseconds |
| Robots.Scan | backend/services/scraper.js:739-757 | definition of the `for` loop as a recursive scan that stops at the first blocking `Disallow` of a relevant section; `ScanBlockedIff`, `ScanDelayNeverLowers`, `ScanDelayFromDirective` and `ScanDelayCoversDirectives` state what it computes |
| Robots.RobotsVerdict | backend/services/scraper.js:734-760 | definition: the scan of the trimmed lines of the body from outside any section; `Scraper.GovernmentScraper.ParseRobotsTxt` is proved equal to it |
| Robots.ScanBlockedIff | backend/services/scraper.js:739-749 | the answer is "disallowed" exactly when some `Disallow` line that blocks the URL is reached inside a relevant section |
| Robots.ScanDelayNeverLowers | backend/services/scraper.js:750-755 | the scan never lowers the government delay |
| Robots.NextDelayChanged | backend/services/scraper.js:750-755 | a line that changes the delay is a `Crawl-delay` line in a relevant section, and the new delay is its value |
| Robots.ScanDelayFromDirective | backend/services/scraper.js:750-755 | the delay after the scan is the old one, or the value of one of its relevant `Crawl-delay` lines |
| Robots.ScanDelayCoversDirectives | backend/services/scraper.js:750-759 | when the scan runs to the end, the delay is at least the value of every relevant `Crawl-delay` line |
| Robots.EmptyDisallowBlocksAll | backend/services/scraper.js:746-748 | a relevant `Disallow:` with an empty path forbids every URL |
| Robots.RootDisallowBlocksAll | backend/services/scraper.js:747-748 | a relevant `Disallow: /` forbids every URL |
| LinkFilter.IsValidUrl | backend/services/scraper.js:488-533 | definition of the filter: allowed host, then the books.toscrape rule, then the skip patterns, then a content pattern or the start URL; the `LinkFilter` lemmas below state its cases and its monotonicity in the allowed domains |
| LinkFilter.OffDomainRefused | backend/services/scraper.js:493-495 | a link whose host is not an allowed domain is refused, whatever its URL |
| LinkFilter.CatalogueOverridesSkips | backend/services/scraper.js:514-516 | on a books.toscrape host, an allowed `/catalogue/` link is accepted even when a skip pattern matches it |
| LinkFilter.CatalogueFragmentAccepted | backend/services/scraper.js:508-516 | the catalogue URL `http://books.toscrape.com/catalogue/page-2.html#top` matches the `/#/` skip pattern and is still accepted |
| LinkFilter.StartUrlAccepted | backend/services/scraper.js:525-528 | on an allowed host other than books.toscrape, the start URL is accepted whenever no skip pattern matches, even with no content pattern |
| LinkFilter.NewsAccepted | backend/services/scraper.js:519-528 | on such a host, a `/news` link in any letter case with no skip pattern is accepted, whatever the start URL |
| LinkFilter.AllowedDomainsMonotone | backend/services/scraper.js:493-495 | adding allowed domains never refuses a link that was accepted |
| LinkFilter.FragmentRefused | backend/services/scraper.js:508 | a URL with `#` is refused, except on the books.toscrape hosts |
| LinkFilter.PdfRefused | backend/services/scraper.js:500 | a URL ending in `.pdf`, in any letter case, is refused off the books.toscrape hosts |
| LinkFilter.LoginRefused | backend/services/scraper.js:502 | a URL containing `/login`, in any letter case, is refused off the books.toscrape hosts |
| LinkFilter.NewsIsContent | backend/services/scraper.js:520 | a URL containing `/news`, in any letter case, has a content pattern |
| Categorizer.GeneralIsNotAName | backend/services/scraper.js:594-645 | `general` is not one of the ten category keys |
| Categorizer.Hits | backend/services/scraper.js:654 | the number of keywords found is at most the number of keywords |
| Categorizer.Score | backend/services/scraper.js:650-665 | definition: twice the source's score, from primary and secondary hits in the whole text and in the title; `WeakScoreIff` and `PrimaryKeywordDecides` state when it reaches the threshold |
| Categorizer.Decides | backend/services/scraper.js:667-686 | reference definition of the answer, independent of the sort: `general` exactly when every score is below the threshold, otherwise the key of the first category with the highest score; `CategorizeWith` and `CategorizeNotification` are proved to meet it |
| Categorizer.BestIndex | backend/services/scraper.js:667-678 | the front of the stable descending sort of the positive scores: -1 exactly when no score is positive, otherwise the first index holding the maximum score |
| Categorizer.CategorizeWith | backend/services/scraper.js:650-686 | `general` exactly when every score is below the threshold; otherwise the key of the first category with the highest score, which reaches the threshold; the answer is `general` or a key |
| Categorizer.CategorizeNotification | backend/services/scraper.js:590-687 | the same over the source's ten categories |
| Categorizer.HitsZeroIff | backend/services/scraper.js:654 | no hits exactly when no keyword occurs |
| Categorizer.HitsPrefix | backend/services/scraper.js:591 | a text has at least as many hits as any prefix of it |
| Categorizer.TitleHitsBounded | backend/services/scraper.js:662-664 | title hits never exceed hits in the whole text, which starts with the title |
| Categorizer.WeakScoreIff | backend/services/scraper.js:650-684 | a category stays below the threshold exactly when no primary keyword occurs, at most one secondary keyword occurs, and none occurs in the title |
| Categorizer.PrimaryKeywordDecides | backend/services/scraper.js:654-655 | one primary keyword anywhere is enough to reach the threshold |
| Categorizer.GeneralIff | backend/services/scraper.js:673-684 | the answer is `general` exactly when that weak-score condition holds for every category |
| Summary.FirstTerminator | backend/services/scraper.js:579 | the index of the first `.`, `!` or `?`, or the length when there is none |
| Summary.RunEnd | backend/services/scraper.js:579 | the end of the run of terminators at `k` |
| Summary.SplitRuns | backend/services/scraper.js:579 | `split(/[.!?]+/)`: at least one piece, no piece holds a terminator, and a single piece exactly when the content has no terminator |
| Summary.SplitRunsKeepsText | backend/services/scraper.js:579 | the pieces, end to end, are the content without its terminators |
| Summary.SentencesKept | backend/services/scraper.js:579 | every fragment kept is a piece of the split, more than 20 characters long once trimmed |
| Summary.SentencesEmptyIff | backend/services/scraper.js:579 | nothing is kept exactly when no piece is long enough |
| Summary.FirstTwo | backend/services/scraper.js:580 | `slice(0, 2)` gives the first two sentences, in order, or all of them when there are fewer |
| Summary.Truncated | backend/services/scraper.js:587 | content of up to 200 characters is kept; longer content becomes its first 200 characters and `...` |
| Summary.LeadCases | backend/services/scraper.js:580-583 | with no sentence the lead is empty; otherwise it is longer than 20 characters and does not end in `.` |
| Summary.LeadOfSentences | backend/services/scraper.js:580 | the trimmed join of the first one or two dot-free sentences is longer than 20 characters and does not end in `.` |
| Summary.FallbackSummary | backend/services/scraper.js:577-588 | with a sentence, the summary is the lead plus `.`; without one, it is the truncated content |
| Summary.FallbackShape | backend/services/scraper.js:577-588 | a summary from sentences is longer than 21 characters and ends in `.`; any other summary is the content or a 203-character cut of it |
| Summary.FallbackEmptyIff | backend/services/scraper.js:577-588 | the summary is empty exactly when the content is empty |
| Summary.CalculateReadingTime | backend/services/scraper.js:689-693 | at least one minute; the ceiling of (number of spaces + 1) / 200 |
| Summary.Refresh | backend/services/scraper.js:545-548 | the limiter is unchanged, or it is reset at `now` because the window is more than a minute old; a window more than a minute old is always reset |
| Summary.Tick | backend/services/scraper.js:544-555 | the window never moves back except by a reset |
| Summary.SummarizeSources | backend/services/scraper.js:535-575 | the summary is the fallback unless a model exists, the request is admitted, and the model answered, in which case it is the trimmed answer; without a model the limiter is untouched |
| Summary.Summarize | backend/services/scraper.js:535-575 | definition of `summarizeContent` on the limiter: no model, over the limit, a failed reply, or the trimmed reply; `SummarizeSources`, `TickBounds` and `AtMostLimitPerWindow` state its properties, and `Scraper.GovernmentScraper.SummarizeContent` is proved equal to it |
| Summary.TickBounds | backend/services/scraper.js:545-555 | the count stays in 0..25, and it grows by one exactly when the request is admitted |
| Summary.ResetOnlyWhenExpired | backend/services/scraper.js:545-548 | the window and the count change other than by counting only after more than a minute, and then the new window is `now` with one request |
| Summary.ExpiredWindowReset | backend/services/scraper.js:545-555 | a request more than a minute after the window opened resets the limiter, is admitted, and leaves a new window at `now` holding one request |
| Summary.AtMostLimitPerWindow | backend/services/scraper.js:544-555 | within one window at most `25 - count` more requests reach the model |
| Extraction.MetadataOfLongText | backend/services/scraper.js:387-396 | for a text longer than 10 characters once trimmed, only the prefix patterns of `isMetadataText` can match |
| Extraction.NavigationOfLongText | backend/services/scraper.js:399-406 | for such a text, `isNavigationText` holds exactly when it starts with `next`, `previous`, `more`, `load` or `show` followed by white space |
| Extraction.IsMetadataText | backend/services/scraper.js:387-396 | definition: one of the five patterns matches the trimmed, lower-cased text; `MetadataOfLongText` states which can match a long title |
| Extraction.IsNavigationText | backend/services/scraper.js:399-406 | definition: the trimmed, lower-cased text is a navigation or legal word, or starts with a paging word and white space; `NavigationOfLongText` states which can match a long title |
| Extraction.Prefix | backend/services/scraper.js:369-370 | `substring(0, n)` is a prefix of at most `n` characters, the whole string when it is short enough |
| Extraction.ArticleOf | backend/services/scraper.js:367-373 | the item pushed for a title longer than 10 and content longer than 20 characters: a title of 11 to 200 and content of 21 to 1000 characters, each a `substring(0, n)` of what passed, the link or else the page URL, the image, and the kind `article` |
| Extraction.ArticleItemShape | backend/services/scraper.js:357-374 | the item an element yields has a title of 11 to 200 characters cut from the element's trimmed title, content of 21 to 1000 characters cut from its trimmed content, the link or else the page URL, the element's image, and the kind `article` |
| Extraction.ArticleItemIff | backend/services/scraper.js:346-367 | an element yields an item exactly when it is a content element whose trimmed title is 11 to 299 characters long and is neither metadata nor navigation text, and whose trimmed content is longer than 20 characters |
| Extraction.ArticlesFrom | backend/services/scraper.js:345-375 | every item of a selector's elements is the item of one of those elements |
| Extraction.ArticlesBounded | backend/services/scraper.js:361-374 | every container item is the item of one of the elements, whose uncut trimmed title passed the length, metadata and navigation filters; its title has 11 to 200 characters and its content 21 to 1000 |
| Extraction.ExtractGroup | backend/services/scraper.js:345-377 | the loop over one selector's elements gives the items of its first 30 elements, so at most 30 |
| Extraction.HeadingItem | backend/services/scraper.js:416-433 | a heading yields at most one item, of kind `content` with no image, only when it is a content element; that item's title is the heading's trimmed text, uncut, of 16 to 299 characters, its content is cut to at most 500 characters from the nearby text, and its URL is the nearby link or else the page URL |
| Extraction.HeadingItemIff | backend/services/scraper.js:414-421 | a heading yields an item exactly when it is a content element whose trimmed text is 16 to 299 characters long and is neither metadata nor navigation text |
| Extraction.ExtractFallbackContent | backend/services/scraper.js:409-437 | the loop gives the items of the first 20 headings, so at most 20, and the final `slice(0, 20)` cuts nothing |
| Extraction.HeadingItemsBounded | backend/services/scraper.js:417-432 | every heading item is the item of one of the content headings, its title that heading's trimmed text, uncut, which is neither metadata nor navigation text and has 16 to 299 characters; its content has at most 500 |
| Extraction.ExtractGenericContent | backend/services/scraper.js:330-384 | the items of the first selector that yields any, or else the heading items |
| Extraction.FirstArticles | backend/services/scraper.js:342-383 | definition: the items of the first selector that yields any; `FirstArticlesEmptyIff` and `FirstArticlesIsFirst` characterize it |
| Extraction.GenericItems | backend/services/scraper.js:330-384 | definition of `extractGenericContent`: the container items, else the items of the first 20 headings; `ExtractGenericContent` is proved equal to it |
| Extraction.PageItems | backend/services/scraper.js:238-251 | definition of `extractUniversalContent`: the site-specific items for hosts containing `news.ycombinator.com` or `books.toscrape.com`, the generic items elsewhere |
| Extraction.FirstArticlesEmptyIff | backend/services/scraper.js:342-383 | the container strategy finds nothing exactly when no selector yields an item, and only then do the headings run |
| Extraction.FirstArticlesIsFirst | backend/services/scraper.js:342-380 | the container items come from the first selector, in list order, that yields any |
| Extraction.Candidates | backend/services/scraper.js:444-466 | definition: the resolved links of the followable anchors, in order, duplicates included |
| Extraction.Unique | backend/services/scraper.js:445-471 | definition: the first link of each URL, in order; `UniqueProperties` characterizes it |
| Extraction.UniqueProperties | backend/services/scraper.js:444-471 | de-duplication leaves no URL twice, keeps every URL, and adds no link |
| Extraction.CollectLinks | backend/services/scraper.js:444-476 | the loop with the `uniqueLinks` set gives the first link of each URL among the followable anchors, in order |
| Extraction.ScrapePage | backend/services/scraper.js:238-251 | `scrapePage` on a loaded page gives the items of the site strategy for the host and the de-duplicated links, which hold no URL twice |
| CrawlLog.Admitted | backend/services/scraper.js:150-154 | the pushed entries number at most the links, all at the given depth, and none is visited |
| CrawlLog.AdmittedLinked | backend/services/scraper.js:150-153 | every pushed entry comes from an accepted link of the page |
| CrawlLog.AdmittedCovers | backend/services/scraper.js:150-153 | every accepted link of the page to an unvisited URL is pushed |
| CrawlLog.Loads | backend/services/scraper.js:165 | the number of fetches that loaded is at most the number of fetches |
| CrawlLog.LogSnoc | backend/services/scraper.js:147 | logging a fetch adds its items to the notifications and counts it if it loaded |
| CrawlLog.QueueAfterSkip | backend/services/scraper.js:139-141 | skipping the head keeps the queue well formed |
| CrawlLog.CoveredAfterSkip | backend/services/scraper.js:139-141 | a skipped head was already visited or too deep, so no link it stood for is lost |
| CrawlLog.OrderAfterVisit | backend/services/scraper.js:149-152 | pushing entries one level below the head keeps the queue in breadth-first order |
| CrawlLog.QueueAfterVisit | backend/services/scraper.js:149-154 | after a fetch the queue is still well formed: every entry is the start URL or a link found one level up, within the depth limit |
| CrawlLog.LogAfterVisit | backend/services/scraper.js:139-158 | logging the head keeps the log well formed: no URL twice, depths in order and within the limit, every entry discovered before it |
| CrawlLog.DistinctAfterVisit | backend/services/scraper.js:139 | logging an unvisited URL keeps the log free of repeats |
| CrawlLog.SortedAfterVisit | backend/services/scraper.js:136-137 | logging an entry at least as deep keeps the log sorted by depth |
| CrawlLog.CoveredAfterVisit | backend/services/scraper.js:149-157 | after a fetch, every link followed from a logged page is visited or waits in the queue |
| CrawlLog.CoveredAfterFailure | backend/services/scraper.js:166-169 | a failed fetch is marked visited and pushes nothing, and no link obligation is lost |
| CrawlLog.AdmittedFits | backend/services/scraper.js:149-154 | the entries a loaded page pushes are links of that page, one level down, within the limit, and they cover its unvisited accepted links |
| CrawlLog.LogStartsAtStart | backend/services/scraper.js:81 | the first fetch of a crawl is the start URL at depth 0, and every later fetch is deeper |
| CrawlLog.EmptyQueueClosed | backend/services/scraper.js:136-157 | when the queue is empty, every accepted link followed from a fetched page above the depth limit has been visited |
| CrawlLog.StepNotifications | backend/services/scraper.js:147 | each iteration adds to `allNotifications` exactly the items of the fetch it logs |
| CrawlLog.StepProgress | backend/services/scraper.js:136-173 | each iteration crawls a page, or crawls none and shortens the queue, so the loop ends |
| CrawlLog.Step | backend/services/scraper.js:136-173 | definition of one iteration of the crawl loop on values: a visited or too deep head is dropped; otherwise it is fetched and marked visited, a load pushing the admitted links one level down and counting a success, a failure counting a failure; `StepKeeps`, `StepProgress` and `StepNotifications` state its properties, and `Scraper.GovernmentScraper.CrawlNext` is proved equal to it |
| CrawlLog.InvariantAtStart | backend/services/scraper.js:80-82 | the reset queue, visited set and counters meet the loop invariant |
| CrawlLog.SkipKeeps | backend/services/scraper.js:139-141 | a skipped head keeps the invariant |
| CrawlLog.CountsAfterVisit | backend/services/scraper.js:157-172 | after a fetch, the visited set is the logged URLs, `crawledPages` = successes = loaded fetches, failures = the other fetches, the total is all fetches, and `crawledPages` stays within `maxPages` |
| CrawlLog.LoadedKeeps | backend/services/scraper.js:145-165 | a head that loads keeps the invariant |
| CrawlLog.LoadedQueue | backend/services/scraper.js:149-157 | after a load, the queue is well formed and every followed link is visited or queued |
| CrawlLog.FailedKeeps | backend/services/scraper.js:166-172 | a head whose fetch fails keeps the invariant |
| CrawlLog.StepKeeps | backend/services/scraper.js:136-173 | every iteration of the loop keeps the invariant |
| Scraper.SomeContainedIff | backend/services/scraper.js:764 | `some(domain => hostname.includes(domain))` holds exactly when one of the domains occurs in the host name |
| Scraper.IsGovernmentHost | backend/services/scraper.js:762-764 | definition: one of the five government domains occurs in the host name; `GovernmentHostIff` reduces it to three |
| Scraper.GovernmentHostIff | backend/services/scraper.js:763-764 | a host is a government host exactly when it contains `.gov`, `.europa.eu` or `.gc.ca` |
| Scraper.CheckRobots | backend/services/scraper.js:696-732 | the check changes nothing, or it caches its answer for a host that was not cached; a URL that does not parse, or a failed request on an uncached host, answers `true` and changes nothing; the record `robotsChecked` is unchanged unless a body was parsed for an uncached host, which appends exactly one check with its answer |
| Scraper.RecordKeepsAgreement | backend/services/scraper.js:721-723 | caching and recording an answer for a host not yet cached keeps every record in the cache with its answer, and no host recorded twice |
| Scraper.CheckRobotsKeepsAgreement | backend/services/scraper.js:715-723 | the check keeps every recorded result in the cache with the same answer, and records no host twice |
| Scraper.CachedAnswerSticks | backend/services/scraper.js:702-705 | once a host's answer is cached, every later check on that host returns it and changes nothing |
| Scraper.CheckRobotsNeverLowersDelay | backend/services/scraper.js:719-722 | the check never lowers the government delay |
| Scraper.DisallowedIff | backend/services/scraper.js:713-722 | on a cache miss, the answer is "disallowed" exactly when the body has a relevant blocking `Disallow` line |
| Scraper.ChosenDelay | backend/services/scraper.js:84 | the `delay` option when it is given and not 0, otherwise the host's delay |
| Scraper.DrainedCrawlIsClosed | backend/services/scraper.js:136-173 | a finished crawl whose loop stopped with an empty queue, not at the page budget, visited every link it followed |
| Scraper.GovernmentScraper.constructor | backend/services/scraper.js:8-52 | the initial fields: empty queue, visited set, caches and counters; limits 2 and 20; delays 3000 and 1000; the limiter window at `now` |
| Scraper.GovernmentScraper.DetermineDelay | backend/services/scraper.js:762-772 | the government delay or the regular one |
| Scraper.GovernmentScraper.DelayIff | backend/services/scraper.js:762-772 | the delay is at least 3000 ms exactly for government hosts |
| Scraper.GovernmentScraper.ParseRobotsTxt | backend/services/scraper.js:734-760 | the loop returns the answer of `Robots.Scan` on the trimmed lines, and leaves the government delay it computes |
| Scraper.GovernmentScraper.ReadRobotsLine | backend/services/scraper.js:740-756 | one pass of the loop body: it stops exactly on a relevant blocking `Disallow`, and otherwise moves the relevance and the delay as the scan does |
| Scraper.GovernmentScraper.CheckRobotsTxt | backend/services/scraper.js:696-732 | the answer and the new cache, record and delay are those of `CheckRobots`, and the class invariant is kept |
| Scraper.GovernmentScraper.ReserveAiRequest | backend/services/scraper.js:544-555 | the request is admitted as `Summary.Admits` says, and the limiter moves as `Summary.Tick` says |
| Scraper.GovernmentScraper.SummarizeContent | backend/services/scraper.js:535-575 | the summary and the new limiter are those of `Summary.Summarize` |
| Scraper.GovernmentScraper.EnqueueLinks | backend/services/scraper.js:149-155 | the queue grows by exactly the accepted, unvisited links, in order, one level down |
| Scraper.GovernmentScraper.CrawlNext | backend/services/scraper.js:137-172 | one iteration changes the queue, visited set and counters as `CrawlLog.Step` says, and gives the items of that step |
| Scraper.GovernmentScraper.ScrapeFor | backend/services/scraper.js:146 | the page data extracted is what the page function gives for the URL |
| Scraper.GovernmentScraper.VisitLoaded | backend/services/scraper.js:147-172 | the rest of a loaded iteration: links pushed, URL visited, page and success counted |
| Scraper.GovernmentScraper.CrawlQueue | backend/services/scraper.js:136-173 | the loop ends with the invariant holding and the queue empty or the budget spent, and its notifications are those of the fetched pages |
| Scraper.GovernmentScraper.RunCrawl | backend/services/scraper.js:136-188 | the result holds the notifications and the counters of a finished loop |
| Scraper.GovernmentScraper.PrepareCrawl | backend/services/scraper.js:62-78 | stores the start URL, allows its host and the given domains, resets the counters, records the host as visited, and does the robots check |
| Scraper.GovernmentScraper.LaunchCrawl | backend/services/scraper.js:80-173 | resets the queue and visited set, chooses the delay, then fails if the browser does not start and otherwise runs the loop to its end |
| Scraper.GovernmentScraper.CrawlGovernmentSite | backend/services/scraper.js:54-197 | sets the limits (defaults 3 and 50); a start URL that does not parse fails at once and changes nothing else; otherwise the crawl goes as `CrawlParsed` states; the limiter is untouched |
| Scraper.GovernmentScraper.CrawlParsed | backend/services/scraper.js:64-197 | the robots check decides: disallowed fails with the counters reset; allowed chooses the delay, then fails when the browser does not start, or finishes the loop with the invariant and returns its result |

## Left out

- Browser launch, the production/local switch, contexts, `page.goto`, `page.evaluate` DOM querying and closing pages or the browser: this is foreign library I/O. The page seen is a parameter `pages`, and "the browser does not start" is a parameter `launchOk`.
- The site-specific extractors for Hacker News and books.toscrape (scraper.js:254-327) work on DOM structure. A page carries their items as given data, `siteItems`.
- `isContentElement` (scraper.js:224-235) is a CSS selector test. Its answer is a field of each element.
- Relative-URL resolution and host name parsing by `new URL`: the absolute link and the host name are given. A start URL that does not parse is modelled by `parsed == None`.
- The robots.txt `fetch` and `response.text()`: given as a `RobotsResponse`.
- The Gemini client and `generateContent`: whether a model exists is a constructor parameter, and the reply is a parameter. The prompt text and its 2000-character cut of the content are not modelled.
- `Date.now()` is a parameter `now`. The `startTime`, `endTime` and `duration` statistics are not modelled.
- The politeness sleep (`setTimeout`) is left out; it changes no state.
- All console logging is left out.
- The user agent string and the HTTP headers are left out.
- `checkLegalCompliance` (scraper.js:774-802) is left out: it only logs and returns true.
- Sharing one instance between concurrent requests is left out; the model is one sequential instance.
- Text.Lower: lower-cases ASCII letters only; `toLowerCase` on other letters is not modelled. For the `/i` patterns this loses nothing, since every pattern is ASCII. For the text that `toLowerCase` feeds to `includes`, it does. JavaScript maps some non-ASCII letters to ASCII, such as U+212A KELVIN SIGN to `k`. So a link text `LIN\u212AEDIN` matches the `linkedin` skip word (scraper.js:449-464) in the source and is not followed, while the model follows it. The categorizer's keyword hits (scraper.js:591-665) differ in the same way.
- Scraper.GovernmentScraper.CrawlGovernmentSite: `visitedDomains` is a set, so the insertion order of `Array.from(visitedDomains)` in the result is not modelled.
- Scraper.GovernmentScraper.CrawlGovernmentSite: the page function and the link filter it reports, `scraped` and `accepts`, are ghost results. They are pinned down by the predicates `Scrapes` and `Filters`, as what `scrapePage` extracts and what `isValidUrl` answers.
- Extraction.IsArticleTitle, Extraction.IsHeadingTitle, Extraction.Prefix, Summary.IsSentence, Summary.Truncated: a Dafny `string` counts Unicode scalar values, while JavaScript's `length` and `substring` count UTF-16 code units. A character outside the Basic Multilingual Plane counts 1 here and 2 in the source. So the length bounds (scraper.js:362-363, 418-419, 579, 587) and the cuts at 200, 500 and 1000 characters (369-370, 429, 587) agree with the source only on text in that plane. The model never splits a surrogate pair, which `substring` can.
- Robots.DelayMs: `parseInt(...) * 1000` (scraper.js:751) is a double in the source. Here it is an exact integer. The source loses precision above 2^53 and turns a long enough digit string into `Infinity`, after which no later `Crawl-delay` can raise the delay further. The model has no such ceiling.
