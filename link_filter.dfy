/**
 * `GovernmentScraper.isValidUrl`: whether a discovered link may be queued.
 * The link's hostname is given (the source takes it from `new URL(url)`);
 * each regular expression of the source is written out as a predicate over
 * the URL string, with the `i` flag as ASCII lower-casing.
 */
module LinkFilter {
  import opened Wrappers
  import opened Text

  /** Extensions of `/\.(pdf|doc|…|js)$/i`. */
  const SkipExtensions := ["pdf", "doc", "docx", "xls", "xlsx", "ppt", "pptx", "zip", "rar",
                           "exe", "jpg", "jpeg", "png", "gif", "svg", "css", "js"]

  /** Path words of `/\/(login|logout|…|account)/i`, matched anywhere. */
  const UtilityPaths := ["login", "logout", "admin", "api", "ajax", "search", "cart", "checkout", "account"]

  /** Path words of `/\/(privacy|…|support)$/i`, matched at the end only. */
  const BoilerplatePages := ["privacy", "terms", "cookie", "about", "contact", "help", "support"]

  /** Path words of `/\/(article|post|…|item)/i`. */
  const ContentPaths := ["article", "post", "blog", "news", "story", "product", "item"]

  /** Query words of `/\?.*download/i`, `/\?.*sort=/i` and `/\?.*filter=/i`. */
  const QueryWords := ["download", "sort=", "filter="]

  /** Hostnames containing this get the catalogue-only rule. */
  const BooksHost := "books.toscrape.com"

  // ---------------------------------------------------------------------
  // The regular expressions

  /** `/\.(pdf|…|js)$/i` */
  predicate HasSkippedExtension(url: string) {
    exists k :: 0 <= k < |SkipExtensions| && EndsWith(Lower(url), "." + SkipExtensions[k])
  }

  /** `/\/(login|…|account)/i` */
  predicate HasUtilityPath(url: string) {
    exists k :: 0 <= k < |UtilityPaths| && Contains(Lower(url), "/" + UtilityPaths[k])
  }

  /** `/\/(privacy|…|support)$/i` */
  predicate IsBoilerplatePage(url: string) {
    exists k :: 0 <= k < |BoilerplatePages| && EndsWith(Lower(url), "/" + BoilerplatePages[k])
  }

  /** The characters that `.` in a JavaScript regular expression does not match. */
  predicate IsLineTerminator(c: char) {
    c == '\n' || c == '\r' || c == '\U{2028}' || c == '\U{2029}'
  }

  /** `s` up to its first line terminator. */
  function LineHead(s: string): (r: string)
    ensures |r| <= |s| && r == s[..|r|]
    ensures forall i :: 0 <= i < |r| ==> !IsLineTerminator(r[i])
    ensures |r| < |s| ==> IsLineTerminator(s[|r|])
  {
    if s == [] || IsLineTerminator(s[0]) then [] else [s[0]] + LineHead(s[1..])
  }

  /** `/\?.*word/i`: some `?` is followed, on the same line, by `word`. */
  predicate QueryMentions(url: string, word: string) {
    exists i :: 0 <= i < |url| && url[i] == '?' && Contains(Lower(LineHead(url[i + 1..])), word)
  }

  /** The three query-string patterns. */
  predicate HasNonContentQuery(url: string) {
    exists k :: 0 <= k < |QueryWords| && QueryMentions(url, QueryWords[k])
  }

  /** All skip patterns of the source, the fragment test `/#/` among them. */
  predicate HasSkipPattern(url: string) {
    HasSkippedExtension(url) || HasUtilityPath(url) || HasNonContentQuery(url)
    || '#' in url || IsBoilerplatePage(url)
  }

  /** `/\/(article|…|item)/i` */
  predicate HasContentPath(url: string) {
    exists k :: 0 <= k < |ContentPaths| && Contains(Lower(url), "/" + ContentPaths[k])
  }

  /** `\d` matches ASCII digits only. */
  predicate IsDigit(c: char) {
    '0' <= c <= '9'
  }

  /** `/\/\d+/`: a slash followed by a digit. */
  predicate HasNumericSegment(url: string) {
    exists i :: 0 <= i < |url| - 1 && url[i] == '/' && IsDigit(url[i + 1])
  }

  /** `[a-z-]`, case-sensitive: this pattern has no `i` flag. */
  predicate IsSlugChar(c: char) {
    ('a' <= c <= 'z') || c == '-'
  }

  /** The slashes at `i` and `j` enclose one or more slug characters. */
  predicate SlugBetween(url: string, i: int, j: int) {
    0 <= i && i + 1 < j < |url| && url[i] == '/' && url[j] == '/'
    && forall m :: i < m < j ==> IsSlugChar(url[m])
  }

  /** `/\/[a-z-]+\//` */
  predicate HasDescriptivePath(url: string) {
    exists i, j :: 0 <= i < j < |url| && SlugBetween(url, i, j)
  }

  /** Any of the three content patterns. */
  predicate HasContentPattern(url: string) {
    HasContentPath(url) || HasNumericSegment(url) || HasDescriptivePath(url)
  }

  // ---------------------------------------------------------------------
  // The filter

  /** `isValidUrl(url)` for a link whose hostname is `host`, given the crawl's
      allowed domains and the normalised start URL (`None` before any crawl,
      where `this.baseUrl?.href` is `undefined`). */
  predicate IsValidUrl(url: string, host: string, allowedDomains: set<string>, baseHref: Option<string>) {
    if host !in allowedDomains then false
    else if Contains(host, BooksHost) then Contains(url, "/catalogue/") || Contains(url, "/page_")
    else !HasSkipPattern(url) && (HasContentPattern(url) || baseHref == Some(url))
  }

  /** A link whose host is not among the allowed domains is always refused. */
  lemma OffDomainRefused(url: string, host: string, allowedDomains: set<string>, baseHref: Option<string>)
    requires host !in allowedDomains
    ensures !IsValidUrl(url, host, allowedDomains, baseHref)
  {
  }

  /** On a catalogue host a `/catalogue/` link is accepted even when a skip
      pattern matches it: the host rule is applied before the skip list. */
  lemma CatalogueOverridesSkips(url: string, host: string, allowedDomains: set<string>, baseHref: Option<string>)
    requires host in allowedDomains && Contains(host, BooksHost) && Contains(url, "/catalogue/")
    ensures IsValidUrl(url, host, allowedDomains, baseHref)
  {
  }

  /** A catalogue page with a fragment: `/#/` matches it, and it is still
      accepted. */
  lemma CatalogueFragmentAccepted()
    ensures var url := "http://books.toscrape.com/catalogue/page-2.html#top";
            '#' in url && HasSkipPattern(url)
            && IsValidUrl(url, BooksHost, {BooksHost}, None)
  {
    var site, path, page := "http://books.toscrape.com", "/catalogue/", "page-2.html#top";
    var url := site + path + page;
    assert url == "http://books.toscrape.com/catalogue/page-2.html#top";
    assert url[|site|..|site| + |path|] == path;
    assert url[47] == '#';
    ContainsOccurrence(BooksHost, BooksHost, 0);
    ContainsOccurrence(url, path, |site|);
    CatalogueOverridesSkips(url, BooksHost, {BooksHost}, None);
  }

  /** The start URL is accepted on its own host whenever no skip pattern
      matches, even with no content pattern. */
  lemma StartUrlAccepted(url: string, host: string, allowedDomains: set<string>)
    requires host in allowedDomains && !Contains(host, BooksHost) && !HasSkipPattern(url)
    ensures IsValidUrl(url, host, allowedDomains, Some(url))
  {
  }

  /** A `/news` link of an allowed host, other than a catalogue host, with no
      skip pattern, is accepted whatever the start URL. */
  lemma NewsAccepted(url: string, host: string, allowedDomains: set<string>, baseHref: Option<string>)
    requires host in allowedDomains && !Contains(host, BooksHost)
    requires Contains(Lower(url), "/news") && !HasSkipPattern(url)
    ensures IsValidUrl(url, host, allowedDomains, baseHref)
  {
    NewsIsContent(url);
  }

  /** Widening the allowed domains never refuses a link that was accepted. */
  lemma AllowedDomainsMonotone(url: string, host: string, a: set<string>, b: set<string>, baseHref: Option<string>)
    requires a <= b
    requires IsValidUrl(url, host, a, baseHref)
    ensures IsValidUrl(url, host, b, baseHref)
  {
  }

  /** A link with a fragment is refused everywhere except on the catalogue hosts. */
  lemma FragmentRefused(url: string, host: string, allowedDomains: set<string>, baseHref: Option<string>)
    requires '#' in url && !Contains(host, BooksHost)
    ensures !IsValidUrl(url, host, allowedDomains, baseHref)
  {
  }

  /** The `.pdf` extension is refused in any letter case, off the catalogue hosts. */
  lemma PdfRefused(url: string, host: string, allowedDomains: set<string>, baseHref: Option<string>)
    requires EndsWith(Lower(url), ".pdf") && !Contains(host, BooksHost)
    ensures !IsValidUrl(url, host, allowedDomains, baseHref)
  {
    assert "." + SkipExtensions[0] == ".pdf";
  }

  /** A `/login` segment anywhere in the URL is refused, off the catalogue hosts. */
  lemma LoginRefused(url: string, host: string, allowedDomains: set<string>, baseHref: Option<string>)
    requires Contains(Lower(url), "/login") && !Contains(host, BooksHost)
    ensures !IsValidUrl(url, host, allowedDomains, baseHref)
  {
    assert "/" + UtilityPaths[0] == "/login";
  }

  /** Lower-casing keeps a slash, so a URL with `/news` in any letter case has a content path. */
  lemma NewsIsContent(url: string)
    requires Contains(Lower(url), "/news")
    ensures HasContentPattern(url)
  {
    assert "/" + ContentPaths[3] == "/news";
  }
}
