/**
 * What `scrapePage` extracts from a loaded page: notification items picked
 * from content containers or, failing that, from headings, and the links to
 * crawl next.  The DOM is given already queried: for each content selector
 * the elements it matched, with the text of the title and content elements
 * found inside; the headings with their neighbours' texts; the anchors with
 * the absolute URL `new URL(href, origin)` gives (`None` when it throws).
 */
module Extraction {
  import opened Wrappers
  import opened Text

  /** An absolute link and the hostname of its URL. */
  datatype Link = Link(href: string, host: string)

  datatype ItemKind = Article | Content | News | Product

  /** One notification found on a page. */
  datatype Item = Item(title: string, content: string, url: string, imageUrl: Option<string>, kind: ItemKind)

  /** An element matched by a content selector: the `textContent` of its title
      element (`None` when it has none), of its content element, the `href` of
      its link element, the `src` of its image, and whether `isContentElement`
      holds of it. */
  datatype Element = Element(title: Option<string>, body: string, href: Option<string>,
                             image: Option<string>, isContent: bool)

  /** A heading: its `textContent`, that of its next sibling and of its parent,
      the `href` of its nearby link, and whether `isContentElement` holds. */
  datatype Heading = Heading(text: string, next: Option<string>, parent: Option<string>,
                             link: Option<string>, isContent: bool)

  /** An anchor `a[href]`: its `href` attribute, its `textContent`, whether
      `isContentElement` holds, and its resolved absolute link. */
  datatype Anchor = Anchor(href: Option<string>, text: string, isContent: bool, resolved: Option<Link>)

  /** A loaded page.  `siteItems` stands for the items of the site-specific
      extractors for Hacker News and books.toscrape, which this model does not
      spell out. */
  datatype Page = Page(url: string, hostname: string, siteItems: seq<Item>,
                       groups: seq<seq<Element>>, headings: seq<Heading>, anchors: seq<Anchor>)

  // ---------------------------------------------------------------------
  // The pieces of the regular expressions

  predicate IsAsciiDigit(c: char) {
    '0' <= c <= '9'
  }

  /** Length of the run of ASCII digits at the start of `s` (`\d*`). */
  function Digits(s: string): (n: nat)
    ensures n <= |s|
  {
    if s != [] && IsAsciiDigit(s[0]) then 1 + Digits(s[1..]) else 0
  }

  /** Length of the run of white space at the start of `s` (`\s*`). */
  function Spaces(s: string): (n: nat)
    ensures n <= |s|
  {
    if s != [] && IsSpace(s[0]) then 1 + Spaces(s[1..]) else 0
  }

  /** What follows `\s+` at the start of `s`. */
  function AfterGap(s: string): Option<string> {
    var n := Spaces(s);
    if n == 0 then None else Some(s[n..])
  }

  /** What follows `^\d+\s+`. */
  function AfterNumber(s: string): Option<string> {
    var n := Digits(s);
    if n == 0 then None else AfterGap(s[n..])
  }

  /** `s` starts with one of `words` followed by a white-space character. */
  predicate StartsWithWordThenSpace(s: string, words: seq<string>) {
    exists k :: 0 <= k < |words| && StartsWith(s, words[k]) && |s| > |words[k]| && IsSpace(s[|words[k]|])
  }

  /** `s` starts with one of `words`, then `\s+`, then `tail`. */
  predicate WordGapThen(s: string, words: seq<string>, tail: string) {
    exists k :: 0 <= k < |words| && StartsWith(s, words[k])
                && match AfterGap(s[|words[k]|..]) case Some(r) => StartsWith(r, tail) case None => false
  }

  const PointWords := ["points", "point", "pts", "pt"]
  const AgeWords := ["comments", "comment", "hrs", "hr", "minutes", "minute", "days", "day"]
  const ActionWords := ["hide", "reply", "flag", "favorite", "share"]
  const CountWords := ["votes", "vote", "likes", "like", "shares", "share"]
  const BylineWords := ["posted", "submitted", "by", "ago", "comments", "comment"]
  const NavigationWords := ["home", "about", "contact", "login", "register", "search", "menu", "nav"]
  const LegalWords := ["cookie", "privacy", "terms", "subscribe", "newsletter"]
  const PagingWords := ["next", "previous", "more", "load", "show"]

  /** `/^\d+\s+(points?|pts?)\s+by\s+/i` on lower-cased `t` */
  predicate IsScoreLine(t: string) {
    match AfterNumber(t)
    case None => false
    case Some(r) =>
      exists k :: 0 <= k < |PointWords| && StartsWith(r, PointWords[k])
                  && match AfterGap(r[|PointWords[k]|..])
                     case None => false
                     case Some(r2) => StartsWith(r2, "by") && AfterGap(r2[2..]).Some?
  }

  /** `/^\d+\s+(comments?|hrs?|minutes?|days?)\s+ago/i` */
  predicate IsAgeLine(t: string) {
    match AfterNumber(t)
    case None => false
    case Some(r) => WordGapThen(r, AgeWords, "ago")
  }

  /** `/^\d+\s+(votes?|likes?|shares?)$/i` */
  predicate IsCountLine(t: string) {
    match AfterNumber(t)
    case None => false
    case Some(r) => r in CountWords
  }

  /** `isMetadataText(text)`: any of the five patterns matches the trimmed text;
      the `i` flag is ASCII lower-casing. */
  predicate IsMetadataText(text: string) {
    var t := Lower(Trim(text));
    IsScoreLine(t) || IsAgeLine(t) || t in ActionWords || IsCountLine(t)
    || StartsWithWordThenSpace(t, BylineWords)
  }

  /** `isNavigationText(text)` */
  predicate IsNavigationText(text: string) {
    var t := Lower(Trim(text));
    t in NavigationWords || t in LegalWords || StartsWithWordThenSpace(t, PagingWords)
  }

  /** The whole-text pattern `/^(hide|…)$/` only matches words of at most ten
      letters, so for any text longer than ten characters once trimmed, as
      every title kept by the filters is, only the prefix patterns of
      `isMetadataText` can match. */
  lemma MetadataOfLongText(text: string)
    requires |Trim(text)| > 10
    ensures var t := Lower(Trim(text));
            IsMetadataText(text) <==> IsScoreLine(t) || IsAgeLine(t) || IsCountLine(t)
                                      || StartsWithWordThenSpace(t, BylineWords)
  {
    NoLongActionWord(Lower(Trim(text)));
  }

  /** Likewise only the `next|previous|…` prefix pattern of
      `isNavigationText` can match a text longer than ten characters. */
  lemma NavigationOfLongText(text: string)
    requires |Trim(text)| > 10
    ensures IsNavigationText(text) <==> StartsWithWordThenSpace(Lower(Trim(text)), PagingWords)
  {
    NoLongNavigationWord(Lower(Trim(text)));
  }

  /** Every action word has at most ten letters. */
  lemma NoLongActionWord(t: string)
    requires |t| > 10
    ensures t !in ActionWords
  {
  }

  /** Every navigation and legal word has at most ten letters. */
  lemma NoLongNavigationWord(t: string)
    requires |t| > 10
    ensures t !in NavigationWords && t !in LegalWords
  {
  }

  // ---------------------------------------------------------------------
  // Items

  /** `s.substring(0, n)` */
  function Prefix(s: string, n: nat): (r: string)
    ensures |r| <= n && |r| <= |s|
    ensures r == s[..|r|]
    ensures |s| <= n ==> r == s
    ensures |s| > n ==> |r| == n
  {
    if |s| <= n then s else s[..n]
  }

  /** `cut` is `s.substring(0, |cut|)`. */
  predicate IsCutFrom(cut: string, s: string) {
    |cut| <= |s| && cut == s[..|cut|]
  }

  /** `href || window.location.href` */
  function UrlOr(href: Option<string>, pageUrl: string): string {
    if href.Some? && href.value != "" then href.value else pageUrl
  }

  /** `s` without the elements from index `n` on (the `index >= n` guards). */
  function Head<T>(s: seq<T>, n: nat): (r: seq<T>)
    ensures |r| <= n && |r| <= |s| && r == s[..|r|]
    ensures |s| <= n ==> r == s
  {
    if |s| <= n then s else s[..n]
  }

  /** The quality filter on an article title. */
  predicate IsArticleTitle(title: string) {
    10 < |title| < 300 && !IsMetadataText(title) && !IsNavigationText(title)
  }

  /** The item made of a title and content that passed the filters: both cut
      to their limits, the link or else the page URL, and the image. */
  function ArticleOf(title: string, content: string, href: Option<string>, image: Option<string>,
                     pageUrl: string): (it: Item)
    requires 10 < |title| && 20 < |content|
    ensures 10 < |it.title| <= 200 && IsCutFrom(it.title, title)
    ensures 20 < |it.content| <= 1000 && IsCutFrom(it.content, content)
    ensures it.url == UrlOr(href, pageUrl) && it.imageUrl == image && it.kind == Article
  {
    Item(Prefix(title, 200), Prefix(content, 1000), UrlOr(href, pageUrl), image, Article)
  }

  /** The item an element of a content selector yields, if any. */
  function ArticleItem(e: Element, pageUrl: string): (r: seq<Item>)
    ensures |r| <= 1
  {
    if !e.isContent || e.title.None? then []
    else
      var title := Trim(e.title.value);
      var content := Trim(e.body);
      if IsArticleTitle(title) && |content| > 20 then
        [ArticleOf(title, content, e.href, e.image, pageUrl)]
      else []
  }

  /** The items of the elements `es`, in order. */
  function Articles(es: seq<Element>, pageUrl: string): (r: seq<Item>)
    ensures |r| <= |es|
    decreases |es|
  {
    if es == [] then [] else Articles(es[..|es| - 1], pageUrl) + ArticleItem(es[|es| - 1], pageUrl)
  }

  /** Every article item is the item of one of the elements. */
  lemma {:induction false} ArticlesFrom(es: seq<Element>, pageUrl: string)
    ensures forall it :: it in Articles(es, pageUrl) ==>
              exists k :: 0 <= k < |es| && it in ArticleItem(es[k], pageUrl)
    decreases |es|
  {
    if es != [] {
      var init := es[..|es| - 1];
      ArticlesFrom(init, pageUrl);
      assert forall k :: 0 <= k < |init| ==> init[k] == es[k];
    }
  }

  /** Every article item comes from an element that passed the filters: its
      title, uncut, passed `isMetadataText` and `isNavigationText`, and the item
      has a title of 11 to 200 and content of 21 to 1000 characters. */
  lemma ArticlesBounded(es: seq<Element>, pageUrl: string)
    ensures forall it :: it in Articles(es, pageUrl) ==>
              (exists k :: 0 <= k < |es| && ArticleItem(es[k], pageUrl) == [it]
                             && es[k].title.Some? && IsArticleTitle(Trim(es[k].title.value)))
              && 10 < |it.title| <= 200 && 20 < |it.content| <= 1000 && it.kind == Article
  {
    ArticlesFrom(es, pageUrl);
    forall it | it in Articles(es, pageUrl)
      ensures (exists k :: 0 <= k < |es| && ArticleItem(es[k], pageUrl) == [it]
                             && es[k].title.Some? && IsArticleTitle(Trim(es[k].title.value)))
              && 10 < |it.title| <= 200 && 20 < |it.content| <= 1000 && it.kind == Article
    {
      var k :| 0 <= k < |es| && it in ArticleItem(es[k], pageUrl);
      Single(ArticleItem(es[k], pageUrl), it);
      ArticleItemIff(es[k], pageUrl);
      ArticleItemShape(es[k], pageUrl);
    }
  }

  /** An element yields an item exactly when it is a content element whose
      trimmed title passes the quality filter and whose trimmed content is
      longer than 20. */
  lemma ArticleItemIff(e: Element, pageUrl: string)
    ensures ArticleItem(e, pageUrl) != [] <==>
              e.isContent && e.title.Some? && IsArticleTitle(Trim(e.title.value)) && |Trim(e.body)| > 20
  {
  }

  /** The item an element yields is an article whose title, of 11 to 200
      characters, is cut from the element's trimmed title, whose content, of
      21 to 1000 characters, is cut from its trimmed content, with the link
      or else the page URL, and the image. */
  lemma ArticleItemShape(e: Element, pageUrl: string)
    requires ArticleItem(e, pageUrl) != []
    ensures var it := ArticleItem(e, pageUrl)[0];
            e.title.Some?
            && 10 < |it.title| <= 200 && IsCutFrom(it.title, Trim(e.title.value))
            && 20 < |it.content| <= 1000 && IsCutFrom(it.content, Trim(e.body))
            && it.url == UrlOr(e.href, pageUrl) && it.imageUrl == e.image && it.kind == Article
  {
  }

  /** The `forEach` over the elements of one content selector: the first 30
      elements are considered. */
  method ExtractGroup(group: seq<Element>, pageUrl: string) returns (items: seq<Item>)
    ensures items == Articles(Head(group, 30), pageUrl)
    ensures |items| <= 30
  {
    items := [];
    for i := 0 to |group|
      invariant items == Articles(group[..if i < 30 then i else 30], pageUrl)
    {
      if i >= 30 || !group[i].isContent {
        if i < 30 {
          ArticlesSnoc(group, i, pageUrl);
        }
        continue;
      }
      var e := group[i];
      ArticlesSnoc(group, i, pageUrl);
      if e.title.Some? {
        var title := Trim(e.title.value);
        var content := Trim(e.body);
        if IsArticleTitle(title) && |content| > 20 {
          items := items + [ArticleOf(title, content, e.href, e.image, pageUrl)];
        }
      }
    }
    assert group[..|Head(group, 30)|] == Head(group, 30);
  }

  lemma ArticlesSnoc(es: seq<Element>, i: int, pageUrl: string)
    requires 0 <= i < |es|
    ensures Articles(es[..i + 1], pageUrl) == Articles(es[..i], pageUrl) + ArticleItem(es[i], pageUrl)
  {
    assert es[..i + 1][..i] == es[..i];
  }

  /** A sequence of at most one element that holds `x` is `[x]`. */
  lemma Single<T>(s: seq<T>, x: T)
    requires |s| <= 1 && x in s
    ensures s == [x]
  {
  }

  /** The items one content selector yields: those of its first 30 elements. */
  function Yield(group: seq<Element>, pageUrl: string): seq<Item> {
    Articles(Head(group, 30), pageUrl)
  }

  /** The items of the first content selector that yields any. */
  function FirstArticles(groups: seq<seq<Element>>, pageUrl: string): seq<Item>
    decreases |groups|
  {
    if groups == [] then []
    else
      var items := Yield(groups[0], pageUrl);
      if items != [] then items else FirstArticles(groups[1..], pageUrl)
  }

  /** The text near a heading: its next sibling's, else its parent's, else
      its own (`a || b || c`, where an empty string falls through). */
  function NearbyText(h: Heading, text: string): string {
    if h.next.Some? && Trim(h.next.value) != "" then Trim(h.next.value)
    else if h.parent.Some? && Trim(h.parent.value) != "" then Trim(h.parent.value)
    else text
  }

  /** The quality filter on a heading. */
  predicate IsHeadingTitle(text: string) {
    15 < |text| < 300 && !IsMetadataText(text) && !IsNavigationText(text)
  }

  /** The item a heading yields, if any. */
  function HeadingItem(h: Heading, pageUrl: string): (r: seq<Item>)
    ensures |r| <= 1
    ensures r != [] ==>
              h.isContent && r[0].title == Trim(h.text) && 15 < |r[0].title| < 300
              && |r[0].content| <= 500 && IsCutFrom(r[0].content, NearbyText(h, r[0].title))
              && r[0].url == UrlOr(h.link, pageUrl) && r[0].imageUrl == None && r[0].kind == Content
  {
    var text := Trim(h.text);
    if h.isContent && IsHeadingTitle(text) then
      [Item(text, Prefix(NearbyText(h, text), 500), UrlOr(h.link, pageUrl), None, Content)]
    else []
  }

  /** The items of the headings `hs`, in order. */
  function HeadingItems(hs: seq<Heading>, pageUrl: string): (r: seq<Item>)
    ensures |r| <= |hs|
    decreases |hs|
  {
    if hs == [] then [] else HeadingItems(hs[..|hs| - 1], pageUrl) + HeadingItem(hs[|hs| - 1], pageUrl)
  }

  /** `extractFallbackContent`: the first 20 headings are considered, and the
      final `slice(0, 20)` can then never cut anything. */
  method ExtractFallbackContent(headings: seq<Heading>, pageUrl: string) returns (items: seq<Item>)
    ensures items == HeadingItems(Head(headings, 20), pageUrl)
    ensures |items| <= 20
  {
    var texts: seq<Item> := [];
    for i := 0 to |headings|
      invariant texts == HeadingItems(headings[..if i < 20 then i else 20], pageUrl)
    {
      if i >= 20 || !headings[i].isContent {
        if i < 20 {
          HeadingItemsSnoc(headings, i, pageUrl);
        }
        continue;
      }
      var h := headings[i];
      HeadingItemsSnoc(headings, i, pageUrl);
      var text := Trim(h.text);
      if IsHeadingTitle(text) {
        var nearby := NearbyText(h, text);
        texts := texts + [Item(text, Prefix(nearby, 500), UrlOr(h.link, pageUrl), None, Content)];
      }
    }
    assert headings[..|Head(headings, 20)|] == Head(headings, 20);
    items := texts[..if |texts| < 20 then |texts| else 20];
    assert items == texts;
  }

  lemma HeadingItemsSnoc(hs: seq<Heading>, i: int, pageUrl: string)
    requires 0 <= i < |hs|
    ensures HeadingItems(hs[..i + 1], pageUrl) == HeadingItems(hs[..i], pageUrl) + HeadingItem(hs[i], pageUrl)
  {
    assert hs[..i + 1][..i] == hs[..i];
  }

  /** Every heading item comes from a content heading: its title is that
      heading's trimmed text, uncut, which passed `isMetadataText` and
      `isNavigationText` and has 16 to 299 characters, and its content has at
      most 500. */
  lemma {:induction false} HeadingItemsBounded(hs: seq<Heading>, pageUrl: string)
    ensures forall it :: it in HeadingItems(hs, pageUrl) ==>
              (exists k :: 0 <= k < |hs| && HeadingItem(hs[k], pageUrl) == [it]
                             && hs[k].isContent && it.title == Trim(hs[k].text))
              && 15 < |it.title| < 300 && !IsMetadataText(it.title) && !IsNavigationText(it.title)
              && |it.content| <= 500 && it.kind == Content
    decreases |hs|
  {
    if hs != [] {
      var init, last := hs[..|hs| - 1], hs[|hs| - 1];
      HeadingItemsBounded(init, pageUrl);
      forall it | it in HeadingItems(hs, pageUrl)
        ensures exists k :: 0 <= k < |hs| && HeadingItem(hs[k], pageUrl) == [it]
                            && hs[k].isContent && it.title == Trim(hs[k].text)
      {
        if it in HeadingItems(init, pageUrl) {
          var k :| 0 <= k < |init| && HeadingItem(init[k], pageUrl) == [it]
                   && init[k].isContent && it.title == Trim(init[k].text);
          assert hs[k] == init[k];
        } else {
          HeadingFrom(last, pageUrl, it);
          assert hs[|hs| - 1] == last;
        }
      }
    }
  }

  /** An item in the items of one heading is that heading's only item, and
      its title, the heading's trimmed text, passed the quality filter. */
  lemma HeadingFrom(h: Heading, pageUrl: string, it: Item)
    requires it in HeadingItem(h, pageUrl)
    ensures HeadingItem(h, pageUrl) == [it]
    ensures IsHeadingTitle(it.title)
  {
  }

  /** A heading yields an item exactly when it is a content element and its
      trimmed text passes the quality filter. */
  lemma HeadingItemIff(h: Heading, pageUrl: string)
    ensures HeadingItem(h, pageUrl) != [] <==> h.isContent && IsHeadingTitle(Trim(h.text))
  {
  }

  /** `extractGenericContent`: the content selectors in order, the first one
      that yields items winning, else the headings. */
  function GenericItems(page: Page): seq<Item> {
    var items := FirstArticles(page.groups, page.url);
    if items != [] then items else HeadingItems(Head(page.headings, 20), page.url)
  }

  /** `extractUniversalContent`: the site-specific extractors for the two
      known hosts, the generic one elsewhere. */
  function PageItems(page: Page): seq<Item> {
    if Contains(page.hostname, "news.ycombinator.com") || Contains(page.hostname, "books.toscrape.com") then
      page.siteItems
    else GenericItems(page)
  }

  method ExtractGenericContent(page: Page) returns (items: seq<Item>)
    ensures items == GenericItems(page)
  {
    var i := 0;
    while i < |page.groups|
      invariant 0 <= i <= |page.groups|
      invariant FirstArticles(page.groups, page.url) == FirstArticles(page.groups[i..], page.url)
    {
      var found := ExtractGroup(page.groups[i], page.url);
      if found != [] {
        return found;
      }
      assert page.groups[i..][1..] == page.groups[i + 1..];
      i := i + 1;
    }
    items := ExtractFallbackContent(page.headings, page.url);
  }

  /** The generic extractor finds no container item exactly when no content
      selector yields one, and it then falls back to the headings. */
  lemma {:induction false} FirstArticlesEmptyIff(groups: seq<seq<Element>>, pageUrl: string)
    ensures FirstArticles(groups, pageUrl) == [] <==> forall i :: 0 <= i < |groups| ==> Yield(groups[i], pageUrl) == []
    decreases |groups|
  {
    if groups != [] {
      FirstArticlesEmptyIff(groups[1..], pageUrl);
      NoYieldCons(groups, pageUrl);
    }
  }

  /** No selector yields exactly when the first does not and no later one does. */
  lemma NoYieldCons(groups: seq<seq<Element>>, pageUrl: string)
    requires groups != []
    ensures (forall i :: 0 <= i < |groups| ==> Yield(groups[i], pageUrl) == [])
            <==> Yield(groups[0], pageUrl) == [] && forall i :: 0 <= i < |groups[1..]| ==> Yield(groups[1..][i], pageUrl) == []
  {
    assert forall i :: 1 <= i < |groups| ==> groups[i] == groups[1..][i - 1];
  }

  /** The container items all come from the first content selector that
      yields any, in the order of the source's selector list. */
  lemma {:induction false} FirstArticlesIsFirst(groups: seq<seq<Element>>, pageUrl: string, i: int)
    requires 0 <= i < |groups| && Yield(groups[i], pageUrl) != []
    requires forall j :: 0 <= j < i ==> Yield(groups[j], pageUrl) == []
    ensures FirstArticles(groups, pageUrl) == Yield(groups[i], pageUrl)
    decreases i
  {
    if i > 0 {
      assert Yield(groups[0], pageUrl) == [];
      assert groups[1..][i - 1] == groups[i];
      assert forall j :: 0 <= j < i - 1 ==> groups[1..][j] == groups[j + 1];
      FirstArticlesIsFirst(groups[1..], pageUrl, i - 1);
      assert FirstArticles(groups, pageUrl) == FirstArticles(groups[1..], pageUrl);
    }
  }

  // ---------------------------------------------------------------------
  // Links

  /** Link texts that mark an anchor as navigation or utility. */
  const SkipLinkWords := ["home", "about", "contact", "login", "register", "logout", "privacy", "terms",
                          "cookie", "subscribe", "newsletter", "facebook", "twitter", "instagram",
                          "linkedin", "youtube", "share", "print", "email", "download"]

  /** The anchor filter before resolution. */
  predicate IsFollowable(a: Anchor) {
    a.href.Some? && a.href.value != ""
    && !StartsWith(a.href.value, "#") && !StartsWith(a.href.value, "mailto:")
    && !StartsWith(a.href.value, "tel:") && !StartsWith(a.href.value, "javascript:")
    && !(exists k :: 0 <= k < |SkipLinkWords| && Contains(Lower(Trim(a.text)), SkipLinkWords[k]))
    && a.isContent
  }

  /** The resolved links of the followable anchors, duplicates included. */
  function Candidates(anchors: seq<Anchor>): (r: seq<Link>)
    decreases |anchors|
  {
    if anchors == [] then []
    else
      var a := anchors[|anchors| - 1];
      Candidates(anchors[..|anchors| - 1]) + (if IsFollowable(a) && a.resolved.Some? then [a.resolved.value] else [])
  }

  function Hrefs(links: seq<Link>): set<string> {
    set i | 0 <= i < |links| :: links[i].href
  }

  /** The first link of each URL, in order. */
  function Unique(links: seq<Link>): (r: seq<Link>)
    decreases |links|
  {
    if links == [] then []
    else
      var u := Unique(links[..|links| - 1]);
      var l := links[|links| - 1];
      if l.href in Hrefs(u) then u else u + [l]
  }

  /** No URL appears twice. */
  predicate Distinct(links: seq<Link>) {
    forall i, j :: 0 <= i < j < |links| ==> links[i].href != links[j].href
  }

  /** `Unique` drops exactly the repeated URLs: what is left has no
      duplicates, the same URLs, and only links of the input. */
  lemma {:induction false} UniqueProperties(links: seq<Link>)
    ensures Distinct(Unique(links))
    ensures Hrefs(Unique(links)) == Hrefs(links)
    ensures forall l :: l in Unique(links) ==> l in links
    decreases |links|
  {
    if links != [] {
      var init := links[..|links| - 1];
      var l := links[|links| - 1];
      UniqueProperties(init);
      assert links == init + [l];
      HrefsAppend(init, l);
      var u := Unique(init);
      if l.href !in Hrefs(u) {
        HrefsAppend(u, l);
        forall i, j | 0 <= i < j < |u + [l]| ensures (u + [l])[i].href != (u + [l])[j].href {
          if j == |u| {
            assert (u + [l])[i] == u[i];
          } else {
            assert (u + [l])[i] == u[i] && (u + [l])[j] == u[j];
          }
        }
      }
    }
  }

  /** The links of a page. */
  function PageLinks(page: Page): seq<Link> {
    Unique(Candidates(page.anchors))
  }

  /** The `forEach` over the anchors, with the `uniqueLinks` set and the
      `links` array. */
  method CollectLinks(anchors: seq<Anchor>) returns (links: seq<Link>)
    ensures links == Unique(Candidates(anchors))
  {
    var uniqueLinks: set<string> := {};
    links := [];
    for i := 0 to |anchors|
      invariant links == Unique(Candidates(anchors[..i]))
      invariant uniqueLinks == Hrefs(links)
    {
      var a := anchors[i];
      CandidatesSnoc(anchors, i);
      if !(IsFollowable(a) && a.resolved.Some?) {
        assert Candidates(anchors[..i + 1]) == Candidates(anchors[..i]);
      }
      if IsFollowable(a) {
        match a.resolved {
          case None =>
          case Some(link) =>
            UniqueSnoc(Candidates(anchors[..i]), link);
            if link.href !in uniqueLinks {
              HrefsAppend(links, link);
              uniqueLinks := uniqueLinks + {link.href};
              links := links + [link];
            }
        }
      }
    }
    assert anchors[..|anchors|] == anchors;
  }

  lemma UniqueSnoc(links: seq<Link>, l: Link)
    ensures Unique(links + [l]) == if l.href in Hrefs(Unique(links)) then Unique(links) else Unique(links) + [l]
  {
    assert (links + [l])[..|links|] == links;
  }

  lemma CandidatesSnoc(anchors: seq<Anchor>, i: int)
    requires 0 <= i < |anchors|
    ensures var a := anchors[i];
            Candidates(anchors[..i + 1])
            == Candidates(anchors[..i]) + (if IsFollowable(a) && a.resolved.Some? then [a.resolved.value] else [])
  {
    assert anchors[..i + 1][..i] == anchors[..i];
  }

  lemma HrefsAppend(links: seq<Link>, l: Link)
    ensures Hrefs(links + [l]) == Hrefs(links) + {l.href}
  {
    forall h | h in Hrefs(links + [l]) ensures h in Hrefs(links) + {l.href} {
      var i :| 0 <= i < |links + [l]| && (links + [l])[i].href == h;
      if i < |links| {
        assert (links + [l])[i] == links[i];
      }
    }
    forall h | h in Hrefs(links) ensures h in Hrefs(links + [l]) {
      var i :| 0 <= i < |links| && links[i].href == h;
      assert (links + [l])[i] == links[i];
    }
    assert (links + [l])[|links|] == l;
  }

  /** `scrapePage` once the page has loaded: the items and the links. */
  method ScrapePage(page: Page) returns (items: seq<Item>, links: seq<Link>)
    ensures items == PageItems(page)
    ensures links == PageLinks(page)
    ensures Distinct(links)
  {
    if Contains(page.hostname, "news.ycombinator.com") || Contains(page.hostname, "books.toscrape.com") {
      items := page.siteItems;
    } else {
      items := ExtractGenericContent(page);
    }
    links := CollectLinks(page.anchors);
    UniqueProperties(Candidates(page.anchors));
  }
}
