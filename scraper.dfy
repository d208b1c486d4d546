/** The ingestion rules of `NewsScraper` (scraper.js): per-source dispatch,
    feed and page item selection, the full-article content cascade and the
    settle-all concatenation over all sources.

    Everything that touches the network, a parser or the DOM is an input of
    type `Web`: the parsed feed of a URL, the selector query of a fetched page,
    the selector text of a fetched article page, `new Date`, the date patterns
    and `new URL`. A fetch or parse that throws is `None`. The clock is the
    parameter `now`, in milliseconds. */
module Scraper {
  import opened Seqs
  import opened JsText
  import opened ScraperText

  /** An entry of the source registry; `kind` is its `type` field. */
  datatype Source = Source(name: string, url: string, kind: string, category: string)

  /** An article as the scrapers produce it. `tldr` is `""` (absent) for
      every article a scraper builds; `processNews` accepts one that has it. */
  datatype RawArticle = RawArticle(
    title: string,
    content: string,
    url: string,
    timestamp: int,
    source: string,
    category: string,
    tldr: string)

  /** The fields of a parsed feed entry; `""` stands for a missing field. */
  datatype FeedItem = FeedItem(
    title: string,
    contentSnippet: string,
    content: string,
    link: string,
    pubDate: string,
    isoDate: string)

  /** What the scraper extracts from one matched page element: the text of the
      first heading, the `href` of the first anchor, the text of the first
      paragraph and the text of the first date element (`""` when absent). */
  datatype PageElement = PageElement(titleText: string, href: string, contentText: string, dateText: string)

  /** The outside world, as seen by the scraper. */
  datatype Web = Web(
    feed: string -> Option<seq<FeedItem>>,                // parser.parseURL(url).items
    page: string -> Option<string -> seq<PageElement>>,   // axios.get(url) then $(selector)
    article: string -> Option<string -> string>,          // axios.get(url), clean-up, then $(selector).text()
    parseDate: string -> Option<int>,                     // new Date(s); None is an Invalid Date
    matchFormat: (nat, string) -> Option<string>,         // s.match(formats[i])[0]
    resolve: (string, string) -> Option<string>)          // new URL(url, new URL(base).origin).href

  /** At most this many feed entries or page elements are looked at. */
  const MaxItems: nat := 10
  /** The feed staleness window: 168 hours, in milliseconds. */
  const FeedWindowMs: int := 168 * 60 * 60 * 1000
  /** The page staleness window: 24 hours, in milliseconds. */
  const PageWindowMs: int := 24 * 60 * 60 * 1000
  /** A feed article whose content is shorter than this is enriched. */
  const ShortContent: nat := 100
  /** An article-page candidate must be longer than this (before cleaning). */
  const MinArticleText: nat := 200

  /** The selectors tried, in order, to find article blocks on a page. */
  const PageSelectors: seq<string> :=
    ["article", ".article", ".news-item", ".post", ".entry", "[class*=\"article\"]", "[class*=\"news\"]"]

  /** The selectors tried, in order, to find the body of an article page. */
  const ContentSelectors: seq<string> :=
    [".article-content", ".post-content", ".entry-content", ".content", "article p", ".article p", "main p"]

  /** JavaScript's `a || b` on strings. */
  function Or(a: string, b: string): string { if a != [] then a else b }

  // ---------------------------------------------------------------------------
  // scrapeArticleContent

  /** The `i`-th content selector is the first whose text is long enough. */
  predicate FirstLongAt(text: string -> string, i: nat)
  {
    && i < |ContentSelectors|
    && |text(ContentSelectors[i])| > MinArticleText
    && forall j :: 0 <= j < i ==> |text(ContentSelectors[j])| <= MinArticleText
  }

  /** The cascade from the `i`-th content selector on: the index of the
      first selector whose text is long enough. */
  function FirstLongIndex(text: string -> string, i: nat): Option<nat>
    decreases |ContentSelectors| - i
  {
    if i >= |ContentSelectors| then None
    else if |text(ContentSelectors[i])| > MinArticleText then Some(i)
    else FirstLongIndex(text, i + 1)
  }

  /** What `scrapeArticleContent(url)` returns (`None` is `null`). */
  function ArticleContent(web: Web, url: string): Option<string>
  {
    match web.article(url)
    case None => None
    case Some(text) =>
      match FirstLongIndex(text, 0)
      case None => None
      case Some(i) => Some(CleanText(text(ContentSelectors[i])))
  }

  /** `scrapeArticleContent`: the early-return loop over the content selectors. */
  method ScrapeArticleContent(web: Web, url: string) returns (content: Option<string>)
    ensures content == ArticleContent(web, url)
  {
    var page := web.article(url);
    if page.None? {
      return None;
    }
    var text := page.value;
    for i := 0 to |ContentSelectors|
      invariant FirstLongIndex(text, i) == FirstLongIndex(text, 0)
    {
      var candidate := text(ContentSelectors[i]);
      if |candidate| > MinArticleText {
        return Some(CleanText(candidate));
      }
    }
    return None;
  }

  lemma {:induction false} FirstLongIndexSkips(text: string -> string, i: nat, k: nat)
    requires i <= k <= |ContentSelectors|
    requires forall j :: i <= j < k ==> |text(ContentSelectors[j])| <= MinArticleText
    ensures FirstLongIndex(text, i) == FirstLongIndex(text, k)
    decreases k - i
  {
    if i < k {
      FirstLongIndexSkips(text, i + 1, k);
    }
  }

  /** The first candidate longer than 200 characters wins, cleaned; the length
      is judged on the raw text, so the result may be shorter once cleaned.
      A failed fetch or no long candidate gives `null`. */
  lemma {:induction false} ArticleContentCases(web: Web, url: string)
    ensures web.article(url).None? ==> ArticleContent(web, url) == None
    ensures forall i: nat :: web.article(url).Some? && FirstLongAt(web.article(url).value, i)
              ==> ArticleContent(web, url) == Some(CleanText(web.article(url).value(ContentSelectors[i])))
    ensures web.article(url).Some?
            && (forall j :: 0 <= j < |ContentSelectors| ==> |web.article(url).value(ContentSelectors[j])| <= MinArticleText)
            ==> ArticleContent(web, url) == None
  {
    if web.article(url).Some? {
      var text := web.article(url).value;
      forall i: nat | FirstLongAt(text, i)
        ensures FirstLongIndex(text, 0) == Some(i)
      {
        FirstLongIndexSkips(text, 0, i);
      }
      if forall j :: 0 <= j < |ContentSelectors| ==> |text(ContentSelectors[j])| <= MinArticleText {
        FirstLongIndexSkips(text, 0, |ContentSelectors|);
      }
    }
  }

  // ---------------------------------------------------------------------------
  // scrapeRSS

  /** `new Date(item.pubDate || item.isoDate)`. */
  function FeedPubDate(web: Web, item: FeedItem): Option<int>
  {
    web.parseDate(Or(item.pubDate, item.isoDate))
  }

  /** `cleanText(item.contentSnippet || item.content || '')`. */
  function FeedContent(item: FeedItem): string
  {
    CleanText(Or(Or(item.contentSnippet, item.content), ""))
  }

  /** `(now - pubDate) / 3600000 <= hours`, on whole milliseconds. An Invalid
      Date makes the difference NaN, and every comparison with NaN fails. */
  predicate WithinWindow(pub: Option<int>, now: int, windowMs: int)
  {
    pub.Some? && now - pub.value <= windowMs
  }

  /** The article the loop body of `scrapeRSS` pushes for one entry, if any. */
  function FeedArticle(source: Source, web: Web, now: int, item: FeedItem): Option<RawArticle>
  {
    var pub := FeedPubDate(web, item);
    if !WithinWindow(pub, now, FeedWindowMs) then None
    else
      var article := RawArticle(CleanText(item.title), FeedContent(item), item.link, pub.value,
                                source.name, source.category, "");
      if |article.content| < ShortContent then
        match ArticleContent(web, item.link)
        case Some(full) => if full != "" then Some(article.(content := full)) else Some(article)
        case None => Some(article)
      else Some(article)
  }

  /** An entry is kept exactly when its date is within the window; the kept
      article carries the entry's cleaned title, its link and date and the
      source's labels; its content is the cleaned feed content unless that is
      shorter than 100 characters and the article page yields a non-empty text. */
  lemma {:induction false} FeedArticleCases(source: Source, web: Web, now: int, item: FeedItem)
    ensures var r := FeedArticle(source, web, now, item);
      r.Some? <==> WithinWindow(FeedPubDate(web, item), now, FeedWindowMs)
    ensures var r := FeedArticle(source, web, now, item);
      r.Some? ==>
        && r.value.title == CleanText(item.title)
        && r.value.url == item.link
        && r.value.timestamp == FeedPubDate(web, item).value
        && r.value.source == source.name
        && r.value.category == source.category
        && r.value.tldr == ""
    ensures var r := FeedArticle(source, web, now, item);
      r.Some? && |FeedContent(item)| >= ShortContent ==> r.value.content == FeedContent(item)
    ensures var r := FeedArticle(source, web, now, item);
      r.Some? && r.value.content != FeedContent(item) ==>
        |FeedContent(item)| < ShortContent && ArticleContent(web, item.link) == Some(r.value.content) && r.value.content != ""
    ensures var r := FeedArticle(source, web, now, item);
      var full := ArticleContent(web, item.link);
      r.Some? && |FeedContent(item)| < ShortContent && full.Some? && full.value != "" ==> r.value.content == full.value
  {
  }

  function FeedStep(source: Source, web: Web, now: int): FeedItem -> Option<RawArticle>
  {
    item => FeedArticle(source, web, now, item)
  }

  /** What `scrapeRSS(source)` returns. */
  function RssArticles(source: Source, web: Web, now: int): seq<RawArticle>
  {
    match web.feed(source.url)
    case None => []
    case Some(items) => FilterMap(FeedStep(source, web, now), Take(items, MaxItems))
  }

  /** The body of the entry loop of `scrapeRSS`: the date test, the article
      built from the entry and, for short content, the awaited enrichment. */
  method ScrapeFeedItem(source: Source, web: Web, now: int, item: FeedItem) returns (article: Option<RawArticle>)
    ensures article == FeedArticle(source, web, now, item)
  {
    var pubDate := web.parseDate(Or(item.pubDate, item.isoDate));
    if !(pubDate.Some? && now - pubDate.value <= FeedWindowMs) {
      return None;
    }
    var built := RawArticle(CleanText(item.title), CleanText(Or(Or(item.contentSnippet, item.content), "")),
                            item.link, pubDate.value, source.name, source.category, "");
    if |built.content| < ShortContent {
      var fullContent := ScrapeArticleContent(web, item.link);
      if fullContent.Some? && fullContent.value != "" {
        built := built.(content := fullContent.value);
      }
    }
    return Some(built);
  }

  /** The entry loop of `scrapeRSS`, over the entries it is given. */
  method ScrapeFeedItems(source: Source, web: Web, now: int, items: seq<FeedItem>) returns (articles: seq<RawArticle>)
    ensures articles == FilterMap(FeedStep(source, web, now), items)
  {
    articles := [];
    for k := 0 to |items|
      invariant articles == FilterMap(FeedStep(source, web, now), items[..k])
    {
      var article := ScrapeFeedItem(source, web, now, items[k]);
      if article.Some? {
        articles := articles + [article.value];
      }
      FilterMapStep(FeedStep(source, web, now), items, k);
    }
    FilterMapWhole(FeedStep(source, web, now), items);
  }

  /** `scrapeRSS`: the first ten entries of the parsed feed. */
  method ScrapeRss(source: Source, web: Web, now: int) returns (articles: seq<RawArticle>)
    ensures articles == RssArticles(source, web, now)
  {
    var feed := web.feed(source.url);
    if feed.None? {
      return [];
    }
    articles := ScrapeFeedItems(source, web, now, Take(feed.value, MaxItems));
  }

  /** The feed path keeps at most ten articles, each from one of the first ten
      entries, within the 168-hour window and labelled with the source; every
      entry among the first ten that is within the window is kept; a feed that
      cannot be parsed gives nothing. */
  lemma {:induction false} RssArticlesProperties(source: Source, web: Web, now: int)
    ensures web.feed(source.url).None? ==> RssArticles(source, web, now) == []
    ensures |RssArticles(source, web, now)| <= MaxItems
    ensures forall a <- RssArticles(source, web, now) ::
      now - a.timestamp <= FeedWindowMs && a.source == source.name && a.category == source.category
    ensures forall a <- RssArticles(source, web, now) ::
      exists i :: 0 <= i < Min(MaxItems, |web.feed(source.url).value|)
        && FeedArticle(source, web, now, web.feed(source.url).value[i]) == Some(a)
    ensures forall i :: (web.feed(source.url).Some? && 0 <= i < Min(MaxItems, |web.feed(source.url).value|)
                          && WithinWindow(FeedPubDate(web, web.feed(source.url).value[i]), now, FeedWindowMs))
                         ==> FeedArticle(source, web, now, web.feed(source.url).value[i]).value in RssArticles(source, web, now)
  {
    if web.feed(source.url).Some? {
      var items := Take(web.feed(source.url).value, MaxItems);
      var f := FeedStep(source, web, now);
      FilterMapSound(f, items);
      forall a <- RssArticles(source, web, now)
        ensures now - a.timestamp <= FeedWindowMs && a.source == source.name && a.category == source.category
      {
        var i :| 0 <= i < |items| && f(items[i]) == Some(a);
        FeedArticleCases(source, web, now, items[i]);
      }
      forall i | 0 <= i < |items| && WithinWindow(FeedPubDate(web, items[i]), now, FeedWindowMs)
        ensures FeedArticle(source, web, now, items[i]).value in RssArticles(source, web, now)
      {
        FeedArticleCases(source, web, now, items[i]);
        FilterMapComplete(f, items, i);
      }
    }
  }

  // ---------------------------------------------------------------------------
  // scrapeWebPage

  /** `this.parseDate(dateText) || new Date()`: `null` becomes now. */
  function PageDate(web: Web, now: int, dateText: string): JsDate
  {
    match ParsedDate(dateText, web.matchFormat, web.parseDate)
    case Null => Valid(now)
    case Invalid => Invalid
    case Valid(t) => Valid(t)
  }

  /** The article the `each` callback of `scrapeWebPage` pushes for one
      element, if any. */
  function PageArticle(source: Source, web: Web, now: int, el: PageElement): Option<RawArticle>
  {
    var title := CleanText(el.titleText);
    var link := el.href;
    var content := CleanText(el.contentText);
    if title == "" || link == "" then None
    else
      match PageDate(web, now, el.dateText)
      case Valid(t) =>
        if now - t <= PageWindowMs then
          Some(RawArticle(title, content, ResolveUrl(link, source.url, web.resolve), t, source.name, source.category, ""))
        else None
      case _ => None
  }

  /** An element is kept exactly when its cleaned title and its link are
      non-empty and its date, parsed or now, is within the 24-hour window. A
      kept element's link is resolved against the source; an element without
      date text is stamped now; one whose date is an Invalid Date is dropped. */
  lemma {:induction false} PageArticleCases(source: Source, web: Web, now: int, el: PageElement)
    ensures var r := PageArticle(source, web, now, el);
      r.Some? ==>
        && r.value.title == CleanText(el.titleText) && r.value.title != ""
        && el.href != ""
        && r.value.url == ResolveUrl(el.href, source.url, web.resolve)
        && r.value.content == CleanText(el.contentText)
        && PageDate(web, now, el.dateText) == Valid(r.value.timestamp)
        && now - r.value.timestamp <= PageWindowMs
        && r.value.source == source.name && r.value.category == source.category && r.value.tldr == ""
    ensures var r := PageArticle(source, web, now, el);
      CleanText(el.titleText) != "" && el.href != "" && el.dateText == "" ==> r.Some? && r.value.timestamp == now
    ensures PageDate(web, now, el.dateText) == Invalid ==> PageArticle(source, web, now, el).None?
    ensures PageArticle(source, web, now, el).Some? <==>
      && CleanText(el.titleText) != "" && el.href != ""
      && PageDate(web, now, el.dateText).Valid?
      && now - PageDate(web, now, el.dateText).time <= PageWindowMs
  {
  }

  function PageStep(source: Source, web: Web, now: int): PageElement -> Option<RawArticle>
  {
    el => PageArticle(source, web, now, el)
  }

  /** The index of the first page selector, from `i` on, that matches something. */
  function FirstMatchingSelector(query: string -> seq<PageElement>, i: nat): (r: Option<nat>)
    ensures r.Some? ==> (i <= r.value < |PageSelectors| && |query(PageSelectors[r.value])| > 0
                         && forall j :: i <= j < r.value ==> |query(PageSelectors[j])| == 0)
    ensures r.None? ==> forall j :: i <= j < |PageSelectors| ==> |query(PageSelectors[j])| == 0
    decreases |PageSelectors| - i
  {
    if i >= |PageSelectors| then None
    else if |query(PageSelectors[i])| > 0 then Some(i)
    else FirstMatchingSelector(query, i + 1)
  }

  /** The articles taken from a fetched page whose selector query is `query`. */
  function SelectPageArticles(source: Source, web: Web, now: int, query: string -> seq<PageElement>): seq<RawArticle>
  {
    match FirstMatchingSelector(query, 0)
    case None => []
    case Some(i) => FilterMap(PageStep(source, web, now), Take(query(PageSelectors[i]), MaxItems))
  }

  /** What `scrapeWebPage(source)` returns. */
  function PageArticles(source: Source, web: Web, now: int): seq<RawArticle>
  {
    match web.page(source.url)
    case None => []
    case Some(query) => SelectPageArticles(source, web, now, query)
  }

  /** The body of the `each` callback of `scrapeWebPage`. */
  method ScrapePageElement(source: Source, web: Web, now: int, el: PageElement) returns (article: Option<RawArticle>)
    ensures article == PageArticle(source, web, now, el)
  {
    var title := CleanText(el.titleText);
    var link := el.href;
    var content := CleanText(el.contentText);
    if title == "" || link == "" {
      return None;
    }
    var parsed := ParseDate(el.dateText, web.matchFormat, web.parseDate);
    var pubDate := if parsed == Null then Valid(now) else parsed;
    if pubDate.Valid? && now - pubDate.time <= PageWindowMs {
      return Some(RawArticle(title, content, ResolveUrl(link, source.url, web.resolve),
                             pubDate.time, source.name, source.category, ""));
    }
    return None;
  }

  /** The loop over the elements a selector matched, as far as it is given them. */
  method ScrapeElements(source: Source, web: Web, now: int, examined: seq<PageElement>) returns (articles: seq<RawArticle>)
    ensures articles == FilterMap(PageStep(source, web, now), examined)
  {
    articles := [];
    for e := 0 to |examined|
      invariant articles == FilterMap(PageStep(source, web, now), examined[..e])
    {
      var article := ScrapePageElement(source, web, now, examined[e]);
      if article.Some? {
        articles := articles + [article.value];
      }
      FilterMapStep(PageStep(source, web, now), examined, e);
    }
    FilterMapWhole(PageStep(source, web, now), examined);
  }

  /** `scrapeWebPage`: the selector loop with its `foundArticles` flag and
      its `break` after the first selector that matches anything. */
  method ScrapeWebPage(source: Source, web: Web, now: int) returns (articles: seq<RawArticle>)
    ensures articles == PageArticles(source, web, now)
  {
    var page := web.page(source.url);
    if page.None? {
      return [];
    }
    var query := page.value;
    articles := [];
    var foundArticles := false;
    for s := 0 to |PageSelectors|
      invariant !foundArticles && articles == []
      invariant FirstMatchingSelector(query, s) == FirstMatchingSelector(query, 0)
    {
      var elements := query(PageSelectors[s]);
      if |elements| > 0 {
        foundArticles := true;
        articles := ScrapeElements(source, web, now, Take(elements, MaxItems));
        break;
      }
    }
  }

  /** The page path keeps at most ten articles, each with a non-empty title and
      link and within the 24-hour window; a page that cannot be fetched, or on
      which no selector matches, gives nothing. */
  lemma {:induction false} PageArticlesProperties(source: Source, web: Web, now: int)
    ensures web.page(source.url).None? ==> PageArticles(source, web, now) == []
    ensures web.page(source.url).Some?
            && (forall j :: 0 <= j < |PageSelectors| ==> |web.page(source.url).value(PageSelectors[j])| == 0)
            ==> PageArticles(source, web, now) == []
    ensures |PageArticles(source, web, now)| <= MaxItems
    ensures forall a <- PageArticles(source, web, now) ::
      a.title != "" && now - a.timestamp <= PageWindowMs && a.source == source.name && a.category == source.category
  {
    if web.page(source.url).Some? {
      var query := web.page(source.url).value;
      match FirstMatchingSelector(query, 0)
      case None =>
      case Some(i) =>
        var f := PageStep(source, web, now);
        var examined := Take(query(PageSelectors[i]), MaxItems);
        FilterMapSound(f, examined);
        forall a <- PageArticles(source, web, now)
          ensures a.title != "" && now - a.timestamp <= PageWindowMs && a.source == source.name && a.category == source.category
        {
          var k :| 0 <= k < |examined| && f(examined[k]) == Some(a);
          PageArticleCases(source, web, now, examined[k]);
        }
    }
  }

  /** Where the page articles come from: every article is what the `each`
      callback makes of one of the first ten elements of the first selector
      that matches, an element with a non-empty `href`; and every such
      element that the callback keeps gives an article. */
  lemma {:induction false} PageArticlesOrigin(source: Source, web: Web, now: int)
    ensures web.page(source.url).Some? ==>
      var q := web.page(source.url).value;
      var m := FirstMatchingSelector(q, 0);
      forall a <- PageArticles(source, web, now) ::
        && m.Some?
        && exists k :: 0 <= k < Min(MaxItems, |q(PageSelectors[m.value])|)
             && PageArticle(source, web, now, q(PageSelectors[m.value])[k]) == Some(a)
             && q(PageSelectors[m.value])[k].href != ""
    ensures web.page(source.url).Some? ==>
      var q := web.page(source.url).value;
      var m := FirstMatchingSelector(q, 0);
      m.Some? ==>
        forall k :: 0 <= k < Min(MaxItems, |q(PageSelectors[m.value])|)
                    && PageArticle(source, web, now, q(PageSelectors[m.value])[k]).Some? ==>
          PageArticle(source, web, now, q(PageSelectors[m.value])[k]).value in PageArticles(source, web, now)
  {
    if web.page(source.url).Some? {
      var q := web.page(source.url).value;
      match FirstMatchingSelector(q, 0)
      case None =>
      case Some(i) =>
        var f := PageStep(source, web, now);
        var elements := q(PageSelectors[i]);
        var examined := Take(elements, MaxItems);
        FilterMapSound(f, examined);
        forall a <- PageArticles(source, web, now)
          ensures exists k :: 0 <= k < Min(MaxItems, |elements|)
                    && PageArticle(source, web, now, elements[k]) == Some(a)
                    && elements[k].href != ""
        {
          var k :| 0 <= k < |examined| && f(examined[k]) == Some(a);
          assert examined[k] == elements[k];
          PageArticleCases(source, web, now, elements[k]);
        }
        forall k | 0 <= k < Min(MaxItems, |elements|) && PageArticle(source, web, now, elements[k]).Some?
          ensures PageArticle(source, web, now, elements[k]).value in PageArticles(source, web, now)
        {
          assert examined[k] == elements[k];
          FilterMapComplete(f, examined, k);
        }
    }
  }

  /** First match wins: once a selector matches, the selectors after it are
      never consulted, so two pages that agree up to and including that
      selector give the same articles. */
  lemma {:induction false} PageIgnoresLaterSelectors(source: Source, web: Web, now: int,
                                  q1: string -> seq<PageElement>, q2: string -> seq<PageElement>, i: nat)
    requires FirstMatchingSelector(q1, 0) == Some(i)
    requires forall j :: 0 <= j <= i ==> q1(PageSelectors[j]) == q2(PageSelectors[j])
    ensures SelectPageArticles(source, web, now, q1) == SelectPageArticles(source, web, now, q2)
  {
    FirstMatchingAgree(q1, q2, 0, i);
  }

  lemma {:induction false} FirstMatchingAgree(q1: string -> seq<PageElement>, q2: string -> seq<PageElement>, k: nat, i: nat)
    requires k <= i && FirstMatchingSelector(q1, k) == Some(i)
    requires forall j :: k <= j <= i ==> q1(PageSelectors[j]) == q2(PageSelectors[j])
    ensures FirstMatchingSelector(q2, k) == Some(i)
    decreases i - k
  {
    if k < i {
      FirstMatchingAgree(q1, q2, k + 1, i);
    }
  }

  // ---------------------------------------------------------------------------
  // scrapeSource and scrapeAllSources

  /** What `scrapeSource(source)` returns. */
  function SourceArticles(source: Source, web: Web, now: int): seq<RawArticle>
  {
    if source.kind == "rss" then RssArticles(source, web, now) else PageArticles(source, web, now)
  }

  /** `scrapeSource`: the feed path exactly for type `rss`, the page path for
      every other type. Both paths turn their own failures into `[]`. */
  method ScrapeSource(source: Source, web: Web, now: int) returns (articles: seq<RawArticle>)
    ensures source.kind == "rss" ==> articles == RssArticles(source, web, now)
    ensures source.kind != "rss" ==> articles == PageArticles(source, web, now)
    ensures articles == SourceArticles(source, web, now)
  {
    if source.kind == "rss" {
      articles := ScrapeRss(source, web, now);
    } else {
      articles := ScrapeWebPage(source, web, now);
    }
  }

  /** One entry of the array `Promise.allSettled` resolves to. */
  datatype Settled = Fulfilled(value: seq<RawArticle>) | Rejected(reason: string)

  /** What one settled result adds to the list. */
  function Contributed(result: Settled): seq<RawArticle>
  {
    match result
    case Fulfilled(articles) => articles
    case Rejected(_) => []
  }

  /** What each settled result adds to the list, in order. */
  function Contributions(results: seq<Settled>): seq<seq<RawArticle>>
  {
    seq(|results|, i requires 0 <= i < |results| => Contributed(results[i]))
  }

  /** The concatenation, in order, of the articles of the fulfilled results. */
  function ConcatSettled(results: seq<Settled>): seq<RawArticle>
  {
    Flatten(Contributions(results))
  }

  /** The `forEach` of `scrapeAllSources` that pushes each fulfilled list. */
  method CollectSettled(results: seq<Settled>) returns (allNews: seq<RawArticle>)
    ensures allNews == ConcatSettled(results)
  {
    ghost var parts := Contributions(results);
    allNews := [];
    for i := 0 to |results|
      invariant allNews == Flatten(parts[..i])
    {
      if results[i].Fulfilled? {
        allNews := allNews + results[i].value;
      }
      assert parts[..i + 1] == parts[..i] + [parts[i]];
      FlattenAppend(parts[..i], [parts[i]]);
      assert Flatten([parts[i]]) == parts[i] by {
        assert [parts[i]][1..] == [];
      }
    }
    assert parts[..|results|] == parts;
  }

  /** The settled results of `sources.map(scrapeSource)`: `scrapeSource`
      catches everything, so its promise is always fulfilled. */
  function Settle(sources: seq<Source>, web: Web, now: int): seq<Settled>
  {
    Map(SettleOne(web, now), sources)
  }

  /** The settled result of one source's promise. */
  function SettleOne(web: Web, now: int): Source -> Settled
  {
    source => Fulfilled(SourceArticles(source, web, now))
  }

  /** `Promise.allSettled(sources.map(source => this.scrapeSource(source)))`,
      one source after the other. */
  method SettleSources(sources: seq<Source>, web: Web, now: int) returns (results: seq<Settled>)
    ensures results == Settle(sources, web, now)
  {
    results := [];
    for i := 0 to |sources|
      invariant results == Settle(sources[..i], web, now)
    {
      var articles := ScrapeSource(sources[i], web, now);
      results := results + [Fulfilled(articles)];
      MapStep(SettleOne(web, now), sources, i);
    }
    assert sources[..|sources|] == sources;
  }

  /** `scrapeAllSources(sources)`. */
  method ScrapeAllSources(sources: seq<Source>, web: Web, now: int) returns (allNews: seq<RawArticle>)
    ensures allNews == ConcatSettled(Settle(sources, web, now))
  {
    var results := SettleSources(sources, web, now);
    allNews := CollectSettled(results);
  }

  /** Source `i`'s articles sit, as one block, between those of the sources
      before it and those of the sources after it. */
  lemma {:induction false} ConcatSettledSplit(results: seq<Settled>, i: nat)
    requires i < |results|
    ensures ConcatSettled(results)
         == ConcatSettled(results[..i]) + Contributed(results[i]) + ConcatSettled(results[i + 1..])
  {
    var parts := Contributions(results);
    FlattenSplit(parts, i);
    assert parts[..i] == Contributions(results[..i]);
    assert parts[i + 1..] == Contributions(results[i + 1..]);
  }

  /** A rejected source contributes nothing and takes nothing away from the
      others: the list loses exactly that source's own articles. */
  lemma {:induction false} RejectedSourceIsolated(results: seq<Settled>, i: nat, reason: string)
    requires i < |results|
    ensures ConcatSettled(results[i := Rejected(reason)])
         == ConcatSettled(results[..i]) + ConcatSettled(results[i + 1..])
    ensures |ConcatSettled(results[i := Rejected(reason)])|
         == |ConcatSettled(results)| - |Contributed(results[i])|
  {
    var failed := results[i := Rejected(reason)];
    ConcatSettledSplit(results, i);
    ConcatSettledSplit(failed, i);
    assert failed[..i] == results[..i];
    assert failed[i + 1..] == results[i + 1..];
  }
}
