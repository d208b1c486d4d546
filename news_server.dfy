/** The server state of server.js: the source registry, the in-memory
    `newsCache` with its `lastScrapeTime`, `scrapeNews`, which refills the
    cache (falling back to the sample stories when nothing was scraped), and
    the two read-only endpoints `/api/news` and `/api/stats`. */
module NewsServer {
  import opened Seqs
  import opened Aggregator
  import Scraper

  /** The `newsSources` registry: five RSS feeds. Their `weight` is never
      read and is not modelled. */
  const NewsSources: seq<Scraper.Source> := [
    Scraper.Source("Krebs on Security", "https://krebsonsecurity.com/feed/", "rss", "general"),
    Scraper.Source("The Hacker News", "https://feeds.feedburner.com/TheHackersNews", "rss", "general"),
    Scraper.Source("Bleeping Computer", "https://www.bleepingcomputer.com/feed/", "rss", "malware"),
    Scraper.Source("SecurityWeek", "https://www.securityweek.com/rss.xml", "rss", "general"),
    Scraper.Source("CSO Online", "https://www.csoonline.com/index.rss", "rss", "general")
  ]

  /** What one refresh of the cache computes from a scrape: the processed
      stories, as `processNews` returns them. */
  function Processed(raw: seq<Scraper.RawArticle>): seq<Story>
  {
    SortStories(Grouped(raw))
  }

  /** The cache after a refresh: the fallback stories when processing gave
      none, the processed stories otherwise. */
  function Refreshed(raw: seq<Scraper.RawArticle>, fallback: seq<Story>): seq<Story>
  {
    var processed := Processed(raw);
    if processed == [] then fallback else processed
  }

  /** The fallback is used exactly when no article was scraped; otherwise the
      cache holds sorted, well-formed stories that account for every
      scraped article once. */
  lemma {:induction false} RefreshedCases(raw: seq<Scraper.RawArticle>, fallback: seq<Story>)
    ensures raw == [] ==> Refreshed(raw, fallback) == fallback
    ensures raw != [] ==>
      var c := Refreshed(raw, fallback);
      && c == Processed(raw)
      && Sorted(c)
      && (forall s <- c :: WellFormed(s))
      && TotalSources(c) == |raw|
  {
    GroupedEmpty(raw);
    SortSorted(Grouped(raw));
    SortTotal(Grouped(raw));
    GroupedTotal(raw);
    GroupedWellFormed(raw);
    var g := Grouped(raw);
    forall x <- SortStories(g) ensures WellFormed(x) {
      assert x in multiset(SortStories(g));
      assert x in multiset(g);
    }
  }

  // ---------------------------------------------------------------------------
  // /api/news

  /** The `limit` query parameter after `parseInt`: absent (the default of
      50 applies), an integer, or `NaN`. */
  datatype Limit = Absent | Parsed(n: int) | NotANumber

  const DefaultLimit: int := 50

  /** The end index `slice(0, end)` stops at in an array of length `len`;
      `NaN` counts as 0 and a negative end counts from the back. */
  function SliceEnd(len: nat, end: Limit): (e: nat)
    ensures e <= len
  {
    match end
    case Absent => Min(DefaultLimit, len)
    case NotANumber => 0
    case Parsed(n) =>
      if n < 0 then (if len + n < 0 then 0 else len + n)
      else Min(n, len)
  }

  /** Whether the `confidence` query parameter filters: it must be present,
      non-empty and not `all`. An absent parameter is `""`. */
  predicate Filters(confidence: string)
  {
    confidence != "" && confidence != "all"
  }

  /** `stories.filter(n => n.confidence === name)`. */
  function WithConfidence(stories: seq<Story>, name: string): (r: seq<Story>)
    ensures |r| <= |stories|
    ensures forall s <- r :: s in stories && Name(s.confidence) == name
  {
    if stories == [] then []
    else
      var rest := WithConfidence(stories[1..], name);
      assert forall s <- rest :: s in stories;
      (if Name(stories[0].confidence) == name then [stories[0]] else []) + rest
  }

  /** The filter keeps every story of the level, in order. */
  lemma {:induction false} WithConfidenceComplete(stories: seq<Story>, name: string)
    ensures forall s <- stories :: Name(s.confidence) == name ==> s in WithConfidence(stories, name)
    ensures IsSubsequence(WithConfidence(stories, name), stories)
  {
    if stories != [] {
      WithConfidenceComplete(stories[1..], name);
      var rest := WithConfidence(stories[1..], name);
      assert forall s <- stories :: s == stories[0] || s in stories[1..];
      if Name(stories[0].confidence) == name {
        assert ([stories[0]] + rest)[1..] == rest;
      } else {
        assert WithConfidence(stories, name) == rest;
        if rest != [] {
          assert IsSubsequence(rest, stories[1..]);
        }
      }
    }
  }

  /** The stories `/api/news` chooses from. */
  function Pool(cache: seq<Story>, confidence: string): seq<Story>
  {
    if Filters(confidence) then WithConfidence(cache, confidence) else cache
  }

  /** The `data` of a `/api/news` response. */
  function SelectNews(cache: seq<Story>, confidence: string, limit: Limit): seq<Story>
  {
    var pool := Pool(cache, confidence);
    pool[..SliceEnd(|pool|, limit)]
  }

  /** The response is a leading part of the pool, in cache order; when the
      parameter filters, it holds only stories of the requested level, and
      the pool is all stories of that level. */
  lemma {:induction false} SelectNewsSound(cache: seq<Story>, confidence: string, limit: Limit)
    ensures var r := SelectNews(cache, confidence, limit);
      var pool := Pool(cache, confidence);
      && |r| <= |pool| && r == pool[..|r|]
      && IsSubsequence(r, cache)
      && (Filters(confidence) ==> forall s <- r :: Name(s.confidence) == confidence)
      && (Filters(confidence) ==> forall s <- cache :: s in pool <==> Name(s.confidence) == confidence)
      && (!Filters(confidence) ==> pool == cache)
  {
    var pool := Pool(cache, confidence);
    var r := SelectNews(cache, confidence, limit);
    PrefixIsSubsequence(pool, |r|);
    if Filters(confidence) {
      WithConfidenceComplete(cache, confidence);
      SubsequenceTransitive(r, pool, cache);
      assert forall s <- r :: s in pool;
    }
  }

  /** How many stories the response holds: 50 by default, none for `NaN`,
      up to `n` for a non-negative `n`, and all but the last `-n` for a
      negative `n`. */
  lemma {:induction false} SelectNewsCount(cache: seq<Story>, confidence: string, limit: Limit)
    ensures var r := SelectNews(cache, confidence, limit);
      var m := |Pool(cache, confidence)|;
      && (limit.Absent? ==> |r| == Min(DefaultLimit, m))
      && (limit.NotANumber? ==> r == [])
      && (limit.Parsed? && limit.n >= 0 ==> |r| == Min(limit.n, m))
      && (limit.Parsed? && limit.n < 0 ==> |r| + Min(-limit.n, m) == m)
  {
  }

  /** A limit at least the pool's size returns the whole pool. */
  lemma {:induction false} SelectNewsAll(cache: seq<Story>, confidence: string, n: int)
    requires n >= |Pool(cache, confidence)|
    ensures SelectNews(cache, confidence, Parsed(n)) == Pool(cache, confidence)
  {
  }

  /** The body of a `/api/news` response. */
  datatype NewsResponse = NewsResponse(
    data: seq<Story>,
    total: nat,
    lastUpdated: Option<int>,
    sources: nat)

  // ---------------------------------------------------------------------------
  // /api/stats

  datatype Stats = Stats(
    totalNews: nat,
    highConfidence: nat,
    mediumConfidence: nat,
    lowConfidence: nat,
    sources: nat,
    lastUpdated: Option<int>)

  function CacheStats(cache: seq<Story>, sourceCount: nat, lastUpdated: Option<int>): Stats
  {
    Stats(|cache|,
          |WithConfidence(cache, "high")|,
          |WithConfidence(cache, "medium")|,
          |WithConfidence(cache, "low")|,
          sourceCount,
          lastUpdated)
  }

  /** Every story has exactly one of the three levels, so the three counts
      add up to the total. */
  lemma {:induction false} StatsAddUp(cache: seq<Story>, sourceCount: nat, lastUpdated: Option<int>)
    ensures var st := CacheStats(cache, sourceCount, lastUpdated);
      st.highConfidence + st.mediumConfidence + st.lowConfidence == st.totalNews
  {
    if cache != [] {
      StatsAddUp(cache[1..], sourceCount, lastUpdated);
    }
  }

  /** The `/api/stats` counts agree with what `/api/news` returns for a level
      when no limit cuts it short. */
  lemma {:induction false} StatsMatchNews(cache: seq<Story>, c: Confidence, sourceCount: nat, lastUpdated: Option<int>)
    ensures var st := CacheStats(cache, sourceCount, lastUpdated);
      |SelectNews(cache, Name(c), Parsed(|cache|))|
        == (match c
            case High => st.highConfidence
            case Medium => st.mediumConfidence
            case Low => st.lowConfidence)
  {
  }

  // ---------------------------------------------------------------------------
  // The server

  class Server {
    /** `newsCache`: the stories the endpoints serve. */
    var newsCache: seq<Story>
    /** `lastScrapeTime`, in milliseconds; `None` is `null`. */
    var lastScrapeTime: Option<int>
    const newsSources: seq<Scraper.Source>
    /** `fallbackNews`; its contents are not modelled. */
    const fallbackNews: seq<Story>

    /** The empty cache the server starts with. */
    constructor (fallback: seq<Story>)
      ensures newsCache == [] && lastScrapeTime == None
      ensures newsSources == NewsSources && fallbackNews == fallback
    {
      newsCache := [];
      lastScrapeTime := None;
      newsSources := NewsSources;
      fallbackNews := fallback;
    }

    /** `scrapeNews()` at time `now`, with `web` answering every request. */
    method ScrapeNews(web: Scraper.Web, now: int)
      modifies this
      ensures newsCache == Refreshed(Scraper.ConcatSettled(Scraper.Settle(newsSources, web, now)), fallbackNews)
      ensures lastScrapeTime == Some(now)
    {
      var scrapedNews := Scraper.ScrapeAllSources(newsSources, web, now);
      var processedNews := ProcessNews(scrapedNews);
      if |processedNews| == 0 {
        newsCache := fallbackNews;
      } else {
        newsCache := processedNews;
      }
      lastScrapeTime := Some(now);
    }

    /** `GET /api/news?confidence=…&limit=…`. */
    function News(confidence: string, limit: Limit): NewsResponse
      reads this
    {
      NewsResponse(SelectNews(newsCache, confidence, limit), |newsCache|, lastScrapeTime, |newsSources|)
    }

    /** `GET /api/stats`. */
    function CurrentStats(): Stats
      reads this
    {
      CacheStats(newsCache, |newsSources|, lastScrapeTime)
    }
  }
}
