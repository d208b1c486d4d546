# Cyber news aggregator — a Dafny model

The aggregator periodically scrapes a fixed registry of cyber-security news
sources (RSS feeds and HTML pages). It cleans the scraped articles and groups
articles with the same headline into one story. The more sources report a
story, the higher its confidence label. Stories are sorted by confidence and
then by recency, and kept in an in-memory cache that two JSON endpoints
serve. This project models that core and proves its properties:

- `seqs.dfy` (`Seqs`): generic sequence tools, such as `Option`, the
  filter-map that the item and element loops are, subsequences and
  concatenation.
- `js_text.dfy` (`JsText`): the JavaScript string semantics the code
  relies on:
  - the `\s` and `\w` classes;
  - `toLowerCase`, as far as it affects those classes;
  - `trim`, `split(/\s+/)` and `substring(0, n)`.
- `scraper_text.dfy` (`ScraperText`): `cleanText`, `parseDate` and
  `resolveUrl` of scraper.js.
- `scraper.dfy` (`Scraper`): the methods of `NewsScraper`:
  - `scrapeAllSources`, with its settle-all concatenation;
  - `scrapeSource` dispatch;
  - `scrapeRSS`, `scrapeWebPage` and `scrapeArticleContent`.

  All I/O goes through the `Web` parameter.
- `news_key.dfy` (`NewsKey`): `generateNewsKey`, the grouping key.
- `aggregator.dfy` (`Aggregator`): `calculateConfidence`, `generateTLDR`,
  and `processNews` with its grouping and its stable sort.
- `news_server.dfy` (`NewsServer`):
  - the source registry;
  - the `Server` class holding `newsCache` and `lastScrapeTime`;
  - `scrapeNews`;
  - `/api/news` (filter and limit) and `/api/stats` (counts).

How the model is written:

- Each loop of the source is a `method` with a loop. Its `ensures` ties the
  result to a specification function, and lemmas prove what the source
  promises about that function.
- The outside world is the parameter `web: Web`, a bundle of functions:
  - the parsed feed of a URL;
  - a fetched page as a selector query;
  - the selector texts of an article page;
  - `new Date` of a string;
  - the `parseDate` patterns;
  - `new URL`.

  A request or parse that fails is `None`.
- The clock is the parameter `now`, in milliseconds.
- A missing JavaScript string (`undefined`, `null`) is `""`. This agrees
  with the code wherever the code only tests the value for truthiness. The
  one place where it does more, an RSS entry without a `link`, is listed
  under "Left out".

Three behaviours of the code are easy to miss:

- `cleanText` collapses whitespace before it removes newline runs, so the
  second replace never finds a newline.
- Page articles use a 24-hour window and feed articles a 168-hour one.
- The page branch of `scrapeSource` is never reached by the registry, since
  all five sources are RSS feeds.

The model follows the code in all three.

## Model

| member | source | states |
|---|---|---|
| JsText.Trim | scraper.js:213 | `trim` leaves no `\s` at either end, is empty exactly when the input is all `\s`, and is a contiguous piece of the input |
| JsText.TrimBounds | scraper.js:213 | the trimmed text sits between the input's leading blanks and its trailing blanks, which are all `\s` |
| JsText.Substring0 | scraper.js:214 | `substring(0, n)` is the prefix of length `min(n, length)` |
| ScraperText.CollapseSpaceRuns | scraper.js:211 | `replace(/\s+/g, ' ')`: every remaining space is a blank, no two are adjacent, the result is empty or all space exactly when the input is, and it is never longer than the input |
| ScraperText.CollapseKeepsPieces | scraper.js:211 | only the runs of `\s` change: splitting on them gives the same pieces, in the same order, before and after the collapse |
| ScraperText.CleanTextShape | scraper.js:207-215 | cleaned text: at most 2000 characters, blanks only and never two in a row, no leading blank, no trailing blank unless the 2000 cut left one, and empty exactly when the input is all whitespace |
| ScraperText.CleanTextCut | scraper.js:210-214 | the newline replace changes nothing, so `cleanText` is collapse, trim and cut |
| ScraperText.CleanTextFixpoint | scraper.js:207-215 | an already clean text of at most 2000 characters comes back unchanged |
| ScraperText.CleanTextIdempotent | scraper.js:207-215 | cleaning a cleaned text below the length cap changes nothing |
| ScraperText.CleanTextCutKeepsBlank | scraper.js:210-214 | the cut happens after `trim`, so a 2000-character result can end in a blank; cleaning it again changes it |
| ScraperText.ParseDate | scraper.js:218-244 | the loop over the four patterns computes `ParsedDate` |
| ScraperText.ParsedDateCases | scraper.js:219-240 | `null` exactly for an empty string; the first pattern whose match parses wins; with none, the whole string is parsed |
| ScraperText.DateFromFormatsSkip | scraper.js:230-238 | patterns whose match does not parse are skipped without effect |
| ScraperText.ResolveUrl | scraper.js:247-258 | a URL starting with `http` is kept; a failed resolution keeps the URL; any other result is the resolver's |
| Scraper.ScrapeArticleContent | scraper.js:169-204 | the selector loop returns `ArticleContent`: the cleaned text of the first selector with more than 200 characters, or `null` |
| Scraper.ArticleContentCases | scraper.js:192-202 | a failed fetch gives `null`; the first long selector decides; no long selector gives `null` |
| Scraper.FeedArticleCases | scraper.js:59-91 | an entry is kept exactly when its date is within 168 hours; the kept article carries the cleaned title, link, date and source labels; its content is replaced only when shorter than 100 characters and the article text is non-empty |
| Scraper.ScrapeFeedItem | scraper.js:60-90 | the body of the entry loop returns `FeedArticle`: the date test, the cleaned article and the enrichment of short content |
| Scraper.ScrapeFeedItems | scraper.js:59-92 | the item loop returns the filter-map of the first ten entries |
| Scraper.ScrapeRss | scraper.js:51-99 | `scrapeRSS` returns `RssArticles`, the kept articles of the first ten feed entries |
| Scraper.RssArticlesProperties | scraper.js:51-99 | at most ten articles; each is in the window and labelled with its source; each comes from one of the first ten entries; every such entry that is in the window is present |
| Scraper.PageArticleCases | scraper.js:130-154 | an element is kept exactly when its cleaned title and link are non-empty and its date, parsed or now, is within 24 hours; the article carries the cleaned fields, the URL resolved against the source and the source labels; an unparsable date drops it |
| Scraper.ScrapePageElement | scraper.js:131-151 | the `each` callback returns `PageArticle`: the title and link test, the date or now, and the 24-hour window |
| Scraper.ScrapeElements | scraper.js:130-154 | the element loop returns the filter-map of the examined elements |
| Scraper.ScrapeWebPage | scraper.js:102-166 | the selector loop returns `PageArticles`, the kept articles among the first ten elements of the first selector with any match |
| Scraper.FirstMatchingSelector | scraper.js:125-128 | the first selector with a non-empty match, or none when every selector is empty |
| Scraper.PageArticlesProperties | scraper.js:102-166 | a failed fetch or no matching selector gives `[]`; at most ten articles, each titled, within 24 hours and labelled with its source |
| Scraper.PageArticlesOrigin | scraper.js:125-154 | each page article is what the `each` callback makes of one of the first ten elements of the first matching selector, an element with a non-empty `href`; every such element the callback keeps gives an article |
| Scraper.PageIgnoresLaterSelectors | scraper.js:125-156 | selectors after the first one that matches have no influence |
| Scraper.ScrapeSource | scraper.js:37-48 | type `rss` goes to the feed scraper, anything else to the page scraper |
| Scraper.CollectSettled | scraper.js:20-29 | fulfilled results are concatenated in source order; rejected ones add nothing |
| Scraper.SettleSources | scraper.js:15-18 | every source is scraped and its promise is fulfilled, one result per source in registry order |
| Scraper.ScrapeAllSources | scraper.js:13-34 | all sources are scraped and their articles are concatenated in registry order |
| Scraper.ConcatSettledSplit | scraper.js:20-27 | each source's articles form one block, between those of the sources before it and those after it |
| Scraper.RejectedSourceIsolated | scraper.js:20-27 | a rejected source loses exactly its own articles and leaves the others in place |
| NewsKey.StripNonWord | server.js:287 | the stripped title keeps only word and space characters of the input |
| JsText.LeadingWord | server.js:288 | the first piece: the longest space-free prefix |
| JsText.SplitPieces | server.js:288 | `split(/\s+/)` pieces contain no `\s` and only characters of the input |
| NewsKey.KeyAlphabet | server.js:284-291 | a key consists of lower-case ASCII letters, digits and `_` |
| NewsKey.KeyIsCanonical | server.js:284-291 | the key of a key is itself |
| NewsKey.KeyIgnoresCase | server.js:286 | titles that differ only in letter case get the same key |
| NewsKey.KeyIgnoresPunctuation | server.js:287 | inserting a punctuation character anywhere leaves the key unchanged |
| NewsKey.KeyIgnoresTail | server.js:288-290 | once a title has more than five pieces, appending text leaves its key unchanged |
| NewsKey.SplitPrefix | server.js:288 | appending text changes only the last piece and what follows it |
| NewsKey.LeadingBlankChangesKey | server.js:284-291 | `"a"` has key `a` but `" a"` has key `_a`: a leading blank makes an empty first piece |
| Aggregator.CalculateConfidence | server.js:294-298 | high exactly from 5 sources, medium exactly from 2 to 4, low below 2 |
| Aggregator.ConfidenceMonotone | server.js:294-298 | more sources never lower the confidence |
| Aggregator.BeforeTerminator | server.js:306 | the first fragment of `split(/[.!?]+/)`: the prefix before the first terminator |
| Aggregator.FirstSentenceIsOpeningClause | server.js:306-307 | the first sentence is the opening clause without its surrounding blanks, and contains no terminator |
| Aggregator.TldrShape | server.js:301-313 | every TLDR ends in `.` and has at most 201 characters; an empty content gives the fixed placeholder |
| Aggregator.TldrOfShortSentence | server.js:309-311 | a non-empty first sentence of at most 200 characters, plus a full stop |
| Aggregator.TldrTruncates | server.js:312 | otherwise, the first 150 characters followed by `...` |
| Aggregator.Build | server.js:230-269 | the map and its insertion order list every key exactly once |
| Aggregator.BuildCollects | server.js:230-269 | a key is present exactly when an article has it; its story is the first article's, with one source and one reference per article in arrival order, and the latest timestamp |
| Aggregator.BuildKeys | server.js:230-269 | the story keys are exactly the keys of the input articles |
| Aggregator.StoryOfKey | server.js:233-268 | each story's count matches its references and its confidence matches the count; its title has the story's key; its timestamp is the latest among its articles |
| Aggregator.GroupedCount | server.js:230-272 | there is one story per distinct key among the articles |
| Aggregator.GroupedDistinctKeys | server.js:230-272 | no two stories have titles with the same key |
| Aggregator.GroupedTotal | server.js:230-269 | the source counts of all stories add up to the number of articles |
| Aggregator.GroupedEmpty | server.js:230-272 | there are no stories exactly when there are no articles |
| Aggregator.MergeNeverLowers | server.js:236-250 | merging adds one source and never lowers the timestamp or the confidence |
| Aggregator.SortStories | server.js:275-280 | the sort is a permutation |
| Aggregator.SortSorted | server.js:275-280 | non-increasing by confidence rank, then by timestamp |
| Aggregator.SortStable | server.js:275-280 | stories that compare equal keep their input order, as with the stable `Array.prototype.sort` |
| Aggregator.SortTotal | server.js:275-280 | sorting keeps the total source count |
| Aggregator.ProcessNews | server.js:226-281 | the map-filling loop and the sort equal `SortStories(Grouped(raw))`; the output is sorted, a permutation of the grouped stories, and counts every article once; it is empty exactly when the input is |
| NewsServer.RefreshedCases | server.js:198-223 | the fallback is used exactly when nothing was scraped; otherwise the cache holds the sorted, well-formed stories, counting every scraped article once |
| NewsServer.WithConfidence | server.js:75-76 | the filter keeps only stories of the requested level, taken from the cache |
| NewsServer.WithConfidenceComplete | server.js:75-76 | the filter keeps every story of that level, in cache order |
| NewsServer.SelectNewsSound | server.js:69-80 | the response is a prefix of the filtered pool and a subsequence of the cache; the filter applies unless the level is absent, empty or `all` |
| NewsServer.SelectNewsCount | server.js:69-80 | 50 stories by default, none for a non-numeric limit, `min(n, pool)` for `n >= 0`, and all but the last `-n` for a negative `n` |
| NewsServer.SelectNewsAll | server.js:79 | a limit at least the pool size returns the whole pool |
| NewsServer.StatsAddUp | server.js:98-107 | the high, medium and low counts add up to the total |
| NewsServer.StatsMatchNews | server.js:75-76 | the count for a level equals the size of the unlimited `/api/news` answer for that level |
| NewsServer.Server.ScrapeNews | server.js:198-223 | the cache becomes the fallback when processing gives nothing, else the processed stories; the scrape time becomes now |
| NewsServer.Server.constructor | server.js:25-26 | the server starts with an empty cache, no scrape time, and the five-source registry |

## Left out

- HTTP layer: Express routing, JSON serialisation, the middleware and the
  status-500 handlers are not modelled. The endpoints are functions of the
  query.
- `News` and `CurrentStats` of `Server` are one-line projections of the
  cache, and their properties are stated on `SelectNews` and `CacheStats`.
- Scheduling: the cron job and the start-up scrape are not modelled.
  `scrapeNews` is a method that may be called at any time.
- Concurrency: `Promise.allSettled` runs the sources concurrently. The
  model scrapes them one after another. `scrapeSource` catches every error,
  so no source is rejected. `RejectedSourceIsolated` states what a rejection
  would do.
- Unreachable handlers: the outer `try`/`catch` blocks of `scrapeAllSources`
  and `scrapeNews` guard code that cannot throw on the modelled inputs, so
  their handlers are not modelled.
- Network, RSS parser and DOM: `axios`, `rss-parser` and `cheerio` are
  abstract functions inside `Web`. The page clean-up step (removing
  `script`, `style`, `nav` and the like) is part of the article-text
  function. Request headers and timeouts are not modelled.
- Regular-expression dates: the four date patterns are an abstract
  `matchFormat`, and `new Date` is an abstract `parseDate`. Only the order in
  which they are tried and the empty-input rule are modelled.
- `new URL` is an abstract `resolve`.
- ScraperText.ResolveUrl: the resolver is unconstrained, so the model also
  admits resolved URLs that `new URL(..).href` never returns, such as `""`.
  The contract states only what the branches of `resolveUrl` decide.
- Missing links: an RSS entry without `link` gives an article whose `url`
  is `undefined` (scraper.js:70). Grouping copies it into the story's
  references (server.js:237-240, 260-263), and JSON serialisation then
  drops the field. The same `undefined` is passed to the article fetch
  (scraper.js:79). The model uses `""` for it: the reference carries an
  empty `url`, and the fetch of `""` is answered by `Web`.
- Floating point: the hour differences are compared as integer milliseconds
  (`now - date <= hours * 3600000`), which decides the same way.
- Time: the model takes one clock reading `now` per scrape. The source reads
  `new Date()` again for every item.
- `generateId` (random) is not modelled, and stories carry no `id`.
- `parseInt`: the conversion of the `limit` text is not modelled. The model
  takes its result (`Absent`, an integer or `NaN`). The query
  parameters are single strings; repeated parameters (arrays) are not
  modelled.
- Fallback contents: `fallbackNews` is a constructor parameter. Its
  second sample story says `high` with four sources, which
  `calculateConfidence` would label `medium`, so well-formedness is never
  claimed for the fallback.
- Mutation in place of the grouped story objects is modelled as replacing
  the map entry. No other reference to them exists.
- Confidence: it is an enumeration. The cache only ever holds the three
  levels.
- Source weights: the `weight` field of the registry is never read.
- Logging: `console` output is not modelled.
- Characters: lengths count Unicode scalar values. JavaScript counts UTF-16
  code units, so the two differ for characters outside the Basic
  Multilingual Plane.
- JsText.LowerChar: `toLowerCase` is exact only for the characters whose
  lower case can be a word or space character (ASCII capitals, U+0130,
  U+212A). Every other character is kept unchanged, which can differ from
  JavaScript, but the key strips those characters either way.
