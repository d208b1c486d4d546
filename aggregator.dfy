/** The story aggregation of server.js: `calculateConfidence`,
    `generateTLDR` and `processNews`, which groups the scraped articles by
    their news key, merges each later article of a group into the story its
    first article created, and sorts the stories by confidence and recency. */
module Aggregator {
  import opened Seqs
  import opened JsText
  import opened NewsKey
  import Scraper

  type RawArticle = Scraper.RawArticle

  // ---------------------------------------------------------------------------
  // calculateConfidence

  datatype Confidence = Low | Medium | High

  /** The `confidenceOrder` table of the sort: high 3, medium 2, low 1. */
  function Rank(c: Confidence): nat
  {
    match c
    case High => 3
    case Medium => 2
    case Low => 1
  }

  /** The string a confidence level is stored and compared as. */
  function Name(c: Confidence): string
  {
    match c
    case High => "high"
    case Medium => "medium"
    case Low => "low"
  }

  /** Five or more sources make a story `high`, two to four `medium`, fewer
      `low`. */
  function CalculateConfidence(sourceCount: int): (c: Confidence)
    ensures c == High <==> sourceCount >= 5
    ensures c == Medium <==> 2 <= sourceCount < 5
    ensures c == Low <==> sourceCount < 2
  {
    if sourceCount >= 5 then High
    else if sourceCount >= 2 then Medium
    else Low
  }

  /** More sources never mean less confidence. */
  lemma {:induction false} ConfidenceMonotone(a: int, b: int)
    requires a <= b
    ensures Rank(CalculateConfidence(a)) <= Rank(CalculateConfidence(b))
  {
  }

  // ---------------------------------------------------------------------------
  // generateTLDR

  const NoSummary: string := "No summary available."
  /** The longest first sentence a TLDR keeps whole. */
  const MaxSentence: nat := 200
  /** How much of the content a truncated TLDR keeps. */
  const TruncatedLength: nat := 150

  predicate IsTerminator(c: char) { c == '.' || c == '!' || c == '?' }

  /** `content.split(/[.!?]+/)[0]`: the text before the first terminator. */
  function BeforeTerminator(s: string): (r: string)
    ensures |r| <= |s| && r == s[..|r|]
    ensures forall i :: 0 <= i < |r| ==> !IsTerminator(r[i])
    ensures |r| < |s| ==> IsTerminator(s[|r|])
  {
    if s == [] || IsTerminator(s[0]) then [] else [s[0]] + BeforeTerminator(s[1..])
  }

  /** `sentences[0]?.trim()`. */
  function FirstSentence(content: string): string
  {
    Trim(BeforeTerminator(content))
  }

  /** `generateTLDR(content)`; a missing content is `""`. */
  function GenerateTldr(content: string): (r: string)
  {
    if content == [] then NoSummary
    else
      var first := FirstSentence(content);
      if first != [] && |first| <= MaxSentence then first + "."
      else Substring0(content, TruncatedLength) + "..."
  }

  /** The first sentence is the opening clause of the content, the text
      before its first terminator, without the blanks around it: the clause
      holds no terminator, what precedes the sentence in it is blank, and so
      is what follows. */
  lemma {:induction false} FirstSentenceIsOpeningClause(content: string)
    ensures var f := FirstSentence(content);
      var clause := BeforeTerminator(content);
      var k := LeadingSpaces(clause);
      && clause == content[..|clause|]
      && (|clause| < |content| ==> IsTerminator(content[|clause|]))
      && (forall i :: 0 <= i < |clause| ==> !IsTerminator(clause[i]))
      && k + |f| <= |clause|
      && f == clause[k..k + |f|]
      && (forall i :: 0 <= i < k ==> IsSpace(clause[i]))
      && (forall i :: k + |f| <= i < |clause| ==> IsSpace(clause[i]))
  {
    TrimBounds(BeforeTerminator(content));
  }

  /** Every TLDR ends in a full stop and is at most 201 characters long; an
      empty content has the fixed placeholder. */
  lemma {:induction false} TldrShape(content: string)
    ensures var r := GenerateTldr(content);
      r != [] && r[|r| - 1] == '.' && |r| <= MaxSentence + 1
    ensures content == [] ==> GenerateTldr(content) == NoSummary
  {
  }

  /** A short first sentence is the TLDR, with a full stop added. */
  lemma {:induction false} TldrOfShortSentence(content: string)
    requires FirstSentence(content) != [] && |FirstSentence(content)| <= MaxSentence
    ensures GenerateTldr(content) == FirstSentence(content) + "."
  {
  }

  /** Otherwise the TLDR is the first 150 characters and an ellipsis. */
  lemma {:induction false} TldrTruncates(content: string)
    requires content != []
    requires FirstSentence(content) == [] || |FirstSentence(content)| > MaxSentence
    ensures GenerateTldr(content) == content[..Min(TruncatedLength, |content|)] + "..."
  {
  }

  // ---------------------------------------------------------------------------
  // The stories of processNews

  datatype Reference = Reference(name: string, url: string)

  /** A processed story; the random `id` is not modelled. */
  datatype Story = Story(
    title: string,
    tldr: string,
    content: string,
    confidence: Confidence,
    sources: nat,
    timestamp: int,
    category: string,
    references: seq<Reference>)

  /** The grouping key of an article. */
  function Key(a: RawArticle): string
  {
    NewsKey.NewsKey(a.title)
  }

  function RefOf(a: RawArticle): Reference
  {
    Reference(a.source, a.url)
  }

  /** The story the first article of a key creates. */
  function NewStory(a: RawArticle): Story
  {
    Story(a.title,
          if a.tldr != [] then a.tldr else GenerateTldr(a.content),
          a.content,
          Low,
          1,
          a.timestamp,
          if a.category != [] then a.category else "general",
          [RefOf(a)])
  }

  /** What a later article of the same key does to its story. */
  function Merge(s: Story, a: RawArticle): Story
  {
    var count := s.sources + 1;
    s.(sources := count,
       references := s.references + [RefOf(a)],
       confidence := CalculateConfidence(count),
       timestamp := if a.timestamp > s.timestamp then a.timestamp else s.timestamp)
  }

  /** The `newsMap` of `processNews` with its keys in insertion order, the
      order `Map.prototype.values` yields them in. */
  datatype Groups = Groups(index: map<string, Story>, order: seq<string>)

  predicate Distinct(keys: seq<string>)
  {
    forall i, j :: 0 <= i < j < |keys| ==> keys[i] != keys[j]
  }

  /** The order lists each key of the index exactly once. */
  ghost predicate Consistent(g: Groups)
  {
    Distinct(g.order) && forall k :: k in g.index <==> k in g.order
  }

  /** One turn of the `for (const article of rawNews)` loop. */
  function Step(g: Groups, a: RawArticle): Groups
  {
    var k := Key(a);
    if k in g.index then Groups(g.index[k := Merge(g.index[k], a)], g.order)
    else Groups(g.index[k := NewStory(a)], g.order + [k])
  }

  lemma {:induction false} StepConsistent(g: Groups, a: RawArticle)
    requires Consistent(g)
    ensures Consistent(Step(g, a))
  {
    var k := Key(a);
    if k !in g.index {
      var o := g.order + [k];
      forall i, j | 0 <= i < j < |o| ensures o[i] != o[j] {
        if j == |g.order| {
          assert o[i] == g.order[i];
        }
      }
    }
  }

  /** The map after the loop has seen `raw`. */
  function Build(raw: seq<RawArticle>): (g: Groups)
    ensures Consistent(g)
  {
    if raw == [] then Groups(map[], [])
    else
      var g := Build(raw[..|raw| - 1]);
      StepConsistent(g, raw[|raw| - 1]);
      Step(g, raw[|raw| - 1])
  }

  /** `Array.from(newsMap.values())`. */
  function Values(index: map<string, Story>, keys: seq<string>): (r: seq<Story>)
    requires forall k <- keys :: k in index
    ensures |r| == |keys|
    ensures forall i :: 0 <= i < |keys| ==> r[i] == index[keys[i]]
  {
    if keys == [] then [] else [index[keys[0]]] + Values(index, keys[1..])
  }

  /** The stories before sorting, in order of their keys' first appearance. */
  function Grouped(raw: seq<RawArticle>): seq<Story>
  {
    var g := Build(raw);
    Values(g.index, g.order)
  }

  // ---------------------------------------------------------------------------
  // The reference definition: what each story is made of

  /** The articles with key `k`, in arrival order. */
  function Matching(raw: seq<RawArticle>, k: string): (r: seq<RawArticle>)
    ensures |r| <= |raw|
    ensures forall a <- r :: a in raw && Key(a) == k
  {
    if raw == [] then []
    else
      var init := Matching(raw[..|raw| - 1], k);
      var last := raw[|raw| - 1];
      assert forall a <- init :: a in raw[..|raw| - 1];
      if Key(last) == k then init + [last] else init
  }

  function MaxTimestamp(ms: seq<RawArticle>): int
    requires ms != []
  {
    if |ms| == 1 then ms[0].timestamp
    else
      var m := MaxTimestamp(ms[..|ms| - 1]);
      var t := ms[|ms| - 1].timestamp;
      if t > m then t else m
  }

  lemma {:induction false} MaxTimestampIsMax(ms: seq<RawArticle>)
    requires ms != []
    ensures forall a <- ms :: a.timestamp <= MaxTimestamp(ms)
    ensures exists a <- ms :: a.timestamp == MaxTimestamp(ms)
  {
    var last := ms[|ms| - 1];
    assert last in ms;
    if |ms| == 1 {
      assert forall a <- ms :: a == last;
    } else {
      var init := ms[..|ms| - 1];
      MaxTimestampIsMax(init);
      assert ms == init + [last];
      assert forall a <- ms :: a in init || a == last;
      var w :| w in init && w.timestamp == MaxTimestamp(init);
      assert w in ms;
    }
  }

  function Refs(ms: seq<RawArticle>): (r: seq<Reference>)
    ensures |r| == |ms|
    ensures forall i :: 0 <= i < |ms| ==> r[i] == RefOf(ms[i])
  {
    if ms == [] then [] else Refs(ms[..|ms| - 1]) + [RefOf(ms[|ms| - 1])]
  }

  /** The story the articles `ms` of one key make: the first one's title,
      summary, content and category; one source and one reference per
      article, in arrival order; the latest timestamp. */
  function Collected(ms: seq<RawArticle>): Story
    requires ms != []
  {
    var first := NewStory(ms[0]);
    first.(sources := |ms|,
           confidence := CalculateConfidence(|ms|),
           timestamp := MaxTimestamp(ms),
           references := Refs(ms))
  }

  lemma {:induction false} CollectedSnoc(ms: seq<RawArticle>, a: RawArticle)
    requires ms != []
    ensures Collected(ms + [a]) == Merge(Collected(ms), a)
  {
    var ms' := ms + [a];
    assert ms'[..|ms'| - 1] == ms;
    assert ms'[0] == ms[0];
    assert Refs(ms') == Refs(ms) + [RefOf(a)];
  }

  lemma {:induction false} CollectedSingle(a: RawArticle)
    ensures Collected([a]) == NewStory(a)
  {
    assert Refs([a]) == [RefOf(a)];
  }

  /** Each key of the map holds exactly the story its articles make, and the
      keys of the map are exactly the keys of the input. */
  lemma {:induction false} BuildCollects(raw: seq<RawArticle>, k: string)
    ensures k in Build(raw).index <==> Matching(raw, k) != []
    ensures k in Build(raw).index ==> Build(raw).index[k] == Collected(Matching(raw, k))
  {
    if raw != [] {
      var init := raw[..|raw| - 1];
      var a := raw[|raw| - 1];
      BuildCollects(init, k);
      if Key(a) == k {
        if Matching(init, k) == [] {
          assert Matching(raw, k) == [a];
          CollectedSingle(a);
        } else {
          CollectedSnoc(Matching(init, k), a);
        }
      }
    }
  }

  /** A key is in the map exactly when some article has it. */
  lemma {:induction false} KeyPresent(raw: seq<RawArticle>, k: string)
    ensures k in Build(raw).index <==> exists a <- raw :: Key(a) == k
  {
    BuildCollects(raw, k);
    if exists a <- raw :: Key(a) == k {
      var a :| a in raw && Key(a) == k;
      MatchingComplete(raw, k, a);
    } else if Matching(raw, k) != [] {
      assert Matching(raw, k)[0] in Matching(raw, k);
    }
  }

  /** The keys of the stories are the keys of the input articles. */
  lemma {:induction false} BuildKeys(raw: seq<RawArticle>)
    ensures Build(raw).index.Keys == set a <- raw :: Key(a)
  {
    forall k ensures k in Build(raw).index <==> k in (set a <- raw :: Key(a)) {
      KeyPresent(raw, k);
    }
  }

  lemma {:induction false} MatchingComplete(raw: seq<RawArticle>, k: string, a: RawArticle)
    requires a in raw && Key(a) == k
    ensures a in Matching(raw, k)
  {
    var init := raw[..|raw| - 1];
    if a != raw[|raw| - 1] {
      assert a in init by {
        assert raw == init + [raw[|raw| - 1]];
      }
      MatchingComplete(init, k, a);
    }
  }

  /** A story is well formed: one source per reference, the confidence its
      count calls for, a `sources` count of at least one. */
  predicate WellFormed(s: Story)
  {
    s.sources == |s.references| && s.sources >= 1 && s.confidence == CalculateConfidence(s.sources)
  }

  /** The story of key `k` is well formed, bears `k` as the key of its
      title, and has the latest timestamp of the articles with that key. */
  lemma {:induction false} StoryOfKey(raw: seq<RawArticle>, k: string)
    requires k in Build(raw).index
    ensures var s := Build(raw).index[k];
      && WellFormed(s)
      && NewsKey.NewsKey(s.title) == k
      && (forall a <- raw :: Key(a) == k ==> a.timestamp <= s.timestamp)
      && (exists a <- raw :: Key(a) == k && a.timestamp == s.timestamp)
  {
    BuildCollects(raw, k);
    var ms := Matching(raw, k);
    MaxTimestampIsMax(ms);
    forall a <- raw | Key(a) == k ensures a in ms {
      MatchingComplete(raw, k, a);
    }
    assert ms[0] in ms;
  }

  /** Every story that comes out of the grouping is well formed. */
  lemma {:induction false} GroupedWellFormed(raw: seq<RawArticle>)
    ensures forall s <- Grouped(raw) :: WellFormed(s)
  {
    var g := Build(raw);
    forall s <- Grouped(raw) ensures WellFormed(s) {
      var i :| 0 <= i < |g.order| && Grouped(raw)[i] == s;
      StoryOfKey(raw, g.order[i]);
    }
  }

  /** As many stories as distinct keys among the articles. */
  lemma {:induction false} GroupedCount(raw: seq<RawArticle>)
    ensures |Grouped(raw)| == |set a <- raw :: Key(a)|
  {
    var g := Build(raw);
    DistinctCardinality(g.order);
    BuildKeys(raw);
    assert (set k | k in g.order) == g.index.Keys;
  }

  /** No two stories share the key of their title. */
  lemma {:induction false} GroupedDistinctKeys(raw: seq<RawArticle>)
    ensures forall i, j :: 0 <= i < j < |Grouped(raw)| ==>
      NewsKey.NewsKey(Grouped(raw)[i].title) != NewsKey.NewsKey(Grouped(raw)[j].title)
  {
    var g := Build(raw);
    var r := Grouped(raw);
    forall i, j | 0 <= i < j < |r|
      ensures NewsKey.NewsKey(r[i].title) != NewsKey.NewsKey(r[j].title)
    {
      StoryTitleKey(raw, g.order[i]);
      StoryTitleKey(raw, g.order[j]);
    }
  }

  lemma {:induction false} StoryTitleKey(raw: seq<RawArticle>, k: string)
    requires k in Build(raw).index
    ensures NewsKey.NewsKey(Build(raw).index[k].title) == k
  {
    StoryOfKey(raw, k);
  }

  lemma {:induction false} DistinctCardinality(keys: seq<string>)
    requires Distinct(keys)
    ensures |set k | k in keys| == |keys|
  {
    if keys != [] {
      var init := keys[..|keys| - 1];
      var last := keys[|keys| - 1];
      assert Distinct(init) by {
        forall i, j | 0 <= i < j < |init| ensures init[i] != init[j] {
          assert init[i] == keys[i] && init[j] == keys[j];
        }
      }
      DistinctCardinality(init);
      assert keys == init + [last];
      assert (set k | k in keys) == (set k | k in init) + {last};
      assert last !in (set k | k in init) by {
        forall i | 0 <= i < |init| ensures init[i] != last {
          assert init[i] == keys[i];
        }
      }
    }
  }

  /** Merging an article never lowers a story's count or its timestamp. */
  lemma {:induction false} MergeNeverLowers(s: Story, a: RawArticle)
    ensures Merge(s, a).sources == s.sources + 1
    ensures Merge(s, a).timestamp >= s.timestamp && Merge(s, a).timestamp >= a.timestamp
    ensures Rank(Merge(s, a).confidence) >= Rank(CalculateConfidence(s.sources))
  {
    ConfidenceMonotone(s.sources, s.sources + 1);
  }

  // ---------------------------------------------------------------------------
  // Counting: the sources of all stories add up to the number of articles

  function TotalSources(stories: seq<Story>): nat
  {
    if stories == [] then 0 else stories[0].sources + TotalSources(stories[1..])
  }

  lemma {:induction false} TotalSourcesAppend(a: seq<Story>, b: seq<Story>)
    ensures TotalSources(a + b) == TotalSources(a) + TotalSources(b)
  {
    if a == [] {
      assert a + b == b;
    } else {
      assert (a + b)[1..] == a[1..] + b;
      TotalSourcesAppend(a[1..], b);
    }
  }

  /** Replacing the story of a key listed once changes the total by the
      difference of the two counts. */
  lemma {:induction false} TotalSourcesUpdate(index: map<string, Story>, keys: seq<string>, k: string, s: Story)
    requires forall x <- keys :: x in index
    requires k in index && Distinct(keys)
    ensures forall x <- keys :: x in index[k := s]
    ensures TotalSources(Values(index[k := s], keys))
         == TotalSources(Values(index, keys)) - (if k in keys then index[k].sources else 0)
                                              + (if k in keys then s.sources else 0)
  {
    if keys != [] {
      assert Distinct(keys[1..]) by {
        forall i, j | 0 <= i < j < |keys[1..]| ensures keys[1..][i] != keys[1..][j] {
          assert keys[1..][i] == keys[i + 1] && keys[1..][j] == keys[j + 1];
        }
      }
      TotalSourcesUpdate(index, keys[1..], k, s);
      if keys[0] == k {
        assert k !in keys[1..] by {
          forall j | 0 <= j < |keys[1..]| ensures keys[1..][j] != k {
            assert keys[1..][j] == keys[j + 1];
          }
        }
      }
    }
  }

  /** A key not listed leaves the total alone when it is added to the map. */
  lemma {:induction false} ValuesIgnoreUnlisted(index: map<string, Story>, keys: seq<string>, k: string, s: Story)
    requires forall x <- keys :: x in index
    requires k !in keys
    ensures Values(index[k := s], keys) == Values(index, keys)
  {
  }

  lemma {:induction false} ValuesSnoc(index: map<string, Story>, keys: seq<string>, k: string)
    requires forall x <- keys :: x in index
    requires k in index
    ensures Values(index, keys + [k]) == Values(index, keys) + [index[k]]
  {
  }

  lemma {:induction false} GroupedTotal(raw: seq<RawArticle>)
    ensures TotalSources(Grouped(raw)) == |raw|
  {
    if raw != [] {
      var init := raw[..|raw| - 1];
      var a := raw[|raw| - 1];
      var g := Build(init);
      GroupedTotal(init);
      var k := Key(a);
      if k in g.index {
        TotalSourcesUpdate(g.index, g.order, k, Merge(g.index[k], a));
      } else {
        ValuesIgnoreUnlisted(g.index, g.order, k, NewStory(a));
        ValuesSnoc(g.index[k := NewStory(a)], g.order, k);
        TotalSourcesAppend(Values(g.index, g.order), [NewStory(a)]);
        assert TotalSources([NewStory(a)]) == 1 by {
          assert [NewStory(a)][1..] == [];
        }
      }
    }
  }

  /** There are no stories exactly when there are no articles. */
  lemma {:induction false} GroupedEmpty(raw: seq<RawArticle>)
    ensures Grouped(raw) == [] <==> raw == []
  {
    if raw != [] {
      BuildCollects(raw, Key(raw[|raw| - 1]));
      MatchingComplete(raw, Key(raw[|raw| - 1]), raw[|raw| - 1]);
    }
  }

  // ---------------------------------------------------------------------------
  // The sort: confidence rank first, then the newer story

  /** `a` sorts strictly before `b` under the comparator of `processNews`. */
  predicate Precedes(a: Story, b: Story)
  {
    Rank(a.confidence) > Rank(b.confidence)
    || (Rank(a.confidence) == Rank(b.confidence) && a.timestamp > b.timestamp)
  }

  /** The comparator returns 0: neither story precedes the other. */
  predicate Tied(a: Story, b: Story)
  {
    Rank(a.confidence) == Rank(b.confidence) && a.timestamp == b.timestamp
  }

  predicate Sorted(s: seq<Story>)
  {
    forall i, j :: 0 <= i < j < |s| ==> !Precedes(s[j], s[i])
  }

  /** Insert `x` in front of the first story that does not strictly precede
      it, so that it stays ahead of the stories it ties with. */
  function Insert(x: Story, ys: seq<Story>): (r: seq<Story>)
    ensures |r| == |ys| + 1
    ensures multiset(r) == multiset(ys) + multiset{x}
  {
    if ys == [] then [x]
    else if Precedes(ys[0], x) then
      assert ys == [ys[0]] + ys[1..];
      [ys[0]] + Insert(x, ys[1..])
    else [x] + ys
  }

  /** `Array.prototype.sort` with the comparator of `processNews`, which is
      stable: an insertion sort. */
  function SortStories(s: seq<Story>): (r: seq<Story>)
    ensures multiset(r) == multiset(s)
  {
    if s == [] then []
    else
      assert s == [s[0]] + s[1..];
      Insert(s[0], SortStories(s[1..]))
  }

  lemma {:induction false} InsertSorted(x: Story, ys: seq<Story>)
    requires Sorted(ys)
    ensures Sorted(Insert(x, ys))
  {
    if ys != [] && Precedes(ys[0], x) {
      var tail := ys[1..];
      assert Sorted(tail) by {
        forall i, j | 0 <= i < j < |tail| ensures !Precedes(tail[j], tail[i]) {
          assert tail[i] == ys[i + 1] && tail[j] == ys[j + 1];
        }
      }
      InsertSorted(x, tail);
      var r := Insert(x, ys);
      forall j | 0 < j < |r| ensures !Precedes(r[j], r[0]) {
        assert r[j] in multiset(Insert(x, tail));
        assert r[j] == x || r[j] in multiset(tail);
        if r[j] != x {
          var m :| 0 <= m < |tail| && tail[m] == r[j];
          assert ys[m + 1] == r[j];
        }
      }
    }
  }

  /** The stories come out by non-increasing confidence rank, and by
      non-increasing timestamp within a rank. */
  lemma {:induction false} SortSorted(s: seq<Story>)
    ensures Sorted(SortStories(s))
  {
    if s != [] {
      SortSorted(s[1..]);
      InsertSorted(s[0], SortStories(s[1..]));
    }
  }

  /** The stories that tie with `x`, in order. */
  function TiedWith(s: seq<Story>, x: Story): seq<Story>
  {
    if s == [] then [] else (if Tied(s[0], x) then [s[0]] else []) + TiedWith(s[1..], x)
  }

  lemma {:induction false} InsertStable(y: Story, ys: seq<Story>, x: Story)
    ensures TiedWith(Insert(y, ys), x) == (if Tied(y, x) then [y] else []) + TiedWith(ys, x)
  {
    var r := Insert(y, ys);
    if ys == [] {
      assert r[1..] == [];
    } else if Precedes(ys[0], y) {
      var rest := Insert(y, ys[1..]);
      InsertStable(y, ys[1..], x);
      assert r[0] == ys[0] && r[1..] == rest;
      if Tied(y, x) {
        assert !Tied(ys[0], x);
      }
    } else {
      assert r[0] == y && r[1..] == ys;
    }
  }

  /** The sort is stable: the stories that tie with any given story keep their
      relative order. */
  lemma {:induction false} SortStable(s: seq<Story>, x: Story)
    ensures TiedWith(SortStories(s), x) == TiedWith(s, x)
  {
    if s != [] {
      SortStable(s[1..], x);
      InsertStable(s[0], SortStories(s[1..]), x);
    }
  }

  lemma {:induction false} InsertTotal(x: Story, ys: seq<Story>)
    ensures TotalSources(Insert(x, ys)) == x.sources + TotalSources(ys)
  {
    if ys != [] && Precedes(ys[0], x) {
      InsertTotal(x, ys[1..]);
    }
  }

  lemma {:induction false} SortTotal(s: seq<Story>)
    ensures TotalSources(SortStories(s)) == TotalSources(s)
  {
    if s != [] {
      SortTotal(s[1..]);
      InsertTotal(s[0], SortStories(s[1..]));
    }
  }

  // ---------------------------------------------------------------------------
  // processNews

  /** `processNews(rawNews)`: the loop that fills `newsMap`, creating a story
      for a new key and updating the story of a known key in place, then the
      values in insertion order, sorted. */
  method ProcessNews(rawNews: seq<RawArticle>) returns (stories: seq<Story>)
    ensures stories == SortStories(Grouped(rawNews))
    ensures Sorted(stories)
    ensures multiset(stories) == multiset(Grouped(rawNews))
    ensures TotalSources(stories) == |rawNews|
    ensures stories == [] <==> rawNews == []
  {
    var newsMap: map<string, Story> := map[];
    var keys: seq<string> := [];
    for i := 0 to |rawNews|
      invariant Groups(newsMap, keys) == Build(rawNews[..i])
    {
      var article := rawNews[i];
      var key := NewsKey.NewsKey(article.title);
      if key in newsMap {
        var existing := newsMap[key];
        existing := existing.(sources := existing.sources + 1);
        existing := existing.(references := existing.references + [Reference(article.source, article.url)]);
        existing := existing.(confidence := CalculateConfidence(existing.sources));
        if article.timestamp > existing.timestamp {
          existing := existing.(timestamp := article.timestamp);
        }
        newsMap := newsMap[key := existing];
      } else {
        var processed := Story(article.title,
                               if article.tldr != [] then article.tldr else GenerateTldr(article.content),
                               article.content,
                               Low,
                               1,
                               article.timestamp,
                               if article.category != [] then article.category else "general",
                               [Reference(article.source, article.url)]);
        newsMap := newsMap[key := processed];
        keys := keys + [key];
      }
      PrefixStep(rawNews, i);
    }
    assert rawNews[..|rawNews|] == rawNews;
    var processedArray := Values(newsMap, keys);
    stories := SortStories(processedArray);
    SortSorted(processedArray);
    GroupedTotal(rawNews);
    SortTotal(processedArray);
    GroupedEmpty(rawNews);
  }

  lemma {:induction false} PrefixStep(raw: seq<RawArticle>, i: nat)
    requires i < |raw|
    ensures Build(raw[..i + 1]) == Step(Build(raw[..i]), raw[i])
  {
    assert raw[..i + 1][..i] == raw[..i];
  }
}
