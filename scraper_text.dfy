/** The string helpers of the scraper: `cleanText`, the shape of `parseDate`
    and `resolveUrl` (scraper.js). Date parsing, pattern matching and URL
    resolution are JavaScript library calls; they come in as functions. */
module ScraperText {
  import opened Seqs
  import opened JsText

  /** `cleanText` never returns more than this many characters. */
  const MaxTextLength: nat := 2000

  /** `s.replace(/\s+/g, ' ')`: every maximal run of `\s` becomes one blank. */
  function CollapseSpaceRuns(s: string): (r: string)
    ensures |r| <= |s|
    ensures forall i :: 0 <= i < |r| && IsSpace(r[i]) ==> r[i] == ' '
    ensures forall i :: 0 <= i < |r| - 1 ==> !(IsSpace(r[i]) && IsSpace(r[i + 1]))
    ensures r == [] <==> s == []
    ensures s != [] ==> (IsSpace(r[0]) <==> IsSpace(s[0]))
    ensures (forall i :: 0 <= i < |r| ==> IsSpace(r[i])) <==> (forall i :: 0 <= i < |s| ==> IsSpace(s[i]))
    decreases |s|
  {
    if s == [] then []
    else if IsSpace(s[0]) then
      var rest := CollapseSpaceRuns(TrimStart(s));
      assert rest != [] ==> !IsSpace(rest[0]) && !IsSpace(([' '] + rest)[1]);
      assert (forall i :: 0 <= i < |s| ==> IsSpace(s[i])) <==> rest == [];
      [' '] + rest
    else [s[0]] + CollapseSpaceRuns(s[1..])
  }

  /** A space-free prefix passes through unchanged. */
  lemma {:induction false} CollapseWordPrefix(w: string, x: string)
    requires forall i :: 0 <= i < |w| ==> !IsSpace(w[i])
    ensures CollapseSpaceRuns(w + x) == w + CollapseSpaceRuns(x)
    decreases |w|
  {
    if w == [] {
      assert w + x == x;
    } else {
      var y := w[1..] + x;
      assert w + x == [w[0]] + y;
      CollapseNonSpace(w[0], y);
      CollapseWordPrefix(w[1..], x);
      AppendAssoc([w[0]], w[1..], CollapseSpaceRuns(x));
      assert [w[0]] + w[1..] == w;
    }
  }

  lemma {:induction false} CollapseNonSpace(c: char, y: string)
    requires !IsSpace(c)
    ensures CollapseSpaceRuns([c] + y) == [c] + CollapseSpaceRuns(y)
  {
    assert ([c] + y)[1..] == y;
  }

  /** Collapsing a text that starts with a word: the word, then (when the
      text goes on) one blank and the collapsed rest after the run. */
  lemma {:induction false} CollapseAfterWord(s: string)
    ensures var w := LeadingWord(s);
      |w| == |s| ==> CollapseSpaceRuns(s) == w
    ensures var w := LeadingWord(s);
      |w| < |s| ==> CollapseSpaceRuns(s) == w + [' '] + CollapseSpaceRuns(TrimStart(s[|w|..]))
  {
    var w := LeadingWord(s);
    var x := s[|w|..];
    assert s == w + x;
    CollapseWordPrefix(w, x);
    if |w| == |s| {
      assert x == [];
      assert CollapseSpaceRuns(s) == w + [];
    } else {
      var rest := CollapseSpaceRuns(TrimStart(x));
      assert CollapseSpaceRuns(x) == [' '] + rest;
      AppendAssoc(w, [' '], rest);
    }
  }

  /** Only the runs of `\s` change: splitting on them gives the same pieces,
      in the same order, before and after. */
  lemma {:induction false} CollapseKeepsPieces(s: string)
    ensures SplitOnSpaceRuns(CollapseSpaceRuns(s)) == SplitOnSpaceRuns(s)
    decreases |s|
  {
    var w := LeadingWord(s);
    CollapseAfterWord(s);
    if |w| == |s| {
      LeadingWordOfWord(w, []);
      assert w + [] == w;
    } else {
      var t := TrimStart(s[|w|..]);
      var ct := CollapseSpaceRuns(t);
      assert t == [] || !IsSpace(t[0]);
      SplitWordBlank(w, ct);
      CollapseKeepsPieces(t);
    }
  }

  /** Every `\s` character is a blank. */
  predicate BlanksOnly(s: string)
  {
    forall i :: 0 <= i < |s| && IsSpace(s[i]) ==> s[i] == ' '
  }

  /** No two blanks in a row. */
  predicate NoDoubleBlank(s: string)
  {
    forall i :: 0 <= i < |s| - 1 ==> !(s[i] == ' ' && s[i + 1] == ' ')
  }

  lemma {:induction false} InfixKeepsSpacing(s: string, a: nat, b: nat)
    requires a <= b <= |s| && BlanksOnly(s) && NoDoubleBlank(s)
    ensures BlanksOnly(s[a..b]) && NoDoubleBlank(s[a..b])
  {
    var t := s[a..b];
    forall i | 0 <= i < |t| - 1 ensures !(t[i] == ' ' && t[i + 1] == ' ') {
      assert t[i] == s[a + i] && t[i + 1] == s[a + i + 1];
    }
  }

  /** Drop the leading line feeds. */
  function DropNewlines(s: string): (r: string)
    ensures |r| <= |s|
    ensures s != [] && s[0] == '\n' ==> |r| < |s|
  {
    if s != [] && s[0] == '\n' then DropNewlines(s[1..]) else s
  }

  /** `s.replace(/\n+/g, ' ')`. */
  function ReplaceNewlineRuns(s: string): string
    decreases |s|
  {
    if s == [] then []
    else if s[0] == '\n' then [' '] + ReplaceNewlineRuns(DropNewlines(s))
    else [s[0]] + ReplaceNewlineRuns(s[1..])
  }

  /** The second replacement of `cleanText` finds nothing to do once the first
      has run, because a line feed is a `\s` character. */
  lemma {:induction false} ReplaceNewlineRunsIdentity(s: string)
    requires forall i :: 0 <= i < |s| ==> s[i] != '\n'
    ensures ReplaceNewlineRuns(s) == s
  {
    if s != [] {
      ReplaceNewlineRunsIdentity(s[1..]);
      assert s == [s[0]] + s[1..];
    }
  }

  /** `cleanText(text)` of scraper.js: collapse the `\s` runs, replace the
      line-feed runs, trim, and keep the first `MaxTextLength` characters. A
      missing (`undefined`) text is modelled as the empty string, for which
      both give `''`. */
  function CleanText(text: string): (r: string)
  {
    Substring0(Trim(ReplaceNewlineRuns(CollapseSpaceRuns(text))), MaxTextLength)
  }

  /** The text before the cut: collapsed and trimmed. */
  lemma {:induction false} TrimmedCollapsed(text: string)
    ensures var t := Trim(CollapseSpaceRuns(text));
      && BlanksOnly(t) && NoDoubleBlank(t)
      && (t == [] || (!IsSpace(t[0]) && !IsSpace(t[|t| - 1])))
      && (t == [] <==> forall i :: 0 <= i < |text| ==> IsSpace(text[i]))
  {
    var collapsed := CollapseSpaceRuns(text);
    TrimKeepsSpacing(collapsed);
  }

  lemma {:induction false} TrimKeepsSpacing(s: string)
    requires BlanksOnly(s) && NoDoubleBlank(s)
    ensures BlanksOnly(Trim(s)) && NoDoubleBlank(Trim(s))
  {
    var k := |s| - |TrimStart(s)|;
    InfixKeepsSpacing(s, k, k + |Trim(s)|);
  }

  /** The newline replacement of `cleanText` has nothing left to replace. */
  lemma {:induction false} CleanTextCut(text: string)
    ensures CleanText(text) == Substring0(Trim(CollapseSpaceRuns(text)), MaxTextLength)
  {
    var collapsed := CollapseSpaceRuns(text);
    assert forall i :: 0 <= i < |collapsed| ==> collapsed[i] != '\n' by {
      assert forall i :: 0 <= i < |collapsed| && collapsed[i] == '\n' ==> IsSpace(collapsed[i]);
    }
    ReplaceNewlineRunsIdentity(collapsed);
  }

  /** The shape of a cleaned text: at most `MaxTextLength` characters, blanks
      as its only spacing and never two in a row, no blank in front, none at
      the end unless the cut at `MaxTextLength` left one there; it is empty
      exactly when the input is all `\s`. */
  lemma {:induction false} CleanTextShape(text: string)
    ensures var r := CleanText(text);
      && |r| <= MaxTextLength
      && BlanksOnly(r) && NoDoubleBlank(r)
      && (r == [] || !IsSpace(r[0]))
      && (r == [] <==> forall i :: 0 <= i < |text| ==> IsSpace(text[i]))
      && (|r| < MaxTextLength ==> r == [] || !IsSpace(r[|r| - 1]))
  {
    TrimmedCollapsed(text);
    CleanTextCut(text);
    var t := Trim(CollapseSpaceRuns(text));
    InfixKeepsSpacing(t, 0, |Substring0(t, MaxTextLength)|);
  }

  /** What `cleanText` produces: blanks as the only spacing, never two in a
      row, none at either end, at most `MaxTextLength` characters. */
  predicate IsClean(s: string)
  {
    && |s| <= MaxTextLength
    && BlanksOnly(s) && NoDoubleBlank(s)
    && (s == [] || (!IsSpace(s[0]) && !IsSpace(s[|s| - 1])))
  }

  lemma {:induction false} CollapseSpaceRunsIdentity(s: string)
    requires BlanksOnly(s) && NoDoubleBlank(s)
    ensures CollapseSpaceRuns(s) == s
    decreases |s|
  {
    if s != [] {
      var tail := s[1..];
      InfixKeepsSpacing(s, 1, |s|);
      CollapseSpaceRunsIdentity(tail);
      if IsSpace(s[0]) {
        assert s[0] == ' ';
        if tail != [] {
          assert tail[0] == s[1];
          assert !(s[0] == ' ' && s[1] == ' ');
          assert !IsSpace(tail[0]);
        }
        assert TrimStart(tail) == tail;
        assert TrimStart(s) == tail;
      }
      assert s == [s[0]] + tail;
    }
  }

  /** A text that is already collapsed and has no space at either end is
      only cut to `MaxTextLength` characters. */
  lemma {:induction false} CleanTextOfSpaced(s: string)
    requires BlanksOnly(s) && NoDoubleBlank(s)
    requires s == [] || (!IsSpace(s[0]) && !IsSpace(s[|s| - 1]))
    ensures CleanText(s) == Substring0(s, MaxTextLength)
  {
    CollapseSpaceRunsIdentity(s);
    ReplaceNewlineRunsIdentity(s);
    assert TrimStart(s) == s;
    assert TrimEnd(s) == s;
  }

  /** A clean text is left as it is. */
  lemma {:induction false} CleanTextFixpoint(s: string)
    requires IsClean(s)
    ensures CleanText(s) == s
  {
    CleanTextOfSpaced(s);
  }

  /** Cleaning twice is cleaning once, unless the first result was cut at
      `MaxTextLength` characters (the cut comes after the trim and may end on a
      blank, which a second trim removes; see `CleanTextCutKeepsBlank`). */
  lemma {:induction false} CleanTextIdempotent(text: string)
    requires |CleanText(text)| < MaxTextLength
    ensures CleanText(CleanText(text)) == CleanText(text)
  {
    CleanTextShape(text);
    CleanTextFixpoint(CleanText(text));
  }

  /** A text of 1999 non-space characters, a blank and one more letter: the
      cut at 2000 characters leaves the blank at the end, so a second cleaning
      gives a different text. */
  lemma {:induction false} CleanTextCutKeepsBlank(word: string)
    requires |word| == MaxTextLength - 1
    requires forall i :: 0 <= i < |word| ==> !IsSpace(word[i])
    ensures CleanText(word + " b") == word + " "
    ensures CleanText(word + " ") == word
  {
    var text := word + " b";
    assert BlanksOnly(text) && NoDoubleBlank(text) by {
      assert forall i :: 0 <= i < |text| ==> i == |word| || !IsSpace(text[i]);
    }
    CleanTextOfSpaced(text);
    assert text[..MaxTextLength] == word + " ";
    TrailingBlankTrimmed(word);
  }

  lemma {:induction false} TrailingBlankTrimmed(word: string)
    requires word != [] && forall i :: 0 <= i < |word| ==> !IsSpace(word[i])
    ensures CleanText(word + " ") == Substring0(word, MaxTextLength)
  {
    var once := word + " ";
    assert BlanksOnly(once) && NoDoubleBlank(once) by {
      assert forall i :: 0 <= i < |once| ==> i == |word| || !IsSpace(once[i]);
    }
    CleanTextCut(once);
    CollapseSpaceRunsIdentity(once);
    TrimTrailingBlank(word);
  }

  lemma {:induction false} TrimTrailingBlank(word: string)
    requires word != [] && forall i :: 0 <= i < |word| ==> !IsSpace(word[i])
    ensures Trim(word + " ") == word
  {
    var once := word + " ";
    assert LeadingSpaces(once) == 0 by {
      assert once[0] == word[0];
    }
    assert once[..|once| - 1] == word;
    assert TrailingSpaces(word) == 0;
    assert TrailingSpaces(once) == 1;
  }

  /** The value of `parseDate`: `null`, an Invalid Date, or a valid time in
      milliseconds since the epoch. Both Date kinds are truthy in JavaScript. */
  datatype JsDate = Null | Invalid | Valid(time: int)

  /** The number of patterns `parseDate` tries (ISO, slash, dash, month name). */
  const DateFormatCount: nat := 4

  /** `new Date(s)` as a value: a parse that gives `None` is an Invalid Date. */
  function DateValue(parse: string -> Option<int>, s: string): JsDate
  {
    match parse(s)
    case Some(t) => Valid(t)
    case None => Invalid
  }

  /** The result of trying the patterns from `i` on: `matchFormat(j, s)` is
      the text the `j`-th pattern matches in `s`, `parse` is `new Date`. */
  function DateFromFormats(s: string, matchFormat: (nat, string) -> Option<string>,
                           parse: string -> Option<int>, i: nat): JsDate
    decreases DateFormatCount - i
  {
    if i >= DateFormatCount then DateValue(parse, s)
    else
      match matchFormat(i, s)
      case Some(m) =>
        (match parse(m)
         case Some(t) => Valid(t)
         case None => DateFromFormats(s, matchFormat, parse, i + 1))
      case None => DateFromFormats(s, matchFormat, parse, i + 1)
  }

  /** What `parseDate(dateString)` returns. */
  function ParsedDate(dateString: string, matchFormat: (nat, string) -> Option<string>,
                      parse: string -> Option<int>): JsDate
  {
    if dateString == [] then Null else DateFromFormats(dateString, matchFormat, parse, 0)
  }

  /** The `i`-th pattern yields a valid date. */
  predicate FormatGivesDate(s: string, matchFormat: (nat, string) -> Option<string>,
                            parse: string -> Option<int>, i: nat)
  {
    matchFormat(i, s).Some? && parse(matchFormat(i, s).value).Some?
  }

  /** `parseDate`: empty text gives `null`; otherwise the first pattern whose
      match parses wins, and without one the whole text is parsed. */
  method ParseDate(dateString: string, matchFormat: (nat, string) -> Option<string>,
                   parse: string -> Option<int>) returns (d: JsDate)
    ensures d == ParsedDate(dateString, matchFormat, parse)
  {
    if dateString == [] {
      return Null;
    }
    for i := 0 to DateFormatCount
      invariant DateFromFormats(dateString, matchFormat, parse, i)
             == DateFromFormats(dateString, matchFormat, parse, 0)
    {
      var m := matchFormat(i, dateString);
      if m.Some? {
        var date := parse(m.value);
        if date.Some? {
          return Valid(date.value);
        }
      }
    }
    d := DateValue(parse, dateString);
  }

  /** Only the empty text gives `null`; a text whose `i`-th pattern is the
      first to yield a valid date gives that date; a text no pattern helps
      with gives whatever parsing the whole text gives. */
  lemma {:induction false} ParsedDateCases(s: string, matchFormat: (nat, string) -> Option<string>,
                                           parse: string -> Option<int>)
    ensures ParsedDate(s, matchFormat, parse) == Null <==> s == []
    ensures forall i :: 0 <= i < DateFormatCount && s != [] && FormatGivesDate(s, matchFormat, parse, i)
              && (forall j :: 0 <= j < i ==> !FormatGivesDate(s, matchFormat, parse, j))
              ==> ParsedDate(s, matchFormat, parse) == Valid(parse(matchFormat(i, s).value).value)
    ensures (s != [] && (forall j :: 0 <= j < DateFormatCount ==> !FormatGivesDate(s, matchFormat, parse, j)))
              ==> ParsedDate(s, matchFormat, parse) == DateValue(parse, s)
  {
    if s != [] {
      DateFromFormatsNotNull(s, matchFormat, parse, 0);
      forall i | 0 <= i < DateFormatCount && FormatGivesDate(s, matchFormat, parse, i)
                 && (forall j :: 0 <= j < i ==> !FormatGivesDate(s, matchFormat, parse, j))
        ensures DateFromFormats(s, matchFormat, parse, 0) == Valid(parse(matchFormat(i, s).value).value)
      {
        DateFromFormatsSkip(s, matchFormat, parse, 0, i);
      }
      if forall j :: 0 <= j < DateFormatCount ==> !FormatGivesDate(s, matchFormat, parse, j) {
        DateFromFormatsSkip(s, matchFormat, parse, 0, DateFormatCount);
      }
    }
  }

  lemma {:induction false} DateFromFormatsNotNull(s: string, matchFormat: (nat, string) -> Option<string>,
                                                  parse: string -> Option<int>, i: nat)
    ensures DateFromFormats(s, matchFormat, parse, i) != Null
    decreases DateFormatCount - i
  {
    if i < DateFormatCount {
      DateFromFormatsNotNull(s, matchFormat, parse, i + 1);
    }
  }

  /** Patterns that yield no valid date are passed over. */
  lemma {:induction false} DateFromFormatsSkip(s: string, matchFormat: (nat, string) -> Option<string>,
                                               parse: string -> Option<int>, i: nat, k: nat)
    requires i <= k <= DateFormatCount
    requires forall j :: i <= j < k ==> !FormatGivesDate(s, matchFormat, parse, j)
    ensures DateFromFormats(s, matchFormat, parse, i) == DateFromFormats(s, matchFormat, parse, k)
    decreases k - i
  {
    if i < k {
      assert !FormatGivesDate(s, matchFormat, parse, i);
      DateFromFormatsSkip(s, matchFormat, parse, i + 1, k);
    }
  }

  /** `resolveUrl(url, baseUrl)`: `resolve` stands for
      `new URL(url, new URL(baseUrl).origin).href`, `None` when either
      constructor throws. */
  function ResolveUrl(url: string, baseUrl: string, resolve: (string, string) -> Option<string>): (r: string)
    ensures StartsWith(url, "http") ==> r == url
    ensures resolve(url, baseUrl).None? ==> r == url
    ensures r != url ==> !StartsWith(url, "http") && resolve(url, baseUrl) == Some(r)
  {
    if StartsWith(url, "http") then url
    else
      match resolve(url, baseUrl)
      case Some(href) => href
      case None => url
  }
}
