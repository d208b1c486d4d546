/** `generateNewsKey(title)` of server.js: the grouping key of the
    aggregator. The title is lower-cased, everything that is neither a word
    nor a space character is removed, the rest is split on runs of `\s`, and
    the first five pieces are joined with `_`. */
module NewsKey {
  import opened Seqs
  import opened JsText

  /** `s.replace(/[^\w\s]/g, '')`. */
  function StripNonWord(s: string): (r: string)
    ensures |r| <= |s|
    ensures forall c <- r :: (IsWordChar(c) || IsSpace(c)) && c in s
  {
    if s == [] then []
    else (if IsWordChar(s[0]) || IsSpace(s[0]) then [s[0]] else []) + StripNonWord(s[1..])
  }

  /** `pieces.join('_')`. */
  function JoinUnderscore(pieces: seq<string>): (r: string)
    ensures forall c <- r :: c == '_' || exists t <- pieces :: c in t
  {
    if pieces == [] then ""
    else if |pieces| == 1 then pieces[0]
    else pieces[0] + "_" + JoinUnderscore(pieces[1..])
  }

  /** The text the key is cut from: lower-cased, with only word and space
      characters left. */
  function Normalize(title: string): (r: string)
  {
    StripNonWord(ToLowerCase(title))
  }

  /** At most this many pieces make up a key. */
  const KeyWords: nat := 5

  function NewsKey(title: string): (r: string)
  {
    JoinUnderscore(Take(SplitOnSpaceRuns(Normalize(title)), KeyWords))
  }

  /** The characters a key is made of. */
  predicate IsKeyChar(c: char)
  {
    'a' <= c <= 'z' || '0' <= c <= '9' || c == '_'
  }

  /** A key consists of lower-case ASCII letters, digits and underscores. */
  lemma {:induction false} KeyAlphabet(title: string)
    ensures forall c <- NewsKey(title) :: IsKeyChar(c)
  {
    var lowered := ToLowerCase(title);
    var normal := Normalize(title);
    var pieces := Take(SplitOnSpaceRuns(normal), KeyWords);
    SplitPieces(normal);
    assert forall t <- pieces :: t in SplitOnSpaceRuns(normal);
    forall c <- NewsKey(title) ensures IsKeyChar(c) {
      if c != '_' {
        var t :| t in pieces && c in t;
        assert c in normal && !IsSpace(c);
        assert c in lowered;
      }
    }
  }

  lemma {:induction false} StripNonWordAppend(a: string, b: string)
    ensures StripNonWord(a + b) == StripNonWord(a) + StripNonWord(b)
  {
    if a == [] {
      assert a + b == b;
    } else {
      assert (a + b)[1..] == a[1..] + b;
      StripNonWordAppend(a[1..], b);
    }
  }

  lemma {:induction false} StripNonWordIdentity(s: string)
    requires forall c <- s :: IsWordChar(c) || IsSpace(c)
    ensures StripNonWord(s) == s
  {
    if s != [] {
      assert s[0] in s;
      assert forall c <- s[1..] :: c in s;
      StripNonWordIdentity(s[1..]);
      assert s == [s[0]] + s[1..];
    }
  }

  lemma {:induction false} NormalizeAppend(a: string, b: string)
    ensures Normalize(a + b) == Normalize(a) + Normalize(b)
  {
    ToLowerCaseAppend(a, b);
    StripNonWordAppend(ToLowerCase(a), ToLowerCase(b));
  }

  lemma {:induction false} LowerCharStable(c: char)
    ensures forall d <- LowerChar(c) :: LowerStable(d)
  {
  }

  lemma {:induction false} ToLowerCaseStable(s: string)
    ensures forall d <- ToLowerCase(s) :: LowerStable(d)
  {
    if s != [] {
      LowerCharStable(s[0]);
      ToLowerCaseStable(s[1..]);
    }
  }

  /** Lower-casing is idempotent. */
  lemma {:induction false} ToLowerCaseIdempotent(s: string)
    ensures ToLowerCase(ToLowerCase(s)) == ToLowerCase(s)
  {
    ToLowerCaseStable(s);
    ToLowerCaseIdentity(ToLowerCase(s));
  }

  /** Titles that differ only in letter case share a key. */
  lemma {:induction false} KeyIgnoresCase(title: string)
    ensures NewsKey(ToLowerCase(title)) == NewsKey(title)
  {
    ToLowerCaseIdempotent(title);
  }

  /** A punctuation character that lower-casing leaves alone (a colon, a
      quote, a dash) can be inserted anywhere in a title without changing
      the key. */
  lemma {:induction false} KeyIgnoresPunctuation(a: string, p: char, b: string)
    requires !IsWordChar(p) && !IsSpace(p) && LowerStable(p)
    ensures NewsKey(a + [p] + b) == NewsKey(a + b)
  {
    NormalizeAppend(a + [p], b);
    NormalizeAppend(a, [p]);
    NormalizeAppend(a, b);
    assert ToLowerCase([p]) == [p] by {
      assert [p][1..] == [];
    }
    assert Normalize([p]) == [] by {
      assert [p][1..] == [];
    }
    assert Normalize(a) + [] == Normalize(a);
  }

  lemma {:induction false} SplitNoSpace(s: string)
    requires forall c <- s :: !IsSpace(c)
    ensures SplitOnSpaceRuns(s) == [s]
  {
    assert forall i :: 0 <= i < |s| ==> !IsSpace(s[i]) by {
      assert forall i :: 0 <= i < |s| ==> s[i] in s;
    }
    assert LeadingWord(s) == s;
  }

  /** A key is its own key: the key of a title is a fixed point. */
  lemma {:induction false} KeyIsCanonical(title: string)
    ensures NewsKey(NewsKey(title)) == NewsKey(title)
  {
    var k := NewsKey(title);
    KeyAlphabet(title);
    assert forall c <- k :: LowerStable(c) && (IsWordChar(c) || IsSpace(c)) && !IsSpace(c);
    ToLowerCaseIdentity(k);
    StripNonWordIdentity(k);
    SplitNoSpace(k);
  }

  lemma {:induction false} TrimStartAppend(u: string, v: string)
    requires TrimStart(u) != []
    ensures TrimStart(u + v) == TrimStart(u) + v
    decreases |u|
  {
    assert u != [];
    assert (u + v)[0] == u[0];
    if IsSpace(u[0]) {
      assert (u + v)[1..] == u[1..] + v;
      TrimStartAppend(u[1..], v);
    }
  }

  lemma {:induction false} LeadingWordAppend(x: string, y: string)
    requires |LeadingWord(x)| < |x|
    ensures LeadingWord(x + y) == LeadingWord(x)
    decreases |x|
  {
    assert (x + y)[0] == x[0];
    if !IsSpace(x[0]) {
      assert (x + y)[1..] == x[1..] + y;
      LeadingWordAppend(x[1..], y);
    }
  }

  /** When `x` has a piece after its first, appending `y` keeps that first
      piece and appends `y` to the rest. */
  lemma {:induction false} SplitAppendUnfold(x: string, y: string)
    requires |LeadingWord(x)| < |x| && TrimStart(x[|LeadingWord(x)|..]) != []
    ensures var w := LeadingWord(x);
      SplitOnSpaceRuns(x + y) == [w] + SplitOnSpaceRuns(TrimStart(x[|w|..]) + y)
  {
    var w := LeadingWord(x);
    LeadingWordAppend(x, y);
    assert (x + y)[|w|..] == x[|w|..] + y;
    TrimStartAppend(x[|w|..], y);
  }

  /** Appending text can only change the last piece (and add more after it):
      every piece but the last one of `x` is a piece of `x + y`. */
  lemma {:induction false} SplitPrefix(x: string, y: string, k: nat)
    requires k < |SplitOnSpaceRuns(x)|
    ensures k < |SplitOnSpaceRuns(x + y)|
    ensures SplitOnSpaceRuns(x + y)[..k] == SplitOnSpaceRuns(x)[..k]
    decreases |x|
  {
    if k > 0 {
      var w := LeadingWord(x);
      assert |w| < |x|;
      var rest := TrimStart(x[|w|..]);
      if rest == [] {
        assert SplitOnSpaceRuns(x) == [w, ""];
        LeadingWordAppend(x, y);
      } else {
        SplitAppendUnfold(x, y);
        SplitPrefix(rest, y, k - 1);
        PrefixOfCons(w, SplitOnSpaceRuns(rest + y), k);
        PrefixOfCons(w, SplitOnSpaceRuns(rest), k);
      }
    }
  }

  /** Only the first five words count: once the normalised title has more
      than five pieces, nothing appended to it changes the key. */
  lemma {:induction false} KeyIgnoresTail(title: string, tail: string)
    requires |SplitOnSpaceRuns(Normalize(title))| > KeyWords
    ensures NewsKey(title + tail) == NewsKey(title)
  {
    NormalizeAppend(title, tail);
    SplitPrefix(Normalize(title), Normalize(tail), KeyWords);
  }

  /** A title with a leading blank gets a different key from the same title
      without it: `split` yields an empty first piece, which becomes a
      leading underscore. */
  lemma {:induction false} LeadingBlankChangesKey()
    ensures NewsKey("a") == "a"
    ensures NewsKey(" a") == "_a"
  {
    ToLowerCaseIdentity("a");
    ToLowerCaseIdentity(" a");
    StripNonWordIdentity("a");
    StripNonWordIdentity(" a");
    SplitNoSpace("a");
    assert LeadingWord(" a") == "";
    assert LeadingSpaces(" a") == 1;
    assert TrimStart(" a") == "a";
    assert SplitOnSpaceRuns(" a") == ["", "a"];
    assert JoinUnderscore(["", "a"]) == "" + "_" + JoinUnderscore(["a"]);
  }
}
