/** The pieces of JavaScript string semantics that the scraper and the
    aggregator rely on: the `\s` and `\w` character classes, `toLowerCase`
    (as far as it matters for those classes), `trim` and `substring(0, n)`.
    Lengths count characters; for text in the Basic Multilingual Plane that is
    JavaScript's count of UTF-16 code units. */
module JsText {

  /** `\s` in a JavaScript regular expression: WhiteSpace and LineTerminator
      of ECMAScript. `String.prototype.trim` removes exactly this set too. */
  predicate IsSpace(c: char)
  {
    var n := c as int;
    n == 0x09 || n == 0x0A || n == 0x0B || n == 0x0C || n == 0x0D || n == 0x20
    || n == 0xA0 || n == 0x1680 || (0x2000 <= n <= 0x200A)
    || n == 0x2028 || n == 0x2029 || n == 0x202F || n == 0x205F
    || n == 0x3000 || n == 0xFEFF
  }

  /** `\w` without the `u` flag: ASCII letters, digits and `_`. */
  predicate IsWordChar(c: char)
  {
    'a' <= c <= 'z' || 'A' <= c <= 'Z' || '0' <= c <= '9' || c == '_'
  }

  predicate IsUpperAscii(c: char) { 'A' <= c <= 'Z' }

  /** `toLowerCase` of one character, exact wherever the result can contain a
      `\w` or `\s` character: ASCII capitals, DOTTED CAPITAL I (which becomes
      `i` plus a combining dot) and KELVIN SIGN (which becomes `k`). Every
      other character is kept; its true lower-case form is again neither a
      word nor a space character. */
  function LowerChar(c: char): (r: string)
    ensures forall d <- r :: !IsUpperAscii(d)
    ensures IsSpace(c) ==> r == [c]
  {
    if IsUpperAscii(c) then [(c as int + 32) as char]
    else if c == '\U{0130}' then ['i', '\U{0307}']
    else if c == '\U{212A}' then ['k']
    else [c]
  }

  function ToLowerCase(s: string): (r: string)
    ensures forall d <- r :: !IsUpperAscii(d)
  {
    if s == [] then [] else LowerChar(s[0]) + ToLowerCase(s[1..])
  }

  lemma {:induction false} ToLowerCaseAppend(a: string, b: string)
    ensures ToLowerCase(a + b) == ToLowerCase(a) + ToLowerCase(b)
  {
    if a == [] {
      assert a + b == b;
    } else {
      assert (a + b)[1..] == a[1..] + b;
      ToLowerCaseAppend(a[1..], b);
    }
  }

  /** A character that `toLowerCase` leaves unchanged. */
  predicate LowerStable(c: char)
  {
    !IsUpperAscii(c) && c != '\U{0130}' && c != '\U{212A}'
  }

  lemma {:induction false} ToLowerCaseIdentity(s: string)
    requires forall c <- s :: LowerStable(c)
    ensures ToLowerCase(s) == s
  {
    if s != [] {
      assert s[0] in s && LowerChar(s[0]) == [s[0]];
      assert forall c <- s[1..] :: c in s;
      ToLowerCaseIdentity(s[1..]);
      assert s == [s[0]] + s[1..];
    }
  }

  /** The number of leading `\s` characters. */
  function LeadingSpaces(s: string): (n: nat)
    ensures n <= |s|
    ensures forall i :: 0 <= i < n ==> IsSpace(s[i])
    ensures n < |s| ==> !IsSpace(s[n])
  {
    if s != [] && IsSpace(s[0]) then 1 + LeadingSpaces(s[1..]) else 0
  }

  /** The number of trailing `\s` characters. */
  function TrailingSpaces(s: string): (n: nat)
    ensures n <= |s|
    ensures forall i :: |s| - n <= i < |s| ==> IsSpace(s[i])
    ensures n < |s| ==> !IsSpace(s[|s| - n - 1])
  {
    if s != [] && IsSpace(s[|s| - 1]) then 1 + TrailingSpaces(s[..|s| - 1]) else 0
  }

  /** Drop the leading `\s` characters. */
  function TrimStart(s: string): (r: string)
  {
    s[LeadingSpaces(s)..]
  }

  /** Drop the trailing `\s` characters. */
  function TrimEnd(s: string): (r: string)
  {
    s[..|s| - TrailingSpaces(s)]
  }

  /** `String.prototype.trim`. */
  function Trim(s: string): (r: string)
    ensures |r| <= |s|
    ensures r == [] || (!IsSpace(r[0]) && !IsSpace(r[|r| - 1]))
    ensures r == [] <==> forall i :: 0 <= i < |s| ==> IsSpace(s[i])
    ensures var k := |s| - |TrimStart(s)|; k + |r| <= |s| && r == s[k..k + |r|]
  {
    TrimEnd(TrimStart(s))
  }

  lemma {:induction false} TrimEndBounds(t: string)
    ensures var r := TrimEnd(t);
      |r| <= |t| && r == t[..|r|] && forall i :: |r| <= i < |t| ==> IsSpace(t[i])
  {
  }

  /** `trim` keeps the part of `s` between its leading and its trailing
      blanks. */
  lemma {:induction false} TrimBounds(s: string)
    ensures var k := LeadingSpaces(s); var r := Trim(s);
      && k + |r| <= |s|
      && r == s[k..k + |r|]
      && forall i :: k + |r| <= i < |s| ==> IsSpace(s[i])
  {
    var k := LeadingSpaces(s);
    var t := s[k..];
    assert Trim(s) == TrimEnd(t);
    TrimEndBounds(t);
    var r := TrimEnd(t);
    forall i | k + |r| <= i < |s| ensures IsSpace(s[i]) {
      assert s[i] == t[i - k];
    }
  }

  /** The longest prefix of `s` without a `\s` character. */
  function LeadingWord(s: string): (w: string)
    ensures |w| <= |s| && w == s[..|w|]
    ensures forall i :: 0 <= i < |w| ==> !IsSpace(w[i])
    ensures |w| < |s| ==> IsSpace(s[|w|])
  {
    if s == [] || IsSpace(s[0]) then [] else [s[0]] + LeadingWord(s[1..])
  }

  /** `s.split(/\s+/)`: the pieces between maximal runs of `\s`. A run at
      the start or at the end gives an empty first or last piece, and the
      empty string gives one empty piece. */
  function SplitOnSpaceRuns(s: string): (r: seq<string>)
    ensures |r| >= 1
    decreases |s|
  {
    var w := LeadingWord(s);
    if |w| == |s| then [w] else [w] + SplitOnSpaceRuns(TrimStart(s[|w|..]))
  }

  /** The pieces hold no `\s` character, and only characters of `s`. */
  lemma {:induction false} SplitPieces(s: string)
    ensures forall t <- SplitOnSpaceRuns(s) :: forall c <- t :: !IsSpace(c) && c in s
    decreases |s|
  {
    var w := LeadingWord(s);
    if |w| < |s| {
      var rest := TrimStart(s[|w|..]);
      SplitPieces(rest);
      assert forall c <- rest :: c in s by {
        assert forall i :: 0 <= i < |rest| ==> rest[i] == s[|s| - |rest| + i];
      }
    }
  }

  /** The first piece of a space-free word followed by nothing or by a `\s`
      character is that word. */
  lemma {:induction false} LeadingWordOfWord(w: string, x: string)
    requires forall i :: 0 <= i < |w| ==> !IsSpace(w[i])
    requires x == [] || IsSpace(x[0])
    ensures LeadingWord(w + x) == w
    decreases |w|
  {
    if w == [] {
      assert w + x == x;
    } else {
      assert (w + x)[1..] == w[1..] + x;
      LeadingWordOfWord(w[1..], x);
      assert w == [w[0]] + w[1..];
    }
  }

  /** A space-free word, one blank and a text that does not start with a
      `\s` character: the word is the first piece and the text gives the rest. */
  lemma {:induction false} SplitWordBlank(w: string, t: string)
    requires forall i :: 0 <= i < |w| ==> !IsSpace(w[i])
    requires t == [] || !IsSpace(t[0])
    ensures SplitOnSpaceRuns(w + [' '] + t) == [w] + SplitOnSpaceRuns(t)
  {
    var c := w + [' '] + t;
    LeadingWordOfWord(w, [' '] + t);
    assert c == w + ([' '] + t);
    assert c[|w|..] == [' '] + t;
    assert LeadingSpaces([' '] + t) == 1 by {
      assert ([' '] + t)[1..] == t;
    }
    assert TrimStart(c[|w|..]) == t;
  }

  /** `s.substring(0, n)` for a non-negative `n`. */
  function Substring0(s: string, n: nat): (r: string)
    ensures |r| <= n && |r| <= |s| && r == s[..|r|]
    ensures |s| <= n ==> r == s
    ensures |s| >= n ==> |r| == n
  {
    if |s| <= n then s else s[..n]
  }

  /** `s.startsWith(p)`. */
  predicate StartsWith(s: string, p: string)
  {
    |p| <= |s| && s[..|p|] == p
  }
}
