/** Small sequence vocabulary shared by the scraper and the aggregator. */
module Seqs {

  datatype Option<+T> = None | Some(value: T)

  function Min(a: int, b: int): int { if a <= b then a else b }

  /** JavaScript's `xs.slice(0, n)` for a non-negative `n`. */
  function Take<T>(xs: seq<T>, n: nat): (r: seq<T>)
    ensures |r| == Min(n, |xs|)
    ensures forall i :: 0 <= i < |r| ==> r[i] == xs[i]
  {
    if n <= |xs| then xs[..n] else xs
  }

  /** The elements `f` keeps, in order, each replaced by what `f` makes of it
      (the shape of a loop that pushes an optional result per element). */
  function FilterMap<T, U>(f: T -> Option<U>, xs: seq<T>): seq<U>
  {
    if xs == [] then []
    else
      (match f(xs[0])
       case Some(u) => [u]
       case None => []) + FilterMap(f, xs[1..])
  }

  lemma {:induction false} FilterMapAppend<T, U>(f: T -> Option<U>, a: seq<T>, b: seq<T>)
    ensures FilterMap(f, a + b) == FilterMap(f, a) + FilterMap(f, b)
  {
    if a == [] {
      assert a + b == b;
    } else {
      assert (a + b)[1..] == a[1..] + b;
      FilterMapAppend(f, a[1..], b);
    }
  }

  /** One more input element appends what `f` makes of it, if anything. */
  lemma {:induction false} FilterMapSnoc<T, U>(f: T -> Option<U>, xs: seq<T>, x: T)
    ensures f(x).Some? ==> FilterMap(f, xs + [x]) == FilterMap(f, xs) + [f(x).value]
    ensures f(x).None? ==> FilterMap(f, xs + [x]) == FilterMap(f, xs)
  {
    FilterMapAppend(f, xs, [x]);
    assert [x][1..] == [];
  }

  /** The step of a loop over `xs`: the prefix of length `k + 1` adds what
      `f` makes of `xs[k]`, if anything. */
  lemma {:induction false} FilterMapStep<T, U>(f: T -> Option<U>, xs: seq<T>, k: nat)
    requires k < |xs|
    ensures f(xs[k]).Some? ==> FilterMap(f, xs[..k + 1]) == FilterMap(f, xs[..k]) + [f(xs[k]).value]
    ensures f(xs[k]).None? ==> FilterMap(f, xs[..k + 1]) == FilterMap(f, xs[..k])
  {
    assert xs[..k + 1] == xs[..k] + [xs[k]];
    FilterMapSnoc(f, xs[..k], xs[k]);
  }

  /** A loop over all of `xs` has processed `xs`. */
  lemma {:induction false} FilterMapWhole<T, U>(f: T -> Option<U>, xs: seq<T>)
    ensures FilterMap(f, xs[..|xs|]) == FilterMap(f, xs)
  {
    assert xs[..|xs|] == xs;
  }

  /** Every produced element comes from some input element. */
  lemma {:induction false} FilterMapSound<T, U>(f: T -> Option<U>, xs: seq<T>)
    ensures |FilterMap(f, xs)| <= |xs|
    ensures forall u <- FilterMap(f, xs) :: exists i :: 0 <= i < |xs| && f(xs[i]) == Some(u)
  {
    if xs != [] {
      var tail := xs[1..];
      FilterMapSound(f, tail);
      forall u <- FilterMap(f, xs) ensures exists i :: 0 <= i < |xs| && f(xs[i]) == Some(u) {
        if u in FilterMap(f, tail) {
          var i :| 0 <= i < |tail| && f(tail[i]) == Some(u);
          assert xs[i + 1] == tail[i];
        } else {
          assert f(xs[0]) == Some(u);
        }
      }
    }
  }

  /** Every element that `f` keeps is produced. */
  lemma {:induction false} FilterMapComplete<T, U>(f: T -> Option<U>, xs: seq<T>, i: nat)
    requires i < |xs| && f(xs[i]).Some?
    ensures f(xs[i]).value in FilterMap(f, xs)
  {
    if i > 0 {
      assert xs[1..][i - 1] == xs[i];
      FilterMapComplete(f, xs[1..], i - 1);
    }
  }

  lemma {:induction false} AppendAssoc<T>(a: seq<T>, b: seq<T>, c: seq<T>)
    ensures a + (b + c) == a + b + c
  {
  }

  /** `xs` can be obtained from `ys` by deleting elements. */
  predicate IsSubsequence<T(==)>(xs: seq<T>, ys: seq<T>)
    decreases |ys|
  {
    if xs == [] then true
    else if ys == [] then false
    else (xs[0] == ys[0] && IsSubsequence(xs[1..], ys[1..])) || IsSubsequence(xs, ys[1..])
  }

  lemma {:induction false} PrefixIsSubsequence<T>(xs: seq<T>, k: nat)
    requires k <= |xs|
    ensures IsSubsequence(xs[..k], xs)
  {
    if k > 0 {
      assert xs[..k][1..] == xs[1..][..k - 1];
      PrefixIsSubsequence(xs[1..], k - 1);
    }
  }

  lemma {:induction false} SubsequenceTransitive<T>(xs: seq<T>, ys: seq<T>, zs: seq<T>)
    requires IsSubsequence(xs, ys) && IsSubsequence(ys, zs)
    ensures IsSubsequence(xs, zs)
    decreases |zs|
  {
    if xs != [] {
      if ys[0] == zs[0] && IsSubsequence(ys[1..], zs[1..]) {
        if xs[0] == ys[0] && IsSubsequence(xs[1..], ys[1..]) {
          SubsequenceTransitive(xs[1..], ys[1..], zs[1..]);
        } else {
          SubsequenceTransitive(xs, ys[1..], zs[1..]);
        }
      } else {
        SubsequenceTransitive(xs, ys, zs[1..]);
      }
    }
  }

  /** `xs.map(f)`. */
  function Map<T, U>(f: T -> U, xs: seq<T>): (r: seq<U>)
    ensures |r| == |xs|
    ensures forall i :: 0 <= i < |xs| ==> r[i] == f(xs[i])
  {
    if xs == [] then [] else [f(xs[0])] + Map(f, xs[1..])
  }

  lemma {:induction false} MapStep<T, U>(f: T -> U, xs: seq<T>, k: nat)
    requires k < |xs|
    ensures Map(f, xs[..k + 1]) == Map(f, xs[..k]) + [f(xs[k])]
  {
    var l, r := Map(f, xs[..k + 1]), Map(f, xs[..k]) + [f(xs[k])];
    assert |l| == |r|;
    forall j | 0 <= j < |l| ensures l[j] == r[j] {
      assert xs[..k + 1][j] == xs[j];
    }
  }

  /** The first `k` elements of a sequence with `a` in front. */
  lemma {:induction false} PrefixOfCons<T>(a: T, s: seq<T>, k: nat)
    requires 0 < k <= |s| + 1
    ensures ([a] + s)[..k] == [a] + s[..k - 1]
  {
    var l, r := ([a] + s)[..k], [a] + s[..k - 1];
    assert |l| == |r|;
    forall i | 0 <= i < |l| ensures l[i] == r[i] {
      if i > 0 {
        assert l[i] == s[i - 1];
      }
    }
  }

  /** The concatenation, in order, of a sequence of sequences. */
  function Flatten<T>(xss: seq<seq<T>>): seq<T>
  {
    if xss == [] then [] else xss[0] + Flatten(xss[1..])
  }

  lemma {:induction false} FlattenAppend<T>(a: seq<seq<T>>, b: seq<seq<T>>)
    ensures Flatten(a + b) == Flatten(a) + Flatten(b)
  {
    if a == [] {
      assert a + b == b;
    } else {
      assert (a + b)[1..] == a[1..] + b;
      FlattenAppend(a[1..], b);
    }
  }

  /** Element `i` sits, as one block, between the elements before it and
      those after it. */
  lemma {:induction false} FlattenSplit<T>(xss: seq<seq<T>>, i: nat)
    requires i < |xss|
    ensures Flatten(xss) == Flatten(xss[..i]) + xss[i] + Flatten(xss[i + 1..])
  {
    var before, after := xss[..i], xss[i + 1..];
    assert xss == before + ([xss[i]] + after);
    FlattenAppend(before, [xss[i]] + after);
    assert ([xss[i]] + after)[1..] == after;
  }
}
