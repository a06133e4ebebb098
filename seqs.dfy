/**
 * Order-preserving filtering and element replacement over sequences:
 * `Array.prototype.filter` and `Array.prototype.map` with an `id` test.
 */
module Seqs {

  /** `xs.filter(p)`. */
  function Filter<T>(xs: seq<T>, p: T -> bool): (r: seq<T>)
    ensures |r| <= |xs|
    ensures forall i :: 0 <= i < |r| ==> r[i] in xs && p(r[i])
    ensures forall i :: 0 <= i < |xs| && p(xs[i]) ==> xs[i] in r
  {
    if |xs| == 0 then []
    else (if p(xs[0]) then [xs[0]] else []) + Filter(xs[1..], p)
  }

  /** An element survives the filter exactly when it is in the input and passes the test. */
  lemma FilterMember<T>(xs: seq<T>, p: T -> bool, x: T)
    ensures x in Filter(xs, p) <==> x in xs && p(x)
  {
    if x in xs && p(x) {
      var i :| 0 <= i < |xs| && xs[i] == x;
    }
  }

  /** `ys` keeps some of the elements of `xs`, in their original order. */
  ghost predicate IsSubsequence<T>(ys: seq<T>, xs: seq<T>)
    decreases |xs|
  {
    |ys| == 0 || (|xs| > 0 && ((ys[0] == xs[0] && IsSubsequence(ys[1..], xs[1..])) || IsSubsequence(ys, xs[1..])))
  }

  /** Every list is a subsequence of itself. */
  lemma {:induction false} SubsequenceRefl<T>(xs: seq<T>)
    ensures IsSubsequence(xs, xs)
    decreases |xs|
  {
    if |xs| > 0 {
      SubsequenceRefl(xs[1..]);
    }
  }

  /** A filter keeps the surviving elements in their input order. */
  lemma {:induction false} FilterIsSubsequence<T>(xs: seq<T>, p: T -> bool)
    ensures IsSubsequence(Filter(xs, p), xs)
  {
    if |xs| > 0 {
      FilterIsSubsequence(xs[1..], p);
      var r := Filter(xs, p);
      if p(xs[0]) {
        assert r[0] == xs[0] && r[1..] == Filter(xs[1..], p);
      } else {
        assert r == Filter(xs[1..], p);
      }
    }
  }

  /** A subsequence of a subsequence is a subsequence. */
  lemma {:induction false} SubsequenceTrans<T>(a: seq<T>, b: seq<T>, c: seq<T>)
    requires IsSubsequence(a, b) && IsSubsequence(b, c)
    ensures IsSubsequence(a, c)
    decreases |c|
  {
    if |a| > 0 {
      if IsSubsequence(b, c[1..]) {
        SubsequenceTrans(a, b, c[1..]);
      } else if a[0] == b[0] && IsSubsequence(a[1..], b[1..]) {
        SubsequenceTrans(a[1..], b[1..], c[1..]);
      } else {
        SubsequenceTrans(a, b[1..], c[1..]);
      }
    }
  }

  /** Filters distribute over concatenation. */
  lemma {:induction false} FilterAppend<T>(xs: seq<T>, ys: seq<T>, p: T -> bool)
    ensures Filter(xs + ys, p) == Filter(xs, p) + Filter(ys, p)
  {
    if |xs| > 0 {
      assert (xs + ys)[1..] == xs[1..] + ys;
      FilterAppend(xs[1..], ys, p);
    } else {
      assert xs + ys == ys;
    }
  }

  /** Filtering a list with one more element at the end. */
  lemma FilterSnoc<T>(xs: seq<T>, x: T, p: T -> bool)
    ensures Filter(xs + [x], p) == Filter(xs, p) + (if p(x) then [x] else [])
  {
    FilterAppend(xs, [x], p);
    assert Filter([x], p) == (if p(x) then [x] else []) + Filter([x][1..], p);
  }

  /** Filtering with a test that holds everywhere changes nothing. */
  lemma {:induction false} FilterAll<T>(xs: seq<T>, p: T -> bool)
    requires forall x :: x in xs ==> p(x)
    ensures Filter(xs, p) == xs
  {
    if |xs| > 0 {
      FilterAll(xs[1..], p);
    }
  }

  /** Number of elements of `xs` that satisfy `p`. */
  function Count<T>(xs: seq<T>, p: T -> bool): nat {
    |Filter(xs, p)|
  }

  /** `xs.map(x => x.id === id ? y : x)`, with the id test given as `hit`. */
  function ReplaceWhere<T>(xs: seq<T>, hit: T -> bool, y: T): (r: seq<T>)
    ensures |r| == |xs|
    ensures forall i :: 0 <= i < |xs| ==> r[i] == if hit(xs[i]) then y else xs[i]
  {
    if |xs| == 0 then []
    else [if hit(xs[0]) then y else xs[0]] + ReplaceWhere(xs[1..], hit, y)
  }

  /** The first element satisfying `p` (`xs.find(p)`), as its index. */
  function FindIndex<T>(xs: seq<T>, p: T -> bool): (r: int)
    ensures -1 <= r < |xs|
    ensures r >= 0 ==> p(xs[r]) && forall j :: 0 <= j < r ==> !p(xs[j])
    ensures r == -1 ==> forall j :: 0 <= j < |xs| ==> !p(xs[j])
  {
    if |xs| == 0 then -1
    else if p(xs[0]) then 0
    else var k := FindIndex(xs[1..], p); if k == -1 then -1 else k + 1
  }

  /** The first `n` elements, or all of them when there are fewer (`slice(0, n)`). */
  function Take<T>(xs: seq<T>, n: nat): (r: seq<T>)
    ensures |r| == if n < |xs| then n else |xs|
    ensures r == xs[..|r|]
  {
    if n < |xs| then xs[..n] else xs
  }
}
