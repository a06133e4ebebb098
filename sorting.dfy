/**
 * Sorting of records by a text key, standing for `Array.prototype.sort`
 * with a string comparison. Text is compared character by character
 * (code-point order).
 */
module Sorting {

  /** `a` sorts no later than `b`. */
  predicate LexLe(a: string, b: string)
    decreases |a|
  {
    |a| == 0 || (|b| > 0 && (a[0] < b[0] || (a[0] == b[0] && LexLe(a[1..], b[1..]))))
  }

  /** Any two texts are ordered one way or the other. */
  lemma {:induction false} LexTotal(a: string, b: string)
    ensures LexLe(a, b) || LexLe(b, a)
    decreases |a|
  {
    if |a| > 0 && |b| > 0 && a[0] == b[0] {
      LexTotal(a[1..], b[1..]);
    }
  }

  /** Neighbouring keys are in order. */
  predicate SortedBy<T>(xs: seq<T>, key: T -> string) {
    forall i :: 0 <= i < |xs| - 1 ==> LexLe(key(xs[i]), key(xs[i + 1]))
  }

  /** `x` placed after every element whose key sorts no later than its own. */
  function InsertBy<T>(xs: seq<T>, x: T, key: T -> string): (r: seq<T>)
    ensures |r| == |xs| + 1
    ensures multiset(r) == multiset(xs) + multiset{x}
    ensures r[0] == x || (|xs| > 0 && r[0] == xs[0])
  {
    if |xs| == 0 then [x]
    else
      assert xs == [xs[0]] + xs[1..];
      if LexLe(key(xs[0]), key(x)) then [xs[0]] + InsertBy(xs[1..], x, key)
      else [x] + xs
  }

  /** Inserting into a sorted list keeps it sorted. */
  lemma {:induction false} InsertSorted<T>(xs: seq<T>, x: T, key: T -> string)
    requires SortedBy(xs, key)
    ensures SortedBy(InsertBy(xs, x, key), key)
  {
    if |xs| > 0 {
      if LexLe(key(xs[0]), key(x)) {
        InsertSorted(xs[1..], x, key);
      } else {
        LexTotal(key(xs[0]), key(x));
      }
    }
  }

  /** The records inserted one by one, in input order. */
  function Sorted<T>(xs: seq<T>, key: T -> string): seq<T> {
    if |xs| == 0 then [] else InsertBy(Sorted(xs[..|xs| - 1], key), xs[|xs| - 1], key)
  }

  /** The sorted list is in key order and a permutation of the input. */
  lemma {:induction false} SortedSpec<T>(xs: seq<T>, key: T -> string)
    ensures SortedBy(Sorted(xs, key), key)
    ensures multiset(Sorted(xs, key)) == multiset(xs)
  {
    if |xs| > 0 {
      var ys := xs[..|xs| - 1];
      SortedSpec(ys, key);
      InsertSorted(Sorted(ys, key), xs[|xs| - 1], key);
      assert xs == ys + [xs[|xs| - 1]];
    }
  }

  /** A sort by key: the result is sorted and a permutation of the input. */
  method SortBy<T>(xs: seq<T>, key: T -> string) returns (r: seq<T>)
    ensures r == Sorted(xs, key)
    ensures SortedBy(r, key)
    ensures multiset(r) == multiset(xs)
  {
    r := [];
    for i := 0 to |xs|
      invariant r == Sorted(xs[..i], key)
    {
      assert xs[..i + 1][..i] == xs[..i];
      r := InsertBy(r, xs[i], key);
    }
    assert xs[..|xs|] == xs;
    SortedSpec(xs, key);
  }

  function Identity(s: string): string { s }

  /** `keys.sort()`: the texts in order. */
  method SortTexts(keys: seq<string>) returns (r: seq<string>)
    ensures SortedBy(r, Identity)
    ensures multiset(r) == multiset(keys)
  {
    r := SortBy(keys, Identity);
  }
}
