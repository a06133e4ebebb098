/**
 * Grouping records into a dictionary keyed by text, filled with
 * `forEach` and `push` (`if (!grouped[k]) grouped[k] = []; grouped[k].push(x)`).
 * The dictionary is a list of (key, members) pairs in the order keys first
 * appear.
 */
module Grouping {
  import opened Seqs

  type Groups<T> = seq<(string, seq<T>)>

  function Keys<T>(g: Groups<T>): (r: seq<string>)
    ensures |r| == |g| && forall j :: 0 <= j < |g| ==> r[j] == g[j].0
  {
    seq(|g|, j requires 0 <= j < |g| => g[j].0)
  }

  /** No key is listed twice. */
  predicate DistinctKeys<T>(g: Groups<T>) {
    forall i, j :: 0 <= i < j < |g| ==> g[i].0 != g[j].0
  }

  /** The members of all groups together. */
  function Total<T>(g: Groups<T>): nat {
    if |g| == 0 then 0 else Total(g[..|g| - 1]) + |g[|g| - 1].1|
  }

  function HasKey<T>(key: T -> string, k: string): T -> bool {
    x => key(x) == k
  }

  /** Position of key `k`, or -1. */
  function KeyIndex<T>(g: Groups<T>, k: string): (j: int)
    ensures -1 <= j < |g|
    ensures j >= 0 ==> g[j].0 == k
    ensures j == -1 ==> forall i :: 0 <= i < |g| ==> g[i].0 != k
  {
    FindIndex(g, (p: (string, seq<T>)) => p.0 == k)
  }

  /** One `push`: `x` joins the group of `k`, created at the end when missing. */
  function AddTo<T>(g: Groups<T>, k: string, x: T): Groups<T> {
    var j := KeyIndex(g, k);
    if j >= 0 then g[j := (k, g[j].1 + [x])] else g + [(k, [x])]
  }

  /** The dictionary after pushing every record, in order. */
  function GroupOf<T>(xs: seq<T>, key: T -> string): Groups<T> {
    if |xs| == 0 then [] else
      var last := xs[|xs| - 1];
      AddTo(GroupOf(xs[..|xs| - 1], key), key(last), last)
  }

  /** The `forEach` loop that fills the dictionary. */
  method GroupBy<T>(xs: seq<T>, key: T -> string) returns (g: Groups<T>)
    ensures g == GroupOf(xs, key)
  {
    g := [];
    for i := 0 to |xs|
      invariant g == GroupOf(xs[..i], key)
    {
      assert xs[..i + 1][..i] == xs[..i];
      var k := key(xs[i]);
      ghost var before := g;
      var j := KeyIndex(g, k);
      if j < 0 {
        g := g + [(k, [])];
        j := |g| - 1;
      }
      g := g[j := (k, g[j].1 + [xs[i]])];
      assert g == AddTo(before, k, xs[i]) by {
        if KeyIndex(before, k) < 0 {
          assert [] + [xs[i]] == [xs[i]];
          assert g == before + [(k, [xs[i]])];
        }
      }
    }
    assert xs[..|xs|] == xs;
  }

  /** The groups have distinct keys, and exactly the keys of the records. */
  lemma {:induction false} GroupKeys<T>(xs: seq<T>, key: T -> string)
    ensures DistinctKeys(GroupOf(xs, key))
    ensures forall k :: k in Keys(GroupOf(xs, key)) <==> exists x :: x in xs && key(x) == k
    decreases |xs|
  {
    if |xs| > 0 {
      var ys := xs[..|xs| - 1];
      var last := xs[|xs| - 1];
      GroupKeys(ys, key);
      var prev := GroupOf(ys, key);
      assert forall x :: x in xs <==> x in ys || x == last by {
        assert xs == ys + [last];
      }
      var g := GroupOf(xs, key);
      if KeyIndex(prev, key(last)) >= 0 {
        assert Keys(g) == Keys(prev);
      } else {
        assert Keys(g) == Keys(prev) + [key(last)];
      }
    }
  }

  /** No group is empty: a key is only created for a record that has it. */
  lemma {:induction false} GroupsNonEmpty<T>(xs: seq<T>, key: T -> string)
    ensures forall j :: 0 <= j < |GroupOf(xs, key)| ==> |GroupOf(xs, key)[j].1| > 0
    decreases |xs|
  {
    if |xs| > 0 {
      GroupsNonEmpty(xs[..|xs| - 1], key);
    }
  }

  lemma FilterNone<T>(xs: seq<T>, p: T -> bool)
    requires forall x :: x in xs ==> !p(x)
    ensures Filter(xs, p) == []
  {
  }

  /** Each group of `g` holds exactly the records of `xs` with its key, in order. */
  predicate MembersOf<T(==)>(g: Groups<T>, xs: seq<T>, key: T -> string) {
    forall j :: 0 <= j < |g| ==> g[j].1 == Filter(xs, HasKey(key, g[j].0))
  }

  /** Each group holds exactly the records with its key, in input order. */
  lemma {:induction false} GroupMembers<T>(xs: seq<T>, key: T -> string)
    ensures MembersOf(GroupOf(xs, key), xs, key)
    decreases |xs|
  {
    if |xs| > 0 {
      var ys := xs[..|xs| - 1];
      var last := xs[|xs| - 1];
      var k := key(last);
      GroupMembers(ys, key);
      GroupKeys(ys, key);
      var prev := GroupOf(ys, key);
      forall c | true
        ensures Filter(xs, HasKey(key, c)) == Filter(ys, HasKey(key, c)) + (if k == c then [last] else [])
      {
        assert xs == ys + [last];
        FilterAppend(ys, [last], HasKey(key, c));
      }
      var g := GroupOf(xs, key);
      if KeyIndex(prev, k) < 0 {
        assert k !in Keys(prev);
        FilterNone(ys, HasKey(key, k));
        assert g == prev + [(k, [last])];
        assert g[|prev|].1 == Filter(xs, HasKey(key, k));
        forall j | 0 <= j < |prev|
          ensures g[j].1 == Filter(xs, HasKey(key, g[j].0))
        {
          var c := prev[j].0;
          assert g[j] == prev[j];
          assert c != k;
          assert prev[j].1 == Filter(ys, HasKey(key, c));
          assert Filter(xs, HasKey(key, c)) == Filter(ys, HasKey(key, c)) + [];
          assert Filter(ys, HasKey(key, c)) + [] == Filter(ys, HasKey(key, c));
        }
      } else {
        var j0 := KeyIndex(prev, k);
        assert g == prev[j0 := (k, prev[j0].1 + [last])];
        forall j | 0 <= j < |g|
          ensures g[j].1 == Filter(xs, HasKey(key, g[j].0))
        {
          if j != j0 {
            assert g[j] == prev[j];
            assert prev[j].0 != k;
            assert Filter(ys, HasKey(key, prev[j].0)) + [] == Filter(ys, HasKey(key, prev[j].0));
          }
        }
      }
    }
  }

  /** Every record lies in the group of its key. */
  lemma {:induction false} GroupHolding<T>(xs: seq<T>, key: T -> string, x: T) returns (j: nat)
    requires x in xs
    ensures j < |GroupOf(xs, key)| && GroupOf(xs, key)[j].0 == key(x) && x in GroupOf(xs, key)[j].1
  {
    var g := GroupOf(xs, key);
    GroupKeys(xs, key);
    GroupMembers(xs, key);
    assert key(x) in Keys(g);
    var i :| 0 <= i < |g| && Keys(g)[i] == key(x);
    j := i;
    assert g[j].1 == Filter(xs, HasKey(key, g[j].0));
    FilterMember(xs, HasKey(key, g[j].0), x);
  }

  lemma {:induction false} TotalUpdate<T>(g: Groups<T>, j: nat, k: string, x: T)
    requires j < |g|
    ensures Total(g[j := (k, g[j].1 + [x])]) == Total(g) + 1
    decreases |g|
  {
    var h := g[j := (k, g[j].1 + [x])];
    assert h[..|h| - 1] == if j < |g| - 1 then g[..|g| - 1][j := (k, g[j].1 + [x])] else g[..|g| - 1];
    if j < |g| - 1 {
      TotalUpdate(g[..|g| - 1], j, k, x);
    }
  }

  /** Every record lands in exactly one group: the group sizes add up to the input length. */
  lemma {:induction false} GroupSizesSum<T>(xs: seq<T>, key: T -> string)
    ensures Total(GroupOf(xs, key)) == |xs|
    decreases |xs|
  {
    if |xs| > 0 {
      var ys := xs[..|xs| - 1];
      var last := xs[|xs| - 1];
      GroupSizesSum(ys, key);
      var prev := GroupOf(ys, key);
      var j := KeyIndex(prev, key(last));
      if j >= 0 {
        TotalUpdate(prev, j, key(last), last);
      } else {
        assert (prev + [(key(last), [last])])[..|prev|] == prev;
      }
    }
  }
}
