/**
 * The list updates both client stores apply after a successful write:
 * `prev.map(x => x.id === id ? y : x)` and `prev.filter(x => x.id !== id)`,
 * over records whose id is read by `key`.
 */
module ById {
  import opened Seqs

  /** The ids of the records, in order. */
  function Ids<T>(xs: seq<T>, key: T -> int): (r: seq<int>)
    ensures |r| == |xs| && forall i :: 0 <= i < |xs| ==> r[i] == key(xs[i])
  {
    seq(|xs|, i requires 0 <= i < |xs| => key(xs[i]))
  }

  /** Every record with id `id` replaced by `y`. */
  function ReplaceById<T>(xs: seq<T>, key: T -> int, id: int, y: T): (r: seq<T>)
  {
    ReplaceWhere(xs, x => key(x) == id, y)
  }

  /** The records whose id is not `id`. */
  function RemoveById<T>(xs: seq<T>, key: T -> int, id: int): (r: seq<T>)
  {
    Filter(xs, x => key(x) != id)
  }

  /**
   * Replacing keeps the length and every other record in place; when the
   * replacement carries the same id, the id sequence is unchanged.
   */
  lemma ReplaceByIdSpec<T>(xs: seq<T>, key: T -> int, id: int, y: T)
    ensures var r := ReplaceById(xs, key, id, y);
      |r| == |xs| &&
      (forall i :: 0 <= i < |xs| ==> r[i] == if key(xs[i]) == id then y else xs[i]) &&
      (key(y) == id ==> Ids(r, key) == Ids(xs, key))
  {
  }

  /** With no record carrying the id, replacing changes nothing. */
  lemma ReplaceAbsent<T>(xs: seq<T>, key: T -> int, id: int, y: T)
    requires forall i :: 0 <= i < |xs| ==> key(xs[i]) != id
    ensures ReplaceById(xs, key, id, y) == xs
  {
  }

  /**
   * Removing keeps exactly the records with another id, in order, and
   * nothing with the id survives.
   */
  lemma {:induction false} RemoveByIdSpec<T>(xs: seq<T>, key: T -> int, id: int)
    ensures var r := RemoveById(xs, key, id);
      (forall x :: x in r <==> x in xs && key(x) != id) &&
      (forall i :: 0 <= i < |r| ==> key(r[i]) != id) &&
      IsSubsequence(r, xs)
  {
    FilterIsSubsequence(xs, x => key(x) != id);
  }

  /** Removing twice is removing once. */
  lemma RemoveByIdIdempotent<T>(xs: seq<T>, key: T -> int, id: int)
    ensures RemoveById(RemoveById(xs, key, id), key, id) == RemoveById(xs, key, id)
  {
    var p := (x: T) => key(x) != id;
    FilterAll(Filter(xs, p), p);
  }

  /** Removing drops exactly the records that carry the id. */
  lemma {:induction false} RemoveByIdCount<T>(xs: seq<T>, key: T -> int, id: int)
    ensures |RemoveById(xs, key, id)| == |xs| - |Filter(xs, x => key(x) == id)|
  {
    if |xs| > 0 {
      RemoveByIdCount(xs[1..], key, id);
    }
  }
}
