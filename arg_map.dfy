/**
 * The `args` object of a placed builder function: argument name to the text
 * typed for it. JavaScript objects keep string keys in insertion order, so
 * the object is an association list whose keys are pairwise distinct.
 */
module ArgMap {
  import opened Wrappers

  type Args = seq<(string, string)>

  /** The keys, in insertion order (`Object.keys`). */
  function Keys(args: Args): (ks: seq<string>)
    ensures |ks| == |args|
    ensures forall i :: 0 <= i < |args| ==> ks[i] == args[i].0
  {
    if |args| == 0 then [] else [args[0].0] + Keys(args[1..])
  }

  /** The values, in key order (`Object.values`). */
  function Values(args: Args): (vs: seq<string>)
    ensures |vs| == |args|
    ensures forall i :: 0 <= i < |args| ==> vs[i] == args[i].1
  {
    if |args| == 0 then [] else [args[0].1] + Values(args[1..])
  }

  /** No key appears twice, as in any JavaScript object. */
  predicate DistinctKeys(args: Args) {
    forall i, j :: 0 <= i < j < |args| ==> args[i].0 != args[j].0
  }

  /** `args[key]`, `None` standing for `undefined`. */
  function Lookup(args: Args, key: string): (r: Option<string>)
    ensures r.None? <==> key !in Keys(args)
    ensures r.Some? ==> exists i :: 0 <= i < |args| && args[i] == (key, r.value)
  {
    if |args| == 0 then None
    else if args[0].0 == key then Some(args[0].1)
    else Lookup(args[1..], key)
  }

  /**
   * `{...args, [key]: value}` (or `acc[key] = value`): an existing key keeps
   * its position and takes the new value, a new key goes last.
   */
  function Assign(args: Args, key: string, value: string): (r: Args)
    ensures key in Keys(args) ==> |r| == |args| && Keys(r) == Keys(args)
    ensures key !in Keys(args) ==> r == args + [(key, value)]
  {
    if |args| == 0 then [(key, value)]
    else if args[0].0 == key then [(key, value)] + args[1..]
    else [args[0]] + Assign(args[1..], key, value)
  }

  /** After an assignment the key reads back the new value. */
  lemma {:induction false} AssignReadsBack(args: Args, key: string, value: string)
    ensures Lookup(Assign(args, key, value), key) == Some(value)
  {
    if |args| > 0 && args[0].0 != key {
      AssignReadsBack(args[1..], key, value);
    }
  }

  /** An assignment leaves every other key as it was. */
  lemma {:induction false} AssignKeepsOthers(args: Args, key: string, value: string, other: string)
    requires other != key
    ensures Lookup(Assign(args, key, value), other) == Lookup(args, other)
  {
    if |args| > 0 && args[0].0 != key {
      AssignKeepsOthers(args[1..], key, value, other);
    }
  }

  /** Assignments keep the keys distinct. */
  lemma {:induction false} AssignDistinct(args: Args, key: string, value: string)
    requires DistinctKeys(args)
    ensures DistinctKeys(Assign(args, key, value))
  {
    var r := Assign(args, key, value);
    if key in Keys(args) {
      assert forall i :: 0 <= i < |r| ==> r[i].0 == Keys(r)[i] == Keys(args)[i] == args[i].0;
    } else {
      forall i | 0 <= i < |args| ensures args[i].0 != key {
        assert Keys(args)[i] == args[i].0;
      }
    }
  }

  /** Assigning `""` to a blank object keeps every value blank. */
  lemma {:induction false} AssignAllBlank(args: Args, key: string)
    requires forall i :: 0 <= i < |args| ==> args[i].1 == ""
    ensures forall i :: 0 <= i < |Assign(args, key, "")| ==> Assign(args, key, "")[i].1 == ""
  {
    if |args| > 0 && args[0].0 != key {
      AssignAllBlank(args[1..], key);
      assert Assign(args, key, "") == [args[0]] + Assign(args[1..], key, "");
    }
  }

  /**
   * `names.reduce((acc, arg) => { acc[arg] = ''; return acc; }, {})` as a
   * left fold: every name becomes a key with the empty value.
   */
  function BlankArgs(names: seq<string>): Args
  {
    if |names| == 0 then []
    else Assign(BlankArgs(names[..|names| - 1]), names[|names| - 1], "")
  }

  /** The names with every repeat after the first occurrence dropped, in order. */
  function FirstOccurrences(names: seq<string>): (r: seq<string>)
    ensures |r| <= |names|
    ensures forall n :: n in r <==> n in names
  {
    if |names| == 0 then []
    else
      var init, last := names[..|names| - 1], names[|names| - 1];
      assert names == init + [last];
      if last in init then FirstOccurrences(init) else FirstOccurrences(init) + [last]
  }

  /** The blank object lists its keys in the order the names first appear. */
  lemma {:induction false} BlankArgsKeys(names: seq<string>)
    ensures Keys(BlankArgs(names)) == FirstOccurrences(names)
  {
    if |names| > 0 {
      var init, last := names[..|names| - 1], names[|names| - 1];
      BlankArgsKeys(init);
      var prev := BlankArgs(init);
      if last !in init {
        assert Keys(prev + [(last, "")]) == Keys(prev) + [last];
      }
    }
  }

  /**
   * The blank argument object: distinct keys, exactly the given names, all
   * mapped to `""`; a repeated name collapses into one key.
   */
  lemma {:induction false} BlankArgsSpec(names: seq<string>)
    ensures DistinctKeys(BlankArgs(names))
    ensures |BlankArgs(names)| <= |names|
    ensures forall n :: n in names <==> n in Keys(BlankArgs(names))
    ensures forall i :: 0 <= i < |BlankArgs(names)| ==> BlankArgs(names)[i].1 == ""
  {
    if |names| > 0 {
      var init, last := names[..|names| - 1], names[|names| - 1];
      BlankArgsSpec(init);
      var prev := BlankArgs(init);
      AssignDistinct(prev, last, "");
      AssignAllBlank(prev, last);
    }
    BlankArgsKeys(names);
  }

  /** With distinct argument names the keys are exactly the names, in slot order. */
  lemma {:induction false} BlankArgsKeysInOrder(names: seq<string>)
    requires forall i, j :: 0 <= i < j < |names| ==> names[i] != names[j]
    ensures Keys(BlankArgs(names)) == names
  {
    BlankArgsKeys(names);
    DistinctFirstOccurrences(names);
  }

  lemma {:induction false} DistinctFirstOccurrences(names: seq<string>)
    requires forall i, j :: 0 <= i < j < |names| ==> names[i] != names[j]
    ensures FirstOccurrences(names) == names
  {
    if |names| > 0 {
      var init, last := names[..|names| - 1], names[|names| - 1];
      DistinctFirstOccurrences(init);
      assert last !in init by {
        forall i | 0 <= i < |init| ensures init[i] != last {
          assert init[i] == names[i];
        }
      }
      assert names == init + [last];
    }
  }

  /** In the blank object every name reads back as `""`. */
  lemma BlankArgsLookup(names: seq<string>, n: string)
    requires n in names
    ensures Lookup(BlankArgs(names), n) == Some("")
  {
    BlankArgsSpec(names);
    var r := BlankArgs(names);
    var v := Lookup(r, n).value;
    var j :| 0 <= j < |r| && r[j] == (n, v);
  }

  /**
   * The loop that builds the blank object, one `acc[arg] = ''` per name.
   */
  method InitialArgValues(names: seq<string>) returns (acc: Args)
    ensures acc == BlankArgs(names)
  {
    acc := [];
    var i := 0;
    while i < |names|
      invariant 0 <= i <= |names|
      invariant acc == BlankArgs(names[..i])
    {
      assert names[..i + 1][..i] == names[..i];
      acc := Assign(acc, names[i], "");
      i := i + 1;
    }
    assert names[..|names|] == names;
  }
}
