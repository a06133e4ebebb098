/**
 * `parseArguments` (src/lib/utils.ts): from a formula signature such as
 * `=XLOOKUP(lookup_value, lookup_array, return_array, [if_not_found])` to the
 * ordered list of its argument tokens.
 *
 * The two regular expressions of the source are written out as scans:
 * `/\((.*)\)/` captures the text between the first `(` that has a `)` after
 * it on the same line and the LAST such `)` (the `.*` is greedy and does not
 * cross line terminators); `/,(?![^()]*\))/` splits at every comma whose next
 * parenthesis character is not `)`.
 */
module ArgumentParser {
  import opened Wrappers
  import opened Strings

  // ---------------------------------------------------------------------
  // The `/\((.*)\)/` match

  /** First index at or after `i` holding a line terminator, or `|s|`. */
  function LineEnd(s: string, i: nat): (e: nat)
    requires i <= |s|
    ensures i <= e <= |s|
    ensures forall k :: i <= k < e ==> !IsLineTerminator(s[k])
    ensures e < |s| ==> IsLineTerminator(s[e])
    decreases |s| - i
  {
    if i == |s| || IsLineTerminator(s[i]) then i else LineEnd(s, i + 1)
  }

  /** Index of the last `)` in `s[lo..hi]`, if any. */
  function LastClose(s: string, lo: nat, hi: nat): (r: Option<nat>)
    requires lo <= hi <= |s|
    ensures r.Some? ==> lo <= r.value < hi && s[r.value] == ')' &&
                        forall k :: r.value < k < hi ==> s[k] != ')'
    ensures r.None? ==> forall k :: lo <= k < hi ==> s[k] != ')'
    decreases hi - lo
  {
    if lo == hi then None
    else if s[hi - 1] == ')' then Some(hi - 1)
    else LastClose(s, lo, hi - 1)
  }

  /** The regex engine tries start positions `i, i+1, ...` in turn. */
  function MatchFrom(s: string, i: nat): (r: Option<string>)
    requires i <= |s|
    decreases |s| - i
  {
    if i == |s| then None
    else if s[i] == '(' then
      match LastClose(s, i + 1, LineEnd(s, i + 1))
      case Some(j) => Some(s[i + 1..j])
      case None => MatchFrom(s, i + 1)
    else MatchFrom(s, i + 1)
  }

  /** `syntax.match(/\((.*)\)/)?.[1]`: the captured group, if the regex matches. */
  function CaptureGroup(s: string): Option<string> {
    MatchFrom(s, 0)
  }

  // ---------------------------------------------------------------------
  // The `/,(?![^()]*\))/` split

  /** The first parenthesis character of `t`, if there is one. */
  function NextParen(t: string): (r: Option<char>)
    ensures r.Some? ==> r.value == '(' || r.value == ')'
  {
    if |t| == 0 then None
    else if t[0] == '(' || t[0] == ')' then Some(t[0])
    else NextParen(t[1..])
  }

  /** The comma at `k` is a split point: the lookahead `(?![^()]*\))` succeeds. */
  predicate IsSplitComma(s: string, k: nat)
    requires k < |s|
  {
    s[k] == ',' && NextParen(s[k + 1..]) != Some(')')
  }

  function FirstSplitComma(s: string, from: nat): (r: Option<nat>)
    requires from <= |s|
    ensures r.Some? ==> from <= r.value < |s| && IsSplitComma(s, r.value) &&
                        forall k :: from <= k < r.value ==> !IsSplitComma(s, k)
    ensures r.None? ==> forall k :: from <= k < |s| ==> !IsSplitComma(s, k)
    decreases |s| - from
  {
    if from == |s| then None
    else if IsSplitComma(s, from) then Some(from)
    else FirstSplitComma(s, from + 1)
  }

  /** `s.split(/,(?![^()]*\))/)`: the pieces between split commas, untrimmed. */
  function SplitPieces(s: string): (parts: seq<string>)
    ensures |parts| >= 1
    decreases |s|
  {
    match FirstSplitComma(s, 0)
    case None => [s]
    case Some(k) => [s[..k]] + SplitPieces(s[k + 1..])
  }

  /** Number of split commas in `s`. */
  function SplitCommaCount(s: string): nat
    decreases |s|
  {
    if |s| == 0 then 0
    else (if IsSplitComma(s, 0) then 1 else 0) + SplitCommaCount(s[1..])
  }

  // ---------------------------------------------------------------------
  // parseArguments

  function TrimAll(parts: seq<string>): (r: seq<string>)
    ensures |r| == |parts|
    ensures forall k :: 0 <= k < |parts| ==> r[k] == Trim(parts[k])
  {
    if |parts| == 0 then [] else [Trim(parts[0])] + TrimAll(parts[1..])
  }

  /** A token as `trim` leaves it: no whitespace at either end. */
  predicate Trimmed(t: string) {
    t == [] || (!IsWhitespace(t[0]) && !IsWhitespace(t[|t| - 1]))
  }

  /**
   * `parseArguments(syntax)`: no tokens for an empty signature, for one
   * without a `(...)` group, and for an empty group; otherwise the trimmed
   * pieces of the group, one per split comma plus one.
   */
  function ParseArguments(syntax: string): (r: seq<string>)
    ensures syntax == "" ==> r == []
    ensures CaptureGroup(syntax).None? ==> r == []
    ensures CaptureGroup(syntax) == Some("") ==> r == []
    ensures forall k :: 0 <= k < |r| ==> Trimmed(r[k])
  {
    if syntax == "" then []
    else match CaptureGroup(syntax)
      case None => []
      case Some(inner) =>
        if inner == "" then []
        else
          var r := TrimAll(SplitPieces(inner));
          assert forall k :: 0 <= k < |r| ==> Trimmed(r[k]) by {
            forall k | 0 <= k < |r| ensures Trimmed(r[k]) {
              TrimSpec(SplitPieces(inner)[k]);
            }
          }
          r
  }

  // ---------------------------------------------------------------------
  // Properties of the match

  /** The regex fails exactly when no `(` has a `)` after it on its line. */
  lemma {:induction false} MatchFromNone(s: string, i: nat)
    requires i <= |s|
    requires forall a, b :: i <= a < b < |s| && s[a] == '(' && s[b] == ')' ==>
               exists k :: a < k < b && IsLineTerminator(s[k])
    ensures MatchFrom(s, i).None?
    decreases |s| - i
  {
    if i < |s| {
      if s[i] == '(' {
        var e := LineEnd(s, i + 1);
        var r := LastClose(s, i + 1, e);
        if r.Some? {
          assert false;
        }
      }
      MatchFromNone(s, i + 1);
    }
  }

  /** A `(` at `a` and a `)` at `b` after it, with no line terminator between them. */
  predicate SameLinePair(s: string, a: nat, b: nat) {
    a < b < |s| && s[a] == '(' && s[b] == ')' && forall k :: a < k < b ==> !IsLineTerminator(s[k])
  }

  /** The regex matches whenever some `(` has a `)` after it on its line. */
  lemma {:induction false} MatchFromSome(s: string, i: nat, a: nat, b: nat)
    requires i <= a && SameLinePair(s, a, b)
    ensures MatchFrom(s, i).Some?
    decreases a - i
  {
    if i == a {
      var e := LineEnd(s, a + 1);
      assert b < e;
      assert LastClose(s, a + 1, e).Some?;
    } else if !(s[i] == '(' && LastClose(s, i + 1, LineEnd(s, i + 1)).Some?) {
      MatchFromSome(s, i + 1, a, b);
    }
  }

  /** The regex matches exactly when some `(` has a `)` after it on its line. */
  lemma MatchFromIff(s: string)
    ensures CaptureGroup(s).Some? <==> exists a, b :: SameLinePair(s, a, b)
  {
    if a, b :| SameLinePair(s, a, b) {
      MatchFromSome(s, 0, a, b);
    } else {
      forall a, b | 0 <= a < b < |s| && s[a] == '(' && s[b] == ')'
        ensures exists k :: a < k < b && IsLineTerminator(s[k])
      {
        assert !SameLinePair(s, a, b);
      }
      MatchFromNone(s, 0);
    }
  }

  /** A signature without any `(` ... `)` pair yields no tokens. */
  lemma NoGroupNoTokens(syntax: string)
    requires forall a, b :: 0 <= a < b < |syntax| && syntax[a] == '(' ==> syntax[b] != ')'
    ensures ParseArguments(syntax) == []
  {
    MatchFromNone(syntax, 0);
  }

  /**
   * On a one-line signature the captured group runs from just after the
   * first `(` to just before the last `)` (the greedy match).
   */
  lemma {:induction false} GreedyCapture(s: string, open: nat, close: nat)
    requires forall k :: 0 <= k < |s| ==> !IsLineTerminator(s[k])
    requires open < close < |s| && s[open] == '(' && s[close] == ')'
    requires forall k :: 0 <= k < open ==> s[k] != '('
    requires forall k :: close < k < |s| ==> s[k] != ')'
    ensures CaptureGroup(s) == Some(s[open + 1..close])
  {
    SkipToOpen(s, 0, open);
    assert LineEnd(s, open + 1) == |s| by { LineEndNone(s, open + 1); }
  }

  lemma {:induction false} LineEndNone(s: string, i: nat)
    requires i <= |s|
    requires forall k :: i <= k < |s| ==> !IsLineTerminator(s[k])
    ensures LineEnd(s, i) == |s|
    decreases |s| - i
  {
    if i < |s| {
      LineEndNone(s, i + 1);
    }
  }

  lemma {:induction false} SkipToOpen(s: string, i: nat, open: nat)
    requires i <= open < |s|
    requires forall k :: i <= k < open ==> s[k] != '('
    ensures MatchFrom(s, i) == MatchFrom(s, open)
    decreases open - i
  {
    if i < open {
      SkipToOpen(s, i + 1, open);
    }
  }

  // ---------------------------------------------------------------------
  // Properties of the split

  /** Whether a comma splits depends only on the text from it onwards. */
  lemma SplitCommaSuffix(s: string, k: nat, j: nat)
    requires k + j < |s|
    ensures IsSplitComma(s[k..], j) == IsSplitComma(s, k + j)
  {
    assert s[k..][j + 1..] == s[k + j + 1..];
  }

  lemma {:induction false} CountFrom(s: string, from: nat)
    requires from <= |s|
    requires forall k :: 0 <= k < from ==> !IsSplitComma(s, k)
    ensures SplitCommaCount(s) == SplitCommaCount(s[from..])
    decreases from
  {
    if from > 0 {
      forall k | 0 <= k < from - 1 ensures !IsSplitComma(s[1..], k) {
        SplitCommaSuffix(s, 1, k);
      }
      CountFrom(s[1..], from - 1);
      assert s[1..][from - 1..] == s[from..];
    }
  }

  /** Splitting yields one piece per split comma, plus one. */
  lemma {:induction false} PieceCount(s: string)
    ensures |SplitPieces(s)| == SplitCommaCount(s) + 1
    decreases |s|
  {
    match FirstSplitComma(s, 0)
    case None =>
      CountFrom(s, |s|);
    case Some(k) =>
      CountFrom(s, k);
      SplitCommaSuffix(s, k, 0);
      assert s[k..][1..] == s[k + 1..];
      PieceCount(s[k + 1..]);
  }

  /** Gluing the pieces back together with commas restores the group text. */
  lemma {:induction false} PiecesRejoin(s: string)
    ensures Join(SplitPieces(s), ",") == s
    decreases |s|
  {
    match FirstSplitComma(s, 0)
    case None =>
    case Some(k) =>
      PiecesRejoin(s[k + 1..]);
      assert s == s[..k] + "," + s[k + 1..];
  }

  lemma {:induction false} NoParenAhead(t: string)
    requires '(' !in t && ')' !in t
    ensures NextParen(t) == None
    decreases |t|
  {
    if |t| > 0 {
      assert t[0] in t;
      NoParenAhead(t[1..]);
    }
  }

  /** Without parentheses in the group, every comma separates two arguments. */
  lemma {:induction false} FlatGroupSplitsAtEveryComma(s: string)
    requires '(' !in s && ')' !in s
    ensures SplitPieces(s) == Split(s, ',')
    decreases |s|
  {
    forall k | 0 <= k < |s| ensures IsSplitComma(s, k) == (s[k] == ',') {
      NoParenAhead(s[k + 1..]);
    }
    if ',' in s {
      var i := IndexOf(s, ',');
      assert FirstSplitComma(s, 0) == Some(i);
      FlatGroupSplitsAtEveryComma(s[i + 1..]);
    } else {
      assert FirstSplitComma(s, 0) == None;
    }
  }

  /**
   * The whole contract of `parseArguments` on a non-empty group: one token
   * per split comma plus one, each the trimmed piece at its position, the
   * pieces rejoining to the group, in left-to-right order.
   */
  lemma ParseArgumentsSpec(syntax: string, inner: string)
    requires syntax != "" && CaptureGroup(syntax) == Some(inner) && inner != ""
    ensures var r, pieces := ParseArguments(syntax), SplitPieces(inner);
      |r| == SplitCommaCount(inner) + 1 &&
      (forall k :: 0 <= k < |r| ==> r[k] == Trim(pieces[k])) &&
      Join(pieces, ",") == inner
  {
    PieceCount(inner);
    PiecesRejoin(inner);
  }

  // ---------------------------------------------------------------------
  // Worked examples from the documentation comment and the design

  /** On a non-empty group, the tokens are the trimmed split pieces of the group. */
  lemma {:induction false} ParseGroup(syntax: string, inner: string)
    requires syntax != "" && CaptureGroup(syntax) == Some(inner) && inner != ""
    ensures ParseArguments(syntax) == TrimAll(SplitPieces(inner))
  {
  }

  /** Text without commas has no split comma from any position. */
  lemma {:induction false} NoCommaNoSplit(s: string, from: nat)
    requires from <= |s| && ',' !in s
    ensures FirstSplitComma(s, from) == None
    decreases |s| - from
  {
    if from < |s| {
      assert s[from] in s;
      assert !IsSplitComma(s, from);
      NoCommaNoSplit(s, from + 1);
    }
  }

  /** Text without commas is a single piece. */
  lemma {:induction false} NoCommaOnePiece(s: string)
    requires ',' !in s
    ensures SplitPieces(s) == [s]
  {
    NoCommaNoSplit(s, 0);
  }

  lemma EmptyGroupExample()
    ensures ParseArguments("=PI()") == []
  {
    GreedyCapture("=PI()", 3, 4);
  }

  /** A group holding only blanks is not caught by the empty-group guard. */
  lemma BlankGroupExample()
    ensures ParseArguments("=F( )") == [""]
  {
    BlankCapture();
    NoCommaOnePiece(" ");
    ParseGroup("=F( )", " ");
    BlankTrim();
  }

  lemma BlankCapture()
    ensures CaptureGroup("=F( )") == Some(" ")
  {
    var s := "=F( )";
    GreedyCapture(s, 2, 4);
    assert s[3..4] == " ";
  }

  lemma BlankTrim()
    ensures Trim(" ") == ""
  {
    assert IsWhitespace(' ');
    assert TrimStart(" ") == "";
  }

  /** A comma inside a nested call is not a split point. */
  lemma NestedCallExample()
    ensures ParseArguments("=IF(AND(a,b), c)") == ["AND(a,b)", "c"]
  {
    NestedCallCapture();
    NestedCallPieces();
    ParseGroup("=IF(AND(a,b), c)", "AND(a,b), c");
    TrimNestedPieces();
  }

  lemma TrimNestedPieces()
    ensures TrimAll(["AND(a,b)", " c"]) == ["AND(a,b)", "c"]
  {
    TrimCall();
    TrimBlankC();
    TrimPair("AND(a,b)", " c", "AND(a,b)", "c");
  }

  lemma {:induction false} TrimPair(a: string, b: string, ta: string, tb: string)
    requires Trim(a) == ta && Trim(b) == tb
    ensures TrimAll([a, b]) == [ta, tb]
  {
    var parts := [a, b];
    var r := TrimAll(parts);
    assert r[0] == Trim(parts[0]) && r[1] == Trim(parts[1]);
    assert r == [r[0], r[1]];
  }

  lemma TrimCall()
    ensures Trim("AND(a,b)") == "AND(a,b)"
  {
    var t := "AND(a,b)";
    assert t[0] == 'A' && t[|t| - 1] == ')';
    TrimKeeps(t);
  }

  lemma TrimBlankC()
    ensures Trim(" c") == "c"
  {
    assert IsWhitespace(' ') && !IsWhitespace('c');
    assert TrimStart(" c") == "c";
    TrimKeeps("c");
  }

  lemma NestedCallCapture()
    ensures CaptureGroup("=IF(AND(a,b), c)") == Some("AND(a,b), c")
  {
    var inner := "AND(a,b), c";
    var s := "=IF(" + inner + ")";
    assert s == "=IF(AND(a,b), c)";
    assert s[4..15] == inner;
    assert |s| == 16 && s[3] == '(' && s[15] == ')';
    assert s[0] == '=' && s[1] == 'I' && s[2] == 'F';
    forall k | 0 <= k < |s| ensures !IsLineTerminator(s[k]) {
    }
    GreedyCapture(s, 3, 15);
  }

  lemma NestedCallPieces()
    ensures SplitPieces("AND(a,b), c") == ["AND(a,b)", " c"]
  {
    var inner := "AND(a,b), c";
    NestedCallFirstComma();
    assert inner[..8] == "AND(a,b)";
    assert inner[9..] == " c";
    NoCommaOnePiece(" c");
  }

  lemma NestedCallFirstComma()
    ensures FirstSplitComma("AND(a,b), c", 0) == Some(8)
  {
    var inner := "AND(a,b), c";
    assert inner[6..] == "b), c";
    assert NextParen(inner[6..]) == Some(')');
    assert !IsSplitComma(inner, 5);
    assert inner[9..] == " c";
    assert " c"[1..] == "c" && "c"[1..] == "";
    assert NextParen(inner[9..]) == None;
    assert IsSplitComma(inner, 8);
  }

  // ---------------------------------------------------------------------
  // Round trip: a signature written from plain argument names parses back

  /** An argument name as a signature writes it: non-empty, trimmed, no commas or parentheses, on one line. */
  predicate PlainName(n: string) {
    n != "" && Trimmed(n) &&
    forall i :: 0 <= i < |n| ==> n[i] != ',' && n[i] != '(' && n[i] != ')' && !IsLineTerminator(n[i])
  }

  /** `head(a, b, c)`: a signature with the names separated by `", "`. */
  function Signature(head: string, names: seq<string>): string {
    head + "(" + Join(names, ", ") + ")"
  }

  lemma {:induction false} JoinedNamesFlat(names: seq<string>)
    requires forall k :: 0 <= k < |names| ==> PlainName(names[k])
    ensures var j := Join(names, ", ");
      '(' !in j && ')' !in j && forall i :: 0 <= i < |j| ==> !IsLineTerminator(j[i])
    ensures |names| >= 1 ==> Join(names, ", ") != ""
  {
    if |names| > 1 {
      JoinedNamesFlat(names[1..]);
      var j := Join(names, ", ");
      var rest := Join(names[1..], ", ");
      assert j == names[0] + ", " + rest;
      forall i | 0 <= i < |j| ensures !IsLineTerminator(j[i]) && j[i] != '(' && j[i] != ')' {
        if i >= |names[0]| + 2 {
          assert j[i] == rest[i - |names[0]| - 2];
        }
      }
    }
  }

  /** Splitting `p + Join(names, ", ")` at commas: each later piece keeps its leading blank. */
  lemma {:induction false} SplitJoinedNames(p: string, names: seq<string>)
    requires |names| >= 1 && ',' !in p
    requires forall k :: 0 <= k < |names| ==> ',' !in names[k]
    ensures var parts := Split(p + Join(names, ", "), ',');
      |parts| == |names| && parts[0] == p + names[0] &&
      forall k :: 1 <= k < |names| ==> parts[k] == " " + names[k]
    decreases |names|
  {
    var s := p + Join(names, ", ");
    if |names| == 1 {
      assert ',' !in s;
    } else {
      var n := FirstCommaOfJoin(p, names);
      SplitJoinedNames(" ", names[1..]);
      assert Split(s, ',') == [s[..n]] + Split(s[n + 1..], ',');
      ShiftedNames(p + names[0], Split(s[n + 1..], ','), names);
    }
  }

  /** The parts of the rest, each `" " + name`, follow the first part. */
  lemma {:induction false} ShiftedNames(first: string, tail: seq<string>, names: seq<string>)
    requires |names| >= 2 && |tail| == |names| - 1
    requires tail[0] == " " + names[1..][0]
    requires forall k :: 1 <= k < |names[1..]| ==> tail[k] == " " + names[1..][k]
    ensures var parts := [first] + tail;
      |parts| == |names| && parts[0] == first &&
      forall k :: 1 <= k < |names| ==> parts[k] == " " + names[k]
  {
    forall k | 1 <= k < |names| ensures ([first] + tail)[k] == " " + names[k] {
      assert ([first] + tail)[k] == tail[k - 1];
      assert names[1..][k - 1] == names[k];
    }
  }

  lemma FirstCommaOfJoin(p: string, names: seq<string>) returns (n: nat)
    requires |names| >= 2 && ',' !in p && ',' !in names[0]
    ensures var s := p + Join(names, ", ");
      n == IndexOf(s, ',') && s[..n] == p + names[0] && s[n + 1..] == " " + Join(names[1..], ", ")
  {
    var s := p + Join(names, ", ");
    var rest := Join(names[1..], ", ");
    n := |p| + |names[0]|;
    assert s == (p + names[0]) + "," + (" " + rest);
    assert ',' !in p + names[0];
    assert s[n] == ',' && s[..n] == p + names[0];
    assert s[n + 1..] == " " + rest;
  }

  lemma TrimBlankName(n: string)
    requires PlainName(n)
    ensures Trim(" " + n) == n
  {
    assert (" " + n)[1..] == n;
    TrimKeeps(n);
  }

  /** The group of a signature is its joined names. */
  lemma {:induction false} SignatureCapture(head: string, names: seq<string>)
    requires '(' !in head && forall i :: 0 <= i < |head| ==> !IsLineTerminator(head[i])
    requires |names| >= 1 && forall k :: 0 <= k < |names| ==> PlainName(names[k])
    ensures CaptureGroup(Signature(head, names)) == Some(Join(names, ", "))
  {
    var inner := Join(names, ", ");
    var s := Signature(head, names);
    JoinedNamesFlat(names);
    forall i | 0 <= i < |s| ensures !IsLineTerminator(s[i]) {
      if i < |head| {
        assert s[i] == head[i];
      } else if |head| < i < |s| - 1 {
        assert s[i] == inner[i - |head| - 1];
      }
    }
    forall k | 0 <= k < |head| ensures s[k] != '(' {
      assert s[k] == head[k];
    }
    GreedyCapture(s, |head|, |s| - 1);
    assert s[|head| + 1..|s| - 1] == inner;
  }

  /** Trimming the comma-split joined names gives the names back. */
  lemma {:induction false} JoinedNamesTokens(names: seq<string>)
    requires |names| >= 1 && forall k :: 0 <= k < |names| ==> PlainName(names[k])
    ensures TrimAll(Split(Join(names, ", "), ',')) == names
  {
    var inner := Join(names, ", ");
    forall k | 0 <= k < |names| ensures ',' !in names[k] {
      assert PlainName(names[k]);
    }
    SplitJoinedNames("", names);
    assert "" + inner == inner;
    var parts := Split(inner, ',');
    var r := TrimAll(parts);
    forall k | 0 <= k < |names| ensures r[k] == names[k] {
      if k == 0 {
        assert parts[0] == names[0];
        TrimKeeps(names[0]);
      } else {
        TrimBlankName(names[k]);
      }
    }
  }

  /**
   * Round trip: a signature whose head has no `(`, written from plain
   * argument names, parses back to exactly those names.
   */
  lemma {:induction false} ParseSignature(head: string, names: seq<string>)
    requires '(' !in head && forall i :: 0 <= i < |head| ==> !IsLineTerminator(head[i])
    requires |names| >= 1 && forall k :: 0 <= k < |names| ==> PlainName(names[k])
    ensures ParseArguments(Signature(head, names)) == names
  {
    var inner := Join(names, ", ");
    SignatureCapture(head, names);
    JoinedNamesFlat(names);
    FlatGroupSplitsAtEveryComma(inner);
    ParseGroup(Signature(head, names), inner);
    JoinedNamesTokens(names);
  }

  /** The example in the documentation comment of `parseArguments`. */
  lemma DocumentedExample()
    ensures ParseArguments(Signature("=XLOOKUP",
              ["lookup_value", "lookup_array", "return_array", "[if_not_found]"]))
         == ["lookup_value", "lookup_array", "return_array", "[if_not_found]"]
  {
    var names := ["lookup_value", "lookup_array", "return_array", "[if_not_found]"];
    assert PlainName(names[0]) && PlainName(names[1]);
    assert PlainName(names[2]) && PlainName(names[3]);
    ParseSignature("=XLOOKUP", names);
  }
}
