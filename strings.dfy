/**
 * The JavaScript string operations the application relies on, written out
 * over `seq<char>`: prefix and substring tests, `trim`, `split` on one
 * character, `join`, ASCII lower-casing and decimal rendering of numbers.
 */
module Strings {
  import opened Wrappers

  // ---------------------------------------------------------------------
  // Prefixes and substrings

  predicate StartsWith(s: string, prefix: string) {
    |prefix| <= |s| && s[..|prefix|] == prefix
  }

  /** `s.includes(sub)`: `sub` occurs somewhere in `s`. */
  predicate Contains(s: string, sub: string)
    decreases |s|
  {
    StartsWith(s, sub) || (|s| > 0 && Contains(s[1..], sub))
  }

  lemma {:induction false} ContainsAt(s: string, sub: string, i: nat)
    requires i + |sub| <= |s| && s[i..i + |sub|] == sub
    ensures Contains(s, sub)
    decreases i
  {
    if i > 0 {
      assert s[1..][i - 1..i - 1 + |sub|] == sub;
      ContainsAt(s[1..], sub, i - 1);
    }
  }

  /** Where a contained substring starts. */
  lemma {:induction false} ContainsIndex(s: string, sub: string) returns (i: nat)
    requires Contains(s, sub)
    ensures i + |sub| <= |s| && s[i..i + |sub|] == sub
    decreases |s|
  {
    if StartsWith(s, sub) {
      i := 0;
    } else {
      var j := ContainsIndex(s[1..], sub);
      assert s[1..][j..j + |sub|] == s[j + 1..j + 1 + |sub|];
      i := j + 1;
    }
  }

  /** `sub` occurs in `s` starting at position `k`. */
  predicate OccursAt(s: string, sub: string, k: nat) {
    k + |sub| <= |s| && s[k..k + |sub|] == sub
  }

  /** `sub` is contained exactly when it occurs at some position of `s`. */
  lemma {:induction false} ContainsIff(s: string, sub: string)
    ensures Contains(s, sub) <==> exists k: nat :: OccursAt(s, sub, k)
  {
    if Contains(s, sub) {
      var i := ContainsIndex(s, sub);
      assert OccursAt(s, sub, i);
    }
    forall k: nat | OccursAt(s, sub, k)
      ensures Contains(s, sub)
    {
      ContainsAt(s, sub, k);
    }
  }

  /** The empty string is a substring of everything (`s.includes('')`). */
  lemma ContainsEmpty(s: string)
    ensures Contains(s, "")
  {
    assert StartsWith(s, "");
  }

  /** Index of the first occurrence of `c` in `s`. */
  function IndexOf(s: string, c: char): (i: nat)
    requires c in s
    ensures i < |s| && s[i] == c && c !in s[..i]
  {
    if s[0] == c then 0 else 1 + IndexOf(s[1..], c)
  }

  /** Index of the first occurrence of `sep` in `s`, if any. */
  function Find(s: string, sep: string): (r: Option<nat>)
    ensures r.Some? ==> r.value + |sep| <= |s| && s[r.value..r.value + |sep|] == sep
    ensures r.None? ==> !Contains(s, sep)
    decreases |s|
  {
    if StartsWith(s, sep) then Some(0)
    else if |s| == 0 then None
    else match Find(s[1..], sep)
      case None => None
      case Some(i) =>
        assert s[1..][i..i + |sep|] == s[i + 1..i + 1 + |sep|];
        Some(i + 1)
  }

  // ---------------------------------------------------------------------
  // Whitespace and trim

  /** ECMAScript WhiteSpace and LineTerminator code points: what `trim` removes. */
  predicate IsWhitespace(c: char) {
    c == '\t' || c == '\n' || c == '\U{000B}' || c == '\U{000C}' || c == '\r' ||
    c == ' ' || c == '\U{00A0}' || c == '\U{1680}' || ('\U{2000}' <= c <= '\U{200A}') ||
    c == '\U{2028}' || c == '\U{2029}' || c == '\U{202F}' || c == '\U{205F}' ||
    c == '\U{3000}' || c == '\U{FEFF}'
  }

  /** Characters a regular-expression `.` does not match. */
  predicate IsLineTerminator(c: char) {
    c == '\n' || c == '\r' || c == '\U{2028}' || c == '\U{2029}'
  }

  function TrimStart(s: string): (r: string)
    ensures |r| <= |s| && r == s[|s| - |r|..]
    ensures r == [] || !IsWhitespace(r[0])
    ensures forall i :: 0 <= i < |s| - |r| ==> IsWhitespace(s[i])
  {
    if |s| > 0 && IsWhitespace(s[0]) then TrimStart(s[1..]) else s
  }

  function TrimEnd(s: string): (r: string)
    ensures |r| <= |s| && r == s[..|r|]
    ensures r == [] || !IsWhitespace(r[|r| - 1])
    ensures forall i :: |r| <= i < |s| ==> IsWhitespace(s[i])
  {
    if |s| > 0 && IsWhitespace(s[|s| - 1]) then TrimEnd(s[..|s| - 1]) else s
  }

  /** `s.trim()`: `s` without its leading and trailing whitespace. */
  function Trim(s: string): (r: string)
  {
    TrimEnd(TrimStart(s))
  }

  /**
   * What `trim` promises: the result is a slice of the input that neither
   * starts nor ends with whitespace, and everything cut off is whitespace.
   */
  lemma TrimSpec(s: string)
    ensures var r, a := Trim(s), |s| - |TrimStart(s)|;
      (r == [] || (!IsWhitespace(r[0]) && !IsWhitespace(r[|r| - 1]))) &&
      a + |r| <= |s| && r == s[a..a + |r|] &&
      (forall i :: 0 <= i < a ==> IsWhitespace(s[i])) &&
      (forall i :: a + |r| <= i < |s| ==> IsWhitespace(s[i]))
  {
    var t := TrimStart(s);
    var r := TrimEnd(t);
    var a := |s| - |t|;
    assert r == s[a..a + |r|];
    forall i | a + |r| <= i < |s| ensures IsWhitespace(s[i]) {
      assert s[i] == t[i - a];
    }
  }

  /** A string without whitespace at either end is left as it is. */
  lemma TrimKeeps(s: string)
    requires s == [] || (!IsWhitespace(s[0]) && !IsWhitespace(s[|s| - 1]))
    ensures Trim(s) == s
  {
  }

  /** Trimming twice is trimming once. */
  lemma TrimIdempotent(s: string)
    ensures Trim(Trim(s)) == Trim(s)
  {
    TrimSpec(s);
    TrimKeeps(Trim(s));
  }

  // ---------------------------------------------------------------------
  // Split and join

  /** `s.split(c)` for a one-character separator. */
  function Split(s: string, c: char): (parts: seq<string>)
    ensures |parts| >= 1
  {
    if c !in s then [s]
    else
      var i := IndexOf(s, c);
      [s[..i]] + Split(s[i + 1..], c)
  }

  /** `parts.join(sep)`. */
  function Join(parts: seq<string>, sep: string): string {
    if |parts| == 0 then ""
    else if |parts| == 1 then parts[0]
    else parts[0] + sep + Join(parts[1..], sep)
  }

  /** Joining the pieces of a split with the separator gives the input back. */
  lemma {:induction false} JoinSplit(s: string, c: char)
    ensures Join(Split(s, c), [c]) == s
    decreases |s|
  {
    if c in s {
      var i := IndexOf(s, c);
      JoinSplit(s[i + 1..], c);
      assert s == s[..i] + [c] + s[i + 1..];
    }
  }

  /** No piece of a split contains the separator. */
  lemma {:induction false} SplitPiecesFree(s: string, c: char)
    ensures forall p :: p in Split(s, c) ==> c !in p
    decreases |s|
  {
    if c in s {
      SplitPiecesFree(s[IndexOf(s, c) + 1..], c);
    }
  }

  // ---------------------------------------------------------------------
  // Other edits

  /** `s.replace(/[...]/g, '')`: every character of `drop` removed. */
  function RemoveAll(s: string, drop: set<char>): (r: string)
    ensures forall c :: c in r ==> c in s && c !in drop
    ensures forall c :: c in s && c !in drop ==> c in r
  {
    if |s| == 0 then ""
    else (if s[0] in drop then "" else [s[0]]) + RemoveAll(s[1..], drop)
  }

  /** Removing characters distributes over concatenation. */
  lemma {:induction false} RemoveAllAppend(a: string, b: string, drop: set<char>)
    ensures RemoveAll(a + b, drop) == RemoveAll(a, drop) + RemoveAll(b, drop)
  {
    if |a| > 0 {
      assert (a + b)[1..] == a[1..] + b;
      RemoveAllAppend(a[1..], b, drop);
    } else {
      assert a + b == b;
    }
  }

  /** Removing characters that do not occur changes nothing. */
  lemma {:induction false} RemoveAllAbsent(s: string, drop: set<char>)
    requires forall c :: c in s ==> c !in drop
    ensures RemoveAll(s, drop) == s
  {
    if |s| > 0 {
      assert s[0] in s;
      RemoveAllAbsent(s[1..], drop);
      assert s == [s[0]] + s[1..];
    }
  }

  /** `s.replace(c, '')` with a string pattern: only the first occurrence goes. */
  function RemoveFirst(s: string, c: char): (r: string)
    ensures c !in s ==> r == s
    ensures c in s ==> r == s[..IndexOf(s, c)] + s[IndexOf(s, c) + 1..]
  {
    if c in s then s[..IndexOf(s, c)] + s[IndexOf(s, c) + 1..] else s
  }

  function LowerChar(c: char): char {
    if 'A' <= c <= 'Z' then (c as int + 32) as char else c
  }

  /** `s.toLowerCase()`, restricted to the ASCII letters. */
  function Lower(s: string): (r: string)
    ensures |r| == |s|
    ensures forall i :: 0 <= i < |s| ==> r[i] == LowerChar(s[i])
  {
    if |s| == 0 then "" else [LowerChar(s[0])] + Lower(s[1..])
  }

  // ---------------------------------------------------------------------
  // Decimal rendering of numbers (template literals, `toString()`)

  function Digit(d: nat): char
    requires d < 10
  {
    "0123456789"[d]
  }

  predicate IsDigit(c: char) {
    '0' <= c <= '9'
  }

  function NatToString(n: nat): (r: string)
    ensures |r| >= 1
    ensures forall i :: 0 <= i < |r| ==> IsDigit(r[i])
    ensures n >= 10 <==> |r| >= 2
  {
    if n < 10 then [Digit(n)] else NatToString(n / 10) + [Digit(n % 10)]
  }

  /** Different numbers render differently. */
  lemma {:induction false} NatToStringInjective(a: nat, b: nat)
    requires NatToString(a) == NatToString(b)
    ensures a == b
  {
    var sa, sb := NatToString(a), NatToString(b);
    if a >= 10 && b >= 10 {
      assert sa[|sa| - 1] == sb[|sb| - 1];
      assert a % 10 == b % 10;
      assert sa[..|sa| - 1] == NatToString(a / 10);
      assert sb[..|sb| - 1] == NatToString(b / 10);
      NatToStringInjective(a / 10, b / 10);
    } else {
      assert a < 10 && b < 10;
      assert sa[0] == sb[0];
    }
  }

  /** `${i}` for an integer, with a leading `-` for negative values. */
  function IntToString(i: int): (r: string)
    ensures |r| >= 1
    ensures forall k :: 0 <= k < |r| ==> r[k] != '-' ==> IsDigit(r[k])
    ensures i < 0 <==> r[0] == '-'
  {
    if i < 0 then "-" + NatToString(-i) else NatToString(i)
  }

  lemma IntToStringInjective(a: int, b: int)
    requires IntToString(a) == IntToString(b)
    ensures a == b
  {
    if a < 0 {
      assert IntToString(a)[1..] == NatToString(-a);
      assert IntToString(b)[1..] == NatToString(-b);
      NatToStringInjective(-a, -b);
    } else {
      NatToStringInjective(a, b);
    }
  }
}
