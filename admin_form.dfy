/**
 * The generic change handler of the admin forms (`handleFormChange` in
 * src/app/admin/page.tsx). A form's state is a JSON-like tree; an input's
 * `name` is a dotted path into it. The handler deep-copies the state, walks
 * to the parent of the last path part and assigns the input's value there,
 * as a list of lines when the parent is one of the multi-line fields.
 */
module AdminForm {
  import opened Wrappers
  import opened Strings

  /** A form state: texts, line lists, other scalars, arrays and objects. */
  datatype Json =
    | Text(text: string)
    | Lines(lines: seq<string>)
    | Scalar
    | Items(items: seq<Json>)
    | Obj(fields: map<string, Json>)

  /** The fields whose inputs hold one line per list entry. */
  const LINE_LIST_KEYS: set<string> :=
    {"longDescription", "syntaxBreakdown", "oldMethodDesc", "newMethodDesc", "details"}

  /** What the handler throws when the path does not lead to an object. */
  const TYPE_ERROR := "TypeError"

  /** `o[k]`: a field of an object, undefined otherwise. */
  function Child(o: Option<Json>, k: string): (r: Option<Json>)
    ensures r.Some? <==> o.Some? && o.value.Obj? && k in o.value.fields
  {
    if o.Some? && o.value.Obj? && k in o.value.fields then Some(o.value.fields[k]) else None
  }

  /** The value at a path, undefined when some step is not an object field. */
  function GetAt(j: Json, path: seq<string>): Option<Json>
    decreases |path|
  {
    if |path| == 0 then Some(j)
    else if j.Obj? && path[0] in j.fields then GetAt(j.fields[path[0]], path[1..])
    else None
  }

  /** The object at the parent of the last path part. */
  predicate ParentIsObject(j: Json, path: seq<string>)
    requires |path| >= 1
  {
    var parent := GetAt(j, path[..|path| - 1]);
    parent.Some? && parent.value.Obj?
  }

  /** The copy with `v` assigned at `path`; a type error when the parent is not an object. */
  function SetAt(j: Json, path: seq<string>, v: Json): (r: Result<Json>)
    requires |path| >= 1
    ensures r.Ok? ==> r.value.Obj?
    decreases |path|
  {
    if |path| == 1 then
      if j.Obj? then Ok(Obj(j.fields[path[0] := v])) else Err(TYPE_ERROR)
    else if j.Obj? && path[0] in j.fields then
      match SetAt(j.fields[path[0]], path[1..], v)
      case Ok(c) => Ok(Obj(j.fields[path[0] := c]))
      case Err(e) => Err(e)
    else Err(TYPE_ERROR)
  }

  /** `p` and `q` part ways: at some position both have a part and the parts differ. */
  predicate Diverge(p: seq<string>, q: seq<string>)
    decreases |p|
  {
    |p| > 0 && |q| > 0 && (p[0] != q[0] || Diverge(p[1..], q[1..]))
  }

  /** One more step of the walk is one more `Child`. */
  lemma {:induction false} GetAtSnoc(j: Json, p: seq<string>, k: string)
    ensures GetAt(j, p + [k]) == Child(GetAt(j, p), k)
    decreases |p|
  {
    if |p| > 0 {
      assert (p + [k])[1..] == p[1..] + [k];
      if j.Obj? && p[0] in j.fields {
        GetAtSnoc(j.fields[p[0]], p[1..], k);
      }
    }
  }

  /** The assignment succeeds exactly when the parent of the path is an object. */
  lemma {:induction false} SetAtOk(j: Json, path: seq<string>, v: Json)
    requires |path| >= 1
    ensures SetAt(j, path, v).Ok? <==> ParentIsObject(j, path)
    decreases |path|
  {
    if |path| > 1 {
      assert path[..|path| - 1][1..] == path[1..][..|path| - 2];
      if j.Obj? && path[0] in j.fields {
        SetAtOk(j.fields[path[0]], path[1..], v);
      }
    }
  }

  /** After the assignment the path reads back the assigned value. */
  lemma {:induction false} SetAtReadsBack(j: Json, path: seq<string>, v: Json)
    requires |path| >= 1 && SetAt(j, path, v).Ok?
    ensures GetAt(SetAt(j, path, v).value, path) == Some(v)
    decreases |path|
  {
    if |path| > 1 {
      SetAtReadsBack(j.fields[path[0]], path[1..], v);
    }
  }

  /** Every path that parts ways with the assigned one reads as before. */
  lemma {:induction false} SetAtElsewhere(j: Json, path: seq<string>, v: Json, q: seq<string>)
    requires |path| >= 1 && SetAt(j, path, v).Ok?
    requires Diverge(path, q)
    ensures GetAt(SetAt(j, path, v).value, q) == GetAt(j, q)
    decreases |path|
  {
    if |path| > 1 && path[0] == q[0] {
      SetAtElsewhere(j.fields[path[0]], path[1..], v, q[1..]);
    }
  }

  /** The stored value: the lines of `value` under a multi-line field, the text itself otherwise. */
  function FormValue(parts: seq<string>, value: string): (v: Json)
    ensures v.Lines? ==> Join(v.lines, "\n") == value
    ensures v.Text? ==> v.text == value
    ensures v.Lines? || v.Text?
  {
    if |parts| > 1 && parts[|parts| - 2] in LINE_LIST_KEYS then
      JoinSplit(value, '\n');
      Lines(Split(value, '\n'))
    else Text(value)
  }

  /**
   * `handleFormChange`: split the name on `.`, walk to the parent in a copy
   * of the state and assign the value there. The result is the new state,
   * or the type error the walk throws.
   */
  method HandleFormChange(prev: Json, name: string, value: string) returns (r: Result<Json>)
    ensures var parts := Split(name, '.');
      && (r.Ok? <==> ParentIsObject(prev, parts))
      && (r.Err? ==> r.message == TYPE_ERROR)
      && (r.Ok? ==> GetAt(r.value, parts) == Some(FormValue(parts, value)))
      && (r.Ok? ==> forall q :: Diverge(parts, q) ==> GetAt(r.value, q) == GetAt(prev, q))
  {
    var parts := Split(name, '.');
    var current := Some(prev);
    for i := 0 to |parts| - 1
      invariant current == GetAt(prev, parts[..i])
    {
      GetAtSnoc(prev, parts[..i], parts[i]);
      assert parts[..i + 1] == parts[..i] + [parts[i]];
      current := Child(current, parts[i]);
    }
    var v := FormValue(parts, value);
    SetAtOk(prev, parts, v);
    if current.None? || !current.value.Obj? {
      return Err(TYPE_ERROR);
    }
    r := SetAt(prev, parts, v);
    SetAtReadsBack(prev, parts, v);
    forall q | Diverge(parts, q)
      ensures GetAt(r.value, q) == GetAt(prev, q)
    {
      SetAtElsewhere(prev, parts, v, q);
    }
  }

  /** A two-part name under a multi-line field stores the lines of the value, which join back to it. */
  lemma LineFieldStoresLines(field: string, lang: string, value: string)
    requires field in LINE_LIST_KEYS && '.' !in field && '.' !in lang
    ensures Split(field + "." + lang, '.') == [field, lang]
    ensures FormValue([field, lang], value) == Lines(Split(value, '\n'))
  {
    var name := field + "." + lang;
    assert name[|field|] == '.';
    assert name[..|field|] == field;
    assert '.' in name;
    assert name[|field| + 1..] == lang;
  }
}
