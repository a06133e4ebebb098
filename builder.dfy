/**
 * The formula builder page (src/app/builder/page.tsx): formulas dragged from
 * the library are placed in order, each with a blank value per argument;
 * values come from typing or from the sample grid; the placed functions are
 * rendered as one formula and can be sent off for evaluation.
 */
module Builder {
  import opened Wrappers
  import opened Strings
  import opened Records
  import opened Seqs
  import opened ArgumentParser
  import opened ArgMap
  import opened BuilderItem

  /** A formula placed in the builder. */
  datatype BuiltFunction = BuiltFunction(id: string, formula: Formula, args: Args)

  const API_KEY_MISSING := "Please enter your Gemini API key to calculate the result."
  const NOTHING_BUILT := "Please build a formula before calculating."
  const UNKNOWN_CALCULATION_ERROR := "An unknown error occurred during calculation."

  // ---------------------------------------------------------------------
  // Library search

  predicate TitleMatches(f: Formula, term: string, lang: Language) {
    Contains(Lower(f.title.Get(lang)), Lower(term)) || Contains(Lower(f.title.en), Lower(term))
  }

  /**
   * The library list: everything for an empty search term, otherwise the
   * formulas whose title in the current language or in English contains the
   * term, ignoring case, in library order.
   */
  function LibraryFormulas(formulas: seq<Formula>, term: string, lang: Language): (r: seq<Formula>)
    ensures term == "" ==> r == formulas
    ensures term != "" ==> forall i :: 0 <= i < |r| ==> r[i] in formulas && TitleMatches(r[i], term, lang)
    ensures forall i :: 0 <= i < |formulas| && TitleMatches(formulas[i], term, lang) ==> formulas[i] in r
    ensures IsSubsequence(r, formulas)
  {
    if term == "" then
      FilterAll(formulas, (f: Formula) => true);
      FilterIsSubsequence(formulas, (f: Formula) => true);
      formulas
    else
      var r := Filter(formulas, (f: Formula) => TitleMatches(f, term, lang));
      FilterIsSubsequence(formulas, (f: Formula) => TitleMatches(f, term, lang));
      r
  }

  // ---------------------------------------------------------------------
  // Dropping a formula

  /** `formulas.find(f => f.id.toString() === droppedId)`, as an index or -1. */
  function FindDropped(formulas: seq<Formula>, droppedId: string): (k: int)
    ensures -1 <= k < |formulas|
    ensures k >= 0 ==> IntToString(formulas[k].id) == droppedId &&
                       forall j :: 0 <= j < k ==> IntToString(formulas[j].id) != droppedId
    ensures k == -1 ==> forall j :: 0 <= j < |formulas| ==> IntToString(formulas[j].id) != droppedId
  {
    if |formulas| == 0 then -1
    else if IntToString(formulas[0].id) == droppedId then 0
    else
      var k := FindDropped(formulas[1..], droppedId);
      if k == -1 then -1 else k + 1
  }

  /** `${formula.id}-${Date.now()}`, with the clock reading passed in. */
  function InstanceId(formulaId: int, now: nat): string {
    IntToString(formulaId) + "-" + NatToString(now)
  }

  /**
   * Two placed instances get the same id exactly when they come from the same
   * formula at the same clock reading: ids are not unique in general.
   */
  lemma InstanceIdCollision(a: int, t: nat, b: int, u: nat)
    ensures InstanceId(a, t) == InstanceId(b, u) <==> a == b && t == u
  {
    if InstanceId(a, t) == InstanceId(b, u) {
      var sa, sb := IntToString(a), IntToString(b);
      var s := InstanceId(a, t);
      assert |sa| == |sb| by {
        if |sa| < |sb| {
          DashOnlyInFront(sa, sb, NatToString(t), NatToString(u));
        } else if |sb| < |sa| {
          DashOnlyInFront(sb, sa, NatToString(u), NatToString(t));
        }
      }
      assert sa == s[..|sa|] == sb;
      assert NatToString(t) == s[|sa| + 1..] == NatToString(u);
      IntToStringInjective(a, b);
      NatToStringInjective(t, u);
    }
  }

  /** A rendered integer has no `-` past its first character, so the separator fixes the split. */
  lemma DashOnlyInFront(sa: string, sb: string, ta: string, tb: string)
    requires |sa| >= 1 && |sa| < |sb|
    requires forall k :: 0 <= k < |sb| ==> sb[k] != '-' ==> IsDigit(sb[k])
    requires sb[0] == '-' ==> forall k :: 1 <= k < |sb| ==> IsDigit(sb[k])
    requires forall k :: 1 <= k < |sb| ==> sb[k] != '-'
    ensures sa + "-" + ta != sb + "-" + tb
  {
    assert (sa + "-" + ta)[|sa|] == '-';
    assert (sb + "-" + tb)[|sa|] == sb[|sa|];
  }

  /** The instance a drop places: a fresh id and a blank value for every argument token. */
  function Placed(f: Formula, now: nat): BuiltFunction {
    BuiltFunction(InstanceId(f.id, now), f, BlankArgs(ParseArguments(f.syntax)))
  }

  // ---------------------------------------------------------------------
  // Editing placed functions

  /** `prev.filter(func => func.id !== id)`. */
  function RemoveId(fs: seq<BuiltFunction>, id: string): (r: seq<BuiltFunction>)
    ensures forall i :: 0 <= i < |r| ==> r[i].id != id && r[i] in fs
    ensures forall i :: 0 <= i < |fs| && fs[i].id != id ==> fs[i] in r
    ensures IsSubsequence(r, fs)
  {
    FilterIsSubsequence(fs, (f: BuiltFunction) => f.id != id);
    Filter(fs, (f: BuiltFunction) => f.id != id)
  }

  /** Removing an id nobody has changes nothing. */
  lemma RemoveAbsentId(fs: seq<BuiltFunction>, id: string)
    requires forall i :: 0 <= i < |fs| ==> fs[i].id != id
    ensures RemoveId(fs, id) == fs
  {
    FilterAll(fs, (f: BuiltFunction) => f.id != id);
  }

  /** `args: {...func.args, [argName]: value}` on every instance with the id. */
  function ChangeArgument(fs: seq<BuiltFunction>, id: string, argName: string, value: string): (r: seq<BuiltFunction>)
    ensures |r| == |fs|
    ensures forall i :: 0 <= i < |fs| ==> r[i].id == fs[i].id && r[i].formula == fs[i].formula
    ensures forall i :: 0 <= i < |fs| && fs[i].id != id ==> r[i] == fs[i]
    ensures forall i :: 0 <= i < |fs| && fs[i].id == id ==> r[i].args == Assign(fs[i].args, argName, value)
  {
    seq(|fs|, i requires 0 <= i < |fs| =>
      if fs[i].id == id then fs[i].(args := Assign(fs[i].args, argName, value)) else fs[i])
  }

  /**
   * After a change the argument of every instance with the id reads back the
   * new value, and every other argument reads as before.
   */
  lemma ChangeArgumentEffect(fs: seq<BuiltFunction>, id: string, argName: string, value: string, i: nat, other: string)
    requires i < |fs| && fs[i].id == id && other != argName
    ensures Lookup(ChangeArgument(fs, id, argName, value)[i].args, argName) == Some(value)
    ensures Lookup(ChangeArgument(fs, id, argName, value)[i].args, other) == Lookup(fs[i].args, other)
  {
    AssignReadsBack(fs[i].args, argName, value);
    AssignKeepsOthers(fs[i].args, argName, value, other);
  }

  /** A change aimed at an id nobody has changes nothing. */
  lemma ChangeAbsentId(fs: seq<BuiltFunction>, id: string, argName: string, value: string)
    requires forall i :: 0 <= i < |fs| ==> fs[i].id != id
    ensures ChangeArgument(fs, id, argName, value) == fs
  {
  }

  // ---------------------------------------------------------------------
  // The preview

  /** `syntax.split('(')[0].replace('=', '')`: the name before the `(`, first `=` dropped. */
  function FunctionName(syntax: string): (name: string)
    ensures '(' !in name
  {
    var head := Split(syntax, '(')[0];
    SplitPiecesFree(syntax, '(');
    RemoveFirst(head, '=')
  }

  /** `=NAME(args...)` gives `NAME`. */
  lemma FunctionNameOf(name: string, rest: string)
    requires '(' !in name && '=' !in name
    ensures FunctionName("=" + name + "(" + rest) == name
  {
    var s := "=" + name + "(" + rest;
    assert s[1 + |name|] == '(';
    assert '(' !in s[..1 + |name|] by {
      assert s[..1 + |name|] == "=" + name;
    }
    assert IndexOf(s, '(') == 1 + |name|;
    assert Split(s, '(')[0] == "=" + name;
    assert IndexOf("=" + name, '=') == 0;
  }

  /** `val || '...'`: an empty value shows as `...`. */
  function Shown(v: string): (r: string)
    ensures r != ""
    ensures v != "" ==> r == v
  {
    if v == "" then "..." else v
  }

  function ShownAll(vs: seq<string>): (r: seq<string>)
    ensures |r| == |vs|
    ensures forall i :: 0 <= i < |vs| ==> r[i] == Shown(vs[i])
  {
    if |vs| == 0 then [] else [Shown(vs[0])] + ShownAll(vs[1..])
  }

  /** One instance as `NAME(v1, v2, ...)`. */
  function Call(f: BuiltFunction): string {
    FunctionName(f.formula.syntax) + "(" + Join(ShownAll(Values(f.args)), ", ") + ")"
  }

  function Calls(fs: seq<BuiltFunction>): (r: seq<string>)
    ensures |r| == |fs|
    ensures forall i :: 0 <= i < |fs| ==> r[i] == Call(fs[i])
  {
    if |fs| == 0 then [] else [Call(fs[0])] + Calls(fs[1..])
  }

  /**
   * `formulaPreview`: the placeholder while nothing is placed, otherwise `=`
   * followed by the instances' calls joined by ` + `.
   */
  function FormulaPreview(built: seq<BuiltFunction>, placeholder: string): (r: string)
    ensures |built| == 0 ==> r == placeholder
    ensures |built| > 0 ==> |r| > 0 && r[0] == '=' && r[1..] == Join(Calls(built), " + ")
  {
    if |built| == 0 then placeholder else "=" + Join(Calls(built), " + ")
  }

  /**
   * The calculate guard compares the preview with the placeholder; as no
   * placeholder starts with `=`, that test is exactly "nothing is placed".
   */
  lemma PreviewIsPlaceholderIffEmpty(built: seq<BuiltFunction>, placeholder: string)
    requires placeholder == [] || placeholder[0] != '='
    ensures FormulaPreview(built, placeholder) == placeholder <==> |built| == 0
  {
  }

  /** A freshly placed formula shows `...` for each of its distinct argument tokens. */
  lemma {:induction false} FreshCallShowsDots(f: Formula, now: nat)
    ensures var vs := ShownAll(Values(Placed(f, now).args));
      |vs| == |Placed(f, now).args| && forall i :: 0 <= i < |vs| ==> vs[i] == "..."
  {
    BlankArgsSpec(ParseArguments(f.syntax));
  }

  // ---------------------------------------------------------------------
  // The page state

  class BuilderSession {
    var built: seq<BuiltFunction>
    var activeArgument: Option<ActiveSlot>
    var calculationResult: Option<string>
    var calculationError: Option<string>
    var isCalculating: bool
    /** The formulas sent to the evaluation service, oldest first. */
    var sent: seq<string>

    /** Each placed function's arguments are an object: no key twice. */
    predicate Valid()
      reads this
    {
      forall i :: 0 <= i < |built| ==> DistinctKeys(built[i].args)
    }

    constructor()
      ensures Valid()
      ensures built == [] && activeArgument == None && calculationResult == None
      ensures calculationError == None && !isCalculating && sent == []
    {
      built := [];
      activeArgument := None;
      calculationResult := None;
      calculationError := None;
      isCalculating := false;
      sent := [];
    }

    /**
     * `handleDrop`: an unknown id changes nothing; a known formula is placed
     * at the end with a blank value per argument token.
     */
    method HandleDrop(formulas: seq<Formula>, droppedId: string, now: nat)
      requires Valid()
      modifies this
      ensures Valid()
      ensures var k := FindDropped(formulas, droppedId);
        built == if k == -1 then old(built) else old(built) + [Placed(formulas[k], now)]
      ensures activeArgument == old(activeArgument) && sent == old(sent)
      ensures calculationResult == old(calculationResult) && calculationError == old(calculationError)
      ensures isCalculating == old(isCalculating)
    {
      var k := FindDropped(formulas, droppedId);
      if k != -1 {
        var f := formulas[k];
        var names := ParseArguments(f.syntax);
        var args := InitialArgValues(names);
        BlankArgsSpec(names);
        built := built + [BuiltFunction(InstanceId(f.id, now), f, args)];
      }
    }

    /** `removeFunction`: drop every instance with the id, keep the rest in order. */
    method RemoveFunction(id: string)
      requires Valid()
      modifies this
      ensures Valid()
      ensures built == RemoveId(old(built), id)
      ensures activeArgument == old(activeArgument) && sent == old(sent)
      ensures calculationResult == old(calculationResult) && calculationError == old(calculationError)
      ensures isCalculating == old(isCalculating)
    {
      built := RemoveId(built, id);
      forall i | 0 <= i < |built| ensures DistinctKeys(built[i].args) {
        assert built[i] in old(built);
      }
    }

    /** `handleArgumentChange`: set one argument of every instance with the id. */
    method HandleArgumentChange(id: string, argName: string, value: string)
      requires Valid()
      modifies this
      ensures Valid()
      ensures built == ChangeArgument(old(built), id, argName, value)
      ensures activeArgument == old(activeArgument) && sent == old(sent)
      ensures calculationResult == old(calculationResult) && calculationError == old(calculationError)
      ensures isCalculating == old(isCalculating)
    {
      forall i | 0 <= i < |built| ensures DistinctKeys(Assign(built[i].args, argName, value)) {
        AssignDistinct(built[i].args, argName, value);
      }
      built := ChangeArgument(built, id, argName, value);
    }

    /** `handleArgumentFocus`: the focused slot becomes the grid's target. */
    method HandleArgumentFocus(functionId: string, argName: string)
      modifies this
      ensures activeArgument == Some(ActiveSlot(functionId, argName))
      ensures built == old(built) && sent == old(sent)
      ensures calculationResult == old(calculationResult) && calculationError == old(calculationError)
      ensures isCalculating == old(isCalculating)
    {
      activeArgument := Some(ActiveSlot(functionId, argName));
    }

    /**
     * `handleTableCellSelect`: the selected reference goes into the active
     * slot; with no active slot nothing changes.
     */
    method HandleTableCellSelect(cellValue: string)
      requires Valid()
      modifies this
      ensures Valid()
      ensures old(activeArgument).None? ==> built == old(built)
      ensures old(activeArgument).Some? ==>
        built == ChangeArgument(old(built), old(activeArgument).value.functionId,
                                old(activeArgument).value.argName, cellValue)
      ensures activeArgument == old(activeArgument) && sent == old(sent)
      ensures calculationResult == old(calculationResult) && calculationError == old(calculationError)
      ensures isCalculating == old(isCalculating)
    {
      if activeArgument.Some? {
        HandleArgumentChange(activeArgument.value.functionId, activeArgument.value.argName, cellValue);
      }
    }

    /** `clearBuilder`: empty the builder and the outcome, keep the active slot. */
    method ClearBuilder()
      modifies this
      ensures Valid()
      ensures built == [] && calculationResult == None && calculationError == None
      ensures activeArgument == old(activeArgument) && sent == old(sent)
      ensures isCalculating == old(isCalculating)
    {
      built := [];
      calculationResult := None;
      calculationError := None;
    }

    /**
     * `handleCalculate`, with the evaluation service's answer passed in:
     * a missing key is reported first, then an empty builder; otherwise the
     * preview is sent and the answer or its error recorded.
     */
    method HandleCalculate(apiKey: string, placeholder: string, answer: Result<string>)
      requires Valid()
      modifies this
      ensures Valid()
      ensures built == old(built) && activeArgument == old(activeArgument)
      ensures apiKey == "" ==>
        calculationError == Some(API_KEY_MISSING) && sent == old(sent) &&
        calculationResult == old(calculationResult) && isCalculating == old(isCalculating)
      ensures apiKey != "" && FormulaPreview(old(built), placeholder) == placeholder ==>
        calculationError == Some(NOTHING_BUILT) && sent == old(sent) &&
        calculationResult == old(calculationResult) && isCalculating == old(isCalculating)
      ensures apiKey != "" && FormulaPreview(old(built), placeholder) != placeholder ==>
        sent == old(sent) + [FormulaPreview(old(built), placeholder)] && !isCalculating &&
        match answer
        case Ok(v) => calculationResult == Some(v) && calculationError == None
        case Err(m) => calculationResult == None &&
                       calculationError == Some(if m == "" then UNKNOWN_CALCULATION_ERROR else m)
    {
      if apiKey == "" {
        calculationError := Some(API_KEY_MISSING);
        return;
      }
      var preview := FormulaPreview(built, placeholder);
      if preview == placeholder {
        calculationError := Some(NOTHING_BUILT);
        return;
      }
      isCalculating := true;
      calculationError := None;
      calculationResult := None;
      sent := sent + [preview];
      match answer {
        case Ok(v) =>
          calculationResult := Some(v);
        case Err(m) =>
          calculationError := Some(if m == "" then UNKNOWN_CALCULATION_ERROR else m);
      }
      isCalculating := false;
    }
  }
}
