/**
 * The formula editor of the admin page (src/app/admin/page.tsx): the form
 * record, the per-example file slots kept in step with its examples, the
 * select-formula effect, the example and difficulty handlers, and the two
 * searchable lists of the page's side panels.
 */
module Admin {
  import opened Wrappers
  import opened Strings
  import opened Records
  import opened Seqs
  import opened Sorting
  import opened Grouping

  const EMPTY_TEXT := LanguageData("", "")
  const NO_LINES := LanguageDataArray([], [])

  /** The blank form shown for a new formula. */
  const INITIAL_FORM := Formula(0, None, EMPTY_TEXT, EMPTY_TEXT, EMPTY_TEXT, NO_LINES, "",
    Some(NO_LINES), [], Some(false), Some(BEGINNER_PAIR))

  /** The example `addExample` appends. */
  const BLANK_EXAMPLE := Example("", EMPTY_TEXT, Some(""))

  /** The example fields the per-example inputs edit. */
  datatype ExampleField = Code | ExplanationIn(lang: Language) | OtherField

  /** `difficultyMap[value] || Beginner`: the bilingual pair of a level name. */
  function DifficultyPair(value: string): (d: LanguageData)
    ensures value == BEGINNER ==> d == BEGINNER_PAIR
    ensures value == INTERMEDIATE ==> d == INTERMEDIATE_PAIR
    ensures value == ADVANCED ==> d == ADVANCED_PAIR
    ensures value !in {BEGINNER, INTERMEDIATE, ADVANCED} ==> d == BEGINNER_PAIR
  {
    if value == INTERMEDIATE then INTERMEDIATE_PAIR
    else if value == ADVANCED then ADVANCED_PAIR
    else BEGINNER_PAIR
  }

  /** The form of a selected formula: its copy with a difficulty and a syntax breakdown filled in. */
  function FormOf(f: Formula): (g: Formula)
    ensures g.difficulty.Some? && g.syntaxBreakdown.Some? && g.examples == f.examples
    ensures f.difficulty.Some? ==> g.difficulty == f.difficulty
    ensures f.difficulty.None? ==> g.difficulty == Some(BEGINNER_PAIR)
    ensures f.syntaxBreakdown.None? ==> g.syntaxBreakdown == Some(NO_LINES)
    ensures g.(difficulty := f.difficulty, syntaxBreakdown := f.syntaxBreakdown) == f
  {
    f.(difficulty := Some(f.difficulty.GetOr(BEGINNER_PAIR)),
       syntaxBreakdown := Some(f.syntaxBreakdown.GetOr(NO_LINES)))
  }

  /** `files[index] = file` on a copy: an index past the end pads the gap with empty slots. */
  function SetSlot(files: seq<bool>, index: nat, file: bool): (r: seq<bool>)
    ensures |r| == if index < |files| then |files| else index + 1
    ensures r[index] == file
    ensures forall i :: 0 <= i < |r| && i != index ==> r[i] == (i < |files| && files[i])
  {
    if index < |files| then files[index := file]
    else files + seq(index - |files|, _ => false) + [file]
  }

  /** `list.filter((_, i) => i !== index)`. */
  function WithoutIndex<T>(xs: seq<T>, index: nat): (r: seq<T>)
    ensures index < |xs| ==> r == xs[..index] + xs[index + 1..]
    ensures index >= |xs| ==> r == xs
  {
    if index < |xs| then xs[..index] + xs[index + 1..] else xs
  }

  /** The editor's state: the selected formula, the form and one file slot per example. */
  class FormulaEditor {
    var selected: Option<Formula>
    var form: Formula
    /** Whether a new image file is chosen for the example at each index. */
    var files: seq<bool>
    var editing: bool

    /** The file slots and the examples stay in step. */
    predicate Valid()
      reads this
    {
      |files| == |form.examples|
    }

    constructor()
      ensures Valid()
      ensures selected.None? && form == INITIAL_FORM && files == [] && !editing
    {
      selected := None;
      form := INITIAL_FORM;
      files := [];
      editing := false;
    }

    /** The select-formula effect: load a copy of the selection, or the blank form. */
    method SelectionChanged()
      modifies this
      ensures Valid()
      ensures selected == old(selected)
      ensures selected.Some? ==> form == FormOf(selected.value) && editing
      ensures selected.Some? ==> files == seq(|selected.value.examples|, _ => false)
      ensures selected.None? ==> form == INITIAL_FORM && !editing && files == []
    {
      if selected.Some? {
        form := FormOf(selected.value);
        editing := true;
        files := seq(|form.examples|, _ => false);
      } else {
        form := INITIAL_FORM;
        editing := false;
        files := [];
      }
    }

    /** `handleSelectFormula`: a different selection runs the effect; the same one changes nothing. */
    method SelectFormula(f: Formula)
      modifies this
      requires Valid()
      ensures Valid()
      ensures selected == Some(f)
      ensures old(selected) != Some(f) ==> form == FormOf(f) && editing && files == seq(|f.examples|, _ => false)
      ensures old(selected) == Some(f) ==> form == old(form) && files == old(files) && editing == old(editing)
    {
      if selected != Some(f) {
        selected := Some(f);
        SelectionChanged();
      }
    }

    /**
     * `handleAddNewFormula` as written: the blank form, and the effect's reset
     * of the file slots only when a formula was selected before.
     */
    method AddNewFormulaAsWritten()
      modifies this
      ensures selected.None? && form == INITIAL_FORM && !editing
      ensures files == if old(selected).Some? then [] else old(files)
    {
      if selected.Some? {
        selected := None;
        SelectionChanged();
      }
      form := INITIAL_FORM;
      editing := false;
    }

    /** `handleAddNewFormula` with the file slots cleared together with the examples. */
    method AddNewFormula()
      modifies this
      ensures Valid()
      ensures selected.None? && form == INITIAL_FORM && !editing && files == []
    {
      selected := None;
      SelectionChanged();
    }

    /** `addExample`: a blank example and an empty file slot at the end. */
    method AddExample()
      modifies this
      ensures old(Valid()) ==> Valid()
      ensures form == old(form).(examples := old(form.examples) + [BLANK_EXAMPLE])
      ensures files == old(files) + [false]
      ensures selected == old(selected) && editing == old(editing)
    {
      form := form.(examples := form.examples + [BLANK_EXAMPLE]);
      files := files + [false];
    }

    /** `removeExample(index)`: the example and its file slot go together. */
    method RemoveExample(index: nat)
      modifies this
      ensures old(Valid()) ==> Valid()
      ensures form == old(form).(examples := WithoutIndex(old(form.examples), index))
      ensures files == WithoutIndex(old(files), index)
      ensures selected == old(selected) && editing == old(editing)
    {
      form := form.(examples := WithoutIndex(form.examples, index));
      files := WithoutIndex(files, index);
    }

    /** `handleExampleFileChange(index, file)`: only the slot at `index` changes. */
    method HandleExampleFileChange(index: nat, file: bool)
      modifies this
      requires index < |form.examples|
      ensures old(Valid()) ==> Valid()
      ensures files == SetSlot(old(files), index, file)
      ensures form == old(form) && selected == old(selected) && editing == old(editing)
    {
      files := SetSlot(files, index, file);
    }

    /** `handleExampleChange(index, field, value)`: one field of one example changes. */
    method HandleExampleChange(index: nat, field: ExampleField, value: string)
      modifies this
      requires index < |form.examples|
      ensures old(Valid()) ==> Valid()
      ensures |form.examples| == |old(form.examples)|
      ensures forall i :: 0 <= i < |form.examples| && i != index ==> form.examples[i] == old(form.examples[i])
      ensures form == old(form).(examples := form.examples)
      ensures var e := old(form.examples[index]);
        form.examples[index] == match field
          case Code => e.(code := value)
          case ExplanationIn(En) => e.(explanation := e.explanation.(en := value))
          case ExplanationIn(My) => e.(explanation := e.explanation.(my := value))
          case OtherField => e
      ensures files == old(files) && selected == old(selected) && editing == old(editing)
    {
      var e := form.examples[index];
      match field {
        case Code => e := e.(code := value);
        case ExplanationIn(lang) =>
          if lang == En {
            e := e.(explanation := e.explanation.(en := value));
          } else {
            e := e.(explanation := e.explanation.(my := value));
          }
        case OtherField =>
      }
      form := form.(examples := form.examples[index := e]);
    }

    /** `removeExampleImage(index)`: the slot is emptied and the example's stored image URL cleared. */
    method RemoveExampleImage(index: nat)
      modifies this
      requires index < |form.examples|
      ensures old(Valid()) ==> Valid()
      ensures files == SetSlot(old(files), index, false)
      ensures form == old(form).(examples := old(form.examples)[index := old(form.examples[index]).(imageUrl := Some(""))])
      ensures selected == old(selected) && editing == old(editing)
    {
      files := SetSlot(files, index, false);
      form := form.(examples := form.examples[index := form.examples[index].(imageUrl := Some(""))]);
    }

    /** `handleDifficultyChange(value)`: only the difficulty changes. */
    method HandleDifficultyChange(value: string)
      modifies this
      ensures form == old(form).(difficulty := Some(DifficultyPair(value)))
      ensures files == old(files) && selected == old(selected) && editing == old(editing)
    {
      form := form.(difficulty := Some(DifficultyPair(value)));
    }
  }

  /**
   * A new-formula session whose file slots fall out of step: add an example,
   * then ask for a new formula while none is selected.
   */
  method AddNewKeepsStaleSlots() returns (e: FormulaEditor)
    ensures |e.files| == 1 && |e.form.examples| == 0 && !e.Valid()
  {
    e := new FormulaEditor();
    e.AddExample();
    e.AddNewFormulaAsWritten();
  }

  /** After the corrected handler, adding and removing examples keeps the slots in step. */
  method AddNewThenEdit(e: FormulaEditor)
    modifies e
    ensures e.Valid() && |e.files| == 1
  {
    e.AddNewFormula();
    e.AddExample();
    e.AddExample();
    e.RemoveExample(0);
  }

  // -------------------------------------------------------------------
  // The side-panel lists

  function TitleEn(f: Formula): string { f.title.en }

  /** The case-insensitive title search of the formula list. */
  function TitleMatches(term: string): Formula -> bool {
    (f: Formula) => Contains(Lower(f.title.en), Lower(term))
  }

  /** The groups with the non-matching formulas dropped, and groups left empty dropped too. */
  function FilterGroups(g: Groups<Formula>, term: string): (r: Groups<Formula>)
    ensures |r| <= |g|
  {
    if |g| == 0 then []
    else
      var prev := FilterGroups(g[..|g| - 1], term);
      var kept := Filter(g[|g| - 1].1, TitleMatches(term));
      if |kept| > 0 then prev + [(g[|g| - 1].0, kept)] else prev
  }

  /**
   * The groups `filteredFormulas` returns: the formulas sorted by English
   * title and grouped by category, narrowed by the search term when one is given.
   */
  function FilteredGroups(formulas: seq<Formula>, term: string): Groups<Formula> {
    var grouped := GroupOf(Sorted(formulas, TitleEn), CategoryKey);
    if term == "" then grouped else FilterGroups(grouped, term)
  }

  /** A group narrowed to the formulas whose title matches. */
  function Narrow(p: (string, seq<Formula>), term: string): (string, seq<Formula>) {
    (p.0, Filter(p.1, TitleMatches(term)))
  }

  /** `e` is a non-empty narrowing of some group of `g`. */
  predicate NarrowedFrom(e: (string, seq<Formula>), g: Groups<Formula>, term: string) {
    |e.1| > 0 && exists j :: 0 <= j < |g| && e == Narrow(g[j], term)
  }

  /** Every entry of `r` is a non-empty narrowing of a group of `g`. */
  predicate AllNarrowedFrom(r: Groups<Formula>, g: Groups<Formula>, term: string) {
    forall i :: 0 <= i < |r| ==> NarrowedFrom(r[i], g, term)
  }

  /** Each kept group is a group of the input narrowed by the term, and not empty. */
  lemma {:induction false} FilterGroupsFrom(g: Groups<Formula>, term: string)
    ensures AllNarrowedFrom(FilterGroups(g, term), g, term)
  {
    if |g| > 0 {
      var h := g[..|g| - 1];
      FilterGroupsFrom(h, term);
      var prev := FilterGroups(h, term);
      var r := FilterGroups(g, term);
      forall i | 0 <= i < |r|
        ensures NarrowedFrom(r[i], g, term)
      {
        if i < |prev| {
          assert r[i] == prev[i];
          assert NarrowedFrom(prev[i], h, term);
          var j :| 0 <= j < |h| && prev[i] == Narrow(h[j], term);
          assert g[j] == h[j];
        } else {
          assert r[i] == Narrow(g[|g| - 1], term);
          assert |r[i].1| > 0;
        }
      }
    }
  }

  /** Every group of `g` with a match appears in `r`, narrowed. */
  predicate KeepsMatching(r: Groups<Formula>, g: Groups<Formula>, term: string) {
    forall j :: 0 <= j < |g| && |Narrow(g[j], term).1| > 0 ==> Narrow(g[j], term) in r
  }

  /** Every group with a matching formula is kept, narrowed to its matches. */
  lemma {:induction false} FilterGroupsKeeps(g: Groups<Formula>, term: string)
    ensures KeepsMatching(FilterGroups(g, term), g, term)
  {
    if |g| > 0 {
      var h := g[..|g| - 1];
      FilterGroupsKeeps(h, term);
      var prev := FilterGroups(h, term);
      var r := FilterGroups(g, term);
      forall j | 0 <= j < |g| && |Narrow(g[j], term).1| > 0
        ensures Narrow(g[j], term) in r
      {
        if j < |h| {
          assert g[j] == h[j];
          var i :| 0 <= i < |prev| && prev[i] == Narrow(h[j], term);
          assert r[i] == prev[i];
        } else {
          assert r[|prev|] == Narrow(g[j], term);
        }
      }
    }
  }

  /** Narrowing keeps the keys distinct. */
  lemma {:induction false} FilterGroupsDistinct(g: Groups<Formula>, term: string)
    requires DistinctKeys(g)
    ensures DistinctKeys(FilterGroups(g, term))
  {
    if |g| > 0 {
      var h := g[..|g| - 1];
      FilterGroupsDistinct(h, term);
      FilterGroupsFrom(h, term);
      var prev := FilterGroups(h, term);
      forall i | 0 <= i < |prev|
        ensures prev[i].0 != g[|g| - 1].0
      {
        assert NarrowedFrom(prev[i], h, term);
        var j :| 0 <= j < |h| && prev[i] == Narrow(h[j], term);
        assert g[j] == h[j];
      }
    }
  }

  /** `filteredFormulas`: sort, group with `forEach`/`push`, then narrow group by group. */
  method FilteredFormulas(formulas: seq<Formula>, term: string) returns (r: Groups<Formula>)
    ensures r == FilteredGroups(formulas, term)
  {
    var sorted := SortBy(formulas, TitleEn);
    var grouped := GroupBy(sorted, CategoryKey);
    if term == "" {
      return grouped;
    }
    r := [];
    for i := 0 to |grouped|
      invariant r == FilterGroups(grouped[..i], term)
    {
      assert grouped[..i + 1][..i] == grouped[..i];
      var kept := Filter(grouped[i].1, TitleMatches(term));
      if |kept| > 0 {
        r := r + [(grouped[i].0, kept)];
      }
    }
    assert grouped[..|grouped|] == grouped;
  }

  /** Sorting keeps the same formulas. */
  lemma SortedSameFormulas(formulas: seq<Formula>)
    ensures forall f :: f in Sorted(formulas, TitleEn) <==> f in formulas
  {
    SortedSpec(formulas, TitleEn);
    var sorted := Sorted(formulas, TitleEn);
    assert forall f :: f in sorted <==> f in multiset(sorted);
  }

  /** `g` groups the formulas of `sorted` by category: distinct keys, non-empty groups in list order. */
  ghost predicate GroupsSorted(g: Groups<Formula>, sorted: seq<Formula>, formulas: seq<Formula>) {
    && DistinctKeys(g)
    && (forall f :: f in formulas ==> CategoryKey(f) in Keys(g))
    && (forall j :: 0 <= j < |g| ==> |g[j].1| > 0 && IsSubsequence(g[j].1, sorted))
  }

  /** The category groups of the sorted list: non-empty, in title order, each formula under its own key. */
  lemma SortedGroups(formulas: seq<Formula>)
    ensures GroupsSorted(GroupOf(Sorted(formulas, TitleEn), CategoryKey), Sorted(formulas, TitleEn), formulas)
  {
    var sorted := Sorted(formulas, TitleEn);
    SortedSameFormulas(formulas);
    var g := GroupOf(sorted, CategoryKey);
    GroupKeys(sorted, CategoryKey);
    GroupMembers(sorted, CategoryKey);
    GroupsNonEmpty(sorted, CategoryKey);
    forall j | 0 <= j < |g|
      ensures IsSubsequence(g[j].1, sorted)
    {
      FilterIsSubsequence(sorted, HasKey(CategoryKey, g[j].0));
    }
  }

  /** A member of a category group is an input formula of that category. */
  lemma SortedGroupMember(formulas: seq<Formula>, j: nat, f: Formula)
    requires j < |GroupOf(Sorted(formulas, TitleEn), CategoryKey)|
    requires f in GroupOf(Sorted(formulas, TitleEn), CategoryKey)[j].1
    ensures f in formulas && CategoryKey(f) == GroupOf(Sorted(formulas, TitleEn), CategoryKey)[j].0
  {
    var sorted := Sorted(formulas, TitleEn);
    var g := GroupOf(sorted, CategoryKey);
    SortedSameFormulas(formulas);
    GroupMembers(sorted, CategoryKey);
    assert MembersOf(g, sorted, CategoryKey);
    FilterMember(sorted, HasKey(CategoryKey, g[j].0), f);
  }

  /** The listed categories are distinct. */
  lemma FilteredGroupsDistinct(formulas: seq<Formula>, term: string)
    ensures DistinctKeys(FilteredGroups(formulas, term))
  {
    SortedGroups(formulas);
    if term != "" {
      FilterGroupsDistinct(GroupOf(Sorted(formulas, TitleEn), CategoryKey), term);
    }
  }

  /** Every listed group is non-empty and in English-title order. */
  lemma FilteredGroupsOrdered(formulas: seq<Formula>, term: string, i: nat)
    requires i < |FilteredGroups(formulas, term)|
    ensures var e := FilteredGroups(formulas, term)[i];
      |e.1| > 0 && IsSubsequence(e.1, Sorted(formulas, TitleEn))
  {
    SortedGroups(formulas);
    var sorted := Sorted(formulas, TitleEn);
    var g := GroupOf(sorted, CategoryKey);
    var r := FilteredGroups(formulas, term);
    assert GroupsSorted(g, sorted, formulas);
    if term != "" {
      FilterGroupsFrom(g, term);
      assert NarrowedFrom(r[i], g, term);
      var j :| 0 <= j < |g| && r[i] == Narrow(g[j], term);
      FilterIsSubsequence(g[j].1, TitleMatches(term));
      SubsequenceTrans(r[i].1, g[j].1, sorted);
    }
  }

  /** Every listed formula is one of the input's, under its own category, and matches the term. */
  lemma FilteredGroupsMembers(formulas: seq<Formula>, term: string, i: nat, f: Formula)
    requires i < |FilteredGroups(formulas, term)|
    requires f in FilteredGroups(formulas, term)[i].1
    ensures f in formulas && CategoryKey(f) == FilteredGroups(formulas, term)[i].0
    ensures term != "" ==> TitleMatches(term)(f)
  {
    var g := GroupOf(Sorted(formulas, TitleEn), CategoryKey);
    var r := FilteredGroups(formulas, term);
    if term == "" {
      SortedGroupMember(formulas, i, f);
    } else {
      FilterGroupsFrom(g, term);
      assert NarrowedFrom(r[i], g, term);
      var j :| 0 <= j < |g| && r[i] == Narrow(g[j], term);
      FilterMember(g[j].1, TitleMatches(term), f);
      SortedGroupMember(formulas, j, f);
    }
  }

  /** Every formula the term matches (all of them for an empty term) is listed in the group of its category. */
  lemma {:induction false} FilteredGroupsComplete(formulas: seq<Formula>, term: string, f: Formula)
    requires f in formulas && (term == "" || TitleMatches(term)(f))
    ensures var r := FilteredGroups(formulas, term);
      exists i :: 0 <= i < |r| && r[i].0 == CategoryKey(f) && f in r[i].1
  {
    SortedSameFormulas(formulas);
    var sorted := Sorted(formulas, TitleEn);
    var g := GroupOf(sorted, CategoryKey);
    var r := FilteredGroups(formulas, term);
    var j := GroupHolding(sorted, CategoryKey, f);
    if term == "" {
      assert r[j] == g[j];
    } else {
      FilterGroupsKeeps(g, term);
      FilterMember(g[j].1, TitleMatches(term), f);
      assert f in Narrow(g[j], term).1;
      var i :| 0 <= i < |r| && r[i] == Narrow(g[j], term);
    }
  }

  /** `filteredTips`: every tip for an empty term, else those whose English title contains it. */
  function FilteredTips(tips: seq<Tip>, term: string): (r: seq<Tip>)
    ensures term == "" ==> r == tips
    ensures term != "" ==> forall t :: t in r <==> t in tips && Contains(Lower(t.title.en), Lower(term))
  {
    if term == "" then tips else Filter(tips, (t: Tip) => Contains(Lower(t.title.en), Lower(term)))
  }

  /** The tip list keeps the panel's order. */
  lemma FilteredTipsInOrder(tips: seq<Tip>, term: string)
    ensures IsSubsequence(FilteredTips(tips, term), tips)
  {
    if term == "" {
      FilterAll(tips, (t: Tip) => true);
      FilterIsSubsequence(tips, (t: Tip) => true);
    } else {
      FilterIsSubsequence(tips, (t: Tip) => Contains(Lower(t.title.en), Lower(term)));
    }
  }
}
