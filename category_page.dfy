/**
 * The selections of the categories page (src/app/category/page.tsx): one
 * `forEach` pass that groups the formulas by English category and sorts
 * them into the Beginner, Intermediate and Advanced lists by the English
 * difficulty label.
 */
module CategoryPage {
  import opened Wrappers
  import opened Records
  import opened Seqs
  import opened Sorting
  import opened Grouping

  /** What the page derives from the formula list. */
  datatype CategoryView = CategoryView(
    categories: seq<string>,
    byCategory: Groups<Formula>,
    beginner: seq<Formula>,
    intermediate: seq<Formula>,
    advanced: seq<Formula>)

  const EMPTY_VIEW := CategoryView([], [], [], [], [])

  /** `formula.difficulty?.en === level`. */
  function AtLevel(level: string): Formula -> bool {
    (f: Formula) => f.difficulty.Some? && f.difficulty.value.en == level
  }

  /** One step of the `forEach`: the formula joins the list its English difficulty label names, if any. */
  method Place(seen: seq<Formula>, formula: Formula, beginner: seq<Formula>, intermediate: seq<Formula>, advanced: seq<Formula>)
    returns (b: seq<Formula>, m: seq<Formula>, a: seq<Formula>)
    requires beginner == Filter(seen, AtLevel(BEGINNER))
    requires intermediate == Filter(seen, AtLevel(INTERMEDIATE))
    requires advanced == Filter(seen, AtLevel(ADVANCED))
    ensures b == Filter(seen + [formula], AtLevel(BEGINNER))
    ensures m == Filter(seen + [formula], AtLevel(INTERMEDIATE))
    ensures a == Filter(seen + [formula], AtLevel(ADVANCED))
  {
    FilterSnoc(seen, formula, AtLevel(BEGINNER));
    FilterSnoc(seen, formula, AtLevel(INTERMEDIATE));
    FilterSnoc(seen, formula, AtLevel(ADVANCED));
    b, m, a := beginner, intermediate, advanced;
    var level := if formula.difficulty.Some? then Some(formula.difficulty.value.en) else None;
    assert level == Some(BEGINNER) <==> AtLevel(BEGINNER)(formula);
    assert level == Some(INTERMEDIATE) <==> AtLevel(INTERMEDIATE)(formula);
    assert level == Some(ADVANCED) <==> AtLevel(ADVANCED)(formula);
    if level == Some(BEGINNER) {
      b := beginner + [formula];
    } else if level == Some(INTERMEDIATE) {
      m := intermediate + [formula];
    } else if level == Some(ADVANCED) {
      a := advanced + [formula];
    }
  }

  /** The `useMemo` of the page: nothing while loading, else the groups and the three level lists. */
  method Select(loading: bool, formulas: seq<Formula>) returns (v: CategoryView)
    ensures loading ==> v == EMPTY_VIEW
    ensures !loading ==> v.byCategory == GroupOf(formulas, CategoryKey)
    ensures !loading ==> SortedBy(v.categories, Identity) && multiset(v.categories) == multiset(Keys(v.byCategory))
    ensures !loading ==> v.beginner == Filter(formulas, AtLevel(BEGINNER))
    ensures !loading ==> v.intermediate == Filter(formulas, AtLevel(INTERMEDIATE))
    ensures !loading ==> v.advanced == Filter(formulas, AtLevel(ADVANCED))
  {
    if loading {
      return EMPTY_VIEW;
    }
    var grouped: Groups<Formula> := [];
    var beginner, intermediate, advanced := [], [], [];
    for i := 0 to |formulas|
      invariant grouped == GroupOf(formulas[..i], CategoryKey)
      invariant beginner == Filter(formulas[..i], AtLevel(BEGINNER))
      invariant intermediate == Filter(formulas[..i], AtLevel(INTERMEDIATE))
      invariant advanced == Filter(formulas[..i], AtLevel(ADVANCED))
    {
      var formula := formulas[i];
      assert formulas[..i + 1] == formulas[..i] + [formula];
      assert formulas[..i + 1][..i] == formulas[..i];
      grouped := AddTo(grouped, CategoryKey(formula), formula);
      beginner, intermediate, advanced := Place(formulas[..i], formula, beginner, intermediate, advanced);
    }
    assert formulas[..|formulas|] == formulas;
    var categoryNames := SortTexts(Keys(grouped));
    v := CategoryView(categoryNames, grouped, beginner, intermediate, advanced);
  }

  /**
   * A formula is in the list of its English level, and in no list when its
   * difficulty is missing or another label; no formula is in two lists.
   */
  lemma LevelListsSpec(formulas: seq<Formula>, f: Formula)
    requires f in formulas
    ensures f in Filter(formulas, AtLevel(BEGINNER)) <==> f.difficulty.Some? && f.difficulty.value.en == BEGINNER
    ensures f in Filter(formulas, AtLevel(INTERMEDIATE)) <==> f.difficulty.Some? && f.difficulty.value.en == INTERMEDIATE
    ensures f in Filter(formulas, AtLevel(ADVANCED)) <==> f.difficulty.Some? && f.difficulty.value.en == ADVANCED
    ensures f.difficulty.None? || f.difficulty.value.en !in {BEGINNER, INTERMEDIATE, ADVANCED} ==>
      f !in Filter(formulas, AtLevel(BEGINNER)) + Filter(formulas, AtLevel(INTERMEDIATE)) + Filter(formulas, AtLevel(ADVANCED))
  {
    FilterMember(formulas, AtLevel(BEGINNER), f);
    FilterMember(formulas, AtLevel(INTERMEDIATE), f);
    FilterMember(formulas, AtLevel(ADVANCED), f);
  }

  /** The three lists together hold no more formulas than the page has. */
  lemma {:induction false} LevelListsBounded(formulas: seq<Formula>)
    ensures |Filter(formulas, AtLevel(BEGINNER))| + |Filter(formulas, AtLevel(INTERMEDIATE))|
      + |Filter(formulas, AtLevel(ADVANCED))| <= |formulas|
  {
    if |formulas| > 0 {
      LevelListsBounded(formulas[1..]);
    }
  }
}
