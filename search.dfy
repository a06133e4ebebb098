/**
 * The public search pages: the formula list filtered by the `q` URL
 * parameter (src/app/formulas/page.tsx) and the tip list filtered by the
 * search box (src/app/tips/page.tsx). Both match the lowercased term as a
 * substring of a few lowercased titles, keep the list order and return the
 * whole list for an empty term.
 */
module Search {
  import opened Wrappers
  import opened Strings
  import opened Records
  import opened Seqs

  // ---------------------------------------------------------------------
  // The `q` URL parameter

  /** The query string of the page URL, one value per parameter name. */
  type Params = map<string, string>

  const QUERY_PARAM := "q"

  /** `searchParams.get('q') || ''`. */
  function QueryOf(params: Params): (q: string)
    ensures QUERY_PARAM !in params ==> q == ""
  {
    if QUERY_PARAM in params then params[QUERY_PARAM] else ""
  }

  /** The URL effect of the debounced term: set `q` when the term is non-empty, delete it otherwise. */
  function SyncQuery(params: Params, term: string): (r: Params)
    ensures term != "" ==> QUERY_PARAM in r && r[QUERY_PARAM] == term
    ensures term == "" ==> QUERY_PARAM !in r
    ensures forall k :: k != QUERY_PARAM ==> (k in r <==> k in params)
    ensures forall k :: k != QUERY_PARAM && k in r ==> r[k] == params[k]
  {
    if term != "" then params[QUERY_PARAM := term] else params - {QUERY_PARAM}
  }

  /** After the effect the page searches for exactly the typed term. */
  lemma QueryRoundTrip(params: Params, term: string)
    ensures QueryOf(SyncQuery(params, term)) == term
  {
  }

  // ---------------------------------------------------------------------
  // Formula search

  /** The formula test for an already lowercased term. */
  function FormulaMatches(lang: Language, lowered: string): Formula -> bool {
    (f: Formula) =>
      Contains(Lower(f.title.Get(lang)), lowered)
      || Contains(Lower(f.shortDescription.Get(lang)), lowered)
      || Contains(Lower(f.category.Get(lang)), lowered)
      || Contains(Lower(f.title.en), lowered)
  }

  /** `filteredFormulas`: every formula for an empty query, else the matching ones in list order. */
  function SearchFormulas(formulas: seq<Formula>, query: string, lang: Language): (r: seq<Formula>)
    ensures query == "" ==> r == formulas
    ensures |r| <= |formulas|
    ensures forall i :: 0 <= i < |r| ==> r[i] in formulas
  {
    if query == "" then formulas else Filter(formulas, FormulaMatches(lang, Lower(query)))
  }

  /**
   * A formula of the list is shown exactly when the query is empty or its
   * lowercased form occurs in the title in the page language, the short
   * description, the category or the English title; the shown formulas keep
   * the list order.
   */
  lemma SearchFormulasSpec(formulas: seq<Formula>, query: string, lang: Language, f: Formula)
    requires f in formulas
    ensures var lowered := Lower(query);
      f in SearchFormulas(formulas, query, lang) <==>
        query == ""
        || Contains(Lower(f.title.Get(lang)), lowered)
        || Contains(Lower(f.shortDescription.Get(lang)), lowered)
        || Contains(Lower(f.category.Get(lang)), lowered)
        || Contains(Lower(f.title.en), lowered)
    ensures IsSubsequence(SearchFormulas(formulas, query, lang), formulas)
  {
    FilterMember(formulas, FormulaMatches(lang, Lower(query)), f);
    FilterIsSubsequence(formulas, FormulaMatches(lang, Lower(query)));
    SubsequenceRefl(formulas);
  }

  /** The search ignores letter case: queries that lowercase alike show the same formulas. */
  lemma SearchFormulasIgnoresCase(formulas: seq<Formula>, q1: string, q2: string, lang: Language)
    requires Lower(q1) == Lower(q2)
    ensures SearchFormulas(formulas, q1, lang) == SearchFormulas(formulas, q2, lang)
  {
    assert |q1| == |Lower(q1)| == |Lower(q2)| == |q2|;
  }

  /** A term in the English title finds the formula whatever the page language. */
  lemma EnglishTitleAlwaysSearched(formulas: seq<Formula>, query: string, lang: Language, f: Formula)
    requires f in formulas && Contains(Lower(f.title.en), Lower(query))
    ensures f in SearchFormulas(formulas, query, lang)
  {
    SearchFormulasSpec(formulas, query, lang, f);
  }

  // ---------------------------------------------------------------------
  // Tip search

  /** The tip test for an already lowercased term. */
  function TipMatches(lang: Language, lowered: string): Tip -> bool {
    (t: Tip) =>
      Contains(Lower(t.title.Get(lang)), lowered)
      || Contains(Lower(t.oldMethodTitle.Get(lang)), lowered)
      || Contains(Lower(t.newMethodTitle.Get(lang)), lowered)
      || Contains(Lower(t.title.en), lowered)
  }

  /** `filteredTips`: every tip for an empty term, else the matching ones in list order. */
  function SearchTips(tips: seq<Tip>, term: string, lang: Language): (r: seq<Tip>)
    ensures term == "" ==> r == tips
    ensures |r| <= |tips|
    ensures forall i :: 0 <= i < |r| ==> r[i] in tips
  {
    if term == "" then tips else Filter(tips, TipMatches(lang, Lower(term)))
  }

  /**
   * A tip is shown exactly when the term is empty or its lowercased form
   * occurs in the title, the old-method title or the new-method title in
   * the page language, or in the English title; the shown tips keep the list order.
   */
  lemma SearchTipsSpec(tips: seq<Tip>, term: string, lang: Language, t: Tip)
    requires t in tips
    ensures var lowered := Lower(term);
      t in SearchTips(tips, term, lang) <==>
        term == ""
        || Contains(Lower(t.title.Get(lang)), lowered)
        || Contains(Lower(t.oldMethodTitle.Get(lang)), lowered)
        || Contains(Lower(t.newMethodTitle.Get(lang)), lowered)
        || Contains(Lower(t.title.en), lowered)
    ensures IsSubsequence(SearchTips(tips, term, lang), tips)
  {
    FilterMember(tips, TipMatches(lang, Lower(term)), t);
    FilterIsSubsequence(tips, TipMatches(lang, Lower(term)));
    SubsequenceRefl(tips);
  }

  /** What the tips page says when nothing is listed. */
  datatype EmptyMessage = NoResults(term: string) | NoTips

  /** The message under an empty list: none when tips are shown, else `noResults(term)` or `noTips`. */
  function EmptyState(shown: seq<Tip>, term: string): (m: Option<EmptyMessage>)
    ensures m.Some? <==> |shown| == 0
    ensures m.Some? ==> (m.value == NoTips <==> term == "")
    ensures m.Some? && m.value.NoResults? ==> m.value.term == term
  {
    if |shown| > 0 then None
    else if term != "" then Some(NoResults(term))
    else Some(NoTips)
  }

  /** With no term, `noTips` appears exactly when there are no tips at all. */
  lemma NoTipsOnlyWhenEmpty(tips: seq<Tip>, lang: Language)
    ensures EmptyState(SearchTips(tips, "", lang), "") == Some(NoTips) <==> |tips| == 0
    ensures EmptyState(SearchTips(tips, "", lang), "") != Some(NoResults(""))
  {
  }
}
