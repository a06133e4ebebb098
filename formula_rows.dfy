/**
 * Conversion between a formula as the application holds it and a row of the
 * `formulas` table, whose columns are flat `_en`/`_my` pairs
 * (`fromSupabase` / `toSupabase` in src/lib/formulaService.ts; the formula
 * context carries an identical copy of `fromSupabase`).
 */
module FormulaRows {
  import opened Wrappers
  import opened Records

  /** A row as the table hands it back; `None` is a SQL `NULL`. */
  datatype FormulaRow = FormulaRow(
    id: int,
    createdAt: Option<string>,
    titleEn: string, titleMy: string,
    categoryEn: string, categoryMy: string,
    shortDescriptionEn: string, shortDescriptionMy: string,
    longDescriptionEn: Option<seq<string>>, longDescriptionMy: Option<seq<string>>,
    syntax: string,
    syntaxBreakdownEn: Option<seq<string>>, syntaxBreakdownMy: Option<seq<string>>,
    examples: Option<seq<Example>>,
    isNew: Option<bool>,
    difficultyEn: Option<string>, difficultyMy: Option<string>)

  /** `Partial<Formula>`: the fields of an edit, `None` where the key is absent. */
  datatype FormulaPatch = FormulaPatch(
    title: Option<LanguageData>,
    category: Option<LanguageData>,
    shortDescription: Option<LanguageData>,
    longDescription: Option<LanguageDataArray>,
    syntax: Option<string>,
    syntaxBreakdown: Option<LanguageDataArray>,
    examples: Option<seq<Example>>,
    isNew: Option<bool>,
    difficulty: Option<LanguageData>)

  /** The columns an insert or update writes; `None` is a column left out of the payload. */
  datatype FormulaColumns = FormulaColumns(
    titleEn: Option<string>, titleMy: Option<string>,
    categoryEn: Option<string>, categoryMy: Option<string>,
    shortDescriptionEn: Option<string>, shortDescriptionMy: Option<string>,
    longDescriptionEn: Option<seq<string>>, longDescriptionMy: Option<seq<string>>,
    syntax: Option<string>,
    syntaxBreakdownEn: Option<seq<string>>, syntaxBreakdownMy: Option<seq<string>>,
    examples: Option<seq<Example>>,
    isNew: Option<bool>,
    difficultyEn: Option<string>, difficultyMy: Option<string>)

  /** `column || fallback` on a text column: `NULL` and `''` both give the fallback. */
  function TextOr(column: Option<string>, fallback: string): (r: string)
    ensures column.Some? && column.value != "" ==> r == column.value
    ensures column.None? || column.value == "" ==> r == fallback
  {
    if column.Some? && column.value != "" then column.value else fallback
  }

  /**
   * `fromSupabase(row)`: `None` (the empty object `{}`) for a missing row;
   * otherwise the nested record, with `NULL` lists read as empty and the
   * difficulty falling back to the Beginner pair per language.
   */
  function FromRow(row: Option<FormulaRow>): (f: Option<Formula>)
    ensures f.None? <==> row.None?
    ensures f.Some? ==> f.value.id == row.value.id && f.value.createdAt == row.value.createdAt
    ensures f.Some? ==> f.value.syntax == row.value.syntax && f.value.isNew == row.value.isNew
    ensures f.Some? ==> f.value.title == LanguageData(row.value.titleEn, row.value.titleMy)
    ensures f.Some? ==> f.value.category == LanguageData(row.value.categoryEn, row.value.categoryMy)
    ensures f.Some? ==>
      f.value.shortDescription == LanguageData(row.value.shortDescriptionEn, row.value.shortDescriptionMy)
    ensures f.Some? ==>
      && f.value.longDescription.en == (if row.value.longDescriptionEn.Some? then row.value.longDescriptionEn.value else [])
      && f.value.longDescription.my == (if row.value.longDescriptionMy.Some? then row.value.longDescriptionMy.value else [])
    ensures f.Some? ==> f.value.syntaxBreakdown.Some?
    ensures f.Some? ==>
      && f.value.syntaxBreakdown.value.en == (if row.value.syntaxBreakdownEn.Some? then row.value.syntaxBreakdownEn.value else [])
      && f.value.syntaxBreakdown.value.my == (if row.value.syntaxBreakdownMy.Some? then row.value.syntaxBreakdownMy.value else [])
    ensures f.Some? ==> f.value.examples == (if row.value.examples.Some? then row.value.examples.value else [])
    ensures f.Some? ==> f.value.difficulty.Some?
    ensures f.Some? ==>
      && f.value.difficulty.value.en ==
           (if row.value.difficultyEn.Some? && row.value.difficultyEn.value != "" then row.value.difficultyEn.value else BEGINNER)
      && f.value.difficulty.value.my ==
           (if row.value.difficultyMy.Some? && row.value.difficultyMy.value != "" then row.value.difficultyMy.value else BEGINNER_MY)
  {
    match row
    case None => None
    case Some(r) =>
      Some(Formula(
        r.id,
        r.createdAt,
        LanguageData(r.titleEn, r.titleMy),
        LanguageData(r.categoryEn, r.categoryMy),
        LanguageData(r.shortDescriptionEn, r.shortDescriptionMy),
        LanguageDataArray(ListOrEmpty(r.longDescriptionEn), ListOrEmpty(r.longDescriptionMy)),
        r.syntax,
        Some(LanguageDataArray(ListOrEmpty(r.syntaxBreakdownEn), ListOrEmpty(r.syntaxBreakdownMy))),
        r.examples.GetOr([]),
        r.isNew,
        Some(LanguageData(TextOr(r.difficultyEn, BEGINNER), TextOr(r.difficultyMy, BEGINNER_MY)))))
  }

  /** The defaults `fromSupabase` applies to a row with `NULL` optional columns. */
  lemma FromRowDefaults(r: FormulaRow)
    requires r.longDescriptionEn.None? && r.longDescriptionMy.None?
    requires r.syntaxBreakdownEn.None? && r.syntaxBreakdownMy.None?
    requires r.examples.None? && r.difficultyEn.None? && r.difficultyMy.None?
    ensures var f := FromRow(Some(r)).value;
      f.longDescription == LanguageDataArray([], []) &&
      f.syntaxBreakdown == Some(LanguageDataArray([], [])) &&
      f.examples == [] && f.difficulty == Some(BEGINNER_PAIR)
  {
  }

  /**
   * `toSupabase(patch)`: a column pair for each nested field present, the
   * syntax only when non-empty, `is_new` whenever the flag is given (also
   * when it is false).
   */
  function ToColumns(p: FormulaPatch): (c: FormulaColumns)
    ensures PairWritten(p.title, c.titleEn, c.titleMy)
    ensures PairWritten(p.category, c.categoryEn, c.categoryMy)
    ensures PairWritten(p.shortDescription, c.shortDescriptionEn, c.shortDescriptionMy)
    ensures ListsWritten(p.longDescription, c.longDescriptionEn, c.longDescriptionMy)
    ensures c.syntax.Some? <==> p.syntax.Some? && p.syntax.value != ""
    ensures c.syntax.Some? ==> c.syntax == p.syntax
    ensures ListsWritten(p.syntaxBreakdown, c.syntaxBreakdownEn, c.syntaxBreakdownMy)
    ensures c.isNew == p.isNew
    ensures c.examples == p.examples
    ensures PairWritten(p.difficulty, c.difficultyEn, c.difficultyMy)
  {
    FormulaColumns(
      if p.title.Some? then Some(p.title.value.en) else None,
      if p.title.Some? then Some(p.title.value.my) else None,
      if p.category.Some? then Some(p.category.value.en) else None,
      if p.category.Some? then Some(p.category.value.my) else None,
      if p.shortDescription.Some? then Some(p.shortDescription.value.en) else None,
      if p.shortDescription.Some? then Some(p.shortDescription.value.my) else None,
      if p.longDescription.Some? then Some(p.longDescription.value.en) else None,
      if p.longDescription.Some? then Some(p.longDescription.value.my) else None,
      if p.syntax.Some? && p.syntax.value != "" then p.syntax else None,
      if p.syntaxBreakdown.Some? then Some(p.syntaxBreakdown.value.en) else None,
      if p.syntaxBreakdown.Some? then Some(p.syntaxBreakdown.value.my) else None,
      p.examples,
      p.isNew,
      if p.difficulty.Some? then Some(p.difficulty.value.en) else None,
      if p.difficulty.Some? then Some(p.difficulty.value.my) else None)
  }

  /** `update(columns)` on a stored row: each written column replaces the stored one, the rest stay. */
  function Updated(r: FormulaRow, c: FormulaColumns): FormulaRow {
    FormulaRow(r.id, r.createdAt,
               c.titleEn.GetOr(r.titleEn), c.titleMy.GetOr(r.titleMy),
               c.categoryEn.GetOr(r.categoryEn), c.categoryMy.GetOr(r.categoryMy),
               c.shortDescriptionEn.GetOr(r.shortDescriptionEn), c.shortDescriptionMy.GetOr(r.shortDescriptionMy),
               if c.longDescriptionEn.Some? then c.longDescriptionEn else r.longDescriptionEn,
               if c.longDescriptionMy.Some? then c.longDescriptionMy else r.longDescriptionMy,
               c.syntax.GetOr(r.syntax),
               if c.syntaxBreakdownEn.Some? then c.syntaxBreakdownEn else r.syntaxBreakdownEn,
               if c.syntaxBreakdownMy.Some? then c.syntaxBreakdownMy else r.syntaxBreakdownMy,
               if c.examples.Some? then c.examples else r.examples,
               if c.isNew.Some? then c.isNew else r.isNew,
               if c.difficultyEn.Some? then c.difficultyEn else r.difficultyEn,
               if c.difficultyMy.Some? then c.difficultyMy else r.difficultyMy)
  }

  /**
   * A partial edit, written with `toSupabase` and read back with
   * `fromSupabase`, changes exactly the fields it names: those read back as
   * edited (an empty syntax is not written, empty difficulty labels read as
   * Beginner), every other field as before.
   */
  lemma EditReadsBack(r: FormulaRow, p: FormulaPatch)
    ensures var before := FromRow(Some(r)).value;
      var after := FromRow(Some(Updated(r, ToColumns(p)))).value;
      && after.id == before.id && after.createdAt == before.createdAt
      && after.title == p.title.GetOr(before.title)
      && after.category == p.category.GetOr(before.category)
      && after.shortDescription == p.shortDescription.GetOr(before.shortDescription)
      && after.longDescription == p.longDescription.GetOr(before.longDescription)
      && after.syntax == (if p.syntax.Some? && p.syntax.value != "" then p.syntax.value else before.syntax)
      && after.syntaxBreakdown == (if p.syntaxBreakdown.Some? then p.syntaxBreakdown else before.syntaxBreakdown)
      && after.examples == p.examples.GetOr(before.examples)
      && after.isNew == (if p.isNew.Some? then p.isNew else before.isNew)
      && (p.difficulty.None? ==> after.difficulty == before.difficulty)
      && (p.difficulty.Some? && p.difficulty.value.en != "" && p.difficulty.value.my != "" ==>
            after.difficulty == p.difficulty)
  {
  }

  /** The edit that writes every field of a formula (`{...formula}`). */
  function PatchOf(f: Formula): FormulaPatch {
    FormulaPatch(Some(f.title), Some(f.category), Some(f.shortDescription), Some(f.longDescription),
                 Some(f.syntax), f.syntaxBreakdown, Some(f.examples), f.isNew, f.difficulty)
  }

  /** An empty edit writes nothing. */
  lemma EmptyPatchWritesNothing()
    ensures ToColumns(FormulaPatch(None, None, None, None, None, None, None, None, None)) ==
      FormulaColumns(None, None, None, None, None, None, None, None, None, None, None, None, None, None, None)
  {
  }

  /** The columns a row cannot do without are all written. */
  predicate HasTextColumns(c: FormulaColumns) {
    c.titleEn.Some? && c.titleMy.Some? && c.categoryEn.Some? && c.categoryMy.Some? &&
    c.shortDescriptionEn.Some? && c.shortDescriptionMy.Some? && c.syntax.Some?
  }

  /** The row the table stores for the written columns, with its id and timestamp. */
  function StoredRow(c: FormulaColumns, id: int, createdAt: Option<string>): FormulaRow
    requires HasTextColumns(c)
  {
    FormulaRow(id, createdAt, c.titleEn.value, c.titleMy.value, c.categoryEn.value, c.categoryMy.value,
               c.shortDescriptionEn.value, c.shortDescriptionMy.value,
               c.longDescriptionEn, c.longDescriptionMy, c.syntax.value,
               c.syntaxBreakdownEn, c.syntaxBreakdownMy, c.examples, c.isNew,
               c.difficultyEn, c.difficultyMy)
  }

  /**
   * Round trip: a formula with a non-empty syntax, every optional field
   * present and non-empty difficulty labels is stored and read back unchanged.
   */
  lemma RoundTrip(f: Formula)
    requires f.syntax != "" && f.syntaxBreakdown.Some? && f.isNew.Some? && f.difficulty.Some?
    requires f.difficulty.value.en != "" && f.difficulty.value.my != ""
    ensures HasTextColumns(ToColumns(PatchOf(f)))
    ensures FromRow(Some(StoredRow(ToColumns(PatchOf(f)), f.id, f.createdAt))) == Some(f)
  {
  }

  /**
   * Without those conditions the round trip fails: an empty syntax is never
   * written, and an empty difficulty label reads back as Beginner.
   */
  lemma RoundTripNeedsDifficulty(f: Formula)
    requires f.syntax != "" && f.syntaxBreakdown.Some? && f.isNew.Some?
    requires f.difficulty == Some(LanguageData("", ""))
    ensures FromRow(Some(StoredRow(ToColumns(PatchOf(f)), f.id, f.createdAt))).value.difficulty ==
      Some(BEGINNER_PAIR)
  {
  }
}
