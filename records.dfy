/**
 * The catalog's records: bilingual text, formulas with their examples, and
 * productivity tips, as the application holds them after loading.
 * Fields the TypeScript types mark optional (`?:`) are `Option`s.
 */
module Records {
  import opened Wrappers

  /** `column || []`: a `NULL` array reads as empty. */
  function ListOrEmpty(column: Option<seq<string>>): (r: seq<string>)
    ensures column.Some? ==> r == column.value
    ensures column.None? ==> r == []
  {
    column.GetOr([])
  }

  datatype Language = En | My

  /** A text in English and Burmese. */
  datatype LanguageData = LanguageData(en: string, my: string) {
    function Get(lang: Language): string {
      match lang
      case En => en
      case My => my
    }
  }

  /** A list of lines (paragraphs, bullet points) in both languages. */
  datatype LanguageDataArray = LanguageDataArray(en: seq<string>, my: seq<string>)

  /**
   * A bilingual field of an edit and its `_en`/`_my` column pair: when the
   * field is present both columns are written with its texts, otherwise
   * neither is.
   */
  predicate PairWritten(field: Option<LanguageData>, en: Option<string>, my: Option<string>) {
    if field.Some? then en == Some(field.value.en) && my == Some(field.value.my) else en.None? && my.None?
  }

  /** The same for a field holding a list of lines per language. */
  predicate ListsWritten(field: Option<LanguageDataArray>, en: Option<seq<string>>, my: Option<seq<string>>) {
    if field.Some? then en == Some(field.value.en) && my == Some(field.value.my) else en.None? && my.None?
  }

  datatype Example = Example(code: string, explanation: LanguageData, imageUrl: Option<string>)

  datatype Formula = Formula(
    id: int,
    createdAt: Option<string>,
    title: LanguageData,
    category: LanguageData,
    shortDescription: LanguageData,
    longDescription: LanguageDataArray,
    syntax: string,
    syntaxBreakdown: Option<LanguageDataArray>,
    examples: seq<Example>,
    isNew: Option<bool>,
    difficulty: Option<LanguageData>)
  {
    /** `formula.isNew` is truthy. */
    predicate IsNew() {
      isNew == Some(true)
    }
  }

  datatype VisualExplanation = VisualExplanation(imageUrl: string)

  datatype Tip = Tip(
    id: int,
    createdAt: Option<string>,
    title: LanguageData,
    oldMethodTitle: LanguageData,
    oldMethodDesc: LanguageDataArray,
    newMethodTitle: LanguageData,
    newMethodDesc: LanguageDataArray,
    details: LanguageDataArray,
    exampleCode: string,
    visualExplanation: Option<VisualExplanation>)

  // The three difficulty levels and their Burmese labels.
  const BEGINNER := "Beginner"
  const INTERMEDIATE := "Intermediate"
  const ADVANCED := "Advanced"
  const BEGINNER_MY := "လွယ်ကူသော"
  const INTERMEDIATE_MY := "အလယ်အလတ်"
  const ADVANCED_MY := "ခက်ခဲသော"

  const BEGINNER_PAIR := LanguageData(BEGINNER, BEGINNER_MY)
  const INTERMEDIATE_PAIR := LanguageData(INTERMEDIATE, INTERMEDIATE_MY)
  const ADVANCED_PAIR := LanguageData(ADVANCED, ADVANCED_MY)

  /** Key under which formulas without an English category are grouped. */
  const UNCATEGORIZED := "Uncategorized"

  /** `formula.category.en || 'Uncategorized'`. */
  function CategoryKey(f: Formula): (k: string)
    ensures k != ""
    ensures f.category.en != "" ==> k == f.category.en
    ensures f.category.en == "" ==> k == UNCATEGORIZED
  {
    if f.category.en != "" then f.category.en else UNCATEGORIZED
  }
}
