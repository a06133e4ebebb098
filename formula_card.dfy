/**
 * The difficulty badge of a formula card (src/components/formula-card.tsx):
 * the label shown, its icon and its colour style. English and Burmese
 * labels of one level look the same.
 */
module FormulaCard {
  import opened Wrappers
  import opened Records

  datatype DifficultyIcon = CheckCircle | BarChartHorizontal | BrainCircuit

  const GREEN_STYLE := "bg-green-100 text-green-800 border-green-200 dark:bg-green-800/30 dark:text-green-200 dark:border-green-600"
  const YELLOW_STYLE := "bg-yellow-100 text-yellow-800 border-yellow-200 dark:bg-yellow-800/20 dark:text-yellow-200 dark:border-yellow-600"
  const RED_STYLE := "bg-red-100 text-red-800 border-red-200 dark:bg-red-800/20 dark:text-red-200 dark:border-red-600"

  /** `difficultyStyles`: a colour style per label, in both languages. */
  const DIFFICULTY_STYLES: map<string, string> := map[
    BEGINNER := GREEN_STYLE,
    INTERMEDIATE := YELLOW_STYLE,
    ADVANCED := RED_STYLE,
    BEGINNER_MY := GREEN_STYLE,
    INTERMEDIATE_MY := YELLOW_STYLE,
    ADVANCED_MY := RED_STYLE
  ]

  /** `content.en.admin.intermediate`: the label shown when a formula has none. */
  const FALLBACK_DIFFICULTY := INTERMEDIATE

  /** `formula.difficulty?.[language] || …intermediate`. */
  function ShownDifficulty(f: Formula, lang: Language): (shown: string)
    ensures shown != ""
    ensures f.difficulty.Some? && f.difficulty.value.Get(lang) != "" ==> shown == f.difficulty.value.Get(lang)
    ensures f.difficulty.None? || f.difficulty.value.Get(lang) == "" ==> shown == FALLBACK_DIFFICULTY
  {
    if f.difficulty.Some? && f.difficulty.value.Get(lang) != "" then f.difficulty.value.Get(lang)
    else FALLBACK_DIFFICULTY
  }

  /** `getDifficultyIcon`: one icon per level, none for an unknown label. */
  function GetDifficultyIcon(level: string): (icon: Option<DifficultyIcon>)
    ensures icon.Some? <==> level in DIFFICULTY_STYLES
  {
    if level == BEGINNER || level == BEGINNER_MY then Some(CheckCircle)
    else if level == INTERMEDIATE || level == INTERMEDIATE_MY then Some(BarChartHorizontal)
    else if level == ADVANCED || level == ADVANCED_MY then Some(BrainCircuit)
    else None
  }

  /** `difficultyStyles[level]`, undefined for an unknown label. */
  function DifficultyStyle(level: string): (style: Option<string>)
    ensures style.Some? <==> level in DIFFICULTY_STYLES
    ensures style.Some? ==> style.value == DIFFICULTY_STYLES[level]
  {
    if level in DIFFICULTY_STYLES then Some(DIFFICULTY_STYLES[level]) else None
  }

  /** The English and Burmese labels of a level get the same icon and the same style. */
  lemma LanguagesLookAlike(pair: LanguageData)
    requires pair in {BEGINNER_PAIR, INTERMEDIATE_PAIR, ADVANCED_PAIR}
    ensures GetDifficultyIcon(pair.en) == GetDifficultyIcon(pair.my)
    ensures DifficultyStyle(pair.en) == DifficultyStyle(pair.my)
    ensures GetDifficultyIcon(pair.en).Some?
  {
  }

  /** The three levels get three different icons and three different styles. */
  lemma LevelsDiffer(a: LanguageData, b: LanguageData)
    requires a in {BEGINNER_PAIR, INTERMEDIATE_PAIR, ADVANCED_PAIR}
    requires b in {BEGINNER_PAIR, INTERMEDIATE_PAIR, ADVANCED_PAIR}
    requires a != b
    ensures GetDifficultyIcon(a.en) != GetDifficultyIcon(b.en)
    ensures DifficultyStyle(a.en) != DifficultyStyle(b.en)
  {
  }

  /** A formula without a difficulty shows the Intermediate badge in both languages. */
  lemma MissingDifficultyBadge(f: Formula, lang: Language)
    requires f.difficulty.None?
    ensures GetDifficultyIcon(ShownDifficulty(f, lang)) == Some(BarChartHorizontal)
    ensures DifficultyStyle(ShownDifficulty(f, lang)) == Some(YELLOW_STYLE)
  {
  }
}
