/**
 * Conversion between a productivity tip and a row of the `tips` table
 * (`fromSupabase` / `toSupabase` in src/lib/tipService.ts; the tip context
 * carries an identical copy of `fromSupabase`).
 */
module TipRows {
  import opened Wrappers
  import opened Records

  /** A row as the table hands it back; `None` is a SQL `NULL`. */
  datatype TipRow = TipRow(
    id: int,
    createdAt: Option<string>,
    titleEn: string, titleMy: string,
    oldMethodTitleEn: string, oldMethodTitleMy: string,
    oldMethodDescEn: Option<seq<string>>, oldMethodDescMy: Option<seq<string>>,
    newMethodTitleEn: string, newMethodTitleMy: string,
    newMethodDescEn: Option<seq<string>>, newMethodDescMy: Option<seq<string>>,
    detailsEn: Option<seq<string>>, detailsMy: Option<seq<string>>,
    exampleCode: string,
    imageUrl: Option<string>)

  /**
   * `Partial<Tip>`. The visual explanation distinguishes an absent key
   * (`None`) from a key holding `undefined` (`Some(None)`), because the
   * serialiser tests `hasOwnProperty`.
   */
  datatype TipPatch = TipPatch(
    title: Option<LanguageData>,
    oldMethodTitle: Option<LanguageData>,
    oldMethodDesc: Option<LanguageDataArray>,
    newMethodTitle: Option<LanguageData>,
    newMethodDesc: Option<LanguageDataArray>,
    details: Option<LanguageDataArray>,
    exampleCode: Option<string>,
    visualExplanation: Option<Option<VisualExplanation>>)

  /**
   * The columns a write sends; `None` is a column left out. `imageUrl` is
   * `Some(None)` when the column is set to `NULL`.
   */
  datatype TipColumns = TipColumns(
    titleEn: Option<string>, titleMy: Option<string>,
    oldMethodTitleEn: Option<string>, oldMethodTitleMy: Option<string>,
    oldMethodDescEn: Option<seq<string>>, oldMethodDescMy: Option<seq<string>>,
    newMethodTitleEn: Option<string>, newMethodTitleMy: Option<string>,
    newMethodDescEn: Option<seq<string>>, newMethodDescMy: Option<seq<string>>,
    detailsEn: Option<seq<string>>, detailsMy: Option<seq<string>>,
    exampleCode: Option<string>,
    imageUrl: Option<Option<string>>)

  /**
   * `fromSupabase(row)`: `None` (the empty object) for a missing row;
   * otherwise the nested tip, `NULL` lists read as empty and a `NULL` image
   * read as the empty URL, so every loaded tip has a visual explanation.
   */
  function FromRow(row: Option<TipRow>): (t: Option<Tip>)
    ensures t.None? <==> row.None?
    ensures t.Some? ==> t.value.id == row.value.id && t.value.createdAt == row.value.createdAt
    ensures t.Some? ==> t.value.exampleCode == row.value.exampleCode
    ensures t.Some? ==> t.value.title == LanguageData(row.value.titleEn, row.value.titleMy)
    ensures t.Some? ==> t.value.oldMethodTitle == LanguageData(row.value.oldMethodTitleEn, row.value.oldMethodTitleMy)
    ensures t.Some? ==> t.value.newMethodTitle == LanguageData(row.value.newMethodTitleEn, row.value.newMethodTitleMy)
    ensures t.Some? ==>
      && t.value.oldMethodDesc.en == (if row.value.oldMethodDescEn.Some? then row.value.oldMethodDescEn.value else [])
      && t.value.oldMethodDesc.my == (if row.value.oldMethodDescMy.Some? then row.value.oldMethodDescMy.value else [])
    ensures t.Some? ==>
      && t.value.newMethodDesc.en == (if row.value.newMethodDescEn.Some? then row.value.newMethodDescEn.value else [])
      && t.value.newMethodDesc.my == (if row.value.newMethodDescMy.Some? then row.value.newMethodDescMy.value else [])
    ensures t.Some? ==>
      && t.value.details.en == (if row.value.detailsEn.Some? then row.value.detailsEn.value else [])
      && t.value.details.my == (if row.value.detailsMy.Some? then row.value.detailsMy.value else [])
    ensures t.Some? ==> t.value.visualExplanation == Some(VisualExplanation(row.value.imageUrl.GetOr("")))
  {
    match row
    case None => None
    case Some(r) =>
      Some(Tip(
        r.id,
        r.createdAt,
        LanguageData(r.titleEn, r.titleMy),
        LanguageData(r.oldMethodTitleEn, r.oldMethodTitleMy),
        LanguageDataArray(ListOrEmpty(r.oldMethodDescEn), ListOrEmpty(r.oldMethodDescMy)),
        LanguageData(r.newMethodTitleEn, r.newMethodTitleMy),
        LanguageDataArray(ListOrEmpty(r.newMethodDescEn), ListOrEmpty(r.newMethodDescMy)),
        LanguageDataArray(ListOrEmpty(r.detailsEn), ListOrEmpty(r.detailsMy)),
        r.exampleCode,
        Some(VisualExplanation(r.imageUrl.GetOr("")))))
  }

  /** The defaults `fromSupabase` applies to a row with `NULL` optional columns. */
  lemma FromRowDefaults(r: TipRow)
    requires r.oldMethodDescEn.None? && r.oldMethodDescMy.None?
    requires r.newMethodDescEn.None? && r.newMethodDescMy.None?
    requires r.detailsEn.None? && r.detailsMy.None? && r.imageUrl.None?
    ensures var t := FromRow(Some(r)).value;
      t.oldMethodDesc == LanguageDataArray([], []) && t.newMethodDesc == LanguageDataArray([], []) &&
      t.details == LanguageDataArray([], []) && t.visualExplanation == Some(VisualExplanation(""))
  {
  }

  /** `tip.visualExplanation?.imageUrl || null`: the column value for a present key. */
  function ImageColumn(v: Option<VisualExplanation>): (c: Option<string>)
    ensures c.Some? <==> v.Some? && v.value.imageUrl != ""
    ensures c.Some? ==> c.value == v.value.imageUrl
  {
    if v.Some? && v.value.imageUrl != "" then Some(v.value.imageUrl) else None
  }

  /**
   * `toSupabase(patch)`: a column pair per nested field present, the example
   * code only when non-empty, and `image_url` exactly when the visual
   * explanation key is present — as its URL, or `NULL` when that is empty.
   */
  function ToColumns(p: TipPatch): (c: TipColumns)
    ensures PairWritten(p.title, c.titleEn, c.titleMy)
    ensures PairWritten(p.oldMethodTitle, c.oldMethodTitleEn, c.oldMethodTitleMy)
    ensures ListsWritten(p.oldMethodDesc, c.oldMethodDescEn, c.oldMethodDescMy)
    ensures PairWritten(p.newMethodTitle, c.newMethodTitleEn, c.newMethodTitleMy)
    ensures ListsWritten(p.newMethodDesc, c.newMethodDescEn, c.newMethodDescMy)
    ensures ListsWritten(p.details, c.detailsEn, c.detailsMy)
    ensures c.exampleCode.Some? <==> p.exampleCode.Some? && p.exampleCode.value != ""
    ensures c.exampleCode.Some? ==> c.exampleCode == p.exampleCode
    ensures c.imageUrl.Some? <==> p.visualExplanation.Some?
    ensures p.visualExplanation.Some? ==> c.imageUrl.value == ImageColumn(p.visualExplanation.value)
  {
    TipColumns(
      if p.title.Some? then Some(p.title.value.en) else None,
      if p.title.Some? then Some(p.title.value.my) else None,
      if p.oldMethodTitle.Some? then Some(p.oldMethodTitle.value.en) else None,
      if p.oldMethodTitle.Some? then Some(p.oldMethodTitle.value.my) else None,
      if p.oldMethodDesc.Some? then Some(p.oldMethodDesc.value.en) else None,
      if p.oldMethodDesc.Some? then Some(p.oldMethodDesc.value.my) else None,
      if p.newMethodTitle.Some? then Some(p.newMethodTitle.value.en) else None,
      if p.newMethodTitle.Some? then Some(p.newMethodTitle.value.my) else None,
      if p.newMethodDesc.Some? then Some(p.newMethodDesc.value.en) else None,
      if p.newMethodDesc.Some? then Some(p.newMethodDesc.value.my) else None,
      if p.details.Some? then Some(p.details.value.en) else None,
      if p.details.Some? then Some(p.details.value.my) else None,
      if p.exampleCode.Some? && p.exampleCode.value != "" then p.exampleCode else None,
      if p.visualExplanation.Some? then Some(ImageColumn(p.visualExplanation.value)) else None)
  }

  /** `update(columns)` on a stored row: each written column replaces the stored one, the rest stay. */
  function Updated(r: TipRow, c: TipColumns): TipRow {
    TipRow(r.id, r.createdAt,
           c.titleEn.GetOr(r.titleEn), c.titleMy.GetOr(r.titleMy),
           c.oldMethodTitleEn.GetOr(r.oldMethodTitleEn), c.oldMethodTitleMy.GetOr(r.oldMethodTitleMy),
           if c.oldMethodDescEn.Some? then c.oldMethodDescEn else r.oldMethodDescEn,
           if c.oldMethodDescMy.Some? then c.oldMethodDescMy else r.oldMethodDescMy,
           c.newMethodTitleEn.GetOr(r.newMethodTitleEn), c.newMethodTitleMy.GetOr(r.newMethodTitleMy),
           if c.newMethodDescEn.Some? then c.newMethodDescEn else r.newMethodDescEn,
           if c.newMethodDescMy.Some? then c.newMethodDescMy else r.newMethodDescMy,
           if c.detailsEn.Some? then c.detailsEn else r.detailsEn,
           if c.detailsMy.Some? then c.detailsMy else r.detailsMy,
           c.exampleCode.GetOr(r.exampleCode),
           if c.imageUrl.Some? then c.imageUrl.value else r.imageUrl)
  }

  /**
   * A partial edit, written with `toSupabase` and read back with
   * `fromSupabase`, changes exactly the fields it names: those read back as
   * edited (empty example code is not written; a visual explanation key
   * without a URL reads back as the empty URL), every other field as before.
   */
  lemma EditReadsBack(r: TipRow, p: TipPatch)
    ensures var before := FromRow(Some(r)).value;
      var after := FromRow(Some(Updated(r, ToColumns(p)))).value;
      && after.id == before.id && after.createdAt == before.createdAt
      && after.title == p.title.GetOr(before.title)
      && after.oldMethodTitle == p.oldMethodTitle.GetOr(before.oldMethodTitle)
      && after.oldMethodDesc == p.oldMethodDesc.GetOr(before.oldMethodDesc)
      && after.newMethodTitle == p.newMethodTitle.GetOr(before.newMethodTitle)
      && after.newMethodDesc == p.newMethodDesc.GetOr(before.newMethodDesc)
      && after.details == p.details.GetOr(before.details)
      && after.exampleCode ==
           (if p.exampleCode.Some? && p.exampleCode.value != "" then p.exampleCode.value else before.exampleCode)
      && after.visualExplanation ==
           (if p.visualExplanation.None? then before.visualExplanation
            else if p.visualExplanation.value.Some? then p.visualExplanation.value
            else Some(VisualExplanation("")))
  {
  }

  /** The edit that writes every field of a tip (`{...tip}`). */
  function PatchOf(t: Tip): TipPatch {
    TipPatch(Some(t.title), Some(t.oldMethodTitle), Some(t.oldMethodDesc), Some(t.newMethodTitle),
             Some(t.newMethodDesc), Some(t.details), Some(t.exampleCode),
             if t.visualExplanation.Some? then Some(t.visualExplanation) else None)
  }

  predicate HasTextColumns(c: TipColumns) {
    c.titleEn.Some? && c.titleMy.Some? && c.oldMethodTitleEn.Some? && c.oldMethodTitleMy.Some? &&
    c.newMethodTitleEn.Some? && c.newMethodTitleMy.Some? && c.exampleCode.Some?
  }

  /** The row the table stores for the written columns; an unwritten image is `NULL`. */
  function StoredRow(c: TipColumns, id: int, createdAt: Option<string>): TipRow
    requires HasTextColumns(c)
  {
    TipRow(id, createdAt, c.titleEn.value, c.titleMy.value, c.oldMethodTitleEn.value, c.oldMethodTitleMy.value,
           c.oldMethodDescEn, c.oldMethodDescMy, c.newMethodTitleEn.value, c.newMethodTitleMy.value,
           c.newMethodDescEn, c.newMethodDescMy, c.detailsEn, c.detailsMy, c.exampleCode.value,
           if c.imageUrl.Some? then c.imageUrl.value else None)
  }

  /**
   * Round trip: a tip with non-empty example code and a visual explanation
   * (even one with an empty URL, stored as `NULL`) is read back unchanged.
   */
  lemma RoundTrip(t: Tip)
    requires t.exampleCode != "" && t.visualExplanation.Some?
    ensures HasTextColumns(ToColumns(PatchOf(t)))
    ensures FromRow(Some(StoredRow(ToColumns(PatchOf(t)), t.id, t.createdAt))) == Some(t)
  {
  }

  /** A tip without a visual explanation comes back with an empty one. */
  lemma RoundTripAddsVisual(t: Tip)
    requires t.exampleCode != "" && t.visualExplanation.None?
    ensures FromRow(Some(StoredRow(ToColumns(PatchOf(t)), t.id, t.createdAt))) ==
      Some(t.(visualExplanation := Some(VisualExplanation(""))))
  {
  }
}
