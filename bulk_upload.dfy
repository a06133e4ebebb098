/**
 * The bulk CSV import of the admin page
 * (src/components/admin/BulkFormulaUpload.tsx): each parsed row is checked,
 * mapped to a `formulas` row and then written, as an update when a formula
 * with the same English title exists and as an insert otherwise; the loop
 * counts inserts, updates and failures and logs one line per failed row.
 * The database answers are parameters: `lookup(i)` is the id the title
 * search finds for row `i`, `write(i)` the error message of its write.
 */
module BulkUpload {
  import opened Wrappers
  import opened Strings
  import opened Records
  import opened Seqs

  /** A parsed CSV row: header name to cell text; a missing key is a missing cell. */
  type CsvRow = map<string, string>

  const TITLE_EN := "Title (EN)"
  const TITLE_MY := "Title (MY)"
  const CATEGORY_EN := "Category (EN)"
  const CATEGORY_MY := "Category (MY)"
  const DIFFICULTY := "Difficulty"
  const SHORT_EN := "Short Desc (EN)"
  const SHORT_MY := "Short Desc (MY)"
  const LONG_EN := "Long Desc (EN)"
  const LONG_MY := "Long Desc (MY)"
  const SYNTAX := "Syntax"
  const BREAKDOWN_EN := "Syntax Breakdown (EN)"
  const BREAKDOWN_MY := "Syntax Breakdown (MY)"
  const EXAMPLE_CODE := "Example Code"
  const EXAMPLE_EN := "Example Exp (EN)"
  const EXAMPLE_MY := "Example Exp (MY)"

  function Cell(row: CsvRow, column: string): (c: Option<string>)
    ensures c.Some? <==> column in row
  {
    if column in row then Some(row[column]) else None
  }

  /** The cell is present and not empty. */
  predicate Filled(row: CsvRow, column: string) {
    column in row && row[column] != ""
  }

  /** `getDifficultyMy`: the Burmese label of an English level, Beginner's for anything else. */
  function DifficultyMy(diffEn: Option<string>): (my: string)
    ensures diffEn == Some(BEGINNER) ==> my == BEGINNER_MY
    ensures diffEn == Some(INTERMEDIATE) ==> my == INTERMEDIATE_MY
    ensures diffEn == Some(ADVANCED) ==> my == ADVANCED_MY
    ensures diffEn !in {Some(INTERMEDIATE), Some(ADVANCED)} ==> my == BEGINNER_MY
  {
    if diffEn == Some(INTERMEDIATE) then INTERMEDIATE_MY
    else if diffEn == Some(ADVANCED) then ADVANCED_MY
    else BEGINNER_MY
  }

  /** `cell?.split('\n') || []`: the lines of a cell; a missing cell gives none. */
  function LinesOf(c: Option<string>): (lines: seq<string>)
    ensures c.None? ==> lines == []
    ensures c.Some? ==> |lines| >= 1 && Join(lines, "\n") == c.value
  {
    if c.Some? then JoinSplit(c.value, '\n'); Split(c.value, '\n') else []
  }

  /** The example a row carries; missing cells stay missing. */
  datatype BulkExample = BulkExample(
    code: Option<string>, explanationEn: Option<string>, explanationMy: Option<string>, imageUrl: string)

  /** The payload written for a row; `None` is a column left out. */
  datatype BulkColumns = BulkColumns(
    titleEn: string, titleMy: Option<string>,
    categoryEn: Option<string>, categoryMy: Option<string>,
    difficultyEn: Option<string>, difficultyMy: string,
    shortDescriptionEn: Option<string>, shortDescriptionMy: Option<string>,
    longDescriptionEn: seq<string>, longDescriptionMy: seq<string>,
    syntax: string,
    syntaxBreakdownEn: seq<string>, syntaxBreakdownMy: seq<string>,
    example: string,
    examples: seq<BulkExample>)

  /** The row a CSV line maps to. */
  function Prepare(row: CsvRow): BulkColumns
    requires Filled(row, TITLE_EN) && Filled(row, SYNTAX)
  {
    BulkColumns(
      row[TITLE_EN], Cell(row, TITLE_MY),
      Cell(row, CATEGORY_EN), Cell(row, CATEGORY_MY),
      Cell(row, DIFFICULTY), DifficultyMy(Cell(row, DIFFICULTY)),
      Cell(row, SHORT_EN), Cell(row, SHORT_MY),
      LinesOf(Cell(row, LONG_EN)), LinesOf(Cell(row, LONG_MY)),
      row[SYNTAX],
      LinesOf(Cell(row, BREAKDOWN_EN)), LinesOf(Cell(row, BREAKDOWN_MY)),
      Cell(row, EXAMPLE_CODE).GetOr(""),
      [BulkExample(Cell(row, EXAMPLE_CODE), Cell(row, EXAMPLE_EN), Cell(row, EXAMPLE_MY), "")])
  }

  /** A single-line column of the payload: the cell when the row has one, left out otherwise. */
  predicate CopiedFrom(v: Option<string>, row: CsvRow, column: string) {
    if column in row then v == Some(row[column]) else v.None?
  }

  /** A multi-line column of the payload: lines that join back to the cell, none for a missing cell. */
  predicate LinesFrom(lines: seq<string>, row: CsvRow, column: string) {
    if column in row then Join(lines, "\n") == row[column] else lines == []
  }

  /**
   * The payload keeps the title and the syntax, carries exactly one example
   * with an empty image URL, writes the legacy example column even when the
   * code cell is missing, and stores each multi-line cell as lines that join
   * back to the cell (none for a missing cell).
   */
  lemma PrepareSpec(row: CsvRow)
    requires Filled(row, TITLE_EN) && Filled(row, SYNTAX)
    ensures var c := Prepare(row);
      && c.titleEn == row[TITLE_EN] && c.syntax == row[SYNTAX]
      && c.difficultyMy == DifficultyMy(Cell(row, DIFFICULTY))
      && |c.examples| == 1 && c.examples[0].imageUrl == "" && c.examples[0].code == Cell(row, EXAMPLE_CODE)
      && c.example == (if EXAMPLE_CODE in row then row[EXAMPLE_CODE] else "")
      && CopiedFrom(c.titleMy, row, TITLE_MY)
      && CopiedFrom(c.categoryEn, row, CATEGORY_EN) && CopiedFrom(c.categoryMy, row, CATEGORY_MY)
      && CopiedFrom(c.difficultyEn, row, DIFFICULTY)
      && CopiedFrom(c.shortDescriptionEn, row, SHORT_EN) && CopiedFrom(c.shortDescriptionMy, row, SHORT_MY)
      && CopiedFrom(c.examples[0].code, row, EXAMPLE_CODE)
      && CopiedFrom(c.examples[0].explanationEn, row, EXAMPLE_EN)
      && CopiedFrom(c.examples[0].explanationMy, row, EXAMPLE_MY)
      && LinesFrom(c.longDescriptionEn, row, LONG_EN) && LinesFrom(c.longDescriptionMy, row, LONG_MY)
      && LinesFrom(c.syntaxBreakdownEn, row, BREAKDOWN_EN) && LinesFrom(c.syntaxBreakdownMy, row, BREAKDOWN_MY)
  {
  }

  /** The database requests of the import. */
  datatype BulkCall = FindByTitle(title: string) | UpdateRow(id: int, columns: BulkColumns) | InsertRow(columns: BulkColumns)

  /** What became of one row. */
  datatype Outcome = Invalid | Inserted | Updated | Failed(message: string) {
    predicate Succeeded() { Inserted? || Updated? }
  }

  function IsSuccess(o: Outcome): bool { o.Succeeded() }
  function IsFailure(o: Outcome): bool { !o.Succeeded() }

  /** A row without a title or a syntax is rejected; otherwise the write decides. */
  function RowOutcome(row: CsvRow, found: Option<int>, written: Option<string>): (o: Outcome)
    ensures o == Invalid <==> !Filled(row, TITLE_EN) || !Filled(row, SYNTAX)
    ensures o.Updated? ==> found.Some?
    ensures o.Inserted? ==> found.None?
    ensures o.Failed? <==> Filled(row, TITLE_EN) && Filled(row, SYNTAX) && written.Some?
    ensures o.Failed? ==> o.message == written.value
    ensures Filled(row, TITLE_EN) && Filled(row, SYNTAX) && written.None? ==>
      o.Succeeded() && (o.Updated? <==> found.Some?)
  {
    if !Filled(row, TITLE_EN) || !Filled(row, SYNTAX) then Invalid
    else if written.Some? then Failed(written.value)
    else if found.Some? then Updated
    else Inserted
  }

  /** The requests for one row: none for a rejected row, else the title search and one write. */
  function RowCalls(row: CsvRow, found: Option<int>): seq<BulkCall> {
    if !Filled(row, TITLE_EN) || !Filled(row, SYNTAX) then []
    else [FindByTitle(row[TITLE_EN]), if found.Some? then UpdateRow(found.value, Prepare(row)) else InsertRow(Prepare(row))]
  }

  /** A rejected row makes no request; an accepted one a title search and one write, an update exactly when the search found a formula. */
  lemma RowCallsSpec(row: CsvRow, found: Option<int>)
    ensures var calls := RowCalls(row, found);
      && (!Filled(row, TITLE_EN) || !Filled(row, SYNTAX) ==> calls == [])
      && (Filled(row, TITLE_EN) && Filled(row, SYNTAX) ==>
            |calls| == 2 && calls[0] == FindByTitle(row[TITLE_EN]) &&
            (calls[1].UpdateRow? <==> found.Some?) &&
            (found.Some? ==> calls[1] == UpdateRow(found.value, Prepare(row))))
  {
  }

  /** The log line of row `i` (counted from 1 in the text). */
  function ErrorLine(i: nat, row: CsvRow, o: Outcome): (line: string)
    requires o.Failed? ==> TITLE_EN in row
    ensures StartsWith(line, "Row " + NatToString(i + 1))
  {
    var head := "Row " + NatToString(i + 1);
    var line := if o.Failed? then head + " (" + row[TITLE_EN] + "): " + o.message else head + ": Missing Title or Syntax";
    assert line[..|head|] == head;
    line
  }

  function Outcomes(rows: seq<CsvRow>, lookup: nat -> Option<int>, write: nat -> Option<string>): (os: seq<Outcome>)
    ensures |os| == |rows|
    ensures forall i :: 0 <= i < |rows| ==> os[i] == RowOutcome(rows[i], lookup(i), write(i))
  {
    seq(|rows|, i requires 0 <= i < |rows| => RowOutcome(rows[i], lookup(i), write(i)))
  }

  /** The log lines of the failed rows among the first `n`, in row order. */
  function ErrorsUpTo(rows: seq<CsvRow>, lookup: nat -> Option<int>, write: nat -> Option<string>, n: nat): seq<string>
    requires n <= |rows|
  {
    if n == 0 then []
    else
      var o := RowOutcome(rows[n - 1], lookup(n - 1), write(n - 1));
      ErrorsUpTo(rows, lookup, write, n - 1) + if o.Succeeded() then [] else [ErrorLine(n - 1, rows[n - 1], o)]
  }

  /** The requests for the first `n` rows, in row order. */
  function CallsUpTo(rows: seq<CsvRow>, lookup: nat -> Option<int>, n: nat): seq<BulkCall>
    requires n <= |rows|
  {
    if n == 0 then [] else CallsUpTo(rows, lookup, n - 1) + RowCalls(rows[n - 1], lookup(n - 1))
  }

  /** The figures the import shows when it is done. */
  datatype Report = Report(total: nat, success: nat, failed: nat, errors: seq<string>, notify: bool)

  /** There is one log line per failed row, each naming a row. */
  lemma {:induction false} ErrorsMatchFailures(rows: seq<CsvRow>, lookup: nat -> Option<int>, write: nat -> Option<string>, n: nat)
    requires n <= |rows|
    ensures |ErrorsUpTo(rows, lookup, write, n)| == Count(Outcomes(rows, lookup, write)[..n], IsFailure)
    ensures forall k :: 0 <= k < |ErrorsUpTo(rows, lookup, write, n)| ==> StartsWith(ErrorsUpTo(rows, lookup, write, n)[k], "Row ")
  {
    var os := Outcomes(rows, lookup, write);
    if n > 0 {
      ErrorsMatchFailures(rows, lookup, write, n - 1);
      assert os[..n] == os[..n - 1] + [os[n - 1]];
      FilterAppend(os[..n - 1], [os[n - 1]], IsFailure);
      var o := os[n - 1];
      if !o.Succeeded() {
        var line := ErrorLine(n - 1, rows[n - 1], o);
        assert line[..4] == (line[..|"Row " + NatToString(n)|])[..4];
      }
    }
  }

  /** Counting one more outcome. */
  lemma CountStep(os: seq<Outcome>, i: nat)
    requires i < |os|
    ensures Count(os[..i + 1], IsSuccess) == Count(os[..i], IsSuccess) + if os[i].Succeeded() then 1 else 0
    ensures Count(os[..i + 1], IsFailure) == Count(os[..i], IsFailure) + if os[i].Succeeded() then 0 else 1
  {
    assert os[..i + 1] == os[..i] + [os[i]];
    FilterAppend(os[..i], [os[i]], IsSuccess);
    FilterAppend(os[..i], [os[i]], IsFailure);
  }

  /** Every row is counted once: as a success or as a failure. */
  lemma {:induction false} SuccessPlusFailed(os: seq<Outcome>)
    ensures Count(os, IsSuccess) + Count(os, IsFailure) == |os|
  {
    if |os| > 0 {
      SuccessPlusFailed(os[1..]);
    }
  }

  /**
   * One row of the loop: a row without a title or a syntax is rejected with
   * no request; otherwise the title search, then an update of the formula it
   * found or an insert, whose error (if any) fails the row.
   */
  method ImportRow(row: CsvRow, found: Option<int>, written: Option<string>) returns (o: Outcome, calls: seq<BulkCall>)
    ensures o == RowOutcome(row, found, written)
    ensures calls == RowCalls(row, found)
  {
    if TITLE_EN !in row || row[TITLE_EN] == "" || SYNTAX !in row || row[SYNTAX] == "" {
      return Invalid, [];
    }
    var data := Prepare(row);
    if found.Some? {
      calls := [FindByTitle(row[TITLE_EN]), UpdateRow(found.value, data)];
      o := if written.None? then Updated else Failed(written.value);
    } else {
      calls := [FindByTitle(row[TITLE_EN]), InsertRow(data)];
      o := if written.None? then Inserted else Failed(written.value);
    }
  }

  /** One more row adds its requests, and its log line when it failed. */
  lemma UploadStep(rows: seq<CsvRow>, lookup: nat -> Option<int>, write: nat -> Option<string>, i: nat)
    requires i < |rows|
    ensures var o := Outcomes(rows, lookup, write)[i];
      && o == RowOutcome(rows[i], lookup(i), write(i))
      && CallsUpTo(rows, lookup, i + 1) == CallsUpTo(rows, lookup, i) + RowCalls(rows[i], lookup(i))
      && (o.Succeeded() ==> ErrorsUpTo(rows, lookup, write, i + 1) == ErrorsUpTo(rows, lookup, write, i))
      && (!o.Succeeded() ==> ErrorsUpTo(rows, lookup, write, i + 1) == ErrorsUpTo(rows, lookup, write, i) + [ErrorLine(i, rows[i], o)])
  {
    var errors := ErrorsUpTo(rows, lookup, write, i);
    assert errors + [] == errors;
  }

  /** After the last row: the counts of all rows, with one log line per failure. */
  lemma UploadTotals(rows: seq<CsvRow>, lookup: nat -> Option<int>, write: nat -> Option<string>)
    ensures var os := Outcomes(rows, lookup, write);
      && os[..|rows|] == os
      && Count(os, IsSuccess) + Count(os, IsFailure) == |rows|
      && |ErrorsUpTo(rows, lookup, write, |rows|)| == Count(os, IsFailure)
  {
    var os := Outcomes(rows, lookup, write);
    assert os[..|rows|] == os;
    SuccessPlusFailed(os);
    ErrorsMatchFailures(rows, lookup, write, |rows|);
  }

  /**
   * The import loop: rows in order, a rejected row counted as failed without
   * any request, the others searched by title and then updated or inserted.
   */
  method Upload(rows: seq<CsvRow>, lookup: nat -> Option<int>, write: nat -> Option<string>)
    returns (report: Report, sent: seq<BulkCall>)
    ensures report.total == |rows|
    ensures report.success == Count(Outcomes(rows, lookup, write), IsSuccess)
    ensures report.failed == Count(Outcomes(rows, lookup, write), IsFailure)
    ensures report.success + report.failed == |rows|
    ensures report.errors == ErrorsUpTo(rows, lookup, write, |rows|)
    ensures |report.errors| == report.failed
    ensures report.notify <==> report.success > 0
    ensures sent == CallsUpTo(rows, lookup, |rows|)
  {
    ghost var os := Outcomes(rows, lookup, write);
    var successCount, updateCount, failCount := 0, 0, 0;
    var errors: seq<string> := [];
    sent := [];
    for i := 0 to |rows|
      invariant successCount + updateCount == Count(os[..i], IsSuccess)
      invariant failCount == Count(os[..i], IsFailure)
      invariant errors == ErrorsUpTo(rows, lookup, write, i)
      invariant sent == CallsUpTo(rows, lookup, i)
    {
      CountStep(os, i);
      UploadStep(rows, lookup, write, i);
      var outcome, calls := ImportRow(rows[i], lookup(i), write(i));
      sent := sent + calls;
      if outcome.Inserted? {
        successCount := successCount + 1;
      } else if outcome.Updated? {
        updateCount := updateCount + 1;
      } else {
        failCount := failCount + 1;
        errors := errors + [ErrorLine(i, rows[i], outcome)];
      }
    }
    UploadTotals(rows, lookup, write);
    var success := successCount + updateCount;
    report := Report(|rows|, success, failCount, errors, success > 0);
  }
}
