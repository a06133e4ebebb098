/**
 * The sample-data grid of the formula builder (src/components/sample-data-table.tsx):
 * a click selects one cell, a drag selects a rectangle, and each selection is
 * reported to the builder as an A1-style reference such as `B2` or `A1:C3`.
 */
module RangeSelector {
  import opened Wrappers
  import opened Strings

  /** The grid's column letters. */
  const HEADERS: seq<char> := ['A', 'B', 'C', 'D']

  /** A grid position, both indexes 0-based. */
  datatype Cell = Cell(row: nat, col: nat)

  /**
   * `headers[col]` inside a template literal: the column letter, or the
   * text `undefined` for a column past the last header.
   */
  function ColumnName(col: nat): (name: string)
    ensures col < |HEADERS| ==> name == [HEADERS[col]]
    ensures name != [] && !IsDigit(name[0])
  {
    if col < |HEADERS| then [HEADERS[col]] else "undefined"
  }

  /** `getCellReference(row, col)`: the column name followed by the 1-based row. */
  function CellReference(row: nat, col: nat): (r: string)
    ensures |r| >= 2 && r[0] == ColumnName(col)[0]
    ensures col < |HEADERS| ==> r[0] == HEADERS[col] && r[1..] == NatToString(row + 1)
  {
    ColumnName(col) + NatToString(row + 1)
  }

  /** A reference determines its row, and its column among the lettered ones. */
  lemma CellReferenceInjective(r1: nat, c1: nat, r2: nat, c2: nat)
    requires CellReference(r1, c1) == CellReference(r2, c2)
    ensures r1 == r2 && ColumnName(c1) == ColumnName(c2)
    ensures c1 < |HEADERS| && c2 < |HEADERS| ==> c1 == c2
  {
    var n1, n2 := ColumnName(c1), ColumnName(c2);
    var s := CellReference(r1, c1);
    assert |n1| == |n2|;
    assert n1 == s[..|n1|] == n2;
    assert NatToString(r1 + 1) == s[|n1|..] == NatToString(r2 + 1);
    NatToStringInjective(r1 + 1, r2 + 1);
  }

  function Min(a: nat, b: nat): nat { if a <= b then a else b }
  function Max(a: nat, b: nat): nat { if a <= b then b else a }

  /** Top-left corner of the rectangle spanned by `a` and `b`. */
  function TopLeft(a: Cell, b: Cell): Cell {
    Cell(Min(a.row, b.row), Min(a.col, b.col))
  }

  /** Bottom-right corner of the rectangle spanned by `a` and `b`. */
  function BottomRight(a: Cell, b: Cell): Cell {
    Cell(Max(a.row, b.row), Max(a.col, b.col))
  }

  /**
   * What a mouse-up reports for a drag from `a` to `b`: the references of the
   * normalised corners, written once when they coincide and as `TL:BR` otherwise.
   */
  function RangeReference(a: Cell, b: Cell): (r: string)
    ensures var tl, br := TopLeft(a, b), BottomRight(a, b);
      var s, e := CellReference(tl.row, tl.col), CellReference(br.row, br.col);
      r == s || r == s + ":" + e
  {
    var tl, br := TopLeft(a, b), BottomRight(a, b);
    var startRef := CellReference(tl.row, tl.col);
    var endRef := CellReference(br.row, br.col);
    if startRef == endRef then startRef else startRef + ":" + endRef
  }

  /** Dragging from `b` to `a` reports the same range as dragging from `a` to `b`. */
  lemma RangeReferenceSymmetric(a: Cell, b: Cell)
    ensures RangeReference(a, b) == RangeReference(b, a)
  {
    assert TopLeft(a, b) == TopLeft(b, a);
    assert BottomRight(a, b) == BottomRight(b, a);
  }

  /**
   * On the lettered columns a drag reports a single cell exactly when it
   * starts and ends on the same cell; otherwise it reports `TL:BR`.
   */
  lemma {:induction false} RangeReferenceSingle(a: Cell, b: Cell)
    requires a.col < |HEADERS| && b.col < |HEADERS|
    ensures RangeReference(a, b) == CellReference(a.row, a.col) <==> a == b
    ensures a != b ==> var tl, br := TopLeft(a, b), BottomRight(a, b);
      RangeReference(a, b) == CellReference(tl.row, tl.col) + ":" + CellReference(br.row, br.col)
  {
    var tl, br := TopLeft(a, b), BottomRight(a, b);
    var s, e := CellReference(tl.row, tl.col), CellReference(br.row, br.col);
    if s == e {
      CellReferenceInjective(tl.row, tl.col, br.row, br.col);
      assert a == b;
    } else {
      assert a != b;
      var r := RangeReference(a, b);
      assert r == s + ":" + e;
      // past its column letter a reference holds only digits, but `r` holds a ':'
      assert r[|s|] == ':';
    }
  }

  /** `cell` lies in the rectangle spanned by `a` and `b`. */
  predicate InRectangle(a: Cell, b: Cell, cell: Cell) {
    var tl, br := TopLeft(a, b), BottomRight(a, b);
    tl.row <= cell.row <= br.row && tl.col <= cell.col <= br.col
  }

  /** The rectangle is the cells lying between `a` and `b` in each direction. */
  lemma InRectangleBetween(a: Cell, b: Cell, cell: Cell)
    ensures InRectangle(a, b, cell) <==>
      ((a.row <= cell.row <= b.row || b.row <= cell.row <= a.row) &&
       (a.col <= cell.col <= b.col || b.col <= cell.col <= a.col))
  {
  }

  /** Both ends of a drag are highlighted. */
  lemma RectangleHoldsEnds(a: Cell, b: Cell)
    ensures InRectangle(a, b, a) && InRectangle(a, b, b)
  {
  }

  /**
   * The grid component's selection state and the references it has passed
   * to `onCellSelect`, oldest first.
   */
  class SampleDataTable {
    var isSelecting: bool
    var startCell: Option<Cell>
    var endCell: Option<Cell>
    var emitted: seq<string>

    /** A drag in progress always has both of its ends. */
    predicate Valid()
      reads this
    {
      (startCell.Some? <==> endCell.Some?) && (isSelecting ==> startCell.Some?)
    }

    constructor()
      ensures Valid()
      ensures !isSelecting && startCell == None && endCell == None && emitted == []
    {
      isSelecting := false;
      startCell := None;
      endCell := None;
      emitted := [];
    }

    /** `handleMouseDown`: start a drag at the cell and report the cell at once. */
    method MouseDown(row: nat, col: nat)
      modifies this
      ensures Valid()
      ensures isSelecting && startCell == Some(Cell(row, col)) && endCell == Some(Cell(row, col))
      ensures emitted == old(emitted) + [CellReference(row, col)]
    {
      isSelecting := true;
      startCell := Some(Cell(row, col));
      endCell := Some(Cell(row, col));
      emitted := emitted + [CellReference(row, col)];
    }

    /** `handleMouseOver`: move the drag's end, only while a drag is in progress. */
    method MouseOver(row: nat, col: nat)
      requires Valid()
      modifies this
      ensures Valid()
      ensures isSelecting == old(isSelecting) && startCell == old(startCell)
      ensures endCell == if old(isSelecting) then Some(Cell(row, col)) else old(endCell)
      ensures emitted == old(emitted)
    {
      if isSelecting {
        endCell := Some(Cell(row, col));
      }
    }

    /** `handleMouseUp`: report the dragged range, then stop selecting. */
    method MouseUp()
      requires Valid()
      modifies this
      ensures Valid()
      ensures !isSelecting && startCell == old(startCell) && endCell == old(endCell)
      ensures old(isSelecting) ==>
        emitted == old(emitted) + [RangeReference(old(startCell).value, old(endCell).value)]
      ensures !old(isSelecting) ==> emitted == old(emitted)
    {
      if isSelecting && startCell.Some? && endCell.Some? {
        var s, e := startCell.value, endCell.value;
        var tl, br := TopLeft(s, e), BottomRight(s, e);
        var startRef := CellReference(tl.row, tl.col);
        var endRef := CellReference(br.row, br.col);
        if startRef == endRef {
          emitted := emitted + [startRef];
        } else {
          emitted := emitted + [startRef + ":" + endRef];
        }
      }
      isSelecting := false;
    }

    /** The container's mouse-leave handler: stop selecting, keep both ends, report nothing. */
    method MouseLeave()
      requires Valid()
      modifies this
      ensures Valid()
      ensures !isSelecting && startCell == old(startCell) && endCell == old(endCell)
      ensures emitted == old(emitted)
    {
      isSelecting := false;
    }

    /** `isCellInRange`: the cell is highlighted. */
    function IsCellInRange(row: nat, col: nat): (r: bool)
      reads this
      ensures r ==> isSelecting
      ensures !isSelecting || startCell.None? || endCell.None? ==> !r
      ensures isSelecting && startCell.Some? && endCell.Some? ==>
        (r <==> InRectangle(startCell.value, endCell.value, Cell(row, col)))
    {
      if !isSelecting || startCell.None? || endCell.None? then false
      else
        var s, e := startCell.value, endCell.value;
        var minRow, maxRow := Min(s.row, e.row), Max(s.row, e.row);
        var minCol, maxCol := Min(s.col, e.col), Max(s.col, e.col);
        minRow <= row <= maxRow && minCol <= col <= maxCol
    }

    /** During a drag both of its ends are highlighted. */
    lemma EndsHighlighted()
      requires Valid() && isSelecting
      ensures IsCellInRange(startCell.value.row, startCell.value.col)
      ensures IsCellInRange(endCell.value.row, endCell.value.col)
    {
      RectangleHoldsEnds(startCell.value, endCell.value);
    }
  }

  /**
   * A press on one cell, a move onto another and a release: the builder
   * hears the pressed cell first and the dragged range last.
   */
  method Drag(t: SampleDataTable, from: Cell, to: Cell)
    requires t.Valid()
    modifies t
    ensures t.Valid() && !t.isSelecting
    ensures t.emitted == old(t.emitted) + [CellReference(from.row, from.col), RangeReference(from, to)]
  {
    t.MouseDown(from.row, from.col);
    t.MouseOver(to.row, to.col);
    t.MouseUp();
  }
}
