/**
 * Placing table cells with column and row spans on a grid. `Place` is the
 * placement as a function; `PositionTableRows` is the loop of the source over
 * its occupancy array. The main result: cells never overlap, stay within the
 * logical columns, and each sits in the leftmost column that is free for it.
 */
module TableLayout {

  type Positive = x: int | 1 <= x witness 1

  datatype Spans = Spans(colspan: Positive, rowspan: Positive)

  /** One placed cell: the grid rows and columns it covers. */
  datatype Rect = Rect(row: nat, column: nat, width: Positive, height: Positive) {
    predicate Covers(r: int, c: int) {
      row <= r < row + height && column <= c < column + width
    }
    function End(): nat {
      column + width
    }
  }

  // The first row below the cells that end in column `i`, 0 when there is none.
  function At(occupied: seq<nat>, i: nat): nat {
    if i < |occupied| then occupied[i] else 0
  }

  predicate IsFree(occupied: seq<nat>, row: nat, column: nat, width: nat) {
    forall i: nat | column <= i < column + width :: At(occupied, i) <= row
  }

  // The leftmost column from `column` on that is free for `width` columns.
  function FindColumn(occupied: seq<nat>, row: nat, column: nat, width: Positive): (c: nat)
    ensures column <= c && IsFree(occupied, row, c, width)
    ensures forall d | column <= d < c :: !IsFree(occupied, row, d, width)
    decreases if column < |occupied| then |occupied| - column else 0
  {
    if IsFree(occupied, row, column, width) then column else FindColumn(occupied, row, column + 1, width)
  }

  function Max(a: nat, b: nat): nat {
    if a < b then b else a
  }

  // Mark `width` columns as taken until row `until`.
  function Occupy(occupied: seq<nat>, column: nat, width: nat, until: nat): (r: seq<nat>)
    ensures forall i: nat ::
              At(r, i) == if column <= i < column + width then Max(At(occupied, i), until) else At(occupied, i)
  {
    seq(Max(|occupied|, column + width), i requires i >= 0 =>
      if column <= i < column + width then Max(At(occupied, i), until) else At(occupied, i))
  }

  // The placed cells of one row from `column` on, and the occupancy after them.
  function PlaceRow(cells: seq<Spans>, occupied: seq<nat>, row: nat, column: nat): (r: (seq<Rect>, seq<nat>))
    ensures |r.0| == |cells|
  {
    if cells == [] then ([], occupied)
    else
      var first := PlaceCell(cells[0], occupied, row, column);
      var (rest, after) := PlaceRow(cells[1..], Mark(occupied, first), row, first.End());
      ([first] + rest, after)
  }

  function PlaceCell(cell: Spans, occupied: seq<nat>, row: nat, column: nat): Rect {
    Rect(row, FindColumn(occupied, row, column, cell.colspan), cell.colspan, cell.rowspan)
  }

  function Mark(occupied: seq<nat>, cell: Rect): seq<nat> {
    Occupy(occupied, cell.column, cell.width, cell.row + cell.height)
  }

  function PlaceFrom(rows: seq<seq<Spans>>, occupied: seq<nat>, row: nat): (r: seq<seq<Rect>>)
    ensures |r| == |rows| && forall i | 0 <= i < |rows| :: |r[i]| == |rows[i]|
  {
    if rows == [] then []
    else
      var (first, after) := PlaceRow(rows[0], occupied, row, 0);
      [first] + PlaceFrom(rows[1..], after, row + 1)
  }

  // Every cell with its place, row by row.
  function Place(rows: seq<seq<Spans>>): (r: seq<seq<Rect>>)
    ensures |r| == |rows| && forall i | 0 <= i < |rows| :: |r[i]| == |rows[i]|
  {
    PlaceFrom(rows, [], 0)
  }

  function Flatten(rows: seq<seq<Rect>>): seq<Rect> {
    if rows == [] then [] else rows[0] + Flatten(rows[1..])
  }

  // All placed cells in reading order.
  function Rects(rows: seq<seq<Spans>>): seq<Rect> {
    Flatten(Place(rows))
  }

  function MaxEnd(rects: seq<Rect>): nat {
    if rects == [] then 0 else Max(rects[0].End(), MaxEnd(rects[1..]))
  }

  function LogicalColumns(rows: seq<seq<Spans>>): nat {
    MaxEnd(Rects(rows))
  }

  // ---- What placement guarantees ------------------------------------------------

  ghost predicate Disjoint(a: Rect, b: Rect) {
    forall r, c :: !(a.Covers(r, c) && b.Covers(r, c))
  }

  // End of the cell before cell `k` in its row, 0 for the first cell of a row.
  function PreviousEnd(rects: seq<Rect>, k: nat): nat
    requires k < |rects|
  {
    if k > 0 && rects[k - 1].row == rects[k].row then rects[k - 1].End() else 0
  }

  // Some earlier cell covers a slot of row `row` in columns [column, column + width).
  ghost predicate Blocked(rects: seq<Rect>, row: nat, column: nat, width: nat) {
    exists j, c :: 0 <= j < |rects| && column <= c < column + width && rects[j].Covers(row, c)
  }

  /** Cell `k` avoids all earlier cells and sits as far left as they allow. */
  ghost predicate WellPlaced(rects: seq<Rect>, k: nat)
    requires k < |rects|
  {
    && (forall j | 0 <= j < k :: Disjoint(rects[j], rects[k]))
    && PreviousEnd(rects, k) <= rects[k].column
    && (forall d | PreviousEnd(rects, k) <= d < rects[k].column :: Blocked(rects[..k], rects[k].row, d, rects[k].width))
  }

  ghost predicate AllWellPlaced(rects: seq<Rect>) {
    forall k | 0 <= k < |rects| :: WellPlaced(rects, k)
  }

  // The occupancy array says exactly how far down the placed cells reach in each column.
  ghost predicate Records(occupied: seq<nat>, rects: seq<Rect>) {
    && (forall j, i: nat | 0 <= j < |rects| && rects[j].column <= i < rects[j].End() ::
          rects[j].row + rects[j].height <= At(occupied, i))
    && (forall i: nat | At(occupied, i) > 0 ::
          exists j :: 0 <= j < |rects| && rects[j].column <= i < rects[j].End()
            && rects[j].row + rects[j].height == At(occupied, i))
  }

  // Cells placed before column `column` of row `row`: none lies below, and those of the row end there.
  ghost predicate Frontier(rects: seq<Rect>, row: nat, column: nat) {
    && (forall j | 0 <= j < |rects| :: rects[j].row <= row)
    && (if rects != [] && rects[|rects| - 1].row == row then column == rects[|rects| - 1].End() else column == 0)
  }

  // The place found is free, and every place further left is not.
  lemma FreePlace(rects: seq<Rect>, occupied: seq<nat>, row: nat, column: nat, cell: Spans)
    requires Records(occupied, rects) && forall j | 0 <= j < |rects| :: rects[j].row <= row
    ensures var first := PlaceCell(cell, occupied, row, column);
            && (forall j | 0 <= j < |rects| :: Disjoint(rects[j], first))
            && (forall d | column <= d < first.column :: Blocked(rects, row, d, cell.colspan))
            && column <= first.column
  {
    var first := PlaceCell(cell, occupied, row, column);
    forall j | 0 <= j < |rects| ensures Disjoint(rects[j], first) {
      forall r, i ensures !(rects[j].Covers(r, i) && first.Covers(r, i)) {
        if rects[j].column <= i < rects[j].End() && first.column <= i < first.End() {
          assert At(occupied, i) <= row;
        }
      }
    }
    forall d | column <= d < first.column ensures Blocked(rects, row, d, cell.colspan) {
      assert !IsFree(occupied, row, d, cell.colspan);
      var i: nat :| d <= i < d + cell.colspan && At(occupied, i) > row;
      var j :| 0 <= j < |rects| && rects[j].column <= i < rects[j].End()
               && rects[j].row + rects[j].height == At(occupied, i);
      assert rects[j].Covers(row, i);
    }
  }

  lemma PlaceOne(rects: seq<Rect>, occupied: seq<nat>, row: nat, column: nat, cell: Spans)
    requires AllWellPlaced(rects) && Records(occupied, rects) && Frontier(rects, row, column)
    ensures var first := PlaceCell(cell, occupied, row, column);
            AllWellPlaced(rects + [first]) && Frontier(rects + [first], row, first.End()) &&
            Records(Mark(occupied, first), rects + [first])
  {
    var first := PlaceCell(cell, occupied, row, column);
    var placed, n := rects + [first], |rects|;
    FreePlace(rects, occupied, row, column, cell);
    hide Disjoint, Blocked, Records, FindColumn;
    assert PreviousEnd(placed, n) == column;
    assert placed[..n] == rects;
    forall k | 0 <= k < n ensures WellPlaced(placed, k) {
      assert WellPlaced(rects, k) && placed[..k] == rects[..k] && PreviousEnd(placed, k) == PreviousEnd(rects, k);
    }
    assert WellPlaced(placed, n);
    RecordOne(rects, occupied, first);
  }

  lemma RecordOne(rects: seq<Rect>, occupied: seq<nat>, cell: Rect)
    requires Records(occupied, rects)
    ensures Records(Mark(occupied, cell), rects + [cell])
  {
    var placed, after := rects + [cell], Mark(occupied, cell);
    forall i: nat | At(after, i) > 0
      ensures exists j ::
                && 0 <= j < |placed| && placed[j].column <= i < placed[j].End()
                && placed[j].row + placed[j].height == At(after, i)
    {
      if At(after, i) == At(occupied, i) {
        var j :| 0 <= j < |rects| && rects[j].column <= i < rects[j].End()
            && rects[j].row + rects[j].height == At(occupied, i);
        assert placed[j] == rects[j];
      } else {
        assert placed[|rects|] == cell;
      }
    }
  }

  lemma {:induction false} PlaceRowWell(rects: seq<Rect>, occupied: seq<nat>, row: nat, column: nat, cells: seq<Spans>)
    requires AllWellPlaced(rects) && Records(occupied, rects) && Frontier(rects, row, column)
    ensures var (placed, after) := PlaceRow(cells, occupied, row, column);
            AllWellPlaced(rects + placed) && Records(after, rects + placed) &&
            forall j | 0 <= j < |rects + placed| :: (rects + placed)[j].row <= row
    decreases cells
  {
    if cells == [] {
      assert rects + [] == rects;
    } else {
      var first := PlaceCell(cells[0], occupied, row, column);
      PlaceOne(rects, occupied, row, column, cells[0]);
      PlaceRowWell(rects + [first], Mark(occupied, first), row, first.End(), cells[1..]);
      var rest := PlaceRow(cells[1..], Mark(occupied, first), row, first.End()).0;
      assert rects + ([first] + rest) == rects + [first] + rest;
    }
  }

  lemma {:induction false} PlaceFromWell(rects: seq<Rect>, occupied: seq<nat>, row: nat, rows: seq<seq<Spans>>)
    requires AllWellPlaced(rects) && Records(occupied, rects)
    requires forall j | 0 <= j < |rects| :: rects[j].row < row
    ensures AllWellPlaced(rects + Flatten(PlaceFrom(rows, occupied, row)))
    decreases rows
  {
    hide AllWellPlaced, Records, PlaceRow;
    if rows == [] {
      assert rects + [] == rects;
    } else {
      var (first, after) := PlaceRow(rows[0], occupied, row, 0);
      PlaceRowWell(rects, occupied, row, 0, rows[0]);
      PlaceFromWell(rects + first, after, row + 1, rows[1..]);
      var rest := PlaceFrom(rows[1..], after, row + 1);
      assert ([first] + rest)[1..] == rest;
      assert rects + (first + Flatten(rest)) == rects + first + Flatten(rest);
    }
  }

  lemma {:induction false} WithinMaxEnd(rects: seq<Rect>)
    ensures forall k | 0 <= k < |rects| :: rects[k].End() <= MaxEnd(rects)
    ensures rects != [] ==> exists k :: 0 <= k < |rects| && rects[k].End() == MaxEnd(rects)
  {
    if rects != [] {
      var rest := rects[1..];
      WithinMaxEnd(rest);
      forall k | 0 <= k < |rects| ensures rects[k].End() <= MaxEnd(rects) {
        if k > 0 { assert rects[k] == rest[k - 1]; }
      }
      if rects[0].End() == MaxEnd(rects) {
        assert rects[0].End() == MaxEnd(rects);
      } else {
        var k :| 0 <= k < |rest| && rest[k].End() == MaxEnd(rest);
        assert rects[k + 1] == rest[k];
      }
    }
  }

  lemma RectsWellPlaced(rows: seq<seq<Spans>>)
    ensures AllWellPlaced(Rects(rows))
  {
    hide WellPlaced, Flatten, PlaceFrom;
    PlaceFromWell([], [], 0, rows);
    assert [] + Rects(rows) == Rects(rows);
  }

  lemma ColumnsAreMaxEnd(rows: seq<seq<Spans>>)
    ensures LogicalColumns(rows) == MaxEnd(Rects(rows))
  {
  }

  /**
   * Whatever the spans: no two cells overlap (unlike the table model of HTML,
   * section 4.9.12.1 of the HTML Living Standard, where they may), every cell
   * lies within the logical columns, which are reached, and every cell takes
   * the leftmost column at or after its predecessor's end that earlier cells
   * leave free.
   */
  lemma CellsNeverOverlap(rows: seq<seq<Spans>>)
    ensures forall j, k | 0 <= j < k < |Rects(rows)| :: Disjoint(Rects(rows)[j], Rects(rows)[k])
    ensures AllWellPlaced(Rects(rows))
    ensures forall k | 0 <= k < |Rects(rows)| :: Rects(rows)[k].End() <= LogicalColumns(rows)
    ensures Rects(rows) != [] ==> exists k :: 0 <= k < |Rects(rows)| && Rects(rows)[k].End() == LogicalColumns(rows)
  {
    hide Rects, Blocked, Disjoint, MaxEnd;
    var rects := Rects(rows);
    RectsWellPlaced(rows);
    ColumnsAreMaxEnd(rows);
    forall j, k | 0 <= j < k < |rects| ensures Disjoint(rects[j], rects[k]) { assert WellPlaced(rects, k); }
    WithinMaxEnd(rects);
  }

  lemma {:induction false} MaxEndConcat(a: seq<Rect>, b: seq<Rect>)
    ensures MaxEnd(a + b) == Max(MaxEnd(a), MaxEnd(b))
  {
    if a == [] {
      assert a + b == b;
    } else {
      assert (a + b)[1..] == a[1..] + b;
      MaxEndConcat(a[1..], b);
    }
  }

  // ---- The loop over the occupancy array -----------------------------------------

  method PositionTableRows(rows: seq<seq<Spans>>) returns (positionedRows: seq<seq<Rect>>, logicalColumns: nat)
    ensures positionedRows == Place(rows)
    ensures logicalColumns == LogicalColumns(rows)
  {
    hide PlaceRow, PlaceFrom, MaxEnd, Flatten;
    var occupied: seq<nat> := [];
    positionedRows, logicalColumns := [], 0;
    assert rows[0..] == rows;
    NoRowsLeft(occupied, 0);
    for rowIndex := 0 to |rows|
      invariant positionedRows + PlaceFrom(rows[rowIndex..], occupied, rowIndex) == Place(rows)
      invariant logicalColumns == MaxEnd(Flatten(positionedRows))
    {
      var positioned, after := PositionRow(rows[rowIndex], occupied, rowIndex);
      NextRowPlaced(rows, rowIndex, occupied);
      ghost var rest := PlaceFrom(rows[rowIndex + 1..], after, rowIndex + 1);
      assert positionedRows + ([positioned] + rest) == positionedRows + [positioned] + rest;
      MaxEndOfRow(positionedRows, positioned);
      positionedRows := positionedRows + [positioned];
      logicalColumns := Max(logicalColumns, MaxEnd(positioned));
      occupied := after;
    }
    NoRowsLeft(occupied, |rows|);
    assert positionedRows + [] == positionedRows;
  }

  lemma NextRowPlaced(rows: seq<seq<Spans>>, k: nat, occupied: seq<nat>)
    requires k < |rows|
    ensures var (first, after) := PlaceRow(rows[k], occupied, k, 0);
            PlaceFrom(rows[k..], occupied, k) == [first] + PlaceFrom(rows[k + 1..], after, k + 1)
  {
    assert rows[k..][0] == rows[k] && rows[k..][1..] == rows[k + 1..];
  }

  lemma NoRowsLeft(occupied: seq<nat>, row: nat)
    ensures PlaceFrom([], occupied, row) == [] && MaxEnd(Flatten([])) == 0
  {
  }

  // The body of the row loop: a column and an occupancy update for each cell.
  method PositionRow(row: seq<Spans>, before: seq<nat>, rowIndex: nat)
    returns (positioned: seq<Rect>, occupied: seq<nat>)
    ensures (positioned, occupied) == PlaceRow(row, before, rowIndex, 0)
  {
    hide FindColumn, Occupy;
    occupied, positioned := before, [];
    var column: nat := 0;
    ghost var rest := PlaceRow(row, before, rowIndex, 0);
    for k := 0 to |row|
      invariant rest == PlaceRow(row[k..], occupied, rowIndex, column)
      invariant positioned + rest.0 == PlaceRow(row, before, rowIndex, 0).0
      invariant rest.1 == PlaceRow(row, before, rowIndex, 0).1
    {
      var cell := row[k];
      column := NextFreeColumn(occupied, rowIndex, column, cell.colspan);
      assert row[k..][1..] == row[k + 1..];
      occupied := Occupy(occupied, column, cell.colspan, rowIndex + cell.rowspan);
      positioned := positioned + [Rect(rowIndex, column, cell.colspan, cell.rowspan)];
      column := column + cell.colspan;
      rest := PlaceRow(row[k + 1..], occupied, rowIndex, column);
    }
    assert rest == ([], occupied) && positioned + [] == positioned;
  }

  // The two column searches: past the first taken column, then until the whole span is free.
  method NextFreeColumn(occupied: seq<nat>, rowIndex: nat, from: nat, width: Positive) returns (column: nat)
    ensures column == FindColumn(occupied, rowIndex, from, width)
  {
    column := from;
    while At(occupied, column) > rowIndex
      invariant FindColumn(occupied, rowIndex, column, width) == FindColumn(occupied, rowIndex, from, width)
      decreases |occupied| - column
    {
      assert !IsFree(occupied, rowIndex, column, width);
      column := column + 1;
    }
    while !IsFree(occupied, rowIndex, column, width)
      invariant FindColumn(occupied, rowIndex, column, width) == FindColumn(occupied, rowIndex, from, width)
      decreases |occupied| - column
    {
      column := column + 1;
    }
  }

  lemma MaxEndOfRow(rows: seq<seq<Rect>>, row: seq<Rect>)
    ensures MaxEnd(Flatten(rows + [row])) == Max(MaxEnd(Flatten(rows)), MaxEnd(row))
  {
    FlattenConcat(rows, [row]);
    assert Flatten([row]) == row + [] == row;
    MaxEndConcat(Flatten(rows), row);
  }

  lemma {:induction false} FlattenConcat(a: seq<seq<Rect>>, b: seq<seq<Rect>>)
    ensures Flatten(a + b) == Flatten(a) + Flatten(b)
  {
    if a == [] {
      assert a + b == b;
    } else {
      assert (a + b)[1..] == a[1..] + b;
      FlattenConcat(a[1..], b);
    }
  }
}
