/** The snake grid of a flow: rows of cells read alternately from left to right and back, with an arrow
    from each cell to the next. */
module Serpentine {
  import opened Grid

  datatype Arrow = NoArrow | Right | Left | Down

  /** Columns count from one, as grids do on a page; rows from zero. */
  datatype Cell = Cell(logicalIndex: nat, visualPos: nat, row: nat, col: nat, arrow: Arrow)

  /** Where a flow index lies. */
  datatype Place = Place(row: nat, col: nat)

  // ---------- what the layout means ----------

  function PlaceOf(index: nat, cols: nat): Place
    requires cols > 0
  {
    var row := Row(cols, index);
    var position := Col(cols, index);
    Place(row, if row % 2 == 0 then position + 1 else cols - position)
  }

  /** One past the last flow index of a row. */
  function RowEnd(length: nat, cols: nat, row: nat): nat {
    if length < Rows(cols, row) + cols then length else Rows(cols, row) + cols
  }

  /** The flow index shown at a place of the reading order: odd rows are read backwards. */
  function IndexAt(visual: nat, length: nat, cols: nat): nat
    requires cols > 0 && visual < length
  {
    var row := Row(cols, visual);
    if row % 2 == 0 then visual else
      RowSpan(visual, length, cols);
      Rows(cols, row) + (RowEnd(length, cols, row) - 1 - visual)
  }

  lemma RowSpan(index: nat, length: nat, cols: nat)
    requires cols > 0 && index < length
    ensures Rows(cols, Row(cols, index)) <= index < RowEnd(length, cols, Row(cols, index)) <= length
  {
    IndexCell(cols, index);
  }

  /** An index between the ends of a row is in that row. */
  lemma InRow(index: nat, length: nat, cols: nat, row: nat)
    requires cols > 0 && Rows(cols, row) <= index < RowEnd(length, cols, row)
    ensures Row(cols, index) == row && Col(cols, index) == index - Rows(cols, row)
  {
    CellIndex(cols, index - Rows(cols, row), row);
  }

  /** Reading order and flow order are each other's inverse, and keep to rows: every flow index is shown
      at exactly one place. */
  lemma IndexAtIsInvolution(visual: nat, length: nat, cols: nat)
    requires cols > 0 && visual < length
    ensures IndexAt(visual, length, cols) < length
    ensures Row(cols, IndexAt(visual, length, cols)) == Row(cols, visual)
    ensures IndexAt(IndexAt(visual, length, cols), length, cols) == visual
  {
    var row := Row(cols, visual);
    RowSpan(visual, length, cols);
    if row % 2 != 0 {
      InRow(IndexAt(visual, length, cols), length, cols, row);
    }
  }

  /** Where an arrow leads. */
  function Follow(place: Place, arrow: Arrow): Place {
    match arrow
    case NoArrow => place
    case Right => place.(col := place.col + 1)
    case Left => place.(col := if place.col > 0 then place.col - 1 else 0)
    case Down => place.(row := place.row + 1)
  }

  function ArrowFor(index: nat, length: nat, cols: nat): Arrow
    requires cols > 0
  {
    if index + 1 >= length then NoArrow
    else if Row(cols, index + 1) != Row(cols, index) then Down
    else if Row(cols, index) % 2 == 0 then Right
    else Left
  }

  /** The next flow index is in the next column, or in the first one of the next row. */
  lemma {:induction false} NextCell(cols: nat, index: nat)
    requires cols > 0
    ensures if Col(cols, index) + 1 < cols
            then Row(cols, index + 1) == Row(cols, index) && Col(cols, index + 1) == Col(cols, index) + 1
            else Row(cols, index + 1) == Row(cols, index) + 1 && Col(cols, index + 1) == 0
  {
    if index >= cols {
      NextCell(cols, index - cols);
      assert index + 1 - cols == (index - cols) + 1;
    }
  }

  /** Each arrow points from its cell exactly to the cell of the next flow index, which is beside or below
      it; only the last cell has none. */
  lemma ArrowsLeadOn(index: nat, length: nat, cols: nat)
    requires cols > 0 && index < length
    ensures ArrowFor(index, length, cols) == NoArrow <==> index == length - 1
    ensures index + 1 < length
         ==> Follow(PlaceOf(index, cols), ArrowFor(index, length, cols)) == PlaceOf(index + 1, cols)
    ensures index + 1 < length ==> PlaceOf(index + 1, cols) != PlaceOf(index, cols)
  {
    NextCell(cols, index);
    var row := Row(cols, index);
    assert (row + 1) % 2 != row % 2;
  }

  /** The rows in closed form: the first one and every other run to the right, those between to the left. */
  lemma RowsAlternate(index: nat, cols: nat)
    requires cols > 0
    ensures PlaceOf(index, cols).row == index / cols
    ensures PlaceOf(index, cols).col == if (index / cols) % 2 == 0 then index % cols + 1 else cols - index % cols
  {
    RowAndCol(cols, index);
  }

  /** The flow index at a place of the reading order: the same in rows that run to the right, and counted from
      the other end of the row in those that run to the left. */
  lemma ShownIndex(visual: nat, length: nat, cols: nat)
    requires cols > 0 && visual < length
    ensures var start := cols * (visual / cols);
            var end := if length < start + cols then length else start + cols;
            IndexAt(visual, length, cols) == if (visual / cols) % 2 == 0 then visual else start + (end - 1 - visual)
  {
    RowAndCol(cols, visual);
    RowsIsProduct(cols, visual / cols);
  }

  predicate Before(a: Place, b: Place) {
    a.row < b.row || (a.row == b.row && a.col < b.col)
  }

  /** In reading order, the cells come strictly by row and column. */
  lemma ReadingOrder(visual: nat, length: nat, cols: nat)
    requires cols > 0 && visual + 1 < length
    ensures Before(PlaceOf(IndexAt(visual, length, cols), cols), PlaceOf(IndexAt(visual + 1, length, cols), cols))
  {
    NextCell(cols, visual);
    IndexAtIsInvolution(visual, length, cols);
    IndexAtIsInvolution(visual + 1, length, cols);
    var row := Row(cols, visual);
    if row % 2 != 0 && Row(cols, visual + 1) == row {
      RowSpan(visual, length, cols);
      RowSpan(visual + 1, length, cols);
      InRow(IndexAt(visual, length, cols), length, cols, row);
      InRow(IndexAt(visual + 1, length, cols), length, cols, row);
    }
  }

  /** Different flow indexes lie in different cells of the grid, within its columns. */
  lemma PlacesAreDistinct(i: nat, j: nat, cols: nat)
    requires cols > 0 && PlaceOf(i, cols) == PlaceOf(j, cols)
    ensures i == j && 1 <= PlaceOf(i, cols).col <= cols
  {
    IndexCell(cols, i);
    IndexCell(cols, j);
  }

  // ---------- building it ----------

  function CellAt(visual: nat, length: nat, cols: nat, arrow: Arrow): Cell
    requires cols > 0 && visual < length
  {
    var index := IndexAt(visual, length, cols);
    Cell(index, visual, PlaceOf(index, cols).row, PlaceOf(index, cols).col, arrow)
  }

  /** The flow indexes of one row in reading order. */
  function RowOrder(start: nat, end: nat, row: nat): (order: seq<nat>)
    ensures |order| == if end < start then 0 else end - start
  {
    var count := if end < start then 0 else end - start;
    seq(count, i requires 0 <= i < count => if row % 2 == 1 then end - 1 - i else start + i)
  }

  /** Appends the cells of one row. */
  method BuildRow(length: nat, cols: nat, row: nat, before: seq<Cell>) returns (cells: seq<Cell>)
    requires cols > 0 && |before| == Rows(cols, row) < length
    requires forall v :: 0 <= v < |before| ==> before[v] == CellAt(v, length, cols, NoArrow)
    ensures |cells| == RowEnd(length, cols, row)
    ensures forall v :: 0 <= v < |cells| ==> cells[v] == CellAt(v, length, cols, NoArrow)
  {
    var start := Rows(cols, row);
    var end := RowEnd(length, cols, row);
    var order := RowOrder(start, end, row);
    cells := before;
    var k := 0;
    while k < |order|
      invariant 0 <= k <= |order| && |cells| == start + k
      invariant forall v :: 0 <= v < |cells| ==> cells[v] == CellAt(v, length, cols, NoArrow)
    {
      var logicalIndex := order[k];
      var position := logicalIndex - start;
      var col := if row % 2 == 0 then position + 1 else cols - position;
      InRow(start + k, length, cols, row);
      InRow(logicalIndex, length, cols, row);
      cells := cells + [Cell(logicalIndex, |cells|, row, col, NoArrow)];
      k := k + 1;
    }
  }

  method BuildCells(length: nat, cols: nat) returns (cells: seq<Cell>)
    requires cols > 0
    ensures |cells| == length
    ensures forall v :: 0 <= v < length ==> cells[v] == CellAt(v, length, cols, NoArrow)
  {
    cells := [];
    var row := 0;
    while Rows(cols, row) < length
      invariant |cells| == if Rows(cols, row) < length then Rows(cols, row) else length
      invariant forall v :: 0 <= v < |cells| ==> cells[v] == CellAt(v, length, cols, NoArrow)
      decreases length - Rows(cols, row)
    {
      cells := BuildRow(length, cols, row, cells);
      row := row + 1;
    }
  }

  /** The whole layout, for any number of columns asked for: fewer than one counts as one. */
  method BuildSerpentine(length: nat, columns: int) returns (cells: seq<Cell>)
    ensures |cells| == length
    ensures var cols := if columns < 1 then 1 else columns;
            forall v :: 0 <= v < length ==>
                          cells[v] == CellAt(v, length, cols, ArrowFor(IndexAt(v, length, cols), length, cols))
  {
    var cols := if columns < 1 then 1 else columns;
    cells := BuildCells(length, cols);
    var v := 0;
    while v < |cells|
      invariant 0 <= v <= |cells| == length
      invariant forall u :: 0 <= u < v ==>
                  cells[u] == CellAt(u, length, cols, ArrowFor(IndexAt(u, length, cols), length, cols))
      invariant forall u :: v <= u < length ==> cells[u] == CellAt(u, length, cols, NoArrow)
    {
      cells := cells[v := cells[v].(arrow := ArrowFor(cells[v].logicalIndex, length, cols))];
      v := v + 1;
    }
  }
}
