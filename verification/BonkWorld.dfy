/** The Bonk Air world: the grid with its no-fly zones and storms, runways, gates and planes. */
module BonkWorld {
  import opened Grid

  datatype Cell = Cell(x: int, y: int)

  datatype Mission = Land | Depart | Transit

  /** `thr` is the first cell of the runway; `dir` points along it. */
  datatype Runway = Runway(cells: seq<Cell>, dir: Cell, thr: Cell)

  /** `target` is the index of a runway for a landing and of a gate otherwise. */
  datatype Plane = Plane(id: nat, speed: real, radius: real, mission: Mission, spawn: Cell, target: nat, rwIdx: nat)

  datatype World = World(
    cols: nat,
    rows: nat,
    blocked: seq<bool>,
    clouds: seq<seq<Cell>>,
    runways: seq<Runway>,
    gates: seq<Cell>,
    planes: seq<Plane>,
    stars: seq<Cell>)

  function Size(w: World): nat {
    Rows(w.cols, w.rows)
  }

  predicate InGrid(w: World, c: Cell) {
    0 <= c.x < w.cols && 0 <= c.y < w.rows
  }

  /** The index of a cell, row by row. */
  function Index(w: World, c: Cell): nat
    requires InGrid(w, c)
  {
    Rows(w.cols, c.y) + c.x
  }

  function CellOf(w: World, i: nat): Cell
    requires w.cols > 0
  {
    Cell(Col(w.cols, i), Row(w.cols, i))
  }

  /** The grid tables have the size of the grid, and storms lie inside it. */
  ghost predicate GridOk(w: World) {
    && w.cols > 0
    && |w.blocked| == Size(w)
    && forall i, j :: 0 <= i < |w.clouds| && 0 <= j < |w.clouds[i]| ==> InGrid(w, w.clouds[i][j])
  }

  lemma IndexInverse(w: World, c: Cell)
    requires InGrid(w, c)
    ensures Index(w, c) < Size(w) && CellOf(w, Index(w, c)) == c
  {
    CellBelow(w.cols, c.x, c.y, w.rows);
    CellIndex(w.cols, c.x, c.y);
  }

  lemma CellInverse(w: World, i: nat)
    requires w.cols > 0 && i < Size(w)
    ensures InGrid(w, CellOf(w, i)) && Index(w, CellOf(w, i)) == i
  {
    RowBelow(w.cols, i, w.rows);
    IndexCell(w.cols, i);
  }

  /** Some storm covers the cell. */
  ghost predicate Stormy(w: World, c: Cell) {
    exists i, j :: 0 <= i < |w.clouds| && 0 <= j < |w.clouds[i]| && w.clouds[i][j] == c
  }

  /** The cell is neither in a no-fly zone nor in a storm. */
  ghost predicate Free(w: World, c: Cell)
    requires |w.blocked| == Size(w)
  {
    InGrid(w, c) && Index(w, c) < Size(w) && !w.blocked[Index(w, c)] && !Stormy(w, c)
  }

  /** The storm cells as a set of indexes. */
  method WeatherIndexSet(w: World) returns (indexes: set<nat>)
    requires GridOk(w)
    ensures forall c :: InGrid(w, c) ==> (Index(w, c) in indexes <==> Stormy(w, c))
    ensures forall n :: n in indexes <==> StormIndex(w, n, |w.clouds|, 0)
  {
    indexes := {};
    for i := 0 to |w.clouds|
      invariant forall n :: n in indexes <==> StormIndex(w, n, i, 0)
    {
      for j := 0 to |w.clouds[i]|
        invariant forall n :: n in indexes <==> StormIndex(w, n, i, j)
      {
        ghost var before := indexes;
        indexes := indexes + {Index(w, w.clouds[i][j])};
        forall n ensures n in indexes <==> StormIndex(w, n, i, j + 1) {
          StormIndexNext(w, n, i, j);
        }
      }
      forall n ensures StormIndex(w, n, i, |w.clouds[i]|) <==> StormIndex(w, n, i + 1, 0) {
        StormIndexRow(w, n, i);
      }
    }
    forall c | InGrid(w, c) ensures Index(w, c) in indexes <==> Stormy(w, c) {
      StormIndexAll(w, c);
    }
  }

  ghost predicate StormAt(w: World, n: nat, i: nat, j: nat)
    requires i < |w.clouds| && j < |w.clouds[i]|
  {
    InGrid(w, w.clouds[i][j]) && Index(w, w.clouds[i][j]) == n
  }

  /** One of the storm cells before place (row, j) of the list of lists has index `n`. */
  ghost predicate StormIndex(w: World, n: nat, row: nat, col: nat) {
    exists i, j :: 0 <= i < |w.clouds| && 0 <= j < |w.clouds[i]| && (i < row || (i == row && j < col))
                   && StormAt(w, n, i, j)
  }

  lemma StormIndexNext(w: World, n: nat, i: nat, j: nat)
    requires i < |w.clouds| && j < |w.clouds[i]|
    ensures StormIndex(w, n, i, j + 1) <==> StormIndex(w, n, i, j) || StormAt(w, n, i, j)
  {
  }

  lemma StormIndexRow(w: World, n: nat, i: nat)
    requires i < |w.clouds|
    ensures StormIndex(w, n, i, |w.clouds[i]|) <==> StormIndex(w, n, i + 1, 0)
  {
  }

  lemma StormIndexAll(w: World, c: Cell)
    requires GridOk(w) && InGrid(w, c)
    ensures StormIndex(w, Index(w, c), |w.clouds|, 0) <==> Stormy(w, c)
  {
    if StormIndex(w, Index(w, c), |w.clouds|, 0) {
      var i, j :| 0 <= i < |w.clouds| && 0 <= j < |w.clouds[i]| && StormAt(w, Index(w, c), i, j);
      IndexInverse(w, c);
      IndexInverse(w, w.clouds[i][j]);
    }
    if Stormy(w, c) {
      var i, j :| 0 <= i < |w.clouds| && 0 <= j < |w.clouds[i]| && w.clouds[i][j] == c;
      assert StormAt(w, Index(w, c), i, j);
    }
  }
}
