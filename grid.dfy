/** The grid of the map: cell records, positions, the board as rows of
    cells, the centre origin and the construction of a fresh board
    (generateGrid in src/App.tsx). */
module Grid {

  /** One cell record: visited at some point, the portal cell, the cell
      the player stands on. */
  datatype Cell = Cell(explored: bool, origin: bool, current: bool)

  /** The record every cell starts with. */
  const Unvisited := Cell(false, false, false)

  /** The record written over the origin cell. */
  const Start := Cell(true, true, true)

  /** The three flags of a cell, so that one definition of "the cells
      that carry a flag" serves all three. */
  datatype Flag = Explored | Origin | Current

  function Has(c: Cell, f: Flag): bool
  {
    match f
    case Explored => c.explored
    case Origin => c.origin
    case Current => c.current
  }

  datatype Dims = Dims(rows: nat, cols: nat)

  datatype Pos = Pos(row: int, col: int)

  /** The grid: a sequence of rows, each a sequence of cells. */
  type Board = seq<seq<Cell>>

  predicate InBounds(d: Dims, p: Pos)
  {
    0 <= p.row < d.rows && 0 <= p.col < d.cols
  }

  /** The board has exactly `d.rows` rows of exactly `d.cols` cells. */
  predicate Shaped(b: Board, d: Dims)
  {
    |b| == d.rows && forall i :: 0 <= i < |b| ==> |b[i]| == d.cols
  }

  function At(b: Board, d: Dims, p: Pos): Cell
    requires Shaped(b, d) && InBounds(d, p)
  {
    b[p.row][p.col]
  }

  /** The positions of the cells that carry flag `f`. */
  function Marked(b: Board, f: Flag): set<Pos>
  {
    set i, j | 0 <= i < |b| && 0 <= j < |b[i]| && Has(b[i][j], f) :: Pos(i, j)
  }

  lemma MarkedMember(b: Board, d: Dims, f: Flag, p: Pos)
    requires Shaped(b, d)
    ensures p in Marked(b, f) <==> InBounds(d, p) && Has(At(b, d, p), f)
  {
    if InBounds(d, p) && Has(At(b, d, p), f) {
      assert Has(b[p.row][p.col], f);
    }
  }

  /** The board with the cell at `p` replaced by `c`; every other cell
      and the shape are kept. */
  function Update(b: Board, d: Dims, p: Pos, c: Cell): (r: Board)
    requires Shaped(b, d) && InBounds(d, p)
    ensures Shaped(r, d)
    ensures At(r, d, p) == c
    ensures forall q :: InBounds(d, q) && q != p ==> At(r, d, q) == At(b, d, q)
  {
    b[p.row := b[p.row][p.col := c]]
  }

  /** Replacing one cell adds its position to, or removes it from, the
      cells that carry a flag, according to the new record alone. */
  lemma UpdateMarked(b: Board, d: Dims, p: Pos, c: Cell, f: Flag)
    requires Shaped(b, d) && InBounds(d, p)
    ensures Marked(Update(b, d, p, c), f)
            == if Has(c, f) then Marked(b, f) + {p} else Marked(b, f) - {p}
  {
    var r := Update(b, d, p, c);
    var want := if Has(c, f) then Marked(b, f) + {p} else Marked(b, f) - {p};
    forall q
      ensures q in Marked(r, f) <==> q in want
    {
      MarkedMember(r, d, f, q);
      MarkedMember(b, d, f, q);
    }
  }

  /** The origin of the map: the centre cell, each coordinate the floor
      of half the dimension. */
  function Centre(d: Dims): (p: Pos)
    ensures 0 <= 2 * p.row <= d.rows <= 2 * p.row + 1
    ensures 0 <= 2 * p.col <= d.cols <= 2 * p.col + 1
    ensures d.rows >= 1 && d.cols >= 1 ==> InBounds(d, p)
  {
    Pos(d.rows / 2, d.cols / 2)
  }

  /** The board generateGrid produces: every cell unvisited except the
      origin, which holds all three flags. */
  function InitialBoard(d: Dims, origin: Pos): (b: Board)
    ensures Shaped(b, d)
  {
    seq(d.rows, i => seq(d.cols, j => if Pos(i, j) == origin then Start else Unvisited))
  }

  /** On a fresh board each flag is held by the origin cell and by no
      other cell. */
  lemma InitialBoardMarked(d: Dims, origin: Pos, f: Flag)
    requires InBounds(d, origin)
    ensures Marked(InitialBoard(d, origin), f) == {origin}
  {
    var b := InitialBoard(d, origin);
    forall q
      ensures q in Marked(b, f) <==> q == origin
    {
      MarkedMember(b, d, f, q);
    }
  }

  /** generateGrid: push `rows` rows of `cols` unvisited cells, then
      overwrite the origin cell. */
  method GenerateGrid(d: Dims, origin: Pos) returns (grid: Board)
    requires InBounds(d, origin)
    ensures grid == InitialBoard(d, origin)
  {
    grid := [];
    var row := 0;
    while row < d.rows
      invariant 0 <= row <= d.rows
      invariant |grid| == row
      invariant forall i :: 0 <= i < row ==> grid[i] == seq(d.cols, j => Unvisited)
    {
      var currentRow: seq<Cell> := [];
      var col := 0;
      while col < d.cols
        invariant 0 <= col <= d.cols
        invariant currentRow == seq(col, j => Unvisited)
      {
        currentRow := currentRow + [Unvisited];
        col := col + 1;
      }
      grid := grid + [currentRow];
      row := row + 1;
    }
    grid := grid[origin.row := grid[origin.row][origin.col := Start]];
    var want := InitialBoard(d, origin);
    forall i | 0 <= i < d.rows
      ensures grid[i] == want[i]
    {
      assert forall j :: 0 <= j < d.cols ==> grid[i][j] == want[i][j];
    }
  }
}
