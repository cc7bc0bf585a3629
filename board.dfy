/** The board snapshot: a square grid of cells, the colour of a pending pass and the
    game-ended flag. Snapshots are values, only ever replaced wholesale. */
module Board {
  import opened Wrappers
  import opened Base

  datatype Cell = Empty | BlackCell | WhiteCell

  /** The cell a stone of colour `t` occupies. */
  function CellOf(t: Turn): (c: Cell)
    ensures c != Empty
  {
    if t == Black then BlackCell else WhiteCell
  }

  /** `getTurnFromCellState`: the colour occupying a cell, or none for an empty cell. */
  function TurnFromCell(c: Cell): (r: Option<Turn>)
    ensures r.None? <==> c == Empty
    ensures r.Some? ==> CellOf(r.value) == c
  {
    match c
    case BlackCell => Some(Black)
    case WhiteCell => Some(White)
    case Empty => None
  }

  /** Reading back the colour of a stone's cell gives the stone's colour. */
  lemma TurnOfCellOf(t: Turn)
    ensures TurnFromCell(CellOf(t)) == Some(t)
  {
  }

  type Grid = seq<seq<Cell>>

  /** `g` is an n-by-n grid. */
  predicate IsSquare(g: Grid, n: int) {
    |g| == n && forall x :: 0 <= x < |g| ==> |g[x]| == n
  }

  datatype Snapshot = Snapshot(cells: Grid, inPass: Option<Turn>, ended: bool)
  {
    /** The grid is square, its side being the outer size. */
    predicate WellFormed() {
      IsSquare(cells, |cells|)
    }

    /** `getSize`: the outer dimension of the grid. */
    function Size(): nat {
      |cells|
    }

    predicate InBounds(x: int, y: int) {
      0 <= x < |cells| && 0 <= y < |cells|
    }

    /** `get(x, y)`. */
    function Get(x: int, y: int): Cell
      requires WellFormed() && InBounds(x, y)
    {
      cells[x][y]
    }

    /** `isGameEnded`. */
    predicate IsGameEnded() {
      ended
    }

    /** `inPass`. */
    function InPass(): Option<Turn> {
      inPass
    }
  }

  /** The n-by-n grid of empty cells. */
  function EmptyGrid(n: nat): Grid {
    seq(n, _ => seq(n, _ => Empty))
  }

  /** The size constructor: an all-empty grid, no pending pass, not ended. */
  function EmptySnapshot(n: nat): (s: Snapshot)
    ensures s.WellFormed() && s.Size() == n
    ensures forall x, y :: 0 <= x < n && 0 <= y < n ==> s.Get(x, y) == Empty
    ensures s.InPass() == None && !s.IsGameEnded()
  {
    Snapshot(EmptyGrid(n), None, false)
  }

  /** The grid with cell (x, y) set to `c`. */
  function SetCell(g: Grid, x: int, y: int, c: Cell): (r: Grid)
    requires 0 <= x < |g| && 0 <= y < |g[x]|
    ensures |r| == |g| && forall i :: 0 <= i < |g| ==> |r[i]| == |g[i]|
    ensures r[x][y] == c
    ensures forall i, j :: 0 <= i < |g| && 0 <= j < |g[i]| && (i != x || j != y) ==> r[i][j] == g[i][j]
  {
    g[x := g[x][y := c]]
  }

  /** `operator==`: false when the outer sizes differ, otherwise a cell-by-cell scan
      over the rows of the left operand. The pass marker and the ended flag are not
      compared. */
  predicate SnapshotEquals(a: Snapshot, b: Snapshot)
    requires a.WellFormed() && b.WellFormed()
  {
    |a.cells| == |b.cells| &&
    forall x, y :: 0 <= x < |a.cells| && 0 <= y < |a.cells[x]| ==> a.cells[x][y] == b.cells[x][y]
  }

  /** Outer sizes that differ make the snapshots unequal. */
  lemma SnapshotEqualsSizeMismatch(a: Snapshot, b: Snapshot)
    requires a.WellFormed() && b.WellFormed() && a.Size() != b.Size()
    ensures !SnapshotEquals(a, b)
  {
  }

  /** For well-formed snapshots the scan decides exactly whether the grids are equal. */
  lemma SnapshotEqualsIffSameCells(a: Snapshot, b: Snapshot)
    requires a.WellFormed() && b.WellFormed()
    ensures SnapshotEquals(a, b) <==> a.cells == b.cells
  {
    if SnapshotEquals(a, b) {
      forall x | 0 <= x < |a.cells|
        ensures a.cells[x] == b.cells[x]
      {
        assert |a.cells[x]| == |b.cells[x]|;
        forall y | 0 <= y < |a.cells[x]|
          ensures a.cells[x][y] == b.cells[x][y]
        {
        }
      }
    }
  }

  /** Equality ignores the pending pass and the ended flag. */
  lemma SnapshotEqualsIgnoresPassAndEnd(a: Snapshot, b: Snapshot, p: Option<Turn>, e: bool)
    requires a.WellFormed() && b.WellFormed()
    ensures SnapshotEquals(a, b) == SnapshotEquals(a.(inPass := p, ended := e), b)
  {
  }

  /** Equality is reflexive and symmetric. */
  lemma SnapshotEqualsReflexiveSymmetric(a: Snapshot, b: Snapshot)
    requires a.WellFormed() && b.WellFormed()
    ensures SnapshotEquals(a, a)
    ensures SnapshotEquals(a, b) == SnapshotEquals(b, a)
  {
    SnapshotEqualsIffSameCells(a, b);
    SnapshotEqualsIffSameCells(b, a);
  }
}
