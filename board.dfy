/** The 9x9 grid of the game, its 27 regions, and the highlight test that
    picks the cells of a failing region. */
module Board {

  /** A grid as the game stores it: 9 rows of 9 integers, 0 meaning "empty". */
  type Grid = seq<seq<int>>

  /** The grid has exactly 9 rows of exactly 9 cells. */
  predicate IsGrid(g: Grid) {
    |g| == 9 && forall r :: 0 <= r < 9 ==> |g[r]| == 9
  }

  /** A 9x9 grid whose cells all hold 0 (empty) or a digit 1..9. */
  predicate WellFormed(g: Grid) {
    IsGrid(g) && forall r, c :: 0 <= r < 9 && 0 <= c < 9 ==> 0 <= g[r][c] <= 9
  }

  /** No cell of the grid is empty. */
  predicate Complete(g: Grid)
    requires IsGrid(g)
  {
    forall r, c :: 0 <= r < 9 && 0 <= c < 9 ==> g[r][c] != 0
  }

  /** The three kinds of region a Sudoku constrains. */
  datatype Kind = Row | Col | Box

  /** The position of the i-th cell (0..8) of region `index` (0..8) of the given
      kind. Rows and columns are read in ascending order; box `index` is the box in
      box row index / 3 and box column index % 3, read in row-major order. */
  function Cell(kind: Kind, index: nat, i: nat): (p: (nat, nat))
    requires index < 9 && i < 9
    ensures p.0 < 9 && p.1 < 9
  {
    match kind
    case Row => (index, i)
    case Col => (i, index)
    case Box => (index / 3 * 3 + i / 3, index % 3 * 3 + i % 3)
  }

  /** The 9 values of a region, in the order the checker reads them. */
  function Region(g: Grid, kind: Kind, index: nat): (s: seq<int>)
    requires IsGrid(g) && index < 9
    ensures |s| == 9
    ensures forall i :: 0 <= i < 9 ==> s[i] == g[Cell(kind, index, i).0][Cell(kind, index, i).1]
  {
    seq(9, i requires 0 <= i < 9 => g[Cell(kind, index, i).0][Cell(kind, index, i).1])
  }

  /** Whether the cell at (row, col) is highlighted when region `index` of the
      given kind is reported invalid: same row, same column, or the box number
      floor(row / 3) * 3 + floor(col / 3) equal to the index. For boxes that
      is the cell's band of rows and band of columns matching the index's. */
  function Highlighted(kind: Kind, index: int, row: nat, col: nat): (h: bool)
    requires col < 9
    ensures kind == Box ==> (h <==> 0 <= index && index / 3 == row / 3 && index % 3 == col / 3)
  {
    match kind
    case Row => row == index
    case Col => col == index
    case Box => row / 3 * 3 + col / 3 == index
  }

  /** The 9 cells of one region are pairwise distinct positions. */
  lemma CellsDistinct(kind: Kind, index: nat, i: nat, j: nat)
    requires index < 9 && i < 9 && j < 9 && i != j
    ensures Cell(kind, index, i) != Cell(kind, index, j)
  {
  }

  /** A box reads its cells in row-major order: an earlier cell lies in an
      earlier row, or in the same row further left. */
  lemma BoxRowMajor(index: nat, i: nat, j: nat)
    requires index < 9 && i < j < 9
    ensures var p, q := Cell(Box, index, i), Cell(Box, index, j);
            p.0 < q.0 || (p.0 == q.0 && p.1 < q.1)
  {
  }

  /** Box `index` covers exactly rows [index / 3 * 3, index / 3 * 3 + 3) and
      columns [index % 3 * 3, index % 3 * 3 + 3). */
  lemma BoxBounds(index: nat, row: nat, col: nat)
    requires index < 9 && row < 9 && col < 9
    ensures (exists i :: 0 <= i < 9 && Cell(Box, index, i) == (row, col)) <==>
            (index / 3 * 3 <= row < index / 3 * 3 + 3 && index % 3 * 3 <= col < index % 3 * 3 + 3)
  {
    if index / 3 * 3 <= row < index / 3 * 3 + 3 && index % 3 * 3 <= col < index % 3 * 3 + 3 {
      var i := (row - index / 3 * 3) * 3 + (col - index % 3 * 3);
      assert Cell(Box, index, i) == (row, col);
    }
  }

  /** For boxes the highlight test, box number floor(row / 3) * 3 +
      floor(col / 3), picks exactly the cells the checker reads for that box. */
  lemma BoxHighlightIsRegion(index: nat, row: nat, col: nat)
    requires index < 9 && row < 9 && col < 9
    ensures Highlighted(Box, index, row, col) <==>
            exists i :: 0 <= i < 9 && Cell(Box, index, i) == (row, col)
  {
    if Highlighted(Box, index, row, col) {
      var i := row % 3 * 3 + col % 3;
      assert row / 3 == index / 3 && col / 3 == index % 3;
      assert Cell(Box, index, i) == (row, col);
    }
    if i :| 0 <= i < 9 && Cell(Box, index, i) == (row, col) {
      assert row / 3 == index / 3 by { assert row == index / 3 * 3 + i / 3; }
      assert col / 3 == index % 3 by { assert col == index % 3 * 3 + i % 3; }
    }
  }

  /** The highlight test selects exactly the cells the checker read for that
      region: a cell is highlighted if and only if it is one of the region's 9 cells. */
  lemma HighlightedIsRegion(kind: Kind, index: nat, row: nat, col: nat)
    requires index < 9 && row < 9 && col < 9
    ensures Highlighted(kind, index, row, col) <==>
            exists i :: 0 <= i < 9 && Cell(kind, index, i) == (row, col)
  {
    match kind
    case Row =>
      if Highlighted(kind, index, row, col) {
        assert Cell(kind, index, col) == (row, col);
      }
    case Col =>
      if Highlighted(kind, index, row, col) {
        assert Cell(kind, index, row) == (row, col);
      }
    case Box =>
      BoxHighlightIsRegion(index, row, col);
  }
}
