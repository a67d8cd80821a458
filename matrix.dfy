/**
 * Occupancy grids and the two grid operations the board relies on: the
 * collision test and the merge of a brick into the background.  These stand
 * for the `Operations` helper, whose source is not part of this model; their
 * meaning here is an assumption, stated in each doc comment.
 */
module Matrix {

  /** A grid of cells indexed `g[row][column]`; 0 is empty, any other value a filled cell. */
  type Grid = seq<seq<int>>

  /** One rotation state of a brick, indexed like a grid. */
  type Shape = seq<seq<int>>

  /** `g` has exactly `rows` rows of exactly `cols` cells each. */
  predicate IsRect(g: Grid, rows: nat, cols: nat)
  {
    |g| == rows && forall r :: 0 <= r < rows ==> |g[r]| == cols
  }

  /** A row of `cols` empty cells. */
  function ZeroRow(cols: nat): (row: seq<int>)
    ensures |row| == cols
    ensures forall c :: 0 <= c < cols ==> row[c] == 0
  {
    seq(cols, _ => 0)
  }

  /** A freshly allocated `int[rows][cols]`: every cell empty. */
  function ZeroGrid(rows: nat, cols: nat): (g: Grid)
    ensures IsRect(g, rows, cols)
    ensures forall r :: 0 <= r < rows ==> g[r] == ZeroRow(cols)
  {
    seq(rows, _ => ZeroRow(cols))
  }

  predicate InBounds(g: Grid, r: int, c: int)
  {
    0 <= r < |g| && 0 <= c < |g[r]|
  }

  /** The shape has at least one filled cell (every real brick state does). */
  predicate HasCell(s: Shape)
  {
    exists i, j :: 0 <= i < |s| && 0 <= j < |s[i]| && s[i][j] != 0
  }

  /**
   * Assumed meaning of `Operations.intersectMatrix(g, s, x, y)`: some filled
   * cell `s[i][j]` lands on grid cell (row y+i, column x+j) that is outside
   * the grid or already filled.
   */
  predicate Intersects(g: Grid, s: Shape, x: int, y: int)
  {
    exists i, j :: 0 <= i < |s| && 0 <= j < |s[i]| && s[i][j] != 0 &&
      (!InBounds(g, y + i, x + j) || g[y + i][x + j] != 0)
  }

  /** The shape's cell at (i, j), or 0 outside the shape. */
  function CellOf(s: Shape, i: int, j: int): int
  {
    if 0 <= i < |s| && 0 <= j < |s[i]| then s[i][j] else 0
  }

  /**
   * Assumed meaning of `Operations.mergeMatrix(g, s, x, y)`: a grid of the
   * same size in which every filled shape cell that lands inside the grid
   * overwrites the cell below it.
   */
  function Merge(g: Grid, s: Shape, x: int, y: int): (m: Grid)
    ensures |m| == |g|
    ensures forall r :: 0 <= r < |g| ==> |m[r]| == |g[r]|
  {
    seq(|g|, r requires 0 <= r < |g| =>
      seq(|g[r]|, c requires 0 <= c < |g[r]| =>
        if CellOf(s, r - y, c - x) != 0 then CellOf(s, r - y, c - x) else g[r][c]))
  }

  /** A placement free of conflict lies above the floor: the grid has a row at y or below. */
  lemma FreeIsAboveFloor(g: Grid, s: Shape, x: int, y: int)
    requires HasCell(s) && !Intersects(g, s, x, y)
    ensures y < |g|
  {
    var i, j :| 0 <= i < |s| && 0 <= j < |s[i]| && s[i][j] != 0;
    assert InBounds(g, y + i, x + j);
  }

  /**
   * Locking a brick at a free placement writes each of its filled cells into
   * the grid, keeps every filled background cell filled, and makes that same
   * placement conflict from then on.
   */
  lemma MergeLocksBrick(g: Grid, s: Shape, x: int, y: int)
    requires HasCell(s) && !Intersects(g, s, x, y)
    ensures forall i, j :: 0 <= i < |s| && 0 <= j < |s[i]| && s[i][j] != 0 ==>
      InBounds(g, y + i, x + j) && Merge(g, s, x, y)[y + i][x + j] == s[i][j]
    ensures forall r, c :: InBounds(g, r, c) && g[r][c] != 0 ==> Merge(g, s, x, y)[r][c] != 0
    ensures Intersects(Merge(g, s, x, y), s, x, y)
  {
    var m := Merge(g, s, x, y);
    forall i, j | 0 <= i < |s| && 0 <= j < |s[i]| && s[i][j] != 0
      ensures InBounds(g, y + i, x + j) && m[y + i][x + j] == s[i][j]
    {
      assert CellOf(s, (y + i) - y, (x + j) - x) == s[i][j];
    }
    var i, j :| 0 <= i < |s| && 0 <= j < |s[i]| && s[i][j] != 0;
    assert m[y + i][x + j] != 0;
  }
}
