/**
 * What clearing full lines does to the rows of the grid, stated on values:
 * the full rows are counted and dropped, the other rows keep their order and
 * sink to the bottom, and as many empty rows as were dropped appear on top.
 */
module Lines {
  import opened Matrix

  /** A row is full when none of its cells is empty. */
  predicate IsFull(row: seq<int>)
  {
    forall c :: 0 <= c < |row| ==> row[c] != 0
  }

  /** How many rows of `g` are full. */
  function FullRows(g: Grid): nat
  {
    if g == [] then 0 else FullRows(g[..|g| - 1]) + (if IsFull(g[|g| - 1]) then 1 else 0)
  }

  /** The rows of `g` that are not full, in their original order. */
  function Survivors(g: Grid): Grid
  {
    if g == [] then [] else Survivors(g[..|g| - 1]) + (if IsFull(g[|g| - 1]) then [] else [g[|g| - 1]])
  }

  /** The grid after every full row of `g` has been removed and the rows above it let down. */
  function ClearedGrid(g: Grid, cols: nat): (r: Grid)
    ensures |r| == |g|
  {
    SurvivorsCount(g);
    ZeroGrid(FullRows(g), cols) + Survivors(g)
  }

  /** Each row is either full or a survivor. */
  lemma {:induction false} SurvivorsCount(g: Grid)
    ensures |Survivors(g)| + FullRows(g) == |g|
  {
    if g != [] {
      SurvivorsCount(g[..|g| - 1]);
    }
  }

  /** The survivors are rows of `g` that are not full. */
  lemma {:induction false} SurvivorsAreOpenRows(g: Grid)
    ensures forall k :: 0 <= k < |Survivors(g)| ==> !IsFull(Survivors(g)[k]) && Survivors(g)[k] in g
  {
    if g != [] {
      var init := g[..|g| - 1];
      SurvivorsAreOpenRows(init);
      assert forall row :: row in init ==> row in g;
    }
  }

  /** Counting full rows and picking survivors both distribute over concatenation. */
  lemma {:induction false} SurvivorsAppend(a: Grid, b: Grid)
    ensures FullRows(a + b) == FullRows(a) + FullRows(b)
    ensures Survivors(a + b) == Survivors(a) + Survivors(b)
    decreases |b|
  {
    if b == [] {
      assert a + b == a;
    } else {
      var b' := b[..|b| - 1];
      SurvivorsAppend(a, b');
      assert (a + b)[..|a + b| - 1] == a + b';
    }
  }

  /** A grid without full rows is its own list of survivors. */
  lemma {:induction false} NoFullRows(g: Grid)
    requires forall k :: 0 <= k < |g| ==> !IsFull(g[k])
    ensures FullRows(g) == 0 && Survivors(g) == g
  {
    if g != [] {
      NoFullRows(g[..|g| - 1]);
    }
  }

  /**
   * One step of the top-to-bottom scan.  When rows above `row` are already
   * done (`cur`), row `row` is still the original one; if it is full,
   * emptying it and moving it to the top, and otherwise leaving it, gives the
   * grid with rows up to and including `row` done.
   */
  lemma ClearStep(g: Grid, cols: nat, row: nat, cur: Grid)
    requires row < |g| && cur == ClearedGrid(g[..row], cols) + g[row..]
    ensures |cur| == |g| && cur[row] == g[row]
    ensures FullRows(g[..row + 1]) == FullRows(g[..row]) + (if IsFull(g[row]) then 1 else 0)
    ensures IsFull(g[row]) ==>
      var z := cur[row := ZeroRow(cols)];
      [z[row]] + z[..row] + z[row + 1..] == ClearedGrid(g[..row + 1], cols) + g[row + 1..]
    ensures !IsFull(g[row]) ==> cur == ClearedGrid(g[..row + 1], cols) + g[row + 1..]
  {
    var done, next := g[..row], g[..row + 1];
    assert next[..row] == done && next[row] == g[row];
    assert g[row..] == [g[row]] + g[row + 1..];
    if IsFull(g[row]) {
      var z := cur[row := ZeroRow(cols)];
      assert z[..row] == ClearedGrid(done, cols);
      assert z[row + 1..] == g[row + 1..];
      assert [ZeroRow(cols)] + ZeroGrid(FullRows(done), cols) == ZeroGrid(FullRows(next), cols);
    }
  }

  /** Clearing keeps the grid's dimensions. */
  lemma ClearedKeepsShape(g: Grid, rows: nat, cols: nat)
    requires IsRect(g, rows, cols)
    ensures IsRect(ClearedGrid(g, cols), rows, cols)
  {
    var z, s := ZeroGrid(FullRows(g), cols), Survivors(g);
    SurvivorsAreOpenRows(g);
    forall k | 0 <= k < |s| ensures |s[k]| == cols {
      assert s[k] in g;
    }
  }

  /**
   * Afterwards no row is full (rows have at least one cell), the removed rows
   * come back empty on top, and the kept rows follow in their old order.
   */
  lemma ClearedHasNoFullRow(g: Grid, rows: nat, cols: nat)
    requires IsRect(g, rows, cols) && cols > 0
    ensures forall k :: 0 <= k < rows ==> !IsFull(ClearedGrid(g, cols)[k])
    ensures FullRows(ClearedGrid(g, cols)) == 0
    ensures ClearedGrid(g, cols)[..FullRows(g)] == ZeroGrid(FullRows(g), cols)
    ensures ClearedGrid(g, cols)[FullRows(g)..] == Survivors(g)
  {
    var c := ClearedGrid(g, cols);
    var n := FullRows(g);
    SurvivorsAreOpenRows(g);
    forall k | 0 <= k < rows ensures !IsFull(c[k]) {
      if k < n {
        assert c[k][0] == 0;
      } else {
        assert c[k] == Survivors(g)[k - n];
      }
    }
    NoFullRows(c);
  }

  /** Rows below the lowest full row are left where they were. */
  lemma ClearedKeepsRowsBelow(g: Grid, cols: nat, j: nat)
    requires j <= |g|
    requires forall k :: j <= k < |g| ==> !IsFull(g[k])
    ensures ClearedGrid(g, cols)[j..] == g[j..]
  {
    assert g == g[..j] + g[j..];
    SurvivorsAppend(g[..j], g[j..]);
    NoFullRows(g[j..]);
    SurvivorsCount(g[..j]);
    var top := ZeroGrid(FullRows(g), cols) + Survivors(g[..j]);
    assert ClearedGrid(g, cols) == top + g[j..];
  }

  /** Clearing twice is clearing once. */
  lemma ClearedIdempotent(g: Grid, rows: nat, cols: nat)
    requires IsRect(g, rows, cols) && cols > 0
    ensures ClearedGrid(ClearedGrid(g, cols), cols) == ClearedGrid(g, cols)
  {
    var c := ClearedGrid(g, cols);
    ClearedHasNoFullRow(g, rows, cols);
    NoFullRows(c);
    assert ZeroGrid(0, cols) == [];
  }

  /** On a grid with exactly one full row, that row is dropped and an empty row put on top. */
  lemma ClearSingleRow(g: Grid, rows: nat, cols: nat, j: nat)
    requires IsRect(g, rows, cols) && j < rows
    requires IsFull(g[j]) && forall k :: 0 <= k < rows && k != j ==> !IsFull(g[k])
    ensures FullRows(g) == 1
    ensures ClearedGrid(g, cols) == [ZeroRow(cols)] + g[..j] + g[j + 1..]
  {
    assert g == g[..j] + ([g[j]] + g[j + 1..]);
    SurvivorsAppend(g[..j], [g[j]] + g[j + 1..]);
    SurvivorsAppend([g[j]], g[j + 1..]);
    NoFullRows(g[..j]);
    NoFullRows(g[j + 1..]);
    assert [g[j]][..0] == [];
    assert ZeroGrid(1, cols) == [ZeroRow(cols)];
  }

  /** An all-empty grid (rows have cells) has nothing to clear. */
  lemma ClearEmptyGrid(rows: nat, cols: nat)
    requires cols > 0
    ensures FullRows(ZeroGrid(rows, cols)) == 0
    ensures ClearedGrid(ZeroGrid(rows, cols), cols) == ZeroGrid(rows, cols)
  {
    var g := ZeroGrid(rows, cols);
    forall k | 0 <= k < rows ensures !IsFull(g[k]) {
      assert g[k][0] == 0;
    }
    NoFullRows(g);
    assert ZeroGrid(0, cols) == [];
  }
}
