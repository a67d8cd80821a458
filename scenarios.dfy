/**
 * The board behaviour the repository's unit tests exercise, proved for all
 * of it at once: a T brick spawned on an empty 10 by 10 board.
 */
module Scenarios {
  import opened Matrix
  import opened Bricks
  import opened Rotation
  import opened Data
  import opened Moves
  import opened Board

  /** The T brick's first state. */
  function T0(): Shape
  {
    TBrickMatrixList()[0]
  }

  /**
   * On an empty grid the T brick's first state (filled cells (1,1), (1,2),
   * (1,3), (2,2)) fits at (x, y) exactly when all four cells are inside.
   */
  lemma T0FreeOnEmptyGrid(rows: nat, cols: nat, x: int, y: int)
    ensures !Intersects(ZeroGrid(rows, cols), T0(), x, y) <==>
      0 <= x + 1 && x + 3 < cols && 0 <= y + 1 && y + 2 < rows
  {
    var g, s := ZeroGrid(rows, cols), T0();
    TStateCells(0);
    if 0 <= x + 1 && x + 3 < cols && 0 <= y + 1 && y + 2 < rows {
    } else if x + 1 < 0 || y + 1 < 0 {
      assert s[1][1] != 0 && !InBounds(g, y + 1, x + 1);
    } else if x + 3 >= cols {
      assert s[1][3] != 0 && !InBounds(g, y + 1, x + 3);
    } else {
      assert s[2][2] != 0 && !InBounds(g, y + 2, x + 2);
    }
  }

  /** The empty 10 by 10 board of the unit tests. */
  function TestGrid(): Grid
  {
    ZeroGrid(10, 10)
  }

  /** A T brick just spawned on it. */
  function Spawned(): Placement
  {
    Placement(SetBrick(TBrickMatrixList()), SpawnOffset)
  }

  /** Where `n` moves of kind `kind` from the game loop take the spawned T brick on the test board. */
  function Repeat(kind: EventType, n: nat): (p: Placement)
    requires kind != Z
    ensures p.rotator == Spawned().rotator
  {
    if n == 0 then Spawned() else Move(TestGrid(), Repeat(kind, n - 1), MoveEvent(kind, Thread)).after
  }

  lemma TestGridFree(x: int, y: int)
    ensures !Intersects(TestGrid(), T0(), x, y) <==> 0 <= x + 1 && x + 3 < 10 && 0 <= y + 1 && y + 2 < 10
  {
    T0FreeOnEmptyGrid(10, 10, x, y);
  }

  /** Three LEFT moves take the brick from column 3 to column 0, staying on row 0. */
  lemma ScenarioLeft()
    ensures Repeat(Left, 1).offset == Point(2, 0)
    ensures Repeat(Left, 2).offset == Point(1, 0)
    ensures Repeat(Left, 3).offset == Point(0, 0)
  {
    TestGridFree(2, 0);
    TestGridFree(1, 0);
    TestGridFree(0, 0);
  }

  /** Three RIGHT moves take the brick from column 3 to column 6, staying on row 0. */
  lemma ScenarioRight()
    ensures Repeat(Right, 1).offset == Point(4, 0)
    ensures Repeat(Right, 2).offset == Point(5, 0)
    ensures Repeat(Right, 3).offset == Point(6, 0)
  {
    TestGridFree(4, 0);
    TestGridFree(5, 0);
    TestGridFree(6, 0);
  }

  /** Three DOWN moves take the brick from row 0 to row 3, staying in column 3. */
  lemma ScenarioDown()
    ensures Repeat(Down, 1).offset == Point(3, 1)
    ensures Repeat(Down, 2).offset == Point(3, 2)
    ensures Repeat(Down, 3).offset == Point(3, 3)
  {
    TestGridFree(3, 1);
    TestGridFree(3, 2);
    TestGridFree(3, 3);
  }

  /** A hard drop lands the brick on row 7; a second one leaves it there. */
  lemma ScenarioDrop()
    ensures Repeat(Space, 1).offset == Point(3, 7)
    ensures Repeat(Space, 2).offset == Point(3, 7)
  {
    forall y | 0 <= y <= 8
      ensures !Intersects(TestGrid(), T0(), 3, y) <==> y <= 7
    {
      TestGridFree(3, y);
    }
    LandingRowUnique(TestGrid(), T0(), 3, 0, 7);
    LandingRowUnique(TestGrid(), T0(), 3, 7, 7);
  }
}
