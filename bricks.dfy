/**
 * Brick templates.  A brick is its list of rotation states; `TBrick` is the
 * one template of the catalogue whose source is part of this model.
 */
module Bricks {
  import opened Matrix

  /** The rotation states of one brick kind, in rotation order. */
  type Brick = seq<Shape>

  /** What the board needs of a brick: at least one state, every state with a filled cell. */
  predicate WellFormedBrick(b: Brick)
  {
    |b| > 0 && forall k :: 0 <= k < |b| ==> HasCell(b[k])
  }

  /** The positions (row, column) of the filled cells of a shape. */
  function FilledCells(s: Shape): set<(int, int)>
  {
    set i, j | 0 <= i < |s| && 0 <= j < |s[i]| && s[i][j] != 0 :: (i, j)
  }

  /** `s` with rows `a` and `b` exchanged. */
  function SwapRows(s: Shape, a: nat, b: nat): Shape
    requires a < |s| && b < |s|
  {
    s[a := s[b]][b := s[a]]
  }

  /** `s` with columns `a` and `b` exchanged in every row. */
  function SwapColumns(s: Shape, a: nat, b: nat): Shape
    requires forall r :: 0 <= r < |s| ==> a < |s[r]| && b < |s[r]|
  {
    seq(|s|, r requires 0 <= r < |s| => s[r][a := s[r][b]][b := s[r][a]])
  }

  /** The colour id every cell of a T brick carries. */
  const TColour := 6

  /**
   * The four rotation states of the T brick, in the order its constructor
   * adds them.  The source hands out a deep copy of this list on every call
   * of `getBrickMatrixList`; as a value, the list here cannot be changed by
   * any caller, so each call yields these same matrices.
   */
  function TBrickMatrixList(): (b: Brick)
    ensures |b| == 4
    ensures forall k :: 0 <= k < 4 ==>
      IsRect(b[k], 4, 4) && forall i, j :: 0 <= i < 4 && 0 <= j < 4 ==> b[k][i][j] in {0, TColour}
    ensures WellFormedBrick(b)
  {
    var states := [ [ [0, 0, 0, 0],
        [0, 6, 6, 6],
        [0, 0, 6, 0],
        [0, 0, 0, 0] ],
      [ [0, 0, 0, 0],
        [0, 0, 6, 0],
        [0, 6, 6, 0],
        [0, 0, 6, 0] ],
      [ [0, 0, 0, 0],
        [0, 0, 6, 0],
        [0, 6, 6, 6],
        [0, 0, 0, 0] ],
      [ [0, 0, 0, 0],
        [0, 6, 0, 0],
        [0, 6, 6, 0],
        [0, 6, 0, 0] ] ];
    assert forall k :: 0 <= k < 4 ==> states[k][2][2] != 0;
    states
  }

  /**
   * Every T state has exactly four filled cells, never in the top row or the
   * left column.
   */
  lemma TBrickCells()
    ensures FilledCells(TBrickMatrixList()[0]) == {(1, 1), (1, 2), (1, 3), (2, 2)}
    ensures FilledCells(TBrickMatrixList()[1]) == {(1, 2), (2, 1), (2, 2), (3, 2)}
    ensures FilledCells(TBrickMatrixList()[2]) == {(1, 2), (2, 1), (2, 2), (2, 3)}
    ensures FilledCells(TBrickMatrixList()[3]) == {(1, 1), (2, 1), (2, 2), (3, 1)}
    ensures forall k :: 0 <= k < 4 ==> |FilledCells(TBrickMatrixList()[k])| == 4
    ensures forall k, p :: 0 <= k < 4 && p in FilledCells(TBrickMatrixList()[k]) ==> p.0 != 0 && p.1 != 0
  {
    TStateCells(0);
    TStateCells(1);
    TStateCells(2);
    TStateCells(3);
  }

  lemma TStateCells(k: nat)
    requires k < 4
    ensures FilledCells(TBrickMatrixList()[k]) == ExpectedCells(k)
  {
    var s := TBrickMatrixList()[k];
    forall p | p in FilledCells(s) ensures p in ExpectedCells(k) {
      assert 0 <= p.0 < 4 && 0 <= p.1 < 4 && s[p.0][p.1] != 0;
    }
    forall p | p in ExpectedCells(k) ensures p in FilledCells(s) {
      assert s[p.0][p.1] != 0;
    }
  }

  /** The filled cells of T state `k`, listed by hand. */
  function ExpectedCells(k: int): set<(int, int)>
  {
    if k == 0 then {(1, 1), (1, 2), (1, 3), (2, 2)}
    else if k == 1 then {(1, 2), (2, 1), (2, 2), (3, 2)}
    else if k == 2 then {(1, 2), (2, 1), (2, 2), (2, 3)}
    else {(1, 1), (2, 1), (2, 2), (3, 1)}
  }

  /** State 2 mirrors state 0 top to bottom; state 3 mirrors state 1 left to right. */
  lemma TBrickSymmetry()
    ensures TBrickMatrixList()[2] == SwapRows(TBrickMatrixList()[0], 1, 2)
    ensures TBrickMatrixList()[3] == SwapColumns(TBrickMatrixList()[1], 1, 2)
  {
    var b := TBrickMatrixList();
    var m := SwapColumns(b[1], 1, 2);
    assert m[0] == b[3][0] && m[1] == b[3][1] && m[2] == b[3][2] && m[3] == b[3][3];
  }
}
