/**
 * The board state machine (`SimpleBoard`): the background grid, the active
 * brick's rotator and offset, the generator's next brick and the score.
 */
module Board {
  import opened Matrix
  import opened Bricks
  import opened Rotation
  import opened Data
  import opened Moves
  import opened Lines
  import opened Scoring

  /** Where every new brick appears: column 3, row 0. */
  const SpawnOffset := Point(3, 0)

  class SimpleBoard {
    /** The number of ROWS of the grid (the source calls it width). */
    const width: nat
    /** The number of columns of the grid (the source calls it height). */
    const height: nat
    const score: Score
    /** The background: locked bricks only, never the falling one. */
    var currentGameMatrix: Grid
    var currentOffset: Point
    var brickRotator: Rotator
    /**
     * The generator's lookahead slot: the brick the next spawn takes and the
     * view previews.  The generator itself is not part of this model; each
     * spawn refills the slot with a brick its caller supplies.
     */
    var nextBrick: Brick

    /** The grid keeps its size; a brick, once spawned, is well formed. */
    ghost predicate Valid()
      reads this
    {
      IsRect(currentGameMatrix, width, height) && WellFormedBrick(nextBrick) &&
      (brickRotator.shapes != [] ==> brickRotator.Ready())
    }

    /** A brick has been spawned, so moves and the view data are defined. */
    ghost predicate Spawned()
      reads this
    {
      brickRotator.Ready()
    }

    /** The active brick's placement. */
    function Active(): Placement
      reads this
    {
      Placement(brickRotator, currentOffset)
    }

    /** An empty board; no brick is active until the first `CreateNewBrick`. */
    constructor(width: nat, height: nat, firstBrick: Brick)
      requires WellFormedBrick(firstBrick)
      ensures Valid() && !Spawned()
      ensures this.width == width && this.height == height
      ensures currentGameMatrix == ZeroGrid(width, height)
      ensures nextBrick == firstBrick
      ensures fresh(score) && score.value == 0
    {
      this.width := width;
      this.height := height;
      currentGameMatrix := ZeroGrid(width, height);
      nextBrick := firstBrick;
      brickRotator := Rotator([], 0);
      currentOffset := Point(0, 0);
      score := new Score();
    }

    /**
     * Takes the generator's next brick, puts it at the spawn offset in its
     * first state and reports whether it conflicts there (game over).
     */
    method CreateNewBrick(refill: Brick) returns (conflict: bool)
      requires Valid() && WellFormedBrick(refill)
      modifies this
      ensures Valid() && Spawned()
      ensures brickRotator == SetBrick(old(nextBrick)) && currentOffset == SpawnOffset
      ensures nextBrick == refill && currentGameMatrix == old(currentGameMatrix)
      ensures conflict == Intersects(currentGameMatrix, old(nextBrick)[0], SpawnOffset.x, SpawnOffset.y)
    {
      var currentBrick := nextBrick;
      nextBrick := refill;
      brickRotator := SetBrick(currentBrick);
      currentOffset := Point(3, 0);
      conflict := Intersects(currentGameMatrix, brickRotator.CurrentShape(), currentOffset.x, currentOffset.y);
    }

    /** Turns the brick to its next state if that fits where it is; always reports success. */
    method RotateBrick() returns (movable: bool)
      requires Valid() && Spawned()
      modifies this
      ensures Valid() && Spawned()
      ensures movable && Active() == Rotate(old(currentGameMatrix), old(Active()))
      ensures currentGameMatrix == old(currentGameMatrix) && nextBrick == old(nextBrick)
    {
      var currentMatrix := currentGameMatrix;
      var p := currentOffset;
      var conflict := Intersects(currentMatrix, brickRotator.NextShape(), p.x, p.y);
      if conflict {
        // a rotation that does not fit is ignored
        return true;
      } else {
        brickRotator := brickRotator.(index := brickRotator.NextShapeIndex());
        return true;
      }
    }

    /** The snapshot for the view: the active state, its offset and the preview of the next brick. */
    function GetViewData(): (v: ViewData)
      reads this
      requires Valid() && Spawned()
      ensures v.brickData in brickRotator.shapes && HasCell(v.brickData) && HasCell(v.nextBrickData)
      ensures v.xPosition == currentOffset.x && v.yPosition == currentOffset.y
      ensures v.brickData == brickRotator.CurrentShape() && v.nextBrickData == nextBrick[0]
    {
      ViewData(brickRotator.CurrentShape(), currentOffset.x, currentOffset.y, nextBrick[0])
    }

    /** Writes the active brick into the background at its offset. */
    method MergeBrickToBackground()
      requires Valid() && Spawned()
      modifies this`currentGameMatrix
      ensures Valid()
      ensures currentGameMatrix ==
        Merge(old(currentGameMatrix), brickRotator.CurrentShape(), currentOffset.x, currentOffset.y)
    {
      currentGameMatrix := Merge(currentGameMatrix, brickRotator.CurrentShape(), currentOffset.x, currentOffset.y);
    }

    /**
     * Moves row `fromRow` to the top by swapping it upwards one row at a time;
     * the rows above it each move one row down.
     */
    method ShiftRowsDown(fromRow: nat)
      requires Valid() && fromRow < width
      modifies this`currentGameMatrix
      ensures Valid()
      ensures currentGameMatrix ==
        [old(currentGameMatrix)[fromRow]] + old(currentGameMatrix)[..fromRow] + old(currentGameMatrix)[fromRow + 1..]
    {
      ghost var g := currentGameMatrix;
      var i := fromRow;
      while i > 0
        invariant 0 <= i <= fromRow
        invariant currentGameMatrix == g[..i] + [g[fromRow]] + g[i..fromRow] + g[fromRow + 1..]
      {
        var arr := currentGameMatrix[i];
        currentGameMatrix := currentGameMatrix[i := currentGameMatrix[i - 1]];
        currentGameMatrix := currentGameMatrix[i - 1 := arr];
        assert g[i - 1..fromRow] == [g[i - 1]] + g[i..fromRow];
        i := i - 1;
      }
      assert g[..0] == [];
      assert forall r :: 0 <= r < width ==> currentGameMatrix[r] in g;
    }

    /** Empties every cell of row `row`. */
    method ZeroOutRow(row: nat)
      requires Valid() && row < width
      modifies this`currentGameMatrix
      ensures Valid()
      ensures currentGameMatrix == old(currentGameMatrix)[row := ZeroRow(height)]
    {
      ghost var g := currentGameMatrix;
      var col := 0;
      assert ZeroRow(0) + g[row][0..] == g[row];
      while col < height
        invariant 0 <= col <= height
        invariant currentGameMatrix == g[row := ZeroRow(col) + g[row][col..]]
      {
        assert (ZeroRow(col) + g[row][col..])[col := 0] == ZeroRow(col + 1) + g[row][col + 1..];
        currentGameMatrix := currentGameMatrix[row := currentGameMatrix[row][col := 0]];
        col := col + 1;
      }
      assert ZeroRow(height) + g[row][height..] == ZeroRow(height);
    }

    /** Whether every cell of row `row` is filled. */
    method IsRowFull(row: nat) returns (full: bool)
      requires Valid() && row < width
      ensures full == IsFull(currentGameMatrix[row])
    {
      for col := 0 to height
        invariant forall c :: 0 <= c < col ==> currentGameMatrix[row][c] != 0
      {
        if currentGameMatrix[row][col] == 0 {
          return false;
        }
      }
      return true;
    }

    /**
     * Scans the rows top to bottom; each full row is emptied and moved to the
     * top.  Returns how many rows were cleared.
     */
    method ClearLines() returns (clearedLines: nat)
      requires Valid()
      modifies this`currentGameMatrix
      ensures Valid()
      ensures clearedLines == FullRows(old(currentGameMatrix))
      ensures currentGameMatrix == ClearedGrid(old(currentGameMatrix), height)
    {
      ghost var g := currentGameMatrix;
      clearedLines := 0;
      for row := 0 to width
        invariant Valid()
        invariant clearedLines == FullRows(g[..row])
        invariant currentGameMatrix == ClearedGrid(g[..row], height) + g[row..]
      {
        ClearStep(g, height, row, currentGameMatrix);
        var full := IsRowFull(row);
        if full {
          clearedLines := clearedLines + 1;
          ZeroOutRow(row);
          ShiftRowsDown(row);
        }
      }
      assert g[..width] == g;
    }

    /** Starts a new game: an empty grid, a zero score and a fresh brick. */
    method NewGame(refill: Brick)
      requires Valid() && WellFormedBrick(refill)
      modifies this, score
      ensures Valid() && Spawned()
      ensures currentGameMatrix == ZeroGrid(width, height) && score.value == 0
      ensures brickRotator == SetBrick(old(nextBrick)) && currentOffset == SpawnOffset && nextBrick == refill
    {
      currentGameMatrix := ZeroGrid(width, height);
      score.Reset();
      var _ := CreateNewBrick(refill);
    }

    /**
     * Resolves one move event against the background, which it never
     * changes; the outcome is the one `Move` describes.
     */
    method MoveBrick(event: MoveEvent) returns (movable: bool)
      requires Valid() && Spawned()
      modifies this
      ensures Valid() && Spawned()
      ensures Step(movable, Active()) == Move(old(currentGameMatrix), old(Active()), event)
      ensures currentGameMatrix == old(currentGameMatrix) && nextBrick == old(nextBrick)
    {
      var currentMatrix := currentGameMatrix;
      var currentBrickMatrix := brickRotator.CurrentShape();
      var p := currentOffset;
      var conflict := Intersects(currentMatrix, currentBrickMatrix, p.x, p.y);

      if event.eventType == Down && event.eventSource == Thread {
        p := Point(p.x, p.y + 1);
        conflict := Intersects(currentMatrix, currentBrickMatrix, p.x, p.y);
        if conflict {
          return false;
        } else {
          currentOffset := p;
          return true;
        }
      } else if event.eventType == Left && event.eventSource == Thread {
        p := Point(p.x - 1, p.y);
        conflict := Intersects(currentMatrix, currentBrickMatrix, p.x, p.y);
        if !conflict {
          currentOffset := p;
          return true;
        }
      } else if event.eventType == Right && event.eventSource == Thread {
        p := Point(p.x + 1, p.y);
        conflict := Intersects(currentMatrix, currentBrickMatrix, p.x, p.y);
        if !conflict {
          currentOffset := p;
          return true;
        }
      } else if event.eventType == Space && event.eventSource == Thread {
        conflict := Intersects(currentMatrix, currentBrickMatrix, p.x, p.y);
        while !conflict
          modifies {}
          invariant p.x == currentOffset.x
          invariant conflict == Intersects(currentMatrix, currentBrickMatrix, p.x, p.y)
          invariant LandingRow(currentMatrix, currentBrickMatrix, p.x, p.y) ==
                    LandingRow(currentMatrix, currentBrickMatrix, p.x, currentOffset.y)
          decreases |currentMatrix| - p.y
        {
          FreeIsAboveFloor(currentMatrix, currentBrickMatrix, p.x, p.y);
          p := Point(p.x, p.y + 1);
          conflict := Intersects(currentMatrix, currentBrickMatrix, p.x, p.y);
        }
        p := Point(p.x, p.y - 1);
        currentOffset := p;
        return true;
      } else if event.eventType == Up && event.eventSource == Thread {
        conflict := Intersects(currentMatrix, currentBrickMatrix, p.x, p.y);
        if !conflict {
          currentOffset := p;
          return true;
        }
      } else if event.eventType == Z && event.eventSource == Thread {
        movable := RotateBrick();
        return;
      }
      return conflict;
    }
  }
}
