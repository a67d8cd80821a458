/**
 * The game controller: turns move events into board operations, and on a
 * lock runs merge, scoring, line clearing, payout and the next spawn in the
 * source's order.  Calls to the view are recorded in its notice log.
 */
module Controller {
  import opened Matrix
  import opened Bricks
  import opened Rotation
  import opened Data
  import opened Moves
  import opened Lines
  import opened View
  import opened Scoring
  import opened Board

  /** The board the controller creates: 25 rows of 10 columns. */
  const Rows := 25
  const Columns := 10

  /** Units passed to `AddBrickScore` on every lock (40 points). */
  const LockUnits := 4

  class GameController {
    const board: SimpleBoard
    const viewGuiController: GuiLog
    const scoreManager: ScoreManager

    /**
     * The board has a brick and keeps its 25 by 10 grid; the score manager
     * pays into the board's score and talks to the same view; between events
     * no points are waiting to be paid.
     */
    ghost predicate Valid()
      reads this, board, scoreManager
    {
      board.Valid() && board.Spawned() && board.width == Rows && board.height == Columns &&
      scoreManager.Valid() && scoreManager.score == board.score &&
      scoreManager.viewGuiController == viewGuiController && scoreManager.pointsToAdd == 0
    }

    /**
     * A new game view: an empty board, the first brick spawned and the view
     * initialised.  `firstBrick` and `secondBrick` are the generator's first
     * two draws.
     */
    constructor(c: GuiLog, firstBrick: Brick, secondBrick: Brick)
      requires WellFormedBrick(firstBrick) && WellFormedBrick(secondBrick)
      modifies c
      ensures Valid() && viewGuiController == c
      ensures fresh(board) && fresh(board.score) && fresh(scoreManager)
      ensures board.currentGameMatrix == ZeroGrid(Rows, Columns) && board.score.value == 0
      ensures board.Active() == Placement(SetBrick(firstBrick), SpawnOffset) && board.nextBrick == secondBrick
      ensures scoreManager.linesCleared == 0
      ensures c.log == old(c.log) + [InitGameView(ZeroGrid(Rows, Columns), board.GetViewData())]
    {
      var b := new SimpleBoard(Rows, Columns, firstBrick);
      var _ := b.CreateNewBrick(secondBrick);
      c.Notify(InitGameView(b.currentGameMatrix, b.GetViewData()));
      board := b;
      viewGuiController := c;
      scoreManager := new ScoreManager(c, b.score);
    }

    /**
     * Resolves a move.  If the board reports the brick can still move,
     * nothing else happens.  Otherwise the brick is locked: merged into the
     * background, 40 points and the line bonuses are paid into the score,
     * full lines are cleared and the next brick (drawing `refill` into the
     * generator's slot) is spawned, with a game-over notice exactly when it
     * conflicts at once.  Returns the view data either way.
     */
    method OnMoveEvent(event: MoveEvent, refill: Brick) returns (v: ViewData)
      requires Valid() && WellFormedBrick(refill)
      modifies board, board.score, scoreManager, viewGuiController
      ensures Valid()
      ensures v == board.GetViewData()
      ensures var step := Move(old(board.currentGameMatrix), old(board.Active()), event);
        step.movable ==>
          board.currentGameMatrix == old(board.currentGameMatrix) && board.Active() == step.after &&
          board.nextBrick == old(board.nextBrick) && board.score.value == old(board.score.value) &&
          scoreManager.linesCleared == old(scoreManager.linesCleared) &&
          viewGuiController.log == old(viewGuiController.log)
      ensures var step := Move(old(board.currentGameMatrix), old(board.Active()), event);
        var merged := Merge(old(board.currentGameMatrix), old(board.brickRotator.CurrentShape()),
                            old(board.currentOffset.x), old(board.currentOffset.y));
        var lines := FullRows(merged);
        var gained := PointsPerBrickUnit * LockUnits + LinePoints(old(scoreManager.linesCleared), lines);
        var gameOver := Intersects(board.currentGameMatrix, old(board.nextBrick)[0], SpawnOffset.x, SpawnOffset.y);
        !step.movable ==>
          board.currentGameMatrix == ClearedGrid(merged, Columns) &&
          scoreManager.linesCleared == old(scoreManager.linesCleared) + lines &&
          board.score.value == old(board.score.value) + gained &&
          board.Active() == Placement(SetBrick(old(board.nextBrick)), SpawnOffset) &&
          board.nextBrick == refill &&
          viewGuiController.log == old(viewGuiController.log) + [ShowScore(gained)] +
            (if gameOver then [GameOver] else []) + [RefreshGameBackground(board.currentGameMatrix)]
    {
      ghost var grid0, lines0 := board.currentGameMatrix, scoreManager.linesCleared;
      ghost var score0, log0 := board.score.value, viewGuiController.log;
      ghost var shape0, offset0 := board.brickRotator.CurrentShape(), board.currentOffset;
      var movable := board.MoveBrick(event);
      if !movable {
        assert board.Active() == old(board.Active());
        board.MergeBrickToBackground();
        ghost var merged := board.currentGameMatrix;
        assert merged == Merge(grid0, shape0, offset0.x, offset0.y);
        scoreManager.AddBrickScore(LockUnits);

        var numClearedLines := board.ClearLines();
        assert board.currentGameMatrix == ClearedGrid(merged, Columns);
        scoreManager.AddLinesCleared(numClearedLines);
        ghost var gained := PointsPerBrickUnit * LockUnits + LinePoints(lines0, numClearedLines);
        assert scoreManager.pointsToAdd == gained;

        scoreManager.ScorePoints();
        assert board.score.value == score0 + gained;
        assert viewGuiController.log == log0 + [ShowScore(gained)];

        var gameOver := board.CreateNewBrick(refill);
        if gameOver {
          viewGuiController.Notify(GameOver);
        }
        viewGuiController.Notify(RefreshGameBackground(board.currentGameMatrix));
      }
      v := board.GetViewData();
    }

    /**
     * Resolves a rotation.  The board always reports success, so the
     * background is never refreshed here; only the view data is returned.
     */
    method OnRotateEvent(event: MoveEvent) returns (v: ViewData)
      requires Valid()
      modifies board
      ensures Valid()
      ensures board.Active() == Rotate(old(board.currentGameMatrix), old(board.Active()))
      ensures board.currentGameMatrix == old(board.currentGameMatrix) && board.nextBrick == old(board.nextBrick)
      ensures v == board.GetViewData()
    {
      var _ := board.RotateBrick();
      v := board.GetViewData();
    }

    /**
     * Starts over: resets the score, lets the board start a new game (empty
     * grid, score reset again, next brick spawned), resets the line count and
     * bonus, and refreshes the background.
     */
    method CreateNewGame(refill: Brick)
      requires Valid() && WellFormedBrick(refill)
      modifies board, board.score, scoreManager, viewGuiController
      ensures Valid()
      ensures board.currentGameMatrix == ZeroGrid(Rows, Columns) && board.score.value == 0
      ensures board.Active() == Placement(SetBrick(old(board.nextBrick)), SpawnOffset) && board.nextBrick == refill
      ensures scoreManager.linesCleared == 0 && scoreManager.currentBonus == 0
      ensures viewGuiController.log == old(viewGuiController.log) + [RefreshGameBackground(ZeroGrid(Rows, Columns))]
    {
      board.score.Reset();
      board.NewGame(refill);
      scoreManager.Reset();
      viewGuiController.Notify(RefreshGameBackground(board.currentGameMatrix));
    }
  }
}
