# Falling-block game engine, modelled in Dafny

This project models the engine of a Tetris-style game. It has four parts:

- The board (`SimpleBoard`) owns an integer grid of `width` rows by `height`
  columns. It also holds the falling brick's rotator and offset, the
  generator's next brick and the score. It resolves move events, merges a
  landed brick into the background and clears full lines.
- The score manager (`ScoreManager`) collects 10 points per brick unit, plus
  a per-line bonus that rises by 40 every ten lines. It pays the collected
  points into the score in one go.
- The T brick template (`TBrick`) is a constant table of four 4×4 rotation
  states.
- The controller (`GameController`) runs one game step. It moves the brick.
  When the board reports that the brick cannot move any more, it runs these
  steps in order:
  1. merge the brick into the background
  2. score the brick
  3. clear full lines
  4. score the lines
  5. pay the points
  6. spawn the next brick, signalling game over if the spawn conflicts
  7. refresh the background

The stateful parts are classes whose methods update their fields:

- `Board.SimpleBoard`
- `Scoring.ScoreManager`
- `Scoring.Score`
- `Controller.GameController`
- `View.GuiLog`, the log of the notices sent to the view

Every loop of the source is kept and carries its invariants:

- the cell loop of `zeroOutRow`
- the swap loop of `shiftRowsDown`
- the cell scan of `isRowFull`
- the row scan of `clearLines`
- the hard-drop loop of `moveBrick`
- the counting loop of `addLinesCleared`

Each method is proved against a pure specification, and lemmas state what
that specification means:

- `Moves.Move` specifies one move event.
- `Lines.ClearedGrid` and `Lines.FullRows` specify line clearing.
- `Scoring.LinePoints` gives the points for a run of cleared lines.

The board is a sequence of rows. The sequence is a value that the methods
reassign. Row swaps and cell writes are therefore value updates, not Java
reference moves.

Several helpers are called by the core but their source is not part of this
model. Their meaning is assumed, and each assumption is stated where the
helper is defined:

- `Operations.intersectMatrix` is modelled as `Matrix.Intersects`. A
  placement conflicts when some filled cell of the shape lands outside the
  grid or on a filled cell.
- `Operations.mergeMatrix` is modelled as `Matrix.Merge`. It returns a grid
  of the same size, with every filled shape cell that lands inside the grid
  written over the cell below it.
- `BrickRotator` is modelled as `Rotation.Rotator`: a list of states and a
  cursor, where the next state is the one at `(index + 1) mod count`.
- `RandomBrickGenerator` is modelled as a one-brick lookahead slot,
  `nextBrick`. Every spawn refills the slot with a brick its caller passes in.
- `Score` is modelled as an integer counter with `add` and `reset`.

## Model

| member | source | states |
|---|---|---|
| Matrix.MergeLocksBrick | src/main/java/org/depaul/logic/board/SimpleBoard.java:68-70 | merging a brick at a free placement writes each of its cells into the grid, keeps every filled cell filled, and the same placement conflicts afterwards |
| Matrix.FreeIsAboveFloor | src/main/java/org/depaul/logic/board/SimpleBoard.java:163-168 | a conflict-free placement lies above the floor, which is why the hard-drop loop ends |
| Bricks.TBrickMatrixList | src/main/java/org/depaul/logic/bricks/TBrick.java:12-42 | four rotation states, each 4×4, every cell 0 or colour 6, each with a filled cell |
| Bricks.TBrickCells | src/main/java/org/depaul/logic/bricks/TBrick.java:13-36 | the exact filled cells of each state: four per state, none in row 0 or column 0 |
| Bricks.TStateCells | src/main/java/org/depaul/logic/bricks/TBrick.java:13-36 | state k has exactly the listed set of filled cells |
| Bricks.TBrickSymmetry | src/main/java/org/depaul/logic/bricks/TBrick.java:13-36 | state 2 is state 0 with rows 1 and 2 swapped; state 3 is state 1 with columns 1 and 2 swapped |
| Rotation.Rotator.CurrentShape | src/main/java/org/depaul/logic/board/SimpleBoard.java:133 | the current state of an installed brick has a filled cell |
| Rotation.Rotator.NextShapeIndex | src/main/java/org/depaul/logic/board/SimpleBoard.java:47-52 | the next index is the following one, wrapping to 0 after the last state |
| Rotation.Rotator.NextShape | src/main/java/org/depaul/logic/board/SimpleBoard.java:47 | the state a rotation would bring in has a filled cell |
| Rotation.Rotator.Advance | src/main/java/org/depaul/logic/board/SimpleBoard.java:52 | repeated committed rotations keep the brick and a valid cursor |
| Rotation.SetBrick | src/main/java/org/depaul/logic/board/SimpleBoard.java:38 | installing a brick puts its first state in use |
| Rotation.AdvanceSplit | src/main/java/org/depaul/logic/board/SimpleBoard.java:52 | a rotations followed by b more are a + b rotations |
| Rotation.AdvanceWithinCycle | src/main/java/org/depaul/logic/board/SimpleBoard.java:52 | before the cursor wraps, k rotations move it exactly k places |
| Rotation.FullTurn | src/main/java/org/depaul/logic/board/SimpleBoard.java:52 | as many rotations as the brick has states bring back the state in use |
| Lines.ClearedGrid | src/main/java/org/depaul/logic/board/SimpleBoard.java:104-116 | clearing keeps the number of rows |
| Lines.SurvivorsCount | src/main/java/org/depaul/logic/board/SimpleBoard.java:104-116 | every row is either cleared or survives |
| Lines.SurvivorsAreOpenRows | src/main/java/org/depaul/logic/board/SimpleBoard.java:108 | surviving rows are rows of the grid that are not full |
| Lines.SurvivorsAppend | src/main/java/org/depaul/logic/board/SimpleBoard.java:106 | counting and keeping rows both distribute over splitting the grid |
| Lines.NoFullRows | src/main/java/org/depaul/logic/board/SimpleBoard.java:108 | a grid without full rows loses nothing |
| Lines.ClearStep | src/main/java/org/depaul/logic/board/SimpleBoard.java:106-114 | one iteration of the row scan: zeroing a full row and moving it to the top, or leaving an open row, extends the cleared prefix by one row |
| Lines.ClearedKeepsShape | src/main/java/org/depaul/logic/board/SimpleBoard.java:104-116 | clearing keeps the grid rows × cols |
| Lines.ClearedHasNoFullRow | src/main/java/org/depaul/logic/board/SimpleBoard.java:104-116 | afterwards no row is full, the cleared rows are empty rows on top, and the kept rows follow in their old order |
| Lines.ClearedKeepsRowsBelow | src/main/java/org/depaul/logic/board/SimpleBoard.java:104-116 | rows below the lowest full row stay where they were |
| Lines.ClearedIdempotent | src/main/java/org/depaul/logic/board/SimpleBoard.java:104-116 | clearing twice is the same as clearing once |
| Lines.ClearSingleRow | src/main/java/org/depaul/logic/board/SimpleBoard.java:72-116 | one full row j: the count is 1 and the grid becomes an empty row followed by rows 0..j-1 and j+1.. |
| Lines.ClearEmptyGrid | src/main/java/org/depaul/logic/board/SimpleBoard.java:104-116 | an empty grid has nothing to clear |
| Moves.Rotate | src/main/java/org/depaul/logic/board/SimpleBoard.java:44-55 | the offset and the brick are kept; the index advances exactly when the next state fits |
| Moves.Move | src/main/java/org/depaul/logic/board/SimpleBoard.java:131-190 | a move that asks for a lock leaves the brick where it was, and only Z changes the state in use |
| Moves.LandingRowIsFloor | src/main/java/org/depaul/logic/board/SimpleBoard.java:164-169 | a hard drop from a free row ends on a free row at or below it, with every row passed free and the row below blocked |
| Moves.LandingRowUnique | src/main/java/org/depaul/logic/board/SimpleBoard.java:164-169 | the first blocked row below a run of free rows fixes the landing row |
| Moves.HardDropLands | src/main/java/org/depaul/logic/board/SimpleBoard.java:163-171 | SPACE keeps x and the state, reports true, and lands on a free row whose next row conflicts |
| Moves.HardDropIdempotent | src/main/java/org/depaul/logic/board/SimpleBoard.java:163-171 | a second SPACE leaves the brick where the first put it |
| Moves.HardDropFromConflict | src/main/java/org/depaul/logic/board/SimpleBoard.java:163-171 | SPACE from a conflicting placement lifts the brick one row and reports true |
| Moves.DownOutcome | src/main/java/org/depaul/logic/board/SimpleBoard.java:140-148 | DOWN moves one row down and reports true exactly when the row below is free, and otherwise stays and reports false |
| Moves.SideOutcome | src/main/java/org/depaul/logic/board/SimpleBoard.java:149-162 | LEFT or RIGHT shifts one column when the target is free and otherwise stays; both report true |
| Moves.SideMovesUndo | src/main/java/org/depaul/logic/board/SimpleBoard.java:149-162 | a LEFT and a RIGHT that both move undo each other |
| Moves.RotateOutcome | src/main/java/org/depaul/logic/board/SimpleBoard.java:180-182 | Z reports true, keeps the offset and advances the state only when it fits |
| Moves.UpOutcome | src/main/java/org/depaul/logic/board/SimpleBoard.java:173-178 | UP leaves the brick and reports true |
| Moves.OtherSourceOutcome | src/main/java/org/depaul/logic/board/SimpleBoard.java:138 | an event from any source but the game loop changes nothing and reports the current conflict |
| Moves.LockCondition | src/main/java/org/depaul/logic/board/SimpleBoard.java:131-185 | the move reports false exactly for a blocked DOWN from the game loop, or a free brick under another source |
| Board.SimpleBoard.constructor | src/main/java/org/depaul/logic/board/SimpleBoard.java:26-33 | an all-zero grid of width rows by height columns, no brick yet, and a zero score |
| Board.SimpleBoard.CreateNewBrick | src/main/java/org/depaul/logic/board/SimpleBoard.java:36-41 | takes the next brick in its first state at (3, 0) and returns exactly whether that placement conflicts; the grid is kept |
| Board.SimpleBoard.RotateBrick | src/main/java/org/depaul/logic/board/SimpleBoard.java:44-55 | always returns true and gives the placement `Moves.Rotate` describes; the grid is kept |
| Board.SimpleBoard.GetViewData | src/main/java/org/depaul/logic/board/SimpleBoard.java:63-65 | the view shows exactly the state in use (one of the brick's states, with a filled cell) at the current offset, and the first state of the next brick as the preview |
| Board.SimpleBoard.MergeBrickToBackground | src/main/java/org/depaul/logic/board/SimpleBoard.java:68-70 | the grid becomes the merge of the brick at its offset |
| Board.SimpleBoard.ShiftRowsDown | src/main/java/org/depaul/logic/board/SimpleBoard.java:72-84 | row fromRow moves to the top, the rows above it move down one, the rest stay, and the grid keeps its size |
| Board.SimpleBoard.ZeroOutRow | src/main/java/org/depaul/logic/board/SimpleBoard.java:85-92 | exactly row `row` becomes all zero, and the grid keeps its size |
| Board.SimpleBoard.IsRowFull | src/main/java/org/depaul/logic/board/SimpleBoard.java:93-102 | returns whether every cell of the row is filled |
| Board.SimpleBoard.ClearLines | src/main/java/org/depaul/logic/board/SimpleBoard.java:104-116 | returns the number of rows that were full, and leaves the grid `Lines.ClearedGrid` describes |
| Board.SimpleBoard.NewGame | src/main/java/org/depaul/logic/board/SimpleBoard.java:124-128 | an all-zero grid, a zero score and the next brick spawned at (3, 0) |
| Board.SimpleBoard.MoveBrick | src/main/java/org/depaul/logic/board/SimpleBoard.java:131-190 | return value and new placement are exactly those of `Moves.Move`; the grid and the next brick are kept |
| Scoring.Score.constructor | src/main/java/org/depaul/logic/board/SimpleBoard.java:32 | a new score is 0 |
| Scoring.Score.Add | src/main/java/org/depaul/logic/events/ScoreManager.java:55 | the score rises by the amount |
| Scoring.Score.Reset | src/main/java/org/depaul/logic/board/SimpleBoard.java:126 | the score is 0 |
| Scoring.BonusStep | src/main/java/org/depaul/logic/events/ScoreManager.java:46-49 | the bonus rises by 40 exactly when the lines already cleared are a multiple of 10, and the risen bonus is what the next line is worth |
| Scoring.LinePointsSplit | src/main/java/org/depaul/logic/events/ScoreManager.java:40-51 | scoring m lines then n more is scoring m + n lines |
| Scoring.LinePointsAtLeast | src/main/java/org/depaul/logic/events/ScoreManager.java:40-51 | every line is worth at least 40 |
| Scoring.LinePointsInBlock | src/main/java/org/depaul/logic/events/ScoreManager.java:40-51 | every line of the block of lines 10t+1 to 10t+10 is worth 40(t+1) |
| Scoring.LinePointsPerBlock | src/main/java/org/depaul/logic/events/ScoreManager.java:40-51 | block t of ten lines is worth 400(t+1); the first line is worth 40, the first ten 400 and the next ten 800 |
| Scoring.ScoreManager.constructor | src/main/java/org/depaul/logic/events/ScoreManager.java:18-27 | no lines cleared, bonus 0, nothing pending, threshold 10 and increment 40 |
| Scoring.ScoreManager.AddBrickScore | src/main/java/org/depaul/logic/events/ScoreManager.java:29-38 | pending points rise by exactly 10n, so n = 0 changes nothing; the line count and bonus are kept |
| Scoring.ScoreManager.AddLinesCleared | src/main/java/org/depaul/logic/events/ScoreManager.java:40-51 | the line count rises by max(n, 0), pending points rise by the values of exactly those lines, and the bonus stays 40 per started block of ten lines |
| Scoring.ScoreManager.ScorePoints | src/main/java/org/depaul/logic/events/ScoreManager.java:53-57 | shows the pending points, adds them to the score and leaves nothing pending |
| Scoring.ScoreManager.Reset | src/main/java/org/depaul/logic/events/ScoreManager.java:59-62 | the line count and bonus are 0; pending points are kept |
| View.GuiLog.Notify | src/main/java/org/depaul/logic/events/GameController.java:40-42 | a notice is appended to the view's log |
| Controller.GameController.constructor | src/main/java/org/depaul/logic/events/GameController.java:12-24 | a 25 by 10 empty board with the first brick spawned, a score manager paying into the board's score, and the view initialised |
| Controller.GameController.OnMoveEvent | src/main/java/org/depaul/logic/events/GameController.java:27-51 | a movable brick changes only its placement; a lock leaves the merged and cleared grid, the score up by 40 plus the line values, the next brick spawned, and the notices ShowScore, then GameOver exactly on a spawn conflict, then a refresh; the view data is returned |
| Controller.GameController.OnRotateEvent | src/main/java/org/depaul/logic/events/GameController.java:54-61 | the placement `Moves.Rotate` describes, the grid kept, no notice sent, and the view data returned |
| Controller.GameController.CreateNewGame | src/main/java/org/depaul/logic/events/GameController.java:64-70 | empty grid, zero score, zero lines and bonus, the next brick spawned, and one refresh of the empty grid |
| Scenarios.T0FreeOnEmptyGrid | src/test/java/org/depaul/logic/board/SimpleBoardTest.java:22-26 | on an empty grid the T brick's first state fits exactly where its four cells are inside |
| Scenarios.TestGridFree | src/test/java/org/depaul/logic/board/SimpleBoardTest.java:19-26 | on the empty 10 by 10 test board the T brick fits exactly where its cells are inside |
| Scenarios.ScenarioLeft | src/test/java/org/depaul/logic/board/SimpleBoardTest.java:29-50 | three LEFT moves of a spawned T brick reach x = 2, 1, 0 with y = 0 |
| Scenarios.ScenarioRight | src/test/java/org/depaul/logic/board/SimpleBoardTest.java:52-69 | three RIGHT moves reach x = 4, 5, 6 with y = 0 |
| Scenarios.ScenarioDown | src/test/java/org/depaul/logic/board/SimpleBoardTest.java:71-88 | three DOWN moves reach y = 1, 2, 3 with x = 3 |
| Scenarios.ScenarioDrop | src/test/java/org/depaul/logic/board/SimpleBoardTest.java:91-106 | a hard drop lands the T brick on row 7 and a second one leaves it there |

## Left out

- The JavaFX view, the key bindings, the timer, `setEventListener` and `bindScore` are left out. The view is reduced to the log of the notices the engine sends it (`View.GuiLog`).
- Random brick choice is left out. `RandomBrickGenerator` is not part of this model. Each spawn takes the brick in the `nextBrick` slot and refills the slot with a brick the caller supplies (`refill`, `firstBrick`, `secondBrick`).
- `Operations`, `BrickRotator`, `Score`, `ViewData` and `MoveEvent` are not part of this model. Their meaning is the assumption stated in `Matrix`, `Rotation`, `Scoring.Score` and `Data`.
- `Operations.copyMatrix` and `deepCopyList` are not modelled: grids and bricks are values, so copying is the identity. It follows that mutating a returned brick list cannot affect later calls.
- Java reference aliasing is not modelled. Rows and points are values, and the row swaps of `shiftRowsDown` are value exchanges.
- Java `int` overflow is not modelled. Scores, line counts and offsets are unbounded integers, so `Scoring.ScoreManager.AddBrickScore` and `AddLinesCleared` do not wrap.
- The `assert` statements of `shiftRowsDown`, `zeroOutRow` and `isRowFull` become `requires` clauses.
- The refresh branch of `onRotateEvent` (GameController.java:56-59) is not modelled. `rotateBrick` always returns true, so the branch is dead. `Controller.GameController.OnRotateEvent` states that no notice is sent.
- The commented-out USER bonus and level update in `GameController` are not modelled.
- `Board.getBoardMatrix` and `getScore` are plain field reads and are not modelled separately.
- The unused local `points` in `addLinesCleared` is not modelled.
- The generator's next brick is the board's `nextBrick` field, which holds the whole brick. The preview in the view data is its first state.
- `Scenarios.ScenarioLeft`, `ScenarioRight`, `ScenarioDown` and `ScenarioDrop` fix the spawned brick to the T brick. In the unit tests the brick is random; the other templates are not part of this model.
- `Matrix.Intersects` treats a cell above row 0 as outside the grid, so it conflicts like any other cell outside the grid. The code of `intersectMatrix` is not part of this model.
- `Scoring.LinePoints` follows the code: the bonus check runs before each line is scored, so the first line cleared is already worth 40. The comment at ScoreManager.java:24-26 says the same.
