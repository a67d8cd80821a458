/**
 * How the board resolves one move event, as a function of the grid, the
 * active brick's placement and the event.  `SimpleBoard.MoveBrick` is proved
 * to do exactly this; the lemmas below state what it means.
 */
module Moves {
  import opened Matrix
  import opened Rotation
  import opened Data

  /** Where the active brick is: its rotator and its offset. */
  datatype Placement = Placement(rotator: Rotator, offset: Point)

  /** What `moveBrick` reports and where it leaves the brick. */
  datatype Step = Step(movable: bool, after: Placement)

  /**
   * The row a hard drop from row `y` stops at: the row above the first
   * conflicting one at or below `y`.  From a row that already conflicts this
   * is `y - 1`, one row up.
   */
  function LandingRow(g: Grid, s: Shape, x: int, y: int): int
    requires HasCell(s)
    decreases |g| - y
  {
    if Intersects(g, s, x, y) then y - 1
    else
      FreeIsAboveFloor(g, s, x, y);
      LandingRow(g, s, x, y + 1)
  }

  /** The placement after a rotation attempt: the next state if it fits where the brick is. */
  function Rotate(g: Grid, p: Placement): (q: Placement)
    requires p.rotator.Ready()
    ensures q.rotator.Ready() && q.rotator.shapes == p.rotator.shapes && q.offset == p.offset
    ensures q.rotator.index == if Intersects(g, p.rotator.NextShape(), p.offset.x, p.offset.y)
                               then p.rotator.index else p.rotator.NextShapeIndex()
  {
    if Intersects(g, p.rotator.NextShape(), p.offset.x, p.offset.y) then p
    else p.(rotator := p.rotator.(index := p.rotator.NextShapeIndex()))
  }

  /**
   * The outcome of `moveBrick(e)` with grid `g` and the brick at `p`.  Only
   * events from the game loop move anything.  A blocked left or right move
   * reports the conflict it found, which is `true`, so only a blocked DOWN, or
   * an event from another source while the brick sits free, reports `false`.
   */
  function Move(g: Grid, p: Placement, e: MoveEvent): (r: Step)
    requires p.rotator.Ready()
    ensures r.after.rotator.Ready() && r.after.rotator.shapes == p.rotator.shapes
    ensures !r.movable ==> r.after == p
    ensures e.eventType != Z ==> r.after.rotator == p.rotator
  {
    var s, x, y := p.rotator.CurrentShape(), p.offset.x, p.offset.y;
    if e.eventSource != Thread then Step(Intersects(g, s, x, y), p)
    else match e.eventType
      case Down =>
        if Intersects(g, s, x, y + 1) then Step(false, p) else Step(true, p.(offset := Point(x, y + 1)))
      case Left =>
        if Intersects(g, s, x - 1, y) then Step(true, p) else Step(true, p.(offset := Point(x - 1, y)))
      case Right =>
        if Intersects(g, s, x + 1, y) then Step(true, p) else Step(true, p.(offset := Point(x + 1, y)))
      case Space => Step(true, p.(offset := Point(x, LandingRow(g, s, x, y))))
      case Up => Step(true, p)
      case Z => Step(true, Rotate(g, p))
  }

  /**
   * A hard drop from a free row ends on a free row at or below it, every row
   * passed on the way is free, and the row just below the landing row conflicts.
   */
  lemma {:induction false} LandingRowIsFloor(g: Grid, s: Shape, x: int, y: int)
    requires HasCell(s) && !Intersects(g, s, x, y)
    ensures y <= LandingRow(g, s, x, y)
    ensures forall k :: y <= k <= LandingRow(g, s, x, y) ==> !Intersects(g, s, x, k)
    ensures Intersects(g, s, x, LandingRow(g, s, x, y) + 1)
    decreases |g| - y
  {
    FreeIsAboveFloor(g, s, x, y);
    if !Intersects(g, s, x, y + 1) {
      LandingRowIsFloor(g, s, x, y + 1);
    }
  }

  /** The landing row is the only free row whose next row conflicts that is reachable from `y` by free rows. */
  lemma {:induction false} LandingRowUnique(g: Grid, s: Shape, x: int, y: int, t: int)
    requires HasCell(s) && y <= t
    requires forall k :: y <= k <= t ==> !Intersects(g, s, x, k)
    requires Intersects(g, s, x, t + 1)
    ensures LandingRow(g, s, x, y) == t
    decreases t - y
  {
    if y < t {
      LandingRowUnique(g, s, x, y + 1, t);
    }
  }

  /** Hard drop from a free placement: column kept, lands on the floor, reports success. */
  lemma HardDropLands(g: Grid, p: Placement)
    requires p.rotator.Ready() && !Intersects(g, p.rotator.CurrentShape(), p.offset.x, p.offset.y)
    ensures var r := Move(g, p, MoveEvent(Space, Thread));
      var s := p.rotator.CurrentShape();
      r.movable && r.after.rotator == p.rotator && r.after.offset.x == p.offset.x &&
      p.offset.y <= r.after.offset.y &&
      !Intersects(g, s, p.offset.x, r.after.offset.y) && Intersects(g, s, p.offset.x, r.after.offset.y + 1)
  {
    LandingRowIsFloor(g, p.rotator.CurrentShape(), p.offset.x, p.offset.y);
  }

  /** A second hard drop does not move the brick. */
  lemma HardDropIdempotent(g: Grid, p: Placement)
    requires p.rotator.Ready() && !Intersects(g, p.rotator.CurrentShape(), p.offset.x, p.offset.y)
    ensures var once := Move(g, p, MoveEvent(Space, Thread)).after;
      Move(g, once, MoveEvent(Space, Thread)).after == once
  {
    var s, x, y := p.rotator.CurrentShape(), p.offset.x, p.offset.y;
    LandingRowIsFloor(g, s, x, y);
    var t := LandingRow(g, s, x, y);
    LandingRowUnique(g, s, x, t, t);
  }

  /** A hard drop from a conflicting placement lifts the brick one row. */
  lemma HardDropFromConflict(g: Grid, p: Placement)
    requires p.rotator.Ready() && Intersects(g, p.rotator.CurrentShape(), p.offset.x, p.offset.y)
    ensures Move(g, p, MoveEvent(Space, Thread)) == Step(true, p.(offset := Point(p.offset.x, p.offset.y - 1)))
  {
  }

  /** DOWN moves one row down exactly when that row is free, and reports whether it moved. */
  lemma DownOutcome(g: Grid, p: Placement)
    requires p.rotator.Ready()
    ensures var r := Move(g, p, MoveEvent(Down, Thread));
      var free := !Intersects(g, p.rotator.CurrentShape(), p.offset.x, p.offset.y + 1);
      r.movable == free &&
      r.after == if free then p.(offset := Point(p.offset.x, p.offset.y + 1)) else p
  {
  }

  /**
   * LEFT and RIGHT shift one column when the target is free and otherwise
   * leave the brick; either way they report success.
   */
  lemma SideOutcome(g: Grid, p: Placement, dx: int, e: MoveEvent)
    requires p.rotator.Ready()
    requires (e == MoveEvent(Left, Thread) && dx == -1) || (e == MoveEvent(Right, Thread) && dx == 1)
    ensures var r := Move(g, p, e);
      var free := !Intersects(g, p.rotator.CurrentShape(), p.offset.x + dx, p.offset.y);
      r.movable &&
      r.after == if free then p.(offset := Point(p.offset.x + dx, p.offset.y)) else p
  {
  }

  /** From a free placement, LEFT then RIGHT (or RIGHT then LEFT) that both move return the brick where it was. */
  lemma SideMovesUndo(g: Grid, p: Placement, first: EventType, second: EventType)
    requires p.rotator.Ready() && !Intersects(g, p.rotator.CurrentShape(), p.offset.x, p.offset.y)
    requires (first == Left && second == Right) || (first == Right && second == Left)
    requires Move(g, p, MoveEvent(first, Thread)).after != p
    ensures Move(g, Move(g, p, MoveEvent(first, Thread)).after, MoveEvent(second, Thread)).after == p
  {
  }

  /** Z never moves the brick, always reports success, and turns it only when the next state fits. */
  lemma RotateOutcome(g: Grid, p: Placement)
    requires p.rotator.Ready()
    ensures var r := Move(g, p, MoveEvent(Z, Thread));
      var fits := !Intersects(g, p.rotator.NextShape(), p.offset.x, p.offset.y);
      r.movable && r.after.offset == p.offset &&
      r.after.rotator == if fits then p.rotator.(index := p.rotator.NextShapeIndex()) else p.rotator
  {
  }

  /** UP is inert: the brick stays and the move reports success. */
  lemma UpOutcome(g: Grid, p: Placement)
    requires p.rotator.Ready()
    ensures Move(g, p, MoveEvent(Up, Thread)) == Step(true, p)
  {
  }

  /** Events from any source but the game loop change nothing and report whether the brick conflicts where it is. */
  lemma OtherSourceOutcome(g: Grid, p: Placement, e: MoveEvent)
    requires p.rotator.Ready() && e.eventSource != Thread
    ensures Move(g, p, e) == Step(Intersects(g, p.rotator.CurrentShape(), p.offset.x, p.offset.y), p)
  {
  }

  /** Only a blocked DOWN from the game loop, or a free brick under another source, asks for a lock. */
  lemma LockCondition(g: Grid, p: Placement, e: MoveEvent)
    requires p.rotator.Ready()
    ensures !Move(g, p, e).movable <==>
      (e == MoveEvent(Down, Thread) && Intersects(g, p.rotator.CurrentShape(), p.offset.x, p.offset.y + 1)) ||
      (e.eventSource != Thread && !Intersects(g, p.rotator.CurrentShape(), p.offset.x, p.offset.y))
  {
  }
}
