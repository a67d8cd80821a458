/** Plain values exchanged between the engine and its callers. */
module Data {
  import opened Matrix

  /** A brick offset: column `x`, row `y` of the shape's top-left corner. */
  datatype Point = Point(x: int, y: int)

  /** The snapshot handed to the view after every event. */
  datatype ViewData = ViewData(brickData: Shape, xPosition: int, yPosition: int, nextBrickData: Shape)

  /** The kinds of move event the board resolves. */
  datatype EventType = Down | Left | Right | Up | Space | Z

  /** Who raised the event: the game loop (`Thread`) or the player (`User`). */
  datatype EventSource = User | Thread

  datatype MoveEvent = MoveEvent(eventType: EventType, eventSource: EventSource)
}
