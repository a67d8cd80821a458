/**
 * The view the engine pushes state to.  Only the calls the engine makes are
 * kept, as a log of notices in call order; drawing them is not modelled.
 */
module View {
  import opened Matrix
  import opened Data

  datatype Notice =
    | InitGameView(board: Grid, view: ViewData)
    | ShowScore(points: int)
    | RefreshGameBackground(board: Grid)
    | GameOver

  class GuiLog {
    /** Every notice received so far, oldest first. */
    var log: seq<Notice>

    constructor()
      ensures log == []
    {
      log := [];
    }

    method Notify(n: Notice)
      modifies this
      ensures log == old(log) + [n]
    {
      log := log + [n];
    }
  }
}
