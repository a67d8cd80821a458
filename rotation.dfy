/**
 * The brick rotator: the active brick's rotation states and a cursor on the
 * current one.  The rotator's source is not part of this model; its meaning
 * here is assumed: the next state is the one at `(index + 1) mod count`.
 */
module Rotation {
  import opened Matrix
  import opened Bricks

  datatype Rotator = Rotator(shapes: Brick, index: nat)
  {
    /** A brick is installed and the cursor points into it. */
    predicate Ready()
    {
      WellFormedBrick(shapes) && index < |shapes|
    }

    function CurrentShape(): (s: Shape)
      requires Ready()
      ensures HasCell(s)
    {
      shapes[index]
    }

    function NextShapeIndex(): (k: nat)
      requires Ready()
      ensures k < |shapes|
      ensures k == if index + 1 == |shapes| then 0 else index + 1
    {
      (index + 1) % |shapes|
    }

    function NextShape(): (s: Shape)
      requires Ready()
      ensures HasCell(s)
    {
      shapes[NextShapeIndex()]
    }

    /** The rotator after `k` committed rotations. */
    function Advance(k: nat): (r: Rotator)
      requires Ready()
      ensures r.Ready() && r.shapes == shapes
      decreases k
    {
      if k == 0 then this else this.(index := NextShapeIndex()).Advance(k - 1)
    }
  }

  /** Installing a brick puts the cursor on its first state. */
  function SetBrick(b: Brick): (r: Rotator)
    requires WellFormedBrick(b)
    ensures r.Ready() && r.CurrentShape() == b[0]
  {
    Rotator(b, 0)
  }

  /** Rotations compose: `a` rotations followed by `b` more are `a + b` rotations. */
  lemma {:induction false} AdvanceSplit(r: Rotator, a: nat, b: nat)
    requires r.Ready()
    ensures r.Advance(a + b) == r.Advance(a).Advance(b)
    decreases a
  {
    if a > 0 {
      AdvanceSplit(r.(index := r.NextShapeIndex()), a - 1, b);
    }
  }

  /** Before the cursor wraps, `k` rotations move it exactly `k` places. */
  lemma {:induction false} AdvanceWithinCycle(r: Rotator, k: nat)
    requires r.Ready() && r.index + k < |r.shapes|
    ensures r.Advance(k).index == r.index + k
    decreases k
  {
    if k > 0 {
      AdvanceWithinCycle(r.(index := r.NextShapeIndex()), k - 1);
    }
  }

  /** Rotating as many times as the brick has states brings back the state in use. */
  lemma FullTurn(r: Rotator)
    requires r.Ready()
    ensures r.Advance(|r.shapes|) == r
  {
    var n, i := |r.shapes|, r.index;
    AdvanceSplit(r, n - 1 - i, 1 + i);
    AdvanceWithinCycle(r, n - 1 - i);
    var last := r.Advance(n - 1 - i);
    AdvanceSplit(last, 1, i);
    var first := last.Advance(1);
    assert first.index == 0;
    AdvanceWithinCycle(first, i);
  }
}
