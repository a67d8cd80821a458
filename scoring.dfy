/**
 * Scoring: the score counter and the score manager that collects the points
 * of a lock (a flat amount per brick plus a bonus per cleared line that grows
 * every ten lines) and pays them into the score in one go.
 */
module Scoring {
  import opened View

  /**
   * The player's score.  The `Score` class is not part of this model; it is
   * taken to be an integer counter with `add` and `reset`.
   */
  class Score {
    var value: int

    constructor()
      ensures value == 0
    {
      value := 0;
    }

    method Add(n: int)
      modifies this
      ensures value == old(value) + n
    {
      value := value + n;
    }

    method Reset()
      modifies this
      ensures value == 0
    {
      value := 0;
    }
  }

  /** Lines to clear before the per-line bonus grows again. */
  const LinesToBonus := 10
  /** How much the per-line bonus grows each time. */
  const BonusIncrement := 40
  /** Points per unit passed to `AddBrickScore`. */
  const PointsPerBrickUnit := 10

  /** The per-line bonus in force once `lines` lines have been cleared: 40 per started block of ten. */
  function CurrentBonus(lines: nat): nat
  {
    BonusIncrement * ((lines + LinesToBonus - 1) / LinesToBonus)
  }

  /** What the `k`-th line cleared (counting from 1) is worth: 40 for lines 1-10, 80 for 11-20, and so on. */
  function LineValue(k: nat): nat
    requires k >= 1
  {
    BonusIncrement * ((k - 1) / LinesToBonus + 1)
  }

  /** Points for clearing `n` more lines once `done` lines have been cleared. */
  function LinePoints(done: nat, n: nat): nat
    decreases n
  {
    if n == 0 then 0 else LineValue(done + 1) + LinePoints(done + 1, n - 1)
  }

  /**
   * The bonus grows by 40 exactly when the count of lines already cleared is a
   * multiple of ten, and the grown bonus is what the next line is worth.
   */
  lemma BonusStep(lines: nat)
    ensures CurrentBonus(lines + 1) == CurrentBonus(lines) + (if lines % LinesToBonus == 0 then BonusIncrement else 0)
    ensures CurrentBonus(lines + 1) == LineValue(lines + 1)
  {
    var q, m := lines / 10, lines % 10;
    assert lines == 10 * q + m;
    if m == 0 {
      assert (lines + 9) / 10 == q;
      assert (lines + 10) / 10 == q + 1;
    } else {
      assert (lines + 9) / 10 == q + 1;
      assert (lines + 10) / 10 == q + 1;
    }
  }

  /** Clearing `m` lines and then `n` more scores the same as clearing `m + n` at once. */
  lemma {:induction false} LinePointsSplit(done: nat, m: nat, n: nat)
    ensures LinePoints(done, m + n) == LinePoints(done, m) + LinePoints(done + m, n)
    decreases m
  {
    if m > 0 {
      LinePointsSplit(done + 1, m - 1, n);
    }
  }

  /** Every line is worth at least the base 40, so `n` lines bring at least `40 * n`. */
  lemma {:induction false} LinePointsAtLeast(done: nat, n: nat)
    ensures LinePoints(done, n) >= BonusIncrement * n
    decreases n
  {
    if n > 0 {
      LinePointsAtLeast(done + 1, n - 1);
    }
  }

  /** The last `j` lines of block `t` (lines 10t+1 to 10t+10) are worth `40 * (t + 1)` each. */
  lemma {:induction false} LinePointsInBlock(t: nat, j: nat, v: nat)
    requires j <= LinesToBonus && v == BonusIncrement * (t + 1)
    ensures LinePoints(LinesToBonus * t + LinesToBonus - j, j) == v * j
    decreases j
  {
    if j > 0 {
      var done := 10 * t + 10 - j;
      assert 10 * t <= done < 10 * t + 10;
      assert done / 10 == t;
      assert LineValue(done + 1) == v;
      LinePointsInBlock(t, j - 1, v);
      assert v * j == v + v * (j - 1);
    }
  }

  /** Each block of ten lines is worth 40 more per line than the one before: 400, 800, 1200, ... */
  lemma LinePointsPerBlock(t: nat)
    ensures LinePoints(LinesToBonus * t, LinesToBonus) == BonusIncrement * LinesToBonus * (t + 1)
    ensures LinePoints(0, 1) == 40 && LinePoints(0, 10) == 400 && LinePoints(10, 10) == 800
  {
    LinePointsInBlock(t, 10, BonusIncrement * (t + 1));
    LinePointsInBlock(0, 10, 40);
    LinePointsInBlock(1, 10, 80);
  }

  class ScoreManager {
    const viewGuiController: GuiLog
    const score: Score
    /** Lines cleared since construction or the last reset. */
    var linesCleared: nat
    const linesToBonus: int
    const bonusIncrement: int
    /** What the next line is worth once the escalation check has run. */
    var currentBonus: int
    /** Points collected and not yet paid into the score. */
    var pointsToAdd: int

    /** The bonus always matches the lines cleared, with threshold 10 and increment 40. */
    ghost predicate Valid()
      reads this
    {
      linesToBonus == LinesToBonus && bonusIncrement == BonusIncrement &&
      currentBonus == CurrentBonus(linesCleared)
    }

    constructor(c: GuiLog, s: Score)
      ensures Valid()
      ensures viewGuiController == c && score == s
      ensures linesCleared == 0 && currentBonus == 0 && pointsToAdd == 0
    {
      viewGuiController := c;
      score := s;
      linesCleared := 0;
      linesToBonus := LinesToBonus;
      bonusIncrement := BonusIncrement;
      currentBonus := 0;
      pointsToAdd := 0;
    }

    /** Adds 10 points per unit; 0 units is a no-op. */
    method AddBrickScore(n: int)
      requires Valid()
      modifies this
      ensures Valid()
      ensures pointsToAdd == old(pointsToAdd) + PointsPerBrickUnit * n
      ensures linesCleared == old(linesCleared) && currentBonus == old(currentBonus)
    {
      if n == 0 {
        return;
      }
      var points := n * PointsPerBrickUnit;
      pointsToAdd := pointsToAdd + points;
    }

    /**
     * Scores `n` cleared lines one by one: before each line the bonus grows
     * if the lines cleared so far are a multiple of ten, then the line is
     * worth the bonus.  `n <= 0` changes nothing.
     */
    method AddLinesCleared(n: int)
      requires Valid()
      modifies this
      ensures Valid()
      ensures linesCleared == old(linesCleared) + (if n > 0 then n else 0)
      ensures pointsToAdd == old(pointsToAdd) + LinePoints(old(linesCleared), if n > 0 then n else 0)
    {
      if n == 0 {
        return;
      }
      var i := 0;
      while i < n
        invariant 0 <= i <= (if n > 0 then n else 0)
        invariant Valid()
        invariant linesCleared == old(linesCleared) + i
        invariant pointsToAdd == old(pointsToAdd) + LinePoints(old(linesCleared), i)
      {
        BonusStep(linesCleared);
        LinePointsSplit(old(linesCleared), i, 1);
        if linesCleared % linesToBonus == 0 {
          currentBonus := currentBonus + bonusIncrement;
        }
        i := i + 1;
        pointsToAdd := pointsToAdd + currentBonus;
        linesCleared := linesCleared + 1;
      }
    }

    /** Shows the collected points, pays them into the score and starts collecting afresh. */
    method ScorePoints()
      modifies this, score, viewGuiController
      ensures viewGuiController.log == old(viewGuiController.log) + [ShowScore(old(pointsToAdd))]
      ensures score.value == old(score.value) + old(pointsToAdd)
      ensures pointsToAdd == 0
      ensures linesCleared == old(linesCleared) && currentBonus == old(currentBonus)
    {
      viewGuiController.Notify(ShowScore(pointsToAdd));
      score.Add(pointsToAdd);
      pointsToAdd := 0;
    }

    /** Restarts the line count and the bonus; collected points and the score stay. */
    method Reset()
      requires Valid()
      modifies this
      ensures Valid()
      ensures linesCleared == 0 && currentBonus == 0
      ensures pointsToAdd == old(pointsToAdd)
    {
      linesCleared := 0;
      currentBonus := 0;
    }
  }
}
