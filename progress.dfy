/**
 * Goal progress as a percentage (main.js `calculateProgress`), over exact
 * reals rather than IEEE doubles.
 */
module Progress {

  /**
   * No goal (zero or negative) gives 0. Otherwise the share of the goal
   * reached, in percent, capped at 100: exactly 100 once the goal is met,
   * and elapsed/goal scaled by 100 before that.
   */
  function CalculateProgress(elapsed: real, goal: real): (r: real)
    ensures goal <= 0.0 ==> r == 0.0
    ensures goal > 0.0 ==> r <= 100.0
    ensures goal > 0.0 && elapsed >= 0.0 ==> r >= 0.0
    ensures goal > 0.0 && elapsed >= goal ==> r == 100.0
    ensures goal > 0.0 && elapsed < goal ==> r * goal == elapsed * 100.0
  {
    if goal <= 0.0 then 0.0
    else
      var progress := elapsed / goal * 100.0;
      assert progress * goal == elapsed * 100.0;
      assert progress < 100.0 <==> elapsed < goal;
      if progress < 100.0 then progress else 100.0
  }

  /** More elapsed time never shows less progress towards the same goal. */
  lemma ProgressMonotone(e1: real, e2: real, goal: real)
    requires e1 <= e2
    ensures CalculateProgress(e1, goal) <= CalculateProgress(e2, goal)
  {
    if goal > 0.0 && e2 < goal {
      var p1, p2 := CalculateProgress(e1, goal), CalculateProgress(e2, goal);
      assert p1 * goal <= p2 * goal;
    }
  }
}
