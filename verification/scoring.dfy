/**
 * The high score of Game::calculateHighScore: a fold over the recorded wave counts whose
 * accumulator starts at 0.
 */
module Scoring {

  /**
   * The fold, one score at a time from the first. Because the accumulator starts at 0 the
   * result is never negative: it is the largest score, or 0 when every score is negative
   * (a run can end with wavesDefeated still at its initial -1).
   */
  function HighestScore(scores: seq<int>): (m: int)
    ensures m >= 0
    ensures forall i | 0 <= i < |scores| :: scores[i] <= m
    ensures m == 0 || m in scores
  {
    if scores == [] then 0
    else
      var highest := HighestScore(scores[..|scores| - 1]);
      var score := scores[|scores| - 1];
      if highest > score then highest else score
  }

  function Max(a: int, b: int): int { if a < b then b else a }

  /** Recording one more score raises the high score to it if it is larger. */
  lemma HighestScoreAppend(scores: seq<int>, score: int)
    ensures HighestScore(scores + [score]) == Max(HighestScore(scores), score)
  {
    assert (scores + [score])[..|scores|] == scores;
  }

  /** When some score is not negative, the high score is exactly the maximum of the scores. */
  lemma HighestScoreIsMaximum(scores: seq<int>, i: int)
    requires 0 <= i < |scores| && scores[i] >= 0
    ensures HighestScore(scores) in scores
    ensures forall k | 0 <= k < |scores| :: scores[k] <= HighestScore(scores)
  {
  }
}
