/** Min-max rescaling of a raw score onto 0..100, clamped at both ends. */
module ScoreNormalizer {
  import opened Seqs

  /** `baseScore` plus every positive weight: the best raw score possible. */
  function MaxPossibleScore(baseScore: real, positiveWeights: seq<real>): real
  {
    baseScore + Sum(positiveWeights)
  }

  /** `baseScore` plus every negative weight: the worst raw score possible. */
  function MinPossibleScore(baseScore: real, negativeWeights: seq<real>): real
  {
    baseScore + Sum(negativeWeights)
  }

  /** `Math.max(0, Math.min(100, x))` */
  function Bound(x: real): (b: real)
    ensures 0.0 <= b <= 100.0
    ensures 0.0 <= x <= 100.0 ==> b == x
    ensures x < 0.0 ==> b == 0.0
    ensures x > 100.0 ==> b == 100.0
  {
    var capped := if x < 100.0 then x else 100.0;
    if 0.0 > capped then 0.0 else capped
  }

  /** `(raw - min) / (max - min) * 100` before clamping. */
  function Rescaled(rawScore: real, minScore: real, maxScore: real): real
    requires maxScore != minScore
  {
    (rawScore - minScore) / (maxScore - minScore) * 100.0
  }

  /**
   * `normalize`. The source divides by `max - min` unguarded; a zero range (which in
   * JavaScript yields NaN or an infinity) is excluded by the precondition.
   */
  function Normalize(rawScore: real, baseScore: real, positiveWeights: seq<real>, negativeWeights: seq<real>): (n: real)
    requires MaxPossibleScore(baseScore, positiveWeights) != MinPossibleScore(baseScore, negativeWeights)
    ensures 0.0 <= n <= 100.0
  {
    var maxScore := MaxPossibleScore(baseScore, positiveWeights);
    var minScore := MinPossibleScore(baseScore, negativeWeights);
    Bound(Rescaled(rawScore, minScore, maxScore))
  }

  // ---------------------------------------------------------------- properties

  /** Dividing by a positive number keeps the order. */
  lemma DivideMonotone(a: real, b: real, c: real)
    requires a <= b && c > 0.0
    ensures a / c <= b / c
  {
    assert b / c - a / c == (b - a) / c;
  }

  /** Inside the range the rescaled score already lies in 0..100. */
  lemma RescaledWithin(rawScore: real, minScore: real, maxScore: real)
    requires minScore < maxScore && minScore <= rawScore <= maxScore
    ensures 0.0 <= Rescaled(rawScore, minScore, maxScore) <= 100.0
  {
    var range := maxScore - minScore;
    DivideMonotone(0.0, rawScore - minScore, range);
    DivideMonotone(rawScore - minScore, range, range);
    assert range / range == 1.0;
  }

  /** For a raw score between the extremes, the clamp changes nothing. */
  lemma ClampInactive(rawScore: real, baseScore: real, positiveWeights: seq<real>, negativeWeights: seq<real>)
    requires MinPossibleScore(baseScore, negativeWeights) < MaxPossibleScore(baseScore, positiveWeights)
    requires MinPossibleScore(baseScore, negativeWeights) <= rawScore <= MaxPossibleScore(baseScore, positiveWeights)
    ensures Normalize(rawScore, baseScore, positiveWeights, negativeWeights)
         == Rescaled(rawScore, MinPossibleScore(baseScore, negativeWeights), MaxPossibleScore(baseScore, positiveWeights))
  {
    RescaledWithin(rawScore, MinPossibleScore(baseScore, negativeWeights), MaxPossibleScore(baseScore, positiveWeights));
  }

  /** The best raw score maps to 100 and the worst to 0. */
  lemma Endpoints(baseScore: real, positiveWeights: seq<real>, negativeWeights: seq<real>)
    requires MinPossibleScore(baseScore, negativeWeights) < MaxPossibleScore(baseScore, positiveWeights)
    ensures Normalize(MaxPossibleScore(baseScore, positiveWeights), baseScore, positiveWeights, negativeWeights) == 100.0
    ensures Normalize(MinPossibleScore(baseScore, negativeWeights), baseScore, positiveWeights, negativeWeights) == 0.0
  {
    var maxScore := MaxPossibleScore(baseScore, positiveWeights);
    var minScore := MinPossibleScore(baseScore, negativeWeights);
    assert (maxScore - minScore) / (maxScore - minScore) == 1.0;
    assert Rescaled(minScore, minScore, maxScore) == 0.0;
  }

  /** A higher raw score never normalizes lower. */
  lemma Monotone(raw1: real, raw2: real, baseScore: real, positiveWeights: seq<real>, negativeWeights: seq<real>)
    requires MinPossibleScore(baseScore, negativeWeights) < MaxPossibleScore(baseScore, positiveWeights)
    requires raw1 <= raw2
    ensures Normalize(raw1, baseScore, positiveWeights, negativeWeights)
         <= Normalize(raw2, baseScore, positiveWeights, negativeWeights)
  {
    var maxScore := MaxPossibleScore(baseScore, positiveWeights);
    var minScore := MinPossibleScore(baseScore, negativeWeights);
    DivideMonotone(raw1 - minScore, raw2 - minScore, maxScore - minScore);
    assert Rescaled(raw1, minScore, maxScore) <= Rescaled(raw2, minScore, maxScore);
  }
}
