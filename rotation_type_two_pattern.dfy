/**
 * The second scaffold rotation pattern: a consumer that scores the summed
 * angle change of the last placements. The module installs the scoring
 * consumer when it is enabled and a consumer that always answers 0 when it
 * is disabled.
 */
module RotationTypeTwoPattern {

  /** The angle-change sum above which the rotation is suspicious. */
  const ANGLE_CHANGE_SUM_THRESHOLD: real := 7.0

  /** The score of a suspicious rotation. */
  const SUSPICIOUS_SCORE: int := 2

  /** The consumer `enable` installs: 2 for an angle sum above the threshold, 0 otherwise. */
  function Score(angleInformation: real): (score: int)
    ensures score == 0 || score == SUSPICIOUS_SCORE
    ensures score == SUSPICIOUS_SCORE <==> angleInformation > ANGLE_CHANGE_SUM_THRESHOLD
  {
    if angleInformation > ANGLE_CHANGE_SUM_THRESHOLD then SUSPICIOUS_SCORE else 0
  }

  /** The consumer installed initially and by `disable`. */
  function NoScore(angleInformation: real): (score: int)
    ensures score == 0
    ensures score <= Score(angleInformation)
  {
    0
  }

  /** The score is 2 exactly above the threshold and 0 otherwise, so it is always 0 or 2. */
  lemma ScoreIsThreshold(angleInformation: real)
    ensures Score(angleInformation) == 2 <==> angleInformation > 7.0
    ensures Score(angleInformation) == 0 <==> angleInformation <= 7.0
    ensures Score(angleInformation) in {0, 2}
  {
  }

  /** The threshold itself is not suspicious. */
  lemma ThresholdIsNotSuspicious()
    ensures Score(7.0) == 0
    ensures Score(7.000001) == 2
  {
  }

  /** A larger angle sum never scores less. */
  lemma ScoreMonotone(a: real, b: real)
    requires a <= b
    ensures Score(a) <= Score(b)
  {
  }

  /** The pattern module and the consumer it currently exposes through `getApplyingConsumer`. */
  class RotationTypeTwo {
    var applyingConsumer: real -> int

    /** Every value the installed consumer can answer is 0 or 2. */
    ghost predicate Valid()
      reads this
    {
      forall a :: applyingConsumer(a) == 0 || applyingConsumer(a) == SUSPICIOUS_SCORE
    }

    /** The consumer answers 0 for every angle. */
    ghost predicate ScoresNothing()
      reads this
    {
      forall a :: applyingConsumer(a) == 0
    }

    /** The consumer answers `Score` for every angle. */
    ghost predicate ScoresByThreshold()
      reads this
    {
      forall a :: applyingConsumer(a) == Score(a)
    }

    /** Before `enable` the consumer scores nothing. */
    constructor ()
      ensures ScoresNothing() && Valid()
    {
      applyingConsumer := NoScore;
    }

    /** `enable`: installs the threshold consumer, whatever was installed before. */
    method Enable()
      modifies this
      ensures ScoresByThreshold() && Valid()
      ensures forall a :: applyingConsumer(a) == 2 <==> a > ANGLE_CHANGE_SUM_THRESHOLD
    {
      applyingConsumer := Score;
      forall a
        ensures applyingConsumer(a) == 0 || applyingConsumer(a) == SUSPICIOUS_SCORE
      {
        ScoreIsThreshold(a);
      }
    }

    /** `disable`: installs the consumer that scores nothing, whatever was installed before. */
    method Disable()
      modifies this
      ensures ScoresNothing() && Valid()
    {
      applyingConsumer := NoScore;
    }

    /** `getApplyingConsumer().applyAsInt(user, angle)`: the score of the installed consumer. */
    method Apply(angleInformation: real) returns (score: int)
      requires Valid()
      ensures score == applyingConsumer(angleInformation)
      ensures score == 0 || score == SUSPICIOUS_SCORE
      ensures ScoresNothing() ==> score == 0
      ensures ScoresByThreshold() ==> (score == SUSPICIOUS_SCORE <==> angleInformation > ANGLE_CHANGE_SUM_THRESHOLD)
    {
      score := applyingConsumer(angleInformation);
    }
  }
}
