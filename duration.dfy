/**
 * The duration estimator of the workout generator and the rounding that
 * turns its seconds into the reported minutes.
 */
module Duration {
  import opened Catalog

  /** Warm-up and stretching, five minutes. */
  const WarmUpSeconds := 5 * 60
  /** Rest after every exercise, in every round. */
  const RestBetweenExercisesSeconds := 30
  /** Rest between two rounds, a minute and a half. */
  const RestBetweenRoundsSeconds := 90

  /** The sum of the base durations of a list of exercises. */
  function SumDurations(exercises: seq<Exercise>): int
  {
    if exercises == [] then 0
    else SumDurations(exercises[..|exercises| - 1]) + exercises[|exercises| - 1].duration
  }

  /**
   * The closed form of the estimate:
   * `300 + rounds * sum(d + 30) + 90 * (rounds - 1)`.
   */
  function WorkoutSeconds(exercises: seq<Exercise>, rounds: int): int
  {
    WarmUpSeconds + rounds * (SumDurations(exercises) + RestBetweenExercisesSeconds * |exercises|)
      + RestBetweenRoundsSeconds * (rounds - 1)
  }

  /** `calculate_workout_duration`: the accumulating loop computes the closed form. */
  method CalculateWorkoutDuration(exercises: seq<Exercise>, rounds: int) returns (total: int)
    ensures total == WorkoutSeconds(exercises, rounds)
  {
    total := 5 * 60;
    for i := 0 to |exercises|
      invariant total == WarmUpSeconds + rounds * (SumDurations(exercises[..i]) + RestBetweenExercisesSeconds * i)
    {
      assert exercises[..i + 1][..i] == exercises[..i];
      ghost var before := SumDurations(exercises[..i]);
      assert SumDurations(exercises[..i + 1]) == before + exercises[i].duration;
      assert rounds * (before + exercises[i].duration + 30 * (i + 1))
          == rounds * (before + 30 * i) + (exercises[i].duration + 30) * rounds;
      total := total + (exercises[i].duration + 30) * rounds;
    }
    assert exercises[..|exercises|] == exercises;
    total := total + 90 * (rounds - 1);
  }

  /** The two worked examples: an empty list in one round, and one 30-second exercise in two rounds. */
  lemma WorkoutSecondsExamples(e: Exercise)
    requires e.duration == 30
    ensures WorkoutSeconds([], 1) == 300
    ensures WorkoutSeconds([e], 2) == 510
  {
    assert [e][..0] == [];
  }

  /** Each extra round adds one pass over the exercises plus one rest between rounds. */
  lemma {:induction false} ExtraRoundCost(exercises: seq<Exercise>, rounds: int)
    ensures WorkoutSeconds(exercises, rounds + 1) - WorkoutSeconds(exercises, rounds)
         == SumDurations(exercises) + RestBetweenExercisesSeconds * |exercises| + RestBetweenRoundsSeconds
  {
    var per := SumDurations(exercises) + RestBetweenExercisesSeconds * |exercises|;
    assert (rounds + 1) * per == rounds * per + per;
  }

  /**
   * Python's `round(seconds / 60)` for integer seconds: the nearest whole
   * number of minutes, halves going to the even neighbour. For integer
   * seconds the float quotient is exact enough that this agrees with the
   * float computation.
   */
  function RoundHalfEven(seconds: int): (minutes: int)
    ensures -30 <= seconds - 60 * minutes <= 30
    ensures seconds - 60 * minutes == 30 || seconds - 60 * minutes == -30 ==> minutes % 2 == 0
  {
    var q, rem := seconds / 60, seconds % 60;
    if rem < 30 then q
    else if rem > 30 then q + 1
    else if q % 2 == 0 then q
    else q + 1
  }

  /** Nearest-with-ties-to-even determines the result: no other number of minutes meets both conditions. */
  lemma RoundHalfEvenUnique(seconds: int, minutes: int)
    requires -30 <= seconds - 60 * minutes <= 30
    requires seconds - 60 * minutes == 30 || seconds - 60 * minutes == -30 ==> minutes % 2 == 0
    ensures minutes == RoundHalfEven(seconds)
  {
  }
}
