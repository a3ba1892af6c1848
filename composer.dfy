/**
 * `generate_workout`: de-duplicate and filter the catalogue, then try every
 * exercise count from 3 to min(10, |pool|) (outer loop) and every round count
 * from 1 to 4 (inner loop), draw a random sample of that many exercises for
 * each pair, and keep the first candidate whose estimated duration is closest
 * to the target. An exact hit ends the inner loop only.
 */
module Composer {
  import opened Catalog
  import opened Duration
  import opened CatalogueFilters

  const MinExercises := 3
  const MaxExercises := 10
  const MinRounds := 1
  const MaxRounds := 4

  datatype ComposeError =
    /** The catalogue is empty (the `ValueError` raised before anything else). */
    | NoExercisesAvailable
    /** Fewer than three exercises survive: no pair is tried, `best_config` stays `None` and unpacking it fails. */
    | NoConfiguration

  /** The dictionary `generate_workout` returns. */
  datatype Workout = Workout(exercises: seq<Exercise>, rounds: int, estimatedDurationMinutes: int)

  /** One scored (sample, rounds) pair, `(selected, num_rounds, total_seconds)`. */
  datatype Candidate = Candidate(exercises: seq<Exercise>, rounds: int, seconds: int)

  function Abs(x: int): (a: int)
    ensures a >= 0 && (a == x || a == -x)
  {
    if x < 0 then -x else x
  }

  function Min(a: int, b: int): int
  {
    if a < b then a else b
  }

  /** A candidate's score: how far its estimate is from the target. */
  function Diff(c: Candidate, targetSeconds: int): int
  {
    Abs(c.seconds - targetSeconds)
  }

  /**
   * What `random.sample(population, k)` may return, apart from its length:
   * exercises of the population at distinct positions. The population has
   * distinct names, so these are exercises of distinct names.
   */
  predicate IsSample(selected: seq<Exercise>, population: seq<Exercise>)
  {
    (forall x :: x in selected ==> x in population) && DistinctNames(selected)
  }

  function Last(cs: seq<Candidate>): Candidate
    requires cs != []
  {
    cs[|cs| - 1]
  }

  /** The inner loop ends after candidate c: it was the last round count, or it hit the target exactly. */
  predicate EndsInnerLoop(c: Candidate, targetSeconds: int)
  {
    c.rounds == MaxRounds || Diff(c, targetSeconds) == 0
  }

  /** d is the pair the loops try right after c. */
  predicate Follows(c: Candidate, d: Candidate, targetSeconds: int)
  {
    if EndsInnerLoop(c, targetSeconds) then |d.exercises| == |c.exercises| + 1 && d.rounds == MinRounds
    else |d.exercises| == |c.exercises| && d.rounds == c.rounds + 1
  }

  /** Every evaluated candidate is a sample of the pool, scored by the duration estimator. */
  predicate WellScored(evaluated: seq<Candidate>, pool: seq<Exercise>)
  {
    forall i :: 0 <= i < |evaluated| ==>
      IsSample(evaluated[i].exercises, pool) && evaluated[i].seconds == WorkoutSeconds(evaluated[i].exercises, evaluated[i].rounds)
  }

  /**
   * The candidates, in evaluation order, are exactly the pairs the nested
   * loops visit: none when the count range is empty; otherwise starting at
   * (3, 1), each pair followed by the next one, and the last one ending the
   * inner loop for the largest count.
   */
  predicate SearchSchedule(evaluated: seq<Candidate>, maxExercises: int, targetSeconds: int)
  {
    && (evaluated == [] <==> maxExercises < MinExercises)
    && (evaluated != [] ==> |evaluated[0].exercises| == MinExercises && evaluated[0].rounds == MinRounds)
    && (forall i :: 0 <= i < |evaluated| - 1 ==> Follows(evaluated[i], evaluated[i + 1], targetSeconds))
    && (evaluated != [] ==> EndsInnerLoop(Last(evaluated), targetSeconds) && |Last(evaluated).exercises| == maxExercises)
  }

  /** Candidate k scores no worse than any candidate, and strictly better than every earlier one. */
  predicate IsBest(evaluated: seq<Candidate>, k: int, targetSeconds: int)
  {
    && 0 <= k < |evaluated|
    && (forall j :: 0 <= j < |evaluated| ==> Diff(evaluated[k], targetSeconds) <= Diff(evaluated[j], targetSeconds))
    && (forall j :: 0 <= j < k ==> Diff(evaluated[k], targetSeconds) < Diff(evaluated[j], targetSeconds))
  }

  /** The pairs evaluated so far follow one another as the loops visit them, starting at (3, 1). */
  predicate Chain(evaluated: seq<Candidate>, targetSeconds: int)
  {
    && (evaluated != [] ==> |evaluated[0].exercises| == MinExercises && evaluated[0].rounds == MinRounds)
    && (forall i :: 0 <= i < |evaluated| - 1 ==> Follows(evaluated[i], evaluated[i + 1], targetSeconds))
  }

  lemma ChainAppend(evaluated: seq<Candidate>, c: Candidate, targetSeconds: int)
    requires Chain(evaluated, targetSeconds)
    requires evaluated == [] ==> |c.exercises| == MinExercises && c.rounds == MinRounds
    requires evaluated != [] ==> Follows(Last(evaluated), c, targetSeconds)
    ensures Chain(evaluated + [c], targetSeconds)
  {
    var ev := evaluated + [c];
    forall i | 0 <= i < |ev| - 1 ensures Follows(ev[i], ev[i + 1], targetSeconds) {
      if i < |evaluated| - 1 {
        assert ev[i] == evaluated[i] && ev[i + 1] == evaluated[i + 1];
      }
    }
  }

  lemma WellScoredAppend(evaluated: seq<Candidate>, pool: seq<Exercise>, c: Candidate)
    requires WellScored(evaluated, pool)
    requires IsSample(c.exercises, pool) && c.seconds == WorkoutSeconds(c.exercises, c.rounds)
    ensures WellScored(evaluated + [c], pool)
  {
  }

  /** The running best after appending c: c if it scores strictly better, the old best otherwise. */
  lemma {:induction false} BestAppend(evaluated: seq<Candidate>, k: int, c: Candidate, targetSeconds: int)
    requires evaluated == [] || IsBest(evaluated, k, targetSeconds)
    ensures evaluated == [] || Diff(c, targetSeconds) < Diff(evaluated[k], targetSeconds) ==>
      IsBest(evaluated + [c], |evaluated|, targetSeconds)
    ensures evaluated != [] && Diff(c, targetSeconds) >= Diff(evaluated[k], targetSeconds) ==>
      IsBest(evaluated + [c], k, targetSeconds)
  {
    var ev := evaluated + [c];
    assert forall j :: 0 <= j < |evaluated| ==> ev[j] == evaluated[j];
  }

  /** A sample of size n exists: the first n exercises of a pool with distinct names. */
  lemma SampleExists(pool: seq<Exercise>, n: nat)
    requires DistinctNames(pool) && n <= |pool|
    ensures IsSample(pool[..n], pool)
  {
    forall x | x in pool[..n] ensures x in pool {
      var j :| 0 <= j < n && pool[..n][j] == x;
      assert pool[j] == x;
    }
  }

  /**
   * The search of `generate_workout` over the filtered list `exercises`:
   * the nested loops over counts and rounds, `random.sample` as a
   * nondeterministic choice, and the best-so-far candidate as an `Option`
   * (for the `float('inf')` sentinel). The ghost `evaluated` is every
   * candidate scored, in order.
   */
  method SearchBest(exercises: seq<Exercise>, targetSeconds: int)
    returns (best: Option<Candidate>, ghost evaluated: seq<Candidate>)
    requires DistinctNames(exercises)
    ensures WellScored(evaluated, exercises)
    ensures SearchSchedule(evaluated, Min(MaxExercises, |exercises|), targetSeconds)
    ensures best.None? <==> |exercises| < MinExercises
    ensures best.Some? ==> exists k :: IsBest(evaluated, k, targetSeconds) && evaluated[k] == best.value
  {
    var maxExercises := Min(MaxExercises, |exercises|);
    best := None;
    ghost var bestIndex := 0;
    evaluated := [];

    var n := MinExercises;
    while n <= maxExercises
      invariant MinExercises <= n && (maxExercises >= MinExercises ==> n <= maxExercises + 1)
      invariant maxExercises < MinExercises ==> n == MinExercises
      invariant WellScored(evaluated, exercises) && Chain(evaluated, targetSeconds)
      invariant evaluated == [] <==> n == MinExercises
      invariant evaluated != [] ==> EndsInnerLoop(Last(evaluated), targetSeconds) && |Last(evaluated).exercises| == n - 1
      invariant best.None? <==> evaluated == []
      invariant best.Some? ==> IsBest(evaluated, bestIndex, targetSeconds) && evaluated[bestIndex] == best.value
    {
      var r := MinRounds;
      while r <= MaxRounds
        invariant MinRounds <= r <= MaxRounds + 1
        invariant WellScored(evaluated, exercises) && Chain(evaluated, targetSeconds)
        invariant evaluated == [] <==> n == MinExercises && r == MinRounds
        invariant r == MinRounds && evaluated != [] ==>
          EndsInnerLoop(Last(evaluated), targetSeconds) && |Last(evaluated).exercises| == n - 1
        invariant r > MinRounds ==>
          (evaluated != [] && |Last(evaluated).exercises| == n && Last(evaluated).rounds == r - 1
           && Diff(Last(evaluated), targetSeconds) != 0)
        invariant best.None? <==> evaluated == []
        invariant best.Some? ==> IsBest(evaluated, bestIndex, targetSeconds) && evaluated[bestIndex] == best.value
      {
        SampleExists(exercises, n);
        var selected :| |selected| == n && IsSample(selected, exercises);
        var totalSeconds := CalculateWorkoutDuration(selected, r);
        var diff := Abs(totalSeconds - targetSeconds);
        var candidate := Candidate(selected, r, totalSeconds);
        ChainAppend(evaluated, candidate, targetSeconds);
        WellScoredAppend(evaluated, exercises, candidate);
        BestAppend(evaluated, bestIndex, candidate, targetSeconds);
        if best.None? || diff < Diff(best.value, targetSeconds) {
          best := Some(candidate);
          bestIndex := |evaluated|;
        }
        evaluated := evaluated + [candidate];
        if diff == 0 {
          break;
        }
        r := r + 1;
      }
      n := n + 1;
    }
  }

  /**
   * `generate_workout` over an explicit catalogue. The ghost `pool` is the
   * de-duplicated, filtered list and the ghost `evaluated` is every
   * candidate scored, in order.
   */
  method GenerateWorkout(catalog: seq<Exercise>, durationMinutes: int,
                         allowedMuscleGroups: seq<string>, allowedEquipment: seq<string>)
    returns (result: Result<Workout, ComposeError>, ghost pool: seq<Exercise>, ghost evaluated: seq<Candidate>)
    ensures catalog == [] <==> result == Err(NoExercisesAvailable)
    ensures catalog != [] ==> pool == FilteredPool(catalog, allowedMuscleGroups, allowedEquipment)
    ensures catalog != [] ==> WellScored(evaluated, pool)
    ensures catalog != [] ==> SearchSchedule(evaluated, Min(MaxExercises, |pool|), durationMinutes * 60)
    ensures result == Err(NoConfiguration) <==> catalog != [] && |pool| < MinExercises
    ensures result.Ok? ==>
      && MinExercises <= |result.value.exercises| <= Min(MaxExercises, |pool|)
      && MinRounds <= result.value.rounds <= MaxRounds
      && IsSample(result.value.exercises, pool)
      && (forall x :: x in result.value.exercises ==> x in catalog)
      && result.value.estimatedDurationMinutes == RoundHalfEven(WorkoutSeconds(result.value.exercises, result.value.rounds))
    ensures result.Ok? ==> exists k ::
      && IsBest(evaluated, k, durationMinutes * 60)
      && evaluated[k].exercises == result.value.exercises
      && evaluated[k].rounds == result.value.rounds
  {
    evaluated := [];
    if catalog == [] {
      pool := [];
      return Err(NoExercisesAvailable), pool, evaluated;
    }
    var exercises := Deduplicate(catalog);
    exercises := FilterByMuscleGroups(exercises, allowedMuscleGroups);
    exercises := FilterByEquipment(exercises, allowedEquipment);
    pool := exercises;
    FilteredPoolProperties(catalog, allowedMuscleGroups, allowedEquipment);

    var targetSeconds := durationMinutes * 60;
    var best;
    best, evaluated := SearchBest(exercises, targetSeconds);
    if best.None? {
      return Err(NoConfiguration), pool, evaluated;
    }
    var workoutExercises, rounds, totalSeconds := best.value.exercises, best.value.rounds, best.value.seconds;
    var estimatedDurationMinutes := RoundHalfEven(totalSeconds);
    result := Ok(Workout(workoutExercises, rounds, estimatedDurationMinutes));
    ScheduleBounds(evaluated, Min(MaxExercises, |pool|), targetSeconds);
    ghost var k :| IsBest(evaluated, k, targetSeconds) && evaluated[k] == best.value;
    assert IsSample(evaluated[k].exercises, pool);
  }

  // ---------------------------------------------------------------------------
  // Properties of the search schedule

  lemma {:induction false} ScheduleLowerBounds(evaluated: seq<Candidate>, maxExercises: int, targetSeconds: int, i: int)
    requires SearchSchedule(evaluated, maxExercises, targetSeconds)
    requires 0 <= i < |evaluated|
    ensures MinExercises <= |evaluated[i].exercises|
    ensures MinRounds <= evaluated[i].rounds <= MaxRounds
    decreases i
  {
    if i > 0 {
      ScheduleLowerBounds(evaluated, maxExercises, targetSeconds, i - 1);
      assert Follows(evaluated[i - 1], evaluated[i], targetSeconds);
    }
  }

  lemma {:induction false} ScheduleUpperBound(evaluated: seq<Candidate>, maxExercises: int, targetSeconds: int, i: int)
    requires SearchSchedule(evaluated, maxExercises, targetSeconds)
    requires 0 <= i < |evaluated|
    ensures |evaluated[i].exercises| <= maxExercises
    decreases |evaluated| - i
  {
    if i < |evaluated| - 1 {
      ScheduleUpperBound(evaluated, maxExercises, targetSeconds, i + 1);
      assert Follows(evaluated[i], evaluated[i + 1], targetSeconds);
    }
  }

  /** Every pair the loops try has a count in [3, maxExercises] and a round count in [1, 4]. */
  lemma ScheduleBounds(evaluated: seq<Candidate>, maxExercises: int, targetSeconds: int)
    requires SearchSchedule(evaluated, maxExercises, targetSeconds)
    ensures forall i :: 0 <= i < |evaluated| ==>
      && MinExercises <= |evaluated[i].exercises| <= maxExercises
      && MinRounds <= evaluated[i].rounds <= MaxRounds
  {
    forall i | 0 <= i < |evaluated|
      ensures MinExercises <= |evaluated[i].exercises| <= maxExercises
      ensures MinRounds <= evaluated[i].rounds <= MaxRounds
    {
      ScheduleLowerBounds(evaluated, maxExercises, targetSeconds, i);
      ScheduleUpperBound(evaluated, maxExercises, targetSeconds, i);
    }
  }

  /** From a candidate of count n - 1 the schedule reaches the first candidate of count n. */
  lemma {:induction false} ScheduleReachesNextCount(evaluated: seq<Candidate>, maxExercises: int, targetSeconds: int, n: int, i: int)
    requires SearchSchedule(evaluated, maxExercises, targetSeconds)
    requires n <= maxExercises
    requires 0 <= i < |evaluated| && |evaluated[i].exercises| == n - 1
    ensures exists j :: 0 <= j < |evaluated| && |evaluated[j].exercises| == n && evaluated[j].rounds == MinRounds
    decreases |evaluated| - i
  {
    assert i < |evaluated| - 1;
    assert Follows(evaluated[i], evaluated[i + 1], targetSeconds);
    if |evaluated[i + 1].exercises| == n - 1 {
      ScheduleReachesNextCount(evaluated, maxExercises, targetSeconds, n, i + 1);
    }
  }

  /**
   * An exact hit does not end the search: every exercise count from 3 to
   * maxExercises is tried, starting with one round.
   */
  lemma {:induction false} ScheduleTriesEveryCount(evaluated: seq<Candidate>, maxExercises: int, targetSeconds: int, n: int)
    requires SearchSchedule(evaluated, maxExercises, targetSeconds)
    requires MinExercises <= n <= maxExercises
    ensures exists j :: 0 <= j < |evaluated| && |evaluated[j].exercises| == n && evaluated[j].rounds == MinRounds
    decreases n
  {
    if n > MinExercises {
      ScheduleTriesEveryCount(evaluated, maxExercises, targetSeconds, n - 1);
      var i :| 0 <= i < |evaluated| && |evaluated[i].exercises| == n - 1 && evaluated[i].rounds == MinRounds;
      ScheduleReachesNextCount(evaluated, maxExercises, targetSeconds, n, i);
    }
  }

  /** An exact hit ends only the rounds loop: the next candidate has one more exercise and one round. */
  lemma ExactHitEndsInnerLoopOnly(evaluated: seq<Candidate>, maxExercises: int, targetSeconds: int, i: int)
    requires SearchSchedule(evaluated, maxExercises, targetSeconds)
    requires 0 <= i < |evaluated| && Diff(evaluated[i], targetSeconds) == 0
    ensures i < |evaluated| - 1 <==> |evaluated[i].exercises| < maxExercises
    ensures i < |evaluated| - 1 ==>
      |evaluated[i + 1].exercises| == |evaluated[i].exercises| + 1 && evaluated[i + 1].rounds == MinRounds
  {
    if i < |evaluated| - 1 {
      ScheduleUpperBound(evaluated, maxExercises, targetSeconds, i + 1);
      assert Follows(evaluated[i], evaluated[i + 1], targetSeconds);
    }
  }

  /** The best candidate is unique: ties go to the earliest. */
  lemma BestIsUnique(evaluated: seq<Candidate>, k: int, k': int, targetSeconds: int)
    requires IsBest(evaluated, k, targetSeconds) && IsBest(evaluated, k', targetSeconds)
    ensures k == k'
  {
    assert Diff(evaluated[k], targetSeconds) == Diff(evaluated[k'], targetSeconds);
  }
}
