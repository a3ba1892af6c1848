/**
 * The superset builder of the workout generator: the muscle-group overlap
 * test, the random pick of an unselected exercise of a movement type (with
 * the CORE/TWIST fallback), and `generate_superset`, which picks one
 * exercise per required movement type and then grows the selection with
 * exercises that share no muscle group with anything already chosen.
 */
module Superset {
  import opened Catalog

  /** `required_movement_types`: all six movement types. */
  const RequiredMovementTypes: set<MovementType> := {Push, Pull, Squat, Hinge, Core, Twist}
  /** `core_movement_types`: the two types that stand in for each other. */
  const CoreMovementTypes: set<MovementType> := {Core, Twist}

  datatype SupersetError =
    /** The `ValueError` for a movement type with no available exercise. */
    | NoAvailableExercise(movementType: MovementType)

  /** `has_overlapping_muscle_groups`: the two exercises target a common muscle group. */
  function HasOverlappingMuscleGroups(a: Exercise, b: Exercise): (r: bool)
    ensures r <==> exists m :: m in a.muscleGroups && m in b.muscleGroups
  {
    var common := a.muscleGroups * b.muscleGroups;
    assert forall m :: m in common <==> m in a.muscleGroups && m in b.muscleGroups;
    common != {}
  }

  /** Overlap is symmetric, and an exercise with no muscle groups overlaps nothing. */
  lemma OverlapSymmetricAndUntargeted(a: Exercise, b: Exercise)
    ensures HasOverlappingMuscleGroups(a, b) == HasOverlappingMuscleGroups(b, a)
    ensures a.muscleGroups == {} ==> !HasOverlappingMuscleGroups(a, b)
  {
  }

  /** `get_exercises_by_movement_type`, as the set of catalogue exercises of that type. */
  function OfMovementType(catalog: seq<Exercise>, movementType: MovementType): (r: set<Exercise>)
    ensures forall ex :: ex in r <==> ex in catalog && movementType in ex.movementTypes
  {
    set ex | ex in catalog && movementType in ex.movementTypes
  }

  /**
   * The CORE/TWIST fallback pool of `select_exercise_for_movement_type` is
   * the set of catalogue exercises of either type, and no type has more
   * exercises than the catalogue has entries.
   */
  lemma {:induction false} OfMovementTypeProperties(catalog: seq<Exercise>, movementType: MovementType)
    ensures OfMovementType(catalog, Core) + OfMovementType(catalog, Twist) == set ex | ex in catalog && IsCoreType(ex)
    ensures |OfMovementType(catalog, movementType)| <= |catalog|
  {
    if catalog != [] {
      var init, last := catalog[..|catalog| - 1], catalog[|catalog| - 1];
      OfMovementTypeProperties(init, movementType);
      assert catalog == init + [last];
      SubsetCard(OfMovementType(catalog, movementType), OfMovementType(init, movementType) + {last});
    }
  }

  /** Some exercise of the set has the given movement type. */
  ghost predicate HasType(selected: set<Exercise>, movementType: MovementType)
  {
    exists x :: x in selected && movementType in x.movementTypes
  }

  /** The exercise is of type CORE or TWIST. */
  predicate IsCoreType(ex: Exercise)
  {
    Core in ex.movementTypes || Twist in ex.movementTypes
  }

  /**
   * `select_exercise_for_movement_type`: a random catalogue exercise of the
   * type that is not excluded; for CORE or TWIST, when there is none, a
   * random non-excluded exercise of either of the two; otherwise an error.
   */
  method SelectExerciseForMovementType(catalog: seq<Exercise>, movementType: MovementType, excluded: set<Exercise>)
    returns (r: Result<Exercise, SupersetError>)
    ensures r.Ok? ==> r.value in catalog && r.value !in excluded
    ensures r.Ok? ==> movementType in r.value.movementTypes || (movementType in CoreMovementTypes && IsCoreType(r.value))
    ensures r.Ok? && (exists ex :: ex in catalog && ex !in excluded && movementType in ex.movementTypes) ==>
      movementType in r.value.movementTypes
    ensures r.Err? <==>
      forall ex :: ex in catalog && ex !in excluded ==>
        movementType !in ex.movementTypes && (movementType in CoreMovementTypes ==> !IsCoreType(ex))
    ensures r.Err? ==> r.error == NoAvailableExercise(movementType)
  {
    var available := OfMovementType(catalog, movementType) - excluded;
    if available == {} {
      forall ex | ex in catalog && ex !in excluded ensures movementType !in ex.movementTypes {
        assert ex in available <==> movementType in ex.movementTypes;
      }
      if movementType in CoreMovementTypes {
        var coreExercises := OfMovementType(catalog, Core) + OfMovementType(catalog, Twist);
        available := coreExercises - excluded;
        forall ex | ex in catalog && ex !in excluded ensures ex in available <==> IsCoreType(ex) {
          assert ex in coreExercises <==> IsCoreType(ex);
        }
      }
      if available == {} {
        return Err(NoAvailableExercise(movementType));
      }
    }
    var choice :| choice in available;
    r := Ok(choice);
  }

  /** No catalogue exercise outside the selection can join it without overlapping some selected exercise. */
  ghost predicate NoCandidateLeft(catalog: seq<Exercise>, selected: set<Exercise>)
  {
    forall ex :: ex in catalog && ex !in selected ==> !OverlapsNone(ex, selected)
  }

  /**
   * Each exercise added while growing is new and overlaps no earlier pick:
   * neither a first-phase pick nor an earlier addition.
   */
  ghost predicate GrownWithoutOverlap(firstPhase: set<Exercise>, grown: seq<Exercise>)
  {
    && (forall i :: 0 <= i < |grown| ==> grown[i] !in firstPhase && OverlapsNone(grown[i], firstPhase))
    && (forall i, j :: 0 <= j < i < |grown| ==> grown[j] != grown[i] && !HasOverlappingMuscleGroups(grown[i], grown[j]))
  }

  /**
   * Each movement type in the map's domain has its own pick, of that type
   * or, for CORE or TWIST, of either core type; no two types share a pick.
   */
  ghost predicate OnePickPerType(catalog: seq<Exercise>, picks: map<MovementType, Exercise>)
  {
    && (forall t :: t in picks ==> picks[t] in catalog)
    && (forall t :: t in picks ==> t in picks[t].movementTypes || (t in CoreMovementTypes && IsCoreType(picks[t])))
    && (forall t1, t2 :: t1 in picks && t2 in picks && t1 != t2 ==> picks[t1] != picks[t2])
  }

  /**
   * A type's pick is of another kind (the CORE/TWIST fallback) only when
   * every exercise of the type's own kind was already selected.
   */
  ghost predicate FallbackOnlyWhenExhausted(catalog: seq<Exercise>, selected: set<Exercise>, picks: map<MovementType, Exercise>)
  {
    forall t :: t in picks && t !in picks[t].movementTypes ==> OfMovementType(catalog, t) <= selected
  }

  /**
   * The first loop of `generate_superset`: one exercise per required movement
   * type, visited in an unspecified order (a set is iterated), each chosen
   * among the exercises not yet selected. A missing CORE or TWIST exercise is
   * skipped; any other missing type is the error. The ghost `picks` maps each
   * type to its own pick; on an error, the ghost `before` is the selection at
   * the failing type's turn, which already holds every exercise of that type.
   */
  method PickOnePerMovementType(catalog: seq<Exercise>)
    returns (r: Result<set<Exercise>, SupersetError>, ghost picks: map<MovementType, Exercise>, ghost before: set<Exercise>)
    ensures r.Ok? ==> forall x :: x in r.value ==> x in catalog
    ensures r.Ok? ==> |r.value| <= |RequiredMovementTypes|
    ensures r.Ok? ==> forall t :: t in RequiredMovementTypes - CoreMovementTypes ==> HasType(r.value, t)
    ensures r.Ok? && (exists ex :: ex in catalog && IsCoreType(ex)) ==> HasType(r.value, Core) || HasType(r.value, Twist)
    ensures r.Ok? ==> r.value == picks.Values && OnePickPerType(catalog, picks)
    ensures r.Ok? ==> RequiredMovementTypes - CoreMovementTypes <= picks.Keys <= RequiredMovementTypes
    ensures r.Ok? ==> |r.value| == |picks| >= |RequiredMovementTypes - CoreMovementTypes|
    ensures r.Ok? ==> forall t :: t in CoreMovementTypes && t !in picks ==>
      forall ex :: ex in catalog && IsCoreType(ex) ==> ex in r.value
    ensures r.Ok? ==> FallbackOnlyWhenExhausted(catalog, r.value, picks)
    ensures r.Err? ==> r.error.movementType in RequiredMovementTypes - CoreMovementTypes
    ensures r.Err? ==> before == picks.Values && OnePickPerType(catalog, picks) && r.error.movementType !in picks
    ensures r.Err? ==> FallbackOnlyWhenExhausted(catalog, before, picks)
    ensures r.Err? ==> |OfMovementType(catalog, r.error.movementType)| < |RequiredMovementTypes|
    ensures r.Err? ==> OfMovementType(catalog, r.error.movementType) <= before
    ensures r.Err? ==> |before| < |RequiredMovementTypes| && forall x :: x in before ==> x in catalog
  {
    var selected: set<Exercise> := {};
    var remaining := RequiredMovementTypes;
    picks := map[];
    before := {};
    while remaining != {}
      invariant FirstPhaseState(catalog, remaining, selected, picks)
      decreases remaining
    {
      var movementType :| movementType in remaining;
      var pick := SelectExerciseForMovementType(catalog, movementType, selected);
      match pick {
        case Ok(exercise) =>
          assert movementType !in exercise.movementTypes ==> OfMovementType(catalog, movementType) <= selected;
          PickTaken(catalog, remaining, selected, picks, movementType, exercise);
          selected := selected + {exercise};
          picks := picks[movementType := exercise];
        case Err(e) =>
          if movementType !in CoreMovementTypes {
            assert |selected| < |RequiredMovementTypes|;
            assert OfMovementType(catalog, movementType) <= selected;
            SubsetCard(OfMovementType(catalog, movementType), selected);
            return Err(e), picks, selected;
          }
      }
      remaining := remaining - {movementType};
    }
    FirstPhaseDone(catalog, selected, picks);
    r := Ok(selected);
  }

  /**
   * The state of the first loop with the types in `remaining` still to visit:
   * the selection is the set of picks, one per visited type that found one,
   * every visited non-core type has its pick, and a visited core type
   * without one found every core exercise already selected.
   */
  ghost predicate FirstPhaseState(catalog: seq<Exercise>, remaining: set<MovementType>, selected: set<Exercise>,
                                  picks: map<MovementType, Exercise>)
  {
    && PicksHeld(catalog, selected, picks) && TypesVisited(catalog, remaining, selected, picks)
    && FallbackOnlyWhenExhausted(catalog, selected, picks)
  }

  /** The selection is the set of the picks, one distinct catalogue exercise per type. */
  ghost predicate PicksHeld(catalog: seq<Exercise>, selected: set<Exercise>, picks: map<MovementType, Exercise>)
  {
    && (forall x :: x in selected ==> x in catalog)
    && selected == picks.Values && OnePickPerType(catalog, picks)
    && |selected| == |picks|
  }

  /** Which types have picks: visited ones only, every visited non-core one, and a core one unless none was left. */
  ghost predicate TypesVisited(catalog: seq<Exercise>, remaining: set<MovementType>, selected: set<Exercise>,
                               picks: map<MovementType, Exercise>)
  {
    && remaining <= RequiredMovementTypes
    && |selected| + |remaining| <= |RequiredMovementTypes|
    && (forall u :: u in picks ==> u in RequiredMovementTypes && u !in remaining)
    && (forall u :: u in RequiredMovementTypes && u !in CoreMovementTypes && u !in remaining ==> u in picks)
    && (forall t :: t in CoreMovementTypes && t !in remaining && t !in picks ==>
          forall ex :: ex in catalog && IsCoreType(ex) ==> ex in selected)
  }

  /** A successful pick for a type still to visit extends the first loop's state. */
  lemma PickTaken(catalog: seq<Exercise>, remaining: set<MovementType>, selected: set<Exercise>,
                  picks: map<MovementType, Exercise>, t: MovementType, exercise: Exercise)
    requires FirstPhaseState(catalog, remaining, selected, picks) && t in remaining
    requires exercise in catalog && exercise !in selected
    requires t in exercise.movementTypes || (t in CoreMovementTypes && IsCoreType(exercise))
    requires t !in exercise.movementTypes ==> OfMovementType(catalog, t) <= selected
    ensures FirstPhaseState(catalog, remaining - {t}, selected + {exercise}, picks[t := exercise])
  {
    assert t !in picks;
    PickSizes(remaining, selected, picks, t, exercise);
    PickExtends(catalog, picks, t, exercise);
    TypeVisited(catalog, remaining, selected, picks, t, exercise);
    FallbackKept(catalog, selected, picks, t, exercise);
  }

  /** A fallback pick made only once the type's own exercises are all selected keeps the fallback rule. */
  lemma FallbackKept(catalog: seq<Exercise>, selected: set<Exercise>, picks: map<MovementType, Exercise>,
                     t: MovementType, exercise: Exercise)
    requires FallbackOnlyWhenExhausted(catalog, selected, picks)
    requires t !in exercise.movementTypes ==> OfMovementType(catalog, t) <= selected
    ensures FallbackOnlyWhenExhausted(catalog, selected + {exercise}, picks[t := exercise])
  {
    var grown := picks[t := exercise];
    forall u | u in grown && u !in grown[u].movementTypes ensures OfMovementType(catalog, u) <= selected + {exercise} {
      if u != t {
        assert grown[u] == picks[u];
      }
    }
  }

  /** Visiting a type that gets a pick keeps the record of visited types. */
  lemma TypeVisited(catalog: seq<Exercise>, remaining: set<MovementType>, selected: set<Exercise>,
                    picks: map<MovementType, Exercise>, t: MovementType, exercise: Exercise)
    requires TypesVisited(catalog, remaining, selected, picks) && t in remaining
    requires |selected + {exercise}| + |remaining - {t}| <= |RequiredMovementTypes|
    ensures TypesVisited(catalog, remaining - {t}, selected + {exercise}, picks[t := exercise])
  {
    var rest, grown := remaining - {t}, picks[t := exercise];
    assert forall u :: u in grown <==> u in picks || u == t;
    assert forall u :: u in rest <==> u in remaining && u != t;
  }

  /** The counting part of `PickTaken`: one more pick and one type fewer to visit. */
  lemma PickSizes(remaining: set<MovementType>, selected: set<Exercise>, picks: map<MovementType, Exercise>,
                  t: MovementType, exercise: Exercise)
    requires t in remaining && exercise !in selected && t !in picks
    requires |selected| + |remaining| <= |RequiredMovementTypes|
    requires selected == picks.Values && |selected| == |picks|
    ensures |selected + {exercise}| + |remaining - {t}| <= |RequiredMovementTypes|
    ensures selected + {exercise} == picks[t := exercise].Values && |selected + {exercise}| == |picks[t := exercise]|
  {
    PickAdded(picks, t, exercise);
  }

  /** A new exercise for a type without a pick keeps the picks one per type. */
  lemma PickExtends(catalog: seq<Exercise>, picks: map<MovementType, Exercise>, t: MovementType, exercise: Exercise)
    requires OnePickPerType(catalog, picks) && t !in picks && exercise !in picks.Values
    requires exercise in catalog
    requires t in exercise.movementTypes || (t in CoreMovementTypes && IsCoreType(exercise))
    ensures OnePickPerType(catalog, picks[t := exercise])
  {
    var grown := picks[t := exercise];
    forall t1, t2 | t1 in grown && t2 in grown && t1 != t2 ensures grown[t1] != grown[t2] {
      if t1 != t && t2 != t {
        assert grown[t1] == picks[t1] && grown[t2] == picks[t2];
      } else if t1 == t {
        assert grown[t2] == picks[t2] && picks[t2] in picks.Values;
      } else {
        assert grown[t1] == picks[t1] && picks[t1] in picks.Values;
      }
    }
  }

  /** After the first loop the selection has a pick of every non-core type, and a core one when the catalogue has one. */
  lemma FirstPhaseDone(catalog: seq<Exercise>, selected: set<Exercise>, picks: map<MovementType, Exercise>)
    requires FirstPhaseState(catalog, {}, selected, picks)
    ensures forall t :: t in RequiredMovementTypes - CoreMovementTypes ==> HasType(selected, t)
    ensures (exists ex :: ex in catalog && IsCoreType(ex)) ==> HasType(selected, Core) || HasType(selected, Twist)
    ensures RequiredMovementTypes - CoreMovementTypes <= picks.Keys <= RequiredMovementTypes
    ensures |selected| >= |RequiredMovementTypes - CoreMovementTypes|
  {
    forall t | t in RequiredMovementTypes - CoreMovementTypes ensures HasType(selected, t) {
      assert picks[t] in picks.Values;
    }
    if exists ex :: ex in catalog && IsCoreType(ex) {
      var ex :| ex in catalog && IsCoreType(ex);
      if Core in picks {
        assert picks[Core] in picks.Values;
      } else {
        assert ex in selected;
      }
    }
    SubsetCard(RequiredMovementTypes - CoreMovementTypes, picks.Keys);
  }

  /** Giving a type without a pick a new exercise adds exactly that exercise to the picks, and one to their count. */
  lemma PickAdded(picks: map<MovementType, Exercise>, t: MovementType, exercise: Exercise)
    requires t !in picks && exercise !in picks.Values
    ensures picks[t := exercise].Values == picks.Values + {exercise}
    ensures |picks[t := exercise]| == |picks| + 1
    ensures |picks.Values + {exercise}| == |picks.Values| + 1
  {
    PickAddedValues(picks, t, exercise);
    assert picks[t := exercise].Keys == picks.Keys + {t};
  }

  /** The values of a map that gains a fresh key are the old values and the new one. */
  lemma PickAddedValues(picks: map<MovementType, Exercise>, t: MovementType, exercise: Exercise)
    requires t !in picks
    ensures picks[t := exercise].Values == picks.Values + {exercise}
  {
    var grown := picks[t := exercise];
    forall x ensures x in grown.Values <==> x in picks.Values || x == exercise {
      if x in picks.Values {
        var k :| k in picks && picks[k] == x;
        assert grown[k] == x;
      }
      if x == exercise {
        assert grown[t] == x;
      }
    }
  }

  /**
   * The second loop of `generate_superset`: while the selection is smaller
   * than `size`, add a random catalogue exercise that is not selected and
   * shares no muscle group with any selected one; stop when there is none.
   * The ghost `grown` lists the additions in order.
   */
  method GrowWithoutOverlap(catalog: seq<Exercise>, firstPhase: set<Exercise>, size: int)
    returns (selected: set<Exercise>, ghost grown: seq<Exercise>)
    requires forall x :: x in firstPhase ==> x in catalog
    ensures forall x :: x in selected <==> x in firstPhase || x in grown
    ensures |selected| == |firstPhase| + |grown|
    ensures forall x :: x in selected ==> x in catalog
    ensures GrownWithoutOverlap(firstPhase, grown)
    ensures |firstPhase| >= size ==> grown == []
    ensures |firstPhase| < size ==> |selected| <= size
    ensures |selected| >= size || NoCandidateLeft(catalog, selected)
  {
    selected := firstPhase;
    grown := [];
    while |selected| < size
      invariant forall x :: x in selected <==> x in firstPhase || x in grown
      invariant |selected| == |firstPhase| + |grown|
      invariant forall x :: x in selected ==> x in catalog
      invariant GrownWithoutOverlap(firstPhase, grown)
      invariant |firstPhase| >= size ==> grown == []
      invariant |firstPhase| < size ==> |selected| <= size
      decreases size - |selected|
    {
      var available := Joinable(catalog, selected);
      if available == {} {
        NothingJoinable(catalog, selected);
        return;
      }
      var exercise :| exercise in available;
      assert forall j :: 0 <= j < |grown| ==> grown[j] in selected;
      GrowStep(firstPhase, grown, exercise);
      assert |selected + {exercise}| == |selected| + 1;
      selected := selected + {exercise};
      grown := grown + [exercise];
    }
  }

  /** The exercise shares no muscle group with any exercise of the set. */
  predicate OverlapsNone(ex: Exercise, selected: set<Exercise>)
  {
    forall s :: s in selected ==> !HasOverlappingMuscleGroups(ex, s)
  }

  /** The exercises the second loop may add: unselected, and overlapping no selected exercise. */
  function Joinable(catalog: seq<Exercise>, selected: set<Exercise>): (r: set<Exercise>)
    ensures forall ex :: ex in r <==> ex in catalog && ex !in selected && OverlapsNone(ex, selected)
  {
    set ex | ex in catalog && ex !in selected && OverlapsNone(ex, selected)
  }

  /** Nothing is joinable exactly when every unselected exercise overlaps some selected one. */
  lemma NothingJoinable(catalog: seq<Exercise>, selected: set<Exercise>)
    ensures Joinable(catalog, selected) == {} <==> NoCandidateLeft(catalog, selected)
  {
    if Joinable(catalog, selected) == {} {
      forall ex | ex in catalog && ex !in selected ensures !OverlapsNone(ex, selected) {
        assert ex !in Joinable(catalog, selected);
      }
    } else {
      var ex :| ex in Joinable(catalog, selected);
      assert ex in catalog && ex !in selected && OverlapsNone(ex, selected);
    }
  }

  /**
   * `generate_superset`. Every random choice is nondeterministic. The list
   * the source returns is `list(selected_exercises)` in that set's
   * unspecified order; the model returns the set. The ghost `firstPhase` is
   * the selection after the first loop and `grown` the exercises the second
   * loop adds, in order.
   */
  method GenerateSuperset(catalog: seq<Exercise>, size: int)
    returns (r: Result<set<Exercise>, SupersetError>, ghost firstPhase: set<Exercise>, ghost grown: seq<Exercise>,
             ghost picks: map<MovementType, Exercise>, ghost before: set<Exercise>)
    ensures r.Ok? ==> firstPhase == picks.Values && OnePickPerType(catalog, picks)
    ensures r.Ok? ==> RequiredMovementTypes - CoreMovementTypes <= picks.Keys <= RequiredMovementTypes
    ensures r.Ok? ==> |firstPhase| == |picks| >= |RequiredMovementTypes - CoreMovementTypes|
    ensures r.Ok? ==> forall t :: t in CoreMovementTypes && t !in picks ==>
      forall ex :: ex in catalog && IsCoreType(ex) ==> ex in firstPhase
    ensures r.Ok? ==> FallbackOnlyWhenExhausted(catalog, firstPhase, picks)
    ensures r.Err? ==> before == picks.Values && OnePickPerType(catalog, picks) && r.error.movementType !in picks
    ensures r.Err? ==> FallbackOnlyWhenExhausted(catalog, before, picks)
    ensures r.Err? ==> OfMovementType(catalog, r.error.movementType) <= before
    ensures r.Err? ==> |before| < |RequiredMovementTypes| && forall x :: x in before ==> x in catalog
    ensures |SetOf(catalog)| < |RequiredMovementTypes - CoreMovementTypes| ==> r.Err?
    ensures r.Ok? ==> (forall x :: x in r.value <==> x in firstPhase || x in grown)
    ensures r.Ok? ==> |r.value| == |firstPhase| + |grown|
    ensures r.Ok? ==> forall x :: x in r.value ==> x in catalog
    ensures r.Ok? ==> forall t :: t in RequiredMovementTypes - CoreMovementTypes ==> HasType(firstPhase, t)
    ensures r.Ok? && (exists ex :: ex in catalog && IsCoreType(ex)) ==> HasType(firstPhase, Core) || HasType(firstPhase, Twist)
    ensures r.Ok? ==> |firstPhase| <= |RequiredMovementTypes|
    ensures r.Ok? ==> GrownWithoutOverlap(firstPhase, grown)
    ensures r.Ok? && |firstPhase| >= size ==> grown == []
    ensures r.Ok? && |firstPhase| < size ==> |r.value| <= size
    ensures r.Ok? ==> |r.value| >= size || NoCandidateLeft(catalog, r.value)
    ensures r.Err? ==> r.error.movementType in RequiredMovementTypes - CoreMovementTypes
    ensures (exists t :: t in RequiredMovementTypes - CoreMovementTypes && OfMovementType(catalog, t) == {}) ==> r.Err?
    ensures (forall t :: t in RequiredMovementTypes - CoreMovementTypes ==>
               |OfMovementType(catalog, t)| >= |RequiredMovementTypes|) ==> r.Ok?
  {
    var first;
    first, picks, before := PickOnePerMovementType(catalog);
    if first.Err? {
      return Err(first.error), {}, [], picks, before;
    }
    firstPhase := first.value;
    SubsetCard(firstPhase, SetOf(catalog));
    NoneOfTypeMeansErr(catalog, firstPhase);
    var selected;
    selected, grown := GrowWithoutOverlap(catalog, first.value, size);
    r := Ok(selected);
  }

  /** A selection holding an exercise of every non-core type leaves none of those types empty. */
  lemma NoneOfTypeMeansErr(catalog: seq<Exercise>, selected: set<Exercise>)
    requires forall x :: x in selected ==> x in catalog
    requires forall t :: t in RequiredMovementTypes - CoreMovementTypes ==> HasType(selected, t)
    ensures forall t :: t in RequiredMovementTypes - CoreMovementTypes ==> OfMovementType(catalog, t) != {}
  {
    forall t | t in RequiredMovementTypes - CoreMovementTypes ensures OfMovementType(catalog, t) != {} {
      var x :| x in selected && t in x.movementTypes;
      assert x in OfMovementType(catalog, t);
    }
  }

  /** Appending an exercise that is new and overlaps nothing selected keeps the growth invariant. */
  lemma GrowStep(firstPhase: set<Exercise>, grown: seq<Exercise>, exercise: Exercise)
    requires GrownWithoutOverlap(firstPhase, grown)
    requires exercise !in firstPhase && exercise !in grown
    requires OverlapsNone(exercise, firstPhase)
    requires forall j :: 0 <= j < |grown| ==> !HasOverlappingMuscleGroups(exercise, grown[j])
    ensures GrownWithoutOverlap(firstPhase, grown + [exercise])
  {
  }

  /** Adding an exercise keeps every type already present and adds the exercise's own types. */
  lemma HasTypeGrows(selected: set<Exercise>, exercise: Exercise)
    ensures forall t :: HasType(selected, t) || t in exercise.movementTypes ==> HasType(selected + {exercise}, t)
  {
    forall t | HasType(selected, t) || t in exercise.movementTypes
      ensures HasType(selected + {exercise}, t)
    {
      if t in exercise.movementTypes {
        assert exercise in selected + {exercise};
      } else {
        var x :| x in selected && t in x.movementTypes;
        assert x in selected + {exercise};
      }
    }
  }

  /** A subset is no larger than its superset. */
  lemma SubsetCard<T>(a: set<T>, b: set<T>)
    requires a <= b
    ensures |a| <= |b|
  {
    if a != {} {
      var x :| x in a;
      SubsetCard(a - {x}, b - {x});
    }
  }
}
