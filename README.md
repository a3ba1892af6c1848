# Workout generator — a Dafny model

This project models the core of a small workout-planning service. A catalogue
of exercises, each tagged with movement types (push, pull, hinge, squat, twist
and core), muscle groups, equipment and a duration in seconds, is turned into
a timed circuit: some exercises and a number of rounds whose estimated length
is as close as possible to a requested number of minutes. The model also
covers the superset builder, which picks one exercise per movement type and
then adds exercises that share no muscle group with anything already picked,
and the check the seeding script runs over its built-in exercise list.

The generator's database session is replaced by an explicit catalogue, a
`seq<Exercise>` in query order. Random choices (`random.sample`,
`random.choice`, and the iteration order of a Python `set`) are
nondeterministic choices (`:|`) that are constrained only by membership and
distinctness. `float('inf')` as "no candidate yet" becomes an `Option`, and
`round(total / 60)` becomes integer rounding half to even.

Modules, one per file:

- `Catalog` (`catalog.dfy`): the two enumerations, the string values of the
  muscle groups, and the exercise record.
- `Duration` (`duration.dfy`): `calculate_workout_duration` as a loop proved
  against its closed form, and Python's `round` on whole minutes.
- `CatalogueFilters` (`filters.dfy`): de-duplication by name, the
  muscle-group and equipment filters, and the as-written muscle-group filter
  (see Findings).
- `Composer` (`composer.dfy`): the (count, rounds) search and
  `generate_workout`, with a ghost trace of every candidate scored.
- `Superset` (`superset.dfy`): the overlap test, the per-type pick with its
  CORE/TWIST fallback, and `generate_superset`.
- `SeedValidation` (`validation.dfy`): `validate_muscle_groups`.
- `SeedExercises` (`seed_data.dfy`): the 31 seeded exercises as fixtures, for
  the validator and as the catalogue the generator reads after seeding.

## Model

| member | source | states |
|---|---|---|
| Catalog.MuscleGroupValueSound | app/models.py:16-39 | every muscle group's value is in the value set, and distinct members have distinct values |
| Catalog.ValidValuesAreMemberValues | app/seed_exercises.py:17 | every string of `valid_muscle_groups` is the value of some member, so the set is exactly the members' values |
| Duration.CalculateWorkoutDuration | app/workout_generator.py:101-115 | the accumulating loop returns 300 + rounds·Σ(duration + 30) + 90·(rounds − 1) |
| Duration.WorkoutSecondsExamples | app/workout_generator.py:101-115 | no exercises in one round take 300 s; one 30-second exercise in two rounds takes 510 s |
| Duration.ExtraRoundCost | app/workout_generator.py:109-113 | each extra round adds every exercise's duration, 30 s of rest per exercise, and 90 s between rounds |
| Duration.RoundHalfEven | app/workout_generator.py:176 | the minutes are within 30 s of the seconds, and an exact half goes to the even neighbour |
| Duration.RoundHalfEvenUnique | app/workout_generator.py:176 | those two conditions determine the rounded minutes uniquely |
| CatalogueFilters.NamesAppend | app/workout_generator.py:126 | appending an exercise adds exactly its name to the keys seen |
| CatalogueFilters.Deduplicate | app/workout_generator.py:123-128 | the dict-building loop yields the first exercise of every name, in catalogue order |
| CatalogueFilters.KeepFirstProperties | app/workout_generator.py:123-128 | the de-duplicated list keeps every name, takes its members from the catalogue, and has pairwise-distinct names |
| CatalogueFilters.FirstIndex | app/workout_generator.py:126-127 | the position of the first exercise of a name: it has that name and no earlier one does |
| CatalogueFilters.KeepFirstIsFirstOccurrencesInOrder | app/workout_generator.py:123-128 | entry k of the result is the first occurrence of its name, and those first occurrences come in increasing catalogue order |
| CatalogueFilters.DistinctNamesCount | app/workout_generator.py:128 | a list with distinct names has as many names as entries |
| CatalogueFilters.DeduplicatedSize | app/workout_generator.py:123-128 | the result has one entry per distinct name, and is empty exactly when the catalogue is |
| CatalogueFilters.Filter | app/workout_generator.py:137 | Python's `list(filter(...))`: exactly the members that pass, no longer than the input, and distinct names are preserved |
| CatalogueFilters.FilterByMuscleGroups | app/workout_generator.py:131-139 | the corrected stage of the Findings row, comparing the groups' values with the allowed strings: with a non-empty allowed list and some exercise passing, the kept exercises are exactly those whose groups are all allowed; otherwise the list is unchanged; a non-empty list never becomes empty |
| CatalogueFilters.FilterByEquipment | app/workout_generator.py:141-150 | with a non-empty allowed list and some exercise passing, the kept exercises are exactly those sharing an allowed equipment name, so exercises with no equipment are dropped; otherwise the list is unchanged; a non-empty list never becomes empty |
| CatalogueFilters.FilteredPoolProperties | app/workout_generator.py:123-150 | the filtered pool holds catalogue exercises with distinct names, is non-empty exactly when the catalogue is, and without filters has one entry per name |
| CatalogueFilters.IsAllowedByMuscleGroupsAsWritten | app/workout_generator.py:133-136 | `is_allowed_by_mg` as written, comparing enum members with strings: it holds exactly for the exercises with no muscle groups, whatever is allowed |
| CatalogueFilters.FilterByMuscleGroupsAsWritten | app/workout_generator.py:131-139 | the stage as written: with a non-empty allowed list it keeps exactly the untargeted exercises when there are some, and otherwise returns the list unchanged, so an all-targeted list is never narrowed |
| CatalogueFilters.AsWrittenKeepsDisallowedExercise | app/workout_generator.py:131-139 | as written, allowing Pushup's groups keeps Pull-ups, whose groups are not allowed |
| CatalogueFilters.CorrectedDropsDisallowedExercise | app/workout_generator.py:131-139 | with the corrected predicate the same call keeps only Pushup |
| Composer.Abs | app/workout_generator.py:168 | the absolute value: non-negative and equal to x or −x |
| Composer.SearchBest | app/workout_generator.py:152-173 | the candidates scored follow the loop schedule (first (3, 1); an exact hit or 4 rounds moves to the next count with one round; last count min(10, len)); each is a sample of the pool with its true duration; none exist exactly when fewer than 3 exercises remain; otherwise the result is the first candidate of least difference |
| Composer.GenerateWorkout | app/workout_generator.py:117-182 | an empty catalogue is the first error; fewer than three pooled exercises is the second; otherwise 3 ≤ count ≤ min(10, pool), 1 ≤ rounds ≤ 4, the exercises are distinct pool members, the minutes are the half-to-even rounding of their duration, and the pair is the best candidate scored |
| Composer.ScheduleBounds | app/workout_generator.py:162-163 | every pair tried has a count in [3, max] and a round count in [1, 4] |
| Composer.ScheduleTriesEveryCount | app/workout_generator.py:162-173 | every count from 3 to max is tried, starting with one round |
| Composer.ExactHitEndsInnerLoopOnly | app/workout_generator.py:172-173 | after an exact hit the next candidate has one more exercise and one round, unless the count was already the maximum |
| Composer.BestIsUnique | app/workout_generator.py:169 | with the strict `<`, the best candidate is unique: the earliest of least difference |
| Superset.HasOverlappingMuscleGroups | app/workout_generator.py:42-50 | true exactly when some muscle group is targeted by both exercises |
| Superset.OverlapSymmetricAndUntargeted | app/workout_generator.py:42-50 | the overlap test is symmetric, and an exercise with no muscle groups overlaps nothing |
| Superset.OfMovementTypeProperties | app/workout_generator.py:60-62 | the CORE plus TWIST fallback pool is exactly the catalogue exercises of either type, and no type has more exercises than the catalogue has entries |
| Superset.SelectExerciseForMovementType | app/workout_generator.py:52-68 | a non-excluded catalogue exercise of the type, or for CORE/TWIST of either type when none of the type is left; an error exactly when there is no candidate, naming the type |
| Superset.PickOnePerMovementType | app/workout_generator.py:52-85 | each of PUSH, PULL, SQUAT and HINGE gets its own pick, and CORE and TWIST may too. Picks are distinct catalogue exercises of their type, or for CORE/TWIST of either core type, so the selection has between four and six members. A core type goes without a pick only when every core exercise was already selected. A CORE or TWIST pick of the other core type is taken only when every exercise of its own type was already selected. On error the selection so far is exactly the earlier types' own picks, fewer than six of them, and the failing non-core type has no pick; all its exercises are among those picks |
| Superset.GrowWithoutOverlap | app/workout_generator.py:87-97 | each added exercise is new and shares no muscle group with any earlier pick; growth adds nothing when the first phase already reaches `size`, never passes `size`, and stops early only when no candidate is left |
| Superset.NothingJoinable | app/workout_generator.py:89-95 | the candidate list is empty exactly when every unselected exercise overlaps some selected one |
| Superset.PickTaken | app/workout_generator.py:78-79 | a successful pick for a type still to visit gives it its own new pick and keeps the first loop's state |
| Superset.FallbackKept | app/workout_generator.py:55-63 | adding a pick keeps the rule that a pick outside its type's own exercises is made only once all of them are selected |
| Superset.FirstPhaseDone | app/workout_generator.py:77-85 | after the loop every non-core type is covered, a core type when the catalogue has one, and at least four exercises are selected |
| Superset.GenerateSuperset | app/workout_generator.py:70-99 | both phases composed, with the first phase's per-type picks and its fallback rule for CORE and TWIST. On error the selection so far is exactly the earlier types' own picks, fewer than six of them, the failing non-core type has no pick, and all its exercises are among those picks. A catalogue with fewer than four distinct exercises, or a non-core type without exercises, always fails. Success is certain when each non-core type has at least six |
| SeedValidation.ValidateMuscleGroups | app/seed_exercises.py:15-26 | the nested loops return success when no reference is invalid; otherwise the error message is the header line followed by one line per invalid reference, joined with newlines |
| SeedValidation.InvalidRefsCharacterized | app/seed_exercises.py:21-23 | a line occurs among an exercise's error lines exactly when it reports one of its invalid values, and there are none exactly when all its values are valid |
| SeedValidation.InvalidPositions | app/seed_exercises.py:21-22 | the positions listed are exactly the invalid values of an exercise, in strictly increasing order |
| SeedValidation.InvalidRefsOnePerValue | app/seed_exercises.py:21-23 | an exercise's lines and its invalid positions match one to one, in order: line k reports its k-th invalid value |
| SeedValidation.InvalidRefsCount | app/seed_exercises.py:21-23 | an exercise contributes exactly as many lines as it has positions holding an invalid value |
| SeedValidation.InvalidPairs | app/seed_exercises.py:20-22 | every listed (exercise, value) position is an invalid reference, in strictly increasing order by exercise and then by value |
| SeedValidation.InvalidPairsComplete | app/seed_exercises.py:20-22 | every invalid reference is listed |
| SeedValidation.InvalidRefLinesOnePerRef | app/seed_exercises.py:20-23 | there are as many error lines as listed invalid references, and line k reports the k-th of them, so lines come exercise by exercise and then reference by reference |
| SeedValidation.InvalidRefLinesCount | app/seed_exercises.py:20-23 | the number of error lines is the number of invalid (exercise, value) references |
| SeedValidation.InvalidRefLinesCharacterized | app/seed_exercises.py:17-26 | the check raises exactly when some exercise references a value outside the enumeration, and every reported line names such an exercise and value |
| SeedValidation.MemberValuesPass | app/seed_exercises.py:15-26 | data whose every reference is a member's value passes |
| SeedExercises.EnumEntriesPass | app/seed_exercises.py:15-26 | entries written with enumeration members always pass the check |
| SeedExercises.SeedDataPasses | app/seed_exercises.py:333-334 | the validation call on the built-in list never raises |
| SeedExercises.SeedCatalogDistinct | app/seed_exercises.py:29-343 | the seeded catalogue has pairwise-distinct names and pairwise-distinct ids |
| SeedExercises.SeedCatalogStocksEveryType | app/seed_exercises.py:29-331 | the seeded catalogue has at least six exercises of each of PUSH, PULL, SQUAT and HINGE, so its superset's first phase never raises |
| SeedExercises.SeedCatalogHasPool | app/seed_exercises.py:29-331 | without filters the pool drawn from the seeded catalogue holds all 31 exercises, at least the three a workout needs |
| SeedExercises.SeedAsWrittenMuscleStageKeepsAll | app/workout_generator.py:131-139 | every seeded exercise targets a muscle group, so the as-written stage returns the de-duplicated seeded catalogue unchanged whatever groups are allowed |

## Left out

- The database session and its queries are left out: `db.query(...).all()`, the table select in `get_exercises_by_movement_type`, and the ORM relationships. The catalogue is an explicit sequence in query order, and rows created by the seeding loop get ids 1, 2, … in list order.
- `get_exercises_by_movement_types` (app/workout_generator.py:35-40) is not modelled. Nothing calls it, and `select_exercise_for_movement_type` builds the same union inline at lines 60-62, which `SelectExerciseForMovementType` models.
- The HTTP layer in app/main.py is left out. It calls `generate_workout` with the duration only, so the filters are unreachable over HTTP.
- Seeding side effects are left out: the insert loop, the shared equipment and muscle-group rows, the printing in `list_valid_muscle_groups`, and the `__main__` block.
- The distributions of `random.sample` and `random.choice` are left out. The model constrains a choice only by membership and distinctness.
- The order of the list `generate_superset` returns is not modelled. It is `list(set)`, in an unspecified order, so `GenerateSuperset` returns the set.
- Composer.GenerateWorkout: uses the corrected muscle-group stage `CatalogueFilters.FilterByMuscleGroups`, not the stage as written (see Findings). As written, a non-empty muscle-group list keeps only the exercises with no muscle groups, or the whole list when every exercise has some. Every seeded exercise has some (`SeedExercises.SeedAsWrittenMuscleStageKeepsAll`), so on the seeded catalogue the program ignores the muscle-group list, while the model narrows the pool. With Pushup's groups allowed, the program keeps all 31 seeded exercises and the model keeps only those whose groups are all allowed.
- Composer.GenerateWorkout: the guard `if num_exercises > len(exercises): continue` (app/workout_generator.py:164) has no counterpart, because it can never fire (a count never exceeds min(10, len)).
- Composer.SearchBest requires pairwise-distinct names, which `generate_workout` guarantees by de-duplicating first. `random.sample` picks distinct positions, and with distinct names these are distinct exercises.
- A null `estimated_duration` is not modelled. Python would fail on `None + 30`; the model's duration is always an integer.
- `round(total_seconds / 60)` is modelled on integers. For whole seconds the float quotient is close enough that half-to-even on the exact value gives the same result.
- SeedValidation.ValidateMuscleGroups reads each reference's `.value` string. A reference that is not an enumeration member, which would make `.value` fail, is not modelled. The argument is a value, so "returns without changing its input" holds by construction.
- The description of each seed entry is left out, because nothing here reads it.

## Findings

| source | as written | input that shows it | evidently intended | confidence | as-written member | corrected member |
|---|---|---|---|---|---|---|
| app/workout_generator.py:134-136 | `ex_mgs` holds `MuscleGroupType` members, because `MuscleGroup.name` is an `Enum(MuscleGroupType)` column (app/models.py:85). `allowed_mg_set` holds strings, and a plain `Enum` member never equals a `str`. So `issubset` holds only for exercises with no muscle groups. With any muscle-group filter the stage keeps just the untargeted exercises, or falls back to the unfiltered list when every exercise targets some group. | `allowed_muscle_groups = ["chest", "front_deltoids", "triceps", "abs"]` over Pushup and Pull-ups keeps both, although none of Pull-ups' groups is allowed | compare the members' values (`mg.name.value`) with the allowed strings, the form clients send | not executed | CatalogueFilters.AsWrittenKeepsDisallowedExercise | CatalogueFilters.CorrectedDropsDisallowedExercise |

In the Dafny, the as-written stage is `CatalogueFilters.FilterByMuscleGroupsAsWritten`. `CatalogueFilters.IsAllowedByMuscleGroupsAsWritten` is its predicate, and its contract says which exercises it admits. The corrected predicate `CatalogueFilters.IsAllowedByMuscleGroups` compares `MuscleGroupValues(ex)` with the allowed strings. `CatalogueFilters.FilterByMuscleGroups`, which the composer uses, is built on it.
