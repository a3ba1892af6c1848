/**
 * The exercise catalogue the workout generator reads: the two enumerations
 * (movement types and muscle groups) and the exercise record. The database
 * session of the original is replaced by an explicit, in-memory catalogue,
 * a `seq<Exercise>` in query order.
 */
module Catalog {

  /** The six movement patterns of `MovementType`. */
  datatype MovementType = Push | Pull | Hinge | Squat | Twist | Core

  /** The eighteen members of `MuscleGroupType`: upper body, core, lower body. */
  datatype MuscleGroup =
    | Chest | FrontDeltoids | SideDeltoids | RearDeltoids | Biceps | Triceps | Forearms | UpperBack | Lats
    | Abs | Obliques | LowerBack
    | Quads | Hamstrings | Glutes | Calves | Adductors | Abductors

  /** The string `value` that each `MuscleGroupType` member carries. */
  function MuscleGroupValue(m: MuscleGroup): string
  {
    match m
    case Chest => "chest"
    case FrontDeltoids => "front_deltoids"
    case SideDeltoids => "side_deltoids"
    case RearDeltoids => "rear_deltoids"
    case Biceps => "biceps"
    case Triceps => "triceps"
    case Forearms => "forearms"
    case UpperBack => "upper_back"
    case Lats => "lats"
    case Abs => "abs"
    case Obliques => "obliques"
    case LowerBack => "lower_back"
    case Quads => "quads"
    case Hamstrings => "hamstrings"
    case Glutes => "glutes"
    case Calves => "calves"
    case Adductors => "adductors"
    case Abductors => "abductors"
  }

  /** The value set of `MuscleGroupType`: `{mg.value for mg in MuscleGroupType}`. */
  function ValidMuscleGroupValues(): set<string>
  {
    { "chest", "front_deltoids", "side_deltoids", "rear_deltoids", "biceps", "triceps", "forearms",
      "upper_back", "lats", "abs", "obliques", "lower_back", "quads", "hamstrings", "glutes", "calves",
      "adductors", "abductors" }
  }

  /** Every member's value is in the value set, and distinct members have distinct values. */
  lemma MuscleGroupValueSound(m: MuscleGroup, m': MuscleGroup)
    ensures MuscleGroupValue(m) in ValidMuscleGroupValues()
    ensures MuscleGroupValue(m) == MuscleGroupValue(m') ==> m == m'
  {
  }

  /** Every string of the value set is the value of some member, so the set is exactly the members' values. */
  lemma ValidValuesAreMemberValues(v: string)
    requires v in ValidMuscleGroupValues()
    ensures exists m :: MuscleGroupValue(m) == v
  {
    if v == "chest" {
      assert MuscleGroupValue(Chest) == v;
    } else if v == "front_deltoids" {
      assert MuscleGroupValue(FrontDeltoids) == v;
    } else if v == "side_deltoids" {
      assert MuscleGroupValue(SideDeltoids) == v;
    } else if v == "rear_deltoids" {
      assert MuscleGroupValue(RearDeltoids) == v;
    } else if v == "biceps" {
      assert MuscleGroupValue(Biceps) == v;
    } else if v == "triceps" {
      assert MuscleGroupValue(Triceps) == v;
    } else if v == "forearms" {
      assert MuscleGroupValue(Forearms) == v;
    } else if v == "upper_back" {
      assert MuscleGroupValue(UpperBack) == v;
    } else if v == "lats" {
      assert MuscleGroupValue(Lats) == v;
    } else if v == "abs" {
      assert MuscleGroupValue(Abs) == v;
    } else if v == "obliques" {
      assert MuscleGroupValue(Obliques) == v;
    } else if v == "lower_back" {
      assert MuscleGroupValue(LowerBack) == v;
    } else if v == "quads" {
      assert MuscleGroupValue(Quads) == v;
    } else if v == "hamstrings" {
      assert MuscleGroupValue(Hamstrings) == v;
    } else if v == "glutes" {
      assert MuscleGroupValue(Glutes) == v;
    } else if v == "calves" {
      assert MuscleGroupValue(Calves) == v;
    } else if v == "adductors" {
      assert MuscleGroupValue(Adductors) == v;
    } else if v == "abductors" {
      assert MuscleGroupValue(Abductors) == v;
    }
  }

  /**
   * One row of the `exercises` table together with its relationships:
   * movement types, muscle groups and equipment names, and the
   * `estimated_duration` in seconds.
   */
  datatype Exercise = Exercise(
    id: int,
    name: string,
    movementTypes: set<MovementType>,
    muscleGroups: set<MuscleGroup>,
    equipment: set<string>,
    duration: int)

  datatype Option<T> = None | Some(value: T)

  datatype Result<T, E> = Ok(value: T) | Err(error: E)

  /** The string muscle-group values an exercise references. */
  function MuscleGroupValues(ex: Exercise): set<string>
  {
    set m | m in ex.muscleGroups :: MuscleGroupValue(m)
  }

  /** The set of the elements of a sequence (Python's `set(xs)`). */
  function SetOf<T>(xs: seq<T>): set<T>
  {
    set x | x in xs
  }
}
