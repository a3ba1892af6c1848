/**
 * The thirty-one exercises of the seeding script, used as concrete data for
 * the validator and for the catalogue the generator reads after seeding.
 */
module SeedExercises {
  import opened Catalog
  import opened SeedValidation
  import CatalogueFilters
  import Superset
  import Composer

  /** One dictionary of the seed list (its description is not modelled). */
  datatype SeedEntry = SeedEntry(
    name: string,
    movementTypes: seq<MovementType>,
    duration: int,
    equipment: seq<string>,
    muscleGroups: seq<MuscleGroup>)

  /** The seed list, in order. */
  function SeedEntries(): seq<SeedEntry>
  {
    [
      TwoHandedKettlebellSwing(),
      Pushup(),
      SingleLegRomanianDeadlift(),
      LandmineTwist(),
      SuitcaseDeadlift(),
      SuitcaseLunge(),
      GobletSquat(),
      GobletLunge(),
      Gunslinger(),
      RenegadeRows(),
      KettlebellSideBend(),
      StandingDumbbellWoodChops(),
      StandingOverheadPress(),
      MountainClimbers(),
      BentOverKettlebellRowTwoHand(),
      BentOverKettlebellRowOneHand(),
      KettlebellHighPull(),
      PlankPullThrough(),
      SidePlankUnderarmTwist(),
      KneelingDumbbellStraightArmChop(),
      RackedKettlebellSquat(),
      Deadbugs(),
      CurtsyGobletLunge(),
      KickstandSingleArmDeadlift(),
      PullUps(),
      TricepDips(),
      BicepCurls(),
      HipBridges(),
      ReverseGobletLunge(),
      OverheadMarch(),
      SquatThrusterWithATwist()
    ]
  }

  // The entries of the seed list, one function each.

  function TwoHandedKettlebellSwing(): SeedEntry
  {
    SeedEntry("Two-handed Kettlebell Swing", [Hinge], 45, ["kettlebell"],
              [Hamstrings, Glutes, LowerBack, Abs])
  }

  function Pushup(): SeedEntry
  {
    SeedEntry("Pushup", [Push], 30, [],
              [Chest, FrontDeltoids, Triceps, Abs])
  }

  function SingleLegRomanianDeadlift(): SeedEntry
  {
    SeedEntry("Single Leg Romanian Deadlift", [Hinge], 40, ["kettlebell", "dumbbell"],
              [Hamstrings, Glutes, LowerBack, Abs])
  }

  function LandmineTwist(): SeedEntry
  {
    SeedEntry("Landmine Twist", [Twist], 35, ["dumbbell"],
              [Obliques, Abs, SideDeltoids])
  }

  function SuitcaseDeadlift(): SeedEntry
  {
    SeedEntry("Suitcase Deadlift", [Hinge], 40, ["kettlebell"],
              [Hamstrings, Glutes, LowerBack, Abs, Forearms])
  }

  function SuitcaseLunge(): SeedEntry
  {
    SeedEntry("Suitcase Lunge", [Squat], 40, ["kettlebell", "dumbbell"],
              [Quads, Glutes, Abs, Forearms])
  }

  function GobletSquat(): SeedEntry
  {
    SeedEntry("Goblet Squat", [Squat], 45, ["kettlebell"],
              [Quads, Glutes, Abs, Forearms])
  }

  function GobletLunge(): SeedEntry
  {
    SeedEntry("Goblet Lunge", [Squat], 40, ["kettlebell"],
              [Quads, Glutes, Abs, Forearms])
  }

  function Gunslinger(): SeedEntry
  {
    SeedEntry("Gunslinger", [Push, Squat], 50, ["kettlebell"],
              [Quads, Glutes, FrontDeltoids, Triceps, Abs])
  }

  function RenegadeRows(): SeedEntry
  {
    SeedEntry("Renegade Rows", [Push, Pull], 45, ["dumbbell"],
              [Chest, FrontDeltoids, Triceps, Lats, Biceps, Abs])
  }

  function KettlebellSideBend(): SeedEntry
  {
    SeedEntry("Kettlebell Side Bend", [Twist], 45, ["kettlebell"],
              [Abs, Obliques])
  }

  function StandingDumbbellWoodChops(): SeedEntry
  {
    SeedEntry("Standing Dumbbell Wood Chops", [Twist], 45, ["dumbbell"],
              [Abs, Obliques, FrontDeltoids])
  }

  function StandingOverheadPress(): SeedEntry
  {
    SeedEntry("Standing Overhead Press", [Push], 45, ["kettlebell", "dumbbell"],
              [FrontDeltoids, Triceps])
  }

  function MountainClimbers(): SeedEntry
  {
    SeedEntry("Mountain Climbers", [Core], 45, [],
              [Abs, FrontDeltoids])
  }

  function BentOverKettlebellRowTwoHand(): SeedEntry
  {
    SeedEntry("Bent-Over Kettlebell Row (Two Hand)", [Pull, Hinge], 45, ["kettlebell"],
              [UpperBack, Lats, Biceps])
  }

  function BentOverKettlebellRowOneHand(): SeedEntry
  {
    SeedEntry("Bent-Over Kettlebell Row (One Hand)", [Pull, Hinge], 45, ["kettlebell"],
              [UpperBack, Lats, Biceps])
  }

  function KettlebellHighPull(): SeedEntry
  {
    SeedEntry("Kettlebell High Pull", [Pull, Hinge], 45, ["kettlebell"],
              [UpperBack, Lats, FrontDeltoids])
  }

  function PlankPullThrough(): SeedEntry
  {
    SeedEntry("Plank Pull-Through", [Core], 45, ["kettlebell", "dumbbell"],
              [Abs, FrontDeltoids])
  }

  function SidePlankUnderarmTwist(): SeedEntry
  {
    SeedEntry("Side Plank Underarm Twist", [Core, Twist], 45, [],
              [Abs, Obliques, FrontDeltoids])
  }

  function KneelingDumbbellStraightArmChop(): SeedEntry
  {
    SeedEntry("Kneeling Dumbbell Straight Arm Chop", [Twist], 45, ["dumbbell"],
              [Abs, Obliques, FrontDeltoids])
  }

  function RackedKettlebellSquat(): SeedEntry
  {
    SeedEntry("Racked Kettlebell Squat", [Squat], 45, ["kettlebell"],
              [Quads, Glutes, Abs, LowerBack])
  }

  function Deadbugs(): SeedEntry
  {
    SeedEntry("Deadbugs", [Core], 40, ["dumbbell", "kettlebell"],
              [Abs, Obliques])
  }

  function CurtsyGobletLunge(): SeedEntry
  {
    SeedEntry("Curtsy Goblet Lunge", [Squat], 40, ["kettlebell"],
              [Quads, Glutes, Abs])
  }

  function KickstandSingleArmDeadlift(): SeedEntry
  {
    SeedEntry("Kickstand Single Arm Deadlift", [Hinge], 40, ["kettlebell"],
              [Hamstrings, Glutes, LowerBack, Forearms])
  }

  function PullUps(): SeedEntry
  {
    SeedEntry("Pull-ups", [Pull], 30, ["stall bars"],
              [Lats, Biceps, UpperBack])
  }

  function TricepDips(): SeedEntry
  {
    SeedEntry("Tricep Dips", [Push], 30, ["stall bars"],
              [Triceps, Chest, FrontDeltoids])
  }

  function BicepCurls(): SeedEntry
  {
    SeedEntry("Bicep Curls", [Pull], 30, ["dumbbell", "kettlebell"],
              [Biceps, Forearms])
  }

  function HipBridges(): SeedEntry
  {
    SeedEntry("Hip Bridges", [Hinge], 35, ["dumbbell"],
              [Glutes, Hamstrings, LowerBack])
  }

  function ReverseGobletLunge(): SeedEntry
  {
    SeedEntry("Reverse Goblet Lunge", [Squat], 40, ["kettlebell"],
              [Quads, Glutes, Abs])
  }

  function OverheadMarch(): SeedEntry
  {
    SeedEntry("Overhead March", [Core], 35, ["kettlebell", "dumbbell"],
              [Abs, FrontDeltoids, Obliques])
  }

  function SquatThrusterWithATwist(): SeedEntry
  {
    SeedEntry("Squat Thruster with a Twist", [Squat, Push, Twist], 45, ["dumbbell"],
              [Quads, Glutes, Abs, Obliques, FrontDeltoids, Triceps])
  }

  /** The `.value` of each muscle-group member, in order. */
  function Values(groups: seq<MuscleGroup>): (values: seq<string>)
    ensures |values| == |groups|
    ensures forall k :: 0 <= k < |groups| ==> values[k] == MuscleGroupValue(groups[k])
  {
    seq(|groups|, k requires 0 <= k < |groups| => MuscleGroupValue(groups[k]))
  }

  /** What the validator reads of the seed list: each name with the values of its muscle groups. */
  function ValidatorInput(entries: seq<SeedEntry>): (data: seq<ExerciseData>)
    ensures |data| == |entries|
    ensures forall i :: 0 <= i < |entries| ==>
      data[i] == ExerciseData(entries[i].name, Values(entries[i].muscleGroups))
  {
    seq(|entries|, i requires 0 <= i < |entries| => ExerciseData(entries[i].name, Values(entries[i].muscleGroups)))
  }

  /** Every entry written with enumeration members passes the validator, whatever the members. */
  lemma EnumEntriesPass(entries: seq<SeedEntry>)
    ensures InvalidRefLines(ValidatorInput(entries)) == []
  {
    var data := ValidatorInput(entries);
    InvalidRefLinesCharacterized(data);
    forall i, j | 0 <= i < |data| && 0 <= j < |data[i].muscleGroupValues|
      ensures !HasInvalidRef(data, i, j)
    {
      var m := entries[i].muscleGroups[j];
      assert data[i].muscleGroupValues[j] == MuscleGroupValue(m);
      MuscleGroupValueSound(m, m);
    }
  }

  /** The validation call in the seeding script never raises on the built-in list. */
  lemma SeedDataPasses()
    ensures InvalidRefLines(ValidatorInput(SeedEntries())) == []
  {
    EnumEntriesPass(SeedEntries());
  }

  /** The exercise row the seeding loop creates for an entry, with its id. */
  function Seeded(id: int, entry: SeedEntry): Exercise
  {
    Exercise(id, entry.name, SetOf(entry.movementTypes), SetOf(entry.muscleGroups), SetOf(entry.equipment), entry.duration)
  }

  /** The catalogue after seeding an empty database: ids 1, 2, ... in list order. */
  function SeedCatalog(): (catalog: seq<Exercise>)
    ensures |catalog| == |SeedEntries()|
    ensures forall i :: 0 <= i < |catalog| ==> catalog[i] == Seeded(i + 1, SeedEntries()[i])
  {
    var entries := SeedEntries();
    seq(|entries|, i requires 0 <= i < |entries| => Seeded(i + 1, entries[i]))
  }

  /** A set holding six exercises with increasing ids has at least six members. */
  lemma SixMembers(s: set<Exercise>, a: Exercise, b: Exercise, c: Exercise, d: Exercise, e: Exercise, f: Exercise)
    requires a in s && b in s && c in s && d in s && e in s && f in s
    requires a.id < b.id < c.id < d.id < e.id < f.id
    ensures |s| >= 6
  {
    Superset.SubsetCard({a, b, c, d, e, f}, s);
  }

  /** The exercise at position i of the seeded catalogue has id i + 1 and the movement types of its entry. */
  lemma SeededOfType(t: MovementType, i: nat)
    requires i < |SeedCatalog()| && t in SeedEntries()[i].movementTypes
    ensures t in SeedCatalog()[i].movementTypes && SeedCatalog()[i].id == i + 1
  {
  }

  /** Six catalogue positions with increasing ids whose exercises have type t make at least six of that type. */
  lemma StockedAt(catalog: seq<Exercise>, t: MovementType, i0: nat, i1: nat, i2: nat, i3: nat, i4: nat, i5: nat)
    requires i0 < |catalog| && i1 < |catalog| && i2 < |catalog| && i3 < |catalog| && i4 < |catalog| && i5 < |catalog|
    requires catalog[i0].id < catalog[i1].id < catalog[i2].id < catalog[i3].id < catalog[i4].id < catalog[i5].id
    requires t in catalog[i0].movementTypes && t in catalog[i1].movementTypes && t in catalog[i2].movementTypes
    requires t in catalog[i3].movementTypes && t in catalog[i4].movementTypes && t in catalog[i5].movementTypes
    ensures |Superset.OfMovementType(catalog, t)| >= 6
  {
    SixMembers(Superset.OfMovementType(catalog, t), catalog[i0], catalog[i1], catalog[i2], catalog[i3], catalog[i4], catalog[i5]);
  }

  /** Three of the six seeded PUSH exercises, by position. */
  lemma SeedStocksPushPositionsA()
    ensures var c := SeedCatalog(); |c| == 31 && Push in c[1].movementTypes && Push in c[8].movementTypes && Push in c[9].movementTypes
    ensures var c := SeedCatalog(); c[1].id == 2 && c[8].id == 9 && c[9].id == 10
  {
    SeededOfType(Push, 1);
    SeededOfType(Push, 8);
    SeededOfType(Push, 9);
  }

  /** Three of the six seeded PUSH exercises, by position. */
  lemma SeedStocksPushPositionsB()
    ensures var c := SeedCatalog(); |c| == 31 && Push in c[12].movementTypes && Push in c[25].movementTypes && Push in c[30].movementTypes
    ensures var c := SeedCatalog(); c[12].id == 13 && c[25].id == 26 && c[30].id == 31
  {
    SeededOfType(Push, 12);
    SeededOfType(Push, 25);
    SeededOfType(Push, 30);
  }

  /** PUSH: Pushup, Gunslinger, Renegade Rows, Standing Overhead Press, Tricep Dips, Squat Thruster with a Twist. */
  lemma SeedStocksPush()
    ensures |Superset.OfMovementType(SeedCatalog(), Push)| >= 6
  {
    SeedStocksPushPositionsA();
    SeedStocksPushPositionsB();
    StockedAt(SeedCatalog(), Push, 1, 8, 9, 12, 25, 30);
  }

  /** Three of the six seeded PULL exercises, by position. */
  lemma SeedStocksPullPositionsA()
    ensures var c := SeedCatalog(); |c| == 31 && Pull in c[9].movementTypes && Pull in c[14].movementTypes && Pull in c[15].movementTypes
    ensures var c := SeedCatalog(); c[9].id == 10 && c[14].id == 15 && c[15].id == 16
  {
    SeededOfType(Pull, 9);
    SeededOfType(Pull, 14);
    SeededOfType(Pull, 15);
  }

  /** Three of the six seeded PULL exercises, by position. */
  lemma SeedStocksPullPositionsB()
    ensures var c := SeedCatalog(); |c| == 31 && Pull in c[16].movementTypes && Pull in c[24].movementTypes && Pull in c[26].movementTypes
    ensures var c := SeedCatalog(); c[16].id == 17 && c[24].id == 25 && c[26].id == 27
  {
    SeededOfType(Pull, 16);
    SeededOfType(Pull, 24);
    SeededOfType(Pull, 26);
  }

  /** PULL: Renegade Rows, both Bent-Over Rows, Kettlebell High Pull, Pull-ups, Bicep Curls. */
  lemma SeedStocksPull()
    ensures |Superset.OfMovementType(SeedCatalog(), Pull)| >= 6
  {
    SeedStocksPullPositionsA();
    SeedStocksPullPositionsB();
    StockedAt(SeedCatalog(), Pull, 9, 14, 15, 16, 24, 26);
  }

  /** Three of the six seeded SQUAT exercises, by position. */
  lemma SeedStocksSquatPositionsA()
    ensures var c := SeedCatalog(); |c| == 31 && Squat in c[5].movementTypes && Squat in c[6].movementTypes && Squat in c[7].movementTypes
    ensures var c := SeedCatalog(); c[5].id == 6 && c[6].id == 7 && c[7].id == 8
  {
    SeededOfType(Squat, 5);
    SeededOfType(Squat, 6);
    SeededOfType(Squat, 7);
  }

  /** Three of the six seeded SQUAT exercises, by position. */
  lemma SeedStocksSquatPositionsB()
    ensures var c := SeedCatalog(); |c| == 31 && Squat in c[8].movementTypes && Squat in c[20].movementTypes && Squat in c[22].movementTypes
    ensures var c := SeedCatalog(); c[8].id == 9 && c[20].id == 21 && c[22].id == 23
  {
    SeededOfType(Squat, 8);
    SeededOfType(Squat, 20);
    SeededOfType(Squat, 22);
  }

  /** SQUAT: Suitcase Lunge, Goblet Squat, Goblet Lunge, Gunslinger, Racked Kettlebell Squat, Curtsy Goblet Lunge. */
  lemma SeedStocksSquat()
    ensures |Superset.OfMovementType(SeedCatalog(), Squat)| >= 6
  {
    SeedStocksSquatPositionsA();
    SeedStocksSquatPositionsB();
    StockedAt(SeedCatalog(), Squat, 5, 6, 7, 8, 20, 22);
  }

  /** Three of the six seeded HINGE exercises, by position. */
  lemma SeedStocksHingePositionsA()
    ensures var c := SeedCatalog(); |c| == 31 && Hinge in c[0].movementTypes && Hinge in c[2].movementTypes && Hinge in c[4].movementTypes
    ensures var c := SeedCatalog(); c[0].id == 1 && c[2].id == 3 && c[4].id == 5
  {
    SeededOfType(Hinge, 0);
    SeededOfType(Hinge, 2);
    SeededOfType(Hinge, 4);
  }

  /** Three of the six seeded HINGE exercises, by position. */
  lemma SeedStocksHingePositionsB()
    ensures var c := SeedCatalog(); |c| == 31 && Hinge in c[14].movementTypes && Hinge in c[15].movementTypes && Hinge in c[16].movementTypes
    ensures var c := SeedCatalog(); c[14].id == 15 && c[15].id == 16 && c[16].id == 17
  {
    SeededOfType(Hinge, 14);
    SeededOfType(Hinge, 15);
    SeededOfType(Hinge, 16);
  }

  /** HINGE: Kettlebell Swing, Single Leg Romanian Deadlift, Suitcase Deadlift, both Bent-Over Rows, High Pull. */
  lemma SeedStocksHinge()
    ensures |Superset.OfMovementType(SeedCatalog(), Hinge)| >= 6
  {
    SeedStocksHingePositionsA();
    SeedStocksHingePositionsB();
    StockedAt(SeedCatalog(), Hinge, 0, 2, 4, 14, 15, 16);
  }

  /**
   * The seeded catalogue stocks each of PUSH, PULL, SQUAT and HINGE with at
   * least six exercises, so by `Superset.GenerateSuperset`'s contract its
   * first phase never raises on it.
   */
  lemma SeedCatalogStocksEveryType()
    ensures forall t :: t in Superset.RequiredMovementTypes - Superset.CoreMovementTypes ==>
      |Superset.OfMovementType(SeedCatalog(), t)| >= |Superset.RequiredMovementTypes|
  {
    SeedStocksPush();
    SeedStocksPull();
    SeedStocksSquat();
    SeedStocksHinge();
    assert Superset.RequiredMovementTypes - Superset.CoreMovementTypes == {Push, Pull, Squat, Hinge};
  }

  /** The names of the seed list, in order. */
  function SeedNameList(): seq<string>
  {
    ["Two-handed Kettlebell Swing",
      "Pushup",
      "Single Leg Romanian Deadlift",
      "Landmine Twist",
      "Suitcase Deadlift",
      "Suitcase Lunge",
      "Goblet Squat",
      "Goblet Lunge",
      "Gunslinger",
      "Renegade Rows",
      "Kettlebell Side Bend",
      "Standing Dumbbell Wood Chops",
      "Standing Overhead Press",
      "Mountain Climbers",
      "Bent-Over Kettlebell Row (Two Hand)",
      "Bent-Over Kettlebell Row (One Hand)",
      "Kettlebell High Pull",
      "Plank Pull-Through",
      "Side Plank Underarm Twist",
      "Kneeling Dumbbell Straight Arm Chop",
      "Racked Kettlebell Squat",
      "Deadbugs",
      "Curtsy Goblet Lunge",
      "Kickstand Single Arm Deadlift",
      "Pull-ups",
      "Tricep Dips",
      "Bicep Curls",
      "Hip Bridges",
      "Reverse Goblet Lunge",
      "Overhead March",
      "Squat Thruster with a Twist"]
  }

  /** The names of the seeded catalogue are those of the seed list, position by position. */
  lemma SeedCatalogNames()
    ensures |SeedCatalog()| == |SeedNameList()|
    ensures forall i :: 0 <= i < |SeedCatalog()| ==> SeedCatalog()[i].name == SeedNameList()[i]
  {
  }

  /** No name occurs twice in the seed list. */
  lemma SeedNameListDistinct()
    ensures forall i, j :: 0 <= i < j < |SeedNameList()| ==> SeedNameList()[i] != SeedNameList()[j]
  {
    SeedNameListDistinctFrom(0, 8);
    SeedNameListDistinctFrom(8, 18);
    SeedNameListDistinctFrom(18, 31);
  }

  /** No name at a position in `lo..hi` occurs again later in the seed list. */
  lemma SeedNameListDistinctFrom(lo: nat, hi: nat)
    requires lo <= hi <= |SeedNameList()|
    ensures forall i, j :: lo <= i < hi && i < j < |SeedNameList()| ==> SeedNameList()[i] != SeedNameList()[j]
  {
    var names := SeedNameList();
    forall i, j | lo <= i < hi && i < j < |names| ensures names[i] != names[j] {
      assert names[i] != names[j];
    }
  }

  /**
   * The seeded catalogue has pairwise-distinct names and pairwise-distinct
   * ids, so de-duplication by name removes nothing from it.
   */
  lemma SeedCatalogDistinct()
    ensures CatalogueFilters.DistinctNames(SeedCatalog())
    ensures forall i, j :: 0 <= i < j < |SeedCatalog()| ==> SeedCatalog()[i].id != SeedCatalog()[j].id
  {
    SeedCatalogNames();
    SeedNameListDistinct();
  }

  /**
   * Without filters the pool drawn from the seeded catalogue holds all 31
   * exercises, so by `Composer.GenerateWorkout`'s contract a workout is found.
   */
  lemma SeedCatalogHasPool()
    ensures |CatalogueFilters.FilteredPool(SeedCatalog(), [], [])| == |SeedEntries()| == 31
    ensures |CatalogueFilters.FilteredPool(SeedCatalog(), [], [])| >= Composer.MinExercises
  {
    SeedCatalogDistinct();
    CatalogueFilters.FilteredPoolProperties(SeedCatalog(), [], []);
    CatalogueFilters.DistinctNamesCount(SeedCatalog());
  }

  /** Every entry of the seed list names at least one muscle group. */
  lemma SeedEntriesTargeted()
    ensures forall i :: 0 <= i < |SeedEntries()| ==> SeedEntries()[i].muscleGroups != []
  {
  }

  /**
   * Every seeded exercise targets a muscle group, so the as-written
   * muscle-group stage leaves the de-duplicated seeded catalogue unchanged
   * whatever groups are allowed.
   */
  lemma SeedAsWrittenMuscleStageKeepsAll(allowedMuscleGroups: seq<string>)
    ensures forall x :: x in SeedCatalog() ==> x.muscleGroups != {}
    ensures CatalogueFilters.FilterByMuscleGroupsAsWritten(CatalogueFilters.KeepFirst(SeedCatalog()), allowedMuscleGroups)
         == CatalogueFilters.KeepFirst(SeedCatalog())
  {
    SeedEntriesTargeted();
    forall x | x in SeedCatalog() ensures x.muscleGroups != {} {
      var i :| 0 <= i < |SeedCatalog()| && SeedCatalog()[i] == x;
      assert SeedEntries()[i].muscleGroups[0] in x.muscleGroups;
    }
    CatalogueFilters.KeepFirstProperties(SeedCatalog());
  }
}
