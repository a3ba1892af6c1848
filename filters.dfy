/**
 * The catalogue preparation steps of `generate_workout`: de-duplication by
 * name (first occurrence wins, catalogue order kept) and the two optional
 * filters, each of which is skipped when it would empty the list.
 */
module CatalogueFilters {
  import opened Catalog

  /** The names occurring in a list of exercises. */
  function Names(s: seq<Exercise>): set<string>
  {
    set x | x in s :: x.name
  }

  /** No two positions of the list hold exercises of the same name. */
  predicate DistinctNames(s: seq<Exercise>)
  {
    forall i, j :: 0 <= i < j < |s| ==> s[i].name != s[j].name
  }

  lemma NamesAppend(s: seq<Exercise>, x: Exercise)
    ensures Names(s + [x]) == Names(s) + {x.name}
  {
    assert forall y :: y in s + [x] <==> y in s || y == x;
  }

  // ---------------------------------------------------------------------------
  // De-duplication

  /**
   * Reference definition of de-duplication: position i of the catalogue is
   * kept exactly when no earlier position holds an exercise of the same name.
   */
  function KeepFirst(s: seq<Exercise>): seq<Exercise>
  {
    if s == [] then []
    else
      var init, last := s[..|s| - 1], s[|s| - 1];
      KeepFirst(init) + (if last.name in Names(init) then [] else [last])
  }

  /**
   * The de-duplicating loop of `generate_workout`. The dictionary
   * `unique_exercises` is kept as its key set `seen` and its values in
   * insertion order `unique`, which is what `list(unique_exercises.values())`
   * returns.
   */
  method Deduplicate(exercises: seq<Exercise>) returns (unique: seq<Exercise>)
    ensures unique == KeepFirst(exercises)
  {
    var seen: set<string> := {};
    unique := [];
    for i := 0 to |exercises|
      invariant unique == KeepFirst(exercises[..i])
      invariant seen == Names(exercises[..i])
    {
      var ex := exercises[i];
      assert exercises[..i + 1] == exercises[..i] + [ex];
      NamesAppend(exercises[..i], ex);
      if ex.name !in seen {
        seen := seen + {ex.name};
        unique := unique + [ex];
      }
    }
    assert exercises[..|exercises|] == exercises;
  }

  /** The de-duplicated list keeps every name, invents no exercise, and has pairwise-distinct names. */
  lemma {:induction false} KeepFirstProperties(s: seq<Exercise>)
    ensures Names(KeepFirst(s)) == Names(s)
    ensures forall x :: x in KeepFirst(s) ==> x in s
    ensures DistinctNames(KeepFirst(s))
  {
    if s != [] {
      var init, last := s[..|s| - 1], s[|s| - 1];
      assert s == init + [last];
      KeepFirstProperties(init);
      NamesAppend(init, last);
      var prefix := KeepFirst(init);
      if last.name !in Names(init) {
        NamesAppend(prefix, last);
        forall i | 0 <= i < |prefix|
          ensures prefix[i].name != last.name
        {
          assert prefix[i] in prefix;
        }
      }
    }
  }

  /** The position of the first exercise in s with the given name. */
  function FirstIndex(s: seq<Exercise>, name: string): (i: nat)
    requires name in Names(s)
    ensures i < |s| && s[i].name == name
    ensures name !in Names(s[..i])
  {
    var init, last := s[..|s| - 1], s[|s| - 1];
    assert s == init + [last];
    NamesAppend(init, last);
    if name in Names(init) then
      var i := FirstIndex(init, name);
      assert s[..i] == init[..i];
      i
    else
      |s| - 1
  }

  /**
   * First occurrence wins and catalogue order is kept: the k-th kept
   * exercise is the catalogue's first exercise of its name, and these
   * first positions increase with k.
   */
  lemma {:induction false} KeepFirstIsFirstOccurrencesInOrder(s: seq<Exercise>)
    ensures forall k :: 0 <= k < |KeepFirst(s)| ==>
      KeepFirst(s)[k] in s && KeepFirst(s)[k] == s[FirstIndex(s, KeepFirst(s)[k].name)]
    ensures forall k, k' :: 0 <= k < k' < |KeepFirst(s)| ==>
      FirstIndex(s, KeepFirst(s)[k].name) < FirstIndex(s, KeepFirst(s)[k'].name)
  {
    if s != [] {
      var init, last := s[..|s| - 1], s[|s| - 1];
      assert s == init + [last];
      NamesAppend(init, last);
      KeepFirstIsFirstOccurrencesInOrder(init);
      KeepFirstProperties(init);
      var prefix, r := KeepFirst(init), KeepFirst(s);
      forall k | 0 <= k < |prefix|
        ensures r[k] == prefix[k] && prefix[k].name in Names(init)
        ensures FirstIndex(s, r[k].name) == FirstIndex(init, prefix[k].name)
      {
        assert prefix[k] in prefix;
      }
      if last.name !in Names(init) {
        assert r[|prefix|] == last;
        assert FirstIndex(s, last.name) == |s| - 1;
      }
    }
  }

  /** A list with distinct names has as many names as positions. */
  lemma {:induction false} DistinctNamesCount(s: seq<Exercise>)
    requires DistinctNames(s)
    ensures |Names(s)| == |s|
  {
    if s != [] {
      var init, last := s[..|s| - 1], s[|s| - 1];
      assert s == init + [last];
      NamesAppend(init, last);
      DistinctNamesCount(init);
    }
  }

  /** The de-duplicated catalogue has one entry per distinct name; it is empty only when the catalogue is. */
  lemma DeduplicatedSize(s: seq<Exercise>)
    ensures |KeepFirst(s)| == |Names(s)|
    ensures KeepFirst(s) == [] <==> s == []
  {
    KeepFirstProperties(s);
    DistinctNamesCount(KeepFirst(s));
    if s != [] {
      assert s[0].name in Names(s);
    }
  }

  // ---------------------------------------------------------------------------
  // Filters

  /** A sequence of distinct names keeps them distinct past its head, and its head's name does not recur. */
  lemma DistinctNamesTail(s: seq<Exercise>)
    requires s != []
    ensures DistinctNames(s) ==> DistinctNames(s[1..])
    ensures DistinctNames(s) ==> forall x :: x in s[1..] ==> x.name != s[0].name
  {
    if DistinctNames(s) {
      forall x | x in s[1..] ensures x.name != s[0].name {
        var j :| 0 <= j < |s[1..]| && s[1..][j] == x;
        assert s[j + 1] == x;
      }
      forall i, j | 0 <= i < j < |s[1..]| ensures s[1..][i].name != s[1..][j].name {
        assert s[1..][i] == s[i + 1] && s[1..][j] == s[j + 1];
      }
    }
  }

  /** Python's `list(filter(keep, s))`. */
  function Filter(s: seq<Exercise>, keep: Exercise -> bool): (r: seq<Exercise>)
    ensures forall x :: x in r <==> x in s && keep(x)
    ensures |r| <= |s|
    ensures DistinctNames(s) ==> DistinctNames(r)
  {
    if s == [] then []
    else
      var rest := Filter(s[1..], keep);
      DistinctNamesTail(s);
      (if keep(s[0]) then [s[0]] else []) + rest
  }

  /** `is_allowed_by_mg`, as intended: every muscle group of the exercise is an allowed one. */
  predicate IsAllowedByMuscleGroups(ex: Exercise, allowed: set<string>)
  {
    MuscleGroupValues(ex) <= allowed
  }

  /** `is_allowed_by_equip`: the exercise uses at least one allowed piece of equipment. */
  predicate IsAllowedByEquipment(ex: Exercise, allowed: set<string>)
  {
    ex.equipment * allowed != {}
  }

  /**
   * The muscle-group stage: when groups are given (a non-empty list), keep
   * the exercises all of whose groups are allowed, unless none is.
   */
  function FilterByMuscleGroups(exercises: seq<Exercise>, allowedMuscleGroups: seq<string>): (r: seq<Exercise>)
    ensures forall x :: x in r ==> x in exercises
    ensures DistinctNames(exercises) ==> DistinctNames(r)
    ensures exercises != [] ==> r != []
    ensures allowedMuscleGroups != [] && (exists x :: x in exercises && IsAllowedByMuscleGroups(x, SetOf(allowedMuscleGroups))) ==>
      forall x :: x in r <==> x in exercises && IsAllowedByMuscleGroups(x, SetOf(allowedMuscleGroups))
    ensures allowedMuscleGroups == [] || (forall x :: x in exercises ==> !IsAllowedByMuscleGroups(x, SetOf(allowedMuscleGroups))) ==>
      r == exercises
  {
    if allowedMuscleGroups == [] then exercises
    else
      var allowed := SetOf(allowedMuscleGroups);
      var filtered := Filter(exercises, ex => IsAllowedByMuscleGroups(ex, allowed));
      if filtered != [] then assert filtered[0] in filtered; filtered else exercises
  }

  /**
   * The equipment stage: when equipment is given, keep the exercises that
   * use some allowed equipment (so exercises without equipment go), unless
   * none does.
   */
  function FilterByEquipment(exercises: seq<Exercise>, allowedEquipment: seq<string>): (r: seq<Exercise>)
    ensures forall x :: x in r ==> x in exercises
    ensures DistinctNames(exercises) ==> DistinctNames(r)
    ensures exercises != [] ==> r != []
    ensures allowedEquipment != [] && (exists x :: x in exercises && IsAllowedByEquipment(x, SetOf(allowedEquipment))) ==>
      forall x :: x in r <==> x in exercises && IsAllowedByEquipment(x, SetOf(allowedEquipment))
    ensures allowedEquipment == [] || (forall x :: x in exercises ==> !IsAllowedByEquipment(x, SetOf(allowedEquipment))) ==>
      r == exercises
  {
    if allowedEquipment == [] then exercises
    else
      var allowed := SetOf(allowedEquipment);
      var filtered := Filter(exercises, ex => IsAllowedByEquipment(ex, allowed));
      if filtered != [] then assert filtered[0] in filtered; filtered else exercises
  }

  /** The list the search draws from: de-duplicated, then filtered by muscle groups, then by equipment. */
  function FilteredPool(catalog: seq<Exercise>, allowedMuscleGroups: seq<string>, allowedEquipment: seq<string>): seq<Exercise>
  {
    FilterByEquipment(FilterByMuscleGroups(KeepFirst(catalog), allowedMuscleGroups), allowedEquipment)
  }

  /**
   * The pool holds catalogue exercises with distinct names, is non-empty for
   * a non-empty catalogue, and without filters has one entry per name.
   */
  lemma FilteredPoolProperties(catalog: seq<Exercise>, allowedMuscleGroups: seq<string>, allowedEquipment: seq<string>)
    ensures forall x :: x in FilteredPool(catalog, allowedMuscleGroups, allowedEquipment) ==> x in catalog
    ensures DistinctNames(FilteredPool(catalog, allowedMuscleGroups, allowedEquipment))
    ensures catalog != [] <==> FilteredPool(catalog, allowedMuscleGroups, allowedEquipment) != []
    ensures allowedMuscleGroups == [] && allowedEquipment == [] ==>
      |FilteredPool(catalog, allowedMuscleGroups, allowedEquipment)| == |Names(catalog)|
  {
    KeepFirstProperties(catalog);
    DeduplicatedSize(catalog);
  }

  // ---------------------------------------------------------------------------
  // The muscle-group predicate as the source writes it

  /**
   * The `MuscleGroupType` members that Python's `==` finds among the strings
   * of `allowed_mg_set`: a plain `Enum` member equals only itself, never a
   * `str`, so there are none.
   */
  function EnumMembersEqualTo(allowed: set<string>): set<MuscleGroup>
  {
    {}
  }

  /**
   * `is_allowed_by_mg` as written: `ex_mgs` holds `MuscleGroupType` members
   * (the column type of `MuscleGroup.name`) while `allowed_mg_set` holds
   * strings, so `issubset` compares members with strings.
   */
  function IsAllowedByMuscleGroupsAsWritten(ex: Exercise, allowed: set<string>): (r: bool)
    ensures r <==> ex.muscleGroups == {}
  {
    ex.muscleGroups <= EnumMembersEqualTo(allowed)
  }

  /**
   * The muscle-group stage with the as-written predicate: whatever groups
   * are allowed, it keeps exactly the exercises that target no muscle group
   * when there are some, and otherwise leaves the list unchanged.
   */
  function FilterByMuscleGroupsAsWritten(exercises: seq<Exercise>, allowedMuscleGroups: seq<string>): (r: seq<Exercise>)
    ensures allowedMuscleGroups != [] && (exists x :: x in exercises && x.muscleGroups == {}) ==>
      forall x :: x in r <==> x in exercises && x.muscleGroups == {}
    ensures allowedMuscleGroups == [] || (forall x :: x in exercises ==> x.muscleGroups != {}) ==> r == exercises
  {
    if allowedMuscleGroups == [] then exercises
    else
      var allowed := SetOf(allowedMuscleGroups);
      var filtered := Filter(exercises, ex => IsAllowedByMuscleGroupsAsWritten(ex, allowed));
      if filtered != [] then assert filtered[0] in filtered; filtered
      else
        assert forall x :: x in exercises ==> x.muscleGroups != {} by {
          forall x | x in exercises ensures x.muscleGroups != {} {
            assert !IsAllowedByMuscleGroupsAsWritten(x, allowed);
          }
        }
        exercises
  }

  /** Two seeded exercises: "Pushup" and "Pull-ups", which share no muscle group. */
  function PushupFixture(): Exercise
  {
    Exercise(2, "Pushup", {Push}, {Chest, FrontDeltoids, Triceps, Abs}, {}, 30)
  }

  function PullUpsFixture(): Exercise
  {
    Exercise(25, "Pull-ups", {Pull}, {Lats, Biceps, UpperBack}, {"stall bars"}, 30)
  }

  /** The muscle groups of "Pushup", as the values a client sends. */
  function PushupGroupValues(): seq<string>
  {
    ["chest", "front_deltoids", "triceps", "abs"]
  }

  /**
   * The discrepancy with the groups of "Pushup" allowed: as written, the
   * stage keeps "Pull-ups", none of whose groups is allowed.
   */
  lemma AsWrittenKeepsDisallowedExercise()
    ensures FilterByMuscleGroupsAsWritten([PushupFixture(), PullUpsFixture()], PushupGroupValues())
         == [PushupFixture(), PullUpsFixture()]
    ensures !IsAllowedByMuscleGroups(PullUpsFixture(), SetOf(PushupGroupValues()))
  {
    var pushup, pullUps := PushupFixture(), PullUpsFixture();
    var allowedSet := SetOf(PushupGroupValues());
    assert [pushup, pullUps][1..] == [pullUps];
    assert [pullUps][1..] == [];
    assert "lats" in MuscleGroupValues(pullUps) && "lats" !in allowedSet;
    assert Filter([pushup, pullUps], ex => IsAllowedByMuscleGroupsAsWritten(ex, allowedSet)) == [];
  }

  /** With the same input the corrected stage keeps only "Pushup". */
  lemma CorrectedDropsDisallowedExercise()
    ensures FilterByMuscleGroups([PushupFixture(), PullUpsFixture()], PushupGroupValues()) == [PushupFixture()]
  {
    var pushup, pullUps := PushupFixture(), PullUpsFixture();
    var allowedSet := SetOf(PushupGroupValues());
    assert [pushup, pullUps][1..] == [pullUps];
    assert [pullUps][1..] == [];
    assert MuscleGroupValues(pushup) == {"chest", "front_deltoids", "triceps", "abs"};
    assert "lats" in MuscleGroupValues(pullUps) && "lats" !in allowedSet;
    assert Filter([pushup, pullUps], ex => IsAllowedByMuscleGroups(ex, allowedSet)) == [pushup];
  }
}
