/**
 * The check the seeding script runs over its exercise data before writing
 * anything: every muscle-group reference must carry the value of a member of
 * the muscle-group enumeration. Each reference is modelled by the string
 * value it carries (`muscle_group.value`).
 */
module SeedValidation {
  import opened Catalog

  /** One entry of the seed data, as far as the check reads it: its name and its muscle-group values. */
  datatype ExerciseData = ExerciseData(name: string, muscleGroupValues: seq<string>)

  /** The line reported for one invalid reference. */
  function ErrorLine(name: string, value: string): string
  {
    "Exercise '" + name + "' references invalid muscle group: " + value
  }

  /** The error lines for the invalid values of one exercise, in order. */
  function InvalidRefs(name: string, values: seq<string>): seq<string>
  {
    if values == [] then []
    else
      var last := values[|values| - 1];
      InvalidRefs(name, values[..|values| - 1]) + (if last in ValidMuscleGroupValues() then [] else [ErrorLine(name, last)])
  }

  /** The error lines for a whole data list: exercise by exercise, then reference by reference. */
  function InvalidRefLines(data: seq<ExerciseData>): seq<string>
  {
    if data == [] then []
    else
      var last := data[|data| - 1];
      InvalidRefLines(data[..|data| - 1]) + InvalidRefs(last.name, last.muscleGroupValues)
  }

  /** Python's `sep.join(lines)`. */
  function Join(lines: seq<string>, sep: string): string
  {
    if lines == [] then ""
    else if |lines| == 1 then lines[0]
    else Join(lines[..|lines| - 1], sep) + sep + lines[|lines| - 1]
  }

  /** The text of the `ValueError` raised for the given error lines. */
  function FailureMessage(errors: seq<string>): string
  {
    "Invalid muscle group references found:\n" + Join(errors, "\n")
  }

  /**
   * `validate_muscle_groups`: collects one error line per invalid reference
   * and raises, modelled as `Err(message)`, when there is at least one.
   */
  method ValidateMuscleGroups(data: seq<ExerciseData>) returns (r: Result<(), string>)
    ensures InvalidRefLines(data) == [] ==> r == Ok(())
    ensures InvalidRefLines(data) != [] ==> r == Err(FailureMessage(InvalidRefLines(data)))
  {
    var valid := ValidMuscleGroupValues();
    var errors: seq<string> := [];
    for i := 0 to |data|
      invariant errors == InvalidRefLines(data[..i])
    {
      var exercise := data[i];
      assert data[..i + 1][..i] == data[..i];
      for j := 0 to |exercise.muscleGroupValues|
        invariant errors == InvalidRefLines(data[..i]) + InvalidRefs(exercise.name, exercise.muscleGroupValues[..j])
      {
        var value := exercise.muscleGroupValues[j];
        assert exercise.muscleGroupValues[..j + 1][..j] == exercise.muscleGroupValues[..j];
        if value !in valid {
          errors := errors + [ErrorLine(exercise.name, value)];
        }
      }
      assert exercise.muscleGroupValues[..|exercise.muscleGroupValues|] == exercise.muscleGroupValues;
    }
    assert data[..|data|] == data;
    if errors != [] {
      return Err(FailureMessage(errors));
    }
    return Ok(());
  }

  /** A reference is invalid when its value is not the value of any muscle group. */
  ghost predicate HasInvalidRef(data: seq<ExerciseData>, i: int, j: int)
  {
    0 <= i < |data| && 0 <= j < |data[i].muscleGroupValues| && data[i].muscleGroupValues[j] !in ValidMuscleGroupValues()
  }

  /** The lines that occur for one exercise are exactly the reports of its invalid values. */
  lemma {:induction false} InvalidRefsCharacterized(name: string, values: seq<string>)
    ensures forall line :: line in InvalidRefs(name, values) <==>
      exists j :: 0 <= j < |values| && values[j] !in ValidMuscleGroupValues() && line == ErrorLine(name, values[j])
    ensures InvalidRefs(name, values) == [] <==> forall j :: 0 <= j < |values| ==> values[j] in ValidMuscleGroupValues()
  {
    if values != [] {
      var init := values[..|values| - 1];
      InvalidRefsCharacterized(name, init);
      forall j | 0 <= j < |init| ensures init[j] == values[j] {
      }
      var last := values[|values| - 1];
      if last !in ValidMuscleGroupValues() {
        assert ErrorLine(name, last) in InvalidRefs(name, values);
      }
    }
  }

  /**
   * The check raises exactly when some exercise references a value outside
   * the enumeration, and each reported line names such an exercise and value.
   */
  lemma {:induction false} InvalidRefLinesCharacterized(data: seq<ExerciseData>)
    ensures InvalidRefLines(data) == [] <==> forall i, j :: !HasInvalidRef(data, i, j)
    ensures forall line :: line in InvalidRefLines(data) <==>
      exists i, j :: HasInvalidRef(data, i, j) && line == ErrorLine(data[i].name, data[i].muscleGroupValues[j])
  {
    if data != [] {
      var init := data[..|data| - 1];
      var last := data[|data| - 1];
      InvalidRefLinesCharacterized(init);
      InvalidRefsCharacterized(last.name, last.muscleGroupValues);
      assert forall i, j :: HasInvalidRef(init, i, j) <==> i < |init| && HasInvalidRef(data, i, j);
      forall line | line in InvalidRefLines(data)
        ensures exists i, j :: HasInvalidRef(data, i, j) && line == ErrorLine(data[i].name, data[i].muscleGroupValues[j])
      {
        if line !in InvalidRefLines(init) {
          var j :| 0 <= j < |last.muscleGroupValues| && last.muscleGroupValues[j] !in ValidMuscleGroupValues()
                   && line == ErrorLine(last.name, last.muscleGroupValues[j]);
          assert HasInvalidRef(data, |data| - 1, j);
        }
      }
      forall i, j | HasInvalidRef(data, i, j)
        ensures ErrorLine(data[i].name, data[i].muscleGroupValues[j]) in InvalidRefLines(data)
      {
        if i < |init| {
          assert HasInvalidRef(init, i, j);
        }
      }
      if InvalidRefLines(data) != [] {
        assert InvalidRefLines(data)[0] in InvalidRefLines(data);
      }
    }
  }

  /** The positions of the invalid values of one exercise, in increasing order. */
  function InvalidPositions(values: seq<string>): (ps: seq<int>)
    ensures forall k :: 0 <= k < |ps| ==> 0 <= ps[k] < |values| && values[ps[k]] !in ValidMuscleGroupValues()
    ensures forall j :: 0 <= j < |values| && values[j] !in ValidMuscleGroupValues() ==> j in ps
    ensures forall k, l :: 0 <= k < l < |ps| ==> ps[k] < ps[l]
  {
    if values == [] then []
    else
      var n := |values| - 1;
      InvalidPositions(values[..n]) + (if values[n] in ValidMuscleGroupValues() then [] else [n])
  }

  /**
   * An exercise contributes exactly one line per invalid value, in the order
   * of its values: line k reports the k-th invalid position.
   */
  lemma {:induction false} InvalidRefsOnePerValue(name: string, values: seq<string>)
    ensures |InvalidRefs(name, values)| == |InvalidPositions(values)|
    ensures forall k :: 0 <= k < |InvalidPositions(values)| ==>
      InvalidRefs(name, values)[k] == ErrorLine(name, values[InvalidPositions(values)[k]])
  {
    if values != [] {
      var n := |values| - 1;
      var init := values[..n];
      InvalidRefsOnePerValue(name, init);
      var lines, ps := InvalidRefs(name, init), InvalidPositions(init);
      forall k | 0 <= k < |ps| ensures values[ps[k]] == init[ps[k]] {
      }
    }
  }

  /** An exercise contributes as many lines as it has invalid values. */
  lemma InvalidRefsCount(name: string, values: seq<string>)
    ensures |InvalidRefs(name, values)| == |set j | 0 <= j < |values| && values[j] !in ValidMuscleGroupValues()|
  {
    InvalidRefsOnePerValue(name, values);
    var ps := InvalidPositions(values);
    assert (set j | 0 <= j < |values| && values[j] !in ValidMuscleGroupValues()) == (set x | x in ps);
    DistinctCard(ps);
  }

  /** Reference (i, j) comes before reference (i', j'): an earlier exercise, or the same one and an earlier value. */
  predicate Before(p: (int, int), q: (int, int))
  {
    p.0 < q.0 || (p.0 == q.0 && p.1 < q.1)
  }

  /** The invalid references of a data list as (exercise, value) positions, exercise by exercise. */
  function InvalidPairs(data: seq<ExerciseData>): (ps: seq<(int, int)>)
    ensures forall k :: 0 <= k < |ps| ==> HasInvalidRef(data, ps[k].0, ps[k].1)
    ensures forall k, l :: 0 <= k < l < |ps| ==> Before(ps[k], ps[l])
  {
    if data == [] then []
    else
      var n := |data| - 1;
      PrefixRefs(data);
      InvalidPairs(data[..n]) + Tagged(n, InvalidPositions(data[n].muscleGroupValues))
  }

  /** The positions of one exercise's invalid values, paired with the exercise's index. */
  function Tagged(i: int, positions: seq<int>): (ps: seq<(int, int)>)
    ensures |ps| == |positions|
    ensures forall k :: 0 <= k < |ps| ==> ps[k] == (i, positions[k])
  {
    seq(|positions|, k requires 0 <= k < |positions| => (i, positions[k]))
  }

  /** The references of all but the last exercise are those of the shorter list. */
  lemma PrefixRefs(data: seq<ExerciseData>)
    requires data != []
    ensures forall i, j :: HasInvalidRef(data[..|data| - 1], i, j) <==> i < |data| - 1 && HasInvalidRef(data, i, j)
  {
    var init := data[..|data| - 1];
    forall i, j | HasInvalidRef(init, i, j) ensures i < |init| && HasInvalidRef(data, i, j) {
      assert init[i] == data[i];
    }
    forall i, j | i < |init| && HasInvalidRef(data, i, j) ensures HasInvalidRef(init, i, j) {
      assert init[i] == data[i];
    }
  }

  /** Every invalid reference is listed. */
  lemma {:induction false} InvalidPairsComplete(data: seq<ExerciseData>)
    ensures forall i, j :: HasInvalidRef(data, i, j) ==> (i, j) in InvalidPairs(data)
  {
    if data != [] {
      var n := |data| - 1;
      var init := data[..n];
      var pos := InvalidPositions(data[n].muscleGroupValues);
      InvalidPairsComplete(init);
      PrefixRefs(data);
      var rest, tagged := InvalidPairs(init), Tagged(n, pos);
      assert InvalidPairs(data) == rest + tagged;
      forall i, j | HasInvalidRef(data, i, j) ensures (i, j) in rest + tagged {
        if i < n {
          assert (i, j) in rest;
        } else {
          var k := IndexOf(pos, j);
          assert tagged[k] == (i, j);
        }
      }
    }
  }

  /** The position of a member of a sequence. */
  function IndexOf(s: seq<int>, x: int): (k: int)
    requires x in s
    ensures 0 <= k < |s| && s[k] == x
  {
    if s[0] == x then 0 else 1 + IndexOf(s[1..], x)
  }

  /**
   * The whole list of error lines has exactly one line per invalid reference,
   * ordered by exercise and then by position: line k reports the k-th
   * invalid reference.
   */
  lemma {:induction false} InvalidRefLinesOnePerRef(data: seq<ExerciseData>)
    ensures |InvalidRefLines(data)| == |InvalidPairs(data)|
    ensures forall k :: 0 <= k < |InvalidPairs(data)| ==>
      InvalidRefLines(data)[k] == ErrorLine(data[InvalidPairs(data)[k].0].name,
                                            data[InvalidPairs(data)[k].0].muscleGroupValues[InvalidPairs(data)[k].1])
  {
    if data != [] {
      var n := |data| - 1;
      var init, last := data[..n], data[n];
      InvalidRefLinesOnePerRef(init);
      InvalidRefsOnePerValue(last.name, last.muscleGroupValues);
      var pos := InvalidPositions(last.muscleGroupValues);
      var before, tagged := InvalidPairs(init), Tagged(n, pos);
      var linesBefore, linesLast := InvalidRefLines(init), InvalidRefs(last.name, last.muscleGroupValues);
      var pairs: seq<(int, int)>, lines: seq<string> := before + tagged, linesBefore + linesLast;
      assert InvalidPairs(data) == pairs;
      assert InvalidRefLines(data) == lines;
      forall k | 0 <= k < |pairs|
        ensures lines[k] == ErrorLine(data[pairs[k].0].name, data[pairs[k].0].muscleGroupValues[pairs[k].1])
      {
        if k < |before| {
          assert HasInvalidRef(init, before[k].0, before[k].1);
          assert data[before[k].0] == init[before[k].0];
        } else {
          assert tagged[k - |before|] == (n, pos[k - |before|]);
        }
      }
    }
  }

  /** The number of error lines is the number of invalid references. */
  lemma InvalidRefLinesCount(data: seq<ExerciseData>)
    ensures |InvalidRefLines(data)| == |set i, j | 0 <= i < |data| && 0 <= j < |data[i].muscleGroupValues|
                                                   && data[i].muscleGroupValues[j] !in ValidMuscleGroupValues() :: (i, j)|
  {
    InvalidRefLinesOnePerRef(data);
    var pairs := InvalidPairs(data);
    InvalidPairsComplete(data);
    assert (set i, j | 0 <= i < |data| && 0 <= j < |data[i].muscleGroupValues|
                       && data[i].muscleGroupValues[j] !in ValidMuscleGroupValues() :: (i, j)) == (set p | p in pairs) by {
      forall p | p in pairs ensures HasInvalidRef(data, p.0, p.1) {
        var k :| 0 <= k < |pairs| && pairs[k] == p;
      }
    }
    DistinctCard(pairs);
  }

  /** A sequence without repetitions has as many elements as positions. */
  lemma {:induction false} DistinctCard<T>(s: seq<T>)
    requires forall k, l :: 0 <= k < l < |s| ==> s[k] != s[l]
    ensures |set x | x in s| == |s|
  {
    if s != [] {
      var init, last := s[..|s| - 1], s[|s| - 1];
      DistinctCard(init);
      assert (set x | x in s) == (set x | x in init) + {last};
      assert last !in init;
    }
  }

  /** Data whose every reference is the value of an enumeration member passes the check. */
  lemma MemberValuesPass(data: seq<ExerciseData>)
    requires forall i, j :: 0 <= i < |data| && 0 <= j < |data[i].muscleGroupValues| ==>
      exists m :: data[i].muscleGroupValues[j] == MuscleGroupValue(m)
    ensures InvalidRefLines(data) == []
  {
    InvalidRefLinesCharacterized(data);
    forall i, j | 0 <= i < |data| && 0 <= j < |data[i].muscleGroupValues|
      ensures !HasInvalidRef(data, i, j)
    {
      var m :| data[i].muscleGroupValues[j] == MuscleGroupValue(m);
      MuscleGroupValueSound(m, m);
    }
  }
}
