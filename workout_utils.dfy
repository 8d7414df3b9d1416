/**
 * calculateWorkoutDuration of src/lib/workout-utils.ts: an estimate in
 * whole minutes of how long a workout takes. Every set counts 45 seconds
 * of work plus the exercise's rest, and 2 minutes of transition separate
 * consecutive exercises; the result is rounded up to minutes and never
 * below 10, or 0 when there is nothing to estimate.
 */
module WorkoutUtils {
  import opened Wrappers

  const SetSeconds := 45
  const TransitionSeconds := 120
  const MinimumMinutes := 10

  /** An exercise as the estimate reads it: `sets_target` and
      `rest_seconds`, 0 standing for absent. */
  datatype Entry = Entry(setsTarget: int, restSeconds: int)

  /** A property expected to hold the exercise list: a falsy value (absent,
      null, 0, ""), a truthy value that is not an array, or an array. */
  datatype ListField = Falsy | NonArray | Array(items: seq<Entry>)

  /** The fields of the untyped workout object the estimate looks at. */
  datatype WorkoutRecord = WorkoutRecord(exercises: ListField, workoutExercises: ListField)

  /** `workout.exercises || workout.workout_exercises`: an array is truthy
      even when empty, so only a falsy `exercises` falls back. */
  function ExerciseField(w: WorkoutRecord): (r: ListField)
    ensures w.exercises != Falsy ==> r == w.exercises
    ensures w.exercises == Falsy ==> r == w.workoutExercises
  {
    if w.exercises.Falsy? then w.workoutExercises else w.exercises
  }

  /** The seconds one exercise adds: `sets * (45 + rest)`, with 3 sets and
      60 seconds of rest when a field is 0. */
  function EntrySeconds(e: Entry): (r: int)
    ensures e.setsTarget == 0 && e.restSeconds == 0 ==> r == 315
    ensures e.setsTarget == 0 && e.restSeconds != 0 ==> r == 3 * (SetSeconds + e.restSeconds)
    ensures e.setsTarget != 0 && e.restSeconds == 0 ==> r == 105 * e.setsTarget
    ensures e.setsTarget != 0 && e.restSeconds != 0 ==> r == e.setsTarget * (SetSeconds + e.restSeconds)
  {
    var sets := if e.setsTarget != 0 then e.setsTarget else 3;
    var rest := if e.restSeconds != 0 then e.restSeconds else 60;
    sets * (SetSeconds + rest)
  }

  /** The exercise seconds of a list, summed from the front. */
  function WorkSeconds(items: seq<Entry>): int
    decreases |items|
  {
    if items == [] then 0 else WorkSeconds(items[..|items| - 1]) + EntrySeconds(items[|items| - 1])
  }

  /** The total the loop reaches: the exercise seconds plus one transition
      between each two consecutive exercises. */
  function TotalSeconds(items: seq<Entry>): int
    requires items != []
  {
    WorkSeconds(items) + TransitionSeconds * (|items| - 1)
  }

  /** `Math.ceil(a / 60)`. */
  function CeilMinutes(a: int): (r: int)
    ensures 60 * r - 60 < a <= 60 * r
  {
    -((-a) / 60)
  }

  /** The estimate, as a specification. */
  function Estimate(workout: Option<WorkoutRecord>): (r: int)
    ensures r == 0 <==> workout.None? || !ExerciseField(workout.value).Array? || ExerciseField(workout.value).items == []
    ensures r != 0 ==> && r >= MinimumMinutes && r >= CeilMinutes(TotalSeconds(ExerciseField(workout.value).items))
                       && (r == MinimumMinutes || r == CeilMinutes(TotalSeconds(ExerciseField(workout.value).items)))
  {
    if workout.None? then 0
    else
      var field := ExerciseField(workout.value);
      if !field.Array? || field.items == [] then 0
      else
        var minutes := CeilMinutes(TotalSeconds(field.items));
        if minutes > MinimumMinutes then minutes else MinimumMinutes
  }

  /** The `forEach` loop accumulating `totalSeconds`. */
  method SumSeconds(items: seq<Entry>) returns (total: int)
    requires items != []
    ensures total == TotalSeconds(items)
  {
    total := 0;
    var index := 0;
    while index < |items|
      invariant 0 <= index <= |items|
      invariant total == WorkSeconds(items[..index]) + TransitionSeconds * (if index == 0 then 0 else index - 1)
                         + (if 0 < index < |items| then TransitionSeconds else 0)
    {
      assert items[..index + 1][..index] == items[..index];
      total := total + EntrySeconds(items[index]);
      if index < |items| - 1 {
        total := total + TransitionSeconds;
      }
      index := index + 1;
    }
    assert items[..|items|] == items;
  }

  /** calculateWorkoutDuration (lines 14-53). */
  method CalculateWorkoutDuration(workout: Option<WorkoutRecord>) returns (minutes: int)
    ensures minutes == Estimate(workout)
  {
    if workout.None? {
      return 0;
    }
    var exercises := ExerciseField(workout.value);
    if !exercises.Array? || |exercises.items| == 0 {
      return 0;
    }
    var totalSeconds := SumSeconds(exercises.items);
    var totalMinutes := CeilMinutes(totalSeconds);
    minutes := if MinimumMinutes > totalMinutes then MinimumMinutes else totalMinutes;
  }

  /** Appending an exercise adds its seconds and one transition. */
  lemma TotalSecondsAppend(items: seq<Entry>, e: Entry)
    requires items != []
    ensures TotalSeconds(items + [e]) == TotalSeconds(items) + TransitionSeconds + EntrySeconds(e)
  {
    assert (items + [e])[..|items|] == items;
  }

  /** The exercise seconds of two lists back to back add up. */
  lemma {:induction false} WorkSecondsConcat(a: seq<Entry>, b: seq<Entry>)
    ensures WorkSeconds(a + b) == WorkSeconds(a) + WorkSeconds(b)
    decreases |b|
  {
    if b == [] {
      assert a + b == a;
    } else {
      var b' := b[..|b| - 1];
      assert (a + b)[..|a + b| - 1] == a + b';
      WorkSecondsConcat(a, b');
    }
  }

  /** The estimate does not depend on the order of two blocks of exercises. */
  lemma EstimateOrderFree(a: seq<Entry>, b: seq<Entry>)
    requires a + b != []
    ensures TotalSeconds(a + b) == TotalSeconds(b + a)
  {
    WorkSecondsConcat(a, b);
    WorkSecondsConcat(b, a);
  }

  /** `n` exercises with no targets set: 3 sets of 45 + 60 seconds each and
      `n - 1` transitions. */
  lemma {:induction false} DefaultTotal(items: seq<Entry>)
    requires items != [] && forall i :: 0 <= i < |items| ==> items[i] == Entry(0, 0)
    ensures TotalSeconds(items) == 435 * |items| - 120
    decreases |items|
  {
    if |items| > 1 {
      var init := items[..|items| - 1];
      DefaultTotal(init);
      TotalSecondsAppend(init, items[|items| - 1]);
      assert init + [items[|items| - 1]] == items;
    } else {
      assert items[..0] == [] && items[0] == Entry(0, 0);
      assert WorkSeconds(items) == WorkSeconds(items[..0]) + EntrySeconds(items[0]) == 315;
    }
  }
}
