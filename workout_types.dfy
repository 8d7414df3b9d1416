/**
 * The records of src/types/workout.types.ts and exercise.types.ts that the
 * session engine reads and writes, and the JavaScript truthiness rules the
 * engine applies to their optional fields (`x || default`, `!!id`).
 *
 * Timestamps are integer milliseconds since the epoch; identifiers are
 * strings; numbers the source keeps as integers are `int`, and the weight a
 * user types in (parsed with `parseFloat`) is a `real`.
 */
module WorkoutTypes {
  import opened Wrappers

  /** The movement a workout exercise refers to (only its identity and
      display name matter to the core). */
  datatype Exercise = Exercise(id: string, name: string)

  /** One set of a straight-set exercise, or one round of a circuit station. */
  datatype ExerciseSet = ExerciseSet(
    setNumber: int,
    repsActual: Option<int>,
    weightActual: Option<real>,
    isCompleted: bool,
    completedAt: Option<int>)

  /** An exercise of a template, and (with `sets`) of a running session. */
  datatype WorkoutExercise = WorkoutExercise(
    id: string,
    workoutId: string,
    exerciseId: string,
    exercise: Option<Exercise>,
    orderIndex: int,
    setsTarget: int,
    repsTarget: int,
    weightTarget: Option<real>,
    restSeconds: int,
    isSuperset: bool,
    isCircuit: bool,
    circuitId: Option<string>,
    circuitRounds: Option<int>,
    orderInCircuit: Option<int>,
    sets: Option<seq<ExerciseSet>>)

  /** A workout template as handed to `startWorkout`. */
  datatype Workout = Workout(
    id: string,
    userId: string,
    name: string,
    exercises: Option<seq<WorkoutExercise>>)

  /** A running (or finished) session. */
  datatype Session = Session(
    id: string,
    workoutId: string,
    userId: string,
    startedAt: int,
    completedAt: Option<int>,
    totalDurationSeconds: Option<int>,
    isCompleted: bool,
    workout: Workout,
    exercises: seq<WorkoutExercise>)

  /** `n || d` for a number field that is always present: 0 is falsy. */
  function NumberOr(n: int, d: int): (r: int)
    ensures n != 0 ==> r == n
    ensures n == 0 ==> r == d
  {
    if n == 0 then d else n
  }

  /** `n || d` for an optional number field: absent and 0 are falsy. */
  function OptionalNumberOr(n: Option<int>, d: int): (r: int)
    ensures n.Some? && n.value != 0 ==> r == n.value
    ensures (n.None? || n.value == 0) ==> r == d
  {
    match n
    case None => d
    case Some(v) => NumberOr(v, d)
  }

  /** `!!id` for an optional string: absent and the empty string are falsy. */
  predicate IsSetId(id: Option<string>) {
    id.Some? && id.value != ""
  }

  /** The record with its set records erased: everything the cursor logic
      reads about an exercise other than its sets. */
  function Shape(e: WorkoutExercise): WorkoutExercise {
    e.(sets := None)
  }

  function Shapes(s: seq<WorkoutExercise>): (r: seq<WorkoutExercise>)
    ensures |r| == |s|
    ensures forall i :: 0 <= i < |s| ==> r[i] == Shape(s[i])
  {
    if s == [] then [] else [Shape(s[0])] + Shapes(s[1..])
  }
}
