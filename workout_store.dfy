/**
 * The workout store of src/stores/workoutStore.ts: one active session with
 * its cursor (exercise index, set or round index) and rest flag, and the
 * workout builder's draft list. Each store action is a method of `Store`
 * that changes exactly the fields the action passes to `set(...)`.
 */
module WorkoutStore {
  import opened Wrappers
  import opened WorkoutTypes
  import opened JsArray
  import opened CircuitLookup

  // ---------------------------------------------------------------------
  // Starting a session
  // ---------------------------------------------------------------------

  /** The sort key `(a.order_index || 0)`; 0 is its own default. */
  function OrderKey(e: WorkoutExercise): int {
    e.orderIndex
  }

  /** How many set records a session gives the exercise: its rounds
      (`circuit_rounds || 1`) when `is_circuit`, else `sets_target`. */
  function SetCount(e: WorkoutExercise): int {
    if e.isCircuit then OptionalNumberOr(e.circuitRounds, 1) else e.setsTarget
  }

  /** `workout.exercises || []`. */
  function TemplateExercises(w: Workout): seq<WorkoutExercise> {
    if w.exercises.Some? then w.exercises.value else []
  }

  /** `Array(n)` throws a RangeError when some exercise asks for a negative
      number of sets; startWorkout then changes nothing. */
  predicate CanStart(w: Workout) {
    forall i :: 0 <= i < |TemplateExercises(w)| ==> SetCount(TemplateExercises(w)[i]) >= 0
  }

  /** `n` fresh set records numbered 1..n, none completed. */
  function FreshSets(n: nat): (r: seq<ExerciseSet>)
    ensures |r| == n
  {
    seq(n, i => ExerciseSet(i + 1, None, None, false, None))
  }

  /** The exercises sorted by `order_index`, each with its fresh set records. */
  function SessionExercises(w: Workout): (r: seq<WorkoutExercise>)
    requires CanStart(w)
    ensures |r| == |TemplateExercises(w)|
  {
    var sorted := SortBy(TemplateExercises(w), OrderKey);
    assert forall i :: 0 <= i < |sorted| ==> SetCount(sorted[i]) >= 0 by {
      forall i | 0 <= i < |sorted| ensures SetCount(sorted[i]) >= 0 {
        assert sorted[i] in multiset(sorted);
        var j :| 0 <= j < |TemplateExercises(w)| && TemplateExercises(w)[j] == sorted[i];
      }
    }
    seq(|sorted|, i requires 0 <= i < |sorted| => sorted[i].(sets := Some(FreshSets(SetCount(sorted[i])))))
  }

  /** The session startWorkout stores. */
  function NewSession(w: Workout, id: string, now: int): Session
    requires CanStart(w)
  {
    Session(id, w.id, w.userId, now, None, None, false,
            w.(exercises := Some(SortBy(TemplateExercises(w), OrderKey))),
            SessionExercises(w))
  }

  // ---------------------------------------------------------------------
  // Completing a set
  // ---------------------------------------------------------------------

  /** Where completeSet moves the cursor, and whether it starts a rest. */
  datatype Step = Step(exerciseIndex: int, setIndex: int, rest: bool)

  /** The rest completeSet asks for: `rest_seconds || 60`. */
  function RestLength(e: WorkoutExercise): int {
    NumberOr(e.restSeconds, 60)
  }

  /** completeSet's branch test `(is_circuit || !!circuit_id) && circuit_id`. */
  predicate TakesCircuitPath(e: WorkoutExercise) {
    (e.isCircuit || IsSetId(e.circuitId)) && IsSetId(e.circuitId)
  }

  /** The next cursor completeSet computes, on the exercise list after the
      current set has been marked (lines 145-229). */
  function NextCursor(exs: seq<WorkoutExercise>, cei: int, csi: int): Step
    requires 0 <= cei < |exs| && exs[cei].sets.Some?
  {
    if TakesCircuitPath(exs[cei]) then CircuitCursor(exs, cei, csi)
    else StraightCursor(exs, cei, csi)
  }

  /** completeSet never moves the cursor off the exercise list, so a
      following completeSet finds its exercise again. */
  lemma NextCursorInRange(exs: seq<WorkoutExercise>, cei: int, csi: int)
    requires 0 <= cei < |exs| && exs[cei].sets.Some?
    ensures 0 <= NextCursor(exs, cei, csi).exerciseIndex < |exs|
  {
    if TakesCircuitPath(exs[cei]) {
      var cid := exs[cei].circuitId;
      var st := Stations(exs, cid);
      FoundInOwnCircuit(exs, cei);
      var k := IndexById(st, exs[cei].id);
      if k < |st| - 1 {
        StationsMembers(exs, cid);
        assert st[k + 1] in st;
        IndexByIdFound(exs, st[k + 1]);
      }
      var R := OptionalNumberOr(exs[cei].circuitRounds, 1);
      assert NextCursor(exs, cei, csi) == CircuitMove(exs, st, k, R, cei, csi);
      CircuitMoveInRange(exs, st, k, R, cei, csi);
    }
  }

  lemma CircuitMoveInRange(exs: seq<WorkoutExercise>, st: seq<WorkoutExercise>, k: int, totalRounds: int,
                           cei: int, csi: int)
    requires 0 <= cei < |exs| && 0 <= k < |st|
    requires k < |st| - 1 ==> 0 <= IndexById(exs, st[k + 1].id)
    ensures 0 <= CircuitMove(exs, st, k, totalRounds, cei, csi).exerciseIndex < |exs|
  {
  }

  /** Straight sets (lines 219-229): next set, else first set of the next
      exercise, else stay; rest unless staying. */
  function StraightCursor(exs: seq<WorkoutExercise>, cei: int, csi: int): Step
    requires 0 <= cei < |exs| && exs[cei].sets.Some?
  {
    if csi < |exs[cei].sets.value| - 1 then Step(cei, csi + 1, true)
    else if cei < |exs| - 1 then Step(cei + 1, 0, true)
    else Step(cei, csi, false)
  }

  /** Circuits (lines 151-217), `csi` being the round: next station in the
      same round without rest; after the last station, the first station
      of the next round, or the exercise after the last station once all
      rounds are done, with rest; else stay. */
  function CircuitCursor(exs: seq<WorkoutExercise>, cei: int, csi: int): Step
    requires 0 <= cei < |exs|
  {
    var ex := exs[cei];
    var st := Stations(exs, ex.circuitId);
    FoundInOwnCircuit(exs, cei);
    CircuitMove(exs, st, IndexById(st, ex.id), OptionalNumberOr(ex.circuitRounds, 1), cei, csi)
  }

  /** The circuit branch once the stations `st`, the current station `k`
      and the round count are known. */
  function CircuitMove(exs: seq<WorkoutExercise>, st: seq<WorkoutExercise>, k: int, totalRounds: int,
                       cei: int, csi: int): Step
    requires 0 <= k < |st|
  {
    if k == |st| - 1 then
      if csi < totalRounds - 1 then
        var first := IndexById(exs, st[0].id);
        if first != -1 then Step(first, csi + 1, true) else Step(cei, csi, false)
      else
        var last := IndexById(exs, st[|st| - 1].id);
        if last < |exs| - 1 then Step(last + 1, 0, true) else Step(cei, csi, false)
    else
      Step(IndexById(exs, st[k + 1].id), csi, false)
  }

  /** The branch logic of completeSet (lines 145-229), threading the next
      exercise index, set index and rest flag through its cases as the
      source does. Store.CompleteSet runs this method; `NextCursor` is its
      specification, which the lemmas reason about. */
  method NextStep(exercises: seq<WorkoutExercise>, cei: int, csi: int)
    returns (nextExerciseIndex: int, nextSetIndex: int, shouldRest: bool)
    requires 0 <= cei < |exercises| && exercises[cei].sets.Some?
    ensures Step(nextExerciseIndex, nextSetIndex, shouldRest) == NextCursor(exercises, cei, csi)
  {
    var exercise := exercises[cei];
    nextExerciseIndex, nextSetIndex, shouldRest := cei, csi, false;
    var isCircuit := exercise.isCircuit || IsSetId(exercise.circuitId);
    if isCircuit && IsSetId(exercise.circuitId) {
      nextExerciseIndex, nextSetIndex, shouldRest := NextCircuitStep(exercises, cei, csi);
    } else {
      if csi < |exercise.sets.value| - 1 {
        nextSetIndex := csi + 1;
        shouldRest := true;
      } else if cei < |exercises| - 1 {
        nextExerciseIndex := cei + 1;
        nextSetIndex := 0;
        shouldRest := true;
      }
    }
  }

  /** The circuit branch of completeSet (lines 151-217), step by step;
      `CircuitCursor` is its specification. */
  method NextCircuitStep(exercises: seq<WorkoutExercise>, cei: int, csi: int)
    returns (nextExerciseIndex: int, nextSetIndex: int, shouldRest: bool)
    requires 0 <= cei < |exercises|
    ensures Step(nextExerciseIndex, nextSetIndex, shouldRest) == CircuitCursor(exercises, cei, csi)
  {
    var exercise := exercises[cei];
    nextExerciseIndex, nextSetIndex, shouldRest := cei, csi, false;
    var circuitExercises := Stations(exercises, exercise.circuitId);
    FoundInOwnCircuit(exercises, cei);
    var currentExIndexInCircuit := IndexById(circuitExercises, exercise.id);
    var currentRound := csi;
    var totalRounds := OptionalNumberOr(exercise.circuitRounds, 1);
    if currentExIndexInCircuit == |circuitExercises| - 1 {
      if currentRound < totalRounds - 1 {
        var firstExIndex := IndexById(exercises, circuitExercises[0].id);
        if firstExIndex != -1 {
          nextExerciseIndex := firstExIndex;
          nextSetIndex := currentRound + 1;
          shouldRest := true;
        }
      } else {
        var lastExIndexMain := IndexById(exercises, circuitExercises[|circuitExercises| - 1].id);
        if lastExIndexMain < |exercises| - 1 {
          nextExerciseIndex := lastExIndexMain + 1;
          nextSetIndex := 0;
          shouldRest := true;
        }
      }
    } else {
      var nextExInCircuit := circuitExercises[currentExIndexInCircuit + 1];
      nextExerciseIndex := IndexById(exercises, nextExInCircuit.id);
      nextSetIndex := currentRound;
      shouldRest := false;
    }
  }

  /** The set record after the user reports it done. */
  function Completed(s: ExerciseSet, reps: int, weight: real, now: int): ExerciseSet {
    s.(repsActual := Some(reps), weightActual := Some(weight), isCompleted := true, completedAt := Some(now))
  }

  /** The exercise list with set `csi` of exercise `cei` marked completed
      (when that set exists) and nothing else changed. */
  function MarkSet(exs: seq<WorkoutExercise>, cei: int, csi: int, reps: int, weight: real, now: int)
    : (r: seq<WorkoutExercise>)
    requires 0 <= cei < |exs| && exs[cei].sets.Some?
    ensures |r| == |exs| && Shapes(r) == Shapes(exs)
    ensures forall i :: 0 <= i < |exs| && i != cei ==> r[i] == exs[i]
    ensures r[cei].sets.Some? && |r[cei].sets.value| == |exs[cei].sets.value|
    ensures forall j :: 0 <= j < |exs[cei].sets.value| && j != csi ==>
              r[cei].sets.value[j] == exs[cei].sets.value[j]
    ensures 0 <= csi < |exs[cei].sets.value| ==>
              r[cei].sets.value[csi] == Completed(exs[cei].sets.value[csi], reps, weight, now)
  {
    var sets := exs[cei].sets.value;
    var marked := if 0 <= csi < |sets| then sets[csi := Completed(sets[csi], reps, weight, now)] else sets;
    var r := exs[cei := exs[cei].(sets := Some(marked))];
    assert forall i :: 0 <= i < |r| ==> Shape(r[i]) == Shape(exs[i]);
    r
  }

  // ---------------------------------------------------------------------
  // Navigation
  // ---------------------------------------------------------------------

  /** Manual navigation keeps the round only between two `is_circuit`
      exercises with the same (set) `circuit_id`. */
  predicate SameCircuit(a: WorkoutExercise, b: WorkoutExercise) {
    a.isCircuit && IsSetId(a.circuitId) && b.isCircuit && b.circuitId == a.circuitId
  }

  // ---------------------------------------------------------------------
  // The workout builder
  // ---------------------------------------------------------------------

  datatype Builder = Builder(
    exercises: seq<WorkoutExercise>,
    isDragging: bool,
    selectedExercise: Option<Exercise>,
    workoutName: string,
    workoutDescription: string)

  const EmptyBuilder := Builder([], false, None, "", "")

  /** Every exercise's `order_index` is its position in the list. */
  ghost predicate OrderIndexed(xs: seq<WorkoutExercise>) {
    forall i :: 0 <= i < |xs| ==> xs[i].orderIndex == i
  }

  /** The exercise addExerciseToBuilder appends at `position`. */
  function NewBuilderExercise(exercise: Exercise, id: string, position: int): WorkoutExercise {
    WorkoutExercise(id, "", exercise.id, Some(exercise), position, 3, 10, Some(0.0), 60,
                    false, false, None, None, None, None)
  }

  /** The re-indexing loop `forEach((ex, i) => ex.order_index = i)`: every
      exercise keeps all its fields except `order_index`, which becomes its
      position. */
  method Reindex(xs: seq<WorkoutExercise>) returns (ys: seq<WorkoutExercise>)
    ensures |ys| == |xs|
    ensures forall i :: 0 <= i < |xs| ==> ys[i] == xs[i].(orderIndex := i)
  {
    ys := xs;
    var i := 0;
    while i < |ys|
      invariant 0 <= i <= |ys| == |xs|
      invariant forall j :: 0 <= j < i ==> ys[j] == xs[j].(orderIndex := j)
      invariant forall j :: i <= j < |ys| ==> ys[j] == xs[j]
    {
      ys := ys[i := ys[i].(orderIndex := i)];
      i := i + 1;
    }
  }

  /** The list `reorderExercises` builds before re-indexing: the element at
      `from` taken out and put back at `to` (both normalised by `splice`). */
  function Move(xs: seq<WorkoutExercise>, from: nat, to: int): (r: seq<WorkoutExercise>)
    requires from < |xs|
    ensures |r| == |xs|
    ensures multiset(r) == multiset(xs)
    ensures r[SpliceStart(to, |xs| - 1)] == xs[from]
  {
    var rest := RemoveAt(xs, from);
    InsertAt(rest, SpliceStart(to, |rest|), xs[from])
  }

  /** The fields a builder config may overwrite; `Some` marks a key present
      in the config object (an optional field may be present as `undefined`). */
  datatype ExerciseConfig = ExerciseConfig(
    setsTarget: Option<int>,
    repsTarget: Option<int>,
    weightTarget: Option<Option<real>>,
    restSeconds: Option<int>,
    isSuperset: Option<bool>,
    isCircuit: Option<bool>,
    circuitId: Option<Option<string>>,
    circuitRounds: Option<Option<int>>,
    orderInCircuit: Option<Option<int>>)

  function Pick<T>(o: Option<T>, keep: T): T {
    if o.Some? then o.value else keep
  }

  /** `{ ...e, ...config }`: each key present in the config wins. */
  function Merge(e: WorkoutExercise, c: ExerciseConfig): (r: WorkoutExercise)
    ensures r.id == e.id && r.workoutId == e.workoutId && r.exerciseId == e.exerciseId && r.exercise == e.exercise
    ensures r.orderIndex == e.orderIndex && r.sets == e.sets
    ensures c.setsTarget.Some? ==> r.setsTarget == c.setsTarget.value
    ensures c.setsTarget.None? ==> r.setsTarget == e.setsTarget
    ensures c.repsTarget.Some? ==> r.repsTarget == c.repsTarget.value
    ensures c.repsTarget.None? ==> r.repsTarget == e.repsTarget
    ensures c.weightTarget.Some? ==> r.weightTarget == c.weightTarget.value
    ensures c.weightTarget.None? ==> r.weightTarget == e.weightTarget
    ensures c.restSeconds.Some? ==> r.restSeconds == c.restSeconds.value
    ensures c.restSeconds.None? ==> r.restSeconds == e.restSeconds
    ensures c.isSuperset.Some? ==> r.isSuperset == c.isSuperset.value
    ensures c.isSuperset.None? ==> r.isSuperset == e.isSuperset
    ensures c.isCircuit.Some? ==> r.isCircuit == c.isCircuit.value
    ensures c.isCircuit.None? ==> r.isCircuit == e.isCircuit
    ensures c.circuitId.Some? ==> r.circuitId == c.circuitId.value
    ensures c.circuitId.None? ==> r.circuitId == e.circuitId
    ensures c.circuitRounds.Some? ==> r.circuitRounds == c.circuitRounds.value
    ensures c.circuitRounds.None? ==> r.circuitRounds == e.circuitRounds
    ensures c.orderInCircuit.Some? ==> r.orderInCircuit == c.orderInCircuit.value
    ensures c.orderInCircuit.None? ==> r.orderInCircuit == e.orderInCircuit
    ensures c == ExerciseConfig(None, None, None, None, None, None, None, None, None) ==> r == e
  {
    e.(setsTarget := Pick(c.setsTarget, e.setsTarget),
       repsTarget := Pick(c.repsTarget, e.repsTarget),
       weightTarget := Pick(c.weightTarget, e.weightTarget),
       restSeconds := Pick(c.restSeconds, e.restSeconds),
       isSuperset := Pick(c.isSuperset, e.isSuperset),
       isCircuit := Pick(c.isCircuit, e.isCircuit),
       circuitId := Pick(c.circuitId, e.circuitId),
       circuitRounds := Pick(c.circuitRounds, e.circuitRounds),
       orderInCircuit := Pick(c.orderInCircuit, e.orderInCircuit))
  }

  /** The exercise createCircuit makes of the one at position `pos` of the
      selection. */
  function AsStation(e: WorkoutExercise, cid: string, rounds: int, pos: int): WorkoutExercise {
    e.(isCircuit := true, circuitId := Some(cid), circuitRounds := Some(rounds),
       orderInCircuit := Some(pos), setsTarget := 1)
  }

  /** The last position of `k` in the selection, or -1: a repeated index is
      rewritten on each occurrence, so the last one decides. */
  function LastPosition(indices: seq<int>, k: int): (r: int)
    ensures -1 <= r < |indices|
    ensures r >= 0 ==> indices[r] == k && forall j :: r < j < |indices| ==> indices[j] != k
    ensures r == -1 <==> k !in indices
  {
    if indices == [] then -1
    else if indices[|indices| - 1] == k then |indices| - 1
    else LastPosition(indices[..|indices| - 1], k)
  }

  /** The list createCircuit produces. */
  ghost function Grouped(xs: seq<WorkoutExercise>, indices: seq<int>, rounds: int, cid: string)
    : seq<WorkoutExercise>
  {
    seq(|xs|, k requires 0 <= k < |xs| =>
      if LastPosition(indices, k) >= 0 then AsStation(xs[k], cid, rounds, LastPosition(indices, k))
      else xs[k])
  }

  /** The loop of createCircuit: `indices.forEach((index, i) => …)` rewrites
      each selected exercise that exists into station `i` of the circuit. */
  method GroupAsCircuit(xs: seq<WorkoutExercise>, indices: seq<int>, rounds: int, cid: string)
    returns (ys: seq<WorkoutExercise>)
    ensures |ys| == |xs|
    ensures forall k :: 0 <= k < |xs| ==>
              ys[k] == if LastPosition(indices, k) >= 0
                       then AsStation(xs[k], cid, rounds, LastPosition(indices, k)) else xs[k]
  {
    ys := xs;
    var i := 0;
    while i < |indices|
      invariant 0 <= i <= |indices| && |ys| == |xs|
      invariant forall k :: 0 <= k < |xs| ==>
                  ys[k] == if LastPosition(indices[..i], k) >= 0
                           then AsStation(xs[k], cid, rounds, LastPosition(indices[..i], k)) else xs[k]
    {
      var index := indices[i];
      if 0 <= index < |ys| {
        ys := ys[index := AsStation(ys[index], cid, rounds, i)];
      }
      assert indices[..i + 1][..i] == indices[..i];
      i := i + 1;
    }
    assert indices[..|indices|] == indices;
  }

  /** What ungroupCircuit makes of a member of the circuit. */
  function Ungrouped(e: WorkoutExercise): WorkoutExercise {
    e.(isCircuit := false, circuitId := None, circuitRounds := None, orderInCircuit := None, setsTarget := 3)
  }

  /** ungroupCircuit's `map`: the members of circuit `cid` become straight
      exercises of 3 sets, everything else is left alone. */
  function Ungroup(xs: seq<WorkoutExercise>, cid: string): (r: seq<WorkoutExercise>)
    ensures |r| == |xs|
    ensures forall i :: 0 <= i < |xs| ==> r[i] == if xs[i].circuitId == Some(cid) then Ungrouped(xs[i]) else xs[i]
    ensures forall i :: 0 <= i < |r| ==> r[i].circuitId != Some(cid)
  {
    seq(|xs|, i requires 0 <= i < |xs| => if xs[i].circuitId == Some(cid) then Ungrouped(xs[i]) else xs[i])
  }

  // ---------------------------------------------------------------------
  // The store
  // ---------------------------------------------------------------------

  /** The session completeWorkout makes of `s` at `now`: completed at
      `now`, with its duration in whole seconds rounded down (`Math.floor`,
      which Dafny's division by a positive divisor matches). */
  function Finished(s: Session, now: int): Session {
    s.(isCompleted := true, completedAt := Some(now), totalDurationSeconds := Some((now - s.startedAt) / 1000))
  }

  class Store {
    var activeWorkout: Option<Session>
    var currentExerciseIndex: int
    var currentSetIndex: int
    var isResting: bool
    var restTimeRemaining: int
    var workoutBuilder: Builder

    /** The store's initial state. */
    constructor ()
      ensures activeWorkout == None && currentExerciseIndex == 0 && currentSetIndex == 0
      ensures !isResting && restTimeRemaining == 0 && workoutBuilder == EmptyBuilder
    {
      activeWorkout := None;
      currentExerciseIndex, currentSetIndex := 0, 0;
      isResting, restTimeRemaining := false, 0;
      workoutBuilder := EmptyBuilder;
    }

    /** The exercises of the active session (none without one). */
    function SessionExerciseList(): seq<WorkoutExercise>
      reads this
    {
      if activeWorkout.Some? then activeWorkout.value.exercises else []
    }

    /** startWorkout: replaces any session by a fresh one over the template's
        exercises sorted by `order_index`, cursor (0, 0), not resting. Empty
        templates are accepted. `ok` is false when `Array(n)` would throw. */
    method StartWorkout(workout: Workout, sessionId: string, now: int) returns (ok: bool)
      modifies this`activeWorkout, this`currentExerciseIndex, this`currentSetIndex, this`isResting
      ensures ok == CanStart(workout)
      ensures ok ==> activeWorkout == Some(NewSession(workout, sessionId, now))
      ensures ok ==> currentExerciseIndex == 0 && currentSetIndex == 0 && !isResting
      ensures !ok ==> unchanged(this)
    {
      var exercises := TemplateExercises(workout);
      ok := forall i | 0 <= i < |exercises| :: SetCount(exercises[i]) >= 0;
      if !ok {
        return;
      }
      activeWorkout := Some(NewSession(workout, sessionId, now));
      currentExerciseIndex, currentSetIndex, isResting := 0, 0, false;
    }

    /** completeSet: marks the current set done with the given reps and
        weight, moves the cursor to `NextCursor` of the marked list, and
        starts the completed exercise's rest when `NextCursor` says so. */
    method CompleteSet(reps: int, weight: real, now: int)
      requires activeWorkout.Some? ==> 0 <= currentExerciseIndex < |activeWorkout.value.exercises|
      modifies this`activeWorkout, this`currentExerciseIndex, this`currentSetIndex
      modifies this`isResting, this`restTimeRemaining
      ensures (old(activeWorkout).None? || old(activeWorkout.value.exercises[currentExerciseIndex].sets).None?) ==>
                && activeWorkout == old(activeWorkout)
                && currentExerciseIndex == old(currentExerciseIndex) && currentSetIndex == old(currentSetIndex)
                && isResting == old(isResting) && restTimeRemaining == old(restTimeRemaining)
      ensures old(activeWorkout).Some? && old(activeWorkout.value.exercises[currentExerciseIndex].sets).Some? ==>
                var exs := MarkSet(old(activeWorkout.value.exercises), old(currentExerciseIndex),
                                   old(currentSetIndex), reps, weight, now);
                var step := NextCursor(exs, old(currentExerciseIndex), old(currentSetIndex));
                && activeWorkout == Some(old(activeWorkout).value.(exercises := exs))
                && currentExerciseIndex == step.exerciseIndex
                && currentSetIndex == step.setIndex
                && (step.rest ==> isResting
                                  && restTimeRemaining == RestLength(old(activeWorkout.value.exercises[currentExerciseIndex])))
                && (!step.rest ==> isResting == old(isResting) && restTimeRemaining == old(restTimeRemaining))
      ensures activeWorkout.Some? ==> 0 <= currentExerciseIndex < |activeWorkout.value.exercises|
    {
      if activeWorkout.None? {
        return;
      }
      var session := activeWorkout.value;
      var exercises := session.exercises;
      var exercise := exercises[currentExerciseIndex];
      if exercise.sets.None? {
        return;
      }
      var sets := exercise.sets.value;
      if 0 <= currentSetIndex < |sets| {
        sets := sets[currentSetIndex := Completed(sets[currentSetIndex], reps, weight, now)];
      }
      exercises := exercises[currentExerciseIndex := exercise.(sets := Some(sets))];

      ghost var marked := MarkSet(session.exercises, currentExerciseIndex, currentSetIndex, reps, weight, now);
      assert exercises == marked;
      var nextExerciseIndex, nextSetIndex, shouldRest := NextStep(exercises, currentExerciseIndex, currentSetIndex);
      NextCursorInRange(exercises, currentExerciseIndex, currentSetIndex);
      ghost var after := Some(session.(exercises := marked));
      activeWorkout := Some(session.(exercises := exercises));
      assert activeWorkout == after;
      currentExerciseIndex, currentSetIndex := nextExerciseIndex, nextSetIndex;
      if shouldRest {
        StartRest(RestLength(exercise));
      }
    }

    /** startRest: resting for `seconds`. */
    method StartRest(seconds: int)
      modifies this`isResting, this`restTimeRemaining
      ensures isResting && restTimeRemaining == seconds
    {
      isResting, restTimeRemaining := true, seconds;
    }

    /** completeRest: rest over, nothing remaining. */
    method CompleteRest()
      modifies this`isResting, this`restTimeRemaining
      ensures !isResting && restTimeRemaining == 0
    {
      isResting, restTimeRemaining := false, 0;
    }

    /** updateRestTime: overwrites the remaining rest, leaves the flag. */
    method UpdateRestTime(time: int)
      modifies this`restTimeRemaining
      ensures restTimeRemaining == time
    {
      restTimeRemaining := time;
    }

    /** goToNextExercise: one exercise forward unless on the last one (or
        without a session); keeps the round only inside one circuit. */
    method GoToNextExercise()
      requires activeWorkout.Some? ==> 0 <= currentExerciseIndex
      modifies this`currentExerciseIndex, this`currentSetIndex, this`isResting
      ensures (old(activeWorkout).None? || old(currentExerciseIndex) >= |SessionExerciseList()| - 1)
                ==> unchanged(this)
      ensures old(activeWorkout).Some? && old(currentExerciseIndex) < |SessionExerciseList()| - 1 ==>
                && currentExerciseIndex == old(currentExerciseIndex) + 1
                && currentSetIndex == (if SameCircuit(SessionExerciseList()[old(currentExerciseIndex)],
                                                      SessionExerciseList()[currentExerciseIndex])
                                       then old(currentSetIndex) else 0)
                && !isResting
    {
      if activeWorkout.None? {
        return;
      }
      var exercises := activeWorkout.value.exercises;
      if currentExerciseIndex < |exercises| - 1 {
        var currentExercise := exercises[currentExerciseIndex];
        var nextExercise := exercises[currentExerciseIndex + 1];
        if SameCircuit(currentExercise, nextExercise) {
          currentExerciseIndex, isResting := currentExerciseIndex + 1, false;
          return;
        }
        currentExerciseIndex, currentSetIndex, isResting := currentExerciseIndex + 1, 0, false;
      }
    }

    /** goToPrevExercise: one exercise back unless on the first one (or
        without a session); keeps the round only inside one circuit. */
    method GoToPrevExercise()
      requires activeWorkout.Some? && currentExerciseIndex > 0 ==>
                 currentExerciseIndex < |activeWorkout.value.exercises|
      modifies this`currentExerciseIndex, this`currentSetIndex, this`isResting
      ensures old(activeWorkout).None? || old(currentExerciseIndex) <= 0 ==> unchanged(this)
      ensures old(activeWorkout).Some? && old(currentExerciseIndex) > 0 ==>
                && currentExerciseIndex == old(currentExerciseIndex) - 1
                && currentSetIndex == (if SameCircuit(SessionExerciseList()[old(currentExerciseIndex)],
                                                      SessionExerciseList()[currentExerciseIndex])
                                       then old(currentSetIndex) else 0)
                && !isResting
    {
      if activeWorkout.None? {
        return;
      }
      var exercises := activeWorkout.value.exercises;
      if currentExerciseIndex > 0 {
        var currentExercise := exercises[currentExerciseIndex];
        var prevExercise := exercises[currentExerciseIndex - 1];
        if SameCircuit(currentExercise, prevExercise) {
          currentExerciseIndex, isResting := currentExerciseIndex - 1, false;
          return;
        }
        currentExerciseIndex, currentSetIndex, isResting := currentExerciseIndex - 1, 0, false;
      }
    }

    /** completeWorkout: stamps the session completed at `now` (milliseconds)
        with its whole-second duration. It recomputes both on every call. */
    method CompleteWorkout(now: int)
      modifies this`activeWorkout
      ensures old(activeWorkout).None? ==> activeWorkout.None?
      ensures old(activeWorkout).Some? ==> activeWorkout == Some(Finished(old(activeWorkout).value, now))
    {
      if activeWorkout.Some? {
        var session := activeWorkout.value;
        var durationSeconds := (now - session.startedAt) / 1000;
        activeWorkout := Some(session.(isCompleted := true, completedAt := Some(now),
                                       totalDurationSeconds := Some(durationSeconds)));
      }
    }

    /** cancelWorkout: drops the session; the cursor and rest fields stay. */
    method CancelWorkout()
      modifies this`activeWorkout
      ensures activeWorkout.None?
    {
      activeWorkout := None;
    }

    // ----- builder actions -----

    method SetWorkoutName(name: string)
      modifies this`workoutBuilder
      ensures workoutBuilder == old(workoutBuilder).(workoutName := name)
    {
      workoutBuilder := workoutBuilder.(workoutName := name);
    }

    method SetWorkoutDescription(desc: string)
      modifies this`workoutBuilder
      ensures workoutBuilder == old(workoutBuilder).(workoutDescription := desc)
    {
      workoutBuilder := workoutBuilder.(workoutDescription := desc);
    }

    /** addExerciseToBuilder: appends a straight exercise with the default
        targets (3 x 10, rest 60) at `order_index` = the old length. */
    method AddExerciseToBuilder(exercise: Exercise, freshId: string)
      modifies this`workoutBuilder
      ensures workoutBuilder == old(workoutBuilder).(exercises := old(workoutBuilder.exercises)
                + [NewBuilderExercise(exercise, freshId, |old(workoutBuilder.exercises)|)])
      ensures OrderIndexed(old(workoutBuilder.exercises)) ==> OrderIndexed(workoutBuilder.exercises)
    {
      var exs := workoutBuilder.exercises;
      workoutBuilder := workoutBuilder.(exercises := exs + [NewBuilderExercise(exercise, freshId, |exs|)]);
    }

    /** removeExerciseFromBuilder: `splice(index, 1)` then re-index. */
    method RemoveExerciseFromBuilder(index: int)
      modifies this`workoutBuilder
      ensures var rest := RemoveAt(old(workoutBuilder.exercises), SpliceStart(index, |old(workoutBuilder.exercises)|));
              && workoutBuilder == old(workoutBuilder).(exercises := workoutBuilder.exercises)
              && |workoutBuilder.exercises| == |rest|
              && forall i :: 0 <= i < |rest| ==> workoutBuilder.exercises[i] == rest[i].(orderIndex := i)
      ensures OrderIndexed(workoutBuilder.exercises)
    {
      var newExercises := workoutBuilder.exercises;
      newExercises := RemoveAt(newExercises, SpliceStart(index, |newExercises|));
      newExercises := Reindex(newExercises);
      workoutBuilder := workoutBuilder.(exercises := newExercises);
    }

    /** reorderExercises: moves the exercise at `fromIndex` to `toIndex` and
        re-indexes. When `fromIndex` names no exercise, `splice` yields
        `undefined`, the re-indexing loop throws, and nothing changes. */
    method ReorderExercises(fromIndex: int, toIndex: int)
      modifies this`workoutBuilder
      ensures var n := |old(workoutBuilder.exercises)|;
              SpliceStart(fromIndex, n) == n ==> workoutBuilder == old(workoutBuilder)
      ensures var n := |old(workoutBuilder.exercises)|;
              var from := SpliceStart(fromIndex, n);
              from < n ==>
                var moved := Move(old(workoutBuilder.exercises), from, toIndex);
                && workoutBuilder == old(workoutBuilder).(exercises := workoutBuilder.exercises)
                && |workoutBuilder.exercises| == n
                && forall i :: 0 <= i < n ==> workoutBuilder.exercises[i] == moved[i].(orderIndex := i)
      ensures OrderIndexed(old(workoutBuilder.exercises)) ==> OrderIndexed(workoutBuilder.exercises)
    {
      var newExercises := workoutBuilder.exercises;
      var from := SpliceStart(fromIndex, |newExercises|);
      if from == |newExercises| {
        return;
      }
      newExercises := Move(newExercises, from, toIndex);
      newExercises := Reindex(newExercises);
      workoutBuilder := workoutBuilder.(exercises := newExercises);
    }

    /** updateExerciseConfig: merges the config into the exercise at `index`. */
    method UpdateExerciseConfig(index: int, config: ExerciseConfig)
      requires 0 <= index < |workoutBuilder.exercises|
      modifies this`workoutBuilder
      ensures workoutBuilder == old(workoutBuilder).(exercises :=
                old(workoutBuilder.exercises)[index := Merge(old(workoutBuilder.exercises)[index], config)])
    {
      var newExercises := workoutBuilder.exercises;
      newExercises := newExercises[index := Merge(newExercises[index], config)];
      workoutBuilder := workoutBuilder.(exercises := newExercises);
    }

    /** createCircuit: groups the selected exercises under the fresh id
        `circuitId` with `rounds` rounds, station order = selection order. */
    method CreateCircuit(indices: seq<int>, rounds: int, circuitId: string)
      modifies this`workoutBuilder
      ensures workoutBuilder == old(workoutBuilder).(exercises :=
                Grouped(old(workoutBuilder.exercises), indices, rounds, circuitId))
    {
      var exercises := GroupAsCircuit(workoutBuilder.exercises, indices, rounds, circuitId);
      workoutBuilder := workoutBuilder.(exercises := exercises);
    }

    /** ungroupCircuit: dissolves circuit `circuitId`. */
    method UngroupCircuit(circuitId: string)
      modifies this`workoutBuilder
      ensures workoutBuilder == old(workoutBuilder).(exercises := Ungroup(old(workoutBuilder.exercises), circuitId))
    {
      workoutBuilder := workoutBuilder.(exercises := Ungroup(workoutBuilder.exercises, circuitId));
    }

    /** resetBuilder: back to the empty draft. */
    method ResetBuilder()
      modifies this`workoutBuilder
      ensures workoutBuilder == EmptyBuilder
    {
      workoutBuilder := EmptyBuilder;
    }
  }
}
