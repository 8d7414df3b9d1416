/**
 * The guided circuit view of src/components/workouts/active/CircuitMode.tsx:
 * the station duration, what happens when the station timer completes, the
 * timer's reset key, and the "up next" station, which must be the station
 * completeSet moves the cursor to.
 */
module CircuitMode {
  import opened Wrappers
  import opened WorkoutTypes
  import opened JsText
  import opened CircuitLookup
  import opened WorkoutStore
  import SessionProperties

  /** `activeWorkout.exercises?.[currentExerciseIndex]`. */
  function CurrentExercise(exs: seq<WorkoutExercise>, cei: int): (r: Option<WorkoutExercise>)
    ensures r.Some? <==> 0 <= cei < |exs|
    ensures r.Some? ==> r.value == exs[cei]
  {
    if 0 <= cei < |exs| then Some(exs[cei]) else None
  }

  /** `currentExercise?.reps_target || 45`: the station lasts `reps_target`
      seconds, 45 when it is 0 or there is no current exercise. */
  function TargetTime(current: Option<WorkoutExercise>): (r: int)
    ensures current.Some? && current.value.repsTarget != 0 ==> r == current.value.repsTarget
    ensures current.None? || current.value.repsTarget == 0 ==> r == 45
  {
    if current.Some? then NumberOr(current.value.repsTarget, 45) else 45
  }

  /** The timer's reset key: the current exercise's id. A new station id
      is a new key, which restarts the timer (CircuitTimer.Timer.Render)
      even when both stations last equally long. */
  function TimerKey(current: Option<WorkoutExercise>): (r: Option<string>)
    ensures current.Some? ==> r == Some(current.value.id)
    ensures current.None? ==> r.None?
  {
    if current.Some? then Some(current.value.id) else None
  }

  /** The circuit stations as the view lists them: the exercises sharing
      the current exercise's `circuit_id` (absent ones when there is no
      current exercise), in station order. */
  function ViewStations(exs: seq<WorkoutExercise>, cei: int): seq<WorkoutExercise> {
    var current := CurrentExercise(exs, cei);
    Stations(exs, if current.Some? then current.value.circuitId else None)
  }

  /** `currentStationIndex`: the current exercise's position among the
      stations, -1 when there is none. */
  function StationIndex(exs: seq<WorkoutExercise>, cei: int): (r: int)
    ensures -1 <= r < |ViewStations(exs, cei)|
    ensures 0 <= cei < |exs| ==> 0 <= r
  {
    var current := CurrentExercise(exs, cei);
    if current.Some? then
      FoundInOwnCircuit(exs, cei);
      IndexById(ViewStations(exs, cei), current.value.id)
    else -1
  }

  /** `currentExercise?.circuit_rounds || 1`. */
  function TotalRounds(current: Option<WorkoutExercise>): int {
    if current.Some? then OptionalNumberOr(current.value.circuitRounds, 1) else 1
  }

  /** The "up next" station: the next station when the current one is not
      the last, else the first station when another round follows, else
      none (lines 61-63). */
  function UpNext(exs: seq<WorkoutExercise>, cei: int, csi: int): (r: Option<WorkoutExercise>)
    ensures var st := ViewStations(exs, cei);
            var k := StationIndex(exs, cei);
            && (k < |st| - 1 ==> r == Some(st[k + 1]))
            && (k == |st| - 1 && csi + 1 < TotalRounds(CurrentExercise(exs, cei)) && st != [] ==> r == Some(st[0]))
            && (k == |st| - 1 && csi + 1 >= TotalRounds(CurrentExercise(exs, cei)) ==> r.None?)
            && (st == [] ==> r.None?)
  {
    var st := ViewStations(exs, cei);
    var k := StationIndex(exs, cei);
    if k < |st| - 1 then Some(st[k + 1])
    else if csi + 1 < TotalRounds(CurrentExercise(exs, cei)) && st != [] then Some(st[0])
    else None
  }

  /** The number shown on the "up next" card: the next station's number,
      back to 1 after the last station. */
  function NextStationNumber(exs: seq<WorkoutExercise>, cei: int): (r: int)
    ensures var k := StationIndex(exs, cei);
            var n := |ViewStations(exs, cei)|;
            && (k + 2 <= n ==> r == k + 2)
            && (k + 2 > n ==> r == 1)
  {
    var k := StationIndex(exs, cei);
    if k + 2 > |ViewStations(exs, cei)| then 1 else k + 2
  }

  /** On a circuit exercise the view's "up next" station is the one
      completeSet moves to: mid-round the next station (same round), at the
      last station the first one (next round); and "up next" is empty
      exactly after the last station of the last round, where completeSet
      leaves the circuit or stays. The view lists the stations before the
      set is marked, completeSet after; the two lists agree on ids. */
  lemma UpNextAgreesWithCompleteSet(exs: seq<WorkoutExercise>, cei: int, csi: int, reps: int, weight: real, now: int)
    requires 0 <= cei < |exs| && exs[cei].sets.Some? && TakesCircuitPath(exs[cei])
    ensures var marked := MarkSet(exs, cei, csi, reps, weight, now);
            var step := NextCursor(marked, cei, csi);
            var up := UpNext(exs, cei, csi);
            var st := ViewStations(exs, cei);
            var k := StationIndex(exs, cei);
            && (up.Some? ==> && 0 <= step.exerciseIndex < |marked|
                             && marked[step.exerciseIndex].id == up.value.id
                             && step.setIndex == (if k < |st| - 1 then csi else csi + 1))
            && (up.None? <==> k == |st| - 1 && csi + 1 >= OptionalNumberOr(exs[cei].circuitRounds, 1))
  {
    var marked := MarkSet(exs, cei, csi, reps, weight, now);
    var step := NextCursor(marked, cei, csi);
    var up := UpNext(exs, cei, csi);
    var st := ViewStations(exs, cei);
    var k := StationIndex(exs, cei);
    var R := OptionalNumberOr(exs[cei].circuitRounds, 1);
    assert CurrentExercise(exs, cei) == Some(exs[cei]);
    assert TotalRounds(CurrentExercise(exs, cei)) == R;
    assert st == Stations(exs, exs[cei].circuitId);
    assert k == IndexById(Stations(exs, exs[cei].circuitId), exs[cei].id);
    SessionProperties.MarkingKeepsCursor(exs, cei, csi, reps, weight, now);
    SessionProperties.CircuitRest(exs, cei, csi);
    MarkingKeepsIds(exs, cei, csi, reps, weight, now);
    UpNextMatchesStep(exs, marked, st, k, R, csi, NextCursor(exs, cei, csi), up);
  }

  /** The case analysis of UpNextAgreesWithCompleteSet, over the facts
      CircuitRest and UpNext state. */
  lemma UpNextMatchesStep(exs: seq<WorkoutExercise>, marked: seq<WorkoutExercise>, st: seq<WorkoutExercise>,
                          k: int, R: int, csi: int, step: Step, up: Option<WorkoutExercise>)
    requires |marked| == |exs| && forall i :: 0 <= i < |exs| ==> marked[i].id == exs[i].id
    requires 0 <= k < |st|
    requires k < |st| - 1 ==> && step.setIndex == csi && 0 <= step.exerciseIndex < |exs|
                              && exs[step.exerciseIndex].id == st[k + 1].id
    requires k == |st| - 1 && csi < R - 1 ==> && step.setIndex == csi + 1 && 0 <= step.exerciseIndex < |exs|
                                              && exs[step.exerciseIndex].id == st[0].id
    requires k < |st| - 1 ==> up == Some(st[k + 1])
    requires k == |st| - 1 && csi + 1 < R ==> up == Some(st[0])
    requires k == |st| - 1 && csi + 1 >= R ==> up.None?
    ensures up.Some? ==> && 0 <= step.exerciseIndex < |marked|
                         && marked[step.exerciseIndex].id == up.value.id
                         && step.setIndex == (if k < |st| - 1 then csi else csi + 1)
    ensures up.None? <==> k == |st| - 1 && csi + 1 >= R
  {
  }

  /** Marking a set changes no exercise id. */
  lemma MarkingKeepsIds(exs: seq<WorkoutExercise>, cei: int, csi: int, reps: int, weight: real, now: int)
    requires 0 <= cei < |exs| && exs[cei].sets.Some?
    ensures var marked := MarkSet(exs, cei, csi, reps, weight, now);
            |marked| == |exs| && forall i :: 0 <= i < |exs| ==> marked[i].id == exs[i].id
  {
    var marked := MarkSet(exs, cei, csi, reps, weight, now);
    forall i | 0 <= i < |exs| ensures marked[i].id == exs[i].id {
      assert Shapes(marked)[i] == Shapes(exs)[i];
    }
  }

  /** Completing the station: nothing without a current exercise, otherwise
      completeSet with the station duration as reps and weight 0. */
  method HandleComplete(store: Store, now: int)
    modifies store`activeWorkout, store`currentExerciseIndex, store`currentSetIndex
    modifies store`isResting, store`restTimeRemaining
    ensures CurrentExercise(old(store.SessionExerciseList()), old(store.currentExerciseIndex)).None? ==> unchanged(store)
    ensures CurrentExercise(old(store.SessionExerciseList()), old(store.currentExerciseIndex)).Some? ==>
              var exs := old(store.SessionExerciseList());
              var cei := old(store.currentExerciseIndex);
              && (exs[cei].sets.None? ==> unchanged(store))
              && (exs[cei].sets.Some? ==>
                    var marked := MarkSet(exs, cei, old(store.currentSetIndex), TargetTime(Some(exs[cei])), 0.0, now);
                    var step := NextCursor(marked, cei, old(store.currentSetIndex));
                    && store.activeWorkout == Some(old(store.activeWorkout).value.(exercises := marked))
                    && store.currentExerciseIndex == step.exerciseIndex
                    && store.currentSetIndex == step.setIndex
                    && (step.rest ==> store.isResting && store.restTimeRemaining == RestLength(exs[cei]))
                    && (!step.rest ==> store.isResting == old(store.isResting)
                                       && store.restTimeRemaining == old(store.restTimeRemaining)))
  {
    if store.activeWorkout.None? {
      return;
    }
    var current := CurrentExercise(store.activeWorkout.value.exercises, store.currentExerciseIndex);
    if current.None? {
      return;
    }
    store.CompleteSet(TargetTime(current), 0.0, now);
  }

  /** `formatTime` (lines 65-69): minutes and seconds, both padded to two. */
  function FormatStation(seconds: int): string {
    MinSec(FloorDiv(seconds, 60), JsRem(seconds, 60))
  }

  /** Under 100 minutes a station time splits into minutes below 100 and
      seconds below 60. */
  lemma StationPieces(seconds: int)
    requires 0 <= seconds < 6000
    ensures var m, s := FloorDiv(seconds, 60), JsRem(seconds, 60);
            0 <= m < 100 && 0 <= s < 60 && 60 * m + s == seconds
  {
  }

  /** Under 100 minutes a station time prints as `mm:ss` and reads back. */
  lemma FormatStationRoundTrip(seconds: int)
    requires 0 <= seconds < 6000
    ensures |FormatStation(seconds)| == 5
    ensures ParseMmSs(FormatStation(seconds)) == Some(seconds)
  {
    StationPieces(seconds);
    MinSecRoundTrip(FloorDiv(seconds, 60), JsRem(seconds, 60), seconds);
  }
}
