/**
 * The session screen of src/components/workouts/active/ActiveWorkoutSession.tsx:
 * the "last set of the last exercise" test, the auto-finish effect, the
 * complete-set button, the circuit progress panel and the elapsed-time
 * format.
 */
module ActiveWorkoutSession {
  import opened Wrappers
  import opened WorkoutTypes
  import opened JsText
  import opened CircuitLookup
  import opened WorkoutStore
  import CircuitMode
  import SessionProperties

  /** The session's exercise list, empty without a session. */
  function ExerciseList(session: Option<Session>): seq<WorkoutExercise> {
    if session.Some? then session.value.exercises else []
  }

  /** `currentExercise?.sets?.[currentSetIndex]`. */
  function CurrentSet(session: Option<Session>, cei: int, csi: int): (r: Option<ExerciseSet>)
    ensures r.Some? <==> 0 <= cei < |ExerciseList(session)| && ExerciseList(session)[cei].sets.Some?
                         && 0 <= csi < |ExerciseList(session)[cei].sets.value|
    ensures r.Some? ==> r.value == ExerciseList(session)[cei].sets.value[csi]
  {
    var current := CircuitMode.CurrentExercise(ExerciseList(session), cei);
    if current.Some? && current.value.sets.Some? && 0 <= csi < |current.value.sets.value|
    then Some(current.value.sets.value[csi]) else None
  }

  /** `currentExercise?.sets?.length || currentExercise?.sets_target || 1`
      (line 102): an empty set list counts as absent. */
  function TotalSetsActual(current: Option<WorkoutExercise>): (r: int)
    ensures current.Some? && current.value.sets.Some? && |current.value.sets.value| > 0 ==>
              r == |current.value.sets.value|
    ensures (current.Some? && (current.value.sets.None? || current.value.sets.value == [])
             && current.value.setsTarget != 0) ==> r == current.value.setsTarget
    ensures (current.None? || ((current.value.sets.None? || current.value.sets.value == [])
                               && current.value.setsTarget == 0)) ==> r == 1
  {
    if current.None? then 1
    else if current.value.sets.Some? && |current.value.sets.value| > 0 then |current.value.sets.value|
    else NumberOr(current.value.setsTarget, 1)
  }

  /** `isWorkoutComplete` (lines 103-105): the cursor is on the last
      exercise and on or past its last set. */
  predicate IsWorkoutComplete(session: Option<Session>, cei: int, csi: int) {
    var exs := ExerciseList(session);
    && session.Some?
    && cei == |exs| - 1
    && csi >= TotalSetsActual(CircuitMode.CurrentExercise(exs, cei)) - 1
  }

  /** The auto-finish condition (line 109). */
  predicate ShouldAutoFinish(session: Option<Session>, cei: int, csi: int) {
    var current := CurrentSet(session, cei, csi);
    && session.Some?
    && IsWorkoutComplete(session, cei, csi)
    && current.Some? && current.value.isCompleted
    && !session.value.isCompleted
  }

  /** On a straight exercise with sets, the completion test holds exactly
      where completeSet leaves the cursor in place without a rest. */
  lemma CompletionMatchesStraightStay(s: Session, cei: int, csi: int)
    requires 0 <= cei < |s.exercises| && s.exercises[cei].sets.Some? && |s.exercises[cei].sets.value| > 0
    requires !TakesCircuitPath(s.exercises[cei])
    ensures IsWorkoutComplete(Some(s), cei, csi) <==> NextCursor(s.exercises, cei, csi) == Step(cei, csi, false)
  {
    assert CircuitMode.CurrentExercise(s.exercises, cei) == Some(s.exercises[cei]);
  }

  /** Completing the last set of a straight last exercise sets the
      auto-finish condition on the state completeSet leaves. */
  lemma LastSetTriggersAutoFinish(s: Session, reps: int, weight: real, now: int)
    requires |s.exercises| > 0 && !s.isCompleted
    requires var last := s.exercises[|s.exercises| - 1];
             last.sets.Some? && |last.sets.value| > 0 && !TakesCircuitPath(last)
    ensures var cei := |s.exercises| - 1;
            var csi := |s.exercises[cei].sets.value| - 1;
            var marked := MarkSet(s.exercises, cei, csi, reps, weight, now);
            var step := NextCursor(marked, cei, csi);
            && IsWorkoutComplete(Some(s), cei, csi)
            && step == Step(cei, csi, false)
            && ShouldAutoFinish(Some(s.(exercises := marked)), step.exerciseIndex, step.setIndex)
  {
    var cei := |s.exercises| - 1;
    var csi := |s.exercises[cei].sets.value| - 1;
    var marked := MarkSet(s.exercises, cei, csi, reps, weight, now);
    CompletionMatchesStraightStay(s, cei, csi);
    SessionProperties.MarkingKeepsCursor(s.exercises, cei, csi, reps, weight, now);
    SessionProperties.StraightLastSetStays(s.exercises, cei, csi);
    var s' := s.(exercises := marked);
    assert Shape(marked[cei]) == Shape(s.exercises[cei]) by {
      assert Shapes(marked)[cei] == Shapes(s.exercises)[cei];
    }
    assert CircuitMode.CurrentExercise(marked, cei) == Some(marked[cei]);
    assert CurrentSet(Some(s'), cei, csi) == Some(marked[cei].sets.value[csi]);
  }

  /** The auto-finish effect (lines 108-112), run after a state change:
      completes the workout when the condition holds; it then no longer
      holds, so the effect completes the workout at most once. */
  method AutoFinish(store: Store, now: int)
    modifies store`activeWorkout
    ensures ShouldAutoFinish(old(store.activeWorkout), store.currentExerciseIndex, store.currentSetIndex) ==>
              store.activeWorkout == Some(Finished(old(store.activeWorkout).value, now))
    ensures !ShouldAutoFinish(old(store.activeWorkout), store.currentExerciseIndex, store.currentSetIndex) ==>
              store.activeWorkout == old(store.activeWorkout)
    ensures !ShouldAutoFinish(store.activeWorkout, store.currentExerciseIndex, store.currentSetIndex)
  {
    if ShouldAutoFinish(store.activeWorkout, store.currentExerciseIndex, store.currentSetIndex) {
      store.CompleteWorkout(now);
    }
  }

  /** `parseFloat(weight) || 0`: `None` stands for NaN. */
  function WeightOr(weight: Option<real>): (r: real)
    ensures weight.Some? ==> r == weight.value
    ensures weight.None? ==> r == 0.0
  {
    if weight.Some? then weight.value else 0.0
  }

  /** The session completeSet leaves: set `csi` of exercise `cei` marked
      when the exercise has sets, else unchanged. */
  function AfterSet(s: Session, cei: int, csi: int, reps: int, weight: real, now: int): Session
    requires 0 <= cei < |s.exercises|
  {
    if s.exercises[cei].sets.Some? then s.(exercises := MarkSet(s.exercises, cei, csi, reps, weight, now)) else s
  }

  /** The session onCompleteSet leaves: the set recorded, and the workout
      completed when the completion test held before the set. */
  function Outcome(s: Session, cei: int, csi: int, reps: int, weight: real, now: int): Session
    requires 0 <= cei < |s.exercises|
  {
    var after := AfterSet(s, cei, csi, reps, weight, now);
    if IsWorkoutComplete(Some(s), cei, csi) then Finished(after, now) else after
  }

  /** Where completeSet leaves the cursor: the next cursor over the marked
      list, or the same place when the exercise has no set records. */
  function CursorAfter(exs: seq<WorkoutExercise>, cei: int, csi: int, reps: int, weight: real, now: int): (int, int)
    requires 0 <= cei < |exs|
  {
    if exs[cei].sets.Some? then
      var step := NextCursor(MarkSet(exs, cei, csi, reps, weight, now), cei, csi);
      (step.exerciseIndex, step.setIndex)
    else (cei, csi)
  }

  /** onCompleteSet (lines 133-140). `reps` is the parsed reps input, `None`
      when the input is empty; `weight` the parsed weight input. Nothing
      happens without reps; otherwise the set is recorded, and the workout
      is completed when the completion test held before the set. */
  method OnCompleteSet(store: Store, reps: Option<int>, weight: Option<real>, now: int)
    requires store.activeWorkout.Some? ==> 0 <= store.currentExerciseIndex < |store.activeWorkout.value.exercises|
    modifies store`activeWorkout, store`currentExerciseIndex, store`currentSetIndex
    modifies store`isResting, store`restTimeRemaining
    ensures reps.None? ==> && store.activeWorkout == old(store.activeWorkout)
                           && store.currentExerciseIndex == old(store.currentExerciseIndex)
                           && store.currentSetIndex == old(store.currentSetIndex)
                           && store.isResting == old(store.isResting)
                           && store.restTimeRemaining == old(store.restTimeRemaining)
    ensures reps.Some? && old(store.activeWorkout).None? ==>
              && store.activeWorkout.None?
              && store.currentExerciseIndex == old(store.currentExerciseIndex)
              && store.currentSetIndex == old(store.currentSetIndex)
              && store.isResting == old(store.isResting)
              && store.restTimeRemaining == old(store.restTimeRemaining)
    ensures reps.Some? && old(store.activeWorkout).Some? ==>
              store.activeWorkout
                == Some(Outcome(old(store.activeWorkout).value, old(store.currentExerciseIndex),
                                old(store.currentSetIndex), reps.value, WeightOr(weight), now))
    ensures reps.Some? && old(store.activeWorkout).Some? ==>
              CursorAfter(old(store.activeWorkout).value.exercises, old(store.currentExerciseIndex),
                          old(store.currentSetIndex), reps.value, WeightOr(weight), now)
              == (store.currentExerciseIndex, store.currentSetIndex)
    ensures reps.Some? && old(store.activeWorkout).Some? ==>
              var exs := old(store.activeWorkout).value.exercises;
              var cei, csi := old(store.currentExerciseIndex), old(store.currentSetIndex);
              && (exs[cei].sets.None? ==> store.isResting == old(store.isResting)
                                          && store.restTimeRemaining == old(store.restTimeRemaining))
              && (exs[cei].sets.Some? ==>
                    var step := NextCursor(MarkSet(exs, cei, csi, reps.value, WeightOr(weight), now), cei, csi);
                    && (step.rest ==> store.isResting && store.restTimeRemaining == RestLength(exs[cei]))
                    && (!step.rest ==> store.isResting == old(store.isResting)
                                       && store.restTimeRemaining == old(store.restTimeRemaining)))
    ensures store.activeWorkout.Some? ==> 0 <= store.currentExerciseIndex < |store.activeWorkout.value.exercises|
  {
    if reps.None? {
      return;
    }
    var complete := IsWorkoutComplete(store.activeWorkout, store.currentExerciseIndex, store.currentSetIndex);
    if store.activeWorkout.None? {
      store.CompleteSet(reps.value, WeightOr(weight), now);
      return;
    }
    ghost var before, cei, csi := store.activeWorkout.value, store.currentExerciseIndex, store.currentSetIndex;
    ghost var expected := AfterSet(before, cei, csi, reps.value, WeightOr(weight), now);
    ghost var cursor := CursorAfter(before.exercises, cei, csi, reps.value, WeightOr(weight), now);
    store.CompleteSet(reps.value, WeightOr(weight), now);
    assert store.activeWorkout == Some(expected);
    assert (store.currentExerciseIndex, store.currentSetIndex) == cursor;
    ghost var outcome := Outcome(before, cei, csi, reps.value, WeightOr(weight), now);
    if complete {
      assert outcome == Finished(expected, now);
      store.CompleteWorkout(now);
      assert store.activeWorkout.value.exercises == expected.exercises;
    } else {
      assert outcome == expected;
    }
  }

  /** Completing the set that finishes the workout leaves a completed
      session, so the auto-finish effect does not complete it a second
      time. */
  lemma CompletedOnce(s: Session, cei: int, csi: int, reps: int, weight: real, now: int)
    requires 0 <= cei < |s.exercises| && IsWorkoutComplete(Some(s), cei, csi)
    ensures Finished(AfterSet(s, cei, csi, reps, weight, now), now).isCompleted
    ensures forall i, j :: !ShouldAutoFinish(Some(Finished(AfterSet(s, cei, csi, reps, weight, now), now)), i, j)
  {
  }

  /** The circuit progress panel (lines 154-163). */
  datatype CircuitInfo = CircuitInfo(
    currentRound: int,
    totalRounds: int,
    currentStation: int,
    totalStations: int,
    isLastStation: bool,
    nextStationName: Option<string>)

  /** The name shown for a station: `exercise?.name`. */
  function StationName(e: WorkoutExercise): Option<string> {
    if e.exercise.Some? then Some(e.exercise.value.name) else None
  }

  /** `circuitInfo` (lines 145-164): present exactly when the current
      exercise has a set `circuit_id`. */
  function CircuitInfoOf(exs: seq<WorkoutExercise>, cei: int, csi: int): (r: Option<CircuitInfo>)
    ensures r.Some? <==> 0 <= cei < |exs| && IsSetId(exs[cei].circuitId)
  {
    var current := CircuitMode.CurrentExercise(exs, cei);
    if current.Some? && (current.value.isCircuit || IsSetId(current.value.circuitId)) && IsSetId(current.value.circuitId) then
      var st := Stations(exs, current.value.circuitId);
      FoundInOwnCircuit(exs, cei);
      Some(Panel(st, IndexById(st, current.value.id), csi + 1, OptionalNumberOr(current.value.circuitRounds, 1)))
    else None
  }

  /** The panel for station `k` of `st`: numbered from 1, the last one
      flagged, and the following station's name otherwise. */
  function Panel(st: seq<WorkoutExercise>, k: int, round: int, rounds: int): CircuitInfo
    requires 0 <= k < |st|
  {
    CircuitInfo(round, rounds, k + 1, |st|, k == |st| - 1, if k < |st| - 1 then StationName(st[k + 1]) else None)
  }

  /** The panel shows the round (from 1) and the round count, the current
      exercise's place among its circuit's stations, whether it is the last
      one, and otherwise the name of the station after it. */
  lemma CircuitInfoFields(exs: seq<WorkoutExercise>, cei: int, csi: int)
    requires 0 <= cei < |exs| && IsSetId(exs[cei].circuitId)
    ensures var st := Stations(exs, exs[cei].circuitId);
            var info := CircuitInfoOf(exs, cei, csi).value;
            && info.currentRound == csi + 1
            && info.totalRounds == OptionalNumberOr(exs[cei].circuitRounds, 1)
            && info.totalStations == |st|
            && 1 <= info.currentStation <= info.totalStations
            && st[info.currentStation - 1].id == exs[cei].id
            && (info.isLastStation <==> info.currentStation == info.totalStations)
            && (!info.isLastStation ==> info.nextStationName == StationName(st[info.currentStation]))
            && (info.isLastStation ==> info.nextStationName.None?)
  {
    var st := Stations(exs, exs[cei].circuitId);
    FoundInOwnCircuit(exs, cei);
    var k := IndexById(st, exs[cei].id);
    assert CircuitInfoOf(exs, cei, csi).value == Panel(st, k, csi + 1, OptionalNumberOr(exs[cei].circuitRounds, 1));
  }

  /** The panel and the store agree on the path: the panel is shown exactly
      when completeSet takes its circuit branch, and completeSet starts a
      rest only from the station the panel calls the last. Mid-round the
      panel names the station the guided view shows as up next. */
  lemma CircuitInfoAgrees(exs: seq<WorkoutExercise>, cei: int, csi: int)
    requires 0 <= cei < |exs| && exs[cei].sets.Some?
    ensures CircuitInfoOf(exs, cei, csi).Some? <==> TakesCircuitPath(exs[cei])
    ensures var info := CircuitInfoOf(exs, cei, csi);
            info.Some? ==>
              && (NextCursor(exs, cei, csi).rest ==> info.value.isLastStation)
              && (!info.value.isLastStation ==>
                    var up := CircuitMode.UpNext(exs, cei, csi);
                    up.Some? && info.value.nextStationName == StationName(up.value))
  {
    var info := CircuitInfoOf(exs, cei, csi);
    if info.Some? {
      SessionProperties.CircuitRest(exs, cei, csi);
      assert CircuitMode.CurrentExercise(exs, cei) == Some(exs[cei]);
      assert CircuitMode.ViewStations(exs, cei) == Stations(exs, exs[cei].circuitId);
    }
  }

  /** `formatTime` (lines 117-122): hours and a colon only when there is a
      whole hour, then minutes and seconds padded to two digits. */
  function FormatClock(seconds: int): string {
    ClockText(FloorDiv(seconds, 3600), MinSec(FloorDiv(JsRem(seconds, 3600), 60), JsRem(seconds, 60)))
  }

  /** The hours with a colon when there are any, then the `mm:ss` text. */
  function ClockText(h: int, ms: string): string {
    (if h > 0 then IntToString(h) + ":" else "") + ms
  }

  /** Reads `[h:]mm:ss` back to seconds. */
  function ParseClock(t: string): Option<int> {
    if |t| == 5 then MmSsEnding(t)
    else if |t| >= 7 && t[|t| - 6] == ':' && AllDigits(t[..|t| - 6]) && MmSsEnding(t).Some? then
      Some(3600 * ParseDigits(t[..|t| - 6]) + MmSsEnding(t).value)
    else None
  }

  /** The clock's pieces for a non-negative time: whole hours, minutes
      below 60 and seconds below 60 that add up to the time. */
  lemma ClockPieces(seconds: int)
    requires seconds >= 0
    ensures var h, m, s := FloorDiv(seconds, 3600), FloorDiv(JsRem(seconds, 3600), 60), JsRem(seconds, 60);
            && 0 <= h && 0 <= m < 60 && 0 <= s < 60
            && (h == 0 <==> seconds < 3600)
            && 3600 * h + 60 * m + s == seconds
  {
    var q, r := seconds / 3600, seconds % 3600;
    assert FloorDiv(seconds, 3600) == q && JsRem(seconds, 3600) == r;
    var m, s := r / 60, r % 60;
    assert FloorDiv(r, 60) == m;
    Mod60(seconds, 60 * q + m, s);
  }

  /** Sixty times a number plus a remainder below sixty leaves that remainder. */
  lemma Mod60(a: int, q: int, r: int)
    requires 0 <= q && a == 60 * q + r && 0 <= r < 60
    ensures a % 60 == r && JsRem(a, 60) == r
  {
  }

  /** Without hours the clock is the `mm:ss` text, with hours `h:mm:ss`;
      either way it reads back to the hours plus the `mm:ss` value `v`,
      here `total`. */
  lemma ClockTextRoundTrip(h: nat, ms: string, v: int, total: int)
    requires |ms| == 5 && ParseMmSs(ms) == Some(v) && total == 3600 * h + v
    ensures ParseClock(ClockText(h, ms)) == Some(total)
  {
    if h == 0 {
      assert ClockText(h, ms) == ms;
    } else {
      ClockWithHours(h, ms, v, total);
    }
  }

  /** Hours before a `mm:ss` text read back as whole hours plus it. */
  lemma ClockWithHours(h: nat, ms: string, v: int, total: int)
    requires h > 0 && |ms| == 5 && ParseMmSs(ms) == Some(v) && total == 3600 * h + v
    ensures ParseClock(IntToString(h) + ":" + ms) == Some(total)
  {
    var hs := IntToString(h);
    assert hs == NatToString(h);
    ParseNatToString(h);
    ColonSplit(hs, ms);
    MmSsEndingAfter(hs + ":", ms);
    var t := hs + ":" + ms;
    assert t[..|t| - 6] == hs;
    ClockValue(t, h, v, total);
  }

  /** A text with an hours field and a `mm:ss` ending reads as their sum. */
  lemma ClockValue(t: string, h: nat, v: int, total: int)
    requires |t| >= 7 && t[|t| - 6] == ':' && AllDigits(t[..|t| - 6]) && ParseDigits(t[..|t| - 6]) == h
    requires MmSsEnding(t) == Some(v) && total == 3600 * h + v
    ensures ParseClock(t) == Some(total)
  {
  }

  /** The `mm:ss` text alone has five characters; hours make it longer. */
  lemma ClockTextWidth(h: int, ms: string)
    requires |ms| == 5
    ensures h > 0 <==> |ClockText(h, ms)| > 5
  {
  }

  /** Every non-negative elapsed time prints and reads back to itself. */
  lemma FormatClockRoundTrip(seconds: int)
    requires seconds >= 0
    ensures ParseClock(FormatClock(seconds)) == Some(seconds)
  {
    ClockPieces(seconds);
    var h, m, s := FloorDiv(seconds, 3600), FloorDiv(JsRem(seconds, 3600), 60), JsRem(seconds, 60);
    var v := 60 * m + s;
    MinSecRoundTrip(m, s, v);
    ClockTextRoundTrip(h, MinSec(m, s), v, seconds);
  }

  /** The clock is `mm:ss` under an hour and `h:mm:ss` from an hour on. */
  lemma FormatClockWidth(seconds: int)
    requires seconds >= 0
    ensures seconds < 3600 <==> |FormatClock(seconds)| == 5
  {
    ClockPieces(seconds);
    var h, m, s := FloorDiv(seconds, 3600), FloorDiv(JsRem(seconds, 3600), 60), JsRem(seconds, 60);
    MinSecRoundTrip(m, s, 60 * m + s);
    ClockTextWidth(h, MinSec(m, s));
  }
}
