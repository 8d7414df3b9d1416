# Workout session engine, in Dafny

This project models the part of the workout tracker that runs a workout
session.

- **The workout store** (`src/stores/workoutStore.ts`) holds the active
  session and its cursor. The cursor is an exercise index plus a set index,
  and for a circuit the set index is the round. The store also holds the rest
  flag, the remaining rest time and the workout builder's draft list.
  `completeSet` records a set and moves the cursor. On straight exercises it
  goes set by set, then to the next exercise. On a circuit it goes station by
  station within a round, wraps back to the first station for the next round,
  and leaves the circuit after the last round. It decides whether a rest
  follows each move.
- **The station countdown** (`src/hooks/useCircuitTimer.ts`) and **the rest
  countdown** (`src/components/workouts/active/RestTimer.tsx`) are the two
  one-second timers.
- **The guided circuit view** (`CircuitMode.tsx`) and **the session screen**
  (`ActiveWorkoutSession.tsx`) decide when a set is completed, when the
  workout is finished, and what the circuit panel and the "up next" card show.
- **The duration estimate** (`src/lib/workout-utils.ts`) gives a workout's
  expected length in minutes.

Each store action is a method of the class `WorkoutStore.Store`. Its
`ensures` give the whole new state as a function of the old one. The cursor
logic is the specification function `WorkoutStore.NextCursor`. The lemmas in
`SessionProperties` prove what it does:

- straight sets advance one at a time;
- a circuit is visited station by station, round after round;
- a rest follows exactly these moves: to the next straight set, to the next
  exercise, the wrap to a new round of a circuit, and leaving a circuit for
  the exercise after it.

Both timers are classes whose methods are proved against pure step functions
(`CircuitTimer.TickStep`, `RestTimer.TickRest`). Lemmas over those functions
prove:

- the countdown runs out after exactly its duration;
- a tick calls `onComplete` at most once;
- the rest view stays within two seconds of the store.

JavaScript's semantics are written out where the code relies on them:

- `x || d` treats 0, `''` and absent values as falsy;
- `Array.prototype.sort` is stable;
- `splice` normalises its indices;
- `%` truncates toward zero;
- `Number.prototype.toString` and `padStart` build the clock texts.

Timestamps (milliseconds), fresh UUIDs and the current time are parameters.
Weights are `real`.

In these places the code behaves in ways a reader might not expect, and the
model follows the code:

- `completeWorkout` has no guard against a second call. Each call stamps a new
  completion time and recomputes the duration
  (`WorkoutStore.Store.CompleteWorkout`).
- The station countdown's `skip` calls `onComplete` on every call, even after
  the countdown has already ended by itself. Only the tick path is
  at-most-once per reset (`CircuitTimer.Timer.Skip`, `CircuitTimer.CountsDown`).
- After the last round, a circuit is left for the exercise that follows the
  *list position of its last station*, not the end of its block. When that
  station ends the list, the cursor stays and no rest starts
  (`SessionProperties.CircuitExit`).
- A circuit's round count is `circuit_rounds || 1`. A session gives an
  exercise `circuit_rounds || 1` sets only when `is_circuit` holds. An
  exercise with a `circuit_id` but no `is_circuit` still takes the circuit
  path, with `sets_target` set records (`WorkoutStore.SetCount`,
  `WorkoutStore.TakesCircuitPath`).
- No malformed-circuit check exists. The code looks stations up with
  `findIndex`. When the first station is not found, the cursor stays and no
  rest starts. That case cannot arise, because every station is taken from
  the list itself (`CircuitLookup.StationsMembers`).

## Model

| member | source | states |
|---|---|---|
| WorkoutStore.Store.constructor | src/stores/workoutStore.ts:62-83 | no session, cursor (0, 0), not resting, no rest time, empty builder draft |
| WorkoutStore.Store.StartWorkout | src/stores/workoutStore.ts:85-119 | succeeds exactly when no exercise asks for a negative set count (`Array(n)` would throw); the session is then `NewSession` (template sorted by `order_index`, fresh sets, not completed) with cursor (0, 0) and no rest; on failure nothing changes |
| SessionProperties.StartWorkoutSession | src/stores/workoutStore.ts:85-111 | the new session records the session id, the start time, the user and the template with its exercises sorted, is not completed, and its exercises are the template's sorted by `order_index` and a permutation of them |
| SessionProperties.SessionExercisesShapes | src/stores/workoutStore.ts:87-97 | each session exercise is the sorted template exercise at its position, apart from its set records |
| SessionProperties.SessionExercisesFresh | src/stores/workoutStore.ts:97-109 | each session exercise has `circuit_rounds \|\| 1` (circuit) or `sets_target` set records numbered from 1, none completed |
| SessionProperties.SessionExercisesSorted | src/stores/workoutStore.ts:87 | the session's exercises are in `order_index` order |
| WorkoutStore.Store.CompleteSet | src/stores/workoutStore.ts:121-240 | without a session, or on an exercise without set records, nothing changes; otherwise the current set is marked with the reps, weight and time, the cursor becomes `NextCursor` of the marked list, a rest of `rest_seconds \|\| 60` starts exactly when `NextCursor` asks for one, and the cursor stays on the list |
| WorkoutStore.NextCursorInRange | src/stores/workoutStore.ts:144-229 | the next cursor's exercise index is always a position of the list, so consecutive completeSet calls stay in range |
| WorkoutStore.MarkSet | src/stores/workoutStore.ts:125-142 | only set `csi` of exercise `cei` changes, and it becomes completed with the given reps, weight and time; every other exercise and set is unchanged |
| WorkoutStore.NextStep | src/stores/workoutStore.ts:144-229 | the branch logic run step by step produces `NextCursor` |
| WorkoutStore.NextCircuitStep | src/stores/workoutStore.ts:151-217 | the circuit branch run step by step produces `CircuitCursor` |
| SessionProperties.StraightSetsProgress | src/stores/workoutStore.ts:219-229 | straight sets: next set with rest, else set 0 of the next exercise with rest, else stay without rest; the exercise index never decreases and the set index resets exactly when it grows |
| SessionProperties.StraightLastSetStays | src/stores/workoutStore.ts:219-229 | on the last set of the last straight exercise the cursor stays and no rest starts |
| SessionProperties.CircuitRest | src/stores/workoutStore.ts:151-217 | for any list, mid-round the cursor moves to the next station in the same round without rest; after the last station with rounds left it moves to the first station, next round, with rest; a rest starts only after the last station |
| SessionProperties.CircuitExit | src/stores/workoutStore.ts:191-210 | for any list, after the last station of the last round the cursor moves with rest to set 0 of the exercise after the last station's list position, or stays without rest when that station ends the list |
| SessionProperties.MarkingKeepsCursor | src/stores/workoutStore.ts:125-229 | the cursor computed on the marked list equals the cursor computed on the unmarked one |
| SessionProperties.NextCursorIgnoresSets | src/stores/workoutStore.ts:144-229 | the next cursor depends only on the exercises' fields other than set records, beyond the current exercise's number of sets |
| SessionProperties.CircuitCursorIgnoresSets | src/stores/workoutStore.ts:151-217 | the circuit cursor depends only on the list's shapes |
| SessionProperties.StationIdsAgree | src/stores/workoutStore.ts:158-165 | lists with equal shapes have stations with the same ids at the same `findIndex` positions |
| SessionProperties.StationsOfBlock | src/stores/workoutStore.ts:158-161 | the stations of a contiguous, well-formed circuit are its block in list order |
| SessionProperties.CircuitStep | src/stores/workoutStore.ts:151-217 | in a contiguous circuit of n stations: station k < n-1 goes to k+1 in the same round without rest, the last station wraps to the first in the next round with rest, and after the last round the cursor leaves the block with rest or stays without rest at the end of the list |
| SessionProperties.RoundLoop | src/stores/workoutStore.ts:151-217 | for any cursor move that steps station to station within a round and wraps while rounds remain, completion r*n+k lands on station k in round r, with a rest exactly after a wrap |
| SessionProperties.CircuitVisitOrder | src/stores/workoutStore.ts:121-240 | starting on the first station in round 0, completion r*n+k (k < n, r < R) finds the cursor on station k in round r; the round grows only on the wrap, the only in-circuit move that rests (stated by replaying the cursor move; PlayedFollowsReplay shows the replay reaches the cursors of successive completeSet calls) |
| SessionProperties.PlayedFollowsReplay | src/stores/workoutStore.ts:121-240 | any number of successive completeSet calls, each marking the set it completes, reach the same cursors as the cursor move replayed on the list as started, and keep every exercise and its number of set records |
| SessionProperties.BlockStepsExit | src/stores/workoutStore.ts:191-210 | in a contiguous circuit, the last station of the last round leaves the block |
| CircuitLookup.FilterByCircuit | src/stores/workoutStore.ts:158-159 | the result holds exactly the exercises carrying the circuit id, and only them |
| CircuitLookup.Stations | src/stores/workoutStore.ts:158-161 | the stations are sorted by `order_in_circuit \|\| 0` and are as many as the circuit's exercises |
| CircuitLookup.StationsMembers | src/stores/workoutStore.ts:158-161 | an exercise is a station exactly when it is in the list with the circuit's id |
| CircuitLookup.IndexById | src/stores/workoutStore.ts:162 | `findIndex`: -1 when no element has the id, else the first position holding it |
| CircuitLookup.FoundInOwnCircuit | src/stores/workoutStore.ts:158-165 | an exercise is found among the stations of its own circuit |
| CircuitLookup.SameShapeLookups | src/stores/workoutStore.ts:158-165 | lists that agree on everything but set records give stations with the same ids in the same order, and the same `findIndex` results |
| WorkoutStore.Store.StartRest | src/stores/workoutStore.ts:242 | resting, with the given seconds remaining; nothing else changes |
| WorkoutStore.Store.CompleteRest | src/stores/workoutStore.ts:243 | not resting, 0 remaining; nothing else changes |
| WorkoutStore.Store.UpdateRestTime | src/stores/workoutStore.ts:244 | the remaining rest is overwritten and the flag is kept |
| WorkoutStore.Store.GoToNextExercise | src/stores/workoutStore.ts:246-271 | no change without a session or on the last exercise; otherwise one exercise forward, not resting, keeping the round only between two `is_circuit` exercises of the same circuit and resetting it to 0 otherwise |
| WorkoutStore.Store.GoToPrevExercise | src/stores/workoutStore.ts:273-298 | no change without a session or on the first exercise; otherwise one exercise back, not resting, keeping the round only within one circuit |
| WorkoutStore.Store.CompleteWorkout | src/stores/workoutStore.ts:300-316 | the session becomes `Finished`: completed at `now`, with duration `floor((now - started) / 1000)` seconds; no session stays no session |
| WorkoutStore.Store.CancelWorkout | src/stores/workoutStore.ts:318-320 | the session is dropped; cursor, rest and builder stay |
| WorkoutStore.Store.SetWorkoutName | src/stores/workoutStore.ts:323-325 | only the draft's name changes |
| WorkoutStore.Store.SetWorkoutDescription | src/stores/workoutStore.ts:327-329 | only the draft's description changes |
| WorkoutStore.Store.AddExerciseToBuilder | src/stores/workoutStore.ts:331-354 | appends a straight 3 x 10 exercise with 60 s rest at `order_index` = old length; a draft indexed by position stays so |
| WorkoutStore.Store.RemoveExerciseFromBuilder | src/stores/workoutStore.ts:356-367 | the element `splice(index, 1)` selects is removed, the others keep their order, and every `order_index` becomes its position |
| WorkoutStore.Reindex | src/stores/workoutStore.ts:362-364 | every exercise keeps all fields but `order_index`, which becomes its position |
| WorkoutStore.Store.ReorderExercises | src/stores/workoutStore.ts:369-381 | when `fromIndex` names an exercise it is moved to `splice`'s normalised `toIndex` and the list is re-indexed, else nothing changes; a position-indexed draft stays so |
| BuilderProperties.MoveIsPermutation | src/stores/workoutStore.ts:372-374 | the position maps of a move are inverse on the list's positions: a move is a permutation |
| BuilderProperties.MovePositions | src/stores/workoutStore.ts:372-374 | the moved element lands at the normalised target and every other element is shifted as the two splices say |
| BuilderProperties.ReorderPositions | src/stores/workoutStore.ts:369-381 | after reordering, element i is the old element moved there, re-indexed to i |
| WorkoutStore.Store.UpdateExerciseConfig | src/stores/workoutStore.ts:383-391 | the exercise at `index` becomes `{ ...e, ...config }`: each key present in the config wins; nothing else changes |
| WorkoutStore.Merge | src/stores/workoutStore.ts:387 | each of the nine config keys overwrites its field when present and leaves it when absent; id, workout id, exercise, `order_index` and sets are kept |
| WorkoutStore.Store.CreateCircuit | src/stores/workoutStore.ts:393-415 | the draft becomes `Grouped`: each selected existing exercise becomes a station of the new circuit with the given rounds, and its `order_in_circuit` is its last position in the selection |
| WorkoutStore.GroupAsCircuit | src/stores/workoutStore.ts:399-412 | the loop produces `Grouped` |
| WorkoutStore.LastPosition | src/stores/workoutStore.ts:399-412 | -1 when `k` is not selected, else the last position holding it |
| BuilderProperties.GroupedMembers | src/stores/workoutStore.ts:393-415 | with a fresh id, the circuit's members are exactly the selected existing exercises, numbered by their last position in the selection |
| WorkoutStore.Store.UngroupCircuit | src/stores/workoutStore.ts:417-437 | the draft becomes `Ungroup` of the old list |
| WorkoutStore.Ungroup | src/stores/workoutStore.ts:420-434 | the circuit's members become straight exercises of 3 sets with no circuit fields; all others are unchanged |
| BuilderProperties.UngroupIdempotent | src/stores/workoutStore.ts:417-437 | ungrouping twice equals ungrouping once |
| BuilderProperties.GroupThenUngroup | src/stores/workoutStore.ts:393-437 | grouping under a fresh id and then ungrouping it leaves every selected exercise straight with 3 sets and every other exercise as it was |
| WorkoutStore.Store.ResetBuilder | src/stores/workoutStore.ts:439-449 | the draft is the empty builder |
| CircuitTimer.TickStep | src/hooks/useCircuitTimer.ts:20-48 | no change when paused or at 0; from above 1 one second less; from 1 or less to 0 with one `onComplete` call; the time never grows or goes below 0 |
| CircuitTimer.PausedIsFrozen | src/hooks/useCircuitTimer.ts:20-24 | while paused any number of ticks changes nothing |
| CircuitTimer.CountsDown | src/hooks/useCircuitTimer.ts:20-48 | from T >= 0 running, n <= T ticks leave T - n and call `onComplete` exactly when they reach 0; further ticks change nothing, so the tick path fires at most once |
| CircuitTimer.Timer.constructor | src/hooks/useCircuitTimer.ts:10-11 | starts at `duration`, not paused, nothing fired |
| CircuitTimer.Timer.Render | src/hooks/useCircuitTimer.ts:14-18 | a changed duration or key resets the time and un-pauses; otherwise nothing changes |
| CircuitTimer.Timer.Tick | src/hooks/useCircuitTimer.ts:26-48 | the state becomes `TickStep` of the old one, keeping the at-most-once invariant |
| CircuitTimer.Timer.TogglePause | src/hooks/useCircuitTimer.ts:55 | flips the pause flag |
| CircuitTimer.Timer.Skip | src/hooks/useCircuitTimer.ts:57-60 | the time becomes 0 and `onComplete` is called once more |
| RestTimer.SyncView | src/components/workouts/active/RestTimer.tsx:33-51 | while resting the view adopts the store's value only when it is more than 2 s away, so it ends within 2 s of the store, and `initialTime` rises to the store's value; otherwise the view resets |
| RestTimer.TickRest | src/components/workouts/active/RestTimer.tsx:54-73 | no change when not resting or paused; at 1 s or less the rest ends at the store with 0; otherwise one second less, locally and at the store |
| RestTimer.AddTime | src/components/workouts/active/RestTimer.tsx:93-98 | time left and initial time grow by the seconds, and the store receives the new time |
| RestTimer.RestRunsOut | src/components/workouts/active/RestTimer.tsx:33-73 | a running rest that agrees with the store at T >= 1 counts down in step with it and ends after exactly T seconds, not resting with 0 remaining |
| RestTimer.PausedRestHolds | src/components/workouts/active/RestTimer.tsx:54-58 | while paused nothing changes, second after second |
| RestTimer.MountedInAgreement | src/components/workouts/active/RestTimer.tsx:21-51 | on mounting, the first synchronisation changes nothing |
| RestTimer.DriftTolerance | src/components/workouts/active/RestTimer.tsx:37-39 | a store value within 2 s of the view is ignored, and one further away is adopted |
| RestTimer.AddTimeAgrees | src/components/workouts/active/RestTimer.tsx:93-98 | adding time keeps view and store in agreement, and the next synchronisation changes nothing |
| RestTimer.RestCountdown.constructor | src/components/workouts/active/RestTimer.tsx:21-23 | both counters start at the store's remaining rest, not paused |
| RestTimer.RestCountdown.Sync | src/components/workouts/active/RestTimer.tsx:33-51 | the view becomes `SyncView` of the old view and the store |
| RestTimer.RestCountdown.Tick | src/components/workouts/active/RestTimer.tsx:60-73 | view and store become `TickRest` of the old ones |
| RestTimer.RestCountdown.AddTimeBy | src/components/workouts/active/RestTimer.tsx:93-98 | view and store become `AddTime` of the old ones |
| RestTimer.RestCountdown.TogglePause | src/components/workouts/active/RestTimer.tsx:210 | flips the pause flag |
| RestTimer.FormatRestRoundTrip | src/components/workouts/active/RestTimer.tsx:87-91 | every non-negative duration prints as `m:ss` and reads back to itself |
| RestTimer.FormatRestSecondsField | src/components/workouts/active/RestTimer.tsx:87-91 | the seconds field's tens digit is at most 5 |
| CircuitMode.CurrentExercise | src/components/workouts/active/CircuitMode.tsx:29 | present exactly when the cursor is on the list, and then the exercise there |
| CircuitMode.StationIndex | src/components/workouts/active/CircuitMode.tsx:52-56 | a position among the view's stations, or -1; never -1 when the cursor is on the list |
| CircuitMode.UpNext | src/components/workouts/active/CircuitMode.tsx:61-63 | the next station when the current one is not the last, else the first station when another round follows, else none |
| CircuitMode.UpNextAgreesWithCompleteSet | src/components/workouts/active/CircuitMode.tsx:51-63 | on a circuit exercise "up next" is the station completeSet moves to, in the same round mid-round and in the next round after the last station, and it is empty exactly after the last station of the last round |
| CircuitMode.HandleComplete | src/components/workouts/active/CircuitMode.tsx:35-43 | no change without a current exercise; otherwise completeSet with reps = the station duration (`reps_target \|\| 45`) and weight 0: the set is marked, the cursor moves as completeSet moves it, the completed exercise's rest starts when completeSet starts one and the rest fields are kept otherwise |
| CircuitMode.FormatStationRoundTrip | src/components/workouts/active/CircuitMode.tsx:65-69 | below 100 minutes a station time prints as five characters `mm:ss` and reads back to itself |
| ActiveWorkoutSession.CurrentSet | src/components/workouts/active/ActiveWorkoutSession.tsx:86-87 | the set record under the cursor, when there is one |
| ActiveWorkoutSession.TotalSetsActual | src/components/workouts/active/ActiveWorkoutSession.tsx:102 | the number of set records when there are any, else `sets_target \|\| 1` |
| ActiveWorkoutSession.CompletionMatchesStraightStay | src/components/workouts/active/ActiveWorkoutSession.tsx:101-105 | on a straight exercise with sets, the completion test holds exactly where completeSet leaves the cursor in place without rest |
| ActiveWorkoutSession.LastSetTriggersAutoFinish | src/components/workouts/active/ActiveWorkoutSession.tsx:107-112 | completing the last set of a straight last exercise sets the auto-finish condition |
| ActiveWorkoutSession.AutoFinish | src/components/workouts/active/ActiveWorkoutSession.tsx:107-112 | completes the workout exactly when the condition holds, after which it no longer holds |
| ActiveWorkoutSession.WeightOr | src/components/workouts/active/ActiveWorkoutSession.tsx:135 | the parsed weight, or 0 when it is NaN or 0 |
| ActiveWorkoutSession.OnCompleteSet | src/components/workouts/active/ActiveWorkoutSession.tsx:133-140 | nothing without reps; with reps and no session, nothing but completeSet's no-op; otherwise the set is recorded and the cursor moved as completeSet does, the rest starts exactly when completeSet starts one (rest fields kept otherwise), the workout is completed when the completion test held before the set, and the cursor stays on the list |
| ActiveWorkoutSession.CompletedOnce | src/components/workouts/active/ActiveWorkoutSession.tsx:107-140 | after the set that finishes the workout the session is completed, so the auto-finish effect does not complete it again |
| ActiveWorkoutSession.CircuitInfoOf | src/components/workouts/active/ActiveWorkoutSession.tsx:145-164 | the panel is present exactly when the current exercise has a set `circuit_id` |
| ActiveWorkoutSession.CircuitInfoFields | src/components/workouts/active/ActiveWorkoutSession.tsx:148-163 | the panel shows round `csi + 1` of `circuit_rounds \|\| 1`, the exercise's place among its stations, whether it is the last, and otherwise the next station's name |
| ActiveWorkoutSession.CircuitInfoAgrees | src/components/workouts/active/ActiveWorkoutSession.tsx:145-164 | the panel shows exactly when completeSet takes its circuit branch; a rest starts only from the station the panel calls the last, and mid-round the panel names the station "up next" shows |
| ActiveWorkoutSession.FormatClockRoundTrip | src/components/workouts/active/ActiveWorkoutSession.tsx:117-122 | every non-negative elapsed time prints as `[h:]mm:ss` and reads back to itself |
| ActiveWorkoutSession.FormatClockWidth | src/components/workouts/active/ActiveWorkoutSession.tsx:117-122 | under an hour the clock has five characters, and from an hour on it is longer |
| ActiveWorkoutSession.ClockPieces | src/components/workouts/active/ActiveWorkoutSession.tsx:118-120 | hours, minutes below 60 and seconds below 60 add up to the time |
| WorkoutUtils.ExerciseField | src/lib/workout-utils.ts:20 | `exercises` unless falsy, else `workout_exercises` |
| WorkoutUtils.EntrySeconds | src/lib/workout-utils.ts:31-37 | `sets * (45 + rest)` in each of the four cases of which field is 0, with 3 sets and 60 s rest standing in for a zero field; any other value, negative ones included, is used as it is |
| WorkoutUtils.CeilMinutes | src/lib/workout-utils.ts:48 | the least number of minutes covering the seconds |
| WorkoutUtils.Estimate | src/lib/workout-utils.ts:14-53 | 0 exactly when the workout is missing or its exercise list is missing, not an array or empty; otherwise at least 10 and at least the total rounded up to minutes |
| WorkoutUtils.SumSeconds | src/lib/workout-utils.ts:26-45 | the loop's total is the exercise seconds plus 120 s between consecutive exercises |
| WorkoutUtils.CalculateWorkoutDuration | src/lib/workout-utils.ts:14-53 | returns `Estimate` |
| WorkoutUtils.TotalSecondsAppend | src/lib/workout-utils.ts:30-45 | appending an exercise adds its seconds and one transition |
| WorkoutUtils.EstimateOrderFree | src/lib/workout-utils.ts:30-45 | the total does not depend on the order of two blocks of exercises |
| WorkoutUtils.DefaultTotal | src/lib/workout-utils.ts:30-45 | n exercises with no targets take 435 n - 120 seconds |
| JsArray.SortBy | src/stores/workoutStore.ts:87 | the result is sorted by the key and a permutation of the input |
| JsArray.SortBySortedIsIdentity | src/stores/workoutStore.ts:87 | a list already in key order is left as it is |
| JsArray.RemoveAt | src/stores/workoutStore.ts:359 | the element at `start` is removed when there is one, and the others keep their order |
| JsArray.InsertAt | src/stores/workoutStore.ts:374 | `x` is at `start`, with the elements before it and after it in order |
| JsText.ParseNatToString | src/components/workouts/active/RestTimer.tsx:90 | a natural number's decimal text reads back to the number |
| JsText.TwoDigits | src/components/workouts/active/CircuitMode.tsx:68 | 0..99 pads to two digits whose value is the number |
| JsText.MinSecRoundTrip | src/components/workouts/active/CircuitMode.tsx:68 | below 100, minutes and seconds print as `mm:ss` and read back to their number of seconds |
| JsText.JsRem | src/components/workouts/active/ActiveWorkoutSession.tsx:119-120 | `%` with the sign of the dividend: Euclidean for a >= 0; for a < 0 the value in (-b, 0] that differs from a by a multiple of b, which is the truncated remainder |
| JsText.FloorDiv | src/components/workouts/active/ActiveWorkoutSession.tsx:118-119 | `Math.floor(a / b)`: the greatest q with q * b <= a |

`CircuitMode.TargetTime`, `CircuitMode.TimerKey` and
`CircuitMode.NextStationNumber` are helpers (`reps_target || 45`, the reset
key, the "up next" card's number). Their contracts only spell out their
definitions, and they are listed here as helpers, not as proved properties.

## Left out

- WorkoutStore.Store.CompleteSet: requires the cursor to be on the exercise list while a session exists; the code throws a TypeError reading `currentExercise.sets` otherwise. `WorkoutStore.NextCursorInRange` proves the store never leaves that domain by itself.
- ActiveWorkoutSession.OnCompleteSet: carries the same cursor requirement, for the same reason.
- WorkoutStore.Store.GoToNextExercise: requires a non-negative cursor while a session exists; the code throws a TypeError reading fields of `undefined` otherwise.
- WorkoutStore.Store.GoToPrevExercise: requires a cursor on the list when it is above 0; the code throws a TypeError otherwise.
- WorkoutStore.Store.UpdateExerciseConfig: requires `index` to be a position of the draft. For another index the code writes a sparse array element or a non-index property. Every caller passes a valid index (`src/components/workouts/builder/WorkoutBuilder.tsx:90`, `src/components/workouts/builder/DraggableExercise.tsx:173-224`).
- WorkoutStore.ExerciseConfig: has the nine keys the builder sends; the code spreads an arbitrary partial object.
- Set records drop their `id` and `workout_exercise_id` fields. They are fresh UUIDs and the exercise's id, and nothing in the core reads them.
- ActiveWorkoutSession.OnCompleteSet: `parseInt` producing NaN is not modelled. `reps` is either absent (empty input) or an integer; the code would store NaN as the reps.
- WorkoutStore.Store.RemoveExerciseFromBuilder and WorkoutStore.Store.ReorderExercises: the code writes `order_index` into objects the old list shares. When `fromIndex` names no exercise, the code re-indexes part of the list before it throws. The model treats lists as values and leaves the state unchanged in that case.
- CircuitTimer.Timer.Skip: the `setTimeout(…, 0)` deferral of `onComplete` is modelled as an immediate call.
- Console logging in the store is dropped.
- The circuit-mode store fields and their actions `startCircuitMode`, `nextCircuitExercise` and `completeCircuitRound` (`src/stores/workoutStore.ts:452-475`) are left out. No active-session component calls them.
- The `persist` middleware (local-storage persistence of the store) is left out. It is I/O.
- `crypto.randomUUID()` and `new Date()` become parameters. Timestamps are integer milliseconds, not ISO strings.
- Weights are `real` and only stored. Floating-point rounding is not modelled.
- Interval and timeout scheduling, unmounting and effect ordering are not modelled. Each timer callback and effect is a method the caller runs in order.
- The session screen's elapsed-time effect (`ActiveWorkoutSession.tsx:72-83`), the input initialisation effect (`ActiveWorkoutSession.tsx:89-99`) and the `beforeunload` guard are left out. They read the clock or the DOM.
- Rendering, progress-ring geometry and translations are left out.
- JsArray.SortBy: proved sorted and a permutation; stability (equal keys keep their order) is not proved.
- ActiveWorkoutSession.ParseClock, JsText.ParseMmSs and RestTimer.ParseMinSec are reference inverses for the round-trip lemmas; the code has no parser.
- SessionProperties.CircuitVisitOrder, SessionProperties.CircuitStep and the other block lemmas assume a circuit stored as one contiguous block in station order with distinct ids. SessionProperties.CircuitRest and SessionProperties.CircuitExit state each single move for arbitrary lists.
- CircuitTimer.CountsDown: the at-most-once guarantee covers the tick path only; `skip` can call `onComplete` again, as the code does.
