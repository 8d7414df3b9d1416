/**
 * What the session actions of src/stores/workoutStore.ts guarantee, stated
 * about the functions the `Store` methods are proved against.
 */
module SessionProperties {
  import opened Wrappers
  import opened WorkoutTypes
  import opened JsArray
  import opened CircuitLookup
  import opened WorkoutStore

  // ---------------------------------------------------------------------
  // startWorkout
  // ---------------------------------------------------------------------

  /** startWorkout's session records the session id, the start time, the
      user and the template (its exercises sorted), is not completed, and
      lists the template's exercises in `order_index` order. */
  lemma StartWorkoutSession(w: Workout, id: string, now: int)
    requires CanStart(w)
    ensures var s := NewSession(w, id, now);
            && s.startedAt == now && !s.isCompleted && s.completedAt.None?
            && s.id == id && s.workoutId == w.id && s.userId == w.userId
            && s.workout == w.(exercises := Some(SortBy(TemplateExercises(w), OrderKey)))
            && |s.exercises| == |TemplateExercises(w)|
            && Sorted(s.exercises, OrderKey)
            && multiset(SortBy(TemplateExercises(w), OrderKey)) == multiset(TemplateExercises(w))
  {
    SessionExercisesSorted(w);
  }

  /** Each session exercise is the sorted template exercise at the same
      position, apart from its set records. */
  lemma SessionExercisesShapes(w: Workout)
    requires CanStart(w)
    ensures var sorted := SortBy(TemplateExercises(w), OrderKey);
            var exs := SessionExercises(w);
            forall i :: 0 <= i < |exs| ==> Shape(exs[i]) == Shape(sorted[i])
  {
    var sorted := SortBy(TemplateExercises(w), OrderKey);
    var exs := SessionExercises(w);
    forall i | 0 <= i < |exs| ensures Shape(exs[i]) == Shape(sorted[i]) {
      assert exs[i] == sorted[i].(sets := exs[i].sets);
    }
  }

  /** Each session exercise gets `SetCount` fresh sets numbered from 1,
      none completed. */
  lemma SessionExercisesFresh(w: Workout)
    requires CanStart(w)
    ensures var exs := SessionExercises(w);
            forall i :: 0 <= i < |exs| ==>
              && exs[i].sets.Some?
              && |exs[i].sets.value| == SetCount(exs[i])
              && forall j :: 0 <= j < |exs[i].sets.value| ==>
                   exs[i].sets.value[j] == ExerciseSet(j + 1, None, None, false, None)
  {
    var sorted := SortBy(TemplateExercises(w), OrderKey);
    var exs := SessionExercises(w);
    forall i | 0 <= i < |exs|
      ensures exs[i].sets == Some(FreshSets(SetCount(sorted[i])))
      ensures SetCount(exs[i]) == SetCount(sorted[i])
    {
    }
  }

  lemma SessionExercisesSorted(w: Workout)
    requires CanStart(w)
    ensures Sorted(SessionExercises(w), OrderKey)
  {
    var sorted := SortBy(TemplateExercises(w), OrderKey);
    var exs := SessionExercises(w);
    assert forall i :: 0 <= i < |exs| ==> OrderKey(exs[i]) == OrderKey(sorted[i]);
  }

  // ---------------------------------------------------------------------
  // completeSet
  // ---------------------------------------------------------------------

  /** Lists with the same shapes have stations with the same ids, found at
      the same positions. */
  lemma StationIdsAgree(a: seq<WorkoutExercise>, b: seq<WorkoutExercise>, cid: Option<string>)
    requires Shapes(a) == Shapes(b)
    ensures |Stations(a, cid)| == |Stations(b, cid)|
    ensures forall i :: 0 <= i < |Stations(a, cid)| ==> Stations(a, cid)[i].id == Stations(b, cid)[i].id
    ensures forall id :: IndexById(Stations(a, cid), id) == IndexById(Stations(b, cid), id)
    ensures forall id :: IndexById(a, id) == IndexById(b, id)
  {
    SameShapeLookups(a, b, cid);
    var sa, sb := Stations(a, cid), Stations(b, cid);
    forall i | 0 <= i < |sa| ensures sa[i].id == sb[i].id {
      assert Shape(sa[i]).id == Shape(sb[i]).id;
    }
    assert Shapes(sa) == Shapes(sb);
    forall id ensures IndexById(sa, id) == IndexById(sb, id) {
      ShapesIndexById(sa, id);
      ShapesIndexById(sb, id);
    }
  }

  /** The circuit cursor depends only on the shapes of the list. */
  lemma CircuitCursorIgnoresSets(a: seq<WorkoutExercise>, b: seq<WorkoutExercise>, cei: int, csi: int)
    requires Shapes(a) == Shapes(b) && 0 <= cei < |a|
    ensures CircuitCursor(a, cei, csi) == CircuitCursor(b, cei, csi)
  {
    assert Shape(a[cei]) == Shape(b[cei]);
    var ex := a[cei];
    assert ex.id == b[cei].id && ex.circuitId == b[cei].circuitId && ex.circuitRounds == b[cei].circuitRounds;
    StationIdsAgree(a, b, ex.circuitId);
    var sa, sb := Stations(a, ex.circuitId), Stations(b, ex.circuitId);
    FoundInOwnCircuit(a, cei);
    var k := IndexById(sa, ex.id);
    CircuitMoveAgrees(a, b, sa, sb, k, OptionalNumberOr(ex.circuitRounds, 1), cei, csi);
  }

  lemma CircuitMoveAgrees(a: seq<WorkoutExercise>, b: seq<WorkoutExercise>,
                          sa: seq<WorkoutExercise>, sb: seq<WorkoutExercise>,
                          k: int, totalRounds: int, cei: int, csi: int)
    requires 0 <= k < |sa| && |sa| == |sb| && |a| == |b|
    requires forall i :: 0 <= i < |sa| ==> sa[i].id == sb[i].id
    requires forall id :: IndexById(a, id) == IndexById(b, id)
    ensures CircuitMove(a, sa, k, totalRounds, cei, csi) == CircuitMove(b, sb, k, totalRounds, cei, csi)
  {
  }

  /** The next cursor never depends on the set records of the list beyond
      the current exercise's number of sets. */
  lemma NextCursorIgnoresSets(a: seq<WorkoutExercise>, b: seq<WorkoutExercise>, cei: int, csi: int)
    requires Shapes(a) == Shapes(b)
    requires 0 <= cei < |a| && a[cei].sets.Some? && b[cei].sets.Some?
    requires |a[cei].sets.value| == |b[cei].sets.value|
    ensures NextCursor(a, cei, csi) == NextCursor(b, cei, csi)
  {
    assert Shape(a[cei]) == Shape(b[cei]);
    CircuitCursorIgnoresSets(a, b, cei, csi);
  }

  /** So completeSet moves the cursor as if the set had not been marked. */
  lemma MarkingKeepsCursor(exs: seq<WorkoutExercise>, cei: int, csi: int, reps: int, weight: real, now: int)
    requires 0 <= cei < |exs| && exs[cei].sets.Some?
    ensures NextCursor(MarkSet(exs, cei, csi, reps, weight, now), cei, csi) == NextCursor(exs, cei, csi)
  {
    NextCursorIgnoresSets(MarkSet(exs, cei, csi, reps, weight, now), exs, cei, csi);
  }

  /** Straight sets: the cursor goes to the next set of the same exercise
      (with rest), else to set 0 of the next exercise (with rest), else it
      stays without rest on the last set of the last exercise. The exercise
      index never decreases and the set index returns to 0 exactly when the
      exercise index grows. */
  lemma StraightSetsProgress(exs: seq<WorkoutExercise>, cei: int, csi: int)
    requires 0 <= cei < |exs| && exs[cei].sets.Some? && !TakesCircuitPath(exs[cei]) && 0 <= csi
    ensures var n := |exs[cei].sets.value|;
            var step := NextCursor(exs, cei, csi);
            && (csi < n - 1 ==> step == Step(cei, csi + 1, true))
            && (csi >= n - 1 && cei < |exs| - 1 ==> step == Step(cei + 1, 0, true))
            && (csi >= n - 1 && cei == |exs| - 1 ==> step == Step(cei, csi, false))
            && cei <= step.exerciseIndex <= cei + 1
            && (step.rest ==> (step.setIndex == 0 <==> step.exerciseIndex == cei + 1))
            && (step.rest <==> step.exerciseIndex != cei || step.setIndex != csi)
  {
  }

  /** completeSet on the last set of the last straight exercise leaves the
      cursor in place and starts no rest; this is exactly where the
      session view's completion test holds. */
  lemma StraightLastSetStays(exs: seq<WorkoutExercise>, cei: int, csi: int)
    requires 0 <= cei < |exs| && exs[cei].sets.Some? && !TakesCircuitPath(exs[cei])
    requires cei == |exs| - 1 && csi >= |exs[cei].sets.value| - 1
    ensures NextCursor(exs, cei, csi) == Step(cei, csi, false)
  {
  }

  /** Circuit path: no rest within a round, where the cursor moves to (the
      first exercise carrying the id of) the next station in the same round;
      a rest only after the last station, and always when rounds remain,
      back to the first station in the next round. */
  lemma CircuitRest(exs: seq<WorkoutExercise>, cei: int, csi: int)
    requires 0 <= cei < |exs| && exs[cei].sets.Some? && TakesCircuitPath(exs[cei])
    ensures var st := Stations(exs, exs[cei].circuitId);
            var k := IndexById(st, exs[cei].id);
            var step := NextCursor(exs, cei, csi);
            && 0 <= k < |st|
            && (k < |st| - 1 ==> && !step.rest && step.setIndex == csi
                                 && 0 <= step.exerciseIndex < |exs|
                                 && exs[step.exerciseIndex].id == st[k + 1].id)
            && (k == |st| - 1 && csi < OptionalNumberOr(exs[cei].circuitRounds, 1) - 1 ==>
                  && step.rest && step.setIndex == csi + 1
                  && 0 <= step.exerciseIndex < |exs|
                  && exs[step.exerciseIndex].id == st[0].id)
            && (step.rest ==> k == |st| - 1)
  {
    var cid := exs[cei].circuitId;
    var st := Stations(exs, cid);
    FoundInOwnCircuit(exs, cei);
    var k := IndexById(st, exs[cei].id);
    var R := OptionalNumberOr(exs[cei].circuitRounds, 1);
    assert NextCursor(exs, cei, csi) == CircuitMove(exs, st, k, R, cei, csi);
    StationsMembers(exs, cid);
    forall x | 0 <= x < |st| ensures 0 <= IndexById(exs, st[x].id) {
      assert st[x] in st;
      IndexByIdFound(exs, st[x]);
    }
    MoveRest(exs, st, k, R, cei, csi);
  }

  /** ... and after the last station of the last round: the exercise
      following the list position of the last station, with a rest, or,
      when that station ends the list, no move and no rest. */
  lemma CircuitExit(exs: seq<WorkoutExercise>, cei: int, csi: int)
    requires 0 <= cei < |exs| && exs[cei].sets.Some? && TakesCircuitPath(exs[cei])
    requires csi >= OptionalNumberOr(exs[cei].circuitRounds, 1) - 1
    requires var st := Stations(exs, exs[cei].circuitId);
             0 <= IndexById(st, exs[cei].id) == |st| - 1
    ensures var st := Stations(exs, exs[cei].circuitId);
            var last := IndexById(exs, st[|st| - 1].id);
            var step := NextCursor(exs, cei, csi);
            && 0 <= last && exs[last].id == st[|st| - 1].id
            && (last < |exs| - 1 ==> step == Step(last + 1, 0, true))
            && (last == |exs| - 1 ==> step == Step(cei, csi, false))
  {
    var cid := exs[cei].circuitId;
    var st := Stations(exs, cid);
    FoundInOwnCircuit(exs, cei);
    var R := OptionalNumberOr(exs[cei].circuitRounds, 1);
    assert NextCursor(exs, cei, csi) == CircuitMove(exs, st, |st| - 1, R, cei, csi);
    StationsMembers(exs, cid);
    assert st[|st| - 1] in st;
    IndexByIdFound(exs, st[|st| - 1]);
  }

  /** The circuit branch over stations that all occur in the list. */
  lemma MoveRest(exs: seq<WorkoutExercise>, st: seq<WorkoutExercise>, k: int, R: int, cei: int, csi: int)
    requires 0 <= k < |st|
    requires forall x :: 0 <= x < |st| ==> 0 <= IndexById(exs, st[x].id)
    ensures var step := CircuitMove(exs, st, k, R, cei, csi);
            && (k < |st| - 1 ==> && !step.rest && step.setIndex == csi
                                 && 0 <= step.exerciseIndex < |exs|
                                 && exs[step.exerciseIndex].id == st[k + 1].id)
            && (k == |st| - 1 && csi < R - 1 ==>
                  && step.rest && step.setIndex == csi + 1
                  && 0 <= step.exerciseIndex < |exs|
                  && exs[step.exerciseIndex].id == st[0].id)
            && (step.rest ==> k == |st| - 1)
  {
    assert 0 <= IndexById(exs, st[0].id);
    if k < |st| - 1 {
      assert 0 <= IndexById(exs, st[k + 1].id);
    }
  }

  // ---------------------------------------------------------------------
  // A well-formed circuit: the round loop
  // ---------------------------------------------------------------------

  /** `n` stations of circuit `cid` stored contiguously from position `b`,
      in station order, no other exercise in that circuit, ids distinct. */
  ghost predicate CircuitBlock(exs: seq<WorkoutExercise>, b: int, n: int, cid: string) {
    && 0 <= b && 1 <= n && b + n <= |exs| && cid != ""
    && (forall i :: 0 <= i < |exs| ==> (exs[i].circuitId == Some(cid) <==> b <= i < b + n))
    && (forall i, j :: b <= i < j < b + n ==> CircuitKey(exs[i]) <= CircuitKey(exs[j]))
    && DistinctIds(exs)
    && (forall i :: b <= i < b + n ==> exs[i].sets.Some?)
  }

  lemma {:induction false} FilterConcat(x: seq<WorkoutExercise>, y: seq<WorkoutExercise>, cid: Option<string>)
    ensures FilterByCircuit(x + y, cid) == FilterByCircuit(x, cid) + FilterByCircuit(y, cid)
  {
    if x == [] {
      assert x + y == y;
    } else {
      assert (x + y)[0] == x[0];
      assert (x + y)[1..] == x[1..] + y;
      FilterConcat(x[1..], y, cid);
    }
  }

  lemma {:induction false} FilterAll(x: seq<WorkoutExercise>, cid: Option<string>)
    requires forall i :: 0 <= i < |x| ==> x[i].circuitId == cid
    ensures FilterByCircuit(x, cid) == x
  {
    if x != [] {
      FilterAll(x[1..], cid);
    }
  }

  lemma {:induction false} FilterNone(x: seq<WorkoutExercise>, cid: Option<string>)
    requires forall i :: 0 <= i < |x| ==> x[i].circuitId != cid
    ensures FilterByCircuit(x, cid) == []
  {
    if x != [] {
      FilterNone(x[1..], cid);
    }
  }

  /** Filtering a well-formed circuit's list by its id yields its block. */
  lemma FilterOfBlock(exs: seq<WorkoutExercise>, b: int, n: int, cid: string)
    requires CircuitBlock(exs, b, n, cid)
    ensures FilterByCircuit(exs, Some(cid)) == exs[b..b + n]
  {
    FilterRun(exs, b, b + n, Some(cid));
  }

  /** A list whose members with the id are exactly those in `[lo, hi)`
      filters to that run. */
  lemma FilterRun(exs: seq<WorkoutExercise>, lo: int, hi: int, c: Option<string>)
    requires 0 <= lo <= hi <= |exs|
    requires forall i :: 0 <= i < |exs| ==> (exs[i].circuitId == c <==> lo <= i < hi)
    ensures FilterByCircuit(exs, c) == exs[lo..hi]
  {
    FilterDropTail(exs, hi, c);
    FilterDropHead(exs, lo, hi, c);
    FilterRunAll(exs, lo, hi, c);
  }

  lemma FilterDropTail(exs: seq<WorkoutExercise>, hi: int, c: Option<string>)
    requires 0 <= hi <= |exs|
    requires forall i :: hi <= i < |exs| ==> exs[i].circuitId != c
    ensures FilterByCircuit(exs, c) == FilterByCircuit(exs[..hi], c)
  {
    FilterSuffixNone(exs, hi, c);
    assert exs[..hi] + exs[hi..] == exs;
    FilterConcat(exs[..hi], exs[hi..], c);
    assert FilterByCircuit(exs[..hi], c) + [] == FilterByCircuit(exs[..hi], c);
  }

  lemma FilterDropHead(exs: seq<WorkoutExercise>, lo: int, hi: int, c: Option<string>)
    requires 0 <= lo <= hi <= |exs|
    requires forall i :: 0 <= i < lo ==> exs[i].circuitId != c
    ensures FilterByCircuit(exs[..hi], c) == FilterByCircuit(exs[lo..hi], c)
  {
    FilterPrefixNone(exs, lo, c);
    assert exs[..lo] + exs[lo..hi] == exs[..hi];
    FilterConcat(exs[..lo], exs[lo..hi], c);
    assert [] + FilterByCircuit(exs[lo..hi], c) == FilterByCircuit(exs[lo..hi], c);
  }

  lemma FilterPrefixNone(exs: seq<WorkoutExercise>, lo: int, c: Option<string>)
    requires 0 <= lo <= |exs|
    requires forall i :: 0 <= i < lo ==> exs[i].circuitId != c
    ensures FilterByCircuit(exs[..lo], c) == []
  {
    var l := exs[..lo];
    forall i | 0 <= i < |l| ensures l[i].circuitId != c {
      assert l[i] == exs[i];
    }
    FilterNone(l, c);
  }

  lemma FilterRunAll(exs: seq<WorkoutExercise>, lo: int, hi: int, c: Option<string>)
    requires 0 <= lo <= hi <= |exs|
    requires forall i :: lo <= i < hi ==> exs[i].circuitId == c
    ensures FilterByCircuit(exs[lo..hi], c) == exs[lo..hi]
  {
    var m := exs[lo..hi];
    forall i | 0 <= i < |m| ensures m[i].circuitId == c {
      assert m[i] == exs[lo + i];
    }
    FilterAll(m, c);
  }

  lemma FilterSuffixNone(exs: seq<WorkoutExercise>, hi: int, c: Option<string>)
    requires 0 <= hi <= |exs|
    requires forall i :: hi <= i < |exs| ==> exs[i].circuitId != c
    ensures FilterByCircuit(exs[hi..], c) == []
  {
    var r := exs[hi..];
    forall i | 0 <= i < |r| ensures r[i].circuitId != c {
      assert r[i] == exs[hi + i];
    }
    FilterNone(r, c);
  }

  /** The stations of a well-formed circuit are its block, in list order. */
  lemma StationsOfBlock(exs: seq<WorkoutExercise>, b: int, n: int, cid: string)
    requires CircuitBlock(exs, b, n, cid)
    ensures Stations(exs, Some(cid)) == exs[b..b + n]
  {
    FilterOfBlock(exs, b, n, cid);
    var m := exs[b..b + n];
    assert Sorted(m, CircuitKey) by {
      forall i, j | 0 <= i < j < |m| ensures CircuitKey(m[i]) <= CircuitKey(m[j]) {
        assert m[i] == exs[b + i] && m[j] == exs[b + j];
      }
    }
    SortBySortedIsIdentity(m, CircuitKey);
  }

  /** Inside a well-formed circuit, completeSet's cursor is the circuit
      branch over the block, at the station's own position. */
  lemma CursorInBlock(exs: seq<WorkoutExercise>, b: int, n: int, cid: string, k: int, r: int)
    requires CircuitBlock(exs, b, n, cid) && 0 <= k < n
    ensures NextCursor(exs, b + k, r)
            == CircuitMove(exs, exs[b..b + n], k, OptionalNumberOr(exs[b + k].circuitRounds, 1), b + k, r)
  {
    StationsOfBlock(exs, b, n, cid);
    var st := exs[b..b + n];
    assert exs[b + k].circuitId == Some(cid);
    assert TakesCircuitPath(exs[b + k]);
    assert DistinctIds(st) by {
      forall i, j | 0 <= i < j < |st| ensures st[i].id != st[j].id {
        assert st[i] == exs[b + i] && st[j] == exs[b + j];
      }
    }
    assert st[k] == exs[b + k];
    IndexByIdDistinct(st, k);
  }

  /** The circuit branch over a well-formed block. */
  lemma MoveInBlock(exs: seq<WorkoutExercise>, b: int, n: int, cid: string, k: int, R: int, r: int)
    requires CircuitBlock(exs, b, n, cid) && 0 <= k < n
    ensures var step := CircuitMove(exs, exs[b..b + n], k, R, b + k, r);
            && (k < n - 1 ==> step == Step(b + k + 1, r, false))
            && (k == n - 1 && r < R - 1 ==> step == Step(b, r + 1, true))
            && (k == n - 1 && r >= R - 1 && b + n < |exs| ==> step == Step(b + n, 0, true))
            && (k == n - 1 && r >= R - 1 && b + n == |exs| ==> step == Step(b + n - 1, r, false))
  {
    var st := exs[b..b + n];
    assert st[0] == exs[b];
    IndexByIdDistinct(exs, b);
    assert st[n - 1] == exs[b + n - 1];
    IndexByIdDistinct(exs, b + n - 1);
    if k < n - 1 {
      assert st[k + 1] == exs[b + k + 1];
      IndexByIdDistinct(exs, b + k + 1);
    }
  }

  /** One completion inside a well-formed circuit of `n` stations whose
      last station has `R` rounds: station k < n-1 goes to station k+1 in
      the same round without rest; the last station goes back to the first
      one in the next round with rest; after the last round the cursor goes
      to the exercise after the circuit with set 0 and rest, or stays
      without rest when the circuit ends the workout. */
  lemma CircuitStep(exs: seq<WorkoutExercise>, b: int, n: int, cid: string, k: int, r: int)
    requires CircuitBlock(exs, b, n, cid) && 0 <= k < n
    ensures var R := OptionalNumberOr(exs[b + n - 1].circuitRounds, 1);
            var step := NextCursor(exs, b + k, r);
            && (k < n - 1 ==> step == Step(b + k + 1, r, false))
            && (k == n - 1 && r < R - 1 ==> step == Step(b, r + 1, true))
            && (k == n - 1 && r >= R - 1 && b + n < |exs| ==> step == Step(b + n, 0, true))
            && (k == n - 1 && r >= R - 1 && b + n == |exs| ==> step == Step(b + n - 1, r, false))
  {
    var Rk := OptionalNumberOr(exs[b + k].circuitRounds, 1);
    CursorInBlock(exs, b, n, cid, k, r);
    MoveInBlock(exs, b, n, cid, k, Rk, r);
  }

  /** The cursor after `m` completions from `s`, each moving it by `next`. */
  ghost function Replay(next: (int, int) -> Step, s: Step, m: nat): Step
    decreases m
  {
    if m == 0 then s
    else
      var p := Replay(next, s, m - 1);
      next(p.exerciseIndex, p.setIndex)
  }

  /** completeSet's cursor move on one list; a cursor outside the list does
      not move. Replaying it on the list as started gives the cursors that
      successive completeSet calls reach (PlayedFollowsReplay). */
  ghost function Advance(exs: seq<WorkoutExercise>): (int, int) -> Step {
    (i: int, j: int) =>
      if 0 <= i < |exs| && exs[i].sets.Some? then NextCursor(exs, i, j) else Step(i, j, false)
  }

  /** Two lists with the same exercises and the same number of set records
      in each; they differ at most in what the records hold. */
  ghost predicate SameSetCounts(a: seq<WorkoutExercise>, b: seq<WorkoutExercise>) {
    && Shapes(a) == Shapes(b)
    && forall i :: 0 <= i < |a| ==>
         && (a[i].sets.Some? <==> b[i].sets.Some?)
         && (a[i].sets.Some? ==> |a[i].sets.value| == |b[i].sets.value|)
  }

  /** The list and cursor after `m` completeSet calls from `s`, each one
      marking the current set before it moves the cursor, as
      `Store.CompleteSet` does. */
  ghost function Played(exs: seq<WorkoutExercise>, s: Step, m: nat, reps: int, weight: real, now: int)
    : (seq<WorkoutExercise>, Step)
    decreases m
  {
    if m == 0 then (exs, s)
    else
      var (xs, p) := Played(exs, s, m - 1, reps, weight, now);
      if 0 <= p.exerciseIndex < |xs| && xs[p.exerciseIndex].sets.Some? then
        var marked := MarkSet(xs, p.exerciseIndex, p.setIndex, reps, weight, now);
        (marked, NextCursor(marked, p.exerciseIndex, p.setIndex))
      else (xs, Step(p.exerciseIndex, p.setIndex, false))
  }

  /** Replaying the cursor move on the list as started gives the cursors
      that successive completeSet calls reach on the successively marked
      lists. */
  lemma {:induction false} PlayedFollowsReplay(exs: seq<WorkoutExercise>, s: Step, m: nat, reps: int, weight: real, now: int)
    ensures SameSetCounts(Played(exs, s, m, reps, weight, now).0, exs)
    ensures Played(exs, s, m, reps, weight, now).1 == Replay(Advance(exs), s, m)
    decreases m
  {
    if m > 0 {
      PlayedFollowsReplay(exs, s, m - 1, reps, weight, now);
      var (xs, p) := Played(exs, s, m - 1, reps, weight, now);
      var i := p.exerciseIndex;
      assert |xs| == |Shapes(xs)| == |Shapes(exs)| == |exs|;
      if 0 <= i < |xs| && xs[i].sets.Some? {
        var marked := MarkSet(xs, i, p.setIndex, reps, weight, now);
        NextCursorIgnoresSets(marked, exs, i, p.setIndex);
        forall k | 0 <= k < |marked|
          ensures (marked[k].sets.Some? <==> exs[k].sets.Some?)
          ensures marked[k].sets.Some? ==> |marked[k].sets.value| == |exs[k].sets.value|
        {
          if k != i {
            assert marked[k] == xs[k];
          }
        }
      }
    }
  }

  /** The round loop of any cursor move that goes from one station to the
      next within a round and wraps from the last station `b + n - 1` to the
      first `b` while rounds remain: completion number r*n + k finds the
      cursor on station k in round r, with a rest exactly after a wrap. */
  lemma {:induction false} RoundLoop(next: (int, int) -> Step, b: int, n: int, R: int, r: nat, k: nat)
    requires 1 <= n && k < n && (r == 0 || r < R)
    requires forall i, j :: b <= i < b + n - 1 ==> next(i, j) == Step(i + 1, j, false)
    requires forall i, j :: i == b + n - 1 && j < R - 1 ==> next(i, j) == Step(b, j + 1, true)
    ensures Replay(next, Step(b, 0, false), r * n + k) == Step(b + k, r, r > 0 && k == 0)
    decreases r, k
  {
    if k > 0 {
      assert r * n + k - 1 == r * n + (k - 1);
      RoundLoop(next, b, n, R, r, k - 1);
    } else if r > 0 {
      assert r * n + k - 1 == (r - 1) * n + (n - 1);
      RoundLoop(next, b, n, R, r - 1, n - 1);
    }
  }

  /** completeSet's cursor move on a well-formed circuit meets the round
      loop's conditions: station to station within a round, ... */
  lemma BlockStepsInRound(exs: seq<WorkoutExercise>, b: int, n: int, cid: string)
    requires CircuitBlock(exs, b, n, cid)
    ensures forall i, j :: b <= i < b + n - 1 ==> Advance(exs)(i, j) == Step(i + 1, j, false)
  {
    forall i, j | b <= i < b + n - 1 ensures Advance(exs)(i, j) == Step(i + 1, j, false) {
      InRoundCursor(exs, b, n, cid, i, j);
    }
  }

  lemma InRoundCursor(exs: seq<WorkoutExercise>, b: int, n: int, cid: string, i: int, j: int)
    requires CircuitBlock(exs, b, n, cid) && b <= i < b + n - 1
    ensures 0 <= i < |exs| && exs[i].sets.Some?
    ensures NextCursor(exs, i, j) == Step(i + 1, j, false)
  {
    var k := i - b;
    CursorInBlock(exs, b, n, cid, k, j);
    MidRoundMove(exs, b, n, cid, k, OptionalNumberOr(exs[b + k].circuitRounds, 1), j);
  }

  lemma MidRoundMove(exs: seq<WorkoutExercise>, b: int, n: int, cid: string, k: int, R: int, r: int)
    requires CircuitBlock(exs, b, n, cid) && 0 <= k < n - 1
    ensures CircuitMove(exs, exs[b..b + n], k, R, b + k, r) == Step(b + k + 1, r, false)
  {
    var st := exs[b..b + n];
    assert st[k + 1] == exs[b + k + 1];
    IndexByIdDistinct(exs, b + k + 1);
  }

  /** ... the last station back to the first while rounds remain, ... */
  lemma BlockStepsWrap(exs: seq<WorkoutExercise>, b: int, n: int, cid: string)
    requires CircuitBlock(exs, b, n, cid)
    ensures var R := OptionalNumberOr(exs[b + n - 1].circuitRounds, 1);
            forall i, j :: i == b + n - 1 && j < R - 1 ==> Advance(exs)(i, j) == Step(b, j + 1, true)
  {
    forall i, j | i == b + n - 1 && j < OptionalNumberOr(exs[b + n - 1].circuitRounds, 1) - 1
      ensures Advance(exs)(i, j) == Step(b, j + 1, true)
    {
      WrapStep(exs, b, n, cid, j);
    }
  }

  lemma WrapStep(exs: seq<WorkoutExercise>, b: int, n: int, cid: string, r: int)
    requires CircuitBlock(exs, b, n, cid)
    requires r < OptionalNumberOr(exs[b + n - 1].circuitRounds, 1) - 1
    ensures Advance(exs)(b + n - 1, r) == Step(b, r + 1, true)
  {
    WrapCursor(exs, b, n, cid, r);
  }

  lemma WrapCursor(exs: seq<WorkoutExercise>, b: int, n: int, cid: string, r: int)
    requires CircuitBlock(exs, b, n, cid)
    requires r < OptionalNumberOr(exs[b + n - 1].circuitRounds, 1) - 1
    ensures 0 <= b + n - 1 < |exs| && exs[b + n - 1].sets.Some?
    ensures NextCursor(exs, b + n - 1, r) == Step(b, r + 1, true)
  {
    var k := n - 1;
    CursorInBlock(exs, b, n, cid, k, r);
    WrapMove(exs, b, n, cid, k, OptionalNumberOr(exs[b + k].circuitRounds, 1), r);
  }

  lemma WrapMove(exs: seq<WorkoutExercise>, b: int, n: int, cid: string, k: int, R: int, r: int)
    requires CircuitBlock(exs, b, n, cid) && k == n - 1 && r < R - 1
    ensures CircuitMove(exs, exs[b..b + n], k, R, b + k, r) == Step(b, r + 1, true)
  {
    var st := exs[b..b + n];
    assert st[0] == exs[b];
    IndexByIdDistinct(exs, b);
  }

  /** ... and out of the circuit after the last round. */
  lemma BlockStepsExit(exs: seq<WorkoutExercise>, b: int, n: int, cid: string, j: int)
    requires CircuitBlock(exs, b, n, cid)
    requires j >= OptionalNumberOr(exs[b + n - 1].circuitRounds, 1) - 1
    ensures b + n < |exs| ==> Advance(exs)(b + n - 1, j) == Step(b + n, 0, true)
    ensures b + n == |exs| ==> Advance(exs)(b + n - 1, j) == Step(b + n - 1, j, false)
  {
    assert exs[b + n - 1].sets.Some?;
    CircuitStep(exs, b, n, cid, n - 1, j);
  }

  /** Starting on the first station in round 0, completion number r*n + k
      (k < n, r < R) finds the cursor on station k in round r: the stations
      are visited in order, round after round, and the round grows only when
      the cursor wraps from the last station to the first, which is the only
      completion inside the circuit that starts a rest. */
  lemma CircuitVisitOrder(exs: seq<WorkoutExercise>, b: int, n: int, cid: string, r: nat, k: nat)
    requires CircuitBlock(exs, b, n, cid)
    requires k < n && (r == 0 || r < OptionalNumberOr(exs[b + n - 1].circuitRounds, 1))
    ensures Replay(Advance(exs), Step(b, 0, false), r * n + k) == Step(b + k, r, r > 0 && k == 0)
  {
    BlockStepsInRound(exs, b, n, cid);
    BlockStepsWrap(exs, b, n, cid);
    RoundLoop(Advance(exs), b, n, OptionalNumberOr(exs[b + n - 1].circuitRounds, 1), r, k);
  }
}
