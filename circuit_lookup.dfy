/**
 * The circuit lookups of src/stores/workoutStore.ts (lines 158-165, 181,
 * 196, 212), also used by ActiveWorkoutSession.tsx and CircuitMode.tsx:
 * the stations of a circuit are the exercises sharing its `circuit_id`,
 * stably sorted by `order_in_circuit || 0`, and an exercise is located in a
 * list with `findIndex` on its `id`.
 */
module CircuitLookup {
  import opened Wrappers
  import opened WorkoutTypes
  import opened JsArray

  /** `exercises.filter(e => e.circuit_id === cid)`. */
  function FilterByCircuit(s: seq<WorkoutExercise>, cid: Option<string>): (r: seq<WorkoutExercise>)
    ensures |r| <= |s|
    ensures forall i :: 0 <= i < |r| ==> r[i].circuitId == cid
    ensures forall x :: x in r <==> x in s && x.circuitId == cid
  {
    if s == [] then []
    else if s[0].circuitId == cid then [s[0]] + FilterByCircuit(s[1..], cid)
    else FilterByCircuit(s[1..], cid)
  }

  /** The sort key `(e.order_in_circuit || 0)`. */
  function CircuitKey(e: WorkoutExercise): int {
    OptionalNumberOr(e.orderInCircuit, 0)
  }

  /** The stations of circuit `cid` in station order. */
  function Stations(s: seq<WorkoutExercise>, cid: Option<string>): (r: seq<WorkoutExercise>)
    ensures Sorted(r, CircuitKey)
    ensures |r| == |FilterByCircuit(s, cid)|
  {
    SortBy(FilterByCircuit(s, cid), CircuitKey)
  }

  /** The stations are exactly the exercises carrying the circuit's id. */
  lemma StationsMembers(s: seq<WorkoutExercise>, cid: Option<string>)
    ensures forall x :: x in Stations(s, cid) <==> x in s && x.circuitId == cid
    ensures forall i :: 0 <= i < |Stations(s, cid)| ==> Stations(s, cid)[i].circuitId == cid
  {
    var f := FilterByCircuit(s, cid);
    var r := Stations(s, cid);
    assert multiset(r) == multiset(f);
    forall x ensures x in r <==> x in f {
      assert x in r <==> x in multiset(r);
      assert x in f <==> x in multiset(f);
    }
    forall i | 0 <= i < |r| ensures r[i].circuitId == cid {
      assert r[i] in r;
    }
  }

  /** `s.findIndex(e => e.id === id)`: the first position holding `id`, or -1. */
  function IndexById(s: seq<WorkoutExercise>, id: string): (r: int)
    ensures -1 <= r < |s|
    ensures r >= 0 ==> s[r].id == id && forall j :: 0 <= j < r ==> s[j].id != id
    ensures r == -1 <==> forall j :: 0 <= j < |s| ==> s[j].id != id
  {
    if s == [] then -1
    else if s[0].id == id then 0
    else
      var k := IndexById(s[1..], id);
      if k == -1 then -1 else k + 1
  }

  /** Every exercise of a list is in it under its own id. */
  lemma IndexByIdFound(s: seq<WorkoutExercise>, x: WorkoutExercise)
    requires x in s
    ensures 0 <= IndexById(s, x.id)
  {
    var j :| 0 <= j < |s| && s[j] == x;
  }

  /** An exercise is found among the stations of its own circuit. */
  lemma FoundInOwnCircuit(s: seq<WorkoutExercise>, i: int)
    requires 0 <= i < |s|
    ensures 0 <= IndexById(Stations(s, s[i].circuitId), s[i].id)
  {
    StationsMembers(s, s[i].circuitId);
    IndexByIdFound(Stations(s, s[i].circuitId), s[i]);
  }

  /** With pairwise distinct ids, `findIndex` on an element's id returns its position. */
  ghost predicate DistinctIds(s: seq<WorkoutExercise>) {
    forall i, j :: 0 <= i < j < |s| ==> s[i].id != s[j].id
  }

  lemma IndexByIdDistinct(s: seq<WorkoutExercise>, k: int)
    requires DistinctIds(s) && 0 <= k < |s|
    ensures IndexById(s, s[k].id) == k
  {
  }

  // Erasing set records commutes with every lookup: the cursor logic never
  // depends on the sets of the exercises it searches.

  lemma {:induction false} ShapesFilter(s: seq<WorkoutExercise>, cid: Option<string>)
    ensures Shapes(FilterByCircuit(s, cid)) == FilterByCircuit(Shapes(s), cid)
  {
    if s != [] {
      ShapesFilter(s[1..], cid);
      assert Shapes(s)[1..] == Shapes(s[1..]);
    }
  }

  lemma {:induction false} ShapesInsert(x: WorkoutExercise, t: seq<WorkoutExercise>)
    ensures Shapes(Insert(x, t, CircuitKey)) == Insert(Shape(x), Shapes(t), CircuitKey)
    decreases |t|
  {
    if t != [] && CircuitKey(x) > CircuitKey(t[0]) {
      ShapesInsert(x, t[1..]);
      assert Shapes(t)[1..] == Shapes(t[1..]);
    }
  }

  lemma {:induction false} ShapesSort(s: seq<WorkoutExercise>)
    ensures Shapes(SortBy(s, CircuitKey)) == SortBy(Shapes(s), CircuitKey)
  {
    if s != [] {
      ShapesSort(s[1..]);
      ShapesInsert(s[0], SortBy(s[1..], CircuitKey));
      assert Shapes(s)[1..] == Shapes(s[1..]);
    }
  }

  lemma ShapesStations(s: seq<WorkoutExercise>, cid: Option<string>)
    ensures Shapes(Stations(s, cid)) == Stations(Shapes(s), cid)
  {
    ShapesFilter(s, cid);
    ShapesSort(FilterByCircuit(s, cid));
  }

  lemma {:induction false} ShapesIndexById(s: seq<WorkoutExercise>, id: string)
    ensures IndexById(Shapes(s), id) == IndexById(s, id)
  {
    if s != [] {
      ShapesIndexById(s[1..], id);
      assert Shapes(s)[1..] == Shapes(s[1..]);
    }
  }

  /** Two lists that agree on everything but set records have stations
      with the same ids, in the same order, and the same `findIndex` results. */
  lemma SameShapeLookups(a: seq<WorkoutExercise>, b: seq<WorkoutExercise>, cid: Option<string>)
    requires Shapes(a) == Shapes(b)
    ensures |Stations(a, cid)| == |Stations(b, cid)|
    ensures forall i :: 0 <= i < |Stations(a, cid)| ==> Shape(Stations(a, cid)[i]) == Shape(Stations(b, cid)[i])
    ensures forall id :: IndexById(a, id) == IndexById(b, id)
  {
    ShapesStations(a, cid);
    ShapesStations(b, cid);
    forall id ensures IndexById(a, id) == IndexById(b, id) {
      ShapesIndexById(a, id);
      ShapesIndexById(b, id);
    }
  }
}
