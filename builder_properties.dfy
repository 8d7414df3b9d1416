/**
 * Properties of the workout builder's list actions in
 * src/stores/workoutStore.ts: reorderExercises moves exactly one exercise
 * and shifts the ones in between, createCircuit groups exactly the
 * selected exercises, and ungroupCircuit undoes it.
 */
module BuilderProperties {
  import opened Wrappers
  import opened WorkoutTypes
  import opened JsArray
  import opened WorkoutStore

  /** After moving the element at `from` to `to`, the position its
      element at `i` came from. */
  function MovedFrom(from: nat, to: nat, i: nat): nat {
    if i == to then from
    else if from < to && from <= i < to then i + 1
    else if to < from && to < i <= from then i - 1
    else i
  }

  /** The position the element at `k` ends up at. */
  function MovedTo(from: nat, to: nat, k: nat): nat {
    if k == from then to
    else if from < to && from < k <= to then k - 1
    else if to < from && to <= k < from then k + 1
    else k
  }

  /** The two maps are inverse on the positions of a list of length `n`: a
      move is a permutation of positions. */
  lemma MoveIsPermutation(n: nat, from: nat, to: nat)
    requires from < n && to < n
    ensures forall i :: 0 <= i < n ==> MovedFrom(from, to, i) < n && MovedTo(from, to, MovedFrom(from, to, i)) == i
    ensures forall k :: 0 <= k < n ==> MovedTo(from, to, k) < n && MovedFrom(from, to, MovedTo(from, to, k)) == k
  {
  }

  /** `Move` puts the element at `from` at the normalised target and every
      other element where the two splices shift it. */
  lemma MovePositions(xs: seq<WorkoutExercise>, from: nat, toIndex: int)
    requires from < |xs|
    ensures var to := SpliceStart(toIndex, |xs| - 1);
            forall i :: 0 <= i < |xs| ==>
              MovedFrom(from, to, i) < |xs| && Move(xs, from, toIndex)[i] == xs[MovedFrom(from, to, i)]
  {
    var rest := RemoveAt(xs, from);
    var to := SpliceStart(toIndex, |rest|);
    var r := Move(xs, from, toIndex);
    assert r == InsertAt(rest, to, xs[from]);
    forall i | 0 <= i < |xs|
      ensures MovedFrom(from, to, i) < |xs| && r[i] == xs[MovedFrom(from, to, i)]
    {
      if i < to {
        assert r[i] == rest[i];
      } else if i > to {
        assert r[i] == rest[i - 1];
      }
    }
  }

  /** reorderExercises' list: element `i` is the old element moved there,
      re-indexed to `i`. */
  lemma ReorderPositions(xs: seq<WorkoutExercise>, from: nat, toIndex: int, ys: seq<WorkoutExercise>)
    requires from < |xs| && |ys| == |xs|
    requires forall i :: 0 <= i < |xs| ==> ys[i] == Move(xs, from, toIndex)[i].(orderIndex := i)
    ensures var to := SpliceStart(toIndex, |xs| - 1);
            && OrderIndexed(ys)
            && ys[to] == xs[from].(orderIndex := to)
            && forall k :: 0 <= k < |xs| ==>
                 MovedTo(from, to, k) < |xs| && ys[MovedTo(from, to, k)] == xs[k].(orderIndex := MovedTo(from, to, k))
  {
    var to := SpliceStart(toIndex, |xs| - 1);
    MovePositions(xs, from, toIndex);
    MoveIsPermutation(|xs|, from, to);
  }

  /** Dissolving a circuit twice is dissolving it once. */
  lemma UngroupIdempotent(xs: seq<WorkoutExercise>, cid: string)
    ensures Ungroup(Ungroup(xs, cid), cid) == Ungroup(xs, cid)
  {
  }

  /** With a fresh circuit id, the new circuit's members are exactly the
      selected exercises that exist, each carrying its last position in
      the selection as `order_in_circuit`. */
  lemma GroupedMembers(xs: seq<WorkoutExercise>, indices: seq<int>, rounds: int, cid: string)
    requires forall k :: 0 <= k < |xs| ==> xs[k].circuitId != Some(cid)
    ensures var g := Grouped(xs, indices, rounds, cid);
            && |g| == |xs|
            && (forall k :: 0 <= k < |xs| ==> (g[k].circuitId == Some(cid) <==> k in indices))
            && (forall p :: 0 <= p < |indices| && 0 <= indices[p] < |xs| ==>
                  g[indices[p]].orderInCircuit == Some(LastPosition(indices, indices[p]))
                  && g[indices[p]].circuitRounds == Some(rounds))
  {
  }

  /** Grouping under a fresh id and then ungrouping it leaves every
      selected exercise as a straight exercise of 3 sets and every other
      exercise as it was. */
  lemma GroupThenUngroup(xs: seq<WorkoutExercise>, indices: seq<int>, rounds: int, cid: string)
    requires forall k :: 0 <= k < |xs| ==> xs[k].circuitId != Some(cid)
    ensures var u := Ungroup(Grouped(xs, indices, rounds, cid), cid);
            && |u| == |xs|
            && forall k :: 0 <= k < |xs| ==> u[k] == if k in indices then Ungrouped(xs[k]) else xs[k]
  {
    GroupedMembers(xs, indices, rounds, cid);
  }
}
