/**
 * The JavaScript array primitives the workout store relies on:
 * `Array.prototype.sort` with a numeric key comparator (stable since ES2019)
 * and the index normalisation of `Array.prototype.splice`.
 */
module JsArray {

  /** Every element's key is at most the key of every later element. */
  ghost predicate Sorted<T>(s: seq<T>, key: T -> int) {
    forall i, j :: 0 <= i < j < |s| ==> key(s[i]) <= key(s[j])
  }

  /** Inserts `x` in front of the first element whose key is not smaller,
      so that `x` precedes the elements of `s` with an equal key. */
  function Insert<T>(x: T, s: seq<T>, key: T -> int): (r: seq<T>)
    ensures |r| == |s| + 1
    ensures multiset(r) == multiset(s) + multiset{x}
    decreases |s|
  {
    if s == [] || key(x) <= key(s[0]) then [x] + s
    else
      assert s == [s[0]] + s[1..];
      [s[0]] + Insert(x, s[1..], key)
  }

  /** Inserting into a sorted list keeps it sorted. */
  lemma {:induction false} InsertSorted<T>(x: T, s: seq<T>, key: T -> int)
    requires Sorted(s, key)
    ensures Sorted(Insert(x, s, key), key)
    decreases |s|
  {
    if s != [] && key(x) > key(s[0]) {
      var t := Insert(x, s[1..], key);
      assert Sorted(s[1..], key);
      InsertSorted(x, s[1..], key);
      InsertKeepsBound(x, s[1..], key, key(s[0]));
      assert Insert(x, s, key) == [s[0]] + t;
    }
  }

  /** When `x` and every element of `s` have a key of at least `lo`, so does
      every element after inserting `x`. */
  lemma {:induction false} InsertKeepsBound<T>(x: T, s: seq<T>, key: T -> int, lo: int)
    requires lo <= key(x) && forall i :: 0 <= i < |s| ==> lo <= key(s[i])
    ensures forall i :: 0 <= i < |Insert(x, s, key)| ==> lo <= key(Insert(x, s, key)[i])
    decreases |s|
  {
    if s != [] && key(x) > key(s[0]) {
      InsertKeepsBound(x, s[1..], key, lo);
      assert Insert(x, s, key) == [s[0]] + Insert(x, s[1..], key);
    }
  }

  /** `sort((a, b) => key(a) - key(b))`, stable since ES2019: insertion
      sort that puts each element ahead of the later ones with its key. */
  function SortBy<T>(s: seq<T>, key: T -> int): (r: seq<T>)
    ensures |r| == |s|
    ensures multiset(r) == multiset(s)
    ensures Sorted(r, key)
  {
    if s == [] then []
    else
      assert s == [s[0]] + s[1..];
      InsertSorted(s[0], SortBy(s[1..], key), key);
      Insert(s[0], SortBy(s[1..], key), key)
  }

  /** A list already in key order is left as it is. */
  lemma {:induction false} SortBySortedIsIdentity<T>(s: seq<T>, key: T -> int)
    requires Sorted(s, key)
    ensures SortBy(s, key) == s
  {
    if s != [] {
      assert Sorted(s[1..], key);
      SortBySortedIsIdentity(s[1..], key);
      assert s == [s[0]] + s[1..];
    }
  }

  /** The start position `splice(index, …)` uses: a negative index counts
      from the end, and the result is clamped to `0..len`. */
  function SpliceStart(index: int, len: nat): (r: nat)
    ensures r <= len
    ensures 0 <= index <= len ==> r == index
    ensures index > len ==> r == len
    ensures index < 0 ==> r == (if len + index < 0 then 0 else len + index)
  {
    if index < 0 then (if len + index < 0 then 0 else len + index)
    else if index > len then len
    else index
  }

  /** `s.splice(start, 1)` on the list: drops element `start` if there is one. */
  function RemoveAt<T>(s: seq<T>, start: nat): (r: seq<T>)
    requires start <= |s|
    ensures start < |s| ==> |r| == |s| - 1 && multiset(r) + multiset{s[start]} == multiset(s)
    ensures start < |s| ==> forall i :: 0 <= i < |r| ==> r[i] == (if i < start then s[i] else s[i + 1])
    ensures start == |s| ==> r == s
  {
    if start < |s| then
      assert s == s[..start] + [s[start]] + s[start + 1..];
      s[..start] + s[start + 1..]
    else s
  }

  /** `s.splice(start, 0, x)`: puts `x` at position `start`. */
  function InsertAt<T>(s: seq<T>, start: nat, x: T): (r: seq<T>)
    requires start <= |s|
    ensures |r| == |s| + 1 && r[start] == x
    ensures multiset(r) == multiset(s) + multiset{x}
    ensures forall i :: 0 <= i < |s| ==> r[if i < start then i else i + 1] == s[i]
  {
    assert s == s[..start] + s[start..];
    s[..start] + [x] + s[start..]
  }
}
