/** The stable sort JavaScript applies to rule lists: positions ordered by (key, list position). */
module PrioritySort {

  predicate Before(key: seq<int>, i: nat, j: nat)
    requires i < |key| && j < |key|
  {
    key[i] < key[j] || (key[i] == key[j] && i < j)
  }

  ghost predicate Positions(key: seq<int>, s: seq<nat>) {
    forall a :: 0 <= a < |s| ==> s[a] < |key|
  }

  ghost predicate Ordered(key: seq<int>, s: seq<nat>)
    requires Positions(key, s)
  {
    forall a, b :: 0 <= a < b < |s| ==> Before(key, s[a], s[b])
  }

  function Insert(key: seq<int>, i: nat, s: seq<nat>): (r: seq<nat>)
    requires i < |key| && i !in s && Positions(key, s) && Ordered(key, s)
    ensures Positions(key, r) && Ordered(key, r)
    ensures forall x :: x in r <==> x == i || x in s
  {
    if s == [] || Before(key, i, s[0]) then [i] + s
    else
      var rest := Insert(key, i, s[1..]);
      assert forall x :: x in rest ==> Before(key, s[0], x);
      [s[0]] + rest
  }

  /** Sorts distinct positions; the result is strictly increasing in (key, position), so it is the stable order. */
  function StableSort(key: seq<int>, positions: seq<nat>): (r: seq<nat>)
    requires Positions(key, positions)
    requires forall a, b :: 0 <= a < b < |positions| ==> positions[a] != positions[b]
    ensures Positions(key, r) && Ordered(key, r)
    ensures forall x :: x in r <==> x in positions
  {
    if positions == [] then []
    else
      var last := |positions| - 1;
      var front := StableSort(key, positions[..last]);
      assert forall x :: x in positions <==> x in positions[..last] || x == positions[last];
      Insert(key, positions[last], front)
  }

  /** What the order is: a lower key first, and of equal keys the one that comes first in the list. */
  lemma SortedByKey(key: seq<int>, positions: seq<nat>, a: nat, b: nat)
    requires Positions(key, positions)
    requires forall a, b :: 0 <= a < b < |positions| ==> positions[a] != positions[b]
    requires a < b < |StableSort(key, positions)|
    ensures
      var r := StableSort(key, positions);
      key[r[a]] <= key[r[b]] && (key[r[a]] == key[r[b]] ==> r[a] < r[b])
  {
    var r := StableSort(key, positions);
    assert Before(key, r[a], r[b]);
  }
}
