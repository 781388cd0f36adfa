/**
 * Reordering the worker columns by dragging a header: `handleReorderWorker`
 * copies the column list and applies `splice(fromIndex, 1)` followed by
 * `splice(toIndex, 0, moved)`.
 */
module Workers {

  /** `splice(i, 1)`: the sequence without its element at `i`. */
  function Remove<T>(s: seq<T>, i: int): (r: seq<T>)
    requires 0 <= i < |s|
    ensures |r| == |s| - 1
  {
    s[..i] + s[i + 1..]
  }

  /** `splice(i, 0, x)`: `x` inserted so that it ends up at index `i`. */
  function Insert<T>(s: seq<T>, i: int, x: T): (r: seq<T>)
    requires 0 <= i <= |s|
    ensures |r| == |s| + 1
  {
    s[..i] + [x] + s[i..]
  }

  /** The column list after moving the column at `from` to index `to`. */
  function Moved<T>(s: seq<T>, from: int, to: int): (r: seq<T>)
    requires 0 <= from < |s| && 0 <= to < |s|
    ensures |r| == |s| && r[to] == s[from]
  {
    Insert(Remove(s, from), to, s[from])
  }

  /** Element `j` of `Remove(s, i)`: the elements after `i` move one place down. */
  function RemovedAt<T>(s: seq<T>, i: int, j: int): T
    requires 0 <= i < |s| && 0 <= j < |s| - 1
  {
    if j < i then s[j] else s[j + 1]
  }

  /** Element by element, the move is the removal with the moved element spliced in at `to`. */
  lemma MovedAt<T>(s: seq<T>, from: int, to: int, j: int)
    requires 0 <= from < |s| && 0 <= to < |s| && 0 <= j < |s|
    ensures |Moved(s, from, to)| == |s|
    ensures Moved(s, from, to)[j] ==
              if j < to then RemovedAt(s, from, j)
              else if j == to then s[from]
              else RemovedAt(s, from, j - 1)
  {
  }

  /**
   * `handleReorderWorker(fromIndex, toIndex)` on a copy of the columns. The
   * copy is a fixed-length buffer: removing shifts the tail left over the
   * removed slot, leaving the last slot spare; inserting shifts the tail from
   * `toIndex` right into that spare slot and stores the moved worker.
   */
  method ReorderWorkers(workers: seq<string>, fromIndex: int, toIndex: int)
    returns (reordered: seq<string>)
    requires 0 <= fromIndex < |workers| && 0 <= toIndex < |workers|
    ensures reordered == Moved(workers, fromIndex, toIndex)
  {
    var n := |workers|;
    var a := new string[n](i requires 0 <= i < n => workers[i]);
    var moved := a[fromIndex];
    SpliceOut(a, fromIndex);
    SpliceIn(a, toIndex, moved);
    reordered := a[..];
    MovedFromElements(workers, fromIndex, toIndex, reordered);
  }

  /** `splice(i, 1)` on a buffer: the tail after `i` shifts one place left; the last slot is left as it was. */
  method SpliceOut<T>(a: array<T>, i: int)
    requires 0 <= i < a.Length
    modifies a
    ensures forall j :: 0 <= j < a.Length - 1 ==> a[j] == RemovedAt(old(a[..]), i, j)
  {
    var k := i;
    while k < a.Length - 1
      invariant i <= k <= a.Length - 1
      invariant forall j :: 0 <= j < k ==> a[j] == RemovedAt(old(a[..]), i, j)
      invariant forall j :: k <= j < a.Length ==> a[j] == old(a[j])
    {
      a[k] := a[k + 1];
      k := k + 1;
    }
  }

  /** `splice(i, 0, x)` on a buffer whose last slot is spare: the tail from `i` shifts one place right and `x` lands at `i`. */
  method SpliceIn<T>(a: array<T>, i: int, x: T)
    requires 0 <= i < a.Length
    modifies a
    ensures forall j :: 0 <= j < i ==> a[j] == old(a[j])
    ensures a[i] == x
    ensures forall j :: i < j < a.Length ==> a[j] == old(a[j - 1])
  {
    var k := a.Length - 1;
    while k > i
      invariant i <= k <= a.Length - 1
      invariant forall j :: 0 <= j <= k ==> a[j] == old(a[j])
      invariant forall j :: k < j < a.Length ==> a[j] == old(a[j - 1])
    {
      a[k] := a[k - 1];
      k := k - 1;
    }
    a[i] := x;
  }

  /** A sequence that agrees with `MovedAt` at every index is the move. */
  lemma MovedFromElements<T>(s: seq<T>, from: int, to: int, r: seq<T>)
    requires 0 <= from < |s| && 0 <= to < |s| && |r| == |s|
    requires forall j :: 0 <= j < to ==> r[j] == RemovedAt(s, from, j)
    requires r[to] == s[from]
    requires forall j :: to < j < |s| ==> r[j] == RemovedAt(s, from, j - 1)
    ensures r == Moved(s, from, to)
  {
    forall j | 0 <= j < |s|
      ensures r[j] == Moved(s, from, to)[j]
    {
      MovedAt(s, from, to, j);
    }
  }

  /** Reordering keeps the number of columns. */
  lemma MovedLength<T>(s: seq<T>, from: int, to: int)
    requires 0 <= from < |s| && 0 <= to < |s|
    ensures |Moved(s, from, to)| == |s|
  {
  }

  /** Reordering is a permutation of the columns. */
  lemma MovedPermutation<T>(s: seq<T>, from: int, to: int)
    requires 0 <= from < |s| && 0 <= to < |s|
    ensures multiset(Moved(s, from, to)) == multiset(s)
  {
    var rest := Remove(s, from);
    assert s == s[..from] + [s[from]] + s[from + 1..];
    calc {
      multiset(Moved(s, from, to));
      multiset(rest[..to]) + multiset([s[from]]) + multiset(rest[to..]);
      { assert rest[..to] + rest[to..] == rest; }
      multiset(rest) + multiset([s[from]]);
      multiset(s[..from]) + multiset(s[from + 1..]) + multiset([s[from]]);
      multiset(s);
    }
  }

  /**
   * The dragged column lands at `to`, and taking it out again gives the other
   * columns in their old relative order.
   */
  lemma MovedPlacement<T>(s: seq<T>, from: int, to: int)
    requires 0 <= from < |s| && 0 <= to < |s|
    ensures Moved(s, from, to)[to] == s[from]
    ensures Remove(Moved(s, from, to), to) == Remove(s, from)
  {
    var rest := Remove(s, from);
    var r := Moved(s, from, to);
    assert r[..to] == rest[..to];
    assert r[to + 1..] == rest[to..];
  }

  /** Dragging the column back to where it came from restores the original order. */
  lemma MovedRoundTrip<T>(s: seq<T>, from: int, to: int)
    requires 0 <= from < |s| && 0 <= to < |s|
    ensures Moved(Moved(s, from, to), to, from) == s
  {
    var r := Moved(s, from, to);
    MovedPlacement(s, from, to);
    assert Remove(r, to) == Remove(s, from);
    assert r[to] == s[from];
    var rest := Remove(s, from);
    assert rest[..from] + [s[from]] + rest[from..] == s;
  }

  /** A move onto the same index leaves the columns unchanged. */
  lemma MovedInPlace<T>(s: seq<T>, i: int)
    requires 0 <= i < |s|
    ensures Moved(s, i, i) == s
  {
    assert s[..i] + [s[i]] + s[i + 1..] == s;
  }
}
