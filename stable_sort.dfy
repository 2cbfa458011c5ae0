/** `Array.prototype.sort` with a comparator, which ECMAScript 2019 and later
    require to be stable, modelled as a stable insertion sort. A comparator
    returns a negative number, zero or a positive number; `a` may stay before
    `b` when `cmp(a, b) <= 0`. */
module StableSort {

  /** Any two values are comparable. */
  ghost predicate Total<T(!new)>(cmp: (T, T) -> int) {
    forall a, b :: cmp(a, b) <= 0 || cmp(b, a) <= 0
  }

  /** "May stay before" is transitive. */
  ghost predicate Transitive<T(!new)>(cmp: (T, T) -> int) {
    forall a, b, c :: cmp(a, b) <= 0 && cmp(b, c) <= 0 ==> cmp(a, c) <= 0
  }

  /** The comparator is consistent, as `Array.prototype.sort` expects. */
  ghost predicate TotalPreorder<T(!new)>(cmp: (T, T) -> int) {
    Total(cmp) && Transitive(cmp)
  }

  /** No value is placed after one that should follow it. */
  ghost predicate Sorted<T>(s: seq<T>, cmp: (T, T) -> int) {
    forall i, j :: 0 <= i < j < |s| ==> cmp(s[i], s[j]) <= 0
  }

  /** Each element may stay before its successor. */
  ghost predicate NeighboursSorted<T>(s: seq<T>, cmp: (T, T) -> int) {
    forall i :: 0 <= i < |s| - 1 ==> cmp(s[i], s[i + 1]) <= 0
  }

  /** `a` and `b` compare equal both ways. */
  predicate Equivalent<T>(cmp: (T, T) -> int, a: T, b: T) {
    cmp(a, b) <= 0 && cmp(b, a) <= 0
  }

  /** The elements of `s` that compare equal to `y`, in their order in `s`. */
  function ClassOf<T>(s: seq<T>, cmp: (T, T) -> int, y: T): seq<T> {
    if s == [] then []
    else (if Equivalent(cmp, s[0], y) then [s[0]] else []) + ClassOf(s[1..], cmp, y)
  }

  /** Places `x` before the first element it may precede. */
  function Insert<T>(x: T, s: seq<T>, cmp: (T, T) -> int): (r: seq<T>)
    ensures |r| == |s| + 1
    ensures multiset(r) == multiset(s) + multiset{x}
  {
    if s == [] || cmp(x, s[0]) <= 0 then [x] + s
    else
      assert s == [s[0]] + s[1..];
      [s[0]] + Insert(x, s[1..], cmp)
  }

  /** The sort: a permutation of its input. */
  function Sort<T>(s: seq<T>, cmp: (T, T) -> int): (r: seq<T>)
    ensures |r| == |s|
    ensures multiset(r) == multiset(s)
  {
    if s == [] then []
    else
      assert s == [s[0]] + s[1..];
      Insert(s[0], Sort(s[1..], cmp), cmp)
  }

  lemma {:induction false} InsertNeighboursSorted<T(!new)>(x: T, s: seq<T>, cmp: (T, T) -> int)
    requires Total(cmp) && NeighboursSorted(s, cmp)
    ensures NeighboursSorted(Insert(x, s, cmp), cmp)
  {
    if s == [] || cmp(x, s[0]) <= 0 {
    } else {
      var tail := Insert(x, s[1..], cmp);
      InsertNeighboursSorted(x, s[1..], cmp);
      assert Insert(x, s, cmp) == [s[0]] + tail;
      assert tail[0] == x || tail[0] == s[1];
    }
  }

  lemma {:induction false} NeighboursSortedIsSorted<T(!new)>(s: seq<T>, cmp: (T, T) -> int)
    requires Transitive(cmp) && NeighboursSorted(s, cmp)
    ensures Sorted(s, cmp)
  {
    if s != [] {
      NeighboursSortedIsSorted(s[1..], cmp);
      forall j | 1 <= j < |s|
        ensures cmp(s[0], s[j]) <= 0
      {
        if j > 1 {
          assert cmp(s[1], s[j]) <= 0 by { assert s[1..][0] == s[1] && s[1..][j - 1] == s[j]; }
        }
      }
      forall i, j | 0 <= i < j < |s|
        ensures cmp(s[i], s[j]) <= 0
      {
        if i > 0 {
          assert s[1..][i - 1] == s[i] && s[1..][j - 1] == s[j];
        }
      }
    }
  }

  lemma {:induction false} SortNeighboursSorted<T(!new)>(s: seq<T>, cmp: (T, T) -> int)
    requires Total(cmp)
    ensures NeighboursSorted(Sort(s, cmp), cmp)
  {
    if s != [] {
      SortNeighboursSorted(s[1..], cmp);
      InsertNeighboursSorted(s[0], Sort(s[1..], cmp), cmp);
    }
  }

  /** Under a consistent comparator the result is sorted. */
  lemma SortSorted<T(!new)>(s: seq<T>, cmp: (T, T) -> int)
    requires TotalPreorder(cmp)
    ensures Sorted(Sort(s, cmp), cmp)
  {
    SortNeighboursSorted(s, cmp);
    NeighboursSortedIsSorted(Sort(s, cmp), cmp);
  }

  /** Sorting a sequence that is already sorted leaves it as it is. */
  lemma {:induction false} SortOfSorted<T>(s: seq<T>, cmp: (T, T) -> int)
    requires Sorted(s, cmp)
    ensures Sort(s, cmp) == s
  {
    if s != [] {
      SortOfSorted(s[1..], cmp);
      assert s == [s[0]] + s[1..];
    }
  }

  /** Sorting twice is sorting once. */
  lemma SortIdempotent<T(!new)>(s: seq<T>, cmp: (T, T) -> int)
    requires TotalPreorder(cmp)
    ensures Sort(Sort(s, cmp), cmp) == Sort(s, cmp)
  {
    SortSorted(s, cmp);
    SortOfSorted(Sort(s, cmp), cmp);
  }

  lemma {:induction false} InsertKeepsClassOrder<T(!new)>(x: T, s: seq<T>, cmp: (T, T) -> int, y: T)
    requires Transitive(cmp)
    ensures ClassOf(Insert(x, s, cmp), cmp, y)
         == (if Equivalent(cmp, x, y) then [x] else []) + ClassOf(s, cmp, y)
  {
    var r := Insert(x, s, cmp);
    if s == [] || cmp(x, s[0]) <= 0 {
      assert r == [x] + s;
      assert r[1..] == s;
    } else {
      var tail := Insert(x, s[1..], cmp);
      assert r == [s[0]] + tail;
      assert r[1..] == tail;
      var head := if Equivalent(cmp, s[0], y) then [s[0]] else [];
      var mid := if Equivalent(cmp, x, y) then [x] else [];
      assert ClassOf(r, cmp, y) == head + ClassOf(tail, cmp, y);
      InsertKeepsClassOrder(x, s[1..], cmp, y);
      assert ClassOf(tail, cmp, y) == mid + ClassOf(s[1..], cmp, y);
      assert ClassOf(s, cmp, y) == head + ClassOf(s[1..], cmp, y);
      assert head == [] || mid == [];
      assert head + (mid + ClassOf(s[1..], cmp, y)) == mid + (head + ClassOf(s[1..], cmp, y));
    }
  }

  /** Stability: for every value, the elements that compare equal to it come
      out in the order they went in. */
  lemma {:induction false} SortIsStable<T(!new)>(s: seq<T>, cmp: (T, T) -> int, y: T)
    requires TotalPreorder(cmp)
    ensures ClassOf(Sort(s, cmp), cmp, y) == ClassOf(s, cmp, y)
  {
    if s != [] {
      SortIsStable(s[1..], cmp, y);
      InsertKeepsClassOrder(s[0], Sort(s[1..], cmp), cmp, y);
    }
  }

  /** A comparator that never orders two values keeps the input order. */
  lemma KeepsOrderWhenAllEqual<T>(s: seq<T>, cmp: (T, T) -> int)
    requires forall i, j :: 0 <= i < j < |s| ==> cmp(s[i], s[j]) == 0
    ensures Sort(s, cmp) == s
  {
    SortOfSorted(s, cmp);
  }
}
