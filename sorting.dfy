/**
  `Array.prototype.sort` with a comparator of the form `(a, b) => key(b) - key(a)`:
  a stable sort into descending key order. The specification is an insertion sort
  on sequences; `SortInPlace` sorts an array in place and is proved to agree with it.
*/
module Sorting {
  import opened Seqs

  predicate SortedDesc<T>(s: seq<T>, key: T -> int) {
    forall i, j :: 0 <= i < j < |s| ==> key(s[i]) >= key(s[j])
  }

  /** Places `x` after every element of `s` whose key is at least its own. */
  function Insert<T>(x: T, s: seq<T>, key: T -> int): (r: seq<T>)
    ensures |r| == |s| + 1
  {
    if s == [] then [x]
    else if key(s[|s| - 1]) >= key(x) then s + [x]
    else Insert(x, s[..|s| - 1], key) + [s[|s| - 1]]
  }

  lemma {:induction false} InsertPermutes<T>(x: T, s: seq<T>, key: T -> int)
    ensures multiset(Insert(x, s, key)) == multiset(s) + multiset{x}
  {
    if s != [] && key(s[|s| - 1]) < key(x) {
      InsertPermutes(x, s[..|s| - 1], key);
      assert s == s[..|s| - 1] + [s[|s| - 1]];
    }
  }

  /** The stable descending sort: each element is inserted behind the ones before it. */
  function SortDesc<T>(s: seq<T>, key: T -> int): (r: seq<T>)
    ensures |r| == |s|
  {
    if s == [] then [] else Insert(s[|s| - 1], SortDesc(s[..|s| - 1], key), key)
  }

  lemma {:induction false} InsertSorted<T>(x: T, s: seq<T>, key: T -> int)
    requires SortedDesc(s, key)
    ensures SortedDesc(Insert(x, s, key), key)
  {
    if s != [] && key(s[|s| - 1]) < key(x) {
      var front := s[..|s| - 1];
      var last := s[|s| - 1];
      InsertSorted(x, front, key);
      InsertPermutes(x, front, key);
      var r := Insert(x, front, key);
      forall k | 0 <= k < |r| ensures key(r[k]) >= key(last) {
        assert r[k] in multiset(r);
        if r[k] != x {
          assert r[k] in front;
        }
      }
    }
  }

  /** The result is in descending key order. */
  lemma {:induction false} SortDescSorted<T>(s: seq<T>, key: T -> int)
    ensures SortedDesc(SortDesc(s, key), key)
  {
    if s != [] {
      SortDescSorted(s[..|s| - 1], key);
      InsertSorted(s[|s| - 1], SortDesc(s[..|s| - 1], key), key);
    }
  }

  /** The result holds the same elements as the input. */
  lemma {:induction false} SortDescPermutes<T>(s: seq<T>, key: T -> int)
    ensures multiset(SortDesc(s, key)) == multiset(s)
  {
    if s != [] {
      var front, last := s[..|s| - 1], s[|s| - 1];
      SortDescPermutes(front, key);
      InsertPermutes(last, SortDesc(front, key), key);
      assert s == front + [last];
    }
  }

  /** Inserting keeps the elements of each key in their previous order, the new one last. */
  lemma {:induction false} InsertStable<T(!new)>(x: T, s: seq<T>, key: T -> int, k: int)
    ensures Filter(Insert(x, s, key), y => key(y) == k) ==
            Filter(s, y => key(y) == k) + Filter([x], y => key(y) == k)
  {
    if s != [] {
      var front := s[..|s| - 1];
      var last := s[|s| - 1];
      var p := y => key(y) == k;
      if key(last) >= key(x) {
        assert Insert(x, s, key) == s + [x];
        FilterAppend(s, [x], p);
      } else {
        InsertStable(x, front, key, k);
        calc {
          Filter(Insert(x, s, key), p);
          Filter(Insert(x, front, key) + [last], p);
          { FilterAppend(Insert(x, front, key), [last], p); }
          Filter(Insert(x, front, key), p) + Filter([last], p);
          Filter(front, p) + Filter([x], p) + Filter([last], p);
          { FilterSingleton(x, p); FilterSingleton(last, p); }
          Filter(front, p) + Filter([last], p) + Filter([x], p);
          { FilterAppend(front, [last], p); assert front + [last] == s; }
          Filter(s, p) + Filter([x], p);
        }
      }
    }
  }

  /** The sort is stable: the elements of any one key keep their original order. */
  lemma {:induction false} SortDescStable<T(!new)>(s: seq<T>, key: T -> int, k: int)
    ensures Filter(SortDesc(s, key), y => key(y) == k) == Filter(s, y => key(y) == k)
  {
    if s != [] {
      var front := s[..|s| - 1];
      var last := s[|s| - 1];
      SortDescStable(front, key, k);
      InsertStable(last, SortDesc(front, key), key, k);
      FilterAppend(front, [last], y => key(y) == k);
      assert front + [last] == s;
    }
  }

  /** One step of the insertion loop: `x` moves in front of a smaller-keyed element. */
  lemma InsertStep<T>(x: T, sorted: seq<T>, j: nat, key: T -> int)
    requires 0 < j <= |sorted| && key(sorted[j - 1]) < key(x)
    ensures Insert(x, sorted[..j], key) + sorted[j..] == Insert(x, sorted[..j - 1], key) + sorted[j - 1..]
  {
    assert sorted[..j][..j - 1] == sorted[..j - 1];
    assert [sorted[j - 1]] + sorted[j..] == sorted[j - 1..];
  }

  /** Where the insertion loop stops, `x` goes right behind the prefix. */
  lemma InsertStop<T>(x: T, sorted: seq<T>, j: nat, key: T -> int)
    requires j <= |sorted| && (j == 0 || key(sorted[j - 1]) >= key(x))
    ensures Insert(x, sorted[..j], key) == sorted[..j] + [x]
  {
  }

  /** Moves `a[i]` leftwards into the sorted prefix `a[..i]`, leaving `a[i + 1..]` alone. */
  method InsertInPlace<T>(a: array<T>, i: nat, key: T -> int)
    requires i < a.Length
    modifies a
    ensures a[..i + 1] == Insert(old(a[i]), old(a[..i]), key)
    ensures forall k :: i < k < a.Length ==> a[k] == old(a[k])
  {
    ghost var sorted := a[..i];
    var x := a[i];
    var j := i;
    assert sorted[..j] == sorted && sorted[j..] == [];
    while j > 0 && key(a[j - 1]) < key(x)
      invariant 0 <= j <= i
      invariant forall k :: 0 <= k < j ==> a[k] == sorted[k]
      invariant forall k :: j < k <= i ==> a[k] == sorted[k - 1]
      invariant forall k :: i < k < a.Length ==> a[k] == old(a[k])
      invariant Insert(x, sorted, key) == Insert(x, sorted[..j], key) + sorted[j..]
    {
      InsertStep(x, sorted, j, key);
      a[j] := a[j - 1];
      j := j - 1;
    }
    a[j] := x;
    InsertStop(x, sorted, j, key);
    Assemble(a[..], sorted, x, j);
  }

  /** The array contents after the shifting loop, as a sequence. */
  lemma Assemble<T>(arr: seq<T>, sorted: seq<T>, x: T, j: nat)
    requires j <= |sorted| < |arr|
    requires forall k :: 0 <= k < j ==> arr[k] == sorted[k]
    requires arr[j] == x
    requires forall k :: j < k <= |sorted| ==> arr[k] == sorted[k - 1]
    ensures arr[..|sorted| + 1] == sorted[..j] + [x] + sorted[j..]
  {
  }

  /** Sorts `a` in place, by insertion from the left, into `SortDesc` of its old contents. */
  method SortInPlace<T>(a: array<T>, key: T -> int)
    modifies a
    ensures a[..] == SortDesc(old(a[..]), key)
  {
    ghost var original := a[..];
    var i := 0;
    while i < a.Length
      invariant 0 <= i <= a.Length
      invariant a[..i] == SortDesc(original[..i], key)
      invariant forall k :: i <= k < a.Length ==> a[k] == original[k]
    {
      InsertInPlace(a, i, key);
      assert original[..i + 1][..i] == original[..i];
      i := i + 1;
    }
    assert a[..] == a[..a.Length];
    assert original == original[..a.Length];
  }
}
