/**
  The array operations the question bank and the scenes are written with:
  `filter`, `find`/`findIndex`, `includes`, `Math.max(...xs)` and
  de-duplication through an insertion-ordered `Set`.
*/
module Seqs {
  import opened Wrappers

  /** `s.filter(p)` */
  function Filter<T(!new)>(s: seq<T>, p: T -> bool): (r: seq<T>)
    ensures |r| <= |s|
  {
    if s == [] then [] else (if p(s[0]) then [s[0]] else []) + Filter(s[1..], p)
  }

  /** The filter keeps exactly the elements that pass. */
  lemma {:induction false} FilterMembers<T(!new)>(s: seq<T>, p: T -> bool)
    ensures forall x :: x in Filter(s, p) <==> x in s && p(x)
  {
    if s != [] {
      FilterMembers(s[1..], p);
      assert s == [s[0]] + s[1..];
    }
  }

  lemma FilterSingleton<T(!new)>(x: T, p: T -> bool)
    ensures Filter([x], p) == if p(x) then [x] else []
  {
    assert [x][1..] == [];
  }

  /** Filtering keeps the original order: it distributes over concatenation. */
  lemma {:induction false} FilterAppend<T(!new)>(a: seq<T>, b: seq<T>, p: T -> bool)
    ensures Filter(a + b, p) == Filter(a, p) + Filter(b, p)
  {
    if a != [] {
      assert (a + b)[1..] == a[1..] + b;
      FilterAppend(a[1..], b, p);
    } else {
      assert a + b == b;
    }
  }

  /** Two complementary filters split a sequence: together they keep every element once. */
  lemma {:induction false} FilterPartition<T(!new)>(s: seq<T>, p: T -> bool, q: T -> bool)
    requires forall x :: q(x) == !p(x)
    ensures |Filter(s, p)| + |Filter(s, q)| == |s|
    ensures multiset(Filter(s, p)) + multiset(Filter(s, q)) == multiset(s)
  {
    if s != [] {
      FilterPartition(s[1..], p, q);
      assert s == [s[0]] + s[1..];
    }
  }

  /** Filtering first on a weaker condition changes nothing. */
  lemma {:induction false} FilterOfFilter<T(!new)>(s: seq<T>, p: T -> bool, q: T -> bool)
    requires forall x :: q(x) ==> p(x)
    ensures Filter(Filter(s, p), q) == Filter(s, q)
  {
    if s != [] {
      FilterOfFilter(s[1..], p, q);
      var rest := Filter(s[1..], p);
      if p(s[0]) {
        assert ([s[0]] + rest)[0] == s[0];
        assert ([s[0]] + rest)[1..] == rest;
      } else {
        assert Filter(s, p) == rest;
      }
    }
  }

  /** A filter that every element passes keeps the whole sequence. */
  lemma {:induction false} FilterAll<T(!new)>(s: seq<T>, p: T -> bool)
    requires forall x :: x in s ==> p(x)
    ensures Filter(s, p) == s
  {
    if s != [] {
      FilterAll(s[1..], p);
      assert s == [s[0]] + s[1..];
    }
  }

  /** A filter that no element passes leaves nothing. */
  lemma {:induction false} FilterNone<T(!new)>(s: seq<T>, p: T -> bool)
    requires forall x :: x in s ==> !p(x)
    ensures Filter(s, p) == []
  {
    if s != [] {
      assert s[0] in s;
      FilterNone(s[1..], p);
    }
  }

  /** `s.findIndex(p)`, with `None` for -1. */
  function FindIndex<T>(s: seq<T>, p: T -> bool): (r: Option<nat>)
    ensures r.Some? ==> r.value < |s| && p(s[r.value]) && forall j :: 0 <= j < r.value ==> !p(s[j])
    ensures r.None? ==> forall j :: 0 <= j < |s| ==> !p(s[j])
  {
    if s == [] then None
    else if p(s[0]) then Some(0)
    else match FindIndex(s[1..], p)
      case None => None
      case Some(k) => Some(k + 1)
  }

  /** Searching a concatenation searches the second part only when the first has no match. */
  lemma {:induction false} FindIndexAppend<T>(a: seq<T>, b: seq<T>, p: T -> bool)
    ensures FindIndex(a + b, p) ==
      match FindIndex(a, p)
      case Some(k) => Some(k)
      case None => match FindIndex(b, p) case Some(k) => Some(|a| + k) case None => None
  {
    if a == [] {
      assert a + b == b;
    } else {
      assert (a + b)[0] == a[0] && (a + b)[1..] == a[1..] + b;
      FindIndexAppend(a[1..], b, p);
    }
  }

  /** `s.find(p)` */
  function Find<T>(s: seq<T>, p: T -> bool): (r: Option<T>)
    ensures r.None? <==> forall j :: 0 <= j < |s| ==> !p(s[j])
    ensures r.Some? ==> exists k :: 0 <= k < |s| && s[k] == r.value && p(s[k]) &&
                                     forall j :: 0 <= j < k ==> !p(s[j])
  {
    match FindIndex(s, p)
    case None => None
    case Some(k) => Some(s[k])
  }

  lemma FindAppend<T>(a: seq<T>, b: seq<T>, p: T -> bool)
    ensures Find(a + b, p) == if Find(a, p).Some? then Find(a, p) else Find(b, p)
  {
    FindIndexAppend(a, b, p);
    match FindIndex(a, p)
    case Some(k) =>
    case None =>
      match FindIndex(b, p)
      case Some(k) => assert (a + b)[|a| + k] == b[k];
      case None =>
  }

  predicate NoDup<T(==)>(s: seq<T>) {
    forall i, j :: 0 <= i < j < |s| ==> s[i] != s[j]
  }

  /** The position of the first occurrence of `x` in `s`. */
  function FirstIndex<T(==)>(s: seq<T>, x: T): (k: nat)
    requires x in s
    ensures k < |s| && s[k] == x && x !in s[..k]
  {
    if s[0] == x then 0 else 1 + FirstIndex(s[1..], x)
  }

  /** `Array.from(new Set(s))` with the values in `seen` already inserted:
      the values of `s` not in `seen`, once each, in order of first occurrence. */
  function DistinctFrom<T(==,!new)>(s: seq<T>, seen: seq<T>): (r: seq<T>)
    ensures NoDup(r)
    ensures forall x :: x in r <==> x in s && x !in seen
  {
    if s == [] then []
    else if s[0] in seen then DistinctFrom(s[1..], seen)
    else
      var rest := DistinctFrom(s[1..], seen + [s[0]]);
      assert s[0] in seen + [s[0]];
      assert forall k :: 0 <= k < |rest| ==> rest[k] != s[0];
      [s[0]] + rest
  }

  function Distinct<T(==,!new)>(s: seq<T>): seq<T> {
    DistinctFrom(s, [])
  }

  /** Only which values were already seen matters, not how often or in which order. */
  lemma {:induction false} DistinctFromSameSeen<T(!new)>(s: seq<T>, seen1: seq<T>, seen2: seq<T>)
    requires forall x :: x in seen1 <==> x in seen2
    ensures DistinctFrom(s, seen1) == DistinctFrom(s, seen2)
  {
    if s != [] {
      DistinctFromSameSeen(s[1..], seen1, seen2);
      DistinctFromSameSeen(s[1..], seen1 + [s[0]], seen2 + [s[0]]);
    }
  }

  /** De-duplicating a concatenation: the second part is de-duplicated against all of the first. */
  lemma {:induction false} DistinctFromAppend<T(!new)>(a: seq<T>, b: seq<T>, seen: seq<T>)
    ensures DistinctFrom(a + b, seen) == DistinctFrom(a, seen) + DistinctFrom(b, seen + a)
  {
    if a == [] {
      assert a + b == b && seen + a == seen;
    } else {
      var a0, rest := a[0], a[1..];
      assert a == [a0] + rest;
      assert (a + b)[0] == a0 && (a + b)[1..] == rest + b;
      if a0 in seen {
        calc {
          DistinctFrom(a + b, seen);
          DistinctFrom(rest + b, seen);
          { DistinctFromAppend(rest, b, seen); }
          DistinctFrom(rest, seen) + DistinctFrom(b, seen + rest);
          { DistinctFromSameSeen(b, seen + rest, seen + a); }
          DistinctFrom(a, seen) + DistinctFrom(b, seen + a);
        }
      } else {
        calc {
          DistinctFrom(a + b, seen);
          [a0] + DistinctFrom(rest + b, seen + [a0]);
          { DistinctFromAppend(rest, b, seen + [a0]); }
          [a0] + (DistinctFrom(rest, seen + [a0]) + DistinctFrom(b, seen + [a0] + rest));
          { assert seen + [a0] + rest == seen + a; }
          DistinctFrom(a, seen) + DistinctFrom(b, seen + a);
        }
      }
    }
  }

  /** A run of one repeated value de-duplicates to that value, unless it was already seen. */
  lemma {:induction false} DistinctFromRun<T(!new)>(s: seq<T>, c: T, seen: seq<T>)
    requires s != [] && forall x :: x in s ==> x == c
    ensures DistinctFrom(s, seen) == if c in seen then [] else [c]
  {
    assert s[0] in s;
    if |s| > 1 {
      forall x | x in s[1..] ensures x == c {
        var k :| 0 <= k < |s[1..]| && s[1..][k] == x;
        assert s[k + 1] in s;
      }
      DistinctFromRun(s[1..], c, seen);
      DistinctFromRun(s[1..], c, seen + [c]);
    }
  }

  /** The de-duplicated values come in the order of their first occurrence in `s`. */
  lemma {:induction false} DistinctFromOrder<T(!new)>(s: seq<T>, seen: seq<T>)
    ensures forall i, j :: 0 <= i < j < |DistinctFrom(s, seen)| ==>
      FirstIndex(s, DistinctFrom(s, seen)[i]) < FirstIndex(s, DistinctFrom(s, seen)[j])
  {
    if s != [] {
      var r := DistinctFrom(s, seen);
      if s[0] in seen {
        DistinctFromOrder(s[1..], seen);
        forall y | y in r ensures FirstIndex(s, y) == 1 + FirstIndex(s[1..], y) {
          assert y != s[0];
        }
      } else {
        var rest := DistinctFrom(s[1..], seen + [s[0]]);
        DistinctFromOrder(s[1..], seen + [s[0]]);
        forall y | y in rest ensures FirstIndex(s, y) == 1 + FirstIndex(s[1..], y) {
          assert y != s[0];
        }
        forall i, j | 0 <= i < j < |r| ensures FirstIndex(s, r[i]) < FirstIndex(s, r[j]) {
          assert r[j] == rest[j - 1];
          if i > 0 {
            assert r[i] == rest[i - 1];
          }
        }
      }
    }
  }

  /** A sequence without repetitions has as many elements as the set of its values. */
  lemma {:induction false} NoDupCardinality<T>(s: seq<T>)
    requires NoDup(s)
    ensures |set x | x in s| == |s|
  {
    if s != [] {
      var tail := s[1..];
      NoDupCardinality(tail);
      assert s[0] !in tail by {
        forall k | 0 <= k < |tail| ensures tail[k] != s[0] {
          assert tail[k] == s[k + 1];
        }
      }
      assert (set x | x in s) == {s[0]} + (set x | x in tail) by {
        assert s == [s[0]] + tail;
      }
    }
  }

  /** `Math.max(...xs)`, with `None` for the `-Infinity` of an empty argument list. */
  function Max(xs: seq<int>): (m: Option<int>)
    ensures m.None? <==> xs == []
    ensures m.Some? ==> m.value in xs && forall k :: 0 <= k < |xs| ==> xs[k] <= m.value
  {
    if xs == [] then None
    else match Max(xs[1..])
      case None => Some(xs[0])
      case Some(t) => Some(if xs[0] > t then xs[0] else t)
  }
}
