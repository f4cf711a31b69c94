/** Sequence utilities shared by the data-preparation model: optional values,
    counting and filtering, sums, maxima, a stable sort by an integer key and
    the sorted distinct keys that a pandas `groupby` iterates over. */
module Basics {

  /** A value that may be missing: a NaN cell or an absent dictionary key. */
  datatype Option<T> = None | Some(value: T) {
    /** The value, or `default` when it is missing. */
    function GetOr(default: T): T {
      match this
      case Some(v) => v
      case None => default
    }
  }

  /** Number of elements of `s` that satisfy `p`. */
  function Count<T>(s: seq<T>, p: T -> bool): (n: nat)
    ensures n <= |s|
  {
    if |s| == 0 then 0 else (if p(s[0]) then 1 else 0) + Count(s[1..], p)
  }

  /** The elements of `s` that satisfy `p`, in their original order. */
  function Filter<T(!new)>(s: seq<T>, p: T -> bool): (r: seq<T>)
    ensures |r| == Count(s, p)
    ensures forall i :: 0 <= i < |r| ==> p(r[i])
    ensures forall x :: x in r <==> x in s && p(x)
  {
    if |s| == 0 then []
    else if p(s[0]) then [s[0]] + Filter(s[1..], p)
    else Filter(s[1..], p)
  }

  /** The values of `f` over `s` in order, skipping the elements where `f`
      yields nothing. */
  function FilterMap<T, U>(s: seq<T>, f: T -> Option<U>): (r: seq<U>)
    ensures |r| <= |s|
    ensures forall i :: 0 <= i < |r| ==> exists j :: 0 <= j < |s| && f(s[j]) == Some(r[i])
    ensures forall j :: 0 <= j < |s| && f(s[j]).Some? ==> f(s[j]).value in r
  {
    if |s| == 0 then []
    else
      var rest := FilterMap(s[1..], f);
      assert forall j :: 1 <= j < |s| ==> s[j] == s[1..][j - 1];
      if f(s[0]).Some? then [f(s[0]).value] + rest else rest
  }

  /** The skip-on-error loop is a concatenation of per-element results: the
      results of `a + b` are those of `a` followed by those of `b`, and one
      element yields its value when `f` succeeds and nothing otherwise. With
      both, the result's order and multiplicity are fixed. */
  lemma {:induction false} FilterMapAppend<T, U>(a: seq<T>, b: seq<T>, f: T -> Option<U>)
    ensures FilterMap(a + b, f) == FilterMap(a, f) + FilterMap(b, f)
    ensures |a| == 1 ==> FilterMap(a, f) == (if f(a[0]).Some? then [f(a[0]).value] else [])
  {
    if |a| > 0 {
      FilterMapAppend(a[1..], b, f);
      assert (a + b)[1..] == a[1..] + b;
    } else {
      assert a + b == b;
    }
  }

  /** The results of `g` on the elements of `s`, concatenated in order. */
  function ConcatMap<T, U(!new)>(s: seq<T>, g: T -> seq<U>): (r: seq<U>)
    ensures forall x :: x in r <==> exists i :: 0 <= i < |s| && x in g(s[i])
  {
    if |s| == 0 then []
    else
      var rest := ConcatMap(s[1..], g);
      assert forall i :: 1 <= i < |s| ==> s[i] == s[1..][i - 1];
      g(s[0]) + rest
  }

  /** Concatenation distributes over `+`, and one element contributes `g` of it. */
  lemma {:induction false} ConcatMapAppend<T, U(!new)>(a: seq<T>, b: seq<T>, g: T -> seq<U>)
    ensures ConcatMap(a + b, g) == ConcatMap(a, g) + ConcatMap(b, g)
    ensures |a| == 1 ==> ConcatMap(a, g) == g(a[0])
  {
    if |a| > 0 {
      ConcatMapAppend(a[1..], b, g);
      assert (a + b)[1..] == a[1..] + b;
    } else {
      assert a + b == b;
    }
  }

  /** `f` applied to every element of `s`. */
  function Map<T, U>(s: seq<T>, f: T -> U): (r: seq<U>)
    ensures |r| == |s|
    ensures forall i :: 0 <= i < |s| ==> r[i] == f(s[i])
  {
    if |s| == 0 then [] else [f(s[0])] + Map(s[1..], f)
  }

  /** Sum of `f` over the elements of `s`. */
  function Sum<T>(s: seq<T>, f: T -> int): int {
    if |s| == 0 then 0 else f(s[0]) + Sum(s[1..], f)
  }

  /** Sum of `f` over the elements of `s`, for real-valued `f`. */
  function SumReal<T>(s: seq<T>, f: T -> real): real {
    if |s| == 0 then 0.0 else f(s[0]) + SumReal(s[1..], f)
  }

  /** An exact rate or mean `num / den`, kept as its two terms so that bounds
      and sums of rates are statements about numerators over one denominator.
      Every quotient the model builds has a positive denominator. */
  datatype Quotient = Quotient(num: real, den: nat)

  /** The largest element of a non-empty sequence (Python's `max`). */
  function Max(s: seq<int>): (m: int)
    requires |s| > 0
    ensures m in s
    ensures forall i :: 0 <= i < |s| ==> s[i] <= m
  {
    if |s| == 1 then s[0]
    else
      var rest := Max(s[1..]);
      if s[0] >= rest then s[0] else rest
  }

  /** `s` is in ascending order of `key`. */
  predicate SortedBy<T>(s: seq<T>, key: T -> int) {
    forall i, j :: 0 <= i < j < |s| ==> key(s[i]) <= key(s[j])
  }

  /** Two sorted runs, the first wholly at or below the second, form a sorted run. */
  lemma SortedConcat<T>(a: seq<T>, b: seq<T>, key: T -> int, bound: int)
    requires SortedBy(a, key) && SortedBy(b, key)
    requires forall i :: 0 <= i < |a| ==> key(a[i]) <= bound
    requires forall i :: 0 <= i < |b| ==> key(b[i]) >= bound
    ensures SortedBy(a + b, key)
  {
    forall i, j | 0 <= i < j < |a + b|
      ensures key((a + b)[i]) <= key((a + b)[j])
    {
      if j < |a| {
        assert (a + b)[i] == a[i] && (a + b)[j] == a[j];
      } else if i >= |a| {
        assert (a + b)[i] == b[i - |a|] && (a + b)[j] == b[j - |a|];
      } else {
        assert (a + b)[i] == a[i] && (a + b)[j] == b[j - |a|];
      }
    }
  }

  /** Inserts `x` into the sorted `s` ahead of every element with an equal or
      larger key. */
  function InsertBy<T>(x: T, s: seq<T>, key: T -> int): (r: seq<T>)
    requires SortedBy(s, key)
    ensures SortedBy(r, key)
    ensures |r| == |s| + 1
    ensures r[0] == x || (|s| > 0 && r[0] == s[0])
  {
    if |s| == 0 || key(x) <= key(s[0]) then [x] + s
    else
      var t := InsertBy(x, s[1..], key);
      assert key(s[0]) <= key(t[0]);
      [s[0]] + t
  }

  /** Insertion adds exactly `x` to the elements. */
  lemma {:induction false} InsertByPermutes<T>(x: T, s: seq<T>, key: T -> int)
    requires SortedBy(s, key)
    ensures multiset(InsertBy(x, s, key)) == multiset{x} + multiset(s)
  {
    if |s| > 0 && key(x) > key(s[0]) {
      InsertByPermutes(x, s[1..], key);
      assert s == [s[0]] + s[1..];
    }
  }

  /** A stable sort of `s` by `key` (insertion sort): the model of pandas'
      `sort_values` on one integer column. */
  function SortBy<T>(s: seq<T>, key: T -> int): (r: seq<T>)
    ensures SortedBy(r, key)
    ensures multiset(r) == multiset(s)
  {
    if |s| == 0 then []
    else
      assert s == [s[0]] + s[1..];
      InsertByPermutes(s[0], SortBy(s[1..], key), key);
      InsertBy(s[0], SortBy(s[1..], key), key)
  }

  /** The element that comes first once `s` is sorted by `key` (the first
      row after pandas' `sort_values`): one with the smallest key. */
  function FirstBy<T>(s: seq<T>, key: T -> int): (r: T)
    requires |s| > 0
    ensures r in s
    ensures forall q :: q in s ==> key(r) <= key(q)
  {
    var sorted := SortBy(s, key);
    assert |sorted| == |s| by {
      assert |multiset(sorted)| == |multiset(s)|;
    }
    assert sorted[0] in multiset(sorted);
    assert forall q :: q in s ==> q in multiset(sorted);
    sorted[0]
  }

  /** A frame reduced to its frame number and position. */
  datatype Point = Point(f: int, x: real, y: real)

  /** `s` is strictly ascending, hence free of repetitions. */
  predicate Increasing(s: seq<int>) {
    forall i, j :: 0 <= i < j < |s| ==> s[i] < s[j]
  }

  /** Adds `x` to the strictly ascending `s` unless it is already there. */
  function InsertKey(x: int, s: seq<int>): (r: seq<int>)
    requires Increasing(s)
    ensures Increasing(r)
    ensures forall k :: k in r <==> k == x || k in s
  {
    if |s| == 0 || x < s[0] then [x] + s
    else if x == s[0] then s
    else
      var t := InsertKey(x, s[1..]);
      assert forall j :: 0 <= j < |t| ==> t[j] in t;
      [s[0]] + t
  }

  /** The distinct values of `s` in ascending order: the keys a pandas
      `groupby` on an integer column visits, in the order it visits them. */
  function DistinctSorted(s: seq<int>): (r: seq<int>)
    ensures Increasing(r)
    ensures forall k :: k in r <==> k in s
  {
    if |s| == 0 then [] else InsertKey(s[0], DistinctSorted(s[1..]))
  }

  /** The elements of `s` whose `key` is `v`, in their original order: one
      group of a pandas `groupby`. */
  function KeyRows<T(!new)>(s: seq<T>, key: T -> int, v: int): seq<T> {
    Filter(s, (x: T) => key(x) == v)
  }

  /** The sizes of the groups of `ids`, added up. */
  function GroupTotal<T(!new)>(s: seq<T>, key: T -> int, ids: seq<int>): nat {
    if |ids| == 0 then 0 else |KeyRows(s, key, ids[0])| + GroupTotal(s, key, ids[1..])
  }

  /** Prepending one element adds it to its own group and to no other. */
  lemma {:induction false} GroupTotalCons<T(!new)>(a: T, s: seq<T>, key: T -> int, ids: seq<int>)
    requires Increasing(ids)
    ensures GroupTotal([a] + s, key, ids) == GroupTotal(s, key, ids) + (if key(a) in ids then 1 else 0)
  {
    if |ids| > 0 {
      GroupTotalCons(a, s, key, ids[1..]);
      assert ([a] + s)[1..] == s;
      assert |KeyRows([a] + s, key, ids[0])| == |KeyRows(s, key, ids[0])| + (if key(a) == ids[0] then 1 else 0);
      assert key(a) in ids <==> key(a) == ids[0] || key(a) in ids[1..];
      assert ids[0] !in ids[1..];
    }
  }

  /** Groups over distinct keys that cover every element partition `s`: their
      sizes add up to `|s|`. */
  lemma {:induction false} GroupTotalAll<T(!new)>(s: seq<T>, key: T -> int, ids: seq<int>)
    requires Increasing(ids)
    requires forall i :: 0 <= i < |s| ==> key(s[i]) in ids
    ensures GroupTotal(s, key, ids) == |s|
  {
    if |s| == 0 {
      GroupTotalEmpty(s, key, ids);
    } else {
      GroupTotalAll(s[1..], key, ids);
      GroupTotalCons(s[0], s[1..], key, ids);
      assert [s[0]] + s[1..] == s;
    }
  }

  lemma {:induction false} GroupTotalEmpty<T(!new)>(s: seq<T>, key: T -> int, ids: seq<int>)
    requires |s| == 0
    ensures GroupTotal(s, key, ids) == 0
  {
    if |ids| > 0 {
      GroupTotalEmpty(s, key, ids[1..]);
    }
  }

  /** Filtering distributes over concatenation. */
  lemma {:induction false} FilterAppend<T(!new)>(a: seq<T>, b: seq<T>, p: T -> bool)
    ensures Filter(a + b, p) == Filter(a, p) + Filter(b, p)
  {
    if |a| > 0 {
      assert (a + b)[0] == a[0];
      assert (a + b)[1..] == a[1..] + b;
      FilterAppend(a[1..], b, p);
      if p(a[0]) {
        assert Filter(a + b, p) == [a[0]] + Filter(a[1..] + b, p);
        assert Filter(a, p) == [a[0]] + Filter(a[1..], p);
      } else {
        assert Filter(a + b, p) == Filter(a[1..] + b, p);
        assert Filter(a, p) == Filter(a[1..], p);
      }
    } else {
      assert a + b == b;
    }
  }

  /** Two predicates that no element satisfies together count at most `|s|`
      between them. */
  lemma {:induction false} CountDisjoint<T>(s: seq<T>, p: T -> bool, q: T -> bool)
    requires forall i :: 0 <= i < |s| ==> !(p(s[i]) && q(s[i]))
    ensures Count(s, p) + Count(s, q) <= |s|
  {
    if |s| > 0 {
      CountDisjoint(s[1..], p, q);
    }
  }

  /** Mapping after an insertion yields the same multiset as mapping first. */
  lemma {:induction false} MapInsertBy<T, U>(x: T, s: seq<T>, key: T -> int, f: T -> U)
    requires SortedBy(s, key)
    ensures multiset(Map(InsertBy(x, s, key), f)) == multiset{f(x)} + multiset(Map(s, f))
  {
    var r := InsertBy(x, s, key);
    if |s| == 0 || key(x) <= key(s[0]) {
      assert r == [x] + s;
      assert r[1..] == s;
    } else {
      MapInsertBy(x, s[1..], key, f);
      assert r == [s[0]] + InsertBy(x, s[1..], key);
      assert r[1..] == InsertBy(x, s[1..], key);
    }
  }

  /** Sorting does not change which values a mapping produces, nor how often. */
  lemma {:induction false} MapSortBy<T, U>(s: seq<T>, key: T -> int, f: T -> U)
    ensures multiset(Map(SortBy(s, key), f)) == multiset(Map(s, f))
  {
    if |s| > 0 {
      MapSortBy(s[1..], key, f);
      MapInsertBy(s[0], SortBy(s[1..], key), key, f);
      assert Map(s, f) == [f(s[0])] + Map(s[1..], f);
    }
  }

  /** A strictly ascending sequence has as many elements as distinct values. */
  lemma {:induction false} IncreasingCard(s: seq<int>)
    requires Increasing(s)
    ensures |set k | k in s| == |s|
  {
    if |s| > 0 {
      IncreasingCard(s[1..]);
      assert (set k | k in s) == {s[0]} + (set k | k in s[1..]);
      assert s[0] !in s[1..];
    }
  }
}
