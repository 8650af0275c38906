/**
 * The orderings the list queries ask the database for: newest first (modelled
 * as decreasing row id) and ascending by text keys (modelled as lexicographic
 * order on code units).
 */
module Sorting {

  // ---------------------------------------------------------------------
  // Newest first
  // ---------------------------------------------------------------------

  /** The ids of `s` below `n`, largest (newest) first. */
  function Descending(s: set<nat>, n: nat): (r: seq<nat>)
    ensures forall x :: x in r <==> x in s && x < n
    ensures forall i, j :: 0 <= i < j < |r| ==> r[i] > r[j]
  {
    if n == 0 then []
    else
      var rest := Descending(s, n - 1);
      assert forall i :: 0 <= i < |rest| ==> rest[i] in rest;
      if n - 1 in s then [n - 1] + rest else rest
  }

  /** The ids of `s` below `n`, smallest (oldest) first: the order of a `findMany` without `orderBy`. */
  function Ascending(s: set<nat>, n: nat): (r: seq<nat>)
    ensures forall x :: x in r <==> x in s && x < n
    ensures forall i, j :: 0 <= i < j < |r| ==> r[i] < r[j]
  {
    if n == 0 then []
    else
      var rest := Ascending(s, n - 1);
      assert forall i :: 0 <= i < |rest| ==> rest[i] in rest;
      if n - 1 in s then rest + [n - 1] else rest
  }

  /** The ids of `s` below `n`. */
  function Below(s: set<nat>, n: nat): set<nat>
  {
    set x | x in s && x < n
  }

  /** Raising the bound by one adds `n` when `s` holds it. */
  lemma BelowStep(s: set<nat>, n: nat)
    ensures |Below(s, n + 1)| == |Below(s, n)| + (if n in s then 1 else 0)
  {
    if n in s {
      assert Below(s, n + 1) == Below(s, n) + {n};
    } else {
      assert Below(s, n + 1) == Below(s, n);
    }
  }

  /** The list holds each id of `s` below `n` once. */
  lemma {:induction false} DescendingCount(s: set<nat>, n: nat)
    ensures |Descending(s, n)| == |Below(s, n)|
  {
    if n == 0 {
      BelowZero(s);
    } else {
      var m := n - 1;
      DescendingCount(s, m);
      DescendingStep(s, m);
      BelowStep(s, m);
    }
  }

  /** The increasing list holds each id of `s` below `n` once. */
  lemma {:induction false} AscendingCount(s: set<nat>, n: nat)
    ensures |Ascending(s, n)| == |Below(s, n)|
  {
    if n == 0 {
      assert Below(s, 0) == {};
    } else {
      AscendingCount(s, n - 1);
      BelowStep(s, n - 1);
    }
  }

  lemma BelowZero(s: set<nat>)
    ensures |Descending(s, 0)| == |Below(s, 0)|
  {
    assert Below(s, 0) == {};
  }

  /** Raising the bound by one adds `n` to the list when `s` holds it. */
  lemma DescendingStep(s: set<nat>, n: nat)
    ensures |Descending(s, n + 1)| == |Descending(s, n)| + (if n in s then 1 else 0)
  {
  }

  // ---------------------------------------------------------------------
  // Lexicographic order on strings
  // ---------------------------------------------------------------------

  /** `a` sorts before or together with `b`, comparing code units from the left. */
  predicate StrLeq(a: string, b: string)
    decreases |a|
  {
    a == [] || (b != [] && (a[0] < b[0] || (a[0] == b[0] && StrLeq(a[1..], b[1..]))))
  }

  lemma {:induction false} StrLeqTotal(a: string, b: string)
    ensures StrLeq(a, b) || StrLeq(b, a)
    decreases |a|
  {
    if a != [] && b != [] && a[0] == b[0] {
      StrLeqTotal(a[1..], b[1..]);
    }
  }

  lemma {:induction false} StrLeqTrans(a: string, b: string, c: string)
    requires StrLeq(a, b) && StrLeq(b, c)
    ensures StrLeq(a, c)
    decreases |a|
  {
    if a != [] && a[0] == b[0] && b[0] == c[0] {
      StrLeqTrans(a[1..], b[1..], c[1..]);
    }
  }

  lemma {:induction false} StrLeqAntisym(a: string, b: string)
    requires StrLeq(a, b) && StrLeq(b, a)
    ensures a == b
    decreases |a|
  {
    if a != [] {
      StrLeqAntisym(a[1..], b[1..]);
      assert a == [a[0]] + a[1..] && b == [b[0]] + b[1..];
    }
  }

  // ---------------------------------------------------------------------
  // Sorting by a key
  // ---------------------------------------------------------------------

  /** The order the sort uses: reflexive, total and transitive. */
  ghost predicate TotalOrder<T(!new)>(le: (T, T) -> bool)
  {
    && (forall a, b :: le(a, b) || le(b, a))
    && (forall a, b, c :: le(a, b) && le(b, c) ==> le(a, c))
  }

  predicate Sorted<T>(s: seq<T>, le: (T, T) -> bool)
  {
    forall i, j :: 0 <= i < j < |s| ==> le(s[i], s[j])
  }

  /** `x` placed before the first element it sorts before. */
  function Insert<T>(x: T, s: seq<T>, le: (T, T) -> bool): (r: seq<T>)
    ensures multiset(r) == multiset(s) + multiset{x}
    ensures |r| == |s| + 1
  {
    if s == [] || le(x, s[0]) then [x] + s
    else
      assert s == [s[0]] + s[1..];
      [s[0]] + Insert(x, s[1..], le)
  }

  lemma {:induction false} InsertSorted<T(!new)>(x: T, s: seq<T>, le: (T, T) -> bool)
    requires TotalOrder(le) && Sorted(s, le)
    ensures Sorted(Insert(x, s, le), le)
  {
    if s != [] && !le(x, s[0]) {
      InsertSorted(x, s[1..], le);
      var r := Insert(x, s, le);
      forall k | 0 < k < |r| ensures le(s[0], r[k]) {
        assert r[k] in multiset(s[1..]) + multiset{x};
        if r[k] == x {
          assert le(s[0], x);
        } else {
          assert r[k] in s[1..];
          var j :| 0 <= j < |s[1..]| && s[1..][j] == r[k];
          assert s[j + 1] == r[k];
        }
      }
    }
  }

  /** Insertion sort: a permutation of `s` in `le` order. */
  function SortBy<T>(s: seq<T>, le: (T, T) -> bool): (r: seq<T>)
    ensures multiset(r) == multiset(s)
    ensures |r| == |s|
  {
    if s == [] then []
    else
      assert s == [s[0]] + s[1..];
      Insert(s[0], SortBy(s[1..], le), le)
  }

  lemma {:induction false} SortBySorted<T(!new)>(s: seq<T>, le: (T, T) -> bool)
    requires TotalOrder(le)
    ensures Sorted(SortBy(s, le), le)
  {
    if s != [] {
      SortBySorted(s[1..], le);
      InsertSorted(s[0], SortBy(s[1..], le), le);
    }
  }
}
