/** Sequences without repetition, and how many elements they can have. */
module Counting {
  ghost predicate Distinct<T>(s: seq<T>) {
    forall i, j | 0 <= i < j < |s| :: s[i] != s[j]
  }

  ghost function Elements<T>(s: seq<T>): set<T>
  {
    set x | x in s
  }

  lemma {:induction false} DistinctCount<T>(s: seq<T>)
    requires Distinct(s)
    ensures |Elements(s)| == |s|
  {
    if s != [] {
      var x, rest := s[|s| - 1], s[..|s| - 1];
      DistinctCount(rest);
      assert x !in rest;
      assert s == rest + [x];
      assert Elements(s) == Elements(rest) + {x};
    }
  }

  lemma SubsetCount<T>(a: set<T>, b: set<T>)
    requires a <= b
    ensures |a| <= |b| && (|a| == |b| <==> a == b)
  {
    assert |b| == |a| + |b - a|;
  }

  ghost function UpTo(n: nat): (r: set<int>)
    ensures |r| == n && forall i :: i in r <==> 1 <= i <= n
  {
    if n == 0 then {} else UpTo(n - 1) + {n}
  }

  /** Distinct numbers from 1 to n: no more than n, and all of them just when there are n. */
  lemma DistinctBelow(s: seq<int>, n: nat)
    requires Distinct(s) && forall k | 0 <= k < |s| :: 1 <= s[k] <= n
    ensures |s| <= n && (|s| == n <==> forall i | 1 <= i <= n :: i in s)
  {
    DistinctCount(s);
    var some, all := Elements(s), UpTo(n);
    forall i | i in some ensures i in all {
      var k :| 0 <= k < |s| && s[k] == i;
    }
    SubsetCount(some, all);
    if forall i | 1 <= i <= n :: i in s {
      assert forall i | i in all :: i in some;
    } else {
      var i :| 1 <= i <= n && i !in s;
      assert i in all && i !in some;
    }
  }
}
