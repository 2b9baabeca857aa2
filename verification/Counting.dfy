/** Counting the elements of a sequence that satisfy a predicate, and the pigeonhole fact that
    bounds every duplicate-free work list in the program. */
module Counting {

  ghost function Count<T>(s: seq<T>, p: T -> bool): nat {
    if s == [] then 0 else Count(s[..|s| - 1], p) + (if p(s[|s| - 1]) then 1 else 0)
  }

  lemma {:induction false} CountUpdate<T>(s: seq<T>, i: nat, v: T, p: T -> bool)
    requires i < |s|
    ensures Count(s[i := v], p)
         == Count(s, p) - (if p(s[i]) then 1 else 0) + (if p(v) then 1 else 0)
    decreases |s|
  {
    var last := |s| - 1;
    if i < last {
      CountUpdate(s[..last], i, v, p);
      assert s[i := v][..last] == s[..last][i := v];
    } else {
      assert s[i := v][..last] == s[..last];
    }
  }

  lemma {:induction false} CountAll<T>(s: seq<T>, p: T -> bool)
    requires forall k :: 0 <= k < |s| ==> p(s[k])
    ensures Count(s, p) == |s|
  {
    if s != [] {
      CountAll(s[..|s| - 1], p);
    }
  }

  lemma {:induction false} CountNone<T>(s: seq<T>, p: T -> bool)
    requires forall k :: 0 <= k < |s| ==> !p(s[k])
    ensures Count(s, p) == 0
  {
    if s != [] {
      CountNone(s[..|s| - 1], p);
    }
  }

  /** An element that satisfies the predicate makes the count positive. */
  lemma {:induction false} CountPositive<T>(s: seq<T>, i: nat, p: T -> bool)
    requires i < |s| && p(s[i])
    ensures Count(s, p) > 0
    decreases |s|
  {
    if i < |s| - 1 {
      assert s[..|s| - 1][i] == s[i];
      CountPositive(s[..|s| - 1], i, p);
    }
  }

  ghost predicate Distinct(s: seq<nat>) {
    forall a, b :: 0 <= a < b < |s| ==> s[a] != s[b]
  }

  ghost predicate Below(s: seq<nat>, n: nat) {
    forall a :: 0 <= a < |s| ==> s[a] < n
  }

  /** A list of distinct numbers below n has at most n entries, fewer if it misses one. */
  lemma {:induction false} Pigeonhole(s: seq<nat>, n: nat)
    requires Distinct(s) && Below(s, n)
    ensures |s| <= n
    ensures forall x: nat :: x < n && x !in s ==> |s| < n
  {
    var elems := set a | 0 <= a < |s| :: s[a];
    DistinctCard(s);
    var all := Range(n);
    RangeCard(n);
    assert elems <= all;
    SubsetCard(elems, all);
    forall x: nat | x < n && x !in s ensures |s| < n {
      assert elems <= all - {x};
      SubsetCard(elems, all - {x});
    }
  }

  lemma {:induction false} DistinctCard(s: seq<nat>)
    requires Distinct(s)
    ensures |set a | 0 <= a < |s| :: s[a]| == |s|
  {
    var elems := set a | 0 <= a < |s| :: s[a];
    if s == [] {
      assert elems == {};
    } else {
      var t := s[..|s| - 1];
      DistinctCard(t);
      var et := set a | 0 <= a < |t| :: t[a];
      assert elems == et + {s[|s| - 1]} by {
        forall x | x in et ensures x in elems {
          var a :| 0 <= a < |t| && t[a] == x;
          assert s[a] == x;
        }
      }
    }
  }

  /** The numbers below n. */
  ghost function Range(n: nat): (r: set<nat>)
    ensures forall x: nat :: x in r <==> x < n
  {
    if n == 0 then {} else Range(n - 1) + {n - 1}
  }

  lemma {:induction false} RangeCard(n: nat)
    ensures |Range(n)| == n
  {
    if n > 0 {
      RangeCard(n - 1);
    }
  }

  lemma {:induction false} SubsetCard<T>(a: set<T>, b: set<T>)
    requires a <= b
    ensures |a| <= |b|
    decreases a
  {
    if a != {} {
      var x :| x in a;
      SubsetCard(a - {x}, b - {x});
    }
  }

  /** Pointwise implication bounds the count, strictly if it fails the other way somewhere. */
  lemma {:induction false} CountLess<T>(s: seq<T>, t: seq<T>, p: T -> bool, i: nat)
    requires |s| == |t|
    requires forall k :: 0 <= k < |s| && p(t[k]) ==> p(s[k])
    ensures Count(t, p) <= Count(s, p)
    ensures i < |s| && p(s[i]) && !p(t[i]) ==> Count(t, p) < Count(s, p)
    decreases |s|
  {
    if s != [] {
      CountLess(s[..|s| - 1], t[..|t| - 1], p, i);
    }
  }
}
