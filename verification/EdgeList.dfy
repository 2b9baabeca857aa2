/** Edges between services, sorted and without duplicates. */
module EdgeLists {
  import opened Counting
  import opened Graphs
  import opened Transposes

  /** b waits for a. */
  datatype Edge = Edge(a: nat, b: nat)

  predicate Less(x: Edge, y: Edge) {
    x.a < y.a || (x.a == y.a && x.b < y.b)
  }

  ghost predicate Sorted(es: seq<Edge>) {
    forall i, j :: 0 <= i < j < |es| ==> !Less(es[j], es[i])
  }

  /** Sorted, and no edge twice. */
  ghost predicate Strict(es: seq<Edge>) {
    forall i, j :: 0 <= i < j < |es| ==> Less(es[i], es[j])
  }

  ghost predicate Single(es: seq<Edge>) {
    forall i, j :: 0 <= i < j < |es| ==> es[i] != es[j]
  }

  ghost function Set(es: seq<Edge>): set<Edge> {
    set e | e in es
  }

  /** e goes after everything that does not come after it. */
  function Insert(e: Edge, es: seq<Edge>): (r: seq<Edge>)
    ensures |r| == |es| + 1
  {
    if es == [] then [e]
    else if Less(e, es[|es| - 1]) then Insert(e, es[..|es| - 1]) + [es[|es| - 1]]
    else es + [e]
  }

  /** The edges in order. */
  function Sort(es: seq<Edge>): (r: seq<Edge>)
    ensures |r| == |es|
  {
    if es == [] then [] else Insert(es[|es| - 1], Sort(es[..|es| - 1]))
  }

  lemma SetMore(es: seq<Edge>, e: Edge)
    ensures Set(es + [e]) == Set(es) + {e}
  {
  }

  /** What is inserted before the last edge does not come after it. */
  lemma BelowLast(es: seq<Edge>, r: seq<Edge>, e: Edge)
    requires es != [] && Sorted(es) && Less(e, es[|es| - 1]) && Set(r) == Set(es[..|es| - 1]) + {e}
    ensures forall i :: 0 <= i < |r| ==>
              !Less(es[|es| - 1], r[i]) && (Strict(es) && e !in es ==> Less(r[i], es[|es| - 1]))
  {
    var init, last := es[..|es| - 1], es[|es| - 1];
    forall i | 0 <= i < |r| ensures !Less(last, r[i]) && (Strict(es) && e !in es ==> Less(r[i], last)) {
      assert r[i] in Set(r);
      if r[i] != e {
        assert r[i] in init;
        var k :| 0 <= k < |init| && init[k] == r[i];
        assert es[k] == r[i];
      }
    }
  }

  lemma OrderMore(r: seq<Edge>, e: Edge)
    ensures Sorted(r) && (forall i :: 0 <= i < |r| ==> !Less(e, r[i])) ==> Sorted(r + [e])
    ensures Strict(r) && (forall i :: 0 <= i < |r| ==> Less(r[i], e)) ==> Strict(r + [e])
  {
  }

  lemma OrderLess(es: seq<Edge>)
    requires es != []
    ensures Sorted(es) ==> Sorted(es[..|es| - 1])
    ensures Strict(es) ==> Strict(es[..|es| - 1])
  {
  }

  lemma NotBelow(es: seq<Edge>, e: Edge)
    requires es != [] && Sorted(es) && !Less(e, es[|es| - 1])
    ensures forall i :: 0 <= i < |es| ==> !Less(e, es[i])
    ensures Strict(es) && e !in es ==> forall i :: 0 <= i < |es| ==> Less(es[i], e)
  {
    var last := es[|es| - 1];
    forall i | 0 <= i < |es| ensures !Less(e, es[i]) {
      assert i < |es| - 1 ==> !Less(last, es[i]);
    }
    if Strict(es) && e !in es {
      forall i | 0 <= i < |es| ensures Less(es[i], e) {
        assert i < |es| - 1 ==> Less(es[i], last);
        assert last in es;
      }
    }
  }

  lemma {:induction false} InsertKeeps(e: Edge, es: seq<Edge>)
    requires Sorted(es)
    ensures Sorted(Insert(e, es)) && Set(Insert(e, es)) == Set(es) + {e}
    ensures Strict(es) && e !in es ==> Strict(Insert(e, es))
    decreases |es|
  {
    if es == [] {
      SetMore(es, e);
      assert es + [e] == [e];
    } else {
      var init, last := es[..|es| - 1], es[|es| - 1];
      assert es == init + [last];
      SetMore(init, last);
      OrderLess(es);
      if Less(e, last) {
        InsertKeeps(e, init);
        var r := Insert(e, init);
        BelowLast(es, r, e);
        SetMore(r, last);
        OrderMore(r, last);
      } else {
        SetMore(es, e);
        NotBelow(es, e);
        OrderMore(es, e);
      }
      hide Set, Sorted, Strict;
    }
  }

  lemma {:induction false} SortKeeps(es: seq<Edge>)
    ensures Sorted(Sort(es)) && Set(Sort(es)) == Set(es)
    ensures Single(es) ==> Strict(Sort(es))
    decreases |es|
  {
    if es != [] {
      var init := es[..|es| - 1];
      assert es == init + [es[|es| - 1]];
      SortKeeps(init);
      assert Single(es) ==> Single(init) && es[|es| - 1] !in init;
      assert es[|es| - 1] in Sort(init) <==> es[|es| - 1] in Set(Sort(init));
      InsertKeeps(es[|es| - 1], Sort(init));
    }
  }

  /** Drops repeated edges from a sorted list, in place. */
  method Dedup(es: array<Edge>) returns (m: nat)
    requires Sorted(es[..])
    modifies es
    ensures m <= es.Length && Strict(es[..m]) && Set(es[..m]) == Set(old(es[..]))
  {
    m := 0;
    var i := 0;
    ghost var was := es[..];
    while i < es.Length
      invariant 0 <= m <= i <= es.Length && es[i..] == was[i..]
      invariant Strict(es[..m]) && Set(es[..m]) == Set(was[..i])
      invariant 0 < i ==> 0 < m && es[m - 1] == was[i - 1]
    {
      var e := es[i];
      assert e == was[i] && was[..i + 1] == was[..i] + [e];
      SetMore(was[..i], e);
      if m == 0 || e != es[m - 1] {
        KeepOne(es[..m], was, i);
        SetMore(es[..m], e);
        es[m] := e;
        m := m + 1;
        assert es[..m] == es[..m - 1] + [e];
      } else {
        assert es[..m][m - 1] in Set(es[..m]);
      }
      i := i + 1;
    }
    assert was[..i] == was;
  }

  lemma KeepOne(kept: seq<Edge>, was: seq<Edge>, i: nat)
    requires Sorted(was) && i < |was| && Strict(kept) && Set(kept) == Set(was[..i])
    requires kept == [] || (i > 0 && kept[|kept| - 1] == was[i - 1] != was[i])
    ensures Strict(kept + [was[i]])
  {
    var e := was[i];
    forall k | 0 <= k < |kept| ensures Less(kept[k], e) {
      assert kept[k] in Set(kept);
      assert !Less(was[i], was[i - 1]);
      var last := kept[|kept| - 1];
      assert k < |kept| - 1 ==> Less(kept[k], last);
    }
  }

  function Sources(es: seq<Edge>): (s: seq<nat>)
    ensures |s| == |es| && forall k :: 0 <= k < |s| ==> s[k] == es[k].a
  {
    seq<nat>(|es|, k requires 0 <= k < |es| => es[k].a)
  }

  function Targets(es: seq<Edge>): (s: seq<nat>)
    ensures |s| == |es| && forall k :: 0 <= k < |s| ==> s[k] == es[k].b
  {
    seq<nat>(|es|, k requires 0 <= k < |es| => es[k].b)
  }

  // ---------------------------------------------------------------- rows

  ghost predicate Ascending(src: seq<nat>) {
    forall i, j :: 0 <= i < j < |src| ==> src[i] <= src[j]
  }

  /** In a sorted list the entries below j are the first ones. */
  lemma {:induction false} BeforeSplits(src: seq<nat>, j: nat)
    requires Ascending(src)
    ensures Before(src, j) <= |src| && forall k :: 0 <= k < |src| ==> (src[k] < j <==> k < Before(src, j))
    decreases |src|
  {
    if src == [] {
      BeforeNone(j);
    } else {
      var last := |src| - 1;
      var init := src[..last];
      BeforeSplits(init, j);
      BeforeStep(src, j);
      assert forall k :: 0 <= k < last ==> src[k] == init[k];
      if src[last] < j {
        assert forall k :: 0 <= k < last ==> init[k] < j;
        BeforeFull(init, j);
      }
    }
  }

  lemma {:induction false} BeforeFull(src: seq<nat>, j: nat)
    requires forall k :: 0 <= k < |src| ==> src[k] < j
    ensures Before(src, j) == |src|
  {
    BeforeAll(src, j);
  }

  /** Filling the rows of a sorted list puts every edge where it is. */
  lemma PlaceIsIndex(src: seq<nat>, k: nat)
    requires Ascending(src) && k < |src|
    ensures Before(src, src[k]) + InDegree(src[..k], src[k]) == k
  {
    var a := src[k];
    BeforeSplits(src, a);
    DegreeAfter(src[..k], a, Before(src, a));
  }

  lemma {:induction false} DegreeAfter(s: seq<nat>, a: nat, from: nat)
    requires from <= |s| && forall x :: 0 <= x < |s| ==> (s[x] == a <==> from <= x)
    ensures InDegree(s, a) == |s| - from
    decreases |s|
  {
    if |s| > from {
      DegreeAfter(s[..|s| - 1], a, from);
    } else {
      NoDegree(s, a);
    }
  }

  lemma {:induction false} NoDegree(s: seq<nat>, a: nat)
    requires forall x :: 0 <= x < |s| ==> s[x] != a
    ensures InDegree(s, a) == 0
    decreases |s|
  {
    if s != [] {
      NoDegree(s[..|s| - 1], a);
    }
  }

  /** The offsets of the rows, the edges in the rows, and how many edges lead to each service. */
  method BuildRows(n: nat, es: seq<Edge>) returns (off: array<nat>, idx: array<nat>, indeg: array<nat>)
    requires Sorted(es) && forall k :: 0 <= k < |es| ==> es[k].a < n && es[k].b < n
    ensures off.Length == n + 1 && idx.Length == |es| && indeg.Length == n && fresh(off) && fresh(idx) && fresh(indeg)
    ensures forall i :: 0 <= i <= n ==> off[i] == Before(Sources(es), i)
    ensures idx[..] == Targets(es)
    ensures forall d {:trigger InDegree(Targets(es), d)} :: 0 <= d < n ==> indeg[d] == InDegree(Targets(es), d)
  {
    hide *;
    off := new nat[n + 1](_ => 0);
    idx := new nat[|es|](_ => 0);
    indeg := new nat[n](_ => 0);
    CountEdges(n, es, off, indeg);
    AddUp(n, es, off);
    FillRows(n, es, off, idx);
  }

  method CountEdges(n: nat, es: seq<Edge>, off: array<nat>, indeg: array<nat>)
    requires forall k :: 0 <= k < |es| ==> es[k].a < n && es[k].b < n
    requires off.Length == n + 1 && indeg.Length == n && off != indeg
    requires (forall i :: 0 <= i <= n ==> off[i] == 0) && (forall i :: 0 <= i < n ==> indeg[i] == 0)
    modifies off, indeg
    ensures off[0] == 0 && forall i {:trigger InDegree(Sources(es), i)} :: 0 <= i < n ==>
              off[i + 1] == InDegree(Sources(es), i)
    ensures forall d {:trigger InDegree(Targets(es), d)} :: 0 <= d < n ==> indeg[d] == InDegree(Targets(es), d)
  {
    hide InDegree;
    ghost var src, dst := Sources(es), Targets(es);
    DegreeNone(src);
    DegreeNone(dst);
    var k := 0;
    while k < |es|
      invariant 0 <= k <= |es| && off[0] == 0
      invariant forall i {:trigger InDegree(src[..k], i)} :: 0 <= i < n ==> off[i + 1] == InDegree(src[..k], i)
      invariant forall d {:trigger InDegree(dst[..k], d)} :: 0 <= d < n ==> indeg[d] == InDegree(dst[..k], d)
    {
      off[es[k].a + 1] := off[es[k].a + 1] + 1;
      indeg[es[k].b] := indeg[es[k].b] + 1;
      forall i: nat ensures Steps(src, k, i) && Steps(dst, k, i) {
        DegreeStep(src, k, i);
        DegreeStep(dst, k, i);
      }
      k := k + 1;
      forall i {:trigger InDegree(src[..k], i)} | 0 <= i < n ensures off[i + 1] == InDegree(src[..k], i) {
        assert Steps(src, k - 1, i);
      }
      forall d {:trigger InDegree(dst[..k], d)} | 0 <= d < n ensures indeg[d] == InDegree(dst[..k], d) {
        assert Steps(dst, k - 1, d);
      }
    }
    assert src[..k] == src && dst[..k] == dst;
  }

  /** Entry k of s adds one to what it names. */
  ghost predicate Steps(s: seq<nat>, k: nat, i: nat)
    requires k < |s|
  {
    InDegree(s[..k + 1], i) == InDegree(s[..k], i) + if s[k] == i then 1 else 0
  }

  lemma DegreeStep(s: seq<nat>, k: nat, i: nat)
    requires k < |s|
    ensures Steps(s, k, i)
  {
    assert s[..k + 1][..k] == s[..k];
  }

  lemma DegreeNone(s: seq<nat>)
    ensures forall i :: InDegree(s[..0], i) == 0
  {
  }

  method AddUp(n: nat, es: seq<Edge>, off: array<nat>)
    requires off.Length == n + 1 && off[0] == 0
    requires forall i {:trigger InDegree(Sources(es), i)} :: 0 <= i < n ==> off[i + 1] == InDegree(Sources(es), i)
    modifies off
    ensures forall i :: 0 <= i <= n ==> off[i] == Before(Sources(es), i)
  {
    hide InDegree, Before;
    ghost var src, counts := Sources(es), off[..];
    var i := 0;
    BeforeOne(src, 0);
    while i < n
      invariant 0 <= i <= n && off[i + 1..] == counts[i + 1..]
      invariant forall j :: 0 <= j <= i ==> off[j] == Before(src, j)
    {
      BeforeOne(src, i);
      assert off[i + 1] == off[i + 1..][0] == counts[i + 1] == InDegree(src, i);
      off[i + 1] := off[i + 1] + off[i];
      i := i + 1;
    }
  }

  lemma BeforeOne(src: seq<nat>, i: nat)
    ensures Before(src, 0) == 0 && Before(src, i + 1) == Before(src, i) + InDegree(src, i)
  {
  }

  method FillRows(n: nat, es: seq<Edge>, off: array<nat>, idx: array<nat>)
    requires Sorted(es) && forall k :: 0 <= k < |es| ==> es[k].a < n
    requires off.Length == n + 1 && idx.Length == |es| && off != idx
    requires forall i :: 0 <= i <= n ==> off[i] == Before(Sources(es), i)
    modifies idx
    ensures idx[..] == Targets(es)
  {
    hide InDegree, Before;
    ghost var src, dst := Sources(es), Targets(es);
    DegreeNone(src);
    var fill := new nat[n](_ => 0);
    var k := 0;
    while k < |es|
      invariant 0 <= k <= |es| && idx[..k] == dst[..k]
      invariant forall i {:trigger InDegree(src[..k], i)} :: 0 <= i < n ==> fill[i] == InDegree(src[..k], i)
    {
      SourcesAscend(es);
      PlaceIsIndex(src, k);
      var a := es[k].a;
      idx[off[a] + fill[a]] := es[k].b;
      fill[a] := fill[a] + 1;
      forall i: nat ensures Steps(src, k, i) {
        DegreeStep(src, k, i);
      }
      assert idx[..k + 1] == idx[..k] + [es[k].b] && dst[..k + 1] == dst[..k] + [es[k].b];
      k := k + 1;
      forall i {:trigger InDegree(src[..k], i)} | 0 <= i < n ensures fill[i] == InDegree(src[..k], i) {
        assert Steps(src, k - 1, i);
      }
    }
    assert dst[..k] == dst && idx[..k] == idx[..];
  }

  lemma SourcesAscend(es: seq<Edge>)
    requires Sorted(es)
    ensures Ascending(Sources(es))
  {
  }
}
