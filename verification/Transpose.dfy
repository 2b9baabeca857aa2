/** The lists of prerequisites, which the graph does not store: its edges sorted by dependent. */
module Transposes {
  import opened Graphs
  import opened Ledgers

  /** The edges into d, in order. */
  ghost function EdgesInto(dst: seq<nat>, d: nat): (ks: seq<nat>)
    ensures |ks| == InDegree(dst, d)
    ensures forall m :: 0 <= m < |ks| ==> ks[m] < |dst| && dst[ks[m]] == d
  {
    if dst == [] then []
    else
      var last := |dst| - 1;
      EdgesInto(dst[..last], d) + (if dst[last] == d then [last] else [])
  }

  /** Every edge into d is listed, and once. */
  lemma {:induction false} EdgesIntoAll(dst: seq<nat>, d: nat)
    ensures forall k :: 0 <= k < |dst| && dst[k] == d ==> k in EdgesInto(dst, d)
    ensures forall a, b :: 0 <= a < b < |EdgesInto(dst, d)| ==> EdgesInto(dst, d)[a] < EdgesInto(dst, d)[b]
    decreases |dst|
  {
    if dst != [] {
      var last := |dst| - 1;
      EdgesIntoAll(dst[..last], d);
      assert forall k :: 0 <= k < last ==> dst[k] == dst[..last][k];
    }
  }

  /** Where the list of d starts when the lists are laid end to end. */
  ghost function Before(dst: seq<nat>, d: nat): nat {
    if d == 0 then 0 else Before(dst, d - 1) + InDegree(dst, d - 1)
  }

  lemma {:induction false} BeforeGrows(dst: seq<nat>, d: nat, e: nat)
    requires d < e
    ensures Before(dst, d) + InDegree(dst, d) <= Before(dst, e)
    decreases e
  {
    if d < e - 1 {
      BeforeGrows(dst, d, e - 1);
    }
  }

  /** One more edge belongs to one list. */
  lemma {:induction false} BeforeStep(dst: seq<nat>, d: nat)
    requires dst != []
    ensures Before(dst, d) == Before(dst[..|dst| - 1], d) + (if dst[|dst| - 1] < d then 1 else 0)
    decreases d
  {
    if d > 0 {
      BeforeStep(dst, d - 1);
    }
  }

  /** The lists of all n services hold every edge. */
  lemma {:induction false} BeforeAll(dst: seq<nat>, n: nat)
    requires forall k :: 0 <= k < |dst| ==> dst[k] < n
    ensures Before(dst, n) == |dst|
    decreases |dst|
  {
    if dst == [] {
      BeforeNone(n);
    } else {
      BeforeAll(dst[..|dst| - 1], n);
      BeforeStep(dst, n);
    }
  }

  lemma {:induction false} BeforeNone(n: nat)
    ensures Before([], n) == 0
  {
    if n > 0 {
      BeforeNone(n - 1);
    }
  }

  lemma {:induction false} DegreeGrows(dst: seq<nat>, k: nat, d: nat)
    requires k <= |dst|
    ensures InDegree(dst[..k], d) <= InDegree(dst, d)
    decreases |dst|
  {
    if k == |dst| {
      assert dst[..k] == dst;
    } else {
      DegreeGrows(dst[..|dst| - 1], k, d);
      assert dst[..|dst| - 1][..k] == dst[..k];
    }
  }

  /** Edge k goes to the first free place of its list, which lies inside that list. */
  lemma PlaceOf(dst: seq<nat>, k: nat)
    requires k < |dst|
    ensures InDegree(dst[..k + 1], dst[k]) == InDegree(dst[..k], dst[k]) + 1 <= InDegree(dst, dst[k])
    ensures forall d {:trigger InDegree(dst[..k], d)} :: d != dst[k] ==>
              InDegree(dst[..k + 1], d) == InDegree(dst[..k], d)
    ensures forall d {:trigger EdgesInto(dst[..k], d)} ::
              EdgesInto(dst[..k + 1], d) == EdgesInto(dst[..k], d) + (if d == dst[k] then [k] else [])
  {
    assert dst[..k + 1][..k] == dst[..k];
    DegreeGrows(dst, k + 1, dst[k]);
  }

  /** The list of d holds the prerequisites of d so far. */
  ghost predicate Listed(src: seq<nat>, dst: seq<nat>, idx: seq<nat>, d: nat, done: nat)
    requires done <= |dst| && |src| == |dst|
  {
    Laid(src, idx, Before(dst, d), EdgesInto(dst[..done], d))
  }

  /** Adding edge k to its list leaves the other lists alone. */
  lemma ListedStep(src: seq<nat>, dst: seq<nat>, idx: seq<nat>, k: nat, d: nat)
    requires |src| == |dst| && k < |dst| && Listed(src, dst, idx, d, k) && |idx| == |dst|
    requires Before(dst, dst[k]) + InDegree(dst[..k], dst[k]) < |idx|
    ensures Listed(src, dst, idx[Before(dst, dst[k]) + InDegree(dst[..k], dst[k]) := src[k]], d, k + 1)
  {
    hide *;
    var e := dst[k];
    var at, ks := Before(dst, e) + InDegree(dst[..k], e), EdgesInto(dst[..k], d);
    ListedIs(src, dst, idx, d, k);
    ListedIs(src, dst, idx[at := src[k]], d, k + 1);
    if d == e {
      EdgesPlus(dst, k);
      Appended(src, idx, Before(dst, d), ks, k);
    } else {
      Apart(dst, k, d);
      EdgesSame(dst, k, d);
      Elsewhere(src, idx, Before(dst, d), ks, at, src[k]);
    }
  }

  lemma ListedIs(src: seq<nat>, dst: seq<nat>, idx: seq<nat>, d: nat, done: nat)
    requires done <= |dst| && |src| == |dst|
    ensures forall m :: 0 <= m < |EdgesInto(dst[..done], d)| ==> EdgesInto(dst[..done], d)[m] < |src|
    ensures Listed(src, dst, idx, d, done) <==> Laid(src, idx, Before(dst, d), EdgesInto(dst[..done], d))
    ensures |EdgesInto(dst[..done], d)| == InDegree(dst[..done], d)
  {
  }

  lemma EdgesPlus(dst: seq<nat>, k: nat)
    requires k < |dst|
    ensures EdgesInto(dst[..k + 1], dst[k]) == EdgesInto(dst[..k], dst[k]) + [k]
  {
    assert dst[..k + 1][..k] == dst[..k];
  }

  lemma EdgesSame(dst: seq<nat>, k: nat, d: nat)
    requires k < |dst| && d != dst[k]
    ensures EdgesInto(dst[..k + 1], d) == EdgesInto(dst[..k], d)
  {
    assert dst[..k + 1][..k] == dst[..k];
  }

  /** The place of edge k lies outside of the other lists. */
  lemma Apart(dst: seq<nat>, k: nat, d: nat)
    requires k < |dst| && d != dst[k]
    ensures var at := Before(dst, dst[k]) + InDegree(dst[..k], dst[k]);
            at < Before(dst, d) || Before(dst, d) + InDegree(dst[..k], d) <= at
  {
    hide Before, InDegree, EdgesInto;
    PlaceOf(dst, k);
    DegreeGrows(dst, k, d);
    if d < dst[k] {
      BeforeGrows(dst, d, dst[k]);
    } else {
      BeforeGrows(dst, dst[k], d);
    }
  }

  /** The list ks, laid out from `from` on. */
  ghost predicate Laid(src: seq<nat>, idx: seq<nat>, from: nat, ks: seq<nat>)
    requires forall m :: 0 <= m < |ks| ==> ks[m] < |src|
  {
    from + |ks| <= |idx| && forall m :: 0 <= m < |ks| ==> idx[from + m] == src[ks[m]]
  }

  lemma Appended(src: seq<nat>, idx: seq<nat>, from: nat, ks: seq<nat>, k: nat)
    requires (forall m :: 0 <= m < |ks| ==> ks[m] < |src|) && k < |src|
    requires Laid(src, idx, from, ks) && from + |ks| < |idx|
    ensures Laid(src, idx[from + |ks| := src[k]], from, ks + [k])
  {
  }

  lemma Elsewhere(src: seq<nat>, idx: seq<nat>, from: nat, ks: seq<nat>, at: nat, v: nat)
    requires (forall m :: 0 <= m < |ks| ==> ks[m] < |src|) && Laid(src, idx, from, ks) && at < |idx|
    requires at < from || from + |ks| <= at
    ensures Laid(src, idx[at := v], from, ks)
  {
  }

  /** The prerequisites of every service, as offsets into one list. The counters of the graph add up to
      its number of edges, so the lists fit. */
  method BuildPrereqs(g: Graph) returns (off: array<nat>, idx: array<nat>)
    requires Valid(g)
    ensures off.Length == |g.svc| + 1 && idx.Length == |g.dst| && fresh(off) && fresh(idx)
    ensures forall d :: 0 <= d <= |g.svc| ==> off[d] == Before(g.dst, d)
    ensures off[|g.svc|] == |g.dst|
    ensures forall d :: 0 <= d < |g.svc| ==> Listed(g.src, g.dst, idx[..], d, |g.dst|)
  {
    hide *;
    ValidEdges(g);
    BeforeAll(g.dst, |g.svc|);
    BeforeNext(g, 0);
    var n := |g.svc|;
    off := new nat[n + 1](_ => 0);
    idx := new nat[|g.dst|](_ => 0);
    var fill := new nat[n](_ => 0);
    var i := 0;
    while i < n
      invariant 0 <= i <= n && fresh(off)
      invariant forall d :: 0 <= d <= i ==> off[d] == Before(g.dst, d)
      invariant forall d :: 0 <= d < n ==> fill[d] == 0
    {
      BeforeNext(g, i);
      off[i + 1] := off[i] + g.svc[i].unmet;
      i := i + 1;
    }
    FillLists(g, off, idx, fill);
  }

  lemma BeforeNext(g: Graph, d: nat)
    requires Valid(g)
    ensures Before(g.dst, 0) == 0 && (d < |g.svc| ==> Before(g.dst, d + 1) == Before(g.dst, d) + g.svc[d].unmet)
  {
    assert d < |g.svc| ==> g.svc[d].unmet == InDegree(g.dst, d);
  }

  method FillLists(g: Graph, off: array<nat>, idx: array<nat>, fill: array<nat>)
    requires Valid(g) && off.Length == |g.svc| + 1 && idx.Length == |g.dst| && fill.Length == |g.svc|
    requires off != idx && off != fill && idx != fill
    requires forall d :: 0 <= d <= |g.svc| ==> off[d] == Before(g.dst, d)
    requires forall d :: 0 <= d < |g.svc| ==> fill[d] == 0
    modifies idx, fill
    ensures forall d :: 0 <= d < |g.svc| ==> Listed(g.src, g.dst, idx[..], d, |g.dst|)
  {
    hide Listed, Before, EdgesInto, InDegree, Valid;
    ValidEdges(g);
    ListedNone(g, idx[..]);
    var k := 0;
    while k < |g.dst|
      invariant 0 <= k <= |g.dst|
      invariant forall d :: 0 <= d < |g.svc| ==> fill[d] == InDegree(g.dst[..k], d)
      invariant forall d :: 0 <= d < |g.svc| ==> Listed(g.src, g.dst, idx[..], d, k)
    {
      var d := g.dst[k];
      PlaceOf(g.dst, k);
      BeforeGrows(g.dst, d, |g.svc|);
      BeforeAll(g.dst, |g.svc|);
      ghost var was := idx[..];
      var at := off[d] + fill[d];
      idx[at] := g.src[k];
      assert idx[..] == was[at := g.src[k]];
      fill[d] := fill[d] + 1;
      k := k + 1;
      forall x | 0 <= x < |g.svc| ensures Listed(g.src, g.dst, idx[..], x, k) {
        ListedStep(g.src, g.dst, was, k - 1, x);
      }
    }
  }

  lemma SrcFits(g: Graph)
    requires Valid(g)
    ensures |g.src| == |g.dst| && forall k :: 0 <= k < |g.src| ==> g.src[k] < |g.svc|
  {
  }

  lemma ValidEdges(g: Graph)
    requires Valid(g)
    ensures |g.src| == |g.dst| && forall k :: 0 <= k < |g.dst| ==> g.dst[k] < |g.svc|
  {
  }

  lemma ListedNone(g: Graph, idx: seq<nat>)
    requires Valid(g) && |idx| == |g.dst|
    ensures forall d :: 0 <= d < |g.svc| ==> InDegree(g.dst[..0], d) == 0 && Listed(g.src, g.dst, idx, d, 0)
  {
    forall d | 0 <= d < |g.svc| ensures Listed(g.src, g.dst, idx, d, 0) {
      BeforeGrows(g.dst, d, |g.svc|);
      BeforeAll(g.dst, |g.svc|);
    }
  }
}
