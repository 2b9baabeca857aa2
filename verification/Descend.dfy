/** How many services depend on each one, directly or not, as the image builder counts them; and why
    the image it builds passes the verifier. */
module Descents {
  import opened Counting
  import opened Graphs
  import opened Transposes
  import opened Stops
  import opened Argvs
  import opened Verifiers

  /** A service depends on i through one of the edges of i. */
  lemma DependentStep(g: Graph, i: nat, d: nat)
    requires |g.src| == |g.dst|
    ensures Dependent(g, i, d) <==>
              exists k :: 0 <= k < |g.dst| && g.src[k] == i && (g.dst[k] == d || Dependent(g, g.dst[k], d))
  {
    if Dependent(g, i, d) {
      var path :| Path(g, path, i, d);
      assert Prereq(g, path[0], path[1]);
      var k :| 0 <= k < |g.dst| && g.src[k] == path[0] && g.dst[k] == path[1];
      if |path| > 2 {
        var rest := path[1..];
        forall a | 0 < a < |rest| ensures Prereq(g, rest[a - 1], rest[a]) {
          assert rest[a - 1] == path[a] && rest[a] == path[a + 1];
        }
        assert Path(g, rest, g.dst[k], d);
      }
    }
    forall k | 0 <= k < |g.dst| && g.src[k] == i && (g.dst[k] == d || Dependent(g, g.dst[k], d))
        ensures Dependent(g, i, d) {
      assert Prereq(g, i, g.dst[k]);
      if g.dst[k] == d {
        assert Path(g, [i, d], i, d);
      } else {
        var rest :| Path(g, rest, g.dst[k], d);
        var path := [i] + rest;
        forall a | 0 < a < |path| ensures Prereq(g, path[a - 1], path[a]) {
          if a > 1 {
            assert path[a - 1] == rest[a - 2] && path[a] == rest[a - 1];
          }
        }
        assert Path(g, path, i, d);
      }
    }
  }

  /** Everything that depends on i comes after it. */
  lemma {:induction false} DependentLater(g: Graph, i: nat, d: nat)
    requires Sound(g) && i < |g.svc| && Dependent(g, i, d)
    ensures i < d < |g.svc|
    decreases |g.svc| - i
  {
    DependentStep(g, i, d);
    var k :| 0 <= k < |g.dst| && g.src[k] == i && (g.dst[k] == d || Dependent(g, g.dst[k], d));
    if g.dst[k] != d {
      DependentLater(g, g.dst[k], d);
    }
  }

  ghost function Dependents(g: Graph, i: nat): set<nat>
    requires |g.src| == |g.dst|
  {
    set d | 0 <= d < |g.svc| && Dependent(g, i, d)
  }

  /** The sets of the services from i on are right. */
  ghost predicate Closed(g: Graph, desc: seq<set<nat>>, i: nat)
    requires |g.src| == |g.dst|
  {
    |desc| == |g.svc| && forall x :: i <= x < |g.svc| ==> desc[x] == Dependents(g, x)
  }

  /** Collects the dependents of every service, from the last one down: those of i are its direct
      dependents and theirs. */
  method Collect(g: Graph) returns (desc: seq<set<nat>>)
    requires Sound(g)
    ensures |g.src| == |g.dst| && Closed(g, desc, 0)
  {
    desc := seq(|g.svc|, _ => {});
    var i := |g.svc|;
    while i > 0
      invariant 0 <= i <= |g.svc| && Closed(g, desc, i)
    {
      i := i - 1;
      var own := CollectRow(g, desc, i);
      desc := desc[i := own];
    }
  }

  /** The part of the dependents of i that the edges before `upto` lead to. */
  ghost predicate Through(g: Graph, own: set<nat>, i: nat, upto: nat)
    requires |g.src| == |g.dst|
  {
    forall d :: d in own <==>
      0 <= d < |g.svc| && exists k ::
          0 <= k < upto && k < |g.dst| && g.src[k] == i && (g.dst[k] == d || Dependent(g, g.dst[k], d))
  }

  method CollectRow(g: Graph, desc: seq<set<nat>>, i: nat) returns (own: set<nat>)
    requires Sound(g) && i < |g.svc| && Closed(g, desc, i + 1)
    ensures own == Dependents(g, i)
  {
    RowRange(g, i);
    own := {};
    var j := g.roff[i];
    while j < g.roff[i + 1]
      invariant g.roff[i] <= j <= g.roff[i + 1] && Through(g, own, i, j)
    {
      var d := g.dst[j];
      ThroughStep(g, own, i, j, desc);
      own := own + {d} + desc[d];
      j := j + 1;
    }
    hide Rows, Dependent;
    forall d | 0 <= d < |g.svc| ensures d in own <==> Dependent(g, i, d) {
      DependentStep(g, i, d);
    }
    forall d | d in own ensures 0 <= d < |g.svc| {
    }
  }

  lemma ThroughStep(g: Graph, own: set<nat>, i: nat, j: nat, desc: seq<set<nat>>)
    requires Sound(g) && i < |g.svc| && Closed(g, desc, i + 1) && j < |g.dst| && g.src[j] == i && Through(g, own, i, j)
    ensures Through(g, own + {g.dst[j]} + desc[g.dst[j]], i, j + 1)
  {
    hide Rows, Dependent;
    assert i < g.dst[j] < |g.svc|;
    assert desc[g.dst[j]] == Dependents(g, g.dst[j]);
  }

  // ---------------------------------------------------------------- the counts satisfy the verifier

  /** A service that something depends on has a direct dependent. */
  lemma HasDependents(g: Graph, i: nat)
    requires Sound(g) && i < |g.svc|
    ensures |Dependents(g, i)| > 0 <==> exists j: nat :: j < |g.svc| && Prereq(g, i, j)
  {
    if j: nat :| j < |g.svc| && Prereq(g, i, j) {
      DependentStep(g, i, j);
      assert j in Dependents(g, i);
    }
    if |Dependents(g, i)| > 0 {
      var d :| d in Dependents(g, i);
      DependentStep(g, i, d);
      var k :| 0 <= k < |g.dst| && g.src[k] == i && (g.dst[k] == d || Dependent(g, g.dst[k], d));
      assert Prereq(g, i, g.dst[k]);
    }
  }

  /** A service has more dependents than any of its direct dependents, at least as many as those, and
      no more than there are services after it. */
  lemma CountsFit(g: Graph, i: nat)
    requires Sound(g) && i < |g.svc|
    ensures |Dependents(g, i)| + i < |g.svc|
    ensures forall k :: 0 <= k < |g.dst| && g.src[k] == i ==> |Dependents(g, g.dst[k])| + 1 <= |Dependents(g, i)|
  {
    var all := Dependents(g, i);
    forall d | d in all ensures i < d < |g.svc| {
      DependentLater(g, i, d);
    }
    SpanCard(all, i, |g.svc|);
    forall k | 0 <= k < |g.dst| && g.src[k] == i ensures |Dependents(g, g.dst[k])| + 1 <= |all| {
      var d := g.dst[k];
      var sub := Dependents(g, d);
      forall x | x in sub ensures x in all && x != d {
        DependentStep(g, i, x);
        DependentLater(g, d, x);
      }
      DependentStep(g, i, d);
      assert sub + {d} <= all;
      SubsetCard(sub + {d}, all);
    }
  }

  lemma SpanCard(s: set<nat>, lo: nat, hi: nat)
    requires lo < hi && forall x :: x in s ==> lo < x < hi
    ensures |s| + lo < hi
  {
    var low := Range(lo + 1);
    RangeCard(lo + 1);
    RangeCard(hi);
    assert s + low <= Range(hi);
    SubsetCard(s + low, Range(hi));
    assert s !! low;
  }

  /** Sorted rows list at most all dependents. */
  lemma RowFits(g: Graph, i: nat)
    requires Valid(g) && i < |g.svc|
    ensures g.roff[i] <= g.roff[i + 1] && g.roff[i + 1] - g.roff[i] <= |Dependents(g, i)|
  {
    RowRange(g, i);
    var row := g.dst[g.roff[i]..g.roff[i + 1]];
    RowDistinct(g, i);
    DistinctCard(row);
    RowDepends(g, i);
    hide *;
    SubsetCard(set a | 0 <= a < |row| :: row[a], Dependents(g, i));
  }

  lemma RowDistinct(g: Graph, i: nat)
    requires Valid(g) && i < |g.svc| && g.roff[i] <= g.roff[i + 1] <= |g.dst|
    ensures var row := g.dst[g.roff[i]..g.roff[i + 1]]; forall a, b :: 0 <= a < b < |row| ==> row[a] != row[b]
  {
    RowRange(g, i);
    var row := g.dst[g.roff[i]..g.roff[i + 1]];
    hide Rows;
    forall a, b | 0 <= a < b < |row| ensures row[a] != row[b] {
      var k, l := g.roff[i] + a, g.roff[i] + b;
      assert g.src[k] == i && g.src[l] == i;
      assert g.dst[k] < g.dst[l];
    }
  }

  lemma RowDepends(g: Graph, i: nat)
    requires Sound(g) && i < |g.svc| && g.roff[i] <= g.roff[i + 1] <= |g.dst|
    ensures var row := g.dst[g.roff[i]..g.roff[i + 1]]; (set a | 0 <= a < |row| :: row[a]) <= Dependents(g, i)
  {
    RowRange(g, i);
    var row := g.dst[g.roff[i]..g.roff[i + 1]];
    assert Edges(g);
    hide Rows, Dependent;
    forall a | 0 <= a < |row| ensures row[a] in Dependents(g, i) {
      var k := g.roff[i] + a;
      assert g.src[k] == i && g.dst[k] == row[a];
      DependentStep(g, i, row[a]);
    }
  }

  /** A graph whose edges run forward and are unique has at most n (n - 1) / 2 of them. */
  lemma {:induction false} EdgeBound(g: Graph, i: nat)
    requires Valid(g) && i <= |g.svc|
    ensures |g.roff| == |g.svc| + 1 && 2 * g.roff[i] <= i * (2 * |g.svc| - i - 1)
  {
    if i > 0 {
      EdgeBound(g, i - 1);
      RowFits(g, i - 1);
      CountsFit(g, i - 1);
      var n := |g.svc|;
      assert g.roff[i] <= g.roff[i - 1] + (n - i);
      Triangle(n, i);
    }
  }

  lemma Triangle(n: nat, i: nat)
    requires 0 < i <= n
    ensures (i - 1) * (2 * n - (i - 1) - 1) + 2 * (n - i) == i * (2 * n - i - 1)
  {
  }

  /** The prerequisites of d are fewer than the services before it. */
  lemma DegreeFits(g: Graph, d: nat)
    requires Valid(g) && d < |g.svc|
    ensures InDegree(g.dst, d) <= d
  {
    var ks := EdgesInto(g.dst, d);
    EdgesIntoAll(g.dst, d);
    assert Edges(g);
    var from := seq<nat>(|ks|, m requires 0 <= m < |ks| => g.src[ks[m]]);
    hide Rows, EdgesInto, InDegree;
    assert Below(from, d);
    forall a, b | 0 <= a < b < |from| ensures from[a] != from[b] {
      assert ks[a] < ks[b] && g.dst[ks[a]] == g.dst[ks[b]] == d;
    }
    Pigeonhole(from, d);
  }

  /** An image of a valid graph with exact counts passes the verifier. */
  lemma BuiltIsAccepted(im: Image)
    requires |im.roff| == |im.recs| + 1 && Valid(GraphOf(im)) && |im.recs| <= NG_MAX_SVC
    requires (im.blob == [] || Ended(im.blob)) && NamesDiffer(im)
    requires forall i :: 0 <= i < |im.recs| ==> Exact(im, i)
    ensures Accepts(im)
  {
    var g, n := GraphOf(im), |im.recs|;
    assert Rows(g);
    EdgeBound(g, n);
    hide Rows, RowFine, RecFine, NamesDiffer, Valid;
    forall i | 0 <= i < n ensures RowFine(im, i) && RecFine(im.recs[i], im.blob, n, im.roots, i, RowSize(im, i)) {
      ExactRow(im, i);
      ExactRec(im, i);
    }
    ExactCounts(im);
  }

  /** The count of service i is the number of its dependents, the policy fits it, and the rest of its
      record is fine. */
  ghost predicate Exact(im: Image, i: nat)
    requires |im.roff| == |im.recs| + 1 && i < |im.recs|
  {
    && FieldsFine(im.recs[i], im.blob) && |GraphOf(im).src| == |GraphOf(im).dst|
    && im.recs[i].nDesc == |Dependents(GraphOf(im), i)| && (im.recs[i].policy == 0 ==> im.recs[i].nDesc == 0)
  }

  lemma ExactCounts(im: Image)
    requires |im.roff| == |im.recs| + 1 && Valid(GraphOf(im))
    ensures CountsFine(im) && im.roots <= |im.recs| && im.roff[0] == 0 && im.roff[|im.recs|] == |im.ridx|
  {
    var g := GraphOf(im);
    assert |g.svc| == |im.recs|;
    forall i {:trigger InDegree(im.ridx, i)} | 0 <= i < |im.recs| ensures im.recs[i].unmet == InDegree(im.ridx, i) {
      assert g.svc[i].unmet == InDegree(g.dst, i);
    }
  }

  lemma ExactRow(im: Image, i: nat)
    requires |im.roff| == |im.recs| + 1 && Valid(GraphOf(im)) && i < |im.recs|
    requires forall x :: 0 <= x < |im.recs| ==> Exact(im, x)
    ensures RowFine(im, i)
  {
    var g := GraphOf(im);
    RowRange(g, i);
    CountsFit(g, i);
    hide Rows, Dependents, FieldsFine;
    assert Exact(im, i);
    forall j | im.roff[i] <= j < im.roff[i + 1]
      ensures i < im.ridx[j] < |im.recs| && im.recs[im.ridx[j]].nDesc + 1 <= im.recs[i].nDesc
    {
      assert g.src[j] == i && g.dst[j] == im.ridx[j];
      assert Exact(im, im.ridx[j]);
    }
    forall j, k | im.roff[i] <= j < k < im.roff[i + 1] ensures im.ridx[j] < im.ridx[k] {
      assert g.src[j] == i && g.src[k] == i;
    }
  }

  lemma ExactRec(im: Image, i: nat)
    requires |im.roff| == |im.recs| + 1 && Valid(GraphOf(im)) && i < |im.recs| && Exact(im, i)
    ensures RecFine(im.recs[i], im.blob, |im.recs|, im.roots, i, RowSize(im, i))
  {
    var g := GraphOf(im);
    RowFits(g, i);
    CountsFit(g, i);
    DegreeFits(g, i);
    hide Rows, Dependents, FieldsFine;
    assert g.svc[i].unmet == InDegree(g.dst, i) == im.recs[i].unmet;
  }

  // ---------------------------------------------------------------- finishing an image

  /** What the image says of a service that has or has not been given a policy, by how many depend on
      it; a service others depend on cannot be told to only warn. */
  function PolicyFor(given: bool, policy: nat, dependents: nat): (r: int)
    ensures r == 0 ==> dependents == 0
    ensures r == -1 <==> given && policy == 0 && dependents > 0
  {
    if given then (if policy == 0 && dependents > 0 then -1 else policy)
    else if dependents > 0 then 1 else 0
  }

  /** The policies do not matter for the validity of a graph. */
  lemma SameValid(g: Graph, h: Graph)
    requires Valid(g) && h == g.(svc := h.svc) && |h.svc| == |g.svc|
    requires forall d :: 0 <= d < |h.svc| ==> h.svc[d] == g.svc[d].(onFail := h.svc[d].onFail)
    ensures Valid(h)
  {
    SameRows(g, h);
    hide Rows, Edges;
    forall d {:trigger InDegree(h.dst, d)} | 0 <= d < |h.svc| ensures h.svc[d].unmet == InDegree(h.dst, d) {
      assert g.svc[d].unmet == InDegree(g.dst, d);
    }
    hide InDegree;
    forall d | 0 <= d < |h.svc| ensures WellFormed(h.svc[d]) {
      assert WellFormed(g.svc[d]);
    }
  }

  lemma SameRows(g: Graph, h: Graph)
    requires Rows(g) && Edges(g) && h == g.(svc := h.svc) && |h.svc| == |g.svc|
    ensures Rows(h) && Edges(h)
  {
  }

  lemma SameDependents(g: Graph, h: Graph, x: nat)
    requires |g.src| == |g.dst| && h == g.(svc := h.svc) && |h.svc| == |g.svc|
    ensures Dependents(h, x) == Dependents(g, x)
  {
    forall d ensures Dependent(g, x, d) <==> Dependent(h, x, d) {
      if Dependent(g, x, d) {
        var p :| Path(g, p, x, d);
        SamePath(g, h, p, x, d);
      }
      if Dependent(h, x, d) {
        var p :| Path(h, p, x, d);
        SamePath(g, h, p, x, d);
      }
    }
  }

  lemma SamePath(g: Graph, h: Graph, p: seq<nat>, x: nat, d: nat)
    requires |g.src| == |g.dst| && h == g.(svc := h.svc)
    ensures Path(g, p, x, d) <==> Path(h, p, x, d)
  {
    assert forall a, b :: Prereq(g, a, b) <==> Prereq(h, a, b);
  }

  /** An image whose tables are those of a valid graph holds that graph. */
  lemma DraftHolds(im: Image, g: Graph)
    requires Valid(g) && |im.recs| == |g.svc| && im.roff == g.roff && im.ridx == g.dst && im.roots == g.roots
    requires forall i :: 0 <= i < |im.recs| ==>
               ServiceOf(im.recs[i]) == g.svc[i].(onFail := ServiceOf(im.recs[i]).onFail)
    ensures |im.roff| == |im.recs| + 1 && GraphOf(im) == g.(svc := GraphOf(im).svc) && Valid(GraphOf(im))
  {
    FromsRead(g);
    hide Valid, Froms;
    SameValid(g, GraphOf(im));
  }

  lemma FromsRead(g: Graph)
    requires Valid(g)
    ensures |g.roff| == |g.svc| + 1 && Froms(g.roff, |g.svc|) == g.src
  {
    var n := |g.svc|;
    assert Monotone(g.roff, n);
    FromsAre(g.roff, n);
    var from := Froms(g.roff, n);
    hide Froms, Edges;
    forall k | 0 <= k < |from| ensures from[k] == g.src[k] {
    }
  }
}
