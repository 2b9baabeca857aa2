/** From the services and their dependencies to the graph the supervisor runs. */
module Compiles {
  import opened Counting
  import opened Graphs
  import opened Transposes
  import opened EdgeLists
  import opened Visits
  import opened Heaps
  import opened Schedules

  // ---------------------------------------------------------------- rows

  /** The offsets are where the rows of the sorted edges start. */
  ghost predicate Offsets(n: nat, es: seq<Edge>, off: seq<nat>) {
    && |off| == n + 1 && Sorted(es)
    && (forall k :: 0 <= k < |es| ==> es[k].a < n && es[k].b < n)
    && (forall i :: 0 <= i <= n ==> off[i] == Before(Sources(es), i))
  }

  lemma RowsOf(g: Graph, es: seq<Edge>)
    requires Holds(g, es)
    ensures Rows(g) && Wired(g)
  {
    SourcesAscend(es);
    var src, n := g.src, |g.svc|;
    forall j: nat | j <= n
        ensures Before(src, j) <= |src| && forall k :: 0 <= k < |src| ==> (src[k] < j <==> k < g.roff[j]) {
      BeforeSplits(src, j);
    }
    BeforeAll(src, n);
    forall i, j | 0 <= i <= j <= n ensures g.roff[i] <= g.roff[j] {
      if i < j {
        BeforeGrows(src, i, j);
      }
    }
    hide Before;
    forall k | 0 <= k < |src| ensures g.roff[src[k]] <= k < g.roff[src[k] + 1] {
      assert !(src[k] < src[k]) && src[k] < src[k] + 1;
    }
    forall j, k | 0 <= j < n && g.roff[j] <= k < g.roff[j + 1] ensures src[k] == j {
      assert k < |src|;
      assert !(src[k] < j) && src[k] < j + 1;
    }
  }

  // ---------------------------------------------------------------- counting prerequisites

  ghost function EdgesTo(es: seq<Edge>, d: nat): set<Edge> {
    set e | e in es && e.b == d
  }

  lemma EdgesToMore(es: seq<Edge>, e: Edge, d: nat)
    requires e !in es
    ensures |EdgesTo(es + [e], d)| == |EdgesTo(es, d)| + if e.b == d then 1 else 0
  {
    if e.b == d {
      assert EdgesTo(es + [e], d) == EdgesTo(es, d) + {e};
    } else {
      assert EdgesTo(es + [e], d) == EdgesTo(es, d);
    }
  }

  lemma TargetsInit(es: seq<Edge>)
    requires es != []
    ensures Targets(es)[..|es| - 1] == Targets(es[..|es| - 1]) && Targets(es)[|es| - 1] == es[|es| - 1].b
  {
  }

  lemma {:induction false} DegreeIsCard(es: seq<Edge>, d: nat)
    requires Single(es)
    ensures InDegree(Targets(es), d) == |EdgesTo(es, d)|
    decreases |es|
  {
    if es == [] {
      assert EdgesTo(es, d) == {};
    } else {
      var init, last := es[..|es| - 1], es[|es| - 1];
      assert es == init + [last];
      DegreeIsCard(init, d);
      TargetsInit(es);
      EdgesToMore(init, last, d);
      assert last !in init;
      hide EdgesTo, Targets;
    }
  }

  lemma StrictIsSingle(es: seq<Edge>)
    requires Strict(es)
    ensures Single(es) && Sorted(es)
  {
  }

  // ---------------------------------------------------------------- renaming

  /** `inv` gives the place of each service in `order`. */
  ghost predicate Inverse(order: seq<nat>, inv: seq<nat>) {
    && |order| == |inv| && Below(order, |order|) && Below(inv, |order|)
    && (forall i :: 0 <= i < |order| ==> inv[order[i]] == i)
    && (forall v :: 0 <= v < |inv| ==> order[inv[v]] == v)
  }

  function Renamed(es: seq<Edge>, inv: seq<nat>): (r: seq<Edge>)
    requires forall k :: 0 <= k < |es| ==> es[k].a < |inv| && es[k].b < |inv|
    ensures |r| == |es| && forall k :: 0 <= k < |r| ==> r[k] == Edge(inv[es[k].a], inv[es[k].b])
  {
    seq(|es|, k requires 0 <= k < |es| => Edge(inv[es[k].a], inv[es[k].b]))
  }

  /** An edge between two places is there exactly if it was there between the services. */
  lemma RenamedHas(es: seq<Edge>, order: seq<nat>, inv: seq<nat>, i: nat, j: nat)
    requires Inverse(order, inv) && forall k :: 0 <= k < |es| ==> es[k].a < |inv| && es[k].b < |inv|
    requires i < |order| && j < |order|
    ensures Edge(i, j) in Renamed(es, inv) <==> Edge(order[i], order[j]) in es
  {
    var r := Renamed(es, inv);
    if Edge(i, j) in r {
      var k :| 0 <= k < |r| && r[k] == Edge(i, j);
      assert es[k] == Edge(order[i], order[j]);
    }
    if Edge(order[i], order[j]) in es {
      var k :| 0 <= k < |es| && es[k] == Edge(order[i], order[j]);
      assert r[k] == Edge(i, j);
    }
  }

  lemma RenamedSingle(es: seq<Edge>, order: seq<nat>, inv: seq<nat>)
    requires Inverse(order, inv) && Single(es) && forall k :: 0 <= k < |es| ==> es[k].a < |inv| && es[k].b < |inv|
    ensures Single(Renamed(es, inv))
  {
    var r := Renamed(es, inv);
    forall i, j | 0 <= i < j < |r| ensures r[i] != r[j] {
      assert order[inv[es[i].a]] == es[i].a && order[inv[es[j].a]] == es[j].a;
      assert order[inv[es[i].b]] == es[i].b && order[inv[es[j].b]] == es[j].b;
    }
  }

  /** Renaming keeps the number of prerequisites. */
  lemma RenamedDegree(es: seq<Edge>, fs: seq<Edge>, order: seq<nat>, inv: seq<nat>, i: nat)
    requires Inverse(order, inv) && Single(es) && Single(fs) && i < |order|
    requires forall k :: 0 <= k < |es| ==> es[k].a < |inv| && es[k].b < |inv|
    requires Set(fs) == Set(Renamed(es, inv))
    ensures InDegree(Targets(fs), i) == InDegree(Targets(es), order[i])
  {
    DegreeIsCard(es, order[i]);
    DegreeIsCard(fs, i);
    var a, b := EdgesTo(es, order[i]), EdgesTo(fs, i);
    var f := (e: Edge) => if e.a < |inv| && e.b < |inv| then Edge(inv[e.a], inv[e.b]) else e;
    forall e | e in a ensures f(e) in b {
      var k :| 0 <= k < |es| && es[k] == e;
      assert Renamed(es, inv)[k] == f(e);
      assert f(e) in Set(Renamed(es, inv));
      assert f(e) in Set(fs);
    }
    forall e | e in b ensures exists x :: x in a && f(x) == e {
      assert e in Set(fs);
      assert e in Renamed(es, inv);
      var k :| 0 <= k < |es| && Renamed(es, inv)[k] == e;
      assert es[k] in a && f(es[k]) == e;
    }
    forall x, y | x in a && y in a && f(x) == f(y) ensures x == y {
      assert x in es && y in es;
      assert order[inv[x.a]] == x.a && order[inv[y.a]] == y.a && order[inv[x.b]] == x.b && order[inv[y.b]] == y.b;
    }
    SameCard(a, b, f);
  }

  lemma {:induction false} SameCard(a: set<Edge>, b: set<Edge>, f: Edge -> Edge)
    requires forall x :: x in a ==> f(x) in b
    requires forall y :: y in b ==> exists x :: x in a && f(x) == y
    requires forall x, y :: x in a && y in a && f(x) == f(y) ==> x == y
    ensures |a| == |b|
    decreases a
  {
    if a == {} {
      assert forall y :: y !in b;
    } else {
      var x :| x in a;
      var a', b' := a - {x}, b - {f(x)};
      forall y | y in b' ensures exists z :: z in a' && f(z) == y {
        var z :| z in a && f(z) == y;
        assert z in a';
      }
      SameCard(a', b', f);
    }
  }

  // ---------------------------------------------------------------- the roots come first

  ghost function Roots(indeg: seq<nat>, n: nat): set<nat>
    requires n <= |indeg|
  {
    set v | 0 <= v < n && indeg[v] == 0
  }

  /** What has no prerequisites is placed before everything that has. */
  lemma RootsPrecede(g: Graph, o: Order, order: seq<nat>, a: nat, b: nat)
    requires Wired(g) && Greedy(g, o, order) && |o.indeg| == |o.height| == |g.svc| && a < b < |order|
    requires forall v {:trigger InDegree(g.dst, v)} :: 0 <= v < |g.svc| ==> o.indeg[v] == InDegree(g.dst, v)
    ensures order[a] < |g.svc| && order[b] < |g.svc| && (o.indeg[order[b]] == 0 ==> o.indeg[order[a]] == 0)
  {
    GreedyForward(g, o, order);
    hide Rows;
    if o.indeg[order[b]] == 0 {
      assert o.indeg[order[b]] == InDegree(g.dst, order[b]);
      NoEdgeTo(g.dst, order[b]);
      assert IsReady(g, order[..a], order[b]);
      assert IsNext(g, o, order[..a], order[a]);
      assert Leq(o, order[a], order[b]);
    }
  }

  lemma {:induction false} NoEdgeTo(dst: seq<nat>, d: nat)
    requires InDegree(dst, d) == 0
    ensures forall k :: 0 <= k < |dst| ==> dst[k] != d
    decreases |dst|
  {
    if dst != [] {
      NoEdgeTo(dst[..|dst| - 1], d);
      assert forall k :: 0 <= k < |dst| - 1 ==> dst[k] == dst[..|dst| - 1][k];
    }
  }

  lemma {:induction false} SomeDegree(dst: seq<nat>, k: nat)
    requires k < |dst|
    ensures InDegree(dst, dst[k]) > 0
    decreases |dst|
  {
    if k < |dst| - 1 {
      SomeDegree(dst[..|dst| - 1], k);
      assert dst[..|dst| - 1][k] == dst[k];
    }
  }

  /** If the roots come first in the order, they are its first entries. */
  lemma {:induction false} RootsAre(indeg: seq<nat>, order: seq<nat>, n: nat)
    requires Distinct(order) && Below(order, |indeg|) && |order| == |indeg| && n == |Roots(indeg, |indeg|)|
    requires forall v :: 0 <= v < |indeg| ==> v in order
    requires forall a, b :: 0 <= a < b < |order| && indeg[order[b]] == 0 ==> indeg[order[a]] == 0
    ensures n <= |order| && forall k :: 0 <= k < |order| ==> (indeg[order[k]] == 0 <==> k < n)
  {
    var r := 0;
    while r < |order| && indeg[order[r]] == 0
      invariant 0 <= r <= |order| && forall k :: 0 <= k < r ==> indeg[order[k]] == 0
    {
      r := r + 1;
    }
    var s := order[..r];
    DistinctCard(s);
    var e := set a | 0 <= a < |s| :: s[a];
    forall v ensures v in e <==> v in Roots(indeg, |indeg|) {
      if v in Roots(indeg, |indeg|) {
        assert v in order;
        var k :| 0 <= k < |order| && order[k] == v;
        assert k < r;
        assert s[k] == v;
      }
    }
    assert e == Roots(indeg, |indeg|);
  }

  method CountRoots(indeg: seq<nat>) returns (n: nat)
    ensures n == |Roots(indeg, |indeg|)|
  {
    n := 0;
    var i := 0;
    assert Roots(indeg, 0) == {};
    while i < |indeg|
      invariant 0 <= i <= |indeg| && n == |Roots(indeg, i)|
    {
      if indeg[i] == 0 {
        assert Roots(indeg, i + 1) == Roots(indeg, i) + {i};
        n := n + 1;
      } else {
        assert Roots(indeg, i + 1) == Roots(indeg, i);
      }
      i := i + 1;
    }
  }

  method Invert(order: seq<nat>) returns (inv: array<nat>)
    requires Distinct(order) && Below(order, |order|)
    ensures fresh(inv) && inv.Length == |order| && forall i :: 0 <= i < |order| ==> inv[order[i]] == i
  {
    inv := new nat[|order|](_ => 0);
    var i := 0;
    while i < |order|
      invariant 0 <= i <= |order| && forall j :: 0 <= j < i ==> inv[order[j]] == j
    {
      inv[order[i]] := i;
      i := i + 1;
    }
  }

  lemma InverseOf(order: seq<nat>, inv: seq<nat>)
    requires Distinct(order) && Below(order, |order|) && |inv| == |order| && forall i :: 0 <= i < |order| ==>
               inv[order[i]] == i
    ensures Inverse(order, inv) && forall v :: 0 <= v < |order| ==> v in order
  {
    forall v | 0 <= v < |order| ensures v in order {
      if v !in order {
        Pigeonhole(order, |order|);
      }
    }
    forall v | 0 <= v < |inv| ensures inv[v] < |order| && order[inv[v]] == v {
      assert v in order;
      var i :| 0 <= i < |order| && order[i] == v;
      assert inv[order[i]] == i;
    }
  }

  // ---------------------------------------------------------------- the compiler

  /** The records in their new places, with the number of their prerequisites. */
  function Placed(svc: seq<Service>, order: seq<nat>, indeg: seq<nat>): (r: seq<Service>)
    requires |svc| == |indeg| && forall i :: 0 <= i < |order| ==> order[i] < |svc|
    ensures |r| == |order| && forall i :: 0 <= i < |r| ==> r[i] == svc[order[i]].(unmet := indeg[order[i]])
  {
    seq(|order|, i requires 0 <= i < |order| => svc[order[i]].(unmet := indeg[order[i]]))
  }

  /** An edge list is what the rows of g hold. */
  ghost predicate Holds(g: Graph, es: seq<Edge>) {
    && Strict(es) && Offsets(|g.svc|, es, g.roff) && g.src == Sources(es) && g.dst == Targets(es)
  }

  lemma HasEdge(g: Graph, es: seq<Edge>, i: nat, j: nat)
    requires Holds(g, es)
    ensures |g.src| == |g.dst| && (Prereq(g, i, j) <==> Edge(i, j) in es)
  {
    if Edge(i, j) in es {
      var k :| 0 <= k < |es| && es[k] == Edge(i, j);
      assert g.src[k] == i && g.dst[k] == j;
    }
    if Prereq(g, i, j) {
      var k :| 0 <= k < |g.dst| && g.src[k] == i && g.dst[k] == j;
      assert es[k] == Edge(i, j);
    }
  }

  /** The renamed graph is valid: its edges run forward, its rows are sorted, every counter is the number
      of prerequisites, and the roots are its first services. */
  lemma PlacedValid(g: Graph, es: seq<Edge>, o: Order, order: seq<nat>, inv: seq<nat>, h: Graph, fs: seq<Edge>)
    requires Holds(g, es) && Greedy(g, o, order) && |order| == |g.svc| == |o.indeg| == |o.height| && Inverse(order, inv)
    requires forall v {:trigger InDegree(g.dst, v)} :: 0 <= v < |g.svc| ==> o.indeg[v] == InDegree(g.dst, v)
    requires forall v :: 0 <= v < |g.svc| ==> WellFormed(g.svc[v])
    requires Holds(h, fs) && Set(fs) == Set(Renamed(es, inv)) && h.svc == Placed(g.svc, order, o.indeg)
    requires h.roots <= |order| && forall k :: 0 <= k < |order| ==> (o.indeg[order[k]] == 0 <==> k < h.roots)
    ensures Valid(h)
  {
    RowsOf(h, fs);
    StrictIsSingle(es);
    StrictIsSingle(fs);
    forall d {:trigger InDegree(h.dst, d)} | 0 <= d < |h.svc| ensures h.svc[d].unmet == InDegree(h.dst, d) {
      RenamedDegree(es, fs, order, inv, d);
    }
    forall k | 0 <= k < |h.dst| ensures h.src[k] < h.dst[k] < |h.svc| && h.roots <= h.dst[k] {
      ForwardEdge(g, es, o, order, inv, fs[k], fs);
      SomeDegree(h.dst, k);
      assert h.svc[h.dst[k]].unmet == InDegree(h.dst, h.dst[k]);
    }
    hide Rows, Before;
    forall d | 0 <= d < |h.svc| ensures WellFormed(h.svc[d]) {
      assert WellFormed(g.svc[order[d]]);
    }
  }

  lemma ForwardEdge(g: Graph, es: seq<Edge>, o: Order, order: seq<nat>, inv: seq<nat>, f: Edge, fs: seq<Edge>)
    requires Holds(g, es) && Greedy(g, o, order) && |order| == |g.svc| && Inverse(order, inv)
    requires f in fs && Set(fs) == Set(Renamed(es, inv))
    ensures f.a < f.b < |order|
  {
    GreedyForward(g, o, order);
    assert f in Set(fs);
    assert f in Renamed(es, inv);
    var k :| 0 <= k < |es| && Renamed(es, inv)[k] == f;
    assert g.src[k] == es[k].a && g.dst[k] == es[k].b;
    assert order[f.b] == g.dst[k];
    assert g.src[k] in order[..f.b];
    var j :| 0 <= j < f.b && order[..f.b][j] == g.src[k];
    assert order[j] == es[k].a && inv[order[j]] == j;
  }

  /** What the compiler makes of its input. */
  datatype Compiled = Cyclic(cycle: seq<nat>) | Built(graph: Graph, order: seq<nat>)

  /** A cycle among the edges that were asked for. */
  ghost predicate RealCycle(raw: seq<Edge>, c: seq<nat>) {
    |c| >= 2 && c[0] == c[|c| - 1] && forall a :: 0 < a < |c| ==> Edge(c[a - 1], c[a]) in raw
  }

  /** The graph has the same services and the same edges under the names of their places. */
  ghost predicate Same(svc: seq<Service>, raw: seq<Edge>, g: Graph, order: seq<nat>) {
    && |g.svc| == |order| == |svc| && |g.src| == |g.dst| && Distinct(order) && Below(order, |svc|)
    && (forall i :: 0 <= i < |order| ==> g.svc[i] == svc[order[i]].(unmet := g.svc[i].unmet))
    && (forall i: nat, j: nat :: i < |order| && j < |order| ==> (Prereq(g, i, j) <==> Edge(order[i], order[j]) in raw))
  }

  /** A cycle that was asked for, or a valid graph with the same services and edges, and then no cycle. */
  ghost predicate Right(svc: seq<Service>, raw: seq<Edge>, r: Compiled) {
    match r
    case Cyclic(c) => RealCycle(raw, c)
    case Built(g, order) => Valid(g) && Same(svc, raw, g, order) && !exists c :: RealCycle(raw, c)
  }

  /** Sorts the edges, drops the repeated ones and lays them out in rows. */
  method Link(svc: seq<Service>, raw: seq<Edge>) returns (g: Graph, es: seq<Edge>, indeg: seq<nat>)
    requires forall k :: 0 <= k < |raw| ==> raw[k].a < |svc| && raw[k].b < |svc|
    ensures Holds(g, es) && g.svc == svc && Set(es) == Set(raw) && |indeg| == |svc|
    ensures forall d {:trigger InDegree(g.dst, d)} :: 0 <= d < |svc| ==> indeg[d] == InDegree(g.dst, d)
  {
    var sorted := Sort(raw);
    SortKeeps(raw);
    hide Sort, Sorted, Strict, InDegree;
    var arr := new Edge[|sorted|](i requires 0 <= i < |sorted| => sorted[i]);
    assert arr[..] == sorted;
    var m := Dedup(arr);
    es := arr[..m];
    StrictIsSingle(es);
    InRange(es, raw, |svc|);
    g, indeg := Layout(svc, 0, es);
  }

  lemma InRange(es: seq<Edge>, raw: seq<Edge>, n: nat)
    requires Set(es) == Set(raw) && forall k :: 0 <= k < |raw| ==> raw[k].a < n && raw[k].b < n
    ensures forall k :: 0 <= k < |es| ==> es[k].a < n && es[k].b < n
  {
    forall k | 0 <= k < |es| ensures es[k].a < n && es[k].b < n {
      assert es[k] in Set(es);
    }
  }

  /** A graph with these services and these edges. */
  method Layout(svc: seq<Service>, roots: nat, es: seq<Edge>) returns (g: Graph, indeg: seq<nat>)
    requires Strict(es) && forall k :: 0 <= k < |es| ==> es[k].a < |svc| && es[k].b < |svc|
    ensures Holds(g, es) && g.svc == svc && g.roots == roots && |indeg| == |svc|
    ensures forall d {:trigger InDegree(g.dst, d)} :: 0 <= d < |svc| ==> indeg[d] == InDegree(g.dst, d)
  {
    StrictIsSingle(es);
    hide Sorted, Strict, InDegree, Before, Sources, Targets;
    var off, idx, deg := BuildRows(|svc|, es);
    indeg := deg[..];
    g := Graph(svc, roots, off[..], Sources(es), idx[..]);
  }

  /** Orders a graph without cycles and renames its services by their places. */
  method Arrange(g: Graph, es: seq<Edge>, o: Order)
      returns (h: Graph, order: seq<nat>, ghost inv: seq<nat>, ghost fs: seq<Edge>)
    requires Holds(g, es) && |o.indeg| == |o.height| == |g.svc| && Descends(g, o.height)
    requires forall v {:trigger InDegree(g.dst, v)} :: 0 <= v < |g.svc| ==> o.indeg[v] == InDegree(g.dst, v)
    requires forall v :: 0 <= v < |g.svc| ==> WellFormed(g.svc[v])
    ensures Valid(h) && Holds(h, fs) && |order| == |g.svc| && Distinct(order)
    ensures Below(order, |order|) && Inverse(order, inv)
    ensures h.svc == Placed(g.svc, order, o.indeg)
    ensures (forall k :: 0 <= k < |es| ==> es[k].a < |inv| && es[k].b < |inv|) && Set(fs) == Set(Renamed(es, inv))
  {
    hide *;
    RowsOf(g, es);
    order := Schedule(g, o);
    GreedyForward(g, o, order);
    Ranges(order, |g.svc|);
    var at := Invert(order);
    inv := at[..];
    InverseOf(order, inv);
    var n := CountRoots(o.indeg);
    forall a, b | 0 <= a < b < |order| && o.indeg[order[b]] == 0 ensures o.indeg[order[a]] == 0 {
      RootsPrecede(g, o, order, a, b);
    }
    RootsAre(o.indeg, order, n);
    EdgesFit(g, es);
    var renamed := Renamed(es, at[..]);
    HoldsSingle(g, es);
    RenamedSingle(es, order, inv);
    SortKeeps(renamed);
    var sorted := Sort(renamed);
    fs := sorted;
    RenamedFits(es, inv, |order|);
    InRange(sorted, renamed, |order|);
    var counts;
    h, counts := Layout(Placed(g.svc, order, o.indeg), n, sorted);
    PlacedValid(g, es, o, order, inv, h, sorted);
  }

  lemma Ranges(order: seq<nat>, n: nat)
    requires Below(order, n)
    ensures forall i :: 0 <= i < |order| ==> order[i] < n
  {
  }

  lemma EdgesFit(g: Graph, es: seq<Edge>)
    requires Holds(g, es)
    ensures forall k :: 0 <= k < |es| ==> es[k].a < |g.svc| && es[k].b < |g.svc|
  {
  }

  lemma HoldsSingle(g: Graph, es: seq<Edge>)
    requires Holds(g, es)
    ensures Single(es)
  {
  }

  lemma RenamedFits(es: seq<Edge>, inv: seq<nat>, n: nat)
    requires Below(inv, n) && forall k :: 0 <= k < |es| ==> es[k].a < |inv| && es[k].b < |inv|
    ensures forall k :: 0 <= k < |es| ==> Renamed(es, inv)[k].a < n && Renamed(es, inv)[k].b < n
  {
  }

  /** Compiles services and their dependencies. The result is a cycle of what was asked for, or the same
      services and edges in an order the supervisor can run. */
  method Compile(svc: seq<Service>, raw: seq<Edge>) returns (r: Compiled)
    requires forall k :: 0 <= k < |raw| ==> raw[k].a < |svc| && raw[k].b < |svc|
    requires forall v :: 0 <= v < |svc| ==> WellFormed(svc[v])
    ensures Right(svc, raw, r)
  {
    hide *;
    var g, es, indeg := Link(svc, raw);
    RowsOf(g, es);
    var search := new Search(g);
    var cycle := search.Run();
    if cycle != [] {
      CycleIsReal(g, es, raw, cycle);
      r := Cyclic(cycle);
      IsRight(svc, raw, r);
      return;
    }
    var h, order;
    ghost var inv, fs;
    h, order, inv, fs := Arrange(g, es, Order(indeg, search.height));
    IsSame(g, es, raw, indeg, h, order, inv, fs);
    forall c ensures !RealCycle(raw, c) {
      RealIsCycle(g, es, raw, c);
    }
    r := Built(h, order);
    IsRight(svc, raw, r);
  }

  lemma IsRight(svc: seq<Service>, raw: seq<Edge>, r: Compiled)
    ensures r.Cyclic? && RealCycle(raw, r.cycle) ==> Right(svc, raw, r)
    ensures r.Built? && Valid(r.graph) && Same(svc, raw, r.graph, r.order) && (forall c :: !RealCycle(raw, c)) ==>
              Right(svc, raw, r)
  {
  }

  lemma CycleIsReal(g: Graph, es: seq<Edge>, raw: seq<Edge>, c: seq<nat>)
    requires Holds(g, es) && Set(es) == Set(raw) && |g.src| == |g.dst| && Cycle(g, c)
    ensures RealCycle(raw, c)
  {
    forall a | 0 < a < |c| ensures Edge(c[a - 1], c[a]) in raw {
      HasEdge(g, es, c[a - 1], c[a]);
      assert Prereq(g, c[a - 1], c[a]);
      assert Edge(c[a - 1], c[a]) in Set(es);
    }
  }

  lemma RealIsCycle(g: Graph, es: seq<Edge>, raw: seq<Edge>, c: seq<nat>)
    requires Holds(g, es) && Set(es) == Set(raw) && |g.src| == |g.dst| && !Cycle(g, c)
    ensures !RealCycle(raw, c)
  {
    if |c| >= 2 && c[0] == c[|c| - 1] {
      assert !Chain(g, c);
      var a :| 0 < a < |c| && !Prereq(g, c[a - 1], c[a]);
      HasEdge(g, es, c[a - 1], c[a]);
      assert Edge(c[a - 1], c[a]) in raw <==> Edge(c[a - 1], c[a]) in Set(raw);
    }
  }

  lemma IsSame(g: Graph, es: seq<Edge>, raw: seq<Edge>, indeg: seq<nat>, h: Graph, order: seq<nat>, inv: seq<nat>,
               fs: seq<Edge>)
    requires Holds(g, es) && Set(es) == Set(raw) && |indeg| == |g.svc| == |order|
    requires Distinct(order) && Below(order, |order|)
    requires Inverse(order, inv) && Holds(h, fs) && h.svc == Placed(g.svc, order, indeg)
    requires (forall k :: 0 <= k < |es| ==> es[k].a < |inv| && es[k].b < |inv|) && Set(fs) == Set(Renamed(es, inv))
    ensures Same(g.svc, raw, h, order)
  {
    HasEdge(h, fs, 0, 0);
    forall i: nat, j: nat | i < |order| && j < |order| ensures Prereq(h, i, j) <==> Edge(order[i], order[j]) in raw {
      HasEdge(h, fs, i, j);
      RenamedHas(es, order, inv, i, j);
      assert Edge(i, j) in fs <==> Edge(i, j) in Set(fs);
      assert Edge(i, j) in Renamed(es, inv) <==> Edge(i, j) in Set(Renamed(es, inv));
      assert Edge(order[i], order[j]) in es <==> Edge(order[i], order[j]) in Set(es);
      assert Edge(order[i], order[j]) in raw <==> Edge(order[i], order[j]) in Set(raw);
    }
    hide Holds, Prereq, Renamed;
  }
}
