/** The order of the services in the compiled graph. */
module Schedules {
  import opened Counting
  import opened Graphs
  import opened Ledgers
  import opened Visits
  import opened Heaps

  // ---------------------------------------------------------------- the simple form

  /** v has not been placed, and everything it waits for has. */
  ghost predicate IsReady(g: Graph, placed: seq<nat>, v: nat) {
    && v < |g.svc| && v !in placed && |g.src| == |g.dst|
    && forall k :: 0 <= k < |g.dst| && g.dst[k] == v ==> g.src[k] in placed
  }

  /** v is the most urgent of the services that are ready. */
  ghost predicate IsNext(g: Graph, o: Order, placed: seq<nat>, v: nat) {
    IsReady(g, placed, v) && forall y: nat :: IsReady(g, placed, y) ==> Leq(o, v, y)
  }

  /** Each time the most urgent ready service was placed. */
  ghost predicate Greedy(g: Graph, o: Order, order: seq<nat>) {
    forall k :: 0 <= k < |order| ==> IsNext(g, o, order[..k], order[k])
  }

  lemma GreedyMore(g: Graph, o: Order, order: seq<nat>, v: nat)
    requires Greedy(g, o, order) && IsNext(g, o, order, v)
    ensures Greedy(g, o, order + [v])
  {
    var r := order + [v];
    forall k | 0 <= k < |r| ensures IsNext(g, o, r[..k], r[k]) {
      assert r[..k] == if k < |order| then order[..k] else order;
    }
  }

  /** Nobody is placed twice, and every edge runs forward. */
  lemma GreedyForward(g: Graph, o: Order, order: seq<nat>)
    requires Greedy(g, o, order)
    ensures Distinct(order) && Below(order, |g.svc|)
    ensures forall k, j :: 0 <= k < |g.src| == |g.dst| && 0 <= j < |order| && order[j] == g.dst[k] ==>
              g.src[k] in order[..j]
  {
    forall a | 0 <= a < |order| ensures order[a] < |g.svc| && order[a] !in order[..a] {
      assert IsNext(g, o, order[..a], order[a]);
    }
    forall a, b | 0 <= a < b < |order| ensures order[a] != order[b] {
      assert order[..b][a] == order[a];
    }
    forall k, j | 0 <= k < |g.src| == |g.dst| && 0 <= j < |order| && order[j] == g.dst[k]
        ensures g.src[k] in order[..j] {
      assert IsNext(g, o, order[..j], order[j]);
    }
  }

  /** The order is determined by the graph. */
  lemma {:induction false} GreedyUnique(g: Graph, o: Order, a: seq<nat>, b: seq<nat>)
    requires Greedy(g, o, a) && Greedy(g, o, b) && |a| == |b| && |o.indeg| == |o.height| == |g.svc|
    ensures a == b
    decreases |a|
  {
    if a != [] {
      var n := |a| - 1;
      GreedyLess(g, o, a);
      GreedyLess(g, o, b);
      GreedyUnique(g, o, a[..n], b[..n]);
      assert IsNext(g, o, a[..n], a[n]) && IsNext(g, o, b[..n], b[n]);
      LeqTotal(o, a[n], b[n]);
      LeqTotal(o, b[n], a[n]);
      assert a == a[..n] + [a[n]] && b == b[..n] + [b[n]];
    }
  }

  lemma GreedyLess(g: Graph, o: Order, a: seq<nat>)
    requires Greedy(g, o, a) && a != []
    ensures Greedy(g, o, a[..|a| - 1])
  {
    var c := a[..|a| - 1];
    forall k | 0 <= k < |c| ensures IsNext(g, o, c[..k], c[k]) {
      assert c[..k] == a[..k] && c[k] == a[k];
    }
  }

  /** Without cycles, some service is ready as long as one is left. */
  lemma {:induction false} SomeReady(g: Graph, height: seq<nat>, placed: seq<nat>, v: nat, top: nat) returns (r: nat)
    requires Wired(g) && Descends(g, height) && v < |g.svc| && v !in placed
    requires forall x :: 0 <= x < |height| ==> height[x] <= top
    ensures IsReady(g, placed, r)
    decreases top - height[v]
  {
    hide Rows;
    if forall k :: 0 <= k < |g.dst| && g.dst[k] == v ==> g.src[k] in placed {
      r := v;
    } else {
      var k :| 0 <= k < |g.dst| && g.dst[k] == v && g.src[k] !in placed;
      r := SomeReady(g, height, placed, g.src[k], top);
    }
  }

  lemma {:induction false} Highest(height: seq<nat>) returns (top: nat)
    ensures forall x :: 0 <= x < |height| ==> height[x] <= top
  {
    if height == [] {
      top := 0;
    } else {
      var n := |height| - 1;
      var t := Highest(height[..n]);
      top := if t < height[n] then height[n] else t;
      assert forall x :: 0 <= x < n ==> height[x] == height[..n][x];
    }
  }

  lemma AllPlaced(order: seq<nat>, n: nat)
    requires Distinct(order) && Below(order, n) && forall v :: 0 <= v < n ==> v in order
    ensures |order| == n
  {
    DistinctCard(order);
    RangeCard(n);
    var s := set a | 0 <= a < |order| :: order[a];
    forall x: nat ensures x in s <==> x in Range(n) {
      if x < n {
        assert x in order;
        var a :| 0 <= a < |order| && order[a] == x;
        assert order[a] in s;
      }
    }
    assert s == Range(n);
  }

  // ---------------------------------------------------------------- counting down

  /** Every edge holds its dependent back until its prerequisite is placed; the edges in `done` do not. */
  ghost predicate Waiting(g: Graph, placed: seq<nat>, done: set<nat>, owe: seq<nat>, left: seq<nat>) {
    && |g.src| == |g.dst| == |owe| && |left| == |g.svc|
    && (forall k :: 0 <= k < |owe| ==> owe[k] == if g.src[k] in placed || k in done then 0 else 1)
    && (forall v {:trigger Owed(g.dst, owe, v)} :: 0 <= v < |left| ==> left[v] == Owed(g.dst, owe, v))
  }

  lemma WaitingStarts(g: Graph, left: seq<nat>) returns (owe: seq<nat>)
    requires Wired(g) && |left| == |g.svc| && forall v {:trigger InDegree(g.dst, v)} :: 0 <= v < |left| ==>
               left[v] == InDegree(g.dst, v)
    ensures Waiting(g, [], {}, owe, left)
  {
    owe := seq(|g.dst|, _ => 1);
    forall v {:trigger Owed(g.dst, owe, v)} | 0 <= v < |left| ensures left[v] == Owed(g.dst, owe, v) {
      OwedOnes(g.dst, owe, v);
    }
  }

  lemma WaitingStep(g: Graph, placed: seq<nat>, done: set<nat>, owe: seq<nat>, left: seq<nat>, k: nat)
    requires Waiting(g, placed, done, owe, left) && k < |g.src| == |g.dst|
    requires g.dst[k] < |left| && g.src[k] !in placed && k !in done
    ensures |owe| == |g.dst| && left[g.dst[k]] > 0
    ensures Waiting(g, placed, done + {k}, owe[k := 0], left[g.dst[k] := left[g.dst[k]] - 1])
  {
    OwedAtLeast(g.dst, owe, k);
    forall v {:trigger Owed(g.dst, owe[k := 0], v)} | 0 <= v < |left|
      ensures left[g.dst[k] := left[g.dst[k]] - 1][v] == Owed(g.dst, owe[k := 0], v)
    {
      OwedUpdate(g.dst, owe, k, 0, v);
    }
  }

  lemma WaitingEnds(g: Graph, placed: seq<nat>, done: set<nat>, owe: seq<nat>, left: seq<nat>, v: nat)
    requires Waiting(g, placed, done, owe, left)
    requires forall k :: 0 <= k < |g.src| ==> (k in done <==> g.src[k] == v)
    ensures Waiting(g, placed + [v], {}, owe, left)
  {
  }

  /** A counter is zero exactly if everything before the service is placed. */
  lemma ZeroIsReady(g: Graph, placed: seq<nat>, owe: seq<nat>, left: seq<nat>, v: nat)
    requires Waiting(g, placed, {}, owe, left) && v < |left|
    ensures left[v] == 0 && v !in placed <==> IsReady(g, placed, v)
  {
    if left[v] == 0 {
      forall k | 0 <= k < |g.dst| && g.dst[k] == v ensures g.src[k] in placed {
        OwedAtLeast(g.dst, owe, k);
      }
    }
    if IsReady(g, placed, v) {
      OwedZeros(g.dst, owe, v);
    }
  }

  lemma {:induction false} OwedZeros(dst: seq<nat>, owe: seq<nat>, d: nat)
    requires |owe| == |dst| && forall k :: 0 <= k < |dst| && dst[k] == d ==> owe[k] == 0
    ensures Owed(dst, owe, d) == 0
    decreases |dst|
  {
    if dst != [] {
      OwedZeros(dst[..|dst| - 1], owe[..|dst| - 1], d);
    }
  }

  // ---------------------------------------------------------------- the scheduler

  /** The queue holds the services that wait for nothing and are not placed. */
  ghost predicate Queued(contents: set<nat>, order: seq<nat>, left: seq<nat>) {
    && (forall v :: v in contents <==> 0 <= v < |left| && left[v] == 0 && v !in order)
    && (forall v :: v in order ==> v < |left| && left[v] == 0)
  }

  lemma QueuedStep(contents: set<nat>, order: seq<nat>, left: seq<nat>, w: nat)
    requires Queued(contents, order, left) && w < |left| && left[w] > 0
    ensures w !in contents && w !in order
    ensures Queued(if left[w] == 1 then contents + {w} else contents, order, left[w := left[w] - 1])
  {
  }

  lemma QueuedPop(contents: set<nat>, order: seq<nat>, left: seq<nat>, v: nat)
    requires Queued(contents, order, left) && v in contents
    ensures Queued(contents - {v}, order + [v], left)
  {
  }

  /** Places `best`: each of its dependents waits for one less, and is queued when it waits for nothing. */
  method PlaceRow(g: Graph, q: Ready, best: nat, left: seq<nat>, ghost placed: seq<nat>, ghost owe: seq<nat>)
    returns (left': seq<nat>, ghost owe': seq<nat>)
    requires Wired(g) && Waiting(g, placed, {}, owe, left) && best < |g.svc| && best !in placed
    requires q.Valid() && q.v.Length == |q.o.indeg| == |g.svc| && Queued(q.Contents(), placed + [best], left)
    modifies q`n, q.v
    ensures q.Valid() && Waiting(g, placed + [best], {}, owe', left') && Queued(q.Contents(), placed + [best], left')
  {
    hide *;
    RowOk(g, best);
    WaitingSize(g, placed, owe, left);
    left', owe' := left, owe;
    ghost var done: set<nat> := {};
    var k := g.roff[best];
    while k < g.roff[best + 1]
      invariant g.roff[best] <= k <= g.roff[best + 1] && q.Valid()
      invariant forall e :: e in done <==> g.roff[best] <= e < k
      invariant Waiting(g, placed, done, owe', left')
      invariant Queued(q.Contents(), placed + [best], left') && |left'| == |g.svc|
    {
      var w := g.dst[k];
      WaitingStep(g, placed, done, owe', left', k);
      QueuedStep(q.Contents(), placed + [best], left', w);
      if left'[w] == 1 {
        q.Push(w);
      }
      left' := left'[w := left'[w] - 1];
      owe' := owe'[k := 0];
      done := done + {k};
      k := k + 1;
    }
    WaitingEnds(g, placed, done, owe', left', best);
  }

  lemma RowOk(g: Graph, v: nat)
    requires Wired(g) && v < |g.svc|
    ensures |g.roff| == |g.svc| + 1 && |g.src| == |g.dst| && g.roff[v] <= g.roff[v + 1] <= |g.dst|
    ensures forall k :: 0 <= k < |g.src| ==> (g.src[k] == v <==> g.roff[v] <= k < g.roff[v + 1])
    ensures forall k :: 0 <= k < |g.dst| ==> g.dst[k] < |g.svc|
  {
    RowRange(g, v);
  }

  /** The queue as the simple form sees it. */
  lemma QueueIsReady(g: Graph, placed: seq<nat>, owe: seq<nat>, left: seq<nat>, contents: set<nat>)
    requires Waiting(g, placed, {}, owe, left) && Queued(contents, placed, left)
    ensures forall v: nat :: v in contents <==> IsReady(g, placed, v)
  {
    hide *;
    QueuedIs(contents, placed, left);
    forall v: nat ensures v in contents <==> IsReady(g, placed, v) {
      WaitingSize(g, placed, owe, left);
      if v < |left| {
        ZeroIsReady(g, placed, owe, left, v);
      } else {
        NotReady(g, placed, v);
      }
    }
  }

  lemma QueuedIs(contents: set<nat>, order: seq<nat>, left: seq<nat>)
    requires Queued(contents, order, left)
    ensures forall v :: v in contents <==> 0 <= v < |left| && left[v] == 0 && v !in order
  {
  }

  lemma WaitingSize(g: Graph, placed: seq<nat>, owe: seq<nat>, left: seq<nat>)
    requires Waiting(g, placed, {}, owe, left)
    ensures |left| == |g.svc|
  {
  }

  lemma NotReady(g: Graph, placed: seq<nat>, v: nat)
    ensures v >= |g.svc| ==> !IsReady(g, placed, v)
  {
  }

  /** Puts the services in order. It never gets stuck, because the heights rule cycles out. */
  method Schedule(g: Graph, o: Order) returns (order: seq<nat>)
    requires Wired(g) && |o.indeg| == |g.svc| && Descends(g, o.height)
    requires forall v {:trigger InDegree(g.dst, v)} :: 0 <= v < |g.svc| ==> o.indeg[v] == InDegree(g.dst, v)
    ensures |order| == |g.svc| && Greedy(g, o, order)
  {
    hide *;
    var left := o.indeg;
    ghost var owe := WaitingStarts(g, left);
    DescendsSize(g, o.height);
    var q := new Ready(o);
    q.Fill(left);
    order := [];
    QueuedStarts(q.Contents(), left);
    GreedyNone(g, o);
    while q.n > 0
      invariant fresh(q) && fresh(q.v) && q.Valid() && q.o == o && q.v.Length == |o.indeg|
      invariant Greedy(g, o, order) && Waiting(g, order, {}, owe, left) && Queued(q.Contents(), order, left)
      decreases |g.svc| - |order|
    {
      QueueIsReady(g, order, owe, left, q.Contents());
      ghost var contents := q.Contents();
      var best := q.Pop();
      NextIs(g, o, order, best);
      GreedyMore(g, o, order, best);
      GreedySize(g, o, order + [best]);
      QueuedPop(contents, order, left, best);
      ReadyIs(g, order, best);
      left, owe := PlaceRow(g, q, best, left, order, owe);
      order := order + [best];
    }
    QueueIsReady(g, order, owe, left, q.Contents());
    q.Empty();
    Done(g, o, order);
  }

  lemma DescendsSize(g: Graph, height: seq<nat>)
    requires Descends(g, height)
    ensures |height| == |g.svc|
  {
  }

  lemma GreedyNone(g: Graph, o: Order)
    ensures Greedy(g, o, [])
  {
  }

  lemma QueuedStarts(contents: set<nat>, left: seq<nat>)
    requires forall v :: v in contents <==> 0 <= v < |left| && left[v] == 0
    ensures Queued(contents, [], left)
  {
  }

  lemma NextIs(g: Graph, o: Order, placed: seq<nat>, v: nat)
    requires IsReady(g, placed, v) && forall y: nat :: IsReady(g, placed, y) ==> Leq(o, v, y)
    ensures IsNext(g, o, placed, v)
  {
  }

  lemma ReadyIs(g: Graph, placed: seq<nat>, v: nat)
    requires IsReady(g, placed, v)
    ensures v < |g.svc| && v !in placed
  {
  }

  lemma GreedySize(g: Graph, o: Order, order: seq<nat>)
    requires Greedy(g, o, order)
    ensures |order| <= |g.svc|
  {
    GreedyForward(g, o, order);
    Pigeonhole(order, |g.svc|);
  }

  lemma Done(g: Graph, o: Order, order: seq<nat>)
    requires Wired(g) && Descends(g, o.height) && Greedy(g, o, order) && forall v: nat :: !IsReady(g, order, v)
    ensures |order| == |g.svc|
  {
    GreedyForward(g, o, order);
    var top := Highest(o.height);
    forall v | 0 <= v < |g.svc| ensures v in order {
      if v !in order {
        var r := SomeReady(g, o.height, order, v, top);
      }
    }
    AllPlaced(order, |g.svc|);
  }
}
