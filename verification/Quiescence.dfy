/** What the invariant of the supervisor says about the dependency counters, while readiness is being
    handed out and between two events. */
module Quiescence {
  import opened Counting
  import opened Graphs
  import opened Ledgers
  import opened Runs
  import opened Readiness
  import opened Services

  /** The edges into d that are in ks. */
  ghost function Into(dst: seq<nat>, d: nat, ks: set<nat>): set<nat> {
    set k | 0 <= k < |dst| && dst[k] == d && k in ks
  }

  /** The edges whose prerequisite is not released. */
  ghost function Unreleased(g: Graph, released: seq<bool>): set<nat>
    requires Rows(g) && |released| == |g.svc|
  {
    set k | 0 <= k < |g.src| && !released[g.src[k]]
  }

  lemma {:induction false} OwedSets(dst: seq<nat>, owe: seq<nat>, d: nat, a: set<nat>, b: set<nat>)
    requires |owe| == |dst|
    requires forall k :: 0 <= k < |dst| ==> owe[k] == (if k in a then 1 else 0) + (if k in b then 1 else 0)
    ensures Owed(dst, owe, d) == |Into(dst, d, a)| + |Into(dst, d, b)|
    decreases |dst|
  {
    if dst != [] {
      var last := |dst| - 1;
      OwedSets(dst[..last], owe[..last], d, a, b);
      IntoStep(dst, d, a);
      IntoStep(dst, d, b);
    }
  }

  lemma IntoStep(dst: seq<nat>, d: nat, ks: set<nat>)
    requires dst != []
    ensures var last := |dst| - 1;
            |Into(dst, d, ks)| == |Into(dst[..last], d, ks)| + (if dst[last] == d && last in ks then 1 else 0)
  {
    var last := |dst| - 1;
    if dst[last] == d && last in ks {
      assert Into(dst, d, ks) == Into(dst[..last], d, ks) + {last};
    } else {
      assert Into(dst, d, ks) == Into(dst[..last], d, ks);
    }
  }

  /** In every state, also while readiness is being handed out: a counter is the number of
      prerequisites that are not released plus the number of those whose release is still queued. */
  lemma UnmetCounts(g: Graph, r: Ready, b: Book, d: nat)
    requires Consistent(g, r, b, -1) && d < |g.svc|
    ensures r.unmet[d] == |Into(g.dst, d, Unreleased(g, r.released))| + |Into(g.dst, d, b.pend)|
  {
    OwedSets(g.dst, b.owe, d, Unreleased(g, r.released), b.pend);
  }

  /** A prerequisite whose release is queued is released: nothing is taken back while readiness is being
      handed out. */
  lemma QueuedIsReleased(g: Graph, r: Ready, b: Book, k: nat)
    requires Consistent(g, r, b, -1) && k in b.pend
    ensures k < |g.src| && g.src[k] < |r.released| && r.released[g.src[k]]
  {
    var a :| 0 <= a < r.qTail && r.queue[..r.qTail][a] == g.src[k];
    assert r.queue[a] == g.src[k];
  }

  /** So every prerequisite counts once: it is not released, or released with its release still queued. */
  lemma UnmetCountsOnce(g: Graph, r: Ready, b: Book, d: nat)
    requires Consistent(g, r, b, -1) && d < |g.svc|
    ensures r.unmet[d] == |Into(g.dst, d, Unreleased(g, r.released) + b.pend)|
    ensures Unreleased(g, r.released) !! b.pend
  {
    UnmetCounts(g, r, b, d);
    PendShape(g, r, b);
    forall k | k in b.pend ensures k !in Unreleased(g, r.released) {
      QueuedIsReleased(g, r, b, k);
    }
    hide Consistent, Rows, Into, Unreleased;
    IntoOnce(g.dst, d, Unreleased(g, r.released), b.pend);
  }

  /** Every counter is the number of prerequisites that are not released or whose release is still queued,
      and none is both. */
  ghost predicate CountsOnce(g: Graph, r: Ready, b: Book) {
    && Rows(g) && |r.released| == |r.unmet| == |g.svc| && Unreleased(g, r.released) !! b.pend
    && forall d :: 0 <= d < |g.svc| ==> r.unmet[d] == |Into(g.dst, d, Unreleased(g, r.released) + b.pend)|
  }

  lemma AllCountOnce(g: Graph, r: Ready, b: Book)
    requires Consistent(g, r, b, -1)
    ensures CountsOnce(g, r, b)
  {
    PendShape(g, r, b);
    forall d | 0 <= d < |g.svc| ensures r.unmet[d] == |Into(g.dst, d, Unreleased(g, r.released) + b.pend)| {
      UnmetCountsOnce(g, r, b, d);
    }
    forall k | k in b.pend ensures k !in Unreleased(g, r.released) {
      QueuedIsReleased(g, r, b, k);
    }
    ReadySizes(g, r, b);
    hide Consistent, Rows, Into;
  }

  lemma ReadySizes(g: Graph, r: Ready, b: Book)
    requires Consistent(g, r, b, -1)
    ensures |r.released| == |r.unmet| == |g.svc|
  {
  }

  lemma IntoOnce(dst: seq<nat>, d: nat, a: set<nat>, b: set<nat>)
    ensures |Into(dst, d, a + b)| == |Into(dst, d, a)| + |Into(dst, d, b)|
       <==> forall k :: k in b && 0 <= k < |dst| && dst[k] == d ==> k !in a
  {
    var u, q := Into(dst, d, a), Into(dst, d, b);
    assert Into(dst, d, a + b) == u + q;
    UnionCard(u, q);
    assert forall k :: k in u * q <==> k in b && 0 <= k < |dst| && dst[k] == d && k in a;
  }

  lemma PendShape(g: Graph, r: Ready, b: Book)
    requires Consistent(g, r, b, -1)
    ensures Rows(g) && |g.src| == |g.dst| && |r.released| == |g.svc| && forall k :: k in b.pend ==> k < |g.src|
    ensures forall k :: 0 <= k < |g.src| ==> g.src[k] < |g.svc|
  {
  }

  lemma UnionCard(u: set<nat>, q: set<nat>)
    ensures |u + q| == |u| + |q| <==> forall k :: k !in u * q
  {
    assert |u + q| == |u| + |q| - |u * q|;
    assert |u * q| == 0 <==> u * q == {};
  }

  /** The edges whose release is queued, read off the queue: those of the services still in it, and the
      rest of the row that is being handed out. */
  lemma QueuedEdges(g: Graph, r: Ready, b: Book, from: nat, to: nat)
    requires PendingFrom(g, r, b, from, to)
    ensures b.pend == set e | 0 <= e < |g.src| && (g.src[e] in r.queue[r.qHead..r.qTail] || from <= e < to)
  {
  }

  /** Between two events, once the roots have been started: counters count the unreleased
      prerequisites, an uptime target is up exactly when it waits for nothing, an uptime service is up
      exactly when it is released, and an order-only one is released exactly from when it was first ready. */
  ghost predicate Quiescent(g: Graph, r: Ready, ever: set<nat>) {
    && Rows(g) && |r.up| == |r.released| == |r.unmet| == |g.svc|
    && (forall i :: 0 <= i < |g.svc| ==> r.unmet[i] == |Into(g.dst, i, Unreleased(g, r.released))|)
    && (forall i :: 0 <= i < |g.svc| && g.svc[i].kind == Target && !g.svc[i].orderOnly ==>
        (r.up[i] <==> r.unmet[i] == 0))
    && (forall i :: 0 <= i < |g.svc| && !g.svc[i].orderOnly ==> r.up[i] == r.released[i])
    && (forall i :: 0 <= i < |g.svc| && g.svc[i].orderOnly ==> (r.released[i] <==> i in ever))
    && (forall i :: 0 <= i < |g.svc| && r.up[i] ==> r.released[i])
    && r.nUp == Count(r.up, IsSet)
  }

  lemma QuiescentWhenDrained(g: Graph, r: Ready, b: Book)
    requires Consistent(g, r, b, -1) && !r.draining && b.booted == g.roots
    ensures Quiescent(g, r, b.ever)
  {
    forall i | 0 <= i < |g.svc| ensures r.unmet[i] == |Into(g.dst, i, Unreleased(g, r.released))| {
      UnmetCounts(g, r, b, i);
      assert Into(g.dst, i, b.pend) == {};
    }
    forall i | 0 <= i < |g.svc| && !g.svc[i].orderOnly
      ensures r.up[i] == r.released[i] && (g.svc[i].kind == Target ==> (r.up[i] <==> r.unmet[i] == 0))
    {
      ReadyAt(g, r, b, i);
    }
    forall i | 0 <= i < |g.svc|
        ensures (r.up[i] ==> r.released[i]) && (g.svc[i].orderOnly ==> (r.released[i] <==> i in b.ever)) {
      ReadyAt(g, r, b, i);
    }
  }

  /** What was released is released. */
  predicate Kept(was: seq<bool>, released: seq<bool>, i: nat) {
    i < |was| && i < |released| && (was[i] ==> released[i])
  }

  /** The release of an order-only service is never taken back. */
  lemma OrderKept(g: Graph, r: Ready, b: Book, r': Ready, b': Book, i: nat)
    requires Consistent(g, r, b, -1) && Consistent(g, r', b', -1) && b.ever <= b'.ever && i < |g.svc|
    ensures g.svc[i].orderOnly ==> Kept(r.released, r'.released, i)
  {
    ReadyAt(g, r, b, i);
    ReadyAt(g, r', b', i);
  }

  /** The service is pending although nothing keeps it from starting, or from being up if it is a target. */
  ghost predicate Able(g: Graph, s: Services, r: Ready, down: bool, x: nat) {
    && x < |g.svc| && x < |s.state| && x < |s.want| && x < |s.runs| && x < |r.unmet|
    && s.state[x] == Pending && !s.want[x] && r.unmet[x] == 0
    && (g.svc[x].kind == Target || (!down && s.runs[x].pid == 0 && s.runs[x].stalePid == 0))
  }

  lemma AbleIs(g: Graph, s: Services, r: Ready, down: bool, x: nat)
    requires x < |g.svc| == |s.state| == |s.want| == |s.runs| == |r.unmet|
    ensures Able(g, s, r, down, x) <==>
              && s.state[x] == Pending && !s.want[x] && r.unmet[x] == 0
              && (g.svc[x].kind == Target || (!down && s.runs[x].pid == 0 && s.runs[x].stalePid == 0))
  {
  }

  lemma NoneAble(g: Graph, s: Services, r: Ready, down: bool)
    ensures forall x: nat :: x >= |g.svc| ==> !Able(g, s, r, down, x)
  {
  }

  /** What happens at i and after it does not matter to the services before it. */
  lemma AbleSame(g: Graph, s: Services, r: Ready, b: Book, s': Services, r': Ready, b': Book, down: bool, i: nat,
                 x: nat)
    requires Consistent(g, r, b, -1) && Consistent(g, r', b', -1) && !r.draining && !r'.draining
    requires SameTo(i, s, s') && ReadySameTo(i, r, r') && x < i && !Able(g, s, r, down, x)
    ensures !Able(g, s', r', down, x)
  {
    if x < |g.svc| {
      UnmetSame(g, r, b, r', b', i, x);
      hide Consistent;
    }
  }

  lemma UnmetSame(g: Graph, r: Ready, b: Book, r': Ready, b': Book, i: nat, x: nat)
    requires Consistent(g, r, b, -1) && Consistent(g, r', b', -1) && !r.draining && !r'.draining
    requires ReadySameTo(i, r, r') && x < i && x < |g.svc|
    ensures x < |r.unmet| == |r'.unmet| && r.unmet[x] == r'.unmet[x]
  {
    UnmetCounts(g, r, b, x);
    UnmetCounts(g, r', b', x);
    assert Into(g.dst, x, b.pend) == {} && Into(g.dst, x, b'.pend) == {};
    assert Edges(g);
    assert Into(g.dst, x, Unreleased(g, r.released)) == Into(g.dst, x, Unreleased(g, r'.released));
  }
}
