/** Taking readiness back: which releases fall with a service that goes down, and the work list that
    withdraws them while it raises the counters behind them. */
module Withdrawals {
  import opened Counting
  import opened Graphs
  import opened Ledgers
  import opened Runs
  import opened Readiness

  /** The release of x is taken back when i goes down: x is i itself, or an uptime target that
      depends on a service whose release is taken back. */
  ghost predicate Falls(g: Graph, released: seq<bool>, i: nat, x: nat)
    requires Edges(g) && |released| == |g.svc| && x < |g.svc|
    decreases x
  {
    && released[x] && !g.svc[x].orderOnly
    && (x == i || (g.svc[x].kind == Target && exists k ::
                   0 <= k < |g.dst| && g.dst[k] == x && Falls(g, released, i, g.src[k])))
  }

  ghost function Falling(g: Graph, released: seq<bool>, i: nat): set<nat>
    requires Edges(g) && |released| == |g.svc|
  {
    set x | 0 <= x < |g.svc| && Falls(g, released, i, x)
  }

  /** Nothing falls with a service that holds no release of its own to give back. */
  lemma {:induction false} FallsAbove(g: Graph, released: seq<bool>, i: nat, x: nat)
    requires Edges(g) && |released| == |g.svc| && i < |g.svc| && x < |g.svc| && Falls(g, released, i, x)
    ensures i <= x && released[i] && !g.svc[i].orderOnly
    decreases x
  {
    if x != i {
      var k :| 0 <= k < |g.dst| && g.dst[k] == x && Falls(g, released, i, g.src[k]);
      FallsAbove(g, released, i, g.src[k]);
    }
  }

  lemma FallingIs(g: Graph, released: seq<bool>, i: nat)
    requires Edges(g) && |released| == |g.svc| && i < |g.svc|
    ensures forall x :: x in Falling(g, released, i) ==>
              && i <= x < |g.svc| && released[x] && !g.svc[x].orderOnly
              && released[i] && !g.svc[i].orderOnly
              && (x != i ==>
                  g.svc[x].kind == Target && exists k ::
                      0 <= k < |g.dst| && g.dst[k] == x && g.src[k] in Falling(g, released, i))
    ensures Follows(g, released, Falling(g, released, i))
  {
    forall x | x in Falling(g, released, i) ensures i <= x && released[i] && !g.svc[i].orderOnly {
      FallsAbove(g, released, i, x);
    }
  }

  /** A withdrawal in progress: only services in `fall` have lost their release, and only the edges
      in `late` have not been followed yet. */
  ghost predicate Withdrawing(g: Graph, was: seq<bool>, released: seq<bool>, fall: set<nat>, late: set<nat>) {
    && Edges(g) && |was| == |released| == |g.svc|
    && (forall x :: 0 <= x < |was| ==> released[x] == was[x] || (was[x] && x in fall))
    && (forall k :: 0 <= k < |g.dst| && k !in late && was[g.src[k]] && !released[g.src[k]] ==>
          !Sinks(g, released, g.dst[k]))
    && (forall k :: k in late ==> k < |g.dst| && was[g.src[k]] && !released[g.src[k]])
  }

  /** A released uptime target, which goes down with any of its prerequisites. */
  predicate Sinks(g: Graph, released: seq<bool>, d: nat)
    requires d < |g.svc| == |released|
  {
    g.svc[d].kind == Target && released[d] && !g.svc[d].orderOnly
  }

  /** A sinking target that depends on something that falls, falls. */
  ghost predicate Follows(g: Graph, was: seq<bool>, fall: set<nat>)
    requires Edges(g) && |was| == |g.svc|
  {
    forall k :: 0 <= k < |g.dst| && g.src[k] in fall && Sinks(g, was, g.dst[k]) ==> g.dst[k] in fall
  }

  /** The services that lost their release, each listed once. */
  ghost predicate Backlog(was: seq<bool>, released: seq<bool>, rq: seq<nat>, rt: nat) {
    && |was| == |released| == |rq| && rt <= |rq|
    && Below(rq[..rt], |rq|) && Distinct(rq[..rt])
    && (forall a :: 0 <= a < rt ==> was[rq[a]] && !released[rq[a]])
  }

  lemma BacklogGrows(was: seq<bool>, released: seq<bool>, rq: seq<nat>, rt: nat, d: nat)
    requires Backlog(was, released, rq, rt) && d < |rq| && released[d] && was[d]
    ensures rt < |rq| && Backlog(was, released[d := false], rq[rt := d], rt + 1)
    ensures rq[rt := d][..rt] == rq[..rt] && rq[rt := d][rt..rt + 1] == [d]
  {
    Pigeonhole(rq[..rt], |rq|);
    assert d !in rq[..rt];
    assert rq[rt := d][..rt + 1] == rq[..rt] + [d];
  }

  lemma BacklogAt(was: seq<bool>, released: seq<bool>, rq: seq<nat>, rh: nat, rt: nat)
    requires Backlog(was, released, rq, rt) && rh < rt
    ensures rq[rh] < |rq| && rq[rh] !in rq[rh + 1..rt] && !released[rq[rh]]
  {
    assert rq[rh] == rq[..rt][rh];
    assert forall a :: rh < a < rt ==> rq[a] == rq[..rt][a];
  }

  lemma BacklogNew(was: seq<bool>, released: seq<bool>, rq: seq<nat>, rt: nat, rt': nat, j: nat)
    requires Backlog(was, released, rq, rt') && rt <= rt' && j in rq[..rt]
    ensures j !in rq[rt..rt']
  {
    var a :| 0 <= a < rt && rq[a] == j;
    assert rq[..rt'][a] == j;
    assert forall b :: rt <= b < rt' ==> rq[b] == rq[..rt'][b];
  }

  /** A finished withdrawal has taken back exactly what falls with i. */
  lemma {:induction false} Withdrawn(g: Graph, was: seq<bool>, released: seq<bool>, i: nat, x: nat)
    requires Edges(g) && |was| == |g.svc| && Withdrawing(g, was, released, Falling(g, was, i), {})
    requires i < |g.svc| && !released[i] && x < |g.svc|
    ensures released[x] == (was[x] && !Falls(g, was, i, x))
    decreases x
  {
    if Falls(g, was, i, x) && x != i {
      var k :| 0 <= k < |g.dst| && g.dst[k] == x && Falls(g, was, i, g.src[k]);
      Withdrawn(g, was, released, i, g.src[k]);
    }
  }

  /** Following one late edge withdraws the target it leads to, if there is one. */
  lemma FollowLate(g: Graph, was: seq<bool>, released: seq<bool>, fall: set<nat>, late: set<nat>, k: nat)
    requires Rows(g) && Withdrawing(g, was, released, fall, late) && k in late
    requires Sinks(g, released, g.dst[k]) ==> g.dst[k] in fall
    ensures !Sinks(g, released, g.dst[k]) ==> Withdrawing(g, was, released, fall, late - {k})
    ensures Sinks(g, released, g.dst[k]) ==>
              && late !! RowOf(g, g.dst[k])
              && Withdrawing(g, was, released[g.dst[k] := false], fall, late - {k} + RowOf(g, g.dst[k]))
  {
    hide Rows;
  }

  /** Only services from i on fall with it, and an order-only service never does. */
  lemma NothingFalls(g: Graph, was: seq<bool>, i: nat)
    requires Edges(g) && |was| == |g.svc| && i < |g.svc|
    ensures forall x :: 0 <= x < |g.svc| && Falls(g, was, i, x) ==> i <= x && was[i] && !g.svc[i].orderOnly
    ensures was[i] && !g.svc[i].orderOnly ==> Falls(g, was, i, i)
  {
    forall x | 0 <= x < |g.svc| && Falls(g, was, i, x) ensures i <= x && was[i] && !g.svc[i].orderOnly {
      FallsAbove(g, was, i, x);
    }
  }

  /** A withdrawal in progress keeps the ledger, late edges aside, and what is promised of targets. */
  ghost predicate Taking(g: Graph, was: seq<bool>, fall: set<nat>, late: set<nat>, r: Ready, b: Book) {
    && Sound(g) && |was| == |r.released| == |r.up| == |r.unmet| == |r.rqueue| == |g.svc| && Follows(g, was, fall)
    && Withdrawing(g, was, r.released, fall, late)
    && Ledger(g, r.released, b.pend, late, b.owe, r.unmet)
    && TargetsOk(g, r.released, r.unmet, b.booted, -1)
    && UpOk(g, r.up, r.released, b.ever, -1)
    && r.nUp == Count(r.up, IsSet)
  }

  /** Service i, already marked down, loses its release. */
  lemma TakingStarts(g: Graph, r: Ready, b: Book, i: nat)
    requires Consistent(g, r, b, i) && i < |g.svc| && !IsTarget(g, i)
    requires !g.svc[i].orderOnly && r.released[i] && !r.up[i]
    ensures Taking(g, r.released, Falling(g, r.released, i), RowOf(g, i),
                   r.(released := r.released[i := false], rqueue := r.rqueue[0 := i]), b)
    ensures Backlog(r.released, r.released[i := false], r.rqueue[0 := i], 1) && r.rqueue[0 := i][0..1] == [i]
    ensures forall e :: e in RowOf(g, i) <==> 0 <= e < |g.src| && g.src[e] == i
    ensures forall x :: x in Falling(g, r.released, i) ==> i <= x
  {
    assert Falls(g, r.released, i, i);
    hide Ledger, QueueOk, Rows, Count, Falls;
    FallingIs(g, r.released, i);
    WithdrawKeeps(g, r.released, b.pend, {}, b.owe, r.unmet, i);
    BacklogGrows(r.released, r.released, r.rqueue, 0, i);
  }

  lemma TakingShape(g: Graph, was: seq<bool>, fall: set<nat>, late: set<nat>, r: Ready, b: Book)
    requires Taking(g, was, fall, late, r, b)
    ensures Rows(g) && |g.src| == |g.dst| == |b.owe| && Edges(g)
    ensures |was| == |r.released| == |r.up| == |r.unmet| == |r.rqueue| == |g.svc|
  {
  }

  /** Raising the counter behind late edge k, when no target sinks with it. */
  lemma TakeStep(g: Graph, was: seq<bool>, fall: set<nat>, late: set<nat>, r: Ready, b: Book, k: nat)
    requires Taking(g, was, fall, late, r, b) && k in late
    ensures k < |g.dst| == |b.owe| && g.dst[k] < |r.unmet| == |g.svc| == |r.released|
    ensures !Sinks(g, r.released, g.dst[k]) ==>
              Taking(g, was, fall, late - {k}, r.(unmet := r.unmet[g.dst[k] := r.unmet[g.dst[k]] + 1]),
                     b.(owe := b.owe[k := b.owe[k] + 1]))
  {
    TakeBackKeeps(g, r.released, b.pend, late, b.owe, r.unmet, k);
    FollowLate(g, was, r.released, fall, late, k);
  }

  /** What is known at the late edge k, which leads to a target that sinks. */
  lemma LateAt(g: Graph, was: seq<bool>, fall: set<nat>, late: set<nat>, r: Ready, b: Book, k: nat)
    requires Taking(g, was, fall, late, r, b) && k in late && Sinks(g, r.released, g.dst[k])
    ensures Sound(g) && Rows(g) && Edges(g)
    ensures |was| == |r.released| == |r.up| == |r.unmet| == |r.rqueue| == |g.svc| && Follows(g, was, fall)
    ensures Withdrawing(g, was, r.released, fall, late) && Ledger(g, r.released, b.pend, late, b.owe, r.unmet)
    ensures TargetsOk(g, r.released, r.unmet, b.booted, -1) && UpOk(g, r.up, r.released, b.ever, -1)
    ensures k < |g.dst| == |g.src| == |b.owe| && g.dst[k] < |g.svc|
    ensures was[g.dst[k]] && r.released[g.dst[k]] && g.dst[k] in fall
    ensures IsTarget(g, g.dst[k]) && !g.svc[g.dst[k]].orderOnly
  {
    assert g.src[k] in fall;
  }

  /** An uptime target that is taken down, and waits for one more. */
  lemma SinkReady(g: Graph, r: Ready, b: Book, d: nat)
    requires d < |g.svc| == |r.unmet| == |r.released| == |r.up| && IsTarget(g, d) && !g.svc[d].orderOnly
    requires TargetsOk(g, r.released, r.unmet, b.booted, -1) && UpOk(g, r.up, r.released, b.ever, -1)
    ensures TargetsOk(g, r.released[d := false], r.unmet[d := r.unmet[d] + 1], b.booted, -1)
    ensures UpOk(g, r.up[d := false], r.released[d := false], b.ever, -1)
  {
  }

  lemma RowOfIs(g: Graph, d: nat)
    requires Rows(g) && d < |g.svc|
    ensures forall e :: e in RowOf(g, d) <==> 0 <= e < |g.src| && g.src[e] == d
  {
  }

  lemma TakingFrom(g: Graph, was: seq<bool>, fall: set<nat>, late: set<nat>, r: Ready, b: Book)
    requires Sound(g) && |was| == |r.released| == |r.up| == |r.unmet| == |r.rqueue| == |g.svc|
    requires Edges(g) && Follows(g, was, fall)
    requires Withdrawing(g, was, r.released, fall, late) && Ledger(g, r.released, b.pend, late, b.owe, r.unmet)
    requires TargetsOk(g, r.released, r.unmet, b.booted, -1)
    requires UpOk(g, r.up, r.released, b.ever, -1) && r.nUp == Count(r.up, IsSet)
    ensures Taking(g, was, fall, late, r, b)
  {
  }

  /** Raising the counter behind late edge k, and withdrawing the target it leads to. */
  lemma SinkStep(g: Graph, was: seq<bool>, fall: set<nat>, late: set<nat>, r: Ready, b: Book, k: nat, rt: nat, n: nat)
    requires Taking(g, was, fall, late, r, b) && k in late && Sinks(g, r.released, g.dst[k])
    requires n == Count(r.up[g.dst[k] := false], IsSet)
    requires Backlog(was, r.released, r.rqueue, rt)
    ensures var d := g.dst[k];
            && d in fall && IsTarget(g, d) && rt < |r.rqueue|
            && Backlog(was, r.released[d := false], r.rqueue[rt := d], rt + 1)
            && r.rqueue[rt := d][..rt] == r.rqueue[..rt] && r.rqueue[rt := d][rt..rt + 1] == [d]
            && Taking(g, was, fall, late - {k} + RowOf(g, d),
                      r.(unmet := r.unmet[d := r.unmet[d] + 1], released := r.released[d := false],
                         up := r.up[d := false], nUp := n, rqueue := r.rqueue[rt := d]),
                      b.(owe := b.owe[k := b.owe[k] + 1]))
            && forall e :: e in RowOf(g, d) <==> 0 <= e < |g.src| && g.src[e] == d
  {
    hide *;
    LateAt(g, was, fall, late, r, b, k);
    var d := g.dst[k];
    TakeBackKeeps(g, r.released, b.pend, late, b.owe, r.unmet, k);
    FollowLate(g, was, r.released, fall, late, k);
    WithdrawKeeps(g, r.released, b.pend, late - {k}, b.owe[k := b.owe[k] + 1], r.unmet[d := r.unmet[d] + 1], d);
    BacklogGrows(was, r.released, r.rqueue, rt, d);
    SinkReady(g, r, b, d);
    RowOfIs(g, d);
    TakingFrom(g, was, fall, late - {k} + RowOf(g, d),
               r.(unmet := r.unmet[d := r.unmet[d] + 1], released := r.released[d := false],
                  up := r.up[d := false], nUp := n, rqueue := r.rqueue[rt := d]),
               b.(owe := b.owe[k := b.owe[k] + 1]));
  }

  /** When no edge is late any more, exactly what falls with i has been taken back. */
  lemma TakingEnds(g: Graph, i: nat, r: Ready, b: Book, r': Ready, b': Book)
    requires Consistent(g, r, b, i) && i < |g.svc| && !IsTarget(g, i) && !r.draining
    requires Taking(g, r.released, Falling(g, r.released, i), {}, r', b') && !r'.released[i]
    requires b' == b.(owe := b'.owe)
    requires SameQueue(r, r')
    ensures Consistent(g, r', b', -1)
    ensures forall x :: 0 <= x < |g.svc| ==> r'.released[x] == (r.released[x] && !Falls(g, r.released, i, x))
  {
    var was, released := r.released, r'.released;
    FallingIs(g, was, i);
    forall x | 0 <= x < |g.svc| ensures released[x] == (was[x] && !Falls(g, was, i, x)) {
      Withdrawn(g, was, released, i, x);
    }
  }

  lemma TakingCount(g: Graph, was: seq<bool>, fall: set<nat>, late: set<nat>, r: Ready, b: Book)
    requires Taking(g, was, fall, late, r, b)
    ensures r.nUp == Count(r.up, IsSet)
  {
  }

  /** Only targets that fall were marked down. */
  ghost predicate OnlyTargets(g: Graph, up: seq<bool>, up': seq<bool>, fall: set<nat>) {
    && |up| == |up'| == |g.svc|
    && forall x :: 0 <= x < |up| && up'[x] != up[x] ==> IsTarget(g, x) && x in fall
  }

  /** The release queue is not touched by a withdrawal. */
  ghost predicate SameQueue(r: Ready, r': Ready) {
    r' == r.(up := r'.up, released := r'.released, unmet := r'.unmet, nUp := r'.nUp, rqueue := r'.rqueue)
  }

  lemma OnlyTargetsKeep(g: Graph, r: Ready, r': Ready, fall: set<nat>, d: nat)
    requires |r.up| == |g.svc| && d < |g.svc|
    requires r'.up == r.up || (r'.up == r.up[d := false] && IsTarget(g, d) && d in fall)
    ensures OnlyTargets(g, r.up, r'.up, fall)
    ensures r'.queue == r.queue && r'.qHead == r.qHead && r'.qTail == r.qTail && r'.draining == r.draining ==>
              SameQueue(r, r')
  {
  }

  lemma OnlyTargetsTwice(g: Graph, r: Ready, r': Ready, r'': Ready, fall: set<nat>)
    requires OnlyTargets(g, r.up, r'.up, fall) && OnlyTargets(g, r'.up, r''.up, fall)
    requires SameQueue(r, r') && SameQueue(r', r'')
    ensures OnlyTargets(g, r.up, r''.up, fall) && SameQueue(r, r'')
  {
  }

  lemma RowSet(g: Graph, i: nat, r: Ready, b: Book) returns (late: set<nat>)
    requires Consistent(g, r, b, i) && i < |g.svc|
    ensures Rows(g) && late == RowOf(g, i)
  {
    late := RowOf(g, i);
  }

  lemma ReadySame(r: Ready)
    ensures SameQueue(r, r) && forall b :: ReadySameTo(b, r, r)
  {
  }

  lemma SameQueueFacts(r: Ready, r': Ready)
    requires SameQueue(r, r')
    ensures r'.queue == r.queue && r'.qHead == r.qHead && r'.qTail == r.qTail && r'.draining == r.draining
  {
  }

  lemma SameQueueTwice(r: Ready, r': Ready, r'': Ready)
    requires SameQueue(r, r') && SameQueue(r', r'')
    ensures SameQueue(r, r'')
  {
  }
}
