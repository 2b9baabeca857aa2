/** What a failure takes down: one forward pass over the dependency rows marks every service that
    can no longer start. */
module Poison {
  import opened Counting
  import opened Graphs
  import opened Runs

  /** What the pass reads of each service besides its state. */
  datatype Scene = Scene(g: Graph, state: seq<State>, up: seq<bool>, runs: seq<Run>)

  ghost predicate Complete(c: Scene) {
    && Sound(c.g)
    && |c.state| == |c.up| == |c.runs| == |c.g.svc|
  }

  /** A service that has not started, a start between two attempts, or a target that went down. */
  predicate Take(c: Scene, s: State, d: nat)
    requires d < |c.g.svc| && |c.up| == |c.runs| == |c.g.svc|
  {
    || s == Pending
    || (s == Running && c.runs[d].restartAt != 0 && c.runs[d].pid == 0)
    || (s == Done && c.g.svc[d].kind == Target && !c.up[d])
  }

  /** d can be taken and depends on a seed, or on another service that is hit. */
  ghost predicate Hit(c: Scene, seeds: set<nat>, d: nat)
    requires Complete(c) && d < |c.g.svc|
    decreases d, 1
  {
    Take(c, c.state[d], d) && Struck(c, seeds, d, |c.g.dst|)
  }

  /** One of the first `upto` edges carries the failure to d. */
  ghost predicate Struck(c: Scene, seeds: set<nat>, d: nat, upto: nat)
    requires Complete(c) && d < |c.g.svc| && upto <= |c.g.dst|
    decreases d, 0
  {
    exists k :: 0 <= k < upto && c.g.dst[k] == d && (c.g.src[k] in seeds || Hit(c, seeds, c.g.src[k]))
  }

  /** The independent reading of a hit: a chain of dependencies from a seed, all takeable after it. */
  ghost predicate Chain(c: Scene, seeds: set<nat>, path: seq<nat>)
    requires Complete(c)
  {
    && |path| >= 2 && path[0] in seeds
    && (forall a :: 0 < a < |path| ==> path[a] < |c.g.svc| && Take(c, c.state[path[a]], path[a]))
    && (forall a :: 0 < a < |path| ==> Prereq(c.g, path[a - 1], path[a]))
  }

  lemma {:induction false} HitHasChain(c: Scene, seeds: set<nat>, d: nat) returns (path: seq<nat>)
    requires Complete(c) && d < |c.g.svc| && Hit(c, seeds, d)
    ensures Chain(c, seeds, path) && path[|path| - 1] == d
    decreases d
  {
    var k :| 0 <= k < |c.g.dst| && c.g.dst[k] == d && (c.g.src[k] in seeds || Hit(c, seeds, c.g.src[k]));
    var j := c.g.src[k];
    assert Prereq(c.g, j, d);
    if j in seeds {
      path := [j, d];
    } else {
      var p := HitHasChain(c, seeds, j);
      path := p + [d];
      forall a | 0 < a < |path| ensures Prereq(c.g, path[a - 1], path[a]) {
        if a < |p| {
          assert path[a - 1] == p[a - 1] && path[a] == p[a];
        }
      }
    }
  }

  lemma {:induction false} ChainHits(c: Scene, seeds: set<nat>, path: seq<nat>)
    requires Complete(c) && Chain(c, seeds, path)
    ensures Hit(c, seeds, path[|path| - 1])
    decreases |path|
  {
    var last := |path| - 1;
    assert Prereq(c.g, path[last - 1], path[last]);
    if last > 1 {
      var p := path[..last];
      forall a | 0 < a < |p| ensures Prereq(c.g, p[a - 1], p[a]) {
        assert p[a - 1] == path[a - 1] && p[a] == path[a];
      }
      ChainHits(c, seeds, p);
    }
    var k :| 0 <= k < |c.g.dst| && c.g.src[k] == path[last - 1] && c.g.dst[k] == path[last];
    assert Struck(c, seeds, path[last], |c.g.dst|);
  }

  /** The least fixpoint is reachability through takeable services. */
  lemma HitIffChain(c: Scene, seeds: set<nat>, d: nat)
    requires Complete(c) && d < |c.g.svc|
    ensures Hit(c, seeds, d) <==> exists path :: Chain(c, seeds, path) && path[|path| - 1] == d
  {
    if Hit(c, seeds, d) {
      var path := HitHasChain(c, seeds, d);
    }
    forall path | Chain(c, seeds, path) && path[|path| - 1] == d ensures Hit(c, seeds, d) {
      ChainHits(c, seeds, path);
    }
  }

  /** The states after the first `upto` edges have carried the failure. */
  ghost predicate Marked(c: Scene, seeds: set<nat>, upto: nat, st: seq<State>)
    requires Complete(c) && upto <= |c.g.dst|
  {
    && |st| == |c.state|
    && forall d :: 0 <= d < |st| ==>
         st[d] == if Take(c, c.state[d], d) && Struck(c, seeds, d, upto) then Skipped else c.state[d]
  }

  /** How many services left each counted state. */
  ghost predicate Tally(before: seq<State>, after: seq<State>, count: nat, undone: nat, waiting: nat) {
    && Count(after, IsPending) + count == Count(before, IsPending) + waiting
    && Count(after, IsRunning) + waiting == Count(before, IsRunning)
    && Count(after, IsDone) + undone == Count(before, IsDone)
    && waiting <= count
  }

  /** Every edge into j lies in an earlier row, so a whole pass decides j before its own row. */
  lemma DecidedBeforeRow(c: Scene, seeds: set<nat>, j: nat)
    requires Complete(c) && j < |c.g.svc|
    ensures Struck(c, seeds, j, c.g.roff[j]) <==> Struck(c, seeds, j, |c.g.dst|)
  {
    forall k | 0 <= k < |c.g.dst| && c.g.dst[k] == j ensures k < c.g.roff[j] {
      assert c.g.src[k] + 1 <= j;
    }
  }

  /** Rows before the first seed carry nothing. */
  lemma {:induction false} NothingBefore(c: Scene, seeds: set<nat>, from: nat, d: nat, upto: nat)
    requires Complete(c) && d < |c.g.svc| && from <= |c.g.svc| && upto <= |c.g.dst|
    requires forall x :: x in seeds ==> x >= from
    ensures d <= from ==> !Struck(c, seeds, d, upto)
    ensures upto <= c.g.roff[from] ==> !Struck(c, seeds, d, upto)
    decreases d
  {
    forall k | 0 <= k < upto && c.g.dst[k] == d
      ensures d <= from || upto <= c.g.roff[from] ==> c.g.src[k] !in seeds && !Hit(c, seeds, c.g.src[k])
    {
      var j := c.g.src[k];
      if d <= from || upto <= c.g.roff[from] {
        assert c.g.roff[if j < from then j else from] <= c.g.roff[j];
        assert j < from;
        NothingBefore(c, seeds, from, j, |c.g.dst|);
      }
    }
  }

  lemma TallyStep(before: seq<State>, st: seq<State>, d: nat, count: nat, undone: nat, waiting: nat)
    requires Tally(before, st, count, undone, waiting) && d < |st| && !IsBad(st[d])
    ensures Tally(before, st[d := Skipped],
                  if st[d] == Done then count else count + 1,
                  if st[d] == Done then undone + 1 else undone,
                  if st[d] == Running then waiting + 1 else waiting)
  {
    CountUpdate(st, d, Skipped, IsPending);
    CountUpdate(st, d, Skipped, IsRunning);
    CountUpdate(st, d, Skipped, IsDone);
  }

  /** Following edge k either marks its dependent or changes nothing. */
  lemma MarkStep(c: Scene, seeds: set<nat>, k: nat, st: seq<State>)
    requires Complete(c) && k < |c.g.dst| && Marked(c, seeds, k, st)
    requires c.g.src[k] in seeds || Hit(c, seeds, c.g.src[k])
    ensures Marked(c, seeds, k + 1, if Take(c, st[c.g.dst[k]], c.g.dst[k]) then st[c.g.dst[k] := Skipped] else st)
  {
    var e := c.g.dst[k];
    forall d | 0 <= d < |st|
      ensures Struck(c, seeds, d, k + 1) <==> Struck(c, seeds, d, k) || d == e
    {
    }
  }

  /** Marks the dependent of edge k, whose prerequisite is down, if it can be taken. */
  method TakeEdge(c: Scene, ghost seeds: set<nat>, k: nat, state: seq<State>)
      returns (st: seq<State>, count: nat, undone: nat, waiting: nat)
    requires Complete(c) && k < |c.g.dst| && Marked(c, seeds, k, state)
    requires c.g.src[k] in seeds || Hit(c, seeds, c.g.src[k])
    ensures Marked(c, seeds, k + 1, st)
    ensures Tally(state, st, count, undone, waiting)
    ensures count + undone > 0 <==> Take(c, state[c.g.dst[k]], c.g.dst[k])
    ensures count + undone == 0 ==> st == state
  {
    var d := c.g.dst[k];
    MarkStep(c, seeds, k, state);
    st, count, undone, waiting := state, 0, 0, 0;
    if Take(c, st[d], d) {
      TallyStep(state, st, d, count, undone, waiting);
      if st[d] == Done {
        undone := 1;
      } else {
        count := 1;
        waiting := if st[d] == Running then 1 else 0;
      }
      st := st[d := Skipped];
    }
  }

  /** No dependent among the edges from lo to hi can be taken. */
  ghost predicate Untaken(c: Scene, state: seq<State>, lo: nat, hi: nat)
    requires Complete(c) && |state| == |c.g.svc| && hi <= |c.g.dst|
  {
    forall k :: lo <= k < hi ==> !Take(c, state[c.g.dst[k]], c.g.dst[k])
  }

  /** Marks the takeable dependents in one row; j is known to be down. */
  method TakeRow(c: Scene, ghost seeds: set<nat>, j: nat, state: seq<State>)
      returns (st: seq<State>, count: nat, undone: nat, waiting: nat)
    requires Complete(c) && j < |c.g.svc|
    requires Marked(c, seeds, c.g.roff[j], state)
    requires j in seeds || Hit(c, seeds, j)
    ensures Marked(c, seeds, c.g.roff[j + 1], st)
    ensures Tally(state, st, count, undone, waiting)
    ensures count + undone == 0 <==> Untaken(c, state, c.g.roff[j], c.g.roff[j + 1])
    ensures count + undone == 0 ==> st == state
  {
    hide *;
    RowFacts(c, j);
    MarkedSize(c, seeds, c.g.roff[j], state);
    st, count, undone, waiting := state, 0, 0, 0;
    var k, end := c.g.roff[j], c.g.roff[j + 1];
    TallyNone(state);
    UntakenStep(c, state, k, k);
    while k < end
      invariant c.g.roff[j] <= k <= end
      invariant Marked(c, seeds, k, st) && Tally(state, st, count, undone, waiting)
      invariant count + undone == 0 <==> Untaken(c, state, c.g.roff[j], k)
      invariant count + undone == 0 ==> st == state
    {
      assert c.g.src[k] == j;
      ghost var before := st;
      var n, u, w;
      st, n, u, w := TakeEdge(c, seeds, k, st);
      TallyTwice(state, before, st, count, undone, waiting, n, u, w);
      UntakenStep(c, state, c.g.roff[j], k);
      count, undone, waiting := count + n, undone + u, waiting + w;
      k := k + 1;
    }
  }

  lemma RowFacts(c: Scene, j: nat)
    requires Complete(c) && j < |c.g.svc|
    ensures |c.g.roff| == |c.g.svc| + 1 && |c.g.src| == |c.g.dst| && |c.state| == |c.g.svc|
    ensures c.g.roff[j] <= c.g.roff[j + 1] <= |c.g.dst|
    ensures forall k :: c.g.roff[j] <= k < c.g.roff[j + 1] ==> c.g.src[k] == j
  {
    RowRange(c.g, j);
  }

  lemma UntakenStep(c: Scene, state: seq<State>, lo: nat, k: nat)
    requires Complete(c) && |state| == |c.g.svc| && lo <= k <= |c.g.dst|
    ensures |c.g.svc| == |c.up| == |c.runs| && Untaken(c, state, lo, lo)
    ensures k < |c.g.dst| ==>
              c.g.dst[k] < |c.g.svc| && (Untaken(c, state, lo, k + 1) <==>
                                         Untaken(c, state, lo, k) && !Take(c, state[c.g.dst[k]], c.g.dst[k]))
  {
  }

  lemma TallyNone(state: seq<State>)
    ensures Tally(state, state, 0, 0, 0)
  {
  }

  lemma TallyTwice(a: seq<State>, b: seq<State>, c: seq<State>, n: nat, u: nat, w: nat, n': nat, u': nat, w': nat)
    requires Tally(a, b, n, u, w) && Tally(b, c, n', u', w')
    ensures Tally(a, c, n + n', u + u', w + w')
  {
  }

  lemma MarkedSize(c: Scene, seeds: set<nat>, upto: nat, st: seq<State>)
    requires Complete(c) && upto <= |c.g.dst| && Marked(c, seeds, upto, st)
    ensures |st| == |c.state|
  {
  }

  /** An edge from a service that is not down carries nothing. */
  lemma QuietRow(c: Scene, seeds: set<nat>, j: nat, st: seq<State>)
    requires Complete(c) && j < |c.g.svc| && Marked(c, seeds, c.g.roff[j], st)
    requires j !in seeds && !Hit(c, seeds, j)
    ensures Marked(c, seeds, c.g.roff[j + 1], st)
  {
    forall d | 0 <= d < |st|
      ensures Struck(c, seeds, d, c.g.roff[j + 1]) <==> Struck(c, seeds, d, c.g.roff[j])
    {
      assert forall k :: c.g.roff[j] <= k < c.g.roff[j + 1] ==> c.g.src[k] == j;
    }
  }

  /** The forward pass from `from`. The seeds below `from`, if any, have had their rows done. */
  method Spread(c: Scene, ghost seeds: set<nat>, state: seq<State>, from: nat)
      returns (st: seq<State>, count: nat, undone: nat, waiting: nat)
    requires Complete(c) && from <= |c.g.svc|
    requires forall x :: from <= x < |c.g.svc| ==> (x in seeds <==> IsBad(c.state[x]))
    requires Marked(c, seeds, c.g.roff[from], state)
    ensures |st| == |c.state|
    ensures forall d :: 0 <= d < |st| ==> st[d] == if Hit(c, seeds, d) then Skipped else c.state[d]
    ensures Tally(state, st, count, undone, waiting)
  {
    var g := c.g;
    st, count, undone, waiting := state, 0, 0, 0;
    var j := from;
    while j < |g.svc|
      invariant from <= j <= |g.svc|
      invariant Marked(c, seeds, g.roff[j], st) && Tally(state, st, count, undone, waiting)
    {
      DecidedBeforeRow(c, seeds, j);
      if IsBad(st[j]) {
        var n, u, w;
        st, n, u, w := TakeRow(c, seeds, j, st);
        count, undone, waiting := count + n, undone + u, waiting + w;
      } else {
        QuietRow(c, seeds, j, st);
      }
      j := j + 1;
    }
  }

  /** Service i failed. Exactly the services the failure reaches are skipped. */
  method FailPoison(c: Scene, i: nat) returns (st: seq<State>, count: nat, undone: nat, waiting: nat)
    requires Complete(c) && i < |c.g.svc|
    ensures |st| == |c.state|
    ensures forall d :: 0 <= d < |st| ==> st[d] == FailedState(c, i, d)
    ensures st[i] == Failed && forall d :: 0 <= d < i || i < d < c.g.roots ==> st[d] == c.state[d]
    ensures forall d :: 0 <= d < |st| && d != i ==> st[d] == c.state[d] || (st[d] == Skipped && Take(c, c.state[d], d))
    ensures Tally(c.state[i := Failed], st, count, undone, waiting)
  {
    var after := c.(state := c.state[i := Failed]);
    ghost var seeds := BadFrom(after.state, i);
    forall d | 0 <= d < |c.state| ensures !Struck(after, seeds, d, c.g.roff[i]) {
      NothingBefore(after, seeds, i, d, c.g.roff[i]);
    }
    forall d | 0 <= d <= i ensures !Hit(after, seeds, d) {
      NothingBefore(after, seeds, i, d, |c.g.dst|);
    }
    assert forall d :: i < d < c.g.roots ==> !Hit(after, seeds, d);
    st, count, undone, waiting := Spread(after, seeds, after.state, i);
  }

  ghost function BadFrom(state: seq<State>, from: nat): set<nat> {
    set x | from <= x < |state| && IsBad(state[x])
  }

  /** The state of d once i has failed. */
  ghost function FailedState(c: Scene, i: nat, d: nat): State
    requires Complete(c) && i < |c.g.svc| && d < |c.g.svc|
  {
    var after := c.(state := c.state[i := Failed]);
    if Hit(after, BadFrom(after.state, i), d) then Skipped else after.state[d]
  }

  /** The state of d once i is down for good without having failed: nothing changes unless a direct dependent
      can be taken. */
  ghost function GoneState(c: Scene, i: nat, d: nat): State
    requires Complete(c) && i < |c.g.svc| && d < |c.g.svc|
  {
    RowFacts(c, i);
    if !Untaken(c, c.state, c.g.roff[i], c.g.roff[i + 1]) && Hit(c, {i} + BadFrom(c.state, i + 1), d) then Skipped
    else c.state[d]
  }

  /** Every service is in the state the end of i leaves it in. */
  ghost predicate GoneLeaves(c: Scene, i: nat, st: seq<State>) {
    Complete(c) && i < |c.g.svc| == |st| && forall d :: 0 <= d < |st| ==> st[d] == GoneState(c, i, d)
  }

  /** Service i is down for good without having failed: the pass runs only if it takes a direct
      dependent, and then treats i like a failure. */
  method FailPoisonDeps(c: Scene, i: nat) returns (st: seq<State>, count: nat, undone: nat, waiting: nat)
    requires Complete(c) && i < |c.g.svc|
    ensures |st| == |c.state|
    ensures !Untaken(c, c.state, c.g.roff[i], c.g.roff[i + 1]) ==>
              forall d :: 0 <= d < |st| ==>
                st[d] == if Hit(c, {i} + BadFrom(c.state, i + 1), d) then Skipped else c.state[d]
    ensures Untaken(c, c.state, c.g.roff[i], c.g.roff[i + 1]) ==> st == c.state
    ensures GoneLeaves(c, i, st)
    ensures forall d :: 0 <= d <= i || 0 <= d < c.g.roots ==> st[d] == c.state[d]
    ensures forall d :: 0 <= d < |st| ==> st[d] == c.state[d] || (st[d] == Skipped && Take(c, c.state[d], d))
    ensures Tally(c.state, st, count, undone, waiting)
  {
    ghost var seeds := {i} + BadFrom(c.state, i + 1);
    forall d | 0 <= d < |c.state| ensures !Struck(c, seeds, d, c.g.roff[i]) {
      NothingBefore(c, seeds, i, d, c.g.roff[i]);
    }
    forall d | 0 <= d <= i ensures !Hit(c, seeds, d) {
      NothingBefore(c, seeds, i, d, |c.g.dst|);
    }
    st, count, undone, waiting := TakeRow(c, seeds, i, c.state);
    if count + undone != 0 {
      var n, u, w;
      st, n, u, w := Spread(c, seeds, st, i + 1);
      count, undone, waiting := count + n, undone + u, waiting + w;
    }
  }
}
