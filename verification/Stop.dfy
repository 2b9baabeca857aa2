/** The ordered part of shutdown: services are asked to stop from the leaves of the graph to its roots,
    each only after everything that depends on it has gone. */
module Stops {
  import opened Counting
  import opened Graphs
  import opened Ledgers
  import opened Transposes

  datatype Phase = Untouched | Asked | Killed | Settled

  predicate IsOpen(p: Phase) { p != Settled }

  /** A signal that was sent, and what had settled by then. */
  datatype Signal = Signal(svc: nat, kill: bool, at: int, settled: set<nat>)

  /** What one round of waiting finds: the time, the services that had gone when it began and when
      children had been reaped, and the time after that. */
  datatype Round = Round(now: int, gone: set<nat>, left: set<nat>, later: int)

  // ---------------------------------------------------------------- who depends on whom

  /** A chain of dependencies that leads from i to d. */
  ghost predicate Path(g: Graph, path: seq<nat>, i: nat, d: nat)
    requires |g.src| == |g.dst|
  {
    && |path| >= 2 && path[0] == i && path[|path| - 1] == d
    && forall a :: 0 < a < |path| ==> Prereq(g, path[a - 1], path[a])
  }

  /** d depends on i, directly or not. */
  ghost predicate Dependent(g: Graph, i: nat, d: nat)
    requires |g.src| == |g.dst|
  {
    exists path :: Path(g, path, i, d)
  }

  ghost function SettledSet(st: seq<Phase>): set<nat> {
    set x | 0 <= x < |st| && st[x] == Settled
  }

  /** What depends on a settled service is settled. */
  ghost predicate Closed(g: Graph, st: seq<Phase>) {
    && |g.src| == |g.dst| && |st| == |g.svc|
    && forall k :: 0 <= k < |g.dst| ==>
        g.src[k] < |st| && g.dst[k] < |st| && (st[g.src[k]] == Settled ==> st[g.dst[k]] == Settled)
  }

  /** If the direct dependents of i are settled, so are all. */
  lemma {:induction false} PathSettled(g: Graph, st: seq<Phase>, path: seq<nat>, i: nat, d: nat)
    requires Closed(g, st) && i < |g.svc| && Path(g, path, i, d)
    requires forall k :: 0 <= k < |g.dst| && g.src[k] == i ==> st[g.dst[k]] == Settled
    ensures d in SettledSet(st)
    decreases |path|
  {
    var last := |path| - 1;
    assert Prereq(g, path[last - 1], path[last]);
    var k :| 0 <= k < |g.dst| && g.src[k] == path[last - 1] && g.dst[k] == path[last];
    if last > 1 {
      var p := path[..last];
      forall a | 0 < a < |p| ensures Prereq(g, p[a - 1], p[a]) {
        assert p[a - 1] == path[a - 1] && p[a] == path[a];
      }
      PathSettled(g, st, p, i, path[last - 1]);
    }
  }

  // ---------------------------------------------------------------- the counters

  /** Every edge whose dependent is still open holds its prerequisite back, except the ones in `done`. */
  ghost predicate Held(g: Graph, st: seq<Phase>, done: set<nat>, owe: seq<nat>, waitc: seq<nat>) {
    && |g.src| == |g.dst| == |owe| && |st| == |waitc| == |g.svc|
    && (forall k :: 0 <= k < |owe| ==> g.dst[k] < |st| && owe[k] == if k in done || st[g.dst[k]] == Settled then 0
        else 1)
    && (forall i {:trigger Owed(g.src, owe, i)} :: 0 <= i < |waitc| ==> waitc[i] == Owed(g.src, owe, i))
  }

  /** The number of direct dependents of i that are not settled. */
  ghost function OpenDependents(g: Graph, st: seq<Phase>, i: nat): nat
    requires |g.src| == |g.dst| && forall k :: 0 <= k < |g.dst| ==> g.dst[k] < |st|
  {
    |set k | 0 <= k < |g.src| && g.src[k] == i && st[g.dst[k]] != Settled|
  }

  /** The edges out of i that are in ks. */
  ghost function OutOf(src: seq<nat>, i: nat, ks: set<nat>): set<nat> {
    set k | 0 <= k < |src| && src[k] == i && k in ks
  }

  lemma {:induction false} OwedCard(src: seq<nat>, owe: seq<nat>, i: nat, open: set<nat>)
    requires |owe| == |src| && forall k :: 0 <= k < |owe| ==> owe[k] == if k in open then 1 else 0
    ensures Owed(src, owe, i) == |OutOf(src, i, open)|
    decreases |src|
  {
    if src != [] {
      var last := |src| - 1;
      OwedCard(src[..last], owe[..last], i, open);
      var rest := OutOf(src[..last], i, open);
      if src[last] == i && last in open {
        assert OutOf(src, i, open) == rest + {last};
      } else {
        assert OutOf(src, i, open) == rest;
      }
    }
  }

  /** Between two services the counters are exact. */
  lemma WaitExact(g: Graph, st: seq<Phase>, owe: seq<nat>, waitc: seq<nat>, i: nat)
    requires Held(g, st, {}, owe, waitc) && i < |waitc|
    ensures waitc[i] == OpenDependents(g, st, i)
  {
    var open := set k | 0 <= k < |g.src| && st[g.dst[k]] != Settled;
    OwedCard(g.src, owe, i, open);
    assert OutOf(g.src, i, open) == set k | 0 <= k < |g.src| && g.src[k] == i && st[g.dst[k]] != Settled;
  }

  lemma WaitZero(g: Graph, st: seq<Phase>, owe: seq<nat>, waitc: seq<nat>, i: nat)
    requires Held(g, st, {}, owe, waitc) && i < |waitc| && waitc[i] == 0
    ensures forall k :: 0 <= k < |g.dst| && g.src[k] == i ==> st[g.dst[k]] == Settled
  {
    forall k | 0 <= k < |g.dst| && g.src[k] == i ensures st[g.dst[k]] == Settled {
      OwedAtLeast(g.src, owe, k);
    }
  }

  /** Letting go of the prerequisite behind edge k. */
  lemma LetGo(g: Graph, st: seq<Phase>, done: set<nat>, owe: seq<nat>, waitc: seq<nat>, k: nat)
    requires Held(g, st, done, owe, waitc) && k < |g.src| == |g.dst| && g.src[k] < |waitc| && g.dst[k] < |st|
    requires k !in done && st[g.dst[k]] != Settled
    ensures |owe| == |g.src| && waitc[g.src[k]] > 0
    ensures Held(g, st, done + {k}, owe[k := 0], waitc[g.src[k] := waitc[g.src[k]] - 1])
  {
    OwedAtLeast(g.src, owe, k);
    forall i {:trigger Owed(g.src, owe[k := 0], i)} | 0 <= i < |waitc|
      ensures waitc[g.src[k] := waitc[g.src[k]] - 1][i] == Owed(g.src, owe[k := 0], i)
    {
      OwedUpdate(g.src, owe, k, 0, i);
    }
  }

  /** With every edge into i let go, i is settled. */
  lemma AllLetGo(g: Graph, st: seq<Phase>, done: set<nat>, owe: seq<nat>, waitc: seq<nat>, i: nat)
    requires Held(g, st, done, owe, waitc) && i < |st|
    requires forall k :: k in done <==> k in EdgesInto(g.dst, i)
    ensures Held(g, st[i := Settled], {}, owe, waitc)
  {
    EdgesIntoAll(g.dst, i);
  }

  lemma {:induction false} RowLength(g: Graph, i: nat, m: nat)
    requires Rows(g) && i < |g.svc| && m <= |g.src|
    ensures g.roff[i] <= g.roff[i + 1]
    ensures InDegree(g.src[..m], i) == if m <= g.roff[i] then 0 else if m <= g.roff[i + 1] then m - g.roff[i]
            else g.roff[i + 1] - g.roff[i]
    decreases m
  {
    RowRange(g, i);
    if m > 0 {
      RowLength(g, i, m - 1);
      assert g.src[..m][..m - 1] == g.src[..m - 1];
      assert g.src[..m][m - 1] == g.src[m - 1];
    }
  }

  /** Some service can always be dealt with: the last open one holds back, but nothing holds it. */
  lemma NoDeadlock(g: Graph, st: seq<Phase>, owe: seq<nat>, waitc: seq<nat>)
    requires Sound(g) && Held(g, st, {}, owe, waitc) && Count(st, IsOpen) > 0
    ensures exists i :: 0 <= i < |st| && st[i] != Settled && waitc[i] == 0
  {
    var i := LastOpen(st);
    WaitExact(g, st, owe, waitc, i);
    assert (set k | 0 <= k < |g.src| && g.src[k] == i && st[g.dst[k]] != Settled) == {};
  }

  lemma {:induction false} LastOpen(st: seq<Phase>) returns (i: nat)
    requires Count(st, IsOpen) > 0
    ensures i < |st| && st[i] != Settled && forall x :: i < x < |st| ==> st[x] == Settled
    decreases |st|
  {
    i := |st| - 1;
    if st[i] == Settled {
      i := LastOpen(st[..|st| - 1]);
    }
  }

  // ---------------------------------------------------------------- the signals

  /** A service is sent SIGTERM only after all its dependents have settled, and at most once; and then
      SIGKILL at most once, no sooner than its stop timeout. */
  ghost predicate Orderly(g: Graph, log: seq<Signal>) {
    && |g.src| == |g.dst|
    && (forall a :: 0 <= a < |log| ==> log[a].svc < |g.svc| && forall d :: Dependent(g, log[a].svc, d) ==>
        d in log[a].settled)
    && (forall a, b :: 0 <= a < b < |log| && log[a].svc == log[b].svc ==>
          !log[a].kill && log[b].kill && log[b].at >= log[a].at + g.svc[log[a].svc].stopMs)
    && (forall b :: 0 <= b < |log| && log[b].kill ==> exists a :: 0 <= a < b && log[a].svc == log[b].svc)
  }

  /** The phase of i tells what it was sent. */
  ghost predicate Told(g: Graph, log: seq<Signal>, phase: Phase, stopAt: int, i: nat)
    requires i < |g.svc|
  {
    && (phase == Untouched ==> forall a :: 0 <= a < |log| ==> log[a].svc != i)
    && (phase == Asked ==>
          && (exists a :: 0 <= a < |log| && log[a].svc == i)
          && (forall a :: 0 <= a < |log| && log[a].svc == i ==> !log[a].kill && log[a].at + g.svc[i].stopMs == stopAt))
  }

  lemma AskKeeps(g: Graph, log: seq<Signal>, i: nat, now: int, settled: set<nat>, stopAt: int)
    requires Orderly(g, log) && i < |g.svc| && Told(g, log, Untouched, stopAt, i)
    requires forall d :: Dependent(g, i, d) ==> d in settled
    ensures Orderly(g, log + [Signal(i, false, now, settled)])
    ensures Told(g, log + [Signal(i, false, now, settled)], Asked, now + g.svc[i].stopMs, i)
  {
    var l := log + [Signal(i, false, now, settled)];
    assert l[|log|].svc == i;
    forall b | 0 <= b < |l| && l[b].kill ensures exists a :: 0 <= a < b && l[a].svc == l[b].svc {
      var a :| 0 <= a < b && log[a].svc == log[b].svc;
      assert l[a].svc == l[b].svc;
    }
  }

  lemma KillKeeps(g: Graph, log: seq<Signal>, i: nat, now: int, settled: set<nat>, stopAt: int)
    requires Orderly(g, log) && i < |g.svc| && Told(g, log, Asked, stopAt, i) && now >= stopAt
    requires forall d :: Dependent(g, i, d) ==> d in settled
    ensures Orderly(g, log + [Signal(i, true, now, settled)])
  {
    var l := log + [Signal(i, true, now, settled)];
    forall b | 0 <= b < |l| && l[b].kill ensures exists a :: 0 <= a < b && l[a].svc == l[b].svc {
      if b < |log| {
        var a :| 0 <= a < b && log[a].svc == log[b].svc;
        assert l[a].svc == l[b].svc;
      } else {
        var a :| 0 <= a < |log| && log[a].svc == i;
        assert l[a].svc == l[b].svc;
      }
    }
  }

  lemma ToldOther(g: Graph, log: seq<Signal>, s: Signal, phase: Phase, stopAt: int, i: nat)
    requires i < |g.svc| && Told(g, log, phase, stopAt, i) && s.svc != i
    ensures Told(g, log + [s], phase, stopAt, i)
  {
    var l := log + [s];
    if phase == Asked {
      var a :| 0 <= a < |log| && log[a].svc == i;
      assert l[a].svc == i;
    }
  }

  // ---------------------------------------------------------------- the state of a shutdown

  /** Who holds whom back, who was sent what, and who has settled. */
  datatype Progress = Progress(waitc: seq<nat>, st: seq<Phase>, stopAt: seq<int>, left: nat)

  ghost predicate Recorded(g: Graph, p: Progress, log: seq<Signal>) {
    && |p.st| == |p.stopAt| == |p.waitc| == |g.svc| && Orderly(g, log)
    && (forall i :: 0 <= i < |p.st| ==> Told(g, log, p.st[i], p.stopAt[i], i))
    && (forall i :: 0 <= i < |p.st| && p.st[i] != Untouched ==> p.waitc[i] == 0)
  }

  ghost predicate Tracked(g: Graph, p: Progress, owe: seq<nat>) {
    && Held(g, p.st, {}, owe, p.waitc) && Closed(g, p.st) && p.left == Count(p.st, IsOpen)
  }

  /** Nothing has been signalled and nothing has settled. */
  function Outset(g: Graph): Progress
    requires |g.roff| == |g.svc| + 1 && forall i :: 0 <= i < |g.svc| ==> g.roff[i] <= g.roff[i + 1]
  {
    var n := |g.svc|;
    Progress(seq(n, i requires 0 <= i < n => g.roff[i + 1] - g.roff[i]), seq(n, _ => Untouched), seq(n, _ => 0), n)
  }

  lemma OutsetFine(g: Graph) returns (owe: seq<nat>)
    requires Valid(g)
    ensures |g.roff| == |g.svc| + 1 && forall i :: 0 <= i < |g.svc| ==> g.roff[i] <= g.roff[i + 1]
    ensures Tracked(g, Outset(g), owe) && Recorded(g, Outset(g), [])
  {
    owe := seq(|g.src|, _ => 1);
    OutsetHeld(g, owe);
    CountAll(Outset(g).st, IsOpen);
    hide Held;
  }

  lemma OutsetHeld(g: Graph, owe: seq<nat>)
    requires Valid(g) && |owe| == |g.src| && forall k :: 0 <= k < |owe| ==> owe[k] == 1
    ensures |g.roff| == |g.svc| + 1 && forall i :: 0 <= i < |g.svc| ==> g.roff[i] <= g.roff[i + 1]
    ensures Held(g, Outset(g).st, {}, owe, Outset(g).waitc)
  {
    var p := Outset(g);
    forall i {:trigger Owed(g.src, owe, i)} | 0 <= i < |p.waitc| ensures p.waitc[i] == Owed(g.src, owe, i) {
      OwedOnes(g.src, owe, i);
      RowLength(g, i, |g.src|);
      assert g.src[..|g.src|] == g.src;
    }
  }

  /** A signal for service i, which nothing holds back, changes only its phase. */
  lemma PhaseKeeps(g: Graph, p: Progress, owe: seq<nat>, i: nat, phase: Phase, at: int)
    requires Tracked(g, p, owe) && i < |p.st| == |p.stopAt| && p.st[i] != Settled && phase != Settled
    ensures Tracked(g, p.(st := p.st[i := phase], stopAt := p.stopAt[i := at]), owe)
    ensures SettledSet(p.st[i := phase]) == SettledSet(p.st)
  {
    CountUpdate(p.st, i, phase, IsOpen);
  }

  /** When nothing holds i back, everything that depends on it has settled. */
  lemma NothingHolds(g: Graph, p: Progress, owe: seq<nat>, i: nat)
    requires Tracked(g, p, owe) && i < |p.waitc| && p.waitc[i] == 0
    ensures forall d :: Dependent(g, i, d) ==> d in SettledSet(p.st)
    ensures forall k :: 0 <= k < |g.dst| && g.src[k] == i ==> p.st[g.dst[k]] == Settled
  {
    WaitZero(g, p.st, owe, p.waitc, i);
    forall d | Dependent(g, i, d) ensures d in SettledSet(p.st) {
      var path :| Path(g, path, i, d);
      PathSettled(g, p.st, path, i, d);
    }
  }

  lemma SignalKeeps(g: Graph, p: Progress, owe: seq<nat>, log: seq<Signal>, i: nat, now: int, kill: bool)
    requires Tracked(g, p, owe) && Recorded(g, p, log) && i < |p.st| && p.waitc[i] == 0
    requires if kill then p.st[i] == Asked && now >= p.stopAt[i] else p.st[i] == Untouched
    ensures var at := if kill then p.stopAt[i] else now + g.svc[i].stopMs;
            var q := p.(st := p.st[i := if kill then Killed else Asked], stopAt := p.stopAt[i := at]);
            Tracked(g, q, owe) && Recorded(g, q, log + [Signal(i, kill, now, SettledSet(p.st))])
  {
    NothingHolds(g, p, owe, i);
    var sig := Signal(i, kill, now, SettledSet(p.st));
    hide Orderly, Told, Dependent, Held, Closed;
    if kill {
      KillKeeps(g, log, i, now, sig.settled, p.stopAt[i]);
      PhaseKeeps(g, p, owe, i, Killed, p.stopAt[i]);
      ToldKilled(g, log + [sig], p.stopAt[i], i);
    } else {
      AskKeeps(g, log, i, now, sig.settled, p.stopAt[i]);
      PhaseKeeps(g, p, owe, i, Asked, now + g.svc[i].stopMs);
    }
    forall x | 0 <= x < |p.st| && x != i ensures Told(g, log + [sig], p.st[x], p.stopAt[x], x) {
      ToldOther(g, log, sig, p.st[x], p.stopAt[x], x);
    }
  }

  lemma ToldKilled(g: Graph, log: seq<Signal>, at: int, i: nat)
    requires i < |g.svc|
    ensures Told(g, log, Killed, at, i) && Told(g, log, Settled, at, i)
  {
  }

  /** Service i, which nothing holds back, has settled, and lets go of its prerequisites. */
  lemma SettleKeeps(g: Graph, p: Progress, owe: seq<nat>, log: seq<Signal>, i: nat, owe': seq<nat>, waitc: seq<nat>)
    requires Tracked(g, p, owe) && Recorded(g, p, log) && i < |p.st| && p.waitc[i] == 0 && p.st[i] != Settled
    requires Held(g, p.st[i := Settled], {}, owe', waitc) && forall x :: 0 <= x < |waitc| ==> waitc[x] <= p.waitc[x]
    ensures p.left > 0
    ensures var q := p.(st := p.st[i := Settled], waitc := waitc, left := p.left - 1);
            Tracked(g, q, owe') && Recorded(g, q, log)
  {
    NothingHolds(g, p, owe, i);
    CountUpdate(p.st, i, Settled, IsOpen);
    CountPositive(p.st, i, IsOpen);
    ToldKilled(g, log, p.stopAt[i], i);
    hide Orderly, Told, Dependent, Held, Count;
  }

  // ---------------------------------------------------------------- one pass

  /** The first i services have had their turn: whoever nothing holds back was asked unless it had gone,
      nobody's time is up, and `next` is not past anybody's deadline. */
  ghost predicate Signalled(p: Progress, q: Progress, i: nat, now: int, gone: set<nat>, next: int) {
    && |q.st| == |p.st| == |p.waitc| == |q.stopAt| && q.waitc == p.waitc && q.left == p.left
    && (forall x :: 0 <= x < |q.st| ==> (q.st[x] == Settled <==> p.st[x] == Settled))
    && (forall x :: 0 <= x < i && x < |q.st| ==>
          && (q.st[x] == Untouched && q.waitc[x] == 0 ==> x in gone)
          && (q.st[x] == Asked ==> now < q.stopAt[x] && next <= q.stopAt[x]))
  }

  lemma SignalledNone(p: Progress, now: int, gone: set<nat>, next: int)
    requires |p.st| == |p.waitc| == |p.stopAt|
    ensures Signalled(p, p, 0, now, gone, next)
  {
  }

  lemma SignalledSooner(p: Progress, q: Progress, i: nat, now: int, gone: set<nat>, next: int, sooner: int)
    requires Signalled(p, q, i, now, gone, next) && sooner <= next
    ensures Signalled(p, q, i, now, gone, sooner)
  {
  }

  lemma SignalledSkip(p: Progress, q: Progress, i: nat, now: int, gone: set<nat>, next: int)
    requires Signalled(p, q, i, now, gone, next) && i < |q.st| && |q.waitc| == |q.st|
    requires q.st[i] == Settled || (q.waitc[i] != 0 && q.st[i] == Untouched)
    ensures Signalled(p, q, i + 1, now, gone, next)
  {
  }

  lemma SignalledStep(p: Progress, q: Progress, q': Progress, i: nat, now: int, gone: set<nat>, next: int)
    requires Signalled(p, q, i, now, gone, next) && i < |q.st| && q.st[i] != Settled
    requires |q'.st| == |q'.stopAt| == |q.st| == |q.stopAt|
    requires q' == q.(st := q.st[i := q'.st[i]], stopAt := q.stopAt[i := q'.stopAt[i]]) && q'.st[i] != Settled
    requires (q'.st[i] == Untouched ==> i in gone) && (q'.st[i] == Asked ==> now < q'.stopAt[i] && next <= q'.stopAt[i])
    ensures Signalled(p, q', i + 1, now, gone, next)
  {
  }

  /** The first i services have had their turn: whatever had gone and was not held back has settled. */
  ghost predicate Let(p: Progress, q: Progress, i: nat, gone: set<nat>) {
    && |q.st| == |p.st| == |q.waitc| == |p.waitc|
    && (forall x :: 0 <= x < |q.st| ==> q.st[x] == p.st[x] || (q.st[x] == Settled && x in gone))
    && (forall x :: 0 <= x < i && x < |q.st| && p.waitc[x] == 0 && x in gone ==> q.st[x] == Settled)
    && (forall x :: 0 <= x < |q.st| ==> q.waitc[x] <= p.waitc[x])
  }

  lemma LetStep(p: Progress, q: Progress, q': Progress, i: nat, gone: set<nat>)
    requires Let(p, q, i, gone) && i < |q.st| == |q'.st| == |q.waitc| == |q'.waitc|
    requires if q.st[i] != Settled && q.waitc[i] == 0 && i in gone then
               q'.st == q.st[i := Settled] && forall x :: 0 <= x < |q'.waitc| ==> q'.waitc[x] <= q.waitc[x]
             else q' == q
    ensures Let(p, q', i + 1, gone)
  {
  }

  lemma LetNone(p: Progress, gone: set<nat>)
    requires |p.st| == |p.waitc|
    ensures Let(p, p, 0, gone)
  {
  }

  // ---------------------------------------------------------------- the protocol

  const STOP_TOTAL_MS := 30000

  class Stopper {
    const g: Graph
    const off: array<nat>
    const idx: array<nat>

    var p: Progress
    ghost var owe: seq<nat>
    ghost var log: seq<Signal>
    /** The services that were seen to have gone. */
    ghost var seen: set<nat>

    /** The lists of prerequisites. */
    ghost predicate Lists()
      reads off, idx
    {
      && Valid(g) && off.Length == |g.svc| + 1 && idx.Length == |g.dst|
      && (forall d :: 0 <= d <= |g.svc| ==> off[d] == Before(g.dst, d))
      && (forall d :: 0 <= d < |g.svc| ==> Listed(g.src, g.dst, idx[..], d, |g.dst|))
    }

    ghost predicate Inv()
      reads this`p, this`owe, this`log, this`seen, off, idx
    {
      Lists() && Tracked(g, p, owe) && Recorded(g, p, log) && SettledSet(p.st) <= seen
    }

    constructor (g: Graph)
      requires Valid(g)
      ensures Inv() && this.g == g && log == [] && fresh(off) && fresh(idx) && SettledSet(p.st) == {}
      ensures p.left == |g.svc|
    {
      var o, x := BuildPrereqs(g);
      ghost var w := OutsetFine(g);
      this.g, off, idx := g, o, x;
      p := Outset(g);
      owe := w;
      log := [];
      seen := {};
      new;
      hide Listed, Before, Valid, Tracked, Recorded;
    }

    /** One service in the first pass of a round. */
    method Visit(i: nat, now: int, gone: bool)
      requires Inv() && i < |p.st| && p.st[i] != Settled && p.waitc[i] == 0
      modifies this`p, this`log
      ensures Inv() && old(log) <= log && |p.st| == |p.stopAt| == |old(p).st| == |old(p).stopAt| && seen == old(seen)
      ensures p == old(p).(st := old(p).st[i := p.st[i]], stopAt := old(p).stopAt[i := p.stopAt[i]])
      ensures p.st[i] != Settled && (p.st[i] == Untouched ==> gone) && (p.st[i] == Asked ==> now < p.stopAt[i])
      ensures old(p).st[i] == Killed ==> p == old(p) && log == old(log)
    {
      hide Lists, Tracked, Orderly, Told;
      if p.st[i] == Untouched {
        if gone {
          return;
        }
        SignalKeeps(g, p, owe, log, i, now, false);
        log := log + [Signal(i, false, now, SettledSet(p.st))];
        Same(i, Asked);
        p := p.(st := p.st[i := Asked], stopAt := p.stopAt[i := now + g.svc[i].stopMs]);
      }
      if p.st[i] == Asked && now >= p.stopAt[i] {
        SignalKeeps(g, p, owe, log, i, now, true);
        log := log + [Signal(i, true, now, SettledSet(p.st))];
        Same(i, Killed);
        p := p.(st := p.st[i := Killed], stopAt := p.stopAt[i := p.stopAt[i]]);
      }
    }

    lemma Same(i: nat, phase: Phase)
      requires i < |p.st| && p.st[i] != Settled && phase != Settled
      ensures SettledSet(p.st[i := phase]) == SettledSet(p.st)
    {
    }

    /** The first pass of a round: asks every service that nothing holds back to stop, and kills the ones
        whose time is up. The result is when the next of these runs out, or the deadline. */
    method SignalPass(now: int, gone: set<nat>, deadline: int) returns (next: int)
      requires Inv()
      modifies this`p, this`log
      ensures Inv() && old(log) <= log && seen == old(seen) && next <= deadline
      ensures Signalled(old(p), p, |g.svc|, now, gone, next)
    {
      hide *;
      Sizes();
      next := deadline;
      SignalledNone(p, now, gone, next);
      var i := 0;
      while i < |g.svc|
        invariant 0 <= i <= |g.svc|
        invariant Inv() && old(log) <= log && seen == old(seen) && next <= deadline
        invariant Signalled(old(p), p, i, now, gone, next)
      {
        ghost var q := p;
        Sizes();
        AskedFree(i);
        if p.st[i] != Settled && p.waitc[i] == 0 {
          Visit(i, now, i in gone);
          if p.st[i] == Asked && p.stopAt[i] < next {
            SignalledSooner(old(p), q, i, now, gone, next, p.stopAt[i]);
            next := p.stopAt[i];
          }
          SignalledStep(old(p), q, p, i, now, gone, next);
        } else {
          SignalledSkip(old(p), p, i, now, gone, next);
        }
        i := i + 1;
      }
    }

    lemma Sizes()
      requires Inv()
      ensures |p.st| == |p.waitc| == |p.stopAt| == |g.svc|
    {
    }

    lemma AskedFree(i: nat)
      requires Inv() && i < |p.st| == |p.waitc|
      ensures p.st[i] != Untouched ==> p.waitc[i] == 0
    {
    }

    /** The edge behind place m of the list of i. */
    lemma EdgeAt(i: nat, m: nat)
      requires Lists() && i < |g.svc|
      ensures off[i + 1] == off[i] + |EdgesInto(g.dst, i)| <= idx.Length && |g.src| == |g.dst|
      ensures m < |EdgesInto(g.dst, i)| ==>
                var e := EdgesInto(g.dst, i)[m];
                e < |g.src| && g.src[e] < |g.svc| && g.dst[e] == i && idx[off[i] + m] == g.src[e]
                    && e !in EdgesInto(g.dst, i)[..m]
    {
      assert g.dst[..|g.dst|] == g.dst;
      assert Listed(g.src, g.dst, idx[..], i, |g.dst|);
      EdgesIntoAll(g.dst, i);
      hide Valid, Listed, EdgesInto, InDegree;
      SrcFits(g);
      assert Before(g.dst, i + 1) == Before(g.dst, i) + InDegree(g.dst, i);
      ListOf(i);
    }

    lemma ListOf(i: nat)
      requires Lists() && i < |g.svc|
      ensures |g.src| == |g.dst| && Before(g.dst, i) + |EdgesInto(g.dst, i)| <= |idx[..]|
      ensures forall m :: 0 <= m < |EdgesInto(g.dst, i)| ==>
                idx[..][Before(g.dst, i) + m] == g.src[EdgesInto(g.dst, i)[m]]
    {
      assert Listed(g.src, g.dst, idx[..], i, |g.dst|);
      assert g.dst[..|g.dst|] == g.dst;
    }

    lemma Opens()
      requires Inv()
      ensures Lists() && Held(g, p.st, {}, owe, p.waitc)
    {
    }

    /** Lets go of every prerequisite of service i. */
    method LetGoAll(i: nat) returns (waitc: seq<nat>, ghost owe': seq<nat>)
      requires Inv() && i < |p.st| && p.st[i] != Settled
      ensures Held(g, p.st[i := Settled], {}, owe', waitc)
      ensures |waitc| == |p.waitc| && forall x :: 0 <= x < |waitc| ==> waitc[x] <= p.waitc[x]
    {
      hide *;
      Sizes();
      Opens();
      ghost var ks := EdgesInto(g.dst, i);
      EdgeAt(i, 0);
      waitc, owe' := p.waitc, owe;
      var k := off[i];
      ghost var done: set<nat> := {};
      while k < off[i + 1]
        invariant off[i] <= k <= off[i + 1] && |waitc| == |p.waitc|
        invariant forall x :: 0 <= x < |waitc| ==> waitc[x] <= p.waitc[x]
        invariant forall e :: e in done <==> e in ks[..k - off[i]]
        invariant Held(g, p.st, done, owe', waitc)
      {
        ghost var m := k - off[i];
        EdgeAt(i, m);
        ghost var e := ks[m];
        LetGo(g, p.st, done, owe', waitc, e);
        var w := idx[k];
        if waitc[w] > 0 {
          waitc := waitc[w := waitc[w] - 1];
        }
        owe' := owe'[e := 0];
        done := done + {e};
        assert ks[..m + 1] == ks[..m] + [e];
        k := k + 1;
      }
      assert ks[..|ks|] == ks;
      AllLetGo(g, p.st, done, owe', waitc, i);
    }

    /** Service i has gone, and nothing that depends on it is left. */
    method Settle(i: nat)
      requires Inv() && i < |p.st| && p.st[i] != Settled && p.waitc[i] == 0
      modifies this`p, this`owe, this`seen
      ensures Inv() && |p.st| == |p.waitc| == |old(p).st| == |old(p).waitc| && p.st == old(p).st[i := Settled]
      ensures p.left == old(p).left - 1 && seen == old(seen) + {i}
      ensures forall x :: 0 <= x < |p.waitc| ==> p.waitc[x] <= old(p).waitc[x]
    {
      Sizes();
      ghost var o;
      var waitc;
      waitc, o := LetGoAll(i);
      SettleKeeps(g, p, owe, log, i, o, waitc);
      hide Lists, Tracked, Recorded;
      p := p.(st := p.st[i := Settled], waitc := waitc, left := p.left - 1);
      owe := o;
      seen := seen + {i};
    }

    /** The second pass of a round: settles what has gone and is not held back. */
    method SettlePass(gone: set<nat>)
      requires Inv()
      modifies this`p, this`owe, this`seen
      ensures Inv() && seen <= old(seen) + gone && Let(old(p), p, |g.svc|, gone)
    {
      hide *;
      Sizes();
      LetNone(p, gone);
      var i := 0;
      while i < |g.svc|
        invariant 0 <= i <= |g.svc|
        invariant Inv() && seen <= old(seen) + gone && Let(old(p), p, i, gone)
      {
        ghost var q := p;
        Sizes();
        if p.st[i] != Settled && p.waitc[i] == 0 && i in gone {
          Settle(i);
        }
        LetStep(old(p), q, p, i, gone);
        i := i + 1;
      }
    }

    /** Stops the services in dependency order, until all have gone or the time for it is up. Nothing is
        signalled if nothing runs. */
    method Run(start: int, alive: set<nat>, rounds: seq<Round>)
      requires Inv() && log == [] && seen == {}
      modifies this`p, this`owe, this`log, this`seen
      ensures Inv() && Orderly(g, log) && SettledSet(p.st) <= seen && |p.st| == |p.waitc| == |g.svc|
      ensures p.left == Count(p.st, IsOpen)
      ensures forall i :: 0 <= i < |g.svc| ==>
                |g.src| == |g.dst| && (forall k :: 0 <= k < |g.dst| ==> g.dst[k] < |p.st|)
                    && p.waitc[i] == OpenDependents(g, p.st, i)
      ensures forall x :: x in seen ==> exists n :: 0 <= n < |rounds| && x in rounds[n].left
      ensures (forall i :: 0 <= i < |g.svc| ==> i !in alive) ==> log == []
    {
      Sizes();
      if exists i :: 0 <= i < |g.svc| && i in alive {
        Rounds(start + STOP_TOTAL_MS, rounds);
      }
      Sizes();
      forall i | 0 <= i < |g.svc|
          ensures |g.src| == |g.dst| && (forall k :: 0 <= k < |g.dst| ==> g.dst[k] < |p.st|)
                  && p.waitc[i] == OpenDependents(g, p.st, i) {
        WaitExact(g, p.st, owe, p.waitc, i);
      }
    }

    method Rounds(deadline: int, rounds: seq<Round>)
      requires Inv() && log == [] && seen == {}
      modifies this`p, this`owe, this`log, this`seen
      ensures Inv()
      ensures forall x :: x in seen ==> exists n :: 0 <= n < |rounds| && x in rounds[n].left
    {
      hide Inv;
      var n := 0;
      while n < |rounds|
        invariant 0 <= n <= |rounds| && Inv()
        invariant forall x :: x in seen ==> exists m :: 0 <= m < |rounds| && x in rounds[m].left
      {
        var r := rounds[n];
        var _ := SignalPass(r.now, r.gone, deadline);
        SettlePass(r.left);
        assert forall x :: x in r.left ==> x in rounds[n].left;
        if p.left == 0 || r.later >= deadline {
          return;
        }
        n := n + 1;
      }
    }
  }
}
