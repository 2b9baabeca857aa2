/** Launching: what must hold of the whole system when a process is started. */
module Launches {
  import opened Graphs
  import opened Ledgers
  import opened Runs
  import opened Readiness
  import opened Services

  /** The circumstances of one launch. */
  datatype Launch = Launch(svc: nat, up: seq<bool>, ever: set<nat>, held: bool, down: bool, children: map<nat, nat>)

  /** Every uptime prerequisite was up, every order-only one had been ready, the service was not
      held, shutdown had not begun, and no earlier instance of it was waiting to be reaped. */
  ghost predicate SafeLaunch(g: Graph, l: Launch) {
    && l.svc < |g.svc| && |l.up| == |g.svc| && |g.src| == |g.dst|
    && g.svc[l.svc].kind != Target && !l.held && !l.down
    && (forall p :: p in l.children ==> l.children[p] != l.svc)
    && (forall k :: 0 <= k < |g.dst| && g.dst[k] == l.svc ==>
          g.src[k] < |g.svc| && if g.svc[g.src[k]].orderOnly then g.src[k] in l.ever else l.up[g.src[k]])
  }

  ghost predicate LaunchesSafe(g: Graph, launches: seq<Launch>) {
    forall a :: 0 <= a < |launches| ==> SafeLaunch(g, launches[a])
  }

  /** A service whose counter is zero can be launched safely. */
  lemma LaunchIsSafe(g: Graph, r: Ready, b: Book, s: Services, children: map<nat, nat>, i: nat)
    requires Consistent(g, r, b, -1) && PidOk(s.runs, children) && |s.runs| == |g.svc|
    requires i < |g.svc| && g.svc[i].kind != Target && r.unmet[i] == 0 && s.runs[i].pid == 0 && s.runs[i].stalePid == 0
    ensures SafeLaunch(g, Launch(i, r.up, b.ever, false, false, children))
  {
    MetMeansReleased(g, r.released, b.pend, b.owe, r.unmet, i);
    forall k | 0 <= k < |g.dst| && g.dst[k] == i
      ensures g.src[k] < |g.svc| && if g.svc[g.src[k]].orderOnly then g.src[k] in b.ever else r.up[g.src[k]]
    {
      var j := g.src[k];
      assert UpFine(g.svc[j].orderOnly, r.up[j], r.released[j], j in b.ever);
    }
  }

  lemma LaunchesMore(g: Graph, launches: seq<Launch>, l: Launch)
    requires LaunchesSafe(g, launches) && SafeLaunch(g, l)
    ensures LaunchesSafe(g, launches + [l])
  {
  }

  /** There is always a number that is not in use. */
  lemma FreshPid(used: set<nat>)
    ensures exists p: nat :: p != 0 && p !in used
  {
    var top := Above(used);
    assert top + 1 !in used;
  }

  lemma {:induction false} Above(used: set<nat>) returns (top: nat)
    ensures forall p :: p in used ==> p <= top
    decreases used
  {
    if used == {} {
      top := 0;
    } else {
      var p :| p in used;
      var t := Above(used - {p});
      assert forall q :: q in used ==> q == p || q in used - {p};
      top := if t < p then p else t;
    }
  }
}
