/** The compiled dependency graph as the supervisor reads it, and the ledger that relates the
    counters of unmet prerequisites to it. */
module Graphs {

  datatype Kind = Oneshot | Daemon | Target

  datatype OnFail = OnFailWarn | OnFailStop | OnFailShell

  /** One service record together with its policy record. `unmet` is the in-degree. */
  datatype Service = Service(
    kind: Kind, unmet: nat, restart: bool, orderOnly: bool, notify: bool, onFail: OnFail,
    startTries: nat, startMs: nat, stopMs: nat, retryMs: nat)

  /** Edge k runs from src[k] to its dependent dst[k]; the edges of j occupy roff[j]..roff[j + 1]. */
  datatype Graph = Graph(svc: seq<Service>, roots: nat, roff: seq<nat>, src: seq<nat>, dst: seq<nat>)

  /** What the image verifier establishes of a graph. */
  ghost predicate Valid(g: Graph) {
    && Sound(g)
    && (forall k, l :: 0 <= k < l < |g.dst| && g.src[k] == g.src[l] ==> g.dst[k] < g.dst[l])
    && (forall d {:trigger InDegree(g.dst, d)} :: 0 <= d < |g.svc| ==> g.svc[d].unmet == InDegree(g.dst, d))
    && (forall d :: 0 <= d < |g.svc| ==> (d < g.roots <==> g.svc[d].unmet == 0))
  }

  /** The part of validity the supervisor relies on while it runs. */
  ghost predicate Sound(g: Graph) {
    && Rows(g) && Edges(g) && g.roots <= |g.svc|
    && (forall d :: 0 <= d < |g.svc| ==> WellFormed(g.svc[d]))
  }

  /** Edges run forward, and never to a root. */
  ghost predicate Edges(g: Graph) {
    && |g.src| == |g.dst|
    && (forall k :: 0 <= k < |g.dst| ==> g.src[k] < g.dst[k] < |g.svc| && g.roots <= g.dst[k])
  }

  /** Only daemons restart or report readiness; the accessors replace a zero timeout by a default. */
  predicate WellFormed(s: Service) {
    && (s.restart || s.notify ==> s.kind == Daemon)
    && s.startMs > 0 && s.stopMs > 0 && s.startTries > 0
  }

  /** The row structure of the edge arrays. */
  ghost predicate Rows(g: Graph) {
    && |g.roff| == |g.svc| + 1
    && |g.src| == |g.dst|
    && g.roff[0] == 0 && g.roff[|g.svc|] == |g.dst|
    && (forall i, j :: 0 <= i <= j <= |g.svc| ==> g.roff[i] <= g.roff[j])
    && (forall k :: 0 <= k < |g.src| ==> g.src[k] < |g.svc| && g.roff[g.src[k]] <= k < g.roff[g.src[k] + 1])
    && (forall j, k :: 0 <= j < |g.svc| && g.roff[j] <= k < g.roff[j + 1] ==> g.src[k] == j)
  }

  ghost function InDegree(dst: seq<nat>, d: nat): nat {
    if dst == [] then 0
    else InDegree(dst[..|dst| - 1], d) + (if dst[|dst| - 1] == d then 1 else 0)
  }

  /** The edges leaving j are exactly the ones in its row. */
  lemma RowRange(g: Graph, j: nat)
    requires Rows(g) && j < |g.svc|
    ensures |g.roff| == |g.svc| + 1 && |g.src| == |g.dst| && g.roff[j] <= g.roff[j + 1] <= |g.dst|
    ensures forall k :: 0 <= k < |g.src| ==> (g.src[k] == j <==> g.roff[j] <= k < g.roff[j + 1])
  {
  }

  /** The edges leaving j. */
  ghost function RowOf(g: Graph, j: nat): (r: set<nat>)
    requires Rows(g) && j < |g.svc|
  {
    set k | 0 <= k < |g.src| && g.src[k] == j
  }

  ghost predicate IsTarget(g: Graph, i: nat)
    requires i < |g.svc|
  {
    g.svc[i].kind == Target
  }

  /** p is a direct prerequisite of d. */
  ghost predicate Prereq(g: Graph, p: nat, d: nat)
    requires |g.src| == |g.dst|
  {
    exists k :: 0 <= k < |g.dst| && g.src[k] == p && g.dst[k] == d
  }
}
