/** Every decrement and increment of a counter of unmet prerequisites belongs to one edge. The
    ledger keeps, per edge, what the counter still owes for it. */
module Ledgers {
  import opened Graphs

  /** The sum over the edges into d of what is owed for each. */
  ghost function Owed(dst: seq<nat>, owe: seq<nat>, d: nat): nat
    requires |owe| == |dst|
  {
    if dst == [] then 0
    else
      Owed(dst[..|dst| - 1], owe[..|dst| - 1], d)
      + (if dst[|dst| - 1] == d then owe[|dst| - 1] else 0)
  }

  /** One unit while the prerequisite is not released, one more while its release is still queued. */
  function Due(released: bool, queued: bool): nat {
    (if released then 0 else 1) + (if queued then 1 else 0)
  }

  /** `pend` are the edges whose release has not been handed out yet, `late` the edges whose
      prerequisite was taken back but whose counter was not raised yet. */
  ghost predicate Ledger(g: Graph, released: seq<bool>, pend: set<nat>, late: set<nat>,
                         owe: seq<nat>, unmet: seq<nat>)
  {
    && Rows(g)
    && |released| == |unmet| == |g.svc|
    && |owe| == |g.dst|
    && (forall k :: 0 <= k < |owe| ==>
          owe[k] + (if k in late then 1 else 0) == Due(released[g.src[k]], k in pend))
    && (forall d {:trigger Owed(g.dst, owe, d)} :: 0 <= d < |unmet| ==> unmet[d] == Owed(g.dst, owe, d))
  }

  lemma {:induction false} OwedUpdate(dst: seq<nat>, owe: seq<nat>, k: nat, v: nat, d: nat)
    requires |owe| == |dst| && k < |dst|
    ensures Owed(dst, owe[k := v], d)
         == Owed(dst, owe, d) + (if dst[k] == d then v - owe[k] else 0)
    decreases |dst|
  {
    var last := |dst| - 1;
    if k < last {
      OwedUpdate(dst[..last], owe[..last], k, v, d);
      assert owe[k := v][..last] == owe[..last][k := v];
    } else {
      assert owe[k := v][..last] == owe[..last];
    }
  }

  /** A counter is at least what any one of its edges owes. */
  lemma {:induction false} OwedAtLeast(dst: seq<nat>, owe: seq<nat>, k: nat)
    requires |owe| == |dst| && k < |dst|
    ensures Owed(dst, owe, dst[k]) >= owe[k]
    decreases |dst|
  {
    var last := |dst| - 1;
    if k < last {
      OwedAtLeast(dst[..last], owe[..last], k);
      assert dst[..last][k] == dst[k] && owe[..last][k] == owe[k];
    }
  }

  lemma {:induction false} OwedOnes(dst: seq<nat>, owe: seq<nat>, d: nat)
    requires |owe| == |dst|
    requires forall k :: 0 <= k < |owe| ==> owe[k] == 1
    ensures Owed(dst, owe, d) == InDegree(dst, d)
    decreases |dst|
  {
    if dst != [] {
      OwedOnes(dst[..|dst| - 1], owe[..|dst| - 1], d);
    }
  }

  /** A counter at zero means every prerequisite is released and none of those releases is queued. */
  lemma MetMeansReleased(g: Graph, released: seq<bool>, pend: set<nat>, owe: seq<nat>, unmet: seq<nat>, d: nat)
    requires Ledger(g, released, pend, {}, owe, unmet)
    requires d < |g.svc| && unmet[d] == 0
    ensures forall k :: 0 <= k < |g.dst| && g.dst[k] == d ==> released[g.src[k]] && k !in pend
  {
    forall k | 0 <= k < |g.dst| && g.dst[k] == d ensures released[g.src[k]] && k !in pend {
      OwedAtLeast(g.dst, owe, k);
    }
  }

  /** Handing out the queued release of edge k lowers exactly one counter. */
  lemma HandOutKeeps(g: Graph, released: seq<bool>, pend: set<nat>, owe: seq<nat>, unmet: seq<nat>, k: nat)
    requires Ledger(g, released, pend, {}, owe, unmet)
    requires k < |g.dst| && g.dst[k] < |g.svc| && k in pend
    ensures unmet[g.dst[k]] > 0 && owe[k] > 0
    ensures Ledger(g, released, pend - {k}, {}, owe[k := owe[k] - 1], unmet[g.dst[k] := unmet[g.dst[k]] - 1])
  {
    OwedAtLeast(g.dst, owe, k);
    forall d {:trigger Owed(g.dst, owe[k := owe[k] - 1], d)} | 0 <= d < |unmet|
      ensures unmet[g.dst[k] := unmet[g.dst[k]] - 1][d] == Owed(g.dst, owe[k := owe[k] - 1], d)
    {
      OwedUpdate(g.dst, owe, k, owe[k] - 1, d);
    }
  }

  /** Raising the counter of edge k after its prerequisite was taken back. */
  lemma TakeBackKeeps(g: Graph, released: seq<bool>, pend: set<nat>, late: set<nat>, owe: seq<nat>, unmet: seq<nat>,
                      k: nat)
    requires Ledger(g, released, pend, late, owe, unmet)
    requires k < |g.dst| && g.dst[k] < |g.svc| && k in late
    ensures Ledger(g, released, pend, late - {k}, owe[k := owe[k] + 1], unmet[g.dst[k] := unmet[g.dst[k]] + 1])
  {
    forall d {:trigger Owed(g.dst, owe[k := owe[k] + 1], d)} | 0 <= d < |unmet|
      ensures unmet[g.dst[k] := unmet[g.dst[k]] + 1][d] == Owed(g.dst, owe[k := owe[k] + 1], d)
    {
      OwedUpdate(g.dst, owe, k, owe[k] + 1, d);
    }
  }

  /** Releasing j and queueing its edges leaves every counter alone. */
  lemma EnqueueKeeps(g: Graph, released: seq<bool>, pend: set<nat>, owe: seq<nat>, unmet: seq<nat>, j: nat)
    requires Ledger(g, released, pend, {}, owe, unmet)
    requires j < |g.svc| && !released[j] && pend !! RowOf(g, j)
    ensures Ledger(g, released[j := true], pend + RowOf(g, j), {}, owe, unmet)
  {
  }

  /** Taking the release of j back makes its edges late. */
  lemma WithdrawKeeps(g: Graph, released: seq<bool>, pend: set<nat>, late: set<nat>, owe: seq<nat>, unmet: seq<nat>,
                      j: nat)
    requires Ledger(g, released, pend, late, owe, unmet)
    requires j < |g.svc| && released[j] && late !! RowOf(g, j)
    ensures Ledger(g, released[j := false], pend, late + RowOf(g, j), owe, unmet)
  {
  }
}
