/** Who is up, whose readiness has been handed out, and what every service still waits for. */
module Readiness {
  import opened Counting
  import opened Graphs
  import opened Ledgers
  import opened Runs

  /** `up` and `released` per service, the counters of unmet prerequisites, the queue through which
      releases are handed out and the work list through which they are taken back. */
  datatype Ready = Ready(
    up: seq<bool>, released: seq<bool>, unmet: seq<nat>, nUp: nat,
    queue: seq<nat>, qHead: nat, qTail: nat, draining: bool, rqueue: seq<nat>)

  /** Bookkeeping for the proofs: what each edge still contributes to the counter of its dependent,
      the edges whose release is queued, the services that have ever been ready, and how many roots have
      been started. */
  datatype Book = Book(owe: seq<nat>, pend: set<nat>, ever: set<nat>, booted: nat)

  /** A target is released as soon as nothing is owed to it, and an uptime target only then. Before
      the root targets below `booted` have been completed this is promised for the others. */
  ghost predicate TargetFine(g: Graph, t: nat, released: bool, unmet: nat, booted: nat)
    requires t < |g.svc|
  {
    g.svc[t].kind == Target ==>
      && (unmet == 0 && (t < booted || t >= g.roots) ==> released)
      && (released && !g.svc[t].orderOnly ==> unmet == 0)
  }

  /** `except` is a service in the middle of a change, or -1. */
  ghost predicate TargetsOk(g: Graph, released: seq<bool>, unmet: seq<nat>, booted: nat, except: int) {
    && |released| == |unmet| == |g.svc|
    && forall t :: 0 <= t < |unmet| && t != except ==> TargetFine(g, t, released[t], unmet[t], booted)
  }

  /** Up means released; for an uptime service the converse holds too, and an order-only service is
      released from the first time it was ready. */
  predicate UpFine(orderOnly: bool, up: bool, released: bool, wasReady: bool) {
    && (up ==> released) && (released ==> wasReady)
    && (if orderOnly then wasReady ==> released else released ==> up)
  }

  ghost predicate UpOk(g: Graph, up: seq<bool>, released: seq<bool>, ever: set<nat>, except: int) {
    && |up| == |released| == |g.svc|
    && forall i :: 0 <= i < |up| && i != except ==> UpFine(g.svc[i].orderOnly, up[i], released[i], i in ever)
  }

  /** While readiness is being handed out, the queue holds every service at most once, and each of them is
      still released. */
  ghost predicate QueueOk(g: Graph, queue: seq<nat>, qHead: nat, qTail: nat, draining: bool,
                          released: seq<bool>, pend: set<nat>)
  {
    && Rows(g)
    && |queue| == |released| == |g.svc| && qHead <= qTail <= |queue|
    && Below(queue[..qTail], |queue|) && Distinct(queue[..qTail])
    && (!draining ==> qTail == 0 && pend == {})
    && (forall a :: 0 <= a < qTail ==> released[queue[a]])
    && (forall k :: k in pend ==> k < |g.src| && g.src[k] in queue[..qTail])
  }

  /** Readiness: the counters, the releases and the queue agree, but for the service `except`. */
  ghost predicate Consistent(g: Graph, r: Ready, b: Book, except: int) {
    && Sound(g)
    && |r.up| == |r.released| == |r.unmet| == |r.queue| == |r.rqueue| == |g.svc|
    && Ledger(g, r.released, b.pend, {}, b.owe, r.unmet)
    && TargetsOk(g, r.released, r.unmet, b.booted, except)
    && UpOk(g, r.up, r.released, b.ever, except)
    && QueueOk(g, r.queue, r.qHead, r.qTail, r.draining, r.released, b.pend)
    && r.nUp == Count(r.up, IsSet)
  }

  /** Looking at one service. */
  lemma ReadyAt(g: Graph, r: Ready, b: Book, i: nat)
    requires Consistent(g, r, b, -1) && i < |g.svc|
    ensures Consistent(g, r, b, i) && UpFine(g.svc[i].orderOnly, r.up[i], r.released[i], i in b.ever)
    ensures TargetFine(g, i, r.released[i], r.unmet[i], b.booted)
  {
  }

  /** Done with one service. */
  lemma ReadyAgain(g: Graph, r: Ready, b: Book, i: nat)
    requires Consistent(g, r, b, i) && i < |g.svc| && UpFine(g.svc[i].orderOnly, r.up[i], r.released[i], i in b.ever)
    requires TargetFine(g, i, r.released[i], r.unmet[i], b.booted)
    ensures Consistent(g, r, b, -1)
  {
  }

  /** Marking one service up or down, before or after its release changes. */
  lemma UpChange(g: Graph, r: Ready, b: Book, i: nat, v: bool, n: nat, ever: set<nat>)
    requires Consistent(g, r, b, i) && i < |g.svc| && n == Count(r.up[i := v], IsSet)
    requires ever == b.ever || ever == b.ever + {i}
    ensures Consistent(g, r.(up := r.up[i := v], nUp := n), b.(ever := ever), i)
  {
  }

  /** Only the services before b keep everything. */
  ghost predicate ReadySameTo(b: int, r: Ready, r': Ready) {
    && |r.up| == |r'.up| && |r.released| == |r'.released|
    && (forall x :: 0 <= x < b && x < |r.up| ==> r'.up[x] == r.up[x])
    && (forall x :: 0 <= x < b && x < |r.released| ==> r'.released[x] == r.released[x])
  }

  lemma ReadyShape(g: Graph, r: Ready, b: Book)
    requires Consistent(g, r, b, -1)
    ensures Sound(g) && |r.up| == |r.released| == |r.unmet| == |g.svc|
  {
  }

  // ---------------------------------------------------------------- handing readiness out

  /** One queued release is handed to the dependent of edge k. */
  function HandTo(g: Graph, r: Ready, d: nat): Ready
    requires d < |r.unmet| && r.unmet[d] > 0
  {
    r.(unmet := r.unmet[d := r.unmet[d] - 1])
  }

  ghost function HandBook(b: Book, k: nat): Book
    requires k < |b.owe| && b.owe[k] > 0
  {
    b.(owe := b.owe[k := b.owe[k] - 1], pend := b.pend - {k})
  }

  /** Lowering the counter behind edge k keeps everything, unless a target is to be released now. */
  lemma HandOff(g: Graph, r: Ready, b: Book, k: nat)
    requires Consistent(g, r, b, -1) && k in b.pend
    ensures k < |g.dst| == |b.owe| && g.dst[k] < |g.svc| == |r.unmet| == |r.released|
    ensures r.unmet[g.dst[k]] > 0 && b.owe[k] > 0
    ensures var d := g.dst[k];
            r.unmet[d] != 1 || g.svc[d].kind != Target || r.released[d] ==>
              Consistent(g, HandTo(g, r, d), HandBook(b, k), -1)
  {
    HandOutKeeps(g, r.released, b.pend, b.owe, r.unmet, k);
  }

  /** Service i, which is up, is released and queued. */
  function Enqueued(r: Ready, i: nat): Ready
    requires i < |r.released| && r.qTail < |r.queue|
  {
    r.(released := r.released[i := true], queue := r.queue[r.qTail := i], qTail := r.qTail + 1, draining := true)
  }

  ghost function EnqueuedBook(g: Graph, b: Book, i: nat): Book
    requires Rows(g) && i < |g.svc|
  {
    b.(pend := b.pend + RowOf(g, i))
  }

  lemma EnqueueQueue(g: Graph, r: Ready, b: Book, i: nat)
    requires QueueOk(g, r.queue, r.qHead, r.qTail, r.draining, r.released, b.pend) && i < |g.svc| && !r.released[i]
    ensures r.qTail < |r.queue| && b.pend !! RowOf(g, i) && i !in r.queue[..r.qTail]
    ensures var r', b' := Enqueued(r, i), EnqueuedBook(g, b, i);
            QueueOk(g, r'.queue, r'.qHead, r'.qTail, r'.draining, r'.released, b'.pend)
    ensures Enqueued(r, i).queue[..r.qTail] == r.queue[..r.qTail]
    ensures Enqueued(r, i).queue[r.qTail..r.qTail + 1] == [i]
  {
    forall x | x in r.queue[..r.qTail] ensures r.released[x] {
      var a :| 0 <= a < r.qTail && r.queue[..r.qTail][a] == x;
      assert r.queue[a] == x;
    }
    Pigeonhole(r.queue[..r.qTail], |r.queue|);
    var r' := Enqueued(r, i);
    assert r'.queue[..r'.qTail] == r.queue[..r.qTail] + [i];
    forall a | 0 <= a < r'.qTail ensures r'.released[r'.queue[a]] {
      assert a < r.qTail ==> r'.queue[a] == r.queue[..r.qTail][a];
    }
  }

  /** Releasing i, whose own requirements are met if it is a target, keeps everything. */
  lemma Enqueue(g: Graph, r: Ready, b: Book, i: nat)
    requires Consistent(g, r, b, i) && i < |g.svc| && r.up[i] && i in b.ever && !r.released[i]
    requires g.svc[i].kind == Target ==> r.unmet[i] == 0
    ensures Rows(g) && r.qTail < |r.queue|
    ensures Consistent(g, Enqueued(r, i), EnqueuedBook(g, b, i), -1)
    ensures Enqueued(r, i).queue[..r.qTail] == r.queue[..r.qTail]
    ensures Enqueued(r, i).queue[r.qTail..r.qTail + 1] == [i]
    ensures forall e :: e in EnqueuedBook(g, b, i).pend <==> e in b.pend || (0 <= e < |g.src| && g.src[e] == i)
  {
    EnqueueQueue(g, r, b, i);
    EnqueueKeeps(g, r.released, b.pend, b.owe, r.unmet, i);
    EnqueueUp(g, r.up, r.released, b.ever, i);
    EnqueueTarget(g, r.released, r.unmet, b.booted, i);
    hide Ledger, QueueOk, Rows, Count, TargetsOk, UpOk;
  }

  lemma EnqueueUp(g: Graph, up: seq<bool>, released: seq<bool>, ever: set<nat>, i: nat)
    requires UpOk(g, up, released, ever, i) && i < |g.svc| && up[i] && i in ever
    ensures UpOk(g, up, released[i := true], ever, -1)
  {
  }

  lemma EnqueueTarget(g: Graph, released: seq<bool>, unmet: seq<nat>, booted: nat, i: nat)
    requires TargetsOk(g, released, unmet, booted, i) && i < |g.svc| && (g.svc[i].kind == Target ==> unmet[i] == 0)
    ensures TargetsOk(g, released[i := true], unmet, booted, -1)
  {
  }

  /** Target d, to which the last unit was handed, is marked up. */
  function MarkedUp(g: Graph, r: Ready, d: nat, n: nat): Ready
    requires d < |r.unmet| && d < |r.up| && r.unmet[d] > 0
  {
    HandTo(g, r, d).(up := r.up[d := true], nUp := n)
  }

  ghost function MarkedBook(b: Book, k: nat, d: nat): Book
    requires k < |b.owe| && b.owe[k] > 0
  {
    HandBook(b, k).(ever := b.ever + {d})
  }

  lemma TargetReady(g: Graph, r: Ready, b: Book, k: nat, n: nat)
    requires Consistent(g, r, b, -1) && k in b.pend && r.draining && k < |g.dst| == |b.owe| && b.owe[k] > 0
    requires g.dst[k] < |g.svc| && g.svc[g.dst[k]].kind == Target && r.unmet[g.dst[k]] == 1 && !r.released[g.dst[k]]
    requires n == Count(r.up[g.dst[k] := true], IsSet)
    ensures var d := g.dst[k];
            var r', b' := MarkedUp(g, r, d, n), MarkedBook(b, k, d);
            && Consistent(g, r', b', d) && |r'.up| == |r'.released| == |r'.unmet| == |r'.queue| == |g.svc|
                && r'.qTail <= |r'.queue|
            && r'.up[d] && d in b'.ever && !r'.released[d] && r'.unmet[d] == 0
            && r'.draining && r'.qTail == r.qTail && r'.queue == r.queue
  {
    HandOutKeeps(g, r.released, b.pend, b.owe, r.unmet, k);
  }

  /** The last unit owed to target d is handed over: it is marked up, released and queued. */
  lemma TargetUp(g: Graph, r: Ready, b: Book, k: nat, n: nat)
    requires Consistent(g, r, b, -1) && k in b.pend && r.draining && k < |g.dst| == |b.owe| && b.owe[k] > 0
    requires |r.unmet| == |r.released| == |r.up| == |g.svc|
    requires g.dst[k] < |g.svc| && g.svc[g.dst[k]].kind == Target && r.unmet[g.dst[k]] == 1 && !r.released[g.dst[k]]
    requires n == Count(r.up[g.dst[k] := true], IsSet)
    ensures var d := g.dst[k];
            var r', b' := MarkedUp(g, r, d, n), MarkedBook(b, k, d);
            && Rows(g) && r'.qTail < |r'.queue| && |r'.released| == |g.svc| && r'.draining
            && Consistent(g, Enqueued(r', d), EnqueuedBook(g, b', d), -1)
            && Handed(g, r, b, Enqueued(r', d), EnqueuedBook(g, b', d), k)
            && ReadySameTo(d, r, Enqueued(r', d))
  {
    hide *;
    var d := g.dst[k];
    TargetReady(g, r, b, k, n);
    Enqueue(g, MarkedUp(g, r, d, n), MarkedBook(b, k, d), d);
    HandedTarget(g, r, b, k, n);
  }

  lemma HandedTarget(g: Graph, r: Ready, b: Book, k: nat, n: nat)
    requires Rows(g) && k < |g.dst| == |b.owe| && b.owe[k] > 0
    requires g.dst[k] < |g.svc| == |r.unmet| == |r.up| == |r.released|
    requires r.unmet[g.dst[k]] == 1 && r.draining && r.qTail < |r.queue|
    ensures var d := g.dst[k];
            var r', b' := MarkedUp(g, r, d, n), MarkedBook(b, k, d);
            && r'.qTail == r.qTail && r'.queue == r.queue && |r'.released| == |g.svc| && r'.draining
            && Handed(g, r, b, Enqueued(r', d), EnqueuedBook(g, b', d), k)
            && ReadySameTo(d, r, Enqueued(r', d))
  {
    var d := g.dst[k];
    var r', b' := MarkedUp(g, r, d, n), MarkedBook(b, k, d);
    assert Enqueued(r', d).queue[r.qTail..r.qTail + 1] == [d];
    assert Enqueued(r', d).queue[..r.qTail] == r.queue[..r.qTail];
  }

  /** One step of a drain: edge k was handed over, and at most its dependent joined the queue. */
  ghost predicate Handed(g: Graph, r: Ready, b: Book, r': Ready, b': Book, k: nat) {
    && k < |g.dst| && r'.draining && r'.qHead == r.qHead && r.qTail <= r'.qTail <= |r'.queue| == |r.queue|
    && r'.queue[..r.qTail] == r.queue[..r.qTail]
    && (forall e :: e in b'.pend <==>
        (e in b.pend && e != k) || (0 <= e < |g.src| && g.src[e] in r'.queue[r.qTail..r'.qTail]))
    && (forall a :: r.qTail <= a < r'.qTail ==> r'.queue[a] == g.dst[k])
    && b.ever <= b'.ever && b'.booted == b.booted
  }

  /** Nothing joins the queue when the counter of d is only lowered, or when d is started. */
  lemma HandedOnly(g: Graph, r: Ready, b: Book, k: nat, r': Ready, b': Book)
    requires k < |g.dst| == |b.owe| && b.owe[k] > 0 && g.dst[k] < |r.unmet| && r.unmet[g.dst[k]] > 0
    requires r.draining && r.qTail <= |r.queue|
    requires r'.queue == r.queue && r'.qHead == r.qHead && r'.qTail == r.qTail && r'.draining == r.draining
    requires b' == HandBook(b, k).(owe := b'.owe)
    requires ReadySameTo(g.dst[k], HandTo(g, r, g.dst[k]), r')
    ensures Handed(g, r, b, r', b', k) && ReadySameTo(g.dst[k], r, r')
  {
    assert r'.queue[r.qTail..r'.qTail] == [];
  }

  lemma HandFacts(g: Graph, r: Ready, b: Book, k: nat)
    requires k < |g.dst| == |b.owe| && b.owe[k] > 0 && g.dst[k] < |r.unmet| && r.unmet[g.dst[k]] > 0
    ensures var r', b' := HandTo(g, r, g.dst[k]), HandBook(b, k);
            && r'.unmet == r.unmet[g.dst[k] := r.unmet[g.dst[k]] - 1] && r'.up == r.up && r'.released == r.released
            && r' == r.(unmet := r'.unmet)
            && b' == b.(owe := b.owe[k := b.owe[k] - 1], pend := b.pend - {k})
  {
  }

  lemma DrainShape(g: Graph, r: Ready, b: Book)
    requires Consistent(g, r, b, -1)
    ensures r.qHead <= r.qTail <= |r.queue| == |g.svc| == |r.up| == |r.released| == |r.unmet| && |g.src| == |g.dst|
    ensures r.nUp == Count(r.up, IsSet)
  {
  }

  lemma UpBefore(g: Graph, r: Ready, b: Book, d: nat)
    requires Consistent(g, r, b, -1) && d < |g.svc| && !r.released[d]
    ensures !r.up[d]
  {
  }

  lemma MarkedFacts(g: Graph, r: Ready, b: Book, k: nat, n: nat)
    requires k < |g.dst| == |b.owe| && b.owe[k] > 0 && g.dst[k] < |r.unmet| == |r.up| && r.unmet[g.dst[k]] > 0
    ensures MarkedUp(g, r, g.dst[k], n) == HandTo(g, r, g.dst[k]).(up := r.up[g.dst[k] := true], nUp := n)
    ensures MarkedBook(b, k, g.dst[k]) == HandBook(b, k).(ever := b.ever + {g.dst[k]})
  {
  }

  lemma EnqueuedFacts(r: Ready, i: nat)
    requires i < |r.released| && r.qTail < |r.queue|
    ensures Enqueued(r, i).up == r.up && Enqueued(r, i).unmet == r.unmet
    ensures Enqueued(r, i).released == r.released[i := true]
    ensures Enqueued(r, i).qTail == r.qTail + 1 <= |Enqueued(r, i).queue| && Enqueued(r, i).queue[r.qTail] == i
  {
  }

  /** Exactly the edges of the services still in the queue, and those from `from` to `to`, are pending. */
  ghost predicate PendingFrom(g: Graph, r: Ready, b: Book, from: nat, to: nat) {
    && r.qHead <= r.qTail <= |r.queue|
    && forall e :: e in b.pend <==> 0 <= e < |g.src| && (g.src[e] in r.queue[r.qHead..r.qTail] || from <= e < to)
  }

  lemma PendingStep(g: Graph, r: Ready, b: Book, r': Ready, b': Book, k: nat, to: nat)
    requires PendingFrom(g, r, b, k, to) && k < to <= |g.src| && Handed(g, r, b, r', b', k)
    requires g.src[k] !in r.queue[r.qHead..r.qTail]
    ensures PendingFrom(g, r', b', k + 1, to)
  {
    assert r'.queue[r.qHead..r'.qTail] == r.queue[r.qHead..r.qTail] + r'.queue[r.qTail..r'.qTail] by {
      assert r'.queue[..r.qTail] == r.queue[..r.qTail];
    }
  }

  /** Taking the first service off the queue makes its edges the ones to hand over next. */
  lemma PendingPop(g: Graph, r: Ready, b: Book)
    requires Consistent(g, r, b, -1) && PendingFrom(g, r, b, 0, 0) && r.qHead < r.qTail
    ensures var j := r.queue[r.qHead];
            && j < |g.svc| == |r.queue| && |g.roff| == |g.svc| + 1 && g.roff[j] <= g.roff[j + 1] <= |g.src|
                && |g.src| == |g.dst|
            && (forall e :: 0 <= e < |g.src| ==> (g.src[e] == j <==> g.roff[j] <= e < g.roff[j + 1]))
            && Consistent(g, r.(qHead := r.qHead + 1), b, -1)
            && PendingFrom(g, r.(qHead := r.qHead + 1), b, g.roff[j], g.roff[j + 1])
            && j !in r.queue[r.qHead + 1..r.qTail]
            && (forall e :: 0 <= e < |g.src| && g.src[e] == j ==> j < g.dst[e] && g.roots <= g.dst[e])
  {
    var j := r.queue[r.qHead];
    assert j == r.queue[..r.qTail][r.qHead];
    RowRange(g, j);
    assert r.queue[r.qHead..r.qTail] == [j] + r.queue[r.qHead + 1..r.qTail];
    assert forall a :: r.qHead < a < r.qTail ==> r.queue[a] == r.queue[..r.qTail][a];
  }

  /** The service at the head of the queue is not queued again while its edges are handed over. */
  lemma HeadStays(g: Graph, r: Ready, b: Book, j: nat)
    requires Consistent(g, r, b, -1) && 0 < r.qHead && r.queue[r.qHead - 1] == j
    ensures j !in r.queue[r.qHead..r.qTail]
  {
    assert j == r.queue[..r.qTail][r.qHead - 1];
    assert forall a :: r.qHead <= a < r.qTail ==> r.queue[a] == r.queue[..r.qTail][a];
  }

  /** Every queued service is at or after i. */
  ghost predicate QueuedFrom(r: Ready, i: nat) {
    r.qTail <= |r.queue| && forall a :: 0 <= a < r.qTail ==> i <= r.queue[a]
  }

  lemma QueuedStep(g: Graph, r: Ready, b: Book, r': Ready, b': Book, k: nat, i: nat)
    requires QueuedFrom(r, i) && Handed(g, r, b, r', b', k) && i <= g.dst[k]
    ensures QueuedFrom(r', i)
  {
    forall a | 0 <= a < r'.qTail ensures i <= r'.queue[a] {
      assert a < r.qTail ==> r'.queue[a] == r'.queue[..r.qTail][a] == r.queue[..r.qTail][a];
    }
  }

  lemma HandedKeeps(g: Graph, r: Ready, b: Book, r': Ready, b': Book, k: nat)
    requires Handed(g, r, b, r', b', k)
    ensures r'.draining && r'.qHead == r.qHead && b.ever <= b'.ever && b'.booted == b.booted
    ensures r.qHead > 0 && r.qHead <= r.qTail ==> r'.queue[r.qHead - 1] == r.queue[r.qHead - 1]
    ensures |r'.queue| == |r.queue| && r.qTail <= r'.qTail
  {
    if r.qHead > 0 && r.qHead <= r.qTail {
      assert r'.queue[..r.qTail][r.qHead - 1] == r.queue[..r.qTail][r.qHead - 1];
    }
  }

  lemma ReadySameToTwice(b: int, r: Ready, r': Ready, c: int, r'': Ready)
    requires ReadySameTo(b, r, r') && b <= c && ReadySameTo(c, r', r'')
    ensures ReadySameTo(b, r, r'')
  {
  }

  lemma PendingNone(g: Graph, r: Ready, b: Book, k: nat)
    requires PendingFrom(g, r, b, k, k)
    ensures PendingFrom(g, r, b, 0, 0)
    ensures r.qHead == r.qTail ==> b.pend == {}
  {
  }

  /** An empty queue ends the drain. */
  lemma DrainEnds(g: Graph, r: Ready, b: Book)
    requires Consistent(g, r, b, -1) && b.pend == {}
    ensures Consistent(g, r.(draining := false, qHead := 0, qTail := 0), b, -1)
  {
  }

  lemma DrainStarts(g: Graph, r: Ready, b: Book, i: nat)
    requires Consistent(g, r, b, i) && i < |g.svc| && !r.draining
    ensures r.qTail == 0 && r.qHead == 0 && b.pend == {}
  {
  }

  lemma EnqueuedTop(g: Graph, r: Ready, b: Book, i: nat)
    requires Rows(g) && i < |g.svc| == |r.released| == |r.queue|
    requires !r.draining && r.qTail == 0 && r.qHead == 0 && b.pend == {}
    ensures var r', b' := Enqueued(r, i), EnqueuedBook(g, b, i);
            && PendingFrom(g, r', b', 0, 0) && QueuedFrom(r', i) && r'.draining
            && r'.released == r.released[i := true] && r'.up == r.up && r'.unmet == r.unmet
            && b'.ever == b.ever && b'.booted == b.booted
  {
    var r' := Enqueued(r, i);
    assert r'.queue[0..1] == [i];
  }

  lemma PendingHas(g: Graph, r: Ready, b: Book, k: nat, to: nat)
    requires PendingFrom(g, r, b, k, to) && k < to <= |g.src|
    ensures k in b.pend
  {
  }

  lemma QueuedHead(r: Ready, i: nat)
    requires QueuedFrom(r, i) && r.qHead < r.qTail
    ensures r.qTail <= |r.queue| && i <= r.queue[r.qHead]
  {
  }

  /** Changes at i only. */
  lemma ReadyAbove(r: Ready, r': Ready, i: nat)
    requires i < |r.up| && i < |r.released|
    requires (r'.up == r.up || r'.up == r.up[i := true])
    requires (r'.released == r.released || r'.released == r.released[i := true])
    ensures ReadySameTo(i, r, r')
  {
  }

  lemma ReadyQuiet(r: Ready, r': Ready, b: int)
    requires r'.up == r.up && r'.released == r.released
    ensures ReadySameTo(b, r, r')
  {
  }

  /** A service that was released before is consistent again once it is marked up. */
  lemma ReleasedFine(g: Graph, r: Ready, b: Book, i: nat)
    requires Consistent(g, r, b, i) && i < |g.svc| && r.up[i] && r.released[i] && i in b.ever
    requires g.svc[i].kind == Target ==> r.unmet[i] == 0
    ensures Consistent(g, r, b, -1)
  {
  }

  lemma EnqueuedMore(g: Graph, r: Ready, b: Book, i: nat)
    requires Rows(g) && i < |g.svc| == |r.released| && r.qTail < |r.queue|
    ensures var r', b' := Enqueued(r, i), EnqueuedBook(g, b, i);
            r'.draining && r'.up == r.up && r'.released == r.released[i := true] && b'.ever == b.ever
                && b'.booted == b.booted
  {
  }

  lemma SameAt(r: Ready, r': Ready, i: nat)
    requires ReadySameTo(i + 1, r, r') && i < |r.up| == |r.released|
    ensures i < |r'.up| == |r'.released| && r'.up[i] == r.up[i] && r'.released[i] == r.released[i]
  {
  }

  /** Marking i up, before its release. */
  lemma MarkUp(g: Graph, r: Ready, b: Book, i: nat, r': Ready, b': Book)
    requires Consistent(g, r, b, -1) && i < |g.svc|
    requires r' == r.(up := r.up[i := true], nUp := r'.nUp) && r'.nUp == Count(r'.up, IsSet)
    requires b' == b.(ever := if !r.up[i] then b.ever + {i} else b.ever)
    ensures Consistent(g, r', b', i) && i in b'.ever && b.ever <= b'.ever && b'.booted == b.booted
    ensures |r'.up| == |r'.released| == |r'.unmet| == |g.svc| && r'.up[i] && r'.qTail <= |r'.queue|
  {
    ReadyAt(g, r, b, i);
  }

  // ---------------------------------------------------------------- boot

  /** Nothing is up yet. */
  function BootReady(g: Graph): Ready {
    var n := |g.svc|;
    var off, zero := seq(n, _ => false), seq(n, _ => 0);
    Ready(off, off, seq(n, i requires 0 <= i < n => g.svc[i].unmet), 0, zero, 0, 0, false, zero)
  }

  ghost function BootBook(g: Graph): Book {
    Book(seq(|g.dst|, _ => 1), {}, {}, 0)
  }

  lemma BootConsistent(g: Graph)
    requires Valid(g)
    ensures Consistent(g, BootReady(g), BootBook(g), -1)
  {
    var r, b := BootReady(g), BootBook(g);
    forall d {:trigger Owed(g.dst, b.owe, d)} | 0 <= d < |r.unmet| ensures r.unmet[d] == Owed(g.dst, b.owe, d) {
      OwedOnes(g.dst, b.owe, d);
    }
    CountNone(r.up, IsSet);
  }

  /** Nothing is owed to a root. */
  lemma RootMet(g: Graph, r: Ready, b: Book, i: nat)
    requires Consistent(g, r, b, -1) && i < g.roots
    ensures i < |r.unmet| && r.unmet[i] == 0
  {
    assert forall k :: 0 <= k < |g.dst| ==> g.dst[k] != i;
    OwedNothing(g.dst, b.owe, i);
  }

  lemma {:induction false} OwedNothing(dst: seq<nat>, owe: seq<nat>, d: nat)
    requires |owe| == |dst| && forall k :: 0 <= k < |dst| ==> dst[k] != d
    ensures Owed(dst, owe, d) == 0
    decreases |dst|
  {
    if dst != [] {
      OwedNothing(dst[..|dst| - 1], owe[..|dst| - 1], d);
    }
  }

  /** Root i has been dealt with. */
  lemma RootStarted(g: Graph, r: Ready, b: Book, i: nat)
    requires Consistent(g, r, b, -1) && i == b.booted < g.roots && (g.svc[i].kind == Target ==> r.released[i])
    ensures Consistent(g, r, b.(booted := i + 1), -1)
  {
  }

  /** What was released still is. */
  ghost predicate Grows(was: seq<bool>, released: seq<bool>) {
    |was| == |released| && forall x :: 0 <= x < |was| && was[x] ==> released[x]
  }

  lemma GrowsTwice(a: seq<bool>, b: seq<bool>, c: seq<bool>)
    ensures Grows(a, a)
    ensures Grows(a, b) && Grows(b, c) ==> Grows(a, c)
  {
  }

  lemma GrowsOne(a: seq<bool>, i: nat)
    requires i < |a|
    ensures Grows(a, a[i := true])
  {
  }
}
