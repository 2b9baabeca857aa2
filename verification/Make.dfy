/** From service files to a graph file. */
module Makers {
  import opened Counting
  import opened Graphs
  import opened EdgeLists
  import opened Compiles
  import opened Blobs
  import opened Verifiers
  import opened Descents
  import opened Words
  import opened Files
  import opened Parsed
  import opened Links
  import opened Builders

  ghost predicate SourcesFine(srcs: seq<Source>) {
    |srcs| <= NG_MAX_SVC && NamesApart(srcs) && forall k :: 0 <= k < |srcs| ==> SourceFine(srcs[k])
  }

  /** Services that wait for each other in a circle. */
  ghost predicate Circle(srcs: seq<Source>, c: seq<nat>) {
    && |c| >= 2 && c[0] == c[|c| - 1] && (forall a :: 0 <= a < |c| ==> c[a] < |srcs|)
    && forall a, b :: 0 <= a && b == a + 1 && b < |c| ==> Needs(srcs, c[a], c[b])
  }

  /** The service is told to only warn, and another waits for it. */
  ghost predicate Clash(srcs: seq<Source>, v: nat) {
    v < |srcs| && srcs[v].given && srcs[v].policy == 0 && exists d :: 0 <= d < |srcs| && Needs(srcs, v, d)
  }

  /** The policy of a service that has or has no dependents. */
  function FinalPolicy(s: Source, dependents: nat): OnFail {
    PolicyOf(if s.given then s.policy else if dependents > 0 then 1 else 0)
  }

  /** The file is accepted, and leads back to the services in this order: their strings, their fields,
      the edges they ask for and the number of services that depend on each. */
  ghost predicate Faithful(srcs: seq<Source>, order: seq<nat>, f: string, crc: string -> nat) {
    && FileFine(f, crc) && |order| == |srcs| && Distinct(order) && Below(order, |srcs|)
    && Valid(GraphOf(Load(f))) && |Load(f).recs| == |srcs|
    && (forall i :: 0 <= i < |srcs| ==> RecordFor(srcs[order[i]], Load(f), i))
    && (forall i, j :: 0 <= i < |srcs| && 0 <= j < |srcs| ==>
          (Prereq(GraphOf(Load(f)), i, j) <==> Needs(srcs, order[i], order[j])))
  }

  /** Record i is that of s. */
  ghost predicate RecordFor(s: Source, im: Image, i: nat)
    requires |im.roff| == |im.recs| + 1 && i < |im.recs|
  {
    var g, r := GraphOf(im), im.recs[i];
    && |g.src| == |g.dst| && ReadsBack(r, im.blob, s) && r.nDesc == |Dependents(g, i)|
    && g.svc[i] == ServiceFor(s).(unmet := InDegree(g.dst, i), onFail := FinalPolicy(s, r.nDesc))
  }

  datatype Made =
    | Refused(why: Linked)
    | Circular(cycle: seq<nat>)
    | Clashing(v: nat)
    | Broken
    | Written(file: string, order: seq<nat>)

  /** What comes of a set of services: the first thing that is wrong with them, or their file. */
  ghost predicate MadeRight(srcs: seq<Source>, crc: string -> nat, r: Made) {
    match r
    case Refused(why) => !why.Edges? && LinkedRight(srcs, why)
    case Circular(c) => Circle(srcs, c)
    case Clashing(v) => Clash(srcs, v)
    case Broken => false
    case Written(f, order) =>
      && Faithful(srcs, order, f, crc) && (forall c :: !Circle(srcs, c)) && (forall v :: !Clash(srcs, v))
      && forall x :: 0 <= x < |srcs| ==> Resolved(srcs, x, |Refs(srcs[x])|)
  }

  function Records(srcs: seq<Source>): (r: seq<Service>)
    ensures |r| == |srcs| && forall k :: 0 <= k < |r| ==> r[k] == ServiceFor(srcs[k])
  {
    seq(|srcs|, k requires 0 <= k < |srcs| => ServiceFor(srcs[k]))
  }

  /** Builds the image of a set of services, and verifies it. */
  method MakeImage(srcs: seq<Source>, hashLow: nat, hashHigh: nat, crc: string -> nat) returns (r: Made)
    requires SourcesFine(srcs) && hashLow < WORD && hashHigh < WORD
    ensures MadeRight(srcs, crc, r)
  {
    WellFormedSources(srcs);
    hide *;
    var linked := LinkNames(srcs);
    if !linked.Edges? {
      r := Refused(linked);
      WrongIsRight(srcs, crc, r);
      return;
    }
    EdgesInside(srcs, linked);
    var compiled := Compile(Records(srcs), linked.raw);
    if compiled.Cyclic? {
      r := Circular(compiled.cycle);
      CircleFound(srcs, linked.raw, compiled);
      WrongIsRight(srcs, crc, r);
      return;
    }
    ArrangedBy(srcs, linked.raw, compiled);
    r := Assemble(srcs, compiled.graph, compiled.order, hashLow, hashHigh, crc);
    if r.Clashing? {
      WrongIsRight(srcs, crc, r);
    } else {
      WrittenIsRight(srcs, crc, r, linked);
    }
  }

  lemma WellFormedSources(srcs: seq<Source>)
    requires SourcesFine(srcs)
    ensures NamesApart(srcs) && forall v :: 0 <= v < |srcs| ==> WellFormed(Records(srcs)[v])
  {
    forall v | 0 <= v < |srcs| ensures WellFormed(Records(srcs)[v]) {
      SourceWellFormed(srcs[v]);
    }
  }

  lemma WrongIsRight(srcs: seq<Source>, crc: string -> nat, r: Made)
    requires (r.Refused? && !r.why.Edges? && LinkedRight(srcs, r.why)) || (r.Circular? && Circle(srcs, r.cycle))
          || (r.Clashing? && Clash(srcs, r.v))
    ensures MadeRight(srcs, crc, r)
  {
    hide LinkedRight, Circle, Clash;
  }

  lemma WrittenIsRight(srcs: seq<Source>, crc: string -> nat, r: Made, linked: Linked)
    requires r.Written? && Faithful(srcs, r.order, r.file, crc)
    requires (forall c :: !Circle(srcs, c)) && (forall v :: !Clash(srcs, v))
    requires linked.Edges? && LinkedRight(srcs, linked)
    ensures MadeRight(srcs, crc, r)
  {
    hide Faithful, Circle, Clash, Resolved, Needs;
  }

  // ---------------------------------------------------------------- edges and circles

  lemma EdgesInside(srcs: seq<Source>, linked: Linked)
    requires linked.Edges? && LinkedRight(srcs, linked)
    ensures forall k :: 0 <= k < |linked.raw| ==> linked.raw[k].a < |srcs| && linked.raw[k].b < |srcs|
    ensures forall a, b :: 0 <= a < |srcs| && 0 <= b < |srcs| ==> (Edge(a, b) in linked.raw <==> Needs(srcs, a, b))
  {
    hide Needs, Resolved;
  }

  lemma CircleFound(srcs: seq<Source>, raw: seq<Edge>, compiled: Compiled)
    requires compiled.Cyclic? && Right(Records(srcs), raw, compiled)
    requires forall k :: 0 <= k < |raw| ==> raw[k].a < |srcs| && raw[k].b < |srcs|
    requires forall a, b :: 0 <= a < |srcs| && 0 <= b < |srcs| ==> (Edge(a, b) in raw <==> Needs(srcs, a, b))
    ensures Circle(srcs, compiled.cycle)
  {
    hide Needs;
    var c := compiled.cycle;
    assert RealCycle(raw, c);
    forall a | 0 <= a < |c| ensures c[a] < |srcs| {
      assert Edge(c[if a > 0 then a - 1 else 0], c[if a > 0 then a else 1]) in raw;
    }
    forall a, b | 0 <= a && b == a + 1 && b < |c| ensures Needs(srcs, c[a], c[b]) {
      assert Edge(c[b - 1], c[b]) in raw;
    }
  }

  /** The graph is the services in this order, with the edges they ask for. */
  ghost predicate Arranged(srcs: seq<Source>, g: Graph, order: seq<nat>) {
    && |g.svc| == |order| == |srcs| && |g.src| == |g.dst| && Valid(g) && Distinct(order) && Below(order, |srcs|)
    && (forall i :: 0 <= i < |order| ==> g.svc[i] == ServiceFor(srcs[order[i]]).(unmet := g.svc[i].unmet))
    && (forall i, j :: 0 <= i < |order| && 0 <= j < |order| ==> (Prereq(g, i, j) <==> Needs(srcs, order[i], order[j])))
  }

  lemma ArrangedBy(srcs: seq<Source>, raw: seq<Edge>, compiled: Compiled)
    requires compiled.Built? && Right(Records(srcs), raw, compiled)
    requires forall a, b :: 0 <= a < |srcs| && 0 <= b < |srcs| ==> (Edge(a, b) in raw <==> Needs(srcs, a, b))
    ensures Arranged(srcs, compiled.graph, compiled.order) && forall c :: !Circle(srcs, c)
  {
    hide Needs, Valid, Prereq, ServiceFor;
    var g, order := compiled.graph, compiled.order;
    assert Same(Records(srcs), raw, g, order);
    forall c ensures !Circle(srcs, c) {
      if Circle(srcs, c) {
        assert RealCycle(raw, c) by {
          forall a | 0 < a < |c| ensures Edge(c[a - 1], c[a]) in raw {
            assert Needs(srcs, c[a - 1], c[a]);
          }
        }
      }
    }
  }

  // ---------------------------------------------------------------- the image

  /** Counts the dependents, writes the tables and verifies the file. */
  method Assemble(srcs: seq<Source>, g: Graph, order: seq<nat>, hashLow: nat, hashHigh: nat, crc: string -> nat)
    returns (r: Made)
    requires SourcesFine(srcs) && Arranged(srcs, g, order) && hashLow < WORD && hashHigh < WORD
    ensures r.Clashing? || r.Written?
    ensures r.Clashing? ==> Clash(srcs, r.v)
    ensures r.Written? ==> Faithful(srcs, r.order, r.file, crc) && forall v :: !Clash(srcs, v)
  {
    ArrangedParts(srcs, g, order);
    hide *;
    var desc := Collect(g);
    var p := Plan(seq(|order|, i requires 0 <= i < |order| => srcs[order[i]]),
                  seq(|order|, i requires 0 <= i < |order| => g.svc[i].unmet), desc);
    PlanMade(srcs, g, order, p);
    var ok, recs, blob;
    ghost var ats;
    ok, recs, blob, ats := File(p);
    if !ok {
      r := Clashing(order[|recs|]);
      ClashIff(srcs, g, order, p, |recs|);
      return;
    }
    var im := Image(g.roots, recs, g.roff, g.dst, blob);
    FiledIsAccepted(p, g, im, ats);
    FiledFits(p, g, im);
    var f := WriteFile(im, hashLow, hashHigh, crc);
    var fine := VerifyFile(f, crc);
    IsFaithful(srcs, g, order, p, f, crc);
    NoClash(srcs, g, order, p);
    r := if fine then Written(f, order) else Broken;
  }

  lemma ArrangedParts(srcs: seq<Source>, g: Graph, order: seq<nat>)
    requires Arranged(srcs, g, order)
    ensures |order| == |g.svc| == |srcs| && Sound(g) && |g.src| == |g.dst| && Distinct(order)
    ensures forall i :: 0 <= i < |order| ==> order[i] < |srcs|
  {
    hide Sound, Rows, ServiceFor, Needs;
  }

  /** The plan of an arranged graph. */
  ghost predicate Planned(srcs: seq<Source>, g: Graph, order: seq<nat>, p: Plan) {
    && Arranged(srcs, g, order) && PlanFor(p, g)
    && forall i :: 0 <= i < |order| ==> p.srcs[i] == srcs[order[i]]
  }

  lemma PlanMade(srcs: seq<Source>, g: Graph, order: seq<nat>, p: Plan)
    requires SourcesFine(srcs) && Arranged(srcs, g, order) && |p.srcs| == |p.unmet| == |order| && Closed(g, p.desc, 0)
    requires forall i :: 0 <= i < |order| ==> p.srcs[i] == srcs[order[i]] && p.unmet[i] == g.svc[i].unmet
    ensures Planned(srcs, g, order, p) && PlanFine(p)
  {
    hide Valid, SourceFine, ServiceFor, Prereq, Needs, Dependents;
    forall i, j | 0 <= i < j < |p.srcs| ensures p.srcs[i].name != p.srcs[j].name {
      assert order[i] != order[j];
    }
  }

  /** A service has dependents when another asks for it. */
  lemma ClashIff(srcs: seq<Source>, g: Graph, order: seq<nat>, p: Plan, i: nat)
    requires Planned(srcs, g, order, p) && i < |order|
    ensures Chosen(p, i) < 0 <==> Clash(srcs, order[i])
  {
    HasDependents(g, i);
    hide Valid, SourceFine, ServiceFor, Dependents, Needs, Prereq;
    assert p.desc[i] == Dependents(g, i) && p.srcs[i] == srcs[order[i]];
    var v := order[i];
    if exists d :: 0 <= d < |srcs| && Needs(srcs, v, d) {
      var d :| 0 <= d < |srcs| && Needs(srcs, v, d);
      Ranked(order, d);
      var j :| 0 <= j < |order| && order[j] == d;
      assert Prereq(g, i, j);
    }
    if j: nat :| j < |g.svc| && Prereq(g, i, j) {
      assert Needs(srcs, v, order[j]);
    }
  }

  lemma NoClash(srcs: seq<Source>, g: Graph, order: seq<nat>, p: Plan)
    requires Planned(srcs, g, order, p) && forall k :: 0 <= k < |p.srcs| ==> Chosen(p, k) >= 0
    ensures forall v :: !Clash(srcs, v)
  {
    ArrangedParts(srcs, g, order);
    forall v: nat ensures !Clash(srcs, v) {
      hide *;
      if v < |srcs| {
        Ranked(order, v);
        var i :| 0 <= i < |order| && order[i] == v;
        ClashIff(srcs, g, order, p, i);
      } else {
        NoneThere(srcs, v);
      }
    }
  }

  lemma NoneThere(srcs: seq<Source>, v: nat)
    requires v >= |srcs|
    ensures !Clash(srcs, v)
  {
  }

  /** Every service has a place in the order. */
  lemma Ranked(order: seq<nat>, v: nat)
    requires Distinct(order) && (forall i :: 0 <= i < |order| ==> order[i] < |order|) && v < |order|
    ensures v in order
  {
    Pigeonhole(order, |order|);
  }

  lemma IsFaithful(srcs: seq<Source>, g: Graph, order: seq<nat>, p: Plan, f: string, crc: string -> nat)
    requires Planned(srcs, g, order, p) && FileFine(f, crc) && Depicts(Load(f), p, g)
    requires forall k :: 0 <= k < |p.srcs| ==> Chosen(p, k) >= 0
    ensures Faithful(srcs, order, f, crc)
  {
    var im := Load(f);
    AcceptedIsValid(im);
    var h := GraphOf(im);
    hide FileFine, Load, GraphOf, Valid, SourceFine, Needs, PlanFine, RecordFor, PlanFor;
    forall i | 0 <= i < |srcs| ensures RecordFor(srcs[order[i]], im, i) {
      IsRecordFor(srcs, g, order, p, im, i);
    }
    forall i, j | 0 <= i < |srcs| && 0 <= j < |srcs| ensures Prereq(h, i, j) <==> Needs(srcs, order[i], order[j]) {
      assert Prereq(h, i, j) <==> Prereq(g, i, j);
    }
  }

  lemma IsRecordFor(srcs: seq<Source>, g: Graph, order: seq<nat>, p: Plan, im: Image, i: nat)
    requires Planned(srcs, g, order, p) && Depicts(im, p, g) && i < |srcs| && Chosen(p, i) >= 0
    ensures RecordFor(srcs[order[i]], im, i)
  {
    var h := GraphOf(im);
    assert |h.svc| == |g.svc| && h.svc[i] == ServiceOf(im.recs[i]);
    SameDependents(g, h, i);
    assert g.svc[i].unmet == InDegree(g.dst, i);
    hide GraphOf, Rows, SourceFine, Needs, ReadsBack, Dependents, Prereq, ServiceOf, ServiceFor, PlanFine;
  }
}
