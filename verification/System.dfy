/** The builder and the supervisor together: from service files to processes. */
module Systems {
  import opened Graphs
  import opened Launches
  import opened Quiescence
  import opened Verifiers
  import opened Words
  import opened Files
  import opened Parsed
  import opened Links
  import opened Makers
  import opened Engines

  /** The file that is run: the one the last build replaced stands in for one that is refused. A file that cannot
      be read is an empty one. */
  ghost function Taken(f: string, previous: string, crc: string -> nat): string {
    if FileFine(f, crc) then f else previous
  }

  /** Starts a supervisor on a graph file, or on the one before it, and lets it run. */
  method Boot(f: string, previous: string, crc: string -> nat, table: bool, events: seq<Event>) returns (e: Engine?)
    ensures e != null <==> FileFine(f, crc) || FileFine(previous, crc)
    ensures e != null ==>
              && FileFine(Taken(f, previous, crc), crc) && e.Inv() && e.g == GraphOf(Load(Taken(f, previous, crc)))
              && LaunchesSafe(e.g, e.launches) && Quiescent(e.g, e.rd, e.book.ever)
  {
    TakenIs(f, previous, crc);
    FineLoads(f, crc);
    FineLoads(previous, crc);
    hide *;
    e := null;
    var ok := VerifyFile(f, crc);
    if ok {
      e := Supervise(GraphOf(Load(f)), table, events);
      return;
    }
    ok := VerifyFile(previous, crc);
    if ok {
      e := Supervise(GraphOf(Load(previous)), table, events);
    }
  }

  lemma TakenIs(f: string, previous: string, crc: string -> nat)
    ensures Taken(f, previous, crc) == if FileFine(f, crc) then f else previous
  {
  }

  lemma FineLoads(f: string, crc: string -> nat)
    ensures FileFine(f, crc) ==> |f| >= 64 && InRange(ReadHeader(f)) && ReadHeader(f).total == |f|
  {
  }

  /** Whatever a launched service needs, by its own file or by that of another, was up, or had been ready if it
      only orders its dependents. */
  ghost predicate InOrder(srcs: seq<Source>, order: seq<nat>, l: Launch) {
    && l.svc < |order| == |srcs| == |l.up| && (forall i :: 0 <= i < |order| ==> order[i] < |srcs|) && !l.held && !l.down
    && forall i :: 0 <= i < |order| && Needs(srcs, order[i], order[l.svc]) ==>
         if srcs[order[i]].orderOnly then i in l.ever else l.up[i]
  }

  lemma LaunchInOrder(srcs: seq<Source>, order: seq<nat>, f: string, crc: string -> nat, l: Launch)
    requires Faithful(srcs, order, f, crc) && SafeLaunch(GraphOf(Load(f)), l)
    ensures InOrder(srcs, order, l)
  {
    FaithfulIs(srcs, order, f, crc);
    var g := GraphOf(Load(f));
    SafeIs(g, l);
    hide *;
    forall i | 0 <= i < |order| && Needs(srcs, order[i], order[l.svc])
      ensures if srcs[order[i]].orderOnly then i in l.ever else l.up[i]
    {
      SafeFor(g, l, i);
      OrderOnlyKept(srcs[order[i]], Load(f), i);
    }
    InOrderIs(srcs, order, l);
  }

  lemma FaithfulIs(srcs: seq<Source>, order: seq<nat>, f: string, crc: string -> nat)
    requires Faithful(srcs, order, f, crc)
    ensures |order| == |srcs| == |GraphOf(Load(f)).svc| == |Load(f).recs|
    ensures |GraphOf(Load(f)).src| == |GraphOf(Load(f)).dst|
    ensures forall i :: 0 <= i < |order| ==> order[i] < |srcs|
    ensures forall i :: 0 <= i < |srcs| ==> RecordFor(srcs[order[i]], Load(f), i)
    ensures forall i, j :: 0 <= i < |srcs| && 0 <= j < |srcs| ==>
              (Prereq(GraphOf(Load(f)), i, j) <==> Needs(srcs, order[i], order[j]))
  {
    assert |GraphOf(Load(f)).svc| == |Load(f).recs|;
    hide FileFine, Load, GraphOf, Needs, RecordFor, Prereq, InDegree;
  }

  lemma SafeIs(g: Graph, l: Launch)
    requires SafeLaunch(g, l)
    ensures l.svc < |g.svc| == |l.up| && |g.src| == |g.dst| && !l.held && !l.down
  {
  }

  lemma SafeFor(g: Graph, l: Launch, i: nat)
    requires SafeLaunch(g, l) && i < |g.svc| && |g.src| == |g.dst| && Prereq(g, i, l.svc)
    ensures i < |l.up| && if g.svc[i].orderOnly then i in l.ever else l.up[i]
  {
  }

  lemma InOrderIs(srcs: seq<Source>, order: seq<nat>, l: Launch)
    requires l.svc < |order| == |srcs| == |l.up| && (forall i :: 0 <= i < |order| ==> order[i] < |srcs|)
    requires !l.held && !l.down
    requires forall i :: 0 <= i < |order| && Needs(srcs, order[i], order[l.svc]) ==>
               if srcs[order[i]].orderOnly then i in l.ever else l.up[i]
    ensures InOrder(srcs, order, l)
  {
    hide Needs;
  }

  lemma OrderOnlyKept(s: Source, im: Image, i: nat)
    requires |im.roff| == |im.recs| + 1 && i < |im.recs| && RecordFor(s, im, i)
    ensures i < |GraphOf(im).svc| && GraphOf(im).svc[i].orderOnly == s.orderOnly
  {
  }

  /** Builds the graph file of a set of services and runs it. Nothing but a fault of the files themselves keeps
      it from running, and whatever happens then, every service is launched in the order the files ask for. */
  method BuildAndRun(srcs: seq<Source>, hashLow: nat, hashHigh: nat, crc: string -> nat, previous: string, table: bool,
                     events: seq<Event>)
    returns (r: Made, e: Engine?)
    requires SourcesFine(srcs) && hashLow < WORD && hashHigh < WORD
    ensures MadeRight(srcs, crc, r) && (e != null <==> r.Written?)
    ensures e != null ==> e.Inv() && forall a :: 0 <= a < |e.launches| ==> InOrder(srcs, r.order, e.launches[a])
  {
    hide *;
    e := null;
    r := MakeImage(srcs, hashLow, hashHigh, crc);
    if r.Written? {
      WrittenFaithful(srcs, crc, r);
      TakenIs(r.file, previous, crc);
      e := Boot(r.file, previous, crc, table, events);
      forall a | 0 <= a < |e.launches| ensures InOrder(srcs, r.order, e.launches[a]) {
        LaunchAt(e.g, e.launches, a);
        LaunchInOrder(srcs, r.order, r.file, crc, e.launches[a]);
      }
    }
  }

  lemma WrittenFaithful(srcs: seq<Source>, crc: string -> nat, r: Made)
    requires r.Written? && MadeRight(srcs, crc, r)
    ensures Faithful(srcs, r.order, r.file, crc) && FileFine(r.file, crc)
  {
    hide FileFine, RecordFor, Needs, Circle, Clash;
  }

  lemma LaunchAt(g: Graph, launches: seq<Launch>, a: nat)
    requires LaunchesSafe(g, launches) && a < |launches|
    ensures SafeLaunch(g, launches[a])
  {
  }
}
