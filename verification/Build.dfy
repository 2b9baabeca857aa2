/** Building the image of a set of services. */
module Builders {
  import opened Graphs
  import opened Argvs
  import opened Blobs
  import opened Verifiers
  import opened Descents
  import opened Words
  import opened Files
  import opened Parsed

  lemma {:induction false} PackedSize(words: seq<string>)
    requires AllWords(words)
    ensures |Packed(words)| <= 4097 * |words|
  {
    if words != [] {
      PackedSize(words[1..]);
    }
  }

  /** What one service adds to the string table. */
  lemma StringsSize(s: Source)
    requires SourceFine(s)
    ensures |Texts(s) + Args(s)| <= 196882 && Ended(Texts(s) + Args(s))
  {
    PackedSize(s.pre);
    PackedSize(s.suf);
    PackedSize(s.direct);
    hide Packed, AllWords;
  }

  /** The strings and the record of one service. */
  method AddService(blob: Blob, s: Source, unmet: nat, nDesc: nat, policy: nat) returns (r: Rec)
    requires blob.Valid()
    modifies blob, blob.p
    ensures blob.Valid() && (blob.p == old(blob.p) || fresh(blob.p))
    ensures blob.Contents() == old(blob.Contents()) + (Texts(s) + Args(s))
    ensures r == RecOf(s, |old(blob.Contents())|, unmet, nDesc, policy)
  {
    hide Packed, Args;
    var name, script := AddTexts(blob, s);
    hide Texts;
    var exec := AddArgs(blob, s);
    r := Rec(unmet, s.kind, policy, s.restart, s.pre != [], s.pre == [] && s.direct != [], false, nDesc, s.notifyFd,
             script, name, s.startMs, s.stopMs, s.retryMs, s.startTries, s.orderOnly, false, exec);
  }

  method AddTexts(blob: Blob, s: Source) returns (name: nat, script: nat)
    requires blob.Valid()
    modifies blob, blob.p
    ensures blob.Valid() && (blob.p == old(blob.p) || fresh(blob.p))
    ensures blob.Contents() == old(blob.Contents()) + Texts(s) && name == |old(blob.Contents())|
    ensures script == if s.kind == 2 then NG_NONE else name + |s.name| + 1
  {
    name := blob.Add(s.name);
    script := NG_NONE;
    if s.kind != 2 {
      script := blob.Add(s.script);
    }
  }

  method AddArgs(blob: Blob, s: Source) returns (exec: nat)
    requires blob.Valid()
    modifies blob, blob.p
    ensures blob.Valid() && (blob.p == old(blob.p) || fresh(blob.p))
    ensures blob.Contents() == old(blob.Contents()) + Args(s)
    ensures exec == if s.pre == [] && s.direct == [] then NG_NONE else |old(blob.Contents())|
  {
    hide Packed;
    exec := NG_NONE;
    if s.pre != [] {
      exec := blob.AddAll(s.pre);
      var _ := blob.Add("");
      var _ := blob.AddAll(s.suf);
      var _ := blob.Add("");
    } else if s.direct != [] {
      exec := blob.AddAll(s.direct);
      var _ := blob.Add("");
    }
  }

  // ---------------------------------------------------------------- all services

  /** The services in the order of the graph, with their counters and their dependents. */
  datatype Plan = Plan(srcs: seq<Source>, unmet: seq<nat>, desc: seq<set<nat>>)

  ghost predicate PlanFine(p: Plan) {
    && |p.unmet| == |p.desc| == |p.srcs| && |p.srcs| <= NG_MAX_SVC
    && forall k :: 0 <= k < |p.srcs| ==> SourceFine(p.srcs[k])
  }

  function Chosen(p: Plan, k: nat): int
    requires k < |p.srcs| == |p.desc|
  {
    PolicyFor(p.srcs[k].given, p.srcs[k].policy, |p.desc[k]|)
  }

  /** The record of service k and its strings, which start at `at`. */
  ghost predicate FiledAt(p: Plan, k: nat, r: Rec, at: nat, blob: string)
    requires k < |p.srcs| == |p.desc| == |p.unmet|
  {
    && Chosen(p, k) >= 0 && r == RecOf(p.srcs[k], at, p.unmet[k], |p.desc[k]|, Chosen(p, k))
    && At(blob, at, Texts(p.srcs[k]) + Args(p.srcs[k]))
  }

  /** The records so far and their strings. */
  ghost predicate Filed(p: Plan, recs: seq<Rec>, ats: seq<nat>, blob: string)
    requires |p.srcs| == |p.desc| == |p.unmet|
  {
    && |recs| == |ats| <= |p.srcs| && |blob| <= 196882 * |recs| && (recs != [] ==> Ended(blob))
    && forall k :: 0 <= k < |recs| ==> FiledAt(p, k, recs[k], ats[k], blob)
  }

  lemma FiledMore(p: Plan, recs: seq<Rec>, ats: seq<nat>, blob: string, r: Rec)
    requires PlanFine(p) && Filed(p, recs, ats, blob) && |recs| < |p.srcs| && Chosen(p, |recs|) >= 0
    requires r == RecOf(p.srcs[|recs|], |blob|, p.unmet[|recs|], |p.desc[|recs|]|, Chosen(p, |recs|))
    ensures var s := p.srcs[|recs|]; Filed(p, recs + [r], ats + [|blob|], blob + (Texts(s) + Args(s)))
  {
    var i, s := |recs|, p.srcs[|recs|];
    var more := Texts(s) + Args(s);
    StringsSize(s);
    EndedMore(blob, more);
    hide SourceFine, Texts, Args, RecOf, At, Ended, Chosen;
    forall k | 0 <= k < i ensures FiledAt(p, k, recs[k], ats[k], blob + more) {
      AtMore(blob, more, ats[k], Texts(p.srcs[k]) + Args(p.srcs[k]));
    }
    AtEnd(blob, more);
  }

  lemma EndedMore(blob: string, more: string)
    requires Ended(more)
    ensures Ended(blob + more)
  {
  }

  /** Writes the records and the strings of all services. It stops at a service that is told to only warn
      although others depend on it. The table of strings stays so small that 32 bits hold every size. */
  method File(p: Plan) returns (ok: bool, recs: seq<Rec>, blob: string, ghost ats: seq<nat>)
    requires PlanFine(p)
    ensures ok <==> forall k :: 0 <= k < |p.srcs| ==> Chosen(p, k) >= 0
    ensures ok ==> |recs| == |p.srcs| && Filed(p, recs, ats, blob) && 2 * |blob| + 64 < WORD
    ensures !ok ==> |recs| < |p.srcs| && Chosen(p, |recs|) < 0
  {
    hide Chosen, FiledAt, RecOf, SourceFine, Ended, Texts, Args;
    var table := new Blob();
    recs, ats, ok := [], [], true;
    var i := 0;
    while i < |p.srcs|
      invariant 0 <= i <= |p.srcs| && i == |recs| && table.Valid() && fresh(table) && fresh(table.p)
      invariant Filed(p, recs, ats, table.Contents())
      invariant forall k :: 0 <= k < i ==> Chosen(p, k) >= 0
    {
      var policy := Chosen(p, i);
      if policy < 0 {
        ok, blob := false, "";
        return;
      }
      ghost var was := table.Contents();
      var r := AddService(table, p.srcs[i], p.unmet[i], |p.desc[i]|, policy);
      FiledMore(p, recs, ats, was, r);
      recs, ats := recs + [r], ats + [|was|];
      i := i + 1;
    }
    blob := table.p[..table.n];
  }

  // ---------------------------------------------------------------- the image is accepted

  /** The plan belongs to a graph. */
  ghost predicate PlanFor(p: Plan, g: Graph) {
    && Valid(g) && PlanFine(p) && |g.svc| == |p.srcs| && |g.src| == |g.dst|
    && (forall i :: 0 <= i < |g.svc| ==>
          p.unmet[i] == g.svc[i].unmet && g.svc[i] == ServiceFor(p.srcs[i]).(unmet := g.svc[i].unmet)
          && p.desc[i] == Dependents(g, i))
    && (forall i, j :: 0 <= i < j < |p.srcs| ==> p.srcs[i].name != p.srcs[j].name)
  }

  /** The image holds a graph and its services. */
  ghost predicate Depicts(im: Image, p: Plan, g: Graph) {
    && |im.roff| == |im.recs| + 1 && |im.recs| == |p.srcs| == |p.desc| == |g.svc| && |g.src| == |g.dst|
    && GraphOf(im) == g.(svc := GraphOf(im).svc)
    && forall i :: 0 <= i < |im.recs| ==>
         && ReadsBack(im.recs[i], im.blob, p.srcs[i]) && im.recs[i].nDesc == |Dependents(g, i)|
         && im.recs[i].policy == Chosen(p, i) && im.recs[i].retryMs < 0x1_0000
         && ServiceOf(im.recs[i]) == g.svc[i].(onFail := PolicyOf(im.recs[i].policy))
  }

  /** What is known of each record that was written. */
  lemma FiledFacts(p: Plan, g: Graph, im: Image, ats: seq<nat>, i: nat)
    requires PlanFor(p, g) && Filed(p, im.recs, ats, im.blob) && i < |im.recs|
    ensures var r := im.recs[i];
            && ReadsBack(r, im.blob, p.srcs[i]) && FieldsFine(r, im.blob) && r.nDesc == |Dependents(g, i)|
            && (r.policy == 0 ==> r.nDesc == 0) && r.policy == Chosen(p, i)
                && ServiceOf(r) == g.svc[i].(onFail := PolicyOf(r.policy))
            && r.retryMs < 0x1_0000
  {
    var s, policy := p.srcs[i], Chosen(p, i);
    assert FiledAt(p, i, im.recs[i], ats[i], im.blob);
    assert SourceFine(s) && policy <= 2;
    hide SourceFine, At, Texts, Args, ReadsBack, FieldsFine, Ended, Dependents, Valid;
    RecReads(s, im.blob, ats[i], p.unmet[i], |p.desc[i]|, policy);
    RecService(s, ats[i], p.unmet[i], |p.desc[i]|, policy);
    RetryFits(s);
  }

  lemma RetryFits(s: Source)
    requires SourceFine(s)
    ensures s.retryMs < 0x1_0000
  {
  }

  /** The image of a graph is accepted. */
  lemma FiledIsAccepted(p: Plan, g: Graph, im: Image, ats: seq<nat>)
    requires PlanFor(p, g) && |im.recs| == |p.srcs| && Filed(p, im.recs, ats, im.blob)
    requires im.roots == g.roots && im.roff == g.roff && im.ridx == g.dst
    ensures Depicts(im, p, g) && Accepts(im)
  {
    forall i | 0 <= i < |im.recs|
      ensures ReadsBack(im.recs[i], im.blob, p.srcs[i]) && FieldsFine(im.recs[i], im.blob)
      ensures im.recs[i].nDesc == |Dependents(g, i)| && (im.recs[i].policy == 0 ==> im.recs[i].nDesc == 0)
      ensures ServiceOf(im.recs[i]) == g.svc[i].(onFail := PolicyOf(im.recs[i].policy))
      ensures im.recs[i].policy == Chosen(p, i) && im.recs[i].retryMs < 0x1_0000
    {
      FiledFacts(p, g, im, ats, i);
    }
    assert im.blob == [] || Ended(im.blob);
    hide SourceFine, ReadsBack, FieldsFine, Dependents, Filed, ServiceFor, Valid, Ended, Chosen;
    DraftHolds(im, g);
    forall i | 0 <= i < |im.recs| ensures Exact(im, i) {
      SameDependents(g, GraphOf(im), i);
    }
    NamesRead(im, p);
    BuiltIsAccepted(im);
  }

  lemma NamesRead(im: Image, p: Plan)
    requires |im.recs| == |p.srcs| && forall i :: 0 <= i < |im.recs| ==> ReadsBack(im.recs[i], im.blob, p.srcs[i])
    requires forall i, j :: 0 <= i < j < |p.srcs| ==> p.srcs[i].name != p.srcs[j].name
    ensures NamesDiffer(im)
  {
    hide Lists, Str, End, List;
  }

  /** The numbers in it fit their bits. */
  lemma FiledFits(p: Plan, g: Graph, im: Image)
    requires Depicts(im, p, g) && Accepts(im) && 2 * |im.blob| + 64 < WORD
    ensures ImageFits(im)
  {
    forall i | 0 <= i < |im.recs| ensures RecFits(im.recs[i]) {
      RecordFits(im, i);
    }
    AcceptedSizes(im);
    hide Depicts, Accepts, RecFits;
    EdgesSmall(im);
  }

  lemma AcceptedSizes(im: Image)
    requires |im.roff| == |im.recs| + 1 && Accepts(im)
    ensures im.roots <= |im.recs| <= NG_MAX_SVC && 68 + 36 * |im.recs| + 4 * |im.ridx| < 0x1000_0000
  {
    hide RecordsFine, CountsFine, NamesDiffer;
    SizeFits(|im.recs|, |im.ridx|);
  }

  lemma RecordFits(im: Image, i: nat)
    requires |im.roff| == |im.recs| + 1 && Accepts(im) && |im.blob| < WORD
    requires i < |im.recs| && im.recs[i].retryMs < 0x1_0000
    ensures RecFits(im.recs[i])
  {
    hide RowFine, NamesDiffer, CountsFine, End, List, Str, NameFine, Short;
    assert RecFine(im.recs[i], im.blob, |im.recs|, im.roots, i, RowSize(im, i));
  }

  lemma EdgesSmall(im: Image)
    requires |im.roff| == |im.recs| + 1 && Accepts(im) && |im.ridx| < WORD
    ensures Small(im.roff) && Small(im.ridx)
  {
    InBounds(im);
    forall i | 0 <= i < |im.recs| ensures im.roff[i] <= |im.ridx| {
      assert RowFine(im, i);
    }
  }

  lemma SizeFits(n: nat, m: nat)
    requires n <= NG_MAX_SVC && 2 * m <= n * (n - 1)
    ensures 68 + 36 * n + 4 * m < 0x1000_0000
  {
    if n > 0 {
      Times(n, n - 1, 8191);
    }
  }

  lemma Times(n: nat, a: nat, b: nat)
    requires a <= b
    ensures n * a <= n * b
  {
  }
}
