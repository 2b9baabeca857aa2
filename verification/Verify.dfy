/** The verifier of a graph image, from its tables on. */
module Verifiers {
  import opened Counting
  import opened Graphs
  import opened Transposes
  import opened Argvs
  import opened Blobs
  import opened NameTables

  const NG_MAX_SVC: nat := 8192
  const NG_MAX_NAME: nat := 255
  const NG_MAX_SCRIPT: nat := 131071
  const NG_MAX_MS: nat := 86400000
  const NG_MAX_TRIES: nat := 250
  const NG_NONE: nat := 0xffff_ffff

  /** A service record with its policy record. Bits that no field has are `stray`. */
  datatype Rec = Rec(
    unmet: nat, kind: nat, policy: nat, restart: bool, interp: bool, direct: bool, stray: bool,
    nDesc: nat, notifyFd: nat, scriptOff: nat, nameOff: nat,
    startMs: nat, stopMs: nat, retryMs: nat, startTries: nat, orderOnly: bool, strayPolicy: bool, execOff: nat)

  datatype Image = Image(roots: nat, recs: seq<Rec>, roff: seq<nat>, ridx: seq<nat>, blob: string)

  // ---------------------------------------------------------------- the graph in an image

  function KindOf(k: nat): Kind {
    if k == 0 then Oneshot else if k == 1 then Daemon else Target
  }

  function PolicyOf(p: nat): OnFail {
    if p == 0 then OnFailWarn else if p == 1 then OnFailStop else OnFailShell
  }

  /** The record as the accessors give it, which replace zeros by defaults. */
  function ServiceOf(r: Rec): Service {
    Service(KindOf(r.kind), r.unmet, r.restart, r.orderOnly, r.notifyFd != 0, PolicyOf(r.policy),
            if r.startTries != 0 then r.startTries else if r.kind == 1 then 2 else 1,
            if r.startMs != 0 then r.startMs else 90000,
            if r.stopMs != 0 then r.stopMs else 5000, r.retryMs)
  }

  /** The service each edge starts from, for the first i rows. */
  function Froms(roff: seq<nat>, i: nat): seq<nat>
    requires i < |roff|
  {
    if i == 0 then []
    else Froms(roff, i - 1) + seq<nat>(if roff[i - 1] <= roff[i] then roff[i] - roff[i - 1] else 0, _ => i - 1)
  }

  function GraphOf(im: Image): Graph
    requires |im.roff| == |im.recs| + 1
  {
    Graph(seq(|im.recs|, i requires 0 <= i < |im.recs| => ServiceOf(im.recs[i])), im.roots, im.roff,
          Froms(im.roff, |im.recs|), im.ridx)
  }

  // ---------------------------------------------------------------- what is accepted

  predicate NameFine(s: string) {
    && s != [] && |s| <= NG_MAX_NAME && s[0] != '.' && s[|s| - 1] != '~'
    && !(|s| > 1 && s[0] == '#' && s[|s| - 1] == '#')
    && forall k :: 0 <= k < |s| ==> s[k] != '/' && s[k] != ',' && s[k] > ' ' && s[k] != '\U{7f}'
  }

  /** Row i: in order, forward, and each dependent has fewer descendants. */
  ghost predicate RowFine(im: Image, i: nat)
    requires |im.roff| == |im.recs| + 1 && i < |im.recs|
  {
    && im.roff[i] <= im.roff[i + 1] <= |im.ridx|
    && (forall j :: im.roff[i] <= j < im.roff[i + 1] ==>
          i < im.ridx[j] < |im.recs| && im.recs[im.ridx[j]].nDesc + 1 <= im.recs[i].nDesc)
    && (forall j, k :: im.roff[i] <= j < k < im.roff[i + 1] ==> im.ridx[j] < im.ridx[k])
  }

  /** How many services depend directly on i. */
  function RowSize(im: Image, i: nat): nat
    requires |im.roff| == |im.recs| + 1 && i < |im.recs|
  {
    if im.roff[i] <= im.roff[i + 1] then im.roff[i + 1] - im.roff[i] else 0
  }

  /** What a record must satisfy by itself. */
  ghost predicate FieldsFine(r: Rec, blob: string) {
    && Ended(blob)
    && (r.notifyFd != 0 ==> 3 <= r.notifyFd <= 255 && r.kind == 1)
    && r.kind <= 2 && r.policy <= 2 && !r.stray && (r.restart ==> r.kind == 1)
    && r.nameOff < |blob| && NameFine(Str(blob, r.nameOff))
    && (if r.kind == 2 then r.scriptOff == NG_NONE
        else r.scriptOff < |blob| && |Str(blob, r.scriptOff)| <= NG_MAX_SCRIPT)
    && r.startMs <= NG_MAX_MS && r.stopMs <= NG_MAX_MS && r.startTries <= NG_MAX_TRIES && !r.strayPolicy
    && !(r.interp && r.direct) && (r.interp || r.direct ==> r.kind != 2)
    && (r.interp ==> InterpFine(blob, r.execOff)) && (r.direct ==> DirectFine(blob, r.execOff))
    && (!r.interp && !r.direct ==> r.execOff == NG_NONE)
  }

  /** What record i must satisfy besides its row. `size` is the number of its direct dependents. */
  ghost predicate RecFine(r: Rec, blob: string, n: nat, roots: nat, i: nat, size: nat) {
    && FieldsFine(r, blob)
    && r.unmet < n && r.nDesc + i < n && size <= r.nDesc && (r.policy == 0 ==> size == 0)
    && (i < roots <==> r.unmet == 0)
  }

  ghost predicate NamesDiffer(im: Image) {
    forall i, j ::
        0 <= i < j < |im.recs| && Ended(im.blob) && im.recs[i].nameOff < |im.blob| && im.recs[j].nameOff < |im.blob| ==>
      Str(im.blob, im.recs[i].nameOff) != Str(im.blob, im.recs[j].nameOff)
  }

  ghost predicate Accepts(im: Image)
    requires |im.roff| == |im.recs| + 1
  {
    var n, m := |im.recs|, |im.ridx|;
    && n <= NG_MAX_SVC && im.roots <= n && 2 * m <= n * (n - 1)
    && (im.blob == [] || Ended(im.blob))
    && im.roff[0] == 0 && im.roff[n] == m
    && RecordsFine(im) && CountsFine(im) && NamesDiffer(im)
  }

  ghost predicate RecordsFine(im: Image)
    requires |im.roff| == |im.recs| + 1
  {
    forall i :: 0 <= i < |im.recs| ==>
        RowFine(im, i) && RecFine(im.recs[i], im.blob, |im.recs|, im.roots, i, RowSize(im, i))
  }

  /** Every counter is the number of edges that lead to its service. */
  ghost predicate CountsFine(im: Image) {
    forall i {:trigger InDegree(im.ridx, i)} :: 0 <= i < |im.recs| ==> im.recs[i].unmet == InDegree(im.ridx, i)
  }

  // ---------------------------------------------------------------- accepted images are valid graphs

  ghost predicate Monotone(roff: seq<nat>, n: nat) {
    n < |roff| && roff[0] == 0 && forall i, j :: 0 <= i && j == i + 1 && j <= n ==> roff[i] <= roff[j]
  }

  lemma {:induction false} FromsAre(roff: seq<nat>, i: nat)
    requires Monotone(roff, i)
    ensures |Froms(roff, i)| == roff[i]
    ensures forall k :: 0 <= k < roff[i] ==>
              Froms(roff, i)[k] < i && roff[Froms(roff, i)[k]] <= k < roff[Froms(roff, i)[k] + 1]
    ensures forall j :: 0 <= j <= i ==> roff[j] <= roff[i]
  {
    if i > 0 {
      FromsAre(roff, i - 1);
      assert roff[i - 1] <= roff[i];
      var a, f := Froms(roff, i - 1), Froms(roff, i);
      forall k | 0 <= k < roff[i] ensures f[k] < i && roff[f[k]] <= k < roff[f[k] + 1] {
        if k < roff[i - 1] {
          assert f[k] == a[k];
        } else {
          assert f[k] == i - 1;
        }
      }
    }
  }

  lemma {:induction false} RoffGrows(roff: seq<nat>, n: nat, i: nat, j: nat)
    requires Monotone(roff, n) && i <= j <= n
    ensures roff[i] <= roff[j]
    decreases j
  {
    if i < j {
      RoffGrows(roff, n, i, j - 1);
      assert roff[j - 1] <= roff[j];
    }
  }

  lemma RowsOf(im: Image)
    requires |im.roff| == |im.recs| + 1 && Monotone(im.roff, |im.recs|) && im.roff[|im.recs|] == |im.ridx|
    ensures Rows(GraphOf(im))
  {
    var g, n := GraphOf(im), |im.recs|;
    FromsAre(im.roff, n);
    forall i, j | 0 <= i <= j <= n ensures im.roff[i] <= im.roff[j] {
      RoffGrows(im.roff, n, i, j);
    }
    forall j, k | 0 <= j < n && im.roff[j] <= k < im.roff[j + 1] ensures g.src[k] == j {
      var x := g.src[k];
      assert im.roff[j + 1] <= im.roff[n];
      assert im.roff[if x + 1 <= j then x + 1 else j] <= im.roff[j];
      assert im.roff[if j + 1 <= x then j + 1 else x] <= im.roff[x];
    }
  }

  /** Whatever is accepted is a valid graph. */
  lemma AcceptedIsValid(im: Image)
    requires |im.roff| == |im.recs| + 1 && Accepts(im)
    ensures Valid(GraphOf(im))
  {
    var g, n := GraphOf(im), |im.recs|;
    assert Monotone(im.roff, n) by {
      forall i, j | 0 <= i && j == i + 1 && j <= n ensures im.roff[i] <= im.roff[j] {
        assert RowFine(im, i);
      }
    }
    RowsOf(im);
    EdgesFine(im);
    hide Rows, Froms, RecFine;
    forall d | 0 <= d < n ensures WellFormed(g.svc[d]) && (d < g.roots <==> g.svc[d].unmet == 0) {
      RecWellFormed(im.recs[d], im.blob, n, im.roots, d, RowSize(im, d));
    }
    forall d {:trigger InDegree(g.dst, d)} | 0 <= d < |g.svc| ensures g.svc[d].unmet == InDegree(g.dst, d) {
      assert im.recs[d].unmet == InDegree(im.ridx, d);
    }
  }

  lemma RecWellFormed(r: Rec, blob: string, n: nat, roots: nat, i: nat, size: nat)
    requires RecFine(r, blob, n, roots, i, size)
    ensures WellFormed(ServiceOf(r)) && (i < roots <==> r.unmet == 0)
  {
  }

  lemma EdgesFine(im: Image)
    requires |im.roff| == |im.recs| + 1 && Accepts(im) && Rows(GraphOf(im))
    ensures Edges(GraphOf(im))
    ensures var g := GraphOf(im);
            forall k, l :: 0 <= k < l < |g.dst| && g.src[k] == g.src[l] ==> g.dst[k] < g.dst[l]
  {
    var g := GraphOf(im);
    FromFits(g);
    forall k | 0 <= k < |g.dst| ensures g.src[k] < g.dst[k] < |g.svc| && g.roots <= g.dst[k] {
      EdgeFine(im, k, g.src[k]);
    }
    hide Accepts, Rows, Froms;
    forall k, l | 0 <= k < l < |g.dst| && g.src[k] == g.src[l] ensures g.dst[k] < g.dst[l] {
      PairFine(im, k, l, g.src[k]);
    }
  }

  lemma FromFits(g: Graph)
    requires Rows(g)
    ensures |g.src| == |g.dst| && |g.roff| == |g.svc| + 1
    ensures forall k :: 0 <= k < |g.src| ==> g.src[k] < |g.svc| && g.roff[g.src[k]] <= k < g.roff[g.src[k] + 1]
  {
  }

  lemma EdgeFine(im: Image, k: nat, i: nat)
    requires |im.roff| == |im.recs| + 1 && Accepts(im) && k < |im.ridx|
    requires i < |im.recs| && im.roff[i] <= k < im.roff[i + 1]
    ensures i < im.ridx[k] < |im.recs| && im.roots <= im.ridx[k]
  {
    assert RowFine(im, i);
    SomeTo(im.ridx, k);
    var d := im.ridx[k];
    assert im.recs[d].unmet == InDegree(im.ridx, d);
    assert RecFine(im.recs[d], im.blob, |im.recs|, im.roots, d, RowSize(im, d));
  }

  lemma PairFine(im: Image, k: nat, l: nat, i: nat)
    requires |im.roff| == |im.recs| + 1 && Accepts(im) && i < |im.recs|
    requires im.roff[i] <= k < l < im.roff[i + 1] && l < |im.ridx|
    ensures im.ridx[k] < im.ridx[l]
  {
    assert RowFine(im, i);
  }

  lemma {:induction false} SomeTo(dst: seq<nat>, k: nat)
    requires k < |dst|
    ensures InDegree(dst, dst[k]) > 0
    decreases |dst|
  {
    if k < |dst| - 1 {
      SomeTo(dst[..|dst| - 1], k);
      assert dst[..|dst| - 1][k] == dst[k];
    }
  }

  // ---------------------------------------------------------------- the verifier

  method CheckRow(im: Image, i: nat) returns (ok: bool)
    requires |im.roff| == |im.recs| + 1 && i < |im.recs|
    ensures ok <==> RowFine(im, i)
  {
    if im.roff[i] > im.roff[i + 1] || im.roff[i + 1] > |im.ridx| {
      return false;
    }
    var j := im.roff[i];
    while j < im.roff[i + 1]
      invariant im.roff[i] <= j <= im.roff[i + 1]
      invariant forall k :: im.roff[i] <= k < j ==>
                  i < im.ridx[k] < |im.recs| && im.recs[im.ridx[k]].nDesc + 1 <= im.recs[i].nDesc
      invariant forall k, l :: im.roff[i] <= k < l < j ==> im.ridx[k] < im.ridx[l]
    {
      if im.ridx[j] >= |im.recs| || im.ridx[j] <= i {
        return false;
      }
      if j > im.roff[i] && im.ridx[j] <= im.ridx[j - 1] {
        return false;
      }
      if im.recs[im.ridx[j]].nDesc + 1 > im.recs[i].nDesc {
        return false;
      }
      j := j + 1;
    }
    ok := true;
  }

  method CheckName(s: string) returns (ok: bool)
    ensures ok <==> NameFine(s)
  {
    if s == [] || |s| > NG_MAX_NAME || s[0] == '.' || s[|s| - 1] == '~'
        || (|s| > 1 && s[0] == '#' && s[|s| - 1] == '#') {
      return false;
    }
    var k := 0;
    while k < |s|
      invariant 0 <= k <= |s|
      invariant forall j :: 0 <= j < k ==> s[j] != '/' && s[j] != ',' && s[j] > ' ' && s[j] != '\U{7f}'
    {
      if s[k] == '/' || s[k] == ',' || s[k] <= ' ' || s[k] == '\U{7f}' {
        return false;
      }
      k := k + 1;
    }
    ok := true;
  }

  /** The strings a record names. */
  method CheckStrings(r: Rec, blob: string) returns (ok: bool)
    requires Ended(blob)
    ensures ok <==>
              && r.nameOff < |blob| && NameFine(Str(blob, r.nameOff))
              && (if r.kind == 2 then r.scriptOff == NG_NONE
                  else r.scriptOff < |blob| && |Str(blob, r.scriptOff)| <= NG_MAX_SCRIPT)
  {
    hide End;
    if r.nameOff >= |blob| {
      return false;
    }
    FitsIsLength(blob, r.nameOff, NG_MAX_NAME);
    if !StrFits(blob, r.nameOff, NG_MAX_NAME) {
      return false;
    }
    var name := CheckName(Str(blob, r.nameOff));
    if !name {
      return false;
    }
    if r.kind == 2 {
      return r.scriptOff == NG_NONE;
    }
    if r.scriptOff >= |blob| {
      return false;
    }
    FitsIsLength(blob, r.scriptOff, NG_MAX_SCRIPT);
    ok := StrFits(blob, r.scriptOff, NG_MAX_SCRIPT);
  }

  /** The argument lists of a record. */
  method CheckExec(r: Rec, blob: string) returns (ok: bool)
    requires Ended(blob)
    ensures ok <==>
              && !(r.interp && r.direct) && (r.interp || r.direct ==> r.kind != 2)
              && (r.interp ==> InterpFine(blob, r.execOff)) && (r.direct ==> DirectFine(blob, r.execOff))
              && (!r.interp && !r.direct ==> r.execOff == NG_NONE)
  {
    hide InterpFine, DirectFine;
    if r.interp && r.direct {
      return false;
    }
    if r.interp {
      if r.kind == 2 {
        return false;
      }
      ok := ExecOk(blob, r.execOff);
    } else if r.direct {
      if r.kind == 2 {
        return false;
      }
      ok := DirectOk(blob, r.execOff);
    } else {
      ok := r.execOff == NG_NONE;
    }
  }

  method CheckRec(r: Rec, blob: string, n: nat, roots: nat, i: nat, size: nat) returns (ok: bool)
    requires blob == [] || Ended(blob)
    ensures ok <==> RecFine(r, blob, n, roots, i, size)
  {
    hide InterpFine, DirectFine, NameFine, Str;
    if r.unmet >= n || r.nDesc + i >= n || r.nDesc < size {
      return false;
    }
    if r.notifyFd != 0 && (r.notifyFd < 3 || r.notifyFd > 255 || r.kind != 1) {
      return false;
    }
    if r.kind > 2 || r.policy > 2 || r.stray || (r.policy == 0 && size != 0) || (r.restart && r.kind != 1) {
      return false;
    }
    if blob == [] {
      return false;
    }
    var strings := CheckStrings(r, blob);
    if !strings || (i < roots && r.unmet != 0) || (i >= roots && r.unmet == 0) {
      return false;
    }
    if r.startMs > NG_MAX_MS || r.stopMs > NG_MAX_MS || r.startTries > NG_MAX_TRIES || r.strayPolicy {
      return false;
    }
    ok := CheckExec(r, blob);
  }

  /** Whether every counter is the number of edges that lead to its service. */
  method CheckCounts(im: Image) returns (ok: bool)
    requires forall k :: 0 <= k < |im.ridx| ==> im.ridx[k] < |im.recs|
    ensures ok <==> CountsFine(im)
  {
    var n := |im.recs|;
    hide InDegree;
    var counts := new nat[n](_ => 0);
    NoEntries(im.ridx);
    var k := 0;
    while k < |im.ridx|
      invariant 0 <= k <= |im.ridx|
      invariant forall i {:trigger InDegree(im.ridx[..k], i)} :: 0 <= i < n ==> counts[i] == InDegree(im.ridx[..k], i)
    {
      counts[im.ridx[k]] := counts[im.ridx[k]] + 1;
      k := k + 1;
      forall i {:trigger InDegree(im.ridx[..k], i)} | 0 <= i < n ensures counts[i] == InDegree(im.ridx[..k], i) {
        OneMore(im.ridx, k - 1, i);
      }
    }
    assert im.ridx[..k] == im.ridx;
    var i := 0;
    while i < n
      invariant 0 <= i <= n
      invariant forall j {:trigger InDegree(im.ridx, j)} :: 0 <= j < i ==> im.recs[j].unmet == InDegree(im.ridx, j)
    {
      assert counts[i] == InDegree(im.ridx, i);
      if im.recs[i].unmet != counts[i] {
        return false;
      }
      i := i + 1;
    }
    ok := true;
  }

  lemma NoEntries(s: seq<nat>)
    ensures forall i :: InDegree(s[..0], i) == 0
  {
  }

  lemma OneMore(s: seq<nat>, k: nat, i: nat)
    requires k < |s|
    ensures InDegree(s[..k + 1], i) == InDegree(s[..k], i) + if s[k] == i then 1 else 0
  {
    assert s[..k + 1][..k] == s[..k];
  }

  /** Verifies the tables of an image. */
  method Verify(im: Image) returns (ok: bool)
    requires |im.roff| == |im.recs| + 1
    ensures ok <==> Accepts(im)
    ensures ok ==> Valid(GraphOf(im))
  {
    var n, m := |im.recs|, |im.ridx|;
    ok := false;
    if n > NG_MAX_SVC || im.roots > n || 2 * m > n * (n - 1) {
      return;
    }
    if im.blob != [] && im.blob[|im.blob| - 1] != '\0' {
      return;
    }
    if im.roff[0] != 0 || im.roff[n] != m {
      return;
    }
    hide RecordsFine, CountsFine, Valid, GraphOf, NamesDiffer;
    var records := CheckRecords(im);
    if !records {
      return;
    }
    InBounds(im);
    NamesIn(im);
    var counts := CheckCounts(im);
    if !counts {
      return;
    }
    ok := CheckNames(im);
    if ok {
      AcceptedIsValid(im);
    }
  }

  lemma NamesIn(im: Image)
    requires |im.roff| == |im.recs| + 1 && RecordsFine(im)
    ensures im.recs != [] ==> Ended(im.blob) && forall i :: 0 <= i < |im.recs| ==> im.recs[i].nameOff < |im.blob|
  {
    hide RowFine;
    if im.recs != [] {
      assert RecFine(im.recs[0], im.blob, |im.recs|, im.roots, 0, RowSize(im, 0));
    }
  }

  method CheckRecords(im: Image) returns (ok: bool)
    requires |im.roff| == |im.recs| + 1 && (im.blob == [] || Ended(im.blob))
    ensures ok <==> RecordsFine(im)
  {
    var i := 0;
    while i < |im.recs|
      invariant 0 <= i <= |im.recs|
      invariant forall j :: 0 <= j < i ==>
                  RowFine(im, j) && RecFine(im.recs[j], im.blob, |im.recs|, im.roots, j, RowSize(im, j))
    {
      hide RowFine, RecFine;
      var row := CheckRow(im, i);
      if !row {
        return false;
      }
      var rec := CheckRec(im.recs[i], im.blob, |im.recs|, im.roots, i, RowSize(im, i));
      if !rec {
        return false;
      }
      i := i + 1;
    }
    ok := true;
  }

  /** Every edge of an image whose rows are fine leads to a service. */
  lemma InBounds(im: Image)
    requires |im.roff| == |im.recs| + 1 && im.roff[0] == 0 && im.roff[|im.recs|] == |im.ridx|
    requires RecordsFine(im)
    ensures forall k :: 0 <= k < |im.ridx| ==> im.ridx[k] < |im.recs|
  {
    assert Monotone(im.roff, |im.recs|) by {
      forall i, j | 0 <= i && j == i + 1 && j <= |im.recs| ensures im.roff[i] <= im.roff[j] {
        assert RowFine(im, i);
      }
    }
    FromsAre(im.roff, |im.recs|);
    forall k | 0 <= k < |im.ridx| ensures im.ridx[k] < |im.recs| {
      assert RowFine(im, Froms(im.roff, |im.recs|)[k]);
    }
  }

  method CheckNames(im: Image) returns (ok: bool)
    requires im.recs != [] ==> Ended(im.blob) && forall i :: 0 <= i < |im.recs| ==> im.recs[i].nameOff < |im.blob|
    ensures ok <==> NamesDiffer(im)
  {
    if im.recs == [] {
      return true;
    }
    var names := seq(|im.recs|, i requires 0 <= i < |im.recs| => Str(im.blob, im.recs[i].nameOff));
    ok := UniqueNames(names);
    hide End;
    assert forall i :: 0 <= i < |im.recs| ==> names[i] == Str(im.blob, im.recs[i].nameOff);
    if !ok {
      var i, j :| 0 <= i < j < |names| && names[i] == names[j];
      assert Str(im.blob, im.recs[i].nameOff) == Str(im.blob, im.recs[j].nameOff);
    }
  }
}
