/** The bytes of an image: a header, then the sections it points to. */
module Files {
  import opened Blobs
  import opened Words
  import opened Graphs
  import opened Argvs
  import opened Verifiers

  const NG_MAGIC: nat := 0x4744494e
  const NG_VERSION: nat := 9

  datatype Header = Header(
    magic: nat, version: nat, crc: nat, total: nat, services: nat, roots: nat, edges: nat, blobLen: nat,
    offSvc: nat, offRows: nat, offEdges: nat, offBlob: nat, offPol: nat, reserved: nat, hashLow: nat, hashHigh: nat)

  function HeaderWords(h: Header): (r: seq<nat>)
    ensures |r| == 16
  {
    [h.magic, h.version, h.crc, h.total, h.services, h.roots, h.edges, h.blobLen,
     h.offSvc, h.offRows, h.offEdges, h.offBlob, h.offPol, h.reserved, h.hashLow, h.hashHigh]
  }

  function HeaderFrom(w: seq<nat>): (h: Header)
    requires |w| == 16
    ensures HeaderWords(h) == w
  {
    Header(w[0], w[1], w[2], w[3], w[4], w[5], w[6], w[7], w[8], w[9], w[10], w[11], w[12], w[13], w[14], w[15])
  }

  function ReadHeader(f: string): Header
    requires |f| >= 64
  {
    HeaderFrom(Array(f, 0, 16))
  }

  // ---------------------------------------------------------------- records

  function FlagsOf(r: Rec): nat {
    r.policy + (if r.restart then 4 else 0) + (if r.interp then 8 else 0) + (if r.direct then 16 else 0)
  }

  function SvcWords(r: Rec): (w: seq<nat>)
    ensures |w| == 4
  {
    [r.unmet + 0x1_0000 * (r.kind + 0x100 * FlagsOf(r)), r.nDesc + 0x1_0000 * r.notifyFd, r.scriptOff, r.nameOff]
  }

  function PolWords(r: Rec): (w: seq<nat>)
    ensures |w| == 4
  {
    [r.startMs, r.stopMs, r.retryMs + 0x1_0000 * (r.startTries + 0x100 * if r.orderOnly then 1 else 0), r.execOff]
  }

  /** A record from the words of its two entries. Bits that no field has are kept as `stray`. */
  function RecFrom(s: seq<nat>, p: seq<nat>): Rec
    requires |s| == 4 && |p| == 4
  {
    var kind, flags := s[0] / 0x1_0000 % 0x100, s[0] / 0x1_0000 / 0x100;
    var tries, pflags := p[2] / 0x1_0000 % 0x100, p[2] / 0x1_0000 / 0x100;
    Rec(s[0] % 0x1_0000, kind, flags % 4, flags / 4 % 2 == 1, flags / 8 % 2 == 1, flags / 16 % 2 == 1, flags / 32 != 0,
        s[1] % 0x1_0000, s[1] / 0x1_0000, s[2], s[3],
        p[0], p[1], p[2] % 0x1_0000, tries, pflags % 2 == 1, pflags / 2 != 0, p[3])
  }

  /** The fields of a record fit the bits they have. */
  predicate RecFits(r: Rec) {
    && r.unmet < 0x1_0000 && r.kind < 0x100 && r.policy < 4 && !r.stray && r.nDesc < 0x1_0000 && r.notifyFd < 0x1_0000
    && r.scriptOff < WORD && r.nameOff < WORD && r.startMs < WORD && r.stopMs < WORD && r.retryMs < 0x1_0000
    && r.startTries < 0x100 && !r.strayPolicy && r.execOff < WORD
  }

  lemma HighHalf(lo: nat, hi: nat)
    requires lo < 0x1_0000
    ensures (lo + 0x1_0000 * hi) % 0x1_0000 == lo && (lo + 0x1_0000 * hi) / 0x1_0000 == hi
  {
  }

  lemma HighByte(lo: nat, hi: nat)
    requires lo < 0x100
    ensures (lo + 0x100 * hi) % 0x100 == lo && (lo + 0x100 * hi) / 0x100 == hi
  {
  }

  lemma FlagsRound(r: Rec)
    requires r.policy < 4
    ensures var f := FlagsOf(r);
            && f < 32 && f % 4 == r.policy && (f / 4 % 2 == 1 <==> r.restart) && (f / 8 % 2 == 1 <==> r.interp)
            && (f / 16 % 2 == 1 <==> r.direct)
  {
  }

  /** A record whose fields fit is read back. */
  lemma RecRound(r: Rec)
    requires RecFits(r)
    ensures Small(SvcWords(r)) && Small(PolWords(r)) && RecFrom(SvcWords(r), PolWords(r)) == r
  {
    var flags, order := FlagsOf(r), if r.orderOnly then 1 else 0;
    FlagsRound(r);
    hide FlagsOf;
    HighHalf(r.unmet, r.kind + 0x100 * flags);
    HighByte(r.kind, flags);
    HighHalf(r.nDesc, r.notifyFd);
    HighHalf(r.retryMs, r.startTries + 0x100 * order);
    HighByte(r.startTries, order);
  }

  /** The four words of every record, one record after the other. */
  function SvcTable(recs: seq<Rec>): (r: seq<nat>)
    ensures |r| == 4 * |recs|
  {
    if recs == [] then [] else SvcWords(recs[0]) + SvcTable(recs[1..])
  }

  function PolTable(recs: seq<Rec>): (r: seq<nat>)
    ensures |r| == 4 * |recs|
  {
    if recs == [] then [] else PolWords(recs[0]) + PolTable(recs[1..])
  }

  lemma {:induction false} TableAt(recs: seq<Rec>, k: nat)
    requires k < |recs|
    ensures SvcTable(recs)[4 * k..4 * k + 4] == SvcWords(recs[k])
    ensures PolTable(recs)[4 * k..4 * k + 4] == PolWords(recs[k])
    decreases k
  {
    if k > 0 {
      TableAt(recs[1..], k - 1);
      assert SvcTable(recs)[4 * k..4 * k + 4] == SvcTable(recs[1..])[4 * (k - 1)..4 * (k - 1) + 4];
      assert PolTable(recs)[4 * k..4 * k + 4] == PolTable(recs[1..])[4 * (k - 1)..4 * (k - 1) + 4];
    }
  }

  predicate RecsFit(recs: seq<Rec>) {
    forall k :: 0 <= k < |recs| ==> RecFits(recs[k])
  }

  lemma {:induction false} TableSmall(recs: seq<Rec>)
    requires RecsFit(recs)
    ensures Small(SvcTable(recs)) && Small(PolTable(recs))
  {
    if recs != [] {
      hide RecFits, SvcWords, PolWords;
      TableSmall(recs[1..]);
      RecRound(recs[0]);
    }
  }

  /** The record at two places of a file. */
  function ReadRec(f: string, svc: nat, pol: nat): Rec
    requires svc + 16 <= |f| && pol + 16 <= |f|
  {
    RecFrom(Array(f, svc, 4), Array(f, pol, 4))
  }

  function ReadRecs(f: string, svc: nat, pol: nat, n: nat): (r: seq<Rec>)
    requires svc + 16 * n <= |f| && pol + 16 * n <= |f|
    ensures |r| == n
  {
    seq(n, k requires 0 <= k < n => ReadRec(f, svc + 16 * k, pol + 16 * k))
  }

  /** Records that were put in are read back. */
  lemma RecsAt(f: string, svc: nat, pol: nat, recs: seq<Rec>)
    requires RecsFit(recs) && At(f, svc, Pack(SvcTable(recs))) && At(f, pol, Pack(PolTable(recs)))
    ensures svc + 16 * |recs| <= |f| && pol + 16 * |recs| <= |f| && ReadRecs(f, svc, pol, |recs|) == recs
  {
    hide *;
    AtFits(f, svc, Pack(SvcTable(recs)));
    AtFits(f, pol, Pack(PolTable(recs)));
    forall k | 0 <= k < |recs|
      ensures ReadRec(f, svc + 16 * k, pol + 16 * k) == recs[k]
    {
      RecAt(f, svc, pol, recs, k);
    }
    AllRead(f, svc, pol, recs);
  }

  lemma AllRead(f: string, svc: nat, pol: nat, recs: seq<Rec>)
    requires svc + 16 * |recs| <= |f| && pol + 16 * |recs| <= |f|
    requires forall k :: 0 <= k < |recs| ==> ReadRec(f, svc + 16 * k, pol + 16 * k) == recs[k]
    ensures ReadRecs(f, svc, pol, |recs|) == recs
  {
    hide ReadRec;
  }

  lemma RecAt(f: string, svc: nat, pol: nat, recs: seq<Rec>, k: nat)
    requires RecsFit(recs) && At(f, svc, Pack(SvcTable(recs))) && At(f, pol, Pack(PolTable(recs))) && k < |recs|
    ensures svc + 16 * k + 16 <= |f| && pol + 16 * k + 16 <= |f|
    ensures ReadRec(f, svc + 16 * k, pol + 16 * k) == recs[k]
  {
    FitsAt(recs, k);
    hide *;
    TableSmall(recs);
    RecRound(recs[k]);
    SvcAt(f, svc, recs, k);
    PolAt(f, pol, recs, k);
    ReadRecIs(f, svc + 16 * k, pol + 16 * k);
  }

  lemma SvcAt(f: string, svc: nat, recs: seq<Rec>, k: nat)
    requires Small(SvcTable(recs)) && At(f, svc, Pack(SvcTable(recs))) && k < |recs|
    ensures svc + 16 * k + 16 <= |f| && Array(f, svc + 16 * k, 4) == SvcWords(recs[k])
  {
    hide *;
    TableAt(recs, k);
    SliceAt(f, svc, SvcTable(recs), 4 * k);
  }

  lemma PolAt(f: string, pol: nat, recs: seq<Rec>, k: nat)
    requires Small(PolTable(recs)) && At(f, pol, Pack(PolTable(recs))) && k < |recs|
    ensures pol + 16 * k + 16 <= |f| && Array(f, pol + 16 * k, 4) == PolWords(recs[k])
  {
    hide *;
    TableAt(recs, k);
    SliceAt(f, pol, PolTable(recs), 4 * k);
  }

  lemma FitsAt(recs: seq<Rec>, k: nat)
    requires RecsFit(recs) && k < |recs|
    ensures RecFits(recs[k])
  {
  }

  lemma ReadRecIs(f: string, svc: nat, pol: nat)
    requires svc + 16 <= |f| && pol + 16 <= |f|
    ensures ReadRec(f, svc, pol) == RecFrom(Array(f, svc, 4), Array(f, pol, 4))
  {
  }

  lemma AtFits(f: string, off: nat, s: string)
    requires At(f, off, s)
    ensures off + |s| <= |f|
  {
  }

  /** Four numbers out of many. */
  lemma SliceAt(f: string, off: nat, ws: seq<nat>, k: nat)
    requires Small(ws) && At(f, off, Pack(ws)) && k + 4 <= |ws|
    ensures off + 4 * k + 16 <= |f| && Array(f, off + 4 * k, 4) == ws[k..k + 4]
  {
    hide Pack, At, Num, Small;
    WordsAt(f, off, ws, k + 3);
    var a, b := Array(f, off + 4 * k, 4), ws[k..k + 4];
    forall j | 0 <= j < 4 ensures a[j] == b[j] {
      WordsAt(f, off, ws, k + j);
      assert off + 4 * (k + j) == off + 4 * k + 4 * j;
    }
  }

  // ---------------------------------------------------------------- sections

  datatype Span = Span(lo: nat, hi: nat)

  predicate In(x: nat, s: Span) {
    s.lo <= x < s.hi
  }

  /** No byte belongs to both. */
  ghost predicate Apart(a: Span, b: Span) {
    forall x :: In(x, a) ==> !In(x, b)
  }

  ghost predicate AllApart(v: seq<Span>) {
    forall i, j :: 0 <= i < j < |v| ==> Apart(v[i], v[j])
  }

  lemma ApartIff(a: Span, b: Span)
    requires a.lo <= a.hi && b.lo <= b.hi
    ensures Apart(a, b) <==> a.lo == a.hi || b.lo == b.hi || !(a.lo < b.hi && b.lo < a.hi)
  {
    if a.lo < b.hi && b.lo < a.hi && a.lo != a.hi && b.lo != b.hi {
      var x := if a.lo <= b.lo then b.lo else a.lo;
      assert In(x, a) && In(x, b);
    }
  }

  /** Whether no byte belongs to two of the spans; empty ones are passed over. */
  method SpansDisjoint(v: seq<Span>) returns (ok: bool)
    requires forall k :: 0 <= k < |v| ==> v[k].lo <= v[k].hi
    ensures ok <==> AllApart(v)
  {
    hide Apart;
    var i := 0;
    while i < |v|
      invariant 0 <= i <= |v| && forall k, l :: 0 <= k < i && k < l < |v| ==> Apart(v[k], v[l])
    {
      var j := i + 1;
      while j < |v|
        invariant i < j <= |v| && forall l :: i < l < j ==> Apart(v[i], v[l])
      {
        ApartIff(v[i], v[j]);
        if v[i].lo != v[i].hi && v[j].lo != v[j].hi && v[i].lo < v[j].hi && v[j].lo < v[i].hi {
          return false;
        }
        j := j + 1;
      }
      i := i + 1;
    }
    ok := true;
  }

  /** The header and the five sections. */
  function Sections(h: Header): (r: seq<Span>)
    ensures forall k :: 0 <= k < |r| ==> r[k].lo <= r[k].hi
  {
    [Span(0, 64), Span(h.offSvc, h.offSvc + 16 * h.services), Span(h.offRows, h.offRows + 4 * (h.services + 1)),
     Span(h.offEdges, h.offEdges + 4 * h.edges), Span(h.offPol, h.offPol + 16 * h.services),
     Span(h.offBlob, h.offBlob + h.blobLen)]
  }

  predicate RangeOk(off: nat, bytes: nat, total: nat, align: nat)
    requires align > 0
  {
    off % align == 0 && off + bytes <= total
  }

  /** Every section is aligned and ends inside the file. */
  predicate InRange(h: Header) {
    && RangeOk(h.offSvc, 16 * h.services, h.total, 8) && RangeOk(h.offRows, 4 * (h.services + 1), h.total, 4)
    && RangeOk(h.offEdges, 4 * h.edges, h.total, 4) && RangeOk(h.offBlob, h.blobLen, h.total, 1)
    && RangeOk(h.offPol, 16 * h.services, h.total, 4)
  }

  ghost predicate HeaderFine(h: Header, len: nat) {
    && h.magic == NG_MAGIC && h.version == NG_VERSION && h.total == len && h.reserved == 0
    && h.services <= NG_MAX_SVC && h.roots <= h.services && 2 * h.edges <= h.services * (h.services - 1)
    && InRange(h) && AllApart(Sections(h))
  }

  method CheckHeader(h: Header, len: nat) returns (ok: bool)
    ensures ok <==> HeaderFine(h, len)
  {
    hide AllApart, Sections;
    if h.magic != NG_MAGIC || h.version != NG_VERSION || h.total != len {
      return false;
    }
    if h.services > NG_MAX_SVC || h.roots > h.services || h.reserved != 0 {
      return false;
    }
    if (h.services == 0 && h.edges > 0) || h.edges > h.services * (h.services - 1) / 2 {
      HalfPairs(h.services, h.edges);
      return false;
    }
    HalfPairs(h.services, h.edges);
    if !InRange(h) {
      return false;
    }
    ok := SpansDisjoint(Sections(h));
  }

  /** Half of n (n - 1) is a whole number. */
  lemma HalfPairs(n: nat, m: nat)
    ensures m <= n * (n - 1) / 2 <==> 2 * m <= n * (n - 1)
    ensures n == 0 && m > 0 ==> 2 * m > n * (n - 1)
  {
  }

  // ---------------------------------------------------------------- whole files

  /** The tables a file holds. */
  function Load(f: string): (im: Image)
    requires |f| >= 64 && InRange(ReadHeader(f)) && ReadHeader(f).total == |f|
    ensures |im.roff| == |im.recs| + 1
  {
    var h := ReadHeader(f);
    Image(h.roots, ReadRecs(f, h.offSvc, h.offPol, h.services), Array(f, h.offRows, h.services + 1),
          Array(f, h.offEdges, h.edges), f[h.offBlob..h.offBlob + h.blobLen])
  }

  /** The bytes the checksum covers: the file with no checksum in its header. */
  function Summed(f: string): string
    requires |f| >= 64
  {
    Pack(HeaderWords(ReadHeader(f).(crc := 0))) + f[64..]
  }

  /** A header that makes sense, the right checksum, and tables that are accepted. */
  ghost predicate FileFine(f: string, crc: string -> nat) {
    && |f| >= 64 && HeaderFine(ReadHeader(f), |f|) && crc(Summed(f)) % WORD == ReadHeader(f).crc
    && Accepts(Load(f))
  }

  /** Verifies a whole file. */
  method VerifyFile(f: string, crc: string -> nat) returns (ok: bool)
    ensures ok <==> FileFine(f, crc)
    ensures ok ==> Valid(GraphOf(Load(f)))
  {
    hide InRange, AllApart, Sections, Accepts, Valid, GraphOf, Summed, ReadHeader;
    if |f| < 64 {
      return false;
    }
    var h := ReadHeader(f);
    var header := CheckHeader(h, |f|);
    if !header || crc(Summed(f)) % WORD != h.crc {
      return false;
    }
    ok := Verify(Load(f));
  }

  // ---------------------------------------------------------------- writing a file

  /** Every number of an image fits the bits it has. */
  ghost predicate ImageFits(im: Image) {
    && |im.roff| == |im.recs| + 1 && RecsFit(im.recs) && Small(im.roff) && Small(im.ridx) && im.roots < WORD
    && 68 + 36 * |im.recs| + 4 * |im.ridx| + |im.blob| < WORD
  }

  /** The sections of an image are in a file, where its header says. */
  ghost predicate Holding(f: string, h: Header, im: Image) {
    && At(f, h.offSvc, Pack(SvcTable(im.recs))) && At(f, h.offRows, Pack(im.roff)) && At(f, h.offEdges, Pack(im.ridx))
    && At(f, h.offPol, Pack(PolTable(im.recs))) && At(f, h.offBlob, im.blob)
  }

  /** The header has the sizes of an image and places for its sections one after the other. */
  predicate LaidOut(h: Header, im: Image) {
    && h.magic == NG_MAGIC && h.version == NG_VERSION && h.reserved == 0 && h.roots == im.roots
    && h.services == |im.recs| && h.edges == |im.ridx| && h.blobLen == |im.blob|
    && h.offSvc == 64 && h.offRows == h.offSvc + 16 * h.services && h.offEdges == h.offRows + 4 * (h.services + 1)
    && h.offPol == h.offEdges + 4 * h.edges && h.offBlob == h.offPol + 16 * h.services
        && h.total == h.offBlob + h.blobLen
  }

  /** Writes an image. The file holds it, and is accepted when the image is. */
  method WriteFile(im: Image, hashLow: nat, hashHigh: nat, crc: string -> nat) returns (f: string)
    requires ImageFits(im) && hashLow < WORD && hashHigh < WORD
    ensures |f| >= 64 && InRange(ReadHeader(f)) && ReadHeader(f).total == |f| && Load(f) == im
    ensures FileFine(f, crc) <==> Accepts(im)
  {
    hide Pack, SvcTable, PolTable, At, RecsFit, Small, Accepts, ReadHeader, HeaderWords, Summed, InRange, Load,
         FileFine;
    hide Holding;
    var n, m := |im.recs|, |im.ridx|;
    var h := Header(NG_MAGIC, NG_VERSION, 0, 64 + 16 * n + 4 * (n + 1) + 4 * m + 16 * n + |im.blob|, n, im.roots, m,
                    |im.blob|, 0, 0, 0, 0, 0, 0, hashLow, hashHigh);
    var off := 64;
    h := h.(offSvc := off);
    off := off + 16 * n;
    h := h.(offRows := off);
    off := off + 4 * (n + 1);
    h := h.(offEdges := off);
    off := off + 4 * m;
    h := h.(offPol := off);
    off := off + 16 * n;
    h := h.(offBlob := off);
    var rest := Pack(SvcTable(im.recs)) + (Pack(im.roff) + (Pack(im.ridx) + (Pack(PolTable(im.recs)) + im.blob)));
    var sum := crc(Pack(HeaderWords(h)) + rest) % WORD;
    f := Pack(HeaderWords(h.(crc := sum))) + rest;
    HeaderFits(h.(crc := sum), im);
    HeaderReads(h.(crc := sum), rest);
    PutTogether(f, h.(crc := sum), im);
    LoadsBack(f, h.(crc := sum), im);
    Judged(f, h, im, crc);
  }

  lemma HeaderFits(h: Header, im: Image)
    requires LaidOut(h, im) && ImageFits(im) && h.crc < WORD && h.hashLow < WORD && h.hashHigh < WORD
    ensures Small(HeaderWords(h))
  {
    hide RecsFit;
  }

  /** The header is read back, and the checksum covers the same bytes. */
  lemma HeaderReads(h: Header, rest: string)
    requires Small(HeaderWords(h))
    ensures var f := Pack(HeaderWords(h)) + rest;
            |f| == 64 + |rest| && ReadHeader(f) == h && Summed(f) == Pack(HeaderWords(h.(crc := 0))) + rest
  {
    hide Pack, Small;
    var head := Pack(HeaderWords(h));
    var f := head + rest;
    AtEnd("", head);
    AtMore(head, rest, 0, head);
    ArrayAt(f, 0, HeaderWords(h));
    assert f[64..] == rest;
  }

  lemma PutTogether(f: string, h: Header, im: Image)
    requires LaidOut(h, im) && |im.roff| == |im.recs| + 1
    requires f == Pack(HeaderWords(h))
                  + (Pack(SvcTable(im.recs)) + (Pack(im.roff) + (Pack(im.ridx) + (Pack(PolTable(im.recs)) + im.blob))))
    ensures |f| == h.total && Holding(f, h, im)
  {
    hide Pack, HeaderWords, SvcTable, PolTable, At;
    var a, b, c, d := Pack(SvcTable(im.recs)), Pack(im.roff), Pack(im.ridx), Pack(PolTable(im.recs));
    var head, e := Pack(HeaderWords(h)), im.blob;
    AtWhole(f);
    AtSplit(f, 0, head, a + (b + (c + (d + e))));
    AtSplit(f, 64, a, b + (c + (d + e)));
    AtSplit(f, h.offRows, b, c + (d + e));
    AtSplit(f, h.offEdges, c, d + e);
    AtSplit(f, h.offPol, d, e);
  }

  lemma AtWhole(f: string)
    ensures At(f, 0, f)
  {
  }

  lemma LoadsBack(f: string, h: Header, im: Image)
    requires LaidOut(h, im) && ImageFits(im) && |f| == h.total && Holding(f, h, im) && ReadHeader(f) == h
    ensures |f| >= 64 && InRange(h) && Load(f) == im
  {
    LaidOutInRange(h, im);
    hide Pack, SvcTable, PolTable, RecsFit, Small, ReadHeader, ReadRecs, Array, At, InRange;
    RecsAt(f, h.offSvc, h.offPol, im.recs);
    ArrayAt(f, h.offRows, im.roff);
    ArrayAt(f, h.offEdges, im.ridx);
    AtIs(f, h.offBlob, im.blob);
  }

  lemma LaidOutInRange(h: Header, im: Image)
    requires LaidOut(h, im)
    ensures h.total >= 64 && InRange(h)
  {
  }

  lemma AtIs(f: string, off: nat, s: string)
    requires At(f, off, s)
    ensures off + |s| <= |f| && f[off..off + |s|] == s
  {
  }

  /** Sections one after the other are apart. */
  lemma LaidOutApart(h: Header, im: Image)
    requires LaidOut(h, im)
    ensures AllApart(Sections(h))
  {
    var v := Sections(h);
    forall i, j | 0 <= i < j < |v| ensures Apart(v[i], v[j]) {
      assert v[i].hi <= v[j].lo;
    }
  }

  lemma Judged(f: string, h: Header, im: Image, crc: string -> nat)
    requires LaidOut(h, im) && |im.roff| == |im.recs| + 1 && |f| == h.total && InRange(ReadHeader(f))
    requires ReadHeader(f) == h.(crc := crc(Summed(f)) % WORD) && Load(f) == im
    ensures FileFine(f, crc) <==> Accepts(im)
  {
    LaidOutApart(ReadHeader(f), im);
    hide ReadHeader, Load, Summed, AllApart, Sections, RecordsFine, CountsFine, NamesDiffer;
  }
}
