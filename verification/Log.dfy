/** The log: lines go to the ring, and the last ones are remembered by their place in it. */
module Logs {
  import opened LogRings
  import opened Repeats
  import opened LogTexts

  const LOG_SEEN: nat := 32
  const LOG_HOLD_MS := 1000
  const REPEAT_MS: seq<nat> := [30000, 120000, 600000]

  /** A printed line, known by where the ring holds its text. */
  datatype Seen = Seen(at: nat, hash: bv32, len: nat, key: Key)

  // ---------------------------------------------------------------- the remembered lines

  /** The entry e stands for the line m, which starts at `start`. */
  ghost predicate Entry(all: string, e: Seen, m: Msg, start: nat) {
    && e.key == m.key && e.len == |m.body| > 0 && e.len < LOG_LINE && m.body[|m.body| - 1] == '\n'
    && start <= e.at <= start + LOG_PREFIX_MAX && Boundary(all, start)
    && e.at + e.len <= |all| && all[e.at..e.at + e.len] == m.body
  }

  /** The last LOG_SEEN lines are remembered. */
  ghost predicate Linked(all: string, seen: seq<Seen>, printed: seq<Msg>, starts: seq<nat>) {
    && |seen| == LOG_SEEN && |printed| == |starts|
    && (forall j :: 0 <= j < |printed| && |printed| - LOG_SEEN <= j ==>
        Entry(all, seen[Slot(j, LOG_SEEN)], printed[j], starts[j]))
    && (forall i, j :: 0 <= i <= j < |starts| ==> starts[i] <= starts[j])
    && (forall i :: 0 <= i < |starts| ==> starts[i] <= |all|)
  }

  ghost predicate Hashed(seen: seq<Seen>, printed: seq<Msg>) {
    && |seen| == LOG_SEEN
    && (forall j :: 0 <= j < |printed| && |printed| - LOG_SEEN <= j ==>
          seen[Slot(j, LOG_SEEN)].hash == BodyHash(printed[j].key, printed[j].body))
  }

  lemma EntryMore(all: string, more: string, e: Seen, m: Msg, start: nat)
    requires Entry(all, e, m, start)
    ensures Entry(all + more, e, m, start)
  {
    assert (all + more)[e.at..e.at + e.len] == all[e.at..e.at + e.len];
  }

  /** Only the slot of the new line changes among the remembered ones. */
  lemma OtherSlot(j: nat, n: nat)
    requires j < n < j + LOG_SEEN
    ensures Slot(j, LOG_SEEN) != Slot(n, LOG_SEEN)
  {
    SlotFrom(j, n, LOG_SEEN);
  }

  lemma LinkedMore(all: string, more: string, seen: seq<Seen>, printed: seq<Msg>, starts: seq<nat>)
    requires Linked(all, seen, printed, starts)
    ensures Linked(all + more, seen, printed, starts)
  {
    hide Slot, Entry;
    forall j | 0 <= j < |printed| && |printed| - LOG_SEEN <= j
      ensures Entry(all + more, seen[Slot(j, LOG_SEEN)], printed[j], starts[j])
    {
      EntryMore(all, more, seen[Slot(j, LOG_SEEN)], printed[j], starts[j]);
    }
  }

  lemma LinkedAdd(all: string, seen: seq<Seen>, printed: seq<Msg>, starts: seq<nat>, line: string, e: Seen, m: Msg)
    requires Linked(all, seen, printed, starts) && Entry(all + line, e, m, |all|)
    ensures Linked(all + line, seen[Slot(|printed|, LOG_SEEN) := e], printed + [m], starts + [|all|])
  {
    hide Slot, Entry;
    var s := seen[Slot(|printed|, LOG_SEEN) := e];
    forall j | 0 <= j < |printed| && |printed| + 1 - LOG_SEEN <= j
      ensures Entry(all + line, s[Slot(j, LOG_SEEN)], printed[j], starts[j])
    {
      OtherSlot(j, |printed|);
      EntryMore(all, line, seen[Slot(j, LOG_SEEN)], printed[j], starts[j]);
    }
  }

  lemma HashedAt(seen: seq<Seen>, printed: seq<Msg>, j: nat)
    requires Hashed(seen, printed) && j < |printed| <= j + LOG_SEEN
    ensures |seen| == LOG_SEEN > 0 && seen[Slot(j, LOG_SEEN)].hash == BodyHash(printed[j].key, printed[j].body)
  {
  }

  lemma HashedAdd(seen: seq<Seen>, printed: seq<Msg>, e: Seen, m: Msg)
    requires Hashed(seen, printed) && e.hash == BodyHash(m.key, m.body)
    ensures Hashed(seen[Slot(|printed|, LOG_SEEN) := e], printed + [m])
  {
    hide Slot, BodyHash;
    var n, t := |printed|, seen[Slot(|printed|, LOG_SEEN) := e];
    forall j | 0 <= j < n + 1 && n + 1 - LOG_SEEN <= j
      ensures t[Slot(j, LOG_SEEN)].hash == BodyHash((printed + [m])[j].key, (printed + [m])[j].body)
    {
      if j < n {
        OtherSlot(j, n);
        HashedAt(seen, printed, j);
      }
    }
  }

  lemma LinkedAt(all: string, seen: seq<Seen>, printed: seq<Msg>, starts: seq<nat>, j: nat)
    requires Linked(all, seen, printed, starts) && j < |printed| <= j + LOG_SEEN
    ensures |seen| == LOG_SEEN && |starts| == |printed| && Entry(all, seen[Slot(j, LOG_SEEN)], printed[j], starts[j])
    ensures starts[j] <= seen[Slot(j, LOG_SEEN)].at <= starts[j] + LOG_PREFIX_MAX && Boundary(all, starts[j])
    ensures seen[Slot(j, LOG_SEEN)].at + seen[Slot(j, LOG_SEEN)].len <= |all|
    ensures 0 < seen[Slot(j, LOG_SEEN)].len < LOG_LINE
    ensures seen[Slot(j, LOG_SEEN)].key == printed[j].key && seen[Slot(j, LOG_SEEN)].len == |printed[j].body|
  {
  }

  /** A new line makes an entry. */
  lemma NewEntry(all: string, head: string, m: Msg, hash: bv32)
    requires Whole(all) && |head| <= LOG_PREFIX_MAX && 0 < |m.body| < LOG_LINE && m.body[|m.body| - 1] == '\n'
    ensures Entry(all + (head + m.body), Seen(|all| + |head|, hash, |m.body|, m.key), m, |all|) && Whole(head + m.body)
  {
    var t := all + (head + m.body);
    assert t[|all| + |head|..|all| + |head| + |m.body|] == m.body;
  }

  function Worse(level: nat, worst: nat): nat {
    if level == LOG_FAIL then LOG_FAIL
    else if level == LOG_WARN && worst != LOG_FAIL then LOG_WARN else worst
  }

  /** A line of the block has this tag. */
  ghost predicate Tagged(block: seq<Msg>, level: nat) {
    exists k :: 0 <= k < |block| && block[k].key.level == level
  }

  lemma TaggedMore(m: Msg, block: seq<Msg>, level: nat)
    ensures Tagged([m] + block, level) <==> m.key.level == level || Tagged(block, level)
  {
    var a := [m] + block;
    assert a[0] == m && forall k :: 0 <= k < |block| ==> a[k + 1] == block[k];
  }

  lemma SilentMore(m: Msg, block: seq<Msg>)
    ensures (forall k :: 0 <= k < |[m] + block| ==> ([m] + block)[k].key.nocon)
       <==> m.key.nocon && forall k :: 0 <= k < |block| ==> block[k].key.nocon
  {
    var a := [m] + block;
    assert a[0] == m && forall k :: 0 <= k < |block| ==> a[k + 1] == block[k];
  }

  /** The key a notice for this block carries. */
  ghost predicate Severest(block: seq<Msg>, key: Key) {
    && (key.nocon <==> forall k :: 0 <= k < |block| ==> block[k].key.nocon)
    && (key.level == LOG_FAIL <==> Tagged(block, LOG_FAIL))
    && (key.level == LOG_WARN <==> Tagged(block, LOG_WARN) && !Tagged(block, LOG_FAIL))
    && (key.level == LOG_FAIL || key.level == LOG_WARN || key.level == LOG_NOTE)
  }

  /** The notice for the open count carries the worst tag of its block and the time of the last repetition. */
  ghost predicate Announces(outs: seq<Out>, r: Rep, ms: nat, o: Out) {
    NoticeOf(r, o) && o.ms == ms && Severest(Last(Printed(outs), r.len), o.key)
  }

  lemma SeverestNone(block: seq<Msg>)
    ensures Severest(block[|block|..], Key(LOG_NOTE, true))
  {
  }

  lemma SeverestMore(block: seq<Msg>, j: nat, key: Key)
    requires j < |block| && Severest(block[j + 1..], key)
    ensures Severest(block[j..], Key(Worse(block[j].key.level, key.level), key.nocon && block[j].key.nocon))
  {
    var a, b := block[j..], block[j + 1..];
    assert a == [block[j]] + b;
    TaggedMore(block[j], b, LOG_FAIL);
    TaggedMore(block[j], b, LOG_WARN);
    SilentMore(block[j], b);
    hide Tagged;
  }

  /** The counter has 32 bits. */
  function Wrapped(count: nat): nat {
    count % COUNT_MOD
  }

  predicate AllFit(block: seq<Msg>) {
    forall k :: 0 <= k < |block| ==> Fits(block[k])
  }

  lemma AllFitAt(block: seq<Msg>, k: nat)
    requires AllFit(block) && k < |block|
    ensures Fits(block[k])
  {
  }

  /** What printing a block changes. */
  datatype Sheet = Sheet(outs: seq<Out>, starts: seq<nat>, head: nat, intact: bool)

  /** From a to b, k lines of the block were printed. */
  ghost predicate Printing(a: Sheet, b: Sheet, block: seq<Msg>, times: seq<nat>, k: nat) {
    && k <= |block| && k <= |times| && |b.starts| == |a.starts| + k && a.starts == b.starts[..|a.starts|]
    && a.head <= b.head <= a.head + k * LOG_LINE
    && (forall j :: |a.starts| <= j < |b.starts| ==> b.starts[j] >= a.head)
    && Printed(a.outs) <= Printed(b.outs)
    && (b.intact ==> a.intact && b.outs == a.outs + Reprint(block, times, k))
  }

  lemma PrintingNone(a: Sheet, block: seq<Msg>, times: seq<nat>)
    ensures Printing(a, a, block, times, 0)
  {
    assert a.outs + Reprint(block, times, 0) == a.outs;
  }

  lemma PrintingIs(a: Sheet, b: Sheet, block: seq<Msg>, times: seq<nat>, k: nat)
    requires Printing(a, b, block, times, k)
    ensures k <= |block| && k <= |times| && |b.starts| == |a.starts| + k && a.starts == b.starts[..|a.starts|]
    ensures a.head <= b.head <= a.head + k * LOG_LINE && Printed(a.outs) <= Printed(b.outs)
    ensures forall j :: |a.starts| <= j < |b.starts| ==> b.starts[j] >= a.head
    ensures b.intact ==> a.intact && b.outs == a.outs + Reprint(block, times, k)
  {
  }

  lemma PrintingStep(a: Sheet, b: Sheet, c: Sheet, block: seq<Msg>, times: seq<nat>, k: nat)
    requires Printing(a, b, block, times, k) && k < |block| && k < |times|
    requires c.starts == b.starts + [b.head] && b.head <= c.head <= b.head + LOG_LINE
    requires Printed(b.outs) <= Printed(c.outs)
    requires c.intact ==> b.intact && c.outs == b.outs + [Shown(block[k], times[k])]
    ensures Printing(a, c, block, times, k + 1)
  {
    hide Printed, Reprint;
    ReprintStep(a.outs, block, times, k);
  }

  /** What the room for the next step depends on. */
  datatype View = View(outs: seq<Out>, rep: Rep, seen: seq<Seen>, seenN: nat, head: nat)

  /** The block that repeats fits with any prefix and is 16 lines from being overwritten, and one more
      repetition can be counted. */
  ghost predicate Roomy(v: View, op: Op) {
    && AllFit(Last(Printed(v.outs), v.rep.len)) && (op.Say? ==> v.rep.count + 1 < COUNT_MOD)
    && (0 < v.rep.len <= v.seenN && |v.seen| == LOG_SEEN ==>
          v.head + 16 * LOG_LINE <= v.seen[Slot(v.seenN - v.rep.len, LOG_SEEN)].at + LOG_RING)
  }

  /** What happens to a log. */
  datatype Op = Say(level: nat, nocon: bool, text: string, ms: nat, now: int) | Pass(now: int)

  class Log {
    const ring: Ring
    const seen: array<Seen>
    var seenN: nat
    var rep: Rep
    var repMs: nat
    var repDue: int
    var holdDue: int
    var backoff: nat

    ghost var input: seq<In>
    ghost var outs: seq<Out>
    /** Where each printed line starts. */
    ghost var starts: seq<nat>
    /** Every line that was printed again was still in the ring and fitted, and no count wrapped. */
    ghost var intact: bool
    /** Before every step so far there was room for what it may have had to print. */
    ghost var roomy: bool

    /** Everything but the account of what came in. */
    ghost predicate Base()
      reads this`seenN, this`rep, this`outs, this`starts, this`intact, this`backoff, ring, ring.buf, seen
    {
      && ring.Valid() && ring.size == LOG_RING && seen.Length == LOG_SEEN && backoff < |REPEAT_MS|
      && seenN == |Printed(outs)| && Linked(ring.all, seen[..], Printed(outs), starts)
      && (intact ==> Hashed(seen[..], Printed(outs))) && ring.all == Rendered(outs)
      && Shape(rep) && rep.len <= seenN && rep.count < COUNT_MOD
    }

    ghost predicate Valid()
      reads this`seenN, this`rep, this`outs, this`starts, this`intact, this`input, this`backoff, ring, ring.buf, seen
    {
      Base() && (intact ==> Lossless(input, outs, rep))
    }

    constructor ()
      ensures Valid() && fresh(ring) && fresh(ring.buf) && fresh(seen) && input == [] && outs == [] && intact && roomy
    {
      ring := new Ring(LOG_RING);
      seen := new Seen[LOG_SEEN](_ => Seen(0, 0, 0, Key(0, false)));
      var none := seq(LOG_REPEAT, _ => 0);
      seenN, rep := 0, Rep(0, 0, 0, none, none);
      repMs, repDue, holdDue, backoff := 0, 0, 0, 0;
      input, outs, starts, intact, roomy := [], [], [], true, true;
      new;
      NothingPending([], rep);
    }

    // ---------------------------------------------------------------- printing

    /** Prints a line and remembers it. */
    method Emit(m: Msg, ms: nat, hash: bv32)
      requires Base() && |Head(m.key.level, ms)| + |m.body| < LOG_LINE && 0 < |m.body| && m.body[|m.body| - 1] == '\n'
      requires intact ==> hash == BodyHash(m.key, m.body)
      modifies this`seenN, this`outs, this`starts, ring, ring.buf, seen
      ensures Base() && seenN == old(seenN) + 1 && outs == old(outs) + [Shown(m, ms)]
      ensures starts == old(starts) + [old(ring.head)] && old(ring.head) <= ring.head <= old(ring.head) + LOG_LINE
      ensures Printed(outs) == Printed(old(outs)) + [m] && ring.all == old(ring.all) + Text(Shown(m, ms))
    {
      hide *;
      BaseParts();
      ShownText(m, ms);
      RenderedMore(outs, Shown(m, ms));
      var head := Head(m.key.level, ms);
      HeadFits(m.key.level, ms);
      var e := Seen(ring.head + |head|, hash, |m.body|, m.key);
      NewEntry(ring.all, head, m, hash);
      ghost var was, printed, all := seen[..], Printed(outs), ring.all;
      LinkedAdd(ring.all, was, printed, starts, head + m.body, e, m);
      if intact {
        HashedAdd(was, printed, e, m);
      }
      SlotBelow(seenN);
      seen[Slot(seenN, LOG_SEEN)] := e;
      assert seen[..] == was[Slot(seenN, LOG_SEEN) := e];
      seenN := seenN + 1;
      ring.Put(head + m.body);
      RingHead();
      ExpandShown(outs, m, ms);
      outs, starts := outs + [Shown(m, ms)], starts + [|all|];
      BaseWhole();
    }

    lemma BaseParts()
      requires Base()
      ensures ring.Valid() && ring.size == LOG_RING && seen.Length == LOG_SEEN
      ensures seenN == |Printed(outs)| && backoff < |REPEAT_MS|
      ensures Linked(ring.all, seen[..], Printed(outs), starts) && (intact ==> Hashed(seen[..], Printed(outs)))
      ensures ring.all == Rendered(outs)
      ensures Shape(rep) && rep.len <= seenN && rep.count < COUNT_MOD
      ensures rep.len <= LOG_REPEAT == |rep.hold| == |rep.first|
      ensures (if rep.len == 0 then rep.pos == 0 && rep.count == 0 else rep.pos < rep.len)
      ensures ring.head == |ring.all| && Whole(ring.all) && |starts| == seenN && LOG_LINE == 1024
      ensures LOG_RING == 131072 && LOG_SEEN == 32 && LOG_PREFIX_MAX == 64 && LOG_REPEAT == 16 && COUNT_MOD > 1
    {
    }

    lemma BaseWhole()
      requires ring.Valid() && ring.size == LOG_RING && seen.Length == LOG_SEEN
      requires seenN == |Printed(outs)| && backoff < |REPEAT_MS|
      requires Linked(ring.all, seen[..], Printed(outs), starts) && (intact ==> Hashed(seen[..], Printed(outs)))
      requires ring.all == Rendered(outs)
      requires Shape(rep) && rep.len <= seenN && rep.count < COUNT_MOD
      ensures Base()
    {
    }

    lemma ShownText(m: Msg, ms: nat)
      ensures Text(Shown(m, ms)) == Head(m.key.level, ms) + m.body
    {
    }

    lemma RingHead()
      requires ring.Valid()
      ensures ring.head == |ring.all|
    {
    }

    lemma HeadFits(level: nat, ms: nat)
      ensures |Head(level, ms)| <= LOG_PREFIX_MAX && LOG_PREFIX_MAX < LOG_LINE < LOG_RING
    {
    }

    lemma SlotBelow(at: nat)
      ensures LOG_SEEN > 0 && Slot(at, LOG_SEEN) < LOG_SEEN
    {
    }

    /** The line `back` lines ago is still in the ring and can be printed again at any time. */
    ghost predicate Sound(back: nat, ms: nat)
      reads this`seenN, this`outs, ring, seen
    {
      && 0 < back <= seenN && seen.Length == LOG_SEEN
      && var e := seen[Slot(seenN - back, LOG_SEEN)];
         ring.tail <= e.at && e.len + |Head(e.key.level, ms)| < LOG_LINE
    }

    /** Prints the line `back` lines ago once more, under its own arrival time. */
    method PrintAgain(back: nat, ms: nat)
      requires Base() && 0 < back <= LOG_REPEAT && back <= seenN
      modifies this`seenN, this`outs, this`starts, this`intact, ring, ring.buf, seen
      ensures Base() && seenN == old(seenN) + 1 && old(ring.head) <= ring.head <= old(ring.head) + LOG_LINE
      ensures starts == old(starts) + [old(ring.head)] && |Printed(old(outs))| == old(seenN)
      ensures intact == (old(intact) && old(Sound(back, ms)))
      ensures intact ==> outs == old(outs) + [Shown(Printed(old(outs))[old(seenN) - back], ms)]
      ensures old(outs) < outs && Printed(old(outs)) <= Printed(outs)
    {
      hide *;
      BaseParts();
      ghost var j := seenN - back;
      LinkedAt(ring.all, seen[..], Printed(outs), starts, j);
      SlotBelow(seenN - back);
      var e := seen[Slot(seenN - back, LOG_SEEN)];
      SoundIs(back, ms);
      var p := |Head(e.key.level, ms)|;
      HeadFits(e.key.level, ms);
      var n := if e.len > LOG_LINE - 1 - p then LOG_LINE - 1 - p else e.len;
      var s := ring.Get(e.at, n);
      var body := s[..n - 1] + "\n";
      var hash := if n != e.len then BodyHash(e.key, body) else e.hash;
      intact := intact && ring.tail <= e.at && n == e.len;
      if intact {
        SameBody(ring.all, e, Printed(outs)[j], starts[j], body);
        HashIs(seen[..], Printed(outs), j);
      }
      BaseWhole();
      Emit(Msg(e.key, body), ms, hash);
    }

    lemma SoundIs(back: nat, ms: nat)
      requires 0 < back <= seenN && seen.Length == LOG_SEEN
      ensures LOG_SEEN > 0 && Slot(seenN - back, LOG_SEEN) < LOG_SEEN
      ensures Sound(back, ms) <==>
                var e := seen[Slot(seenN - back, LOG_SEEN)];
                ring.tail <= e.at && e.len + |Head(e.key.level, ms)| < LOG_LINE
    {
    }

    lemma SameBody(all: string, e: Seen, m: Msg, start: nat, body: string)
      requires Entry(all, e, m, start) && |body| == e.len && body == all[e.at..e.at + e.len][..e.len - 1] + "\n"
      ensures Msg(e.key, body) == m
    {
      assert m.body == m.body[..e.len - 1] + [m.body[e.len - 1]];
    }

    lemma HashIs(seen: seq<Seen>, printed: seq<Msg>, j: nat)
      requires Hashed(seen, printed) && j < |printed| <= j + LOG_SEEN
      ensures |seen| == LOG_SEEN > 0 && seen[Slot(j, LOG_SEEN)].hash == BodyHash(printed[j].key, printed[j].body)
    {
    }

    // ---------------------------------------------------------------- finding repetitions

    /** Whether the line `back` lines ago is m and still in the ring. */
    ghost predicate Matches(back: nat, m: Msg)
      reads this`seenN, this`outs, ring, seen
    {
      && 0 < back <= seenN == |Printed(outs)| && seen.Length == LOG_SEEN
      && var e := seen[Slot(seenN - back, LOG_SEEN)];
         e.hash == BodyHash(m.key, m.body) && ring.tail <= e.at && Printed(outs)[seenN - back] == m
    }

    method SeenIs(back: nat, m: Msg, hash: bv32) returns (same: bool)
      requires Base() && 0 < back <= LOG_SEEN && back <= seenN
      requires hash == BodyHash(m.key, m.body) && 0 < |m.body| < LOG_LINE
      ensures same <==> Matches(back, m)
    {
      hide *;
      BaseParts();
      SlotBelow(seenN - back);
      LinkedAt(ring.all, seen[..], Printed(outs), starts, seenN - back);
      MatchesIs(back, m);
      var e := seen[Slot(seenN - back, LOG_SEEN)];
      same := false;
      if e.key == m.key && e.hash == hash && e.len == |m.body| && ring.tail <= e.at {
        same := ring.Equal(e.at, m.body);
        EntryText(ring.all, e, Printed(outs)[seenN - back], starts[seenN - back], m);
      }
    }

    lemma MatchesIs(back: nat, m: Msg)
      requires 0 < back <= seenN == |Printed(outs)| && seen.Length == LOG_SEEN
      ensures LOG_SEEN > 0 && Slot(seenN - back, LOG_SEEN) < LOG_SEEN
      ensures Matches(back, m) <==>
                var e := seen[Slot(seenN - back, LOG_SEEN)];
                e.hash == BodyHash(m.key, m.body) && ring.tail <= e.at && Printed(outs)[seenN - back] == m
    {
    }

    lemma EntryText(all: string, e: Seen, m: Msg, start: nat, n: Msg)
      requires Entry(all, e, m, start) && e.key == n.key && e.len == |n.body|
      ensures all[e.at..e.at + |n.body|] == n.body <==> m == n
    {
    }

    /** The line k lines ago looks like the one `len` lines before it. */
    predicate Pair(k: nat, len: nat)
      reads this`seenN, seen
    {
      && 0 < k && k + len <= seenN && seen.Length == LOG_SEEN
      && var a, b := seen[Slot(seenN - k, LOG_SEEN)], seen[Slot(seenN - (k + len), LOG_SEEN)];
         a.key == b.key && a.hash == b.hash && a.len == b.len
    }

    /** The last `len` lines look like the `len` lines before them. */
    ghost predicate Twice(len: nat)
      reads this`seenN, seen
    {
      2 * len <= seenN && forall k: nat :: 0 < k <= len ==> Pair(k, len)
    }

    method SeenTwice(len: nat) returns (twice: bool)
      requires Base() && 2 * len <= seenN && 2 * len <= LOG_SEEN
      ensures twice <==> Twice(len)
    {
      hide Pair, Base;
      var k := 1;
      while k <= len
        invariant 1 <= k <= len + 1
        invariant forall l: nat :: 0 < l < k ==> Pair(l, len)
      {
        if !Pair(k, len) {
          return false;
        }
        k := k + 1;
      }
      twice := true;
    }

    /** m would continue a repetition of the last `len` lines: of the very last line, or of a longer block
        that was printed twice. */
    ghost predicate Candidate(len: nat, m: Msg)
      reads this`seenN, this`outs, ring, seen
    {
      && 1 <= len <= LOG_REPEAT && Matches(len, m)
      && (len == 1 || Twice(len))
    }

    /** The shortest block that m would repeat. */
    method RepFind(m: Msg, hash: bv32) returns (len: nat)
      requires Base() && hash == BodyHash(m.key, m.body) && 0 < |m.body| < LOG_LINE
      ensures len == 0 ==> forall l: nat :: !Candidate(l, m)
      ensures len > 0 ==> Candidate(len, m) && forall l: nat :: l < len ==> !Candidate(l, m)
    {
      hide *;
      BaseParts();
      CandidateIs(m);
      if seenN != 0 {
        var last := SeenIs(1, m, hash);
        if last {
          return 1;
        }
      }
      len := 2;
      while len <= LOG_REPEAT && 2 * len <= seenN
        invariant 2 <= len <= LOG_REPEAT + 1
        invariant forall l: nat :: l < len ==> !Candidate(l, m)
      {
        var same := SeenIs(len, m, hash);
        if same {
          var twice := SeenTwice(len);
          if twice {
            return;
          }
        }
        len := len + 1;
      }
      len := 0;
    }

    lemma CandidateIs(m: Msg)
      requires seenN == |Printed(outs)|
      ensures forall l: nat :: Candidate(l, m) <==> 1 <= l <= LOG_REPEAT && Matches(l, m) && (l == 1 || Twice(l))
      ensures forall l: nat :: Candidate(l, m) ==> l <= seenN && (l > 1 ==> 2 * l <= seenN)
    {
    }

    // ---------------------------------------------------------------- counting and printing repetitions

    /** After `lines` more lines the block that repeats is still in the ring. */
    ghost predicate KeptFor(lines: nat)
      reads this`seenN, this`starts, this`rep, ring
    {
      0 < rep.len <= seenN == |starts| ==> ring.head + lines * LOG_LINE <= starts[seenN - rep.len] + LOG_RING
    }

    /** The lines of the block fit with any prefix. */
    ghost predicate BlockFits()
      reads this`outs, this`rep
    {
      AllFit(Last(Printed(outs), rep.len))
    }

    /** A line whose start is in the ring, and that fits, can be printed again. */
    lemma SoundWhen(back: nat, ms: nat)
      requires Base() && 0 < back <= LOG_REPEAT && back <= seenN == |starts| == |Printed(outs)|
      requires ring.head <= starts[seenN - back] + LOG_RING && Fits(Printed(outs)[seenN - back])
      ensures Sound(back, ms)
    {
      hide *;
      BaseParts();
      LinkedAt(ring.all, seen[..], Printed(outs), starts, seenN - back);
      SoundIs(back, ms);
      SlotBelow(seenN - back);
      HeadFits(seen[Slot(seenN - back, LOG_SEEN)].key.level, ms);
      StartKept(starts[seenN - back]);
      FitsIs(Printed(outs)[seenN - back]);
    }

    lemma FitsIs(m: Msg)
      ensures Fits(m) <==> |m.body| + LOG_PREFIX_MAX < LOG_LINE
    {
    }

    lemma StartKept(x: nat)
      requires ring.Valid() && Boundary(ring.all, x) && ring.head <= x + ring.size
      ensures ring.tail <= x
    {
    }

    lemma BlockAt(printed: seq<Msg>, len: nat, k: nat)
      requires k < len <= |printed|
      ensures |Last(printed, len)| == len && Last(printed, len)[k] == printed[|printed| - len + k]
    {
    }

    /** In the middle of printing the block again, its next line is the one `len` lines ago. */
    lemma NextOfBlock(outs: seq<Out>, len: nat, times: seq<nat>, k: nat)
      requires k < len <= |Printed(outs)| && len <= |times|
      ensures |Last(Printed(outs), len)| == len
      ensures var o := outs + Reprint(Last(Printed(outs), len), times, k);
              |Printed(o)| == |Printed(outs)| + k && Printed(o)[|Printed(o)| - len] == Last(Printed(outs), len)[k]
    {
      var block := Last(Printed(outs), len);
      Reprinted(outs, block, times, k);
      var o := outs + Reprint(block, times, k);
      hide Printed, Reprint;
      assert Last(Printed(o), len)[0] == block[k];
    }

    /** Prints the first n lines of the block again. */
    method PrintBlock(times: seq<nat>, n: nat)
      requires Base() && n <= rep.len <= |times|
      modifies this`seenN, this`outs, this`starts, this`intact, ring, ring.buf, seen
      ensures Base() && |Last(Printed(old(outs)), rep.len)| == rep.len
      ensures seenN == old(seenN) + n && |starts| == seenN && |old(starts)| == old(seenN)
      ensures old(ring.head) <= ring.head <= old(ring.head) + n * LOG_LINE
      ensures forall j :: |old(starts)| <= j < |starts| ==> starts[j] >= old(ring.head)
      ensures intact ==> old(intact) && outs == old(outs) + Reprint(Last(Printed(old(outs)), rep.len), times, n)
      ensures old(intact) && old(BlockFits()) && (n > 0 ==> old(KeptFor(n - 1))) ==> intact
    {
      hide *;
      BaseParts();
      ghost var before := Sheet(outs, starts, ring.head, intact);
      ghost var block := Last(Printed(outs), rep.len);
      LastSize(Printed(outs), rep.len);
      PrintingNone(before, block, times);
      SafeIs(if n > 0 then n - 1 else 0);
      ghost var safe := intact && BlockFits() && (n > 0 ==> KeptFor(n - 1));
      var k := 0;
      while k < n
        invariant 0 <= k <= n && Base()
        invariant Printing(before, Sheet(outs, starts, ring.head, intact), block, times, k)
        invariant safe ==> intact
      {
        PrintNext(before, times, k, n, safe);
        k := k + 1;
      }
      PrintingIs(before, Sheet(outs, starts, ring.head, intact), block, times, n);
      BaseParts();
    }

    /** Prints line k of the block again. */
    method PrintNext(ghost before: Sheet, times: seq<nat>, k: nat, ghost n: nat, ghost safe: bool)
      requires Base() && k < n <= rep.len <= |times| && rep.len <= |Printed(before.outs)| == |before.starts|
      requires Printing(before, Sheet(outs, starts, ring.head, intact), Last(Printed(before.outs), rep.len), times, k)
      requires safe ==> intact && AllFit(Last(Printed(before.outs), rep.len))
      requires safe ==> before.head + (n - 1) * LOG_LINE <= before.starts[|before.starts| - rep.len] + LOG_RING
      modifies this`seenN, this`outs, this`starts, this`intact, ring, ring.buf, seen
      ensures Base() && (safe ==> intact)
      ensures Printing(before, Sheet(outs, starts, ring.head, intact), Last(Printed(before.outs), rep.len), times,
                       k + 1)
    {
      hide *;
      BaseParts();
      ghost var now := Sheet(outs, starts, ring.head, intact);
      ghost var block := Last(Printed(before.outs), rep.len);
      PrintingIs(before, now, block, times, k);
      NextOfBlock(before.outs, rep.len, times, k);
      if safe {
        StillSound(before.outs, before.starts, before.head, n, k, times[k]);
      }
      PrintAgain(rep.len, times[k]);
      PrintingStep(before, now, Sheet(outs, starts, ring.head, intact), block, times, k);
    }

    lemma SafeIs(lines: nat)
      ensures BlockFits() <==> AllFit(Last(Printed(outs), rep.len))
      ensures KeptFor(lines) <==>
                (0 < rep.len <= seenN == |starts| ==>
                 ring.head + lines * LOG_LINE <= starts[seenN - rep.len] + LOG_RING)
    {
    }

    lemma StillSound(was: seq<Out>, s0: seq<nat>, head: nat, n: nat, k: nat, ms: nat)
      requires Base() && k < n <= rep.len <= |Printed(was)| == |s0|
      requires |starts| == seenN == |s0| + k && s0 == starts[..|s0|]
      requires Printed(was) <= Printed(outs) && ring.head <= head + k * LOG_LINE
      requires AllFit(Last(Printed(was), rep.len))
      requires head + (n - 1) * LOG_LINE <= s0[|s0| - rep.len] + LOG_RING
      ensures Sound(rep.len, ms)
    {
      hide *;
      BaseParts();
      var j := seenN - rep.len;
      BlockAt(Printed(was), rep.len, k);
      AllFitAt(Last(Printed(was), rep.len), k);
      LinkedSorted(ring.all, seen[..], Printed(outs), starts, |s0| - rep.len, j);
      assert starts[j] == s0[j] && Printed(outs)[j] == Printed(was)[j];
      SoundWhen(rep.len, ms);
    }

    lemma LinkedSorted(all: string, seen: seq<Seen>, printed: seq<Msg>, starts: seq<nat>, i: nat, j: nat)
      requires Linked(all, seen, printed, starts) && i <= j < |starts|
      ensures starts[i] <= starts[j]
    {
    }

    /** The tag of a notice: the most severe one in the block; it stays off the console if all of it did. */
    method RepKey() returns (key: Key)
      requires Base() && 0 < rep.len
      ensures |Last(Printed(outs), rep.len)| == rep.len
      ensures Severest(Last(Printed(outs), rep.len), key)
    {
      hide *;
      BaseParts();
      ghost var block := Last(Printed(outs), rep.len);
      LastSize(Printed(outs), rep.len);
      key := Key(LOG_NOTE, true);
      SeverestNone(block);
      var k := 1;
      while k <= rep.len
        invariant 1 <= k <= rep.len + 1 && |block| == rep.len
        invariant Severest(block[rep.len + 1 - k..], key)
      {
        SlotBelow(seenN - k);
        LinkedAt(ring.all, seen[..], Printed(outs), starts, seenN - k);
        BlockAt(Printed(outs), rep.len, rep.len - k);
        var e := seen[Slot(seenN - k, LOG_SEEN)];
        SeverestMore(block, rep.len - k, key);
        key := Key(Worse(e.key.level, key.level), key.nocon && e.key.nocon);
        k := k + 1;
      }
      assert block[0..] == block;
    }

    /** Prints the count of the repetitions. */
    method PrintNotice()
      requires Valid() && 0 < rep.len && rep.count > 1
      modifies this`rep, this`outs, ring, ring.buf
      ensures Valid() && rep == old(rep).(count := 0) && |outs| == |old(outs)| + 1 && outs[..|old(outs)|] == old(outs)
      ensures Announces(old(outs), old(rep), repMs, outs[|old(outs)|])
      ensures ring.all == old(ring.all) + Text(outs[|old(outs)|])
      ensures Printed(outs) == Printed(old(outs)) && old(ring.head) <= ring.head <= old(ring.head) + LOG_LINE
    {
      hide *;
      ValidParts();
      BaseParts();
      var key := RepKey();
      var text := Prefix(key.level, repMs) + Notice(rep.len, rep.count);
      NoticeText(key.level, repMs, rep.len, rep.count);
      LinkedMore(ring.all, text, seen[..], Printed(outs), starts);
      ghost var notice := Again(rep.len, rep.count, key, repMs);
      NoticeIs(outs, rep, key, repMs);
      ExpandAgain(outs, notice);
      RenderedMore(outs, notice);
      if intact {
        NoticeKeeps(input, outs, rep, notice);
      }
      outs := outs + [notice];
      rep := rep.(count := 0);
      ShapeIs(rep);
      ring.Put(text);
      RingHead();
      BaseWhole();
      ValidWhole();
    }

    lemma NoticeIs(outs: seq<Out>, r: Rep, key: Key, ms: nat)
      requires Severest(Last(Printed(outs), r.len), key)
      ensures NoticeOf(r, Again(r.len, r.count, key, ms)) && Announces(outs, r, ms, Again(r.len, r.count, key, ms))
      ensures Text(Again(r.len, r.count, key, ms)) == Prefix(key.level, ms) + Notice(r.len, r.count)
    {
    }

    lemma NoticeText(level: nat, ms: nat, len: nat, count: nat)
      requires len <= LOG_REPEAT && count < COUNT_MOD
      ensures |Prefix(level, ms) + Notice(len, count)| <= LOG_LINE < LOG_RING
      ensures Whole(Prefix(level, ms) + Notice(len, count))
    {
      NoticeFits(len, count);
    }

    lemma ShapeIs(r: Rep)
      ensures Shape(r) <==>
                r.len <= LOG_REPEAT == |r.hold| == |r.first|
                    && (if r.len == 0 then r.pos == 0 && r.count == 0 else r.pos < r.len)
    {
    }

    lemma ValidParts()
      requires Valid()
      ensures Base() && (intact ==> Lossless(input, outs, rep))
    {
    }

    lemma ValidWhole()
      requires Base() && (intact ==> Lossless(input, outs, rep))
      ensures Valid()
    {
    }

    /** Brings the count of repetitions into the output. A single one is printed as it came in. */
    method Flush()
      requires Valid()
      modifies this`rep, this`seenN, this`outs, this`starts, this`intact, ring, ring.buf, seen
      ensures Valid() && rep == old(rep).(count := 0) && |Printed(old(outs))| == old(seenN)
      ensures intact ==> old(intact) && Last(Printed(outs), rep.len) == Last(Printed(old(outs)), rep.len)
      ensures old(intact) && old(BlockFits()) && old(KeptFor(15)) ==> intact && BlockFits() && KeptFor(14)
      ensures old(rep).count == 0 ==> outs == old(outs)
      ensures old(rep).count > 1 ==>
                |outs| == |old(outs)| + 1 && outs[..|old(outs)|] == old(outs)
                && Announces(old(outs), old(rep), repMs, outs[|old(outs)|])
      ensures intact && old(rep).count == 1 ==>
                |Last(Printed(old(outs)), rep.len)| == rep.len <= |rep.first|
                && outs == old(outs) + Reprint(Last(Printed(old(outs)), rep.len), rep.first, rep.len)
    {
      hide *;
      ValidParts();
      BaseParts();
      SafeIs(15);
      if rep.count == 1 {
        FlushOne();
      } else if rep.count == 0 {
        SafeIs(14);
        SameRep(rep);
      } else {
        PrintNotice();
        ValidParts();
        BaseParts();
        SafeIs(14);
      }
    }

    lemma SameRep(r: Rep)
      ensures r.count == 0 ==> r.(count := 0) == r
    {
    }

    method FlushOne()
      requires Valid() && rep.count == 1
      modifies this`rep, this`seenN, this`outs, this`starts, this`intact, ring, ring.buf, seen
      ensures Valid() && rep == old(rep).(count := 0) && |Printed(old(outs))| == old(seenN)
      ensures intact ==> old(intact) && Last(Printed(outs), rep.len) == Last(Printed(old(outs)), rep.len)
      ensures old(intact) && old(BlockFits()) && old(KeptFor(15)) ==> intact && BlockFits() && KeptFor(14)
      ensures |Last(Printed(old(outs)), rep.len)| == rep.len <= |rep.first|
      ensures intact ==> outs == old(outs) + Reprint(Last(Printed(old(outs)), rep.len), rep.first, rep.len)
    {
      hide *;
      ValidParts();
      BaseParts();
      ghost var safe := intact && BlockFits() && KeptFor(15);
      SafeIs(15);
      SafeIs(rep.len - 1);
      rep := rep.(count := 0);
      ShapeIs(rep);
      BaseWhole();
      SafeIs(15);
      SafeIs(rep.len - 1);
      PrintBlock(rep.first, rep.len);
      BaseParts();
      if intact {
        SingleKeeps(input, old(outs), old(rep));
      }
      ValidWhole();
      SafeIs(14);
    }

    /** The repetition is over: the count and the held lines go into the output. */
    method Break()
      requires Valid()
      modifies this`rep, this`seenN, this`outs, this`starts, this`intact, this`backoff, ring, ring.buf, seen
      ensures Valid() && rep.len == 0 && rep.count == 0 && (intact ==> old(intact))
      ensures old(intact) && old(BlockFits()) && old(KeptFor(15)) ==> intact
      ensures intact ==> Broken(old(outs), old(rep), outs)
    {
      hide *;
      ValidParts();
      BaseParts();
      LastSize(Printed(outs), rep.len);
      Flush();
      ghost var o := outs;
      BreakHeld();
      if intact {
        BrokenIs(old(outs), old(rep), repMs, o, outs);
      }
    }

    /** Prints the held lines. */
    method BreakHeld()
      requires Valid() && rep.count == 0
      modifies this`rep, this`seenN, this`outs, this`starts, this`intact, this`backoff, ring, ring.buf, seen
      ensures Valid() && rep.len == 0 && rep.count == 0 && (intact ==> old(intact))
      ensures old(intact) && old(BlockFits()) && old(KeptFor(14)) ==> intact
      ensures old(rep).pos <= old(rep).len == |Last(Printed(old(outs)), old(rep).len)|
      ensures old(rep).len <= |old(rep).hold|
      ensures intact ==>
                outs == old(outs) + Reprint(Last(Printed(old(outs)), old(rep).len), old(rep).hold, old(rep).pos)
    {
      hide *;
      ValidParts();
      BaseParts();
      SafeIs(14);
      SafeIs(if rep.pos > 0 then rep.pos - 1 else 0);
      PrintBlock(rep.hold, rep.pos);
      BaseParts();
      if intact {
        BreakKeeps(input, old(outs), rep);
      }
      rep := rep.(len := 0, pos := 0);
      backoff := 0;
      BaseAgain();
      ValidWhole();
    }

    lemma BrokenIs(a: seq<Out>, r: Rep, ms: nat, mid: seq<Out>, b: seq<Out>)
      requires r.pos <= r.len <= |Printed(a)| && r.len <= |r.hold| && r.len <= |r.first|
      requires r.count == 0 ==> mid == a
      requires r.count > 1 ==> |mid| == |a| + 1 && mid[..|a|] == a && Announces(a, r, ms, mid[|a|])
      requires |Last(Printed(a), r.len)| == r.len == |Last(Printed(mid), r.len)|
      requires r.count == 1 ==> mid == a + Reprint(Last(Printed(a), r.len), r.first, r.len)
      requires Last(Printed(mid), r.len) == Last(Printed(a), r.len)
      requires b == mid + Reprint(Last(Printed(mid), r.len), r.hold, r.pos)
      ensures Broken(a, r, b)
    {
      assert Flushed(a, r, mid);
    }

    lemma BaseAgain()
      requires ring.Valid() && ring.size == LOG_RING && seen.Length == LOG_SEEN && seenN == |Printed(outs)|
      requires Linked(ring.all, seen[..], Printed(outs), starts) && (intact ==> Hashed(seen[..], Printed(outs)))
      requires ring.all == Rendered(outs)
      requires backoff == 0 && rep.len == 0 && rep.pos == 0 && rep.count == 0 && |rep.hold| == |rep.first| == LOG_REPEAT
      ensures Base()
    {
    }

    // ---------------------------------------------------------------- the interface

    /** Time passes: lines held for too long are printed, and a count that is due is. */
    method Tick(now: int)
      requires Valid()
      modifies this`rep, this`seenN, this`outs, this`starts, this`intact, this`backoff, ring, ring.buf, seen
      ensures Valid() && (intact ==> old(intact))
      ensures old(intact) && old(BlockFits()) && old(KeptFor(15)) ==> intact
      ensures old(rep).pos > 0 && now >= holdDue ==> rep.len == 0
      ensures old(rep).count > 0 && now >= repDue ==> rep.count == 0
      ensures (old(rep).pos == 0 || now < holdDue) && (old(rep).count == 0 || now < repDue) ==>
                rep == old(rep) && outs == old(outs)
    {
      hide *;
      ValidParts();
      BaseParts();
      if rep.pos > 0 && now >= holdDue {
        Break();
      } else if rep.count > 0 && now >= repDue {
        Flush();
        ValidParts();
        BaseParts();
        if backoff + 1 < |REPEAT_MS| {
          backoff := backoff + 1;
        }
        BaseWhole();
        ValidWhole();
      }
    }

    /** How many lines ago the next line of an open repetition was printed. */
    function Ahead(r: Rep): nat {
      if r.pos <= r.len then r.len - r.pos else 0
    }

    /** The line that is logged for a text. An unknown level is logged without a tag. */
    function LineOf(level: nat, nocon: bool, text: string, ms: nat): (m: Msg)
      ensures 0 < |m.body| && |Head(m.key.level, ms)| + |m.body| < LOG_LINE && m.body[|m.body| - 1] == '\n'
    {
      var l := if level >= LOG_N then LOG_INFO else level;
      Msg(Key(l, nocon), Body(text, |Head(l, ms)|))
    }

    /** Logs a line: it continues the repetition, begins one, or is printed. */
    method Write(level: nat, nocon: bool, text: string, ms: nat, now: int)
      requires Valid()
      modifies this, ring, ring.buf, seen
      ensures Valid() && input == old(input) + [In(LineOf(level, nocon, text, ms), ms)] && (intact ==> old(intact))
      ensures old(intact) && old(BlockFits()) && old(KeptFor(15)) && old(rep).count + 1 < COUNT_MOD ==> intact
      ensures old(rep).len == 0 && (exists l: nat :: old(Candidate(l, LineOf(level, nocon, text, ms)))) ==>
                outs == old(outs)
      ensures old(rep).len == 0 && !(exists l: nat :: old(Candidate(l, LineOf(level, nocon, text, ms)))) ==>
                outs == old(outs) + [Shown(LineOf(level, nocon, text, ms), ms)]
      ensures old(rep).len > 0 && old(Matches(Ahead(rep), LineOf(level, nocon, text, ms))) ==>
                outs == old(outs) && rep.len == old(rep).len
                    && rep.pos == (if old(rep).pos + 1 < rep.len then old(rep).pos + 1 else 0)
      ensures old(rep).len > 0 && !old(Matches(Ahead(rep), LineOf(level, nocon, text, ms))) && intact ==>
                exists mid :: Broken(old(outs), old(rep), mid)
                              && outs == if rep.len > 0 then mid else mid + [Shown(LineOf(level, nocon, text, ms), ms)]
    {
      hide *;
      ValidParts();
      BaseParts();
      var m := LineOf(level, nocon, text, ms);
      LineFacts(level, nocon, text, ms);
      var hash := BodyHash(m.key, m.body);
      if rep.len > 0 {
        ShapeIs(rep);
        AheadIs(rep);
        var same := SeenIs(rep.len - rep.pos, m, hash);
        if same {
          MatchesIs(rep.len - rep.pos, m);
          BlockAt(Printed(outs), rep.len, rep.pos);
          Hold(m, ms, now);
          return;
        }
        Break();
        ValidParts();
        BaseParts();
      }
      Fresh(m, ms, hash, now);
    }

    /** Logs a line while nothing repeats: it begins a repetition, or is printed. */
    method Fresh(m: Msg, ms: nat, hash: bv32, now: int)
      requires Valid() && rep.len == 0 && rep.count == 0
      requires |Head(m.key.level, ms)| + |m.body| < LOG_LINE && 0 < |m.body| < LOG_LINE && m.body[|m.body| - 1] == '\n'
      requires hash == BodyHash(m.key, m.body)
      modifies this, ring, ring.buf, seen
      ensures Valid() && input == old(input) + [In(m, ms)] && intact == old(intact)
      ensures if exists l: nat :: old(Candidate(l, m)) then outs == old(outs) else outs == old(outs) + [Shown(m, ms)]
      ensures rep.len > 0 <==> exists l: nat :: old(Candidate(l, m))
    {
      hide *;
      ValidParts();
      BaseParts();
      var len := RepFind(m, hash);
      assert forall l: nat :: Candidate(l, m) == old(Candidate(l, m));
      if len == 0 {
        Plainly(m, ms, hash);
        return;
      }
      CandidateIs(m);
      MatchesIs(len, m);
      BlockAt(Printed(outs), len, 0);
      if intact {
        BeginKeeps(input, outs, rep, len);
      }
      rep := rep.(len := len);
      ShapeIs(rep);
      BaseWhole();
      ValidWhole();
      Hold(m, ms, now);
    }

    lemma AheadIs(r: Rep)
      ensures r.pos <= r.len ==> Ahead(r) == r.len - r.pos
    {
    }

    lemma LineFacts(level: nat, nocon: bool, text: string, ms: nat)
      ensures var m := LineOf(level, nocon, text, ms);
              0 < |m.body| < LOG_LINE && |Head(m.key.level, ms)| + |m.body| < LOG_LINE && m.body[|m.body| - 1] == '\n'
    {
    }

    /** Prints a line that repeats nothing. */
    method Plainly(m: Msg, ms: nat, hash: bv32)
      requires Valid() && rep.len == 0 && |Head(m.key.level, ms)| + |m.body| < LOG_LINE
      requires 0 < |m.body| && m.body[|m.body| - 1] == '\n'
      requires hash == BodyHash(m.key, m.body)
      modifies this`seenN, this`outs, this`starts, this`input, ring, ring.buf, seen
      ensures Valid() && input == old(input) + [In(m, ms)] && outs == old(outs) + [Shown(m, ms)]
    {
      hide *;
      ValidParts();
      BaseParts();
      if intact {
        EmitKeeps(input, outs, rep, m, ms);
      }
      input := input + [In(m, ms)];
      BaseWhole();
      Emit(m, ms, hash);
      ValidWhole();
    }

    /** Holds the next line of the block, and counts the repetition if it is the last one. */
    method Hold(m: Msg, ms: nat, now: int)
      requires Valid() && 0 < rep.len <= |Printed(outs)|
      requires |Last(Printed(outs), rep.len)| == rep.len && rep.pos < rep.len
      requires m == Last(Printed(outs), rep.len)[rep.pos]
      modifies this`rep, this`input, this`intact, this`repMs, this`repDue, this`holdDue
      ensures Valid() && input == old(input) + [In(m, ms)] && (intact ==> old(intact))
      ensures old(intact) && old(rep).count + 1 < COUNT_MOD ==> intact
      ensures rep.len == old(rep).len
      ensures if old(rep).pos + 1 < rep.len then rep.pos == old(rep).pos + 1 && rep.count == old(rep).count
              else rep.pos == 0 && (intact ==> rep.count == old(rep).count + 1)
    {
      hide *;
      ValidParts();
      BaseParts();
      if rep.pos == 0 && rep.len > 1 {
        holdDue := now + LOG_HOLD_MS;
      }
      var r := rep.(pos := rep.pos + 1, hold := rep.hold[rep.pos := ms]);
      if intact {
        HoldKeeps(input, outs, rep, m, ms);
      }
      input := input + [In(m, ms)];
      if r.pos < r.len {
        rep := r;
        ShapeIs(rep);
        BaseWhole();
        ValidWhole();
        return;
      }
      Complete(r, ms, now);
    }

    /** One more repetition has come in. */
    method Complete(r: Rep, ms: nat, now: int)
      requires Base() && r.len == r.pos > 0 && (intact ==> Lossless(input, outs, r)) && r.count < COUNT_MOD
      requires r.len <= seenN && r.len <= LOG_REPEAT == |r.hold| == |r.first|
      modifies this`rep, this`intact, this`repMs, this`repDue
      ensures Valid() && rep.len == r.len && rep.pos == 0 && (intact ==> old(intact) && rep.count == r.count + 1)
      ensures intact == (old(intact) && r.count + 1 < COUNT_MOD)
    {
      hide *;
      BaseParts();
      if intact {
        CompleteKeeps(input, outs, r);
      }
      CompletedIs(r);
      repMs := ms;
      if r.count == 0 {
        repDue := now + REPEAT_MS[backoff];
      }
      rep := r.(pos := 0, count := Wrapped(r.count + 1), first := if r.count == 0 then r.hold else r.first);
      intact := intact && r.count + 1 < COUNT_MOD;
      ShapeIs(rep);
      BaseWhole();
      ValidWhole();
    }

    lemma CompletedIs(r: Rep)
      ensures Completed(r) == r.(pos := 0, count := r.count + 1, first := if r.count == 0 then r.hold else r.first)
      ensures Wrapped(r.count + 1) < COUNT_MOD && (r.count + 1 < COUNT_MOD ==> Wrapped(r.count + 1) == r.count + 1)
    {
    }

    /** The block that repeats is at least 16 lines from being overwritten. */
    ghost predicate Margin()
      reads this`rep, this`seenN, ring, seen
    {
      0 < rep.len <= seenN && seen.Length == LOG_SEEN ==>
        ring.head + 16 * LOG_LINE <= seen[Slot(seenN - rep.len, LOG_SEEN)].at + LOG_RING
    }

    lemma MarginKeeps()
      requires Base() && Margin()
      ensures KeptFor(15)
    {
      BaseParts();
      if rep.len > 0 {
        LinkedAt(ring.all, seen[..], Printed(outs), starts, seenN - rep.len);
      }
      hide *;
      SafeIs(15);
      MarginIs();
    }

    lemma MarginIs()
      ensures LOG_SEEN > 0
      ensures Margin() ==> (0 < rep.len <= seenN && seen.Length == LOG_SEEN ==>
                ring.head + 16 * LOG_LINE <= seen[Slot(seenN - rep.len, LOG_SEEN)].at + LOG_RING)
    {
    }

    // ---------------------------------------------------------------- whole runs

    ghost function Look(): View
      reads this`outs, this`rep, this`seenN, ring, seen
    {
      View(outs, rep, seen[..], seenN, ring.head)
    }

    lemma RoomyIs(op: Op)
      ensures Roomy(Look(), op) ==> BlockFits() && Margin() && (op.Say? ==> rep.count + 1 < COUNT_MOD)
    {
    }

    /** The lines that come in. */
    function Lines(ops: seq<Op>): seq<In> {
      if ops == [] then []
      else
        var op := ops[|ops| - 1];
        Lines(ops[..|ops| - 1]) + if op.Say? then [In(LineOf(op.level, op.nocon, op.text, op.ms), op.ms)] else []
    }

    lemma LinesMore(ops: seq<Op>, k: nat)
      requires k < |ops|
      ensures var op := ops[k];
              Lines(ops[..k + 1]) == Lines(ops[..k]) + if op.Say? then
                  [In(LineOf(op.level, op.nocon, op.text, op.ms), op.ms)] else []
    {
      assert ops[..k + 1][..k] == ops[..k];
    }

    method Do(op: Op)
      requires Valid() && (roomy ==> intact)
      modifies this, ring, ring.buf, seen
      ensures Valid() && (roomy ==> intact) && roomy == (old(roomy) && Roomy(old(Look()), op))
      ensures input == old(input) + if op.Say? then [In(LineOf(op.level, op.nocon, op.text, op.ms), op.ms)] else []
    {
      hide *;
      ValidParts();
      RoomyIs(op);
      if Margin() {
        MarginKeeps();
      }
      ghost var room := roomy && Roomy(Look(), op);
      match op {
        case Say(level, nocon, text, ms, now) => Write(level, nocon, text, ms, now);
        case Pass(now) => Tick(now);
      }
      ValidParts();
      roomy := room;
      ValidWhole();
    }

    /** Whatever is logged and however time passes: `views` is the log before each step and at the end, and if there
        was room before every step, the output, the open count and the held lines tell exactly what came in. The
        bytes in the ring are those of the output. */
    method Run(ops: seq<Op>) returns (ghost views: seq<View>)
      requires Valid() && (roomy ==> intact)
      modifies this, ring, ring.buf, seen
      ensures Valid() && input == old(input) + Lines(ops) && ring.all == Rendered(outs)
      ensures |views| == |ops| + 1 && views[0] == old(Look()) && views[|ops|] == Look()
      ensures roomy <==> old(roomy) && forall k :: 0 <= k < |ops| ==> Roomy(views[k], ops[k])
      ensures roomy ==> Lossless(input, outs, rep)
    {
      hide *;
      var k := 0;
      LinesNone();
      views := [Look()];
      while k < |ops|
        invariant 0 <= k <= |ops| && Valid() && (roomy ==> intact) && input == old(input) + Lines(ops[..k])
        invariant |views| == k + 1 && views[0] == old(Look()) && views[k] == Look()
        invariant roomy <==> old(roomy) && forall l :: 0 <= l < k ==> Roomy(views[l], ops[l])
      {
        LinesMore(ops, k);
        Do(ops[k]);
        views := views + [Look()];
        k := k + 1;
      }
      assert ops[..k] == ops;
      ValidParts();
      BaseParts();
    }

    lemma LinesNone()
      ensures Lines([]) == []
    {
    }
  }
}
