/** The log is a byte ring of whole lines. It holds the end of everything that was ever logged, cut at
    a line boundary. */
module LogRings {

  const LOG_LINE: nat := 1024
  const LOG_RING: nat := 131072

  /** The place of a byte in a ring of n bytes: its offset modulo n. */
  function Slot(at: nat, n: nat): (s: nat)
    requires n > 0
    ensures s < n
  {
    if at < n then at else Slot(at - n, n)
  }

  /** Walking from `at` to x wraps at most once. */
  lemma {:induction false} SlotFrom(at: nat, x: nat, n: nat)
    requires 0 < n && at <= x < at + n
    ensures Slot(x, n) == if Slot(at, n) + (x - at) < n then Slot(at, n) + (x - at) else Slot(at, n) + (x - at) - n
  {
    if at >= n {
      SlotFrom(at - n, x - n, n);
    }
  }

  // ---------------------------------------------------------------- lines

  /** Every line ends in a newline. */
  predicate Whole(s: string) {
    s == [] || s[|s| - 1] == '\n'
  }

  /** A line starts at `at`, or the text ends there. */
  predicate Boundary(all: string, at: nat) {
    at <= |all| && (at == 0 || all[at - 1] == '\n')
  }

  /** A line runs from `at` to `end`, its newline included. */
  ghost predicate EndsAt(all: string, at: nat, end: nat) {
    && at < end <= |all| && all[end - 1] == '\n'
    && forall x :: at <= x < end - 1 ==> all[x] != '\n'
  }

  /** The bytes from tail to head are in the ring. */
  ghost predicate Holds(buf: seq<char>, all: string, tail: nat) {
    && |buf| > 0 && tail <= |all| <= tail + |buf|
    && forall x :: tail <= x < |all| ==> buf[Slot(x, |buf|)] == all[x]
  }

  /** Every line that fits is kept. */
  ghost predicate Keeps(all: string, tail: nat, size: nat) {
    forall x: nat :: Boundary(all, x) && |all| <= x + size ==> tail <= x
  }

  /** Writing s after the text, over what is older than the new tail. */
  lemma PutHolds(buf: seq<char>, buf': seq<char>, all: string, tail: nat, s: string)
    requires Holds(buf, all, tail) && |buf'| == |buf| && |all| + |s| <= tail + |buf|
    requires forall x {:trigger Slot(x, |buf|)} :: |all| <= x < |all| + |s| ==> buf'[Slot(x, |buf|)] == s[x - |all|]
    requires forall x {:trigger Slot(x, |buf|)} :: tail <= x < |all| ==> buf'[Slot(x, |buf|)] == buf[Slot(x, |buf|)]
    ensures Holds(buf', all + s, tail)
  {
    hide Slot;
  }

  /** Where the bytes of a text of length len go: k bytes up to the end of the ring, the rest to its start. */
  lemma Places(head: nat, n: nat, len: nat, k: nat)
    requires 0 < n && len <= n && Slot(head, n) + k <= n && k <= len && (k == len || Slot(head, n) + k == n)
    ensures forall x {:trigger Slot(x, n)} :: head <= x < head + len ==>
              Slot(x, n) == if x - head < k then Slot(head, n) + (x - head) else x - head - k
  {
    forall x {:trigger Slot(x, n)} | head <= x < head + len
      ensures Slot(x, n) == if x - head < k then Slot(head, n) + (x - head) else x - head - k
    {
      SlotFrom(head, x, n);
    }
  }

  /** The text does not run into a byte that is less than a whole ring older than its end. */
  lemma NotHit(head: nat, n: nat, len: nat, k: nat, x: nat)
    requires 0 < n && x < head && head + len <= x + n && Slot(head, n) + k <= n
    requires k <= len && (k == len || Slot(head, n) + k == n)
    ensures !(Slot(head, n) <= Slot(x, n) < Slot(head, n) + k) && Slot(x, n) >= len - k
  {
    if head < x + n {
      SlotFrom(x, head, n);
    }
  }

  class Ring {
    const size: nat
    const buf: array<char>
    var head: nat
    var tail: nat
    /** Everything that was ever logged. */
    ghost var all: string

    ghost predicate Valid()
      reads this`head, this`tail, this`all, buf
    {
      && LOG_LINE < size == buf.Length && head == |all| && Whole(all) && Boundary(all, tail)
      && Holds(buf[..], all, tail) && Keeps(all, tail, size)
    }

    constructor (size: nat)
      requires size > LOG_LINE
      ensures Valid() && fresh(buf) && all == [] && this.size == size
    {
      this.size := size;
      buf := new char[size](_ => '\0');
      head, tail, all := 0, 0, [];
    }

    /** The first newline in a stretch of the ring. */
    method FindNewline(off: nat, seg: nat) returns (found: bool, k: nat)
      requires off + seg <= buf.Length
      ensures found ==> k < seg && buf[off + k] == '\n'
      ensures forall y :: off <= y < off + (if found then k else seg) ==> buf[y] != '\n'
    {
      k := 0;
      while k < seg
        invariant 0 <= k <= seg && forall y :: off <= y < off + k ==> buf[y] != '\n'
      {
        if buf[off + k] == '\n' {
          return true, k;
        }
        k := k + 1;
      }
      found := false;
    }

    /** Finds the end of the line at `start`, its newline included. */
    method Eol(start: nat, ghost n: nat) returns (end: nat)
      requires RoomFor(n) && tail <= start < head
      ensures EndsAt(all, start, end)
    {
      hide Slot;
      var at := start;
      while true
        invariant start <= at < head && forall x :: start <= x < at ==> all[x] != '\n'
        decreases head - at
      {
        var off := Slot(at, size);
        var seg := if size - off > head - at then head - at else size - off;
        Stretch(at, seg, n);
        var found, k := FindNewline(off, seg);
        if found {
          return at + k + 1;
        }
        LastIsNewline(n);
        at := at + seg;
      }
    }

    lemma LastIsNewline(n: nat)
      requires RoomFor(n) && head > 0
      ensures all[head - 1] == '\n'
    {
    }

    lemma LineFits(at: nat, end: nat)
      requires Valid() && tail <= at && end <= head
      ensures end - at <= size
    {
    }

    /** A stretch that does not wrap holds the text. */
    lemma Stretch(at: nat, seg: nat, n: nat)
      requires RoomFor(n) && tail <= at && at + seg <= head && Slot(at, size) + seg <= size
      ensures forall x :: at <= x < at + seg ==> buf[Slot(at, size) + (x - at)] == all[x]
    {
      forall x | at <= x < at + seg ensures buf[Slot(at, size) + (x - at)] == all[x] {
        SlotFrom(at, x, size);
        assert buf[..][Slot(x, size)] == all[x];
      }
    }

    /** The ring is as it should be once n more bytes are in it. */
    ghost predicate RoomFor(n: nat)
      reads this`head, this`tail, this`all, buf
    {
      && LOG_LINE < size == buf.Length && head == |all| && Whole(all) && Boundary(all, tail)
      && Holds(buf[..], all, tail) && forall x: nat :: Boundary(all, x) && |all| + n <= x + size ==> tail <= x
    }

    /** Drops the oldest lines until n more bytes fit. */
    method MakeRoom(n: nat)
      requires Valid() && n <= size
      modifies this`tail
      ensures RoomFor(n) && head + n - tail <= size
    {
      while head + n - tail > size
        invariant RoomFor(n)
        decreases head - tail
      {
        var end := Eol(tail, n);
        tail := end;
      }
    }

    /** Appends whole lines. The ring keeps every line that still fits. */
    method Put(s: string)
      requires Valid() && Whole(s) && |s| <= size
      modifies this`head, this`tail, this`all, buf
      ensures Valid() && all == old(all) + s
    {
      hide Slot, Holds, Whole, Keeps;
      var n := |s|;
      MakeRoom(n);
      var off := Slot(head, size);
      var k := if size - off > n then n else size - off;
      ghost var was := buf[..];
      Places(head, size, n, k);
      forall j | 0 <= j < k {
        buf[off + j] := s[j];
      }
      forall j | 0 <= j < n - k {
        buf[j] := s[k + j];
      }
      forall x {:trigger Slot(x, size)} | tail <= x < head ensures buf[Slot(x, size)] == was[Slot(x, size)] {
        NotHit(head, size, n, k, x);
      }
      PutHolds(was, buf[..], all, tail, s);
      WholeTwice(all, s, tail);
      KeepsMore(all, s, tail, size);
      all := all + s;
      head := head + n;
    }

    lemma KeepsMore(a: string, s: string, tail: nat, size: nat)
      requires tail <= |a| && forall x: nat :: Boundary(a, x) && |a| + |s| <= x + size ==> tail <= x
      ensures Keeps(a + s, tail, size)
    {
      forall x: nat | Boundary(a + s, x) && |a + s| <= x + size ensures tail <= x {
        if x <= |a| {
          assert Boundary(a, x);
        }
      }
    }

    lemma WholeTwice(a: string, s: string, at: nat)
      requires Whole(a) && Whole(s) && Boundary(a, at)
      ensures Whole(a + s) && Boundary(a + s, at)
    {
    }

    /** The n bytes at `at`, as long as they are in the ring. */
    method Get(at: nat, n: nat) returns (s: string)
      requires Valid() && n <= size && at + n <= head
      ensures |s| == n && (tail <= at ==> s == all[at..at + n])
    {
      hide Slot;
      var off := Slot(at, size);
      var k := if size - off > n then n else size - off;
      s := buf[off..off + k] + buf[..n - k];
      if tail <= at {
        Places(at, size, n, k);
        forall j | 0 <= j < n ensures s[j] == all[at..at + n][j] {
          assert buf[..][Slot(at + j, size)] == all[at + j];
        }
      }
    }

    /** Whether the bytes at `at` are s. */
    method Equal(at: nat, s: string) returns (eq: bool)
      requires Valid() && |s| <= size && at + |s| <= head
      ensures tail <= at ==> (eq <==> all[at..at + |s|] == s)
    {
      var t := Get(at, |s|);
      eq := t == s;
    }
  }

  // ---------------------------------------------------------------- readers

  /** What a reader gets. */
  datatype Piece = Line(text: string) | Skipped(bytes: nat)

  /** The pieces tile the text from `from` to `to`: lines one by one, and gaps between lines. */
  ghost predicate Tiles(all: string, from: nat, pieces: seq<Piece>, to: nat) {
    if pieces == [] then from == to
    else
      var last := pieces[|pieces| - 1];
      var n := if last.Line? then |last.text| else last.bytes;
      && n > 0 && from + n <= to <= |all| && Boundary(all, to)
      && Tiles(all, from, pieces[..|pieces| - 1], to - n)
      && (last.Line? ==> EndsAt(all, to - n, to) && last.text == all[to - n..to])
  }

  /** Logging more does not change what was read. */
  lemma {:induction false} TilesMore(all: string, more: string, from: nat, pieces: seq<Piece>, to: nat)
    requires Tiles(all, from, pieces, to)
    ensures Tiles(all + more, from, pieces, to)
    decreases |pieces|
  {
    if pieces != [] {
      var last := pieces[|pieces| - 1];
      var n := if last.Line? then |last.text| else last.bytes;
      TilesMore(all, more, from, pieces[..|pieces| - 1], to - n);
      assert (all + more)[to - n..to] == all[to - n..to];
    }
  }

  class Reader {
    var at: nat
    ghost var from: nat
    ghost var got: seq<Piece>

    /** What the reader got so far is the log from where it started to where it stands. */
    ghost predicate Valid(all: string)
      reads this
    {
      Boundary(all, at) && Tiles(all, from, got, at)
    }

    constructor (ghost all: string, at: nat)
      requires Boundary(all, at)
      ensures Valid(all) && from == this.at == at && got == []
    {
      this.at, from, got := at, at, [];
    }

    /** The next line, or how many bytes the ring has overwritten since the last one, or nothing. */
    method Next(r: Ring) returns (more: bool, p: Piece)
      requires r.Valid() && Valid(r.all)
      modifies this
      ensures Valid(r.all) && from == old(from)
      ensures more <==> old(at) < r.head
      ensures more ==> got == old(got) + [p] && (p.Skipped? <==> old(at) < r.tail)
      ensures more && p.Skipped? ==> at == r.tail && p.bytes == r.tail - old(at)
      ensures !more ==> got == old(got) && at == old(at)
    {
      hide Whole, Holds, Tiles;
      if at < r.tail {
        p := Skipped(r.tail - at);
        TileOne(r.all, from, got, at, p, r.tail);
        got := got + [p];
        at := r.tail;
        return true, p;
      }
      if at >= r.head {
        return false, Skipped(0);
      }
      var end := r.Eol(at, 0);
      r.LineFits(at, end);
      var text := r.Get(at, end - at);
      p := Line(text);
      TileOne(r.all, from, got, at, p, end);
      got := got + [p];
      at := end;
      more := true;
    }

    lemma TileOne(all: string, from: nat, got: seq<Piece>, at: nat, p: Piece, to: nat)
      requires Tiles(all, from, got, at) && at < to && Boundary(all, to)
      requires if p.Line? then EndsAt(all, at, to) && p.text == all[at..to] else p.bytes == to - at
      ensures Tiles(all, from, got + [p], to)
    {
      assert (got + [p])[..|got|] == got;
      TilesBefore(all, from, got, at);
    }

    lemma {:induction false} TilesBefore(all: string, from: nat, got: seq<Piece>, at: nat)
      requires Tiles(all, from, got, at)
      ensures from <= at
      decreases |got|
    {
      if got != [] {
        var last := got[|got| - 1];
        TilesBefore(all, from, got[..|got| - 1], at - (if last.Line? then |last.text| else last.bytes));
      }
    }
  }
}
