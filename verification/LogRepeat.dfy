/** Repeated blocks of log lines are counted instead of logged. What was logged can be told from the
    output: this module says how, and which steps of the counter keep that true. */
module Repeats {

  /** A line without its prefix: its tag, whether it stays off the console, and its text. */
  datatype Key = Key(level: nat, nocon: bool)
  datatype Msg = Msg(key: Key, body: string)

  /** A line as it came in. */
  datatype In = In(msg: Msg, ms: nat)

  /** What goes out: a line with its time, or the notice that the last `len` lines came `count` times more,
      under a tag and a time of its own. */
  datatype Out = Shown(msg: Msg, ms: nat) | Again(len: nat, count: nat, key: Key, ms: nat)

  /** A line as the output tells it. The time of a counted line is not told. */
  datatype Stamp = At(ms: nat) | Untold
  datatype Told = Told(msg: Msg, stamp: Stamp)

  // ---------------------------------------------------------------- reading the output

  /** The lines in the output, without the notices. */
  ghost function Printed(outs: seq<Out>): (s: seq<Msg>)
    ensures |s| <= |outs|
  {
    if outs == [] then []
    else
      var last := outs[|outs| - 1];
      Printed(outs[..|outs| - 1]) + (if last.Shown? then [last.msg] else [])
  }

  ghost function Last(s: seq<Msg>, n: nat): seq<Msg> {
    if n <= |s| then s[|s| - n..] else s
  }

  ghost function Plain(block: seq<Msg>): (s: seq<Told>)
    ensures |s| == |block| && forall k :: 0 <= k < |s| ==> s[k] == Told(block[k], Untold)
  {
    seq(|block|, k requires 0 <= k < |block| => Told(block[k], Untold))
  }

  ghost function Copies(block: seq<Msg>, count: nat): seq<Told> {
    if count == 0 then [] else Copies(block, count - 1) + Plain(block)
  }

  /** The first n lines of a block with their times. */
  ghost function Stamped(block: seq<Msg>, times: seq<nat>, n: nat): (s: seq<Told>)
    requires n <= |block| && n <= |times|
    ensures |s| == n && forall k :: 0 <= k < n ==> s[k] == Told(block[k], At(times[k]))
  {
    seq(n, k requires 0 <= k < n => Told(block[k], At(times[k])))
  }

  /** What the output tells: a notice stands for copies of the last lines printed before it. */
  ghost function Expand(outs: seq<Out>): seq<Told> {
    if outs == [] then []
    else
      var before := outs[..|outs| - 1];
      match outs[|outs| - 1]
      case Shown(msg, ms) => Expand(before) + [Told(msg, At(ms))]
      case Again(len, count, _, _) => Expand(before) + Copies(Last(Printed(before), len), count)
  }

  /** The output tells every line that came in, in order, and no time that is wrong. */
  ghost predicate Faithful(input: seq<In>, told: seq<Told>) {
    && |input| == |told|
    && forall k :: 0 <= k < |input| ==>
         told[k].msg == input[k].msg && (told[k].stamp == Untold || told[k].stamp == At(input[k].ms))
  }

  // ---------------------------------------------------------------- the counter

  const LOG_REPEAT: nat := 16

  /** The last `len` lines printed repeat: `count` times in full, and `pos` lines into the next time.
      `hold` are the times of those lines, `first` the times of the first repetition. */
  datatype Rep = Rep(len: nat, pos: nat, count: nat, hold: seq<nat>, first: seq<nat>)

  predicate Shape(r: Rep) {
    && r.len <= LOG_REPEAT == |r.hold| == |r.first|
    && (if r.len == 0 then r.pos == 0 && r.count == 0 else r.pos < r.len)
  }

  /** What has come in but is not in the output yet. */
  ghost function Open(block: seq<Msg>, r: Rep): seq<Told>
    requires |block| == r.len <= |r.first|
  {
    if r.count == 1 then Stamped(block, r.first, r.len) else Copies(block, r.count)
  }

  ghost function Pending(block: seq<Msg>, r: Rep): seq<Told>
    requires |block| == r.len <= |r.first| && r.pos <= r.len <= |r.hold|
  {
    Open(block, r) + Stamped(block, r.hold, r.pos)
  }

  /** Nothing is lost: the output, the open count and the held lines tell exactly what came in. */
  ghost predicate Lossless(input: seq<In>, outs: seq<Out>, r: Rep) {
    && r.pos <= r.len <= LOG_REPEAT == |r.hold| == |r.first| && r.len <= |Printed(outs)|
    && Faithful(input, Expand(outs) + Pending(Last(Printed(outs), r.len), r))
  }

  // ---------------------------------------------------------------- steps

  lemma ExpandShown(outs: seq<Out>, m: Msg, ms: nat)
    ensures Expand(outs + [Shown(m, ms)]) == Expand(outs) + [Told(m, At(ms))]
    ensures Printed(outs + [Shown(m, ms)]) == Printed(outs) + [m]
  {
    assert (outs + [Shown(m, ms)])[..|outs|] == outs;
  }

  lemma ExpandAgain(outs: seq<Out>, notice: Out)
    requires notice.Again?
    ensures Expand(outs + [notice]) == Expand(outs) + Copies(Last(Printed(outs), notice.len), notice.count)
    ensures Printed(outs + [notice]) == Printed(outs)
  {
    assert (outs + [notice])[..|outs|] == outs;
  }

  lemma NothingPending(outs: seq<Out>, r: Rep)
    requires r.pos == 0 && r.count == 0 && r.len <= LOG_REPEAT == |r.hold| == |r.first| && r.len <= |Printed(outs)|
    ensures Pending(Last(Printed(outs), r.len), r) == []
  {
  }

  /** A line is printed while nothing repeats. */
  lemma EmitKeeps(input: seq<In>, outs: seq<Out>, r: Rep, m: Msg, ms: nat)
    requires Lossless(input, outs, r) && Shape(r) && r.len == 0
    ensures Lossless(input + [In(m, ms)], outs + [Shown(m, ms)], r)
  {
    ExpandShown(outs, m, ms);
    NothingPending(outs, r);
    NothingPending(outs + [Shown(m, ms)], r);
  }

  /** A repetition may begin at any time. */
  lemma BeginKeeps(input: seq<In>, outs: seq<Out>, r: Rep, len: nat)
    requires Lossless(input, outs, r) && Shape(r) && r.len == 0 && len <= LOG_REPEAT && len <= |Printed(outs)|
    ensures Lossless(input, outs, r.(len := len))
  {
    NothingPending(outs, r);
    NothingPending(outs, r.(len := len));
  }

  /** The next line of the block comes in and is held. */
  lemma HoldKeeps(input: seq<In>, outs: seq<Out>, r: Rep, m: Msg, ms: nat)
    requires Lossless(input, outs, r) && r.pos < r.len && m == Last(Printed(outs), r.len)[r.pos]
    ensures Lossless(input + [In(m, ms)], outs, r.(pos := r.pos + 1, hold := r.hold[r.pos := ms]))
  {
    hide Expand, Printed, Copies, Faithful, Last;
    var block := Last(Printed(outs), r.len);
    LastSize(Printed(outs), r.len);
    var r' := r.(pos := r.pos + 1, hold := r.hold[r.pos := ms]);
    var t := Told(m, At(ms));
    HeldMore(block, r.hold, r.pos, ms);
    Assoc(Expand(outs), Open(block, r), Stamped(block, r.hold, r.pos), [t]);
    FaithfulMore(input, Expand(outs) + Pending(block, r), m, ms);
  }

  /** The counter of repetitions after one more. */
  function Completed(r: Rep): Rep {
    r.(pos := 0, count := r.count + 1, first := if r.count == 0 then r.hold else r.first)
  }

  /** The last line of the block comes in: one more repetition. From the second one on the times are
      not kept. */
  lemma CompleteKeeps(input: seq<In>, outs: seq<Out>, r: Rep)
    requires Lossless(input, outs, r) && r.pos == r.len > 0
    ensures Lossless(input, outs, Completed(r))
  {
    hide Expand, Printed, Faithful, Last;
    var block := Last(Printed(outs), r.len);
    LastSize(Printed(outs), r.len);
    var x, r' := Expand(outs), Completed(r);
    assert Stamped(block, r'.hold, 0) == [];
    if r.count == 0 {
      CopiesNone(block);
      assert Pending(block, r) == Stamped(block, r.hold, r.len);
      assert Pending(block, r') == Stamped(block, r.hold, r.len);
    } else {
      CopiesMore(block, r.count);
      Assoc(x, Open(block, r), Stamped(block, r.hold, r.len), []);
      Assoc(x, Copies(block, r.count), Plain(block), []);
      hide Copies;
      Vaguer(input, x, Open(block, r), Copies(block, r.count), Stamped(block, r.hold, r.len), Plain(block));
      assert Pending(block, r') == Copies(block, r.count) + Plain(block);
    }
  }

  lemma CopiesMore(block: seq<Msg>, count: nat)
    ensures Copies(block, count + 1) == Copies(block, count) + Plain(block)
    ensures Copies(block, 1) == Plain(block)
  {
    assert Copies(block, 0) == [];
  }

  lemma CopiesNone(block: seq<Msg>)
    ensures Copies(block, 0) == []
  {
  }

  lemma LastSize(s: seq<Msg>, n: nat)
    ensures n <= |s| ==> |Last(s, n)| == n
  {
  }

  lemma Assoc(x: seq<Told>, a: seq<Told>, b: seq<Told>, c: seq<Told>)
    ensures x + (a + (b + c)) == (x + (a + b)) + c == x + a + b + c
    ensures x + (a + b) == x + a + b
  {
  }

  lemma HeldMore(block: seq<Msg>, hold: seq<nat>, pos: nat, ms: nat)
    requires pos < |block| && pos < |hold|
    ensures Stamped(block, hold[pos := ms], pos + 1) == Stamped(block, hold, pos) + [Told(block[pos], At(ms))]
  {
  }

  lemma FaithfulMore(input: seq<In>, told: seq<Told>, m: Msg, ms: nat)
    requires Faithful(input, told)
    ensures Faithful(input + [In(m, ms)], told + [Told(m, At(ms))])
  {
  }

  /** Telling fewer times stays faithful. */
  lemma Vaguer(input: seq<In>, x: seq<Told>, a: seq<Told>, a': seq<Told>, b: seq<Told>, b': seq<Told>)
    requires Faithful(input, x + a + b) && |a| == |a'| && |b| == |b'|
    requires forall k :: 0 <= k < |a| ==> a'[k] == a[k] || a'[k] == Told(a[k].msg, Untold)
    requires forall k :: 0 <= k < |b| ==> b'[k] == b[k] || b'[k] == Told(b[k].msg, Untold)
    ensures Faithful(input, x + a' + b')
  {
    forall k | 0 <= k < |input|
      ensures (x + a' + b')[k] == (x + a + b)[k] || (x + a' + b')[k] == Told((x + a + b)[k].msg, Untold)
    {
    }
  }

  /** The notice that stands for the open count. */
  predicate NoticeOf(r: Rep, o: Out) {
    o.Again? && o.len == r.len && o.count == r.count
  }

  /** Several repetitions go out as a notice. */
  lemma NoticeKeeps(input: seq<In>, outs: seq<Out>, r: Rep, notice: Out)
    requires Lossless(input, outs, r) && r.count != 1 && NoticeOf(r, notice)
    ensures Lossless(input, outs + [notice], r.(count := 0))
  {
    ExpandAgain(outs, notice);
    hide Expand, Printed, Faithful, Last;
    var block := Last(Printed(outs), r.len);
    LastSize(Printed(outs), r.len);
    assert Copies(block, 0) == [];
    hide Copies;
    var held := Stamped(block, r.hold, r.pos);
    assert Pending(block, r.(count := 0)) == held;
    Assoc(Expand(outs), Copies(block, r.count), held, []);
  }

  /** The first n lines of a block, printed with their times. */
  ghost function Reprint(block: seq<Msg>, times: seq<nat>, n: nat): (s: seq<Out>)
    requires n <= |block| && n <= |times|
    ensures |s| == n
  {
    seq(n, k requires 0 <= k < n => Shown(block[k], times[k]))
  }

  /** b is a with the open count in it: a single repetition as it came in, several as a notice. */
  ghost predicate Flushed(a: seq<Out>, r: Rep, b: seq<Out>) {
    && r.len <= |Printed(a)| && r.len <= |r.first|
    && (r.count == 0 ==> b == a)
    && (r.count == 1 ==> b == a + Reprint(Last(Printed(a), r.len), r.first, r.len))
    && (r.count > 1 ==> |b| == |a| + 1 && b[..|a|] == a && NoticeOf(r, b[|a|]))
  }

  /** b is a with the open count and after it the held lines, as they came in. */
  ghost predicate Broken(a: seq<Out>, r: Rep, b: seq<Out>) {
    && r.pos <= r.len <= |Printed(a)| && r.len <= |r.hold|
    && exists mid :: Flushed(a, r, mid) && b == mid + Reprint(Last(Printed(a), r.len), r.hold, r.pos)
  }

  lemma ReprintStep(outs: seq<Out>, block: seq<Msg>, times: seq<nat>, n: nat)
    requires n < |block| && n < |times|
    ensures outs + Reprint(block, times, n + 1) == outs + Reprint(block, times, n) + [Shown(block[n], times[n])]
  {
  }

  lemma StampedMore(x: seq<Told>, block: seq<Msg>, times: seq<nat>, n: nat)
    requires n < |block| && n < |times|
    ensures x + Stamped(block, times, n + 1) == x + Stamped(block, times, n) + [Told(block[n], At(times[n]))]
  {
  }

  lemma PrintedMore(s: seq<Msg>, block: seq<Msg>, n: nat)
    requires n < |block|
    ensures s + block[..n + 1] == s + block[..n] + [block[n]]
  {
  }

  /** Printing lines of the block again appends them, and moves the block on. */
  lemma {:induction false} Reprinted(outs: seq<Out>, block: seq<Msg>, times: seq<nat>, n: nat)
    requires n <= |block| && n <= |times| && |block| <= |Printed(outs)| && block == Last(Printed(outs), |block|)
    ensures Expand(outs + Reprint(block, times, n)) == Expand(outs) + Stamped(block, times, n)
    ensures Printed(outs + Reprint(block, times, n)) == Printed(outs) + block[..n]
    ensures Last(Printed(outs + Reprint(block, times, n)), |block|) == block[n..] + block[..n]
  {
    hide Expand, Printed;
    if n == 0 {
      assert outs + Reprint(block, times, 0) == outs;
      assert Expand(outs) + Stamped(block, times, 0) == Expand(outs);
      assert Printed(outs) + block[..0] == Printed(outs);
    } else {
      Reprinted(outs, block, times, n - 1);
      ReprintStep(outs, block, times, n - 1);
      ExpandShown(outs + Reprint(block, times, n - 1), block[n - 1], times[n - 1]);
      StampedMore(Expand(outs), block, times, n - 1);
      PrintedMore(Printed(outs), block, n - 1);
    }
    LastOf(Printed(outs), block, n);
  }

  lemma LastOf(s: seq<Msg>, block: seq<Msg>, n: nat)
    requires n <= |block| <= |s| && block == Last(s, |block|)
    ensures Last(s + block[..n], |block|) == block[n..] + block[..n]
  {
    var t := s + block[..n];
    assert t[|t| - |block|..] == s[|s| - |block| + n..] + block[..n];
    assert s[|s| - |block| + n..] == block[n..];
  }

  /** A single repetition goes out as it came in. */
  lemma SingleKeeps(input: seq<In>, outs: seq<Out>, r: Rep)
    requires Lossless(input, outs, r) && r.count == 1
    ensures Lossless(input, outs + Reprint(Last(Printed(outs), r.len), r.first, r.len), r.(count := 0))
    ensures var block := Last(Printed(outs), r.len);
            Last(Printed(outs + Reprint(block, r.first, r.len)), r.len) == block
  {
    hide Expand, Printed, Faithful, Last, Copies;
    var block := Last(Printed(outs), r.len);
    LastSize(Printed(outs), r.len);
    Reprinted(outs, block, r.first, r.len);
    var held := Stamped(block, r.hold, r.pos);
    CopiesNone(block);
    assert Pending(block, r.(count := 0)) == held;
    Assoc(Expand(outs), Stamped(block, r.first, r.len), held, []);
    assert block[r.len..] + block[..r.len] == block;
  }

  /** The held lines go out as they came in, and nothing repeats any more. */
  lemma BreakKeeps(input: seq<In>, outs: seq<Out>, r: Rep)
    requires Lossless(input, outs, r) && r.count == 0
    ensures Lossless(input, outs + Reprint(Last(Printed(outs), r.len), r.hold, r.pos), r.(len := 0, pos := 0))
  {
    hide Expand, Printed, Faithful, Last, Copies;
    var block := Last(Printed(outs), r.len);
    LastSize(Printed(outs), r.len);
    Reprinted(outs, block, r.hold, r.pos);
    CopiesNone(block);
    assert Pending(block, r) == Stamped(block, r.hold, r.pos);
    var o, r' := outs + Reprint(block, r.hold, r.pos), r.(len := 0, pos := 0);
    NothingPending(o, r');
    assert Expand(o) + [] == Expand(o);
  }
}
