/** How lines and notices are written. */
module LogTexts {
  import opened Repeats
  import opened LogRings

  const LOG_INFO: nat := 1
  const LOG_WARN: nat := 2
  const LOG_FAIL: nat := 3
  const LOG_NOTE: nat := 5
  const LOG_N: nat := 6
  const LOG_PREFIX_MAX: nat := 64
  const COUNT_MOD: nat := 0x1_0000_0000

  function Digit(d: nat): char
    requires d < 10
  {
    '0' + d as char
  }

  function Dec(n: nat): (s: string)
    ensures |s| > 0
  {
    if n < 10 then [Digit(n)] else Dec(n / 10) + [Digit(n % 10)]
  }

  ghost function Pow10(k: nat): nat {
    if k == 0 then 1 else 10 * Pow10(k - 1)
  }

  lemma {:induction false} DecSize(n: nat, k: nat)
    requires k > 0 && n < Pow10(k)
    ensures |Dec(n)| <= k
    decreases k
  {
    if n >= 10 {
      DecSize(n / 10, k - 1);
    }
  }

  function Pad3(n: nat): string {
    (if n < 10 then "00" else if n < 100 then "0" else "") + Dec(n)
  }

  function Tag(level: nat): string {
    if level == 0 then "DONE" else if level == LOG_WARN then "WARN" else if level == LOG_FAIL then "FAIL"
    else if level == 4 then "WAIT" else if level == LOG_NOTE then "NOTE" else ""
  }

  /** The time and the tag in front of a line. */
  function Prefix(level: nat, ms: nat): (s: string)
    ensures |s| <= LOG_PREFIX_MAX
  {
    var s := "[" + Pad3(ms / 1000) + "." + Pad3(ms % 1000) + "] " + Tag(level) + " > ";
    if |s| > LOG_PREFIX_MAX then s[..LOG_PREFIX_MAX] else s
  }

  function Head(level: nat, ms: nat): (s: string)
    ensures |s| <= LOG_PREFIX_MAX
  {
    if level == LOG_INFO then "" else Prefix(level, ms)
  }

  function Notice(len: nat, count: nat): (s: string)
    ensures Whole(s)
  {
    if len == 1 then "last message repeated " + Dec(count) + " times\n"
    else "last " + Dec(len) + " messages repeated " + Dec(count) + " times\n"
  }

  lemma NoticeFits(len: nat, count: nat)
    requires len <= LOG_REPEAT && count < COUNT_MOD
    ensures |Notice(len, count)| <= 64
  {
    DecSize(len, 2);
    assert Pow10(10) == 10000000000 by {
      assert Pow10(5) == 100000;
    }
    DecSize(count, 10);
  }

  /** The line that is made of a text: cut so that the line fits with its prefix, and ended. */
  function Body(text: string, prefix: nat): (s: string)
    requires prefix <= LOG_PREFIX_MAX
    ensures 0 < |s| && prefix + |s| < LOG_LINE && s[|s| - 1] == '\n'
  {
    var room := LOG_LINE - 2 - prefix;
    (if |text| > room then text[..room] else text) + "\n"
  }

  /** The line fits whatever prefix it gets. */
  predicate Fits(m: Msg) {
    |m.body| + LOG_PREFIX_MAX < LOG_LINE
  }

  function KeyBits(key: Key): bv32 {
    (key.level % 16 + if key.nocon then 16 else 0) as bv32
  }

  function BodyHash(key: Key, s: string): bv32 {
    if s == [] then 2166136261 ^ KeyBits(key)
    else (BodyHash(key, s[..|s| - 1]) ^ ((s[|s| - 1] as int) % 256) as bv32) * 16777619
  }

  // ---------------------------------------------------------------- the bytes of the output

  /** A line with the time and the tag in front, or a notice with those. */
  function Text(o: Out): string {
    match o
    case Shown(m, ms) => Head(m.key.level, ms) + m.body
    case Again(len, count, key, ms) => Prefix(key.level, ms) + Notice(len, count)
  }

  ghost function Rendered(outs: seq<Out>): string {
    if outs == [] then "" else Rendered(outs[..|outs| - 1]) + Text(outs[|outs| - 1])
  }

  lemma RenderedMore(outs: seq<Out>, o: Out)
    ensures Rendered(outs + [o]) == Rendered(outs) + Text(o)
  {
    assert (outs + [o])[..|outs|] == outs;
  }
}
