/** The string table of an image, and reading back what was put into it. */
module Blobs {
  import opened Argvs

  /** A string as C keeps it. */
  predicate Plain(s: string) {
    '\0' !in s
  }

  /** The table grows by whole strings; its memory at least doubles when it runs out. */
  class Blob {
    var p: array<char>
    var n: nat

    ghost predicate Valid()
      reads this
    {
      n <= p.Length <= 2 * n + 64
    }

    ghost function Contents(): string
      reads this, p
      requires Valid()
    {
      p[..n]
    }

    constructor ()
      ensures Valid() && Contents() == [] && fresh(p)
    {
      p := new char[0];
      n := 0;
    }

    /** Appends a string and the NUL that ends it, and says where it is. */
    method Add(s: string) returns (at: nat)
      requires Valid()
      modifies this, p
      ensures Valid() && at == |old(Contents())| && Contents() == old(Contents()) + s + "\0"
      ensures p == old(p) || fresh(p)
    {
      at := n;
      ghost var was := p[..n];
      var len := |s| + 1;
      MakeRoom(len);
      Put(p, n, s);
      n := n + len;
      assert p[..n] == p[..at] + p[at..at + |s|] + [p[at + |s|]];
    }

    method MakeRoom(len: nat)
      requires Valid()
      modifies this`p
      ensures n + len <= p.Length <= 2 * (n + len) + 64 && p[..n] == old(p[..n]) && (p == old(p) || fresh(p))
    {
      if n + len > p.Length {
        var q := new char[(n + len) * 2 + 64](_ => '\0');
        forall k | 0 <= k < n {
          q[k] := p[k];
        }
        p := q;
      }
    }

    /** Appends several strings. */
    method AddAll(words: seq<string>) returns (at: nat)
      requires Valid()
      modifies this, p
      ensures Valid() && at == |old(Contents())| && Contents() == old(Contents()) + Packed(words)
      ensures p == old(p) || fresh(p)
    {
      at := n;
      var k := 0;
      assert Contents() == old(Contents()) + Packed(words[..0]);
      while k < |words|
        invariant 0 <= k <= |words| && Valid() && (p == old(p) || fresh(p))
        invariant Contents() == old(Contents()) + Packed(words[..k])
      {
        var _ := Add(words[k]);
        PackedMore(words, k);
        assert old(Contents()) + Packed(words[..k + 1]) == old(Contents()) + Packed(words[..k]) + words[k] + "\0";
        k := k + 1;
      }
      assert words[..k] == words;
    }
  }

  /** Writes a string and its NUL. */
  method Put(p: array<char>, at: nat, s: string)
    requires at + |s| < p.Length
    modifies p
    ensures p[..at] == old(p[..at]) && p[at..at + |s|] == s && p[at + |s|] == '\0'
  {
    forall k | 0 <= k < |s| {
      p[at + k] := s[k];
    }
    p[at + |s|] := '\0';
  }

  /** Strings end to end, each with its NUL. */
  function Packed(words: seq<string>): string {
    if words == [] then "" else words[0] + "\0" + Packed(words[1..])
  }

  lemma {:induction false} PackedMore(words: seq<string>, k: nat)
    requires k < |words|
    ensures Packed(words[..k + 1]) == Packed(words[..k]) + words[k] + "\0"
    decreases k
  {
    if k == 0 {
      assert words[..1][1..] == [];
      assert Packed(words[..1]) == words[0] + "\0" + "";
    } else {
      var rest := words[1..];
      PackedMore(rest, k - 1);
      assert words[..k + 1][1..] == rest[..k] && words[..k][1..] == rest[..k - 1];
      assert words[0] + "\0" + (Packed(rest[..k - 1]) + rest[k - 1] + "\0")
          == words[0] + "\0" + Packed(rest[..k - 1]) + rest[k - 1] + "\0";
    }
  }

  // ---------------------------------------------------------------- reading back

  /** The string at `off`. */
  function Str(blob: string, off: nat): string
    requires Ended(blob) && off < |blob|
  {
    blob[off..End(blob, off)]
  }

  /** The table holds s at `off`. */
  ghost predicate At(blob: string, off: nat, s: string) {
    off + |s| <= |blob| && blob[off..off + |s|] == s
  }

  lemma AtSplit(blob: string, off: nat, s: string, t: string)
    requires At(blob, off, s + t)
    ensures At(blob, off, s) && At(blob, off + |s|, t)
  {
    var u := s + t;
    assert blob[off..off + |s|] == blob[off..off + |u|][..|s|] && u[..|s|] == s;
    assert blob[off + |s|..off + |u|] == blob[off..off + |u|][|s|..] && u[|s|..] == t;
  }

  lemma AtMore(blob: string, more: string, off: nat, s: string)
    requires At(blob, off, s)
    ensures At(blob + more, off, s)
  {
    assert (blob + more)[off..off + |s|] == blob[off..off + |s|];
  }

  lemma AtEnd(a: string, s: string)
    ensures At(a + s, |a|, s)
  {
  }

  lemma AtChar(blob: string, off: nat, s: string, k: nat)
    requires At(blob, off, s) && k < |s|
    ensures off + k < |blob| && blob[off + k] == s[k]
  {
    assert blob[off..off + |s|][k] == s[k];
  }

  /** A string that was put in is read back. */
  lemma StrAt(blob: string, off: nat, s: string)
    requires Ended(blob) && At(blob, off, s + "\0") && Plain(s)
    ensures off < |blob| && End(blob, off) == off + |s| && Str(blob, off) == s
  {
    hide End, Ended;
    AtSplit(blob, off, s, "\0");
    AtChar(blob, off + |s|, "\0", 0);
    forall x | off <= x < off + |s| ensures blob[x] != '\0' {
      AtChar(blob, off, s, x - off);
    }
    EndIs(blob, off, off + |s|);
  }

  lemma EndIs(blob: string, off: nat, e: nat)
    requires Ended(blob) && off <= e < |blob| && blob[e] == '\0' && forall x :: off <= x < e ==> blob[x] != '\0'
    ensures End(blob, off) == e
  {
  }

  /** A word of an argument list. */
  predicate Word(s: string) {
    s != [] && Plain(s) && |s| <= NG_MAX_EXEC_ARG
  }

  predicate AllWords(words: seq<string>) {
    forall k :: 0 <= k < |words| ==> Word(words[k])
  }

  /** The list at `off` is these words. */
  ghost predicate Lists(blob: string, off: nat, words: seq<string>)
    requires Ended(blob)
  {
    var l := List(blob, off);
    && l.Words? && |l.at| == |words| && Short(blob, l.at)
    && (forall k :: 0 <= k < |words| ==> l.at[k] < |blob| && Str(blob, l.at[k]) == words[k])
  }

  /** A word in front of a list that is read back. */
  lemma ListCons(blob: string, off: nat, words: seq<string>)
    requires Ended(blob) && off < |blob| && blob[off] != '\0'
    requires words != [] && Word(words[0]) && Str(blob, off) == words[0]
    requires Lists(blob, End(blob, off) + 1, words[1..])
    ensures Lists(blob, off, words) && List(blob, off).end == List(blob, End(blob, off) + 1).end
  {
    ListStep(blob, off);
    hide List, End;
    var l, m := List(blob, off), List(blob, End(blob, off) + 1);
    assert l.at == [off] + m.at;
    forall k | 0 <= k < |words| ensures l.at[k] < |blob| && Str(blob, l.at[k]) == words[k] {
      if k > 0 {
        assert l.at[k] == m.at[k - 1] && words[k] == words[1..][k - 1];
      }
    }
    hide Str;
    forall k | 0 <= k < |l.at| ensures l.at[k] < |blob| && End(blob, l.at[k]) - l.at[k] <= NG_MAX_EXEC_ARG {
      if k > 0 {
        assert l.at[k] == m.at[k - 1];
      } else {
        StrSize(blob, off);
      }
    }
  }

  lemma StrSize(blob: string, off: nat)
    requires Ended(blob) && off < |blob|
    ensures |Str(blob, off)| == End(blob, off) - off
  {
  }

  /** A list of words that was put in, and ended with an empty string, is read back. */
  lemma {:induction false} ListAt(blob: string, off: nat, words: seq<string>)
    requires Ended(blob) && At(blob, off, Packed(words) + "\0") && AllWords(words)
    ensures Lists(blob, off, words) && List(blob, off).end == off + |Packed(words)|
    decreases |words|
  {
    if words == [] {
      ListNone(blob, off);
    } else {
      FirstApart(blob, off, words);
      WordsApart(words);
      hide *;
      var w, rest := words[0], words[1..];
      StrAt(blob, off, w);
      AtChar(blob, off, w + "\0", 0);
      ListAt(blob, off + |w| + 1, rest);
      ListCons(blob, off, words);
    }
  }

  lemma ListNone(blob: string, off: nat)
    requires Ended(blob) && At(blob, off, Packed([]) + "\0")
    ensures Lists(blob, off, []) && List(blob, off).end == off
  {
    assert Packed([]) + "\0" == "\0";
    AtChar(blob, off, "\0", 0);
    ListStep(blob, off);
  }

  lemma FirstApart(blob: string, off: nat, words: seq<string>)
    requires words != [] && At(blob, off, Packed(words) + "\0")
    ensures At(blob, off, words[0] + "\0") && At(blob, off + |words[0]| + 1, Packed(words[1..]) + "\0")
    ensures |Packed(words)| == |words[0]| + 1 + |Packed(words[1..])|
  {
    var w, rest := words[0], words[1..];
    assert Packed(words) + "\0" == (w + "\0") + (Packed(rest) + "\0");
    hide At, Packed;
    AtSplit(blob, off, w + "\0", Packed(rest) + "\0");
  }

  lemma WordsApart(words: seq<string>)
    requires words != [] && AllWords(words)
    ensures Word(words[0]) && words[0] != [] && words[0][0] != '\0' && Plain(words[0]) && AllWords(words[1..])
  {
  }
}
