/** Numbers in the bytes of a file. One char stands for one byte. */
module Words {
  import opened Blobs

  const WORD: nat := 0x1_0000_0000

  /** A 32-bit number, the lowest byte first; higher bits are lost. */
  function Le(x: nat): (r: string)
    ensures |r| == 4
  {
    [(x % 256) as char, (x / 256 % 256) as char, (x / 65536 % 256) as char, (x / 16777216 % 256) as char]
  }

  function Num(f: string, off: nat): nat
    requires off + 4 <= |f|
  {
    f[off] as nat + 256 * (f[off + 1] as nat) + 65536 * (f[off + 2] as nat) + 16777216 * (f[off + 3] as nat)
  }

  lemma WordLe(f: string, off: nat, x: nat)
    requires x < WORD && At(f, off, Le(x))
    ensures off + 4 <= |f| && Num(f, off) == x
  {
    var r := Le(x);
    AtChar(f, off, r, 0);
    AtChar(f, off, r, 1);
    AtChar(f, off, r, 2);
    AtChar(f, off, r, 3);
    Digits(x);
  }

  lemma Digits(x: nat)
    requires x < WORD
    ensures x == x % 256 + 256 * (x / 256 % 256) + 65536 * (x / 65536 % 256) + 16777216 * (x / 16777216 % 256)
  {
    var y := x / 256;
    assert x == 256 * y + x % 256;
    var z := y / 256;
    assert y == 256 * z + y % 256;
    assert z == x / 65536;
    var w := z / 256;
    assert z == 256 * w + z % 256;
    assert w == x / 16777216;
  }

  /** Every number keeps all its bits. */
  predicate Small(ws: seq<nat>) {
    forall k :: 0 <= k < |ws| ==> ws[k] < WORD
  }

  function Pack(ws: seq<nat>): (r: string)
    ensures |r| == 4 * |ws|
  {
    if ws == [] then "" else Le(ws[0]) + Pack(ws[1..])
  }

  /** Packed numbers are read back one by one. */
  lemma {:induction false} WordsAt(f: string, off: nat, ws: seq<nat>, k: nat)
    requires Small(ws) && At(f, off, Pack(ws)) && k < |ws|
    ensures off + 4 * k + 4 <= |f| && Num(f, off + 4 * k) == ws[k]
    decreases k
  {
    AtSplit(f, off, Le(ws[0]), Pack(ws[1..]));
    if k == 0 {
      WordLe(f, off, ws[0]);
    } else {
      WordsAt(f, off + 4, ws[1..], k - 1);
    }
  }

  function Array(f: string, off: nat, n: nat): (r: seq<nat>)
    requires off + 4 * n <= |f|
    ensures |r| == n
  {
    seq(n, k requires 0 <= k < n => Num(f, off + 4 * k))
  }

  lemma ArrayFits(f: string, off: nat, ws: seq<nat>)
    requires At(f, off, Pack(ws))
    ensures off + 4 * |ws| <= |f|
  {
    hide Pack;
  }

  lemma ArrayIs(f: string, off: nat, n: nat, k: nat)
    requires off + 4 * n <= |f| && k < n
    ensures Array(f, off, n)[k] == Num(f, off + 4 * k)
  {
    hide Num;
  }

  lemma ArrayAt(f: string, off: nat, ws: seq<nat>)
    requires Small(ws) && At(f, off, Pack(ws))
    ensures off + 4 * |ws| <= |f| && Array(f, off, |ws|) == ws
  {
    ArrayFits(f, off, ws);
    hide *;
    forall k | 0 <= k < |ws| ensures Array(f, off, |ws|)[k] == ws[k] {
      WordsAt(f, off, ws, k);
      ArrayIs(f, off, |ws|, k);
    }
  }
}
