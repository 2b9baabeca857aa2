/** The stripper as it works: in place, with a read and a write position in one buffer. The script ends
    in a NUL that is not part of it. */
module LuaStripper {
  import opened LuaStrip

  const NONE := -1

  /** The buffer holds a script of n characters and the NUL that ends it. */
  ghost predicate Script(s: array<char>, n: nat)
    reads s
  {
    n < s.Length && s[n] == '\0'
  }

  method LuaSep(s: array<char>, i: nat, n: nat) returns (lv: nat)
    requires Script(s, n) && i < n
    ensures lv == Sep(s[i..n])
  {
    var k := i + 1;
    while s[k] == '='
      invariant i + 1 <= k <= n && forall x :: i + 1 <= x < k ==> s[x] == '='
      decreases n - k
    {
      k := k + 1;
    }
    ghost var t := s[i..n];
    assert t[1..] == s[i + 1..n];
    RunIs(t[1..], k - i - 1);
    lv := if s[k] == '[' then k - i else 0;
  }

  /** A run of equals signs that something else ends. */
  lemma {:induction false} RunIs(t: string, k: nat)
    requires k <= |t| && (forall x :: 0 <= x < k ==> t[x] == '=') && (k < |t| ==> t[k] != '=')
    ensures Equals(t) == k
  {
    if k > 0 {
      RunIs(t[1..], k - 1);
    }
  }

  /** Where the text goes on once a long bracket of this level has closed. */
  method LuaClose(s: array<char>, from: nat, n: nat, lv: nat) returns (e: int)
    requires Script(s, n) && from <= n
    ensures e == Plus(from, Close(s[from..n], lv))
  {
    hide Close, Equals, Closes;
    var i := from;
    while i < n
      invariant from <= i <= n && Close(s[from..n], lv) == Plus(i - from, Close(s[i..n], lv))
    {
      CloseIs(s[i..n], lv);
      assert s[i..n][1..] == s[i + 1..n];
      if s[i] == ']' {
        var k := ClosesAt(s, i, n, lv);
        if k != NONE {
          return k;
        }
      }
      i := i + 1;
    }
    CloseIs(s[i..n], lv);
    e := NONE;
  }

  lemma CloseIs(t: string, lv: nat)
    ensures t == [] ==> Close(t, lv) == NONE
    ensures t != [] ==> Close(t, lv) == if t[0] == ']' && Closes(t, lv) then lv + 2 else Plus(1, Close(t[1..], lv))
  {
  }

  /** After the long bracket of level lv that closes at i. */
  method ClosesAt(s: array<char>, i: nat, n: nat, lv: nat) returns (e: int)
    requires Script(s, n) && i < n && s[i] == ']'
    ensures e == if Closes(s[i..n], lv) then i + lv + 2 else NONE
  {
    var k := i + 1;
    while k < n && s[k] == '='
      invariant i + 1 <= k <= n && forall x :: i + 1 <= x < k ==> s[x] == '='
    {
      k := k + 1;
    }
    ghost var t := s[i..n];
    assert t[1..] == s[i + 1..n];
    RunIs(t[1..], k - i - 1);
    hide Equals;
    e := if k < n && s[k] == ']' && k - i - 1 == lv then k + 1 else NONE;
  }

  /** Past the white space at `from`. */
  method SkipSpace(s: array<char>, from: nat, n: nat) returns (i: nat)
    requires Script(s, n) && from <= n
    ensures from <= i <= n && i == from + Spaces(s[from..n])
  {
    i := from;
    while i < n && (Blank(s[i]) || Break(s[i]))
      invariant from <= i <= n && Spaces(s[from..n]) == i - from + Spaces(s[i..n])
    {
      assert s[i..n][1..] == s[i + 1..n];
      i := i + 1;
    }
  }

  /** After the quoted string that starts at `from`. */
  method LuaStr(s: array<char>, from: nat, n: nat) returns (e: int)
    requires Script(s, n) && from < n
    ensures e == Plus(from + 1, Quoted(s[from + 1..n], s[from]))
  {
    hide Quoted, Spaces;
    var q := s[from];
    var i := from + 1;
    while i < n
      invariant from + 1 <= i <= n && Quoted(s[from + 1..n], q) == Plus(i - from - 1, Quoted(s[i..n], q))
      decreases n - i
    {
      QuotedIs(s[i..n], q);
      assert s[i..n][1..] == s[i + 1..n];
      if s[i] == q {
        return i + 1;
      }
      if Break(s[i]) {
        return NONE;
      }
      if s[i] != '\\' {
        i := i + 1;
      } else if i + 1 == n {
        return NONE;
      } else {
        assert s[i..n][2..] == s[i + 2..n];
        if s[i + 1] == 'z' {
          var k := SkipSpace(s, i + 2, n);
          assert s[i..n][k - i..] == s[k..n];
          i := k;
        } else if Pair(s[i + 1], s[i + 2]) {
          assert s[i..n][3..] == s[i + 3..n];
          i := i + 3;
        } else {
          i := i + 2;
        }
      }
    }
    QuotedIs(s[i..n], q);
    e := NONE;
  }

  /** What the text at i starts with. */
  method Look(s: array<char>, i: nat, n: nat) returns (h: Head)
    requires Script(s, n) && i < n
    ensures h == First(s[i..n])
  {
    hide Quoted, Long, LineEnd;
    ghost var t := s[i..n];
    var c := s[i];
    if Break(c) {
      return Newline;
    }
    if Blank(c) {
      return Space;
    }
    if c == '-' && s[i + 1] == '-' {
      h := LookComment(s, i, n);
      return;
    }
    if c == '\'' || c == '"' {
      var e := LuaStr(s, i, n);
      assert t[1..] == s[i + 1..n];
      return if e == NONE then Broken else Piece(e - i);
    }
    if c == '[' {
      var e := LongAt(s, i, n);
      if e != 0 {
        return if e == NONE then Broken else Piece(e);
      }
    }
    h := Piece(1);
  }

  method LookComment(s: array<char>, i: nat, n: nat) returns (h: Head)
    requires Script(s, n) && i + 1 < n && s[i] == '-' && s[i + 1] == '-'
    ensures h == First(s[i..n])
  {
    hide Quoted, Long;
    ghost var t := s[i..n];
    if s[i + 2] == '[' {
      assert t[2..] == s[i + 2..n];
      var e := LongAt(s, i + 2, n);
      if e != 0 {
        return if e == NONE then Broken else LongComment(2 + e);
      }
    }
    var e := i;
    while e < n && !Break(s[e])
      invariant i <= e <= n && forall x :: i <= x < e ==> !Break(s[x])
    {
      e := e + 1;
    }
    LineIs(t, e - i);
    h := LineComment(e - i);
  }

  lemma {:induction false} LineIs(t: string, e: nat)
    requires e <= |t| && (forall x :: 0 <= x < e ==> !Break(t[x])) && (e < |t| ==> Break(t[e]))
    ensures LineEnd(t) == e
  {
    if e > 0 {
      LineIs(t[1..], e - 1);
    }
  }

  /** Whether a carriage return at i has no newline after it. The NUL after the script is none. */
  method LoneAt(s: array<char>, i: nat, n: nat) returns (lone: bool)
    requires Script(s, n) && i <= n
    ensures lone == Lone(s[i..n])
  {
    lone := s[i] == '\r' && s[i + 1] != '\n';
  }

  method LongAt(s: array<char>, i: nat, n: nat) returns (e: int)
    requires Script(s, n) && i < n
    ensures e == Long(s[i..n])
  {
    var lv := LuaSep(s, i, n);
    if lv == 0 {
      return 0;
    }
    assert s[i..n][lv + 1..] == s[i + lv + 1..n];
    e := LuaClose(s, i + lv + 1, n, lv - 1);
    if e != NONE {
      e := e - i;
    }
  }

  // ---------------------------------------------------------------- the buffer

  /** From a to b, e characters came from i to j. */
  ghost predicate Down(a: seq<char>, b: seq<char>, j: nat, i: nat, e: nat) {
    && |a| == |b| && j <= i && i + e <= |a|
    && b[..j] == a[..j] && b[j..j + e] == a[i..i + e] && b[j + e..] == a[j + e..]
  }

  /** From a to b, a blank was written if one was due. */
  ghost predicate Spaced(a: seq<char>, b: seq<char>, j: nat, k: nat, pend: bool) {
    |a| == |b| && j <= k <= |a| && b[..j] == a[..j] && b[j..k] == Gap(pend) && b[k..] == a[k..]
  }

  lemma Outside(a: seq<char>, b: seq<char>, j: nat, k: nat)
    requires |a| == |b| && j <= k <= |a| && forall x :: 0 <= x < |a| && !(j <= x < k) ==> b[x] == a[x]
    ensures b[..j] == a[..j] && b[k..] == a[k..]
  {
  }

  lemma DownIs(a: seq<char>, b: seq<char>, j: nat, i: nat, e: nat)
    requires |a| == |b| && j <= i && i + e <= |a|
    requires forall x :: j <= x < j + e ==> b[x] == a[x - j + i]
    requires forall x :: 0 <= x < |a| && !(j <= x < j + e) ==> b[x] == a[x]
    ensures Down(a, b, j, i, e)
  {
    var p, q := b[j..j + e], a[i..i + e];
    forall k | 0 <= k < e ensures p[k] == q[k] {
      assert p[k] == b[j + k];
    }
    Outside(a, b, j, j + e);
  }

  /** Moves e characters from i down to j. */
  method Move(s: array<char>, j: nat, i: nat, e: nat)
    requires j <= i && i + e <= s.Length
    modifies s
    ensures Down(old(s[..]), s[..], j, i, e)
  {
    ghost var a := s[..];
    forall k | 0 <= k < e {
      s[j + k] := s[i + k];
    }
    ghost var b := s[..];
    DownIs(a, b, j, i, e);
  }

  /** Writes n newlines at j. */
  method Fill(s: array<char>, j: nat, n: nat)
    requires j + n <= s.Length
    modifies s
    ensures s[..j] == old(s[..j]) && s[j..j + n] == Lines(n) && s[j + n..] == old(s[j + n..])
  {
    forall k | 0 <= k < n {
      s[j + k] := '\n';
    }
  }

  /** Writes the blank that is due. */
  method PutGap(s: array<char>, j: nat, pend: bool) returns (k: nat)
    requires j + (if pend then 1 else 0) <= s.Length
    modifies s
    ensures k == j + (if pend then 1 else 0) && Spaced(old(s[..]), s[..], j, k, pend)
  {
    k := j;
    if pend {
      s[j] := ' ';
      k := j + 1;
    }
  }

  lemma Prefix(a: seq<char>, b: seq<char>, k: nat, lo: nat, hi: nat)
    requires k <= |a| && k <= |b| && a[..k] == b[..k] && lo <= hi <= k
    ensures a[lo..hi] == b[lo..hi] && a[..hi] == b[..hi]
  {
    assert a[lo..hi] == a[..k][lo..hi] && b[lo..hi] == b[..k][lo..hi];
    assert a[..hi] == a[..k][..hi] && b[..hi] == b[..k][..hi];
  }

  lemma Suffix(a: seq<char>, b: seq<char>, k: nat, lo: nat, hi: nat)
    requires |a| == |b| && k <= lo <= hi <= |a| && a[k..] == b[k..]
    ensures a[lo..] == b[lo..] && a[lo..hi] == b[lo..hi]
  {
    assert a[lo..] == a[k..][lo - k..] && b[lo..] == b[k..][lo - k..];
    assert a[lo..hi] == a[lo..][..hi - lo] && b[lo..hi] == b[lo..][..hi - lo];
  }

  lemma SuffixAt(a: seq<char>, b: seq<char>, k: nat, x: nat)
    requires |a| == |b| && k <= x < |a| && a[k..] == b[k..]
    ensures a[x] == b[x]
  {
    assert a[x] == a[k..][x - k] && b[x] == b[k..][x - k];
  }

  lemma Join(a: seq<char>, lo: nat, mid: nat, hi: nat)
    requires lo <= mid <= hi <= |a|
    ensures a[lo..hi] == a[lo..mid] + a[mid..hi]
  {
  }

  lemma Moved(s: seq<char>, mid: seq<char>, code: nat, k: nat, len: nat, tail: seq<char>)
    requires |s| == |mid| && code <= k <= len < |s| && s[..k] == mid[..k]
    requires s[k..len + 1] == tail && |tail| == len - k + 1
    ensures s[..code] == mid[..code] && s[code..len] == mid[code..k] + tail[..len - k] && s[len] == tail[len - k]
  {
    assert s[..code] == s[..k][..code] && mid[..code] == mid[..k][..code];
    assert s[code..k] == s[..k][code..] && mid[code..k] == mid[..k][code..];
    assert s[k..len] == s[k..len + 1][..len - k];
    assert s[code..len] == s[code..k] + s[k..len];
  }

  /** The newlines from i to e, where there is no carriage return. */
  method CountLines(s: array<char>, i: nat, e: nat) returns (n: nat)
    requires i <= e <= s.Length && '\r' !in s[i..e]
    ensures n == Newlines(s[i..e])
  {
    n := 0;
    var k := i;
    while k < e
      invariant i <= k <= e && Newlines(s[i..e]) == n + Newlines(s[k..e])
    {
      NoReturn(s[i..e], k - i);
      NewlinesNext(s[k..e]);
      assert s[k..e][1..] == s[k + 1..e];
      n := n + if s[k] == '\n' then 1 else 0;
      k := k + 1;
    }
  }

  lemma NoReturn(t: string, k: nat)
    requires '\r' !in t && k < |t|
    ensures t[k] != '\r' && (k + 1 < |t| ==> t[k + 1] != '\r')
  {
  }

  lemma NewlinesNext(t: string)
    requires t != [] && t[0] != '\r' && (|t| > 1 ==> t[1] != '\r')
    ensures Newlines(t) == (if t[0] == '\n' then 1 else 0) + Newlines(t[1..])
  {
  }

  // ---------------------------------------------------------------- how far it has come

  /** The output after a line break that has just been read. */
  function After(crlf: bool, rest: string): string {
    if Lone(rest) then (if crlf then "\r\n" else "\n") + rest else "\n" + Strip(rest, Line, false)
  }

  function PlaceOf(bol: bool, empty: bool): Place {
    if !bol then Mid else if empty then Start else Line
  }

  /** What has been written and what is still to be written make up the whole result. Right after a line break,
      what is written for it may still change. */
  ghost predicate Going(whole: string, out: string, rest: string, at: Place, pend: bool, met: bool, crlf: bool) {
    if met then out != [] && out[|out| - 1] == '\n' && whole == out[..|out| - 1] + After(crlf, rest)
    else whole == out + Strip(rest, at, pend)
  }

  /** The header and the unread text are as they were, and what has been written is behind what has been read:
      by a character where one may have to be put in. */
  ghost predicate Halfway(s: seq<char>, was: seq<char>, code: nat, n: nat, i: nat, j: nat, bol: bool, pend: bool,
                          crlf: bool) {
    && |s| == |was| && code <= j && j + (if pend then 1 else 0) <= i <= n < |s| && was[n] == '\0' && !(pend && bol)
    && s[..code] == was[..code] && s[i..] == was[i..]
    && (bol && j > code ==> s[j - 1] == '\n') && (!bol ==> j > code && s[j - 1] != '\n')
    && (i > code ==> s[i - 1] != '\r')
    && var at := PlaceOf(bol, j == code);
       var met := at == Line && s[i - 1] == '\n';
       && (at == Line && (!met || crlf) ==> j < i)
       && Going(Strip(was[code..n], Start, false), s[code..j], was[i..n], at, pend, met, crlf)
  }

  /** The rest is kept as it is. */
  ghost predicate Bailing(s: seq<char>, was: seq<char>, code: nat, n: nat, i: nat, j: nat, pend: bool) {
    && |s| == |was| && code <= j && j + (if pend then 1 else 0) <= i <= n < |s| && was[n] == '\0'
    && s[..code] == was[..code] && s[i..] == was[i..]
    && Strip(was[code..n], Start, false) == s[code..j] + Gap(pend) + was[i..n]
  }

  /** The unread text, and what is known of the place. */
  lemma HalfwayIs(s: seq<char>, was: seq<char>, code: nat, n: nat, i: nat, j: nat, bol: bool, pend: bool, crlf: bool)
    requires Halfway(s, was, code, n, i, j, bol, pend, crlf)
    ensures |s| == |was| && code <= j && j + (if pend then 1 else 0) <= i <= n < |s| && was[n] == '\0' && !(pend && bol)
    ensures s[..code] == was[..code] && s[i..] == was[i..] && s[i..n] == was[i..n] && s[n] == '\0'
    ensures (bol && j > code ==> s[j - 1] == '\n') && (!bol ==> j > code && s[j - 1] != '\n')
    ensures i > code ==> s[i - 1] != '\r'
    ensures PlaceOf(bol, j == code) == Line ==> bol && j > code && i > code && (s[i - 1] != '\n' || crlf ==> j < i)
    ensures PlaceOf(bol, j == code) == Mid <==> !bol
    ensures var at := PlaceOf(bol, j == code);
            Going(Strip(was[code..n], Start, false), s[code..j], was[i..n], at, pend, at == Line && s[i - 1] == '\n',
                  crlf)
  {
    hide Going, Strip;
    assert s[i..n] == s[i..][..n - i] && was[i..n] == was[i..][..n - i];
    assert s[n] == s[i..][n - i];
  }

  lemma HalfwayFrom(s: seq<char>, was: seq<char>, code: nat, n: nat, i: nat, j: nat, bol: bool, pend: bool, crlf: bool)
    requires |s| == |was| && code <= j && j + (if pend then 1 else 0) <= i <= n < |s|
    requires was[n] == '\0' && !(pend && bol)
    requires s[..code] == was[..code] && s[i..] == was[i..]
    requires (bol && j > code ==> s[j - 1] == '\n') && (!bol ==> j > code && s[j - 1] != '\n')
    requires i > code ==> s[i - 1] != '\r'
    requires PlaceOf(bol, j == code) == Line ==> i > code && (s[i - 1] != '\n' || crlf ==> j < i)
    requires var at := PlaceOf(bol, j == code);
             Going(Strip(was[code..n], Start, false), s[code..j], was[i..n], at, pend, at == Line && s[i - 1] == '\n',
                   crlf)
    ensures Halfway(s, was, code, n, i, j, bol, pend, crlf)
  {
    hide Going, Strip;
  }

  /** Unless a lone carriage return comes, nothing changes for the line break before. */
  lemma GoingPlain(whole: string, out: string, t: string, at: Place, pend: bool, met: bool, crlf: bool)
    requires Going(whole, out, t, at, pend, met, crlf) && !Lone(t) && (met ==> at == Line && !pend)
    ensures whole == out + Strip(t, at, pend)
  {
    hide Strip;
    if met {
      assert out == out[..|out| - 1] + "\n";
      assert out[..|out| - 1] + ("\n" + Strip(t, Line, false)) == out + Strip(t, Line, false);
    }
  }

  /** A line break is read, and a newline written. */
  lemma GoingLine(whole: string, out: string, t: string, at: Place, pend: bool)
    requires whole == out + Strip(t, at, pend) && First(t) == Newline && !Lone(t)
    ensures t != [] && (t[0] == '\r' ==> |t| > 1 && t[1] == '\n')
    ensures var k := if t[0] == '\r' then 2 else 1; Going(whole, out + "\n", t[k..], Line, false, true, t[0] == '\r')
  {
    StripBreak(t, at, pend);
    hide Strip, First;
    var k := if t[0] == '\r' then 2 else 1;
    assert (out + "\n")[..|out|] == out;
    assert t == (if t[0] == '\r' then "\r\n" else "\n") + t[k..];
  }

  /** Something is passed over. */
  lemma GoingOn(whole: string, out: string, t: string, at: Place, pend: bool, e: nat, crlf: bool)
    requires whole == out + Strip(t, at, pend) && e <= |t|
    requires First(t) == Space ==> e == 1
    requires First(t) == Space || (First(t) == LineComment(e) && !Lone(t[e..]))
             || (First(t) == LongComment(e) && '\r' !in t[..e] && Newlines(t[..e]) == 0)
    ensures Going(whole, out, t[e..], at, !First(t).LineComment? && at == Mid, false, crlf)
  {
    StripIs(t, at, pend);
    hide Strip;
  }

  lemma GoingComment(whole: string, out: string, t: string, at: Place, pend: bool, e: nat, crlf: bool)
    requires whole == out + Strip(t, at, pend) && e <= |t| && First(t) == LongComment(e) && '\r' !in t[..e]
    requires Newlines(t[..e]) > 0
    ensures Going(whole, out + Lines(Newlines(t[..e])), t[e..], Line, false, false, crlf)
  {
    StripIs(t, at, pend);
    hide Strip, First;
    var n := Newlines(t[..e]);
    assert out + (Lines(n) + Strip(t[e..], Line, false)) == out + Lines(n) + Strip(t[e..], Line, false);
  }

  lemma GoingPiece(whole: string, out: string, t: string, at: Place, pend: bool, e: nat, crlf: bool)
    requires whole == out + Strip(t, at, pend) && First(t) == Piece(e) && e <= |t|
    ensures Going(whole, out + Gap(pend) + t[..e], t[e..], Mid, false, false, crlf)
  {
    StripIs(t, at, pend);
    hide Strip, First;
    Assoc4(out, Gap(pend), t[..e], Strip(t[e..], Mid, false));
  }

  lemma Assoc4(a: string, b: string, c: string, d: string)
    ensures a + (b + c + d) == a + b + c + d
  {
  }

  /** The stripper gives up. */
  lemma GoingBail(whole: string, out: string, t: string, at: Place, pend: bool)
    requires whole == out + Strip(t, at, pend)
    requires First(t) == Broken || (First(t).LineComment? && Lone(t[First(t).len..]))
             || (First(t).LongComment? && '\r' in t[..First(t).len])
    ensures whole == out + Gap(pend) + t
  {
    StripIs(t, at, pend);
    hide Strip;
    assert out + (Gap(pend) + t) == out + Gap(pend) + t;
  }

  /** It gives up at a lone carriage return. */
  lemma GoingLone(whole: string, out: string, t: string, at: Place, pend: bool, met: bool, crlf: bool)
    requires Going(whole, out, t, at, pend, met, crlf) && Lone(t)
    ensures met ==> out != [] && whole == out[..|out| - 1] + (if crlf then "\r\n" else "\n") + t
    ensures met && !crlf ==> whole == out + t
    ensures !met && at == Line ==> whole == out + " " + t
    ensures !met && at != Line ==> whole == out + Gap(pend) + t
  {
    StripBreak(t, at, pend);
    hide Strip;
    if met {
      var br := if crlf then "\r\n" else "\n";
      Assoc3(out[..|out| - 1], br, t);
      assert out == out[..|out| - 1] + "\n";
    } else {
      Assoc3(out, if at == Line then " " else Gap(pend), t);
    }
  }

  // ---------------------------------------------------------------- steps

  /** Something was written from j to k, before the unread text from e on. */
  lemma Wrote(s: seq<char>, t: seq<char>, was: seq<char>, code: nat, i: nat, j: nat, k: nat, e: nat)
    requires |t| == |s| == |was| && code <= j <= i <= e && j <= k <= e <= |s|
    requires s[..code] == was[..code] && s[i..] == was[i..]
    requires t[..j] == s[..j] && t[e..] == s[e..]
    ensures t[..code] == was[..code] && t[e..] == was[e..] && t[code..k] == s[code..j] + t[j..k]
  {
    Prefix(t, s, j, code, j);
    Prefix(t, s, j, 0, code);
    Suffix(s, was, i, e, |s|);
    Join(t, code, j, k);
  }

  /** Reads a line break of one or two characters, and writes a newline. */
  method StepBreak(s: array<char>, ghost was: seq<char>, n: nat, code: nat, at: nat, j: nat,
                   ghost bol: bool, ghost pend: bool, ghost before: bool)
    returns (i': nat, j': nat, crlf: bool)
    requires Halfway(s[..], was, code, n, at, j, bol, pend, before)
    requires at < n && First(was[at..n]) == Newline && !Lone(was[at..n])
    modifies s
    ensures Halfway(s[..], was, code, n, i', j', true, false, crlf) && at < i'
  {
    hide *;
    ghost var a := s[..];
    HalfwayIs(a, was, code, n, at, j, bol, pend, before);
    BreakAt(a, was, n, at);
    var i := at;
    if s[at] == '\r' {
      i := at + 1;
    }
    crlf := i > code && s[i - 1] == '\r';
    s[j] := '\n';
    i', j' := i + 1, j + 1;
    assert s[..] == a[j := '\n'];
    BreakDone(a, was, n, code, at, j, bol, pend, before, i');
  }

  lemma BreakAt(a: seq<char>, was: seq<char>, n: nat, at: nat)
    requires at < n < |a| == |was| && a[at..n] == was[at..n] && a[n] == '\0'
    requires First(was[at..n]) == Newline && !Lone(was[at..n])
    ensures a[at] == was[at..n][0] && (a[at] == '\r' || a[at] == '\n')
    ensures a[at] == '\r' ==> at + 1 < n && a[at + 1] == was[at..n][1] == '\n'
  {
    var t := was[at..n];
    assert t[0] == a[at..n][0];
    if |t| > 1 {
      assert t[1] == a[at..n][1];
    }
  }

  lemma BreakDone(a: seq<char>, was: seq<char>, n: nat, code: nat, at: nat, j: nat, bol: bool, pend: bool, before: bool,
                  i': nat)
    requires Halfway(a, was, code, n, at, j, bol, pend, before)
    requires at < n && First(was[at..n]) == Newline && !Lone(was[at..n]) && i' == at + if a[at] == '\r' then 2 else 1
    ensures i' <= n && Halfway(a[j := '\n'], was, code, n, i', j + 1, true, false, a[at] == '\r')
  {
    hide *;
    HalfwayIs(a, was, code, n, at, j, bol, pend, before);
    BreakAt(a, was, n, at);
    LinePlace(j + 1 == code);
    var whole, t, place := Strip(was[code..n], Start, false), was[at..n], PlaceOf(bol, j == code);
    GoingPlain(whole, a[code..j], t, place, pend, place == Line && a[at - 1] == '\n', before);
    GoingLine(whole, a[code..j], t, place, pend);
    BreakSlices(a, was, n, code, at, j, i');
    HalfwayFrom(a[j := '\n'], was, code, n, i', j + 1, true, false, a[at] == '\r');
  }

  lemma BreakSlices(a: seq<char>, was: seq<char>, n: nat, code: nat, at: nat, j: nat, i': nat)
    requires |a| == |was| && code <= j <= at < i' <= n <= |a| && a[..code] == was[..code] && a[at..] == was[at..]
    requires i' <= |a| && a[i' - 1] == '\n'
    ensures var c := a[j := '\n'];
            && c[..code] == was[..code] && c[i'..] == was[i'..] && c[code..j + 1] == a[code..j] + "\n"
            && was[at..n][i' - at..] == was[i'..n] && c[i' - 1] == '\n' && c[j] == '\n'
  {
    var c := a[j := '\n'];
    SetAbove(a, j, '\n', j);
    Suffix(c, a, j + 1, i', |a|);
    Wrote(a, c, was, code, at, j, j + 1, i');
    assert c[j..j + 1] == "\n";
    assert was[at..n][i' - at..] == was[i'..n];
  }

  /** A blank or a comment is passed over: nothing is written. */
  lemma Passed(s: seq<char>, was: seq<char>, n: nat, code: nat, i: nat, j: nat, bol: bool, pend: bool, crlf: bool,
               e: nat)
    requires Halfway(s, was, code, n, i, j, bol, pend, crlf) && 0 < e <= n - i
    requires var t := was[i..n];
             || (First(t) == Space && e == 1)
             || (First(t) == LineComment(e) && !Lone(t[e..]))
             || (First(t) == LongComment(e) && '\r' !in t[..e] && Newlines(t[..e]) == 0)
    ensures Halfway(s, was, code, n, i + e, j, bol, !First(was[i..n]).LineComment? && !bol, crlf)
  {
    hide First, Strip, Halfway, Going, Newlines, Lone, Quoted, Long, LineEnd, Lines, Gap;
    HalfwayIs(s, was, code, n, i, j, bol, pend, crlf);
    var whole, t, place := Strip(was[code..n], Start, false), was[i..n], PlaceOf(bol, j == code);
    HeadEnds(t);
    SpaceEnds(t);
    NotBreak(t);
    GoingPlain(whole, s[code..j], t, place, pend, place == Line && s[i - 1] == '\n', crlf);
    GoingOn(whole, s[code..j], t, place, pend, e, crlf);
    assert t[e..] == was[i + e..n] && t[e - 1] == s[i + e - 1];
    Suffix(s, was, i, i + e, |s|);
    HalfwayFrom(s, was, code, n, i + e, j, bol, !First(t).LineComment? && !bol, crlf);
  }

  lemma SpaceEnds(t: string)
    ensures First(t) == Space ==> t != [] && Blank(t[0]) && !Break(t[0])
  {
  }

  /** A comment over several lines: only their ends are written. */
  method StepComment(s: array<char>, ghost was: seq<char>, n: nat, code: nat, i: nat, j: nat, ghost bol: bool,
                     ghost pend: bool, ghost crlf: bool, e: nat, nl: nat)
    returns (j': nat)
    requires Halfway(s[..], was, code, n, i, j, bol, pend, crlf) && 0 < e <= n - i && First(was[i..n]) == LongComment(e)
    requires '\r' !in was[i..n][..e] && nl == Newlines(was[i..n][..e]) > 0
    modifies s
    ensures Halfway(s[..], was, code, n, i + e, j', true, false, crlf)
  {
    hide *;
    ghost var a := s[..];
    HalfwayIs(a, was, code, n, i, j, bol, pend, crlf);
    HeadEnds(was[i..n]);
    NewlinesInside(was[i..n], e);
    Fill(s, j, nl);
    j' := j + nl;
    CommentDone(a, s[..], was, n, code, i, j, bol, pend, crlf, e, nl);
  }

  lemma LinesLast(n: nat)
    requires n > 0
    ensures Lines(n)[n - 1] == '\n'
  {
  }

  lemma LongEndsPlain(t: string)
    requires First(t).LongComment?
    ensures t[First(t).len - 1] != '\n' && t[First(t).len - 1] != '\r'
  {
    HeadEnds(t);
    hide First;
  }

  lemma Tails(was: seq<char>, i: nat, n: nat, e: nat)
    requires 0 < e && i + e <= n <= |was|
    ensures was[i..n][e..] == was[i + e..n] && was[i..n][e - 1] == was[i + e - 1]
  {
  }

  lemma LinePlace(empty: bool)
    ensures !empty ==> PlaceOf(true, empty) == Line
  {
  }

  lemma LastOf(c: seq<char>, j: nat, n: nat)
    requires 0 < n && j + n <= |c|
    ensures c[j..j + n][n - 1] == c[j + n - 1]
  {
  }

  lemma CommentSlices(a: seq<char>, c: seq<char>, was: seq<char>, n: nat, code: nat, i: nat, j: nat, e: nat, nl: nat)
    requires |c| == |a| == |was| && code <= j <= i && 0 < e && i + e <= n <= |a| && 0 < nl && j + nl < i + e
    requires a[..code] == was[..code] && a[i..] == was[i..]
    requires c[..j] == a[..j] && c[j + nl..] == a[j + nl..]
    ensures c[..code] == was[..code] && c[i + e..] == was[i + e..] && c[code..j + nl] == a[code..j] + c[j..j + nl]
    ensures was[i..n][e..] == was[i + e..n] && c[i + e - 1] == was[i..n][e - 1] && c[j..j + nl][nl - 1] == c[j + nl - 1]
  {
    SuffixAt(c, a, j + nl, i + e - 1);
    Suffix(c, a, j + nl, i + e, |a|);
    SuffixAt(a, was, i, i + e - 1);
    Wrote(a, c, was, code, i, j, j + nl, i + e);
    Tails(was, i, n, e);
    LastOf(c, j, nl);
  }

  lemma CommentDone(a: seq<char>, c: seq<char>, was: seq<char>, n: nat, code: nat, i: nat, j: nat, bol: bool,
                    pend: bool, crlf: bool, e: nat, nl: nat)
    requires Halfway(a, was, code, n, i, j, bol, pend, crlf) && 0 < e <= n - i && First(was[i..n]) == LongComment(e)
    requires '\r' !in was[i..n][..e] && nl == Newlines(was[i..n][..e]) > 0 && j + nl < i + e && |c| == |a|
    requires c[..j] == a[..j] && c[j..j + nl] == Lines(nl) && c[j + nl..] == a[j + nl..]
    ensures Halfway(c, was, code, n, i + e, j + nl, true, false, crlf)
  {
    hide *;
    LinesLast(nl);
    LinePlace(j + nl == code);
    HalfwayIs(a, was, code, n, i, j, bol, pend, crlf);
    var whole, t, place := Strip(was[code..n], Start, false), was[i..n], PlaceOf(bol, j == code);
    LongEndsPlain(t);
    NotBreak(t);
    GoingPlain(whole, a[code..j], t, place, pend, place == Line && a[i - 1] == '\n', crlf);
    GoingComment(whole, a[code..j], t, place, pend, e, crlf);
    CommentSlices(a, c, was, n, code, i, j, e, nl);
    HalfwayFrom(c, was, code, n, i + e, j + nl, true, false, crlf);
  }

  /** A piece is written, after the blank that is due. */
  method StepPiece(s: array<char>, ghost was: seq<char>, n: nat, code: nat, i: nat, j: nat, ghost bol: bool, pend: bool,
                   ghost crlf: bool, e: nat)
    returns (j': nat)
    requires Halfway(s[..], was, code, n, i, j, bol, pend, crlf) && 0 < e <= n - i && First(was[i..n]) == Piece(e)
    modifies s
    ensures Halfway(s[..], was, code, n, i + e, j', false, false, crlf)
  {
    hide *;
    ghost var a := s[..];
    HalfwayIs(a, was, code, n, i, j, bol, pend, crlf);
    var k := PutGap(s, j, pend);
    ghost var b := s[..];
    Move(s, k, i, e);
    j' := k + e;
    PieceWritten(a, b, s[..], was, code, n, i, j, pend, k, e);
    PieceDone(a, s[..], was, n, code, i, j, bol, pend, crlf, k, e);
  }

  lemma PieceDone(a: seq<char>, c: seq<char>, was: seq<char>, n: nat, code: nat, i: nat, j: nat, bol: bool, pend: bool,
                  crlf: bool, k: nat, e: nat)
    requires Halfway(a, was, code, n, i, j, bol, pend, crlf) && 0 < e <= n - i && First(was[i..n]) == Piece(e)
    requires |c| == |a| && code <= k <= i && c[..code] == was[..code] && c[i + e..] == was[i + e..]
    requires c[code..k + e] == a[code..j] + Gap(pend) + was[i..n][..e]
    requires c[k + e - 1] == was[i..n][e - 1] == c[i + e - 1]
    ensures Halfway(c, was, code, n, i + e, k + e, false, false, crlf)
  {
    hide First, Strip, Halfway, Going, Newlines, Lone, Gap;
    HalfwayIs(a, was, code, n, i, j, bol, pend, crlf);
    var whole, t, place := Strip(was[code..n], Start, false), was[i..n], PlaceOf(bol, j == code);
    HeadEnds(t);
    NotBreak(t);
    GoingPlain(whole, a[code..j], t, place, pend, place == Line && a[i - 1] == '\n', crlf);
    GoingPiece(whole, a[code..j], t, place, pend, e, crlf);
    assert t[e..] == was[i + e..n];
    HalfwayFrom(c, was, code, n, i + e, k + e, false, false, crlf);
  }

  /** A blank, if one is due, and then a piece were written at j. */
  lemma PieceWritten(a: seq<char>, b: seq<char>, c: seq<char>, was: seq<char>, code: nat, n: nat, i: nat, j: nat,
                     pend: bool, k: nat, e: nat)
    requires |a| == |b| == |c| == |was| && code <= j <= k <= i && 0 < e && i + e <= n <= |a|
    requires a[..code] == was[..code] && a[i..] == was[i..]
    requires Spaced(a, b, j, k, pend) && Down(b, c, k, i, e)
    ensures c[..code] == was[..code] && c[i + e..] == was[i + e..]
    ensures c[code..k + e] == a[code..j] + Gap(pend) + was[i..n][..e]
    ensures c[k + e - 1] == was[i..n][e - 1] == c[i + e - 1]
  {
    hide Gap;
    Prefix(c, b, k, j, k);
    Prefix(c, b, k, 0, j);
    Suffix(b, a, k, i + e, |a|);
    Suffix(b, a, k, i, i + e);
    Suffix(a, was, i, i, i + e);
    Suffix(c, b, k + e, i + e, |a|);
    Join(c, j, k, k + e);
    Wrote(a, c, was, code, i, j, k + e, i + e);
    assert was[i..n][..e] == was[i..i + e];
    Assoc3(a[code..j], Gap(pend), was[i..i + e]);
    LastMoved(b, c, k, i, e);
  }

  lemma LastMoved(b: seq<char>, c: seq<char>, k: nat, i: nat, e: nat)
    requires |b| == |c| && k <= i && 0 < e && i + e <= |b| && c[k..k + e] == b[i..i + e] && c[k + e..] == b[k + e..]
    ensures c[k + e - 1] == b[i + e - 1] == c[i + e - 1]
  {
    assert c[k + e - 1] == c[k..k + e][e - 1] && b[i + e - 1] == b[i..i + e][e - 1];
    if k < i {
      assert c[i + e - 1] == c[k + e..][i - k - 1] && b[i + e - 1] == b[k + e..][i - k - 1];
    }
  }

  lemma Assoc3(a: string, b: string, c: string)
    ensures a + (b + c) == a + b + c
  {
  }

  /** A lone carriage return: what is written must not end in a newline that it would belong to, unless it did. */
  method StepLone(s: array<char>, ghost was: seq<char>, n: nat, code: nat, i: nat, j: nat, ghost bol: bool, pend: bool,
                  crlf: bool)
    returns (j': nat)
    requires Halfway(s[..], was, code, n, i, j, bol, pend, crlf) && i < n && Lone(was[i..n])
    modifies s
    ensures Bailing(s[..], was, code, n, i, j', pend)
  {
    hide *;
    ghost var a := s[..];
    HalfwayIs(a, was, code, n, i, j, bol, pend, crlf);
    j' := j;
    if j > code && s[j - 1] == '\n' {
      if s[i - 1] != '\n' {
        LoneBlank(a, was, n, code, i, j, bol, pend, crlf);
        s[j] := ' ';
        j' := j + 1;
        assert s[..] == a[j := ' '];
        return;
      } else if crlf {
        LonePair(a, was, n, code, i, j, bol, pend, crlf);
        s[j - 1], s[j] := '\r', '\n';
        j' := j + 1;
        assert s[..] == a[j - 1 := '\r'][j := '\n'];
        return;
      }
    }
    LoneAsIs(a, was, n, code, i, j, bol, pend, crlf);
  }

  /** A blank keeps it from the newline before. */
  lemma LoneBlank(a: seq<char>, was: seq<char>, n: nat, code: nat, i: nat, j: nat, bol: bool, pend: bool, crlf: bool)
    requires Halfway(a, was, code, n, i, j, bol, pend, crlf) && i < n && Lone(was[i..n])
    requires j > code && a[j - 1] == '\n' != a[i - 1]
    ensures j < i && Bailing(a[j := ' '], was, code, n, i, j + 1, pend)
  {
    hide First, Strip, Halfway, Going, Lone, Gap;
    HalfwayIs(a, was, code, n, i, j, bol, pend, crlf);
    var whole, t, c := Strip(was[code..n], Start, false), was[i..n], a[j := ' '];
    GoingLone(whole, a[code..j], t, PlaceOf(bol, j == code), pend, false, crlf);
    SetAbove(a, j, ' ', j);
    Wrote(a, c, was, code, i, j, j + 1, i);
    assert c[j..j + 1] == " ";
    Blankless(c[code..j + 1], t);
  }

  /** It came right after a carriage return and a newline, which are both written. */
  lemma LonePair(a: seq<char>, was: seq<char>, n: nat, code: nat, i: nat, j: nat, bol: bool, pend: bool, crlf: bool)
    requires Halfway(a, was, code, n, i, j, bol, pend, crlf) && i < n && Lone(was[i..n])
    requires j > code && a[j - 1] == '\n' == a[i - 1] && crlf
    ensures j < i && Bailing(a[j - 1 := '\r'][j := '\n'], was, code, n, i, j + 1, pend)
  {
    hide First, Strip, Halfway, Going, Lone, Gap;
    HalfwayIs(a, was, code, n, i, j, bol, pend, crlf);
    var whole, t, b := Strip(was[code..n], Start, false), was[i..n], a[j - 1 := '\r'];
    var c := b[j := '\n'];
    GoingLone(whole, a[code..j], t, PlaceOf(bol, j == code), pend, true, crlf);
    SetAbove(a, j - 1, '\r', j - 1);
    SetAbove(b, j, '\n', j - 1);
    Wrote(a, c, was, code, i, j - 1, j + 1, i);
    assert c[j - 1..j + 1] == "\r\n" && a[code..j - 1] == a[code..j][..j - 1 - code];
    Blankless(c[code..j + 1], t);
  }

  /** Nothing needs to be written. */
  lemma LoneAsIs(a: seq<char>, was: seq<char>, n: nat, code: nat, i: nat, j: nat, bol: bool, pend: bool, crlf: bool)
    requires Halfway(a, was, code, n, i, j, bol, pend, crlf) && i < n && Lone(was[i..n])
    requires j > code && a[j - 1] == '\n' ==> a[i - 1] == '\n' && !crlf
    ensures Bailing(a, was, code, n, i, j, pend)
  {
    hide First, Strip, Halfway, Going, Lone, Gap;
    HalfwayIs(a, was, code, n, i, j, bol, pend, crlf);
    var whole, t, place := Strip(was[code..n], Start, false), was[i..n], PlaceOf(bol, j == code);
    GoingLone(whole, a[code..j], t, place, pend, place == Line && a[i - 1] == '\n', crlf);
    Blankless(a[code..j], t);
  }

  lemma SetAbove(a: seq<char>, x: nat, c: char, k: nat)
    requires k <= x < |a|
    ensures a[x := c][..k] == a[..k] && a[x := c][x + 1..] == a[x + 1..]
  {
  }

  lemma Blankless(out: string, t: string)
    ensures out + Gap(false) + t == out + t
  {
  }

  /** Deals with what the unread text starts with. */
  method Step(s: array<char>, ghost was: seq<char>, n: nat, code: nat, i: nat, j: nat, bol: bool, pend: bool,
              crlf: bool)
    returns (i': nat, j': nat, bol': bool, pend': bool, crlf': bool, stop: bool)
    requires Halfway(s[..], was, code, n, i, j, bol, pend, crlf) && i < n
    modifies s
    ensures if stop then Bailing(s[..], was, code, n, i', j', pend')
            else Halfway(s[..], was, code, n, i', j', bol', pend', crlf') && i < i'
  {
    hide First, Strip, Going, Halfway, Bailing, Newlines, Lone;
    HalfwayIs(s[..], was, code, n, i, j, bol, pend, crlf);
    i', j', bol', pend', crlf', stop := i, j, bol, pend, crlf, false;
    ghost var t := was[i..n];
    var h := Look(s, i, n);
    FirstFits(t);
    match h {
      case End =>
      case Newline =>
        var lone := LoneAt(s, i, n);
        if lone {
          j' := StepLone(s, was, n, code, i, j, bol, pend, crlf);
          stop := true;
        } else {
          i', j', crlf' := StepBreak(s, was, n, code, i, j, bol, pend, crlf);
          bol', pend' := true, false;
        }
      case Space =>
        Passed(s[..], was, n, code, i, j, bol, pend, crlf, 1);
        i', pend' := i + 1, !bol;
      case LineComment(e) =>
        var lone := LoneAt(s, i + e, n);
        assert t[e..] == s[i + e..n];
        if lone {
          stop := true;
          GiveUp(s[..], was, n, code, i, j, bol, pend, crlf);
        } else {
          Passed(s[..], was, n, code, i, j, bol, pend, crlf, e);
          i', pend' := i + e, false;
        }
      case LongComment(e) =>
        i', j', bol', pend', stop := StepLong(s, was, n, code, i, j, bol, pend, crlf, e);
      case Piece(e) =>
        j' := StepPiece(s, was, n, code, i, j, bol, pend, crlf, e);
        i', bol', pend' := i + e, false, false;
      case Broken =>
        stop := true;
        GiveUp(s[..], was, n, code, i, j, bol, pend, crlf);
    }
  }

  method StepLong(s: array<char>, ghost was: seq<char>, n: nat, code: nat, i: nat, j: nat, bol: bool, pend: bool,
                  ghost crlf: bool, e: nat)
    returns (i': nat, j': nat, bol': bool, pend': bool, stop: bool)
    requires Halfway(s[..], was, code, n, i, j, bol, pend, crlf) && 0 < e <= n - i && First(was[i..n]) == LongComment(e)
    modifies s
    ensures if stop then Bailing(s[..], was, code, n, i', j', pend')
            else Halfway(s[..], was, code, n, i', j', bol', pend', crlf) && i < i'
  {
    hide First, Strip, Going, Halfway, Bailing, Newlines, Lone;
    HalfwayIs(s[..], was, code, n, i, j, bol, pend, crlf);
    ghost var t := was[i..n];
    i', j', bol', pend', stop := i, j, bol, pend, false;
    assert s[i..i + e] == s[i..n][..e] == t[..e];
    if '\r' in s[i..i + e] {
      stop := true;
      GiveUp(s[..], was, n, code, i, j, bol, pend, crlf);
      return;
    }
    var nl := CountLines(s, i, i + e);
    i' := i + e;
    if nl > 0 {
      j' := StepComment(s, was, n, code, i, j, bol, pend, crlf, e, nl);
      bol', pend' := true, false;
    } else {
      Passed(s[..], was, n, code, i, j, bol, pend, crlf, e);
      pend' := !bol;
    }
  }

  lemma GiveUp(s: seq<char>, was: seq<char>, n: nat, code: nat, i: nat, j: nat, bol: bool, pend: bool, crlf: bool)
    requires Halfway(s, was, code, n, i, j, bol, pend, crlf) && i < n
    requires var t := was[i..n];
             First(t) == Broken || (First(t).LineComment? && Lone(t[First(t).len..]))
             || (First(t).LongComment? && '\r' in t[..First(t).len])
    ensures Bailing(s, was, code, n, i, j, pend)
  {
    hide First, Strip, Halfway, Going, Newlines, Lone, Quoted, Long, LineEnd, Lines, Gap;
    HalfwayIs(s, was, code, n, i, j, bol, pend, crlf);
    var whole, t, place := Strip(was[code..n], Start, false), was[i..n], PlaceOf(bol, j == code);
    NotBreak(t);
    GoingPlain(whole, s[code..j], t, place, pend, place == Line && s[i - 1] == '\n', crlf);
    GoingBail(whole, s[code..j], t, place, pend);
  }

  /** The script is done. */
  ghost predicate Done(s: seq<char>, was: seq<char>, code: nat, n: nat, len: nat) {
    && |s| == |was| && code <= len <= n < |s| && s[len] == '\0' && s[..code] == was[..code]
    && s[code..len] == Strip(was[code..n], Start, false)
  }

  /** Keeps the rest as it is. */
  method Bail(s: array<char>, ghost was: seq<char>, n: nat, code: nat, i: nat, j: nat, pend: bool) returns (len: nat)
    requires Bailing(s[..], was, code, n, i, j, pend)
    modifies s
    ensures Done(s[..], was, code, n, len)
  {
    hide *;
    ghost var a := s[..];
    BailingIs(a, was, code, n, i, j, pend);
    var k := PutGap(s, j, pend);
    ghost var b := s[..];
    Move(s, k, i, n - i + 1);
    len := k + n - i;
    BailDone(a, b, s[..], was, n, code, i, j, pend, k);
  }

  lemma BailingIs(s: seq<char>, was: seq<char>, code: nat, n: nat, i: nat, j: nat, pend: bool)
    requires Bailing(s, was, code, n, i, j, pend)
    ensures |s| == |was| && code <= j && j + (if pend then 1 else 0) <= i <= n < |s|
  {
  }

  lemma BailDone(a: seq<char>, b: seq<char>, c: seq<char>, was: seq<char>, n: nat, code: nat, i: nat, j: nat,
                 pend: bool, k: nat)
    requires Bailing(a, was, code, n, i, j, pend) && |b| == |c| == |a| && j <= k <= i
    requires Spaced(a, b, j, k, pend) && Down(b, c, k, i, n - i + 1)
    ensures Done(c, was, code, n, k + n - i)
  {
    hide Strip, Gap;
    Suffix(b, a, k, i, |a|);
    Wrote(a, b, was, code, i, j, k, i);
    Suffix(b, was, i, i, n + 1);
    var tail := was[i..n + 1];
    Moved(c, b, code, k, k + n - i, tail);
    assert tail[..n - i] == was[i..n] && tail[n - i] == was[n];
  }

  /** Strips the script from `code` to n. What comes before is left alone, and nothing is written past
      what has been read. */
  method StripInPlace(s: array<char>, n: nat, code: nat) returns (len: nat)
    requires Script(s, n) && code <= n
    modifies s
    ensures code <= len <= n && s[len] == '\0' && s[..code] == old(s[..code])
    ensures s[code..len] == Strip(old(s[code..n]), Start, false)
  {
    var i, j, bol, pend, crlf := code, code, true, false, false;
    ghost var was := s[..];
    Starts(was, code, n);
    hide Halfway, Bailing, Strip, Done;
    while i < n
      invariant Halfway(s[..], was, code, n, i, j, bol, pend, crlf) && i <= n && s.Length == |was| && n < |was|
      decreases n - i
    {
      var stop;
      i, j, bol, pend, crlf, stop := Step(s, was, n, code, i, j, bol, pend, crlf);
      if stop {
        len := Bail(s, was, n, code, i, j, pend);
        DoneIs(s[..], was, code, n, len);
        return;
      }
      HalfwayIs(s[..], was, code, n, i, j, bol, pend, crlf);
    }
    HalfwayIs(s[..], was, code, n, i, j, bol, pend, crlf);
    Ends(s[..], was, code, n, j, bol, pend, crlf);
    s[j] := '\0';
    len := j;
  }

  lemma DoneIs(s: seq<char>, was: seq<char>, code: nat, n: nat, len: nat)
    requires Done(s, was, code, n, len)
    ensures |s| == |was| && code <= len <= n < |s| && s[len] == '\0' && s[..code] == was[..code]
    ensures s[code..len] == Strip(was[code..n], Start, false)
  {
  }

  lemma Starts(was: seq<char>, code: nat, n: nat)
    requires code <= n < |was| && was[n] == '\0'
    ensures Halfway(was, was, code, n, code, code, true, false, false)
  {
    hide Strip;
    assert [] + Strip(was[code..n], Start, false) == Strip(was[code..n], Start, false);
  }

  lemma Ends(s: seq<char>, was: seq<char>, code: nat, n: nat, j: nat, bol: bool, pend: bool, crlf: bool)
    requires Halfway(s, was, code, n, n, j, bol, pend, crlf)
    ensures s[code..j] == Strip(was[code..n], Start, false)
  {
    HalfwayIs(s, was, code, n, n, j, bol, pend, crlf);
    var place := PlaceOf(bol, j == code);
    GoingPlain(Strip(was[code..n], Start, false), s[code..j], was[n..n], place, pend, place == Line && s[n - 1] == '\n',
               crlf);
    StripIs("", place, pend);
    hide Strip, Halfway, Going;
    assert was[n..n] == [];
  }

  /** Strips a script. Stripping it again would change nothing. To the lexer it is the same script, on the same
      lines, unless the trap is in it: then a line is lost, and the tokens differ exactly if one follows. */
  method StripScript(s: array<char>, n: nat, code: nat) returns (len: nat)
    requires Script(s, n) && code <= n
    modifies s
    ensures code <= len <= n && s[len] == '\0' && s[..code] == old(s[..code])
    ensures Lex(s[code..len], 1, true) == Lex(old(s[code..n]), 1, true) <==> !Shifts(old(s[code..n]), Start, false)
    ensures Newlines(s[code..len]) == Newlines(old(s[code..n])) <==> !Trap(old(s[code..n]), Start, false)
    ensures Strip(s[code..len], Start, false) == s[code..len]
  {
    ghost var t := s[code..n];
    len := StripInPlace(s, n, code);
    SameTokens(t, 1, Start, false, false);
    SameLines(t, Start, false, false);
    Idempotent(t, Start, false);
    hide Strip, Trap, Shifts, Lex, Newlines;
  }
}
