/** Stripping blanks and comments from a Lua script: what the script means to the language's lexer, down to
    the line of every token, stays the same, but for one arrangement of carriage returns. */
module LuaStrip {

  predicate Blank(c: char) {
    c == ' ' || c == '\t' || c == '\U{b}' || c == '\U{c}'
  }

  predicate Break(c: char) {
    c == '\n' || c == '\r'
  }

  /** Two characters that end one line. */
  predicate Pair(c: char, d: char) {
    Break(c) && Break(d) && c != d
  }

  /** The line break at the start of t. */
  function Width(t: string): (w: nat)
    requires t != [] && Break(t[0])
    ensures 1 <= w <= 2 && w <= |t|
  {
    if |t| > 1 && Pair(t[0], t[1]) then 2 else 1
  }

  /** How many lines a text ends. */
  function Newlines(t: string): nat {
    if t == [] then 0
    else if Break(t[0]) then 1 + Newlines(t[Width(t)..])
    else Newlines(t[1..])
  }

  /** The same, where the text before t ends in a newline that a carriage return would belong to. */
  function NewlinesOn(t: string, open: bool): nat {
    Newlines(if open && t != [] && t[0] == '\r' then t[1..] else t)
  }

  /** Texts add up, unless the break between them may be one. */
  lemma {:induction false} NewlinesAdd(a: string, b: string)
    requires a != [] ==> !Break(a[|a| - 1])
    ensures Newlines(a + b) == Newlines(a) + Newlines(b)
    decreases |a|
  {
    if a == [] {
      assert a + b == b;
    } else {
      var k := if Break(a[0]) then Width(a) else 1;
      assert Break(a[0]) ==> |a| > 1;
      assert (a + b)[k..] == a[k..] + b;
      NewlinesAdd(a[k..], b);
    }
  }

  lemma NewlinesLine(t: string)
    ensures Newlines("\n" + t) == 1 + NewlinesOn(t, true)
  {
    var u := "\n" + t;
    assert u[1..] == t;
    if t != [] && t[0] == '\r' {
      assert u[2..] == t[1..];
    }
  }

  // ---------------------------------------------------------------- brackets and strings

  /** The run of equals signs at the start of t. */
  function Equals(t: string): (k: nat)
    ensures k <= |t| && (forall x :: 0 <= x < k ==> t[x] == '=') && (k < |t| ==> t[k] != '=')
  {
    if t == [] || t[0] != '=' then 0 else 1 + Equals(t[1..])
  }


  /** One more than the level at which t opens a long bracket, or 0 if it opens none. */
  function Sep(t: string): (lv: nat)
    requires t != []
    ensures lv < |t|
  {
    var k := 1 + Equals(t[1..]);
    if k < |t| && t[k] == '[' then k else 0
  }

  /** Past the first long bracket of level lv that closes in t, or -1. */
  function Close(t: string, lv: nat): (e: int)
    ensures e == -1 || lv + 2 <= e <= |t|
  {
    if t == [] then -1
    else if t[0] == ']' && Closes(t, lv) then lv + 2
    else
      var e := Close(t[1..], lv);
      if e == -1 then -1 else e + 1
  }

  predicate Closes(t: string, lv: nat)
    requires t != []
  {
    Equals(t[1..]) == lv && 1 + lv < |t| && t[1 + lv] == ']'
  }

  lemma {:induction false} CloseEnds(t: string, lv: nat)
    requires Close(t, lv) != -1
    ensures t[Close(t, lv) - 1] == ']'
    decreases |t|
  {
    if !(t[0] == ']' && Closes(t, lv)) {
      CloseEnds(t[1..], lv);
    }
  }

  lemma {:induction false} CloseLocal(t: string, lv: nat, u: string)
    requires Close(t, lv) != -1
    ensures Close(t[..Close(t, lv)] + u, lv) == Close(t, lv)
    decreases |t|
  {
    var e := Close(t, lv);
    var v := t[..e] + u;
    assert v[1..] == t[1..][..e - 1] + u;
    if t[0] == ']' && Closes(t, lv) {
      EqualsLocal(t[1..], e - 1, u);
    } else {
      CloseLocal(t[1..], lv, u);
      CloseEnds(t[1..], lv);
      EqualsCut(t[1..], e - 1, u);
    }
  }

  /** A run that ends before e is seen the same way when the text after e changes. */
  lemma {:induction false} EqualsLocal(t: string, e: nat, u: string)
    requires Equals(t) < e <= |t|
    ensures Equals(t[..e] + u) == Equals(t)
    decreases |t|
  {
    if t[0] == '=' {
      EqualsLocal(t[1..], e - 1, u);
      assert (t[..e] + u)[1..] == t[1..][..e - 1] + u;
    }
  }

  /** A closing bracket of another kind stays one: a bracket of level lv ends at e, later than this. */
  lemma EqualsCut(t: string, e: nat, u: string)
    requires e <= |t| && e >= 1 && t[e - 1] == ']'
    ensures Equals(t[..e] + u) == Equals(t)
  {
    EqualsBound(t, e - 1);
    EqualsLocal(t, e, u);
  }

  lemma EqualsBound(t: string, k: nat)
    requires k < |t| && t[k] != '='
    ensures Equals(t) <= k
  {
  }

  /** How many characters of a string the next one takes: an escape takes two, that of a line break of two
      characters takes both, and \z takes what space follows. */
  function Skip(t: string): (k: nat)
    requires t != []
    ensures k > 0
  {
    if t[0] != '\\' then 1
    else if |t| > 1 && t[1] == 'z' then 2 + Spaces(t[2..])
    else if |t| > 2 && Pair(t[1], t[2]) then 3
    else 2
  }

  /** The length of the quoted string at the start of t after its opening quote q, or -1. */
  function Quoted(t: string, q: char): (e: int)
    ensures e == -1 || 1 <= e <= |t|
    decreases |t|
  {
    if t == [] then -1
    else if t[0] == q then 1
    else if Break(t[0]) || Skip(t) > |t| then -1
    else Plus(Skip(t), Quoted(t[Skip(t)..], q))
  }

  function Plus(k: nat, e: int): int {
    if e == -1 then -1 else k + e
  }

  /** The run of white space at the start of t. */
  function Spaces(t: string): (k: nat)
    ensures k <= |t|
  {
    if t != [] && (Blank(t[0]) || Break(t[0])) then 1 + Spaces(t[1..]) else 0
  }

  lemma QuotedIs(t: string, q: char)
    ensures t == [] ==> Quoted(t, q) == -1
    ensures t != [] && t[0] == q ==> Quoted(t, q) == 1
    ensures t != [] && t[0] != q && Break(t[0]) ==> Quoted(t, q) == -1
    ensures t != [] && t[0] != q && !Break(t[0]) && t[0] != '\\' ==> Quoted(t, q) == Plus(1, Quoted(t[1..], q))
    ensures |t| == 1 && t[0] != q && t[0] == '\\' ==> Quoted(t, q) == -1
    ensures |t| > 1 && t[0] != q && t[0] == '\\' && t[1] != 'z' ==>
              var k := if |t| > 2 && Pair(t[1], t[2]) then 3 else 2;
              Quoted(t, q) == Plus(k, Quoted(t[k..], q))
    ensures |t| > 1 && t[0] != q && t[0] == '\\' && t[1] == 'z' ==>
              Spaces(t[2..]) + 2 <= |t| && Quoted(t, q) == Plus(2 + Spaces(t[2..]), Quoted(t[2 + Spaces(t[2..])..], q))
  {
  }

  lemma {:induction false} QuotedLocal(t: string, q: char, u: string)
    requires Quoted(t, q) != -1 && !Blank(q) && !Break(q)
    ensures Quoted(t[..Quoted(t, q)] + u, q) == Quoted(t, q)
    decreases |t|
  {
    var e := Quoted(t, q);
    if t[0] != q {
      var k := Skip(t);
      QuotedLocal(t[k..], q, u);
      Cut(t, k, e, u);
      SkipLocal(t, e, u);
      hide Skip, Spaces;
    }
  }

  lemma SkipLocal(t: string, e: nat, u: string)
    requires t != [] && Skip(t) < e <= |t|
    ensures t[..e] + u != [] && Skip(t[..e] + u) == Skip(t)
  {
    if t[0] == '\\' && t[1] == 'z' {
      SpacesLocal(t[2..], e - 2, u);
      Cut(t, 2, e, u);
    }
    hide Spaces;
  }

  lemma Cut(t: string, k: nat, e: nat, u: string)
    requires k <= e <= |t|
    ensures (t[..e] + u)[k..] == t[k..][..e - k] + u
  {
  }

  lemma {:induction false} SpacesLocal(t: string, e: nat, u: string)
    requires Spaces(t) < e <= |t|
    ensures Spaces(t[..e] + u) == Spaces(t)
    decreases |t|
  {
    if Blank(t[0]) || Break(t[0]) {
      SpacesLocal(t[1..], e - 1, u);
      assert (t[..e] + u)[1..] == t[1..][..e - 1] + u;
    }
  }

  // ---------------------------------------------------------------- tokens

  /** What the text starts with. */
  datatype Head = End | Newline | Space | LineComment(len: nat) | LongComment(len: nat) | Piece(len: nat) | Broken

  /** A comment up to the end of its line. */
  function LineEnd(t: string): (e: nat)
    ensures e <= |t| && (e < |t| ==> Break(t[e])) && forall x :: 0 <= x < e ==> !Break(t[x])
  {
    if t == [] || Break(t[0]) then 0 else 1 + LineEnd(t[1..])
  }

  /** A long bracket that opens at the start of t: its length, 0 if there is none, -1 if it never closes. */
  function Long(t: string): (e: int)
    requires t != []
    ensures -1 <= e <= |t|
  {
    var lv := Sep(t);
    if lv == 0 then 0
    else
      var e := Close(t[lv + 1..], lv - 1);
      if e == -1 then -1 else lv + 1 + e
  }

  /** The first thing in t, as section 3.1 of the Lua 5.4 Reference Manual divides a text. A piece is a
      string, or one character of anything else that is not space. */
  function First(t: string): (h: Head)
    ensures h.LineComment? || h.LongComment? || h.Piece? ==> 0 < h.len <= |t|
    ensures h.End? <==> t == []
    ensures h.Newline? <==> t != [] && Break(t[0])
  {
    if t == [] then End
    else if Break(t[0]) then Newline
    else if Blank(t[0]) then Space
    else if t[0] == '-' && |t| > 1 && t[1] == '-' then
      if |t| > 2 && t[2] == '[' && Long(t[2..]) != 0 then
        (if Long(t[2..]) == -1 then Broken else LongComment(2 + Long(t[2..])))
      else LineComment(LineEnd(t))
    else if t[0] == '\'' || t[0] == '"' then
      var e := Quoted(t[1..], t[0]);
      if e == -1 then Broken else Piece(1 + e)
    else if t[0] == '[' && Long(t) != 0 then
      (if Long(t) == -1 then Broken else Piece(Long(t)))
    else Piece(1)
  }

  /** A piece of the script, its line, and whether anything separates it from the piece before it. */
  datatype Token = Token(text: string, line: nat, apart: bool)

  /** What the lexer sees. From a string or bracket that never ends on, the text is one token. */
  ghost function Lex(t: string, line: nat, apart: bool): seq<Token>
    decreases |t|
  {
    match First(t)
    case End => []
    case Newline => Lex(t[Width(t)..], line + 1, true)
    case Space => Lex(t[1..], line, true)
    case LineComment(e) => Lex(t[e..], line, true)
    case LongComment(e) => Lex(t[e..], line + Newlines(t[..e]), true)
    case Piece(e) => [Token(t[..e], line, apart)] + Lex(t[e..], line + Newlines(t[..e]), false)
    case Broken => [Token(t, line, apart)]
  }

  /** The same, where the text before t ends in a newline that a carriage return would belong to. */
  ghost function LexOn(t: string, line: nat, apart: bool, open: bool): seq<Token> {
    if open && t != [] && t[0] == '\r' then Lex(t[1..], line, true) else Lex(t, line, apart)
  }

  // ---------------------------------------------------------------- stripping

  function Lines(n: nat): (s: string)
    ensures |s| == n && forall k :: 0 <= k < n ==> s[k] == '\n'
  {
    seq(n, _ => '\n')
  }

  /** A blank, if one is due. */
  function Gap(pend: bool): string {
    if pend then " " else ""
  }

  /** A carriage return that no newline follows. */
  predicate Lone(t: string) {
    t != [] && t[0] == '\r' && !(|t| > 1 && t[1] == '\n')
  }

  /** Where the output is: at its start, at the start of a line, or after a piece. */
  datatype Place = Start | Line | Mid

  /** What the stripper writes for t, with or without a blank due. It gives up at a lone carriage return, and
      before a comment that holds one: the rest is kept as it is. */
  function Strip(t: string, at: Place, pend: bool): string
    decreases |t|
  {
    match First(t)
    case End => ""
    case Newline =>
      if Lone(t) then (if at == Line then " " else Gap(pend)) + t
      else
        var k := if t[0] == '\r' then 2 else 1;
        if Lone(t[k..]) then t else "\n" + Strip(t[k..], Line, false)
    case Space => Strip(t[1..], at, at == Mid)
    case LineComment(e) => if Lone(t[e..]) then Gap(pend) + t else Strip(t[e..], at, false)
    case LongComment(e) =>
      var n := Newlines(t[..e]);
      if '\r' in t[..e] then Gap(pend) + t
      else if n > 0 then Lines(n) + Strip(t[e..], Line, false)
      else Strip(t[e..], at, at == Mid)
    case Piece(e) => Gap(pend) + t[..e] + Strip(t[e..], Mid, false)
    case Broken => Gap(pend) + t
  }

  /** The text after the trap, if the stripper comes to one. */
  datatype Catch = Free | Caught(rest: string)

  /** The stripper, which has not given up before, comes to the end of a line on which it has written nothing, with
      a newline written before. The line ends in a carriage return and a newline, a lone carriage return follows,
      and the first of the three does not belong to a newline before it. The stripper then writes the three right
      after the newline, which takes in the first of them. */
  function Snare(t: string, at: Place, open: bool): Catch
    decreases |t|
  {
    match First(t)
    case Newline =>
      if Lone(t) then Free
      else if t[0] == '\n' then (if Lone(t[1..]) then Free else Snare(t[1..], Line, true))
      else if Lone(t[2..]) then (if at == Line && !open then Caught(t[3..]) else Free)
      else Snare(t[2..], Line, open)
    case Space => Snare(t[1..], at, false)
    case LineComment(e) => if Lone(t[e..]) then Free else Snare(t[e..], at, false)
    case LongComment(e) =>
      if '\r' in t[..e] then Free else Snare(t[e..], if Newlines(t[..e]) > 0 then Line else at, false)
    case Piece(e) => Snare(t[e..], Mid, false)
    case _ => Free
  }

  predicate Trap(t: string, at: Place, open: bool) {
    Snare(t, at, open).Caught?
  }

  predicate HasToken(t: string)
    decreases |t|
  {
    var h := First(t);
    if h.End? then false
    else if h.Newline? then HasToken(t[Width(t)..])
    else if h.Space? then HasToken(t[1..])
    else if h.LineComment? || h.LongComment? then HasToken(t[h.len..])
    else true
  }

  /** A token follows the trap. */
  predicate Shifts(t: string, at: Place, open: bool) {
    Trap(t, at, open) && HasToken(Snare(t, at, open).rest)
  }

  // ---------------------------------------------------------------- what the output starts with

  /** With a blank due, the output starts with a separator, if anything. */
  lemma {:induction false} GapFirst(t: string)
    ensures var r := Strip(t, Mid, true); r == [] || r[0] == ' ' || Break(r[0])
    decreases |t|
  {
    match First(t)
    case Space => GapFirst(t[1..]);
    case LineComment(e) =>
      if !Lone(t[e..]) {
        LineFirst(t, e);
      }
    case LongComment(e) =>
      if '\r' !in t[..e] && Newlines(t[..e]) == 0 {
        GapFirst(t[e..]);
      }
    case _ =>
  }

  /** After a line comment comes the end of the line, or of the script. */
  lemma LineFirst(t: string, e: nat)
    requires First(t) == LineComment(e)
    ensures e == LineEnd(t) && (First(t[e..]) == End || First(t[e..]) == Newline)
  {
  }

  /** After a piece the output starts with a separator, or with the next character of the input. */
  lemma {:induction false} FirstChar(t: string)
    ensures var r := Strip(t, Mid, false);
            r == [] || r[0] == ' ' || Break(r[0]) || (t != [] && r[0] == t[0])
    decreases |t|
  {
    match First(t)
    case Space => GapFirst(t[1..]);
    case LineComment(e) =>
      if !Lone(t[e..]) {
        LineFirst(t, e);
      }
    case LongComment(e) =>
      if '\r' !in t[..e] && Newlines(t[..e]) == 0 {
        GapFirst(t[e..]);
      }
    case _ =>
  }

  lemma EqualsStep(t: string)
    ensures Equals(t) <= |t| && (t == [] || t[0] != '=' ==> Equals(t) == 0)
    ensures t != [] && t[0] == '=' ==> Equals(t) == 1 + Equals(t[1..])
  {
  }

  lemma NoBreakSign()
    ensures !Break('=') && !Break('[')
  {
  }

  lemma EqualsPiece(t: string)
    requires t != [] && t[0] == '='
    ensures First(t) == Piece(1)
  {
  }

  lemma EqualsOut(r: string, t: string, rest: string)
    requires t != [] && t[0] == '=' && r == Gap(false) + t[..1] + rest
    ensures r != [] && r[1..] == rest
  {
  }

  /** The output continues a run of equals signs as the input does. */
  lemma {:induction false} RunFirst(t: string)
    ensures var r := Strip(t, Mid, false);
            var k := Equals(r);
            k <= Equals(t) && (k < |r| && r[k] == '[' ==> k == Equals(t) < |t| && t[k] == '[')
    decreases |t|
  {
    hide *;
    var r := Strip(t, Mid, false);
    FirstChar(t);
    EqualsStep(r);
    EqualsStep(t);
    NoBreakSign();
    if r != [] && r[0] == '=' {
      EqualsPiece(t);
      RunFirst(t[1..]);
      StripIs(t, Mid, false);
      EqualsOut(r, t, Strip(t[1..], Mid, false));
    }
  }

  lemma FirstIs(t: string)
    ensures t != [] && First(t).Piece? ==> !Break(t[0]) && !Blank(t[0]) && !(t[0] == '-' && |t| > 1 && t[1] == '-')
    ensures t != [] && !Break(t[0]) && !Blank(t[0]) && !(t[0] == '-' && |t| > 1 && t[1] == '-') ==>
              First(t) == if t[0] == '\'' || t[0] == '"' then
                            (if Quoted(t[1..], t[0]) == -1 then Broken else Piece(1 + Quoted(t[1..], t[0])))
                          else if t[0] == '[' && Long(t) != 0 then (if Long(t) == -1 then Broken else Piece(Long(t)))
                          else Piece(1)
    ensures First(t).Piece? ==> t != []
  {
  }

  /** A piece of the input is the same piece of the output. */
  lemma PieceStays(t: string, e: nat)
    requires First(t) == Piece(e)
    ensures First(t[..e] + Strip(t[e..], Mid, false)) == Piece(e)
  {
    FirstIs(t);
    hide *;
    var r := Strip(t[e..], Mid, false);
    if t[0] == '\'' || t[0] == '"' {
      QuoteStays(t, e, r);
    } else if t[0] == '[' && Long(t) != 0 {
      LongStays(t, e, r);
    } else if t[0] == '[' {
      BracketStays(t, r);
    } else {
      FirstChar(t[1..]);
      CharStays(t, r);
    }
  }

  lemma QuoteStays(t: string, e: nat, r: string)
    requires t != [] && (t[0] == '\'' || t[0] == '"') && Quoted(t[1..], t[0]) != -1 && e == 1 + Quoted(t[1..], t[0])
    ensures First(t[..e] + r) == Piece(e)
  {
    FirstIs(t[..e] + r);
    hide First, Quoted, Long;
    QuotedLocal(t[1..], t[0], r);
    Cut(t, 1, e, r);
  }

  lemma LongStays(t: string, e: nat, r: string)
    requires t != [] && t[0] == '[' && Long(t) > 0 && e == Long(t)
    ensures First(t[..e] + r) == Piece(e)
  {
    FirstIs(t[..e] + r);
    hide First, Quoted, Long;
    LongLocal(t, r);
  }

  lemma CharStays(t: string, r: string)
    requires t != [] && !Break(t[0]) && !Blank(t[0]) && t[0] != '\'' && t[0] != '"' && t[0] != '['
    requires !(t[0] == '-' && |t| > 1 && t[1] == '-')
    requires r == [] || r[0] == ' ' || Break(r[0]) || (|t| > 1 && r[0] == t[1])
    ensures First(t[..1] + r) == Piece(1)
  {
    FirstIs(t[..1] + r);
    hide First, Quoted, Long;
  }

  /** A bracket that opens nothing opens nothing in the output. */
  lemma BracketStays(t: string, r: string)
    requires t != [] && t[0] == '[' && Long(t) == 0 && r == Strip(t[1..], Mid, false)
    ensures First(t[..1] + r) == Piece(1)
  {
    RunFirst(t[1..]);
    hide *;
    assert (t[..1] + r)[1..] == r;
    OpensNone(t);
    OpensNone(t[..1] + r);
    FirstIs(t[..1] + r);
    BracketFirst(t[..1] + r);
  }

  lemma OpensNone(t: string)
    requires t != []
    ensures var k := Equals(t[1..]); k <= |t[1..]| && (Long(t) == 0 <==> !(k < |t[1..]| && t[1..][k] == '['))
  {
    hide Equals, Close;
  }

  lemma BracketFirst(t: string)
    requires t != [] && t[0] == '[' && Long(t) == 0
    ensures First(t) == Piece(1)
  {
    hide Long, Quoted;
  }

  /** A long bracket is seen the same way when the text after it changes. */
  lemma LongLocal(t: string, u: string)
    requires t != [] && Long(t) > 0
    ensures Long(t[..Long(t)] + u) == Long(t)
  {
    hide Equals, Close;
    var lv, e := Sep(t), Long(t);
    var v := t[..e] + u;
    Cut(t, 1, e, u);
    EqualsLocal(t[1..], e - 1, u);
    Cut(t, lv + 1, e, u);
    CloseLocal(t[lv + 1..], lv - 1, u);
    SepLocal(t, v, e);
  }

  lemma SepLocal(t: string, v: string, e: nat)
    requires t != [] && v != [] && Sep(t) > 0 && Sep(t) < e <= |t| && e <= |v| && v[..e] == t[..e]
    requires Equals(v[1..]) == Equals(t[1..])
    ensures Sep(v) == Sep(t)
  {
    hide Equals;
    var k := 1 + Equals(t[1..]);
    assert v[k] == v[..e][k] && t[k] == t[..e][k];
  }

  // ---------------------------------------------------------------- one step at a time

  lemma LexIs(t: string, line: nat, apart: bool)
    ensures Lex(t, line, apart) ==
            (match First(t)
             case End => []
             case Newline => Lex(t[Width(t)..], line + 1, true)
             case Space => Lex(t[1..], line, true)
             case LineComment(e) => Lex(t[e..], line, true)
             case LongComment(e) => Lex(t[e..], line + Newlines(t[..e]), true)
             case Piece(e) => [Token(t[..e], line, apart)] + Lex(t[e..], line + Newlines(t[..e]), false)
             case Broken => [Token(t, line, apart)])
    ensures First(t) == End <==> t == []
  {
    hide First, Newlines;
  }

  /** What the stripper makes of a line break. */
  lemma StripBreak(t: string, at: Place, pend: bool)
    requires First(t) == Newline
    ensures t != [] && Break(t[0])
    ensures Lone(t) ==> Strip(t, at, pend) == (if at == Line then " " else Gap(pend)) + t
    ensures t[0] == '\n' ==>
              Strip(t, at, pend) == if Lone(t[1..]) then t else "\n" + Strip(t[1..], Line, false)
    ensures t[0] == '\r' && !Lone(t) ==>
              |t| > 1 && t[1] == '\n'
              && Strip(t, at, pend) == if Lone(t[2..]) then t else "\n" + Strip(t[2..], Line, false)
  {
  }

  lemma StripIs(t: string, at: Place, pend: bool)
    ensures First(t) != Newline ==>
              Strip(t, at, pend) ==
              (match First(t)
               case End => ""
               case Space => Strip(t[1..], at, at == Mid)
               case LineComment(e) => (if Lone(t[e..]) then Gap(pend) + t else Strip(t[e..], at, false))
               case LongComment(e) =>
                 (if '\r' in t[..e] then Gap(pend) + t
                  else if Newlines(t[..e]) > 0 then Lines(Newlines(t[..e])) + Strip(t[e..], Line, false)
                  else Strip(t[e..], at, at == Mid))
               case Piece(e) => Gap(pend) + t[..e] + Strip(t[e..], Mid, false)
               case _ => Gap(pend) + t)
    ensures First(t) == End <==> t == []
  {
  }

  lemma SnareIs(t: string, at: Place, open: bool)
    ensures First(t) == Newline ==>
              Snare(t, at, open) ==
              (if Lone(t) then Free
               else if t[0] == '\n' then (if Lone(t[1..]) then Free else Snare(t[1..], Line, true))
               else if Lone(t[2..]) then (if at == Line && !open then Caught(t[3..]) else Free)
               else Snare(t[2..], Line, open))
    ensures First(t) != Newline ==>
              Snare(t, at, open) ==
              (match First(t)
               case Space => Snare(t[1..], at, false)
               case LineComment(e) => (if Lone(t[e..]) then Free else Snare(t[e..], at, false))
               case LongComment(e) =>
                 (if '\r' in t[..e] then Free else Snare(t[e..], if Newlines(t[..e]) > 0 then Line else at, false))
               case Piece(e) => Snare(t[e..], Mid, false)
               case _ => Free)
  {
  }

  /** The trap, and what follows it, are those of the text after the head. */
  lemma TrapIs(t: string, at: Place, open: bool)
    ensures First(t) == Newline ==>
              Trap(t, at, open) ==
              (if Lone(t) then false
               else if t[0] == '\n' then !Lone(t[1..]) && Trap(t[1..], Line, true)
               else if Lone(t[2..]) then at == Line && !open
               else Trap(t[2..], Line, open))
    ensures First(t) != Newline ==>
              Trap(t, at, open) ==
              (match First(t)
               case Space => Trap(t[1..], at, false)
               case LineComment(e) => !Lone(t[e..]) && Trap(t[e..], at, false)
               case LongComment(e) => '\r' !in t[..e] && Trap(t[e..], if Newlines(t[..e]) > 0 then Line else at, false)
               case Piece(e) => Trap(t[e..], Mid, false)
               case _ => false)
  {
    SnareIs(t, at, open);
    hide Snare;
  }

  lemma ShiftsIs(t: string, at: Place, open: bool)
    ensures First(t) == Newline ==>
              Shifts(t, at, open) ==
              (if Lone(t) then false
               else if t[0] == '\n' then !Lone(t[1..]) && Shifts(t[1..], Line, true)
               else if Lone(t[2..]) then at == Line && !open && HasToken(t[3..])
               else Shifts(t[2..], Line, open))
    ensures First(t) != Newline ==>
              Shifts(t, at, open) ==
              (match First(t)
               case Space => Shifts(t[1..], at, false)
               case LineComment(e) => !Lone(t[e..]) && Shifts(t[e..], at, false)
               case LongComment(e) => '\r' !in t[..e]
                   && Shifts(t[e..], if Newlines(t[..e]) > 0 then Line else at, false)
               case Piece(e) => Shifts(t[e..], Mid, false)
               case _ => false)
  {
    SnareIs(t, at, open);
    hide Snare, HasToken;
  }

  /** Without a token nothing depends on the line, and with one everything does. */
  lemma {:induction false} LexMoves(t: string, line: nat, apart: bool)
    ensures !HasToken(t) ==> Lex(t, line, apart) == []
    ensures HasToken(t) ==> Lex(t, line, apart) != [] && Lex(t, line, apart)[0].line >= line
    ensures HasToken(t) ==>
              Lex(t, line + 1, apart) != [] && Lex(t, line + 1, apart)[0].line == Lex(t, line, apart)[0].line + 1
    decreases |t|
  {
    hide *;
    LexIs(t, line, apart);
    LexIs(t, line + 1, apart);
    TokenIs(t);
    match First(t)
    case Newline => LexMoves(t[Width(t)..], line + 1, true);
    case Space => LexMoves(t[1..], line, true);
    case LineComment(e) => LexMoves(t[e..], line, true);
    case LongComment(e) => LexMoves(t[e..], line + Newlines(t[..e]), true);
    case _ =>
  }

  lemma TokenIs(t: string)
    ensures HasToken(t) ==
            (var h := First(t);
             if h.End? then false
             else if h.Newline? then HasToken(t[Width(t)..])
             else if h.Space? then HasToken(t[1..])
             else if h.LineComment? || h.LongComment? then HasToken(t[h.len..])
             else true)
    ensures First(t).LineComment? || First(t).LongComment? || First(t).Piece? ==> 0 < First(t).len <= |t|
    ensures First(t) == End <==> t == []
    ensures First(t) == Newline <==> t != [] && Break(t[0])
  {
  }

  lemma LexGap(pend: bool, t: string, line: nat, apart: bool)
    ensures Lex(Gap(pend) + t, line, apart) == Lex(t, line, apart || pend)
  {
    if pend {
      assert (" " + t)[1..] == t;
    } else {
      assert "" + t == t;
    }
  }

  lemma LexLine(t: string, line: nat, apart: bool)
    ensures Lex("\n" + t, line, apart) == LexOn(t, line + 1, true, true)
  {
    var u := "\n" + t;
    assert u[1..] == t;
    if t != [] && t[0] == '\r' {
      assert u[2..] == t[1..];
    }
  }

  /** A line break by itself. */
  lemma LexBreak(t: string, line: nat, apart: bool, open: bool)
    requires First(t) == Newline
    ensures t[0] == '\n' ==> LexOn(t, line, apart, open) == LexOn(t[1..], line + 1, true, true)
    ensures t[0] == '\r' && !Lone(t) ==> |t| > 1 && LexOn(t, line, apart, open) == LexOn(t[2..], line + 1, true, open)
    ensures LexOn(t, line, apart, open) == LexOn(t, line, true, open)
  {
    if t[0] == '\n' {
      assert t == "\n" + t[1..];
      LexLine(t[1..], line, apart);
      LexLine(t[1..], line, true);
    } else if !Lone(t) {
      assert t[1..] == "\n" + t[2..];
      LexLine(t[2..], line, true);
    }
  }

  lemma LexOther(t: string, line: nat, apart: bool, open: bool)
    requires !open || t == [] || t[0] != '\r'
    ensures LexOn(t, line, apart, open) == Lex(t, line, apart)
  {
  }

  lemma LinesStep(n: nat, t: string)
    ensures n == 0 ==> Lines(n) + t == t
    ensures n > 0 ==> Lines(n) + t == "\n" + (Lines(n - 1) + t)
  {
  }

  lemma LexLines(n: nat, t: string, line: nat, apart: bool)
    requires n > 0
    ensures Lex(Lines(n) + t, line, apart) == LexOn(t, line + n, true, true)
    decreases n
  {
    LinesStep(n, t);
    LinesStep(n - 1, t);
    hide Lex, Lines;
    LexLine(Lines(n - 1) + t, line, apart);
    if n > 1 {
      LexLines(n - 1, t, line + 1, true);
      LexOther(Lines(n - 1) + t, line + 1, true, true);
    }
  }

  lemma LexPiece(p: string, r: string, line: nat, apart: bool)
    requires First(p + r) == Piece(|p|)
    ensures Lex(p + r, line, apart) == [Token(p, line, apart)] + Lex(r, line + Newlines(p), false)
  {
    assert (p + r)[..|p|] == p && (p + r)[|p|..] == r;
  }

  /** Text that is kept, with a blank before it or not, where no line break begins it. */
  lemma LexKept(t: string, line: nat, at: Place, pend: bool, open: bool)
    requires (pend ==> at == Mid) && t != [] && !Break(t[0])
    ensures LexOn(Gap(pend) + t, line, at != Mid, at == Line) == LexOn(t, line, at != Mid || pend, open)
  {
    LexGap(pend, t, line, at != Mid);
    LexOther(t, line, at != Mid || pend, open);
    LexOther(Gap(pend) + t, line, at != Mid, at == Line);
  }

  // ---------------------------------------------------------------- the main results

  /** The stripped script has the same pieces, on the same lines, with the same ones apart, exactly if no token
      follows the trap. */
  lemma {:induction false} SameTokens(t: string, line: nat, at: Place, pend: bool, open: bool)
    requires (pend ==> at == Mid) && (open ==> at == Line && !Lone(t))
    ensures LexOn(Strip(t, at, pend), line, at != Mid, at == Line) == LexOn(t, line, at != Mid || pend, open)
       <==> !Shifts(t, at, open)
    decreases |t|, 1
  {
    hide *;
    StripIs(t, at, pend);
    ShiftsIs(t, at, open);
    LexIs(t, line, at != Mid || pend);
    match First(t)
    case End => LexNone(line, at, pend, open);
    case Newline => SameBreak(t, line, at, pend, open);
    case Space =>
      NotBreak(t);
      LexOther(t, line, at != Mid || pend, open);
      SameTokens(t[1..], line, at, at == Mid, false);
      LexOther(t[1..], line, true, false);
    case LineComment(e) => SameLine(t, e, line, at, pend, open);
    case LongComment(e) => SameLong(t, e, line, at, pend, open);
    case Piece(e) => SamePiece(t, e, line, at, pend, open);
    case Broken =>
      NotBreak(t);
      LexKept(t, line, at, pend, open);
  }

  lemma NotBreak(t: string)
    requires First(t) != Newline && First(t) != End
    ensures t != [] && !Break(t[0]) && t[0] != '\r' && !Lone(t)
  {
  }

  lemma LexNone(line: nat, at: Place, pend: bool, open: bool)
    ensures LexOn("", line, at != Mid, at == Line) == LexOn("", line, at != Mid || pend, open)
  {
  }

  lemma SameBreak(t: string, line: nat, at: Place, pend: bool, open: bool)
    requires (pend ==> at == Mid) && (open ==> at == Line && !Lone(t)) && First(t) == Newline
    ensures LexOn(Strip(t, at, pend), line, at != Mid, at == Line) == LexOn(t, line, at != Mid || pend, open)
       <==> !Shifts(t, at, open)
    decreases |t|, 0
  {
    StripBreak(t, at, pend);
    ShiftsIs(t, at, open);
    LexBreak(t, line, at != Mid, at == Line);
    LexBreak(t, line, at != Mid || pend, open);
    hide Lex, Strip, Trap, Shifts, HasToken, First, LexOn;
    if Lone(t) {
      LoneKept(t, line, at, pend);
    } else if t[0] == '\n' {
      if !Lone(t[1..]) {
        SameTokens(t[1..], line + 1, Line, false, true);
        OutLine(t[1..], line, at);
      }
    } else if !Lone(t[2..]) {
      SameTokens(t[2..], line + 1, Line, false, open);
      OutLine(t[2..], line, at);
    } else {
      LoneMoves(t[2..], line + 1);
    }
  }

  /** A carriage return that belongs to the newline before ends no line. */
  lemma LoneMoves(u: string, line: nat)
    requires Lone(u)
    ensures LexOn(u, line, true, true) == LexOn(u, line, true, false) <==> !HasToken(u[1..])
  {
    LexIs(u, line, true);
    hide Lex, HasToken;
    LexMoves(u[1..], line, true);
    LexMoves(u[1..], line + 1, true);
    assert Width(u) == 1;
  }

  lemma OutLine(u: string, line: nat, at: Place)
    ensures LexOn("\n" + Strip(u, Line, false), line, at != Mid, at == Line)
            == LexOn(Strip(u, Line, false), line + 1, true, true)
  {
    hide Strip, Lex;
    LexLine(Strip(u, Line, false), line, at != Mid);
  }

  lemma LoneKept(t: string, line: nat, at: Place, pend: bool)
    requires Lone(t) && (pend ==> at == Mid)
    ensures LexOn((if at == Line then " " else Gap(pend)) + t, line, at != Mid, at == Line)
         == LexOn(t, line, at != Mid || pend, false)
  {
    hide Lex;
    var gap := at == Line || pend;
    LexGap(gap, t, line, at != Mid);
    LexLone(t, line);
  }

  lemma LexLone(t: string, line: nat)
    requires Lone(t)
    ensures Lex(t, line, false) == Lex(t, line, true)
  {
  }

  lemma SameLine(t: string, e: nat, line: nat, at: Place, pend: bool, open: bool)
    requires (pend ==> at == Mid) && (open ==> at == Line) && First(t) == LineComment(e)
    ensures LexOn(Strip(t, at, pend), line, at != Mid, at == Line) == LexOn(t, line, at != Mid || pend, open)
       <==> !Shifts(t, at, open)
    decreases |t|, 0
  {
    hide *;
    StripIs(t, at, pend);
    ShiftsIs(t, at, open);
    LexIs(t, line, at != Mid || pend);
    LineFirst(t, e);
    NotBreak(t);
    FirstFits(t);
    if Lone(t[e..]) {
      LexKept(t, line, at, pend, open);
    } else {
      SameTokens(t[e..], line, at, false, false);
      LexOther(t, line, at != Mid || pend, open);
      LexOther(t[e..], line, at != Mid, false);
      LexIs(t[e..], line, at != Mid);
      LexIs(t[e..], line, true);
    }
  }

  lemma FirstFits(t: string)
    ensures First(t).LineComment? || First(t).LongComment? || First(t).Piece? ==> 0 < First(t).len <= |t|
    ensures First(t) == End <==> t == []
  {
  }

  lemma SameLong(t: string, e: nat, line: nat, at: Place, pend: bool, open: bool)
    requires (pend ==> at == Mid) && (open ==> at == Line) && First(t) == LongComment(e)
    ensures LexOn(Strip(t, at, pend), line, at != Mid, at == Line) == LexOn(t, line, at != Mid || pend, open)
       <==> !Shifts(t, at, open)
    decreases |t|, 0
  {
    hide *;
    StripIs(t, at, pend);
    ShiftsIs(t, at, open);
    LexIs(t, line, at != Mid || pend);
    NotBreak(t);
    FirstFits(t);
    LexOther(t, line, at != Mid || pend, open);
    var n := Newlines(t[..e]);
    if '\r' in t[..e] {
      LexKept(t, line, at, pend, open);
    } else if n > 0 {
      SameTokens(t[e..], line + n, Line, false, false);
      OutLines(n, Strip(t[e..], Line, false), line, at);
      LexOther(t[e..], line + n, true, false);
    } else {
      SameTokens(t[e..], line, at, at == Mid, false);
      LexOther(t[e..], line, true, false);
    }
  }

  lemma OutLines(n: nat, r: string, line: nat, at: Place)
    requires n > 0
    ensures LexOn(Lines(n) + r, line, at != Mid, at == Line) == LexOn(r, line + n, true, true)
  {
    hide *;
    LexLines(n, r, line, at != Mid);
    LinesStep(n, r);
    LexOther(Lines(n) + r, line, at != Mid, at == Line);
  }

  lemma SamePiece(t: string, e: nat, line: nat, at: Place, pend: bool, open: bool)
    requires (pend ==> at == Mid) && (open ==> at == Line) && First(t) == Piece(e)
    ensures LexOn(Strip(t, at, pend), line, at != Mid, at == Line) == LexOn(t, line, at != Mid || pend, open)
       <==> !Shifts(t, at, open)
    decreases |t|, 0
  {
    hide *;
    ShiftsIs(t, at, open);
    FirstFits(t);
    var r, n := Strip(t[e..], Mid, false), line + Newlines(t[..e]);
    SameTokens(t[e..], n, Mid, false, false);
    LexOther(r, n, false, false);
    LexOther(t[e..], n, false, false);
    PieceOut(t, e, line, at, pend);
    PieceIn(t, e, line, at != Mid || pend, open);
    ConsSame(Token(t[..e], line, at != Mid || pend), Lex(r, n, false), Lex(t[e..], n, false));
  }

  lemma PieceOut(t: string, e: nat, line: nat, at: Place, pend: bool)
    requires (pend ==> at == Mid) && First(t) == Piece(e)
    ensures e <= |t| && LexOn(Strip(t, at, pend), line, at != Mid, at == Line)
                        == [Token(t[..e], line, at != Mid || pend)]
                           + Lex(Strip(t[e..], Mid, false), line + Newlines(t[..e]), false)
  {
    hide *;
    StripIs(t, at, pend);
    FirstFits(t);
    PieceStays(t, e);
    var r := Strip(t[e..], Mid, false);
    LexKeptPiece(t[..e], r, line, at, pend);
    Assoc(Gap(pend), t[..e], r);
  }

  lemma PieceIn(t: string, e: nat, line: nat, apart: bool, open: bool)
    requires First(t) == Piece(e)
    ensures e <= |t| && LexOn(t, line, apart, open)
                        == [Token(t[..e], line, apart)] + Lex(t[e..], line + Newlines(t[..e]), false)
  {
    hide *;
    LexIs(t, line, apart);
    NotBreak(t);
    FirstFits(t);
    LexOther(t, line, apart, open);
  }

  lemma ConsSame(x: Token, a: seq<Token>, b: seq<Token>)
    ensures [x] + a == [x] + b <==> a == b
  {
    assert ([x] + a)[1..] == a && ([x] + b)[1..] == b;
  }

  lemma Assoc(a: string, b: string, c: string)
    ensures a + b + c == a + (b + c)
  {
  }

  lemma LexKeptPiece(p: string, r: string, line: nat, at: Place, pend: bool)
    requires (pend ==> at == Mid) && First(p + r) == Piece(|p|)
    ensures LexOn(Gap(pend) + (p + r), line, at != Mid, at == Line)
         == [Token(p, line, at != Mid || pend)] + Lex(r, line + Newlines(p), false)
  {
    NotBreak(p + r);
    hide *;
    LexKept(p + r, line, at, pend, false);
    LexOther(p + r, line, at != Mid || pend, false);
    LexPiece(p, r, line, at != Mid || pend);
  }

  // ---------------------------------------------------------------- stripping twice

  lemma StripLine(t: string, at: Place)
    ensures Strip("\n" + t, at, false) == if Lone(t) then "\n" + t else "\n" + Strip(t, Line, false)
  {
    assert ("\n" + t)[1..] == t;
  }

  lemma StripLines(n: nat, t: string, at: Place)
    requires n > 0
    ensures Strip(Lines(n) + t, at, false) == Lines(n) + if Lone(t) then t else Strip(t, Line, false)
    decreases n
  {
    LinesStep(n, t);
    LinesStep(n - 1, t);
    LinesStep(n, if Lone(t) then t else Strip(t, Line, false));
    LinesStep(n - 1, if Lone(t) then t else Strip(t, Line, false));
    hide Strip, Lines;
    StripLine(Lines(n - 1) + t, at);
    if n > 1 {
      StripLines(n - 1, t, Line);
    }
  }

  lemma PieceIs(t: string, e: nat, at: Place, pend: bool)
    requires First(t) == Piece(e)
    ensures e <= |t| && Strip(t, at, pend) == Gap(pend) + t[..e] + Strip(t[e..], Mid, false)
  {
    StripIs(t, at, pend);
    hide Strip;
  }

  lemma StripSpace(t: string)
    ensures Strip(" " + t, Mid, false) == Strip(t, Mid, true) && Strip(" " + t, Line, false) == Strip(t, Line, false)
  {
    assert (" " + t)[1..] == t;
  }

  /** A text that starts with a piece, with a blank before it or not. */
  lemma StripPiece(p: string, r: string, at: Place, pend: bool)
    requires First(p + r) == Piece(|p|) && (pend ==> at == Mid)
    ensures Strip(Gap(pend) + p + r, at, false) == Gap(pend) + p + Strip(r, Mid, false)
  {
    hide Strip, First;
    var v := p + r;
    assert v[..|p|] == p && v[|p|..] == r;
    if pend {
      StripSpace(v);
      PieceIs(v, |p|, Mid, true);
      assert Gap(true) + p + r == " " + v;
    } else {
      PieceIs(v, |p|, at, false);
      assert Gap(false) + p + r == v;
    }
  }

  /** Text that is kept is kept again. */
  lemma StripKept(t: string, at: Place, pend: bool)
    requires (pend ==> at == Mid) && Strip(t, at, pend) == Gap(pend) + t
    ensures Strip(Gap(pend) + t, at, false) == Gap(pend) + t
  {
    hide Strip;
    if pend {
      StripSpace(t);
    } else {
      assert Gap(false) + t == t;
    }
  }

  /** Stripping a stripped script changes nothing. */
  lemma {:induction false} Idempotent(t: string, at: Place, pend: bool)
    requires pend ==> at == Mid
    ensures Strip(Strip(t, at, pend), at, false) == Strip(t, at, pend)
    decreases |t|, 1
  {
    hide *;
    StripIs(t, at, pend);
    FirstFits(t);
    match First(t)
    case End => StripIs("", at, false); FirstFits("");
    case Newline => AgainBreak(t, at, pend);
    case Space => Idempotent(t[1..], at, at == Mid);
    case LineComment(e) =>
      if Lone(t[e..]) {
        StripKept(t, at, pend);
      } else {
        Idempotent(t[e..], at, false);
      }
    case LongComment(e) => AgainLong(t, e, at, pend);
    case Piece(e) =>
      Idempotent(t[e..], Mid, false);
      PieceStays(t, e);
      StripPiece(t[..e], Strip(t[e..], Mid, false), at, pend);
    case Broken => StripKept(t, at, pend);
  }

  lemma AgainBreak(t: string, at: Place, pend: bool)
    requires (pend ==> at == Mid) && First(t) == Newline
    ensures Strip(Strip(t, at, pend), at, false) == Strip(t, at, pend)
    decreases |t|, 0
  {
    StripBreak(t, at, pend);
    StripBreak(t, at, false);
    hide Strip, First;
    if Lone(t) {
      if at == Line {
        StripSpace(t);
      } else {
        StripKept(t, at, pend);
      }
    } else {
      var k := if t[0] == '\r' then 2 else 1;
      if !Lone(t[k..]) {
        Idempotent(t[k..], Line, false);
        StripLine(Strip(t[k..], Line, false), at);
      }
    }
  }

  lemma AgainLong(t: string, e: nat, at: Place, pend: bool)
    requires (pend ==> at == Mid) && First(t) == LongComment(e)
    ensures Strip(Strip(t, at, pend), at, false) == Strip(t, at, pend)
    decreases |t|, 0
  {
    hide *;
    StripIs(t, at, pend);
    FirstFits(t);
    var n := Newlines(t[..e]);
    if '\r' in t[..e] {
      StripKept(t, at, pend);
    } else if n > 0 {
      Idempotent(t[e..], Line, false);
      StripLines(n, Strip(t[e..], Line, false), at);
    } else {
      Idempotent(t[e..], at, at == Mid);
    }
  }

  // ---------------------------------------------------------------- counting lines

  lemma {:induction false} LinesCount(n: nat, t: string)
    requires n > 0
    ensures Newlines(Lines(n) + t) == n + NewlinesOn(t, true)
  {
    LinesStep(n, t);
    LinesStep(n - 1, t);
    NewlinesLine(Lines(n - 1) + t);
    hide Lines;
    if n > 1 {
      LinesCount(n - 1, t);
    }
  }

  lemma {:induction false} NoNewlines(t: string)
    requires forall x :: 0 <= x < |t| ==> !Break(t[x])
    ensures Newlines(t) == 0
  {
    if t != [] {
      NoNewlines(t[1..]);
    }
  }

  /** The text before e adds up with the rest. */
  lemma NewlinesSplit(t: string, e: nat)
    requires e <= |t| && (e > 0 ==> !Break(t[e - 1]))
    ensures Newlines(t) == Newlines(t[..e]) + Newlines(t[e..])
  {
    NewlinesAdd(t[..e], t[e..]);
    assert t[..e] + t[e..] == t;
  }

  lemma GapLines(pend: bool, t: string)
    ensures Newlines(Gap(pend) + t) == Newlines(t) && |Gap(pend)| == if pend then 1 else 0
  {
    if pend {
      assert (" " + t)[1..] == t;
    } else {
      assert "" + t == t;
    }
  }

  lemma {:induction false} NewlinesFew(t: string)
    ensures Newlines(t) <= |t|
  {
    if t != [] {
      NewlinesFew(t[if Break(t[0]) then Width(t) else 1..]);
    }
  }

  /** The last character of a piece, a comment or a blank is no line break. */
  lemma HeadEnds(t: string)
    ensures First(t).LineComment? || First(t).LongComment? || First(t).Piece? ==> !Break(t[First(t).len - 1])
    ensures First(t).LineComment? ==> Newlines(t[..First(t).len]) == 0
    ensures First(t).LongComment? ==> First(t).len >= 4
    ensures First(t) == Space ==> Newlines(t) == Newlines(t[1..])
  {
    if First(t).LineComment? {
      NoNewlines(t[..First(t).len]);
    } else if First(t).LongComment? {
      LongEnds(t[2..]);
    } else if First(t).Piece? {
      PieceEnds(t);
    }
  }

  lemma LongEnds(t: string)
    requires t != [] && Long(t) > 0
    ensures t[Long(t) - 1] == ']'
  {
    CloseEnds(t[Sep(t) + 1..], Sep(t) - 1);
  }

  lemma PieceEnds(t: string)
    requires First(t).Piece?
    ensures !Break(t[First(t).len - 1])
  {
    FirstIs(t);
    hide First;
    if t[0] == '\'' || t[0] == '"' {
      QuotedEnds(t[1..], t[0]);
    } else if t[0] == '[' && Long(t) != 0 {
      LongEnds(t);
    }
  }

  lemma {:induction false} QuotedEnds(t: string, q: char)
    requires Quoted(t, q) != -1
    ensures t[Quoted(t, q) - 1] == q
    decreases |t|
  {
    if t[0] != q {
      QuotedEnds(t[Skip(t)..], q);
    }
  }

  lemma OnOther(t: string, open: bool)
    ensures !open || t == [] || t[0] != '\r' ==> NewlinesOn(t, open) == Newlines(t)
  {
  }

  /** The trap costs one line, and nothing else does. */
  lemma {:induction false} SameLines(t: string, at: Place, pend: bool, open: bool)
    requires (pend ==> at == Mid) && (open ==> at == Line && !Lone(t))
    ensures NewlinesOn(Strip(t, at, pend), at == Line) + (if Trap(t, at, open) then 1 else 0) == NewlinesOn(t, open)
    decreases |t|, 1
  {
    hide *;
    StripIs(t, at, pend);
    TrapIs(t, at, open);
    FirstFits(t);
    HeadEnds(t);
    OnOther(t, open);
    if First(t) != End && First(t) != Newline {
      NotBreak(t);
      GapLines(pend, t);
      GapStart(pend, t);
      OnOther(Gap(pend) + t, at == Line);
    }
    match First(t)
    case End => OnOther("", at == Line);
    case Newline => LinesBreak(t, at, pend, open);
    case Space =>
      SameLines(t[1..], at, at == Mid, false);
      OnOther(t[1..], false);
    case LineComment(e) =>
      if !Lone(t[e..]) {
        SameLines(t[e..], at, false, false);
        NewlinesSplit(t, e);
        OnOther(t[e..], false);
      }
    case LongComment(e) => LinesLong(t, e, at, pend, open);
    case Piece(e) => LinesPiece(t, e, at, pend, open);
    case Broken =>
  }

  lemma GapStart(pend: bool, t: string)
    requires t != [] && t[0] != '\r'
    ensures (Gap(pend) + t)[0] != '\r'
  {
  }

  lemma LinesBreak(t: string, at: Place, pend: bool, open: bool)
    requires (pend ==> at == Mid) && (open ==> at == Line && !Lone(t)) && First(t) == Newline
    ensures NewlinesOn(Strip(t, at, pend), at == Line) + (if Trap(t, at, open) then 1 else 0) == NewlinesOn(t, open)
    decreases |t|, 0
  {
    StripBreak(t, at, pend);
    TrapIs(t, at, open);
    hide Strip, Trap, First, Newlines;
    if Lone(t) {
      GapLines(at == Line || pend, t);
    } else if t[0] == '\n' {
      BreakLines(t, open);
      if !Lone(t[1..]) {
        SameLines(t[1..], Line, false, true);
        NewlinesLine(Strip(t[1..], Line, false));
      }
    } else {
      BreakLines(t, open);
      BreakLines(t, at == Line);
      if !Lone(t[2..]) {
        SameLines(t[2..], Line, false, open);
        NewlinesLine(Strip(t[2..], Line, false));
      } else {
        LoneLines(t[2..]);
      }
    }
  }

  lemma BreakLines(t: string, open: bool)
    requires t != [] && Break(t[0]) && !Lone(t)
    ensures t[0] == '\n' ==> NewlinesOn(t, open) == 1 + NewlinesOn(t[1..], true)
    ensures t[0] == '\r' ==> NewlinesOn(t, open) == 1 + NewlinesOn(t[2..], open)
  {
    if t[0] == '\n' {
      assert t == "\n" + t[1..];
      NewlinesLine(t[1..]);
    } else {
      assert t[1..] == "\n" + t[2..];
      NewlinesLine(t[2..]);
    }
  }

  lemma LoneLines(t: string)
    requires Lone(t)
    ensures NewlinesOn(t, false) == 1 + NewlinesOn(t, true)
  {
  }

  lemma LinesLong(t: string, e: nat, at: Place, pend: bool, open: bool)
    requires (pend ==> at == Mid) && (open ==> at == Line) && First(t) == LongComment(e)
    ensures NewlinesOn(Strip(t, at, pend), at == Line) + (if Trap(t, at, open) then 1 else 0) == NewlinesOn(t, open)
    decreases |t|, 0
  {
    hide *;
    StripIs(t, at, pend);
    TrapIs(t, at, open);
    FirstFits(t);
    HeadEnds(t);
    NotBreak(t);
    OnOther(t, open);
    GapLines(pend, t);
    GapStart(pend, t);
    OnOther(Gap(pend) + t, at == Line);
    NewlinesSplit(t, e);
    OnOther(t[e..], false);
    var n := Newlines(t[..e]);
    if '\r' in t[..e] {
    } else if n > 0 {
      var r := Strip(t[e..], Line, false);
      SameLines(t[e..], Line, false, false);
      LinesCount(n, r);
      LinesStep(n, r);
      OnOther(Lines(n) + r, at == Line);
    } else {
      SameLines(t[e..], at, at == Mid, false);
    }
  }

  lemma LinesPiece(t: string, e: nat, at: Place, pend: bool, open: bool)
    requires (pend ==> at == Mid) && (open ==> at == Line) && First(t) == Piece(e)
    ensures NewlinesOn(Strip(t, at, pend), at == Line) + (if Trap(t, at, open) then 1 else 0) == NewlinesOn(t, open)
    decreases |t|, 0
  {
    hide *;
    StripIs(t, at, pend);
    TrapIs(t, at, open);
    FirstFits(t);
    HeadEnds(t);
    NotBreak(t);
    var r := Strip(t[e..], Mid, false);
    SameLines(t[e..], Mid, false, false);
    OnOther(t, open);
    OnOther(r, false);
    OnOther(t[e..], false);
    NewlinesSplit(t, e);
    NewlinesAdd(t[..e], r);
    var v := t[..e] + r;
    GapLines(pend, v);
    GapStart(pend, v);
    OnOther(Gap(pend) + v, at == Line);
    assert Gap(pend) + t[..e] + r == Gap(pend) + v;
  }

  /** The text gets no longer, but for a blank that is due or that keeps a carriage return from a newline. */
  lemma {:induction false} NoLonger(t: string, at: Place, pend: bool)
    requires pend ==> at == Mid
    ensures |Strip(t, at, pend)| <= |t| + if pend || (at == Line && Lone(t)) then 1 else 0
    decreases |t|
  {
    StripIs(t, at, pend);
    FirstFits(t);
    HeadEnds(t);
    if First(t) == Newline {
      StripBreak(t, at, pend);
    }
    hide Strip, First, Newlines;
    match First(t)
    case Newline =>
      var k := if t[0] == '\r' && !Lone(t) then 2 else 1;
      NoLonger(t[k..], Line, false);
    case Space => NoLonger(t[1..], at, at == Mid);
    case LineComment(e) => NoLonger(t[e..], at, false);
    case LongComment(e) =>
      NewlinesInside(t, e);
      NoLonger(t[e..], Line, false);
      NoLonger(t[e..], at, at == Mid);
    case Piece(e) => NoLonger(t[e..], Mid, false);
    case _ =>
  }

  lemma NewlinesInside(t: string, e: nat)
    requires 4 <= e <= |t| && First(t) == LongComment(e)
    ensures Newlines(t[..e]) + 2 <= e
  {
    NotBreak(t);
    assert t[1] == '-';
    var u := t[..e];
    assert u[1..][1..] == u[2..];
    NewlinesFew(u[2..]);
    hide First, Long;
  }

  /** A script with the trap in it: the word is on line 4, and after stripping on line 3. */
  lemma TrapExample()
    ensures Trap("\r\n\r\n\rx", Start, false) && Strip("\r\n\r\n\rx", Start, false) == "\n\r\n\rx"
    ensures Lex("\r\n\r\n\rx", 1, true) == [Token("x", 4, true)]
    ensures Lex("\n\r\n\rx", 1, true) == [Token("x", 3, true)]
  {
    TrapBefore();
    var u := "\n\r\n\rx";
    assert u[2..] == "\n\rx" && u[2..][2..] == "x";
    LexWord(3);
  }

  lemma TrapBefore()
    ensures Trap("\r\n\r\n\rx", Start, false) && Strip("\r\n\r\n\rx", Start, false) == "\n\r\n\rx"
    ensures Lex("\r\n\r\n\rx", 1, true) == [Token("x", 4, true)]
  {
    var t := "\r\n\r\n\rx";
    assert t[2..] == "\r\n\rx" && t[2..][2..] == "\rx" && "\rx"[1..] == "x";
    LexWord(4);
  }

  lemma LexWord(line: nat)
    ensures Lex("x", line, true) == [Token("x", line, true)]
  {
    assert First("x") == Piece(1) && "x"[..1] == "x" && "x"[1..] == "";
  }
}
