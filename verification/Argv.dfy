/** The argument lists in the string table of an image, as the verifier checks them and as a child
    process reads them. */
module Argvs {

  const NG_MAX_INTERP: nat := 255
  const NG_MAX_EXEC_ARGS: nat := 16
  const NG_MAX_EXEC_ARG: nat := 4096

  /** The string table ends in a NUL. */
  predicate Ended(blob: string) {
    blob != [] && blob[|blob| - 1] == '\0'
  }

  /** Where the string at `off` ends. */
  function End(blob: string, off: nat): (e: nat)
    requires Ended(blob) && off < |blob|
    ensures off <= e < |blob| && blob[e] == '\0' && forall x :: off <= x < e ==> blob[x] != '\0'
    decreases |blob| - off
  {
    if blob[off] == '\0' then off else End(blob, off + 1)
  }

  /** Whether there is a NUL among the first cap + 1 bytes of the string. */
  predicate StrFits(blob: string, off: nat, cap: nat) {
    off < |blob|
    && var left := if |blob| - off > cap + 1 then cap + 1 else |blob| - off;
       '\0' in blob[off..off + left]
  }

  lemma FitsIsLength(blob: string, off: nat, cap: nat)
    requires Ended(blob) && off < |blob|
    ensures StrFits(blob, off, cap) <==> End(blob, off) - off <= cap
  {
    var left := if |blob| - off > cap + 1 then cap + 1 else |blob| - off;
    var e := End(blob, off);
    if StrFits(blob, off, cap) {
      var x :| 0 <= x < left && blob[off..off + left][x] == '\0';
      assert blob[off + x] == '\0';
    }
    if e - off <= cap {
      assert blob[off..off + left][e - off] == '\0';
    }
  }

  // ---------------------------------------------------------------- lists of strings

  /** A list of strings ends in an empty one, or runs past the table. */
  datatype Walk = Past | Words(at: seq<nat>, end: nat)

  /** The strings from `off` on. */
  function List(blob: string, off: nat): (w: Walk)
    requires Ended(blob)
    ensures w.Words? ==> off <= w.end < |blob| && blob[w.end] == '\0'
    decreases |blob| - off
  {
    if off >= |blob| then Past
    else if blob[off] == '\0' then Words([], off)
    else Before([off], List(blob, End(blob, off) + 1))
  }

  function Before(at: seq<nat>, w: Walk): Walk {
    match w
    case Past => Past
    case Words(more, end) => Words(at + more, end)
  }

  lemma BeforeTwice(a: seq<nat>, b: seq<nat>, w: Walk)
    ensures Before(a, Before(b, w)) == Before(a + b, w)
  {
    if w.Words? {
      assert a + (b + w.at) == a + b + w.at;
    }
  }

  /** Every string of the list is short enough. */
  predicate Short(blob: string, at: seq<nat>)
    requires Ended(blob)
  {
    forall k :: 0 <= k < |at| ==> at[k] < |blob| && End(blob, at[k]) - at[k] <= NG_MAX_EXEC_ARG
  }

  /** Checks one list: it ends inside the table, its strings are short, and with the ones before it
      there are not too many. */
  method CheckList(blob: string, off: nat, args: nat) returns (ok: bool, end: nat, n: nat)
    requires Ended(blob) && off < |blob| && args <= NG_MAX_EXEC_ARGS
    ensures ok <==>
              List(blob, off).Words? && Short(blob, List(blob, off).at)
                  && args + |List(blob, off).at| <= NG_MAX_EXEC_ARGS
    ensures ok ==> end == List(blob, off).end && n == args + |List(blob, off).at|
  {
    hide End, List, Short;
    end, n := off, args;
    ghost var done: seq<nat> := [];
    SoFarNone(blob, off);
    while blob[end] != '\0'
      invariant end < |blob| && SoFar(blob, off, done, end)
      invariant n == args + |done| <= NG_MAX_EXEC_ARGS && Short(blob, done)
      decreases |blob| - end
    {
      SoFarStep(blob, off, done, end);
      FitsIsLength(blob, end, NG_MAX_EXEC_ARG);
      n := n + 1;
      if n > NG_MAX_EXEC_ARGS || !StrFits(blob, end, NG_MAX_EXEC_ARG) {
        SoFarLong(blob, off, done, end);
        return false, end, n;
      }
      ShortMore(blob, done, end);
      done := done + [end];
      end := End(blob, end) + 1;
      if end >= |blob| {
        SoFarPast(blob, off, done, end);
        return false, end, n;
      }
    }
    SoFarEnds(blob, off, done, end);
    ok := true;
  }

  /** The list starts with the strings in `done`, and goes on at `end`. */
  ghost predicate SoFar(blob: string, off: nat, done: seq<nat>, end: nat)
    requires Ended(blob)
  {
    List(blob, off) == Before(done, List(blob, end))
  }

  lemma SoFarNone(blob: string, off: nat)
    requires Ended(blob)
    ensures SoFar(blob, off, [], off) && Short(blob, [])
  {
    assert List(blob, off).Words? ==> [] + List(blob, off).at == List(blob, off).at;
  }

  lemma SoFarStep(blob: string, off: nat, done: seq<nat>, end: nat)
    requires Ended(blob) && end < |blob| && blob[end] != '\0' && SoFar(blob, off, done, end)
    ensures SoFar(blob, off, done + [end], End(blob, end) + 1)
  {
    ListStep(blob, end);
    BeforeTwice(done, [end], List(blob, End(blob, end) + 1));
  }

  /** Too many strings, or one that is too long, in what was read so far. */
  lemma SoFarLong(blob: string, off: nat, done: seq<nat>, end: nat)
    requires Ended(blob) && end < |blob| && SoFar(blob, off, done + [end], End(blob, end) + 1)
    ensures List(blob, off).Words? ==> |List(blob, off).at| > |done|
    ensures End(blob, end) - end > NG_MAX_EXEC_ARG && List(blob, off).Words? ==> !Short(blob, List(blob, off).at)
  {
    hide End, List;
    if List(blob, off).Words? {
      assert List(blob, off).at[|done|] == end;
    }
  }

  lemma SoFarPast(blob: string, off: nat, done: seq<nat>, end: nat)
    requires Ended(blob) && end >= |blob| && SoFar(blob, off, done, end)
    ensures List(blob, off) == Past
  {
  }

  lemma SoFarEnds(blob: string, off: nat, done: seq<nat>, end: nat)
    requires Ended(blob) && end < |blob| && blob[end] == '\0' && SoFar(blob, off, done, end)
    ensures List(blob, off) == Words(done, end)
  {
    assert done + [] == done;
  }

  lemma ShortMore(blob: string, done: seq<nat>, end: nat)
    requires Ended(blob) && Short(blob, done) && end < |blob| && End(blob, end) - end <= NG_MAX_EXEC_ARG
    ensures Short(blob, done + [end])
  {
  }

  /** The two lists around the script are fine, and the first string is a path. */
  ghost predicate InterpFine(blob: string, off: nat)
    requires Ended(blob)
  {
    && off < |blob| && blob[off] == '/' && End(blob, off) - off <= NG_MAX_INTERP
    && var a := List(blob, off);
       && a.Words? && Short(blob, a.at) && a.end + 1 < |blob|
       && var b := List(blob, a.end + 1);
          b.Words? && Short(blob, b.at) && |a.at| + |b.at| <= NG_MAX_EXEC_ARGS
  }

  method ExecOk(blob: string, off: nat) returns (ok: bool)
    requires Ended(blob)
    ensures ok <==> InterpFine(blob, off)
  {
    if off >= |blob| || blob[off] != '/' {
      return false;
    }
    FitsIsLength(blob, off, NG_MAX_INTERP);
    if !StrFits(blob, off, NG_MAX_INTERP) {
      return false;
    }
    var end, n;
    ok, end, n := CheckList(blob, off, 0);
    if !ok || end + 1 >= |blob| {
      return false;
    }
    ok, end, n := CheckList(blob, end + 1, n);
  }

  /** The list of a command and its arguments is fine; a command with a slash is a path. */
  ghost predicate DirectFine(blob: string, off: nat)
    requires Ended(blob)
  {
    && off < |blob| && blob[off] != '\0' && End(blob, off) - off <= NG_MAX_INTERP
    && (blob[off] == '/' || '/' !in blob[off..End(blob, off)])
    && var a := List(blob, off);
       a.Words? && Short(blob, a.at) && |a.at| <= NG_MAX_EXEC_ARGS
  }

  method DirectOk(blob: string, off: nat) returns (ok: bool)
    requires Ended(blob)
    ensures ok <==> DirectFine(blob, off)
  {
    if off >= |blob| || blob[off] == '\0' {
      return false;
    }
    FitsIsLength(blob, off, NG_MAX_INTERP);
    if !StrFits(blob, off, NG_MAX_INTERP) || (blob[off] != '/' && '/' in blob[off..End(blob, off)]) {
      return false;
    }
    var end, n;
    ok, end, n := CheckList(blob, off, 0);
  }

  // ---------------------------------------------------------------- the child

  /** An entry of the argument vector of a child: a string of the table, the script, or the end. */
  datatype Arg = Text(at: nat) | Script | Null

  function Strings(at: seq<nat>): (r: seq<Arg>)
    ensures |r| == |at| && forall k :: 0 <= k < |r| ==> r[k] == Text(at[k])
  {
    seq(|at|, k requires 0 <= k < |at| => Text(at[k]))
  }

  /** Copies a list into the vector from place k on. */
  method CopyList(blob: string, off: nat, argv: array<Arg>, k: nat) returns (end: nat, n: nat)
    requires Ended(blob) && List(blob, off).Words? && k + |List(blob, off).at| <= argv.Length
    modifies argv
    ensures end == List(blob, off).end && n == k + |List(blob, off).at|
    ensures argv[..k] == old(argv[..k]) && argv[k..n] == Strings(List(blob, off).at)
  {
    end, n := off, k;
    ghost var done: seq<nat> := [];
    SoFarNone(blob, off);
    ListStep(blob, off);
    hide List, End, SoFar, Strings;
    StringsMore([], 0);
    assert argv[k..n] == [];
    while blob[end] != '\0'
      invariant end < |blob| && SoFar(blob, off, done, end)
      invariant n == k + |done| && argv[..k] == old(argv[..k]) && argv[k..n] == Strings(done)
      decreases |blob| - end
    {
      SoFarStep(blob, off, done, end);
      SoFarFits(blob, off, done, end);
      StringsMore(done, end);
      argv[n] := Text(end);
      assert argv[k..n + 1] == argv[k..n] + [Text(end)];
      done := done + [end];
      n := n + 1;
      end := End(blob, end) + 1;
    }
    SoFarEnds(blob, off, done, end);
  }

  lemma StringsMore(at: seq<nat>, x: nat)
    ensures Strings(at + [x]) == Strings(at) + [Text(x)] && Strings([]) == []
  {
  }

  /** A list that ends goes on inside the table, and is longer than what was read. */
  lemma SoFarFits(blob: string, off: nat, done: seq<nat>, end: nat)
    requires Ended(blob) && end < |blob| && SoFar(blob, off, done + [end], End(blob, end) + 1) && List(blob, off).Words?
    ensures End(blob, end) + 1 < |blob| && |done| < |List(blob, off).at|
  {
    ListStep(blob, End(blob, end) + 1);
  }

  lemma ListStep(blob: string, off: nat)
    requires Ended(blob)
    ensures List(blob, off).Words? ==> off < |blob|
    ensures off < |blob| && blob[off] == '\0' ==> List(blob, off) == Words([], off)
    ensures off < |blob| && blob[off] != '\0' ==> List(blob, off) == Before([off], List(blob, End(blob, off) + 1))
  {
  }

  /** The vector of an interpreted service: the interpreter and its arguments, the script, the rest. It
      never leaves the string table and fits its 18 places. */
  method InterpArgv(blob: string, off: nat) returns (argv: array<Arg>, n: nat)
    requires Ended(blob) && InterpFine(blob, off)
    ensures argv.Length == NG_MAX_EXEC_ARGS + 2 && n < argv.Length && argv[n] == Null
    ensures var a := List(blob, off);
            argv[..n] == Strings(a.at) + [Script] + Strings(List(blob, a.end + 1).at)
  {
    hide End, List, Short;
    argv := new Arg[NG_MAX_EXEC_ARGS + 2](_ => Null);
    ghost var a := List(blob, off);
    var end;
    end, n := CopyList(blob, off, argv, 0);
    argv[n] := Script;
    ghost var first := argv[..n + 1];
    assert first == Strings(a.at) + [Script];
    var k := n + 1;
    end, n := CopyList(blob, end + 1, argv, k);
    assert argv[..n] == argv[..k] + argv[k..n];
    argv[n] := Null;
  }

  /** The vector of a direct command: a place for a shell, then the words of the command. */
  method DirectArgv(blob: string, off: nat) returns (argv: array<Arg>, n: nat)
    requires Ended(blob) && DirectFine(blob, off)
    ensures argv.Length == NG_MAX_EXEC_ARGS + 2 && n < argv.Length && argv[n] == Null
    ensures n >= 2 && argv[1..n] == Strings(List(blob, off).at)
  {
    argv := new Arg[NG_MAX_EXEC_ARGS + 2](_ => Null);
    var end;
    end, n := CopyList(blob, off, argv, 1);
    argv[n] := Null;
  }
}
