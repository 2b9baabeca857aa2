/** A parsed service, and what the image keeps of it. */
module Parsed {
  import opened Graphs
  import opened Argvs
  import opened Blobs
  import opened Verifiers

  /** A service as its file describes it. A target has no script; `given` tells whether the file names a
      policy for failures. */
  datatype Source = Source(
    name: string, script: string, kind: nat, given: bool, policy: nat, restart: bool, notifyFd: nat,
    startMs: nat, stopMs: nat, retryMs: nat, startTries: nat, orderOnly: bool,
    pre: seq<string>, suf: seq<string>, direct: seq<string>, depOn: seq<string>, depOf: seq<string>)

  /** What the parser lets through. */
  predicate SourceFine(s: Source) {
    && NameFine(s.name) && s.kind <= 2 && s.policy <= 2
    && (s.kind != 2 ==> Plain(s.script) && |s.script| <= NG_MAX_SCRIPT)
    && (s.notifyFd != 0 ==> 3 <= s.notifyFd <= 255 && s.kind == 1) && (s.restart ==> s.kind == 1)
    && s.startMs <= NG_MAX_MS && s.stopMs <= NG_MAX_MS && s.retryMs < 0x1_0000 && s.startTries <= NG_MAX_TRIES
    && (s.pre != [] || s.direct != [] ==> s.kind != 2) && (s.pre != [] ==> s.direct == [])
    && InterpArgs(s.pre, s.suf) && DirectArgs(s.direct)
  }

  /** The words around a script that another interpreter than the shell runs: its absolute path comes first. */
  predicate InterpArgs(pre: seq<string>, suf: seq<string>) {
    && AllWords(pre) && AllWords(suf) && (pre == [] ==> suf == [])
    && (pre != [] ==> pre[0][0] == '/' && |pre[0]| <= NG_MAX_INTERP && |pre| + |suf| <= NG_MAX_EXEC_ARGS)
  }

  /** A command and its arguments; the command is an absolute path or a bare name. */
  predicate DirectArgs(words: seq<string>) {
    && AllWords(words)
    && (words != [] ==>
          && |words[0]| <= NG_MAX_INTERP && |words| <= NG_MAX_EXEC_ARGS && (words[0][0] == '/' || '/' !in words[0]))
  }

  /** The service the supervisor will see, before its prerequisites are counted and its policy is settled. */
  function ServiceFor(s: Source): Service {
    Service(KindOf(s.kind), 0, s.restart, s.orderOnly, s.notifyFd != 0, OnFailWarn,
            if s.startTries != 0 then s.startTries else if s.kind == 1 then 2 else 1,
            if s.startMs != 0 then s.startMs else 90000,
            if s.stopMs != 0 then s.stopMs else 5000, s.retryMs)
  }

  lemma SourceWellFormed(s: Source)
    requires SourceFine(s)
    ensures WellFormed(ServiceFor(s))
  {
  }

  // ---------------------------------------------------------------- strings

  /** The name and the script. */
  function Texts(s: Source): string {
    s.name + "\0" + if s.kind == 2 then "" else s.script + "\0"
  }

  /** The argument lists; an empty string follows each of them. */
  function Args(s: Source): string {
    if s.pre != [] then Packed(s.pre) + "\0" + (Packed(s.suf) + "\0")
    else if s.direct != [] then Packed(s.direct) + "\0"
    else ""
  }

  /** The record of a service whose strings start at `at`. */
  function RecOf(s: Source, at: nat, unmet: nat, nDesc: nat, policy: nat): Rec {
    Rec(unmet, s.kind, policy, s.restart, s.pre != [], s.pre == [] && s.direct != [], false,
        nDesc, s.notifyFd, if s.kind == 2 then NG_NONE else at + |s.name| + 1, at,
        s.startMs, s.stopMs, s.retryMs, s.startTries, s.orderOnly, false,
        if s.pre == [] && s.direct == [] then NG_NONE else at + |Texts(s)|)
  }

  lemma RecService(s: Source, at: nat, unmet: nat, nDesc: nat, policy: nat)
    ensures ServiceOf(RecOf(s, at, unmet, nDesc, policy)) == ServiceFor(s).(unmet := unmet, onFail := PolicyOf(policy))
  {
  }

  /** The record leads to the strings of the service. */
  ghost predicate ReadsBack(r: Rec, blob: string, s: Source) {
    && Ended(blob) && r.nameOff < |blob| && Str(blob, r.nameOff) == s.name
    && (s.kind != 2 ==> r.scriptOff < |blob| && Str(blob, r.scriptOff) == s.script)
    && (s.pre != [] ==> Lists(blob, r.execOff, s.pre) && Lists(blob, List(blob, r.execOff).end + 1, s.suf))
    && (s.direct != [] ==> Lists(blob, r.execOff, s.direct))
  }

  /** Strings that were put in for a fine source make a fine record. */
  lemma RecReads(s: Source, blob: string, at: nat, unmet: nat, nDesc: nat, policy: nat)
    requires SourceFine(s) && Ended(blob) && At(blob, at, Texts(s) + Args(s)) && policy <= 2
    ensures var r := RecOf(s, at, unmet, nDesc, policy); ReadsBack(r, blob, s) && FieldsFine(r, blob)
  {
    hide *;
    AtSplit(blob, at, Texts(s), Args(s));
    TextsRead(s, blob, at);
    ArgsRead(s, blob, at + |Texts(s)|);
    RecReadsBack(s, blob, at, unmet, nDesc, policy);
    RecFields(s, blob, at, unmet, nDesc, policy);
  }

  /** The name and the script of the service are there. */
  ghost predicate TextsThere(s: Source, blob: string, at: nat)
    requires Ended(blob)
  {
    && at < |blob| && Str(blob, at) == s.name
    && (s.kind != 2 ==> at + |s.name| + 1 < |blob| && Str(blob, at + |s.name| + 1) == s.script)
  }

  /** The argument lists of the service are there, as the verifier wants them. */
  ghost predicate ArgsThere(s: Source, blob: string, off: nat)
    requires Ended(blob)
  {
    && (s.pre != [] ==>
          Lists(blob, off, s.pre) && Lists(blob, List(blob, off).end + 1, s.suf) && InterpFine(blob, off))
    && (s.direct != [] ==> Lists(blob, off, s.direct) && DirectFine(blob, off))
  }

  lemma RecReadsBack(s: Source, blob: string, at: nat, unmet: nat, nDesc: nat, policy: nat)
    requires Ended(blob) && TextsThere(s, blob, at) && ArgsThere(s, blob, at + |Texts(s)|)
    ensures ReadsBack(RecOf(s, at, unmet, nDesc, policy), blob, s)
  {
    hide End, List, Str, Lists, InterpFine, DirectFine, Texts, Ended;
  }

  lemma RecFields(s: Source, blob: string, at: nat, unmet: nat, nDesc: nat, policy: nat)
    requires SourceFine(s) && Ended(blob) && TextsThere(s, blob, at)
    requires ArgsThere(s, blob, at + |Texts(s)|) && policy <= 2
    ensures FieldsFine(RecOf(s, at, unmet, nDesc, policy), blob)
  {
    hide End, List, Str, Lists, InterpFine, DirectFine, Texts, Ended, NameFine, AllWords;
  }

  lemma ArgsRead(s: Source, blob: string, off: nat)
    requires SourceFine(s) && Ended(blob) && At(blob, off, Args(s))
    ensures ArgsThere(s, blob, off)
  {
    hide Ended, At, List, Lists, InterpFine, DirectFine, InterpArgs, DirectArgs, NameFine, Packed;
    if s.pre != [] {
      InterpReads(s.pre, s.suf, blob, off);
    } else if s.direct != [] {
      DirectReads(s.direct, blob, off);
    }
  }

  lemma TextsRead(s: Source, blob: string, at: nat)
    requires SourceFine(s) && Ended(blob) && At(blob, at, Texts(s))
    ensures TextsThere(s, blob, at)
  {
    hide End, At, Ended, Str, InterpArgs, DirectArgs;
    var rest := if s.kind == 2 then "" else s.script + "\0";
    AtSplit(blob, at, s.name + "\0", rest);
    StrAt(blob, at, s.name);
    if s.kind != 2 {
      StrAt(blob, at + |s.name| + 1, s.script);
    }
  }

  lemma InterpReads(pre: seq<string>, suf: seq<string>, blob: string, off: nat)
    requires InterpArgs(pre, suf) && Ended(blob) && pre != []
    requires At(blob, off, Packed(pre) + "\0" + (Packed(suf) + "\0"))
    ensures Lists(blob, off, pre) && Lists(blob, List(blob, off).end + 1, suf) && InterpFine(blob, off)
  {
    hide List, End, At, Str, Packed, AllWords, Lists, Ended, InterpFine;
    AtSplit(blob, off, Packed(pre) + "\0", Packed(suf) + "\0");
    ListAt(blob, off, pre);
    var mid := off + |Packed(pre)| + 1;
    ListAt(blob, mid, suf);
    AtChar(blob, mid, Packed(suf) + "\0", 0);
    FirstWord(blob, off, pre);
    InterpLists(pre, suf, blob, off);
  }

  lemma InterpLists(pre: seq<string>, suf: seq<string>, blob: string, off: nat)
    requires Ended(blob) && Lists(blob, off, pre) && Lists(blob, List(blob, off).end + 1, suf)
    requires |pre| + |suf| <= NG_MAX_EXEC_ARGS && List(blob, off).end + 1 < |blob|
    requires off < |blob| && blob[off] == '/' && End(blob, off) - off <= NG_MAX_INTERP
    ensures InterpFine(blob, off)
  {
    hide List, End, Str, Ended;
  }

  lemma DirectReads(words: seq<string>, blob: string, off: nat)
    requires DirectArgs(words) && Ended(blob) && words != [] && At(blob, off, Packed(words) + "\0")
    ensures Lists(blob, off, words) && DirectFine(blob, off)
  {
    ListAt(blob, off, words);
    FirstWord(blob, off, words);
    StrIs(blob, off);
    hide List, End, At, Str, Packed, AllWords;
  }

  lemma StrIs(blob: string, off: nat)
    requires Ended(blob) && off < |blob|
    ensures Str(blob, off) == blob[off..End(blob, off)]
  {
  }

  /** The first word of a list. */
  lemma FirstWord(blob: string, off: nat, words: seq<string>)
    requires Ended(blob) && words != [] && AllWords(words) && At(blob, off, Packed(words) + "\0")
    ensures off < |blob| && Str(blob, off) == words[0]
    ensures blob[off] == words[0][0] != '\0' && End(blob, off) - off == |words[0]|
  {
    FirstApart(blob, off, words);
    WordsApart(words);
    hide *;
    StrAt(blob, off, words[0]);
    AtChar(blob, off, words[0] + "\0", 0);
  }
}
