/** The supervisor, driven by what the kernel and the control socket report. Its global arrays and
    counters are grouped by the invariants that govern them. */
module Engines {
  import opened Counting
  import opened Graphs
  import opened Ledgers
  import opened Runs
  import opened Poison
  import opened Readiness
  import opened Services
  import opened Launches
  import opened Withdrawals
  import opened PidTables
  import opened Quiescence

  const KILL_GRACE_MS := 2000
  const RETRY_MIN_MS := 10
  const RESTART_SETTLED_MS := 10000
  const RESTART_DELAY_MS: seq<nat> := [100, 250, 500, 1000, 2000, 5000]

  /** Marking the services a failure reaches, and i as failed, leaves every service fine except that
      a skipped one may still have a deadline. */
  lemma PoisonFine(c: Scene, s: Services, st: seq<State>, env: Env, i: int)
    requires Complete(c) && |st| == |c.state| && c.state == s.state && c.runs == s.runs
    requires Fine(c.g, s, env, false, i)
    requires forall d :: 0 <= d < |st| && d != i ==> st[d] == c.state[d] || (st[d] == Skipped && Take(c, c.state[d], d))
    requires 0 <= i < |st| ==> SvcFine(c.g.svc[i], st[i], s.want[i], s.runs[i], Has(s, i), env.down, true, Rel(env, i))
    ensures Fine(c.g, s.(state := st), env, true, -1)
  {
    forall x | 0 <= x < |st| && x != i
      ensures SvcFine(c.g.svc[x], st[x], s.want[x], s.runs[x], Has(s, x), env.down, true, Rel(env, x))
    {
      assert FineOne(c.g, s, env, false, x);
    }
  }

  /** The services before b are untouched by clearing the deadlines of skipped ones. */
  lemma SameAfterPoison(b: int, s: Services, s': Services)
    requires |s.state| == |s'.state| && s.want == s'.want && OnlyCleared(s'.state, s.runs, s'.runs)
    requires s'.roots == s.roots
    requires forall x :: 0 <= x < |s.state| && (x < b || (x < s.roots && x != b)) ==> s'.state[x] == s.state[x]
    ensures SameTo(b, s, s')
  {
  }

  /** What becomes of a start that failed. */
  datatype Act = Retry | GiveUp(onFail: OnFail)

  /** Another attempt while there are tries left, and the policy of the service after that. */
  function FailService(v: Service, attempt: nat): Act {
    if attempt < v.startTries then Retry else GiveUp(v.onFail)
  }

  function RetryDelay(v: Service): (d: nat)
    ensures d > 0
  {
    if v.retryMs < RETRY_MIN_MS then RETRY_MIN_MS else v.retryMs
  }

  /** How long the next attempt waits; a process that was given up gets time to go away. */
  function RetryWait(v: Service, stale: bool): (d: nat)
    ensures d > 0
  {
    if stale then KILL_GRACE_MS else RetryDelay(v)
  }

  const MAX_ATTEMPT: nat := 255

  /** The attempt counter saturates. */
  function NextAttempt(a: nat): nat {
    if a < MAX_ATTEMPT then a + 1 else a
  }

  /** The restart delay grows with each restart, and starts over after a service has settled. */
  function BurstOf(r: Run, wasUp: bool, alive: int): nat {
    if wasUp && alive >= RESTART_SETTLED_MS then 0 else r.burst
  }

  const LAST_DELAY: nat := 5

  function Backoff(burst: nat): (d: nat)
    ensures d > 0
  {
    RESTART_DELAY_MS[if burst < LAST_DELAY then burst else LAST_DELAY]
  }

  /** The record of a service whose restart is scheduled at time now. */
  function Rescheduled(r: Run, wasUp: bool, now: int): Run {
    var burst := BurstOf(r, wasUp, now - r.started);
    Abandoned(Closed(r)).(burst := if burst < LAST_DELAY then burst + 1 else burst,
                          restartAt := now + Backoff(burst), staleHold := false)
  }

  lemma RescheduleFacts(g: Graph, s: Services, env: Env, i: nat, kids: map<nat, nat>, wasUp: bool, now: int, t: int)
    requires i < |g.svc| && Fine(g, s, env, false, i) && Counted(s) && PidOk(s.runs, kids) && Has(s, i) && t <= now
    requires g.svc[i].kind != Target && s.state[i] != Running
    requires s.state[i] != Done ==> s.want[i] && s.runs[i].pid == 0 && s.runs[i].stalePid == 0
    requires s.state[i] != Done ==> StartFine(g.svc[i], s.state[i], s.runs[i], Rel(env, i))
    ensures var s' := s.(runs := s.runs[i := Rescheduled(s.runs[i], wasUp, now)]);
            && Fine(g, s', env, false, -1) && Counted(s') && PidOk(s'.runs, kids)
            && OnlyRun(s, s', i) && Shrinks(s, s') && |s'.runs| == |g.svc| && Has(s', i)
            && SameTo(i, s, s') && StartsLater(s.runs, s'.runs, t) && RestartsLater(s.runs, s'.runs, t)
    ensures Rescheduled(s.runs[i], wasUp, now).restartAt > now
  {
    var r := Rescheduled(s.runs[i], wasUp, now);
    RunFacts(g, s, env, i, r, kids);
    var s' := s.(runs := s.runs[i := r]);
    FineNow(g, s', env, i);
    OnlyRunFacts(s, s', i, t);
  }

  lemma RescheduledFacts(r: Run, wasUp: bool, now: int)
    ensures Rescheduled(r, wasUp, now).starting == r.starting && Rescheduled(r, wasUp, now).restartAt > now
    ensures Rescheduled(r, wasUp, now).pid == 0 && !Rescheduled(r, wasUp, now).ntfOpen
    ensures !Rescheduled(r, wasUp, now).outOpen
  {
  }

  function Grace(): (d: nat)
    ensures d > 0
  {
    KILL_GRACE_MS
  }

  /** What reading a pipe returns. */
  datatype Read = Data(newline: bool) | Interrupted | WouldBlock | Hangup

  /** Nothing to learn from. */
  predicate Passing(r: Read) {
    r == Data(false) || r == Interrupted
  }

  /** A newline comes before the pipe is empty or closed. */
  predicate Reports(input: seq<Read>) {
    input != [] && (input[0] == Data(true) || (Passing(input[0]) && Reports(input[1..])))
  }

  /** The pipe is closed before it is empty and before a newline. */
  predicate HangsUp(input: seq<Read>) {
    input != [] && (input[0] == Hangup || (Passing(input[0]) && HangsUp(input[1..])))
  }

  /** A report of readiness still counts. */
  predicate Listening(r: Run) {
    r.ntfOpen && r.starting && !r.timedOut && !r.hup
  }

  /** What reading `input` from its notify pipe made of service i, which was waited for: it reported, it hung
      up, or it stands as it was. */
  ghost predicate Told(s: Services, up: seq<bool>, s': Services, up': seq<bool>, i: nat, input: seq<Read>) {
    && i < |s.state| == |s.runs| == |s'.state| == |s'.runs| == |up| == |up'|
    && (Reports(input) ==> s'.state[i] == Done && up'[i] && !s'.runs[i].starting)
    && (HangsUp(input) ==> s'.state == s.state && s'.runs == s.runs[i := s.runs[i].(ntfOpen := false, hup := true)])
    && (!Reports(input) && !HangsUp(input) ==> s'.state == s.state && s'.runs == s.runs)
    && (!Reports(input) ==> up'[i] == up[i])
  }

  /** The same, before read n. */
  ghost predicate Telling(s: Services, up: seq<bool>, s': Services, up': seq<bool>, i: nat, input: seq<Read>, n: nat) {
    && i < |s.state| == |s.runs| == |s'.state| == |s'.runs| == |up| == |up'| && n <= |input|
    && (|| (&& s'.state == s.state && s'.runs == s.runs && up'[i] == up[i]
            && Reports(input) == Reports(input[n..]) && HangsUp(input) == HangsUp(input[n..]))
        || (Reports(input) && !HangsUp(input) && s'.state[i] == Done && up'[i] && !s'.runs[i].starting)
        || (&& !Reports(input) && HangsUp(input) && s'.state == s.state && up'[i] == up[i]
            && s'.runs == s.runs[i := s.runs[i].(ntfOpen := false, hup := true)]))
  }

  /** At most the record of i has changed. */
  ghost predicate Alone(s: Services, s': Services, i: nat) {
    && i < |s.runs| == |s'.runs| && s'.state == s.state
    && forall x :: 0 <= x < |s.runs| && x != i ==> s'.runs[x] == s.runs[x]
  }

  lemma AloneFrom(s: Services, s': Services, i: nat, r: Run)
    requires i < |s.runs| && s'.state == s.state && (s'.runs == s.runs || s'.runs == s.runs[i := r])
    ensures Alone(s, s', i)
  {
  }

  lemma AloneTwice(s: Services, s': Services, s'': Services, i: nat)
    requires Alone(s, s', i) && Alone(s', s'', i)
    ensures Alone(s, s'', i)
  {
  }

  lemma AloneIs(s: Services, s': Services, i: nat)
    requires Alone(s, s', i)
    ensures s'.state == s.state && i < |s.runs| && s'.runs == s.runs[i := s'.runs[i]]
  {
  }

  lemma TellingStarts(s: Services, up: seq<bool>, i: nat, input: seq<Read>)
    requires i < |s.state| == |s.runs| == |up|
    ensures Telling(s, up, s, up, i, input, 0)
  {
    assert input[0..] == input;
  }

  /** The pipe is empty or closed, or all was read. */
  lemma TellingEnds(s: Services, up: seq<bool>, s': Services, up': seq<bool>, i: nat, input: seq<Read>, n: nat)
    requires Telling(s, up, s', up', i, input, n) && Listening(s.runs[i])
    requires n == |input| || input[n] == WouldBlock || !s'.runs[i].ntfOpen
    ensures Told(s, up, s', up', i, input)
  {
    if n < |input| {
      assert input[n..][0] == input[n];
    }
  }

  /** What one read does, as far as it matters here. */
  ghost predicate OneRead(s: Services, up: seq<bool>, s': Services, up': seq<bool>, i: nat, read: Read) {
    && PipeEvent(s, up, s', up', i)
    && (Passing(read) || (read.Data? && !Listening(s.runs[i])) ==> s' == s && up' == up)
    && (read == Data(true) && Listening(s.runs[i]) ==> s'.state[i] == Done && up'[i] && !s'.runs[i].starting)
    && (read == Hangup ==>
          && s'.state == s.state && up'[i] == up[i]
          && s'.runs == s.runs[i := s.runs[i].(ntfOpen := false, hup := s.runs[i].hup || s.runs[i].starting)])
  }

  lemma TellingStep(s: Services, up: seq<bool>, m: Services, mid: seq<bool>, s': Services, up': seq<bool>, i: nat,
                    input: seq<Read>, n: nat)
    requires Telling(s, up, m, mid, i, input, n) && Listening(s.runs[i]) && n < |input| && input[n] != WouldBlock
    requires m.runs[i].ntfOpen && OneRead(m, mid, s', up', i, input[n])
    ensures Telling(s, up, s', up', i, input, n + 1)
  {
    assert input[n..][0] == input[n] && input[n..][1..] == input[n + 1..];
  }

  lemma OneReadIs(s: Services, up: seq<bool>, s': Services, up': seq<bool>, i: nat, read: Read)
    requires PipeEvent(s, up, s', up', i)
    requires Passing(read) || (read.Data? && !Listening(s.runs[i])) ==> s' == s && up' == up
    requires read == Data(true) && Listening(s.runs[i]) ==> s'.state[i] == Done && up'[i] && !s'.runs[i].starting
    requires read == Hangup ==>
               && s'.state == s.state && up'[i] == up[i]
               && s'.runs == s.runs[i := s.runs[i].(ntfOpen := false, hup := s.runs[i].hup || s.runs[i].starting)]
    ensures OneRead(s, up, s', up', i, read)
  {
  }

  /** The last words of service i were a report that counts. */
  predicate InTime(r: Run, input: seq<Read>) {
    Listening(r) && !r.ntfExec && Reports(input)
  }

  /** What the last words of service i left of it. */
  ghost predicate Heard(s: Services, s': Services, i: nat, input: seq<Read>) {
    && i < |s.state| == |s.runs| == |s'.state| == |s'.runs|
    && s'.state[i] == (if InTime(s.runs[i], input) then Done else s.state[i])
    && s'.runs[i].attempt == s.runs[i].attempt && (s'.runs[i].hup == s.runs[i].hup || s.runs[i].ntfOpen)
    && s'.runs[i].timedOut == s.runs[i].timedOut && (!InTime(s.runs[i], input) ==> Alone(s, s', i))
  }

  lemma HeardFrom(s: Services, up: seq<bool>, s': Services, up': seq<bool>, i: nat, input: seq<Read>)
    requires PipeEvent(s, up, s', up', i) && (!s.runs[i].ntfOpen || s.runs[i].ntfExec ==> s' == s)
    requires s.runs[i].ntfOpen && !s.runs[i].ntfExec ==>
               if Listening(s.runs[i]) then Told(s, up, s', up', i, input) else Alone(s, s', i)
    ensures Heard(s, s', i, input)
  {
  }

  lemma HeardSame(s: Services, m: Services, s': Services, i: nat, input: seq<Read>)
    requires Heard(s, m, i, input) && s' == m.(runs := m.runs[i := m.runs[i].(pid := 0)])
    ensures Heard(s, s', i, input)
  {
  }

  lemma HeardIs(s: Services, s': Services, i: nat, input: seq<Read>)
    requires Heard(s, s', i, input)
    ensures i < |s.state| == |s.runs| == |s'.state| == |s'.runs|
    ensures s'.state[i] == (if InTime(s.runs[i], input) then Done else s.state[i])
    ensures s'.runs[i].attempt == s.runs[i].attempt && (s'.runs[i].hup == s.runs[i].hup || s.runs[i].ntfOpen)
    ensures s'.runs[i].timedOut == s.runs[i].timedOut
    ensures !InTime(s.runs[i], input) ==> Alone(s, s', i)
  {
  }

  /** What the exit of the process of service i means, when shutdown has not begun. `t` is the time before it. */
  ghost predicate Outcome(g: Graph, s: Services, s': Services, up: seq<bool>, i: nat, ok: bool, input: seq<Read>,
                          t: int) {
    && i < |s.state| == |s.want| == |s.runs| == |s'.state| == |s'.runs| == |up| == |g.svc|
    && var r := s.runs[i];
       if s.want[i] then !up[i] && s'.runs[i].restartAt == 0 && s'.state[i] != Running
       else if s.state[i] == Done || InTime(r, input) then
         && !up[i] && s'.state[i] == Done && (g.svc[i].restart ==> s'.runs[i].restartAt > t)
         && (!g.svc[i].restart && !g.svc[i].orderOnly && !InTime(r, input) ==>
               GoneLeaves(Scene(g, s.state, up, s.runs[i := s'.runs[i]]), i, s'.state))
       else if g.svc[i].kind == Oneshot && ok && !r.timedOut && !r.hup then s'.state[i] == Done && up[i]
       else if NextAttempt(r.attempt) < g.svc[i].startTries then s'.state[i] == Running && s'.runs[i].restartAt > t
       else s'.state[i] == Failed && !up[i]
  }

  /** From what the last words left to what the exit makes of it. */
  lemma OutcomeFrom(g: Graph, s: Services, m: Services, s': Services, up: seq<bool>, i: nat, ok: bool, input: seq<Read>,
                    t: int, t': int)
    requires |s.want| == |s'.state| == |s'.runs| == |up| == |g.svc| == |s.state| && Heard(s, m, i, input) && t <= t'
    requires s.runs[i].ntfOpen ==> g.svc[i].kind == Daemon
    requires m.state[i] == Running || m.state[i] == Done
    requires s.want[i] ==>
               !up[i] && s'.runs[i].restartAt == 0 && s'.state[i] == (if m.state[i] == Running then Pending else Done)
    requires !s.want[i] && m.state[i] == Done ==>
               && !up[i] && s'.state[i] == Done && (g.svc[i].restart ==> s'.runs[i].restartAt > t')
               && (!g.svc[i].restart && !g.svc[i].orderOnly ==>
                     GoneLeaves(Scene(g, m.state, up, m.runs[i := s'.runs[i]]), i, s'.state))
    requires !s.want[i] && m.state[i] == Running ==>
               var done := g.svc[i].kind == Oneshot && ok && !m.runs[i].timedOut && !m.runs[i].hup;
               if done then s'.state[i] == Done && up[i]
               else if NextAttempt(m.runs[i].attempt) < g.svc[i].startTries then
                 s'.state[i] == Running && s'.runs[i].restartAt > t'
               else s'.state[i] == Failed && !up[i]
    ensures Outcome(g, s, s', up, i, ok, input, t)
  {
    hide GoneLeaves;
    if !InTime(s.runs[i], input) {
      AloneIs(s, m, i);
      LastSet(s.runs, i, m.runs[i], s'.runs[i]);
    }
  }

  lemma ListeningIs(r: Run, read: Read)
    ensures Listening(r) <==> r.ntfOpen && r.starting && !r.timedOut && !r.hup
    ensures Passing(read) <==> read == Data(false) || read == Interrupted
  {
  }

  lemma LastSet(runs: seq<Run>, i: nat, a: Run, b: Run)
    requires i < |runs|
    ensures runs[i := a][i] == a && runs[i := a][i := b] == runs[i := b]
  {
  }

  lemma FailFacts(v: Service, attempt: nat)
    ensures FailService(v, attempt).Retry? <==> attempt < v.startTries
  {
  }

  lemma BootIdle(g: Graph)
    ensures !BootReady(g).draining && BootBook(g).booted == 0 && LaunchesSafe(g, [])
  {
  }

  lemma SoundRoots(g: Graph)
    requires Sound(g)
    ensures g.roots <= |g.svc|
  {
  }

  /** A request on the control socket. A name that no service has is an index past the last one. */
  datatype Command = CmdStart(svc: nat) | CmdStop(svc: nat) | CmdRestart(svc: nat) | CmdResume

  datatype Reply = Accepted | ShuttingDown | NoSuchService | IsATarget | IsBusy

  /** Whether a request is carried out. */
  function Answer(g: Graph, s: Services, down: bool, c: Command): Reply
    requires |s.runs| == |g.svc|
  {
    if down then ShuttingDown
    else if c.CmdResume? then Accepted
    else if c.svc >= |g.svc| then NoSuchService
    else if g.svc[c.svc].kind == Target then IsATarget
    else if s.runs[c.svc].op != NoOp then IsBusy
    else Accepted
  }

  lemma AnswerFacts(g: Graph, s: Services, down: bool, c: Command)
    requires |s.runs| == |g.svc| && Answer(g, s, down, c) == Accepted
    ensures !down && (!c.CmdResume? ==> c.svc < |g.svc| && g.svc[c.svc].kind != Target && s.runs[c.svc].op == NoOp)
  {
  }

  /** What the kernel and the clients report, in the order the event loop takes it up. */
  datatype Event =
    | Turn
    | ChildGone(pid: nat, ok: bool, lastWords: seq<Read>)
    | Notified(svc: nat, input: seq<Read>)
    | ExecReport(svc: nat, read: Read)
    | OutputClosed(svc: nat)
    | Request(command: Command)
    | Shutdown

  /** Whether another failed attempt leaves the release of a service alone: it has none that counts, or a
      try left. */
  predicate Sure(v: Service, released: bool, attempt: nat) {
    released && !v.orderOnly ==> NextAttempt(attempt) < v.startTries
  }

  lemma SureIs(v: Service, released: bool, attempt: nat)
    ensures Sure(v, released, attempt) && FailService(v, NextAttempt(attempt)).GiveUp? ==> !released || v.orderOnly
    ensures !released || v.orderOnly || (attempt == 0 && v.startTries >= 2) ==> Sure(v, released, attempt)
  {
  }

  /** Only a service with more than one try gets another one. */
  lemma RetryMeans(v: Service, attempt: nat)
    ensures FailService(v, NextAttempt(attempt)).Retry? ==> v.startTries >= 2
    ensures !FailService(v, NextAttempt(attempt)).Retry? <==> FailService(v, NextAttempt(attempt)).GiveUp?
  {
  }

  lemma BootUnreleased(g: Graph)
    ensures forall down, i: nat :: !Rel(Env(down, BootReady(g).released), i)
  {
  }

  class Engine {
    const g: Graph
    /** Missing when its memory could not be had; a scan of the live list stands in for it. */
    const pids: PidTable?

    /** The kernel's view: every child that was not reaped, and its service. */
    var children: map<nat, nat>
    var clock: int
    var shuttingDown: bool

    var rd: Ready
    var sv: Services

    ghost var book: Book
    /** Every launch so far, with its circumstances. */
    ghost var launches: seq<Launch>

    /** The process table, where there is one, holds exactly the unreaped children and stays at most
        a quarter full. */
    ghost predicate TableOk()
      reads this`children, (if pids == null then {} else {pids.key, pids.val})
    {
      pids != null ==>
        && pids.Valid() && pids.Map() == children
        && 4 * |g.svc| <= pids.key.Length && 64 <= pids.key.Length
    }

    /** The invariant, but for the service `except`. */
    ghost predicate InvBut(except: int)
      reads this`rd, this`book, this`sv, this`children, this`launches, this`shuttingDown,
            (if pids == null then {} else {pids.key, pids.val})
    {
      && Consistent(g, rd, book, -1)
      && Counted(sv) && Fine(g, sv, Env(shuttingDown, rd.released), false, except)
      && PidOk(sv.runs, children) && TableOk()
      && LaunchesSafe(g, launches)
    }

    ghost predicate Inv()
      reads this`rd, this`book, this`sv, this`children, this`launches, this`shuttingDown,
            (if pids == null then {} else {pids.key, pids.val})
    {
      InvBut(-1)
    }

    // ---------------------------------------------------------------- small steps

    method NowMs() returns (t: int)
      modifies this`clock
      ensures old(clock) <= clock == t
    {
      t :| t >= clock;
      clock := t;
    }

    method SetUp(i: nat, v: bool)
      requires i < |rd.up| && rd.nUp == Count(rd.up, IsSet)
      modifies this`rd, this`book
      ensures rd == old(rd).(up := old(rd).up[i := v], nUp := rd.nUp) && rd.nUp == Count(rd.up, IsSet)
      ensures book == old(book).(ever := if v && !old(rd).up[i] then old(book).ever + {i} else old(book).ever)
    {
      CountUpdate(rd.up, i, v, IsSet);
      if rd.up[i] == v {
        return;
      }
      rd := rd.(up := rd.up[i := v], nUp := if v then rd.nUp + 1 else rd.nUp - 1);
      if v {
        book := book.(ever := book.ever + {i});
      }
    }

    method MarkDone(i: nat)
      requires i < |sv.state| == |sv.runs| && Counted(sv)
      modifies this`sv
      ensures Counted(sv)
      ensures sv == old(sv).(state := old(sv).state[i := Done],
                             runs := old(sv).runs[i := old(sv).runs[i].(starting := false)],
                             nActive := sv.nActive, nDone := sv.nDone, nPending := sv.nPending)
    {
      StateChange(sv.state, i, Done);
      CountUpdate(sv.runs, i, sv.runs[i].(starting := false), HasOp);
      sv := sv.(runs := sv.runs[i := sv.runs[i].(starting := false)]);
      if sv.state[i] == Running {
        sv := sv.(nActive := sv.nActive - 1);
      } else if sv.state[i] == Pending {
        sv := sv.(nPending := sv.nPending - 1);
      }
      if sv.state[i] != Done {
        sv := sv.(state := sv.state[i := Done], nDone := sv.nDone + 1);
      }
    }

    method MarkPending(i: nat)
      requires i < |sv.state| && Counted(sv)
      modifies this`sv
      ensures Counted(sv)
      ensures sv == old(sv).(state := old(sv).state[i := Pending],
                             nActive := sv.nActive, nDone := sv.nDone, nPending := sv.nPending)
    {
      StateChange(sv.state, i, Pending);
      if sv.state[i] == Pending {
        return;
      }
      if sv.state[i] == Running {
        sv := sv.(nActive := sv.nActive - 1);
      } else if sv.state[i] == Done {
        sv := sv.(nDone := sv.nDone - 1);
      }
      sv := sv.(state := sv.state[i := Pending], nPending := sv.nPending + 1);
    }

    // ---------------------------------------------------------------- the live list

    method LiveAdd(i: nat, ghost slack: bool)
      requires i < |g.svc| && Fine(g, sv, Env(shuttingDown, rd.released), slack, i) && !Has(sv, i)
      modifies this`sv
      ensures Fine(g, sv, Env(shuttingDown, rd.released), slack, i) && Has(sv, i)
      ensures sv == old(sv).(live := sv.live, nLive := old(sv).nLive + 1, livePos := sv.livePos)
    {
      FineAdd(g, sv, Env(shuttingDown, rd.released), slack, i);
      hide AllFine, InLive;
      sv := sv.(live := sv.live[sv.nLive := i], nLive := sv.nLive + 1, livePos := sv.livePos[i := sv.nLive]);
    }

    /** The last service of the list takes the place of i. */
    method LiveDel(i: nat, ghost slack: bool)
      requires i < |g.svc| && Fine(g, sv, Env(shuttingDown, rd.released), slack, i) && Has(sv, i)
      modifies this`sv
      ensures Fine(g, sv, Env(shuttingDown, rd.released), slack, i) && !Has(sv, i) && Shrinks(old(sv), sv)
      ensures sv.nLive + 1 == old(sv).nLive && old(sv).livePos[i] < old(sv).nLive
      ensures sv == old(sv).(live := old(sv).live[old(sv).livePos[i] := old(sv).live[old(sv).nLive - 1]],
                             nLive := sv.nLive, livePos := sv.livePos)
    {
      FineDel(g, sv, Env(shuttingDown, rd.released), slack, i);
      hide AllFine, InLive, Shrinks;
      var pos, last := sv.livePos[i], sv.live[sv.nLive - 1];
      sv := sv.(live := sv.live[pos := last], nLive := sv.nLive - 1, livePos := sv.livePos[last := pos]);
    }

    /** Service i needs attention. */
    method Attend(i: nat)
      requires i < |g.svc| && Fine(g, sv, Env(shuttingDown, rd.released), false, i)
      modifies this`sv
      ensures Fine(g, sv, Env(shuttingDown, rd.released), false, i) && Has(sv, i)
      ensures sv == old(sv).(live := sv.live, nLive := sv.nLive, livePos := sv.livePos)
      ensures old(Has(sv, i)) ==> Shrinks(old(sv), sv)
    {
      hide AllFine, InLive, Shrinks;
      ShrinksNot(sv, sv);
      if !Has(sv, i) {
        LiveAdd(i, false);
      }
    }

    /** Drops a service that needs no more attention. */
    method MaybeFree(i: nat, ghost slack: bool)
      requires i < |g.svc| && Fine(g, sv, Env(shuttingDown, rd.released), slack, i)
      requires SvcFine(g.svc[i], sv.state[i], sv.want[i], sv.runs[i], Has(sv, i) && Busy(sv.runs[i]), shuttingDown,
                       slack, Rel(Env(shuttingDown, rd.released), i))
      modifies this`sv
      ensures Fine(g, sv, Env(shuttingDown, rd.released), slack, -1)
      ensures Has(sv, i) == (old(Has(sv, i)) && Busy(sv.runs[i])) && Shrinks(old(sv), sv)
      ensures sv == old(sv).(live := sv.live, nLive := sv.nLive, livePos := sv.livePos)
      ensures if old(Has(sv, i)) && !Busy(sv.runs[i]) then
                && sv.nLive + 1 == old(sv).nLive && old(sv).livePos[i] < old(sv).nLive
                && sv.live == old(sv).live[old(sv).livePos[i] := old(sv).live[old(sv).nLive - 1]]
              else sv == old(sv)
    {
      hide AllFine, InLive;
      if !Busy(sv.runs[i]) && Has(sv, i) {
        LiveDel(i, slack);
      }
      FineAgain(g, sv, Env(shuttingDown, rd.released), slack, i);
    }

    // ---------------------------------------------------------------- taking readiness back

    /** Raises the counter behind one late edge and withdraws the target it leads to. */
    method TakeBack(k: nat, rt: nat, ghost late: set<nat>, ghost was: seq<bool>, ghost fall: set<nat>)
      returns (rt': nat, ghost late': set<nat>)
      requires Taking(g, was, fall, late, rd, book) && k in late
      requires rt <= |rd.rqueue| && Backlog(was, rd.released, rd.rqueue, rt)
      modifies this`rd, this`book
      ensures Taking(g, was, fall, late', rd, book) && book == old(book).(owe := book.owe)
      ensures rt <= rt' <= |rd.rqueue| == |old(rd).rqueue| && Backlog(was, rd.released, rd.rqueue, rt')
      ensures rd.rqueue[..rt] == old(rd).rqueue[..rt] && SameQueue(old(rd), rd)
      ensures forall e :: e in late' <==> (e in late && e != k) || (0 <= e < |g.src| && g.src[e] in rd.rqueue[rt..rt'])
      ensures OnlyTargets(g, old(rd).up, rd.up, fall)
    {
      hide *;
      TakeStep(g, was, fall, late, rd, book, k);
      TakingShape(g, was, fall, late, rd, book);
      var d := g.dst[k];
      book := book.(owe := book.owe[k := book.owe[k] + 1]);
      if !Sinks(g, rd.released, d) {
        OnlyTargetsKeep(g, rd, rd.(unmet := rd.unmet[d := rd.unmet[d] + 1]), fall, d);
        rd := rd.(unmet := rd.unmet[d := rd.unmet[d] + 1]);
        rt', late' := rt, late - {k};
        return;
      }
      ghost var r, b := old(rd), old(book);
      TakingCount(g, was, fall, late, r, b);
      rd := rd.(unmet := rd.unmet[d := rd.unmet[d] + 1], released := rd.released[d := false]);
      SetUp(d, false);
      SinkStep(g, was, fall, late, r, b, k, rt, rd.nUp);
      rd := rd.(rqueue := rd.rqueue[rt := d]);
      rt', late' := rt + 1, late - {k} + RowOf(g, d);
      OnlyTargetsKeep(g, r, rd, fall, d);
    }

    /** Follows every edge of j. */
    method ReclaimRow(j: nat, rt: nat, ghost late: set<nat>, ghost was: seq<bool>, ghost fall: set<nat>)
      returns (rt': nat, ghost late': set<nat>)
      requires Taking(g, was, fall, late, rd, book)
      requires j < |g.svc| && forall e :: 0 <= e < |g.src| && g.src[e] == j ==> e in late
      requires rt <= |rd.rqueue| && j in rd.rqueue[..rt] && Backlog(was, rd.released, rd.rqueue, rt)
      modifies this`rd, this`book
      ensures Taking(g, was, fall, late', rd, book) && book == old(book).(owe := book.owe)
      ensures rt <= rt' <= |rd.rqueue| == |old(rd).rqueue| && Backlog(was, rd.released, rd.rqueue, rt')
      ensures rd.rqueue[..rt] == old(rd).rqueue[..rt] && SameQueue(old(rd), rd)
      ensures forall e :: e in late' <==>
                (e in late && !(0 <= e < |g.src| && g.src[e] == j))
                    || (0 <= e < |g.src| && g.src[e] in rd.rqueue[rt..rt'])
      ensures OnlyTargets(g, old(rd).up, rd.up, fall)
    {
      hide *;
      TakingShape(g, was, fall, late, rd, book);
      RowRange(g, j);
      OnlyTargetsKeep(g, rd, rd, fall, j);
      rt', late' := rt, late;
      var k := g.roff[j];
      while k < g.roff[j + 1]
        invariant g.roff[j] <= k <= g.roff[j + 1]
        invariant Taking(g, was, fall, late', rd, book) && book == old(book).(owe := book.owe)
        invariant rt <= rt' <= |rd.rqueue| == |old(rd).rqueue| && Backlog(was, rd.released, rd.rqueue, rt')
        invariant rd.rqueue[..rt] == old(rd).rqueue[..rt] && SameQueue(old(rd), rd)
        invariant forall e :: e in late' <==>
                    (e in late && !(g.roff[j] <= e < k)) || (0 <= e < |g.src| && g.src[e] in rd.rqueue[rt..rt'])
        invariant OnlyTargets(g, old(rd).up, rd.up, fall)
      {
        ghost var before, r := rt', rd;
        rt', late' := TakeBack(k, rt', late', was, fall);
        assert rd.rqueue[rt..rt'] == r.rqueue[rt..before] + rd.rqueue[before..rt'] by {
          assert rd.rqueue[..before] == r.rqueue[..before];
        }
        OnlyTargetsTwice(g, old(rd), r, rd, fall);
        BacklogNew(was, rd.released, rd.rqueue, rt, rt', j);
        k := k + 1;
      }
    }

    /** Takes the release of i back, and with it that of every uptime target that rests on it. */
    method Reclaim(i: nat)
      requires i < |g.svc| && !IsTarget(g, i)
      requires Consistent(g, rd, book, i) && !rd.up[i]
      requires (rd.released[i] ==> i in book.ever) && (g.svc[i].orderOnly && i in book.ever ==> rd.released[i])
      requires rd.draining ==> !rd.released[i] || g.svc[i].orderOnly
      modifies this`rd, this`book
      ensures Consistent(g, rd, book, -1) && SameQueue(old(rd), rd)
      ensures forall x :: 0 <= x < |g.svc| ==>
                rd.released[x] == (old(rd).released[x] && !Falls(g, old(rd).released, i, x))
      ensures OnlyTargets(g, old(rd).up, rd.up, Falling(g, old(rd).released, i))
      ensures book == old(book).(owe := book.owe)
    {
      hide Ledger, TargetsOk, QueueOk, Rows, Count, Falls;
      if !rd.released[i] || g.svc[i].orderOnly {
        NothingFalls(g, rd.released, i);
        ReadyAgain(g, rd, book, i);
        return;
      }
      Withdraw(i);
    }

    /** The work list of a withdrawal, started with i. */
    method Withdraw(i: nat)
      requires i < |g.svc| && !IsTarget(g, i) && !g.svc[i].orderOnly
      requires Consistent(g, rd, book, i) && |rd.up| == |rd.released| == |rd.rqueue| == |g.svc|
      requires rd.released[i] && !rd.up[i] && Edges(g)
      requires !rd.draining
      modifies this`rd, this`book
      ensures Consistent(g, rd, book, -1) && |rd.released| == |g.svc| && SameQueue(old(rd), rd)
      ensures forall x :: 0 <= x < |g.svc| ==>
                rd.released[x] == (old(rd).released[x] && !Falls(g, old(rd).released, i, x))
      ensures OnlyTargets(g, old(rd).up, rd.up, Falling(g, old(rd).released, i))
      ensures book == old(book).(owe := book.owe)
    {
      hide *;
      ghost var r, b := rd, book;
      ghost var was, fall, late := rd.released, Falling(g, rd.released, i), {};
      OnlyTargetsKeep(g, rd, rd, fall, i);
      TakingStarts(g, rd, book, i);
      late := RowSet(g, i, rd, book);
      rd := rd.(released := rd.released[i := false], rqueue := rd.rqueue[0 := i]);
      OnlyTargetsKeep(g, r, rd, fall, i);
      var rh, rt := 0, 1;
      while rh < rt
        invariant Taking(g, was, fall, late, rd, book) && book == old(book).(owe := book.owe)
        invariant rh <= rt <= |rd.rqueue| == |g.svc| && 0 < rt
        invariant rd.rqueue[0] == i && Backlog(was, rd.released, rd.rqueue, rt)
        invariant forall e :: e in late <==> 0 <= e < |g.src| && g.src[e] in rd.rqueue[rh..rt]
        invariant OnlyTargets(g, r.up, rd.up, fall) && SameQueue(r, rd)
        decreases |g.svc| - rh
      {
        var j := rd.rqueue[rh];
        ghost var q, before := rd, rt;
        assert q.rqueue[rh..rt] == [j] + q.rqueue[rh + 1..rt];
        BacklogAt(was, rd.released, rd.rqueue, rh, rt);
        rt, late := ReclaimRow(j, rt, late, was, fall);
        OnlyTargetsTwice(g, r, q, rd, fall);
        rh := rh + 1;
        assert rd.rqueue[..before][0] == q.rqueue[..before][0];
        assert rd.rqueue[rh..rt] == q.rqueue[rh..before] + rd.rqueue[before..rt] by {
          assert rd.rqueue[..before] == q.rqueue[..before];
        }
      }
      BacklogAt(was, rd.released, rd.rqueue, 0, rt);
      assert late == {};
      TakingEnds(g, i, r, b, rd, book);
    }

    /** Service i is no longer up. Unless it only orders its dependents, they wait for it again. */
    method GoDown(i: nat)
      requires i < |g.svc| && !IsTarget(g, i) && Consistent(g, rd, book, -1)
      requires rd.draining ==> !rd.released[i] || g.svc[i].orderOnly
      modifies this`rd, this`book
      ensures Consistent(g, rd, book, -1) && SameQueue(old(rd), rd) && book == old(book).(owe := book.owe)
      ensures !rd.up[i] && (rd.released[i] ==> g.svc[i].orderOnly)
      ensures forall x :: 0 <= x < |g.svc| ==>
                rd.released[x] == (old(rd).released[x] && !Falls(g, old(rd).released, i, x))
      ensures ReadySameTo(i, old(rd), rd)
      ensures !old(rd).released[i] || g.svc[i].orderOnly ==> rd.released == old(rd).released
    {
      hide Ledger, TargetsOk, UpOk, QueueOk, Rows, Count, Falls, Falling;
      ghost var r := rd;
      ReadyAt(g, rd, book, i);
      NothingFalls(g, rd.released, i);
      FallingIs(g, rd.released, i);
      if !rd.up[i] && !rd.released[i] {
        return;
      }
      SetUp(i, false);
      UpChange(g, r, book, i, false, rd.nUp, book.ever);
      Reclaim(i);
    }

    // ---------------------------------------------------------------- failures

    /** Clears the deadline of the skipped service at position k of the live list. */
    method ClearRetry(k: nat)
      requires Fine(g, sv, Env(shuttingDown, rd.released), true, -1)
      requires PidOk(sv.runs, children) && sv.nOps == Count(sv.runs, HasOp)
      requires k < sv.nLive && sv.live[k] < |g.svc| && sv.livePos[sv.live[k]] == k && Has(sv, sv.live[k])
      requires sv.state[sv.live[k]] == Skipped
      modifies this`sv
      ensures Fine(g, sv, Env(shuttingDown, rd.released), true, -1)
      ensures PidOk(sv.runs, children) && sv.nOps == Count(sv.runs, HasOp)
      ensures sv == old(sv).(runs := old(sv).runs[old(sv).live[k] := NoRetry(old(sv).runs[old(sv).live[k]])],
                             live := sv.live, nLive := sv.nLive, livePos := sv.livePos)
      ensures Shrinks(old(sv), sv)
      ensures (sv.live == old(sv).live && sv.nLive == old(sv).nLive)
           || (sv.live == old(sv).live[k := old(sv).live[old(sv).nLive - 1]] && sv.nLive == old(sv).nLive - 1)
    {
      hide AllFine, PidOk, Count, Shrinks, InLive;
      var d := sv.live[k];
      var r := NoRetry(sv.runs[d]);
      FineAt(g, sv, Env(shuttingDown, rd.released), true, d);
      FineRun(g, sv, Env(shuttingDown, rd.released), true, d, r);
      PidSame(sv.runs, children, d, r);
      CountUpdate(sv.runs, d, r, HasOp);
      ghost var s := sv;
      sv := sv.(runs := sv.runs[d := r]);
      ShrinksNot(s, sv);
      ghost var s' := sv;
      MaybeFree(d, true);
      ShrinksTwice(s, s', sv);
    }

    /** Takes the deadlines of skipped services away, and their number off the counters. */
    method SkippedNote(skipped: nat, undone: nat, waiting: nat)
      requires Fine(g, sv, Env(shuttingDown, rd.released), true, -1)
      requires PidOk(sv.runs, children) && sv.nOps == Count(sv.runs, HasOp)
      requires waiting <= skipped && skipped - waiting <= sv.nPending && waiting <= sv.nActive && undone <= sv.nDone
      requires StateCounts(sv.state, sv.nActive - waiting, sv.nDone - undone, sv.nPending - (skipped - waiting))
      modifies this`sv
      ensures Fine(g, sv, Env(shuttingDown, rd.released), false, -1) && PidOk(sv.runs, children) && Counted(sv)
      ensures sv.state == old(sv).state && sv.want == old(sv).want
      ensures OnlyCleared(sv.state, old(sv).runs, sv.runs) && sv.roots == old(sv).roots
      ensures Shrinks(old(sv), sv)
    {
      hide AllFine, PidOk, Count, Shrinks, OnlyCleared, ClearedTo, InLive, LiveOk;
      OnlyClearedNot(sv.state, sv.runs);
      ShrinksNot(sv, sv);
      ClearedNone(g, sv, Env(shuttingDown, rd.released));
      var k := 0;
      while k < sv.nLive
        invariant 0 <= k <= sv.nLive
        invariant Fine(g, sv, Env(shuttingDown, rd.released), true, -1)
        invariant PidOk(sv.runs, children) && sv.nOps == Count(sv.runs, HasOp)
        invariant sv == old(sv).(runs := sv.runs, live := sv.live, nLive := sv.nLive, livePos := sv.livePos)
        invariant ClearedTo(sv, k) && OnlyCleared(sv.state, old(sv).runs, sv.runs) && Shrinks(old(sv), sv)
        decreases sv.nLive - k
      {
        ghost var s := sv;
        ClearedStep(g, sv, Env(shuttingDown, rd.released), k);
        var d := sv.live[k];
        if sv.state[d] == Skipped && sv.runs[d].restartAt != 0 {
          OnlyClearedStep(sv.state, old(sv).runs, sv.runs, d);
          ClearRetry(k);
          ShrinksTwice(old(sv), s, sv);
          ClearedSame(s.(runs := sv.runs), sv, k);
          ClearedSame(s.(runs := sv.runs), sv, k + 1);
          ClearedSame(s.(runs := sv.runs, live := s.live[k := s.live[s.nLive - 1]]), sv, k);
        }
        if k < sv.nLive && sv.live[k] == d {
          k := k + 1;
        }
      }
      SlackEnds(g, sv, Env(shuttingDown, rd.released));
      ghost var s := sv;
      sv := sv.(nPending := sv.nPending - (skipped - waiting), nActive := sv.nActive - waiting,
                nDone := sv.nDone - undone);
      ShrinksNot(s, sv);
      ShrinksTwice(old(sv), s, sv);
    }

    /** A failed service is neither starting nor waiting to start. */
    method Uncount(i: nat)
      requires i < |sv.state| && Counted(sv) && sv.state[i] != Done
      modifies this`sv
      ensures sv == old(sv).(nActive := sv.nActive, nPending := sv.nPending)
      ensures StateCounts(sv.state[i := Failed], sv.nActive, sv.nDone, sv.nPending)
    {
      StateChange(sv.state, i, Failed);
      if sv.state[i] == Running {
        sv := sv.(nActive := sv.nActive - 1);
      } else if sv.state[i] == Pending {
        sv := sv.(nPending := sv.nPending - 1);
      }
    }

    /** Service i has failed for good: it goes down, and every service the failure reaches is skipped. */
    method Poison(i: nat)
      requires i < |g.svc| && InvBut(i) && g.svc[i].kind != Target && sv.state[i] != Done
      requires sv.runs[i].pid == 0 && sv.runs[i].restartAt == 0 && !sv.runs[i].starting && !sv.runs[i].ntfOpen
      requires Busy(sv.runs[i]) ==> Has(sv, i)
      requires rd.draining ==> !rd.released[i] || g.svc[i].orderOnly
      modifies this`sv, this`rd, this`book
      ensures Inv() && sv.state[i] == Failed && !rd.up[i] && sv.want == old(sv).want
      ensures forall d :: 0 <= d < |g.svc| ==>
                sv.state[d] == FailedState(Scene(g, old(sv).state, rd.up, old(sv).runs), i, d)
      ensures OnlyCleared(sv.state, old(sv).runs, sv.runs)
      ensures SameTo(i, old(sv), sv) && ReadySameTo(i, old(rd), rd) && Shrinks(old(sv), sv)
      ensures SameQueue(old(rd), rd) && book == old(book).(owe := book.owe)
      ensures !old(rd).released[i] || g.svc[i].orderOnly ==> rd.released == old(rd).released
    {
      hide Consistent, AllFine, PidOk, LaunchesSafe, Count, InLive, Shrinks, OnlyCleared, FailedState, SameTo, Falls,
           Take,
           ReadySameTo, SameQueue, PidTable.Valid, PidTable.Map;
      ReadyShape(g, rd, book);
      ghost var s := sv;
      Uncount(i);
      GoDown(i);
      ReadyShape(g, rd, book);
      RelLess(old(rd).released, rd.released, shuttingDown);
      FineLess(g, sv, Env(shuttingDown, old(rd).released), Env(shuttingDown, rd.released), false, i);
      var c := Scene(g, sv.state, rd.up, sv.runs);
      var st, skipped, undone, waiting := FailPoison(c, i);
      PoisonFine(c, sv, st, Env(shuttingDown, rd.released), i);
      sv := sv.(state := st);
      ShrinksNot(s, sv);
      ghost var s' := sv;
      SkippedNote(skipped, undone, waiting);
      ShrinksTwice(s, s', sv);
      SameAfterPoison(i, s, sv);
    }

    /** Service i was done and will not come back: what it alone kept startable is skipped. */
    method PoisonDeps(i: nat)
      requires i < |g.svc| && Inv()
      modifies this`sv
      ensures Inv() && sv.want == old(sv).want
      ensures g.svc[i].orderOnly ==> sv == old(sv)
      ensures OnlyCleared(sv.state, old(sv).runs, sv.runs)
      ensures SameTo(Past(g.roots, i), old(sv), sv) && Shrinks(old(sv), sv)
      ensures !g.svc[i].orderOnly ==> GoneLeaves(Scene(g, old(sv).state, rd.up, old(sv).runs), i, sv.state)
    {
      hide Consistent, AllFine, PidOk, LaunchesSafe, Count, InLive, Shrinks, OnlyCleared, SameTo, Take, Hit, Untaken,
           GoneLeaves,
           PidTable.Valid, PidTable.Map;
      ReadyShape(g, rd, book);
      ghost var s := sv;
      if g.svc[i].orderOnly {
        OnlyClearedNot(sv.state, sv.runs);
        ShrinksNot(sv, sv);
        SameAfterPoison(Past(g.roots, i), sv, sv);
        return;
      }
      var c := Scene(g, sv.state, rd.up, sv.runs);
      var st, skipped, undone, waiting := FailPoisonDeps(c, i);
      PoisonFine(c, sv, st, Env(shuttingDown, rd.released), -1);
      sv := sv.(state := st);
      ShrinksNot(s, sv);
      ghost var s' := sv;
      SkippedNote(skipped, undone, waiting);
      ShrinksTwice(s, s', sv);
      SameAfterPoison(Past(g.roots, i), s, sv);
    }

    // ---------------------------------------------------------------- starting

    /** Whether service i may be started now. */
    predicate CanStart(i: nat)
      requires i < |sv.want| && i < |sv.runs| && i < |rd.unmet|
      reads this`sv, this`rd, this`shuttingDown
    {
      !shuttingDown && !sv.want[i] && sv.runs[i].pid == 0 && sv.runs[i].stalePid == 0 && rd.unmet[i] == 0
    }

    /** A field of the record of service i changes; its processes and its operation do not. */
    method SetRun(i: nat, r: Run)
      requires i < |g.svc| && Fine(g, sv, Env(shuttingDown, rd.released), false, i)
      requires Counted(sv) && PidOk(sv.runs, children)
      requires r.pid == sv.runs[i].pid && r.stalePid == sv.runs[i].stalePid && r.op == sv.runs[i].op
      modifies this`sv
      ensures sv == old(sv).(runs := old(sv).runs[i := r]) && OnlyRun(old(sv), sv, i) && Shrinks(old(sv), sv)
      ensures Fine(g, sv, Env(shuttingDown, rd.released), false, i) && Counted(sv) && PidOk(sv.runs, children)
    {
      hide AllFine, PidOk, Count, Shrinks;
      FineRun(g, sv, Env(shuttingDown, rd.released), false, i, r);
      PidSame(sv.runs, children, i, r);
      CountUpdate(sv.runs, i, r, HasOp);
      sv := sv.(runs := sv.runs[i := r]);
      ShrinksNot(old(sv), sv);
    }

    /** The kernel forks, or does not. It never hands out a number that is still in use. */
    method Fork(i: nat) returns (pid: nat)
      modifies this`children
      ensures pid == 0 ==> children == old(children)
      ensures pid != 0 ==> pid !in old(children) && children == old(children)[pid := i]
    {
      pid := 0;
      if * {
        FreshPid(children.Keys);
        pid :| pid != 0 && pid !in children;
        children := children[pid := i];
      }
    }

    /** Starts the process of service i, if the kernel lets it. */
    method Launch(i: nat) returns (ok: bool)
      requires i < |g.svc| && InvBut(i) && g.svc[i].kind != Target && |rd.unmet| == |g.svc| && CanStart(i)
      modifies this`children, this`clock, this`sv, this`launches, (if pids == null then {} else {pids.key, pids.val})
      ensures InvBut(i) && OnlyRun(old(sv), sv, i) && old(clock) <= clock
      ensures launches == old(launches) + [Launches.Launch(i, rd.up, book.ever, false, false, old(children))]
      ensures if ok then
                && Has(sv, i) && sv.runs[i].pid != 0 && sv.runs[i].started >= old(clock)
                && sv.runs[i]
                    == Started(g.svc[i], Flagged(g.svc[i], old(sv).runs[i]), sv.runs[i].pid, sv.runs[i].started)
              else
                && sv == old(sv).(runs := old(sv).runs[i := Flagged(g.svc[i], old(sv).runs[i])])
                && Has(sv, i) == old(Has(sv, i))
      ensures old(Has(sv, i)) || !ok ==> Shrinks(old(sv), sv)
    {
      hide Consistent, AllFine, PidOk, Count, InLive, Shrinks, PidTable.Valid, PidTable.Map, SafeLaunch;
      LaunchIsSafe(g, rd, book, sv, children, i);
      LaunchesMore(g, launches, Launches.Launch(i, rd.up, book.ever, sv.want[i], shuttingDown, children));
      launches := launches + [Launches.Launch(i, rd.up, book.ever, sv.want[i], shuttingDown, children)];
      var r := Flagged(g.svc[i], sv.runs[i]);
      SetRun(i, r);
      ghost var s := sv;
      ok := Start(i);
      if old(Has(sv, i)) || !ok {
        ShrinksTwice(old(sv), s, sv);
      }
    }

    /** Forks, and enters the child in the process table. */
    method Enroll(i: nat) returns (pid: nat)
      requires TableOk() && |children| <= |g.svc|
      modifies this`children, (if pids == null then {} else {pids.key, pids.val})
      ensures TableOk()
      ensures pid == 0 ==> children == old(children)
      ensures pid != 0 ==> pid !in old(children) && children == old(children)[pid := i]
    {
      hide PidTable.Valid, PidTable.Map;
      pid := Fork(i);
      if pid != 0 && pids != null {
        pids.Put(pid, i);
      }
    }

    /** Service i has a new process, and needs attention. */
    method Born(i: nat, pid: nat, t: int, ghost kids: map<nat, nat>)
      requires i < |g.svc| && Fine(g, sv, Env(shuttingDown, rd.released), false, i)
      requires Counted(sv) && PidOk(sv.runs, kids)
      requires sv.runs[i].pid == 0 && sv.runs[i].stalePid == 0 && pid != 0 && pid !in kids && children == kids[pid := i]
      modifies this`sv
      ensures Fine(g, sv, Env(shuttingDown, rd.released), false, i) && Counted(sv) && PidOk(sv.runs, children)
      ensures OnlyRun(old(sv), sv, i) && Has(sv, i)
      ensures sv.runs[i] == Started(g.svc[i], old(sv).runs[i], pid, t)
      ensures sv.runs[i].pid == pid && sv.runs[i].started == t
      ensures old(Has(sv, i)) ==> Shrinks(old(sv), sv)
    {
      hide *;
      FineShape(g, sv, Env(shuttingDown, rd.released), false, i);
      var r := Started(g.svc[i], sv.runs[i], pid, t);
      StartedFacts(g.svc[i], sv.runs[i], pid, t);
      BornFacts(g, sv, Env(shuttingDown, rd.released), i, r, kids);
      sv := sv.(runs := sv.runs[i := r]);
      ghost var s := sv;
      Attend(i);
      SameButLive(s, sv);
      OnlyRunLive(old(sv), s, sv, i);
      if old(Has(sv, i)) {
        ShrinksTwice(old(sv), s, sv);
      }
    }

    /** The bookkeeping of a launch, from the fork on. */
    method Start(i: nat) returns (ok: bool)
      requires i < |g.svc| && InvBut(i)
      requires sv.runs[i].pid == 0 && sv.runs[i].stalePid == 0 && sv.runs[i].starting
      modifies this`children, this`clock, this`sv, (if pids == null then {} else {pids.key, pids.val})
      ensures InvBut(i) && OnlyRun(old(sv), sv, i) && old(clock) <= clock
      ensures if ok then
                && Has(sv, i) && sv.runs[i].pid != 0 && sv.runs[i].started >= old(clock)
                && sv.runs[i] == Started(g.svc[i], old(sv).runs[i], sv.runs[i].pid, sv.runs[i].started)
              else sv == old(sv)
      ensures old(Has(sv, i)) || !ok ==> Shrinks(old(sv), sv)
    {
      hide Consistent, AllFine, PidOk, Count, InLive, Shrinks, TableOk, LaunchesSafe;
      FewChildren(sv.runs, children);
      ShrinksNot(sv, sv);
      var pid := Enroll(i);
      if pid == 0 {
        return false;
      }
      var t := NowMs();
      Born(i, pid, t, old(children));
      ok := true;
    }

    // ---------------------------------------------------------------- a start that fails

    lemma Parts(except: int)
      requires InvBut(except)
      ensures Consistent(g, rd, book, -1) && Counted(sv) && Fine(g, sv, Env(shuttingDown, rd.released), false, except)
      ensures PidOk(sv.runs, children) && TableOk() && LaunchesSafe(g, launches)
      ensures |sv.state| == |sv.want| == |sv.runs| == |sv.live| == |sv.livePos| == |g.svc| && sv.nLive <= |sv.live|
      ensures |rd.up| == |rd.released| == |rd.unmet| == |g.svc| && Sound(g) && sv.roots == g.roots
    {
      ReadyShape(g, rd, book);
    }

    lemma Whole(except: int)
      requires Consistent(g, rd, book, -1) && Counted(sv) && Fine(g, sv, Env(shuttingDown, rd.released), false, except)
      requires PidOk(sv.runs, children) && TableOk() && LaunchesSafe(g, launches)
      ensures InvBut(except) && (except == -1 ==> Inv())
    {
    }

    /** Closes the pipes of a start that failed, gives its process up and drops the service if nothing
        else needs attention. */
    method Drop(i: nat)
      requires i < |g.svc| && InvBut(i) && sv.state[i] == Running && g.svc[i].kind != Target
      requires sv.runs[i].restartAt == 0
      requires sv.runs[i].pid != 0 || sv.runs[i].stalePid != 0 || sv.runs[i].op != NoOp ==> Has(sv, i)
      modifies this`sv
      ensures Inv() && OnlyRun(old(sv), sv, i) && Shrinks(old(sv), sv)
      ensures |sv.runs| == |g.svc| && sv.runs[i] == Dropped(old(sv).runs[i])
      ensures Has(sv, i) == (old(Has(sv, i)) && Busy(sv.runs[i]))
    {
      hide *;
      Parts(i);
      DropFacts(g, sv, Env(shuttingDown, rd.released), i, children);
      var r := Dropped(sv.runs[i]);
      sv := sv.(runs := sv.runs[i := r]);
      ghost var s := sv;
      MaybeFree(i, false);
      SameButLive(s, sv);
      OnlyRunLive(old(sv), s, sv, i);
      ShrinksTwice(old(sv), s, sv);
      Whole(-1);
    }

    /** A change of the record that the invariant does not notice. */
    method Note(i: nat, r: Run)
      requires i < |g.svc| && Inv() && Alike(sv.runs[i], r)
      requires r.attempt == sv.runs[i].attempt || sv.state[i] == Running
      modifies this`sv
      ensures Inv() && sv == old(sv).(runs := old(sv).runs[i := r]) && OnlyRun(old(sv), sv, i) && Shrinks(old(sv), sv)
      ensures |sv.runs| == |sv.state| == |g.svc| && sv.runs[i] == r && Has(sv, i) == old(Has(sv, i))
    {
      hide *;
      Known();
      AlikeFacts(g, sv, Env(shuttingDown, rd.released), i, r, children);
      sv := sv.(runs := sv.runs[i := r]);
      Whole(-1);
    }

    lemma Known()
      requires Inv()
      ensures InvBut(-1) && Consistent(g, rd, book, -1) && Counted(sv)
      ensures Fine(g, sv, Env(shuttingDown, rd.released), false, -1)
      ensures PidOk(sv.runs, children) && TableOk() && LaunchesSafe(g, launches)
      ensures |sv.state| == |sv.want| == |sv.runs| == |sv.live| == |sv.livePos| == |g.svc| && sv.nLive <= |sv.live|
      ensures |rd.up| == |rd.released| == |rd.unmet| == |g.svc| && Sound(g) && sv.roots == g.roots
    {
      Parts(-1);
    }

    method Now() returns (t: int)
      requires Inv()
      modifies this`clock
      ensures Inv() && old(clock) <= clock == t
    {
      t := NowMs();
    }

    /** Arms the deadline of service i. */
    method Arm(i: nat, at: int, hold: bool)
      requires i < |g.svc| && Inv() && g.svc[i].kind != Target
      requires MayWait(g.svc[i], sv.state[i], sv.want[i], sv.runs[i])
      modifies this`sv
      ensures Inv() && OnlyRun(old(sv), sv, i) && |sv.runs| == |g.svc| && Has(sv, i)
      ensures sv.runs[i] == old(sv).runs[i].(restartAt := at, staleHold := hold)
      ensures old(Has(sv, i)) ==> Shrinks(old(sv), sv)
    {
      hide *;
      Known();
      FineAt(g, sv, Env(shuttingDown, rd.released), false, i);
      MayWaitIs(g.svc[i], sv.state[i], sv.want[i], sv.runs[i]);
      Attend(i);
      ghost var s := sv;
      AttendedFacts(g, old(sv), sv, Env(shuttingDown, rd.released), i);
      DeadlineFacts(g, sv, Env(shuttingDown, rd.released), i, at, hold, children);
      sv := sv.(runs := sv.runs[i := sv.runs[i].(restartAt := at, staleHold := hold)]);
      OnlyRunTwice(old(sv), s, sv, i);
      if old(Has(sv, i)) {
        ShrinksTwice(old(sv), s, sv);
      }
      Whole(-1);
    }


    lemma KnownAt(i: nat)
      requires Inv() && i < |g.svc|
      ensures InvBut(i) && |sv.state| == |sv.want| == |sv.runs| == |sv.live| == |sv.livePos| == |g.svc|
      ensures sv.nLive <= |sv.live|
      ensures |rd.up| == |rd.released| == |rd.unmet| == |g.svc|
      ensures SvcFine(g.svc[i], sv.state[i], sv.want[i], sv.runs[i], Has(sv, i), shuttingDown, false,
                      Rel(Env(shuttingDown, rd.released), i))
      ensures Busy(sv.runs[i]) ==> Has(sv, i)
    {
      Parts(-1);
      FineAt(g, sv, Env(shuttingDown, rd.released), false, i);
    }

    /** Service i is given up. */
    method FailApply(i: nat)
      requires i < |g.svc| && Inv() && sv.state[i] == Running && g.svc[i].kind != Target
      requires sv.runs[i].pid == 0 && sv.runs[i].restartAt == 0 && !sv.runs[i].starting && !sv.runs[i].ntfOpen
      requires rd.draining ==> !rd.released[i] || g.svc[i].orderOnly
      modifies this`sv, this`rd, this`book
      ensures Inv() && old(clock) <= clock && SameTo(i, old(sv), sv) && ReadySameTo(i, old(rd), rd)
      ensures SameQueue(old(rd), rd) && book == old(book).(owe := book.owe)
      ensures StartsLater(old(sv).runs, sv.runs, old(clock)) && RestartsLater(old(sv).runs, sv.runs, old(clock))
      ensures old(Has(sv, i)) ==> Shrinks(old(sv), sv)
      ensures |sv.state| == |sv.runs| == |rd.up| == |g.svc| && sv.want == old(sv).want
      ensures sv.state[i] == Failed && !rd.up[i] && sv.runs[i] == old(sv).runs[i]
      ensures |old(rd).released| == |g.svc|
      ensures (!old(rd).released[i] || g.svc[i].orderOnly ==> rd.released == old(rd).released)
    {
      hide *;
      KnownAt(i);
      Poison(i);
      Known();
      OnlyRunSame(old(sv), i);
      AfterPoison(old(sv), old(sv), sv, i, clock);
    }

    /** The next attempt waits. */
    method Reschedule(i: nat)
      requires i < |g.svc| && Inv() && sv.state[i] == Running && g.svc[i].kind != Target
      requires sv.runs[i].pid == 0 && !sv.runs[i].starting
      requires g.svc[i].startTries >= 2
      modifies this`sv, this`clock
      ensures Inv() && old(clock) <= clock && SameTo(i, old(sv), sv) && ReadySameTo(i, rd, rd)
      ensures SameQueue(rd, rd)
      ensures StartsLater(old(sv).runs, sv.runs, old(clock)) && RestartsLater(old(sv).runs, sv.runs, old(clock))
      ensures old(Has(sv, i)) ==> Shrinks(old(sv), sv)
      ensures |sv.state| == |sv.runs| == |rd.up| == |g.svc| && sv.want == old(sv).want
      ensures sv.state == old(sv).state
      ensures sv.runs[i] == old(sv).runs[i].(staleHold := old(sv).runs[i].stalePid != 0,
                                             restartAt := clock + RetryWait(g.svc[i], old(sv).runs[i].stalePid != 0))
    {
      hide *;
      Known();
      ReadySame(rd);
      var stale := sv.runs[i].stalePid != 0;
      var now := Now();
      MayWaitIs(g.svc[i], sv.state[i], sv.want[i], sv.runs[i]);
      Arm(i, now + RetryWait(g.svc[i], stale), stale);
      Known();
      OnlyRunFacts(old(sv), sv, i, old(clock));
    }

    /** Counts a failed attempt, and tries again or gives up. */
    method NextTry(i: nat) returns (act: Act)
      requires i < |g.svc| && Inv() && sv.state[i] == Running && g.svc[i].kind != Target
      requires sv.runs[i].pid == 0 && sv.runs[i].restartAt == 0 && !sv.runs[i].starting && !sv.runs[i].ntfOpen
      requires i < |rd.released| && (rd.draining ==> Sure(g.svc[i], rd.released[i], sv.runs[i].attempt))
      modifies this`sv, this`rd, this`book, this`clock
      ensures Inv() && old(clock) <= clock && SameTo(i, old(sv), sv) && ReadySameTo(i, old(rd), rd)
      ensures SameQueue(old(rd), rd) && book == old(book).(owe := book.owe)
      ensures StartsLater(old(sv).runs, sv.runs, old(clock)) && RestartsLater(old(sv).runs, sv.runs, old(clock))
      ensures old(Has(sv, i)) && old(sv).runs[i].op != NoOp ==> Shrinks(old(sv), sv)
      ensures |sv.state| == |sv.runs| == |rd.up| == |g.svc| && sv.want == old(sv).want
      ensures var r := old(sv).runs[i].(attempt := NextAttempt(old(sv).runs[i].attempt));
              && act == FailService(g.svc[i], r.attempt)
              && if act.Retry? then
                   && sv.state == old(sv).state && rd == old(rd)
                   && sv.runs[i]
                       == r.(staleHold := r.stalePid != 0, restartAt := clock + RetryWait(g.svc[i], r.stalePid != 0))
                 else sv.state[i] == Failed && !rd.up[i] && sv.runs[i] == r
      ensures Sure(g.svc[i], old(rd).released[i], old(sv).runs[i].attempt) ==> rd.released == old(rd).released
    {
      hide *;
      Known();
      ghost var s0, t0 := sv, clock;
      CountTry(i);
      ghost var s1 := sv;
      act := FailService(g.svc[i], sv.runs[i].attempt);
      SureIs(g.svc[i], rd.released[i], s0.runs[i].attempt);
      RetryMeans(g.svc[i], s0.runs[i].attempt);
      Decide(i, act == Retry);
      InTwo(s0, s1, sv, i, t0, Has(s0, i));
    }

    /** Waits for the next attempt, or gives service i up. */
    method Decide(i: nat, again: bool)
      requires i < |g.svc| && Inv() && sv.state[i] == Running && g.svc[i].kind != Target && i < |rd.released|
      requires sv.runs[i].pid == 0 && sv.runs[i].restartAt == 0 && !sv.runs[i].starting && !sv.runs[i].ntfOpen
      requires if again then g.svc[i].startTries >= 2 else rd.draining ==> !rd.released[i] || g.svc[i].orderOnly
      modifies this`sv, this`rd, this`book, this`clock
      ensures Inv() && old(clock) <= clock && SameTo(i, old(sv), sv) && ReadySameTo(i, old(rd), rd)
      ensures SameQueue(old(rd), rd) && book == old(book).(owe := book.owe)
      ensures StartsLater(old(sv).runs, sv.runs, old(clock)) && RestartsLater(old(sv).runs, sv.runs, old(clock))
      ensures old(Has(sv, i)) ==> Shrinks(old(sv), sv)
      ensures |sv.state| == |sv.runs| == |rd.up| == |g.svc| && sv.want == old(sv).want
      ensures again || !old(rd).released[i] || g.svc[i].orderOnly ==> rd.released == old(rd).released
      ensures var r := old(sv).runs[i];
              if again then
                && sv.state == old(sv).state && rd == old(rd)
                && sv.runs[i]
                    == r.(staleHold := r.stalePid != 0, restartAt := clock + RetryWait(g.svc[i], r.stalePid != 0))
              else sv.state[i] == Failed && !rd.up[i] && sv.runs[i] == r
    {
      hide *;
      if again {
        Reschedule(i);
      } else {
        FailApply(i);
      }
    }

    /** Counts a failed attempt of service i. */
    method CountTry(i: nat)
      requires i < |g.svc| && Inv() && i < |sv.runs|
      requires sv.state[i] == Running
      modifies this`sv
      ensures Inv() && |old(sv).runs| == |sv.runs| == |sv.state| == |g.svc| == |rd.up|
      ensures sv.state == old(sv).state && sv.want == old(sv).want
      ensures sv.runs[i] == old(sv).runs[i].(attempt := NextAttempt(old(sv).runs[i].attempt))
      ensures SameTo(i, old(sv), sv) && Shrinks(old(sv), sv) && Has(sv, i) == old(Has(sv, i))
      ensures StartsLater(old(sv).runs, sv.runs, clock) && RestartsLater(old(sv).runs, sv.runs, clock)
    {
      hide *;
      Known();
      var r := sv.runs[i].(attempt := NextAttempt(sv.runs[i].attempt));
      AttemptAlike(sv.runs[i], r.attempt);
      Note(i, r);
      OnlyRunFacts(old(sv), sv, i, clock);
    }

    /** A start of service i failed. It is tried again while it has tries left. */
    method ServiceFailed(i: nat) returns (act: Act)
      requires i < |g.svc| && InvBut(i) && sv.state[i] == Running && g.svc[i].kind != Target
      requires sv.runs[i].restartAt == 0
      requires sv.runs[i].pid != 0 || sv.runs[i].stalePid != 0 || sv.runs[i].op != NoOp ==> Has(sv, i)
      requires i < |rd.released| && (rd.draining ==> Sure(g.svc[i], rd.released[i], sv.runs[i].attempt))
      modifies this`sv, this`rd, this`book, this`clock
      ensures Inv() && old(clock) <= clock && SameTo(i, old(sv), sv) && ReadySameTo(i, old(rd), rd)
      ensures SameQueue(old(rd), rd) && book == old(book).(owe := book.owe)
      ensures StartsLater(old(sv).runs, sv.runs, old(clock)) && RestartsLater(old(sv).runs, sv.runs, old(clock))
      ensures old(Has(sv, i)) && old(sv).runs[i].op != NoOp ==> Shrinks(old(sv), sv)
      ensures |sv.state| == |sv.runs| == |rd.up| == |g.svc| && sv.want == old(sv).want
      ensures shuttingDown ==> sv.runs[i] == Dropped(old(sv).runs[i]) && sv.state == old(sv).state && rd == old(rd)
      ensures !shuttingDown ==>
                var r := Dropped(old(sv).runs[i]).(attempt := NextAttempt(old(sv).runs[i].attempt));
                && act == FailService(g.svc[i], r.attempt)
                && if act.Retry? then
                     && sv.state == old(sv).state && rd == old(rd)
                     && sv.runs[i]
                         == r.(staleHold := r.stalePid != 0, restartAt := clock + RetryWait(g.svc[i], r.stalePid != 0))
                   else sv.state[i] == Failed && !rd.up[i] && sv.runs[i] == r
      ensures Sure(g.svc[i], old(rd).released[i], old(sv).runs[i].attempt) ==> rd.released == old(rd).released
    {
      hide *;
      Parts(i);
      ReadySame(rd);
      ghost var s0, t0 := sv, clock;
      DropFacts(g, sv, Env(shuttingDown, rd.released), i, children);
      Drop(i);
      ghost var s1 := sv;
      Known();
      OnlyRunFacts(s0, s1, i, t0);
      act := Retry;
      if shuttingDown {
        return;
      }
      act := NextTry(i);
      InTwo(s0, s1, sv, i, t0, Has(s0, i) && s0.runs[i].op != NoOp);
    }

    // ---------------------------------------------------------------- spawning

    method MarkRunning(i: nat)
      requires i < |sv.state| && Counted(sv) && sv.state[i] != Done
      modifies this`sv
      ensures Counted(sv)
      ensures sv == old(sv).(state := old(sv).state[i := Running],
                             nActive := sv.nActive, nDone := sv.nDone, nPending := sv.nPending)
    {
      StateChange(sv.state, i, Running);
      if sv.state[i] != Running {
        if sv.state[i] == Pending {
          sv := sv.(nPending := sv.nPending - 1);
        }
        sv := sv.(state := sv.state[i := Running], nActive := sv.nActive + 1);
      }
    }

    /** Marks service i as starting. */
    method Begin(i: nat)
      requires i < |g.svc| && InvBut(i) && sv.state[i] != Done
      modifies this`sv
      ensures InvBut(i) && SameTo(i, old(sv), sv) && Shrinks(old(sv), sv) && Has(sv, i) == old(Has(sv, i))
      ensures |sv.state| == |sv.runs| == |g.svc| && sv.state[i] == Running
      ensures sv.runs == old(sv).runs && sv.want == old(sv).want
    {
      hide *;
      Parts(i);
      MarkRunning(i);
      FineState(g, old(sv), sv, Env(shuttingDown, rd.released), i, Running);
      Whole(i);
    }

    /** Launches service i, which is starting, or counts a failed attempt. */
    method Attempt(i: nat)
      requires i < |g.svc| && InvBut(i) && g.svc[i].kind != Target && sv.state[i] == Running
      requires |rd.unmet| == |g.svc| && CanStart(i) && sv.runs[i].restartAt == 0
      requires sv.runs[i].op != NoOp ==> Has(sv, i)
      requires i < |rd.released| && (rd.draining ==> Sure(g.svc[i], rd.released[i], sv.runs[i].attempt))
      modifies this`children, this`clock, this`sv, this`launches, this`rd, this`book,
               (if pids == null then {} else {pids.key, pids.val})
      ensures Inv() && old(clock) <= clock && SameTo(i, old(sv), sv) && ReadySameTo(i, old(rd), rd)
      ensures SameQueue(old(rd), rd) && book == old(book).(owe := book.owe)
      ensures StartsLater(old(sv).runs, sv.runs, old(clock))
      ensures old(Has(sv, i)) && old(sv).runs[i].op != NoOp ==> Shrinks(old(sv), sv)
      ensures |sv.state| == |sv.runs| == |rd.up| == |g.svc| && sv.want == old(sv).want
      ensures launches == old(launches) + [Launches.Launch(i, old(rd).up, old(book).ever, false, false, old(children))]
      ensures sv.state[i] == Running || (sv.state[i] == Failed && !rd.up[i])
      ensures sv.state[i] == Running ==> sv.runs[i].pid != 0 || sv.runs[i].restartAt > old(clock)
      ensures RestartsLater(old(sv).runs, sv.runs, old(clock))
      ensures Sure(g.svc[i], old(rd).released[i], old(sv).runs[i].attempt) ==> rd.released == old(rd).released
    {
      hide *;
      ReadySame(rd);
      Parts(i);
      CanStartFacts(i);
      ghost var s0, t0 := sv, clock;
      var ok := Launch(i);
      ghost var s1, t1 := sv, clock;
      Parts(i);
      FlaggedFacts(g.svc[i], s0.runs[i], s1.runs[i].pid, s1.runs[i].started);
      OnlyRunFacts(s0, s1, i, t0);
      if ok {
        StartedFine(g, sv, Env(shuttingDown, rd.released), i);
        Whole(-1);
        return;
      }
      DroppedFacts(sv.runs[i]);
      var _ := ServiceFailed(i);
      AfterRefusal(s0, s1, sv, i, t0, t1, Has(s0, i) && s0.runs[i].op != NoOp);
    }

    lemma CanStartFacts(i: nat)
      requires i < |sv.want| && i < |sv.runs| && i < |rd.unmet|
      ensures CanStart(i) ==>
                !shuttingDown && !sv.want[i] && sv.runs[i].pid == 0 && sv.runs[i].stalePid == 0 && rd.unmet[i] == 0
    {
    }

    /** Starts service i, which may start. */
    method Spawn(i: nat)
      requires i < |g.svc| && InvBut(i) && g.svc[i].kind != Target && sv.state[i] != Done
      requires |rd.unmet| == |g.svc| && CanStart(i) && sv.runs[i].restartAt == 0
      requires sv.runs[i].op != NoOp ==> Has(sv, i)
      requires i < |rd.released| && (rd.draining ==> Sure(g.svc[i], rd.released[i], sv.runs[i].attempt))
      modifies this`children, this`clock, this`sv, this`launches, this`rd, this`book,
               (if pids == null then {} else {pids.key, pids.val})
      ensures Inv() && old(clock) <= clock && SameTo(i, old(sv), sv) && ReadySameTo(i, old(rd), rd)
      ensures SameQueue(old(rd), rd) && book == old(book).(owe := book.owe)
      ensures StartsLater(old(sv).runs, sv.runs, old(clock))
      ensures old(Has(sv, i)) && old(sv).runs[i].op != NoOp ==> Shrinks(old(sv), sv)
      ensures |sv.state| == |sv.runs| == |rd.up| == |g.svc| && sv.want == old(sv).want
      ensures launches == old(launches) + [Launches.Launch(i, old(rd).up, old(book).ever, false, false, old(children))]
      ensures sv.state[i] == Running || (sv.state[i] == Failed && !rd.up[i])
      ensures sv.state[i] == Running ==> sv.runs[i].pid != 0 || sv.runs[i].restartAt > old(clock)
      ensures Sure(g.svc[i], old(rd).released[i], old(sv).runs[i].attempt) ==> rd.released == old(rd).released
    {
      hide *;
      Parts(i);
      CanStartFacts(i);
      ghost var s0 := sv;
      Begin(i);
      ghost var s1 := sv;
      CanStartFrom(i);
      Attempt(i);
      SameToTwice(i, s0, s1, i, sv);
      ShrinksWhen(s0, s1, sv, Has(s0, i) && s0.runs[i].op != NoOp);
    }

    lemma CanStartIs(i: nat)
      requires i < |sv.want| && i < |sv.runs| && i < |rd.unmet| && !CanStart(i)
      ensures shuttingDown || sv.want[i] || sv.runs[i].pid != 0 || sv.runs[i].stalePid != 0 || rd.unmet[i] != 0
    {
    }

    lemma CanStartFrom(i: nat)
      requires i < |sv.want| && i < |sv.runs| && i < |rd.unmet|
      requires !shuttingDown && !sv.want[i] && sv.runs[i].pid == 0 && sv.runs[i].stalePid == 0 && rd.unmet[i] == 0
      ensures CanStart(i)
    {
    }

    /** Starts service i if it may start. */
    method TryStart(i: nat) returns (started: bool)
      requires i < |g.svc| && Inv() && g.svc[i].kind != Target && sv.state[i] == Pending
      modifies this`children, this`clock, this`sv, this`launches, this`rd, this`book,
               (if pids == null then {} else {pids.key, pids.val})
      ensures Inv() && old(clock) <= clock && SameTo(i, old(sv), sv) && ReadySameTo(i, old(rd), rd)
      ensures SameQueue(old(rd), rd) && book == old(book).(owe := book.owe)
      ensures StartsLater(old(sv).runs, sv.runs, old(clock))
      ensures old(Has(sv, i)) && old(sv).runs[i].op != NoOp ==> Shrinks(old(sv), sv)
      ensures |sv.state| == |sv.runs| == |rd.up| == |g.svc| && sv.want == old(sv).want
      ensures started == old(|rd.unmet| == |g.svc| && CanStart(i))
      ensures !started ==> sv == old(sv) && rd == old(rd) && launches == old(launches)
      ensures started ==>
                launches == old(launches)
                    + [Launches.Launch(i, old(rd).up, old(book).ever, false, false, old(children))]
      ensures started ==> sv.state[i] == Running || (sv.state[i] == Failed && !rd.up[i])
      ensures started && sv.state[i] == Running ==> sv.runs[i].pid != 0 || sv.runs[i].restartAt > old(clock)
      ensures rd.released == old(rd).released
    {
      hide *;
      KnownAt(i);
      ReadySame(rd);
      Quiet(sv, i, clock);
      started := CanStart(i);
      if started {
        PendingIdle(i);
        Known();
        HasAnother(g, sv, Env(shuttingDown, rd.released), i);
        RelIs(rd.released, shuttingDown, i);
        SureIs(g.svc[i], rd.released[i], sv.runs[i].attempt);
        Spawn(i);
      }
    }

    lemma PendingIdle(i: nat)
      requires i < |g.svc| && Inv() && i < |sv.want| && i < |sv.runs|
      requires i < |rd.unmet| && CanStart(i) && sv.state[i] == Pending
      ensures sv.runs[i].restartAt == 0 && (sv.runs[i].op != NoOp ==> Has(sv, i))
    {
      Parts(-1);
      FineAt(g, sv, Env(shuttingDown, rd.released), false, i);
    }

    // ---------------------------------------------------------------- handing readiness out

    /** Target d has everything it needs: it is up, and its own release is queued. */
    method ReleaseTarget(k: nat)
      requires Inv() && rd.draining && k in book.pend && k < |g.dst| == |book.owe| && book.owe[k] > 0
      requires |rd.unmet| == |rd.released| == |rd.up| == |g.svc| && g.dst[k] < |g.svc|
      requires g.svc[g.dst[k]].kind == Target && rd.unmet[g.dst[k]] == 1 && !rd.released[g.dst[k]]
      modifies this`sv, this`rd, this`book
      ensures Inv() && Handed(g, old(rd), old(book), rd, book, k) && ReadySameTo(g.dst[k], old(rd), rd)
      ensures SameTo(g.dst[k], old(sv), sv) && StartsLater(old(sv).runs, sv.runs, clock)
      ensures |sv.state| == |rd.up| == |g.svc| && sv.state[g.dst[k]] == Done
      ensures rd.up[g.dst[k]] && sv.want == old(sv).want
      ensures Grows(old(rd).released, rd.released)
      ensures |rd.released| == |g.svc| && rd.released[g.dst[k]]
      ensures 0 < rd.qTail <= |rd.queue| && rd.queue[rd.qTail - 1] == g.dst[k]
    {
      hide *;
      var d := g.dst[k];
      Known();
      DrainShape(g, rd, book);
      ghost var r0, b0 := rd, book;
      HandFacts(g, rd, book, k);
      rd := HandTo(g, rd, d);
      book := HandBook(book, k);
      SetUp(d, true);
      UpBefore(g, r0, b0, d);
      TargetUp(g, r0, b0, k, rd.nUp);
      MarkedFacts(g, r0, b0, k, rd.nUp);
      MarkDone(d);
      TargetDone(g, old(sv), Env(shuttingDown, rd.released), d);
      DoneFine(g, old(sv), sv, Env(shuttingDown, rd.released), d, children, clock);
      EnqueuedFacts(rd, d);
      FineReleased(g, sv, Env(shuttingDown, rd.released), d);
      GrowsOne(rd.released, d);
      rd := Enqueued(rd, d);
      book := EnqueuedBook(g, book, d);
      Whole(-1);
    }

    /** Service d is down but done, and what it waited for is back: it is restarted right away. */
    method RestartSoon(d: nat)
      requires d < |g.svc| && Inv() && sv.state[d] == Done && g.svc[d].kind != Target
      modifies this`sv, this`clock
      ensures Inv() && old(clock) <= clock && SameTo(d, old(sv), sv) && StartsLater(old(sv).runs, sv.runs, old(clock))
      ensures |sv.state| == |sv.runs| == |g.svc| && sv.state == old(sv).state && sv.want == old(sv).want
      ensures sv.runs[d] == if old(sv).runs[d].restartAt != 0 then old(sv).runs[d]
              else old(sv).runs[d].(restartAt := clock)
    {
      hide *;
      KnownAt(d);
      Quiet(sv, d, clock);
      if sv.runs[d].restartAt == 0 {
        var now := Now();
        MayWaitIs(g.svc[d], sv.state[d], sv.want[d], sv.runs[d]);
        Arm(d, now, sv.runs[d].staleHold);
        Known();
        OnlyRunFacts(old(sv), sv, d, old(clock));
      }
    }

    /** Lowers the counter behind edge k, when no target is to be released with it. */
    method Lower(k: nat)
      requires Inv() && k in book.pend && k < |g.dst| == |book.owe| && book.owe[k] > 0
      requires g.dst[k] < |g.svc| == |rd.unmet| == |rd.released| && rd.unmet[g.dst[k]] > 0
      requires rd.unmet[g.dst[k]] != 1 || g.svc[g.dst[k]].kind != Target || rd.released[g.dst[k]]
      modifies this`rd, this`book
      ensures Inv() && rd == HandTo(g, old(rd), g.dst[k]) && book == HandBook(old(book), k)
      ensures |rd.unmet| == |g.svc| && rd.unmet[g.dst[k]] == old(rd).unmet[g.dst[k]] - 1
    {
      hide *;
      Known();
      HandOff(g, rd, book, k);
      HandFacts(g, rd, book, k);
      rd := HandTo(g, rd, g.dst[k]);
      book := HandBook(book, k);
      Whole(-1);
    }

    /** Service d is pending and may start. */
    ghost predicate Idle(d: nat)
      reads this`sv, this`rd, this`shuttingDown
    {
      d < |sv.state| && d < |sv.want| && d < |sv.runs| && d < |rd.unmet| && sv.state[d] == Pending && CanStart(d)
    }

    lemma IdleMeans(d: nat)
      requires d < |sv.state| && d < |sv.want| && d < |sv.runs| && d < |rd.unmet|
      ensures Idle(d) <==> sv.state[d] == Pending && CanStart(d)
    {
    }

    /** Edge k leads to a target that waits for nothing else. */
    ghost predicate Completes(k: nat)
      reads this`sv, this`rd
    {
      && k < |g.dst| && g.dst[k] < |rd.unmet| && g.dst[k] < |rd.released| && g.dst[k] < |sv.want| && g.dst[k] < |g.svc|
      && rd.unmet[g.dst[k]] == 1 && !sv.want[g.dst[k]] && g.svc[g.dst[k]].kind == Target && !rd.released[g.dst[k]]
    }

    /** Edge k leads to a pending service that waits for nothing else and has no process left. */
    ghost predicate Frees(k: nat)
      reads this`sv, this`rd, this`shuttingDown
    {
      && k < |g.dst| && g.dst[k] < |rd.unmet| && g.dst[k] < |sv.state| && g.dst[k] < |sv.runs| && g.dst[k] < |sv.want|
      && g.dst[k] < |g.svc| && g.svc[g.dst[k]].kind != Target && rd.unmet[g.dst[k]] == 1
          && sv.state[g.dst[k]] == Pending
      && !shuttingDown && !sv.want[g.dst[k]] && sv.runs[g.dst[k]].pid == 0 && sv.runs[g.dst[k]].stalePid == 0
    }

    lemma IdleFrom(d: nat)
      requires d < |sv.state| && d < |sv.want| && d < |sv.runs| && d < |rd.unmet|
      ensures sv.state[d] == Pending && !shuttingDown && !sv.want[d] && sv.runs[d].pid == 0 && sv.runs[d].stalePid == 0
              && rd.unmet[d] == 0
              ==> Idle(d)
    {
    }

    /** Edge k leads to a done service that is down, waits for nothing else and is restarted. */
    ghost predicate Rearms(k: nat)
      reads this`sv, this`rd
    {
      && k < |g.dst| && g.dst[k] < |rd.unmet| && g.dst[k] < |rd.up| && g.dst[k] < |sv.state| && g.dst[k] < |sv.want|
      && g.dst[k] < |g.svc| && g.svc[g.dst[k]].kind != Target && rd.unmet[g.dst[k]] == 1 && !sv.want[g.dst[k]]
      && sv.state[g.dst[k]] == Done && !rd.up[g.dst[k]] && g.svc[g.dst[k]].restart
    }

    lemma HandCases(k: nat)
      requires k < |g.dst| && g.dst[k] < |g.svc| == |rd.unmet| == |rd.released| == |sv.want| == |sv.state| == |sv.runs|
      ensures Completes(k) <==>
                (rd.unmet[g.dst[k]] == 1 && !sv.want[g.dst[k]] && g.svc[g.dst[k]].kind == Target
                 && !rd.released[g.dst[k]])
      ensures Frees(k) ==>
                g.svc[g.dst[k]].kind != Target && rd.unmet[g.dst[k]] == 1 && sv.state[g.dst[k]] == Pending
                    && !shuttingDown
      ensures Frees(k) ==> !sv.want[g.dst[k]] && sv.runs[g.dst[k]].pid == 0 && sv.runs[g.dst[k]].stalePid == 0
      ensures Rearms(k) ==>
                && g.svc[g.dst[k]].kind != Target && rd.unmet[g.dst[k]] == 1 && !sv.want[g.dst[k]] && g.dst[k] < |rd.up|
                && sv.state[g.dst[k]] == Done && !rd.up[g.dst[k]] && g.svc[g.dst[k]].restart
    {
    }

    /** Service d waits for nothing any more: it is started if it is pending, and restarted if it had
        gone down after it was done. */
    method Prompt(d: nat)
      requires d < |g.svc| && Inv() && g.svc[d].kind != Target
      modifies this`children, this`clock, this`sv, this`launches, this`rd, this`book,
               (if pids == null then {} else {pids.key, pids.val})
      ensures Inv() && old(clock) <= clock && old(launches) <= launches
      ensures SameTo(d, old(sv), sv) && ReadySameTo(d, old(rd), rd) && StartsLater(old(sv).runs, sv.runs, old(clock))
      ensures SameQueue(old(rd), rd) && book == old(book).(owe := book.owe) && sv.want == old(sv).want
      ensures |sv.state| == |sv.runs| == |g.svc|
      ensures old(sv).state[d] == Done && !old(rd).up[d] && g.svc[d].restart ==> sv.runs[d].restartAt != 0 || clock == 0
      ensures shuttingDown ==> launches == old(launches)
      ensures rd.released == old(rd).released
      ensures old(Idle(d)) ==> |launches| == |old(launches)| + 1 && launches[|old(launches)|].svc == d
    {
      hide *;
      KnownAt(d);
      IdleMeans(d);
      Quiet(sv, d, clock);
      ReadySame(rd);
      if sv.state[d] == Pending {
        CanStartFacts(d);
        var _ := TryStart(d);
      } else if sv.state[d] == Done && !rd.up[d] && g.svc[d].restart {
        RestartSoon(d);
      }
    }

    /** Hands the readiness behind edge k to its dependent. */
    method HandOut(k: nat)
      requires Inv() && rd.draining && k in book.pend && k < |g.dst|
      modifies this`children, this`clock, this`sv, this`launches, this`rd, this`book,
               (if pids == null then {} else {pids.key, pids.val})
      ensures Inv() && Handed(g, old(rd), old(book), rd, book, k) && ReadySameTo(g.dst[k], old(rd), rd)
      ensures SameTo(g.dst[k], old(sv), sv) && StartsLater(old(sv).runs, sv.runs, old(clock))
      ensures old(clock) <= clock && old(launches) <= launches && sv.want == old(sv).want
      ensures shuttingDown ==> launches == old(launches)
      ensures Grows(old(rd).released, rd.released)
      ensures CountsOnce(g, rd, book) && |rd.released| == |rd.up| == |sv.state| == |g.svc|
      ensures old(Completes(k)) ==>
                rd.released[g.dst[k]] && rd.up[g.dst[k]] && sv.state[g.dst[k]] == Done
                && 0 < rd.qTail <= |rd.queue| && rd.queue[rd.qTail - 1] == g.dst[k]
      ensures !old(Completes(k)) ==> rd.released == old(rd).released
      ensures old(Frees(k)) ==> |launches| == |old(launches)| + 1 && launches[|old(launches)|].svc == g.dst[k]
      ensures old(Rearms(k)) ==> |sv.runs| == |g.svc| && (sv.runs[g.dst[k]].restartAt != 0 || clock == 0)
    {
      hide *;
      Known();
      DrainShape(g, rd, book);
      HandOff(g, rd, book, k);
      var d := g.dst[k];
      HandCases(k);
      TargetFree(g, sv, Env(shuttingDown, rd.released), d);
      if rd.unmet[d] == 1 && !sv.want[d] && g.svc[d].kind == Target && !rd.released[d] {
        ReleaseTarget(k);
        Known();
        AllCountOnce(g, rd, book);
        return;
      }
      Lower(k);
      ghost var r := rd;
      ReadySame(rd);
      Quiet(sv, d, clock);
      IdleFrom(d);
      if rd.unmet[d] == 0 && !sv.want[d] && g.svc[d].kind != Target {
        Prompt(d);
      }
      HandFacts(g, old(rd), old(book), k);
      GrowsTwice(rd.released, rd.released, rd.released);
      SameQueueFacts(r, rd);
      HandedOnly(g, old(rd), old(book), k, rd, book);
      Known();
      AllCountOnce(g, rd, book);
    }

    /** Hands the readiness of j to all its dependents. */
    method DrainRow(j: nat, ghost i: nat)
      requires Inv() && rd.draining && QueuedFrom(rd, i) && i <= j < |g.svc| && |g.roff| == |g.svc| + 1
      requires g.roff[j] <= g.roff[j + 1] <= |g.src| == |g.dst|
      requires 0 < rd.qHead <= |rd.queue| && rd.queue[rd.qHead - 1] == j
      requires forall e :: g.roff[j] <= e < g.roff[j + 1] ==> g.src[e] == j && j < g.dst[e] && g.roots <= g.dst[e]
      requires PendingFrom(g, rd, book, g.roff[j], g.roff[j + 1])
      modifies this`children, this`clock, this`sv, this`launches, this`rd, this`book,
               (if pids == null then {} else {pids.key, pids.val})
      ensures Inv() && rd.draining && QueuedFrom(rd, i) && rd.qHead == old(rd).qHead && PendingFrom(g, rd, book, 0, 0)
      ensures SameTo(Past(g.roots, i), old(sv), sv) && ReadySameTo(i + 1, old(rd), rd)
      ensures StartsLater(old(sv).runs, sv.runs, old(clock))
      ensures old(clock) <= clock && old(launches) <= launches && sv.want == old(sv).want
      ensures old(book).ever <= book.ever && book.booted == old(book).booted
      ensures shuttingDown ==> launches == old(launches)
      ensures Grows(old(rd).released, rd.released)
    {
      hide *;
      Known();
      Quiet(sv, Past(g.roots, i), clock);
      PastFacts(g.roots, i, i);
      ReadySame(rd);
      GrowsTwice(rd.released, rd.released, rd.released);
      var k := g.roff[j];
      while k < g.roff[j + 1]
        invariant g.roff[j] <= k <= g.roff[j + 1]
        invariant Inv() && rd.draining && QueuedFrom(rd, i)
        invariant rd.qHead == old(rd).qHead <= |rd.queue| && rd.queue[rd.qHead - 1] == j
        invariant Grows(old(rd).released, rd.released)
        invariant shuttingDown ==> launches == old(launches)
        invariant PendingFrom(g, rd, book, k, g.roff[j + 1])
        invariant SameTo(Past(g.roots, i), old(sv), sv) && ReadySameTo(i + 1, old(rd), rd)
        invariant StartsLater(old(sv).runs, sv.runs, old(clock))
        invariant old(clock) <= clock && old(launches) <= launches && sv.want == old(sv).want
        invariant old(book).ever <= book.ever && book.booted == old(book).booted
      {
        ghost var s, r, b, t, l := sv, rd, book, clock, launches;
        Known();
        DrainShape(g, rd, book);
        HeadStays(g, rd, book, j);
        PendingHas(g, rd, book, k, g.roff[j + 1]);
        HandOut(k);
        GrowsTwice(old(rd).released, r.released, rd.released);
        HandedKeeps(g, r, b, rd, book, k);
        PendingStep(g, r, b, rd, book, k, g.roff[j + 1]);
        QueuedStep(g, r, b, rd, book, k, i);
        PastFacts(g.roots, i, g.dst[k]);
        SameToTwice(Past(g.roots, i), old(sv), s, g.dst[k], sv);
        ReadySameToTwice(i + 1, old(rd), r, g.dst[k], rd);
        StartsLaterTwice(old(sv).runs, s.runs, sv.runs, old(clock), t);
        k := k + 1;
      }
      PendingNone(g, rd, book, k);
    }

    /** Empties the queue. A launch that fails on the way has tries left or no release to lose, so that nothing
        is taken back until the queue is empty. */
    method Drain(ghost i: nat)
      requires Inv() && rd.draining && QueuedFrom(rd, i) && PendingFrom(g, rd, book, 0, 0)
      modifies this`children, this`clock, this`sv, this`launches, this`rd, this`book,
               (if pids == null then {} else {pids.key, pids.val})
      ensures Inv() && !rd.draining
      ensures SameTo(Past(g.roots, i), old(sv), sv) && ReadySameTo(i + 1, old(rd), rd)
      ensures StartsLater(old(sv).runs, sv.runs, old(clock))
      ensures old(clock) <= clock && old(launches) <= launches && sv.want == old(sv).want
      ensures old(book).ever <= book.ever && book.booted == old(book).booted
      ensures shuttingDown ==> launches == old(launches)
      ensures Grows(old(rd).released, rd.released)
    {
      hide *;
      Known();
      DrainShape(g, rd, book);
      Quiet(sv, Past(g.roots, i), clock);
      PastFacts(g.roots, i, i);
      ReadySame(rd);
      GrowsTwice(rd.released, rd.released, rd.released);
      while rd.qHead < rd.qTail
        invariant Inv() && rd.draining && QueuedFrom(rd, i)
        invariant PendingFrom(g, rd, book, 0, 0) && rd.qHead <= rd.qTail <= |g.svc|
        invariant Grows(old(rd).released, rd.released)
        invariant shuttingDown ==> launches == old(launches)
        invariant SameTo(Past(g.roots, i), old(sv), sv) && ReadySameTo(i + 1, old(rd), rd)
        invariant StartsLater(old(sv).runs, sv.runs, old(clock))
        invariant old(clock) <= clock && old(launches) <= launches && sv.want == old(sv).want
        invariant old(book).ever <= book.ever && book.booted == old(book).booted
        decreases |g.svc| - rd.qHead
      {
        ghost var s, r, b, t := sv, rd, book, clock;
        Known();
        PendingPop(g, rd, book);
        QueuedHead(rd, i);
        var j := rd.queue[rd.qHead];
        Pop();
        ghost var r' := rd;
        DrainRow(j, i);
        GrowsTwice(old(rd).released, r.released, rd.released);
        Known();
        DrainShape(g, rd, book);
        SameToTwice(Past(g.roots, i), old(sv), s, Past(g.roots, i), sv);
        ReadySameToTwice(i + 1, r, r', i + 1, rd);
        ReadySameToTwice(i + 1, old(rd), r, i + 1, rd);
        StartsLaterTwice(old(sv).runs, s.runs, sv.runs, old(clock), t);
      }
      ghost var r := rd;
      Known();
      PendingNone(g, rd, book, 0);
      DrainEnds(g, rd, book);
      rd := rd.(draining := false, qHead := 0, qTail := 0);
      ReadyQuiet(r, rd, i + 1);
      ReadySameToTwice(i + 1, old(rd), r, i + 1, rd);
      Whole(-1);
    }

    method Pop()
      requires Inv() && rd.qHead < rd.qTail && Consistent(g, rd.(qHead := rd.qHead + 1), book, -1)
      modifies this`rd
      ensures Inv() && rd == old(rd).(qHead := old(rd).qHead + 1)
      ensures forall b :: ReadySameTo(b, old(rd), rd)
      ensures forall i :: QueuedFrom(old(rd), i) ==> QueuedFrom(rd, i)
    {
      Known();
      hide Consistent, AllFine, PidOk, Count, LaunchesSafe, TableOk;
      rd := rd.(qHead := rd.qHead + 1);
    }

    /** The invariant, but for the readiness of service i. */
    ghost predicate InvReady(i: int)
      reads this`rd, this`book, this`sv, this`children, this`launches, this`shuttingDown,
            (if pids == null then {} else {pids.key, pids.val})
    {
      && Consistent(g, rd, book, i)
      && Counted(sv) && Fine(g, sv, Env(shuttingDown, rd.released), false, -1)
      && PidOk(sv.runs, children) && TableOk()
      && LaunchesSafe(g, launches)
    }

    lemma ReadyParts(i: int)
      requires InvReady(i)
      ensures Consistent(g, rd, book, i) && Counted(sv) && Fine(g, sv, Env(shuttingDown, rd.released), false, -1)
      ensures PidOk(sv.runs, children) && TableOk() && LaunchesSafe(g, launches)
      ensures |rd.up| == |rd.released| == |rd.unmet| == |rd.queue| == |g.svc| && Sound(g) && Rows(g)
      ensures |sv.state| == |sv.runs| == |g.svc| && sv.nLive <= |sv.live|
      ensures rd.qTail <= |rd.queue| && sv.roots == g.roots
    {
    }

    lemma ReadyWhole(i: int)
      requires Consistent(g, rd, book, i) && Counted(sv) && Fine(g, sv, Env(shuttingDown, rd.released), false, -1)
      requires PidOk(sv.runs, children) && TableOk() && LaunchesSafe(g, launches)
      ensures InvReady(i) && (i == -1 ==> Inv())
    {
    }

    /** Service i, which is up, releases its dependents, unless it has done so already. While another
        release is being handed out, this one waits in the queue. */
    method Release(i: nat)
      requires i < |g.svc| && InvReady(i) && |rd.up| == |rd.released| == |rd.unmet| == |g.svc| && rd.qTail <= |rd.queue|
      requires rd.up[i] && i in book.ever && (g.svc[i].kind == Target ==> rd.unmet[i] == 0)
      requires g.svc[i].kind == Target || sv.state[i] == Done
      modifies this`children, this`clock, this`sv, this`launches, this`rd, this`book,
               (if pids == null then {} else {pids.key, pids.val})
      ensures Inv() && rd.draining == old(rd).draining
      ensures SameTo(Past(g.roots, i), old(sv), sv) && StartsLater(old(sv).runs, sv.runs, old(clock))
      ensures old(clock) <= clock && old(launches) <= launches && sv.want == old(sv).want
      ensures old(book).ever <= book.ever && book.booted == old(book).booted
      ensures |rd.up| == |rd.released| == |g.svc| && rd.up[i] && rd.released[i]
      ensures shuttingDown ==> launches == old(launches)
      ensures Grows(old(rd).released, rd.released)
      ensures ReadySameTo(i, old(rd), rd)
    {
      hide *;
      ReadyParts(i);
      Quiet(sv, Past(g.roots, i), clock);
      ReadyAbove(rd, rd, i);
      GrowsTwice(rd.released, rd.released, rd.released);
      GrowsOne(rd.released, i);
      FineReleased(g, sv, Env(shuttingDown, rd.released), i);
      PastFacts(g.roots, i, i);
      if rd.released[i] {
        ReleasedFine(g, rd, book, i);
        ReadyWhole(-1);
        return;
      }
      if !rd.draining {
        DrainStarts(g, rd, book, i);
      }
      Enqueue(g, rd, book, i);
      ghost var r := rd;
      if rd.draining {
        EnqueuedMore(g, rd, book, i);
        EnqueuedFacts(rd, i);
        rd, book := Enqueued(rd, i), EnqueuedBook(g, book, i);
        ReadyAbove(r, rd, i);
        ReadyWhole(-1);
        return;
      }
      EnqueuedTop(g, rd, book, i);
      EnqueuedFacts(rd, i);
      rd, book := Enqueued(rd, i), EnqueuedBook(g, book, i);
      ReadyAbove(r, rd, i);
      ReadyWhole(-1);
      ghost var r' := rd;
      Drain(i);
      Known();
      SameAt(r', rd, i);
      ReadySameToTwice(i, r, r', i + 1, rd);
      GrowsTwice(r.released, r'.released, rd.released);
    }

    /** Service i is ready: it is done and up, and its dependents are released. */
    method Complete(i: nat)
      requires i < |g.svc| && InvBut(i) && !rd.draining
      requires |rd.unmet| == |g.svc| && (g.svc[i].kind == Target ==> rd.unmet[i] == 0)
      requires SvcFine(g.svc[i], Done, sv.want[i], sv.runs[i].(starting := false), Has(sv, i), shuttingDown, false,
                       Rel(Env(shuttingDown, rd.released), i))
      modifies this`children, this`clock, this`sv, this`launches, this`rd, this`book,
               (if pids == null then {} else {pids.key, pids.val})
      ensures Inv() && !rd.draining
      ensures SameTo(i, old(sv), sv) && StartsLater(old(sv).runs, sv.runs, old(clock))
      ensures old(clock) <= clock && old(launches) <= launches && sv.want == old(sv).want
      ensures old(book).ever <= book.ever && book.booted == old(book).booted
      ensures |rd.up| == |rd.released| == |sv.state| == |sv.runs| == |g.svc|
      ensures rd.up[i] && rd.released[i] && sv.state[i] == Done && sv.runs[i] == old(sv).runs[i].(starting := false)
      ensures shuttingDown ==> launches == old(launches)
      ensures Grows(old(rd).released, rd.released)
      ensures ReadySameTo(i, old(rd), rd)
    {
      hide *;
      Parts(i);
      ghost var s0, r0, b0 := sv, rd, book;
      DrainShape(g, rd, book);
      MarkDone(i);
      DoneFine(g, s0, sv, Env(shuttingDown, rd.released), i, children, clock);
      ghost var s1 := sv;
      SetUp(i, true);
      ReadyAbove(r0, rd, i);
      ghost var r1 := rd;
      MarkUp(g, r0, b0, i, rd, book);
      ReadyWhole(i);
      Release(i);
      Known();
      ReadySameToTwice(i, r0, r1, i, rd);
      PastFacts(g.roots, i, i);
      SvcAt(s1, sv, i);
      SameToTwice(i, s0, s1, Past(g.roots, i), sv);
      StartsLaterTwice(s0.runs, s1.runs, sv.runs, old(clock), old(clock));
    }

    // ---------------------------------------------------------------- restarts

    /** A service that is done gets another process after a delay. */
    method RestartSchedule(i: nat, wasUp: bool)
      requires i < |g.svc| && InvBut(i) && Has(sv, i) && g.svc[i].kind != Target && sv.state[i] != Running
      requires sv.state[i] != Done ==> sv.want[i] && sv.runs[i].pid == 0 && sv.runs[i].stalePid == 0
      requires sv.state[i] != Done ==>
                 StartFine(g.svc[i], sv.state[i], sv.runs[i], Rel(Env(shuttingDown, rd.released), i))
      modifies this`sv, this`clock
      ensures Inv() && old(clock) <= clock && OnlyRun(old(sv), sv, i) && Shrinks(old(sv), sv)
      ensures |sv.state| == |sv.runs| == |g.svc| && sv.runs[i] == Rescheduled(old(sv).runs[i], wasUp, clock)
      ensures sv.runs[i].restartAt > old(clock) && sv.state == old(sv).state && sv.want == old(sv).want
      ensures SameTo(i, old(sv), sv) && StartsLater(old(sv).runs, sv.runs, old(clock))
      ensures RestartsLater(old(sv).runs, sv.runs, old(clock))
    {
      hide *;
      var now := NowBut(i);
      Parts(i);
      RescheduleFacts(g, sv, Env(shuttingDown, rd.released), i, children, wasUp, now, old(clock));
      sv := sv.(runs := sv.runs[i := Rescheduled(sv.runs[i], wasUp, now)]);
      OnlyRunFacts(old(sv), sv, i, old(clock));
      Whole(-1);
    }

    method NowBut(i: int) returns (t: int)
      requires InvBut(i)
      modifies this`clock
      ensures InvBut(i) && old(clock) <= clock == t
    {
      t := NowMs();
    }

    /** Service i is no longer starting. */
    method NotStarting(i: nat)
      requires i < |g.svc| && Inv()
      modifies this`sv
      ensures Inv() && OnlyRun(old(sv), sv, i) && Shrinks(old(sv), sv) && |sv.runs| == |sv.state| == |g.svc|
      ensures sv == old(sv).(runs := old(sv).runs[i := old(sv).runs[i].(starting := false)])
      ensures Has(sv, i) == old(Has(sv, i))
      ensures StartsLater(old(sv).runs, sv.runs, clock)
    {
      hide *;
      Known();
      StopStarting(g, sv, Env(shuttingDown, rd.released), i, children);
      OnlyRunFacts(sv, sv.(runs := sv.runs[i := sv.runs[i].(starting := false)]), i, clock);
      sv := sv.(runs := sv.runs[i := sv.runs[i].(starting := false)]);
      Whole(-1);
    }

    /** The process of service i, which was done before, did not become ready again. */
    method StartLost(i: nat)
      requires i < |g.svc| && Inv() && g.svc[i].kind != Target && !sv.runs[i].starting && Has(sv, i)
      requires !rd.draining && sv.state[i] != Running
      requires sv.state[i] != Done ==> sv.want[i] && sv.runs[i].pid == 0 && sv.runs[i].stalePid == 0
      modifies this`sv, this`rd, this`book, this`clock
      ensures Inv() && old(clock) <= clock && sv.want == old(sv).want && book.ever == old(book).ever
      ensures SameQueue(old(rd), rd) && book == old(book).(owe := book.owe)
      ensures SameTo(i, old(sv), sv) && StartsLater(old(sv).runs, sv.runs, old(clock))
      ensures |sv.runs| == |sv.state| == |rd.up| == |g.svc| && !sv.runs[i].starting && (!shuttingDown ==> !rd.up[i])
      ensures !shuttingDown && g.svc[i].restart ==> sv.runs[i].restartAt > old(clock) && sv.state == old(sv).state
      ensures !shuttingDown && !g.svc[i].restart && !g.svc[i].orderOnly ==>
                GoneLeaves(Scene(g, old(sv).state, rd.up, old(sv).runs[i := Closed(old(sv).runs[i])]), i, sv.state)
    {
      hide *;
      Known();
      ReadySame(rd);
      ghost var s1 := sv;
      if !shuttingDown {
        GoDownInv(i, -1);
      }
      Known();
      if !shuttingDown && g.svc[i].restart {
        KnownAt(i);
        RescheduledFacts(sv.runs[i], false, clock);
        RestartSchedule(i, false);
        RescheduledFacts(s1.runs[i], false, clock);
      } else {
        StartOver(i);
      }
      Known();
    }

    /** An attempt to start service i has failed. */
    method StartTried(i: nat)
      requires i < |g.svc| && Inv() && g.svc[i].kind != Target && !sv.runs[i].starting && Has(sv, i)
      requires !rd.draining && sv.state[i] == Running && sv.runs[i].restartAt == 0
      modifies this`sv, this`rd, this`book, this`clock
      ensures Inv() && old(clock) <= clock && sv.want == old(sv).want && book.ever == old(book).ever
      ensures SameQueue(old(rd), rd) && book == old(book).(owe := book.owe)
      ensures SameTo(i, old(sv), sv) && StartsLater(old(sv).runs, sv.runs, old(clock))
      ensures |sv.runs| == |sv.state| == |rd.up| == |g.svc| && !sv.runs[i].starting
      ensures !shuttingDown ==>
                if NextAttempt(old(sv).runs[i].attempt) < g.svc[i].startTries then
                  sv.state == old(sv).state && rd == old(rd) && sv.runs[i].restartAt > old(clock)
                else sv.state[i] == Failed && !rd.up[i]
    {
      hide *;
      KnownAt(i);
      BusyFacts(sv.runs[i]);
      DroppedFacts(sv.runs[i]);
      DroppedKeeps(sv.runs[i]);
      FailFacts(g.svc[i], NextAttempt(sv.runs[i].attempt));
      var _ := ServiceFailed(i);
    }

    /** A start of service i failed before it was ready. */
    method StartFailed(i: nat)
      requires i < |g.svc| && Inv() && g.svc[i].kind != Target && sv.runs[i].starting && Has(sv, i)
      requires !rd.draining
      modifies this`sv, this`rd, this`book, this`clock
      ensures Inv() && old(clock) <= clock && sv.want == old(sv).want && book.ever == old(book).ever
      ensures SameQueue(old(rd), rd) && book == old(book).(owe := book.owe)
      ensures SameTo(i, old(sv), sv) && StartsLater(old(sv).runs, sv.runs, old(clock))
      ensures |sv.runs| == |sv.state| == |g.svc| && !sv.runs[i].starting
      ensures !shuttingDown && old(sv).state[i] != Running && g.svc[i].restart ==>
                sv.runs[i].restartAt > old(clock) && sv.state == old(sv).state
      ensures |rd.up| == |g.svc| && (!shuttingDown && old(sv).state[i] != Running ==> !rd.up[i])
      ensures !shuttingDown && old(sv).state[i] != Running && !g.svc[i].restart && !g.svc[i].orderOnly ==>
                GoneLeaves(Scene(g, old(sv).state, rd.up,
                                 old(sv).runs[i := Closed(old(sv).runs[i].(starting := false))]), i, sv.state)
      ensures !shuttingDown && old(sv).state[i] == Running ==>
                if NextAttempt(old(sv).runs[i].attempt) < g.svc[i].startTries then
                  sv.state == old(sv).state && rd == old(rd) && sv.runs[i].restartAt > old(clock)
                else sv.state[i] == Failed && !rd.up[i]
    {
      hide *;
      Known();
      KnownAt(i);
      ReadySame(rd);
      StartingFacts(g, sv, Env(shuttingDown, rd.released), i);
      ghost var s0, t0 := sv, clock;
      NotStarting(i);
      ghost var s1 := sv;
      OnlyRunFacts(s0, s1, i, t0);
      if sv.state[i] == Running {
        StartTried(i);
        InTurn(s0, s1, sv, i, t0, t0);
        return;
      }
      StartLost(i);
      LastSet(s0.runs, i, s1.runs[i], Closed(s1.runs[i]));
      InTurn(s0, s1, sv, i, t0, t0);
    }

    /** A start that is not tried again: the pipes are closed and the dependents are skipped. */
    method StartOver(i: nat)
      requires i < |g.svc| && Inv() && !sv.runs[i].starting
      modifies this`sv
      ensures Inv() && SameTo(i, old(sv), sv) && StartsLater(old(sv).runs, sv.runs, clock) && sv.want == old(sv).want
      ensures |sv.runs| == |sv.state| == |g.svc| && !sv.runs[i].starting && Shrinks(old(sv), sv)
      ensures !shuttingDown && !g.svc[i].orderOnly ==>
                GoneLeaves(Scene(g, old(sv).state, rd.up, old(sv).runs[i := Closed(old(sv).runs[i])]), i, sv.state)
    {
      hide *;
      Known();
      ghost var s0 := sv;
      ClosePipes(i);
      ghost var s1 := sv;
      Quiet(sv, i, clock);
      if !shuttingDown {
        PoisonDeps(i);
      }
      ghost var s2 := sv;
      Free(i);
      OverFacts(s0, s1, s2, sv, i, clock);
    }

    /** GoDown within the whole invariant, which may be broken for service e. */
    method GoDownInv(i: nat, ghost e: int)
      requires i < |g.svc| && InvBut(e) && g.svc[i].kind != Target
      requires i < |rd.released| && (rd.draining ==> !rd.released[i] || g.svc[i].orderOnly)
      modifies this`rd, this`book
      ensures InvBut(e) && (e == -1 ==> Inv()) && SameQueue(old(rd), rd) && book == old(book).(owe := book.owe)
      ensures |rd.up| == |rd.released| == |g.svc| && !rd.up[i] && (rd.released[i] ==> g.svc[i].orderOnly)
      ensures ReadySameTo(i, old(rd), rd) && rd.draining == old(rd).draining
      ensures !old(rd).released[i] || g.svc[i].orderOnly ==> rd.released == old(rd).released
    {
      Parts(e);
      hide Consistent, AllFine, PidOk, Count, LaunchesSafe, TableOk, Falls, ReadySameTo;
      GoDown(i);
      ReadyShape(g, rd, book);
      RelLess(old(rd).released, rd.released, shuttingDown);
      FineLess(g, sv, Env(shuttingDown, old(rd).released), Env(shuttingDown, rd.released), false, e);
    }

    method ClosePipes(i: nat)
      requires i < |g.svc| && Inv()
      modifies this`sv
      ensures Inv() && OnlyRun(old(sv), sv, i) && Shrinks(old(sv), sv) && |sv.runs| == |sv.state| == |g.svc|
      ensures sv == old(sv).(runs := old(sv).runs[i := Closed(old(sv).runs[i])]) && Has(sv, i) == old(Has(sv, i))
    {
      hide *;
      Known();
      CloseFacts(g, sv, Env(shuttingDown, rd.released), i, children);
      sv := sv.(runs := sv.runs[i := Closed(sv.runs[i])]);
      Whole(-1);
    }

    /** MaybeFree within the whole invariant. */
    method Free(i: nat)
      requires i < |g.svc| && Inv()
      modifies this`sv
      ensures Inv() && Shrinks(old(sv), sv) && |sv.runs| == |sv.state| == |g.svc|
      ensures sv == old(sv).(live := sv.live, nLive := sv.nLive, livePos := sv.livePos)
      ensures Has(sv, i) == (old(Has(sv, i)) && Busy(sv.runs[i]))
    {
      hide *;
      Known();
      FreeFacts(g, sv, Env(shuttingDown, rd.released), i);
      MaybeFree(i, false);
      SameButLive(old(sv), sv);
      Whole(-1);
    }

    /** Clears the deadline of service i, which has passed. */
    method Fired(i: nat, ghost now: int)
      requires i < |g.svc| && Inv() && sv.runs[i].restartAt != 0
      modifies this`sv
      ensures Inv() && OnlyRun(old(sv), sv, i) && Has(sv, i) && |sv.state| == |sv.runs| == |g.svc|
      ensures sv == old(sv).(runs := old(sv).runs[i := old(sv).runs[i].(restartAt := 0)])
      ensures RestartsLater(old(sv).runs, sv.runs, now) && g.svc[i].kind != Target
      ensures sv.state[i] == Running ==> sv.runs[i].pid == 0 && !sv.runs[i].starting
      ensures sv.state[i] != Running && sv.state[i] != Done ==> sv.want[i]
      ensures sv.runs[i].pid == 0 && !shuttingDown ==> !sv.runs[i].ntfOpen
      ensures sv.state[i] == Running ==> g.svc[i].startTries >= 2
    {
      hide *;
      Known();
      FiredFacts(g, sv, Env(shuttingDown, rd.released), i, children, now);
      sv := sv.(runs := sv.runs[i := sv.runs[i].(restartAt := 0)]);
      Whole(-1);
    }

    /** Launches service i again, which is between attempts or down. A launch that fails is a failed
        attempt, or waits for another restart. */
    method Relaunch(i: nat, now: int)
      requires i < |g.svc| && Inv() && g.svc[i].kind != Target && Has(sv, i) && now <= clock
      requires |rd.unmet| == |g.svc| && CanStart(i) && sv.runs[i].restartAt == 0
      requires sv.state[i] == Running || sv.state[i] == Done
      requires !rd.draining
      modifies this`children, this`clock, this`sv, this`launches, this`rd, this`book,
               (if pids == null then {} else {pids.key, pids.val})
      ensures Inv() && old(clock) <= clock && old(launches) < launches && sv.want == old(sv).want
      ensures SameQueue(old(rd), rd) && book == old(book).(owe := book.owe)
      ensures |sv.runs| == |sv.state| == |g.svc| && NoneDue(old(sv).runs, sv.runs, now)
    {
      hide *;
      KnownAt(i);
      ReadySame(rd);
      ghost var s0, t0 := sv, clock;
      CanStartFacts(i);
      StartedAlike(sv.runs[i], now);
      Note(i, sv.runs[i].(started := now));
      ghost var s1 := sv;
      OnlyRunFacts(s0, s1, i, t0);
      LaterNotDue(s0.runs, s1.runs, t0, now);
      KnownAt(i);
      CanStartFrom(i);
      if sv.state[i] == Running {
        Attempt(i);
        LaterNotDue(s1.runs, sv.runs, t0, now);
        NoneDueTwice(s0.runs, s1.runs, sv.runs, now);
        return;
      }
      var ok := Launch(i);
      ghost var s2, t2 := sv, clock;
      Parts(i);
      FlaggedFacts(g.svc[i], s1.runs[i], s2.runs[i].pid, s2.runs[i].started);
      OnlyRunFacts(s1, s2, i, t0);
      LaterNotDue(s1.runs, s2.runs, t0, now);
      NoneDueTwice(s0.runs, s1.runs, s2.runs, now);
      if ok {
        StartedFine(g, sv, Env(shuttingDown, rd.released), i);
        Whole(-1);
        return;
      }
      RestartSchedule(i, false);
      LaterNotDue(s2.runs, sv.runs, t2, now);
      NoneDueTwice(s0.runs, s2.runs, sv.runs, now);
    }

    /** The deadline of service i has passed and it is not held. */
    method Restart(i: nat, now: int)
      requires i < |g.svc| && Inv() && !shuttingDown && now <= clock && g.svc[i].kind != Target && Has(sv, i)
      requires sv.runs[i].restartAt == 0 && (sv.state[i] == Running || sv.state[i] == Done)
      requires sv.state[i] == Running ==> sv.runs[i].pid == 0 && !sv.runs[i].starting
      requires sv.runs[i].pid == 0 ==> !sv.runs[i].ntfOpen
      requires !rd.draining
      requires sv.state[i] == Running ==> g.svc[i].startTries >= 2
      modifies this`children, this`clock, this`sv, this`launches, this`rd, this`book,
               (if pids == null then {} else {pids.key, pids.val})
      ensures Inv() && old(clock) <= clock && old(launches) <= launches && sv.want == old(sv).want
      ensures SameQueue(old(rd), rd) && book == old(book).(owe := book.owe)
      ensures |sv.runs| == |sv.state| == |g.svc| && NoneDue(old(sv).runs, sv.runs, now)
      ensures old(sv).state[i] == Running && old(sv).runs[i].stalePid != 0 ==> sv.state[i] == Failed
      ensures |old(rd).unmet| == |g.svc| && old(CanStart(i)) ==> old(launches) < launches
    {
      hide *;
      KnownAt(i);
      ReadySame(rd);
      CanStartFacts(i);
      SelfNotDue(sv.runs, now);
      if CanStart(i) {
        Relaunch(i, now);
      } else if sv.runs[i].stalePid != 0 && sv.state[i] == Running {
        FailApply(i);
        LaterNotDue(old(sv).runs, sv.runs, old(clock), now);
      } else if sv.runs[i].stalePid != 0 || sv.runs[i].pid != 0 || sv.state[i] == Running {
        MayWaitIs(g.svc[i], sv.state[i], sv.want[i], sv.runs[i]);
        Arm(i, now + Grace(), sv.runs[i].stalePid != 0);
        Known();
        OnlyRunFacts(old(sv), sv, i, now);
        LaterNotDue(old(sv).runs, sv.runs, now, now);
      }
    }

    /** Service i gets the process its deadline promised, or another deadline, or is given up because
        its previous process would not go away. */
    method FireRestart(i: nat, now: int)
      requires i < |g.svc| && Inv() && !shuttingDown && now <= clock
      requires !rd.draining
      modifies this`children, this`clock, this`sv, this`launches, this`rd, this`book,
               (if pids == null then {} else {pids.key, pids.val})
      ensures Inv() && old(clock) <= clock && old(launches) <= launches && sv.want == old(sv).want
      ensures SameQueue(old(rd), rd) && book == old(book).(owe := book.owe)
      ensures |sv.runs| == |sv.state| == |g.svc| && NoneDue(old(sv).runs, sv.runs, now) && !IsDue(sv.runs[i], now)
      ensures !IsDue(old(sv).runs[i], now) ==> sv == old(sv)
      ensures IsDue(old(sv).runs[i], now) && old(sv).state[i] == Running && old(sv).runs[i].stalePid != 0
              && !old(sv).want[i] ==>
                sv.state[i] == Failed
      ensures IsDue(old(sv).runs[i], now) && |old(rd).unmet| == |g.svc| && old(CanStart(i)) ==> old(launches) < launches
    {
      hide *;
      KnownAt(i);
      ReadySame(rd);
      ghost var s0 := sv;
      CanStartFacts(i);
      NotDue(sv.runs[i], now);
      SelfNotDue(sv.runs, now);
      if sv.runs[i].restartAt == 0 || now < sv.runs[i].restartAt {
        return;
      }
      Fired(i, now);
      ghost var s1 := sv;
      LaterNotDue(s0.runs, s1.runs, now, now);
      NotDue(s1.runs[i], now);
      CanStartSame(i, s0);
      if sv.want[i] {
        CanStartFacts(i);
        return;
      }
      Restart(i, now);
      NoneDueTwice(s0.runs, s1.runs, sv.runs, now);
      StillNotDue(s1.runs, sv.runs, now, i);
    }

    lemma CanStartSame(i: nat, s: Services)
      requires i < |sv.want| && i < |sv.runs| && i < |rd.unmet| && |s.runs| == |sv.runs|
      requires sv == s.(runs := s.runs[i := s.runs[i].(restartAt := 0)])
      ensures CanStart(i) <==>
                !shuttingDown && !s.want[i] && s.runs[i].pid == 0 && s.runs[i].stalePid == 0 && rd.unmet[i] == 0
    {
    }

    /** Fires every restart that is due. Services come and go on the live list meanwhile. */
    method FireRestarts()
      requires Inv()
      requires !rd.draining
      modifies this`children, this`clock, this`sv, this`launches, this`rd, this`book,
               (if pids == null then {} else {pids.key, pids.val})
      ensures Inv() && old(clock) <= clock && old(launches) <= launches && sv.want == old(sv).want
      ensures SameQueue(old(rd), rd) && book == old(book).(owe := book.owe)
    {
      hide *;
      ReadySame(rd);
      var now := Now();
      if shuttingDown {
        return;
      }
      var k := 0;
      while k < sv.nLive
        invariant Inv() && now <= clock && old(clock) <= clock && old(launches) <= launches && sv.want == old(sv).want
        invariant SameQueue(old(rd), rd) && book == old(book).(owe := book.owe)
        decreases DueCount(sv.runs, now), sv.nLive - k
      {
        ghost var s, r, l := sv, rd, launches;
        Known();
        SameQueueFacts(old(rd), rd);
        LiveAt(g, sv, Env(shuttingDown, rd.released), k);
        var i := sv.live[k];
        FireRestart(i, now);
        Known();
        DueDrops(s.runs, sv.runs, now, i);
        SameQueueTwice(old(rd), r, rd);
        if k < sv.nLive && sv.live[k] == i {
          k := k + 1;
        }
      }
    }

    // ---------------------------------------------------------------- pipes

    /** A change of the record after which service i needs no more attention than before. */
    method Calm(i: nat, r: Run)
      requires i < |g.svc| && Inv() && Calmer(sv.runs[i], r)
      modifies this`sv
      ensures Inv() && sv == old(sv).(runs := old(sv).runs[i := r])
      ensures |sv.runs| == |sv.state| == |g.svc| && sv.runs[i] == r
      ensures SameTo(i, old(sv), sv) && Shrinks(old(sv), sv) && Has(sv, i) == old(Has(sv, i))
      ensures r.started == old(sv).runs[i].started
              && (r.timedOut == old(sv).runs[i].timedOut || !r.starting || r.timedOut) ==>
                StartsLater(old(sv).runs, sv.runs, clock)
    {
      hide *;
      Known();
      CalmerFacts(g, sv, Env(shuttingDown, rd.released), i, r, children, clock);
      sv := sv.(runs := sv.runs[i := r]);
      Whole(-1);
    }

    /** Service i reported that it is ready. */
    method Reported(i: nat)
      requires i < |g.svc| && Inv() && !rd.draining && sv.runs[i].pid != 0
      modifies this`children, this`clock, this`sv, this`launches, this`rd, this`book,
               (if pids == null then {} else {pids.key, pids.val})
      ensures Inv() && !rd.draining && old(clock) <= clock && old(launches) <= launches && sv.want == old(sv).want
      ensures SameTo(i, old(sv), sv) && StartsLater(old(sv).runs, sv.runs, old(clock)) && old(book).ever <= book.ever
      ensures book.booted == old(book).booted
      ensures |sv.state| == |sv.runs| == |rd.up| == |g.svc| && sv.state[i] == Done && rd.up[i]
      ensures sv.runs[i] == old(sv).runs[i].(starting := false)
      ensures shuttingDown ==> launches == old(launches)
    {
      hide *;
      Known();
      KnownAt(i);
      ProcessFacts(g, sv, Env(shuttingDown, rd.released), i);
      if sv.state[i] == Running || sv.state[i] == Done {
        Complete(i);
      }
    }

    /** One read of the notify pipe. Ready is reported by a newline; a pipe that closes before that
        has its process killed. It never outlives the process, so no start fails here. */
    method ReadNotify(i: nat, read: Read)
      requires i < |g.svc| && Inv() && !rd.draining && sv.runs[i].pid != 0 && sv.runs[i].ntfOpen
      modifies this`children, this`clock, this`sv, this`launches, this`rd, this`book,
               (if pids == null then {} else {pids.key, pids.val})
      ensures Inv() && !rd.draining && old(clock) <= clock && old(launches) <= launches && sv.want == old(sv).want
      ensures SameTo(i, old(sv), sv) && StartsLater(old(sv).runs, sv.runs, old(clock))
      ensures old(book).ever <= book.ever && book.booted == old(book).booted
      ensures PipeEvent(old(sv), old(rd).up, sv, rd.up, i)
      ensures |rd.up| == |g.svc| && OneRead(old(sv), old(rd).up, sv, rd.up, i, read)
      ensures shuttingDown ==> launches == old(launches)
      ensures !Listening(old(sv).runs[i]) ==>
                Alone(old(sv), sv, i) && !Listening(sv.runs[i])
    {
      hide *;
      KnownAt(i);
      Quiet(sv, i, clock);
      PipeOnly(sv, rd.up, sv, rd.up, i);
      PipeCalm(sv.runs[i]);
      ListeningIs(sv.runs[i], read);
      match read {
      case Data(newline) =>
        if sv.runs[i].starting && !sv.runs[i].timedOut && !sv.runs[i].hup && newline {
          Reported(i);
          PipeOnly(old(sv), old(rd).up, sv, rd.up, i);
        }
      case Interrupted =>
      case WouldBlock =>
      case Hangup =>
        CloseNotify(i);
      }
      ListeningIs(sv.runs[i], read);
      if sv.state == old(sv).state && (sv.runs == old(sv).runs || sv.runs == old(sv).runs[i := sv.runs[i]]) {
        AloneFrom(old(sv), sv, i, sv.runs[i]);
      }
      OneReadIs(old(sv), old(rd).up, sv, rd.up, i, read);
    }

    /** The notify pipe of service i has closed. */
    method CloseNotify(i: nat)
      requires i < |g.svc| && Inv() && sv.runs[i].pid != 0
      modifies this`sv
      ensures Inv() && sv.want == old(sv).want && SameTo(i, old(sv), sv) && StartsLater(old(sv).runs, sv.runs, clock)
      ensures |rd.up| == |g.svc| && PipeEvent(old(sv), rd.up, sv, rd.up, i)
      ensures |sv.runs| == |sv.state| == |g.svc| && sv.state == old(sv).state
      ensures sv.runs == old(sv).runs[i := old(sv).runs[i].(ntfOpen := false,
                                                            hup := old(sv).runs[i].hup || old(sv).runs[i].starting)]
    {
      hide *;
      KnownAt(i);
      PipeCalm(sv.runs[i]);
      var starting := sv.runs[i].starting;
      if starting {
        Calm(i, sv.runs[i].(ntfOpen := false, hup := true));
      } else {
        Calm(i, sv.runs[i].(ntfOpen := false));
      }
      ghost var s := sv;
      PipeOnly(old(sv), rd.up, s, rd.up, i);
      Known();
      FreeSame(s, s, i, clock);
      if !starting {
        Free(i);
        FreeSame(s, sv, i, clock);
      }
      PipeOnly(s, rd.up, sv, rd.up, i);
      PipeTwice(old(sv), rd.up, s, rd.up, sv, rd.up, i);
      InTurn(old(sv), s, sv, i, clock, clock);
    }

    /** Reads the notify pipe until it would block or closes, or the allowance is used up. */
    method DrainNotify(i: nat, input: seq<Read>)
      requires i < |g.svc| && Inv() && !rd.draining && sv.runs[i].pid != 0
      modifies this`children, this`clock, this`sv, this`launches, this`rd, this`book,
               (if pids == null then {} else {pids.key, pids.val})
      ensures Inv() && !rd.draining && old(clock) <= clock && old(launches) <= launches && sv.want == old(sv).want
      ensures SameTo(i, old(sv), sv) && StartsLater(old(sv).runs, sv.runs, old(clock))
      ensures old(book).ever <= book.ever && book.booted == old(book).booted
      ensures PipeEvent(old(sv), old(rd).up, sv, rd.up, i)
      ensures shuttingDown ==> launches == old(launches)
      ensures Listening(old(sv).runs[i]) ==> Told(old(sv), old(rd).up, sv, rd.up, i, input)
      ensures |sv.state| == |sv.runs| == |g.svc|
      ensures !Listening(old(sv).runs[i]) ==> Alone(old(sv), sv, i)
    {
      hide *;
      KnownAt(i);
      Quiet(sv, i, clock);
      PipeOnly(sv, rd.up, sv, rd.up, i);
      TellingStarts(sv, rd.up, i, input);
      AloneFrom(sv, sv, i, sv.runs[i]);
      var n := 0;
      while n < |input|
        invariant 0 <= n <= |input|
        invariant Inv() && !rd.draining && old(clock) <= clock && old(launches) <= launches && sv.want == old(sv).want
        invariant shuttingDown ==> launches == old(launches)
        invariant SameTo(i, old(sv), sv) && StartsLater(old(sv).runs, sv.runs, old(clock))
        invariant old(book).ever <= book.ever && book.booted == old(book).booted
        invariant PipeEvent(old(sv), old(rd).up, sv, rd.up, i)
        invariant |sv.state| == |sv.runs| == |g.svc|
        invariant !Listening(old(sv).runs[i]) ==> Alone(old(sv), sv, i) && !Listening(sv.runs[i])
        invariant |rd.up| == |sv.runs| == |g.svc|
        invariant (Listening(old(sv).runs[i]) ==> Telling(old(sv), old(rd).up, sv, rd.up, i, input, n))
      {
        ghost var s, r, t := sv, rd, clock;
        KnownAt(i);
        PipeFacts(old(sv), old(rd).up, sv, rd.up, i);
        if !sv.runs[i].ntfOpen || input[n] == WouldBlock {
          if Listening(old(sv).runs[i]) {
            TellingEnds(old(sv), old(rd).up, sv, rd.up, i, input, n);
          }
          return;
        }
        ReadNotify(i, input[n]);
        if Listening(old(sv).runs[i]) {
          TellingStep(old(sv), old(rd).up, s, r.up, sv, rd.up, i, input, n);
        } else {
          AloneTwice(old(sv), s, sv, i);
        }
        PipeTwice(old(sv), old(rd).up, s, r.up, sv, rd.up, i);
        InTurn(old(sv), s, sv, i, old(clock), t);
        n := n + 1;
      }
      if Listening(old(sv).runs[i]) {
        TellingEnds(old(sv), old(rd).up, sv, rd.up, i, input, n);
      }
    }

    method ExecClosed(i: nat)
      requires i < |g.svc| && Inv() && sv.runs[i].pid != 0
      modifies this`sv
      ensures Inv() && |sv.runs| == |sv.state| == |rd.up| == |g.svc|
      ensures sv == old(sv).(runs := old(sv).runs[i := old(sv).runs[i].(ntfOpen := false)]) && sv.runs[i].pid != 0
      ensures SameTo(i, old(sv), sv) && StartsLater(old(sv).runs, sv.runs, clock)
      ensures PipeEvent(old(sv), rd.up, sv, rd.up, i)
    {
      hide *;
      KnownAt(i);
      PipeCalm(sv.runs[i]);
      Calm(i, sv.runs[i].(ntfOpen := false));
      KnownAt(i);
      PipeOnly(old(sv), rd.up, sv, rd.up, i);
    }

    /** The program of service i runs. */
    method ExecHeard(i: nat)
      requires i < |g.svc| && Inv() && !rd.draining && sv.runs[i].pid != 0
      modifies this`children, this`clock, this`sv, this`launches, this`rd, this`book,
               (if pids == null then {} else {pids.key, pids.val})
      ensures Inv() && !rd.draining && old(clock) <= clock && old(launches) <= launches && sv.want == old(sv).want
      ensures SameTo(i, old(sv), sv) && StartsLater(old(sv).runs, sv.runs, old(clock))
      ensures old(book).ever <= book.ever && book.booted == old(book).booted
      ensures |sv.state| == |rd.up| == |g.svc| && sv.state[i] == Done && rd.up[i]
      ensures PipeEvent(old(sv), old(rd).up, sv, rd.up, i)
    {
      hide *;
      KnownAt(i);
      Reported(i);
      PipeOnly(old(sv), old(rd).up, sv, rd.up, i);
    }

    /** For a daemon without a readiness report, the exec is the report: the pipe closes with nothing in it. */
    method DrainExec(i: nat, read: Read)
      requires i < |g.svc| && Inv() && !rd.draining && sv.runs[i].pid != 0
      modifies this`children, this`clock, this`sv, this`launches, this`rd, this`book,
               (if pids == null then {} else {pids.key, pids.val})
      ensures Inv() && !rd.draining && old(clock) <= clock && old(launches) <= launches && sv.want == old(sv).want
      ensures SameTo(i, old(sv), sv) && StartsLater(old(sv).runs, sv.runs, old(clock))
      ensures old(book).ever <= book.ever && book.booted == old(book).booted
      ensures PipeEvent(old(sv), old(rd).up, sv, rd.up, i)
      ensures read == Hangup && old(sv).runs[i].ntfOpen && old(sv).runs[i].starting ==> sv.state[i] == Done && rd.up[i]
      ensures read.Data? && old(sv).runs[i].ntfOpen ==> !sv.runs[i].ntfOpen && sv.state[i] == old(sv).state[i]
    {
      hide *;
      KnownAt(i);
      Quiet(sv, i, clock);
      PipeOnly(sv, rd.up, sv, rd.up, i);
      PipeCalm(sv.runs[i]);
      if !sv.runs[i].ntfOpen || read == Interrupted || read == WouldBlock {
        return;
      }
      ExecClosed(i);
      ghost var s := sv;
      if read == Hangup && sv.runs[i].starting {
        ExecHeard(i);
        PipeTwice(old(sv), old(rd).up, s, old(rd).up, sv, rd.up, i);
        InTurn(old(sv), s, sv, i, old(clock), old(clock));
      }
    }

    /** The output pipe of service i has closed. */
    method CloseOutput(i: nat)
      requires i < |g.svc| && Inv()
      modifies this`sv
      ensures Inv() && |sv.runs| == |old(sv).runs| == |g.svc|
      ensures sv.runs == old(sv).runs[i := old(sv).runs[i].(outOpen := false)]
      ensures sv.state == old(sv).state && sv.want == old(sv).want && Shrinks(old(sv), sv)
    {
      hide *;
      Known();
      PipeCalm(sv.runs[i]);
      Calm(i, sv.runs[i].(outOpen := false));
      ghost var s := sv;
      Free(i);
      FreeSame(s, sv, i, clock);
      ShrinksTwice(old(sv), s, sv);
    }

    // ---------------------------------------------------------------- exits

    /** Takes a reaped child out of the process table. */
    method Forget(pid: nat)
      requires TableOk() && |children| <= |g.svc| && pid in children && pid != 0
      modifies this`children, (if pids == null then {} else {pids.key, pids.val})
      ensures TableOk() && children == old(children) - {pid}
    {
      hide PidTable.Valid, PidTable.Map;
      if pids != null {
        pids.Delete(pid);
      }
      children := children - {pid};
    }

    /** The process of service i was reaped; what that means for the service is decided next. */
    method Bury(i: nat)
      requires i < |g.svc| && Inv() && sv.runs[i].pid != 0
      modifies this`children, this`sv, (if pids == null then {} else {pids.key, pids.val})
      ensures InvBut(i) && |sv.runs| == |sv.state| == |g.svc| && Has(sv, i)
      ensures children == old(children) - {old(sv).runs[i].pid}
      ensures sv == old(sv).(runs := old(sv).runs[i := old(sv).runs[i].(pid := 0)]) && OnlyRun(old(sv), sv, i)
      ensures sv.runs[i].stalePid == 0 && (sv.state[i] == Running || sv.state[i] == Done) && g.svc[i].kind != Target
      ensures (sv.state[i] == Running ==> sv.runs[i].restartAt == 0) && (sv.runs[i].ntfOpen ==> g.svc[i].kind == Daemon)
      ensures SameTo(i, old(sv), sv) && StartsLater(old(sv).runs, sv.runs, clock)
    {
      hide *;
      Known();
      FewChildren(sv.runs, children);
      GoneFacts(g, sv, Env(shuttingDown, rd.released), i, children);
      Forget(sv.runs[i].pid);
      sv := sv.(runs := sv.runs[i := sv.runs[i].(pid := 0)]);
      Whole(i);
    }

    /** A held service has stopped: it is down, and waits to be started again. */
    method ExitHeld(i: nat)
      requires i < |g.svc| && InvBut(i) && Has(sv, i) && g.svc[i].kind != Target
      requires sv.runs[i].pid == 0 && (sv.state[i] == Running || sv.state[i] == Done)
      requires !rd.draining
      modifies this`sv, this`rd, this`book
      ensures Inv() && rd.draining == old(rd).draining && sv.want == old(sv).want
      ensures SameTo(i, old(sv), sv) && StartsLater(old(sv).runs, sv.runs, clock)
      ensures |sv.runs| == |sv.state| == |rd.up| == |g.svc| && !rd.up[i] && sv.runs[i] == Stopped(old(sv).runs[i])
      ensures sv.state[i] == if old(sv).state[i] == Running then Pending else Done
      ensures book == old(book).(owe := book.owe)
    {
      hide *;
      Parts(i);
      GoDownInv(i, i);
      Parts(i);
      ShapedOf(g, sv, Env(shuttingDown, rd.released), false, i);
      RelIs(rd.released, shuttingDown, i);
      StoppedFacts(g, sv, Env(shuttingDown, rd.released), i);
      Settle(i, if sv.state[i] == Running then Pending else Done, Stopped(sv.runs[i]));
      ghost var s := sv;
      Parts(i);
      MaybeFree(i, false);
      SameButLive(s, sv);
      FreeSame(s, sv, i, clock);
      Whole(-1);
      InTurn(old(sv), s, sv, i, clock, clock);
    }

    /** Replaces the record of service i, and takes it from starting to pending if asked to. */
    method Settle(i: nat, st: State, r: Run)
      requires i < |g.svc| && InvBut(i) && r.pid == sv.runs[i].pid
      requires r.stalePid == sv.runs[i].stalePid && r.op == sv.runs[i].op
      requires st == sv.state[i] || (sv.state[i] == Running && st == Pending)
      modifies this`sv
      ensures InvBut(i) && |sv.runs| == |sv.state| == |g.svc| && sv.state[i] == st && sv.runs[i] == r
      ensures sv == old(sv).(state := old(sv).state[i := st], runs := old(sv).runs[i := r], nActive := sv.nActive,
                             nPending := sv.nPending)
      ensures SameTo(i, old(sv), sv) && Shrinks(old(sv), sv) && Has(sv, i) == old(Has(sv, i)) && sv.want == old(sv).want
      ensures !r.starting ==> StartsLater(old(sv).runs, sv.runs, clock)
    {
      hide *;
      Parts(i);
      ReplacedFacts(g, sv, Env(shuttingDown, rd.released), i, st, r, children, clock);
      sv := Replaced(sv, i, st, r);
      Whole(i);
    }

    /** Drops service i from the live list if it needs no attention, and is done with the change of it. */
    method SettleFree(i: nat)
      requires i < |g.svc| && InvBut(i)
      requires SvcFine(g.svc[i], sv.state[i], sv.want[i], sv.runs[i], true, shuttingDown, false,
                       Rel(Env(shuttingDown, rd.released), i)) && Has(sv, i)
      modifies this`sv
      ensures Inv() && sv == old(sv).(live := sv.live, nLive := sv.nLive, livePos := sv.livePos)
      ensures |sv.runs| == |sv.state| == |g.svc|
      ensures SameTo(i, old(sv), sv) && StartsLater(old(sv).runs, sv.runs, clock) && Shrinks(old(sv), sv)
    {
      hide *;
      Parts(i);
      FineNow(g, sv, Env(shuttingDown, rd.released), i);
      Whole(-1);
      Free(i);
      FreeSame(old(sv), sv, i, clock);
    }

    /** The process of a service that was done has gone before shutdown: the service is down. It is
        restarted, or its dependents are skipped. */
    method ExitDone(i: nat)
      requires i < |g.svc| && InvBut(i) && Has(sv, i) && g.svc[i].kind != Target && !shuttingDown
      requires sv.runs[i].pid == 0 && sv.state[i] == Done && (sv.runs[i].ntfOpen ==> g.svc[i].kind == Daemon)
      requires !rd.draining
      modifies this`sv, this`rd, this`book, this`clock
      ensures Inv() && rd.draining == old(rd).draining && old(clock) <= clock && old(launches) <= launches
      ensures SameTo(i, old(sv), sv) && StartsLater(old(sv).runs, sv.runs, old(clock)) && sv.want == old(sv).want
      ensures old(book).ever <= book.ever && book.booted == old(book).booted
      ensures |sv.runs| == |sv.state| == |rd.up| == |g.svc|
      ensures !rd.up[i] && sv.state[i] == Done && !sv.runs[i].starting
      ensures g.svc[i].restart ==>
                sv.runs[i] == Rescheduled(old(sv).runs[i].(starting := false), !old(sv).runs[i].starting, clock)
                && sv.state == old(sv).state && sv.runs[i].restartAt > old(clock)
      ensures !g.svc[i].restart ==> sv.runs[i] == Closed(old(sv).runs[i]).(starting := false)
      ensures !g.svc[i].restart && !g.svc[i].orderOnly ==>
                GoneLeaves(Scene(g, old(sv).state, rd.up,
                                 old(sv).runs[i := Closed(old(sv).runs[i]).(starting := false)]), i, sv.state)
      ensures sv.runs[i].pid == 0
    {
      hide *;
      Parts(i);
      GoDownInv(i, i);
      Parts(i);
      ghost var s0 := sv;
      var wasUp := !sv.runs[i].starting;
      var r := sv.runs[i].(starting := false);
      RescheduledFacts(r, wasUp, clock);
      if g.svc[i].restart {
        Settle(i, Done, r);
        ghost var s1 := sv;
        RestartSchedule(i, wasUp);
        Known();
        RescheduledFacts(r, wasUp, clock);
        InTurn(s0, s1, sv, i, old(clock), old(clock));
        return;
      }
      ShapedOf(g, sv, Env(shuttingDown, rd.released), false, i);
      ExitedFacts(g, sv, Env(shuttingDown, rd.released), i);
      Settle(i, Done, Closed(sv.runs[i]).(starting := false));
      ghost var s1 := sv;
      assert s1.state == s0.state;
      Parts(i);
      FineNow(g, sv, Env(shuttingDown, rd.released), i);
      Whole(-1);
      PoisonDeps(i);
      ghost var s2 := sv;
      Free(i);
      DepsFacts(s1, s2, sv, i, clock);
      InTurn(s0, s1, sv, i, clock, clock);
    }

    /** A oneshot has done its work. */
    method Finish(i: nat)
      requires i < |g.svc| && InvBut(i) && Has(sv, i) && g.svc[i].kind == Oneshot && !rd.draining
      requires sv.runs[i].pid == 0 && (sv.runs[i].ntfOpen ==> g.svc[i].kind == Daemon)
      modifies this`children, this`clock, this`sv, this`launches, this`rd, this`book,
               (if pids == null then {} else {pids.key, pids.val})
      ensures Inv() && rd.draining == old(rd).draining && old(clock) <= clock && old(launches) <= launches
      ensures SameTo(i, old(sv), sv) && StartsLater(old(sv).runs, sv.runs, old(clock)) && sv.want == old(sv).want
      ensures old(book).ever <= book.ever && book.booted == old(book).booted
      ensures |sv.runs| == |sv.state| == |rd.up| == |g.svc|
      ensures sv.state[i] == Done && rd.up[i]
      ensures sv.runs[i].pid == 0
    {
      hide *;
      Parts(i);
      ShapedOf(g, sv, Env(shuttingDown, rd.released), false, i);
      ExitedFacts(g, sv, Env(shuttingDown, rd.released), i);
      Complete(i);
      ghost var s := sv;
      Free(i);
      Known();
      FreeSame(s, sv, i, clock);
      InTurn(old(sv), s, sv, i, old(clock), clock);
    }

    /** The process of a starting service has gone. Only a oneshot that exits with 0 has done its work. */
    method ExitStarting(i: nat, ok: bool) returns (act: Act)
      requires i < |g.svc| && InvBut(i) && Has(sv, i) && g.svc[i].kind != Target && !shuttingDown && !rd.draining
      requires sv.runs[i].pid == 0 && sv.runs[i].stalePid == 0 && sv.state[i] == Running && sv.runs[i].restartAt == 0
      requires sv.runs[i].ntfOpen ==> g.svc[i].kind == Daemon
      modifies this`children, this`clock, this`sv, this`launches, this`rd, this`book,
               (if pids == null then {} else {pids.key, pids.val})
      ensures Inv() && rd.draining == old(rd).draining && old(clock) <= clock && old(launches) <= launches
      ensures SameTo(i, old(sv), sv) && StartsLater(old(sv).runs, sv.runs, old(clock)) && sv.want == old(sv).want
      ensures old(book).ever <= book.ever && book.booted == old(book).booted
      ensures |sv.runs| == |sv.state| == |rd.up| == |g.svc|
      ensures var done := g.svc[i].kind == Oneshot && ok && !old(sv).runs[i].timedOut && !old(sv).runs[i].hup;
              if done then sv.state[i] == Done && rd.up[i]
              else if NextAttempt(old(sv).runs[i].attempt) < g.svc[i].startTries then
                sv.state[i] == Running && sv.runs[i].restartAt > old(clock) && sv.state == old(sv).state
              else sv.state[i] == Failed && !rd.up[i]
      ensures sv.runs[i].pid == 0
    {
      hide *;
      Parts(i);
      ReadySame(rd);
      act := Retry;
      if g.svc[i].kind == Oneshot && ok && !sv.runs[i].timedOut && !sv.runs[i].hup {
        Finish(i);
        return;
      }
      DroppedKeeps(sv.runs[i]);
      FailFacts(g.svc[i], NextAttempt(sv.runs[i].attempt));
      act := ServiceFailed(i);
      SameQueueFacts(old(rd), rd);
    }

    /** The process of service i has gone. */
    method ChildExited(i: nat, ok: bool, input: seq<Read>)
      requires i < |g.svc| && Inv() && !rd.draining && sv.runs[i].pid != 0
      modifies this`children, this`clock, this`sv, this`launches, this`rd, this`book,
               (if pids == null then {} else {pids.key, pids.val})
      ensures Inv() && rd.draining == old(rd).draining && old(clock) <= clock && old(launches) <= launches
      ensures SameTo(i, old(sv), sv) && StartsLater(old(sv).runs, sv.runs, old(clock)) && sv.want == old(sv).want
      ensures old(book).ever <= book.ever && book.booted == old(book).booted
      ensures |sv.runs| == |sv.state| == |rd.up| == |g.svc|
      ensures !shuttingDown ==> Outcome(g, old(sv), sv, rd.up, i, ok, input, old(clock))
      ensures shuttingDown ==> launches == old(launches)
      ensures sv.runs[i].pid == 0
    {
      hide *;
      KnownAt(i);
      if sv.runs[i].ntfOpen {
        PipeKind(g.svc[i], sv.state[i], sv.want[i], sv.runs[i], Has(sv, i), shuttingDown, false,
                 Rel(Env(shuttingDown, rd.released), i));
      }
      LastWords(i, input);
      HeardIs(old(sv), sv, i, input);
      ghost var s, t := sv, clock;
      Exited(i, ok);
      InTurn(old(sv), s, sv, i, old(clock), t);
      if !shuttingDown {
        OutcomeFrom(g, old(sv), s, sv, rd.up, i, ok, input, old(clock), t);
      }
    }

    /** What a process reported before it ended still counts; then the process is forgotten. */
    method LastWords(i: nat, input: seq<Read>)
      requires i < |g.svc| && Inv() && !rd.draining && sv.runs[i].pid != 0
      modifies this`children, this`clock, this`sv, this`launches, this`rd, this`book,
               (if pids == null then {} else {pids.key, pids.val})
      ensures InvBut(i) && !rd.draining && old(clock) <= clock && old(launches) <= launches
      ensures SameTo(i, old(sv), sv) && StartsLater(old(sv).runs, sv.runs, old(clock)) && sv.want == old(sv).want
      ensures old(book).ever <= book.ever && book.booted == old(book).booted
      ensures |sv.runs| == |sv.state| == |rd.up| == |g.svc|
      ensures Has(sv, i) && g.svc[i].kind != Target && sv.runs[i].pid == 0 && sv.runs[i].stalePid == 0
      ensures (sv.state[i] == Running ==> sv.runs[i].restartAt == 0) && (sv.runs[i].ntfOpen ==> g.svc[i].kind == Daemon)
      ensures sv.state[i] == Running || sv.state[i] == Done
      ensures !old(sv).runs[i].ntfOpen ==> sv.state[i] == old(sv).state[i] && sv.runs[i] == old(sv).runs[i].(pid := 0)
      ensures shuttingDown ==> launches == old(launches)
      ensures Heard(old(sv), sv, i, input)
    {
      hide *;
      KnownAt(i);
      ReadLast(i, input);
      PipeFacts(old(sv), old(rd).up, sv, rd.up, i);
      ghost var s, t := sv, clock;
      Bury(i);
      HeardSame(old(sv), s, sv, i, input);
      KnownUp(i);
      InTurn(old(sv), s, sv, i, old(clock), t);
    }

    /** Reads what is left in the notify pipe. */
    method ReadLast(i: nat, input: seq<Read>)
      requires i < |g.svc| && Inv() && !rd.draining && sv.runs[i].pid != 0
      modifies this`children, this`clock, this`sv, this`launches, this`rd, this`book,
               (if pids == null then {} else {pids.key, pids.val})
      ensures Inv() && !rd.draining && old(clock) <= clock && old(launches) <= launches && sv.want == old(sv).want
      ensures SameTo(i, old(sv), sv) && StartsLater(old(sv).runs, sv.runs, old(clock))
      ensures old(book).ever <= book.ever && book.booted == old(book).booted
      ensures (shuttingDown ==> launches == old(launches))
      ensures PipeEvent(old(sv), old(rd).up, sv, rd.up, i) && (!old(sv).runs[i].ntfOpen ==> sv == old(sv))
      ensures Heard(old(sv), sv, i, input)
    {
      hide *;
      KnownAt(i);
      if sv.runs[i].ntfOpen && !sv.runs[i].ntfExec {
        DrainNotify(i, input);
        HeardFrom(old(sv), old(rd).up, sv, rd.up, i, input);
        return;
      }
      Quiet(sv, i, clock);
      PipeOnly(sv, rd.up, sv, rd.up, i);
      HeardFrom(sv, rd.up, sv, rd.up, i, input);
    }

    lemma KnownUp(i: int)
      requires InvBut(i)
      ensures |rd.up| == |rd.unmet| == |sv.state| == |sv.runs| == |g.svc|
    {
      Parts(i);
    }

    /** What the end of its process means for service i. */
    method Exited(i: nat, ok: bool)
      requires i < |g.svc| && InvBut(i) && Has(sv, i) && g.svc[i].kind != Target && !rd.draining
      requires sv.runs[i].pid == 0 && sv.runs[i].stalePid == 0 && (sv.state[i] == Running || sv.state[i] == Done)
      requires (sv.state[i] == Running ==> sv.runs[i].restartAt == 0)
      requires (sv.runs[i].ntfOpen ==> g.svc[i].kind == Daemon)
      modifies this`children, this`clock, this`sv, this`launches, this`rd, this`book,
               (if pids == null then {} else {pids.key, pids.val})
      ensures Inv() && rd.draining == old(rd).draining && old(clock) <= clock && old(launches) <= launches
      ensures SameTo(i, old(sv), sv) && StartsLater(old(sv).runs, sv.runs, old(clock)) && sv.want == old(sv).want
      ensures old(book).ever <= book.ever && book.booted == old(book).booted
      ensures |sv.runs| == |sv.state| == |rd.up| == |g.svc|
      ensures sv.want[i] && !shuttingDown ==>
                !rd.up[i] && sv.runs[i].restartAt == 0
                    && sv.state[i] == (if old(sv).state[i] == Running then Pending else Done)
      ensures !sv.want[i] && !shuttingDown && old(sv).state[i] == Done ==>
                !rd.up[i] && sv.state[i] == Done && (g.svc[i].restart ==> sv.runs[i].restartAt > old(clock))
      ensures !sv.want[i] && !shuttingDown && old(sv).state[i] == Running ==>
                var done := g.svc[i].kind == Oneshot && ok && !old(sv).runs[i].timedOut && !old(sv).runs[i].hup;
                if done then sv.state[i] == Done && rd.up[i]
                else if NextAttempt(old(sv).runs[i].attempt) < g.svc[i].startTries then
                  sv.state[i] == Running && sv.runs[i].restartAt > old(clock)
                else sv.state[i] == Failed && !rd.up[i]
      ensures shuttingDown ==> rd == old(rd) && sv.state == old(sv).state
      ensures shuttingDown ==> launches == old(launches)
      ensures sv.runs[i].pid == 0
      ensures !sv.want[i] && !shuttingDown && old(sv).state[i] == Done && !g.svc[i].restart && !g.svc[i].orderOnly ==>
                GoneLeaves(Scene(g, old(sv).state, rd.up, old(sv).runs[i := sv.runs[i]]), i, sv.state)
    {
      hide *;
      Parts(i);
      StoppedPid(sv.runs[i]);
      if sv.want[i] && !shuttingDown {
        ExitHeld(i);
      } else if shuttingDown {
        ExitShutdown(i);
      } else if sv.state[i] != Running {
        ExitDone(i);
      } else {
        var _ := ExitStarting(i, ok);
      }
    }

    /** During shutdown nothing is restarted: the service is only let go. */
    method ExitShutdown(i: nat)
      requires i < |g.svc| && InvBut(i) && Has(sv, i) && g.svc[i].kind != Target && shuttingDown
      requires sv.runs[i].pid == 0 && (sv.state[i] == Running || sv.state[i] == Done)
      requires (sv.state[i] == Running ==> sv.runs[i].restartAt == 0)
      requires (sv.runs[i].ntfOpen ==> g.svc[i].kind == Daemon)
      modifies this`sv
      ensures Inv() && SameTo(i, old(sv), sv) && StartsLater(old(sv).runs, sv.runs, clock) && sv.want == old(sv).want
      ensures sv.state == old(sv).state && |sv.runs| == |sv.state| == |g.svc|
      ensures sv.runs[i].pid == 0
    {
      hide *;
      Parts(i);
      ShapedOf(g, sv, Env(shuttingDown, rd.released), false, i);
      ExitedFacts(g, sv, Env(shuttingDown, rd.released), i);
      ShutFacts(g, sv, Env(shuttingDown, rd.released), i);
      ghost var s0 := sv;
      Settle(i, sv.state[i], if sv.state[i] == Running then Closed(sv.runs[i]) else sv.runs[i].(starting := false));
      ghost var s1 := sv;
      SettleFree(i);
      ShutSame(s0, s1, sv, i, clock);
    }

    /** The abandoned process of service i is reaped. If nothing else held up its next start, that comes soon;
        a restart delay stays. */
    method StaleReaped(i: nat)
      requires i < |g.svc| && Inv() && sv.runs[i].stalePid != 0
      modifies this`children, this`sv, this`clock, (if pids == null then {} else {pids.key, pids.val})
      ensures Inv() && old(clock) <= clock && SameTo(i, old(sv), sv) && StartsLater(old(sv).runs, sv.runs, old(clock))
      ensures children == old(children) - {old(sv).runs[i].stalePid}
      ensures sv.want == old(sv).want && sv.state == old(sv).state
      ensures |sv.runs| == |sv.state| == |g.svc|
      ensures sv.runs[i] == if old(sv).runs[i].restartAt != 0 && old(sv).runs[i].staleHold
                            then old(sv).runs[i].(stalePid := 0, restartAt := clock + RetryDelay(g.svc[i]),
                                                  staleHold := false)
                            else old(sv).runs[i].(stalePid := 0)
    {
      hide *;
      BuryStale(i);
      ghost var s1 := sv;
      Hasten(i);
      ghost var s2 := sv;
      InTurn(old(sv), s1, s2, i, old(clock), old(clock));
      Free(i);
      FreeSame(s2, sv, i, clock);
      InTurn(old(sv), s2, sv, i, old(clock), clock);
    }

    method BuryStale(i: nat)
      requires i < |g.svc| && Inv() && sv.runs[i].stalePid != 0
      modifies this`children, this`sv, (if pids == null then {} else {pids.key, pids.val})
      ensures Inv() && SameTo(i, old(sv), sv) && StartsLater(old(sv).runs, sv.runs, clock)
      ensures children == old(children) - {old(sv).runs[i].stalePid} && |sv.runs| == |sv.state| == |g.svc|
      ensures sv == old(sv).(runs := old(sv).runs[i := old(sv).runs[i].(stalePid := 0)])
    {
      hide *;
      Known();
      FewChildren(sv.runs, children);
      StaleFacts(g, sv, Env(shuttingDown, rd.released), i, children);
      Forget(sv.runs[i].stalePid);
      sv := sv.(runs := sv.runs[i := sv.runs[i].(stalePid := 0)]);
      Whole(-1);
    }

    /** The deadline of a start held back by a stale process alone is moved up to that of a retry. */
    method Hasten(i: nat)
      requires i < |g.svc| && Inv()
      modifies this`sv, this`clock
      ensures Inv() && old(clock) <= clock && SameTo(i, old(sv), sv) && StartsLater(old(sv).runs, sv.runs, old(clock))
      ensures |sv.runs| == |sv.state| == |g.svc| && sv.state == old(sv).state && sv.want == old(sv).want
      ensures sv.runs[i] == if old(sv).runs[i].restartAt != 0 && old(sv).runs[i].staleHold
                            then old(sv).runs[i].(restartAt := clock + RetryDelay(g.svc[i]), staleHold := false)
                            else old(sv).runs[i]
    {
      hide *;
      Known();
      Quiet(sv, i, clock);
      if sv.runs[i].restartAt != 0 && sv.runs[i].staleHold {
        var now := Now();
        Known();
        MoveFacts(g, sv, Env(shuttingDown, rd.released), i, now + RetryDelay(g.svc[i]), children);
        sv := sv.(runs := sv.runs[i := sv.runs[i].(restartAt := now + RetryDelay(g.svc[i]), staleHold := false)]);
        Whole(-1);
      }
    }

    /** The service a process belongs to, by the table or, without one, by a scan of the live list. */
    method FindPid(pid: nat) returns (found: bool, i: nat, stale: bool)
      requires Inv() && pid != 0
      ensures found <==> pid in children
      ensures found ==> i == children[pid] && i < |g.svc| == |sv.runs|
      ensures found ==> if stale then sv.runs[i].stalePid == pid else sv.runs[i].pid == pid
    {
      hide *;
      Known();
      FewChildren(sv.runs, children);
      found, i, stale := false, 0, false;
      if pids != null {
        TableFacts();
        found, i := pids.Lookup(pid);
        if found {
          ChildRecorded(sv.runs, children, pid);
          RecordedPid(sv.runs, children, i);
          stale := sv.runs[i].pid != pid;
        }
        return;
      }
      var k := 0;
      while k < sv.nLive
        invariant 0 <= k <= sv.nLive <= |sv.live|
        invariant forall l :: 0 <= l < k ==>
                    sv.live[l] < |g.svc| && sv.runs[sv.live[l]].pid != pid && sv.runs[sv.live[l]].stalePid != pid
      {
        LiveAt(g, sv, Env(shuttingDown, rd.released), k);
        var j := sv.live[k];
        RecordedPid(sv.runs, children, j);
        if sv.runs[j].pid == pid {
          return true, j, false;
        }
        if sv.runs[j].stalePid == pid {
          return true, j, true;
        }
        k := k + 1;
      }
      ScanFinds(g, sv, Env(shuttingDown, rd.released), children, pid);
    }

    lemma TableFacts()
      requires TableOk() && pids != null && |children| <= |g.svc|
      ensures pids.Valid() && pids.Map() == children && |children| < pids.key.Length
    {
    }

    /** The kernel reports that a child has gone. */
    method Reap(pid: nat, ok: bool, input: seq<Read>)
      requires Inv() && !rd.draining && pid != 0
      modifies this`children, this`clock, this`sv, this`launches, this`rd, this`book,
               (if pids == null then {} else {pids.key, pids.val})
      ensures Inv() && !rd.draining && old(clock) <= clock && old(launches) <= launches
      ensures old(book).ever <= book.ever && book.booted == old(book).booted && sv.want == old(sv).want
      ensures pid !in old(children) ==> sv == old(sv) && rd == old(rd)
      ensures pid in old(children) ==>
                var i := old(children)[pid];
                && i < |g.svc| == |sv.runs| == |old(sv).runs|
                && (old(sv).runs[i].pid == pid ==>
                      && sv.runs[i].pid == 0
                      && (!shuttingDown ==> Outcome(g, old(sv), sv, rd.up, i, ok, input, old(clock))))
                && (old(sv).runs[i].pid != pid ==>
                      && old(sv).runs[i].stalePid == pid && sv.state == old(sv).state
                      && sv.runs[i] == if old(sv).runs[i].restartAt != 0 && old(sv).runs[i].staleHold
                                       then old(sv).runs[i].(stalePid := 0, restartAt := clock + RetryDelay(g.svc[i]),
                                                             staleHold := false)
                                       else old(sv).runs[i].(stalePid := 0))
      ensures shuttingDown ==> launches == old(launches)
    {
      hide *;
      Known();
      var found, i, stale := FindPid(pid);
      if !found {
        return;
      }
      if stale {
        StaleReaped(i);
      } else {
        ChildExited(i, ok, input);
      }
    }

    // ---------------------------------------------------------------- timeouts

    /** What is already in the pipe of service i is read first, so that it can still count. */
    method Hear(i: nat)
      requires i < |g.svc| && Inv() && !rd.draining && !shuttingDown && Has(sv, i)
      modifies this`children, this`clock, this`sv, this`launches, this`rd, this`book,
               (if pids == null then {} else {pids.key, pids.val})
      ensures Inv() && !rd.draining && old(clock) <= clock && old(launches) <= launches && sv.want == old(sv).want
      ensures StartsLater(old(sv).runs, sv.runs, old(clock))
      ensures old(book).ever <= book.ever && book.booted == old(book).booted
      ensures |sv.state| == |sv.runs| == |g.svc| && (sv.runs[i].starting ==> Has(sv, i))
      ensures sv.runs[i].starting ==> old(sv).runs[i].starting
    {
      hide *;
      KnownAt(i);
      Known();
      ShapedOf(g, sv, Env(shuttingDown, rd.released), false, -1);
      PipeProcess(g, sv, Env(shuttingDown, rd.released), i);
      Quiet(sv, i, clock);
      if sv.runs[i].ntfOpen {
        if sv.runs[i].ntfExec {
          var read: Read :| true;
          DrainExec(i, read);
        } else {
          var input: seq<Read> :| true;
          DrainNotify(i, input);
        }
        PipeFacts(old(sv), old(rd).up, sv, rd.up, i);
        KnownAt(i);
        BusyFacts(sv.runs[i]);
      }
    }

    /** The start of service i has taken too long. */
    method Expire(i: nat)
      requires i < |g.svc| && Inv() && !rd.draining && Has(sv, i) && sv.runs[i].starting
      modifies this`children, this`clock, this`sv, this`launches, this`rd, this`book,
               (if pids == null then {} else {pids.key, pids.val})
      ensures Inv() && !rd.draining && old(clock) <= clock && old(launches) <= launches && sv.want == old(sv).want
      ensures StartsLater(old(sv).runs, sv.runs, old(clock))
      ensures old(book).ever <= book.ever && book.booted == old(book).booted
      ensures |sv.state| == |sv.runs| == |g.svc| && !sv.runs[i].starting
      ensures |rd.up| == |g.svc|
      ensures !shuttingDown && old(sv).state[i] == Running ==>
                if NextAttempt(old(sv).runs[i].attempt) < g.svc[i].startTries then
                  sv.state == old(sv).state && rd == old(rd) && sv.runs[i].restartAt > old(clock)
                else sv.state[i] == Failed && !rd.up[i]
      ensures !shuttingDown && old(sv).state[i] != Running ==>
                !rd.up[i] && (g.svc[i].restart ==> sv.runs[i].restartAt > old(clock) && sv.state == old(sv).state)
      ensures !shuttingDown && old(sv).state[i] != Running && !g.svc[i].restart && !g.svc[i].orderOnly ==>
                GoneLeaves(Scene(g, old(sv).state, rd.up,
                                 old(sv).runs[i := Closed(old(sv).runs[i].(timedOut := true, starting := false))]), i,
                           sv.state)
    {
      hide *;
      Known();
      KnownAt(i);
      StartingFacts(g, sv, Env(shuttingDown, rd.released), i);
      StartingKind(g, sv, Env(shuttingDown, rd.released), i);
      ReadySame(rd);
      PipeCalm(sv.runs[i]);
      Calm(i, sv.runs[i].(timedOut := true));
      ghost var s := sv;
      KnownAt(i);
      if sv.state[i] == Running {
        BusyFacts(sv.runs[i]);
        DroppedKeeps(sv.runs[i]);
        FailFacts(g.svc[i], NextAttempt(sv.runs[i].attempt));
        var _ := ServiceFailed(i);
      } else {
        LastSet(old(sv).runs, i, s.runs[i], Closed(s.runs[i].(starting := false)));
        StartFailed(i);
      }
      SameQueueFacts(old(rd), rd);
      StartsLaterTwice(old(sv).runs, s.runs, sv.runs, old(clock), old(clock));
    }

    /** Ends every start that has taken too long. Services come and go on the live list meanwhile. */
    method CheckTimeouts() returns (now: int)
      requires Inv() && !rd.draining
      modifies this`children, this`clock, this`sv, this`launches, this`rd, this`book,
               (if pids == null then {} else {pids.key, pids.val})
      ensures Inv() && !rd.draining && old(clock) <= clock && old(launches) <= launches && sv.want == old(sv).want
      ensures old(book).ever <= book.ever && book.booted == old(book).booted
      ensures old(clock) <= now <= clock && LateCount(g, sv.runs, now) <= LateCount(g, old(sv).runs, now)
      ensures !shuttingDown && (exists k: nat :: k < old(sv).nLive && Overdue(g, old(sv), k, now)) ==>
                LateCount(g, sv.runs, now) < LateCount(g, old(sv).runs, now)
    {
      hide *;
      now := Now();
      if shuttingDown {
        return;
      }
      ghost var ended := false;
      var k := 0;
      while k < sv.nLive
        invariant old(clock) <= now <= clock && 0 <= k
        invariant if ended then LateCount(g, sv.runs, now) < LateCount(g, old(sv).runs, now)
                  else sv == old(sv) && forall l: nat :: l < k ==> !Overdue(g, sv, l, now)
        invariant Inv() && !rd.draining && old(clock) <= clock && old(launches) <= launches && sv.want == old(sv).want
        invariant old(book).ever <= book.ever && book.booted == old(book).booted
        decreases LateCount(g, sv.runs, now), sv.nLive - k
      {
        ghost var s0, t0 := sv, clock;
        Known();
        LiveAt(g, sv, Env(shuttingDown, rd.released), k);
        var i := sv.live[k];
        LateFacts(g.svc[i], sv.runs[i], now);
        OverdueIs(g, sv, k, now);
        if !Late(g.svc[i], sv.runs[i], now) {
          k := k + 1;
          continue;
        }
        Hear(i);
        ghost var s1, t1 := sv, clock;
        Known();
        Quiet(sv, 0, clock);
        if sv.runs[i].starting && !sv.runs[i].timedOut {
          Expire(i);
        }
        StartsLaterTwice(s0.runs, s1.runs, sv.runs, t0, t1);
        LateFacts(g.svc[i], sv.runs[i], now);
        LateDrops(g, s0.runs, sv.runs, now, t0, i);
        ended := true;
        Known();
        if k < sv.nLive && sv.live[k] == i {
          k := k + 1;
        }
      }
    }

    // ---------------------------------------------------------------- control operations

    method OpSet(i: nat, op: Op, at: int)
      requires i < |g.svc| && InvBut(i)
      modifies this`sv
      ensures InvBut(i) && |sv.runs| == |sv.state| == |g.svc| && sv.runs[i] == old(sv).runs[i].(op := op, opAt := at)
      ensures sv == old(sv).(runs := old(sv).runs[i := sv.runs[i]], nOps := sv.nOps)
      ensures Shrinks(old(sv), sv) && Has(sv, i) == old(Has(sv, i))
    {
      hide *;
      Parts(i);
      OpFacts(g, sv, Env(shuttingDown, rd.released), i, op, at, children);
      sv := WithOp(sv, i, op, at);
      Whole(i);
    }

    method OpClear(i: nat)
      requires i < |g.svc| && InvBut(i)
      modifies this`sv
      ensures InvBut(i) && |sv.runs| == |sv.state| == |g.svc| && sv.runs[i] == OpOver(old(sv).runs[i])
      ensures sv == old(sv).(runs := old(sv).runs[i := sv.runs[i]], nOps := sv.nOps)
      ensures Shrinks(old(sv), sv) && Has(sv, i) == old(Has(sv, i))
    {
      hide *;
      Parts(i);
      OpOverIs(sv.runs[i]);
      OpSet(i, NoOp, 0);
      ghost var s1 := sv;
      Parts(i);
      SetRun(i, sv.runs[i].(opRestart := false));
      HasSame(s1, sv, i);
      ShrinksTwice(old(sv), s1, sv);
      Whole(i);
    }

    /** The operation on service i is over. */
    method OpDone(i: nat)
      requires i < |g.svc| && InvBut(i)
      requires SvcFine(g.svc[i], sv.state[i], sv.want[i], OpOver(sv.runs[i]), Has(sv, i) && Busy(OpOver(sv.runs[i])),
                       shuttingDown, false, Rel(Env(shuttingDown, rd.released), i))
      modifies this`sv
      ensures Inv() && Shrinks(old(sv), sv) && |sv.runs| == |sv.state| == |g.svc|
      ensures sv.runs[i] == OpOver(old(sv).runs[i])
      ensures sv.state == old(sv).state && sv.want == old(sv).want && sv.runs == old(sv).runs[i := sv.runs[i]]
      ensures Has(sv, i) == (old(Has(sv, i)) && Busy(sv.runs[i]))
    {
      hide *;
      Parts(i);
      OpOverIs(sv.runs[i]);
      OpClear(i);
      ghost var s2 := sv;
      Parts(i);
      MaybeFree(i, false);
      SameButLive(s2, sv);
      ShrinksTwice(old(sv), s2, sv);
      Whole(-1);
    }

    method SetWant(i: nat, w: bool)
      requires i < |g.svc| && InvBut(i)
      modifies this`sv
      ensures InvBut(i) && sv == old(sv).(want := old(sv).want[i := w])
      ensures |sv.want| == |sv.runs| == |sv.state| == |g.svc|
      ensures Shrinks(old(sv), sv) && Has(sv, i) == old(Has(sv, i))
    {
      hide *;
      Parts(i);
      WantFacts(g, sv, Env(shuttingDown, rd.released), i, w);
      sv := sv.(want := sv.want[i := w]);
      WantSame(old(sv), sv);
      Whole(i);
    }

    /** Marks service i pending, within the invariant but for i. */
    method Await(i: nat)
      requires i < |g.svc| && InvBut(i)
      modifies this`sv
      ensures InvBut(i) && |sv.runs| == |sv.state| == |g.svc| && sv.state == old(sv).state[i := Pending]
      ensures sv.runs == old(sv).runs && sv.want == old(sv).want
      ensures Shrinks(old(sv), sv) && Has(sv, i) == old(Has(sv, i))
    {
      hide *;
      Parts(i);
      MarkPending(i);
      FineState(g, old(sv), sv, Env(shuttingDown, rd.released), i, Pending);
      Whole(i);
    }

    /** Replaces the record of service i in the middle of a change of it. */
    method Renew(i: nat, r: Run)
      requires i < |g.svc| && InvBut(i) && r.pid == sv.runs[i].pid
      requires r.stalePid == sv.runs[i].stalePid && r.op == sv.runs[i].op
      modifies this`sv
      ensures InvBut(i) && sv == old(sv).(runs := old(sv).runs[i := r])
      ensures |sv.want| == |sv.runs| == |sv.state| == |g.svc|
      ensures Shrinks(old(sv), sv) && Has(sv, i) == old(Has(sv, i))
    {
      hide *;
      Parts(i);
      SetRun(i, r);
      HasSame(old(sv), sv, i);
      Whole(i);
    }

    /** There is no process of service i, and something it needs is missing: it is down and pending. */
    method NotNow(i: nat)
      requires i < |g.svc| && InvBut(i) && g.svc[i].kind != Target
      requires SvcFine(g.svc[i], Pending, sv.want[i], OpOver(Anew(sv.runs[i])),
                       Has(sv, i) && Busy(OpOver(Anew(sv.runs[i]))), shuttingDown, false, false)
      requires !rd.draining
      modifies this`sv, this`rd, this`book
      ensures Inv() && SameQueue(old(rd), rd) && book == old(book).(owe := book.owe)
      ensures Shrinks(old(sv), sv) && sv.want == old(sv).want && |sv.runs| == |sv.state| == |rd.up| == |g.svc|
      ensures sv.state[i] == Pending && !rd.up[i] && sv.runs[i] == OpOver(Anew(old(sv).runs[i]))
    {
      hide *;
      Parts(i);
      AnewFacts(sv.runs[i]);
      Renew(i, Anew(sv.runs[i]));
      ghost var s1 := sv;
      GoDownInv(i, i);
      Await(i);
      ghost var s2 := sv;
      ShrinksTwice(old(sv), s1, s2);
      Parts(i);
      RelIs(rd.released, shuttingDown, i);
      OrderedFine(g.svc[i], Pending, sv.want[i], OpOver(sv.runs[i]), Has(sv, i) && Busy(OpOver(sv.runs[i])),
                  shuttingDown,
                  Rel(Env(shuttingDown, rd.released), i));
      OpDone(i);
      ShrinksTwice(old(sv), s2, sv);
    }

    /** Service i may start and is started by hand. */
    method StartNow(i: nat)
      requires i < |g.svc| && InvBut(i) && g.svc[i].kind != Target && |rd.unmet| == |g.svc| && CanStart(i)
      requires !rd.draining
      modifies this`children, this`clock, this`sv, this`launches, this`rd, this`book,
               (if pids == null then {} else {pids.key, pids.val})
      ensures Inv() && SameQueue(old(rd), rd) && book == old(book).(owe := book.owe)
      ensures old(clock) <= clock && sv.want == old(sv).want && |sv.runs| == |sv.state| == |rd.up| == |g.svc|
      ensures old(Has(sv, i)) ==> Shrinks(old(sv), sv)
      ensures launches == old(launches) + [Launches.Launch(i, old(rd).up, old(book).ever, false, false, old(children))]
      ensures sv.state[i] == Running || (sv.state[i] == Failed && !rd.up[i])
    {
      hide *;
      Parts(i);
      CanStartFacts(i);
      AnewFacts(sv.runs[i]);
      Renew(i, Anew(sv.runs[i]).(opRestart := false));
      ghost var s1 := sv;
      Await(i);
      ghost var s2 := sv;
      ShrinksTwice(old(sv), s1, s2);
      Tend(i);
      ghost var s3 := sv;
      ShrinksWhen(old(sv), s2, s3, old(Has(sv, i)));
      var now := NowBut(i);
      OpSet(i, OpStart, now + g.svc[i].startMs + Grace());
      ghost var s4 := sv;
      ShrinksWhen(old(sv), s3, s4, old(Has(sv, i)));
      KnownUp(i);
      CanStartFrom(i);
      Spawn(i);
      ShrinksWhen(old(sv), s4, sv, old(Has(sv, i)));
    }

    /** Attend within the invariant but for i. */
    method Tend(i: nat)
      requires i < |g.svc| && InvBut(i)
      modifies this`sv
      ensures InvBut(i) && Has(sv, i) && (old(Has(sv, i)) ==> Shrinks(old(sv), sv))
      ensures sv == old(sv).(live := sv.live, nLive := sv.nLive, livePos := sv.livePos)
      ensures |sv.runs| == |sv.state| == |sv.want| == |g.svc|
    {
      hide *;
      Parts(i);
      Attend(i);
      SameButLive(old(sv), sv);
      Whole(i);
    }

    /** Service i is wanted: it is started, or waits for what it needs, or has not gone yet. */
    method StartByHand(i: nat)
      requires i < |g.svc| && Inv() && g.svc[i].kind != Target && !shuttingDown
      requires !rd.draining
      modifies this`children, this`clock, this`sv, this`launches, this`rd, this`book,
               (if pids == null then {} else {pids.key, pids.val})
      ensures Inv() && SameQueue(old(rd), rd) && book == old(book).(owe := book.owe)
      ensures old(clock) <= clock && |old(sv).want| == |g.svc| && sv.want == old(sv).want[i := false]
      ensures |sv.runs| == |sv.state| == |rd.up| == |g.svc| && |old(rd).unmet| == |g.svc| == |old(sv).runs|
      ensures old(Has(sv, i)) ==> Shrinks(old(sv), sv)
      ensures var gone := old(sv).runs[i].pid == 0 && old(sv).runs[i].stalePid == 0;
              if gone && old(rd).unmet[i] == 0 then
                && launches
                    == old(launches) + [Launches.Launch(i, old(rd).up, old(book).ever, false, false, old(children))]
                && (sv.state[i] == Running || (sv.state[i] == Failed && !rd.up[i]))
              else
                && launches == old(launches) && !HasOp(sv.runs[i])
                && if gone then sv.state[i] == Pending && !rd.up[i] else sv.state == old(sv).state && rd == old(rd)
    {
      hide *;
      KnownAt(i);
      Known();
      ghost var s0 := sv;
      ReadySame(rd);
      SetWant(i, false);
      ghost var s1 := sv;
      KnownUp(i);
      if CanStart(i) {
        CanStartFacts(i);
        StartNow(i);
        ShrinksWhen(s0, s1, sv, Has(s0, i));
        return;
      }
      CanStartNot(i);
      OpOverOp(sv.runs[i]);
      OpOverOp(Anew(sv.runs[i]));
      if sv.runs[i].pid == 0 && sv.runs[i].stalePid == 0 {
        NotNowFine(g, s0, Env(shuttingDown, rd.released), i);
        NotNow(i);
      } else {
        StillThereFine(g, s0, Env(shuttingDown, rd.released), i);
        OpDone(i);
      }
      ShrinksTwice(s0, s1, sv);
    }

    lemma CanStartNot(i: nat)
      requires i < |sv.want| && i < |sv.runs| && i < |rd.unmet| && !CanStart(i)
      ensures shuttingDown || sv.want[i] || sv.runs[i].pid != 0 || sv.runs[i].stalePid != 0 || rd.unmet[i] != 0
    {
    }

    /** Whether nothing of service i is left. Processes that outlived the main one show in its cgroup. */
    method Gone(i: nat) returns (gone: bool)
      requires i < |sv.runs|
      ensures gone ==> sv.runs[i].pid == 0 && sv.runs[i].stalePid == 0
      ensures sv.runs[i].pid == 0 && sv.runs[i].stalePid == 0 && sv.runs[i].started == 0 ==> gone
    {
      if sv.runs[i].pid != 0 || sv.runs[i].stalePid != 0 {
        return false;
      }
      var populated: bool := *;
      gone := sv.runs[i].started == 0 || !populated;
    }

    /** Holds service i: its restart is cancelled and it gets attention. */
    method Hold(i: nat, restart: bool)
      requires i < |g.svc| && Inv() && g.svc[i].kind != Target
      modifies this`sv
      ensures Inv() && Has(sv, i) && |sv.runs| == |sv.state| == |sv.want| == |old(sv).runs| == |old(sv).want| == |g.svc|
      ensures sv.want == old(sv).want[i := true] && sv.state == old(sv).state
      ensures sv.runs == old(sv).runs[i := Halted(old(sv).runs[i], restart)]
    {
      hide *;
      KnownAt(i);
      Known();
      HaltedFacts(g, sv, Env(shuttingDown, rd.released), i, restart);
      SetWant(i, true);
      Renew(i, Halted(sv.runs[i], restart));
      Tend(i);
      Parts(i);
      FineNow(g, sv, Env(shuttingDown, rd.released), i);
      Whole(-1);
    }

    /** An operation on service i goes on. */
    method OpNext(i: nat, op: Op, at: int)
      requires i < |g.svc| && Inv() && g.svc[i].kind != Target && Has(sv, i)
      modifies this`sv
      ensures Inv() && |sv.runs| == |sv.state| == |g.svc| && sv.runs[i] == old(sv).runs[i].(op := op, opAt := at)
      ensures sv == old(sv).(runs := old(sv).runs[i := sv.runs[i]], nOps := sv.nOps)
      ensures Shrinks(old(sv), sv) && Has(sv, i)
    {
      hide *;
      KnownAt(i);
      Known();
      OpFine(g, sv, Env(shuttingDown, rd.released), i, op, at);
      OpSet(i, op, at);
      Parts(i);
      FineNow(g, sv, Env(shuttingDown, rd.released), i);
      Whole(-1);
    }

    /** The operation on service i, which nothing else changes, is over. */
    method OpEnd(i: nat)
      requires i < |g.svc| && Inv()
      modifies this`sv
      ensures Inv() && Shrinks(old(sv), sv) && |sv.runs| == |sv.state| == |g.svc|
      ensures sv.runs[i] == OpOver(old(sv).runs[i])
      ensures sv.state == old(sv).state && sv.want == old(sv).want && sv.runs == old(sv).runs[i := sv.runs[i]]
    {
      hide *;
      KnownAt(i);
      Known();
      OpOverFine(g, sv, Env(shuttingDown, rd.released), i);
      OpDone(i);
    }

    /** Service i, which is held, has nothing left to stop: it is down, and started again if asked to. */
    method AllGone(i: nat, restart: bool)
      requires i < |g.svc| && Inv() && g.svc[i].kind != Target && !shuttingDown
      requires sv.runs[i].pid == 0 && sv.runs[i].stalePid == 0 && sv.want[i] && Has(sv, i)
      requires !rd.draining
      modifies this`children, this`clock, this`sv, this`launches, this`rd, this`book,
               (if pids == null then {} else {pids.key, pids.val})
      ensures Inv() && SameQueue(old(rd), rd) && book == old(book).(owe := book.owe)
      ensures old(clock) <= clock && old(launches) <= launches
      ensures |sv.runs| == |sv.state| == |sv.want| == |rd.up| == |g.svc|
      ensures Shrinks(old(sv), sv) && (!restart ==> launches == old(launches) && sv.want == old(sv).want && !rd.up[i])
      ensures !restart ==> sv.runs[i] == OpOver(old(sv).runs[i]) && sv.state == old(sv).state
    {
      hide *;
      Known();
      if restart {
        StartByHand(i);
      } else {
        GoDownInv(i, -1);
        OpEnd(i);
      }
    }

    /** Service i is to stop, or to stop and start again. A process it has is asked to end. */
    method StopByHand(i: nat, restart: bool)
      requires i < |g.svc| && Inv() && g.svc[i].kind != Target && !shuttingDown
      requires !rd.draining
      modifies this`children, this`clock, this`sv, this`launches, this`rd, this`book,
               (if pids == null then {} else {pids.key, pids.val})
      ensures Inv() && SameQueue(old(rd), rd) && book == old(book).(owe := book.owe)
      ensures old(clock) <= clock && old(launches) <= launches
      ensures |sv.runs| == |sv.state| == |sv.want| == |rd.up| == |g.svc| == |old(sv).runs|
      ensures old(sv).runs[i].pid != 0 || old(sv).runs[i].stalePid != 0 ==>
                sv.want[i] && sv.runs[i].op == OpTerm && rd == old(rd) && launches == old(launches)
      ensures !restart ==>
                && sv.want[i] && launches == old(launches) && sv.runs[i].restartAt == 0
                && (sv.runs[i].op == OpTerm
                    || (!HasOp(sv.runs[i]) && !rd.up[i] && sv.runs[i].pid == 0 && sv.runs[i].stalePid == 0))
    {
      hide *;
      KnownAt(i);
      Known();
      ReadySame(rd);
      HaltedFacts(g, sv, Env(shuttingDown, rd.released), i, restart);
      Hold(i, restart);
      Known();
      OpOverIs(sv.runs[i]);
      OpOverOp(sv.runs[i]);
      var gone := Gone(i);
      if gone {
        AllGone(i, restart);
      } else {
        var now := Now();
        OpNext(i, OpTerm, now + g.svc[i].stopMs);
      }
    }

    /** An operation that stops service i: it ends once nothing of the service is left, and gets rougher
        as its deadlines pass. */
    method TickStop(i: nat, now: int)
      requires i < |g.svc| && Inv() && !shuttingDown && (sv.runs[i].op == OpTerm || sv.runs[i].op == OpKill)
      requires !rd.draining
      modifies this`children, this`clock, this`sv, this`launches, this`rd, this`book,
               (if pids == null then {} else {pids.key, pids.val})
      ensures Inv() && SameQueue(old(rd), rd) && book == old(book).(owe := book.owe)
      ensures old(clock) <= clock && old(launches) <= launches && Shrinks(old(sv), sv)
      ensures |sv.runs| == |old(sv).runs| == |g.svc| == |rd.up|
      ensures old(sv).runs[i].pid != 0 || old(sv).runs[i].stalePid != 0 ==>
                Escalated(old(sv).runs[i], sv.runs[i], now, Grace())
      ensures Escalated(old(sv).runs[i], sv.runs[i], now, Grace()) || !rd.up[i] || old(sv).runs[i].opRestart
      ensures !old(sv).runs[i].opRestart ==>
                launches == old(launches)
                    && (HasOp(sv.runs[i]) ==> sv.runs[i] == old(sv).runs[i] || sv.runs[i].op == OpKill)
    {
      hide *;
      Known();
      ReadySame(rd);
      Quiet(sv, i, clock);
      OpHas(g, sv, Env(shuttingDown, rd.released), i);
      TickFacts(sv.runs[i], now, Grace());
      var gone := Gone(i);
      if gone {
        GoDownInv(i, -1);
        ghost var r := rd;
        if sv.runs[i].opRestart {
          StartByHand(i);
          SameQueueTwice(old(rd), r, rd);
        } else {
          OpEnd(i);
        }
      } else if now >= sv.runs[i].opAt {
        if sv.runs[i].op == OpTerm {
          OpNext(i, OpKill, now + Grace());
        } else {
          OpEnd(i);
        }
      }
    }

    /** Looks after the operation on service i. */
    method Tick(i: nat, now: int)
      requires i < |g.svc| && Inv() && !shuttingDown
      requires !rd.draining
      modifies this`children, this`clock, this`sv, this`launches, this`rd, this`book,
               (if pids == null then {} else {pids.key, pids.val})
      ensures Inv() && SameQueue(old(rd), rd) && book == old(book).(owe := book.owe)
      ensures old(clock) <= clock && old(launches) <= launches && Shrinks(old(sv), sv)
      ensures |sv.runs| == |old(sv).runs| == |old(sv).state| == |old(rd).up| == |g.svc|
      ensures !HasOp(old(sv).runs[i]) ==> sv == old(sv) && rd == old(rd)
      ensures old(sv).runs[i].op == OpStart ==>
                && rd == old(rd) && launches == old(launches) && sv.state == old(sv).state
                && sv.runs[i] == if StartEnded(sv.state[i], rd.up[i], old(sv).runs[i], now) then OpOver(old(sv).runs[i])
                    else old(sv).runs[i]
    {
      hide *;
      Known();
      ReadySame(rd);
      Quiet(sv, i, clock);
      TickFacts(sv.runs[i], now, Grace());
      match sv.runs[i].op
      case NoOp =>
      case OpStart =>
        if StartEnded(sv.state[i], rd.up[i], sv.runs[i], now) {
          OpEnd(i);
        }
      case _ =>
        TickStop(i, now);
    }

    /** Looks after the operations in progress. Ending one swaps another service into its place. */
    method CtlTick()
      requires Inv() && !rd.draining && !shuttingDown
      modifies this`children, this`clock, this`sv, this`launches, this`rd, this`book,
               (if pids == null then {} else {pids.key, pids.val})
      ensures Inv() && !rd.draining && old(clock) <= clock && old(launches) <= launches
      ensures book == old(book).(owe := book.owe)
      ensures old(sv).nOps == 0 ==> sv == old(sv) && rd == old(rd)
    {
      hide *;
      ReadySame(rd);
      if sv.nOps == 0 {
        return;
      }
      var now := Now();
      var k := 0;
      while k < sv.nLive
        invariant Inv() && old(clock) <= clock && old(launches) <= launches && SameQueue(old(rd), rd)
        invariant book == old(book).(owe := book.owe)
        decreases sv.nLive - k
      {
        ghost var s, r := sv, rd;
        Known();
        SameQueueFacts(old(rd), rd);
        LiveAt(g, sv, Env(shuttingDown, rd.released), k);
        var i := sv.live[k];
        Tick(i, now);
        Known();
        ShrinksOn(s, sv, k);
        SameQueueTwice(old(rd), r, rd);
        if k < sv.nLive && sv.live[k] == i {
          k := k + 1;
        }
      }
      SameQueueFacts(old(rd), rd);
    }

    /** Every failed or skipped service is pending again. */
    method ReviveAll() returns (reset: nat)
      requires Inv()
      modifies this`sv
      ensures Inv() && sv.want == old(sv).want && reset == Count(old(sv).state, IsBad)
      ensures RevivedTo(old(sv).state, sv.state, |old(sv).state|)
    {
      hide *;
      Known();
      RevivedStarts(sv.state);
      reset := 0;
      var i := 0;
      while i < |g.svc|
        invariant 0 <= i <= |g.svc| == |sv.state| == |old(sv).state|
        invariant Inv() && sv.want == old(sv).want && reset == Count(old(sv).state[..i], IsBad)
        invariant RevivedTo(old(sv).state, sv.state, i)
      {
        Known();
        RevivedStep(old(sv).state, sv.state, i);
        IsBadFacts(sv.state[i]);
        if sv.state[i] == Failed || sv.state[i] == Skipped {
          RevivedFacts(g, sv, Env(shuttingDown, rd.released), i, children);
          sv := Revived(sv, i);
          Whole(-1);
          reset := reset + 1;
        }
        i := i + 1;
      }
      RevivedEnds(old(sv).state, sv.state);
    }

    /** Service i is pending and may be startable: it is started, or completed if it is a target. */
    method Wake(i: nat) returns (started: bool)
      requires i < |g.svc| && Inv() && !rd.draining && sv.state[i] == Pending
      modifies this`children, this`clock, this`sv, this`launches, this`rd, this`book,
               (if pids == null then {} else {pids.key, pids.val})
      ensures Inv() && !rd.draining && old(clock) <= clock && old(launches) <= launches && sv.want == old(sv).want
      ensures old(book).ever <= book.ever && book.booted == old(book).booted
      ensures |old(rd).unmet| == |sv.state| == |rd.up| == |g.svc|
      ensures g.svc[i].kind == Target && old(rd).unmet[i] == 0 ==> sv.state[i] == Done && rd.up[i]
      ensures started ==> old(launches) < launches
      ensures SameTo(i, old(sv), sv) && ReadySameTo(i, old(rd), rd) && !Able(g, sv, rd, shuttingDown, i)
    {
      hide *;
      KnownAt(i);
      Known();
      ReadySame(rd);
      Quiet(sv, i, clock);
      AbleIs(g, sv, rd, shuttingDown, i);
      started := false;
      if g.svc[i].kind == Target {
        TargetDone(g, sv, Env(shuttingDown, rd.released), i);
        TargetFree(g, sv, Env(shuttingDown, rd.released), i);
        if rd.unmet[i] == 0 && !sv.want[i] {
          Complete(i);
          Known();
          AbleIs(g, sv, rd, shuttingDown, i);
        }
      } else {
        CanStartFacts(i);
        if !CanStart(i) {
          CanStartIs(i);
        }
        started := TryStart(i);
        Known();
        AbleIs(g, sv, rd, shuttingDown, i);
        SameQueueFacts(old(rd), rd);
      }
    }

    /** Gives every failed or skipped service another chance, and starts what can be started. */
    method Resume() returns (reset: nat, started: nat)
      requires Inv() && !rd.draining && !shuttingDown
      modifies this`children, this`clock, this`sv, this`launches, this`rd, this`book,
               (if pids == null then {} else {pids.key, pids.val})
      ensures Inv() && !rd.draining && old(clock) <= clock && old(launches) <= launches && sv.want == old(sv).want
      ensures old(book).ever <= book.ever && book.booted == old(book).booted
      ensures reset == Count(old(sv).state, IsBad) && started <= |launches| - |old(launches)|
      ensures reset == 0 ==> sv.state == old(sv).state && rd == old(rd) && launches == old(launches)
      ensures reset > 0 ==> forall x: nat :: !Able(g, sv, rd, shuttingDown, x)
    {
      hide *;
      Known();
      reset := ReviveAll();
      RevivedEnds(old(sv).state, sv.state);
      started := 0;
      if reset == 0 {
        return;
      }
      var i := 0;
      while i < |g.svc|
        invariant Inv() && !rd.draining && old(clock) <= clock && old(launches) <= launches && sv.want == old(sv).want
        invariant old(book).ever <= book.ever && book.booted == old(book).booted
        invariant started <= |launches| - |old(launches)| && 0 <= i <= |g.svc|
        invariant forall x: nat :: x < i ==> !Able(g, sv, rd, shuttingDown, x)
      {
        ghost var s, r, b := sv, rd, book;
        Known();
        AbleIs(g, sv, rd, shuttingDown, i);
        if sv.state[i] == Pending {
          var ok := Wake(i);
          Known();
          forall x: nat | x < i ensures !Able(g, sv, rd, shuttingDown, x) {
            AbleSame(g, s, r, b, sv, rd, book, shuttingDown, i, x);
          }
          if ok {
            started := started + 1;
          }
        }
        i := i + 1;
      }
      NoneAble(g, sv, rd, shuttingDown);
    }

    // ---------------------------------------------------------------- boot and the event loop

    /** Memory for a service graph that the image verifier accepted. */
    constructor (g: Graph, table: PidTable?)
      requires Valid(g)
      requires table != null ==>
                 table.Valid() && table.Map() == map[] && 4 * |g.svc| <= table.key.Length && 64 <= table.key.Length
      ensures this.g == g && pids == table && Inv() && !rd.draining
      ensures !shuttingDown && launches == [] && children == map[]
      ensures rd == BootReady(g) && sv == BootServices(g) && book == BootBook(g) && book.booted == 0
    {
      this.g := g;
      pids := table;
      children := map[];
      clock := *;
      shuttingDown := false;
      rd := BootReady(g);
      sv := BootServices(g);
      book := BootBook(g);
      launches := [];
      new;
      hide *;
      BootConsistent(g);
      BootUnreleased(g);
      BootFine(g, Env(shuttingDown, rd.released));
      BootIdle(g);
      TableNew();
      Whole(-1);
    }

    lemma TableNew()
      requires pids != null ==>
                 pids.Valid() && pids.Map() == map[] && 4 * |g.svc| <= pids.key.Length && 64 <= pids.key.Length
      requires children == map[]
      ensures TableOk()
    {
    }

    /** Starts one root, or completes it if it is a target. */
    method StartRoot(i: nat)
      requires Inv() && !rd.draining && book.booted == i < g.roots && sv.roots == g.roots && RootsWait(sv, i)
      modifies this`children, this`clock, this`sv, this`launches, this`rd, this`book,
               (if pids == null then {} else {pids.key, pids.val})
      ensures Inv() && !rd.draining && book.booted == i + 1 && sv.roots == g.roots && RootsWait(sv, i + 1)
      ensures old(clock) <= clock && old(launches) <= launches && old(book).ever <= book.ever
    {
      hide *;
      Known();
      SoundRoots(g);
      RootMet(g, rd, book, i);
      RootWaits(sv, i);
      ReadySame(rd);
      if g.svc[i].kind == Target {
        KnownAt(i);
        TargetDone(g, sv, Env(shuttingDown, rd.released), i);
        Complete(i);
      } else {
        var _ := TryStart(i);
        SameQueueFacts(old(rd), rd);
      }
      RootsStill(old(sv), sv, i);
      Known();
      RootStarted(g, rd, book, i);
      book := book.(booted := i + 1);
      Whole(-1);
    }

    /** Starts the services that depend on nothing. */
    method StartGraph()
      requires Inv() && !rd.draining && book.booted == 0 && sv == BootServices(g)
      modifies this`children, this`clock, this`sv, this`launches, this`rd, this`book,
               (if pids == null then {} else {pids.key, pids.val})
      ensures Inv() && !rd.draining && book.booted == g.roots
      ensures old(clock) <= clock && old(launches) <= launches && old(book).ever <= book.ever
    {
      hide *;
      Known();
      SoundRoots(g);
      BootWaits(g);
      var i := 0;
      while i < g.roots
        invariant 0 <= i <= g.roots
        invariant Inv() && !rd.draining && book.booted == i && sv.roots == g.roots && RootsWait(sv, i)
        invariant old(clock) <= clock && old(launches) <= launches && old(book).ever <= book.ever
      {
        StartRoot(i);
        i := i + 1;
      }
    }

    /** Carries out a request, or refuses it. */
    method Control(c: Command) returns (reply: Reply)
      requires Inv() && !rd.draining
      modifies this`children, this`clock, this`sv, this`launches, this`rd, this`book,
               (if pids == null then {} else {pids.key, pids.val})
      ensures Inv() && !rd.draining && old(clock) <= clock && old(launches) <= launches
      ensures old(book).ever <= book.ever && book.booted == old(book).booted
      ensures |old(sv).runs| == |g.svc| && reply == Answer(g, old(sv), shuttingDown, c)
      ensures reply != Accepted ==> sv == old(sv) && rd == old(rd) && launches == old(launches)
      ensures reply == Accepted && c.CmdStop? ==> launches == old(launches) && c.svc < |sv.want| && sv.want[c.svc]
      ensures shuttingDown ==> launches == old(launches)
    {
      hide *;
      Known();
      ReadySame(rd);
      reply := Answer(g, sv, shuttingDown, c);
      if reply != Accepted {
        return;
      }
      AnswerFacts(g, sv, shuttingDown, c);
      match c {
        case CmdResume => var _, _ := Resume();
        case CmdStart(i) =>
          StartByHand(i);
          SameQueueFacts(old(rd), rd);
        case CmdStop(i) =>
          StopByHand(i, false);
          SameQueueFacts(old(rd), rd);
        case CmdRestart(i) =>
          StopByHand(i, true);
          SameQueueFacts(old(rd), rd);
      }
    }

    /** From here on nothing is started. */
    method BeginShutdown()
      requires Inv()
      modifies this`shuttingDown
      ensures Inv() && shuttingDown
    {
      hide *;
      Known();
      DownFine(g, sv, Env(shuttingDown, rd.released));
      shuttingDown := true;
      Whole(-1);
    }

    /** Something happened at the pipes of service i. */
    method Pipe(e: Event)
      requires Inv() && !rd.draining
      requires (e.Notified? || e.ExecReport? || e.OutputClosed?) && e.svc < |g.svc| 
      modifies this`children, this`clock, this`sv, this`launches, this`rd, this`book,
               (if pids == null then {} else {pids.key, pids.val})
      ensures Inv() && !rd.draining && old(clock) <= clock && old(launches) <= launches
      ensures old(book).ever <= book.ever && book.booted == old(book).booted && sv.want == old(sv).want
      ensures shuttingDown ==> launches == old(launches)
    {
      hide *;
      Known();
      var i := e.svc;
      if e.OutputClosed? {
        CloseOutput(i);
        return;
      }
      if shuttingDown || !sv.runs[i].ntfOpen {
        return;
      }
      PipeOfProcess(g, sv, Env(shuttingDown, rd.released), i);
      match e
      case Notified(_, input) => DrainNotify(i, input);
      case ExecReport(_, read) => DrainExec(i, read);
    }

    /** One turn of the event loop: restarts, timeouts and operations that are due. */
    method TurnLoop()
      requires Inv() && !rd.draining && !shuttingDown
      modifies this`children, this`clock, this`sv, this`launches, this`rd, this`book,
               (if pids == null then {} else {pids.key, pids.val})
      ensures Inv() && !rd.draining && old(clock) <= clock && old(launches) <= launches
      ensures old(book).ever <= book.ever && book.booted == old(book).booted
    {
      hide *;
      FireRestarts();
      SameQueueFacts(old(rd), rd);
      var _ := CheckTimeouts();
      CtlTick();
    }

    /** Deals with one event. */
    method Dispatch(e: Event)
      requires Inv() && !rd.draining
      modifies this`children, this`clock, this`shuttingDown, this`sv, this`launches, this`rd, this`book,
               (if pids == null then {} else {pids.key, pids.val})
      ensures Inv() && !rd.draining && old(clock) <= clock && old(launches) <= launches
      ensures old(book).ever <= book.ever && book.booted == old(book).booted
      ensures old(shuttingDown) ==> shuttingDown && launches == old(launches)
      ensures forall i :: 0 <= i < |g.svc| && g.svc[i].orderOnly ==> Kept(old(rd).released, rd.released, i)
    {
      hide *;
      Known();
      match e {
        case Turn =>
          if !shuttingDown {
            TurnLoop();
          }
        case ChildGone(pid, ok, words) =>
          if pid != 0 {
            Reap(pid, ok, words);
          }
        case Request(c) => var _ := Control(c);
        case Shutdown => BeginShutdown();
        case _ =>
          if e.svc < |g.svc| {
            Pipe(e);
          }
      }
      Known();
      forall i | 0 <= i < |g.svc| && g.svc[i].orderOnly ensures Kept(old(rd).released, rd.released, i) {
        OrderKept(g, old(rd), old(book), rd, book, i);
      }
    }

    /** Boots the graph and deals with any sequence of events. Whatever happens, every launch was safe,
        readiness is settled between events, the counters are exact, the children are the recorded
        processes, and the process table is at most a quarter full. */
    method Run(events: seq<Event>)
      requires Inv() && !rd.draining && book.booted == 0 && sv == BootServices(g)
      modifies this`children, this`clock, this`shuttingDown, this`sv, this`launches, this`rd, this`book,
               (if pids == null then {} else {pids.key, pids.val})
      ensures Inv() && !rd.draining && old(launches) <= launches
      ensures LaunchesSafe(g, launches) && Quiescent(g, rd, book.ever)
      ensures Counted(sv) && PidOk(sv.runs, children)
      ensures pids != null ==> pids.Valid() && pids.Map() == children && 4 * |children| <= pids.key.Length
    {
      hide *;
      StartGraph();
      var k := 0;
      while k < |events|
        invariant Inv() && !rd.draining && book.booted == g.roots && old(launches) <= launches
      {
        Dispatch(events[k]);
        k := k + 1;
      }
      Known();
      QuiescentWhenDrained(g, rd, book);
      FewChildren(sv.runs, children);
      TableLoad();
    }

    lemma TableLoad()
      requires TableOk() && |children| <= |g.svc|
      ensures pids != null ==> pids.Valid() && pids.Map() == children && 4 * |children| <= pids.key.Length
    {
    }
  }

  /** Starts a supervisor on a graph and lets it run. */
  method Supervise(g: Graph, table: bool, events: seq<Event>) returns (e: Engine)
    requires Valid(g)
    ensures e.Inv() && e.g == g && LaunchesSafe(g, e.launches) && Quiescent(g, e.rd, e.book.ever)
  {
    hide *;
    var t: PidTable? := null;
    if table {
      t := new PidTable(|g.svc|);
    }
    e := new Engine(g, t);
    e.Run(events);
  }
}
