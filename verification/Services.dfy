/** The states, processes, deadlines and the live list of the services. */
module Services {
  import opened Counting
  import opened Graphs
  import opened Runs

  /** The state, the hold and the record of every service, the list of services that need attention
      with each one's place on it, and the counters. The first `roots` services depend on nothing. */
  datatype Services = Services(
    state: seq<State>, want: seq<bool>, runs: seq<Run>,
    live: seq<nat>, nLive: nat, livePos: seq<nat>,
    nActive: nat, nDone: nat, nPending: nat, nOps: nat, roots: nat)

  // ---------------------------------------------------------------- counters

  /** The counters count. */
  ghost predicate Counted(s: Services) {
    && StateCounts(s.state, s.nActive, s.nDone, s.nPending)
    && s.nOps == Count(s.runs, HasOp)
  }

  ghost predicate StateCounts(state: seq<State>, nActive: nat, nDone: nat, nPending: nat) {
    && nActive == Count(state, IsRunning)
    && nDone == Count(state, IsDone)
    && nPending == Count(state, IsPending)
  }

  /** What one change of state does to the three counters. */
  lemma StateChange(state: seq<State>, i: nat, s: State)
    requires i < |state|
    ensures Count(state[i := s], IsRunning)
         == Count(state, IsRunning) - (if IsRunning(state[i]) then 1 else 0) + (if IsRunning(s) then 1 else 0)
    ensures Count(state[i := s], IsDone)
         == Count(state, IsDone) - (if IsDone(state[i]) then 1 else 0) + (if IsDone(s) then 1 else 0)
    ensures Count(state[i := s], IsPending)
         == Count(state, IsPending) - (if IsPending(state[i]) then 1 else 0) + (if IsPending(s) then 1 else 0)
  {
    CountUpdate(state, i, s, IsRunning);
    CountUpdate(state, i, s, IsDone);
    CountUpdate(state, i, s, IsPending);
  }

  // ---------------------------------------------------------------- the live list

  predicate InLive(live: seq<nat>, nLive: nat, livePos: seq<nat>, i: nat)
    requires |live| == |livePos| && nLive <= |live| && i < |livePos|
  {
    livePos[i] < nLive && live[livePos[i]] == i
  }

  ghost predicate LiveOk(live: seq<nat>, nLive: nat, livePos: seq<nat>) {
    && |live| == |livePos| && nLive <= |live|
    && forall p :: 0 <= p < nLive ==> live[p] < |livePos| && livePos[live[p]] == p
  }

  lemma LiveAddKeeps(live: seq<nat>, nLive: nat, livePos: seq<nat>, i: nat)
    requires LiveOk(live, nLive, livePos) && i < |livePos| && !InLive(live, nLive, livePos, i)
    ensures nLive < |live|
    ensures LiveOk(live[nLive := i], nLive + 1, livePos[i := nLive])
    ensures forall x :: 0 <= x < |livePos| ==>
              (InLive(live[nLive := i], nLive + 1, livePos[i := nLive], x) <==>
               x == i || InLive(live, nLive, livePos, x))
  {
    var s := live[..nLive];
    assert i !in s;
    Pigeonhole(s, |live|);
    assert i < |live| && i !in s;
  }

  lemma LiveDelKeeps(live: seq<nat>, nLive: nat, livePos: seq<nat>, i: nat)
    requires LiveOk(live, nLive, livePos) && i < |livePos| && InLive(live, nLive, livePos, i)
    ensures var pos, last := livePos[i], live[nLive - 1];
            && LiveOk(live[pos := last], nLive - 1, livePos[last := pos])
            && forall x :: 0 <= x < |livePos| ==>
                 (InLive(live[pos := last], nLive - 1, livePos[last := pos], x) <==>
                  x != i && InLive(live, nLive, livePos, x))
  {
  }

  /** The live list lost services, or is as it was. */
  ghost predicate Shrinks(s: Services, s': Services) {
    && s'.nLive <= s.nLive <= |s.live| == |s'.live|
    && (s'.nLive == s.nLive ==> s'.live[..s.nLive] == s.live[..s.nLive])
  }

  // ---------------------------------------------------------------- processes

  /** The unreaped children are exactly the recorded processes, at most one for each service. */
  ghost predicate PidOk(runs: seq<Run>, children: map<nat, nat>) {
    && (forall i :: 0 <= i < |runs| ==>
          && (runs[i].pid == 0 || runs[i].stalePid == 0)
          && (runs[i].pid != 0 ==> runs[i].pid in children && children[runs[i].pid] == i)
          && (runs[i].stalePid != 0 ==> runs[i].stalePid in children && children[runs[i].stalePid] == i))
    && (forall p :: p in children ==>
          p != 0 && children[p] < |runs| && (runs[children[p]].pid == p || runs[children[p]].stalePid == p))
  }

  /** There are never more unreaped children than services. */
  lemma FewChildren(runs: seq<Run>, children: map<nat, nat>)
    requires PidOk(runs, children)
    ensures |children| <= |runs|
  {
    InjectiveCard(children, |runs|);
  }

  lemma {:induction false} InjectiveCard(m: map<nat, nat>, n: nat)
    requires forall p :: p in m ==> m[p] < n
    requires forall p, q :: p in m && q in m && m[p] == m[q] ==> p == q
    ensures |m| <= n
    decreases n
  {
    if n == 0 {
      assert m.Keys == {};
    } else if exists p :: p in m && m[p] == n - 1 {
      var p :| p in m && m[p] == n - 1;
      var rest := m - {p};
      assert m.Keys == rest.Keys + {p};
      InjectiveCard(rest, n - 1);
    } else {
      InjectiveCard(m, n - 1);
    }
  }

  /** The start protocol, for one service. A service that waits between two attempts has no process;
      one that is not started has none either, and a deadline only while it is held. `slack` allows
      a skipped service to keep its deadline until the live list has been searched for it. */
  predicate TimerFine(s: State, want: bool, r: Run, inLive: bool, slack: bool) {
    if s == Running then r.restartAt != 0 ==> r.pid == 0 && !r.starting
    else s != Done ==>
      && r.pid == 0
      && (r.restartAt != 0 && !(slack && s == Skipped) ==> want && r.stalePid == 0)
      && (r.starting ==> r.stalePid == 0 && (inLive ==> want))
  }

  /** What the services depend on beside their own records: whether shutdown has begun, and who is released. */
  datatype Env = Env(down: bool, released: seq<bool>)

  predicate Rel(env: Env, i: nat) {
    i < |env.released| && env.released[i]
  }

  /** Failed starts, for one service. Only a service with more than one try waits between two attempts. An
      uptime service keeps its release through such attempts and while it is skipped between them, so it
      has another try when it is pending again; a service that failed for good has lost its release. */
  predicate StartFine(v: Service, s: State, r: Run, rel: bool) {
    v.kind != Target ==>
      && (s == Running && r.restartAt != 0 ==> v.startTries >= 2)
      && (rel && !v.orderOnly ==>
            && s != Failed
            && (s == Pending || s == Skipped ==> v.startTries >= 2)
            && (s == Pending ==> r.attempt == 0))
  }

  /** What holds of every service between two events: whatever needs attention is on the live list,
      only a daemon has a notify pipe and none outlives its process before shutdown, and a target
      has no process and is never held. */
  predicate SvcFine(v: Service, s: State, want: bool, r: Run, inLive: bool, down: bool, slack: bool, rel: bool) {
    && (Busy(r) ==> inLive)
    && TimerFine(s, want, r, inLive, slack) && StartFine(v, s, r, rel)
    && (r.ntfOpen ==> v.kind == Daemon && (down || r.pid != 0))
    && (r.starting && r.pid == 0 ==> !r.outOpen)
    && (v.kind == Target ==>
          !want && r.pid == 0 && r.stalePid == 0 && r.restartAt == 0 && r.op == NoOp && !r.starting)
  }

  ghost predicate AllFine(g: Graph, state: seq<State>, want: seq<bool>, runs: seq<Run>,
                          live: seq<nat>, nLive: nat, livePos: seq<nat>, env: Env, slack: bool, except: int)
  {
    && |state| == |want| == |runs| == |livePos| == |g.svc|
    && LiveOk(live, nLive, livePos)
    && forall i :: 0 <= i < |state| && i != except ==>
         SvcFine(g.svc[i], state[i], want[i], runs[i], InLive(live, nLive, livePos, i), env.down, slack, Rel(env, i))
  }

  ghost predicate Shaped(g: Graph, s: Services) {
    |s.state| == |s.want| == |s.runs| == |s.live| == |s.livePos| == |g.svc| && s.nLive <= |s.live| && s.roots == g.roots
  }

  predicate Has(s: Services, i: nat)
    requires |s.live| == |s.livePos| && s.nLive <= |s.live| && i < |s.livePos|
  {
    InLive(s.live, s.nLive, s.livePos, i)
  }

  /** Every service but `except` is fine. */
  ghost predicate Fine(g: Graph, s: Services, env: Env, slack: bool, except: int) {
    Shaped(g, s) && AllFine(g, s.state, s.want, s.runs, s.live, s.nLive, s.livePos, env, slack, except)
  }

  /** Service i is fine. */
  predicate FineOne(g: Graph, s: Services, env: Env, slack: bool, i: nat)
    requires |s.state| == |s.want| == |s.runs| == |s.live| == |s.livePos| == |g.svc|
    requires s.nLive <= |s.live| && i < |g.svc|
  {
    SvcFine(g.svc[i], s.state[i], s.want[i], s.runs[i], Has(s, i), env.down, slack, Rel(env, i))
  }

  /** Looking at one service. */
  lemma FineAt(g: Graph, s: Services, env: Env, slack: bool, i: nat)
    requires Fine(g, s, env, slack, -1) && i < |g.svc|
    ensures Fine(g, s, env, slack, i) && FineOne(g, s, env, slack, i)
  {
  }

  /** Done with one service. */
  lemma FineAgain(g: Graph, s: Services, env: Env, slack: bool, i: nat)
    requires Fine(g, s, env, slack, i) && i < |g.svc| && FineOne(g, s, env, slack, i)
    ensures Fine(g, s, env, slack, -1)
  {
  }

  /** Changing one service. */
  lemma FineChange(g: Graph, s: Services, env: Env, slack: bool, i: nat, st: State, w: bool, r: Run)
    requires Fine(g, s, env, slack, i) && i < |g.svc|
    ensures Fine(g, s.(state := s.state[i := st], want := s.want[i := w], runs := s.runs[i := r]), env, slack, i)
  {
  }

  lemma FineRun(g: Graph, s: Services, env: Env, slack: bool, i: nat, r: Run)
    requires Fine(g, s, env, slack, i) && i < |g.svc|
    ensures Fine(g, s.(runs := s.runs[i := r]), env, slack, i)
  {
  }

  lemma FineAdd(g: Graph, s: Services, env: Env, slack: bool, i: nat)
    requires Fine(g, s, env, slack, i) && i < |g.svc| && !Has(s, i)
    ensures s.nLive < |s.live|
    ensures var s' := s.(live := s.live[s.nLive := i], nLive := s.nLive + 1, livePos := s.livePos[i := s.nLive]);
            Fine(g, s', env, slack, i) && Has(s', i)
  {
    LiveAddKeeps(s.live, s.nLive, s.livePos, i);
  }

  lemma FineDel(g: Graph, s: Services, env: Env, slack: bool, i: nat)
    requires Fine(g, s, env, slack, i) && i < |g.svc| && Has(s, i)
    ensures 0 < s.nLive && s.livePos[i] < s.nLive && s.live[s.nLive - 1] < |s.livePos|
    ensures var pos, last := s.livePos[i], s.live[s.nLive - 1];
            var s' := s.(live := s.live[pos := last], nLive := s.nLive - 1, livePos := s.livePos[last := pos]);
            Fine(g, s', env, slack, i) && !Has(s', i) && Shrinks(s, s')
  {
    LiveDelKeeps(s.live, s.nLive, s.livePos, i);
  }

  /** A change of the record that keeps the process numbers. */
  lemma PidSame(runs: seq<Run>, children: map<nat, nat>, i: nat, r: Run)
    requires PidOk(runs, children) && i < |runs| && r.pid == runs[i].pid && r.stalePid == runs[i].stalePid
    ensures PidOk(runs[i := r], children)
  {
  }

  /** A new child of a service that had none. */
  lemma PidBorn(runs: seq<Run>, children: map<nat, nat>, i: nat, r: Run)
    requires PidOk(runs, children) && i < |runs| && runs[i].pid == 0 && runs[i].stalePid == 0
    requires r.pid != 0 && r.pid !in children && r.stalePid == 0
    ensures PidOk(runs[i := r], children[r.pid := i])
  {
  }

  /** The child of a service was reaped. */
  lemma PidGone(runs: seq<Run>, children: map<nat, nat>, i: nat, r: Run, pid: nat)
    requires PidOk(runs, children) && i < |runs| && pid in children && children[pid] == i
    requires r.pid == 0 && r.stalePid == 0
    ensures PidOk(runs[i := r], children - {pid})
  {
  }

  /** The running child becomes a stale one. */
  lemma PidStale(runs: seq<Run>, children: map<nat, nat>, i: nat, r: Run)
    requires PidOk(runs, children) && i < |runs| && runs[i].pid != 0
    requires r.pid == 0 && r.stalePid == runs[i].pid
    ensures PidOk(runs[i := r], children)
  {
  }

  // ---------------------------------------------------------------- after a failure has spread

  /** What clearing the deadline of a skipped service makes of its record. */
  function NoRetry(r: Run): Run {
    r.(restartAt := 0, staleHold := false)
  }

  /** None of the first k services on the live list is skipped and still waits for a retry. */
  ghost predicate ClearedTo(s: Services, k: nat) {
    && |s.state| == |s.runs| && k <= |s.live|
    && forall p :: 0 <= p < k ==>
        s.live[p] < |s.state| && !(s.state[s.live[p]] == Skipped && s.runs[s.live[p]].restartAt != 0)
  }

  /** Only skipped services that waited for a retry changed, and only in that. */
  ghost predicate OnlyCleared(state: seq<State>, runs: seq<Run>, runs': seq<Run>) {
    && |state| == |runs| == |runs'|
    && forall x :: 0 <= x < |runs| ==>
         runs'[x] == runs[x] || (state[x] == Skipped && runs[x].restartAt != 0 && runs'[x] == NoRetry(runs[x]))
  }

  /** Position k of the live list: the service there, and the list with it cleared or removed. */
  lemma ClearedStep(g: Graph, s: Services, env: Env, k: nat)
    requires Fine(g, s, env, true, -1) && ClearedTo(s, k) && k < s.nLive
    ensures var d := s.live[k];
            && d < |g.svc| && s.livePos[d] == k && Has(s, d)
            && (!(s.state[d] == Skipped && s.runs[d].restartAt != 0) ==> ClearedTo(s, k + 1))
            && ClearedTo(s.(runs := s.runs[d := NoRetry(s.runs[d])]), k + 1)
            && ClearedTo(s.(runs := s.runs[d := NoRetry(s.runs[d])], live := s.live[k := s.live[s.nLive - 1]]), k)
            && (k < s.nLive - 1 ==> s.live[s.nLive - 1] != d)
  {
  }

  lemma OnlyClearedStep(state: seq<State>, runs: seq<Run>, runs': seq<Run>, d: nat)
    requires OnlyCleared(state, runs, runs') && d < |state| && state[d] == Skipped && runs'[d].restartAt != 0
    ensures OnlyCleared(state, runs, runs'[d := NoRetry(runs'[d])])
  {
  }

  lemma OnlyClearedNot(state: seq<State>, runs: seq<Run>)
    requires |state| == |runs|
    ensures OnlyCleared(state, runs, runs)
  {
  }

  /** A live list without such services leaves none anywhere. */
  lemma SlackEnds(g: Graph, s: Services, env: Env)
    requires Fine(g, s, env, true, -1) && ClearedTo(s, s.nLive)
    ensures Fine(g, s, env, false, -1)
  {
    forall i | 0 <= i < |s.state| ensures FineOne(g, s, env, false, i) {
      assert FineOne(g, s, env, true, i);
      assert Has(s, i) ==> s.live[s.livePos[i]] == i;
    }
  }

  lemma ShrinksTwice(s: Services, s': Services, s'': Services)
    requires Shrinks(s, s') && Shrinks(s', s'')
    ensures Shrinks(s, s'')
  {
  }

  lemma ShrinksNot(s: Services, s': Services)
    requires s.nLive <= |s.live| && s'.live == s.live && s'.nLive == s.nLive
    ensures Shrinks(s, s')
  {
  }

  lemma ClearedNone(g: Graph, s: Services, env: Env)
    requires Fine(g, s, env, true, -1)
    ensures ClearedTo(s, 0)
  {
  }

  lemma ClearedSame(s: Services, s': Services, k: nat)
    ensures s'.state == s.state && s'.runs == s.runs && s'.live == s.live ==> (ClearedTo(s, k) <==> ClearedTo(s', k))
  {
  }

  // ---------------------------------------------------------------- what one event leaves alone

  /** The services before b and the other roots are as they were, but for the deadline of a skipped one. */
  ghost predicate SameTo(b: int, s: Services, s': Services) {
    && |s.state| == |s'.state| == |s.runs| == |s'.runs| && s.want == s'.want && s.roots == s'.roots
    && (forall x :: 0 <= x < |s.state| && (x < b || (x < s.roots && x != b)) ==>
          && s'.state[x] == s.state[x]
          && (s'.runs[x] == s.runs[x] || (s.state[x] == Skipped && s'.runs[x] == NoRetry(s.runs[x]))))
  }

  lemma SameToTwice(b: int, s: Services, s': Services, c: int, s'': Services)
    requires SameTo(b, s, s') && SameTo(c, s', s'') && (b == c || (b <= c && s.roots <= c))
    ensures SameTo(b, s, s'')
  {
  }

  /** The first service that depends on something and comes after i. */
  function Past(roots: nat, i: nat): int {
    if i + 1 < roots then roots else i + 1
  }

  lemma PastFacts(roots: nat, i: nat, d: nat)
    ensures i < Past(roots, i) && roots <= Past(roots, i)
    ensures i < d && roots <= d ==> Past(roots, i) <= d
  {
  }

  /** A start in progress either was in progress, or began after time t. */
  ghost predicate StartsLater(runs: seq<Run>, runs': seq<Run>, t: int) {
    && |runs| == |runs'|
    && forall x :: 0 <= x < |runs| && runs'[x].starting && !runs'[x].timedOut ==>
         || (runs[x].starting && !runs[x].timedOut && runs'[x].started == runs[x].started)
         || runs'[x].started >= t
  }

  lemma StartsLaterTwice(runs: seq<Run>, runs': seq<Run>, runs'': seq<Run>, t: int, t': int)
    requires StartsLater(runs, runs', t) && StartsLater(runs', runs'', t') && t <= t'
    ensures StartsLater(runs, runs'', t)
  {
  }

  /** A deadline either stood before, or is past time t. */
  ghost predicate RestartsLater(runs: seq<Run>, runs': seq<Run>, t: int) {
    && |runs| == |runs'|
    && forall x :: 0 <= x < |runs| ==>
         runs'[x].restartAt == runs[x].restartAt || runs'[x].restartAt == 0 || runs'[x].restartAt > t
  }

  /** Whatever process the service had is only waited for from now on. */
  function Abandoned(r: Run): Run {
    if r.pid == 0 then r else r.(stalePid := r.pid, pid := 0)
  }

  /** The pipes are closed. */
  function Closed(r: Run): Run {
    r.(outOpen := false, ntfOpen := false)
  }

  /** Only service i changed, and only its record. */
  ghost predicate OnlyRun(s: Services, s': Services, i: nat) {
    && i < |s.runs| == |s'.runs| && s.state == s'.state && s.want == s'.want && s.roots == s'.roots
    && s'.runs == s.runs[i := s'.runs[i]]
  }

  lemma OnlyRunFacts(s: Services, s': Services, i: nat, t: int)
    requires OnlyRun(s, s', i) && |s.state| == |s.runs|
    ensures SameTo(i, s, s') && s'.state == s.state && s'.want == s.want
    ensures (s'.runs[i].starting && !s'.runs[i].timedOut ==>
               (s.runs[i].starting && !s.runs[i].timedOut && s'.runs[i].started == s.runs[i].started)
                   || s'.runs[i].started >= t)
            ==> StartsLater(s.runs, s'.runs, t)
    ensures (s'.runs[i].restartAt == s.runs[i].restartAt || s'.runs[i].restartAt == 0 || s'.runs[i].restartAt > t)
            ==> RestartsLater(s.runs, s'.runs, t)
  {
  }

  lemma RestartsLaterTwice(runs: seq<Run>, runs': seq<Run>, runs'': seq<Run>, t: int, t': int)
    requires RestartsLater(runs, runs', t) && RestartsLater(runs', runs'', t') && t <= t'
    ensures RestartsLater(runs, runs'', t)
  {
  }

  /** A new record for service i that has a new process. */
  lemma BornFacts(g: Graph, s: Services, env: Env, i: nat, r: Run, kids: map<nat, nat>)
    requires i < |g.svc| && Fine(g, s, env, false, i) && Counted(s) && PidOk(s.runs, kids)
    requires s.runs[i].pid == 0 && s.runs[i].stalePid == 0 && r.pid != 0
    requires r.pid !in kids && r.stalePid == 0 && r.op == s.runs[i].op
    ensures var s' := s.(runs := s.runs[i := r]);
            && Fine(g, s', env, false, i) && Counted(s') && PidOk(s'.runs, kids[r.pid := i])
            && OnlyRun(s, s', i) && Shrinks(s, s') && Has(s', i) == Has(s, i)
  {
    FineRun(g, s, env, false, i, r);
    PidBorn(s.runs, kids, i, r);
    CountUpdate(s.runs, i, r, HasOp);
  }

  /** Only the live list changed. */
  lemma SameButLive(s: Services, s': Services)
    requires s' == s.(live := s'.live, nLive := s'.nLive, livePos := s'.livePos)
    ensures Counted(s) ==> Counted(s')
  {
  }

  lemma OnlyRunLive(s: Services, s': Services, s'': Services, i: nat)
    requires OnlyRun(s, s', i) && s'' == s'.(live := s''.live, nLive := s''.nLive, livePos := s''.livePos)
    ensures OnlyRun(s, s'', i)
  {
  }

  lemma FineShape(g: Graph, s: Services, env: Env, slack: bool, except: int)
    requires Fine(g, s, env, slack, except)
    ensures |s.state| == |s.want| == |s.runs| == |s.live| == |s.livePos| == |g.svc|
    ensures s.nLive <= |s.live| && s.roots == g.roots
  {
  }

  /** A new record for service i that keeps its process, or makes it stale. */
  lemma RunFacts(g: Graph, s: Services, env: Env, i: nat, r: Run, kids: map<nat, nat>)
    requires i < |g.svc| && Fine(g, s, env, false, i) && Counted(s) && PidOk(s.runs, kids) && r.op == s.runs[i].op
    requires (r.pid == s.runs[i].pid && r.stalePid == s.runs[i].stalePid)
          || (s.runs[i].pid != 0 && r.pid == 0 && r.stalePid == s.runs[i].pid)
    ensures var s' := s.(runs := s.runs[i := r]);
            && Fine(g, s', env, false, i) && Counted(s') && PidOk(s'.runs, kids)
            && OnlyRun(s, s', i) && Shrinks(s, s') && Has(s', i) == Has(s, i) && |s'.runs| == |g.svc|
  {
    FineRun(g, s, env, false, i, r);
    if r.pid == s.runs[i].pid && r.stalePid == s.runs[i].stalePid {
      PidSame(s.runs, kids, i, r);
    } else {
      PidStale(s.runs, kids, i, r);
    }
    CountUpdate(s.runs, i, r, HasOp);
  }

  /** A service in the state st with the record r is fine if it needs no attention or has it. */
  lemma FineNow(g: Graph, s: Services, env: Env, i: nat)
    requires i < |g.svc| && Fine(g, s, env, false, i)
    requires SvcFine(g.svc[i], s.state[i], s.want[i], s.runs[i], Has(s, i), env.down, false, Rel(env, i))
    ensures Fine(g, s, env, false, -1)
  {
  }

  lemma OnlyRunTwice(s: Services, s': Services, s'': Services, i: nat)
    requires OnlyRun(s, s', i) && OnlyRun(s', s'', i)
    ensures OnlyRun(s, s'', i)
  {
  }

  /** The record of a service whose start failed. */
  function Dropped(r: Run): Run {
    Abandoned(Closed(r).(starting := false))
  }

  /** Dropping a failed start. */
  lemma DropFacts(g: Graph, s: Services, env: Env, i: nat, kids: map<nat, nat>)
    requires i < |g.svc| && Fine(g, s, env, false, i) && Counted(s) && PidOk(s.runs, kids)
    requires s.state[i] == Running && g.svc[i].kind != Target && s.runs[i].restartAt == 0
    requires s.runs[i].pid != 0 || s.runs[i].stalePid != 0 || s.runs[i].op != NoOp ==> Has(s, i)
    ensures var r := Dropped(s.runs[i]);
            var s' := s.(runs := s.runs[i := r]);
            && Fine(g, s', env, false, i) && Counted(s') && PidOk(s'.runs, kids)
            && OnlyRun(s, s', i) && Shrinks(s, s') && Has(s', i) == Has(s, i) && |s'.runs| == |g.svc|
            && SvcFine(g.svc[i], Running, s.want[i], r, Has(s', i), env.down, false, Rel(env, i))
            && SvcFine(g.svc[i], Running, s.want[i], r, Has(s', i) && Busy(r), env.down, false, Rel(env, i))
            && (Busy(r) <==> r.stalePid != 0 || r.op != NoOp)
            && r.pid == 0 && r.restartAt == 0 && !r.starting && !r.ntfOpen && r.op == s.runs[i].op
            && r.attempt == s.runs[i].attempt
  {
    RunFacts(g, s, env, i, Dropped(s.runs[i]), kids);
  }

  /** The two records agree in everything the invariant speaks about. */
  predicate Alike(r: Run, r': Run) {
    && r'.pid == r.pid && r'.stalePid == r.stalePid && r'.restartAt == r.restartAt && r'.op == r.op
    && r'.outOpen == r.outOpen && r'.ntfOpen == r.ntfOpen && r'.starting == r.starting
  }

  lemma AlikeFacts(g: Graph, s: Services, env: Env, i: nat, r: Run, kids: map<nat, nat>)
    requires i < |g.svc| && Fine(g, s, env, false, -1) && Counted(s) && PidOk(s.runs, kids) && Alike(s.runs[i], r)
    requires r.attempt == s.runs[i].attempt || s.state[i] == Running
    ensures var s' := s.(runs := s.runs[i := r]);
            && Fine(g, s', env, false, -1) && Counted(s') && PidOk(s'.runs, kids)
            && OnlyRun(s, s', i) && Shrinks(s, s') && Has(s', i) == Has(s, i) && |s'.runs| == |g.svc|
  {
    FineAt(g, s, env, false, i);
    RunFacts(g, s, env, i, r, kids);
    FineNow(g, s.(runs := s.runs[i := r]), env, i);
  }

  /** Whether a service may be given a deadline: between two attempts, when it is done, or while it is held. */
  predicate MayWait(v: Service, st: State, want: bool, r: Run) {
    match st
    case Running => r.pid == 0 && !r.starting && v.startTries >= 2
    case Done => true
    case _ => want && r.stalePid == 0
  }

  lemma MayWaitIs(v: Service, st: State, want: bool, r: Run)
    ensures st == Done ==> MayWait(v, st, want, r)
    ensures st == Running && r.pid == 0 && !r.starting && v.startTries >= 2 ==> MayWait(v, st, want, r)
    ensures st != Running && want && r.stalePid == 0 ==> MayWait(v, st, want, r)
    ensures MayWait(v, st, want, r) ==> st == Running || st == Done || want
  {
  }

  /** A deadline for a service between two attempts, or for one that is done. */
  lemma DeadlineFacts(g: Graph, s: Services, env: Env, i: nat, at: int, hold: bool, kids: map<nat, nat>)
    requires i < |g.svc| && Fine(g, s, env, false, -1) && Counted(s) && PidOk(s.runs, kids)
    requires g.svc[i].kind != Target && Has(s, i)
    requires MayWait(g.svc[i], s.state[i], s.want[i], s.runs[i])
    ensures var r := s.runs[i].(restartAt := at, staleHold := hold);
            var s' := s.(runs := s.runs[i := r]);
            && Fine(g, s', env, false, -1) && Counted(s') && PidOk(s'.runs, kids)
            && OnlyRun(s, s', i) && Shrinks(s, s') && Has(s', i) && |s'.runs| == |g.svc|
  {
    var r := s.runs[i].(restartAt := at, staleHold := hold);
    FineAt(g, s, env, false, i);
    RunFacts(g, s, env, i, r, kids);
    FineNow(g, s.(runs := s.runs[i := r]), env, i);
  }

  lemma OnlyRunSame(s: Services, i: nat)
    requires i < |s.runs|
    ensures OnlyRun(s, s, i)
  {
    assert s.runs == s.runs[i := s.runs[i]];
  }

  lemma AttemptAlike(r: Run, a: nat)
    ensures Alike(r, r.(attempt := a))
  {
  }

  /** Service i got attention. */
  lemma AttendedFacts(g: Graph, s: Services, s': Services, env: Env, i: nat)
    requires i < |g.svc| && Fine(g, s, env, false, -1) && Counted(s) && Fine(g, s', env, false, i) && Has(s', i)
    requires s' == s.(live := s'.live, nLive := s'.nLive, livePos := s'.livePos)
    requires s.state[i] == Running || s.state[i] == Done || !s.runs[i].starting || s.want[i]
    ensures Fine(g, s', env, false, -1) && Counted(s') && OnlyRun(s, s', i)
  {
    FineAt(g, s, env, false, i);
    FineNow(g, s', env, i);
    OnlyRunSame(s, i);
  }

  /** Service i changed, and then a failure spread from it. */
  lemma AfterPoison(s: Services, s': Services, s'': Services, i: nat, t: int)
    requires |s.state| == |s.runs| && OnlyRun(s, s', i) && !s'.runs[i].starting && s'.runs[i].restartAt == 0
    requires SameTo(i, s', s'') && OnlyCleared(s''.state, s'.runs, s''.runs)
    ensures SameTo(i, s, s'') && StartsLater(s.runs, s''.runs, t) && RestartsLater(s.runs, s''.runs, t)
    ensures s''.state[i] != Skipped ==> s''.runs[i] == s'.runs[i]
  {
  }

  lemma FineState(g: Graph, s: Services, s': Services, env: Env, i: nat, st: State)
    requires i < |g.svc| && Fine(g, s, env, false, i)
    requires s' == s.(state := s.state[i := st], nActive := s'.nActive, nDone := s'.nDone, nPending := s'.nPending)
    ensures Fine(g, s', env, false, i) && SameTo(i, s, s') && Shrinks(s, s') && Has(s', i) == Has(s, i)
    ensures s'.state[i] == st && |s'.state| == |s'.runs| == |g.svc|
    ensures forall t :: StartsLater(s.runs, s'.runs, t)
    ensures forall t :: RestartsLater(s.runs, s'.runs, t)
  {
    FineChange(g, s, env, false, i, st, s.want[i], s.runs[i]);
    assert s.want == s.want[i := s.want[i]] && s.runs == s.runs[i := s.runs[i]];
  }

  /** A service whose process was just started is fine. */
  lemma StartedFine(g: Graph, s: Services, env: Env, i: nat)
    requires i < |g.svc| && Fine(g, s, env, false, i) && Sound(g) && Has(s, i) && g.svc[i].kind != Target
    requires s.runs[i].pid != 0 && (s.state[i] == Done || (s.state[i] == Running && s.runs[i].restartAt == 0))
    requires s.runs[i].ntfOpen ==> g.svc[i].notify || g.svc[i].kind == Daemon
    ensures Fine(g, s, env, false, -1)
  {
    assert WellFormed(g.svc[i]);
    FineNow(g, s, env, i);
  }

  lemma DroppedFacts(r: Run)
    ensures !Dropped(r).starting && Dropped(r).pid == 0
    ensures Dropped(r).stalePid == (if r.pid != 0 then r.pid else r.stalePid)
  {
  }

  /** A launch of i that the kernel refused, followed by a change that leaves i not starting. */
  lemma LaunchFailed(s: Services, s': Services, s'': Services, i: nat, t: int, t': int)
    requires |s.state| == |s.runs| && OnlyRun(s, s', i) && SameTo(i, s', s'') && t <= t'
    requires StartsLater(s'.runs, s''.runs, t') && !s''.runs[i].starting
    ensures SameTo(i, s, s'') && StartsLater(s.runs, s''.runs, t)
  {
  }

  lemma ShrinksWhen(s: Services, s': Services, s'': Services, c: bool)
    requires c ==> Shrinks(s, s') && Shrinks(s', s'')
    ensures c ==> Shrinks(s, s'')
  {
  }

  lemma Quiet(s: Services, i: int, t: int)
    requires |s.state| == |s.runs| && s.nLive <= |s.live|
    ensures SameTo(i, s, s) && StartsLater(s.runs, s.runs, t) && Shrinks(s, s)
  {
  }

  /** The record of a service that is about to be launched. */
  function Flagged(v: Service, r: Run): Run {
    r.(hup := false, timedOut := false, starting := true, ntfExec := v.kind == Daemon && !v.notify)
  }

  /** The record of a service whose process has just been started. */
  function Started(v: Service, r: Run, pid: nat, t: int): Run {
    r.(pid := pid, started := t, outOpen := true, ntfOpen := v.notify || r.ntfExec)
  }

  lemma FlaggedFacts(v: Service, r: Run, pid: nat, t: int)
    ensures var f := Flagged(v, r);
            && f.pid == r.pid && f.stalePid == r.stalePid && f.op == r.op && f.restartAt == r.restartAt && f.starting
            && f.attempt == r.attempt && f.started == r.started && f.outOpen == r.outOpen && f.ntfOpen == r.ntfOpen
    ensures var l := Started(v, Flagged(v, r), pid, t);
            && l.pid == pid && l.started == t && l.restartAt == r.restartAt && l.op == r.op && l.stalePid == r.stalePid
            && (l.ntfOpen ==> v.notify || v.kind == Daemon) && l.starting
  {
  }

  lemma StartedFacts(v: Service, r: Run, pid: nat, t: int)
    ensures var l := Started(v, r, pid, t); l.pid == pid && l.stalePid == r.stalePid && l.op == r.op && l.started == t
  {
  }

  /** What MarkDone makes of the services. */
  lemma DoneFine(g: Graph, s: Services, s': Services, env: Env, i: nat, kids: map<nat, nat>, t: int)
    requires i < |g.svc| && Fine(g, s, env, false, i) && PidOk(s.runs, kids)
    requires s' == s.(state := s.state[i := Done], runs := s.runs[i := s.runs[i].(starting := false)],
                      nActive := s'.nActive, nDone := s'.nDone, nPending := s'.nPending)
    requires SvcFine(g.svc[i], Done, s.want[i], s.runs[i].(starting := false), Has(s, i), env.down, false, Rel(env, i))
    ensures Fine(g, s', env, false, -1) && PidOk(s'.runs, kids)
    ensures SameTo(i, s, s') && StartsLater(s.runs, s'.runs, t) && Shrinks(s, s') && s'.want == s.want
    ensures |s'.state| == |s'.runs| == |g.svc| && s'.state[i] == Done && s'.runs[i] == s.runs[i].(starting := false)
  {
    var r := s.runs[i].(starting := false);
    FineChange(g, s, env, false, i, Done, s.want[i], r);
    assert s.want == s.want[i := s.want[i]];
    PidSame(s.runs, kids, i, r);
    FineNow(g, s', env, i);
  }

  lemma TargetDone(g: Graph, s: Services, env: Env, t: nat)
    requires t < |g.svc| && Fine(g, s, env, false, -1) && g.svc[t].kind == Target
    ensures Fine(g, s, env, false, t)
    ensures SvcFine(g.svc[t], Done, s.want[t], s.runs[t].(starting := false), Has(s, t), env.down, false, Rel(env, t))
  {
    FineAt(g, s, env, false, t);
  }

  lemma TargetFree(g: Graph, s: Services, env: Env, d: nat)
    requires Fine(g, s, env, false, -1) && d < |g.svc|
    ensures g.svc[d].kind == Target ==> !s.want[d]
  {
    FineAt(g, s, env, false, d);
  }

  lemma SvcAt(s: Services, s': Services, i: nat)
    requires SameTo(Past(s.roots, i), s, s') && i < |s.state| && s.state[i] != Skipped
    ensures i < |s'.state| == |s'.runs| && s'.state[i] == s.state[i] && s'.runs[i] == s.runs[i]
  {
  }

  lemma StopStarting(g: Graph, s: Services, env: Env, i: nat, kids: map<nat, nat>)
    requires i < |g.svc| && Fine(g, s, env, false, -1) && Counted(s) && PidOk(s.runs, kids)
    ensures var s' := s.(runs := s.runs[i := s.runs[i].(starting := false)]);
            && Fine(g, s', env, false, -1) && Counted(s') && PidOk(s'.runs, kids)
            && OnlyRun(s, s', i) && Shrinks(s, s') && Has(s', i) == Has(s, i) && |s'.runs| == |g.svc|
  {
    FineAt(g, s, env, false, i);
    RunFacts(g, s, env, i, s.runs[i].(starting := false), kids);
    FineNow(g, s.(runs := s.runs[i := s.runs[i].(starting := false)]), env, i);
  }

  lemma CloseFacts(g: Graph, s: Services, env: Env, i: nat, kids: map<nat, nat>)
    requires i < |g.svc| && Fine(g, s, env, false, -1) && Counted(s) && PidOk(s.runs, kids)
    ensures var s' := s.(runs := s.runs[i := Closed(s.runs[i])]);
            && Fine(g, s', env, false, -1) && Counted(s') && PidOk(s'.runs, kids)
            && OnlyRun(s, s', i) && Shrinks(s, s') && Has(s', i) == Has(s, i) && |s'.runs| == |g.svc|
  {
    FineAt(g, s, env, false, i);
    RunFacts(g, s, env, i, Closed(s.runs[i]), kids);
    FineNow(g, s.(runs := s.runs[i := Closed(s.runs[i])]), env, i);
  }

  lemma FreeFacts(g: Graph, s: Services, env: Env, i: nat)
    requires i < |g.svc| && Fine(g, s, env, false, -1)
    ensures Fine(g, s, env, false, i)
    ensures SvcFine(g.svc[i], s.state[i], s.want[i], s.runs[i], Has(s, i) && Busy(s.runs[i]), env.down, false,
                    Rel(env, i))
  {
    FineAt(g, s, env, false, i);
  }

  /** What is known of a service that is starting and on the live list. */
  lemma StartingFacts(g: Graph, s: Services, env: Env, i: nat)
    requires i < |g.svc| && Fine(g, s, env, false, -1) && s.runs[i].starting && Has(s, i)
    ensures s.state[i] == Running ==> s.runs[i].restartAt == 0
    ensures s.state[i] != Running && s.state[i] != Done ==> s.want[i] && s.runs[i].pid == 0 && s.runs[i].stalePid == 0
  {
    FineAt(g, s, env, false, i);
  }

  lemma BusyFacts(r: Run)
    ensures r.pid != 0 || r.stalePid != 0 || r.op != NoOp || r.restartAt != 0 || r.outOpen || r.ntfOpen <==> Busy(r)
  {
  }

  /** Closing the pipes of i, letting a failure spread from it, and dropping it. */
  lemma OverFacts(s: Services, s': Services, s'': Services, after: Services, i: nat, t: int)
    requires |s.state| == |s.runs| && i < |s.runs| && OnlyRun(s, s', i)
    requires s'.runs[i] == Closed(s.runs[i]) && !s.runs[i].starting
    requires SameTo(Past(s.roots, i), s', s'') && OnlyCleared(s''.state, s'.runs, s''.runs) && s''.want == s'.want
    requires after == s''.(live := after.live, nLive := after.nLive, livePos := after.livePos)
    requires Shrinks(s, s') && Shrinks(s', s'') && Shrinks(s'', after)
    ensures SameTo(i, s, after) && StartsLater(s.runs, after.runs, t) && !after.runs[i].starting && after.want == s.want
    ensures Shrinks(s, after)
  {
    ShrinksTwice(s, s', s'');
    ShrinksTwice(s, s'', after);
  }

  /** A restart is due at time now. */
  predicate IsDue(r: Run, now: int) {
    r.restartAt != 0 && r.restartAt <= now
  }

  /** No restart has become due. */
  ghost predicate NoneDue(runs: seq<Run>, runs': seq<Run>, now: int) {
    && |runs| == |runs'|
    && forall x :: 0 <= x < |runs| && IsDue(runs'[x], now) ==> IsDue(runs[x], now)
  }

  lemma LaterNotDue(runs: seq<Run>, runs': seq<Run>, t: int, now: int)
    requires RestartsLater(runs, runs', t) && now <= t
    ensures NoneDue(runs, runs', now)
  {
  }

  lemma NoneDueTwice(runs: seq<Run>, runs': seq<Run>, runs'': seq<Run>, now: int)
    requires NoneDue(runs, runs', now) && NoneDue(runs', runs'', now)
    ensures NoneDue(runs, runs'', now)
  {
  }

  ghost function DueCount(runs: seq<Run>, now: int): nat {
    Count(runs, (r: Run) => IsDue(r, now))
  }

  /** Fewer restarts are due once the one of i is not, and none has become due. */
  lemma DueDrops(runs: seq<Run>, runs': seq<Run>, now: int, i: nat)
    requires NoneDue(runs, runs', now)
    ensures DueCount(runs', now) <= DueCount(runs, now)
    ensures i < |runs| && IsDue(runs[i], now) && !IsDue(runs'[i], now) ==> DueCount(runs', now) < DueCount(runs, now)
  {
    CountLess(runs, runs', (r: Run) => IsDue(r, now), i);
  }

  /** A fired deadline is cleared first. */
  lemma FiredFacts(g: Graph, s: Services, env: Env, i: nat, kids: map<nat, nat>, now: int)
    requires i < |g.svc| && Fine(g, s, env, false, -1) && Counted(s) && PidOk(s.runs, kids) && s.runs[i].restartAt != 0
    ensures var s' := s.(runs := s.runs[i := s.runs[i].(restartAt := 0)]);
            && Fine(g, s', env, false, -1) && Counted(s') && PidOk(s'.runs, kids)
            && OnlyRun(s, s', i) && Shrinks(s, s') && Has(s', i) && |s'.runs| == |g.svc|
            && RestartsLater(s.runs, s'.runs, now)
    ensures g.svc[i].kind != Target && Has(s, i)
    ensures s.state[i] == Running ==> s.runs[i].pid == 0 && !s.runs[i].starting
    ensures s.state[i] != Running && s.state[i] != Done ==> s.want[i]
    ensures s.state[i] == Running ==> g.svc[i].startTries >= 2
    ensures s.runs[i].pid == 0 && !env.down ==> !s.runs[i].ntfOpen
  {
    var r := s.runs[i].(restartAt := 0);
    FineAt(g, s, env, false, i);
    RunFacts(g, s, env, i, r, kids);
    var s' := s.(runs := s.runs[i := r]);
    FineNow(g, s', env, i);
    OnlyRunFacts(s, s', i, now);
  }

  lemma NotDue(r: Run, now: int)
    ensures r.restartAt == 0 || r.restartAt > now <==> !IsDue(r, now)
  {
  }

  lemma StartedAlike(r: Run, t: int)
    ensures Alike(r, r.(started := t))
  {
  }

  lemma SelfNotDue(runs: seq<Run>, now: int)
    ensures NoneDue(runs, runs, now)
  {
  }

  lemma StillNotDue(runs: seq<Run>, runs': seq<Run>, now: int, i: nat)
    requires NoneDue(runs, runs', now) && i < |runs| && !IsDue(runs[i], now)
    ensures !IsDue(runs'[i], now)
  {
  }

  lemma LiveAt(g: Graph, s: Services, env: Env, k: nat)
    requires Fine(g, s, env, false, -1) && k < s.nLive
    ensures k < |s.live| && s.live[k] < |g.svc| && Has(s, s.live[k])
  {
  }

  /** The new record needs no more attention than the old one: nothing was opened, armed or started. */
  predicate Calmer(r: Run, r': Run) {
    && r'.pid == r.pid && r'.stalePid == r.stalePid && r'.op == r.op && r'.attempt == r.attempt
    && (r'.restartAt == r.restartAt || r'.restartAt == 0)
    && (r'.outOpen ==> r.outOpen) && (r'.ntfOpen ==> r.ntfOpen) && (r'.starting ==> r.starting)
  }

  lemma CalmerFacts(g: Graph, s: Services, env: Env, i: nat, r: Run, kids: map<nat, nat>, t: int)
    requires i < |g.svc| && Fine(g, s, env, false, -1) && Counted(s) && PidOk(s.runs, kids) && Calmer(s.runs[i], r)
    ensures var s' := s.(runs := s.runs[i := r]);
            && Fine(g, s', env, false, -1) && Counted(s') && PidOk(s'.runs, kids)
            && OnlyRun(s, s', i) && Shrinks(s, s') && Has(s', i) == Has(s, i) && |s'.runs| == |g.svc|
            && SameTo(i, s, s') && RestartsLater(s.runs, s'.runs, t)
            && (r.started == s.runs[i].started && (r.timedOut == s.runs[i].timedOut || !r.starting || r.timedOut) ==>
                  StartsLater(s.runs, s'.runs, t))
  {
    FineAt(g, s, env, false, i);
    RunFacts(g, s, env, i, r, kids);
    var s' := s.(runs := s.runs[i := r]);
    FineNow(g, s', env, i);
    OnlyRunFacts(s, s', i, t);
  }

  /** A service with a running process is starting or done, and its record with the start over is fine. */
  lemma ProcessFacts(g: Graph, s: Services, env: Env, i: nat)
    requires i < |g.svc| && Fine(g, s, env, false, -1) && s.runs[i].pid != 0
    ensures (s.state[i] == Running || s.state[i] == Done) && g.svc[i].kind != Target && Has(s, i)
    ensures s.state[i] == Running ==> s.runs[i].restartAt == 0
    ensures SvcFine(g.svc[i], Done, s.want[i], s.runs[i].(starting := false), Has(s, i), env.down, false, Rel(env, i))
  {
    FineAt(g, s, env, false, i);
  }

  /** What an event at the pipes of service i leaves of it: its processes and deadlines stand, and it
      is as it was or has become ready. */
  ghost predicate PipeEvent(s: Services, up: seq<bool>, s': Services, up': seq<bool>, i: nat) {
    && i < |s.state| == |s.runs| == |s'.state| == |s'.runs| == |up| == |up'|
    && s'.runs[i] == s.runs[i].(starting := s'.runs[i].starting, ntfOpen := s'.runs[i].ntfOpen, hup := s'.runs[i].hup)
    && (s'.runs[i].starting ==> s.runs[i].starting) && (s'.runs[i].ntfOpen ==> s.runs[i].ntfOpen)
    && ((s'.state[i] == s.state[i] && up'[i] == up[i]) || (s'.state[i] == Done && up'[i] && !s'.runs[i].starting))
  }

  lemma PipeFacts(s: Services, up: seq<bool>, s': Services, up': seq<bool>, i: nat)
    requires PipeEvent(s, up, s', up', i)
    ensures i < |s.runs| == |s'.runs| && s'.runs[i].pid == s.runs[i].pid && s'.runs[i].stalePid == s.runs[i].stalePid
    ensures s'.runs[i].op == s.runs[i].op && s'.runs[i].restartAt == s.runs[i].restartAt
    ensures s'.runs[i].ntfExec == s.runs[i].ntfExec
    ensures s'.runs[i].timedOut == s.runs[i].timedOut && s'.runs[i].started == s.runs[i].started
    ensures s'.runs[i].starting ==> s.runs[i].starting
    ensures s'.runs[i].attempt == s.runs[i].attempt && (s'.state[i] == s.state[i] || s'.state[i] == Done)
  {
  }

  /** The record changed in its pipes only, and the state and readiness did not. */
  lemma PipeOnly(s: Services, up: seq<bool>, s': Services, up': seq<bool>, i: nat)
    requires i < |s.state| == |s.runs| == |s'.state| == |s'.runs| == |up| == |up'|
    requires s'.runs[i]
             == s.runs[i].(starting := s'.runs[i].starting, ntfOpen := s'.runs[i].ntfOpen, hup := s'.runs[i].hup)
    requires (s'.runs[i].starting ==> s.runs[i].starting) && (s'.runs[i].ntfOpen ==> s.runs[i].ntfOpen)
    requires (s'.state[i] == s.state[i] && up'[i] == up[i]) || (s'.state[i] == Done && up'[i] && !s'.runs[i].starting)
    ensures PipeEvent(s, up, s', up', i)
  {
  }

  lemma PipeTwice(s: Services, up: seq<bool>, s': Services, up': seq<bool>, s'': Services, up'': seq<bool>, i: nat)
    requires PipeEvent(s, up, s', up', i) && PipeEvent(s', up', s'', up'', i)
    ensures PipeEvent(s, up, s'', up'', i)
  {
  }

  /** Dropping a service from the live list changes nothing else. */
  lemma FreeSame(s: Services, s': Services, b: int, t: int)
    requires s' == s.(live := s'.live, nLive := s'.nLive, livePos := s'.livePos) && |s.state| == |s.runs|
    ensures SameTo(b, s, s') && StartsLater(s.runs, s'.runs, t)
    ensures s'.runs == s.runs && s'.state == s.state && s'.want == s.want
  {
  }

  lemma PipeCalm(r: Run)
    ensures Calmer(r, r.(ntfOpen := false)) && Calmer(r, r.(hup := true)) && Calmer(r, r.(outOpen := false))
    ensures Calmer(r, r.(ntfOpen := false, hup := true)) && Calmer(r, r.(starting := false))
    ensures Calmer(r, r.(timedOut := true))
  {
  }

  /** The child of service i was reaped. */
  lemma GoneFacts(g: Graph, s: Services, env: Env, i: nat, kids: map<nat, nat>)
    requires i < |g.svc| && Fine(g, s, env, false, -1) && Counted(s) && PidOk(s.runs, kids) && s.runs[i].pid != 0
    ensures s.runs[i].pid in kids && s.runs[i].stalePid == 0
    ensures var r := s.runs[i].(pid := 0);
            var s' := s.(runs := s.runs[i := r]);
            && Fine(g, s', env, false, i) && Counted(s') && PidOk(s'.runs, kids - {s.runs[i].pid})
            && OnlyRun(s, s', i) && Shrinks(s, s') && Has(s', i) && |s'.runs| == |g.svc|
            && (forall t :: RestartsLater(s.runs, s'.runs, t)) && (forall t :: StartsLater(s.runs, s'.runs, t))
            && SameTo(i, s, s')
    ensures (s.state[i] == Running || s.state[i] == Done) && g.svc[i].kind != Target
    ensures (s.runs[i].ntfOpen ==> g.svc[i].kind == Daemon)
    ensures s.state[i] == Running ==> s.runs[i].restartAt == 0
  {
    hide AllFine, PidOk, Count;
    RecordedPid(s.runs, kids, i);
    FineAt(g, s, env, false, i);
    var r := s.runs[i].(pid := 0);
    FineRun(g, s, env, false, i, r);
    PidGone(s.runs, kids, i, r, s.runs[i].pid);
    CountUpdate(s.runs, i, r, HasOp);
  }

  /** Replacing the record of service i, and taking it from starting to pending if asked to. */
  function Replaced(s: Services, i: nat, st: State, r: Run): Services
    requires i < |s.state| == |s.runs| && (s.state[i] == Running && st == Pending ==> s.nActive > 0)
  {
    var moved := s.state[i] == Running && st == Pending;
    s.(state := s.state[i := st], runs := s.runs[i := r],
       nActive := if moved then s.nActive - 1 else s.nActive, nPending := if moved then s.nPending + 1 else s.nPending)
  }

  lemma ReplacedFacts(g: Graph, s: Services, env: Env, i: nat, st: State, r: Run, kids: map<nat, nat>, t: int)
    requires i < |g.svc| && Fine(g, s, env, false, i) && PidOk(s.runs, kids) && Counted(s)
    requires r.pid == s.runs[i].pid && r.stalePid == s.runs[i].stalePid && r.op == s.runs[i].op
    requires st == s.state[i] || (s.state[i] == Running && st == Pending)
    ensures s.state[i] == Running && st == Pending ==> s.nActive > 0
    ensures var s' := Replaced(s, i, st, r);
            && Fine(g, s', env, false, i) && PidOk(s'.runs, kids) && Counted(s')
            && SameTo(i, s, s') && Shrinks(s, s') && Has(s', i) == Has(s, i) && s'.want == s.want
            && |s'.state| == |s'.runs| == |g.svc| && s'.state[i] == st && s'.runs[i] == r
            && s' == s.(state := s.state[i := st], runs := s.runs[i := r], nActive := s'.nActive,
                        nPending := s'.nPending)
            && (!r.starting ==> StartsLater(s.runs, s'.runs, t))
  {
    hide AllFine, PidOk, Count;
    StateChange(s.state, i, st);
    FineChange(g, s, env, false, i, st, s.want[i], r);
    assert s.want == s.want[i := s.want[i]];
    PidSame(s.runs, kids, i, r);
    CountUpdate(s.runs, i, r, HasOp);
  }

  /** The record of a held service whose process has gone. */
  function Stopped(r: Run): Run {
    Closed(r).(starting := false, restartAt := 0)
  }

  lemma StoppedFacts(g: Graph, s: Services, env: Env, i: nat)
    requires i < |g.svc| && Shaped(g, s) && s.runs[i].pid == 0 && g.svc[i].kind != Target && Has(s, i)
    requires Rel(env, i) ==> g.svc[i].orderOnly
    ensures var r := Stopped(s.runs[i]);
            && r.pid == s.runs[i].pid && r.stalePid == s.runs[i].stalePid && r.op == s.runs[i].op && !r.starting
                && r.restartAt == 0
            && (forall st: State :: SvcFine(g.svc[i], st, s.want[i], r, true, env.down, false, Rel(env, i)))
            && (forall st: State :: SvcFine(g.svc[i], st, s.want[i], r, Busy(r), env.down, false, Rel(env, i)))
  {
  }

  lemma ShapedOf(g: Graph, s: Services, env: Env, slack: bool, e: int)
    requires Fine(g, s, env, slack, e)
    ensures Shaped(g, s)
  {
  }

  /** Closing the pipes of a done service whose process has gone. */
  lemma ExitedFacts(g: Graph, s: Services, env: Env, i: nat)
    requires i < |g.svc| && Shaped(g, s) && s.runs[i].pid == 0 && g.svc[i].kind != Target && Has(s, i)
    requires s.runs[i].ntfOpen ==> g.svc[i].kind == Daemon
    ensures var r := Closed(s.runs[i]).(starting := false);
            && r.pid == s.runs[i].pid && r.stalePid == s.runs[i].stalePid && r.op == s.runs[i].op && !r.starting
            && SvcFine(g.svc[i], Done, s.want[i], r, true, env.down, false, Rel(env, i))
    ensures var r := s.runs[i].(starting := false);
            && (env.down || !r.ntfOpen ==> SvcFine(g.svc[i], Done, s.want[i], r, true, env.down, false, Rel(env, i)))
  {
  }

  /** A failure spread from a service that was done, which was then dropped from the live list. */
  lemma DepsFacts(s: Services, s': Services, s'': Services, i: nat, t: int)
    requires i < |s.state| == |s.runs| && SameTo(Past(s.roots, i), s, s')
    requires OnlyCleared(s'.state, s.runs, s'.runs) && s'.want == s.want
    requires s'' == s'.(live := s''.live, nLive := s''.nLive, livePos := s''.livePos) && s.state[i] == Done
    ensures SameTo(i, s, s'') && StartsLater(s.runs, s''.runs, t) && s''.want == s.want
    ensures s''.state[i] == Done && s''.runs[i] == s.runs[i]
  {
  }

  lemma DroppedKeeps(r: Run)
    ensures Dropped(r).attempt == r.attempt && !Dropped(r).starting && Dropped(r).pid == 0
  {
  }

  /** The stale process of service i was reaped. */
  lemma StaleFacts(g: Graph, s: Services, env: Env, i: nat, kids: map<nat, nat>)
    requires i < |g.svc| && Fine(g, s, env, false, -1) && Counted(s) && PidOk(s.runs, kids) && s.runs[i].stalePid != 0
    ensures s.runs[i].stalePid in kids && s.runs[i].pid == 0 && g.svc[i].kind != Target
    ensures var r := s.runs[i].(stalePid := 0);
            var s' := s.(runs := s.runs[i := r]);
            && Fine(g, s', env, false, -1) && Counted(s') && PidOk(s'.runs, kids - {s.runs[i].stalePid})
            && OnlyRun(s, s', i) && Has(s', i) && |s'.runs| == |g.svc| && SameTo(i, s, s')
            && (forall t :: StartsLater(s.runs, s'.runs, t))
  {
    hide AllFine, PidOk, Count;
    RecordedPid(s.runs, kids, i);
    FineAt(g, s, env, false, i);
    var r := s.runs[i].(stalePid := 0);
    FineRun(g, s, env, false, i, r);
    PidGone(s.runs, kids, i, r, s.runs[i].stalePid);
    CountUpdate(s.runs, i, r, HasOp);
    FineNow(g, s.(runs := s.runs[i := r]), env, i);
  }

  /** A deadline that stands may be moved. */
  lemma MoveFacts(g: Graph, s: Services, env: Env, i: nat, at: int, kids: map<nat, nat>)
    requires i < |g.svc| && Fine(g, s, env, false, -1) && Counted(s) && PidOk(s.runs, kids) && s.runs[i].restartAt != 0
    ensures var r := s.runs[i].(restartAt := at, staleHold := false);
            var s' := s.(runs := s.runs[i := r]);
            && Fine(g, s', env, false, -1) && Counted(s') && PidOk(s'.runs, kids)
            && OnlyRun(s, s', i) && Has(s', i) && |s'.runs| == |g.svc| && SameTo(i, s, s')
            && (forall t :: StartsLater(s.runs, s'.runs, t))
  {
    var r := s.runs[i].(restartAt := at, staleHold := false);
    FineAt(g, s, env, false, i);
    RunFacts(g, s, env, i, r, kids);
    FineNow(g, s.(runs := s.runs[i := r]), env, i);
  }

  /** Scanning the live list finds every recorded process. */
  lemma ScanFinds(g: Graph, s: Services, env: Env, kids: map<nat, nat>, pid: nat)
    requires Fine(g, s, env, false, -1) && PidOk(s.runs, kids)
    requires forall k :: 0 <= k < s.nLive ==>
               s.live[k] < |g.svc| && s.runs[s.live[k]].pid != pid && s.runs[s.live[k]].stalePid != pid
    ensures pid !in kids
  {
    if pid in kids {
      var i := kids[pid];
      FineAt(g, s, env, false, i);
    }
  }

  lemma RecordedPid(runs: seq<Run>, kids: map<nat, nat>, i: nat)
    requires PidOk(runs, kids) && i < |runs|
    ensures runs[i].pid != 0 ==> runs[i].pid in kids && kids[runs[i].pid] == i && runs[i].stalePid == 0
    ensures runs[i].stalePid != 0 ==> runs[i].stalePid in kids && kids[runs[i].stalePid] == i && runs[i].pid == 0
  {
  }

  lemma ChildRecorded(runs: seq<Run>, kids: map<nat, nat>, pid: nat)
    requires PidOk(runs, kids) && pid in kids
    ensures pid != 0 && kids[pid] < |runs| && (runs[kids[pid]].pid == pid || runs[kids[pid]].stalePid == pid)
  {
  }

  lemma StoppedPid(r: Run)
    ensures Stopped(r).pid == r.pid && Stopped(r).restartAt == 0 && !Stopped(r).starting
  {
  }

  lemma ShutFacts(g: Graph, s: Services, env: Env, i: nat)
    requires i < |g.svc| && Shaped(g, s) && s.runs[i].pid == 0 && g.svc[i].kind != Target && Has(s, i) && env.down
    requires (s.state[i] == Running ==> s.runs[i].restartAt == 0) && (s.runs[i].ntfOpen ==> g.svc[i].kind == Daemon)
    ensures var c := Closed(s.runs[i]);
            && c.pid == s.runs[i].pid && c.stalePid == s.runs[i].stalePid && c.op == s.runs[i].op
                && c.started == s.runs[i].started
            && (s.state[i] == Running ==> SvcFine(g.svc[i], Running, s.want[i], c, true, env.down, false, Rel(env, i)))
            && c.starting == s.runs[i].starting && c.timedOut == s.runs[i].timedOut
  {
  }

  lemma ShutSame(s: Services, s': Services, s'': Services, i: nat, t: int)
    requires i < |s.state| == |s.runs| && SameTo(i, s, s')
    requires s'.state == s.state[i := s.state[i]] && |s'.runs| == |s.runs|
    requires s'.runs == s.runs[i := s'.runs[i]] && s'.runs[i].started == s.runs[i].started
    requires (s'.runs[i].starting ==> s.runs[i].starting) && s'.runs[i].timedOut == s.runs[i].timedOut
    requires s'' == s'.(live := s''.live, nLive := s''.nLive, livePos := s''.livePos)
    ensures SameTo(i, s, s'') && StartsLater(s.runs, s''.runs, t) && s''.state == s.state && s''.want == s.want
  {
    assert s'.state == s.state;
  }

  /** A start has been going on for too long. */
  predicate Late(v: Service, r: Run, now: int) {
    r.starting && !r.timedOut && now - r.started >= v.startMs
  }

  ghost function LateFlags(g: Graph, runs: seq<Run>, now: int): seq<bool>
    requires |runs| == |g.svc|
  {
    seq(|runs|, x requires 0 <= x < |runs| => Late(g.svc[x], runs[x], now))
  }

  ghost function LateCount(g: Graph, runs: seq<Run>, now: int): nat {
    if |runs| == |g.svc| then Count(LateFlags(g, runs, now), IsSet) else 0
  }

  /** The service at position k of the live list is late. */
  ghost predicate Overdue(g: Graph, s: Services, k: nat, now: int) {
    k < |s.live| && s.live[k] < |s.runs| == |g.svc| && Late(g.svc[s.live[k]], s.runs[s.live[k]], now)
  }

  lemma OverdueIs(g: Graph, s: Services, k: nat, now: int)
    requires k < |s.live| && s.live[k] < |s.runs| == |g.svc|
    ensures Overdue(g, s, k, now) <==> Late(g.svc[s.live[k]], s.runs[s.live[k]], now)
  {
  }

  /** Starts that began at now or later are not late at now. */
  lemma LateDrops(g: Graph, runs: seq<Run>, runs': seq<Run>, now: int, t: int, i: nat)
    requires StartsLater(runs, runs', t) && now <= t && |runs| == |g.svc| && Sound(g)
    ensures LateCount(g, runs', now) <= LateCount(g, runs, now)
    ensures i < |runs| && Late(g.svc[i], runs[i], now) && !Late(g.svc[i], runs'[i], now) ==>
              LateCount(g, runs', now) < LateCount(g, runs, now)
  {
    forall x | 0 <= x < |runs| && LateFlags(g, runs', now)[x] ensures LateFlags(g, runs, now)[x] {
      assert WellFormed(g.svc[x]);
    }
    CountLess(LateFlags(g, runs, now), LateFlags(g, runs', now), IsSet, i);
  }

  lemma LateFacts(v: Service, r: Run, now: int)
    ensures Late(v, r, now) <==> r.starting && !r.timedOut && now - r.started >= v.startMs
  {
  }

  lemma PipeProcess(g: Graph, s: Services, env: Env, i: nat)
    requires i < |g.svc| && Shaped(g, s)
    requires SvcFine(g.svc[i], s.state[i], s.want[i], s.runs[i], Has(s, i), env.down, false, Rel(env, i)) && !env.down
    ensures s.runs[i].ntfOpen ==> s.runs[i].pid != 0
  {
  }

  lemma PipeKind(v: Service, s: State, want: bool, r: Run, inLive: bool, down: bool, slack: bool, rel: bool)
    requires SvcFine(v, s, want, r, inLive, down, slack, rel) && r.ntfOpen
    ensures v.kind == Daemon
  {
  }

  lemma StartingKind(g: Graph, s: Services, env: Env, i: nat)
    requires i < |g.svc| && Fine(g, s, env, false, -1) && s.runs[i].starting
    ensures g.svc[i].kind != Target
  {
    FineAt(g, s, env, false, i);
  }

  /** A control operation begins or ends. */
  function WithOp(s: Services, i: nat, op: Op, at: int): Services
    requires i < |s.runs| && (s.runs[i].op != NoOp && op == NoOp ==> s.nOps > 0)
  {
    s.(runs := s.runs[i := s.runs[i].(op := op, opAt := at)],
       nOps := if s.runs[i].op == NoOp && op != NoOp then s.nOps + 1
               else if s.runs[i].op != NoOp && op == NoOp then s.nOps - 1 else s.nOps)
  }

  lemma OpFacts(g: Graph, s: Services, env: Env, i: nat, op: Op, at: int, kids: map<nat, nat>)
    requires i < |g.svc| && Fine(g, s, env, false, i) && Counted(s) && PidOk(s.runs, kids)
    ensures s.runs[i].op != NoOp && op == NoOp ==> s.nOps > 0
    ensures var s' := WithOp(s, i, op, at);
            && Fine(g, s', env, false, i) && Counted(s') && PidOk(s'.runs, kids)
            && OnlyRun(s, s', i) && Shrinks(s, s') && Has(s', i) == Has(s, i) && |s'.runs| == |g.svc|
            && s'.runs[i] == s.runs[i].(op := op, opAt := at)
            && s' == s.(runs := s.runs[i := s.runs[i].(op := op, opAt := at)], nOps := s'.nOps)
  {
    var r := s.runs[i].(op := op, opAt := at);
    FineRun(g, s, env, false, i, r);
    PidSame(s.runs, kids, i, r);
    CountUpdate(s.runs, i, r, HasOp);
  }

  /** A service is held, or not held any more. */
  lemma WantFacts(g: Graph, s: Services, env: Env, i: nat, w: bool)
    requires i < |g.svc| && Fine(g, s, env, false, i)
    ensures var s' := s.(want := s.want[i := w]);
            Fine(g, s', env, false, i) && Shrinks(s, s') && Has(s', i) == Has(s, i) && |s'.want| == |g.svc|
  {
    FineChange(g, s, env, false, i, s.state[i], w, s.runs[i]);
    assert s.state == s.state[i := s.state[i]] && s.runs == s.runs[i := s.runs[i]];
  }

  /** The record of a service that is started by hand. */
  function Anew(r: Run): Run {
    r.(attempt := 0, burst := 0, restartAt := 0)
  }

  lemma AnewFacts(r: Run)
    ensures Anew(r).pid == r.pid && Anew(r).stalePid == r.stalePid && Anew(r).op == r.op && Anew(r).restartAt == 0
    ensures Anew(r).starting == r.starting && Anew(r).outOpen == r.outOpen && Anew(r).ntfOpen == r.ntfOpen
  {
  }

  /** The record once its operation is over. */
  function OpOver(r: Run): Run {
    r.(op := NoOp, opAt := 0, opRestart := false)
  }

  /** A service that could not be started by hand is pending, and dropped unless its output is open. */
  lemma NotNowFine(g: Graph, s: Services, env: Env, i: nat)
    requires i < |g.svc| && Fine(g, s, env, false, -1) && !env.down && g.svc[i].kind != Target
    requires s.runs[i].pid == 0 && s.runs[i].stalePid == 0
    ensures var r := OpOver(Anew(s.runs[i]));
            SvcFine(g.svc[i], Pending, false, r, Has(s, i) && Busy(r), env.down, false, false)
  {
    FineAt(g, s, env, false, i);
  }

  /** A service with a process can be let go of. */
  lemma StillThereFine(g: Graph, s: Services, env: Env, i: nat)
    requires i < |g.svc| && Fine(g, s, env, false, -1) && g.svc[i].kind != Target
    requires s.runs[i].pid != 0 || s.runs[i].stalePid != 0
    ensures var r := OpOver(s.runs[i]);
            SvcFine(g.svc[i], s.state[i], false, r, Has(s, i) && Busy(r), env.down, false, Rel(env, i))
  {
    FineAt(g, s, env, false, i);
  }

  /** The end of an operation leaves a held service fine. */
  lemma OpOverFine(g: Graph, s: Services, env: Env, i: nat)
    requires i < |g.svc| && Fine(g, s, env, false, -1)
    ensures var r := OpOver(s.runs[i]);
            SvcFine(g.svc[i], s.state[i], s.want[i], r, Has(s, i) && Busy(r), env.down, false, Rel(env, i))
    ensures g.svc[i].kind == Target ==> s.runs[i].op == NoOp
  {
    FineAt(g, s, env, false, i);
  }

  lemma OpOverIs(r: Run)
    ensures OpOver(r) == r.(op := NoOp, opAt := 0, opRestart := false)
  {
  }

  lemma HasSame(s: Services, s': Services, i: nat)
    requires i < |s.livePos| == |s.live| && s.nLive <= |s.live|
    ensures s'.live == s.live && s'.nLive == s.nLive && s'.livePos == s.livePos ==> Has(s', i) == Has(s, i)
  {
  }

  lemma WantSame(s: Services, s': Services)
    requires s' == s.(want := s'.want)
    ensures Counted(s) ==> Counted(s')
  {
  }

  lemma OpOverOp(r: Run)
    ensures !HasOp(OpOver(r))
  {
  }

  /** The record of a service that is being stopped. */
  function Halted(r: Run, restart: bool): Run {
    r.(restartAt := 0, opRestart := restart)
  }

  /** A service that is being stopped is fine while it has attention. */
  lemma HaltedFacts(g: Graph, s: Services, env: Env, i: nat, restart: bool)
    requires i < |g.svc| && Fine(g, s, env, false, -1) && g.svc[i].kind != Target
    ensures var r := Halted(s.runs[i], restart);
            && r.pid == s.runs[i].pid && r.stalePid == s.runs[i].stalePid && r.op == s.runs[i].op && r.restartAt == 0
            && r.opRestart == restart
            && SvcFine(g.svc[i], s.state[i], true, r, true, env.down, false, Rel(env, i))
  {
    FineAt(g, s, env, false, i);
  }

  lemma OpFine(g: Graph, s: Services, env: Env, i: nat, op: Op, at: int)
    requires i < |g.svc| && Fine(g, s, env, false, -1) && g.svc[i].kind != Target && Has(s, i)
    ensures Fine(g, s, env, false, i)
    ensures SvcFine(g.svc[i], s.state[i], s.want[i], s.runs[i].(op := op, opAt := at), true, env.down, false,
                    Rel(env, i))
  {
    FineAt(g, s, env, false, i);
  }

  lemma OpHas(g: Graph, s: Services, env: Env, i: nat)
    requires i < |g.svc| && Fine(g, s, env, false, -1) && s.runs[i].op != NoOp
    ensures g.svc[i].kind != Target && Has(s, i)
  {
    FineAt(g, s, env, false, i);
  }

  /** A service asked to stop that has not gone is killed once its time is up, and given up on once the
      time after that is up too. */
  ghost predicate Escalated(r: Run, r': Run, now: int, grace: nat) {
    if now < r.opAt then r' == r
    else if r.op == OpTerm then r' == r.(op := OpKill, opAt := now + grace)
    else r' == OpOver(r)
  }

  /** Whether a start by hand has come to an end. */
  predicate StartEnded(s: State, up: bool, r: Run, now: int) {
    (s == Done && up) || s == Failed || s == Skipped || now >= r.opAt
  }

  lemma TickFacts(r: Run, now: int, grace: nat)
    ensures now < r.opAt ==> Escalated(r, r, now, grace)
    ensures now >= r.opAt && r.op == OpTerm ==> Escalated(r, r.(op := OpKill, opAt := now + grace), now, grace)
    ensures now >= r.opAt && r.op == OpKill ==> Escalated(r, OpOver(r), now, grace)
    ensures !HasOp(OpOver(r)) && (HasOp(r) <==> r.op != NoOp)
  {
  }

  /** The pass over the live list gets on: the list is shorter, or is as it was. */
  lemma ShrinksOn(s: Services, s': Services, k: nat)
    requires Shrinks(s, s') && k < s.nLive <= |s.live|
    ensures s'.nLive <= |s'.live| && (s'.nLive < s.nLive || (s'.nLive == s.nLive && s'.live[k] == s.live[k]))
  {
    if s'.nLive == s.nLive {
      assert s'.live[..s.nLive][k] == s.live[..s.nLive][k];
    }
  }

  /** A failed or skipped service that gets another chance. */
  function Revived(s: Services, i: nat): Services
    requires i < |s.state| == |s.runs|
  {
    s.(state := s.state[i := Pending], runs := s.runs[i := s.runs[i].(attempt := 0, burst := 0)],
       nPending := s.nPending + 1)
  }

  lemma RevivedFacts(g: Graph, s: Services, env: Env, i: nat, kids: map<nat, nat>)
    requires i < |g.svc| && Fine(g, s, env, false, -1) && Counted(s) && PidOk(s.runs, kids) && IsBad(s.state[i])
    ensures Fine(g, Revived(s, i), env, false, -1) && Counted(Revived(s, i)) && PidOk(Revived(s, i).runs, kids)
    ensures Revived(s, i).state == s.state[i := Pending]
    ensures Revived(s, i).want == s.want && |Revived(s, i).runs| == |s.runs|
  {
    hide AllFine, PidOk, Count;
    var r := s.runs[i].(attempt := 0, burst := 0);
    FineAt(g, s, env, false, i);
    FineChange(g, s, env, false, i, Pending, s.want[i], r);
    assert s.want == s.want[i := s.want[i]];
    PidSame(s.runs, kids, i, r);
    CountUpdate(s.runs, i, r, HasOp);
    StateChange(s.state, i, Pending);
    FineNow(g, Revived(s, i), env, i);
  }

  /** Every failed or skipped service among the first k is pending again, and nothing else changed. */
  ghost predicate RevivedTo(state: seq<State>, state': seq<State>, k: nat) {
    && |state| == |state'|
    && forall x :: 0 <= x < |state| ==> state'[x] == if x < k && IsBad(state[x]) then Pending else state[x]
  }

  lemma RevivedStep(state: seq<State>, state': seq<State>, k: nat)
    requires RevivedTo(state, state', k) && k < |state|
    ensures IsBad(state'[k]) <==> IsBad(state[k])
    ensures IsBad(state[k]) ==> RevivedTo(state, state'[k := Pending], k + 1)
    ensures !IsBad(state[k]) ==> RevivedTo(state, state', k + 1)
    ensures Count(state[..k + 1], IsBad) == Count(state[..k], IsBad) + (if IsBad(state[k]) then 1 else 0)
  {
    assert state[..k + 1][..k] == state[..k];
  }

  lemma RevivedEnds(state: seq<State>, state': seq<State>)
    requires RevivedTo(state, state', |state|)
    ensures Count(state', IsBad) == 0 && state[..|state|] == state
    ensures Count(state, IsBad) == 0 ==> state' == state
  {
    CountNone(state', IsBad);
    if Count(state, IsBad) == 0 {
      forall x | 0 <= x < |state| ensures !IsBad(state[x]) {
        if IsBad(state[x]) {
          CountPositive(state, x, IsBad);
        }
      }
    }
  }

  lemma RevivedStarts(state: seq<State>)
    ensures RevivedTo(state, state, 0) && Count(state[..0], IsBad) == 0
  {
  }

  lemma IsBadFacts(s: State)
    ensures IsBad(s) <==> s == Failed || s == Skipped
  {
  }

  // ---------------------------------------------------------------- boot

  function BootServices(g: Graph): Services {
    var n := |g.svc|;
    var zero := seq(n, _ => 0);
    Services(seq(n, _ => Pending), seq(n, _ => false), seq(n, _ => IdleRun), zero, 0, zero, 0, 0, n, 0, g.roots)
  }

  lemma BootFine(g: Graph, env: Env)
    requires forall i :: !Rel(env, i)
    ensures var s := BootServices(g);
            && Fine(g, s, env, false, -1) && Counted(s) && PidOk(s.runs, map[])
            && forall x :: 0 <= x < |g.svc| ==> s.state[x] == Pending
  {
    var s := BootServices(g);
    CountNone(s.state, IsRunning);
    CountNone(s.state, IsDone);
    CountAll(s.state, IsPending);
    CountNone(s.runs, HasOp);
  }

  /** The roots from i on have not been touched. */
  ghost predicate RootsWait(s: Services, i: nat) {
    s.roots <= |s.state| && forall x :: i <= x < s.roots ==> s.state[x] == Pending
  }

  lemma RootsStill(s: Services, s': Services, i: nat)
    requires RootsWait(s, i) && SameTo(i, s, s')
    ensures RootsWait(s', i + 1)
  {
  }

  lemma RootWaits(s: Services, i: nat)
    requires RootsWait(s, i) && i < s.roots
    ensures i < |s.state| && s.state[i] == Pending
  {
  }

  lemma BootWaits(g: Graph)
    requires g.roots <= |g.svc|
    ensures RootsWait(BootServices(g), 0) && BootServices(g).roots == g.roots
  {
  }

  /** Once shutdown has begun less is asked of the pipes. */
  lemma DownFine(g: Graph, s: Services, env: Env)
    requires Fine(g, s, env, false, -1)
    ensures Fine(g, s, env.(down := true), false, -1)
  {
    forall i | 0 <= i < |s.state| ensures FineOne(g, s, env.(down := true), false, i) {
      assert FineOne(g, s, env, false, i);
    }
  }

  lemma PipeOfProcess(g: Graph, s: Services, env: Env, i: nat)
    requires i < |g.svc| && Fine(g, s, env, false, -1) && s.runs[i].ntfOpen && !env.down
    ensures s.runs[i].pid != 0
  {
    FineAt(g, s, env, false, i);
  }

  /** Service i changed in two steps. */
  lemma InTwo(s: Services, s': Services, s'': Services, i: nat, t: int, c: bool)
    requires SameTo(i, s, s') && SameTo(i, s', s'')
    requires StartsLater(s.runs, s'.runs, t) && StartsLater(s'.runs, s''.runs, t)
    requires RestartsLater(s.runs, s'.runs, t) && RestartsLater(s'.runs, s''.runs, t)
    requires (c ==> Shrinks(s, s') && Shrinks(s', s''))
    ensures SameTo(i, s, s'') && StartsLater(s.runs, s''.runs, t)
    ensures RestartsLater(s.runs, s''.runs, t) && (c ==> Shrinks(s, s''))
  {
  }

  /** Service i changed in two steps, the second one at time t' or later. */
  lemma InTurn(s: Services, s': Services, s'': Services, i: nat, t: int, t': int)
    requires SameTo(i, s, s') && SameTo(i, s', s'') && StartsLater(s.runs, s'.runs, t)
    requires StartsLater(s'.runs, s''.runs, t') && t <= t'
    ensures SameTo(i, s, s'') && StartsLater(s.runs, s''.runs, t)
  {
  }

  /** A launch of i that the kernel refused, and what was made of it. */
  lemma AfterRefusal(s: Services, s': Services, s'': Services, i: nat, t: int, t': int, c: bool)
    requires |s.state| == |s.runs| && OnlyRun(s, s', i) && SameTo(i, s', s'')
    requires t <= t' && RestartsLater(s.runs, s'.runs, t)
    requires StartsLater(s'.runs, s''.runs, t') && !s''.runs[i].starting && RestartsLater(s'.runs, s''.runs, t')
    requires c ==> Shrinks(s, s') && Shrinks(s', s'')
    ensures SameTo(i, s, s'') && StartsLater(s.runs, s''.runs, t)
    ensures RestartsLater(s.runs, s''.runs, t) && (c ==> Shrinks(s, s''))
  {
    LaunchFailed(s, s', s'', i, t, t');
    RestartsLaterTwice(s.runs, s'.runs, s''.runs, t, t');
    ShrinksWhen(s, s', s'', c);
  }

  /** Releases that are taken back disturb nothing. */
  lemma FineLess(g: Graph, s: Services, env: Env, env': Env, slack: bool, except: int)
    requires Fine(g, s, env, slack, except) && env'.down == env.down
    requires forall i: nat :: Rel(env', i) ==> Rel(env, i)
    ensures Fine(g, s, env', slack, except)
  {
    forall i | 0 <= i < |s.state| && i != except ensures FineOne(g, s, env', slack, i) {
      assert FineOne(g, s, env, slack, i);
    }
  }

  lemma RelLess(was: seq<bool>, released: seq<bool>, down: bool)
    requires |was| == |released| && forall x :: 0 <= x < |was| && released[x] ==> was[x]
    ensures forall i: nat :: Rel(Env(down, released), i) ==> Rel(Env(down, was), i)
  {
  }

  lemma RelIs(released: seq<bool>, down: bool, i: nat)
    ensures Rel(Env(down, released), i) <==> i < |released| && released[i]
  {
  }

  /** A target, or a service that is done, may be released. */
  lemma FineReleased(g: Graph, s: Services, env: Env, d: nat)
    requires d < |g.svc| == |env.released| && Fine(g, s, env, false, -1)
    requires (g.svc[d].kind == Target || s.state[d] == Done)
    ensures Fine(g, s, env.(released := env.released[d := true]), false, -1)
  {
    var env' := env.(released := env.released[d := true]);
    forall i | 0 <= i < |s.state| ensures FineOne(g, s, env', false, i) {
      assert FineOne(g, s, env, false, i);
    }
  }

  /** What is fine without a release is fine with one that only orders. */
  lemma OrderedFine(v: Service, s: State, want: bool, r: Run, inLive: bool, down: bool, rel: bool)
    requires SvcFine(v, s, want, r, inLive, down, false, false) && (rel ==> v.orderOnly)
    ensures SvcFine(v, s, want, r, inLive, down, false, rel)
  {
  }

  /** A pending service that is still released, and not only to order others, has another try. */
  lemma HasAnother(g: Graph, s: Services, env: Env, i: nat)
    requires i < |g.svc| && Fine(g, s, env, false, -1) && s.state[i] == Pending && g.svc[i].kind != Target
    ensures Rel(env, i) && !g.svc[i].orderOnly ==> s.runs[i].attempt == 0 && g.svc[i].startTries >= 2
  {
    FineAt(g, s, env, false, i);
  }
}
