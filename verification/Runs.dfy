/** What the supervisor keeps for each service while it runs. */
module Runs {

  datatype State = Pending | Running | Done | Failed | Skipped

  predicate IsPending(s: State) { s == Pending }
  predicate IsRunning(s: State) { s == Running }
  predicate IsDone(s: State) { s == Done }
  predicate IsBad(s: State) { s == Failed || s == Skipped }

  /** A control operation in progress on a service. */
  datatype Op = NoOp | OpTerm | OpKill | OpStart

  /** The process, pipes and deadlines of a service. No process and no deadline are 0. */
  datatype Run = Run(
    pid: nat, stalePid: nat, outOpen: bool, ntfOpen: bool, ntfExec: bool,
    restartAt: int, burst: nat, staleHold: bool, attempt: nat,
    hup: bool, timedOut: bool, starting: bool, started: int,
    op: Op, opRestart: bool, opAt: int)

  const IdleRun := Run(0, 0, false, false, false, 0, 0, false, 0, false, false, false, 0, NoOp, false, 0)

  predicate HasOp(r: Run) { r.op != NoOp }

  predicate IsSet(b: bool) { b }

  /** A service with a process, a deadline, an operation or an open pipe. */
  predicate Busy(r: Run) {
    r.pid != 0 || r.stalePid != 0 || r.restartAt != 0 || r.op != NoOp || r.outOpen || r.ntfOpen
  }
}
