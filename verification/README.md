# ninit, verified

ninit is a PID 1. `ninitctl` compiles a directory of services into a dependency graph; ninit loads the
graph, starts the services in dependency order, supervises them as a state machine driven by child exits,
pipe events, deadlines and control commands, and stops them in reverse order at shutdown. This project
models that machinery in Dafny and proves what it promises. `dafny verify dfyconfig.toml` checks it.

## The parts

- `Graphs.dfy` is the compiled graph: services and edges in rows. `Ledger.dfy` ties every counter of unmet
  prerequisites to what each edge still owes it.
- `Readiness.dfy`, `Withdrawal.dfy`, `Poison.dfy`, `Services.dfy`, `Launch.dfy`, `PidTable.dfy` and `Engine.dfy`
  are the supervisor. `Engines.Engine` holds its globals, grouped by the invariants that govern them: `rd` (who
  is up, released, queued, and what is unmet), `sv` (states, holds, records, the live list, the counters), the
  process table and the kernel's view of the children. Every method keeps the invariant `Inv()`, in the
  middle of a drain too. `Engines.Engine.Run` boots a graph and takes any sequence of events.
- `Quiescence.dfy` says what the invariant means for the dependency counters.
- `Transpose.dfy` and `Stop.dfy` are the ordered shutdown.
- `LogRing.dfy`, `LogRepeat.dfy`, `LogText.dfy` and `Log.dfy` are the log: a byte ring of whole lines, and the
  counting of repeated blocks of lines.
- `Link.dfy`, `EdgeList.dfy`, `Visit.dfy`, `Heap.dfy`, `Schedule.dfy` and `Compile.dfy` are the graph compiler:
  names become edges, edges an order. `Descend.dfy` counts dependents. `Blob.dfy` is the string table,
  `Parsed.dfy` what is written into it, `Word.dfy` and `ImageFile.dfy` are the bytes of a graph file, `Build.dfy`
  and `Make.dfy` the image builder, `Argv.dfy`, `NameTable.dfy` and `Verify.dfy` the image verifier.
- `System.dfy` puts the builder and the supervisor together.
- `Lua.dfy` says what stripping a Lua script means, `LuaStripper.dfy` does it in place.

## Main results

- Every launch in every run is safe (`Run`): each uptime prerequisite is up, each order-only one has been
  ready, the service is not held, shutdown has not begun, and no earlier instance is unreaped.
- A counter of unmet prerequisites is, at every moment, the number of prerequisites that are not released or
  whose release is still queued (`UnmetCountsOnce`), and every step of a drain says so
  (`Engines.Engine.HandOut`). No prerequisite is both: while the queue is drained nothing is taken back. A
  launch on the way may fail for good, but a service that still is released at that point has at least two
  tries and has just been given all of them back.
- Between events an uptime target is up exactly when it waits for nothing, an uptime service is up
  exactly when it is released, and an order-only service stays released from when it was first ready.
- One forward pass finds exactly the services a failure reaches (`Poison.Spread`, `HitIffChain`).
- In an ordered shutdown SIGTERM reaches a service only after everything that depends on it, directly or
  not, has gone (`Stops.Orderly`).
- The log loses nothing, whatever is logged and however time passes: the bytes logged are exactly those of its
  output, and if before every step the block that repeats is 16 lines away from being overwritten, its lines
  fit with any prefix and its count does not wrap, the output, the open count and the held lines tell exactly
  what came in (`Logs.Log.Run`).
- From the service files on (`Makers.MakeImage`): a reference that names no other service is reported, a
  circle is reported and is one, a service told to only warn while another waits for it is reported, and there
  is no other outcome but a file. The verifier accepts that file, so the internal error for a built graph that
  fails verification is unreachable. Read back, the file holds every string and every argument list of every
  service, exactly the edges the files ask for, and the exact number of dependents. Whatever file the
  verifier accepts holds a valid graph (`Files.VerifyFile`).
- Put together (`Systems.BuildAndRun`): nothing but a fault in the service files keeps them from being run, and
  in every run a service is launched only when everything the files say it needs is up, or has been ready if
  it only orders its dependents.
- Stripping a Lua script changes no token, no line number and nothing about which tokens touch, but for one
  arrangement of carriage returns (`LuaStripper.StripScript`). The code loses a line exactly if the stripper,
  having written a newline and not given up since, comes to the end of a line on which it has written nothing,
  that line ends in `\r\n`, a lone `\r` follows, and the first of the three does not belong to a newline
  before it (`LuaStrip.Trap`): it writes the three right after the newline it had written, which takes in the
  first `\r`. The tokens then differ exactly if one follows (`LuaStrip.Shifts`). `LuaStrip.TrapExample` is such
  a script.

`up` does not imply a state of DONE or RUNNING, and RUNNING does not imply a process or a deadline; the
invariant does not claim either. Where the code and its comments differ nothing is claimed beyond the
code.

## Model

| member | source | states |
|---|---|---|
| `PidTables.PidTable.constructor` | src/ninit.c:128-141 | the table starts empty; its size is the first power of two, from 64, that is at least four times the services |
| `PidTables.PidTable.Probe` | src/pidmap.c:86-98 | probing stops at the slot of the key, or at the empty slot where it belongs, and at the former exactly if the key is in the map |
| `PidTables.PidTable.Put` | src/pidmap.c:16-31 | the table as a finite map gains exactly this entry |
| `PidTables.PidTable.Delete` | src/pidmap.c:33-68 | the map loses exactly the given key; every other key stays findable |
| `PidTables.PidTable.ShiftBack` | src/pidmap.c:50-67 | backward shift closes the hole across wraparound and keeps the map, given one other empty slot |
| `PidTables.PidTable.Lookup` | src/pidmap.c:86-98 | lookup agrees with the map |
| `PidTables.ProbeMiss` | src/pidmap.c:86-98 | a probe that meets an empty slot proves that the key is nowhere in the table |
| `PidTables.CloseHole` | src/pidmap.c:52-56 | once the scan meets an empty slot no probe depends on the hole |
| `PidTables.ShiftKeeps` | src/pidmap.c:64-66 | moving one entry back into the hole keeps the map and every other probe |
| `Services.LiveAddKeeps` | src/pidmap.c:70-77 | adding to the live list keeps list and positions in step; the list never outgrows its array |
| `Services.LiveDelKeeps` | src/pidmap.c:79-84 | removing by swapping the last one in removes exactly one service |
| `Services.FewChildren` | src/pidmap.c:86-115 | there are never more unreaped children than services |
| `Services.ScanFinds` | src/pidmap.c:100-115 | the scan of the live list finds every recorded process, so it agrees with the table |
| `Engines.Engine.FindPid` | src/pidmap.c:86-115 | table or scan, the answer is the service and instance the child belongs to, or none exactly if it is unknown |
| `Ledgers.HandOutKeeps` | src/state.c:158-163 | handing out a queued release lowers one counter, which is not zero |
| `Ledgers.WithdrawKeeps` | src/state.c:205-214 | taking a release back makes exactly its edges owed again |
| `Ledgers.MetMeansReleased` | src/state.c:79-82 | a counter at zero means every prerequisite is released and handed out |
| `Withdrawals.TakingEnds` | src/state.c:196-228 | the work list takes back exactly the releases that rest on the service, through uptime targets |
| `Engines.Engine.Reclaim` | src/state.c:196-228 | afterwards a service is released exactly if it was and does not fall with i; the work list never outgrows its array |
| `Engines.Engine.GoDown` | src/state.c:230-237 | the service is down, order-only ones stay released, and everything else as for reclaim |
| `Engines.Engine.SetUp` | src/state.c:127-138 | the count of services that are up stays exact |
| `Engines.Engine.MarkDone` | src/state.c:98-110 | a service becomes done and the three state counters stay exact |
| `Engines.Engine.MarkPending` | src/state.c:112-125 | a service becomes pending and the three state counters stay exact |
| `Engines.Engine.HandOut` | src/state.c:159-188 | one edge of a drain: a target that waited for nothing else is up, released and last in the queue, a pending service that waited for nothing else is launched, a done one that is down and may be restarted has a deadline, and but for the target no release changes; afterwards every counter counts each prerequisite once |
| `Engines.Engine.DrainRow` | src/state.c:156-189 | all dependents of one service get its release, in order, and none loses its own |
| `Engines.Engine.Drain` | src/state.c:154-193 | the queue empties, every service is in it at most once, nothing released is taken back, and services before the releasing one are untouched |
| `Engines.Engine.Release` | src/state.c:140-194 | the service is up and released; inside a drain it waits in the queue |
| `Engines.Engine.Complete` | src/state.c:239-243 | the service is done, up and released, and its dependents were told |
| `Engines.Engine.SkippedNote` | src/state.c:245-271 | skipped services lose their deadlines while the live list shrinks, and the counters are exact again |
| `Engines.Engine.Poison` | src/state.c:273-285 | after a failure exactly the services it reaches are skipped, the service is down and failed |
| `Engines.Engine.PoisonDeps` | src/state.c:288-297 | for a done service that is gone: if it can take a direct dependent, exactly the services its end reaches are skipped; an order-only one skips none |
| `Poison.Spread` | src/fail.c:147-179 | one forward pass marks exactly the takeable services that depend on a seed through takeable services, and counts them by what they were |
| `Poison.FailPoison` | src/fail.c:182-189 | the seeds are the failed and skipped services from the failed one on; nothing before it changes |
| `Poison.FailPoisonDeps` | src/fail.c:191-221 | the pass runs exactly if a direct dependent is taken |
| `Poison.HitIffChain` | src/fail.c:134-179 | the least fixpoint the pass computes is reachability along a chain of takeable services |
| `Engines.Engine.CheckTimeouts` | src/signals.c:109-151 | terminates although services come and go on the live list; no start becomes late, and if one on the list is late there are fewer late ones afterwards |
| `Engines.Engine.Expire` | src/signals.c:130-147 | a start that took too long is tried again later, or the service has failed and is down; one that had been ready before is down, and restarted if it may be, or exactly the services its end reaches are skipped |
| `Engines.Engine.Launch` | src/spawn.c:284-363 | records a launch whose circumstances are safe; a child is entered in the table, or nothing but flags changed |
| `Launches.LaunchIsSafe` | src/state.c:55-84 | the conditions for a start imply that every uptime prerequisite is up and every order-only one was ready |
| `Engines.Engine.Spawn` | src/spawn.c:365-378 | the service is starting with a process or waiting for its next attempt, or has failed for good |
| `Engines.Engine.TryStart` | src/state.c:86-96 | starts a service exactly if it may start |
| `Engines.Engine.ServiceFailed` | src/reap.c:45-79 | a failed start drops its process and pipes, counts the attempt and is retried after the right delay, or poisons |
| `Engines.Engine.RestartSchedule` | src/reap.c:88-125 | the restart waits for its backoff step; an instance that was up long enough starts over |
| `Engines.Engine.StartFailed` | src/reap.c:127-149 | a failed start is tried again later, or the service has failed and is down; one that had been ready before is down and restarted, or exactly the services its end reaches are skipped |
| `Engines.Engine.FireRestart` | src/reap.c:151-189 | a due deadline leads to a launch if one is possible, to failure if an old process will not go away, and is never due again at this time |
| `Engines.Engine.FireRestarts` | src/reap.c:191-208 | terminates although services come and go on the live list |
| `Services.DueDrops` | src/reap.c:191-208 | each pass step lowers the number of due restarts or moves on |
| `Services.LateDrops` | src/signals.c:109-151 | each late start that is dealt with lowers the number of late starts |
| `Engines.Engine.ChildExited` | src/reap.c:215-315 | what an exit means: held, completed, restarted, gone with exactly the services its end reaches, retried or failed, by state, type, status and attempts; a report still in the notify pipe counts first |
| `Engines.Engine.ExitHeld` | src/reap.c:229-248 | a held service that stopped is down, has no deadline, and is pending if it was starting |
| `Engines.Engine.ExitDone` | src/reap.c:250-282 | a done service whose process ended is down and restarted after its delay, or exactly the services its end reaches are skipped |
| `Engines.Engine.StaleReaped` | src/reap.c:318-333 | an abandoned process leaves the table; a start it alone held up comes after the retry delay |
| `Engines.Engine.Reap` | src/reap.c:335-375 | an unknown child changes nothing; a known process is an exit of its service, with the same outcome, and a stale one is forgotten, which moves up a start it alone held up |
| `Engines.Engine.DrainNotify` | src/drain.c:145-190 | while a report counts, a newline makes the service ready, a hangup before it is noted, and anything else leaves the service as it was; otherwise its state stays |
| `Engines.Engine.DrainExec` | src/drain.c:192-219 | the exec pipe closing empty makes a starting daemon ready; data in it only closes the pipe |
| `Engines.Engine.MaybeFree` | src/drain.c:34-42 | drops a service from the live list exactly if nothing about it needs attention |
| `Engines.Engine.OpSet` | src/command.c:34-45 | the number of operations in progress stays exact |
| `Engines.Engine.OpDone` | src/command.c:47-59 | the operation is over and the service is dropped if it needs nothing else |
| `Engines.Engine.StartByHand` | src/command.c:61-92 | launches exactly if nothing of the service is left and it waits for nothing; otherwise it is pending and down, or still there |
| `Engines.Engine.StopByHand` | src/command.c:94-118 | holds the service and cancels its restart; a process is asked to end, otherwise the service is down |
| `Engines.Engine.TickStop` | src/command.c:128-184 | SIGTERM escalates to SIGKILL and then to giving up as deadlines pass; once all is gone the service is down |
| `Engines.Engine.CtlTick` | src/command.c:120-204 | terminates while ended operations swap services in the live list; does nothing without operations |
| `Engines.Engine.ReviveAll` | src/command.c:209-219 | exactly the failed and skipped services are pending again, and they are counted |
| `Engines.Engine.Wake` | src/command.c:226-240 | a pending target that waits for nothing is up, a pending service that may start is launched, and nothing before it changes |
| `Engines.Engine.Resume` | src/command.c:206-244 | counts the failed and skipped services exactly; if there were any, no service is left pending that could start, and no target that waits for nothing |
| `Engines.Engine.Control` | src/command.c:320-371 | a request is refused during shutdown, for an unknown name, a target or a busy service, and then changes nothing |
| `Engines.Engine.StartGraph` | src/ninit.c:112-163 | the roots are still pending when their turn comes, and the invariant holds with all of them started |
| `Readiness.BootConsistent` | src/ninit.c:112-153 | the initial counters are the in-degrees and owe one unit per edge |
| `Engines.Engine.Dispatch` | src/ninit.c:279-283 | every event keeps the invariant; order-only releases are never taken back; nothing is launched during shutdown |
| `Engines.Engine.Run` | src/ninit.c:254-283 | after any sequence of events every launch was safe, readiness is settled, counters are exact, children are the recorded processes and the table is at most a quarter full |
| `Quiescence.UnmetCounts` | src/state.c:140-228 | a counter is the number of unreleased prerequisites plus the number of queued releases, mid-drain included |
| `Quiescence.UnmetCountsOnce` | src/state.c:140-228 | the same with each prerequisite counted once, in every state: none is both unreleased and queued |
| `Quiescence.QueuedIsReleased` | src/state.c:196-228 | a service whose release is queued is released: nothing is taken back during a drain |
| `Quiescence.QueuedEdges` | src/state.c:150-190 | the queued releases are those of the services still in the queue and the rest of the row being handed out |
| `Quiescence.QuiescentWhenDrained` | src/state.c:140-243 | the settled meaning of up, released and unmet between events |
| `Quiescence.OrderKept` | src/state.c:196-203 | the release of an order-only service is never cleared |
| `Transposes.BuildPrereqs` | src/stop.c:137-178 | the counting sort lists the prerequisites of every service, each edge once and in order |
| `Transposes.EdgesIntoAll` | src/stop.c:165-171 | every edge into a service is in its list, once |
| `Stops.WaitExact` | src/stop.c:209-210 | a wait counter is the number of direct dependents that have not settled |
| `Stops.PathSettled` | src/stop.c:264-276 | if the direct dependents have settled, all have |
| `Stops.NoDeadlock` | src/stop.c:230-257 | as long as a service is open, one is not held back |
| `Stops.AskKeeps` | src/stop.c:235-244 | SIGTERM is sent once, after everything that depends on the service has settled |
| `Stops.KillKeeps` | src/stop.c:246-251 | SIGKILL is sent once, after SIGTERM and not before the stop timeout |
| `Stops.Stopper.SignalPass` | src/stop.c:228-257 | after the pass every service that nothing holds back was asked or has gone, nobody's time is up, and the next wake-up is early enough |
| `Stops.Stopper.Settle` | src/stop.c:269-275 | one more service has settled and its prerequisites wait for one less |
| `Stops.Stopper.SettlePass` | src/stop.c:264-276 | exactly services that were seen to have gone settle |
| `Stops.Stopper.Run` | src/stop.c:180-309 | the whole protocol is orderly; wait counters and the number left are exact; nothing is signalled if nothing runs |
| `LogRings.Ring.Eol` | src/logging.c:83-100 | finds the end of the line across the end of the buffer |
| `LogRings.Ring.Put` | src/logging.c:102-119 | the ring holds the longest suffix of whole lines that fits |
| `LogRings.Ring.Get` | src/logging.c:121-130 | returns the bytes that were logged, as long as they are in the ring |
| `LogRings.Reader.Next` | src/logging.c:332-356 | a reader gets each line once and in order, or the exact number of bytes it lost, and goes on at a line start |
| `LogRings.TilesMore` | src/logging.c:332-356 | what a reader got stays true as more is logged |
| `Repeats.HoldKeeps` | src/logging.c:639-642 | holding the next line of the block loses nothing |
| `Repeats.CompleteKeeps` | src/logging.c:644-649 | counting a full repetition loses nothing but the times from the second one on |
| `Repeats.NoticeKeeps` | src/logging.c:496-512 | a notice stands for the counted repetitions |
| `Repeats.SingleKeeps` | src/logging.c:487-494 | a single repetition is printed as it came in, and the same block is last again |
| `Repeats.BreakKeeps` | src/logging.c:514-524 | the held lines are printed as they came in |
| `Logs.Log.Emit` | src/logging.c:428-436 | the log gains exactly the text of the line, which is remembered by its place in the ring |
| `Logs.Log.PrintAgain` | src/logging.c:442-461 | the line of before is printed again under its own arrival time, if it is still in the ring and fits |
| `Logs.Log.SeenIs` | src/logging.c:423-426 | a match means equal bytes, not only equal hashes |
| `Logs.Log.RepFind` | src/logging.c:541-553 | finds the shortest block the line would repeat: the last line, or a longer block printed twice |
| `Logs.Log.RepKey` | src/logging.c:463-479 | the tag of a notice is the worst one in its block, and the console is left out if the whole block left it out |
| `Logs.Log.Flush` | src/logging.c:482-512 | brings the open count into the output, several as a notice with the worst tag of the block and the time of the last repetition, and keeps the block |
| `Logs.Log.Break` | src/logging.c:514-524 | the output gains the open count and after it the held lines, as they came in, and nothing repeats any more |
| `Logs.Log.Tick` | src/logging.c:570-589 | held lines and counts come out when they are due, and nothing else happens |
| `Logs.Log.Write` | src/logging.c:591-650 | without an open repetition the line is held if it repeats a block and printed if not; with one it is held if it is the next line of the block, and otherwise the repetition is broken first; nothing is lost given the margin, the fit and the 32-bit count |
| `Logs.Log.Run` | src/logging.c:570-650 | over any sequence of lines and ticks: the bytes logged are those of the output, and nothing is lost if the margin, the fit and the count held in the state before every step |
| `Logs.Log.MarginKeeps` | src/logging.c:442-524 | a block at least 16 lines from being overwritten can be printed again in full |
| `Visits.Search.Step` | ctl/graph.c:85-118 | one step along an edge or down the stack keeps the search sound and comes closer to its end, or closes a cycle |
| `Visits.Search.Run` | ctl/graph.c:305-307 | a cycle is reported exactly if one exists, it is a real one, and otherwise every height is the longest chain of dependents |
| `Visits.GrayCloses` | ctl/graph.c:56-73 | the path printed from the stack is a real cycle |
| `Visits.StackFits` | ctl/graph.c:75-119 | the stack never holds more than all services |
| `Visits.TightIsLongest` | ctl/graph.c:108-116 | one past the tallest dependent is the longest chain |
| `Heaps.Ready.Push` | ctl/graph.c:140-158 | the queue gains exactly this service and stays a heap |
| `Heaps.Ready.Pop` | ctl/graph.c:160-187 | removes and returns the most urgent service |
| `Schedules.Schedule` | ctl/graph.c:189-218 | places everything, each time the most urgent ready service; the internal error is unreachable |
| `Schedules.GreedyForward` | ctl/graph.c:189-218 | nobody is placed twice and every edge runs forward |
| `Schedules.GreedyUnique` | ctl/graph.c:121-138 | the order is determined by the graph |
| `EdgeLists.Dedup` | ctl/graph.c:267-274 | leaves exactly the different edges, sorted, in place |
| `EdgeLists.BuildRows` | ctl/graph.c:276-303 | offsets, rows and in-degrees of the sorted edges |
| `Compiles.RootsAre` | ctl/graph.c:327-329 | the roots are exactly the first services of the order |
| `Compiles.RenamedDegree` | ctl/graph.c:331-338 | renaming keeps the number of prerequisites |
| `Links.Lookup` | ctl/graph.c:33-54 | bisection finds a service of this name exactly if there is one |
| `Links.LinkNames` | ctl/graph.c:220-265 | a reference to nothing or to the service itself, or exactly the edges that the files ask for on either side |
| `Compiles.Compile` | ctl/graph.c:220-342 | a real cycle, or a valid graph with the same services and edges, and then there is no cycle |
| `Descents.Collect` | ctl/image.c:64-79 | the sets are exactly the transitive dependents |
| `Descents.CountsFit` | ctl/image.c:64-88 | exact counts satisfy what the verifier asks of them |
| `Blobs.Blob.Add` | ctl/image.c:17-30 | the table gains the string and its NUL at the place that is returned |
| `Blobs.StrAt` | ctl/image.c:17-30 | a string put in is read back |
| `Blobs.ListAt` | ctl/image.c:120-141 | a list of words put in, and ended by an empty string, is read back word by word |
| `Parsed.RecReads` | ctl/image.c:105-141 | strings put in for a service are read back through its record, and the record passes the verifier |
| `Builders.AddService` | ctl/image.c:105-141 | the string table gains exactly the strings of the service, and the record points to them |
| `Builders.File` | ctl/image.c:81-142 | stops exactly at a service whose policy does not fit; otherwise every record points to the strings of its service, and the string table and its memory fit 32 bits |
| `Builders.FiledIsAccepted` | ctl/image.c:81-142 | the tables built for a graph hold it with exact counts, lead back to every string, and are accepted |
| `Builders.FiledFits` | src/ngraph.h:92-128 | every number of a built image fits the bits it has, and the file is below 2^32 bytes |
| `Files.RecRound` | src/ngraph.h:110-128 | a record whose fields fit their bits is read back from its two entries |
| `Files.WriteFile` | ctl/image.c:144-180 | the file holds the image: loading it gives the same tables and strings; the verifier accepts the file exactly if it accepts the tables |
| `Makers.MakeImage` | ctl/image.c:31-187 | a fault of the files, named, or an accepted file that leads back to all of them; the internal error is unreachable |
| `Makers.ClashIff` | ctl/image.c:90-99 | the builder refuses a service exactly if it is told to only warn and another waits for it |
| `Systems.Boot` | src/ninit.c:165-256 | a supervisor runs exactly if the verifier accepts the file or the one before it, on the graph of the first that is accepted |
| `Systems.BuildAndRun` | src/ninit.c:249-283 | a set of service files is run unless it is at fault, and every service is launched in the order the files ask for |
| `Argvs.CheckList` | src/ngraph.c:485-498 | accepts exactly the lists that end inside the table, with few and short strings |
| `Argvs.ExecOk` | src/ngraph.c:468-507 | accepts exactly the two lists around a script that fit |
| `Argvs.DirectOk` | src/ngraph.c:510-547 | accepts exactly the command lists that fit |
| `Argvs.InterpArgv` | src/spawn.c:191-207 | the walk stays inside the string table and fills at most 18 places with exactly these arguments |
| `Argvs.DirectArgv` | src/spawn.c:208-217 | the same for a direct command |
| `NameTables.UniqueNames` | src/ngraph.c:836-855 | finds two equal names exactly if there are some |
| `Files.SpansDisjoint` | src/ngraph.c:430-449 | answers whether no byte belongs to two of the spans |
| `Files.CheckHeader` | src/ngraph.c:567-643 | magic, version, length, counts, and five aligned sections inside the file that share no byte with each other or the header |
| `Files.VerifyFile` | src/ngraph.c:559-866 | accepts exactly the files with a fine header, sections in range and apart, the right checksum and fine tables; whatever it accepts is a valid graph |
| `Verifiers.Verify` | src/ngraph.c:649-866 | accepts exactly the images whose tables are fine, and whatever it accepts is a valid graph |
| `Verifiers.AcceptedIsValid` | src/ngraph.c:655-835 | an accepted image is a forward-ordered graph with sorted unique edges, exact counters and the roots first |
| `LuaStrip.SameTokens` | ctl/parser/lua.c:75-195 | the tokens, their lines and which of them touch stay the same exactly if no token follows the trap |
| `LuaStrip.SameLines` | ctl/parser/lua.c:75-195 | the script ends as many lines as before, or exactly one less if the trap is in it |
| `LuaStrip.NoLonger` | ctl/parser/lua.c:75-195 | the text gets no longer, but for one blank that is due or that keeps a carriage return from a newline |
| `LuaStrip.TrapExample` | ctl/parser/lua.c:104-121 | a script with the trap in it: its word is on line 4 and, stripped, on line 3 |
| `LuaStrip.Idempotent` | ctl/parser/lua.c:75-195 | stripping again changes nothing |
| `LuaStripper.LuaSep` | ctl/parser/lua.c:17-25 | one more than the level at which a long bracket opens, or 0 |
| `LuaStripper.LuaClose` | ctl/parser/lua.c:28-46 | the first long bracket of the level that closes |
| `LuaStripper.LuaStr` | ctl/parser/lua.c:48-73 | the end of a quoted string with its escapes, line breaks of two characters and carriage returns included |
| `LuaStripper.StripInPlace` | ctl/parser/lua.c:77-195 | writes the stripped text in place, never past what has been read |
| `LuaStripper.StripScript` | ctl/parser/lua.c:76-195 | the result is stable; its tokens, lines and separation are the same exactly if no token follows the trap, and the number of lines is the same exactly if the trap is not in the script |

## Left out

- The kernel: fork, exec, pipes, signals, cgroups, poll and the clock are nondeterministic. Fork never returns the number of a child that ninit still records. Whether a cgroup is populated is unknown, so a service without a process may or may not count as gone.
- Exit statuses are reduced to "exited with 0" and everything else; the texts of log messages, the output of services and the tail that is kept of it are not modelled.
- The emergency shell, the console, terminal and mount handling, `ninitctl` as a client, and the connections of the control socket (only the commands they carry).
- Aliasing: the supervisor's arrays are sequences inside the records of `Engines.Engine`, so no claim is made about two of them overlapping. The process table, the ring, the heap, the edge arrays, the string table and the Lua buffer are arrays.
- Liveness of starts: a start refused because of an old process is not retried when that process is reaped, so no claim is made that every startable service is started, but after `resume`.
- Engines.Engine.DrainNotify: the failure branch for a pipe that closes without a process is not modelled; the invariant shows that no notify pipe outlives its process before shutdown.
- Engines.Engine.Control: names are resolved outside; a name no service has is an index past the last.
- Engines.Engine.ChildExited: if the last words were a report, others are started before the end of the service is dealt with; which services are then skipped is stated of that moment, in `ExitDone`.
- Systems.Boot: a graph file that cannot be read stands as an empty one; the emergency shell that opens when both are refused is not modelled.
- Stops.Stopper.Run: after the time for the ordered part is up, what is left is killed all at once; that part and the final waiting are not modelled.
- Stops.Stopper.Run: the rounds are given; that the clock goes on between them is not claimed.
- Logs.Log.Write: losslessness is claimed one way, under the margin, the fit and a count below 2^32; what comes out when a line has been overwritten depends on what overwrote it. The number of lines seen is not taken modulo 2^32. Console output and its drops are not modelled.
- Reading the directory and parsing service files: `Parsed.SourceFine` is what the parser lets through (ctl/parser/directives.c:189-306, ctl/parser/lang.c:357-373, ctl/parser/shell.c:43-92), and names differ because they are those of files in one directory.
- Compiles.Compile: an insertion sort stands for the sort of the C library.
- Descents.Collect: sets stand for the bit sets.
- Files.VerifyFile: the checksum (CRC-32C, section 12.1 of RFC 3720) is any function of the bytes it covers, numbers are little-endian, and the address of the file in memory is aligned.
- Engines.Engine.CheckTimeouts: a removal may move a late service to a part of the live list the pass has been through; it is then dealt with on a later pass, so a pass is claimed to end one late start, not all.
- LuaStripper.StripScript: the script is looked at from the end of its header on.
- The shell, Python and Perl strippers, directive parsing and interpreter lookup.
