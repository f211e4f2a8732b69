# A verified model of the Collector / Router / Viewer pipeline

Three processes relay UDP datagrams: Collector writes each datagram into a
one-slot shared-memory register and posts a notification, Router answers
notifications by sending what the register holds over TCP, Viewer receives it.
A management plane (socket, handler registry, metrics) runs in each of them.
This project models the parts of that system where concurrency, in-place
updates or fixed-width arithmetic make correctness hard to see, and proves what
they promise. `dafny verify dfyconfig.toml` checks everything.

| file | what it models |
|---|---|
| `SharedRegister`, `ShmApi` | the shared-memory register: any number of processes storing and loading byte by byte under a mutex, dying anywhere; the two calls in place |
| `RegisterHistory` | the register's log against the operations the processes asked for |
| `Relay`, `Pipeline` | what a datagram becomes on its way, and Collector and Router running concurrently over a bounded notification queue |
| `PipelineHistory` | what a run of the two amounts to, counted on its events |
| `RouterShutdown` | Router's four threads through start-up, event loop, shutdown ladder and joins, over any number of successive runs |
| `RouterCauses` | why Router goes down and when each of its threads leaves |
| `ViewerShutdown` | Viewer's condition variable, pipe byte and SIGUSR1 design |
| `CollectorLoop` | Collector's reactor step by step, with signals arriving anywhere |
| `TcpWorker` | Viewer's TCP loop and what it leaves open |
| `HandlerTable`, `Registry` | the 64-slot handler array in place, and the map it refines |
| `DispatchThreads`, `DispatchCounts`, `DispatchTotals` | the same registry at the granularity of its locked sections: who is credited, what the counters add up to, what a latency total is made of |
| `MgmtProtocol`, `MgmtSocket`, `SocketStats` | request latency, answering requests, the socket's counters with and without concurrent resets |
| `LatencyStats`, `Metrics` | the integer running average and the metrics counters |
| `Json`, `Printing`, `HandlerList`, `HandlerListJson`, `MetricsJson` | the two JSON printers and a reader for their output |
| `JsonLookup`, `SnapshotText` | looking names up in what was read, and what the metrics text says |
| `CText`, `FixedWidth` | NUL-terminated text and `strncpy`-style cutting; wrapping counters |

Concurrent parts are transition systems: an `Event` per atomic step, `Enabled`
and `Apply`, and `IsRun` for a sequence of states joined by events. Theorems
quantify over every run. System calls are nondeterministic outcomes chosen by
the event. Parts that update memory in place are classes and methods proved
against functions on values.

## Where the code differs from its documentation

The model follows the code.

- A known module asked for an unknown command answers MODULE_NOT_FOUND
  (`Mgmt/src/event_handler.c:172`), not HANDLER_FAILED as
  the command description under `docs/api` has it.
- `handler_register` never returns -2; a key that exists is overwritten
  (`Mgmt/include/event_handler.h:79-80`). "Most recent registration wins"
  (`Mgmt/include/event_handler.h:73`) holds exactly under the condition of
  `HandlerTable.MostRecentWinsExactly`.
- Every shipped handler clears the response it was given, so the latency
  credited to it is the wall clock, not a difference
  (`MgmtProtocol.ShippedLatencyIsTheClock`).
- `handler_list` does not report a closing part that was cut; it reports -1 only
  when the entries do not fit.

Properties that fail outside a condition are stated with that condition as an
if-and-only-if: `Pipeline.LossExactly`, `RouterShutdown.PurgeRobsExactly`,
`RouterShutdown.WokenExactly`, `RouterShutdown.SticksExactly`,
`CollectorLoop.ShutdownDelayedExactly`, `DispatchThreads.RemovalSafeExactly`,
`DispatchCounts.CountsAreExact`, `HandlerTable.FoundAgainExactly`,
`HandlerTable.MostRecentWinsExactly`, `HandlerList.StaysInsideExactly`,
`HandlerListJson.DocumentReadsBack`, `Metrics.DividesByZeroExactly`,
`ViewerShutdown.DeafExactly`, `Pipeline.LastValueDelivered`,
`SocketStats.ResponsesExceedExactly`, `SharedRegister.LockAfterDeath`. When a thread
leaves is exact too: `RouterCauses.OutExactly`, `RouterCauses.WorkerGoneExactly`,
`PipelineHistory.LeavesExactly`, `ViewerShutdown.LeavesExactly`,
`CollectorLoop.LoopOverExactly`.
Failing runs: `Pipeline.EachFailureLoses`, `RouterShutdown.ForeignPurgeSticks`,
`RouterShutdown.FullQueueSticks`, `RouterShutdown.FullEventsStick`,
`RouterShutdown.FullEventsStickWorker`, `CollectorLoop.DelayPossible`,
`SharedRegister.DeathBlocksEveryone`, `Metrics.DivisionByZeroReached`,
`DispatchThreads.MixedPairPossible`, `DispatchThreads.RemovalMisattributes`,
`DispatchCounts.StaleCreditAfterReset`, `SocketStats.ResetInsideACall`.

## Model

| member | source | states |
|---|---|---|
| `SharedRegister.AtomicRegister` | SHM/src/shm_api.c:126-171 | in every run of any number of processes, deaths included, the log of reads and writes is that of one sequential register, and outside a write in progress the memory holds its value |
| `SharedRegister.UntornReads` | SHM/src/shm_api.c:145-171 | a read with no death inside a write before it returns exactly the status and cut text of the last completed write |
| `RegisterHistory.LogsWhatWasAsked` | SHM/src/shm_api.c:126-171 | in every run whatever a process adds to the log is one entry: the write it locked the register for, with that status and text, or the result of the read it locked it for |
| `RegisterHistory.OneEntryEach` | SHM/src/shm_api.c:126-171 | an operation under way has logged nothing, and exactly one entry once it only has to unlock |
| `RegisterHistory.ReadsWhatWasWritten` | SHM/src/shm_api.c:145-171 | a completed read returns exactly the status and cut text the last completed write was asked to store, unless a process died inside a write since; with no such death before it, always |
| `RegisterHistory.MemoryIsLastWritten` | SHM/src/shm_api.c:126-142 | with no write in progress the memory holds what the last completed write was asked to store, unless a process died inside a write since |
| `SharedRegister.LockAfterDeath` | SHM/src/shm_api.c:31-57 | with nobody past the lock, locking succeeds if and only if the build is robust or no process has died past the lock earlier in the run |
| `SharedRegister.DeathBlocksEveryone` | SHM/src/shm_api.c:31-57 | in a build without the robust branch a run of two events after which nobody can lock |
| `SharedRegister.BoundedSection` | SHM/src/shm_api.c:126-171 | the lock holder can always step and releases the mutex within cap + 3 of its own steps |
| `SharedRegister.BackEndsAgree` | PosixSHM/src/shm_api.c:134-177 | registers of two capacities accept the same events and log the same values, torn reads included, as long as every message fits the smaller |
| `SharedRegister.SysvAndPosixAgree` | PosixSHM/src/shm_api.c:134-177 | the two shipped back ends agree on every run with messages of at most 255 bytes |
| `SharedRegister.AgreementIsTight` | PosixSHM/src/shm_api.c:134-149 | whatever two runs of the back ends went through, after completing the same write they hold the same text if and only if it has at most 255 bytes |
| `ShmApi.Segment.Write` | SHM/src/shm_api.c:126-142 | without the lock nothing changes; with it the whole register becomes the status and the text cut to the buffer |
| `ShmApi.Segment.Read` | SHM/src/shm_api.c:145-171 | returns the status and the text before the first NUL, terminated, only when the lock was had |
| `Relay.RelayedLine` | Router/src/router_worker.c:106-124 | over a register of any size up to 1024 the relayed line is the prefix, the bytes before the first NUL among the datagram's first 1023 cut to that register, and a newline; with the System V register no later buffer cuts anything |
| `Pipeline.LossExactly` | Collector/src/poll_io.c:65-87 | one step loses the latest write if and only if it is one of the named failures with nothing else queued, held or about to be posted; a drop at a full queue never is |
| `Pipeline.EachFailureLoses` | Router/src/router_worker.c:92-108 | for every queue size and datagram each of the three failures ends a run with that datagram lost |
| `Pipeline.LastValueNeverLost` | Collector/src/poll_io.c:65-87 | in every reachable state an unread latest write has a notification queued, held or coming, or one of those failures hit that very write |
| `Pipeline.RestDelivers` | Router/src/router_worker.c:92-124 | at rest the last send carried the latest datagram if and only if the latest write was not lost |
| `Pipeline.LastValueDelivered` | Router/src/router_worker.c:92-124 | in every run that has come to rest the latest datagram was the last one sent if and only if no failure hit it |
| `Pipeline.FreshAndOrdered` | Router/src/router_worker.c:92-124 | every send carries the rendering of a write no older than the one that raised its notification, sent writes never go backwards, no notification is answered twice |
| `Pipeline.Conservation` | Collector/src/poll_io.c:65-87 | notifications are queued, consumed or purged, none vanish; forwards ≤ sends ≤ consumed ≤ queued ≤ writes |
| `PipelineHistory.FiguresAreCounts` | Collector/src/poll_io.c:65-87 | those figures are the numbers of events: successful writes, notifications posted with room in the queue, notifications taken or discarded, sends, successful sends |
| `PipelineHistory.EventsAreConserved` | Collector/src/poll_io.c:65-87 | the same inequalities and balance between the numbers of events of every run |
| `Pipeline.RelayedExactly` | Router/src/router_worker.c:106-124 | every line of every run, over either back end, is that rendering of a datagram at least as recent as its notification |
| `Pipeline.RouterDrains` | Router/src/router_worker.c:90-124 | Router can step exactly while there is a backlog, and each step shortens it |
| `PipelineHistory.LeavesExactly` | Router/src/router_worker.c:90-153 | in every run Router has left its loop if and only if a send broke the connection or it took a QUIT |
| `RouterShutdown.QuitsStayInTheirRun` | Router/src/main.c:165-175 | across all runs, ended or killed at any point, at most two QUITs are sent and one consumed per run, and a worker stops on a note exactly when its own run's main sent it |
| `RouterShutdown.PurgeRobsExactly` | Collector/src/main.c:40-50 | a foreign purge takes a worker's wake source away if and only if the worker is still reading and the note discarded is the only QUIT queued |
| `RouterShutdown.WokenExactly` | Router/src/main.c:47-57 | in every run, once a QUIT was sent, a worker still reading has a QUIT queued if and only if no such purge came since the last one was sent |
| `RouterShutdown.WakeSources` | Router/src/main.c:295-394 | past the last QUIT the flag is down, the pipe closed, the joined signal thread cancelled, and the worker has stopped reading or has a QUIT queued unless it was robbed |
| `RouterShutdown.NoDispatchAfterDestroy` | Router/src/main.c:359-423 | the registry exists as long as the management thread does, and main is done only after every thread has exited |
| `RouterShutdown.AwaitingReply` | Mgmt/src/mgmt_socket.c:160-191 | from accepting SHUTDOWN to its reply the management thread, unless killed, stays inside that request |
| `RouterShutdown.ReplyBeforeClose` | Mgmt/src/mgmt_worker.c:20-25 | unless Router is killed, the reply to an accepted SHUTDOWN is attempted before the socket is closed or the registry destroyed |
| `RouterCauses.GoesDownForAReason` | Router/src/main.c:295-345 | in every run the flag is down only after a SHUTDOWN request, a signal, a worker without socket, connection or retries, a failed receive or a failed start of management in that run; main sends its QUIT from the loop only for a request, a signal or a broken connection, and closes the pipe alone only for a connection never made |
| `RouterCauses.PostsAreShutdowns` | Router/src/mgmt_handlers.c:16-50 | the management thread posts one event for each SHUTDOWN it accepted, the last perhaps still to come, and none for any other request |
| `RouterCauses.GivesUpExactly` | Router/src/router_worker.c:46-85 | the worker gives up connecting after exactly five refusals in its run and tries again after every earlier pause |
| `RouterCauses.WorkerGoneExactly` | Router/src/router_worker.c:46-153 | the worker is gone if and only if in this run it found the pipe closed in a pause, posted that it cannot go on, or took a QUIT |
| `RouterCauses.OutExactly` | Router/src/main.c:295-357 | the management thread, the signal thread and main's loop are each over if and only if they took one of their leaving steps in this run; answering an event, a request or a timeout is none |
| `RouterCauses.UnmanagedEnds` | Router/src/main.c:264-274 | without a management thread the flag is down once the other threads run |
| `RouterShutdown.EndingDecreases` | Router/src/router_worker.c:46-103 | each step of a Router thread during shutdown lowers the measure; Collector's notifications leave it, its harmless purges never raise it |
| `RouterShutdown.EndingCanStep` | Router/src/main.c:359-394 | whatever main waits for during shutdown can step |
| `RouterShutdown.ShutdownCompletes` | Router/src/main.c:295-394 | Router's threads take at most `Measure` more steps however much Collector appends or purges short of robbing the worker, and stop only when all are joined |
| `RouterShutdown.ShutdownNeverSticks` | Router/src/main.c:295-394 | the same for every run of the whole system from any point past the last QUIT at which the worker can be woken |
| `RouterShutdown.SticksExactly` | Router/src/main.c:323-357 | shutdown is stuck if and only if every other thread is idle and a QUIT finds the queue full, or the joined management thread waits for room in the event queue, or the joined worker waits for room there or at an empty queue |
| `RouterShutdown.EmptyQueueMeansRobbed` | Collector/src/main.c:40-50 | a worker joined while it waits at an empty queue was robbed of its QUIT since main sent the last one |
| `RouterShutdown.ForeignPurgeSticks` | Collector/src/main.c:40-50 | a run in which a starting Collector discards the QUIT and the join never returns |
| `RouterShutdown.FullQueueSticks` | Router/src/main.c:47-57 | for every queue size a run in which main blocks for good sending QUIT to a full queue nobody drains |
| `RouterShutdown.FullEventsStick` | Router/src/main.c:361-366 | for every pair of queue sizes a run in which the management thread waits for room in the event queue and main for the management thread |
| `RouterShutdown.FullEventsStickWorker` | Router/src/main.c:359-394 | likewise a worker that failed to open its socket |
| `ViewerShutdown.NeverSleepsThroughIt` | Viewer/src/main.c:64-120 | main asleep in either wait while its predicate is true implies a setter holding the mutex is about to signal |
| `ViewerShutdown.EveryoneIsWoken` | Viewer/src/main.c:120-148 | while main joins, each thread has exited or has SIGUSR1 pending, the pipe byte unread, the flag cleared |
| `ViewerShutdown.NoDispatchAfterDestroy` | Viewer/src/main.c:141-156 | the registry outlives the management thread |
| `ViewerShutdown.RequestedForAReason` | Viewer/src/mgmt_handlers.c:47-52 | in every run a shutdown is requested, and the management flag cleared, only after a SHUTDOWN request, a signal taken, or management that could not be started |
| `ViewerShutdown.LeavesExactly` | Viewer/src/tcp_worker.c:57-88 | each thread has left if and only if it took one of its leaving steps; an interrupted poll, a timeout or any other request is none |
| `ViewerShutdown.UnmanagedEnds` | Viewer/src/main.c:108-115 | without a management thread the shutdown has been requested by the time main waits |
| `ViewerShutdown.DeafExactly` | Viewer/src/signal_thread.c:22-49 | before main sends its SIGUSR1 the signal thread is on its way out, and deaf to SIGINT and SIGTERM, if and only if somebody outside has sent one |
| `ViewerShutdown.ReplyBeforeClose` | Viewer/src/mgmt_handlers.c:47-52 | an accepted SHUTDOWN has its reply attempted before the socket closes and before main is done |
| `ViewerShutdown.NeverStuck` | Viewer/src/main.c:64-148 | after a shutdown request no reachable state is a deadlock |
| `ViewerShutdown.ClosingDecreases` | Viewer/src/tcp_worker.c:57-88 | every step of a Viewer thread while closing lowers the measure; a delivered signal raises it by at most five |
| `ViewerShutdown.JoinsComplete` | Viewer/src/main.c:120-148 | the joins complete within a number of steps bounded by the measure and the signals delivered |
| `ViewerShutdown.JoinsCompleteInEveryRun` | Viewer/src/main.c:64-148 | the same from any such point of any run |
| `CollectorLoop.NoDispatchAfterDestroy` | Collector/src/main.c:103-110 | a request is dispatched and answered only while socket and registry exist, and the socket goes first |
| `CollectorLoop.ReplyBeforeClose` | Mgmt/src/mgmt_socket.c:160-191 | every dispatched request has its reply attempted before the next dispatch and before any resource is given up |
| `CollectorLoop.NothingServedAfterShutdown` | Collector/src/mgmt_handlers.c:36-47 | after an accepted SHUTDOWN nothing is received, dispatched or relayed and poll is not entered again |
| `CollectorLoop.FirstSentFirstTaken` | Mgmt/src/mgmt_socket.c:137-164 | requests are taken in the order they were sent, each as the kind it is |
| `CollectorLoop.FlagDownExactly` | Collector/src/mgmt_handlers.c:36-47 | in every run the flag is down if and only if a SHUTDOWN was dispatched or a signal came |
| `CollectorLoop.LoopOverExactly` | Collector/src/poll_io.c:115-125 | the loop is over if and only if the flag was found down or poll failed or was interrupted |
| `CollectorLoop.ReportedIsServed` | Collector/src/poll_io.c:127-135 | the datagram and the request poll reported are both read before the flag is tested again |
| `CollectorLoop.WaitsExactly` | Collector/src/poll_io.c:115-125 | with the flag down the thread waits if and only if it is in a poll that was not interrupted and has nothing to report |
| `CollectorLoop.ShutdownDelayedExactly` | Collector/src/poll_io.c:115-117 | in every run shutdown is delayed if and only if a signal fell between the test of the flag and this poll, none came during it, and nothing has arrived |
| `CollectorLoop.DelayPossible` | Collector/src/poll_io.c:115-117 | such a run, with nobody sending anything |
| `CollectorLoop.ShutdownCompletes` | Collector/src/main.c:103-110 | once the flag is down at most eleven steps remain in every run |
| `TcpWorker.ServedIsClean` | Viewer/src/tcp_worker.c:53-132 | for all poll, accept and receive outcomes at most one client is open, only it is read, and every accepted socket is closed exactly once before the listening one |
| `TcpWorker.ServesEveryTurn` | Viewer/src/tcp_worker.c:53-132 | the trace is, for every turn up to the one that ends the loop, what that turn calls for given the client left open, then the close of that client and of the listening socket; what arrives is read, and EINTR ends nothing |
| `TcpWorker.Run` | Viewer/src/tcp_worker.c:19-136 | the loop performs exactly that trace; without a socket it does nothing, and a failed bind or listen closes it |
| `HandlerTable.RegisterRefinesMap` | Mgmt/src/event_handler.c:57-104 | registering a name that fits is a map update clearing the entry's counts; only a new key in a full table is refused |
| `HandlerTable.RegisterKeepsOrder` | Mgmt/src/event_handler.c:57-104 | an existing key keeps its position and a new one goes last |
| `HandlerTable.UnregisterRefinesMap` | Mgmt/src/event_handler.c:109-137 | removal is removal from the map and succeeds exactly for a present key |
| `HandlerTable.UnregisterKeepsOrder` | Mgmt/src/event_handler.c:109-137 | the remaining keys keep their order |
| `HandlerTable.StatisticsKeepKeys` | Mgmt/src/event_handler.c:186-206 | crediting and clearing move no key and change one map entry's counts or all counts only |
| `HandlerTable.TableRefinesMap` | Mgmt/src/event_handler.c:57-137 | every history of register, unregister, dispatch and reset leaves distinct keys and the contents of a map of capacity 64 |
| `HandlerTable.FoundAgainExactly` | Mgmt/src/event_handler.c:57-104 | in any table an accepted key is found again if and only if its name has at most 63 bytes |
| `HandlerTable.MostRecentWinsExactly` | Mgmt/include/event_handler.h:73 | in any table, full or already holding duplicates, an accepted registration answers under its stored name if and only if the name fits or its cut form is new; otherwise the older entry still answers |
| `Registry.HandlerRegistry.constructor` | Mgmt/src/event_handler.c:16-34 | starts with an empty 64-slot table and zero totals |
| `Registry.HandlerRegistry.Search` | Mgmt/src/event_handler.c:156-174 | the scan finds the first live entry with that name and command, or the end |
| `Registry.HandlerRegistry.Register` | Mgmt/src/event_handler.c:57-104 | the array's live part becomes what the table function says; bad arguments change nothing |
| `Registry.HandlerRegistry.Unregister` | Mgmt/src/event_handler.c:109-137 | likewise for removal |
| `Registry.HandlerRegistry.ShiftLeft` | Mgmt/src/event_handler.c:124-128 | closes the gap and leaves earlier slots alone |
| `Registry.HandlerRegistry.HandleRequest` | Mgmt/src/event_handler.c:142-209 | for every request: a field out of range answers INVALID_CMD and -3, a key not in the table's map MODULE_NOT_FOUND and -1, a handler that failed HANDLER_FAILED and its code, otherwise the handler's own response and 0; totals and the credited entry as in the table function |
| `Registry.DispatchAnswers` | Mgmt/src/event_handler.c:142-209 | the table function's response and code are those answers, read off the map the table stands for |
| `Registry.OkMeansZero` | Mgmt/src/event_handler.c:192-200 | with handlers that answer OK through `mgmt_response_init`, as the shipped ones do, a reply says OK if and only if the dispatch returned 0, and then carries the request's id |
| `Registry.HandlerRegistry.ResetStats` | Mgmt/src/event_handler.c:281-296 | zeroes totals and every live entry's counts, keys and handlers untouched |
| `DispatchThreads.LiveKeysStay` | Mgmt/src/event_handler.c:57-104 | no event but a removal changes the key of a live slot |
| `DispatchThreads.CreditsWhatWasLookedUp` | Mgmt/src/event_handler.c:184-206 | in every run a thread that every removal spared credits exactly the entry a search for its request would find, whatever the names and whatever happened to other threads |
| `DispatchThreads.OnlyValidDispatched` | Mgmt/src/mgmt_protocol.c:90-114 | in every run only requests whose fields are in range get past the search |
| `DispatchThreads.RemovalSafeExactly` | Mgmt/src/event_handler.c:124-128 | a removal keeps every running dispatch on the entry its request would find if and only if each points at an earlier slot, or at the removed one with the next entry bearing the same key |
| `DispatchThreads.RemovalMisattributes` | Mgmt/src/event_handler.c:124-128 | a run in which a removal makes a dispatch of one key credit the entry of another |
| `DispatchThreads.LoadsChangeExactly` | Mgmt/src/event_handler.c:184-185 | short of a removal, what the unlocked loads of a running dispatch see changes exactly by registering its key again |
| `DispatchThreads.MixedPairPossible` | Mgmt/src/event_handler.c:184-185 | a run in which a dispatch loads the old handler and the new context |
| `DispatchThreads.AloneIsDispatched` | Mgmt/src/event_handler.c:142-209 | left alone, the four steps of a dispatch are one dispatch of the sequential registry |
| `DispatchCounts.CountsHold` | Mgmt/src/event_handler.c:186-206 | in every run, with fewer than 2^32 dispatches since the last reset, failures ≤ dispatches, and those dispatches are the ones the live entries count plus the ones forgotten by an overwrite, a removal or a stale pointer |
| `DispatchCounts.TotalsAreCounts` | Mgmt/src/event_handler.c:186-206 | in every run, however long, the two totals are the numbers of dispatches and of failed ones since the last reset, in 32 bits |
| `DispatchCounts.CountsAreExact` | Mgmt/src/event_handler.c:281-296 | under the same bound live counts sum to all dispatches if and only if since the last reset no entry with counts was overwritten or removed and no statistics step hit a dead slot |
| `DispatchCounts.StaleCreditAfterReset` | Mgmt/src/event_handler.c:124-128 | a run in which a removal before the reset is enough to break the sum |
| `DispatchTotals.TotalsAreItsOwn` | Mgmt/src/event_handler.c:176-204 | in every run whose removals spare the running dispatches the entry a search finds shows the number and the latencies of exactly the dispatches of its key finished since it was registered, removed or reset, in 32 and 64 bits |
| `DispatchTotals.TotalLatencyIsAccurate` | Mgmt/src/event_handler.c:176-204 | where the handlers that answered those dispatches kept the request time, the total latency is, until it wraps, within one microsecond per dispatch of the exact sum of non-negative response-minus-request times |
| `DispatchTotals.ShippedTotalIsTheClock` | Router/src/mgmt_handlers.c:16-50 | where they erased it, as every handler answering through `mgmt_response_init` does, it is the sum of the response times |
| `MgmtProtocol.LatencyIsAccurate` | Mgmt/src/mgmt_protocol.c:73-85 | the latency is never negative and within one microsecond of the exact difference |
| `MgmtProtocol.ShippedLatencyIsTheClock` | Mgmt/src/mgmt_protocol.c:43-68 | for a handler that re-initialises the response it is the response time itself |
| `MgmtSocket.Socket.ProcessOne` | Mgmt/src/mgmt_socket.c:117-191 | returns 0 exactly when a request came in and its reply went out; the reply is one of the four answers, `failed` moves exactly when the dispatch did not return 0, and with handlers that answer OK exactly when the reply says anything else |
| `MgmtSocket.Socket.ProcessAll` | Mgmt/src/mgmt_socket.c:193-218 | returns the number of replies before the first failure and leaves the state of that many calls and the failing one |
| `MgmtSocket.CountersAreExact` | Mgmt/src/mgmt_socket.c:155-184 | from a reset on the counters are the numbers of turns with a request received, a reply sent, a non-zero dispatch |
| `MgmtSocket.FailedAreBadReplies` | Mgmt/src/mgmt_socket.c:160-171 | with such handlers the failed counter is the number of turns whose reply carried a non-zero code |
| `SocketStats.ResponsesExceedExactly` | Mgmt/src/mgmt_socket.c:155-184 | in every run, with fewer than 2^64 - 1 requests since the last reset, responses exceed requests if and only if that reset fell into a call, no reply since has failed, and no call is under way |
| `SocketStats.ResponsesWithinRequests` | Mgmt/src/mgmt_socket.c:155-184 | under the same bound, with resets only between calls, responses never exceed requests |
| `SocketStats.CountersAreEvents` | Mgmt/src/mgmt_socket.c:155-184 | however resets fall, each counter is the number of its events since the last one, in 64 bits |
| `SocketStats.ResetInsideACall` | Mgmt/src/mgmt_socket.c:245-259 | a run in which they do |
| `LatencyStats.Recorder.Record` | Mgmt/src/metrics_collector.c:16-37 | after any number of samples below 2^32 the object holds their minimum, maximum and number, and an average between them that is off by at most (n-1)/2 |
| `LatencyStats.MeanBetween` | Mgmt/src/metrics_collector.c:34-35 | the running average of any non-empty history lies between its minimum and maximum |
| `LatencyStats.MeanError` | Mgmt/src/metrics_collector.c:34-35 | it never exceeds the true mean, and n times it falls short of the sum by at most n(n-1)/2 |
| `LatencyStats.MeanErrorIsTight` | Mgmt/src/metrics_collector.c:34-35 | the samples 0, 1, …, n-1 reach that bound |
| `LatencyStats.ReplayIsExact` | Mgmt/src/metrics_collector.c:16-37 | with samples below 2^32 and fewer than 2^32 of them the machine values are the exact minimum, maximum, average and count |
| `Metrics.Collector.UpdateCollector` | Mgmt/src/metrics_collector.c:93-112 | the counters remain those of the history extended by this call: one more success with its latency, or one more failure, of Collector alone |
| `Metrics.Collector.UpdateRouter` | Mgmt/src/metrics_collector.c:114-134 | likewise for Router, with its bytes |
| `Metrics.Collector.UpdateViewer` | Mgmt/src/metrics_collector.c:136-148 | likewise for Viewer |
| `Metrics.Collector.SetBufferUtil` | Mgmt/src/metrics_collector.c:150-176 | sets the utilisation of the named process and no other figure; an unknown name is refused and changes none |
| `Metrics.Collector.SetActiveConnections` | Mgmt/src/metrics_collector.c:178-200 | likewise for Router's connections and Viewer's clients; Collector has none |
| `Metrics.Collector.TakeSnapshot` | Mgmt/src/metrics_collector.c:69-91 | the totals are the number of calls and of failed calls since the last reset, the id the number of snapshots before; nothing else changes |
| `Metrics.HistoryShows` | Mgmt/src/metrics_collector.c:69-211 | after every interleaving of updates, setters, snapshots and resets the counters and latencies are exactly those of the calls since the last reset |
| `Metrics.SnapshotsAddUp` | Mgmt/src/metrics_collector.c:69-148 | until a counter reaches 2^64 events = ok + failed, reads = forwards + failed, each sample count is its success count, errors ≤ events |
| `Metrics.SnapshotIds` | Mgmt/src/metrics_collector.c:78 | snapshot numbers are 0, 1, 2, … in 32 bits, resets notwithstanding |
| `Metrics.DividesByZeroExactly` | Mgmt/src/metrics_collector.c:34-36 | the next call divides by zero if and only if it is the 2^32nd success of its process since a reset |
| `Metrics.DivisionByZeroReached` | Mgmt/src/metrics_collector.c:34-36 | a history that reaches it |
| `Metrics.ReportedLatencyIsHonest` | Mgmt/src/metrics_collector.c:93-148 | what a snapshot reports of any of the three processes is the extreme samples since the reset and an average between them, below their mean by at most (n-1)/2 |
| `HandlerList.List` | Mgmt/src/event_handler.c:214-260 | for every buffer: undefined exactly when a write would leave it, -1 exactly when it is empty or the entries do not fit; otherwise it shows the document as far as it fits and the result is the entry count read after unlocking |
| `HandlerList.StaysInsideExactly` | Mgmt/src/event_handler.c:214-260 | every formatted write stays inside the buffer if and only if it is refused as empty or has the 14 bytes of the header |
| `HandlerList.Print` | Mgmt/src/event_handler.c:214-260 | the printing loop makes exactly the formatted writes that theorem speaks of, refuses exactly when an entry leaves fewer than two bytes, and otherwise shows as much of the document as fits |
| `HandlerListJson.DocumentReadsBack` | Mgmt/src/event_handler.c:214-260 | every entry, in order, and both totals are read back from the document if and only if no module name needs escaping |
| `HandlerListJson.BufferReadsBack` | Mgmt/src/event_handler.c:214-260 | so is the content of a buffer with room for it |
| `HandlerListJson.ListReadsBack` | Mgmt/src/event_handler.c:214-260 | looked up by name in the printed list, the totals and every live entry, in order, are what the registry holds |
| `HandlerListJson.EntryIsDetermined` | Mgmt/src/mgmt_protocol.c:147-174 | the JSON entry determines module, command, count and average for the named commands |
| `Json.CompactParses` | Mgmt/src/event_handler.c:214-260 | reading inverts writing for every value without escapes, in front of any non-digit (sections 2 to 7 of RFC 8259) |
| `Json.ReadIsPlain` | Mgmt/src/event_handler.c:214-260 | whatever the reader accepts contains no character that would need escaping |
| `Printing.Append` | Mgmt/src/event_handler.c:222-224 | one bounded formatted write extends what the buffer shows and returns the uncut length |
| `MetricsJson.SnapshotToJson` | Mgmt/src/metrics_collector.c:213-254 | returns the length L with the buffer holding the whole text if and only if L ≤ size - 2, and -1 otherwise |
| `SnapshotText.SnapshotReadsBack` | Mgmt/src/metrics_collector.c:213-254 | for every timestamp from zero on the text is JSON with nothing left over, and each of its fifteen names, the nested ones included, leads to that field of the snapshot |
| `SnapshotText.TextDetermines` | Mgmt/src/metrics_collector.c:213-254 | equal texts mean equal printed fields |
| `SnapshotText.BufferReadsBack` | Mgmt/src/metrics_collector.c:213-254 | a buffer holding the whole text and its NUL reads back as such |

## Left out

- System calls (sockets, poll, message queues, shared memory, clocks, signals): only their outcomes; `send` is all or error, as the code assumes.
- Shared-memory creation and attachment timing: the register starts initialised.
- Start-up failures before Router's worker exists: they lead straight to exit.
- Failing pipe writes and failing `pthread_create` calls in Viewer for its signal and TCP threads, which the code does not act on: both succeed.
- Update in place of the thread-shared fields of Router, Viewer and Collector: their loops are transition systems with one event per atomic step, because other threads and signals fall between the steps.
- `msgsnd` of QUIT failing or being interrupted: it either finds room or waits for it.
- Starvation of a QUIT sender waiting at a queue Collector keeps refilling: progress is stated from the point where QUIT is queued, and stuck states are exact.
- Null handles and null out-parameters: refused at once with -1 wherever the code checks them.
- A target module without a terminating NUL in a received request, and requests shorter than the structure: requests are well-formed values.
- What a call of `handler_list` does once it has left its buffer: C leaves it undefined, and the model only says when.
- Buffers of 2^31 bytes or more in the printers: the code casts their size to a 32-bit integer.
- Reading back metrics text with a negative timestamp: negative numbers and escapes are not part of the JSON reader.
- The logger, the MgmtCtl client, `udp_worker` (never started) and fault injection: easy members, or code that is deliberately wrong.
