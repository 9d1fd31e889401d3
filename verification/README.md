# DataPath in Dafny

DataPath is an inter-process communication library over Windows named pipes. This project
models its algorithms and proves what they guarantee over whole runs. Each module holds a
state, the functions that describe one step and a run of steps, lemmas over all runs, and,
where the original updates objects in place, a class whose methods are proved equal to those
functions.

| file | models |
|---|---|
| `Framing.dfy` | the length-prefixed frame of a message and the buffer that `write` fills |
| `Reader.dfy` | `write`, the pipe and the Unknown/Header/Content reader loop of a socket |
| `Server.dfy` | the life of the server's pipe handles: waiting, pending, active, closed |
| `Masks.dfy`, `Dispatch.dfy` | affinity masks and least-loaded dispatch of the thread pool |
| `Worker.dfy`, `Pool.dfy` | the worker loop among concurrent calls, and the pool of workers |
| `Measurer.dfy` | the latency histogram of the benchmark and its two percentiles |
| `Waiting.dfy` | the timeout countdown of the wait loops and the list without null objects |
| `OverlappedQueue.dfy` | the pool of overlapped objects |
| `Ordered.dfy` | the key order in which a `std::map` is visited |
| `Common.dfy` | optional values, the limit on the objects of a wait and small facts that several modules share |

The operating system and the application are oracles: what they answer is an argument of each
step, so every lemma about a run holds for every choice of answers. What is asked of them is
stated in the models: a read that completes has filled its whole buffer, a read that fails is not
reported as a success, a wait returns within the timeout it was given, a wait on a list with a null
handle is rejected, a new pipe handle differs from all earlier ones. A wait reports a closed object only
when it is abandoned, which the system says of mutexes alone: the events that the library waits on never
give that answer. The models allow it and say what the code would do with it (`PassAbortsIff`,
`MeetsDropGuard`, `WaitAny`), but none of this happens in a run of the program.

## What the code does not guarantee

For each of these the exact condition is proved.

- A content read that does not start leaves the reader out of step with the stream: the body of
  the message is then read as a header. `FailedContentReadForgesMessage` delivers a message that
  was never sent; `StreamCompleteIffGuardAvoided` tells from the answers to the reader's calls when a header
  is lost, and `DeliveredIsPrefixOfSent` says when delivery is right.
- `write` accepts messages longer than 2^32 - 5 bytes and writes only part of them (`WireExactIff`);
  of a message of 2^32 - 4 bytes nothing is written at all.
- Handles closed by the server's verify pass stay in `sockets`. They use up the client limit for good
  (`ClosedHandlesCostCapacity`, `SupplyIsExhausted`), until only 8 handles are left in the worst run
  (`CapacityLossAttained`, `LossIsPermanent`), and `close` closes them again (`Serve`). Handles are closed
  twice in some run if and only if max_clients is at least 8 (`ClosedOnceIff`).
- max_clients does not limit the clients served at a time; max(8, max_clients + 1) does, and some
  run reaches it (`ActiveBoundAttained`).
- The accept pass tests the backlog while accepted handles still count as pending, so it never tops
  up a full backlog. `AcceptMakes` gives the number of pipes it makes for any answers.
- `worker::clear` while a task is running makes the worker pop an empty queue or throw away a task
  that never ran (`RemovalPopsItsTaskIffNotCleared`).
- The mask test of `pool::push` rejects masks that match a worker: it admits a mask if and only if
  the mask matches a worker whose index is a bit of n - 1 (`GuardPassesIff`). The last worker alone
  can never be asked for, and a pool of one worker rejects every mask.
- An interrupted wait can outlast its timeout (`KeepsTimeoutIff`).
- The waits leave null objects out of the handle list but pass its full length, so a wait for all and
  a wait for any both fail at once if any object is null or has no handle (`WaitAll`, `WaitAny`).
- `percentile` by time returns -1 for a histogram with a single key (`PercentileByTime`).
- Freeing an overlapped object that is not in use breaks the pool (`FreeKeepsInvIff`); freed twice, an
  object is handed out twice (`DoubleFreeHandsOutTwice`).

## Model

| member | source | states |
|---|---|---|
| Framing.Task.Assign | source/windows/task.cpp:23-29 | whatever the buffer held, it ends as the 32-bit little-endian length of the message followed by the message |
| Framing.HeaderRoundTrip | source/windows/socket.cpp:79-80 | the decoded header is the length modulo 2^32 |
| Framing.WireExactIff | source/windows/socket.cpp:193-196 | the bytes passed to the system are the whole frame with an exact header if and only if the message has at most 2^32 - 5 bytes |
| Framing.SmallestUnfitMessageVanishes | source/windows/socket.cpp:193-196 | a message of 2^32 - 4 bytes writes nothing |
| Framing.UnfitIsCut | source/windows/socket.cpp:193-196 | of any longer message the frame is written up to a cut of a positive multiple of 2^32 bytes at its end |
| Framing.HeaderBytes | source/windows/task.cpp:23-29 | the four bytes of the header are those of the 32-bit length, the lowest first |
| Framing.ParseInvertsFrames | source/windows/task.cpp:23-29 | a reference decoder recovers every message sequence, and the partial frame after it, from the concatenated frames |
| Framing.FramesInvertParse | source/windows/socket.cpp:79-80 | on any byte string, the decoded messages framed again plus the rest are the string, and the rest starts with no complete frame |
| Framing.PrefixFree | source/windows/task.cpp:23-29 | frames of one sequence begin those of another only if the messages do |
| Framing.UniquelyDecodable | source/windows/task.cpp:23-29 | two message sequences have equal concatenated frames if and only if they are equal |
| Reader.Step | source/windows/socket.cpp:69-160 | in every reachable state, failures included: Unknown has no read in flight while the loop runs, Header has the 4-byte read, Content has the read of the decoded length or holds a complete message with no read in flight |
| Reader.StartRunsIff | source/windows/socket.cpp:26-38 | the loop starts if and only if the handle is valid; without one nothing is ever read |
| Reader.NothingAfterClose | source/windows/socket.cpp:40-57 | after `close` of a connected socket the socket is not connected, the loop has ended for good, and no later run reads, delivers or drops anything; bytes that arrive stay unread |
| Reader.CloseTwice | source/windows/socket.cpp:175-183 | `close` on a socket that is not connected changes nothing |
| Reader.PassStopsIff | source/windows/socket.cpp:108-158 | a pass ends the loop if and only if a read is in flight and a wait reports it closed; the read stays in flight |
| Reader.HeldIsRetried | source/windows/socket.cpp:136-144 | a message held back is delivered in the next pass if and only if there is a listener by then, whatever the system answers |
| Reader.SentIsTaken | source/windows/socket.cpp:185-202 | in every run, what counts as sent and what is on the wire are the messages of the accepted writes, in order, and their cut frames |
| Reader.RunAccounts | source/windows/socket.cpp:59-160 | for every run and any bytes: delivered frames, dropped headers, the bytes held by the reader, unread bytes and bytes in transit are together, in order, everything written |
| Reader.PassRecords | source/windows/socket.cpp:74-106 | a pass drops a header if and only if it meets the guard: a header read completes and the content read does not start, or the wait for the content reports a closed object, which only an abandoned wait does; it delivers only to a listener |
| Reader.RunDrops | source/windows/socket.cpp:69-160 | in every run one header is dropped for each pass that meets the guard |
| Reader.StreamCompleteIffGuardAvoided | source/windows/socket.cpp:69-160 | in every run, delivered frames plus held, unread and travelling bytes make up the stream if and only if no pass meets the guard |
| Reader.StreamCompleteIffNoDrop | source/windows/socket.cpp:82-90 | the bookkeeping behind it: the stream is complete if and only if the log holds no dropped header |
| Reader.DeliveredBeforeDropIsPrefixOfSent | source/windows/socket.cpp:69-160 | in every run, what is delivered before the first dropped header is a prefix of the messages sent |
| Reader.DeliveredIsPrefixOfSent | source/windows/socket.cpp:69-160 | if every content read starts, the delivered messages are a prefix of those sent, through timeouts, header reads that do not start, listeners that come and go, waits that report a closed object and `close` |
| Reader.FailedContentReadForgesMessage | source/windows/socket.cpp:83-90 | for every message b there is a run with one content read that does not start in which b is delivered and was never sent |
| Reader.HarmlessPass | source/windows/socket.cpp:108-160 | a pass whose content read starts and whose waits report nothing closed delivers the first message of the stream or leaves stream and log alone |
| Reader.GoodPass | source/windows/socket.cpp:108-160 | a pass in which everything succeeds takes a complete frame one phase further and otherwise leaves stream and deliveries alone |
| Reader.Progress | source/windows/socket.cpp:108-160 | the number of good passes still needed never rises in a harmless pass and falls in a good one until it is 0; what is delivered is what leaves the stream |
| Reader.ReaderComputesParse | source/windows/socket.cpp:59-160 | stalls only delay: from every reachable state, for any bytes and among any writes and arrivals, harmless passes in any order, with enough good ones among them, deliver what the reference decoder finds and nothing it does not find with the bytes that arrive meanwhile; if none arrive they deliver exactly that and keep what the decoder leaves |
| Reader.RunConserves | source/windows/socket.cpp:59-202 | over any writes, arrivals and harmless passes, what is delivered and what the stream still holds are together what the decoder finds in the stream and all bytes that arrived |
| Reader.FirstMessagesArrive | source/windows/socket.cpp:59-202 | from every reachable state and among any writes and arrivals, 2n good passes, or 2n - 1 in phase Content, deliver the first n messages of the stream |
| Framing.ParseAppend | source/windows/socket.cpp:69-106 | the decoder may work in pieces: messages found in the first bytes stand, and it goes on from the rest |
| Reader.CompletionsAreBounded | source/windows/socket.cpp:74-106 | in every run, faults included, the reads that complete number at most the work at the start and the bytes that arrive: each completed read, of an empty content too, lowers the measure |
| Reader.TwoPassesPerMessage | source/windows/socket.cpp:108-160 | an idle reader has delivered exactly k/2 messages after k good passes |
| Reader.ArrivedMessagesAreDelivered | source/windows/socket.cpp:59-202 | after any run with every content read started and the loop still running: among any writes, arrivals and harmless passes, each message whose frame has arrived is delivered within two good passes a message, and nothing that was not sent |
| Reader.EverythingSentArrives | source/windows/socket.cpp:59-202 | once every byte has arrived, the messages delivered are exactly those sent if nothing more is written |
| Reader.SilentWithoutListener | source/windows/socket.cpp:99-104 | nothing is delivered while there is no listener |
| Reader.PassAbortsIff | source/windows/socket.cpp:148-154 | the second wait would be called on the empty pointer if and only if a read is in flight and the wait of 0 ms reports it closed, which waits on events never do |
| Reader.AbortsOnlyAfterFirstClosed | source/windows/socket.cpp:148-154 | no run without such a report, hence none of the program, waits on the empty pointer |
| Reader.Connection.Send | source/windows/socket.cpp:185-202 | the frame of the message, cut to its DWORD length, joins the stream if and only if WriteFileEx accepts it |
| Reader.Connection.OnHeaderSuccess | source/windows/socket.cpp:74-91 | the header callback: decodes the length, resizes the buffer and starts the content read, or drops the header |
| Reader.Connection.OnContentSuccess | source/windows/socket.cpp:97-106 | the content callback: delivers the message, or holds it back without a listener |
| Reader.Connection.Turn | source/windows/socket.cpp:108-160 | one pass of the loop is one step of the model |
| Reader.Connection.Watch | source/windows/socket.cpp:59-161 | the whole loop, among the actions of other threads and the system, is the run of the model |
| Server.PassInv | source/windows/server.cpp:96-226 | the invariant of `RunInv` holds each time the lock is free: after the wait, the scan, the accept pass and the verify pass |
| Server.RunInv | source/windows/server.cpp:92-233 | in every run waiting, pending, active and closed handles are duplicate-free, disjoint and together exactly `sockets`; overlapped entries belong to waiting handles; waiting plus pending is at most 8; at least 8 handles stay open; `sockets` never shrinks and never exceeds max(8, max_clients + 1) |
| Server.OvmapFits | source/windows/server.cpp:98-111 | the watcher never waits on more objects than the system's limit of 64 |
| Server.ClosedHandlesCostCapacity | source/windows/server.cpp:199-205 | from `create` on, the open handles number at least 8 and at most max(8, max_clients + 1) minus the handles closed so far; with max_clients = 0 the 8 first handles are all there ever is |
| Server.CapacityLossAttained | source/windows/server.cpp:199-205 | that much is lost: for every limit some run closes max(8, max_clients + 1) - 8 handles |
| Server.LossIsPermanent | source/windows/server.cpp:171-205 | from then on exactly 8 handles are open and none is made or closed, whatever the clients do |
| Server.ActiveBoundAttained | source/windows/server.cpp:166-178 | for every limit some run has max(8, max_clients + 1) handles active |
| Server.SupplyIsExhausted | source/windows/server.cpp:171-177 | once `sockets` is longer than max_clients it never changes again |
| Server.WaitMovesSignalled | source/windows/server.cpp:107-130 | a wait moves nothing or exactly the signalled handle, to the end of pending, and drops its overlapped object; the other handles keep their order |
| Server.ScanSorts | source/windows/server.cpp:119-147 | after the scan each waiting handle has a connect in progress, was refused one, or has become pending, according to what ConnectNamedPipe answered |
| Server.ScanKeepsOrder | source/windows/server.cpp:119-147 | both lists keep their order in the scan, and nothing else changes |
| Server.PendingWaitForListener | source/windows/server.cpp:150-190 | over any passes without a listener, clients that have connected keep their places in `pending`, no pipe is made, and exactly the clients whose socket is gone leave `active` |
| Server.PendingIsServed | source/windows/server.cpp:150-226 | after any number of such passes, a pending client is active after the first pass with a listener that accepts it, if it stays |
| Server.AcceptSorts | source/windows/server.cpp:155-189 | the accept pass empties pending; accepted handles are active, refused ones wait again in their old order, everything else that joined the waiting list is newly made and in `sockets`; connects in progress are not touched |
| Server.AcceptMakes | source/windows/server.cpp:155-185 | for any answers the pass makes one pipe for each accepted client that the system can make one for, at a point where the lists as they stood, the refusals and the pipes made before it leave room below 8 and within max_clients |
| Server.AcceptAllCreates | source/windows/server.cpp:166-178 | with every client accepted the pass makes exactly min(pending, 8 - waiting - pending, max_clients + 1 - sockets) pipes, hence none with a full backlog |
| Server.RawSumWhileRefusing | source/windows/server.cpp:179-184 | inside the pass waiting plus pending grows by one for each refused client |
| Server.RawSumExceedsBacklog | source/windows/server.cpp:155-185 | the sum does exceed 8: it reaches 16 when the first 8 clients connect at once and are refused |
| Server.LostInOrder | source/windows/server.cpp:196-210 | the handles the pass acts on are the active ones whose socket is gone, each once, in ascending order |
| Server.VerifySplits | source/windows/server.cpp:193-226 | of the handles whose socket is gone, in ascending order, those for which the backlog has room wait again, the rest are closed, and all of them leave `active` |
| Server.ActiveAfterPass | source/windows/server.cpp:150-226 | a handle is active after a pass if and only if it was, or was pending and accepted, and its socket is not gone |
| Server.ClientIsServed | source/windows/server.cpp:107-226 | a client that either wait reports, or that has connected by the scan, and that is accepted and stays is active at the end of the same pass |
| Server.TwoClientsCloseHandle | source/windows/server.cpp:196-222 | for every limit of at least 8 there is a run of two passes, with two clients, in which the verify pass closes a handle |
| Server.NothingClosedIff | source/windows/server.cpp:196-222 | the verify pass closes no handle in any run if and only if max_clients is below 8 |
| Server.ClosedOnceIff | source/windows/server.cpp:283-287 | no run ends with a handle that `close` closes a second time if and only if max_clients is below 8 |
| Server.PipeServer.Create | source/windows/server.cpp:28-71 | succeeds if and only if all 8 pipes can be made; otherwise every pipe made is closed once and all lists are empty |
| Server.PipeServer.Close | source/windows/server.cpp:271-298 | closes every handle of `sockets` and empties all lists |
| Server.PipeServer.ScanPass | source/windows/server.cpp:114-148 | the loop with deferred removal through `to_kill` is the scan of the model |
| Server.PipeServer.AcceptLoop | source/windows/server.cpp:152-186 | the loop body by body; throughout, waiting plus pending minus `to_kill` is at most 8 |
| Server.PipeServer.AcceptPass | source/windows/server.cpp:150-190 | the loop with deferred removal is the accept pass of the model |
| Server.PipeServer.VerifyPass | source/windows/server.cpp:192-226 | the loop over the map is the verify pass of the model, and it calls CloseHandle once for each handle closed, in order |
| Server.PipeServer.Watch | source/windows/server.cpp:92-233 | the whole watcher loop is the run of the model, keeps the invariant and calls CloseHandle for exactly the handles that the run closes |
| Server.PipeServer.Serve | source/windows/server.cpp:28-298 | `create`, the watcher and `close`: the CloseHandle calls are those for the handles closed by the run, then one for each handle in `sockets` |
| Masks.MatchesIffBit | source/threadpool.cpp:95-96 | a mask matches worker i if and only if bit i of the mask is set |
| Masks.GuardFindsWorker | source/threadpool.cpp:115-125 | a mask that passes the early-exit test matches some worker, for every number of workers up to 31 |
| Masks.GuardPassesIff | source/threadpool.cpp:115-118 | a mask is admitted if and only if it matches some worker whose index is a bit of n - 1, for up to 31 workers |
| Masks.GuardWithoutWorkers | source/threadpool.cpp:115-118 | without workers n - 1 wraps around, and every mask with one of its 64 bits set is admitted |
| Masks.GuardRejectsLastWorker | source/threadpool.cpp:115-118 | for every number of workers up to 31, the mask of the last worker alone matches it and is rejected |
| Masks.GuardOnOneWorker | source/threadpool.cpp:115-118 | the mask of worker i alone is admitted if and only if bit i of n - 1 is set; with one worker no mask is admitted |
| Dispatch.Choose | source/threadpool.cpp:120-135 | the first of the least loaded eligible queues, or none if no eligible queue is below the maximum of size_t |
| Dispatch.DispatchIsOptimal | source/threadpool.cpp:120-138 | from any queue lengths, any bound that some placement of the same tasks keeps on the eligible queues is kept by least-loaded dispatch |
| Dispatch.DispatchIsFair | source/threadpool.cpp:120-138 | from empty queues, k pushes over n eligible workers leave floor(k/n) or ceil(k/n) tasks in each |
| Worker.ExactlyOnce | source/threadpool.cpp:40-88 | over every interleaving of pushes, steps, stops and of clears that find no task in hand: the task in hand is the queue front, every pushed task is in exactly one of run, cleared or ahead, and a worker that left its loop holds no task |
| Worker.CompletionKeepsPushOrder | source/threadpool.cpp:50-71 | the i-th entry to end is the i-th task pushed, and the rest are ahead in push order |
| Worker.RunKeepsKnown | source/threadpool.cpp:40-88 | in every run, clears at any time included, whatever is queued, in hand or ended is a task that was pushed |
| Worker.RemovalPopsItsTaskIffNotCleared | source/threadpool.cpp:57-79 | the removal pops the task in hand if and only if no clear came since the grab; otherwise it pops an empty queue or discards a task that never ran |
| Worker.WorkerDrains | source/threadpool.cpp:50-71 | a worker not told to stop runs every task pushed to it, in push order, within four of its steps a task and one more, whatever is pushed meanwhile |
| Worker.StopEnds | source/threadpool.cpp:50-71 | a worker told to stop leaves its loop within five of its steps and runs at most one more task, among any pushes and any clears that find no task in hand |
| Worker.StopRequestEnds | source/threadpool.cpp:30-71 | the same from the request on, however long ago it was made |
| Worker.StopStays | source/threadpool.cpp:30-37 | in every run a worker is told to stop if and only if a request was made |
| Worker.IdleRests | source/threadpool.cpp:62-69 | a worker with an empty queue waits after at most four steps and stays at the wait |
| Worker.Thread.Clear | source/threadpool.cpp:74-79 | the popping loop empties the queue and clears every entry in order |
| Worker.Thread.RunnerStep | source/threadpool.cpp:50-71 | one piece of the loop body is one step of the model |
| Worker.Thread.Runner | source/threadpool.cpp:40-72 | the loop among the calls of other threads is the run of the model |
| Pool.JudgeIff | source/threadpool.cpp:105-138 | each end of `push`: null exactly for a missing task, no function exactly for a task without one, bad mask exactly for a mask without the bit of a worker whose index is a bit of n - 1, false exactly if each worker with a bit in the mask has a queue at the maximum of size_t; otherwise the first least loaded of these workers |
| Pool.AcceptedIsAdmitted | source/threadpool.cpp:105-139 | in every run each accepted task has a function and the bit of a worker whose index is a bit of n - 1; without workers none is accepted |
| Pool.AdmittedTaskIsQueued | source/threadpool.cpp:115-138 | a task that passes the early-exit tests is queued at the first least loaded worker it matches, never refused with false, while queues are below the maximum of size_t |
| Pool.TasksMatchTheirWorker | source/threadpool.cpp:105-155 | in every run, clears at any time and stale queue lengths included, a task queued at a worker, in its hand, or run or cleared there has a function and a mask that matches the worker |
| Pool.PushesAreGreedy | source/threadpool.cpp:105-139 | k pushes of one admitted task turn the queue lengths into those of k least-loaded choices |
| Pool.PoolIsFair | source/threadpool.cpp:105-139 | k pushes to a new pool leave floor(k/m) or ceil(k/m) tasks at each of the m workers the task matches |
| Pool.PoolIsOptimal | source/threadpool.cpp:105-139 | from any state, k pushes keep every bound on the matching queues that some other placement of the k tasks keeps |
| Pool.RunInv | source/threadpool.cpp:105-155 | in every run, even if `push` acts on stale queue lengths, the tasks pushed at all workers are the accepted ones as a multiset |
| Pool.PoolConserves | source/threadpool.cpp:105-155 | with clears that find no task in hand, the accepted tasks are the disjoint union over the workers of run, cleared and waiting tasks |
| Pool.ClearEmptiesMatching | source/threadpool.cpp:141-155 | in each worker that an admitted mask matches, every queued entry ends as cleared, in queue order, and a worker without a task in hand has then ended every task ever pushed to it; no other worker is touched |
| Pool.RunSeen | source/threadpool.cpp:40-155 | seen from any worker, a run of the pool is a run of that worker |
| Pool.EveryAcceptedTaskEnds | source/threadpool.cpp:40-155 | after any run that nobody stops and whose clears find no task in hand, every accepted task comes to its end, those still ahead without being cleared, once each worker has taken four steps a task and one more, among any pushes |
| Pool.ThreadPool.LeastLoaded | source/threadpool.cpp:120-132 | the scan finds the choice of the model |
| Pool.ThreadPool.Push | source/threadpool.cpp:105-139 | each exception, false and true as in `JudgeIff`, and only the chosen queue changes |
| Pool.ThreadPool.Clear | source/threadpool.cpp:141-155 | throws if and only if the mask test fails, and clears the matching workers otherwise |
| Measurer.SumUpToIsSumLe | samples/benchmark/measurer.cpp:153-156 | the running sum over the first keys of the map is the sum over all samples of at most the last of these keys |
| Measurer.QuantileMonotone | samples/benchmark/measurer.cpp:118-169 | quantiles grow with the fraction, so each fraction has only one |
| Measurer.QuantileIsNearestRank | samples/benchmark/measurer.cpp:118-169 | the quantile is the entry at index ceil(q n) - 1 of the sorted list of all samples |
| Measurer.TimeQuantileMonotone | samples/benchmark/measurer.cpp:133-147 | quantiles by time grow with the fraction |
| Measurer.CountLePermutes | samples/benchmark/measurer.cpp:54-63 | how many samples are at most v does not depend on the order in which they were tracked |
| Measurer.AverageInRange | samples/benchmark/measurer.cpp:99-116 | the weighted average lies between the smallest and the largest sample |
| Measurer.Histo.Track | samples/benchmark/measurer.cpp:54-63 | the map remains the histogram of all samples tracked |
| Measurer.Histo.Count | samples/benchmark/measurer.cpp:65-80 | the number of `track` calls |
| Measurer.Histo.TotalDuration | samples/benchmark/measurer.cpp:82-97 | the sum of all samples tracked |
| Measurer.Histo.AverageDuration | samples/benchmark/measurer.cpp:99-116 | the mean of all samples, within their range; not a number just for an empty histogram |
| Measurer.Histo.PercentileByCall | samples/benchmark/measurer.cpp:148-168 | for p from 0 to 1.0005 and a non-empty histogram, the quantile at p - 0.0005 of all samples, hence never -1; above that always -1; for negative p the smallest key if its share of the samples is at most p + 0.0005, else -1 |
| Measurer.Histo.PercentileByTime | samples/benchmark/measurer.cpp:133-147 | the smallest sample not before the time smallest + (p - 0.00005)(largest - smallest); -1 if and only if there is a single key or p exceeds 1.00005; undefined just for an empty histogram |
| Waiting.WaitBound | source/windows/waitable.cpp:39-62 | k interruptions lengthen a wait by at most k (10^6 - 1) nanoseconds, and a wait of 0 by nothing |
| Waiting.WaitBoundAttained | source/windows/waitable.cpp:52-58 | the bound is reached for every positive timeout and every k |
| Waiting.KeepsTimeoutIff | source/windows/waitable.cpp:39-62 | a wait with k interruptions is sure to keep its timeout if and only if the timeout or k is 0 |
| Waiting.RemainingInRange | source/windows/waitable.cpp:52-57 | the timeout never grows and never becomes negative |
| Waiting.NeverEndsEarly | source/windows/waitable.cpp:52-57 | the time that interruptions take off the timeout has passed |
| Waiting.WaitLoop | source/windows/waitable.cpp:26-65 | the code after the loop is never reached; the first timeout passed to the system is the whole milliseconds of the duration, at least 0 and at most 2^31 - 1, and each interruption takes its whole milliseconds off it, down to 0; success, time-out, closed and failure are reported exactly for a last wait that is signalled, elapses, is abandoned or fails; the bound is kept, and if the last wait takes its whole timeout, all together take the first one at least |
| Waiting.Translate | source/windows/waitable.cpp:138-149 | the index list is the ascending list of the non-null positions, each with its handle, padded with null handles and index 0 |
| Waiting.WaitAny | source/windows/waitable.cpp:124-178 | fails at once, with nobody notified, unless every object is there and has a handle; otherwise it succeeds, times out, reports closed or fails exactly as the last wait is signalled, elapses, is abandoned or fails; when signalled, the index and the one object notified are those that the system reports |
| Waiting.EveryObjectPresent | source/windows/waitable.cpp:84-91 | every object that is not null is in the index list |
| Waiting.WaitAll | source/windows/waitable.cpp:67-122 | fails at once, with nobody notified, unless every object is there and has a handle; otherwise it ends exactly as the last wait does, notifies each object once if that is signalled or abandoned, and nobody if it elapses or fails |
| OverlappedQueue.RunInv | source/windows/overlapped-queue.cpp:21-66 | over runs that free only what is in use, free and used objects are duplicate-free, disjoint and all the objects made |
| OverlappedQueue.CreatedIsHighWaterMark | source/windows/overlapped-queue.cpp:21-66 | the objects made number max(backlog, peak use), and objects leave the free queue in the order in which they entered it |
| OverlappedQueue.PeakIsMost | source/windows/overlapped-queue.cpp:40-66 | the peak is the most objects in use at any moment of the run, and is reached |
| OverlappedQueue.AllocGivesUnused | source/windows/overlapped-queue.cpp:40-54 | the object handed out is the oldest free one, or a new one if none is free, and nobody else uses it |
| OverlappedQueue.FreeKeepsInvIff | source/windows/overlapped-queue.cpp:56-66 | a free keeps all this if and only if the object is in use: a second free and a foreign object both break it |
| OverlappedQueue.DoubleFreeHandsOutTwice | source/windows/overlapped-queue.cpp:40-66 | an object freed twice is in use at two places once everything free has been handed out |
| OverlappedQueue.Queue.AllocObject | source/windows/overlapped-queue.cpp:40-54 | hands out the oldest free object, or a new one |
| OverlappedQueue.Queue.FreeObject | source/windows/overlapped-queue.cpp:56-66 | the search loop removes the first occurrence from the used list |

## Left out

- Windows calls themselves: pipe creation, overlapped reads and writes, events, CancelIoEx, security attributes and thread affinity are oracles. ConnectNamedPipe on an overlapped pipe reports a pending connect as a failure on real systems; the oracle may answer anything.
- Partial reads: the code never looks at the number of bytes transferred, so a completed read fills its buffer.
- Reader.Connection.Turn: a pass is one step; what other threads do falls between passes, while listener changes and time-outs may fall inside one.
- Reader.Connection.Shut: `_disconnect` joining the watcher thread, from that thread itself or another, and the `on_close` listeners.
- Task cancellation, `is_completed` and waitable access of `windows::task` and `windows::overlapped`: one-line wrappers.
- Server: the connect callback captures loop variables by reference; it is modelled with the handle it was made for. The verify pass erases the element it iterates over; it is modelled as erase, then advance.
- Server.PipeServer.Watch: handle values that the system reuses after CloseHandle, and a `close` while a pass runs.
- The weak pointers of `active_sockets`: only the keys are kept; whether a socket expired or went bad is an oracle.
- Pool.ThreadPool.Push: the method reads all queue lengths at one moment. The runs of `Pool.RunInv` let them be stale.
- Worker: the unlocked write of `should_stop` may miss a waiting thread's wake-up; the model lets a waiting worker look again at any time.
- Masks.Affinity: worker indices up to 30, for which the shift of a 32-bit int is defined.
- Measurer: rounding of doubles, the uninitialised accumulators (taken as 0), the unused threshold, and `track` calls between the count and the copy of the map.
- Waiting.WaitAny: what the code does after an abandoned wait, which events never give; the place it looks up then lies beyond the list.
- Event listener lists, permissions, path conversion, logging, version macros and the sample programs: no algorithm beyond plumbing.
