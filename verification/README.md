# Verification of the Arda web gateway's backend

A Dafny model of the concurrent core of the gateway (`backend/internal/gateway`) and of the two stateful
services behind it (`backend/internal/suggestions`, `backend/internal/state`), with proofs of what the code
promises. `dafny verify dfyconfig.toml` checks everything.

## The five parts

**Session manager and command queue.** `CommandQueue.dfy`, `Manager.dfy` and `Metrics.dfy` hold the classes; each
critical section is a method proved against a function on an abstract value (`Queue`, `Registry`, `Counters`). Those
functions are the actions of the step system in `GatewaySystem.dfy`: a goroutine per API call, per upstream reader
and per queue worker, in which every lock operation, channel operation, connection operation and counter increment
is a step of its own, and any list of steps is a schedule. The manager's `RWMutex` is explicit, with a
writer that has announced itself and waits for readers. `GatewayInvariants`, `GatewayLedger` and `GatewayProgress` prove
what holds in every interleaving, the modules named below what holds under a condition and when exactly it holds.
`GatewayCounted` ties the counters to what the schedule says happened, `GatewayReaders` tells who reads a connection and
what ends it, and `GatewayDelivery` what becomes of a command when nobody gets in the way. `GatewayTheorems.dfy` collects
the results.

The repository's README (line 100) promises no automatic replay of unsent commands after a reconnect. The code does not
enforce it. `Start` does nothing while the old worker is still marked as running, so a command that was popped but not
yet written when `disconnect` began can go out on the next connection. `GatewayUndisciplined.dfy` constructs such
schedules: one that replays, from the initial state, for every configuration with a non-zero depth; and, from any state
of the invariant with free locks and a running connection, one that replays a held command, and one that leaves a
connected session without a worker. `GatewayOvertaking.dfy` constructs one in which a second worker sends a later
command first.

The *reconnect discipline* (`GatewayDiscipline.Disciplined`) is a condition on schedules: no connection is adopted
while some `disconnect` is between `connected = false` and the end of its `StopAndDrop`. Under it the promises
below hold. Each also has its exact condition, over every interleaving:

- no command reaches another connection: no adoption comes between a command's acceptance and the moment the sender
  picks up the connection (`GatewayMisdirection.MisdirectionExactly`);
- no command is even pending for an earlier connection: every adoption finds the queue empty and no popped command
  untried (`GatewayReconnect.FreshExactly`), which is sufficient for the former and not necessary;
- a connected session has a worker: no StopAndDrop section is entered while the session is connected and nobody is
  starting its queue (`GatewayServed.ServedExactly`);
- every command is counted: no StopAndDrop finds commands in a queue without a worker
  (`GatewayTheorems.ConservedExactly`);
- commands are tried in order: each attempt is made with the earliest command in any worker's hand
  (`GatewayOrder.OrderExactly`).

Order and pace need less than the discipline: that each worker is launched after all earlier ones have ended
(`GatewayLaunches.LaunchesAlone`).

**Upstream text.** `Telnet.dfy` has the resumable byte filter, `Decoder.dfy` CP1251 decoding with CR LF folding, the
in-place repair of the letter Ya, and the read loop. Both keep the exact laws: when a subnegotiation body leaks into the
data, which letters are repaired, and at which cuts the terminal text depends on how TCP cut the stream.

**WebSocket frames.** `Frames.dfy` has the printer, the streaming parser, their round trips for frames with any
header bits, and what becomes of a frame that breaks off. RFC 6455, sections 5.2 and 5.3.

**Suggestion scheduler.** `SuggestionService.dfy` has the service object, `Scheduler.dfy` its timers and job
goroutines as a step system, `SchedulerTheorems.dfy` what holds after every schedule, `SchedulerAnswers.dfy` what each
call, timer and answer leads to. `SuggestionText.dfy` reads a suggestion out of an
answer, `RecentLines.dfy` keeps the recent terminal lines, `Text.dfy` holds the string helpers of Go that they use.

**Snapshot stores.** `StateStore.dfy` has the two-table store and the store in memory, `StateTheorems.dfy` proves
both equal to one fold of deltas, and where they differ.

## Model

| member | source | states |
|---|---|---|
| GatewayTheorems.NoReplay | backend/internal/gateway/manager.go:223-250 | In every disciplined schedule, each connection a command was tried on is the one that was the session's when the command was accepted, also for a command popped but not written when a disconnect began |
| GatewayMisdirection.MisdirectionExactly | backend/internal/gateway/manager.go:223-240 | Over every interleaving, the exact law: nothing was tried or is being written on a connection other than the one it was accepted for, if and only if no connection was picked up for a command after which another connection had been adopted |
| GatewayMisdirection.ExecLinked | backend/internal/gateway/manager.go:224-229 | Over every interleaving: while the session is connected, a command was accepted for the current connection if and only if no adoption came after its acceptance |
| GatewayMisdirection.DisciplineIsInTime | backend/internal/gateway/manager.go:329-340 | In a disciplined schedule no connection is picked up for a command that an adoption has overtaken |
| GatewayReconnect.FreshExactly | backend/internal/gateway/manager.go:91-105 | Over every interleaving: no command is even pending for an earlier connection while the session is connected, and nothing was tried on another one, if and only if each adoption found the queue empty and no popped command untried; for the absence of replay alone this is sufficient and not necessary |
| GatewayReconnect.AdoptStale | backend/internal/gateway/queue.go:46-58 | An adoption that finds a command pending leaves it with a connection it was not accepted for |
| GatewayReplay.DisciplineIsSafe | backend/internal/gateway/manager.go:329-340 | In a disciplined schedule each adoption finds the queue empty and no popped command untried |
| GatewayTheorems.AcceptedWhileCurrent | backend/internal/gateway/manager.go:141-171 | In every interleaving a command enters the log only while the session is connected, and records the connection that is current at that step |
| GatewayTheorems.QueueIsAcceptedSuffix | backend/internal/gateway/queue.go:60-73 | In every interleaving the queue is the suffix of the accepted log behind the removed entries, which left in order; the depth stays within the maximum and the gauge shows it |
| GatewayTheorems.EachCommandOnce | backend/internal/gateway/queue.go:114-161 | In every interleaving an accepted command was popped if and only if it has been tried once or is in one goroutine's hand; it is never both popped and dropped, never tried twice |
| GatewayTheorems.CountersBalance | backend/internal/gateway/metrics.go:69-97 | In every interleaving accepted equals sent, failed, dropped, queued, in flight, and what a StopAndDrop without a worker dropped uncounted; the sent counter and the goroutines about to move it make up the attempts that succeeded, the failure counter likewise those that failed; the two drop counters differ by what lies between their increments |
| GatewayTheorems.CountersConserved | backend/internal/gateway/queue.go:85-146 | In every disciplined schedule nothing is uncounted: accepted equals sent, failed, dropped, queued and in flight, and each of the two outcomes is counted as what it was |
| GatewayTheorems.ConservedExactly | backend/internal/gateway/queue.go:91-94 | Over every interleaving: each of the two outcomes is counted as what it was; and accepted equals sent, failed, dropped, queued and in flight if and only if no StopAndDrop found commands in a queue without a worker |
| GatewayTheorems.OutcomesCounted | backend/internal/gateway/queue.go:130-142 | In every interleaving, for either outcome: its counter, plus the goroutines between the return of the sender and the increment, equals the attempts with that outcome, which are the writes that succeed, or that fail or find no connection, in the schedule |
| GatewayCounted.VerdictsCounted | backend/internal/gateway/queue.go:60-73 | In every interleaving the accepted commands are as many as the Enqueue sections that found fewer than the maximum waiting, and the rejected counter shows how many found the queue full |
| GatewayCounted.PutOutcome | backend/internal/gateway/queue.go:60-73 | A command that finds room is the last in the queue, with its text and the session's connection; one that finds none moves the rejected counter and nothing else |
| GatewayDelivery.EnqueueAccepts | backend/internal/gateway/manager.go:141-171 | From every state with free locks and a connected session with room, the steps of one Enqueue alone put its text at the end of the queue and end |
| GatewayDelivery.TickSendsHead | backend/internal/gateway/queue.go:120-146 | From every reachable state with free locks, a connected session, commands waiting and a tick waiting, the worker's steps alone write the oldest command to the session's connection, move the counter of the write's outcome and no other, and return to the select |
| GatewayDelivery.FirstCommandIsSent | backend/internal/gateway/queue.go:114-147 | From the start some schedule sends the first command to the first connection: one succeeding write counts one sent and no failure, one failing write the other way round |
| GatewayTheorems.SentInOrder | backend/internal/gateway/queue.go:120-146 | In every schedule whose workers never overlap, commands are tried in the order of acceptance, across reconnects too |
| GatewayOrder.OrderExactly | backend/internal/gateway/queue.go:120-146 | Over every interleaving, with overlapping workers too: attempts keep the order of acceptance and pass no command still in a hand, if and only if each attempt is made with the earliest command in any hand |
| GatewayOrder.LaunchedAloneInTurn | backend/internal/gateway/queue.go:46-58 | Workers that never overlap make each attempt with the earliest command in any hand |
| GatewayLaunches.DisciplineLaunchesAlone | backend/internal/gateway/queue.go:46-58 | In a disciplined schedule every launch finds all earlier workers ended |
| GatewayOvertaking.OvertakingHappens | backend/internal/gateway/queue.go:96-104 | Without that, whatever the configuration with a non-zero depth, some schedule from the start sends the second accepted command before the first: the old worker still holds it when a second worker is launched |
| GatewayTheorems.EachConnectionOneOwner | backend/internal/gateway/manager.go:91-111 | In every interleaving each dialled connection is exactly one of: the session's, held by one goroutine that will close or place it, closed once |
| GatewayReaders.ConnectedIsRead | backend/internal/gateway/manager.go:252-282 | In every interleaving the session's connection is on its way to a reader, has its reader, or is about to be taken away by a reader that failed |
| GatewayReaders.LeavesAreCaused | backend/internal/gateway/manager.go:272-280 | In every interleaving the critical sections of disconnect, done and waiting, are as many as the calls of Disconnect and the rounds of a reader whose deadline cannot be set or whose read fails otherwise than by a timeout or a closed connection |
| GatewayReaders.ConnectionEndsExactly | backend/internal/gateway/manager.go:312-335 | In every reachable state a connected session ceases to be connected exactly in such a section, whose goroutine then holds the connection; no other step takes or replaces it |
| GatewayTheorems.ChannelsCloseOnce | backend/internal/gateway/queue.go:96-115 | In every interleaving no channel is closed twice; a stop channel is the queue's, about to be closed by one goroutine, or closed; a done channel is closed exactly if its worker ended, after its stop channel |
| GatewayTheorems.SessionIsConsistent | backend/internal/gateway/manager.go:184-221 | In every interleaving at most one session is created, it is connected exactly if it stores a connection, and a non-empty queue means connected or a disconnect that has still to clear it |
| GatewayTheorems.LocksExclude | backend/internal/gateway/manager.go:141-150 | In every interleaving the explicit locks exclude each other as a Mutex and a RWMutex do |
| GatewayTheorems.ConnectedHasWorker | backend/internal/gateway/queue.go:46-58 | In every disciplined schedule a connected session has a live worker whose stop channel is open, or a Connect that holds the manager's lock is about to launch it; a session that nobody is leaving or connecting has no worker |
| GatewayServed.ServedExactly | backend/internal/gateway/queue.go:85-101 | Over every interleaving: throughout the run a connected session has a running queue or a Connect about to start it, if and only if no StopAndDrop section is entered while the session is connected and nobody is starting its queue |
| GatewayServed.DisciplineStopsInTime | backend/internal/gateway/manager.go:329-340 | In a disciplined schedule no StopAndDrop section comes that late |
| GatewayTheorems.RunningIsLive | backend/internal/gateway/queue.go:46-58 | Over every interleaving a queue that is marked running has a worker that has not ended and whose stop channel is open |
| GatewayProgress.WaitsDescend | backend/internal/gateway/queue.go:85-115 | Goroutines wait in one order only (done channel, manager lock, its readers, queue lock), so no circle of waiting exists, and nobody waits for a goroutine that is parked |
| GatewayProgress.NeverStuck | backend/internal/gateway/manager.go:329-340 | In every reachable state each goroutine that is not parked waits, through at most four others, for one that can step |
| GatewayProgress.EveryCallCanFinish | backend/internal/gateway/manager.go:312-340 | From every reachable state every API call can be brought to its end by steps of goroutines alone |
| GatewayPacing.PacingBound | backend/internal/gateway/queue.go:114-147 | In every schedule whose workers never overlap a window of length span holds at most span / interval + 2 hand-offs, across stops and restarts and with a buffered tick |
| GatewayPacing.TicksComeInTime | backend/internal/gateway/queue.go:117-124 | In every interleaving the ticker of a worker is due within an interval, and when it is due it can fire and leaves a tick waiting for the select |
| GatewayDiscipline.ExecOrderly | backend/internal/gateway/queue.go:85-112 | In every disciplined schedule at most one disconnect is in its window, and only while the session is not connected; all earlier workers have ended |
| GatewayUndisciplined.ReplayHappens | backend/internal/gateway/queue.go:46-58 | Without the discipline, whatever the configuration with a non-zero depth, some schedule from the start writes a command on a connection other than its own |
| GatewayUndisciplined.WindowReplays | backend/internal/gateway/queue.go:50-52 | From any state of the invariant with free locks and a popped command, one Connect inside the window makes the worker write that command on the new connection |
| GatewayUndisciplined.WindowLoses | backend/internal/gateway/queue.go:91-94 | From any such state with a running worker, one Connect inside the window leaves a connected session without a worker; the next command is accepted and dropped uncounted |
| GatewayUndisciplined.StaleReaderDetaches | backend/internal/gateway/manager.go:304-335 | A reader's error takes away whatever connection the session has, since the session id is the same for all connections |
| GatewayInvariants.ActKeeps | backend/internal/gateway/manager.go:91-340 | Each step of each goroutine keeps the shape of its program counter, its locks, the registry and its channels |
| GatewayLedger.ActBooks | backend/internal/gateway/queue.go:60-161 | Each step moves the goroutine's share of commands, drops, connections and channels and the shared books by the same amount |
| CommandQueues.CommandQueue.constructor | backend/internal/gateway/queue.go:33-44 | A new queue is the empty abstract queue |
| CommandQueues.CommandQueue.Start | backend/internal/gateway/queue.go:46-58 | Launches a worker with new channels exactly if none is marked running |
| CommandQueues.CommandQueue.AppendSlice | backend/internal/gateway/queue.go:69 | Appending to the sliding slice, in place or into a larger array, appends to the abstract queue |
| CommandQueues.CommandQueue.Enqueue | backend/internal/gateway/queue.go:60-73 | Appends below the maximum depth and sets the gauge; otherwise counts a rejection and changes nothing |
| CommandQueues.CommandQueue.StopAndDropLocked | backend/internal/gateway/queue.go:86-101 | Empties the queue, takes the channels of a running worker, reports how many commands went |
| CommandQueues.CommandQueue.CountDropped | backend/internal/gateway/queue.go:106-109 | Adds to both drop counters exactly if something was dropped |
| CommandQueues.CommandQueue.Pop | backend/internal/gateway/queue.go:149-161 | Takes the oldest command off the slice and sets the gauge; an empty queue stays as it is |
| CommandQueues.CommandQueue.Depth | backend/internal/gateway/queue.go:75-79 | The length of the abstract queue |
| GatewayMetrics.Metrics.constructor | backend/internal/gateway/metrics.go:57-59 | All counters start at zero |
| GatewayMetrics.Metrics.SetQueueDepth | backend/internal/gateway/metrics.go:69-71 | Sets the gauge and nothing else |
| GatewayMetrics.Metrics.IncQueueSent | backend/internal/gateway/metrics.go:73-75 | Counts one sent command and nothing else |
| GatewayMetrics.Metrics.IncQueueSendFailed | backend/internal/gateway/metrics.go:77-79 | Counts one failed command and nothing else |
| GatewayMetrics.Metrics.IncQueueRejected | backend/internal/gateway/metrics.go:81-83 | Counts one rejection and nothing else |
| GatewayMetrics.Metrics.AddQueueDropped | backend/internal/gateway/metrics.go:85-87 | Adds to the total of dropped commands and nothing else |
| GatewayMetrics.Metrics.AddQueueDroppedForSession | backend/internal/gateway/metrics.go:89-97 | Adds to the session's counter, creating it at zero; ignores the empty session and a count that is not positive |
| Managers.Manager.constructor | backend/internal/gateway/manager.go:69-85 | A new manager has no session |
| Managers.Manager.EnsureSessionLocked | backend/internal/gateway/manager.go:184-221 | Creates the one session, with an empty queue, if there is none; otherwise changes nothing |
| Managers.Manager.ConnectLocked | backend/internal/gateway/manager.go:98-113 | Adopts the connection with its host and port and starts the queue exactly if the session was not connected; otherwise leaves the session as it is |
| Managers.Manager.EnqueueLocked | backend/internal/gateway/manager.go:142-156 | Queues the command for a connected session and sets the gauge, counts a rejection when full, changes no counter when not connected |
| Managers.Manager.DetachLocked | backend/internal/gateway/manager.go:313-335 | Takes the connection exactly from a connected session whose id is the expected one or for which none is expected, and leaves queue and session otherwise as they are |
| Managers.Manager.WriteTarget | backend/internal/gateway/manager.go:224-230 | The connection of the session with this id, if it is connected |
| Telnet.TelnetFilter.constructor | backend/internal/gateway/manager.go:253 | A new filter is in the data state |
| Telnet.TelnetFilter.Filter | backend/internal/gateway/telnet.go:25-69 | The loop computes the filter function from the stored state and leaves the next state |
| Telnet.FilteredConcat | backend/internal/gateway/telnet.go:25-69 | Filtering two pieces in a row gives the output and the state of filtering the whole |
| Telnet.ChunkingIsInvisible | backend/internal/gateway/telnet.go:25-69 | The same for any list of chunks |
| Telnet.TokensInAnyChunking | backend/internal/gateway/telnet.go:31-66 | Filtering the wire form of any token list, cut anywhere, ends in the data state and gives the data and what subnegotiation bodies leak |
| Telnet.ExactlyTheData | backend/internal/gateway/telnet.go:57-65 | Exactly the data bytes come out if and only if no subnegotiation body holds 255 240 before its end |
| Decoder.FixSmaugYaArtifact | backend/internal/gateway/decoder.go:31-61 | The in-place loop turns into its small form every Ya whose nearest other rune to the left is one of the thirty-three small letters, and changes nothing else |
| Decoder.DecodeText | backend/internal/gateway/decoder.go:16-29 | The decoded bytes with CR LF folded, in which exactly those Ya that follow a small letter, with any number of Ya between, are small |
| Decoder.RepairedAt | backend/internal/gateway/decoder.go:39-55 | A Ya becomes small if and only if the nearest rune to its left that is not Ya is in the written-out alphabet of small letters; every other rune stays |
| Decoder.RepairIsIdempotent | backend/internal/gateway/decoder.go:31-61 | Repairing twice is repairing once |
| Decoder.SplitLaw | backend/internal/gateway/decoder.go:16-61 | The exact law in terms of bytes: decoding two pieces apart gives the text of the whole if and only if the cut is not inside CR LF, nor before a Ya that follows a small letter, with any number of Ya between |
| Decoder.SegmentationLaw | backend/internal/gateway/decoder.go:16-61 | The same for any list of pieces: two bad cuts never repair each other |
| Decoder.ReadUpstream | backend/internal/gateway/manager.go:252-283 | The read loop passes on exactly the text of each filtered chunk that is not empty, in order, up to the round that ends it, and says how it ends: quietly when the connection was closed here, with a disconnect on any other error, not at all on a timeout |
| Decoder.TextsAreSegmented | backend/internal/gateway/manager.go:257-270 | The texts passed on, put together, are the decodings of the pieces one by one |
| Decoder.LoopGoesOn | backend/internal/gateway/manager.go:257-282 | While the deadline is set and reads succeed or time out, all bytes are received and the loop goes on |
| Decoder.LoopEndsAt | backend/internal/gateway/manager.go:271-280 | The first other round ends the loop, quietly if the connection was closed here and with a disconnect otherwise; its bytes are the last received |
| Decoder.TerminalTextLaw | backend/internal/gateway/manager.go:257-270 | The terminal text is that of the unsegmented stream if and only if no cut, seen in the filtered stream, is a bad one |
| Frames.WriteTextFrame | backend/internal/gateway/wsframe.go:29-50 | Writes exactly the printed text frame with the shortest length form; if the connection takes only a part, that part has gone out and the error is returned |
| Frames.ReadFrame | backend/internal/gateway/wsframe.go:52-102 | Behaves as the parser on the stream, and the opcode is the number of the first byte modulo 16 |
| Frames.ReadPayloadLength | backend/internal/gateway/wsframe.go:60-79 | Computes the length field in its three forms, the refusal of a long one, and the error of a stream that ends or fails |
| Frames.ReadMaskedPayload | backend/internal/gateway/wsframe.go:81-99 | Computes the payload behind an optional key, or the error of a stream that ends or fails |
| Frames.Conn.Read | backend/internal/gateway/wsframe.go:53-56 | Gives all the bytes asked for or the error that io.ReadFull gives: end of file before the first byte, unexpected end behind it, or the connection's own error |
| Frames.Conn.Write | backend/internal/gateway/wsframe.go:48-49 | Writes all bytes, or a part and an error |
| Frames.Unmask | backend/internal/gateway/wsframe.go:95-99 | The in-place loop computes the masking |
| Frames.PutUint | backend/internal/gateway/wsframe.go:38-41 | Writes the big-endian digits over the last bytes |
| Frames.ParsesPrinted | backend/internal/gateway/wsframe.go:52-102 | Any frame a peer may send, final or not, with any reserved bits and any opcode below 16, in any length form, masked or not, is read back with exactly that opcode and payload, and nothing behind it; beyond the limit it is refused |
| Frames.ParsesOnlyPrinted | backend/internal/gateway/wsframe.go:52-102 | Whatever is returned was such a frame at the front of the stream, with the opcode and payload that were sent |
| Frames.BrokenFrameFails | backend/internal/gateway/wsframe.go:51-99 | A frame that breaks off anywhere is refused with the connection's error: EOF where the header, length, key or payload would have begun, an unexpected EOF inside one of them |
| Frames.BigEndianDigit | backend/internal/gateway/wsframe.go:65-79 | Octet i of a length on the wire is its digit of weight 256 to the power of the octets behind it |
| Frames.StreamRoundTrip | backend/internal/gateway/wsframe.go:52-102 | A stream of frames is read as exactly their opcodes and payloads, leaving exactly what follows them |
| Frames.TextFrameRoundTrip | backend/internal/gateway/wsframe.go:29-50 | The server's own frames use the shortest form that fits; they are read back up to 2^20 bytes and refused beyond |
| SuggestionService.Service.constructor | backend/internal/suggestions/service.go:59-78 | Non-positive settings become 700 ms and 80 lines; the service starts empty |
| SuggestionService.Service.IngestTerminal | backend/internal/suggestions/service.go:80-99 | Appends and trims the lines, takes the next job number, stops the old timer and arms a new one; a blank text changes nothing |
| SuggestionService.Service.Remember | backend/internal/suggestions/service.go:86-87 | Appends the text's lines to the session's, of which the last are kept, by index: as many as the maximum |
| SuggestionService.Service.Reschedule | backend/internal/suggestions/service.go:89-97 | Takes the next job number, stops the session's timer and arms a new one |
| SuggestionService.Service.MarkInFlight | backend/internal/suggestions/service.go:184-192 | Registers the job in the nested map and counts it |
| SuggestionService.Service.MarkCompleted | backend/internal/suggestions/service.go:194-211 | Removes the job and an inner map left empty, and counts down; an unknown job changes nothing |
| SuggestionService.Service.Commit | backend/internal/suggestions/service.go:169-181 | Publishes, and clears the error and its time, exactly if the number is the session's newest |
| SuggestionService.Service.SetLastError | backend/internal/suggestions/service.go:213-222 | Stores a trimmed message that is not blank, with its time |
| SuggestionService.Service.Status | backend/internal/suggestions/service.go:112-123 | Reports whether a job is in flight, and an error that is not blank with its time |
| SuggestionService.Service.Latest | backend/internal/suggestions/service.go:101-110 | What was published last, with the time it was generated, if anything was |
| SuggestionService.Service.CancelInFlight | backend/internal/suggestions/service.go:125-142 | Calls exactly the registered cancel functions, and answers whether any job was in flight |
| SchedulerTheorems.OneArmedTimer | backend/internal/suggestions/service.go:89-97 | After every schedule a session has at most one armed timer, and it carries the newest number |
| SchedulerTheorems.FiringsApart | backend/internal/suggestions/service.go:92-97 | After every schedule two firings for one session are at least the debounce time apart, also when timers fire late |
| SchedulerTheorems.EachNumberRunsOnce | backend/internal/suggestions/service.go:89-97 | After every schedule no job number of a session has been run by two goroutines |
| SchedulerTheorems.InFlightIsExact | backend/internal/suggestions/service.go:184-211 | After every schedule the counter is the size of the nested map and the number of goroutines between mark and completion, and no inner map is empty |
| SchedulerTheorems.CompletionFindsItsJob | backend/internal/suggestions/service.go:194-211 | markCompleted always finds its own job and a positive counter |
| SchedulerTheorems.CommitsIncrease | backend/internal/suggestions/service.go:172-177 | After every schedule the published numbers of a session strictly increase |
| SchedulerTheorems.OnlyNewestPublishes | backend/internal/suggestions/service.go:144-182 | A step changes the published suggestion if and only if it is the last section of a job that is still the newest, and then to that job's checked reply, clearing the error; a good reply always takes its job to that section |
| SchedulerTheorems.LatestIsValid | backend/internal/suggestions/service.go:298-326 | What is found as latest is the checked content of the reply committed last, stamped with the time it was parsed: commands present, trimmed and not empty, reason and outcome not blank |
| SchedulerAnswers.GoodReplyPublishes | backend/internal/suggestions/service.go:163-181 | After every schedule, whatever other goroutines do between the reply and the last section: a good reply is published with the time of its parsing and clears the error if and only if its number is then still the newest; otherwise nothing changes |
| SchedulerAnswers.BadReplyReports | backend/internal/suggestions/service.go:163-168 | A reply that fails the checks stores its trimmed complaint with the time, and leaves the published suggestion alone |
| SchedulerAnswers.FailedRequestReports | backend/internal/suggestions/service.go:156-161 | A failed request stores its trimmed error, unless it is blank, with the time, and nothing else |
| SchedulerAnswers.FailedPromptReports | backend/internal/suggestions/service.go:145-150 | A prompt that cannot be built stores its error with the time and ends the job |
| SchedulerAnswers.CallArms | backend/internal/suggestions/service.go:75-98 | After every schedule a text that is not blank gives its session the next number and one armed timer, due after the debounce time, in place of any armed before; other sessions and blank texts change nothing |
| SchedulerAnswers.DueTimerStarts | backend/internal/suggestions/service.go:95-97 | A timer can fire exactly if it is armed and due, and then a goroutine has started its job with its number |
| SchedulerAnswers.QuietCallPublishes | backend/internal/suggestions/service.go:75-182 | Whatever happened before: a text that no other follows within the debounce time leads to a job whose good reply is what Latest finds, with the error cleared and no trace left among the jobs in flight |
| SchedulerTheorems.StatusIsExact | backend/internal/suggestions/service.go:112-123 | After every schedule work is in progress exactly while some goroutine is between mark and completion; the stored error is trimmed and has a time, which has passed, exactly if there is one |
| SchedulerTheorems.RecentIsLastLines | backend/internal/suggestions/service.go:80-87 | After every schedule the stored lines of a session are, index by index, the last of all trimmed non-blank lines of its texts: as many as the maximum, or all |
| RecentLines.AppendLogLines | backend/internal/suggestions/service.go:358-370 | The loop appends exactly the lines of the text |
| RecentLines.LinesInOnePass | backend/internal/suggestions/service.go:359-361 | Folding twice, splitting, trimming and dropping gives the lines of one pass that ends a line at every CR and LF |
| RecentLines.FlushLaw | backend/internal/suggestions/service.go:363-367 | A part gives no line exactly if it is blank; otherwise one, which is the part without the blanks at its ends |
| RecentLines.LinesOfOneLine | backend/internal/suggestions/service.go:358-370 | Runes without a line end among them give the line of one part |
| RecentLines.CutLaw | backend/internal/suggestions/service.go:358-370 | The lines of two pieces are the lines of the whole if and only if the cut leaves one side of its line blank |
| RecentLines.CutAtTerminator | backend/internal/suggestions/service.go:358-370 | A cut beside a terminator, also inside CR LF, changes nothing |
| RecentLines.WindowLaw | backend/internal/suggestions/service.go:372-377 | Appending and trimming text by text stores, index by index, the last lines of all that came |
| RecentLines.WindowIgnoresCuts | backend/internal/suggestions/service.go:80-87 | Where the output was cut into texts beside a terminator does not show in what is stored |
| SuggestionText.IndexFence | backend/internal/suggestions/service.go:334-347 | The index found is that of the first fence marker, or there is none |
| SuggestionText.IndexNewline | backend/internal/suggestions/service.go:339-343 | The index found is that of the first line end, or there is none |
| SuggestionText.FenceExtraction | backend/internal/suggestions/service.go:328-356 | Of a body fenced between any prose, with any tag without a line end, the trimmed body is what remains, unless it is blank |
| SuggestionText.OnlyFencesAreCut | backend/internal/suggestions/service.go:328-356 | Whenever more than the outer blanks is cut off, the answer was such a fenced text and its body was not blank |
| SuggestionText.FencedLines | backend/internal/suggestions/service.go:328-356 | Wrapping a body without a marker in a fence on lines of its own is undone |
| SuggestionText.NormalizeIsIdempotent | backend/internal/suggestions/service.go:328-356 | Normalizing twice is normalizing once, on every string |
| SuggestionText.ParseSuggestionJson | backend/internal/suggestions/service.go:298-326 | The loop over the commands computes the checked suggestion or the first complaint |
| SuggestionText.TrimInPlace | backend/internal/suggestions/service.go:319-324 | The loop trims the commands in place and stops at the first blank one |
| SuggestionText.CheckedIsValid | backend/internal/suggestions/service.go:310-325 | A decoded answer is accepted if and only if it has commands, none of them blank, a reason and an outcome; the result is the answer with its commands trimmed, and is valid |
| SuggestionText.ComplaintsInOrder | backend/internal/suggestions/service.go:310-324 | Exactly which complaint comes out: commands, reason, outcome, then the first blank command |
| SuggestionText.CheckedIsStable | backend/internal/suggestions/service.go:310-325 | Checking a valid suggestion returns it |
| StateStore.MergeSnapshot | backend/internal/state/store.go:107-125 | The field updates and the loop over slots compute the merge |
| StateStore.CopyInto | backend/internal/state/store.go:121-123 | The loop over a map overrides entry by entry, in any order |
| StateStore.SQLiteStore.constructor | backend/internal/state/store.go:43-73 | Both tables start empty |
| StateStore.SQLiteStore.UpsertDelta | backend/internal/state/store.go:82-105 | Reads, merges and writes both tables; an unnamed session or an empty delta changes nothing |
| StateStore.SQLiteStore.UpsertSnapshot | backend/internal/state/store.go:127-164 | Writes the one row of the session, with NULL prompt columns and JSON null |
| StateStore.SQLiteStore.UpsertEquipment | backend/internal/state/store.go:166-191 | The loop writes one row for each slot and touches no other |
| StateStore.SQLiteStore.GetBySession | backend/internal/state/store.go:205-247 | Reads the session's snapshot out of both tables |
| StateStore.SQLiteStore.LoadEquipment | backend/internal/state/store.go:249-282 | The loop collects exactly the session's rows |
| StateStore.MemoryStore.constructor | backend/internal/state/service.go:61-63 | A new store has found nothing |
| StateStore.MemoryStore.UpsertDelta | backend/internal/state/service.go:65-79 | Merges into the one snapshot, whatever the session, and renames it unless the name is empty |
| StateStore.MemoryStore.GetLatest | backend/internal/state/service.go:81-102 | Returns an equal copy, if there is a snapshot |
| StateTheorems.ComposeAssociates | backend/internal/state/store.go:107-125 | Right-biased composition of deltas is associative |
| StateTheorems.ComposeUnit | backend/internal/state/parser.go:66-68 | The empty delta is its unit, and the only empty one |
| StateTheorems.MergeActs | backend/internal/state/store.go:107-125 | Merging is an action of composition: two merges are one merge of the composition |
| StateTheorems.ComposedConcat | backend/internal/state/store.go:107-125 | Deltas may be composed in any grouping |
| StateTheorems.UpsertIsRead | backend/internal/state/store.go:82-105 | What is read back is what was merged, although equipment rows are never deleted |
| StateTheorems.RowsAreStamped | backend/internal/state/store.go:94-103 | After any calls every equipment row belongs to a snapshot row and carries its time |
| StateTheorems.TablesAreFold | backend/internal/state/store.go:82-125 | After any calls for any sessions, a session is found if and only if it is named and something was told about it, and what is found is the fold of its deltas |
| StateTheorems.MemoryIsFold | backend/internal/state/service.go:65-79 | After any calls the store in memory holds the fold of all deltas and the last name that was not empty |
| StateTheorems.StoresAgree | backend/internal/state/service.go:36-79 | For one named session and deltas that are not empty both stores answer alike, with the fold |
| StateTheorems.IngestIsFold | backend/internal/state/service.go:36-45 | Whatever the parser is, either store answers with everything the session's texts told, and finds something if and only if something was told |
| StateTheorems.FoldIsLastTold | backend/internal/state/store.go:107-125 | The fold keeps of each part and each slot what was told of it last |
| StateTheorems.StoresAgreeExactly | backend/internal/state/service.go:69-77 | Whatever the calls for whatever sessions, the store in memory agrees with the tables on a session they have if and only if, part by part and slot by slot, the last thing told by anybody is the last thing told about that session |
| StateTheorems.OwnLastWordStands | backend/internal/state/service.go:69-77 | A part that nobody told, or that the session itself told last, is the same in both stores |
| StateTheorems.UnnamedSessionDiffers | backend/internal/state/store.go:83-85 | For the unnamed session the store in memory keeps what the tables refuse |
| StateTheorems.TwoSessionsDiffer | backend/internal/state/service.go:69-77 | For two sessions the store in memory answers with a slot told about the other one; the tables do not |

## Left out

- GatewayTheorems.NoReplay: stated under the reconnect discipline, because without it the property is false of the code (`GatewayUndisciplined.ReplayHappens`); the exact condition is `GatewayMisdirection.MisdirectionExactly`.
- GatewayTheorems.CountersConserved: stated under the discipline; without it commands can be dropped uncounted (`GatewayUndisciplined.WindowLoses`), exactly as `GatewayTheorems.ConservedExactly` says.
- GatewayTheorems.ConnectedHasWorker: stated under the discipline; without it a connected session can be left without a worker (`GatewayUndisciplined.WindowLoses`), exactly as `GatewayServed.ServedExactly` says.
- GatewayTheorems.SentInOrder: stated for workers that never overlap; overlapping ones can send out of order (`GatewayOvertaking.OvertakingHappens`), exactly as `GatewayOrder.OrderExactly` says.
- GatewayPacing.PacingBound: stated for workers that never overlap, since two of them have two tickers; a ticker fires exactly when due in the model, and the time a goroutine takes to notice is free.
- GatewayProgress.EveryCallCanFinish: says that the steps which finish a call exist in every reachable state, not that the Go scheduler, the network or a slow peer will take them in time.
- Frames.WriteTextFrame: a payload of 2^64 bytes or more is excluded, since no Go slice is that long.
- SuggestionText.ParseSuggestionJson: the strict JSON decoder is a parameter, and its two errors (not the expected object, more than one object) are one.
- Hub fan-out and Broadcast: events are not part of this model; they change no state that is modelled here, and closing a channel while Broadcast sends on it is not examined.
- The CP1251 table: an arbitrary code page that keeps ASCII, has the letters А to я and ё at their bytes, and neither Я nor a small letter anywhere else. Encoding of commands is not modelled; byte 255 is not doubled on the way out.
- Sockets: dial, read, write and the setting of a deadline succeed or fail at will, and a reader may meet an error at any time; how long a deadline is does not show.
- HTTP handlers, JSON encoding, the OpenRouter client, transcripts, configuration, logging, latency statistics and lastActivity: not part of this model.
- Connect, disconnect, Enqueue, run and runJob as single methods: they span several locks and goroutines, so their critical sections are methods, or functions that methods are proved against, and their order is in the step systems; the endless loop of run and of readUpstream appears as steps, the latter also as a method over the chunks read.
- Session ids are numbers in the gateway: "s-n" is n, the empty id is 0.
- The suggestion prompt's text: not part of this model.
- Cancellation of a running suggestion job: it shows only as a failed request, which the model allows at any time.
- Job numbers are unbounded; the source wraps at 2^64.
- The SQL engine: tables are maps and statements succeed. GetLatest of the two-table store is left out, as it compares times as text.
- The regex parser of terminal text: an arbitrary function from texts to deltas.
- Aliasing in the store in memory: GetLatest hands out an empty equipment map uncopied; values here are never shared.
- A nil slice and an empty one, a nil map and an empty one are one value in the stores; NULL columns and JSON null are kept apart.
