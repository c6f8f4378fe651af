# emme: a verified model of the server's core

emme is a small HTTP/1.1 and HTTP/2 server in C with a worker pool, a per-address
connection limiter, graceful shutdown, pooled backend connections behind a circuit
breaker, an asynchronous log and a metrics registry. This project models that core
in Dafny and proves what its parts promise, over every input, every run and every
interleaving of threads.

The models come in two layers. Value functions and datatypes say what one step
does. Beside them stand classes and methods in the form of the code (arrays
updated in place, scanning loops, fields), whose postconditions equate the new
state with the value function of the old one. Theorems about runs are proved on
the value functions, so they hold for the code form as well. Concurrency is a
state machine whose steps are the critical sections and the single atomic
operations; a run is any legal sequence of steps.

| file | subject |
|---|---|
| `IpLimiter.dfy`, `IpTable.dfy`, `IpRefinement.dfy`, `IpRuns.dfy`, `IpAgreement.dfy`, `IpAging.dfy` | the sharded slot table of live connections, its code, its runs, when it answers as a plain map does, and how long it remembers |
| `Server.dfy`, `ServerRuns.dfy`, `ServerShutdown.dfy`, `ServerFailures.dfy` | admission, dispatch, drain and signals as one machine, with the real slot table and the real task queue inside |
| `TaskQueue.dfy`, `JobQueue.dfy`, `ThreadPool.dfy` | the circular task queue, the connections it carries and can drop, worker slots, sleeping and waking |
| `LogRing.dfy` | the log ring with field-by-field copies and stale index reads |
| `MersenneTwister.dfy`, `Mt19937Words.dfy`, `RandomCallers.dfy` | the in-place random source behind request ids, its word operations, and threads that call it without a lock |
| `HttpText.dfy`, `HttpParser.dfy` | what a request head means, and the parser that cuts the buffer in place |
| `CircuitBreaker.dfy`, `ConnectionHealth.dfy`, `BackendPool.dfy`, `PoolOwnership.dfy`, `HealthChecker.dfy` | the backend side |
| `Histogram.dfy` | latency buckets and their cumulative counts |
| `Counting.dfy`, `Arithmetic.dfy`, `LinearMaps.dfy`, `Options.dfy` | shared definitions |

Some promises are false of the code as it stands. For these the project keeps the
code's behaviour, shows a failing run or input, and proves the exact condition:

- The task queue loses every queued task when it doubles with its front index at
  zero (`LossIsReachable`; exactly then: `PushAppendsIff`).
- Therefore an overloaded server loses admitted connections whose admissions are
  never repaid (`OverloadLosesConnections`). Admissions balance in a run if and only
  if no push of the run grows the queue with its front at zero (`BalanceIff`); the
  per-address limit holds in any case (`AdmissionsBalance`).
- The limiter's entry total is not the number of occupied slots once a stale slot
  has been taken over (`TakenOver`; exactly then: `TotalAccounting`).
- The address zero can be admitted beyond the limit, because zero also marks a slot
  that compaction emptied (`ZeroAddressIsAdmittedTwice`, and `ZeroHasCompany` for
  the hash in use). The table answers as the map does if and only if zero is not
  used or no other address of its shard is (`AgreesIff`).
- The drain's number of completed requests wraps to 2^64 - 1 when the one late
  connection outlives the deadline (`LateDispatchWraps`; exact condition in
  `DrainReport`).
- A log message can be accepted after the consumer has gone (`StopCanLose`; exactly
  when a producer was past the running check: `StopDeliversIff`).
- The parser and the header-end scan can disagree (`ScannersDisagree`), exactly when
  a NUL comes before the blank line (`ScannersAgree`).
- A drain can end without being forced if and only if the queue has dropped nothing
  (`DrainCanEndIff`).
- A release without an admission is harmless if and only if the address has no slot
  (`StrayReleaseIff`).
- With its default thresholds the health checker can never report a healthy
  backend (`HealthyIff`).
- Threads that call the random source at the same time can read behind its table
  (`FirstCallersRace`, `LaterCallersRace`); every read is inside if and only if there
  is at most one thread (`InRangeIff`).

## Model

| member | source | states |
|---|---|---|
| IpTable.Shard.Scan | src/ip_limiter.c:88-99 | one pass finds the address's slot or, when it has none, the first slot without connections |
| IpTable.Shard.OldestIdle | src/ip_limiter.c:140-158 | the eviction scan finds the idle slot seen longest ago, if and only if an idle slot exists whose time stamp is not the maximum |
| IpTable.Shard.CheckAndIncrement | src/ip_limiter.c:88-163 | new slots and answer are the value model's; the eviction branch is unreachable, so the last rejection means all 256 slots are busy |
| IpTable.Shard.Decrement | src/ip_limiter.c:173-187 | releases the first slot of the address, wraps at zero, marks for deletion when the last connection goes |
| IpTable.Shard.Compact | src/ip_limiter.c:212-227 | clears exactly the expired slots, counts them, and empties the shard when all were |
| IpTable.Table.constructor | src/ip_limiter.c:44-60 | an empty table of 256 separate shards |
| IpTable.Table.CheckAndIncrement | src/ip_limiter.c:77-164 | shard, total and rejection counters move together, as the value model says |
| IpTable.Table.Decrement | src/ip_limiter.c:166-188 | only the address's shard changes |
| IpTable.Table.CompactOne | src/ip_limiter.c:207-231 | compacting shard i leaves the others alone and returns its number of expired slots |
| IpTable.Table.CompactShards | src/ip_limiter.c:205-231 | all 256 shards are compacted and the removals add up |
| IpTable.Table.CompactNow | src/ip_limiter.c:203-236 | shards, total and time stamp become the value model's |
| IpTable.Table.CompactTable | src/ip_limiter.c:190-237 | the same, at most once per interval |
| IpTable.Create | src/ip_limiter.c:34-61 | refuses exactly the limits 0 and above 10000 |
| IpRefinement.BusySlots | src/ip_limiter.c:101-138 | a shard has as many busy slots as the map has live addresses in it |
| IpRefinement.Room | src/ip_limiter.c:101-163 | a slot can be had if and only if fewer than 256 addresses of the shard are live |
| IpRefinement.CheckHeld | src/ip_limiter.c:106-127 | a check of an address that keeps a slot, pending deletion or not, does what the map does |
| IpRefinement.CheckFresh | src/ip_limiter.c:101-163 | so does a check that recycles an idle slot, takes an unused one, or finds none |
| IpRefinement.ReleaseShard | src/ip_limiter.c:166-188 | a release of an admitted connection is the map's release |
| IpRefinement.CompactShard | src/ip_limiter.c:212-227 | compaction never changes what the map sees, whatever the clock reads |
| IpRefinement.CheckRefines | src/ip_limiter.c:77-164 | over the whole table: same answer as the map, and table and map stay in step |
| IpRefinement.ReleaseRefines | src/ip_limiter.c:166-188 | likewise for a release |
| IpRefinement.CompactRefines | src/ip_limiter.c:190-237 | likewise for a compaction |
| IpRuns.SweepInv | src/ip_limiter.c:207-231 | compacting one shard between other operations keeps the refinement and the law of the total |
| IpRuns.NextInv | src/ip_limiter.c:77-237 | every legal operation, with a compaction split into its steps, keeps the refinement and the law total = occupied + taken over + removed and not yet subtracted |
| IpRuns.RunInv | src/ip_limiter.c:77-237 | so does every interleaving over non-zero addresses |
| IpRuns.WithinLimit | src/ip_limiter.c:106-127 | no address ever has more live connections than the limit |
| IpRuns.CheckOccupied | src/ip_limiter.c:101-138 | filling a slot adds an occupied slot unless it takes one over |
| IpRuns.CompactOccupied | src/ip_limiter.c:212-227 | compacting a shard frees exactly as many occupied slots as it counts |
| IpRuns.TotalAccounting | src/ip_limiter.c:129-138 | in every interleaving total = occupied + taken over + removed and not yet subtracted; at rest it is the number of occupied slots if and only if nothing was taken over; the subtraction never goes below zero |
| IpRuns.TidyIsCompact | src/ip_limiter.c:190-237 | the steps of a compaction without interruption are the compaction of the whole table |
| IpRuns.TakenOver | src/ip_limiter.c:96-104 | x comes and goes, y of the same shard comes: the total is two, one slot is occupied |
| IpAgreement.ZeroCompact | src/ip_limiter.c:225-227 | with only the slot of zero in its shard, compaction empties the shard and leaves no slot with a zero address |
| IpAgreement.SafeRun | src/ip_limiter.c:77-237 | over a safe set of addresses every check of every interleaving has the map's answer |
| IpAgreement.AdmitsExactly | src/ip_limiter.c:77-164 | after every such run a check admits exactly when 0 < live < limit, or live = 0 and fewer than 256 addresses of the shard are live; the reported count is exact |
| IpAgreement.ZeroAddressIsAdmittedTwice | src/ip_limiter.c:212-227 | for every limit and every other address of the shard of zero, a run of the table after which zero is told it is the first connection although one is live |
| IpAgreement.ZeroHasCompany | src/ip_limiter.c:12-25 | the hash puts address 154 into the shard of zero, so the set of the two is not safe |
| IpAgreement.FiveLivesElsewhere | src/ip_limiter.c:12-25 | address 5 hashes to shard 147, so it can be used beside zero |
| IpAgreement.AgreesIff | src/ip_limiter.c:77-237 | over a set of addresses, every run that releases only admitted connections gets the map's answers if and only if zero is not in the set or no other member lies in its shard |
| IpAging.TimesNext | src/ip_limiter.c:120-136 | every operation keeps the time stamp of each slot equal to the last admission of its address |
| IpAging.KeepsSlotIff | src/ip_limiter.c:212-222 | in every interleaving, when a shard is swept at time t an address without live connections keeps the slot it had if and only if it was last admitted at most 60 seconds before t on the 64-bit clock; one with live connections keeps it |
| IpAging.CompactionsArePaced | src/ip_limiter.c:195-203 | compactions begin at least five seconds apart, and one begins whenever it is asked for five seconds or more after the last |
| IpAging.RejectionsAreExact | src/ip_limiter.c:114-118 | the rejection counter is the number of checks the map refused |
| IpAging.StrayReleaseIff | src/ip_limiter.c:177-185 | a release of an address with no live connection leaves the shard in step with the map if and only if the address has no slot; otherwise the count wraps to 2^32 - 1 |
| JobQueue.EnqueueAccounts | src/thread_pool.c:62-84 | a push adds its connection; every other one is still waiting or named as lost |
| JobQueue.DequeueAccounts | src/thread_pool.c:87-94 | a pop removes exactly the connection it hands out |
| JobQueue.EnqueueIntactIff | src/thread_pool.c:62-84 | a push loses nothing unless it grows with front at zero, and then loses every waiting connection |
| JobQueue.QueueKeepsIff | src/thread_pool.c:62-84 | a push appends its task whatever the new block holds if and only if it does not grow with front at zero |
| JobQueue.IntactFront | src/thread_pool.c:87-94 | in a queue that lost nothing the front task is a waiting connection, the oldest |
| JobQueue.LossLeavesJunk | src/thread_pool.c:68-94 | after a loss the second pop takes a slot in which nobody waits |
| Server.DebtsNext | src/server.c:489-543 | every step keeps: admissions = repayments + outstanding + dropped, and the table counts exactly the last two |
| Server.CountsNext | src/server.c:531-541 | every step keeps the in-flight number equal to the requests counted in and not yet out, dropped ones included |
| Server.LatenessNext | src/server.c:477-483 | every step keeps the laws about late requests and the drain |
| Server.QueueNext | src/server.c:534-541 | a step drops a connection if and only if it grows the queue with its front at zero, and nothing dropped comes back |
| Server.NextInv | src/server.c:434-544 | all of these together |
| ServerRuns.PhaseForward | src/server.c:617-647 | the shutdown phase never goes back |
| ServerRuns.RunInv | src/server.c:1188-1208 | the invariant and the phase order in every interleaving |
| ServerRuns.RunDrops | src/server.c:534-541 | a run drops a connection if and only if one of its pushes grows the queue with its front at zero |
| ServerRuns.AdmissionsBalance | src/server.c:1094-1125 | in every interleaving connections of one address that are queued, served or in the acceptor's hands, together with dropped ones, are what the limiter counts and never exceed the limit; each admission is repaid once, outstanding or dropped, on every failure path; in-flight is exact |
| ServerRuns.BalanceIff | src/server.c:489-543 | every admission is repaid or outstanding if and only if no push of the run grows the queue with its front at zero |
| ServerRuns.WorkersFindConnections | src/server.c:1094-1125 | until then the task a worker finds is always the oldest waiting connection |
| ServerRuns.AtMostOneLateDispatch | src/server.c:477-543 | at most one request is counted in after the server left RUNNING |
| ServerRuns.DrainReport | src/server.c:546-600 | the drain ends with nothing in flight or in FORCED; forced are exactly the requests queued, served, unfinished or dropped, at most peak + 1; completed are those finished since the signal less the late one; completed + forced = peak if and only if no more requests came late than finished since the signal |
| ServerShutdown.PhaseFromRun | src/server.c:617-647 | the phase told from the steps of any run: RUNNING until the first signal, FORCED from then on if it is an interrupt, else DRAINING until the drain reads a clock past the deadline with requests seen in flight, then FORCED; later signals change nothing |
| ServerShutdown.DrainEndsIff | src/server.c:555-580 | in every reachable state at the top of the drain loop the next step ends the drain, still in DRAINING and with nothing forced, if nothing is in flight, and goes on to the clock otherwise |
| ServerShutdown.DrainCanEndIff | src/server.c:546-600 | from every reachable state of the drain, it can still end by itself if and only if the queue has dropped nothing |
| ServerFailures.LateDispatchWraps | src/server.c:584-587 | a run in which the unsigned subtraction wraps |
| ServerFailures.OverloadLosesConnections | src/server.c:534-541 | 257 connections of one address within its limit and none taken: a run after which admissions no longer balance |
| TaskQueue.Queue.constructor | src/thread_pool.c:47-55 | an empty queue in the given block |
| TaskQueue.Queue.CopyTo | src/thread_pool.c:68-71 | unwraps the queued tasks in order into the new block and touches nothing else |
| TaskQueue.Queue.MakeRoom | src/thread_pool.c:63-78 | the growth step: none when there is room, refused without effect when out of memory |
| TaskQueue.Queue.TaskQueuePush | src/thread_pool.c:62-84 | fails only when full and out of memory, then without effect; otherwise the value model's push |
| TaskQueue.Queue.TaskQueuePop | src/thread_pool.c:87-94 | hands out the oldest task, or nothing when empty |
| TaskQueue.PushFifo | src/thread_pool.c:62-84 | a push appends, also when it doubles a wrapped buffer, unless it grows with front at zero |
| TaskQueue.PopFifo | src/thread_pool.c:87-94 | a pop removes the first task and keeps the rest in order |
| TaskQueue.PushAtZero | src/thread_pool.c:63-78 | growth with front at zero leaves the new task first and uninitialised memory behind it |
| TaskQueue.PushAppendsIff | src/thread_pool.c:62-84 | a push appends for every content of the new block if and only if it does not grow with front at zero |
| TaskQueue.RunFifo | src/thread_pool.c:62-94 | over every run that never grows with front at zero, handed out ++ queued = accepted |
| TaskQueue.GrowthAtZeroBreaks | src/thread_pool.c:63-78 | any growth with front at zero can break that law |
| TaskQueue.LossIsReachable | src/thread_pool.c:62-84 | 256 pushes on a new queue reach the exception, and the 257th drops all of them |
| ThreadPool.SlotTable.constructor | src/thread_pool.c:155-163 | the clamping of the thread bounds |
| ThreadPool.SlotTable.MarkThreadExit | src/thread_pool.c:96-103 | pushes the slot and decrements, each only under its guard |
| ThreadPool.SlotTable.ReserveSlot | src/thread_pool.c:226-235 | the slot choice: top of the free stack, else a new one, else none |
| ThreadPool.SharedPool.AddTask | src/thread_pool.c:211-248 | refused without effect after shutdown or when the queue cannot grow; otherwise push and, with more tasks than workers, one hire |
| ThreadPool.SharedPool.TakeTurn | src/thread_pool.c:111-138 | a worker with the lock sleeps, leaves or takes the oldest task, exactly as queue, shutdown and time-out demand |
| ThreadPool.CreatePool | src/thread_pool.c:147-207 | a pool exactly when there is room for a thread, memory, and all initial threads start |
| ThreadPool.ReserveSlots | src/thread_pool.c:226-235 | a reserved slot belongs to nobody |
| ThreadPool.HireBooks | src/thread_pool.c:225-243 | a hire conserves slots: a new one is at work or lost to a failed start |
| ThreadPool.LastOutFirstIn | src/thread_pool.c:96-103 | the slot of the worker that left last is the next to be used |
| ThreadPool.HiresIff | src/thread_pool.c:225-243 | in every reachable state before shutdown a new task starts a thread if and only if tasks outnumber threads and threads and lost slots leave room; a failed start loses the slot |
| ThreadPool.GrowsUnderLoad | src/thread_pool.c:211-248 | after n tasks that nobody takes there are n threads, within the minimum and the maximum |
| ThreadPool.TurnIff | src/thread_pool.c:111-138 | a worker leaves if and only if at its turn the pool is shut down or it times out with an empty queue above the minimum; it takes exactly one task when there is one, and sleeps otherwise |
| ThreadPool.ShrinksToMinimum | src/thread_pool.c:121-130 | from every reachable state with an empty queue, time-outs alone bring the threads down to the minimum |
| ThreadPool.ShutdownEmpties | src/thread_pool.c:133-137 | after shutdown every worker can leave, and what is queued stays undone |
| ThreadPool.GuardsHold | src/thread_pool.c:96-103 | for a live worker neither guard refuses |
| ThreadPool.ActInv | src/thread_pool.c:111-138 | a worker's turn keeps slot ownership, counts and the wake-up law |
| ThreadPool.AddedInv | src/thread_pool.c:211-248 | so does adding a task, with a successful, failed or impossible spawn |
| ThreadPool.DestroyInv | src/thread_pool.c:251-256 | so does the shutdown broadcast |
| ThreadPool.NextInv | src/thread_pool.c:106-256 | every step keeps the invariant |
| ThreadPool.RunInv | src/thread_pool.c:106-256 | every interleaving does |
| ThreadPool.NoLostWakeup | src/thread_pool.c:106-144 | before shutdown, with a task queued some live worker is not asleep; if any sleeps, at least as many are awake and heading for the queue as tasks are queued; after shutdown nobody sleeps |
| ThreadPool.SlotAccounting | src/thread_pool.c:211-259 | live workers own distinct slots apart from free and lost ones; threads + free + lost = created <= max; min <= threads <= max until shutdown; the join range covers every live worker |
| LogRing.SlotsDiffer | src/log.c:205-210 | positions less than one turn apart are different slots |
| LogRing.LogBuffer.constructor | src/log.c:145-192 | an empty ring of the configured size, or 1024 |
| LogRing.LogBuffer.LogMessage | src/log.c:195-221 | accepted exactly when running, severe enough and room is seen; a stale tail never overwrites an unread message |
| LogRing.LogBuffer.ConsumeOne | src/log.c:99-139 | takes the oldest message, or nothing when the head it read shows none |
| LogRing.NextInv | src/log.c:96-221 | every step of producers and consumer, split field by field, keeps the ring invariant |
| LogRing.RunInv | src/log.c:96-221 | every interleaving does |
| LogRing.RingSafety | src/log.c:96-221 | in every state unread messages never exceed the size, each is intact in its slot, and delivered ++ pending = accepted in order |
| LogRing.GivesUpIff | src/log.c:202-219 | in every reachable state a producer with the mutex gives up if and only if the tail it read shows a full ring; otherwise its next two steps publish its message |
| LogRing.ExitMeansDrained | src/log.c:99-99 | the consumer leaves only when all published messages are delivered |
| LogRing.DrainedAtExit | src/log.c:224-235 | after a quiet stop that stays so in every continuation |
| LogRing.ReaderFinishes | src/log.c:99-139 | left alone, the consumer of a stopped log delivers everything and leaves |
| LogRing.LateMessage | src/log.c:195-221 | a producer past the running check can publish after the consumer has left |
| LogRing.StopCanLose | src/log.c:195-235 | a run from the start in which a stop leaves an accepted message undelivered |
| LogRing.StopDeliversIff | src/log.c:195-235 | every way to finish after a stop delivers every accepted message if and only if no producer was past the running check |
| MersenneTwister.WordFollows | src/uuid.c:30-42 | which words of the old and the new block each position needs |
| MersenneTwister.BlocksFollow | src/uuid.c:30-42 | consecutive blocks of the recurrence follow one another in the in-place sense |
| MersenneTwister.Generator.SeedTable | src/uuid.c:19-22 | the seeding loop fills the first block |
| MersenneTwister.Generator.InitRandomState | src/uuid.c:14-25 | after seeding the table is the first block and the next word is the 624th |
| MersenneTwister.Generator.Regenerate | src/uuid.c:30-42 | the in-place refill turns a block into the next one, every index in range |
| MersenneTwister.Generator.Refill | src/uuid.c:29-44 | a refill happens exactly at the end of a block and keeps the position in the sequence |
| MersenneTwister.Generator.GenerateRandom | src/uuid.c:27-52 | returns temper of the next word of the recurrence, across refills |
| MersenneTwister.Generator.GetRandomUint | src/uuid.c:54-60 | seeds on first use and never again |
| MersenneTwister.Collect | src/uuid.c:14-60 | for calls one at a time and every n, the n-th value is temper(x[624+n]) of the first caller's seed |
| MersenneTwister.Stream | src/uuid.c:14-60 | the same with the 32-bit MT19937 operations |
| Mt19937Words.TemperIsLinear | src/uuid.c:46-51 | tempering is linear over exclusive or |
| Mt19937Words.TemperByte0 | src/uuid.c:46-51 | the tempered words of bits 0 to 7 |
| Mt19937Words.TemperByte1 | src/uuid.c:46-51 | of bits 8 to 15 |
| Mt19937Words.TemperByte2 | src/uuid.c:46-51 | of bits 16 to 23 |
| Mt19937Words.TemperByte3 | src/uuid.c:46-51 | of bits 24 to 31; with linearity these determine every output |
| Mt19937Words.MatrixIsLinear | src/uuid.c:31-33 | the twist's matrix is linear over exclusive or |
| Mt19937Words.MatrixLowBits | src/uuid.c:31-33 | its columns for bits 0 to 15 |
| Mt19937Words.MatrixHighBits | src/uuid.c:31-33 | its columns for bits 16 to 31 |
| Mt19937Words.Mt19937Recurrence | src/uuid.c:30-42 | x[k+624] is x[k+397] plus the matrix times the word with the top bit of x[k] and the other bits of x[k+1] |
| Mt19937Words.FirstWords | src/uuid.c:20-22 | the first four words of seed 5489 |
| RandomCallers.OneAtATime | src/uuid.c:27-60 | with any number of threads that call one at a time every read is inside the table |
| RandomCallers.CallsReadInOrder | src/uuid.c:27-60 | undisturbed calls read the words of a block in order and start again after 624 |
| RandomCallers.FirstCallersRace | src/uuid.c:54-60 | two first callers: the second seeds after the first refilled, and the first reads behind the table |
| RandomCallers.LaterCallersRace | src/uuid.c:29-46 | two callers at the last word: both pass the test, the second reads behind the table |
| RandomCallers.InRangeIff | src/uuid.c:27-60 | every read of every run is inside the table if and only if there is at most one thread |
| HttpText.PrintedLineParses | src/http_parser.c:19-40 | a printed request line reads back |
| HttpText.PrintedHeadersParse | src/http_parser.c:48-71 | printed headers read back, and the loop stops at the blank line |
| HttpText.RoundTrip | src/http_parser.c:8-75 | parse after print is the identity for every clean request, whatever body follows (message format of sections 3 and 5 of RFC 9112) |
| HttpText.ParsedIsClean | src/http_parser.c:8-75 | every request the parser produces is clean |
| HttpText.UpperCaseIff | src/http_parser.c:25-27 | the method characters are the 26 letters |
| HttpText.WhiteSpaceIff | src/http_parser.c:62-63 | the characters skipped before a value |
| HttpText.CleanIffParsed | src/http_parser.c:8-75 | the clean requests are exactly those the parser can produce |
| HttpText.HeadersStop | src/http_parser.c:50-71 | the header loop ends at the first blank line if and only if no NUL comes first |
| HttpText.ParsedRest | src/http_parser.c:70-74 | what remains is a suffix of the text |
| HttpText.ScannersAgree | src/server.c:63-74 | a successful parse stops at the blank line that find_header_end reports if and only if no NUL comes before it |
| HttpText.ScannersDisagree | src/http_parser.c:50-52 | behind any clean head a line with a NUL in it makes the parser stop before the blank line |
| HttpParser.FindCrlf | src/http_parser.c:14-15 | the line-end search stops at the first line end before any NUL |
| HttpParser.FindChar | src/http_parser.c:21-22 | the character search finds the first occurrence in the line |
| HttpParser.SkipSpaces | src/http_parser.c:62-63 | the value starts at its first character that is not white space |
| HttpParser.CheckUpper | src/http_parser.c:25-27 | accepts exactly upper-case names |
| HttpParser.StartsWith | src/http_parser.c:40-40 | accepts exactly the strings with the prefix |
| HttpParser.SplitAt | src/http_parser.c:55-58 | cuts the line in two strings at the first occurrence and changes no other byte |
| HttpParser.SplitMethod | src/http_parser.c:19-28 | the method string, accepted if and only if it is not empty and all upper case |
| HttpParser.SplitTarget | src/http_parser.c:30-40 | the path and version strings |
| HttpParser.SplitRequestLine | src/http_parser.c:19-40 | the three strings of the line, accepted exactly as the text model says |
| HttpParser.FieldAndValue | src/http_parser.c:59-63 | field and value strings of a line cut at its colon |
| HttpParser.SplitHeader | src/http_parser.c:55-63 | the same from the whole line, refused exactly without a colon |
| HttpParser.NextHeader | src/http_parser.c:51-70 | one turn of the loop, with everything before and after the line unchanged |
| HttpParser.SplitHeaders | src/http_parser.c:48-71 | the whole header loop: verdict, strings in the buffer, and where the cursor stops |
| HttpParser.FirstLine | src/http_parser.c:13-43 | the first line, its length limit and its three strings |
| HttpParser.ParseHttpRequest | src/http_parser.c:8-75 | succeeds exactly when the text parses; afterwards the strings at the stored offsets are the parsed request and the cursor stands at the rest |
| HttpParser.FindHeaderEnd | src/server.c:63-74 | the index just past the first blank line, or -1 if there is none |
| CircuitBreaker.CircuitBreaker.constructor | src/backend_pool.c:548-569 | a closed breaker with zero counters |
| CircuitBreaker.CircuitBreaker.AllowRequest | src/backend_pool.c:582-614 | verdict and new state of an admission request |
| CircuitBreaker.CircuitBreaker.Succeeded | src/backend_pool.c:616-638 | new state after a success, in each position |
| CircuitBreaker.CircuitBreaker.Failed | src/backend_pool.c:640-667 | new state after a failure, in each position |
| CircuitBreaker.Accounting | src/backend_pool.c:582-667 | in every history: half-open successes = 2 * closes + success count, which is at most 1; opens = half-open entries + [open]; opens from closed = closes + [not closed]; while closed the failure count is the failure streak and below the threshold |
| CircuitBreaker.Moves | src/backend_pool.c:582-667 | when a call moves the breaker, told from the history: out of CLOSED exactly by the failure that brings the streak to the threshold, out of HALF-OPEN by any failure or every second success, out of OPEN by the first request the recovery time after the opening |
| CircuitBreaker.OpensAtThreshold | src/backend_pool.c:659-663 | over a whole history the breaker leaves CLOSED exactly at the failures that bring the streak to max(1, threshold) |
| CircuitBreaker.FailuresOutsideClosed | src/backend_pool.c:648-667 | outside CLOSED the failure count is the opening streak plus the re-openings since |
| CircuitBreaker.ChangeTime | src/backend_pool.c:596-661 | the last state change is the time of the last call that moved the breaker, or its start |
| CircuitBreaker.OpeningTimes | src/backend_pool.c:582-667 | with a forward clock openings are at least the recovery time apart and the last failure time is the last opening |
| CircuitBreaker.OpenPeriods | src/backend_pool.c:582-614 | an open breaker admits exactly from recovery time after it opened, and any other position admits |
| CircuitBreaker.OpeningsSpread | src/backend_pool.c:640-667 | (opens - 1) * recovery <= last opening - first opening |
| CircuitBreaker.SuccessesStraddle | src/backend_pool.c:616-638 | the two closing successes may lie on both sides of an open period |
| ConnectionHealth.Streaks | src/backend_pool.c:242-275 | the two counters are the lengths of the final runs of equal marks |
| ConnectionHealth.ReconnectKeepsStreaks | src/backend_pool.c:190-199 | a failed reconnect leaves both counters as they are |
| ConnectionHealth.HealthFromHistory | src/backend_pool.c:242-275 | with one mark per hold: unhealthy if and only if three failures in a row or a failed reconnect occurred, else healthy if and only if two successes in a row ever occurred |
| ConnectionHealth.RecoveryNeedsTwoMarks | src/backend_pool.c:242-257 | an unhealthy connection recovers only by two successes in a row within one hold |
| BackendPool.CreatePool | src/backend_pool.c:82-140 | refuses sizes out of range, else holds the connections made before the first failure |
| BackendPool.Pool.constructor | src/backend_pool.c:119-134 | new idle connections and exact counters |
| BackendPool.Pool.TryTake | src/backend_pool.c:174-213 | one turn of the scan: takes a fit connection, marks a stale one whose reconnect failed, leaves any other alone |
| BackendPool.Pool.Acquire | src/backend_pool.c:164-221 | the first fit connection, or none; stale ones whose reconnect failed become unhealthy; nothing else changes; counters stay exact |
| BackendPool.Pool.Release | src/backend_pool.c:223-240 | frees the connection, stamps it, moves both counters, which are exact afterwards if and only if it was in use |
| BackendPool.Pool.MarkConn | src/backend_pool.c:242-275 | marks one connection and leaves the counters exact |
| BackendPool.Conclude | src/router.c:697-728 | mark, tell the breaker, release |
| BackendPool.Exchange | src/router.c:695-728 | send and receive, and one result for connection and breaker on every path |
| BackendPool.ProxyPooled | src/router.c:670-729 | asks the breaker once and, if admitted, records exactly one result; a connection taken is marked once with that result and released on every path; no other connection changes except by a failed reconnect |
| BackendPool.ProxyHistory | src/router.c:678-728 | a proxied request adds to the breaker's history one question and, if admitted, one result: a success if served, a failure otherwise, also without a connection |
| BackendPool.ProxyStreak | src/router.c:687-692 | so in a closed breaker every admitted request that fails adds one to the failure streak and opens the breaker exactly at the threshold |
| PoolOwnership.CountersNext | src/backend_pool.c:164-240 | every step keeps both counters off by exactly the updates under way |
| PoolOwnership.NextInv | src/backend_pool.c:164-240 | every step keeps ownership exclusive, one scanner, and the counter law |
| PoolOwnership.RunInv | src/backend_pool.c:164-240 | so does every interleaving |
| PoolOwnership.StaysUnhealthy | src/backend_pool.c:174-200 | no step brings an unhealthy connection back |
| PoolOwnership.ExclusiveAndCounted | src/router.c:687-728 | no connection is held by two callers; when no update is under way active + idle = size and active is the number in use |
| PoolOwnership.UnhealthyForever | src/backend_pool.c:174-200 | a connection once unhealthy is never handed out again |
| PoolOwnership.HealthIsVerdict | src/backend_pool.c:164-275 | in every interleaving the health of each connection is the verdict on its recorded holds and reconnects |
| PoolOwnership.TakenIff | src/backend_pool.c:174-213 | in every interleaving a scan takes a connection if and only if nobody has it, its history is not unhealthy, and it was made, reconnected or given back at most 60 seconds ago or the reconnect succeeds |
| HealthChecker.HealthCheckThread.constructor | src/backend_pool.c:429-451 | zero counters, verdict unknown |
| HealthChecker.HealthCheckThread.CheckRound | src/backend_pool.c:392-423 | counters and verdict after one round |
| HealthChecker.OneStreak | src/backend_pool.c:322-357 | at most one streak counter is positive in any run, and the totals count the rounds |
| HealthChecker.Streaks | src/backend_pool.c:322-357 | the counters are the lengths of the run of rounds that ends the history |
| HealthChecker.UndecidedIsUnknown | src/backend_pool.c:322-357 | before any round decides the verdict is unknown |
| HealthChecker.LastDecisionHolds | src/backend_pool.c:322-357 | afterwards it is what the last deciding round says: a failed acquire, or a run just ended and a run now long enough for both thresholds |
| HealthChecker.NeverHealthy | src/backend_pool.c:322-338 | with healthy threshold >= 2 and unhealthy threshold >= 1 the verdict never becomes healthy |
| HealthChecker.HealthyIff | src/backend_pool.c:322-338 | the verdict can become healthy if and only if the healthy threshold is at most 1 or the unhealthy one at most 0 |
| HealthChecker.OnlyAcquireDecides | src/backend_pool.c:392-404 | with both thresholds >= 2 the verdict is unhealthy from the first failed acquire on and unknown before |
| HealthChecker.UnhealthyByChecksIff | src/backend_pool.c:340-357 | failing checks alone can make it unhealthy if and only if the unhealthy threshold is at most 1 or the healthy one at most 0 |
| Histogram.Data.constructor | src/metrics.c:21-23 | fourteen increasing bounds and no values |
| Histogram.BoundsByDecades | src/metrics.c:21-23 | the bounds step by 1, 2.5 and 5 within each power of ten |
| Histogram.TotalOfParts | src/metrics.c:168-168 | the sum of all values is the sum over any split of them |
| Histogram.Data.Record | src/metrics.c:156-171 | the value goes into the first bucket that can hold it; counts, number and sum describe all values recorded |
| Histogram.Data.Cumulative | src/metrics.c:306-326 | the count printed for a bound is the number of values up to it; counts do not decrease and stay within the total |
| Histogram.BucketStep | src/metrics.c:306-310 | values up to a bound = values up to the bound before + values in this bucket |

## Left out

- TLS, nghttp2, io_uring, sockets, poll loops and the HTTP/2 client: foreign calls; where they matter they are inputs that succeed or fail (`reconnects`, `sendOk`, `receiveOk`, `starts`).
- Clocks, entropy and the contents of fresh memory: parameters of the operations.
- `config.c`, the rest of `router.c`, `http2_response.c` and the rest of `metrics.c`: text assembly, file access and range checks that would only add easy members.
- Log formatting, rollover by date and the text layout of request ids; a log entry is a level and a text.
- The C memory model and 64-bit wrap-around of head, tail and counters that only grow: steps are sequentially consistent, with stale index reads where the code allows them.
- Circuit breaker calls that race on its separate atomics, and a breaker that is switched off: the laws are about calls one at a time with an enabled breaker.
- Null arguments and the error returns that report them.
- malloc and free lifetimes, mutex and thread handles; allocation and thread-creation failure appear as branches only.
- The signal handler is one step of the machine in `Server`, and the drain loop and the accepting thread are modelled as steps on values, not as methods: other threads act between any two of their operations.
- What a worker does with a slot in which no connection waits: a run of `ServerRuns` ends before that; `ServerRuns.WorkersFindConnections` and `JobQueue.LossLeavesJunk` say when it can happen.
- IpAgreement.AdmitsExactly: releases without an admission are outside; for the address zero see `IpAgreement.AgreesIff`.
- ServerRuns.AdmissionsBalance: client addresses other than zero; what zero adds is `IpAgreement`.
- IpRuns.TotalAccounting: the address zero is outside, because the count of occupied slots does not see its slot.
- MersenneTwister.Stream: calls one at a time. The server's workers call the generator without a lock; `RandomCallers` models what that does to the index, not what it does to the words.
- BackendPool.Pool.MarkConn: the streak counters do not wrap at the width of a C int.
- Histogram.Data.Record: values are real numbers, so rounding and not-a-number are not modelled.
- HttpText.RoundTrip: the request id that the parser adds is not part of the model's request.
