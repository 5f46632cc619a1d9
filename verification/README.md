# nvme.device I/O path: a Dafny model

nvme.device is an AmigaOS NVMe driver. One task per controller (the "unit task")
takes IOStdReqs from a message port, cuts large ones into chunks, puts NVMe
commands on a submission ring, drains the completion ring, retries, cancels and
replies. This project models that data path and a few self-contained loops
beside it, and proves what must hold in every run.

| file | what it models |
|---|---|
| Base.dfy | word sizes, the controller page, error codes |
| Arith.dfy | powers of two, division and remainder, for the nonlinear steps |
| Seqs.dfy | the order in which a stack is emptied, shared by two loops |
| Tags.dfy | command identifiers: in-flight table, free stack, 4-bit generations; as values and in the two arrays |
| Ring.dfy | the submission/completion ring pair with an arbitrary device; as a transition system and in the two arrays |
| Prp.dfy | `build_prps` against a device-side list walker |
| Chunk.dfy | transfer limits and the size of one chunk, in 32-bit arithmetic |
| IoCore.dfy | the transport half of a request: tag, ring slot, retry list, memory ledger |
| IoBook.dfy | the ownership half: who holds each IOStdReq, chunk tilings, replies |
| IoPath.dfy | the two halves as one state machine: dispatch, pump, completion, retry, watchdog resubmission, cancel, stop |
| IoTheorems.dfy | what holds after every run of that machine |
| IoFlush.dfy | ends without a refill: flushing the queue, and the answers at task exit |
| IoRetry.dfy | the Command Retry Delay: who waits, how long, and what a watchdog tick resubmits |
| IoLost.dfy | lost requests: when exactly, and that it is for good |
| IoStop.dfy | shutdown: exactly which IOStdReqs are left without an answer |
| IoRing.dfy | the ring's full test in terms of requests: what a completion or a tick loses, counted in tags |
| IoRuns.dfy | concrete runs, step by step, on a queue of any depth |
| IoKeep.dfy | what no step takes back, and that every job is the one its command asked for |
| IoSend.dfy | one command, and one pump: sent, held up or failed, and with which code |
| IoAsk.dfy | dispatch: which commands are refused, and with which error |
| IoDone.dfy | what a completion, a cancel and a tick leave of request, context and IOStdReq |
| IoCause.dfy | whose status a completed request carries, and where a first error comes from |
| UnitTask.dfy | the machine's loops, and the unit task with its back-pressure FIFO |
| Lba.dfy | byte offset or SCSI CDB to block address and count |
| Hmb.dfy | the greedy Host Memory Buffer allocator |
| Decimal.dfy | nvmeadm's wide-integer arithmetic and decimal printer |
| Watchdog.dfy | the timeout sweep |
| NsScan.dfy | the active-namespace scan |

**How the I/O path is stated.** `IoPath.Step` is one step of the unit task;
`IoPath.Run` strings any steps together in any order. The environment (`Env`) is
arbitrary: it decides every allocation, every "does this buffer need a bounce"
test and every clock reading. Completions may carry any CID and any status. The
records hold, beside the driver's own fields, history that says what happened:
which chunks a context submitted, what was written to the ring for each request,
the final status of every request, every reply in order, every block freed wrongly,
and every request lost. `IoPath.Rest` is the
invariant between two steps.

**From the command to the answer.** What a client asked for is what goes out: after
every run the job behind an IOStdReq, held, lost or answered, has the direction,
address, length and buffer of its own command (`IoKeep.JobsAsAsked`), and the
commands on the ring are that job's parts (`IoTheorems.ContextTiles`). What the
controller said is what comes back: a completed request carries the status its
controller reported last, or that of a cancel or a failed resubmission
(`IoCause.StatusAsHeard`); a single-shot answers with the error its status stands
for (`IoDone.CqeEnds`), and a chunked transfer with the error that came first
(`IoCause.FirstErrorStep`, `IoCause.LatchedForGood`). `IoKeep.Acknowledged` puts
the two together for reads and writes. These statements name statuses, codes and
fields of the command, not the functions that compute them.

**The two ways an IOStdReq is never answered.** "Every accepted IOStdReq is
answered" is false of the code, in two ways.

*A full ring.* A resubmission refused by a full ring destroys its request, and both
callers ignore the result (nvme.device/src/nvme/nvme_completion.c:214,
nvme.device/src/nvme/nvme_queue.c:459). The model keeps this as an outcome of its
own (`IoBook.Lose`), and IoLost.dfy says exactly when it happens. A completion
loses its request if and only if it is to be retried without delay and the ring
is full (`IoLost.OnCqeLoses`). A watchdog tick loses a due request if and only if
at its turn a tag is left but no ring slot (`IoLost.TickLoses`). Whatever follows,
nobody answers for a lost request (`IoLost.LostForGood`). `IoRuns.LostFlush` is
such a run on a queue of any depth. Where every completion names an occupied slot
and every published head is the count consumed (`IoRing.Honest`;
`Ring.EveryInterleaving` shows that the heads are), a full ring comes down to
counting: the commands in flight and the
completions consumed in this pass make depth - 1 (`IoRing.RefusesExactly`). So a
tick, which runs between two passes, loses exactly the due requests beyond the
free tags but one (`IoRing.TickLosesTail`).

*The retry list at shutdown.* Shutdown cancels what is in the in-flight table, and
the unit task's exit answers what is held back or parked on `ctx_stalled`; nothing
looks at `retry_list`. From any state, flush and exit leave an IOStdReq unanswered
if and only if a request on the retry list, or one lost before, works for it
(`IoStop.ShutdownLeaves`; `IoStop.StopLeaves` for an exit without a flush).
`IoRuns.ForgottenFlush` is such a run.

Every other result says what it says with both cases included.

**Where the code and its comments part.** The comment above `build_prps` says the
last entry of the final list page may hold a data pointer, and counts 512 entries
a page. The code puts at most 511 entries in a page and chains in the last slot
whenever anything remains, so with 511k + 1 listed pages (first at 512 pages, a
transfer of about 2 MiB) a device following section 4.3 of NVM Express 1.4 takes
the chain pointer for a data page. `Prp.BuildPrps` proves the exact set of page
counts; `Prp.MisreadTransfer` is one of them. The same comment cites section
4.1.2 for what is section 4.3. In `nvme_alloc_host_mem` the gathered byte count can exceed
what the descriptors announce when the preferred size is below 16 MiB;
`Hmb.ExactIff` and `Hmb.HalvesOddPart` say exactly when, `Hmb.FivePages` is a case. A retry delay above 2^31
microseconds (CRDT above 21474) is not honoured: the signed 32-bit comparison
takes it for past (`IoRetry.DelayHonouredIff`, `IoRetry.CrdtTooLong`). A single-shot read or write
answers io_Actual = io_Length, although only whole blocks move: the two agree
exactly when io_Length is a multiple of the block size (`IoTheorems.ActualIff`,
`IoRuns.OverReported`). `mul_u128_small` is exact for every counter exactly up to
multipliers of 2^24 (`Decimal.MulExactIff`); its one caller uses 512000.

## Model

| member | source | states |
|---|---|---|
| Tags.CidCodec | nvme.device/include/nvme/nvme_queue.h:145-160 | generation and tag are exactly the 16 bits of a CID |
| Tags.InitValid | nvme.device/src/nvme/nvme_queue.c:118-124 | the fresh stack holds every tag once and hands out tag 0 first |
| Tags.TakeValid | nvme.device/include/nvme/nvme_queue.h:136-167 | taking a tag keeps the partition, hands out a free tag stamped with its release count mod 16, and fails exactly on an empty stack |
| Tags.ReleaseValid | nvme.device/include/nvme/nvme_queue.h:145-160 | releasing keeps the partition and stamps the next generation |
| Tags.CountIsBusy | nvme.device/include/nvme/nvme_queue.h:136-167 | free stack and occupied slots split [0, depth) and inflight_count counts the latter |
| Tags.RunValid | nvme.device/include/nvme/nvme_queue.h:136-167 | the partition survives every sequence of takes and releases |
| Tags.StaleCqe | nvme.device/src/nvme/nvme_queue.c:243-263 | after any run, a completion for an earlier use is matched exactly when the slot is busy and the tag was released a multiple of 16 times since |
| TagArrays.TagTable.constructor | nvme.device/src/nvme/nvme_queue.c:104-124 | the arrays start as the fresh pool |
| TagArrays.TagTable.AllocCid | nvme.device/include/nvme/nvme_queue.h:162-167 | the in-place pop is the pool's |
| TagArrays.TagTable.Claim | nvme.device/include/nvme/nvme_queue.h:136-143 | the in-place claim is the pool's |
| TagArrays.TagTable.Release | nvme.device/include/nvme/nvme_queue.h:145-160 | the in-place release is the pool's and never overruns the stack |
| Ring.InitValid | nvme.device/src/nvme/nvme_queue.c:75-101 | zeroed rings with phase 1 satisfy the ring invariant |
| Ring.FullExact | nvme.device/src/nvme/nvme_io.c:592-600 | comparing the next tail with the host's own CQ head refuses exactly when depth - 1 commands are not yet behind that head |
| Ring.UnpublishedExact | nvme.device/src/nvme/nvme_io.c:536-544 | the tails differ exactly when something is unpublished |
| Ring.SubmitValid | nvme.device/src/nvme/nvme_io.c:592-640 | a submission overwrites no unfetched SQE |
| Ring.BatchEndValid | nvme.device/src/nvme/nvme_io.c:555-564 | the outermost batch end leaves the device-visible tail at the host's |
| Ring.FreshExact | nvme.device/src/nvme/nvme_queue.c:212-236 | the phase test is true exactly when a posted completion is unconsumed, and the entry is the next one posted |
| Ring.FetchExact | nvme.device/src/nvme/nvme_io.c:602-621 | the device fetches only published SQEs, and each as it was submitted |
| Ring.PostRoom | nvme.device/src/nvme/nvme_queue.c:265-281 | every outstanding command finds a free completion slot |
| Ring.RunValid | nvme.device/src/nvme/nvme_queue.c:201-302 | the ring invariant survives every interleaving of host and device steps |
| Ring.EveryInterleaving | nvme.device/src/nvme/nvme_io.c:579-644 | in every interleaving from a fresh queue: consumed <= drained <= posted <= fetched <= published <= submitted < consumed + depth, unfetched SQEs intact, completions consumed in posting order, the published CQ head the count consumed when the last pass ended, nothing withheld outside a batch |
| RingArrays.QueuePair.constructor | nvme.device/src/nvme/nvme_queue.c:59-101 | the arrays start as the fresh ring |
| RingArrays.QueuePair.SqCommit | nvme.device/src/nvme/nvme_io.c:536-544 | the in-place doorbell write is the ring's |
| RingArrays.QueuePair.SubmitIo | nvme.device/src/nvme/nvme_io.c:592-643 | the in-place submission is the ring's and fails exactly when the ring is full |
| RingArrays.QueuePair.SqBatchBegin | nvme.device/src/nvme/nvme_io.c:555-558 | nesting |
| RingArrays.QueuePair.SqBatchEnd | nvme.device/src/nvme/nvme_io.c:560-564 | leaving the outermost batch publishes the tail |
| RingArrays.QueuePair.DrainCq | nvme.device/src/nvme/nvme_queue.c:201-283 | whatever the device and the resubmissions do meanwhile, a pass ends after fewer than depth entries, having consumed exactly the posted, unconsumed completions, in order; nothing submitted, published, fetched or posted is undone |
| Prp.WalkLaid | nvme.device/src/nvme/nvme_io.c:110-153 | what a section 4.3 device reads off a laid list, small or chained |
| Prp.LaidReadsBack | nvme.device/src/nvme/nvme_io.c:110-153 | it reads the buffer's bytes in order exactly when the page count is not 511k + 1 |
| Prp.ShortReads | nvme.device/src/nvme/nvme_io.c:66-84 | transfers of one or two pages are read exactly |
| Prp.BuildPrps | nvme.device/src/nvme/nvme_io.c:63-171 | succeeds exactly when at most 8 list pages are needed and served, gives everything back otherwise, writes nothing outside its list pages, and is read exactly but for 511k + 1 pages |
| Prp.GiveBack | nvme.device/src/nvme/nvme_io.c:164-170 | the failure path returns every page, last first |
| Prp.MisreadTransfer | nvme.device/src/nvme/nvme_io.c:149-152 | a 513-page transfer the device misreads |
| Chunk.IdentifyAligned | nvme.device/src/nvme/nvme_ctrl.c:143-172 | limits derived from Identify are page- and block-aligned |
| Chunk.ChunkBlocks | nvme.device/src/nvme/nvme_io.c:767-780 | a chunk is a positive whole number of blocks, no longer than cap and remainder and as long as one of the two |
| Chunk.CapReach | nvme.device/src/nvme/nvme_io.c:271-290 | the stripe cap never reaches past the stripe end, even when its 32-bit byte count wraps |
| Chunk.ChunkInStripe | nvme.device/src/nvme/nvme_io.c:271-290 | under the stripe quirk no read or write crosses a stripe boundary, for every power of two |
| Chunk.ChunkWithinMdts | nvme.device/src/nvme/nvme_ctrl.c:162-172 | the recorded transfer ceiling binds every read and write |
| Chunk.MdtsExact | nvme.device/src/nvme/nvme_ctrl.c:143-172 | the ceiling recorded from Identify, in numbers: 2^MDTS pages of 4096 * 2^MPSMIN bytes where that fits, 8 MiB where the sector count overflows or nothing is reported, none from 4 GiB |
| Chunk.MdtsRespected | nvme.device/src/nvme/nvme_io.c:271-290 | whatever MDTS, no read or write is longer than 2^MDTS of the smallest pages |
| Chunk.CapExact | nvme.device/src/nvme/nvme_io.c:271-290 | the cap without the stripe quirk is the ceiling; with it, ceiling or distance to the stripe end, less what 32 bits drop |
| Chunk.PowersOnly | nvme.device/src/nvme/nvme_io.c:271-290 | the bit trick picks exactly the powers of two |
| Chunk.ZeroesCapIs | nvme.device/src/nvme/nvme_probe.c:606-611 | the Write Zeroes cap is the most whole blocks within the device limit, the 16-bit NLB and 32 bits of bytes |
| Chunk.ZeroesChunkNlb | nvme.device/src/nvme/nvme_probe.c:606-611 | a Write Zeroes chunk fits the 16-bit NLB |
| IoCore.AllocIoOk | nvme.device/src/nvme/nvme_io.c:488-518 | a request is allocated with a tag, or nothing changed |
| IoCore.BuildPagesOk | nvme.device/src/nvme/nvme_io.c:110-171 | list pages are all live and the request's, or none is |
| IoCore.SetupRwOk | nvme.device/src/nvme/nvme_io.c:303-366 | the ledger stays exact on every outcome of command setup |
| IoCore.SetupRwExact | nvme.device/src/nvme/nvme_io.c:303-366 | setup fails exactly on a refused allocation or more than 8 list pages; otherwise there is a bounce buffer exactly when DMA cannot reach the data, the list pages are those the buffer DMA uses needs, and they come from the small slab exactly for up to 32 data pages |
| IoCore.SetupDsmOk | nvme.device/src/nvme/nvme_io.c:188-223 | the range buffer passes from the caller to the request |
| IoCore.FreeBuffersOk | nvme.device/src/nvme/nvme_io.c:385-422 | a request's blocks go back once, to the heap they came from |
| IoCore.DestroyOk | nvme.device/src/nvme/nvme_io.c:471-476 | tag, blocks and record go, nothing else changes |
| IoCore.SubmitIoOk | nvme.device/src/nvme/nvme_io.c:579-644 | the request's command is written or the request destroyed; at most one write per attempt |
| IoCore.ParkOk | nvme.device/src/nvme/nvme_completion.c:206-212 | a parked request keeps its blocks and owes an attempt |
| IoCore.UnparkOk | nvme.device/src/nvme/nvme_queue.c:447-461 | the reverse |
| IoCore.RetagOk | nvme.device/src/nvme/nvme_io.c:657-670 | a resubmission takes a fresh tag |
| IoBook.TilingGrows | nvme.device/src/nvme/nvme_io.c:767-780 | the next chunk continues the tiling |
| IoBook.RollbackUndoes | nvme.device/src/nvme/nvme_io.c:817-831 | the rollback of a refused chunk restores the books exactly |
| IoBook.EndSingleOk | nvme.device/src/nvme/nvme_completion.c:252-284 | a single-shot end answers its IOStdReq once, justified by its status |
| IoBook.EndSiblingOk | nvme.device/src/nvme/nvme_completion.c:329-342 | a sibling's end latches the first error and keeps every context's accounts |
| IoBook.FinishOk | nvme.device/src/nvme/nvme_io.c:862-886 | a finished context answers its IOStdReq once; without error only if every chunk completed cleanly |
| IoBook.StallOk | nvme.device/src/nvme/nvme_io.c:784-798 | parking a context with nothing in flight |
| IoBook.UnstallOk | nvme.device/src/unit_task.c:75-79 | taking it up again |
| IoBook.DropCtxOk | nvme.device/src/nvme/nvme_io.c:1000-1005 | a context whose first pump failed leaves the IOStdReq with the unit task |
| IoBook.LoseOk | nvme.device/src/nvme/nvme_io.c:594-600 | the lost-request outcome keeps all other accounts |
| IoPath.TryCommand | nvme.device/src/nvme/nvme_io.c:946-966 | tag, readiness, setup, ring: the command is out, or nothing is left behind |
| IoPath.PumpTurn | nvme.device/src/nvme/nvme_io.c:767-853 | one chunk is out and booked, or the books are as before |
| IoPath.Pump | nvme.device/src/nvme/nvme_io.c:754-856 | the pump leaves a context parked, with siblings in flight, fully dispatched, or failed with its error latched, and keeps the invariant |
| IoSend.TryExact | nvme.device/src/nvme/nvme_io.c:946-966 | the answer to one command, check by check in source order, and that a sent one holds just what its data needs |
| IoSend.DsmExact | nvme.device/src/nvme/nvme_io.c:1129-1157 | the same for Dataset Management |
| IoSend.PumpExact | nvme.device/src/nvme/nvme_io.c:754-856 | the pump stops when all is dispatched, at the sibling cap, or at the first chunk not sent: parked if that was pressure with nothing in flight, else the failure's code latched |
| IoPath.EndReq | nvme.device/src/nvme/nvme_completion.c:324-380 | completion with refill or reply keeps the invariant |
| IoPath.Complete | nvme.device/src/nvme/nvme_completion.c:308-388 | complete -> retry -> resubmit -> complete ends, with 5 - retries as measure, and keeps the invariant |
| IoPath.Retry | nvme.device/src/nvme/nvme_completion.c:193-215 | parks for the CRD delay or resubmits, and keeps the invariant |
| IoPath.ParkForDelay | nvme.device/src/nvme/nvme_completion.c:206-212 | the CRD branch keeps the invariant and puts the request, once, on the retry list |
| IoPath.Relaunch | nvme.device/src/nvme/nvme_io.c:668-671 | a resubmission sends the same command under a fresh tag exactly when the ring does not refuse it, and leaves nothing behind otherwise |
| IoLost.ResubmitExact | nvme.device/src/nvme/nvme_io.c:657-672 | a resubmission ends in error without a tag, is lost with a tag and no ring slot, and is in the ring otherwise; only then does it take a tag and a slot |
| IoLost.OnCqeLoses | nvme.device/src/nvme/nvme_completion.c:193-215 | over all states: a completion loses a request if and only if it matches it, is to be retried at once, and the ring is full |
| IoLost.TickLoses | nvme.device/src/nvme/nvme_queue.c:447-461 | a tick loses a parked request if and only if it is due and at its turn a tag is left but no slot, counted from the state before the tick |
| IoLost.LostForGood | nvme.device/src/nvme/nvme_io.c:592-600 | over any further run a lost single-shot's IOStdReq gets no reply, and a context with a lost sibling keeps inflight above 0 |
| IoRuns.LostFlush | nvme.device/src/nvme/nvme_io.c:592-600 | on a queue of any depth, filled with flushes: any one of them, completed with a transient error before the drain pass ends, is lost and never answered |
| IoRuns.FloodRun | nvme.device/src/nvme/nvme_io.c:579-644 | from a fresh queue of any depth n flushes below depth take tags and slots 0 to n - 1 in order |
| IoRing.RefusesExactly | nvme.device/src/nvme/nvme_io.c:592-600 | after every honest run the ring refuses exactly when the commands in flight and the completions consumed since the last published head make depth - 1 |
| IoRing.CqeLosesTail | nvme.device/src/nvme/nvme_completion.c:193-215 | in an honest run a completion loses its request if and only if it is to be retried at once and, before it, the commands in flight and the completions of this pass make depth - 1 |
| IoRing.TickLosesTail | nvme.device/src/nvme/nvme_queue.c:431-461 | in an honest run a tick between two passes loses a parked request if and only if it is due, a tag is free, and the due requests before it use up all free tags but one |
| IoStop.StopLeaves | nvme.device/src/unit_task.c:248-269 | task exit from any state leaves an IOStdReq unanswered if and only if a request in the table, on the retry list or lost works for it |
| IoStop.ShutdownLeaves | nvme.device/src/nvme/nvme_probe.c:723-731 | flush and task exit from any state leave an IOStdReq unanswered if and only if a request on the retry list or lost before works for it; the rest are answered once each, by the shutdown with an error |
| IoRuns.ForgottenFlush | nvme.device/src/nvme/nvme_completion.c:206-212 | of n flushes one is completed with a retry delay, then the shutdown comes: that one is never answered, every other one once, with an error |
| IoPath.TryDsm | nvme.device/src/nvme/nvme_io.c:1129-1157 | the range buffer ends with the request or back in the pool |
| IoPath.MultiShot | nvme.device/src/nvme/nvme_io.c:970-1007 | the context holds the IOStdReq, or the unit task still does |
| IoPath.SubmitRw | nvme.device/src/nvme/nvme_io.c:912-1007 | read/write dispatch keeps the invariant on every path |
| IoPath.SubmitTrim | nvme.device/src/unit_commands.c:163-220 | TRIM dispatch likewise, range buffer included |
| IoPath.SubmitZeroes | nvme.device/src/nvme/nvme_io.c:1041-1115 | Write Zeroes dispatch likewise |
| IoPath.Accept | nvme.device/src/unit_commands.c:63-235 | an arriving command is held or answered at once |
| IoAsk.AcceptExact | nvme.device/src/unit_commands.c:63-235 | which commands are refused at once and with which code; an accepted one is held under the job it asks for, its context pumped as far as it goes |
| IoLoops.CopyRanges | nvme.device/src/unit_commands.c:191-214 | the loop copies the TRIM ranges as they are, and fails exactly on an empty or out-of-range one |
| IoPath.OnCqe | nvme.device/src/nvme/nvme_queue.c:243-263 | one completion, matched or dropped, keeps the invariant |
| IoDone.CqeEnds | nvme.device/src/nvme/nvme_completion.c:308-388 | a matched completion that is not tried again ends its request under its own status; a single-shot answers with the error the status stands for, a sibling leaves its context with the first error there is, and the context answers or pumps on exactly when it should |
| IoDone.CqeRetries | nvme.device/src/nvme/nvme_completion.c:193-215 | one that is tried again waits for the delay asked for, or its command is in the ring once more, or it is lost with no slot left; the books change in the last case only |
| IoDone.CqeDropped | nvme.device/src/nvme/nvme_queue.c:243-263 | a completion no slot expects changes nothing |
| IoCause.StepStatus | nvme.device/src/nvme/nvme_completion.c:308-388 | which requests an event completes, and with which status, for every kind of event |
| IoCause.StatusAsHeard | nvme.device/src/nvme/nvme_queue.c:243-263 | after every run each completed request carries the status last reported for it, or 0x371 of a flush, or 0x370 of a resubmission without a tag |
| IoCause.FirstErrorStep | nvme.device/src/nvme/nvme_completion.c:329-342 | which event gives a context its first error, and which: that of the chunk it ends, or that of a chunk that could not be set up or handed to the ring |
| IoCause.LatchedForGood | nvme.device/src/nvme/nvme_io.c:862-886 | over any further run a latched error stays with its context, and the IOStdReq is answered with it |
| IoPath.TickRetries | nvme.device/src/nvme/nvme_queue.c:447-461 | the CRDT walk ends and keeps the invariant |
| IoDone.TickDoes | nvme.device/src/nvme/nvme_queue.c:431-461 | a tick puts back in the ring, in order, exactly the due requests for which a tag and a slot are left, and ends exactly those that find no tag, with status 0x370 |
| IoPath.CancelSlot | nvme.device/src/nvme/nvme_queue.c:780-808 | one forced completion keeps the invariant |
| IoPath.Repump | nvme.device/src/unit_task.c:73-87 | one re-pump: the context parks again or the list shrinks; inflight_count does not drop |
| IoCause.RepumpExact | nvme.device/src/unit_task.c:73-87 | a re-pump pumps the first parked context as far as it goes, and the context answers exactly if nothing is left to wait for |
| IoFlush.AbortStalledAnswers | nvme.device/src/unit_task.c:260-269 | at task exit every parked context is answered with IOERR_ABORTED; earlier replies, other contexts, requests and the transport are untouched |
| IoPath.Run | nvme.device/src/unit_task.c:186-246 | after every run the invariant holds, a lost request is still lost, and as many IOStdReqs have arrived as commands |
| IoKeep.RunCarries | nvme.device/src/unit_task.c:186-246 | over any further run replies, statuses and losses stay, and jobs stay with their IOStdReqs |
| IoKeep.JobsAsAsked | nvme.device/src/unit_commands.c:63-235 | after every run, whatever holds, lost or answered an IOStdReq has the operation, address, length, buffer and ranges of its own command |
| IoTheorems.RepliedOnceOrHeld | nvme.device/src/nvme/nvme_completion.c:308-388 | after every run each IOStdReq is replied at most once, and until then exactly one request, context or lost request holds it |
| IoTheorems.RequestPlaced | nvme.device/include/nvme/nvme_queue.h:136-160 | a live request is in exactly one table slot or on the retry list, never both |
| IoTheorems.InflightCounts | nvme.device/src/nvme/nvme_completion.c:329-356 | a context's inflight is its siblings in table and retry list, plus lost ones, and never above 16 or the queue's ceiling |
| IoTheorems.TilingGood | nvme.device/src/nvme/nvme_io.c:767-780 | a tiling is gapless and ordered, LBA and offset both running sums; each chunk whole blocks, within cap and stripe |
| IoTheorems.ContextTiles | nvme.device/src/nvme/nvme_io.c:754-856 | so it is for the commands written to the ring for every context, after every run, across refills, retries, parking and rollback |
| IoTheorems.CleanReply | nvme.device/src/nvme/nvme_io.c:862-886 | io_Error 0 implies chunks covering the transfer, each of them the command that was written and finally completed with SCT and SC zero |
| IoKeep.Acknowledged | nvme.device/src/nvme/nvme_io.c:862-886 | a read or write answered with io_Error 0: commands in the direction asked for cover its blocks end to end, each at its place in the buffer, each completed with SCT and SC zero |
| IoTheorems.ActualIff | nvme.device/src/nvme/nvme_completion.c:274-279 | io_Actual is the bytes moved for a context; for a single-shot trackdisk command if and only if io_Length is whole blocks |
| IoRuns.OverReported | nvme.device/src/nvme/nvme_completion.c:274-279 | a 513-byte read moves 512 bytes and reports 513 |
| IoTheorems.LedgerExact | nvme.device/src/nvme/nvme_io.c:385-476 | after every run the live blocks are exactly those of live requests, each of one request and its right heap; none was freed twice |
| IoTheorems.SixSubmissions | nvme.device/src/nvme/nvme_completion.c:155-215 | no request is placed on the ring more than six times in any run |
| IoTheorems.TagsPartition | nvme.device/include/nvme/nvme_queue.h:136-167 | the tag partition holds after every run of the whole path |
| IoTheorems.NlbUntruncated | nvme.device/src/nvme/nvme_io.c:347-353 | after every run, every read, write and Write Zeroes command ever placed on the ring has 1 to 65536 blocks, resubmissions included |
| IoTheorems.BusyIsWritten | nvme.device/src/nvme/nvme_io.c:614-621 | the request of a busy slot has its command in the ring, last written under the CID the slot expects |
| IoFlush.CancelSlotDoes | nvme.device/src/nvme/nvme_queue.c:780-808 | cancelling never retries, refills or touches the ring; the first cancelled sibling latches the error |
| IoFlush.FlushFromDoes | nvme.device/src/nvme/nvme_queue.c:796-809 | the walk from any slot |
| IoDone.FlushEnds | nvme.device/src/nvme/nvme_queue.c:796-809 | it ends exactly the requests in those slots, each with status 0x371 |
| IoFlush.FlushEmpties | nvme.device/src/nvme/nvme_queue.c:796-809 | from any reachable state: empty table, full free stack, no SQE written, and everything wholly in the table answered exactly once, with an error |
| IoRetry.ResubmitNeverParks | nvme.device/src/nvme/nvme_io.c:657-672 | a resubmission never re-parks its request, so the tick's walk over the live list meets only the entries present at its start |
| IoRetry.DispositionFields | nvme.device/src/nvme/nvme_completion.c:38-177 | which statuses are retried, and the error each stands for, read off the fields of the status word as a table of values |
| IoRetry.TickTakesDue | nvme.device/src/nvme/nvme_queue.c:447-461 | a tick takes off the retry list exactly the requests whose deadline has passed |
| IoRetry.DelayHonouredIff | nvme.device/src/nvme/nvme_queue.c:455-456 | a delay is never cut short exactly when it is at most 2^31 microseconds |
| IoRetry.CrdtTooLong | nvme.device/src/nvme/nvme_queue.c:455-456 | CRDT 21475 is due at once |
| IoRetry.DueStays | nvme.device/src/nvme/nvme_queue.c:455-456 | a request once due stays due for the next 2^31 microseconds |
| IoRetry.RetryWaits | nvme.device/src/nvme/nvme_completion.c:193-212 | a completion retried with a CRD hint waits on the list; no earlier tick resubmits it and any tick in the 2^31 microseconds after its delay does |
| IoLoops.PumpLoop | nvme.device/src/nvme/nvme_io.c:767-855 | the pump's loop computes `IoPath.Pump` |
| IoLoops.FlushLoop | nvme.device/src/nvme/nvme_queue.c:800-808 | the flush loop computes `IoPath.FlushFrom` |
| IoLoops.TickLoop | nvme.device/src/nvme/nvme_queue.c:447-461 | the CRDT loop computes `IoPath.Tick` |
| UnitTask.IoMax | nvme.device/src/nvme/nvme_queue.c:568-573 | the in-flight ceiling: 1 under QDEPTH_ONE, else one below the depth |
| UnitTask.HeldWorkWakes | nvme.device/src/unit_task.c:90-117 | a queue at its ceiling has a busy slot whose command stands in the ring under the slot's CID, so its completion will be matched |
| UnitTask.UnitTask.Process | nvme.device/src/unit_commands.c:63-259 | dispatch is one accepted command, logged with it and nothing else; never at a queue at its ceiling |
| UnitTask.UnitTask.RepumpLoop | nvme.device/src/unit_task.c:73-87 | the state is that after n re-pumps and nothing else, none of them at a full queue; it stops when the queue is full, no context is parked, or the last one parked again |
| UnitTask.UnitTask.PendingLoop | nvme.device/src/unit_task.c:90-96 | held messages are dispatched oldest first, each by its command, and nothing else happens; what stays waits for a full queue |
| UnitTask.UnitTask.PortLoop | nvme.device/src/unit_task.c:101-121 | empties the port without overtaking; every message that leaves it is dispatched by its command or held, and nothing else happens |
| UnitTask.UnitTask.DrainMsgport | nvme.device/src/unit_task.c:56-124 | dispatched ++ pending ++ port is the arrival order; the events of a pass are n re-pumps and then the commands of exactly the newly dispatched messages, in that order, none of them at a full queue; gated it does nothing, ungated it holds work only behind a full queue |
| UnitTask.UnitTask.Fate | nvme.device/src/unit_task.c:56-124 | every message that ever arrived is on the port, held, or dispatched, and a dispatched command is replied once, held or lost |
| UnitTask.UnitTask.Exit | nvme.device/src/unit_task.c:248-269 | held messages and parked contexts are all answered with IOERR_ABORTED, what stays unanswered is exactly what a live or lost request works for, and dispatched ++ answered ++ port is the arrival order |
| Lba.DecodeIsDivision | nvme.device/src/unit_commands.c:46-53 | the two-register shift is the 64-bit byte offset divided by the block size |
| Lba.TrackdiskNoWrap | nvme.device/src/unit_commands.c:141-146 | `blocks << blockShift` is the length rounded down; it never wraps |
| Lba.ScsiNoWrap | nvme.device/src/unit_commands_scsi.c:978-1026 | the guard passes exactly the CDBs whose transfer fits the buffer, as the LBA, count and direction the CDB names; nothing that passes wraps |
| Lba.Cdb6Reads | nvme.device/src/unit_commands_scsi.c:978-987 | a 6-byte CDB names any 21-bit LBA and 1 to 256 blocks, and its top three bits do not count |
| Lba.LongCdbsRead | nvme.device/src/unit_commands_scsi.c:989-1004 | 10- and 16-byte CDBs name any LBA and count of their width, big-endian |
| Lba.ByteCompareWraps | nvme.device/src/unit_commands_scsi.c:1006-1013 | a CDB for which comparing bytes would wrap to 0 |
| Hmb.GatherBounded | nvme.device/src/nvme/nvme_hmb.c:128-211 | at most the capped number of descriptors, each at least the floor, never above preferred |
| Hmb.GatherTries | nvme.device/src/nvme/nvme_hmb.c:128-211 | the gathering as a trace of what was asked and what was refused: one block of all, then 16 MiB halved at each refusal and not below the floor, until preferred or the most descriptors |
| Hmb.PagesExact | nvme.device/src/nvme/nvme_hmb.c:196-199 | descriptor pages cover the bytes exactly iff every chunk is whole pages |
| Hmb.ExactIff | nvme.device/src/nvme/nvme_hmb.c:163-211 | they do under every allocator behaviour exactly when no reachable halving breaks a page |
| Hmb.FivePages | nvme.device/src/nvme/nvme_hmb.c:181-211 | five pages preferred and a pool that grants 10 KiB: the descriptor announces 8 KiB |
| Hmb.HalvesOddPart | nvme.device/src/nvme/nvme_hmb.c:181-211 | below 16 MiB that is: half a page times the odd part of the page count is below the floor |
| Hmb.LargeExact | nvme.device/src/nvme/nvme_hmb.c:181-211 | from 16 MiB up it always holds |
| Hmb.HostMem.GreedyFill | nvme.device/src/nvme/nvme_hmb.c:181-211 | the loop ends and computes the greedy fill in the descriptor array |
| Hmb.HostMem.AllocHostMem | nvme.device/src/nvme/nvme_hmb.c:128-232 | from its arguments: at most HMMAXD descriptors (with none given, preferred over the floor, rounded up), each of at least HMMINDS pages and 8 KiB; succeeds exactly when the table and at least min bytes could be had; otherwise the pool is as before |
| Hmb.HostMem.ChunksFree | nvme.device/src/nvme/nvme_hmb.c:244-260 | every chunk and the table go back |
| Decimal.BytesAllZero | tools/nvmeadm_core.c:29-37 | true exactly for the value 0 |
| Decimal.DivideU16 | tools/nvmeadm_core.c:143-155 | exact quotient in place and remainder |
| Decimal.MulU128Small | tools/nvmeadm_core.c:112-130 | for any 32-bit multiplier and any buffer: the product less what its 32-bit registers drop, cut to the buffer |
| Decimal.MulExactIff | tools/nvmeadm_core.c:112-130 | nothing is dropped for any 16-byte value if and only if the multiplier is at most 2^24 |
| Decimal.SmallMultiplier | tools/nvmeadm_core.c:112-130 | into 19 bytes or more such a multiplier gives the product itself |
| Decimal.DigitLoop | tools/nvmeadm_core.c:70-84 | the decimal digits, cut to the lowest 39 |
| Decimal.FormatLeDecimal | tools/nvmeadm_core.c:39-89 | for every buffer length: the text is the value mod 10^39 in as few digits as hold it, cut at the end to the buffer; uncut it parses to the value itself if and only if that is below 10^39 |
| Decimal.FormatLe128 | tools/nvmeadm_core.c:91-94 | every 16-byte value parses back from at most 39 digits |
| Decimal.GeU16 | tools/nvmeadm_core.c:132-141 | the comparison is exact |
| Decimal.ScaleLoop | tools/nvmeadm_core.c:172-176 | the fewest divisions by 1024, at most four, each exact |
| Decimal.SmartAmount | tools/nvmeadm_core.c:159-199 | a SMART counter times 512000 comes out exactly, scaled, with its tenths; nothing overflows |
| Watchdog.ScanQueue | nvme.device/src/nvme/nvme_queue.c:351-415 | the sweep's loop computes `Watchdog.Scan` |
| Watchdog.AbortOnce | nvme.device/src/nvme/nvme_queue.c:361-413 | over any history at most one Abort per request lifetime, none for an AER |
| Watchdog.ScanEscalates | nvme.device/src/nvme/nvme_queue.c:351-415 | from any slot on, the sweep escalates once if some slot holds an Abort past its limit or a mark past its grace, and not otherwise |
| Watchdog.SweepEscalatesIff | nvme.device/src/nvme/nvme_queue.c:351-415 | a sweep escalates if and only if there is such a slot, and then once |
| Watchdog.ScanMarksIff | nvme.device/src/nvme/nvme_queue.c:351-415 | a sweep marks an unmarked request exactly when it reaches a slot holding it past 30 s (I/O) or 60 s (admin), not an Abort, with the Abort accepted; the mark carries the time |
| Watchdog.ElapsedAcrossWrap | nvme.device/src/nvme/nvme_queue.c:383 | a clock wrap does not disturb a time below 2^32 microseconds |
| Watchdog.StaleMark | nvme.device/src/nvme/nvme_queue.c:366-380 | the mark survives a retry: a request resubmitted this very moment is escalated once its Abort is 15 s old |
| Watchdog.QuietScan | nvme.device/src/nvme/nvme_queue.c:355-414 | a sweep without escalation has marked every overdue request and found no mark past its grace |
| Watchdog.EscalatesInTime | nvme.device/src/nvme/nvme_queue.c:351-444 | a stuck request leads to an escalation within its limit plus 15 s plus two tick gaps |
| NsScan.ScanNsDoes | nvme.device/src/nvme/nvme_scan.c:299-320 | one NSID is added, kept or dropped as Identify says; no other changes; NSIDs stay unique |
| NsScan.ScanNsIds | nvme.device/src/nvme/nvme_scan.c:177-200 | the identifiers a found namespace is stored with: none but the CSI when another claims one of them, which marks them bogus for good |
| NsScan.ScanNsTwins | nvme.device/src/nvme/nvme_scan.c:77-113 | until then no two namespaces share a nonzero identifier |
| NsScan.UniqueApart | nvme.device/src/nvme/nvme_scan.c:45-55 | no two entries of the list share an NSID |
| NsScan.Controller.RemoveInvalid | nvme.device/src/nvme/nvme_scan.c:333-346 | everything above the highest listed NSID goes |
| NsScan.Controller.ScanEntry | nvme.device/src/nvme/nvme_scan.c:389-397 | one listed NSID scanned, the gap below it cleared |
| NsScan.Controller.ScanPage | nvme.device/src/nvme/nvme_scan.c:387-397 | one page, up to its zero entry |
| NsScan.Controller.ScanNsList | nvme.device/src/nvme/nvme_scan.c:361-404 | the scan ends with the status of the chain of pages, and on success the list holds, each once, exactly the NSIDs of those pages up to the first zero entry that Identify keeps |

## Left out

- The request and context records of the I/O path are values in maps keyed by
  identity, and the steps between them are functions; the class `UnitTask` holds
  that state and the loops are methods, but pointers, aliasing and use after free
  of a record are not modelled (blocks of memory are, in the ledger).
- MMIO, cache maintenance, barriers, interrupts, Exec tasks, signals and timers:
  foreign calls. A doorbell is a field the device reads; a message port is a
  sequence. The once-per-line cache invalidation of `drain_cq` is not modelled.
- Admin-queue traffic: several tasks touch that queue without a lock, and a
  cancelled AER re-arms itself. Ring, tag and flush results are about the I/O queue.
- Terminal controller states: dispatch assumes a controller that is LIVE or
  passing through a transient state.
- Reset, freeze exclusivity and a strict one-command bound under QDEPTH_ONE
  (watchdog resubmissions bypass those gates).
- "Accepted LBAs lie inside the namespace" for blocks above 512 bytes:
  `logicalSectors` counts 512-byte sectors; range checks are modelled as coded.
- `ctx->completed` is carried but nothing is claimed of it (Write Zeroes siblings
  do not set `user_len`).
- The NSID in a command and the attribute word of a TRIM range (always 0): no branch
  depends on them.
- The zero fill of a fresh PRP list page: no walk reads a slot the builder did not
  write, so it is not represented.
- Data movement: bounce copies and the bytes themselves. A buffer, the caller's or
  a bounce copy, is taken to lie in the 32-bit address space.
- IoPath.EndPass takes any new head. IoRing.Honest picks the runs whose heads are
  the counts Ring.dfy derives and whose completions name occupied slots; the two
  state machines are not composed into one.
- What runs between the flush of a shutdown and the task's exit, such as a watchdog
  tick that resubmits a parked request, is covered by IoStop.StopLeaves, not by
  IoStop.ShutdownLeaves.
- Controller.ScanNsList: assumes pages that ascend from beyond the NSID asked
  for; a controller that repeats entries could keep the loop running.
- Watchdog.EscalatesInTime: assumes Abort submissions succeed and no wrap of the
  32-bit clock, without which no bound holds; what escalation then does (reset or
  flush) is not part of it.
- Passthrough, firmware, quirk tables, string tables, mounter, INQUIRY / VPD /
  MODE SENSE and the rest of nvmeadm: plumbing and table lookups.
