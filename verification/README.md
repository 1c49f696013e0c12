# Models of SECT and of the syzkaller parts it builds on

This project models the hard parts of the repository in Dafny and proves properties of the models.
Each component has a specification as functions or a state machine, and, where the original changes
things in place, a class or loop with the same steps that is proved equal to it.

- **The serialising scheduler** (`sched_*.dfy`). One step per callback of the extensible scheduler
  class, over cycles, task contexts, the kernel's view of tasks, the private queues and the queue of
  offers. The kernel is modelled explicitly. A wake-up is `runnable` and `enqueue` in one step. A
  task goes to sleep only while on a CPU. A task may exit on a CPU or while blocked, because a dying
  task is made quiescent first. A push to a full queue map may evict or fail; both are covered.
  A second model, at the granularity of lock sections, covers the hand-off of `pending_dispatch`.
  `sched_driver.dfy` drives the object by any sequence of kernel steps.
- **PCT priorities** (`pct*.dfy`, `shuffle.dfy`), on their own and inside the scheduler
  (`sched_pct.dfy`).
- **The inflate decoder puff** (`bitstream.dfy`, `huffman.dfy`, `inflate.dfy`, `puff*.dfy`). `Inflate`
  is the reference: codes decoded by definition (section 3.2.2 of RFC 1951) from one flat bit stream,
  output only appended. `Puff` is the bit buffer, the tables and the output routine that skips zeros.
  `bitwriter.dfy`, `deflate.dfy` and `deflate_blocks.dfy` are the other direction, a writer of deflate
  streams with closed forms instead of tables (`inflate_tables.dfy`), which inflate undoes.
- **The exec format** (`exec_*.dfy`). `PlainCalls` is the closed form of a program, without the map
  and counter of the encoder: a reference carries its producer's place among the used results.
  `WrittenCalls` is what the encoder writes. `executor.dfy` is the executor's loop over the words it is
  given; memory, system calls and threads are outside it, so that the results of completed calls and
  the process number are an environment. `exec_meaning.dfy` relates what it does to the program, and
  `exec_layout.dfy` says where arguments are in memory. `exec_links.dfy` relates programs to the heap
  below.
- **Resource links** (`links.dfy`, `progs.dfy`, `link_ops.dfy`, `clone.dfy`, `clone_order.dfy`,
  `collide.dfy`, `double_exec.dfy`), over heap objects. A call is modelled by its result arguments in the order in
  which they are visited. A program is sound if producers and users are mutual inverses, every
  producer is visited before its users, in an earlier call or in the same one, and no argument is in
  two places. `Legal` is what validation demands of them besides: a producer is neither an input nor
  the return value of its user's call, what is not in memory is an input, an output has no value of
  its own, and a return value is an output without value or producer.
- **The text form of data arguments** (`data_*.dfy`).
- **The allocator, the Internet checksum and transitive enablement** (`alloc.dfy`, `csum.dfy`,
  `enable.dfy`).

## Findings

- Serialisation does not hold in every run. `reset_cycle_state` clears `pending_dispatch` and leaves
  the offer in the queue, so a cycle that is reset while its group is on offer hands its offer to the
  next one. The condition is exact: without such a reset the property holds (`Serialised`), and every
  such reset has a continuation that violates it (`ResetOnOfferBreaks`), given a free slot in the
  queue and room for three more task contexts. It is reachable with any thread count of two or more:
  the last task goes to sleep, which puts its group on offer although nothing is parked, and then
  exits while blocked. With exits on a CPU only and no timeout it cannot happen
  (`QuietRunsSerialise`).
- Within one call a reference to a result of the same call, which validation accepts because it only
  asks for an argument visited before, is written with index 0 instead of the producer's
  (`ChainedIsWrong`, a valid program). The index is right if and only if the producer is in an
  earlier call or is the very first result, in memory (`RefIndexIff`) and in the arguments of a call
  (`TopRefIndexIff`), and a program comes back as it was meant if and only if that holds of every
  encoded reference (`RoundTrip`).
- The decoder's comparison of the numbers of variables and results succeeds if and only if there is
  no result or some encoded reference carries the place of the last one (`VarsMatch`,
  `VarsMissing`), which is to say that a later call refers to it or it is the only one
  (`LastWrittenIff`). It refuses the program of `ChainedIsWrong` (`ProgramRefused`).
- Validation enters an argument before it looks up its producer, and so accepts one that refers to
  itself. Clone then looks up a copy that does not exist yet. Of the programs that pass validation,
  exactly those with such an argument cannot be cloned (`CheckedClones`, with `SelfReference` as an
  input).
- A change point fires if and only if it is below the number of expected events (`PointFiresIff`),
  but that number itself can be drawn: it is for random numbers congruent to -1
  (`DrawnPointFiresIff`).
- Two tasks whose ids agree modulo 200 draw the same initial priority, and only those.
- `AssignRandomAsync` separates producers and consumers only if no call was async before: the calls
  in front of the one that exhausts the limit of 24 keep their flags (`MarkAsync`).
- The gate check of a wake-up never fires: the task that wakes is neither parked nor asleep, in every
  reachable state (`WakeNeverOffers`).
- Every duplicate made by `DoubleExecCollide` is async: the program has at most 20 calls, so the
  limit of 24 is never met.
- A checksum update of more than 131072 bytes can wrap, and is right for all data only up to that
  length (`BoundIsExact`); `WrapRightIff` says for which sums it is right beyond it.
- A checksum over parts is that of the whole message if and only if the words of the parts at odd
  offsets add up to a multiple of 257 (`PartsRightIff`); `RightSumIff` takes wraps into account too.
- The allocator meets an alignment at every place if and only if it divides 64 or 64 divides it
  (`AlignedIff`): 192 bytes always, 96 bytes not, already for a second object (`SecondObject`).

## Model

| member | source | states |
|---|---|---|
| `SchedTypes.InsertSorted` | scheduler/scx_serialise.bpf.c:135-141 | inserting by virtual time keeps a group's queue sorted, so the head has the highest priority |
| `SchedTypes.InsertMultiset` | scheduler/scx_serialise.bpf.c:135-141 | inserting adds exactly the new entry and loses none |
| `SchedTypes.InsertAt` | scheduler/scx_serialise.bpf.c:135-141 | an entry goes behind all entries of smaller or equal virtual time and before all of greater |
| `SchedCounts.NextExact` | scheduler/scx_serialise.bpf.c:149-272 | every callback keeps num_alive, num_asleep and num_queued equal to the numbers of joined, sleeping and parked tasks |
| `SchedCounts.RunsAreExact` | scheduler/scx_serialise.bpf.c:149-272 | the counters are exact in every reachable state, timeouts included |
| `SchedCounts.OverIsEmpty` | scheduler/scx_serialise.bpf.c:576-636 | a cycle found to be over has nobody alive, parked or asleep when it is reset |
| `SchedSafety.QueueShort` | scheduler/scx_serialise.bpf.h:176-184 | with each group on offer at most once the 64-slot queue holds at most 10 entries |
| `SchedSafety.WokenGroup` | scheduler/scx_serialise.bpf.c:371-406 | a wake-up by itself opens no gate and keeps every group safe |
| `SchedSafety.NextSafe` | scheduler/scx_serialise.bpf.c:434-489 | every callback other than a reset of a group still on offer keeps the gate of every group |
| `SchedSafety.RunsAreSafe` | scheduler/scx_serialise.bpf.c:316-369 | the gates hold after every run without such a reset |
| `SchedSafety.Serialised` | scheduler/scx_serialise.bpf.h:206-241 | in CYCLE_RUNNING the tasks of a group that are neither parked nor asleep, plus one if the group is on offer, number at most one, and exactly one while any task is parked |
| `SchedRuns.QuietStepIsClean` | scheduler/scx_serialise.bpf.c:576-636 | without a timeout, the last exit of a cycle made on a CPU leaves nothing on offer |
| `SchedRuns.QuietRunsSerialise` | scheduler/scx_serialise.bpf.c:4-5 | runs without timeouts whose exits happen on a CPU are serialised unconditionally |
| `SchedRuns.NextLate` | scheduler/scx_serialise.bpf.c:660-691 | a cycle that timed out is not revived, gets nothing more parked, and only a dispatch of its group shortens its queue, by the head |
| `SchedRuns.LateRuns` | scheduler/scx_serialise.bpf.c:316-369 | over a whole run the queue of a timed-out cycle loses exactly as many entries as its group was dispatched |
| `SchedRuns.QueuedIsDsq` | scheduler/scx_serialise.bpf.c:135-141 | num_queued is the length of the group's queue |
| `SchedRuns.TimeoutDrains` | scheduler/scx_serialise.bpf.c:660-691 | k dispatches leave num_queued at what it was less k or zero, and while it is positive the group is on offer |
| `SchedConverse.StaleOfferBreaks` | scheduler/scx_serialise.bpf.c:106-127 | a new cycle that starts with an old offer in the queue can have two tasks active at once |
| `SchedConverse.ResetOnOfferBreaks` | scheduler/scx_serialise.bpf.c:106-127 | the converse of the safety theorem: every reset of a group on offer has a continuation with two active tasks in CYCLE_RUNNING |
| `SchedConverse.ReachesResetOnOffer` | scheduler/scx_serialise.bpf.c:576-636 | such a reset is reachable from the start for every thread count of two or more |
| `SchedConverse.SerialisationCanFail` | scheduler/scx_serialise.bpf.c:106-127 | hence for every thread count of two or more some run is not serialised |
| `SchedImpl.Scheduler.PushElem` | scheduler/scx_serialise.bpf.h:176-184 | a push to the full queue map evicts the oldest entry or fails, as configured |
| `SchedImpl.Scheduler.EnqueueCycleForDispatch` | scheduler/scx_serialise.bpf.h:217-241 | sets pending_dispatch and the state once, pushes, and takes the flag back if the push failed |
| `SchedImpl.Scheduler.DequeueCycleForDispatch` | scheduler/scx_serialise.bpf.h:244-250 | pops the oldest offer, if there is one |
| `SchedImpl.Scheduler.EnsureTaskCtx` | scheduler/scx_serialise.bpf.c:63-102 | creates the context of a task at most once, with a number kept across contexts |
| `SchedImpl.Scheduler.InsertIntoCycleDsq` | scheduler/scx_serialise.bpf.c:135-141 | parks at the place its priority gives |
| `SchedImpl.Scheduler.ParkTask` | scheduler/scx_serialise.bpf.c:192-272 | counts, parks and opens the gate if all are parked |
| `SchedImpl.Scheduler.EnqueueTask` | scheduler/scx_serialise.bpf.c:149-272 | the enqueue callback is the step of the state machine |
| `SchedImpl.Scheduler.MoveToLocal` | scheduler/scx_serialise.bpf.c:330-368 | takes the head of the group's queue |
| `SchedImpl.Scheduler.DispatchOne` | scheduler/scx_serialise.bpf.c:316-369 | the dispatch callback is the step of the state machine |
| `SchedImpl.Scheduler.TaskRunnable` | scheduler/scx_serialise.bpf.c:371-406 | the runnable callback is the step of the state machine |
| `SchedImpl.Scheduler.TaskRunning` | scheduler/scx_serialise.bpf.c:413-427 | the running callback is the step of the state machine |
| `SchedImpl.Scheduler.TaskSleeps` | scheduler/scx_serialise.bpf.c:434-489 | the sleep handler is the step of the state machine |
| `SchedImpl.Scheduler.TaskYields` | scheduler/scx_serialise.bpf.c:508-570 | the yield callback is the step of the state machine, joining the cycle on the first yield |
| `SchedImpl.Scheduler.ResetCycleState` | scheduler/scx_serialise.bpf.c:106-127 | clears the cycle and leaves the queue of offers alone |
| `SchedImpl.Scheduler.TaskExits` | scheduler/scx_serialise.bpf.c:576-636 | the exit handler is the step of the state machine |
| `SchedImpl.Scheduler.CheckDispatchTimeout` | scheduler/scx_serialise.bpf.c:660-691 | the timer callback is the step of the state machine that `TimerExact` and `ParkedTooLong` describe: it reports a task parked for more than 60 ms, and no other |
| `SchedTimer.ExpiredIff` | scheduler/scx_serialise.bpf.c:647-650 | in 64-bit arithmetic with wrap-around: a task has expired if and only if it waits awake with a stamp whose age is more than 60 ms and at most 60 ms plus half the range |
| `SchedTimer.TimerExact` | scheduler/scx_serialise.bpf.c:660-691 | a waiting awake task is marked, and its group put on offer as timed out, if and only if it has waited more than 60 ms; otherwise the world is unchanged |
| `SchedTimer.NeverReported` | scheduler/scx_serialise.bpf.c:660-691 | in every reachable state the timer leaves alone a task that is on a CPU, asleep, on its way, in the global queue or gone |
| `SchedTimer.ParkedTooLong` | scheduler/scx_serialise.bpf.c:652-659 | over whole runs: a task parked by an enqueue and parked ever since is reported if and only if that enqueue is more than 60 ms ago |
| `SchedEvents.NextEvents` | scheduler/scx_serialise.bpf.c:192-240 | a step that parks a task of a group counts one event for it, and marks the algorithm initialised once the number of expected events is known; a step that ends the cycle starts over with what was learnt; no other step touches these |
| `SchedEvents.RunEvents` | scheduler/scx_serialise.bpf.c:106-127 | in every run num_events_seen is the number of parkings since the cycle last started over, modulo 2 to the 32, and expected_events_per_cycle never changes once it is known |
| `SchedEvents.NumberedInOrder` | scheduler/scx_serialise.bpf.c:63-102 | tasks new to a new group get the numbers 1, 2, 3 and so on in the order they register, while the task map has room for 2000 |
| `SchedEvents.NoRoomLeft` | scheduler/scx_serialise.bpf.h:153-159 | with 2000 tasks in the map no other gets a context |
| `SchedEvents.WakeNeverOffers` | scheduler/scx_serialise.bpf.c:371-406 | in every reachable state, timeouts included, a wake-up by itself puts no group on offer |
| `SchedDriver.Do` | scheduler/scx_serialise.bpf.c:149-691 | one step of the kernel with the callbacks it makes takes the object where the state machine goes |
| `SchedDriver.Drive` | scheduler/scx_serialise.bpf.c:4-5 | the object driven by any sequence of kernel steps without a reset on offer goes through that run, is safe after every step, and in CYCLE_RUNNING has at most one task of each group active or about to be, and exactly one while any is parked |
| `SchedDriver.NewScheduler` | scheduler/scx_serialise.bpf.h:176-184 | a new object of at least one thread may be driven |
| `SchedTokens.QueueBounded` | scheduler/scx_serialise.bpf.h:176-184 | under conservation the queue has at most one entry for each of the ten groups |
| `SchedTokens.HolderPends` | scheduler/scx_serialise.bpf.h:217-241 | whoever holds an offer of a group between two lock sections finds it pending |
| `SchedTokens.ConservesIff` | scheduler/scx_serialise.bpf.c:106-127 | a lock section keeps pending_dispatch equal to the number of offers in existence if and only if it is not a reset of a group with an offer outstanding |
| `SchedTokens.PushesSucceed` | scheduler/scx_serialise.bpf.h:217-241 | the branch that undoes a failed push is never entered |
| `SchedTokens.StartOk` | scheduler/scx_serialise.bpf.h:176-184 | the empty queue with every CPU idle is a state in which offers are conserved |
| `SchedTokens.TokensConserved` | scheduler/scx_serialise.bpf.c:316-369 | in every interleaving of lock sections without such a reset each group has one offer while pending and none otherwise, held by at most one CPU |
| `Shuffles.ShufflePermutes` | scheduler/pct.bpf.h:64-89 | the shuffle is a rearrangement |
| `Shuffles.LastDrawn` | scheduler/pct.bpf.h:64-89 | the first choice says which element comes last |
| `Shuffles.ShuffleInjective` | scheduler/pct.bpf.h:64-89 | different in-range choices give different arrangements |
| `Shuffles.ShuffleSurjective` | scheduler/pct.bpf.h:64-89 | every arrangement arises from some in-range choices |
| `Shuffles.ShuffleExact` | scheduler/pct.bpf.h:64-89 | for any number of distinct elements, an arrangement is a permutation exactly when one and only one sequence of in-range choices produces it |
| `Pct.BandsStack` | scheduler/pct.bpf.h:48-51 | strata have disjoint bands of 200 priorities, stacked downwards, within s32 |
| `Pct.SlotsSpread` | scheduler/pct.bpf.h:64-89 | the 200 initial priorities differ and lie above the demotions, within s32 |
| `Pct.SlotsCollideIff` | scheduler/pct.bpf.h:139-144 | two tasks draw the same initial priority if and only if their ids agree modulo 200 |
| `Pct.PointFiresIff` | scheduler/pct.bpf.h:95-121 | a change point between 1 and the number of expected events fires at some event if and only if it is below that number, and then at every event congruent to it |
| `Pct.DrawnPointFiresIff` | scheduler/pct.bpf.h:109-112 | a drawn change point fires at some event if and only if the random number is not congruent to -1 modulo the number of expected events |
| `Pct.SomeEventFiresIff` | scheduler/pct.bpf.h:146-222 | a cycle demotes at some event if and only if one of its change points is below the number of expected events |
| `Pct.DemotedInBand` | scheduler/pct.bpf.h:146-222 | a demotion lies in the band of its lap, above the base and below base plus depth |
| `Pct.DemotionsDiffer` | scheduler/pct.bpf.h:146-222 | no two firing events demote to the same priority |
| `PctRuns.LapEnds` | scheduler/pct.bpf.h:199-212 | a lap is as many events long as are expected, and its last event still belongs to it |
| `PctRuns.FirstPriority` | scheduler/pct.bpf.h:139-144 | a task's first priority is that of the slot of its number modulo 200 |
| `PctRuns.FiringStratum` | scheduler/pct.bpf.h:146-222 | the stratum kept in the cycle is the lap of the event that fires |
| `PctRuns.DemotedBelowSlots` | scheduler/pct.bpf.h:146-222 | every demotion is below every initial priority |
| `PctRuns.NextKeepsInv` | scheduler/pct.bpf.h:146-222 | every arrival, dispatch and registration keeps the ordering invariant |
| `PctRuns.RunsKeepInv` | scheduler/pct.bpf.h:146-222 | the invariant holds over whole runs |
| `PctRuns.PctOrders` | scheduler/pct.bpf.h:123-222 | over every run of a cycle initialised tasks have pairwise different priorities, each the task's slot or one demotion in the band of its lap, all within s32, and the head of the queue has the greatest current priority |
| `PctRuns.HeadIsHighest` | scheduler/scx_serialise.bpf.c:135-141 | the head of the queue has strictly greater current priority than any other parked task |
| `SchedPct.NextPctOk` | scheduler/scx_serialise.bpf.c:192-272 | every callback of the scheduler, in every group, is a step of PCT for a group whose priorities come from PCT, and keeps its ordering invariant |
| `SchedPct.PctDispatches` | scheduler/scx_serialise.bpf.c:316-369 | in every run of the scheduler from the start of a cycle that takes its priorities from PCT, each dispatch of the group releases the parked task with strictly the greatest priority |
| `PctImpl.PctMaps.ShufflePrios` | scheduler/pct.bpf.h:64-89 | the in-place shuffle of the map equals the shuffle of the ladder under the choices drawn; other groups keep theirs |
| `PctImpl.PctMaps.ChooseChangePoints` | scheduler/pct.bpf.h:95-121 | depth minus one change points, each the random number modulo max plus one, or the index while max is unknown |
| `PctImpl.PctMaps.UpdatePriorities` | scheduler/pct.bpf.h:146-222 | the search loop computes the update of the state machine |
| `BitStream.TakeSplit` | syzkaller/executor/common_zlib.h:60-78 | reading a + b bits of the flat stream is reading a, then b more |
| `BitStream.TakeDrop` | syzkaller/executor/common_zlib.h:60-78 | masking and shifting the buffer splits off the first bits of the stream |
| `Huffman.MatchUnique` | syzkaller/executor/common_zlib.h:110-118 | the codes of section 3.2.2 of RFC 1951 are prefix-free: at most one symbol's code comes next |
| `Huffman.DecodesItsCode` | syzkaller/executor/common_zlib.h:124-159 | a symbol is decoded, consuming exactly its length, if and only if its code comes next |
| `Huffman.VerdictByKraft` | syzkaller/executor/common_zlib.h:182-216 | the sign of the result for a non-empty code is that of what its Kraft sum leaves of one |
| `Huffman.CodeFits` | syzkaller/executor/common_zlib.h:182-216 | in a code that is not over-subscribed every code fits its length |
| `Huffman.CompleteResolves` | syzkaller/executor/common_zlib.h:124-159 | with a non-empty complete code every 15 bits resolve to a symbol |
| `PuffTables.CountLengths` | syzkaller/executor/common_zlib.h:184-190 | counts the symbols of each length |
| `PuffTables.CheckLengths` | syzkaller/executor/common_zlib.h:194-201 | computes the number of codes left over, negative at the first over-subscribed length |
| `PuffTables.Offsets` | syzkaller/executor/common_zlib.h:203-207 | the offsets are the numbers of shorter codes |
| `PuffTables.SortSymbols` | syzkaller/executor/common_zlib.h:209-212 | every symbol is placed at the offset of its length plus its rank |
| `PuffTables.Construct` | syzkaller/executor/common_zlib.h:182-216 | builds the canonical table, and returns the verdict on the lengths |
| `PuffFixed.FixedUsable` | syzkaller/executor/common_zlib.h:282-321 | neither fixed code is over-subscribed, so that the ignored results cannot matter |
| `PuffFixed.ClosedForm` | syzkaller/executor/common_zlib.h:324-398 | the stored order of code length code lengths is a permutation: each length ends up in its place |
| `InflateTables.LengthTable` | syzkaller/executor/common_zlib.h:223-240 | the table of lengths starts at 3, each entry is the one before plus the numbers its extra bits count, up to 257 or 258; code 28 is 258 without extra bits |
| `InflateTables.LengthUnique` | syzkaller/executor/common_zlib.h:223-240 | each length from 3 to 257 has exactly one code and extra value, in closed form |
| `InflateTables.DistanceTable` | syzkaller/executor/common_zlib.h:223-240 | the same for distances, from 1 to 32768 |
| `InflateTables.DistanceUnique` | syzkaller/executor/common_zlib.h:223-240 | each distance from 1 to 32768 has exactly one code and extra value, in closed form |
| `InflateTables.RepeatRange` | syzkaller/executor/common_zlib.h:361-371 | the three repeat instructions cover exactly the counts 3 to 6, 3 to 10 and 11 to 138 |
| `InflateTables.OrderIs` | syzkaller/executor/common_zlib.h:326-327 | the stored order of the code length code lengths, in closed form |
| `InflateTables.FixedCode` | syzkaller/executor/common_zlib.h:297-308 | length and code of every symbol of the fixed code, as section 3.2.6 of RFC 1951 lists them |
| `InflateTables.FixedDistanceCode` | syzkaller/executor/common_zlib.h:310-313 | the fixed distance codes are the five-bit numbers |
| `BitWriter.SymbolRead` | syzkaller/executor/common_zlib.h:124-159 | a symbol written with a code that is not over-subscribed is the symbol decoded |
| `BitWriter.Packed` | syzkaller/executor/common_zlib.h:60-78 | bits packed into bytes are the bits of the stream |
| `Deflate.CopyLen` | syzkaller/executor/common_zlib.h:219-279 | a copy appends as many bytes as asked, each equal to the one that far back, and keeps the rest |
| `Deflate.TokensRead` | syzkaller/executor/common_zlib.h:219-279 | a block of any literals and copies, written under any two usable codes that cover it, is read back to what it stands for |
| `Deflate.RunsRead` | syzkaller/executor/common_zlib.h:352-377 | code lengths are read back, however they were broken up into runs |
| `DeflateBlocks.StoredRead` | syzkaller/executor/common_zlib.h:81-108 | a stored block is read back from the next byte boundary |
| `DeflateBlocks.HeadRead` | syzkaller/executor/common_zlib.h:324-398 | the header of a dynamic block is read to the codes it sends, or refused with -9, -7 or -8 by what is wrong with them |
| `DeflateBlocks.InflateReads` | syzkaller/executor/common_zlib.h:427-461 | any list of stored, fixed and dynamic blocks, with any codes, runs, literals and copies, written out and packed into bytes, is inflated to what it stands for |
| `DeflateBlocks.StoredReads` | syzkaller/executor/common_zlib.h:81-108 | data of any length, stored in as many blocks as it takes, comes back |
| `DeflateBlocks.LiteralReads` | syzkaller/executor/common_zlib.h:282-321 | data of any length, as literals of the fixed code, comes back |
| `DeflateBlocks.HeadRefused` | syzkaller/executor/common_zlib.h:330-349 | too many codes give -3, an incomplete code for code lengths -4 |
| `DeflateBlocks.RunRefused` | syzkaller/executor/common_zlib.h:361-373 | a repeat with nothing to repeat gives -5, one past the last length -6 |
| `DeflateBlocks.NoFourthKind` | syzkaller/executor/common_zlib.h:427-461 | the fourth kind of block gives -1 |
| `DeflateBlocks.StoredRefused` | syzkaller/executor/common_zlib.h:81-108 | a length that disagrees with its complement gives -2, missing input 2, missing room 1 |
| `DeflateBlocks.CopyRefused` | syzkaller/executor/common_zlib.h:219-279 | a copy from before the output gives -11, one past its room 1 |
| `Puff.PuffState.Bits` | syzkaller/executor/common_zlib.h:60-78 | reads the stream exactly as flat bits, leaves fewer than eight in the buffer, and fails exactly when too few are left |
| `Puff.PuffState.Decode` | syzkaller/executor/common_zlib.h:124-159 | the bit-by-bit table search, any interleaving of byte loads included, is decoding by definition; -10 exactly when 15 bits match no code |
| `Puff.PuffState.Emit` | syzkaller/executor/common_zlib.h:219-279 | moving on without writing a zero appends that byte, the buffer having been zero |
| `Puff.PuffState.Copy` | syzkaller/executor/common_zlib.h:219-279 | the overlapping copy appends what copying byte by byte from the output would |
| `Puff.PuffState.Stored` | syzkaller/executor/common_zlib.h:81-108 | a stored block, its length check and its error codes |
| `Puff.PuffState.Pair` | syzkaller/executor/common_zlib.h:219-279 | a length and distance pair, with all its error codes; what its codes mean is in `LengthUnique`, `DistanceUnique` and `TokensRead` |
| `Puff.PuffState.Distance` | syzkaller/executor/common_zlib.h:219-279 | the distance part: too far back, no room, or the copy |
| `Puff.PuffState.Codes` | syzkaller/executor/common_zlib.h:219-279 | literals and pairs up to the end of the block |
| `Puff.PuffState.Fixed` | syzkaller/executor/common_zlib.h:282-321 | a block with the fixed codes |
| `Puff.PuffState.ReadCodeLengthLens` | syzkaller/executor/common_zlib.h:324-398 | the code length code lengths, each read into its place |
| `Puff.PuffState.ReadLengths` | syzkaller/executor/common_zlib.h:324-398 | the run-length encoded lengths of both codes, with their error codes |
| `Puff.PuffState.Dynamic` | syzkaller/executor/common_zlib.h:324-398 | a block with dynamic codes, with all its error codes |
| `Puff.PuffState.Run` | syzkaller/executor/common_zlib.h:427-461 | the block loop, which ends because every block uses up input |
| `Puff.Puff` | syzkaller/executor/common_zlib.h:427-461 | for every input and every zeroed buffer the return code, the length and every byte of the buffer are those of plain append-only inflate, which by `InflateReads` undoes every deflate writer |
| `ExecFormat.MetaFields` | syzkaller/prog/encodingexec.go:311-316 | the five fields packed into one word are recovered |
| `ExecFormat.ArgBack` | syzkaller/prog/decodeexec.go:158-218 | every argument is read back as written, and reading stops right behind it |
| `ExecFormat.InstrBack` | syzkaller/prog/decodeexec.go:100-140 | every instruction is read back as written |
| `ExecValid.CallNumbers` | syzkaller/prog/encodingexec.go:85-115 | one call leaves the map with exactly the results defined so far, each with its place in program order as index |
| `ExecValid.NumberedAt` | syzkaller/prog/encodingexec.go:66-83 | so does every prefix of a valid program |
| `ExecValid.CallIsPlain` | syzkaller/prog/encodingexec.go:152-174 | the map and the counter produce the closed form of a call, in which a reference carries its producer's place among the results of earlier calls, or 0 |
| `ExecValid.ProgramNumbers` | syzkaller/prog/encodingexec.go:230-247 | every call of a valid program comes out in closed form |
| `ExecDecode.DecodeRun` | syzkaller/prog/decodeexec.go:100-140 | the decoding loop runs through what was written, instruction by instruction |
| `ExecDecode.CallApplied` | syzkaller/prog/decodeexec.go:100-140 | the decoder rebuilds a call from its instructions |
| `ExecDecode.CommitsFirst` | syzkaller/prog/decodeexec.go:251-265 | the first instruction of a call commits the one before it |
| `ExecRoundTrip.CallBumps` | syzkaller/prog/decodeexec.go:251-265 | committing a call raises the number of variables to the number of results defined |
| `ExecRoundTrip.StateAt` | syzkaller/prog/decodeexec.go:100-140 | the decoder's state behind the first k calls |
| `ExecRoundTrip.LastDefault` | syzkaller/prog/decodeexec.go:170-184 | a variable starts as the default of the last reference to it |
| `ExecRoundTrip.RefKnown` | syzkaller/prog/validation.go:176-184 | the producer of every encoded reference is a result of an earlier call or of the same one |
| `ExecRoundTrip.RefPlaceIff` | syzkaller/prog/encodingexec.go:264-278 | over a whole program an encoded reference carries its producer's place among all results if and only if the producer is in an earlier call or is the very first result |
| `ExecRoundTrip.LastWrittenIff` | syzkaller/prog/decodeexec.go:79-82 | some encoded reference carries the place of the last result if and only if a later call refers to it, or it is the only result and referred to |
| `ExecRoundTrip.VarsMatch` | syzkaller/prog/decodeexec.go:79-82 | if some encoded reference carries the place of the last result there are exactly as many variables as results |
| `ExecRoundTrip.VarsMissing` | syzkaller/prog/decodeexec.go:79-82 | if none does, there are fewer, and the check fails |
| `ExecValid.RefIndexIff` | syzkaller/prog/encodingexec.go:152-174 | a reference copied into memory carries its producer's place if and only if the producer is in an earlier call or is the very first result; within one call 0 is written |
| `ExecValid.TopRefIndexIff` | syzkaller/prog/encodingexec.go:108-111 | the same for the arguments of the call itself |
| `ExecExample.ChainedIsWrong` | syzkaller/prog/encodingexec.go:264-278 | in a valid program of two calls, a struct whose second field refers to its first after an earlier result: the reference is written with index 0 in place of 1 |
| `ExecExample.ProgramRefused` | syzkaller/prog/decodeexec.go:79-82 | the decoder refuses that program, which is valid and encoded without error |
| `ExecRoundTrip.CopyoutOf` | syzkaller/prog/encodingexec.go:230-247 | every used result but the return value is copied out under its index, at its address and with its size |
| `ExecRoundTrip.DefsCount` | syzkaller/prog/encodingexec.go:98-107 | the definitions of a program count up from zero, so each index is defined once |
| `ExecRoundTrip.WrittenIsMeantIff` | syzkaller/prog/encodingexec.go:264-278 | the calls as written are the calls with every reference at its producer's place if and only if every encoded reference is to an earlier call or to the very first result |
| `ExecRoundTrip.RoundTrip` | syzkaller/prog/decodeexec.go:73-88 | decoding an encoded valid program, references within a call included, gives the calls, properties, arguments, copyins and copyouts as written, and succeeds if and only if some encoded reference carries the place of the last result; they are the calls in closed form if and only if every encoded reference is to an earlier call or to the very first result |
| `ExecLinks.SoundRef` | syzkaller/prog/validation.go:159-184 | every reference of a sound program names an argument visited earlier, which has users |
| `ExecLinks.DefinedUnique` | syzkaller/prog/validation.go:104-106 | no result of a sound program is defined twice |
| `ExecLinks.RefsInMemory` | syzkaller/prog/validation.go:73-80 | in a sound program that is as validation demands nothing refers to a result of its own call that is not in memory |
| `ExecLinks.CallFromSound` | syzkaller/prog/encodingexec.go:264-278 | every reference the encoder meets in such a program is to a result of an earlier call or to an earlier one in memory, so that the map has it |
| `ExecLinks.SoundIsValid` | syzkaller/prog/encodingexec.go:66-83 | a sound program that is as validation demands meets the precondition of the encoder: the panics about copyout indices and return values are out of reach |
| `ExecMeaning.ConstWords` | syzkaller/prog/encodingexec.go:311-316 | the three words of a constant as numbers: 0, the packed fields, the value |
| `ExecMeaning.ResultWords` | syzkaller/prog/encodingexec.go:272-278 | the six words of a reference as numbers: 1, size and format, index, divisor, addend, default, in this order |
| `ExecMeaning.DataWords` | syzkaller/prog/encodingexec.go:281-303 | the words of data: 2, the length with the readable flag in bit 63, and the bytes |
| `ExecMeaning.SumWords` | syzkaller/prog/encodingexec.go:204-224 | the words of a checksum: 3, size, 0, and the chunks as kind, value and size |
| `ExecMeaning.StepReads` | syzkaller/executor/executor.cc:815-934 | one instruction as it was written makes for one turn of the executor's loop |
| `ExecMeaning.RefMeans` | syzkaller/executor/executor.cc:1574-1590 | the value the executor computes for a reference is the result at the producer's place, divided by the argument's divisor unless that is zero, plus its addend, or its default while there is no result |
| `ExecMeaning.CallMeans` | syzkaller/prog/encodingexec.go:85-115 | the instructions of a call are its copies into memory at their addresses, its checksums, its properties, the call with the values of its arguments, and the copies out under their indices |
| `ExecMeaning.ExecutorDoes` | syzkaller/executor/executor.cc:814-934 | given the bytes of any valid program, the executor does exactly what the program says, argument by argument, from the first instruction to the last or to the first it refuses |
| `ExecLayout.FieldsFollow` | syzkaller/prog/analysis.go:146-157 | fields laid out together follow each other without gap or overlap |
| `ExecLayout.VisitsLaidOut` | syzkaller/prog/analysis.go:131-175 | every argument is visited before its parts; fields stand one behind the other from the start of the group, overlaid ones again from it, an option where its union stands, a pointee at the address of its pointer |
| `ExecEncoder.ExecContext.Write` | syzkaller/prog/encodingexec.go:249-256 | a word that does not fit sets eof for good; otherwise it is appended |
| `ExecEncoder.ExecContext.CopyBlob` | syzkaller/prog/encodingexec.go:297-303 | the data and zeros up to a whole number of words |
| `ExecEncoder.ExecContext.WriteConstArg` | syzkaller/prog/encodingexec.go:311-316 | a constant argument |
| `ExecEncoder.ExecContext.WriteArg` | syzkaller/prog/encodingexec.go:258-309 | each kind of argument, in the words that `ConstWords`, `ResultWords` and `DataWords` spell out; its precondition is what keeps the panics out of reach |
| `ExecEncoder.ExecContext.WriteCopyin` | syzkaller/prog/encodingexec.go:152-174 | the copyins of a call, addresses of used results being noted |
| `ExecEncoder.ExecContext.WriteChecksums` | syzkaller/prog/encodingexec.go:196-227 | the checksum instructions |
| `ExecEncoder.ExecContext.WriteCallProps` | syzkaller/prog/encodingexec.go:134-150 | the properties, if they are not the default ones |
| `ExecEncoder.ExecContext.WriteCall` | syzkaller/prog/encodingexec.go:96-111 | the call itself, its return value numbered on the way |
| `ExecEncoder.ExecContext.WriteCopyout` | syzkaller/prog/encodingexec.go:230-247 | the copyouts, each result getting the next index |
| `ExecEncoder.ExecContext.SerializeCall` | syzkaller/prog/encodingexec.go:85-115 | all the instructions of a call, in order |
| `ExecEncoder.RetUnseen` | syzkaller/prog/encodingexec.go:98-101 | the return value is not in the map before the call is written, so that panic is unreachable |
| `ExecEncoder.SerializeForExec` | syzkaller/prog/encodingexec.go:66-83 | fails exactly when the program does not fit or has more than 1000 results; otherwise the buffer starts with the bytes of the program, which make the executor do what the program says (`ExecutorDoes`) |
| `ExecDecoder.Decoder.Read` | syzkaller/prog/decodeexec.go:220-230 | the next word, or a sticky error |
| `ExecDecoder.Decoder.ReadBlob` | syzkaller/prog/decodeexec.go:232-243 | a padded blob, or an error |
| `ExecDecoder.Decoder.ReadArg` | syzkaller/prog/decodeexec.go:158-218 | any argument on any input for which the original returns, variables being noted |
| `ExecDecoder.Decoder.CommitCall` | syzkaller/prog/decodeexec.go:251-265 | the number of variables and the list of calls |
| `ExecDecoder.Decoder.ReadCallProps` | syzkaller/prog/decodeexec.go:142-156 | the three properties |
| `ExecDecoder.Decoder.Step` | syzkaller/prog/decodeexec.go:100-140 | one turn of the loop on any input |
| `ExecDecoder.Decoder.Parse` | syzkaller/prog/decodeexec.go:100-140 | the loop on any input |
| `ExecDecoder.DeserializeExec` | syzkaller/prog/decodeexec.go:73-88 | the result, or an error, for every input for which the original returns |
| `Links.MakeResultArg` | syzkaller/prog/prog.go:299-309 | a new argument becomes a user of its producer, and the links stay mutual inverses |
| `Links.ReplaceResultArg` | syzkaller/prog/prog.go:405-420 | for any two arguments, whatever their links: all fields but the users are taken over, and the users of both producers follow |
| `Links.ReplaceLinked` | syzkaller/prog/prog.go:405-420 | replacing by an argument nobody uses keeps producers and users mutual inverses, and changes no other argument but for the users of the two producers |
| `Progs.ReplaceIn` | syzkaller/prog/prog.go:405-420 | replacing an argument anywhere in a program by one whose producer is visited before keeps the program sound and what validation demands, and changes the fields of no other argument |
| `Progs.ReplacedLegal` | syzkaller/prog/validation.go:159-191 | a new body for one argument keeps what validation demands: the producer is no input and not the call's own return value, an input has no users, what is not in memory is an input |
| `Progs.RemovedLegal` | syzkaller/prog/validation.go:159-191 | removing a call keeps what validation demands |
| `Progs.InsertedLegal` | syzkaller/prog/validation.go:159-191 | inserting a call that is as validation demands keeps it |
| `LinkOps.EffectLegal` | syzkaller/prog/validation.go:159-191 | each operation keeps what validation demands |
| `LinkOps.Apply` | syzkaller/prog/prog.go:299-459 | each of making, replacing, removing and inserting does exactly what it says, keeps a program sound and keeps what validation demands |
| `LinkOps.Run` | syzkaller/prog/prog.go:299-459 | whatever sequence of these operations, each has its effect in turn, producers and users stay mutual inverses, every producer is visited before its users, no argument is in two places, and the program stays as validation demands |
| `Links.DropUsers` | syzkaller/prog/prog.go:436-439 | the users, taken in any order, become default arguments |
| `Links.RemoveArg` | syzkaller/prog/prog.go:423-441 | the users of a removed argument become default arguments, it leaves the users of every other, and nothing else changes; producers and users stay mutual inverses |
| `Progs.Prog.RemoveCall` | syzkaller/prog/prog.go:449-459 | removing a call keeps the program sound; what referred to its results becomes a default argument, and all other fields of all other arguments stay |
| `Progs.Prog.InsertBefore` | syzkaller/prog/prog.go:338-353 | inserting calls whose producers are visited before keeps the program sound |
| `Clones.CloneResult` | syzkaller/prog/clone.go:78-96 | the copy of an argument is linked to the copy of its producer, and to no others |
| `Clones.CloneCall` | syzkaller/prog/clone.go:28-40 | a copied call if every producer is in an earlier call or earlier in the call itself, and otherwise a lookup that misses |
| `Clones.CloneCalls` | syzkaller/prog/clone.go:20-26 | no lookup misses if and only if every producer is visited before its users; then the map is a bijection onto fresh arguments that commutes with producers and users, and nothing old changes |
| `Clones.ImageSound` | syzkaller/prog/clone.go:10-18 | an isomorphic copy of a sound program is sound |
| `Clones.ImageLegal` | syzkaller/prog/clone.go:10-18 | the copy of a program is as validation demands if the program is |
| `Clones.Clone` | syzkaller/prog/clone.go:10-18 | there is a copy if and only if every producer is visited before its users; it is an isomorphic, sound program over fresh arguments, as validation demands if the original is |
| `CloneOrder.CheckedIff` | syzkaller/prog/validation.go:64-97 | the order validation checks, with no argument its own producer, is the order in which producers are visited before their users, with return values apart |
| `CloneOrder.CheckedClones` | syzkaller/prog/validation.go:101-126 | of the programs that pass validation exactly those without an argument that refers to itself can be cloned |
| `CloneOrder.SelfReference` | syzkaller/prog/clone.go:78-96 | a program of one argument that refers to itself passes validation, and Clone fails on it |
| `Collide.Scan` | syzkaller/prog/collide.go:31-46 | what a call writes and reads |
| `Collide.FreeIff` | syzkaller/prog/collide.go:36-40 | a call writes something unassigned if and only if a later call, with only async calls strictly between, reads it |
| `Collide.OutcomeSeparated` | syzkaller/prog/collide.go:20-24 | where no call was async before, the outcome has a call that is not async strictly between any async producer and each of its consumers, at most 24 async calls, and the last not among them |
| `Collide.MarkAsync` | syzkaller/prog/collide.go:26-58 | a call ends up async if and only if its coin says so, it is not the last, fewer than 24 later calls are async, and it writes nothing that a later call reads with only async calls strictly between the two; once 24 are async a call stays what it was |
| `Collide.ReadersWait` | syzkaller/prog/collide.go:20-24 | an argument that reads what an async call produces is in a call past the next one that is not async |
| `Collide.AssignRandomAsync` | syzkaller/prog/collide.go:25-61 | that outcome on a copy that is sound and as validation demands, the original being untouched; where no call was async before, consumers are apart from async producers |
| `DoubleExec.CloneShared` | syzkaller/prog/clone.go:78-96 | without a map the copy becomes another user of the same producer |
| `DoubleExec.CloneCallsShared` | syzkaller/prog/collide.go:93-93 | duplicated calls refer only to producers in the first half, and nothing refers to them |
| `DoubleExec.MarkFirst` | syzkaller/prog/collide.go:94-101 | the first 24 duplicates are made async |
| `DoubleExec.DoubleExecCollide` | syzkaller/prog/collide.go:84-104 | the doubled program is sound and as validation demands; its first half has the fields and producers of the original, whose users are the copies of the original's users and the duplicates; its second half duplicates the first, refers only to it and is used by nothing; refused exactly when too small or too big |
| `DataRoundTrip.ReadableBack` | syzkaller/prog/encoding.go:1020-1064 | escaped text is read back to the bytes, whatever follows |
| `DataRoundTrip.HexBack` | syzkaller/prog/encoding.go:896-900 | hex text is read back to the bytes |
| `DataRoundTrip.TextBack` | syzkaller/prog/encoding.go:991-1067 | either form of text is read back, and reading stops behind it |
| `DataRoundTrip.DecimalBack` | syzkaller/prog/encoding.go:629-642 | a decimal size is read back |
| `DataRoundTrip.TrimBack` | syzkaller/prog/encoding.go:155-164 | padding a trimmed buffer to its size restores it |
| `DataRoundTrip.RoundTrip` | syzkaller/prog/encoding.go:611-672 | for every type, direction and byte string, parsing the text before a delimiter gives the argument back and stops at the delimiter |
| `DataRoundTrip.PrintOneLine` | syzkaller/prog/encoding.go:145-170 | the text of an argument has no newline |
| `DataForms.ByteText` | syzkaller/prog/encoding.go:920-967 | what every byte is printed as: backslash and letter for the ten bytes that have an escape, itself if printable, and otherwise two hex digits, the high one first |
| `DataForms.EscapeRead` | syzkaller/prog/encoding.go:1024-1064 | what every escape is read as, the two digits of a hex escape by value, and that anything else behind a backslash is refused |
| `DataForms.HexText` | syzkaller/prog/encoding.go:897-900 | byte k of hex text is digits 2k and 2k + 1, the high one first |
| `DataForms.HexValue` | syzkaller/prog/encoding.go:1010-1019 | hex text is read to some data if and only if it has two digits, of either case, for each byte, the high one first |
| `DataForms.QuotedForm` | syzkaller/prog/encoding.go:896-904 | single quotes and escapes if the type is readable or the data looks like text, double quotes and hex otherwise |
| `DataForms.TrimIs` | syzkaller/prog/encoding.go:158-161 | all trailing zeros but one go |
| `DataForms.DataForm` | syzkaller/prog/encoding.go:151-168 | a buffer of fixed size is printed without them; one of variable size only if more than eight go, and then, and only then, its size is printed |
| `DataForms.OtherForms` | syzkaller/prog/encoding.go:147-153 | output data is an empty string and a size; compressed data is base 64 behind a dollar sign |
| `DataForms.Oversize` | syzkaller/prog/encoding.go:629-642 | a size beyond memory is refused in strict mode and cut down to memory otherwise |
| `DataForms.NotListed` | syzkaller/prog/encoding.go:655-670 | a string that is not among the values of its type is refused in strict mode and the first of them otherwise |
| `DataForms.NotCompressed` | syzkaller/prog/encoding.go:621-628 | compressed data that does not decompress is refused in strict mode and empty otherwise |
| `DataImpl.CheckReadable` | syzkaller/prog/encoding.go:973-988 | tells readable data |
| `DataImpl.StripZeros` | syzkaller/prog/encoding.go:158-161 | the loop that strips trailing zeros |
| `DataImpl.Serializer.EncodeData` | syzkaller/prog/encoding.go:920-967 | the escaped form of the data, byte by byte as `ByteText` spells out |
| `DataImpl.Serializer.SerializeData` | syzkaller/prog/encoding.go:896-904 | one of the two quoted forms |
| `DataImpl.Serializer.Serialize` | syzkaller/prog/encoding.go:145-170 | the text of an argument |
| `DataImpl.Parser.Char` | syzkaller/prog/encoding.go:1197-1206 | the character at the cursor, or an error |
| `DataImpl.Parser.Parse` | syzkaller/prog/encoding.go:1223-1237 | one character and the white space behind it, or an error |
| `DataImpl.Parser.Consume` | syzkaller/prog/encoding.go:1239-1250 | one character, or an error |
| `DataImpl.Parser.ParseIdent` | syzkaller/prog/encoding.go:1258-1274 | the longest identifier, or an error |
| `DataImpl.Parser.DeserializeData` | syzkaller/prog/encoding.go:991-1067 | the data on any input, or an error; escapes and digits have the values of `EscapeRead` and `HexValue` |
| `DataImpl.Parser.ParseArgString` | syzkaller/prog/encoding.go:611-672 | the argument on any input, or an error |
| `Alloc.MemAlloc.constructor` | syzkaller/prog/alloc.go:32-44 | an empty bitmap |
| `Alloc.MemAlloc.Set` | syzkaller/prog/alloc.go:102-108 | adds one granule to the set the bitmap represents |
| `Alloc.MemAlloc.Get` | syzkaller/prog/alloc.go:110-116 | membership in that set |
| `Alloc.PlacesDiffer` | syzkaller/prog/alloc.go:94-100 | different granules have different bits |
| `Alloc.MemAlloc.NoteAlloc` | syzkaller/prog/alloc.go:46-52 | adds every granule that holds one of the bytes |
| `Alloc.MemAlloc.Bankruptcy` | syzkaller/prog/alloc.go:83-92 | empties the set within memory |
| `Alloc.NeededIff` | syzkaller/prog/alloc.go:56-62 | the granules for an object are the fewest of 64 bytes that hold it, and at least one |
| `Alloc.MemAlloc.Search` | syzkaller/prog/alloc.go:64-78 | finds the first aligned free run within memory, or there is none |
| `Alloc.MemAlloc.Alloc` | syzkaller/prog/alloc.go:55-81 | returns the first aligned free run and adds it, or frees everything, takes the start of memory and recurses no further |
| `Alloc.PlaceInBytes` | syzkaller/prog/alloc.go:55-81 | what is returned is aligned for every power of two, within memory and clear of everything noted |
| `Alloc.AlignedBytes` | syzkaller/prog/alloc.go:63-63 | an alignment in bytes is met whenever it divides its rounding to granules |
| `Alloc.AlignedIff` | syzkaller/prog/alloc.go:63-63 | an alignment is met at every aligned granule if and only if it divides 64 or 64 divides it |
| `Alloc.SecondObject` | syzkaller/prog/alloc.go:55-81 | the second object of a fresh allocator has the alignment asked for if and only if it divides 64 or 64 divides it |
| `Csum.FoldIs` | syzkaller/executor/common.h:512-513 | folding is reduction modulo 65535 that never turns a sum into zero |
| `Csum.ByteOrder` | syzkaller/executor/common.h:505-510 | the sum over words in host order is, modulo 65535, that over words in network order with its two bytes swapped |
| `Csum.DigestInNetworkOrder` | syzkaller/executor/common.h:516-519 | so the digest, stored in host order, is the checksum of RFC 1071 in network order |
| `Csum.CsumInet.Update` | syzkaller/executor/common.h:500-514 | for data of every length the accumulator is the sum wrapped at 32 bits and then folded; up to 131072 bytes it has not wrapped |
| `Csum.WrapRightIff` | syzkaller/executor/common.h:500-514 | a wrapped sum folds to the right value if and only if it wrapped a multiple of 65535 times, and not to zero |
| `Csum.BoundIsExact` | syzkaller/executor/common.h:500-514 | updates of n bytes give the folded sum for all data and accumulators if and only if n is at most 131072 |
| `Csum.OddConcat` | syzkaller/executor/common.h:509-510 | behind an odd number of bytes a part counts 256-fold |
| `Csum.PartsRightIff` | syzkaller/executor/common.h:509-510 | however a message is cut, its parts add up to its sum if and only if the words of the parts at odd offsets add up to a multiple of 257 |
| `Csum.RightSumIff` | syzkaller/executor/common.h:500-514 | for parts of any length, following the accumulator: it holds the sum of the message if and only if 255 times the words at odd offsets plus the number of wraps is a multiple of 65535, and zero is not confused with 65535 |
| `Csum.Checksum` | syzkaller/executor/common.h:491-519 | the digest of any parts is the one's complement checksum of the message if and only if that holds; with parts of up to 131072 bytes, if and only if the words of the parts at odd offsets add up to a multiple of 257, so always if all parts but the last are even |
| `Csum.OddPart` | syzkaller/executor/common.h:509-510 | two parts of one byte each fail that condition and give another checksum |
| `Csum.StoredDigest` | syzkaller/executor/common.h:516-519 | with the digest in a zeroed field at an even offset the checksum of the message is zero |
| `Enable.LeastIsUnique` | syzkaller/prog/resources.go:168-195 | there is one least set, so the order of iteration over maps cannot matter |
| `Enable.Pass` | syzkaller/prog/resources.go:172-189 | one pass in any order goes from stage to stage, and adds nothing only at the fixed point |
| `Enable.TransitivelyEnabled` | syzkaller/prog/resources.go:168-195 | ends with the least fixed point of having all input resources creatable |
| `Enable.TransitivelyEnabledCalls` | syzkaller/prog/resources.go:197-226 | every enabled call is supported, or disabled for an input that nothing supported creates; none is lost |

## Left out

- The other scheduling algorithms (POS, random walk, random priority): independent random draws that promise no order.
- The next-access metadata read from task fields: it only feeds those algorithms.
- Names, policies and the matching of executor groups: they are parameters of the tasks of the model.
- Timer and map plumbing of the scheduler, debug output and counters of ignored tasks: no property depends on them.
- Deterministic ids in the scheduler safety model restart at a reset, as in the code; that they may then collide is covered by the condition of `SlotsCollideIff`.
- `init_pct` calling both the shuffle and the choice of change points in order: each is proved on its own maps.
- The instrumentation pass: its meaning lies in compiler analyses.
- The caching of the fixed Huffman tables between calls of puff: they are built afresh in the model.
- `puff_zlib_to_file`: file and memory mapping calls; only the fact that its buffer starts zeroed is used.
- `setjmp` and `longjmp` in puff: running out of input is a result that every caller passes on.
- `calcChecksumsCall` and the sorting of checksum instructions by address: their outcome is part of the input of the exec encoder.
- Memory, system calls, threads and completion order in the executor: its loop is modelled up to what it hands to them, for every state of the results.
- The bit field and string formats of `copyin` in the executor: the values, sizes and formats handed to it are modelled.
- Pseudo-random seeds, `a.Value()` for process types and physical addresses in the exec encoder: the values are part of the input.
- Sizes, formats and bit field positions wider than a byte, and process strides wider than 32 bits, in the exec format: type descriptions do not produce them, and the model's types exclude them.
- Host byte order: little-endian is assumed for exec words and checksum words.
- Replacing whole groups and unions of arguments (`replaceArg` beyond result arguments): it repeats the steps proved for result arguments.
- Types and sizes in validation: of what it demands, the links, directions and values of result arguments are modelled.
- `DupCallCollide` and `AssignRandomRerun`: simpler uses of the same copying.
- Whole-program text parsing, conditional fields, squashing and minimisation: they depend on generated descriptions.
- Base 64, reading a zlib stream and numbers that are not plain decimals in the data parser: library code, given as parameters. That empty data needs no decompression is modelled.
- The text of the messages for disabled calls: only the missing resource is modelled.
- The virtual memory allocator `vmaAlloc`: random choice of pages.
- Sizes and alignments near the limit of 64 bits in the allocator: its sums are taken without wrap-around.
- SchedConverse.ResetOnOfferBreaks: asks for a free slot in the queue and three free task contexts, because without them no new thread can join.
- SchedImpl.Scheduler.EnsureTaskCtx: does not model the deletion of a context between two lookups of one callback, because callbacks are atomic in that model.
- ExecDecoder.Decoder.ReadArg: does not model the panic on a chunk count too large to allocate, nor the growth of the variables towards an index near the limit of 64 bits, because memory is unbounded in the model.
- ExecDecoder.DeserializeExec: does not model these two either, because it reads arguments in the same way.
- SchedPct.PctDispatches: is about one cycle of a group, in which no two tasks draw from the same slot and events stay within 32 bits, because a reset draws new priorities and `SlotsCollideIff` says when slots collide.
- LinkOps.Run: skips an operation whose place or call does not exist, or whose outcome validation would reject, because no caller asks for these.
