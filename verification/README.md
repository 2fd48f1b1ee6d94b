# Proofs about the simulator models of the core

The hardware of this core is checked against executable models: a reorder buffer, a request
generator with a golden memory, an AXI memory, a cache with response slots, three memories that
hold the same bytes in different words, a page-table generator and an instruction encoder. This
project models those models and proves what they keep in every run, so that a failing simulation
points at the hardware and not at the model it is compared with.

The parts, and the files they are in:

- **The L1D test bench** (`rcu`, `monitor`, `axi`, `testbench`). Each simulator object is a class
  whose `Eval` is proved equal to a function on states, and one clock step of the bench is the
  composition of those functions in the order of the driver. The hardware is an arbitrary
  environment: its ready signals, completions and bus commands are inputs of every step, and every
  random draw is a number that comes with the input.
- **What the reorder buffer keeps** (`rob_discipline`, `rob_runs`, `rob_answers`, `rob_timing`,
  `progress`), **what the closed loop keeps** (`closed_loop`, `golden`, `bench_runs`,
  `register_loss`), **what the AXI memory refines** (`axi_runs`, `axi_bursts`, `axi_timing`,
  `axi_channel`, `axi_progress`): results about all runs, by induction over the input sequence.
- **The LSU test's cache and monitor** (`cache`, `cache_slots`, `cache_throws`,
  `cache_hits`, `cache_runs`, `cache_calls`, `delay_search`, `lsu_monitor`).
- **The memories** (`words`, `bits`, `flat_memory`, `loads`, `packed64`, `packed32`,
  `perfect_mem`, `memory_agreement`). All are proved against one map of 65536 bytes.
- **The codecs** (`pte`, `page_table`, `sv39`, `sv39_bits`, `regions`, `boot`; `bit_strings`,
  `encoder`, `instr_hex`, `reencode`, `code_values`).

Machine words are bounded integers and every wrap-around is written out; the bitwise operators of
the source are defined bit by bit in `bits.dfy` and the masks it uses are proved to do what they
are for.

## What turned out not to hold

- **The AXI response channel loses and repeats beats.** The memory drops the response it drives
  when the ready signal sampled *before* that edge was high, while the receiver takes it with the
  ready signal of the next edge. `AxiChannel.DeliveryIsExact` says exactly when a response arrives
  once, `AxiChannel.BeatsGetLostAndDoubled` gives one run that loses a beat and one that repeats
  it, and `AxiChannel.AlwaysReadyIsExact` shows that a receiver that never lowers ready is safe.
- **The generated page table sets D, A and U in its pointers.** Sections 4.3.1 and 4.4.1 of the
  RISC-V Privileged Architecture v1.12 reserve these bits in non-leaf entries; a walker that minds
  reserved bits faults on every address (`Regions.StrictWalkerFaults`).
- **Most data regions are not mapped to themselves.** For a walker that ignores those bits,
  `Regions.MappedToItselfIff` says exactly which are: those that start in the first page of a
  2 MiB and end in the same 2 MiB before its last page. A region of exactly 512 pages gets an empty
  level 0, because the number of leaves is taken modulo 512; one that starts further up is mapped
  from the wrong entry; one that crosses a boundary gets pointers that skip pages. The simulator's
  own region is well placed (`Regions.DataAddressesMapped`).
- **A cache hit can share a slot.** The hit delay is fixed and not bumped.
  `CacheSlots.SlotsStayApartIff`: a slot is shared exactly when a request is accepted that hits
  while another line waits three edges ahead. `CacheThrows.MultiRespIff`: a run ends in "l1d has
  multi resp in a tik" exactly if that other line is a load and the hit is not killed at the next
  edge, and the run gets as far as the slot; if the other line is a store both are answered.
  `CacheHits.HitsCollide` is one such run. For the addresses the test drives every lookup misses,
  because the hit set holds whole addresses and is asked for tags, and the throw is unreachable
  (`CacheSlots.NeverThrows`).
- **Registers are only conserved by an echo.** `RegisterLoss.CommitConservesIff`: a load leaves the
  registers, free and in flight together, as they were exactly if it commits with the register it
  carried; `RegisterLoss.RegistersGetLost` is a run that loses one.
- **A test of 2^32 requests never ends.** The quota has 64 bits and the counters 32:
  `BenchRuns.DoneIff` says when the bench reports that it is done.
- **The encoder silently cuts immediates**, and drops the lowest bit of branch and jump offsets:
  `Encoder.RoundTripIff` says for which immediates the code still means the instruction.

## Model

| member | source | states |
|---|---|---|
| Rcu.FakeRcu.Eval | sim/l1d/fake_rcu.cpp:49-200 | the object's fields after an edge are those of `RcuStep`: handshake, enqueue, completion, wakeup, issue, commit in this order, inputs consumed |
| RobDiscipline.StepKeepsRobInv | sim/l1d/fake_rcu.cpp:52-88 | for any LSU, an edge keeps the live indices consecutive modulo 16, the issued entries a prefix and the pending request the oldest unissued entry, which is then on offer |
| RobDiscipline.LiveIndicesDistinct | sim/l1d/fake_rcu.cpp:79-88 | two live entries never have the same reorder-buffer index, up to all sixteen |
| RobRuns.RunIsInOrder | sim/l1d/fake_rcu.cpp:79-200 | in every run the stream the LSU has taken is the enqueue stream up to the first unissued entry, each request once, and commits follow it in order |
| RobRuns.AcceptedIff | sim/l1d/fake_rcu.cpp:79-88 | in every run a request is accepted exactly if fewer than sixteen entries are live, and gets the index after the last of them, 0 if there is none |
| RobRuns.WakeupOnlyIssued | sim/l1d/fake_rcu.cpp:148-176 | the wakeup pass fires exactly if some entry is due, and then wakes one issued, sleeping entry and reports its index |
| RobRuns.WakeupAccounting | sim/l1d/fake_rcu.cpp:148-200 | at most one wakeup an edge, none twice, and as many wakeups as commits plus live entries awake |
| RobTiming.NoEarlyWakeup | sim/l1d/fake_rcu.cpp:148-176 | in every run what has been woken was taken by the LSU and has slept out its delay since; until it commits its timer shows just what is left |
| RobAnswers.OffersCarry | sim/l1d/fake_rcu.cpp:177-190 | in every run each request is offered and taken with the register and data its entry had when it was put on offer |
| RobAnswers.TakenAsEnqueued | sim/l1d/fake_rcu.cpp:177-190 | an LSU that completes only what it has taken takes each request with the register and data it came in with |
| RobAnswers.RunAnswers | sim/l1d/fake_rcu.cpp:124-200 | in every run each entry, live or committed, carries the register of its last completion and the data of its last completion with a register; live ones are done exactly if completed, committed ones have been |
| RobAnswers.CommitsLastAnswer | sim/l1d/fake_rcu.cpp:124-200 | a commit shows the register the LSU answered with last and, if that is not 0, the data; its own data if no completion named a register |
| Progress.HeadCommits | sim/l1d/fake_rcu.cpp:148-200 | an issued and answered head with delay d commits at edge d+1 and not before, whatever else arrives |
| Progress.BufferDrains | sim/l1d/fake_rcu.cpp:148-200 | with an LSU that is always ready and answers within n edges the buffer is empty after twice its length plus max(n, d) edges |
| Axi.FakeMemory.constructor | sim/l1d/fake_mem.hpp:37-76 | memory starts with each word holding its address, the page table as the bytes loaded and then zeros |
| Axi.FakeMemory.Eval | sim/l1d/fake_mem.cpp:58-237 | the fields after an edge are those of `AxiStep`: arrivals, beat routing, countdown, moving, serving, response |
| Axi.FakeMemory.Drain | sim/l1d/fake_mem.cpp:126-202 | the serving loop ends with the request queue empty and memory and responses those of serving all its requests in turn |
| AxiRuns.RouteAppends | sim/l1d/fake_mem.cpp:91-109 | a write beat goes to the end of the concatenated beats of all write addresses |
| AxiRuns.RouteFillForm | sim/l1d/fake_mem.cpp:91-109 | after a beat the counts are again 8, …, 8, k, 0, …, 0, and no command has changed |
| AxiRuns.StrayBeatFault | sim/l1d/fake_mem.cpp:98-108 | "w vld while no aw" is thrown exactly when all addresses so far are full and none arrives |
| AxiRuns.ServedIsSequential | sim/l1d/fake_mem.cpp:128-201 | serving requests whose beats are in place equals the reference memory reading one flat stream of write beats |
| AxiRuns.RefinesSequential | sim/l1d/fake_mem.cpp:63-202 | in every run memory and responses are those of the reference after the commands served, accepted is served then waiting, and no beat is lost |
| AxiRuns.DelaysAreInvisible | sim/l1d/fake_mem.cpp:67-80 | two runs with the same commands and beats hand over the same responses as far as both have got, whatever the delays |
| AxiRuns.RunStepIsStep | sim/l1d/fake_mem.cpp:58-237 | the history kept beside a run changes nothing: its step is the simulator's |
| AxiBursts.AnswerInPlace | sim/l1d/fake_mem.cpp:134-199 | in the reference the answer to a command follows those of all earlier ones, in one piece, from the memory the earlier commands left |
| AxiBursts.ReadAnswer | sim/l1d/fake_mem.cpp:137-168 | a read of 0x80000000 to 0x8000ffff or 0x10000000 to 0x1000ffff gets eight beats with its id, the last one only marked last, each the little-endian word at its place in memory or in the page table; a read of any other address is an error |
| AxiBursts.ServeFailsIff | sim/l1d/fake_mem.cpp:134-199 | requests are served exactly if none is outside 0x80000000 to 0x8000ffff, or for a read 0x10000000 to 0x1000ffff; the first that is tells the error |
| AxiBursts.EdgeFailsIff | sim/l1d/fake_mem.cpp:91-199 | in every run an edge throws exactly if it brings a write beat nobody waits for or serves a command out of range |
| AxiBursts.RunAnswers | sim/l1d/fake_mem.cpp:134-230 | in every run each command served has its whole answer at its place among the responses |
| AxiBursts.NoEarlyResponse | sim/l1d/fake_mem.cpp:170-198 | a response is handed over only after its command was served, a B response so only after its eight beats are in memory |
| AxiBursts.ReadAfterWrite | sim/l1d/fake_mem.cpp:139-178 | reading the beats of a line just written returns the beats written |
| AxiBursts.BytesAreLastWritten | sim/l1d/fake_mem.cpp:173-187 | in every run each byte of memory is what the last served write over it put there, or its first value |
| AxiTiming.ServedExactly | sim/l1d/fake_mem.cpp:63-126 | in every run a command has been served exactly if it and every command before it has waited out its drawn 3 to 52 edges and has its write beats |
| AxiProgress.AnsweredInTime | sim/l1d/fake_mem.cpp:113-230 | with the missing write beats delivered and a receiver that is ready, everything accepted is served and answered within the edges the delays and queues tell |
| AxiProgress.RunAnsweredInTime | sim/l1d/fake_mem.cpp:63-230 | the same for every run from the simulator's start: the reference responses to all commands accepted before have been handed over |
| AxiChannel.TakesOfDropped | sim/l1d/fake_mem.cpp:206-230 | how often the receiver takes a response that the memory has dropped |
| AxiChannel.BeatIsPort | sim/l1d/fake_mem.cpp:206-230 | the recorded trace matches the port: what it says is driven is driven, with the response of that number |
| AxiChannel.RunIsChannelTrace | sim/l1d/fake_mem.cpp:206-230 | a response that is not dropped is driven again unchanged, and dropping one moves to the next |
| AxiChannel.DeliveryIsExact | sim/l1d/fake_mem.cpp:206-230 | a dropped response is received exactly once if and only if ready at the next edge says that it was newly driven |
| AxiChannel.AlwaysReadyIsExact | sim/l1d/l1d.cpp:254-267 | a receiver that keeps ready high gets every response exactly once |
| AxiChannel.BeatsGetLostAndDoubled | sim/l1d/fake_mem.cpp:206-230 | one concrete run in which a beat is never received and one in which it is received twice |
| L1dMonitor.Monitor.constructor | sim/l1d/monitor.hpp:48-62 | counters at zero, issue queue empty, free registers 1 to 63 in order |
| L1dMonitor.Monitor.Eval | sim/l1d/monitor.cpp:35-216 | the fields after an edge are those of `MonStep`, or the error it throws |
| L1dMonitor.DrawReq | sim/l1d/monitor.cpp:51-95 | the double-word the drawn offset falls into, the two draws as halves of a store's data, fence, opcode and delay as drawn, a register only for a load |
| L1dMonitor.EveryRequestIsDrawn | sim/l1d/monitor.cpp:51-95 | any aligned data address, opcode of either kind, delay of 1 to 5, data of two 31-bit halves, fenced or not, is drawn by some numbers |
| L1dMonitor.OfferedIff | sim/l1d/monitor.cpp:38-98 | after an edge a request is on offer exactly if one was drawn, which needs one draw in three and a quota left, or an earlier one was not taken; a new one takes its place |
| L1dMonitor.CheckFailsIff | sim/l1d/monitor.cpp:100-178 | the order error comes exactly if the first issued request has another address, the load error exactly if it has this one and the data is not the value there |
| L1dMonitor.Monitor.Expected | sim/l1d/monitor.cpp:116-166 | the byte sum and the sign masks give the value of the load by the ISA manual, for every opcode and address |
| L1dMonitor.Monitor.DoStore | sim/l1d/monitor.cpp:182-202 | the byte loop stores the low bytes of the data at the address and changes nothing else |
| Testbench.Bench.ClockStep | sim/l1d/l1d.cpp:143-280 | sampling all ports and then evaluating the four objects is `TbStep` |
| Testbench.Bench.Simulate | sim/l1d/l1d.cpp:131-285 | the loop follows `TbRun` until the monitor is done, the time is up or something is thrown, and stops there |
| ClosedLoop.RcuPassesThrough | sim/l1d/fake_rcu.cpp:79-200 | an edge of the reorder buffer changes its stream only by the request it accepts at the back and the commit it hands over at the front |
| ClosedLoop.AcceptTogether | sim/l1d/l1d.cpp:146-150 | monitor and reorder buffer accept a request in the same step or neither does |
| ClosedLoop.AcceptKeeps | sim/l1d/monitor.cpp:38-46 | the register popped from the free list is the one the accepted load carries |
| ClosedLoop.StepKeepsLoop | sim/l1d/l1d.cpp:146-280 | for any hardware, a step keeps the issue queue equal to the commit in transit followed by the reorder buffer, and throws no order error |
| ClosedLoop.NeverOutOfOrder | sim/l1d/monitor.cpp:101-112 | "lsu commit in wrong order" ends no run, and after every run the queue equation and the counter equation hold |
| ClosedLoop.DoneMeansDrained | sim/l1d/monitor.cpp:31-33 | when the test is done nothing is on offer, queued, buffered or in transit |
| ClosedLoop.RegistersNeverRunOut | sim/l1d/monitor.cpp:38-45 | at most 17 requests are in flight and at least 46 registers are free |
| Golden.GoldenRun | sim/l1d/monitor.cpp:100-207 | with hardware that echoes registers the golden memory is the replay of the first n requests issued, and the queue holds the rest |
| Golden.HistIsRun | sim/l1d/l1d.cpp:143-280 | the history of issued and checked requests runs exactly as the bench does |
| Golden.LoadFailsIff | sim/l1d/monitor.cpp:116-178 | "load fail!" is thrown exactly for a load whose data differs from its value in the replay of all requests before it |
| Golden.RegistersConserved | sim/l1d/monitor.cpp:90-114 | every register from 1 to 63 is free once or carried by one load in flight, never both, never lost |
| BenchRuns.MemoryIsRun | sim/l1d/l1d.cpp:220-280 | the bench's bus memory makes the run of `AxiRuns` on what the hardware puts on the bus |
| BenchRuns.BufferIsRun | sim/l1d/l1d.cpp:143-280 | the bench's reorder buffer makes the run of `RobRuns` on what the driver passes it: enqueued is what was issued, committed is what was checked and what is in transit |
| BenchRuns.StepOffers | sim/l1d/l1d.cpp:143-280 | for any hardware a step leaves on offer the request drawn at it, with the register then at the head of the free list, or the earlier one unless the reorder buffer took it |
| BenchRuns.WrongAnswerFailsIff | sim/l1d/monitor.cpp:116-178 | with hardware that echoes registers "load fail!" is thrown exactly if the next request to check has committed, is a load, and the data the LSU answered it with last is not its value in the replay of all requests before it |
| BenchRuns.FreeListIsQueue | sim/l1d/monitor.cpp:38-114 | for any hardware the registers handed out and then those free are 1 to 63 and then those that loads committed with, in order |
| BenchRuns.DoneIff | sim/l1d/monitor.cpp:31-33 | the test is done exactly when as many requests as asked for have been issued and checked, and never with 2^32 or more asked for |
| RegisterLoss.CommitConservesIff | sim/l1d/monitor.cpp:112-114 | a load commit conserves the registers exactly if it names the register the load carried |
| RegisterLoss.RegistersGetLost | sim/l1d/fake_rcu.cpp:124-132 | a run of five edges after which register 1 is neither free nor in flight and register 5 is free twice |
| DelaySearch.LeastFree | sim/lsu_ut/fake_cache.cpp:51-54 | the search ends with the least value from the draw on that is not used, at most the number of used values further on |
| DelaySearch.RunOfTaken | sim/lsu_ut/fake_cache.cpp:52-54 | pigeonhole: a run of taken delays is no longer than the number of delays taken |
| Cache.MissDelayBound | sim/lsu_ut/fake_cache.cpp:50-54 | a miss waits at most 50 edges and in a slot no queued request has |
| Cache.FakeL1DCache.SetReq | sim/lsu_ut/fake_cache.cpp:41-62 | the request latched is the one called for, with the fixed delay on a hit and the least free delay on a miss |
| Cache.LatchedNames | sim/lsu_ut/fake_cache.cpp:41-62 | a load's address is offset, index and page tag of the call at their bits, a store's the physical address, the rest as called; three edges on a hit, on a miss the least free number from a draw of 5 to 34 on |
| Cache.RequestDoes | sim/lsu_ut/fake_cache.cpp:69-153 | a store writes as many low bytes as it is wide, a load is filled with its value, unknown opcodes do neither, and the access is refused exactly if its width does not divide the address |
| Cache.FakeL1DCache.Eval | sim/lsu_ut/fake_cache.cpp:63-236 | the fields after an edge are those of `EvalStep`, or the error it throws; the delay set is that of the list again |
| Cache.FakeL1DCache.ClockStep | sim/lsu_ut/lsuv1.cpp:163-232 | the driver's calls around an edge and the evaluation are `CacheStep`, or the error it throws |
| Cache.FakeL1DCache.SweepLines | sim/lsu_ut/fake_cache.cpp:178-226 | the in-place pass over the list keeps, answers and drops what `Sweep` says |
| Cache.EvalSettles | sim/lsu_ut/fake_cache.cpp:166-234 | at most 16 lines, the delay set equal to their delays, and the line pending execution still in the list |
| CacheSlots.SweepThrowsIff | sim/lsu_ut/fake_cache.cpp:182-202 | the pass throws exactly if a load that is due is followed by another line that is due |
| CacheSlots.CollidesIffHit | sim/lsu_ut/fake_cache.cpp:46-55 | a request is accepted into a taken slot exactly if it hits and another line waits three edges ahead |
| CacheSlots.SlotsStayApartIff | sim/lsu_ut/fake_cache.cpp:46-234 | from distinct slots no edge throws for two answers, and they stop being distinct exactly if a request is accepted that hits while another line waits three edges ahead |
| CacheThrows.ThrowsAfterHit | sim/lsu_ut/fake_cache.cpp:46-202 | from any reachable state, three edges later the cache throws exactly if a hit was accepted behind a load three edges ahead and not killed at the next edge |
| CacheThrows.MultiRespIff | sim/lsu_ut/fake_cache.cpp:46-202 | a run ends in "l1d has multi resp in a tik" exactly if it contains such a hit and gets as far as its slot |
| CacheSlots.MissNeverCollides | sim/lsu_ut/fake_cache.cpp:50-55 | a request that misses is never accepted into a taken slot |
| CacheSlots.LookupMisses | sim/lsu_ut/fake_cache.cpp:47-49 | on data addresses the lookup never hits |
| CacheSlots.NeverThrows | sim/lsu_ut/fake_cache.cpp:63-236 | driven with data addresses, in any run, the cache throws nothing and all queued requests have distinct delays |
| CacheHits.HitsCollide | sim/lsu_ut/fake_cache.cpp:47-49 | a run outside the data addresses that ends in the throw |
| CacheRuns.StepKeepsCacheInv | sim/lsu_ut/fake_cache.cpp:69-234 | an edge keeps memory equal to the replay, every waiting line equal to its request with its reply, and every number in the list or answered |
| CacheRuns.AnswersAreReplies | sim/lsu_ut/fake_cache.cpp:69-226 | in every run memory is the replay of the requests accepted and not killed, load responses are replies at their turn and none is given twice, store responses are in order |
| CacheRuns.HistoryIsRun | sim/lsu_ut/fake_cache.cpp:63-236 | the history of requests and answers runs exactly as the cache does |
| CacheRuns.EveryRequestAnsweredOnce | sim/lsu_ut/fake_cache.cpp:182-226 | once the list is empty every request not killed has been answered exactly once |
| CacheRuns.Drains | sim/lsu_ut/fake_cache.cpp:182-226 | without new calls the list is empty after as many edges as the longest wait |
| CacheRuns.DataRunsAnswerAll | sim/lsu_ut/fake_cache.cpp:41-236 | any run on data addresses followed by 51 edges without a call throws nothing and answers everything once |
| CacheRuns.KillUndoes | sim/lsu_ut/fake_cache.cpp:155-166 | a request killed at the edge after its acceptance leaves the cache as if it had not been made, but for the latched request |
| CacheCalls.AnsweredWhenDue | sim/lsu_ut/fake_cache.cpp:41-236 | in every run the requests done are the calls taken and not killed, in order, with the address, data, register and operation of the call, and each has been answered exactly if the edge of its slot is past |
| CacheCalls.HitsAreAnswered | sim/lsu_ut/fake_cache.cpp:182-226 | in every run the hit set holds exactly the addresses of the requests answered |
| CacheCalls.StepTakes | sim/lsu_ut/fake_cache.cpp:63-176 | an edge takes a call exactly if at most fifteen requests are left once the last has been executed or killed |
| CacheCalls.PortsShowCall | sim/lsu_ut/fake_cache.cpp:69-166 | in every run the L1D request and the store response after an edge are those of the call taken at the edge before, unless it is killed |
| LsuMonitor.Monitor.EvalResp | sim/lsu_ut/monitor.cpp:157-252 | a commit is checked for order, loads against the golden memory, stores applied to it, as `Respond` says |
| LsuMonitor.Monitor.StoreHalves | sim/lsu_ut/monitor.cpp:228-232 | two stores of four bytes do what one of eight does, at any address aligned to four |
| LsuMonitor.StreamPassesIff | sim/lsu_ut/monitor.cpp:157-252 | a stream of commits passes exactly if each names the request issued in its place and each load carries what the commits before it leave |
| LsuMonitor.StreamState | sim/lsu_ut/monitor.cpp:157-252 | after a stream that passes the free list is the old one and then the registers of its loads in order, the count is the old one and its length modulo 2^32, and the queue holds the rest |
| LsuMonitor.RespondFailsIff | sim/lsu_ut/monitor.cpp:157-252 | the order is checked first, then the alignment, then a load's data: each error exactly when |
| LsuMonitor.RefusedIff | sim/lsu_ut/monitor.cpp:222-240 | a double store below 64 KiB needs four to divide its address, anything else its width |
| LsuMonitor.CacheRepliesPass | sim/lsu_ut/monitor.cpp:157-252 | any requests with their replies, committed in the order of issue, pass, and the golden memory ends as their replay |
| LsuMonitor.CacheRunPasses | sim/lsu_ut/monitor.cpp:157-252 | after any run of the cache that throws nothing, its replies committed in the order of issue pass, and the golden memory equals the memory of that cache |
| LsuMonitor.Monitor.constructor | sim/lsu_ut/monitor.hpp:62-70 | issue queue empty, counter at zero, free registers 1 to 63 in order |
| Packed64.PackedMemory.constructor | sim/lsu_ut/fake_mem.hpp:16-20 | the words stand for the common initial bytes |
| Packed64.PackedMemory.SetByte | sim/lsu_ut/fake_mem.cpp:8-13 | the byte at the address is the new one and no other byte of the memory changes |
| Packed64.SetByteView64 | sim/lsu_ut/fake_mem.cpp:8-13 | clearing with a mask and or-ing writes that byte of the view and no other |
| Packed64.PackedMemory.GetByte | sim/lsu_ut/fake_mem.cpp:5-7 | the word shifted and masked with 0xff is the byte at the address |
| Packed64.PackedMemory.Load | sim/lsu_ut/fake_mem.cpp:15-72 | lb, lh, lw, ld, lbu, lhu, lwu: misalignment error or the value by the ISA manual, visit counter bumped |
| Packed64.PackedMemory.Store | sim/lsu_ut/fake_mem.cpp:74-118 | sb, sh, sw, sd: misalignment error or the byte loop |
| Packed64.StoreView64 | sim/lsu_ut/fake_mem.cpp:74-118 | the byte loop writes the low bytes of the data, little-endian, and no others |
| Packed64.WordIsBytes | sim/lsu_ut/fake_mem.cpp:44-48 | a whole word is the composition of its eight bytes |
| Packed64.SdIsTwoSw | sim/lsu_ut/monitor.cpp:228-232 | a double store is a store of the low word and one of the high word |
| Packed64.InitialView64 | sim/lsu_ut/fake_mem.hpp:19 | the constructor's 64-bit words are the common image |
| Packed32.InitialView32 | sim/perfect_mem.hpp:45-47 | the constructor's 32-bit words are the common image |
| Packed32.WriteView32 | sim/perfect_mem.hpp:186-231 | write8, write16, write32 and write64 write their own bytes of the view and no others |
| Packed32.PeekView32 | sim/perfect_mem.hpp:320-350 | peek8, peek16, peek32 and peek64 read their own bytes of the view |
| PerfectMemory.PerfectMem.WriteN | sim/perfect_mem.hpp:186-231 | misalignment error and no change, or the bytes stored and the acknowledge started |
| PerfectMemory.PerfectMem.PeekN | sim/perfect_mem.hpp:320-350 | misalignment error, or the little-endian number at the address |
| PerfectMemory.PerfectMem.HandleDelayConflict | sim/perfect_mem.hpp:86-96 | the slot's delay becomes the first value, counting up from the draw in sixteen bits, that no other slot has, and the least where nothing wraps; nothing else changes |
| FlatMemory.StoreBytesAt | sim/l1d/fake_mem.cpp:175-178 | what a store of n bytes leaves in every byte of memory, wrapping at the top |
| FlatMemory.LoadAfterStore | sim/l1d/fake_mem.cpp:139-149 | a load reads exactly what the last store to its address wrote |
| MemoryAgreement.StoresAgree | sim/perfect_mem.hpp:186-231 | from the constructors' images any run of aligned stores leaves byte, 32-bit and 64-bit memory with the same bytes |
| MemoryAgreement.LoadsAgree | sim/perfect_mem.hpp:320-350 | after any such run every aligned load of any width reads the same number from all three |
| MemoryAgreement.SplittingIsInvisible | sim/lsu_ut/monitor.cpp:228-236 | a memory that gets every double store in two halves keeps up with one that does not |
| Loads.SignByte | sim/l1d/monitor.cpp:157-159 | sign test and mask are two's complement extension of a byte |
| Loads.SignHalf | sim/l1d/monitor.cpp:160-162 | the same for a half-word |
| Loads.SignWord | sim/l1d/monitor.cpp:163-165 | the same for a word |
| Loads.LoadTable | sim/l1d/monitor.cpp:116-166 | what each of lb, lh, lw, ld, lbu, lhu and lwu returns, in the bytes at the address |
| Loads.StoreTable | sim/l1d/monitor.cpp:182-202 | what sb, sh, sw and sd leave in every byte of memory |
| Loads.ImageWords | sim/l1d/fake_mem.hpp:46-56 | in the image every memory starts with, the word at an aligned address is the address |
| Bits.MaskClearsByte | sim/lsu_ut/fake_mem.cpp:11 | and-ing with the complement of a shifted 0xff clears that byte and keeps the others |
| Bits.OrFillsByte | sim/lsu_ut/fake_mem.cpp:12 | or-ing a shifted byte into a cleared place puts it there |
| Ptes.UnpackPack | sim/l1d/generate_mem.py:62-79 | the packed word gives back every field whose value fits its bits |
| Ptes.MadePteRoundTrip | sim/l1d/generate_mem.py:23-82 | the word of a generated entry gives back page number and flags, for every page number below 2^44 |
| Sv39Bits.GeneratedWords | sim/l1d/generate_mem.py:23-82 | the words are the page number above ten bits, 0xdf for a leaf and 0xd1 for a pointer, and 0 |
| Ptes.HexPairIsByte | sim/l1d/generate_mem.py:79-176 | the pairs of hexadecimal digits counted from the end are the bytes of the word, lowest first |
| PageTable.Generate | sim/l1d/generate_mem.py:101-158 | for every data region of the address space the loops append the pages of `Tables`: level 2, the copies of level 1, the leaves |
| PageTable.Serialise | sim/l1d/generate_mem.py:171-181 | the bytes written are the words of the pages, each page filled up with zeros |
| PageTable.ReadBack | sim/l1d/fake_mem.cpp:147-149 | one beat read from the loaded table is the word written at that place |
| Sv39.BusReadsTable | sim/l1d/fake_mem.cpp:139-149 | the double-word at any aligned address from 0x10000000 to 0x1000ffff, as the memory answers a read of its line, is the eight bytes of the table there |
| Sv39.MemoryProvides | sim/l1d/generate_mem.py:171-181 | over the bus of the memory object, with the pages loaded, a walker reads every entry of them, nothing valid in the rest of the table's 64 KiB, and is refused beyond |
| Sv39.WalkFollows | sim/l1d/generate_mem.py:101-158 | the walk over the bits of the entries is the walk over what they stand for |
| Sv39Bits.LeafIff | sim/l1d/generate_mem.py:34-37 | by section 4.3.2 of the Privileged Architecture, which words map a page on which level, in terms of their bits, and where a 4 KiB page goes |
| Sv39Bits.PointerIff | sim/l1d/generate_mem.py:34-37 | which words point to the next level, for a walker that minds reserved bits and one that does not, and where to |
| Sv39Bits.LeafMapsItsBytes | sim/l1d/generate_mem.py:34-37 | a leaf of any level keeps the address within its 4 KiB, 2 MiB or 1 GiB and takes the rest from its page number |
| Regions.ShapeSlices | sim/l1d/generate_mem.py:101-125 | the indices the script works with are the bits of the two addresses from 30, 21 and 12 up |
| Regions.MegapageFollow | sim/l1d/generate_mem.py:101-158 | where every address goes for any region inside one 2 MiB |
| Regions.IdentityMap | sim/l1d/generate_mem.py:101-158 | for a region that starts in the first page of a 2 MiB the walk maps its pages to themselves and faults elsewhere, as long as there are fewer than 512 |
| Regions.MappedToItselfIff | sim/l1d/generate_mem.py:101-158 | of all regions whose table fits its memory exactly the well-placed ones are mapped to themselves |
| Regions.StrictWalkerFaults | sim/l1d/generate_mem.py:34-37 | a walk that minds reserved bits faults on every address, for every region |
| Regions.DataAddressesMapped | sim/l1d/generate_mem.py:16-21 | every data address of the simulator is mapped to itself |
| Boot.BootMemory | sim/l1d/fake_mem.hpp:37-76 | generating, writing and loading leaves the memory object with the table of the region, if its pages fit |
| Boot.DataTableFits | sim/l1d/generate_mem.py:16-21 | the simulator's own table has three pages, so it is loaded |
| BitStrings.PaddedBin | src/rcu/data/data_gen.py:62-68 | filling up what `bin` writes gives the fixed-width bit string |
| BitStrings.WrapKeepsIff | src/rcu/data/data_gen.py:62 | a number survives being cut to w bits exactly in the signed range |
| Encoder.DecodeTranslate | src/rcu/data/data_gen.py:84-151 | a decoder built from the ISA manual gets back the instruction with its immediate cut to its format |
| Encoder.RoundTripIff | src/rcu/data/data_gen.py:84-151 | it gets back the same instruction exactly if the immediate is in range, and even for branches and jumps |
| Reencode.TranslateDecode | src/rcu/data/data_gen.py:84-151 | every 32-bit word the decoder accepts is the code of the instruction it decodes to |
| CodeValues.TranslateValue | src/rcu/data/data_gen.py:84-151 | the string written for each instruction is the number the ISA manual's formats and opcode map give it |
| CodeValues.StoredValue | src/rcu/data/data_gen.py:70-82 | the eight hexadecimal digits stored are that number |
| InstrHex.Bin2Hex | src/rcu/data/data_gen.py:70-82 | the loop gives one digit for each four bits |
| InstrHex.BinInstrInverts | ut/params.py:254-257 | `bin_instr` of the stored form is the code again |
| InstrHex.SlicesReadRegisters | ut/params.py:202-206 | the slicers return the registers and the function code that were encoded |

## Left out

- The Verilated devices, wave files, logging, the clock variable and the reading and writing of
  files; the hardware appears as arbitrary inputs, the loaded page table as a byte sequence. The
  loop in sim/l1d/fake_mem.hpp that reads until end of file stores one more value after the last
  byte; that extra value is not part of the model.
- Reading the front of an empty list: sim/l1d/fake_mem.cpp:121 looks at the wait queue without
  asking whether it has one, and both monitors look at their issue queue so. The model asks first;
  for the L1D monitor the queue is proved never empty there, for the LSU monitor an empty queue
  counts as a commit in the wrong order.
- `rand` and `random`: every draw is a free number, taken modulo the source's constant.
- sim/lsu_ut/fake_rcu.cpp, sim/uncore and the bus, TLB and magic-memory models: near-copies of the
  modelled classes or single slots. The LSU test's reorder buffer skips index 0 while it allows 16
  entries, so index distinctness as proved here is that of sim/l1d/fake_rcu.cpp only.
- FakeBus writes into the same memory as the fake cache; the cache is modelled as its only writer.
- The request half and the fence checks of sim/lsu_ut/monitor.cpp, its visit history and its final
  memory comparison.
- The timing half of sim/perfect_mem.hpp (`read*`, `eval`, `resp*`).
- Cache.FakeL1DCache.Eval: is stated for an edge at which a raised request has been latched, as the driver always does; the unused read through a possibly empty list at sim/lsu_ut/fake_cache.cpp:181 is not modelled.
- Golden.GoldenRun: assumes hardware that completes a request with the register it was given; the order results of `ClosedLoop` hold without it, the register results do not, as `RegisterLoss` shows.
- Regions.MappedToItselfIff: walks a 39-bit address in user mode; the sign-extension check of bits 63 to 39, supervisor mode and the protection of physical memory are not modelled. Tables of 16 pages or more do not fit the 64 KiB they are loaded into and are left out.
- The `csrrw` branch of src/rcu/data/data_gen.py always fails on an unbound local name and has no
  instruction here; the splitting of assembly lines into operands and unknown register names are
  not modelled.
- The other decode helpers of ut/params.py, the directed drivers under sim/selfcheck and
  src/fu/selftest, and the wiring in the Verilog files.
