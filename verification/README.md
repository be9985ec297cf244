# Verified models of the microarchitecture simulators

These Dafny modules model the state machines at the heart of the simulators in this repository and
prove what they are for: the lab1 MIPS pipeline and its caches, the lab2 DRAM scheduler, the lab3
tasklet reductions, and from lab4 the out-of-order core, the DRAM channel with its address map, the
cache miss path, the queues between caches and the folded branch history.

Each part has the same shape. Functions on values say what a step of the simulator does, branch by
branch. A class with the simulator's own fields performs the same steps in place, with its loops,
and every method states its new state as that function of the old one. Lemmas then prove what the
steps keep over whole runs. Concurrent code (lab3) and queues fed from outside are step machines in
which any enabled step may come next, so a run is any interleaving. Clocks, `rand()`, the answers of
lower levels and of replacement modules are parameters, and every result holds for all of them. Where
requests are merged, the models of the DRAM channel, the queues and the cache give each accepted
request a tag, which the simulator does not have, so that "answered exactly once" can be said of it.

| files | what they model |
|---|---|
| `Collections`, `Bits` | search, tallies, powers of two, shifts, masks and exclusive or |
| `Lab1Cache`, `Lab1CacheLines`, `Lab1Lru` | set-associative cache (random and LRU builds); which lines are present; LRU against a move-to-front list |
| `Lab1Isa`, `Lab1IsaFacts` | the MIPS subset, one instruction at a time, and what its results mean |
| `Lab1IsaSteps`, `Lab1IsaMemory` | what every instruction word does to registers, memory and program counter |
| `Lab1Pipeline`, `Lab1PipelineProof`, `Lab1PipelineProgress`, `Lab1PipelineTiming` | the five-stage pipeline, its refinement of the sequential machine, its progress and its timing |
| `Lab2DramScheduler`, `Lab2DramHistory` | bank timing, the scheduling decision, bounded service; row buffers and conservation over runs |
| `Lab3Arithmetic`, `Lab3Handshake`, `Lab3Barrier`, `Lab3Accumulate` | block scan and the four final reductions |
| `Lab4Renaming`, `Lab4RenamingProof`, `Lab4RenamingProgress`, `Lab4RenamingCore` | register allocator and reorder buffer |
| `Lab4LoadStore`, `Lab4LoadStoreProof`, `Lab4LoadStoreProgress`, `Lab4LoadStoreOrder`, `Lab4LoadStoreRetirement`, `Lab4LoadStoreCore` | load and store queues |
| `Lab4FrontEnd`, `Lab4FrontEndProgress` | fetch, the two decode paths, dispatch and retirement |
| `Lab4AddressMap`, `Lab4AddressHash` | the hashed DRAM address map, and which address bits make up each index |
| `Lab4DramChannel`, `Lab4DramDelivery`, `Lab4DramForwarding`, `Lab4DramChannelCore` | queues, banks, bus, refresh and write mode of a channel |
| `Lab4DramService`, `Lab4DramProgress`, `Lab4DramLiveness`, `Lab4DramStarvation` | which request a channel starts, and when every read is answered |
| `Lab4Channel`, `Lab4ChannelDelivery`, `Lab4ChannelForwarding`, `Lab4ChannelCore` | merging of requests between cache levels |
| `Lab4Cache`, `Lab4CacheFills`, `Lab4CacheCore` | tag check, miss registers, returns and fills |
| `Lab4FoldedHistory` | the folded shift register |

Where the code does not do what one would expect, the model follows the code:

- lab2 reads the open row's number as a flag for a busy bank, so row 0 is not protected.
  `DramScheduler.ExclusionIffNoRowZero` gives the exact condition under which no two requests ever
  overlap, and `DramScheduler.RowZeroRunOverlaps` a run that does.
- The segment loop of the DRAM hash never ends when there is neither a bank nor a bank group bit. The
  constructor accepts such a memory: `AddressMap.OneBankNeverReturns`; for accepted dimensions the
  loops end exactly if there is more than one bank: `AddressMap.BankLoopsEndIff`.
- A channel compares a request only with the first waiting request for its block, so queues that mix
  translated and untranslated requests can hold a block twice:
  `Channel.MixedTranslationsRepeatBlocks`. `Channel.OneEntryPerBlockIff` and, for writes,
  `Channel.OneWritePerAddressIff` say exactly when a check leaves one entry for each block, and
  `ChannelDelivery.UniformRunsHaveOneEntryPerBlock` that runs without the mixture always do.
- A DRAM channel with a write queue of one slot switches between reading and writing in every cycle, and
  takes back in one cycle what it started in the last: `DramStarvation.OneSlotStarves`. A refresh that is
  not over before the next one is due keeps the banks from all work: `DramStarvation.RefreshStarves`.
  `DramStarvation.ReadsAreAnsweredIff`: these are the only two ways in which a read is never answered.
- A DRAM channel always picks the longest waiting request of an idle bank, also when that bank is under
  refresh; then no other request starts either (`DramService.RefreshBlocksOthers`).
  `DramService.StartsIffForemostCan` says exactly when one starts.
- A write that is merged into an older one leaves its data behind, so a read that is forwarded gets the
  data of the oldest waiting write (`ChannelForwarding.LaterDataAreLost`), and those of the youngest one
  exactly if both are the same (`ChannelForwarding.LatestDataIff`).
- The comment at lab1/src/pipe.c:146 expects the exit call to leave the program counter behind the call.
  `PipelineTiming.ExitLeavesPcBehindIff` says exactly when it does, and `PipelineTiming.ExitPcIsLost`
  gives a state in which it does not.
- An instruction that needs more registers than can ever be free again stays at the front of the reorder
  buffer: `RenamingProgress.FrontRetiresIff` is the exact condition under which it can retire. The front
  end gets stuck exactly if a width or buffer size is zero: `FrontEndProgress.NeverStuckIff`.
- The LRU comment says blocks move to position 0 of a recency order; this needs invalid blocks to
  keep their initial positions, which is part of the invariant `LruRefinement.Ranked`.
- The pipeline needs less than unmodified text: an instruction must not be overwritten by the two
  instructions right before it, and only instructions up to three behind the first exit call matter
  (`PipelineRefinement.SettledText`).

## Model

| member | source | states |
|---|---|---|
| Powers.CountBits | lab1/src/cache.c:18-32 | the shift-and-count loop returns the base-two logarithm, rounded down |
| SetAssociativeCache.Cache.constructor | lab1/src/cache.c:12-52 | geometry from capacity, ways and block size, with the set and block bits that index it; every set starts in initial recency order |
| SetAssociativeCache.Cache.UpdateLru | lab1/src/cache.c:66-79 | one set is touched as specified and no other set changes |
| SetAssociativeCache.Cache.FindHit | lab1/src/cache.c:96-109 | the first valid way with the tag, or none |
| SetAssociativeCache.Cache.ChooseVictim | lab1/src/cache.c:113-143 | an invalid way if there is one, else the policy's choice |
| SetAssociativeCache.Cache.CacheAccess | lab1/src/cache.c:89-188 | stall 0 on a hit and 50 on a miss, and the whole new cache |
| SetAssociativeCache.AccessBringsIn | lab1/src/cache.c:89-188 | an accessed line hits right afterwards, under either policy |
| CacheLines.IndexAndTag | lab1/src/cache.c:92-94 | the index is the line number modulo the indexed sets, the tag the rest of it |
| CacheLines.SameLineIff | lab1/src/cache.c:92-94 | two addresses have the same index and tag if and only if they are in one line |
| CacheLines.AccessMovesOneLine | lab1/src/cache.c:89-188 | after an access the lines present are those before and the accessed one; one is lost only by a miss to its full set, from the way that is random or least recently used |
| LruRefinement.TouchRanks | lab1/src/cache.c:66-79 | aging keeps the recencies inverse to an order of the ways, moving the touched way to its front |
| LruRefinement.InitialRefines | lab1/src/cache.c:34-51 | a fresh set represents the empty list |
| LruRefinement.AccessRefines | lab1/src/cache.c:89-188 | one access hits exactly if the tag is in the list, and does to the set what move-to-front cut to the ways does to the list |
| LruRefinement.RunRefinesStack | lab1/src/cache.c:89-188 | after every trace each set is the recency stack of its own references cut to the number of ways |
| LruRefinement.RecenciesArePermutation | lab1/src/cache.c:39-51 | after every trace the recencies of a set are a permutation of 0..ways-1 |
| LruRefinement.StackDistance | lab1/src/cache.c:134-143 | the stack position of a tag is the number of distinct tags referenced since |
| LruRefinement.HitIffRecent | lab1/src/cache.c:89-188 | an access hits exactly if its tag is among the most recent `ways` tags of its set |
| LruRefinement.HitIffStackDistance | lab1/src/cache.c:89-188 | an access hits exactly if fewer than `ways` distinct other tags of the set were referenced since the last reference |
| LruRefinement.ColdMiss | lab1/src/cache.c:111-123 | a tag never referenced in its set misses |
| LruRefinement.MoreWaysNeverHitLess | lab1/src/cache.c:89-188 | with equal sets and blocks, more ways hit whenever fewer do, on every trace |
| MipsIsaFacts.MultiplyIsExact | lab1/src/pipe.c:359-384 | HI and LO together are the exact signed or unsigned 64-bit product |
| MipsIsaFacts.DivideTruncates | lab1/src/pipe.c:386-405 | LO is the quotient truncated toward zero, HI the remainder with the dividend's sign; both 0 for divisor 0 |
| MipsIsaFacts.DivideUnsigned | lab1/src/pipe.c:407-420 | LO and HI are the unsigned quotient and remainder; both 0 for divisor 0 |
| MipsIsaFacts.StoreByteReplaces | lab1/src/pipe.c:233-250 | SB replaces the byte at its address and leaves the other three |
| MipsIsaFacts.StoreHalfReplaces | lab1/src/pipe.c:252-266 | SH replaces the two bytes of its half word and leaves the other two |
| MipsIsaFacts.StoreThenLoad | lab1/src/pipe.c:189-271 | a value stored and loaded back unsigned with the same width is the value cut to the width |
| MipsIsaFacts.SignExtendIsSigned | lab1/src/pipe.c:206-228 | a sign-extended byte or half word has the value it has as a signed number |
| SequentialSteps.FieldsAre | lab1/src/pipe.c:590-601 | the fields the decoder reads are the quotients and remainders of the instruction word |
| SequentialSteps.BranchStep | lab1/src/pipe.c:500-518 | BEQ, BNE, BLEZ and BGTZ jump by four times their signed offset if and only if their condition on the registers holds, and change nothing else |
| SequentialSteps.BranchSpecialStep | lab1/src/pipe.c:484-498 | BLTZ and BGEZ likewise; the linking forms write the return address, taken or not |
| SequentialSteps.JumpStep | lab1/src/pipe.c:644-655 | J and JAL go to their word address within the 256 megabytes of the program counter, JAL with the return address in register 31 |
| SequentialSteps.JumpRegisterStep | lab1/src/pipe.c:352-357 | JR and JALR go to the address in rs, with the return address in rd |
| SequentialSteps.ArithmeticStep | lab1/src/pipe.c:452-459 | ADD(U) and SUB(U) write sum and difference modulo 2^32 to rd, and nothing else |
| SequentialSteps.AddThenSubtract | lab1/src/pipe.c:452-459 | a SUBU of an ADDU's result and one operand writes the other operand |
| SequentialSteps.LogicStep | lab1/src/pipe.c:460-471 | each bit of the result of AND, OR, XOR and NOR is that operation on the operands' bits |
| SequentialSteps.CompareStep | lab1/src/pipe.c:472-480 | SLT and SLTU write 1 or 0 by the signed or unsigned order of the operands |
| SequentialSteps.ShiftStep | lab1/src/pipe.c:333-351 | a left shift multiplies modulo 2^32, a right shift divides rounding down, unsigned or signed |
| SequentialSteps.HiLoStep | lab1/src/pipe.c:422-450 | MFHI, MFLO, MTHI and MTLO move between HI, LO and registers |
| SequentialSteps.MultiplyStep | lab1/src/pipe.c:359-384 | a multiplication leaves the exact product in HI and LO |
| SequentialSteps.DivideStep | lab1/src/pipe.c:386-405 | DIV leaves in LO and HI a quotient and a remainder smaller than the divisor and of the dividend's sign, or zeros |
| SequentialSteps.DivideUnsignedStep | lab1/src/pipe.c:407-420 | DIVU leaves the unsigned quotient and remainder, or zeros |
| SequentialSteps.SystemCallStep | lab1/src/pipe.c:144-145 | a system call changes only rd; it is the exit call if and only if register 2 holds 10 |
| SequentialSteps.UnknownFunctionStep | lab1/src/pipe.c:331-482 | a word of opcode 0 and no known function clears rd and changes nothing else |
| SequentialSteps.ArithmeticImmediateStep | lab1/src/pipe.c:520-550 | ADDI(U), SLTI, SLTIU and LUI, with the immediate's sign |
| SequentialSteps.LogicImmediateStep | lab1/src/pipe.c:535-546 | ANDI, ORI and XORI bit by bit, with the immediate without sign |
| SequentialMemory.RegionsAre | lab1/src/shell.c:33-56 | the mapped addresses are those of five regions of a megabyte |
| SequentialMemory.LoadStep | lab1/src/pipe.c:189-231 | a load writes to rt the word, half word or byte that the bytes of memory at its address make up, with or without sign, and changes nothing else |
| SequentialMemory.StoreStep | lab1/src/pipe.c:233-271 | a store replaces exactly the aligned bytes of its width at its address by those of rt, if the address is mapped, and changes no register |
| SequentialMemory.UnknownStep | lab1/src/pipe.c:608-709 | a word of any other opcode does nothing |
| Pipeline.Pipe.constructor | lab1/src/pipe.c:36-43 | the initial state, with an 8 KB cache of 64 sets and 4 ways for instructions and a 64 KB cache of 256 sets and 8 ways for data, blocks of 32 bytes |
| Pipeline.Pipe.PipeRecover | lab1/src/pipe.c:112-124 | the first recovery of a cycle wins |
| Pipeline.Pipe.PipeStageWb | lab1/src/pipe.c:126-161 | register write, exit call and retirement count as the write-back function says |
| Pipeline.Pipe.PipeStageMem | lab1/src/pipe.c:163-275 | cache access, stall, load or store and hand-over as the memory function says |
| Pipeline.Pipe.PipeStageExecute | lab1/src/pipe.c:277-575 | bypass, stalls, result and branch recovery as the execute function says; `SequentialSteps` says what its results are, `PipelineTiming` how long they take |
| Pipeline.Pipe.ReadOperand | lab1/src/pipe.c:294-330 | the operand, from the newest stage ahead that writes it, or a stall |
| Pipeline.Pipe.PipeStageDecode | lab1/src/pipe.c:577-715 | the op moves on decoded when the execute slot is free |
| Pipeline.Pipe.PipeStageFetch | lab1/src/pipe.c:717-750 | instruction cache, fetch stall, fetched op and program counter as the fetch function says |
| Pipeline.Pipe.FlushStages | lab1/src/pipe.c:64-110 | a recovery empties exactly the stages it names |
| Pipeline.Pipe.PipeCycle | lab1/src/pipe.c:45-110 | a cycle is the five stages in the source's order, then the recovery |
| Pipeline.Pipe.Cycles | lab1/src/shell.c:150-166 | cycles until the run bit is cleared or the count is used up |
| PipelineRefinement.BypassedOperand | lab1/src/pipe.c:294-330 | a bypassed operand is the register of the sequential machine after all instructions before it |
| PipelineRefinement.OperandsAgree | lab1/src/pipe.c:294-330 | an op that passes the operand read is the sequential machine's op, however often it was tried |
| PipelineRefinement.WbStage | lab1/src/pipe.c:126-161 | write back keeps the agreement with the sequential machine |
| PipelineRefinement.MemStage | lab1/src/pipe.c:163-275 | the memory stage keeps the agreement, whatever the data cache does |
| PipelineRefinement.ExecuteStage | lab1/src/pipe.c:277-575 | the execute stage keeps the agreement, stalls and recoveries included |
| PipelineRefinement.DecodeStage | lab1/src/pipe.c:577-715 | the decode stage keeps the agreement |
| PipelineRefinement.FetchedWord | lab1/src/pipe.c:737-747 | what is fetched is the sequential instruction although older stores are pending |
| PipelineRefinement.FetchStage | lab1/src/pipe.c:717-750 | the fetch stage keeps the agreement, whatever the instruction cache does |
| PipelineRefinement.CycleAgrees | lab1/src/pipe.c:45-110 | a whole cycle keeps the agreement; wrong-path ops never reach the memory stage |
| PipelineRefinement.PipelineRefinesSequential | lab1/src/pipe.c:45-750 | after any number of cycles registers, memory, HI, LO and the ops in flight are those of the sequential machine after the retired instructions and those behind execute |
| PipelineRefinement.HaltsAtFirstExit | lab1/src/pipe.c:144-155 | the run bit is cleared exactly when the first exit call retires, with the sequential registers |
| PipelineRefinement.FetchesAreAligned | lab1/src/cache.c:89-91 | the cache's alignment assertion holds for every fetch of an aligned program |
| PipelineProgress.CycleAdvances | lab1/src/pipe.c:45-110 | every cycle retires an op or lowers a bound on the cycles until the next retirement |
| PipelineProgress.RetirementGap | lab1/src/pipe.c:163-186 | from any cycle another instruction retires or the machine halts within 185 cycles |
| PipelineProgress.MissHitsAfterStall | lab1/src/pipe.c:163-186 | when the stall of a load or store that missed is over, the same op hits, and one cycle later it is in write back |
| PipelineProgress.RunMonotone | lab1/src/shell.c:150-166 | retirements are never undone, and a halted pipeline stays as it is |
| PipelineProgress.ExitingProgramHalts | lab1/src/pipe.c:144-155 | a program that exits sequentially exits in the pipeline within 185 cycles per instruction, with the same registers |
| PipelineTiming.MissTakesFifty | lab1/src/pipe.c:163-186 | a load or store that misses stays in the memory stage for 50 more cycles and then passes to write back |
| PipelineTiming.OthersTakeOne | lab1/src/pipe.c:163-275 | every other op passes to write back in one cycle |
| PipelineTiming.FetchMissTakesFifty | lab1/src/pipe.c:722-735 | after a fetch that misses nothing is fetched for 50 cycles |
| PipelineTiming.BusyCycles | lab1/src/pipe.c:359-420 | a multiplication keeps HI and LO busy for 4 cycles, a division for 32, no other op |
| PipelineTiming.HiLoWaits | lab1/src/pipe.c:422-450 | in every run an op that moves HI or LO stays in the execute stage while they are busy |
| PipelineTiming.ExitLeavesPcBehindIff | lab1/src/pipe.c:144-155 | the retiring exit call leaves the program counter behind it if and only if no branch is taken in that cycle and the fetch is stalled or counts on |
| PipelineTiming.ExitPcIsLost | lab1/src/pipe.c:144-155 | an exit call whose line has left the instruction cache leaves the program counter at the call |
| DramScheduler.SchedulableIffNoConflict | lab2/src/mem_controller.c:40-141 | a request passes the test against the last request of each bank exactly if it conflicts with none ever issued |
| DramScheduler.IssueKeepsRecord | lab2/src/mem_controller.c:192-225 | issuing keeps the banks a record of the last requests of a conflict-free history |
| DramScheduler.WholeHistoryExclusion | lab2/src/mem_controller.c:271-281 | in every run no two requests overlap on the command bus, the data bus or in a bank, for nonzero rows |
| DramScheduler.ExclusionIffNoRowZero | lab2/src/mem_controller.c:132-138 | the runs on a set of addresses are free of overlap if and only if no address of the set is in row 0 |
| DramScheduler.RowZeroRunOverlaps | lab2/src/mem_controller.c:132-138 | a miss to row 0 that comes twice is issued while its bank is busy |
| DramScheduler.BusyBankAcceptsIffRowZero | lab2/src/mem_controller.c:137-138 | a bank in use accepts a request to its open row while busy, in some cycle, exactly if that row is row 0 |
| DramScheduler.RowZeroOverlaps | lab2/src/mem_controller.c:137-138 | two requests to address 0 are both schedulable and overlap |
| DramScheduler.ScanFindsBest | lab2/src/mem_controller.c:144-189 | the choice is minimal among all schedulable requests by row hit, arrival, memory stage and slot |
| DramScheduler.FreeAfterLongest | lab2/src/mem_controller.c:40-141 | 300 cycles after the last issue every request is schedulable |
| DramScheduler.IssuesAfterGap | lab2/src/mem_controller.c:271-281 | a cycle that comes 300 cycles after the last issue and finds a request issues one |
| DramScheduler.IssuesWithinLongest | lab2/src/mem_controller.c:271-281 | with a request queued one is issued within 300 cycles |
| DramScheduler.AllIssueWithin | lab2/src/mem_controller.c:271-281 | N queued requests without new arrivals all issue within 300 N cycles |
| DramHistory.BankAndRow | lab2/src/mem_controller.c:19-25 | the bank is the address divided by 32 modulo 8, the row the address divided by 65536 |
| DramHistory.DataFollowsRowBuffer | lab2/src/mem_controller.c:197-215 | in every run the data of a request come 100 cycles after its start if and only if the request before it in its bank was to the same row, 200 if there was none, 300 if it was to another row |
| DramHistory.RequestsAreConserved | lab2/src/mem_controller.c:245-281 | in every run the requests issued and queued are together exactly those admitted, unchanged |
| DramHistory.ChoiceIsMinimal | lab2/src/mem_controller.c:144-189 | the request chosen comes before every other schedulable one by row hit, then arrival, then memory stage, then slot |
| DramScheduler.MemController.constructor | lab2/src/mem_controller.c:6-15 | an idle controller |
| DramScheduler.MemController.CommandClashes | lab2/src/mem_controller.c:89-98 | a command clashes with a bank's last request exactly if it overlaps one of its commands |
| DramScheduler.MemController.CommandBusFree | lab2/src/mem_controller.c:75-100 | the command bus is free exactly if no command overlaps one of a bank in use |
| DramScheduler.MemController.DataBusFree | lab2/src/mem_controller.c:105-126 | the data bus is free exactly if the transfer overlaps none of a bank in use |
| DramScheduler.MemController.IsRequestSchedulable | lab2/src/mem_controller.c:40-141 | the three tests together |
| DramScheduler.MemController.SelectRequest | lab2/src/mem_controller.c:144-189 | the scan's choice |
| DramScheduler.MemController.QueueMiss | lab2/src/mem_controller.c:245-261 | a miss goes to the first free slot, and is refused exactly if there is none |
| DramScheduler.MemController.IssueRequest | lab2/src/mem_controller.c:192-225 | the bank remembers the request, and the history grows by it, with its row and its number of commands; `DramHistory` says which number |
| DramScheduler.MemController.ControllerCycle | lab2/src/mem_controller.c:227-281 | a cycle queues the misses and issues the best request; the queueing assertion holds exactly if there are enough free slots |
| ReductionArithmetic.AddBlock | lab3/task4/dpu/task.c:49-53 | a block's elements are added to the partial, wrapping around |
| ReductionArithmetic.ScanBlocks | lab3/task4/dpu/task.c:170-216 | a tasklet's loop yields its initial partial, short last block included, and visits the blocks of `Visits` |
| ReductionArithmetic.EachElementIsReadOnce | lab3/task4/dpu/task.c:186-199 | every position of the input is in exactly one of the blocks the tasklets visit, for one tasklet and one round |
| ReductionArithmetic.PartialsCoverInput | lab3/task4/dpu/task.c:186-216 | the partials of all tasklets add up to the whole input |
| ReductionArithmetic.OnLevelMeansDivisible | lab3/task4/dpu/task.c:97-98 | the divisibility test of the tree is the test of low bits used here |
| HandshakeReduction.HandshakeTerminates | lab3/task4/dpu/task.c:93-113 | for any number of tasklets every interleaving is finite, and until all have returned some step is possible |
| HandshakeReduction.HandshakeReduces | lab3/task4/dpu/task.c:93-113 | when tasklet 0 returns it holds the sum of the whole input, all have returned, and each non-zero tasklet met its parent exactly once |
| HandshakeReduction.StepKeeps | lab3/task4/dpu/task.c:93-113 | every step keeps: each partial is its subtree's sum, and a tasklet has returned exactly if its parent has passed the rendezvous |
| HandshakeReduction.WaitingUnblocks | lab3/task4/dpu/task.c:100-104 | a waiting tasklet leads to a step that is possible |
| BarrierReduction.BarrierTerminates | lab3/task4/dpu/task.c:70-91 | every interleaving is finite, and until all have returned some step is possible |
| BarrierReduction.BarrierReduces | lab3/task4/dpu/task.c:70-91 | tasklet 0 returns the sum of the whole input, and all tasklets pass equally many barriers |
| BarrierReduction.LevelSums | lab3/task4/dpu/task.c:76-88 | after the level with stride s each index divisible by 2s holds the sum of its 2s partials, cut off at the last tasklet |
| BarrierReduction.NoConflict | lab3/task4/dpu/task.c:78-84 | while a store is pending no other tasklet reads that partial |
| BarrierReduction.LoadIsRight | lab3/task4/dpu/task.c:79-83 | the merged value is right although others of the level may have stored already |
| MutexReduction.MutexTerminates | lab3/task4/dpu/task.c:115-123 | at most nine steps a tasklet, and until all have returned some step is possible |
| MutexReduction.MutexReduces | lab3/task4/dpu/task.c:115-123 | every tasklet returns the sum of the whole input, whatever an earlier launch left in the accumulator |
| MutexReduction.MutualExclusion | lab3/task4/dpu/task.c:116-118 | at most one tasklet is between lock and unlock |
| SingleReduction.SingleTerminates | lab3/task4/dpu/task.c:56-68 | every interleaving has at most 2n + 3 steps, and has them all exactly if tasklet 0 has returned |
| SingleReduction.SingleReduces | lab3/task4/dpu/task.c:56-68 | tasklet 0 returns the sum of the whole input, and until then some step is possible |
| Renaming.RenamingOnlyAllocates | lab4/src/register_allocator.cc:28-43 | renaming a source takes a free register exactly if the source was unmapped, and leaves no more sources unmapped |
| Renaming.RenameSrcs | lab4/src/ooo_cpu.cc:452-456 | under the scheduler's guard no empty free list is popped, every source is mapped, and existing mappings stay |
| RenamingProof.FrontHolds | lab4/src/ooo_cpu.cc:450-464 | the table a reader sees names the youngest older writer, with the value of program order once valid |
| RenamingProof.DoSchedulingKeeps | lab4/src/ooo_cpu.cc:450-464 | scheduling the oldest unscheduled entry keeps the invariant |
| RenamingProof.ScheduleFromKeeps | lab4/src/ooo_cpu.cc:426-448 | the scan schedules a prefix of the reorder buffer and keeps the invariant |
| RenamingProof.ExecutionReadsProgramOrder | lab4/src/ooo_cpu.cc:466-481 | an instruction whose sources are valid reads the operands of program order |
| RenamingProof.DoCompleteKeeps | lab4/src/ooo_cpu.cc:631-638 | completion makes exactly its own destinations valid |
| RenamingProof.RetireKeeps | lab4/src/register_allocator.cc:51-70 | retirement moves the destinations to the backend table, frees what they replace, and keeps the invariant |
| RenamingProof.RegistersAreConserved | lab4/src/register_allocator.cc:5-70 | in every run free registers, backend mappings and in-flight destinations partition the physical file; the free list has no duplicates |
| RenamingProof.SourcesAreHeld | lab4/src/ooo_cpu.cc:450-464 | in every run each source of a scheduled, unretired instruction is not free and carries the youngest older writer's tag |
| RenamingProof.RenamingPreservesDataflow | lab4/src/ooo_cpu.cc:426-481 | in every run, in any order the validity bits allow, executed instructions read program-order values, and the backend table holds the registers after the retired instructions |
| RenamingProof.SchedulingIsInOrder | lab4/src/ooo_cpu.cc:426-448 | the scheduled instructions are the oldest ones, and a completed front can retire |
| RenamingProgress.SchedulesInOrder | lab4/src/ooo_cpu.cc:426-448 | after scheduling exactly a prefix is scheduled; the next entry is not ready, out of the search window, or short of registers |
| RenamingProgress.ExecutesOldest | lab4/src/ooo_cpu.cc:466-487 | an entry starts if and only if it could and fewer than the width of older ones could, with the operands of its sources; nothing else changes |
| RenamingProgress.CompletesOldest | lab4/src/ooo_cpu.cc:645-657 | an entry completes if and only if it is due and fewer than the width of older ones are |
| RenamingProgress.CompletionsValidate | lab4/src/ooo_cpu.cc:631-657 | a register becomes valid if and only if an instruction that completes writes it |
| RenamingProgress.FrontRetiresIff | lab4/src/ooo_cpu.cc:426-729 | from every reachable state further events retire an instruction if and only if the front is scheduled or has enough free registers; then six do, for any widths but zero |
| RenamingCore.RegisterAllocator.constructor | lab4/src/register_allocator.cc:5-14 | all registers free, no mapping |
| RenamingCore.RegisterAllocator.RenameDestRegister | lab4/src/register_allocator.cc:16-26 | the new allocator state, and the register taken from the front of the free list |
| RenamingCore.RegisterAllocator.RenameSrcRegister | lab4/src/register_allocator.cc:28-43 | the new allocator state, and the register now mapped |
| RenamingCore.RegisterAllocator.CompleteDestRegister | lab4/src/register_allocator.cc:45-49 | only the register's validity (and value) changes |
| RenamingCore.RegisterAllocator.RetireDestRegister | lab4/src/register_allocator.cc:51-64 | the backend mapping is replaced and the old register freed |
| RenamingCore.RegisterAllocator.FreeRegister | lab4/src/register_allocator.cc:66-70 | the register is cleared and goes to the end of the free list |
| RenamingCore.RegisterAllocator.CountUnallocated | lab4/src/ooo_cpu.cc:432-433 | the scheduler's count of unmapped sources |
| RenamingCore.ReorderBuffer.DoScheduling | lab4/src/ooo_cpu.cc:450-464 | sources, then destinations, are renamed as specified |
| RenamingCore.ReorderBuffer.ScheduleInstruction | lab4/src/ooo_cpu.cc:426-448 | the whole scan with its bandwidth |
| RenamingCore.ReorderBuffer.ExecuteInstruction | lab4/src/ooo_cpu.cc:466-481 | executes as the execute function says; `RenamingProgress.ExecutesOldest` says which entries and with what |
| RenamingCore.ReorderBuffer.CompleteInflightInstruction | lab4/src/ooo_cpu.cc:645-657 | every finished entry within the bandwidth completes |
| RenamingCore.ReorderBuffer.RetireRob | lab4/src/ooo_cpu.cc:705-729 | the longest completed prefix up to the width retires, one retirement after the other |
| RenamingCore.ReorderBuffer.DispatchInstruction | lab4/src/ooo_cpu.cc:415-420 | the next instruction enters the reorder buffer |
| LoadStoreProof.MaxElementIsYoungest | lab4/src/ooo_cpu.cc:516-519 | the search returns the youngest store to the address, if there is one |
| LoadStoreProof.DispatchRuns | lab4/src/ooo_cpu.cc:507-544 | dispatch fails no assertion and keeps the invariant |
| LoadStoreProof.FinishStoresRuns | lab4/src/ooo_cpu.cc:555-563 | finishing stores fails no assertion, releases exactly their waiting loads, and keeps the invariant |
| LoadStoreProof.WritableIsDone | lab4/src/ooo_cpu.cc:550-567 | a store that may go to the L1D has been issued and its instruction has retired |
| LoadStoreProof.ReturnRuns | lab4/src/ooo_cpu.cc:689-700 | a returned block finishes its loads without failing an assertion |
| LoadStoreProof.RetiringIsDone | lab4/src/ooo_cpu.cc:705-729 | what retires has executed and has no live load and no unissued store |
| LoadStoreProof.OperationsAreConserved | lab4/src/ooo_cpu.cc:808-826 | in every run no assertion fails, and operations done, live loads and unissued stores of an instruction add up to all its operations |
| LoadStoreProof.StoresReachMemoryInOrder | lab4/src/ooo_cpu.cc:546-567 | in every run the stores sent to the L1D and those queued are all stores dispatched, in program order; those sent belong to retired instructions |
| LoadStoreProof.WaitingLoadsAreKnown | lab4/src/ooo_cpu.cc:523-527 | a waiting load waits for an older store that is still to be issued and that will release it |
| LoadStoreProgress.SendsFirstReady | lab4/src/ooo_cpu.cc:569-580 | a load is sent if and only if it is executed, older than now, waits for no store, is accepted, and fewer than the width of the slots before it are sent |
| LoadStoreProgress.FinishesReadyRun | lab4/src/ooo_cpu.cc:555-563 | a store is issued if and only if it and all stores before it from the first unissued one on are ready, within the width |
| LoadStoreProgress.WritesReadyPrefix | lab4/src/ooo_cpu.cc:565-567 | the stores that leave are the longest prefix that is ready and older than the reorder buffer, as far as width and L1D allow |
| LoadStoreProgress.ReturnEmpties | lab4/src/ooo_cpu.cc:689-700 | a returned block empties exactly the slots of the loads sent for it |
| LoadStoreOrder.LoadMeetsYoungest | lab4/src/ooo_cpu.cc:509-533 | a load joins the queue, is done at once, or waits, according to the youngest store to its address |
| LoadStoreOrder.LoadsPassNoOlderStore | lab4/src/ooo_cpu.cc:509-533 | in every run a load that has been sent has no older store to its address before it in the queue |
| LoadStoreOrder.LoadsWaitForYoungest | lab4/src/ooo_cpu.cc:519-532 | in every run a load that waits waits for the youngest older store to its own address, which will release it |
| LoadStoreRetirement.EveryRunCanRetire | lab4/src/ooo_cpu.cc:466-729 | in every run, while the reorder buffer is not empty, at most six events and one for each of its memory operations retire the oldest instruction |
| LoadStoreCore.LoadStoreUnit.Finish | lab4/src/ooo_cpu.cc:808-826 | one more operation of the instruction is done, its assertions holding |
| LoadStoreCore.LoadStoreUnit.ScheduleLoad | lab4/src/ooo_cpu.cc:510-533 | a load takes a free slot, is forwarded, or waits for the store found |
| LoadStoreCore.LoadStoreUnit.FindStore | lab4/src/ooo_cpu.cc:516-518 | the store found is the youngest one to the address |
| LoadStoreCore.LoadStoreUnit.DispatchInstruction | lab4/src/ooo_cpu.cc:507-544 | the dispatch step, from and to a good state |
| LoadStoreCore.LoadStoreUnit.FinishStore | lab4/src/ooo_cpu.cc:585-601 | the store's operation and its waiting loads are finished |
| LoadStoreCore.LoadStoreUnit.FinishStores | lab4/src/ooo_cpu.cc:555-563 | the first loop of the queue's cycle |
| LoadStoreCore.LoadStoreUnit.WriteStores | lab4/src/ooo_cpu.cc:565-567 | finished stores of retired instructions leave in order |
| LoadStoreCore.LoadStoreUnit.IssueLoads | lab4/src/ooo_cpu.cc:569-580 | ready loads that wait for no store are sent |
| LoadStoreCore.LoadStoreUnit.HandleReturn | lab4/src/ooo_cpu.cc:689-699 | every load sent for the block finishes and leaves its slot |
| FrontEnd.PartitionMerges | lab4/src/ooo_cpu.cc:300-315 | splitting a window over the two decode paths and merging it by age gives the window |
| FrontEnd.ScanTakesOldest | lab4/src/ooo_cpu.cc:338-361 | the three loops always take the oldest instruction of both paths, and no more than dispatch has room for |
| FrontEnd.DecodeKeeps | lab4/src/ooo_cpu.cc:321-401 | decode keeps the order of everything delivered |
| FrontEnd.InstructionsStayInOrder | lab4/src/ooo_cpu.cc:284-424 | in every run all buffers one after the other are exactly the delivered trace in order, within their sizes |
| FrontEndProgress.ReadsUntilStopped | lab4/src/ooo_cpu.cc:106-123 | reading stops only at the width, the end of the queue, or behind a stopping instruction |
| FrontEndProgress.WindowIsLongest | lab4/src/ooo_cpu.cc:284-300 | the promoted window is the longest run of fetched, ready instructions within the width |
| FrontEndProgress.ScanStopsLate | lab4/src/ooo_cpu.cc:321-361 | the three loops take only ready instructions, and stop only at the in-order width, at an oldest instruction that is not ready, or at one to decode when the decoders are used up |
| FrontEndProgress.DispatchIsLongest | lab4/src/ooo_cpu.cc:405-424 | dispatch stops only at its width, the room in the queues, a full reorder buffer, or an instruction that is not ready |
| FrontEndProgress.RetirementIsLongest | lab4/src/ooo_cpu.cc:705-729 | retirement takes the longest completed run within its width |
| FrontEndProgress.PathsSplitByDecoded | lab4/src/ooo_cpu.cc:302-318 | what is promoted is on the hit path if and only if it is decoded, and ready at its path's time |
| FrontEndProgress.StagesSetReady | lab4/src/ooo_cpu.cc:121-419 | what is read, decoded or dispatched is ready at its stage's time |
| FrontEndProgress.OldestRetires | lab4/src/ooo_cpu.cc:106-424 | at most seven events retire the oldest instruction delivered, wherever it is |
| FrontEndProgress.NeverStuckIff | lab4/src/ooo_cpu.cc:106-424 | after every run the oldest instruction can still retire, if and only if no width and no buffer size is zero |
| FrontEnd.Core.InitializeInstruction | lab4/src/ooo_cpu.cc:106-123 | instructions are read until the width, the buffer or a stopping branch ends it |
| FrontEnd.Core.PromoteToDecode | lab4/src/ooo_cpu.cc:284-320 | the ready window is split over the two paths |
| FrontEnd.Core.TakeOlder | lab4/src/ooo_cpu.cc:338-349 | the first loop, with its bandwidths |
| FrontEnd.Core.TakeHits | lab4/src/ooo_cpu.cc:350-354 | the second loop |
| FrontEnd.Core.TakeDecode | lab4/src/ooo_cpu.cc:355-361 | the third loop |
| FrontEnd.Core.DecodeInstruction | lab4/src/ooo_cpu.cc:321-401 | what was taken is merged behind the dispatch buffer |
| FrontEnd.Core.DispatchInstruction | lab4/src/ooo_cpu.cc:405-424 | ready instructions enter the reorder buffer while there is room |
| FrontEnd.Core.RetireRob | lab4/src/ooo_cpu.cc:705-729 | the completed prefix leaves |
| AddressMap.SwizzleTerminatesIff | lab4/src/dram_controller.cc:577-580 | the segment loop ends if and only if segments are not empty |
| AddressMap.BankLoopsEndIff | lab4/src/dram_controller.cc:592-608 | for dimensions the constructor accepts, the loops of get_bank and get_bankgroup end if and only if there is more than one bank |
| AddressMap.OneBankNeverReturns | lab4/src/dram_controller.cc:67-79 | a memory of one bank passes the constructor's checks, and the loops never end |
| AddressMap.SwizzleAddsMask | lab4/src/dram_controller.cc:571-582 | the hash adds a mask that depends on the row alone and is no wider than the field |
| AddressMap.SwizzleBits | lab4/src/dram_controller.cc:571-582 | the loop as it is written |
| AddressMap.FieldsPartitionBits | lab4/inc/extent_set.h:52-69 | the fields start at bit 0 and follow each other, so each bit is in exactly one |
| AddressMap.RelativeExtentClips | lab4/inc/extent.h:157-171 | a relative extent has exactly the bits of the part that the outer extent has |
| AddressMap.FieldOfPack | lab4/inc/address.h:272-292 | each field of a packed address is the value packed there |
| AddressMap.PackOfFields | lab4/inc/extent_set.h:52-69 | packing the fields of an address gives back the address |
| AddressMap.LocationsAreInRange | lab4/src/dram_controller.cc:584-614 | every hashed index is in range |
| AddressMap.AddressRoundTrip | lab4/src/dram_controller.cc:584-614 | an address is found again from its location |
| AddressMap.LocationRoundTrip | lab4/src/dram_controller.cc:584-614 | a location is found again from its address |
| AddressMap.AddressMapIsBijective | lab4/src/dram_controller.cc:81-93 | for power-of-two dimensions with a bank or bank group bit the map is a bijection |
| AddressMap.BankIndexNumbersBanks | lab4/src/dram_controller.cc:316-329 | the bank index is in range and tells any two banks apart |
| AddressHash.FieldOrder | lab4/src/dram_controller.cc:81-93 | offset, column, rank and row are these bits of the address |
| AddressHash.HashedBits | lab4/src/dram_controller.cc:571-608 | each bit of channel, bank group and bank is its address bit plus the parity of these bits of the row |
| AddressHash.IndicesBelowDimensions | lab4/src/dram_controller.cc:67-79 | every index of an accepted memory is below its dimension |
| DramChannel.CheckReadKeepsLinks | lab4/src/dram_controller.cc:462-509 | forwarding and merging reads breaks no link |
| DramChannel.FinishKeepsLinks | lab4/src/dram_controller.cc:154-173 | finishing clears exactly the slot and the bank of the active request |
| DramChannel.SwapKeepsLinks | lab4/src/dram_controller.cc:215-255 | the mode switch takes every request but the active one back, keeping the links |
| DramChannel.RefreshKeepsLinks | lab4/src/dram_controller.cc:175-213 | refresh starts only at banks without a request |
| DramChannel.ServiceKeepsLinks | lab4/src/dram_controller.cc:359-382 | a serviced request and its bank point to each other |
| DramChannel.CheckReadsClears | lab4/src/dram_controller.cc:462-509 | afterwards all reads are checked and for different blocks |
| DramChannel.CheckWritesClears | lab4/src/dram_controller.cc:440-460 | afterwards all writes are checked and for different blocks |
| DramChannel.MinBankIsFirstReady | lab4/src/dram_controller.cc:262-264 | the bank chosen has a request if any has, and is ready first |
| DramChannel.MinSlotIsBest | lab4/src/dram_controller.cc:332-357 | the request chosen is a best one: free bank first, then the longest wait |
| DramDelivery.OperateKeeps | lab4/src/dram_controller.cc:118-152 | a cycle keeps links, deliveries, distinct blocks and pending refreshes |
| DramDelivery.BanksAndSlotsAreLinked | lab4/src/dram_controller.cc:118-382 | in every run busy banks and scheduled slots correspond one to one, no busy bank is under refresh, the bus belongs to one busy bank, and no needed refresh is forgotten |
| DramDelivery.ReadsAreAnsweredOnce | lab4/src/dram_controller.cc:440-509 | in every run each accepted read is in exactly one slot or answered exactly once, with its dependents and to its own return queue |
| DramDelivery.NoBlockTwice | lab4/src/dram_controller.cc:440-509 | after every cycle the entries of each queue are for different blocks |
| DramForwarding.AnswersOfCycle | lab4/src/dram_controller.cc:118-173 | a cycle answers the unchecked reads whose block has a write waiting, no others before the bus, and then the request whose transfer is over |
| DramForwarding.WritesLeaveByTheBus | lab4/src/dram_controller.cc:118-173 | a block has a write waiting until a write to it has been on the data bus |
| DramService.ServiceStartsForemost | lab4/src/dram_controller.cc:332-382 | the longest waiting request of an idle bank starts if it is ready and the bank not under refresh, and its bank is ready after tCAS, tRCD + tCAS or tRP + tRCD + tCAS as its row was open, none was, or another; otherwise nothing changes |
| DramService.CycleStartsForemost | lab4/src/dram_controller.cc:118-152 | a cycle starts a request if and only if the foremost one after its other steps can start, and then that one only |
| DramService.StartsIffForemostCan | lab4/src/dram_controller.cc:332-382 | a request that could start makes the cycle start one if and only if the foremost one can start |
| DramService.RefreshBlocksOthers | lab4/src/dram_controller.cc:359-366 | a read to a bank under refresh keeps a ready read to an idle bank from starting |
| DramService.BankBeforeService | lab4/src/dram_controller.cc:154-255 | when a bank loses its request, begins and ends a refresh, and loses its open row |
| DramService.ModeSwitchesIff | lab4/src/dram_controller.cc:215-255 | the mode switches if and only if the counts of reads and writes pass the watermarks |
| DramService.BusGoesToFirstReady | lab4/src/dram_controller.cc:258-314 | a free bus goes to a request that was ready first, if one is ready, for a transfer that waits for the bank group |
| DramLiveness.LiveAnswers | lab4/src/dram_controller.cc:118-382 | without further arrivals every accepted read is answered, once, within some number of cycles, if the write queue has two slots or more and a refresh ends before the next |
| DramStarvation.OneSlotStarves | lab4/src/dram_controller.cc:215-255 | with one slot for writes a read is never answered |
| DramStarvation.RefreshStarves | lab4/src/dram_controller.cc:175-213 | with a refresh that is not over before the next one is due some read is never answered |
| DramStarvation.ReadsAreAnsweredIff | lab4/src/dram_controller.cc:118-382 | for every clock period all accepted reads of all runs are answered if and only if the write queue has two slots or more and a refresh is over in some cycle before the next one is due |
| DramChannelCore.ChannelUnit.AddRq | lab4/src/dram_controller.cc:533-550 | a read takes the first empty slot, or is refused |
| DramChannelCore.ChannelUnit.AddWq | lab4/src/dram_controller.cc:552-569 | a write takes the first empty slot, or is refused |
| DramChannelCore.ChannelUnit.CheckWriteCollision | lab4/src/dram_controller.cc:440-460 | the loop over the writes |
| DramChannelCore.ChannelUnit.CheckReadCollision | lab4/src/dram_controller.cc:462-509 | the loop over the reads |
| DramChannelCore.ChannelUnit.FinishDbusRequest | lab4/src/dram_controller.cc:154-173 | the active request is answered when its time has come |
| DramChannelCore.ChannelUnit.SwapMode | lab4/src/dram_controller.cc:215-255 | watermarks, requests given back, and turn-around time |
| DramChannelCore.ChannelUnit.ScheduleRefresh | lab4/src/dram_controller.cc:175-213 | the refresh state of every bank |
| DramChannelCore.ChannelUnit.PopulateDbus | lab4/src/dram_controller.cc:258-314 | the bus is given to the bank chosen |
| DramChannelCore.ChannelUnit.SchedulePacket | lab4/src/dram_controller.cc:332-357 | the slot chosen is at least as good as every other |
| DramChannelCore.ChannelUnit.ServicePacket | lab4/src/dram_controller.cc:359-382 | the request starts at its bank as the service function says; `DramService.ServiceStartsForemost` says which request and until when |
| DramChannelCore.ChannelUnit.OperateChannel | lab4/src/dram_controller.cc:118-152 | the cycle as a whole |
| Channel.SetUnionIsUnion | lab4/src/channel.cc:54-57 | the union of two ordered lists is their union, and ordered |
| Channel.NoWaiterIsLost | lab4/src/channel.cc:88-114 | after a check each request is stood for by a surviving entry for its block and translation, or met a write; if it wanted a response, the entry wants one with its dependents, or the response has them |
| Channel.CheckKeepsOrder | lab4/src/channel.cc:88-114 | the entries left are entries of the queue in the same order |
| Channel.WritesAreKept | lab4/src/channel.cc:77-86 | every write stays stood for by an entry with the address at which the channel compares writes |
| Channel.LoopKeepsBlocksDistinctIff | lab4/src/channel.cc:32-100 | the loop leaves one entry for each block if and only if none was there twice and the unanswered requests for a block agree in translation |
| Channel.OneEntryPerBlockIff | lab4/src/channel.cc:32-100 | the same for a whole read or prefetch queue, as a condition on it before the check |
| Channel.OneWritePerAddressIff | lab4/src/channel.cc:32-86 | the same for the write queue, at the width at which writes are compared |
| Channel.OneEntryPerBlock | lab4/src/channel.cc:32-47 | where all translations agree a check leaves one entry for each block |
| Channel.MixedTranslationsRepeatBlocks | lab4/src/channel.cc:35-44 | with mixed translations a block can stay twice |
| ChannelDelivery.ReadsConserve | lab4/src/channel.cc:88-114 | the loop repeats no request and loses none that wants a response |
| ChannelDelivery.WaitersArePreserved | lab4/src/channel.cc:72-131 | in every run each accepted request that wants a response, and each write, is stood for exactly once: waiting, taken by the cache or answered, with its dependents and no others; queues keep their sizes, and checked entries come first |
| ChannelDelivery.UniformRunsHaveOneEntryPerBlock | lab4/src/channel.cc:72-131 | in every run whose requests of a queue agree in translation, a check leaves one entry of it for each block |
| ChannelForwarding.SameBlockIs | lab4/src/channel.cc:39-41 | requests are compared by their addresses divided by the block size |
| ChannelForwarding.ReadsGetOldestWrite | lab4/src/channel.cc:61-100 | a check answers exactly the unchecked reads that want it and whose oldest waiting write agrees in translation, with that write's data |
| ChannelForwarding.LatestDataIff | lab4/src/channel.cc:49-70 | such a read gets the youngest write's data if and only if the oldest one has the same |
| ChannelForwarding.LaterDataAreLost | lab4/src/channel.cc:49-59 | of two writes to an address a read is answered with the first one's data |
| ChannelCore.ChannelUnit.AddRq | lab4/src/channel.cc:117-151 | a request joins the queue unchecked, or is refused when the queue is full |
| ChannelCore.ChannelUnit.AddWq | lab4/src/channel.cc:117-131 | the same for writes |
| ChannelCore.ChannelUnit.AddPq | lab4/src/channel.cc:117-131 | the same for prefetches |
| ChannelCore.ChannelUnit.MergeBefore | lab4/src/channel.cc:49-59 | a request merges into the first match before it, if their translations agree |
| ChannelCore.ChannelUnit.CheckWriteQueue | lab4/src/channel.cc:77-86 | the loop over the writes, erasing while it goes |
| ChannelCore.ChannelUnit.CheckReadLoop | lab4/src/channel.cc:88-100 | the loop over a read queue, erasing while it goes |
| ChannelCore.ChannelUnit.AnswerFromWrites | lab4/src/channel.cc:61-70 | a read is answered from a matching write |
| ChannelCore.ChannelUnit.CheckCollision | lab4/src/channel.cc:72-115 | the three loops together, and that no waiter is lost |
| MissCache.MergeAdds | lab4/src/cache.cc:107-139 | a merge keeps the register's block and returned data and has the waiters of both |
| MissCache.TagCheckKeeps | lab4/src/cache.cc:320-371 | hits, merges and new registers keep the invariant |
| MissCache.ReturnFindsEntry | lab4/src/cache.cc:610-620 | a response to a request finds a register that has not returned |
| MissCache.FinishKeeps | lab4/src/cache.cc:610-633 | the swap puts the register behind those returned before |
| MissCache.FillKeeps | lab4/src/cache.cc:169-247 | a fill keeps the invariant, whatever the victim |
| MissCacheFills.BlockAndSet | lab4/src/cache.cc:532 | the set is the block number modulo the number of sets |
| MissCacheFills.FillInstalls | lab4/src/cache.cc:169-247 | after a fill exactly those blocks hit that hit before and are not evicted, and the filled one unless the fill bypasses |
| MissCacheFills.FillChangesOneBlock | lab4/src/cache.cc:225-235 | the filled block is dirty if and only if its register was for a write; all other blocks stay |
| MissCacheFills.FillsDuePrefix | lab4/src/cache.cc:442-450 | the fill phase takes the longest prefix of due registers that the lower level and the bandwidth allow |
| MissCacheFills.HitsWhatWasFilled | lab4/src/cache.cc:169-294 | in every run a block hits if and only if it was filled into a way that no later fill took |
| MissCacheFills.DirtyIffWritten | lab4/src/cache.cc:225-294 | in every run such a way is dirty if and only if the fill or a hit since was a write |
| MissCacheFills.AcceptedIff | lab4/src/cache.cc:320-371 | a packet is accepted if and only if it hits, meets its register, or finds a free one and room below |
| MissCacheFills.AllCanBeAnswered | lab4/src/cache.cc:169-633 | from every reachable cache one response for each waiting register, the latency and one fill phase answer every accepted packet |
| MissCache.RegistersStayOrderly | lab4/src/cache.cc:442-450 | in every run registers are for distinct blocks, within their number, and returned ones come first by ready time |
| MissCache.BlocksHaveOneCopy | lab4/src/cache.cc:500-514 | in every run a block is valid in at most one way, and never while it has a register |
| MissCache.PacketsAreAnsweredOnce | lab4/src/cache.cc:169-371 | in every run each packet that hit or was taken on is in exactly one register or was answered exactly once, for its block, with its waiters and no others |
| MissCacheCore.CacheUnit.TryHit | lab4/src/cache.cc:250-294 | a hit answers and updates the dirty and prefetch bits; a miss changes nothing |
| MissCacheCore.CacheUnit.HandleMiss | lab4/src/cache.cc:320-371 | merge, new register, forwarding only, or refusal |
| MissCacheCore.CacheUnit.CheckTag | lab4/src/cache.cc:500-514 | the tag check of one packet |
| MissCacheCore.CacheUnit.FinishReturn | lab4/src/cache.cc:610-633 | the sanity check holds, and the register is marked and moved |
| MissCacheCore.CacheUnit.HandleFill | lab4/src/cache.cc:169-247 | the fill as the fill function says, or its refusal; `MissCacheFills.FillInstalls` says what is in the cache then |
| MissCacheCore.CacheUnit.PerformFills | lab4/src/cache.cc:442-450 | ready registers are filled from the front until one is refused |
| FoldedHistory.PushMovesBits | lab4/branch/hashed_perceptron/folded_shift_register.h:73-97 | a push moves every bit up by one across the packed values and drops what the last mask excludes |
| FoldedHistory.ValuesHoldHistory | lab4/branch/hashed_perceptron/folded_shift_register.h:49-97 | bit k of value v is the outcome of age 60 v + k, and nothing older than the length is kept |
| FoldedHistory.UnpackAddsColumn | lab4/branch/hashed_perceptron/folded_shift_register.h:62-68 | the unpacking loop adds up every twelfth bit |
| FoldedHistory.ValueFoldsHistory | lab4/branch/hashed_perceptron/folded_shift_register.h:56-97 | bit b of the value is the exclusive or of the last `length` outcomes whose age is b modulo 12 |
| FoldedHistory.FoldedShiftRegister.constructor | lab4/branch/hashed_perceptron/folded_shift_register.h:49-53 | an empty history of the given length |
| FoldedHistory.FoldedShiftRegister.Push | lab4/branch/hashed_perceptron/folded_shift_register.h:73-97 | the register holds the history with the new outcome |
| FoldedHistory.FoldedShiftRegister.ReadValue | lab4/branch/hashed_perceptron/folded_shift_register.h:56-70 | the value, and its bits in terms of the history |

## Left out

- Lab1: pipeline ops are values in slots rather than shared heap records; fetch and squash counters are not modelled, nor is `free_cache`.
- Lab1: the RRIP build of the cache is not modelled.
- Lab1: shift amounts of 32 and more, undefined in C, use their low five bits as on x86; the quotient of the least integer by -1 is likewise undefined and wraps here.
- Lab1: memory is modelled as words at aligned addresses, so programs that jump to unaligned addresses are covered only as far as their words are read that way; `FetchesAreAligned` covers aligned programs.
- PipelineRefinesSequential: in the cycle that retires the exit call only registers, memory, HI, LO and the ops behind execute are related to the sequential machine, because the source leaves the fetch side as it is.
- Lab2: fills and the completion of miss registers are not modelled, because the placeholder ready time makes them unrelated to the issued timing; cycle counts do not wrap at 32 bits; where the source would stop at its queueing assertion the controller reports it and goes on without the miss.
- Lab3: barriers, handshakes and mutexes are steps of the step machines, not library code; a tasklet publishes its partial in one step; the byte index does not wrap at 32 bits; floating-point elements are not modelled, since their sum depends on the order.
- Lab4 core: branch prediction, the decoded instruction buffer's contents, fetch from the L1I, and deadlock printing are not modelled; which instructions stop the fetch is a parameter.
- Lab4 core: renaming, load and store queues, and front end are three models, linked by parameters (which memory operations are done, how many entries have room) rather than one state.
- Lab4 core: at most 256 physical registers are modelled, since the scheduler indexes the 256-entry tables with physical numbers of scheduled entries; wrong-path recovery of the tables is unused in the source.
- Lab4 core: the simulator moves no data; the values of `RenamingPreservesDataflow` are added by the model.
- Lab4 DRAM channel: warmup, statistics and bandwidth counters are not modelled; queues and instructions to notify are sets, where the source keeps ordered lists without repetition; stored data is not modelled.
- Lab4 DRAM channel: the map from addresses to banks, groups, rows and blocks is a parameter with values in range; `AddressMap` shows that the source's map is one.
- Lab4 cache: translation, prefetcher and replacement modules, tag bandwidth and the write path of caches that ignore offsets are not modelled; data values and dirty data are not followed.
- MissCache.BlocksHaveOneCopy: is about caches that match offsets, where writes allocate like reads; the write path of the others is not modelled.
- Lab4 folded history: the register is modelled for its 12-bit words; wider or narrower words change the constants only.
- Branch predictors other than the folded register, prefetchers, page tables, configuration, traces, profiling and plotting are not modelled.
