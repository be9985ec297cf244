/**
 * How long ops take in the stages of the pipeline: 50 more cycles for a miss in the data cache, 50
 * cycles without a fetch after a miss in the instruction cache, and 4 or 32 cycles until HI and LO
 * may be used after a multiplication or a division.
 */
module PipelineTiming {
  import opened Collections
  import opened Words
  import opened MipsIsa
  import opened SetAssociativeCache
  import opened Pipeline
  import opened PipelineProgress

  // ---------- Memory ----------

  /** The op in the memory stage accesses memory, has not begun to, and its line is not in the data cache. */
  ghost predicate Misses(s: State) {
    s.memOp.Some? && s.memOp.value.isMem && s.memStall == 0 && !DataHits(s)
  }

  lemma WbKeepsMem(s: State)
    ensures var t := StageWb(s); t.memOp == s.memOp && t.memStall == s.memStall && t.dcache == s.dcache && t.mem == s.mem
  {
    hide WriteBack, IsExit;
  }

  lemma MemMisses(s: State, random: nat)
    requires Misses(s)
    ensures var t := StageMem(s, random); t.memOp == s.memOp && t.memStall == 49 && t.wbOp == s.wbOp
  {
    hide Hits, Access, Align, AfterMemory, MemoryAfter;
  }

  lemma MemPasses(s: State, random: nat)
    requires s.memOp.Some? && s.memStall == 0 && !Misses(s)
    ensures StageMem(s, random).wbOp == Some(AfterMemory(s.memOp.value, s.mem))
  {
    hide Hits, Access, Align, AfterMemory, MemoryAfter;
  }

  lemma MissStarts(s: State, dataRandom: nat, fetchRandom: nat)
    requires Bounded(s) && Misses(s)
    ensures var t := Cycle(s, dataRandom, fetchRandom); t.memOp == s.memOp && t.memStall == 49
  {
    hide StageWb, StageMem, StageExecute, FrontHalf, Hits, Align;
    var s1 := StageWb(s);
    var s2 := StageMem(s1, dataRandom);
    WbKeepsMem(s);
    MemMisses(s1, dataRandom);
    WbStep(s);
    MemStep(s1, dataRandom);
    ExecuteStep(s2);
    FrontStep(StageExecute(s2), fetchRandom);
  }

  /** A load or store that misses stays in the memory stage for 50 more cycles, and then passes to write back. */
  lemma MissTakesFifty(m: Machine, icache: SoundCache, dcache: SoundCache, n: nat, j: nat, r: Randomness)
    requires 1 <= j <= 50
    requires var s := Boot(m, icache, dcache); Misses(Run(s, n, r)) && Run(s, n + 50, r).running
    ensures var s := Boot(m, icache, dcache);
      && Run(s, n + j, r).memOp == Run(s, n, r).memOp && Run(s, n + j, r).memStall == 50 - j
      && Run(s, n + 51, r).wbOp == Some(AfterMemory(Run(s, n, r).memOp.value, Run(s, n + 50, r).mem))
  {
    hide Run, Boot, Cycle, AfterMemory, Misses, Bounded, DataHits;
    var s := Boot(m, icache, dcache);
    BootBounded(m, icache, dcache);
    RunMonotone(s, n, 50, r);
    RunMonotone(s, n + j, 50 - j, r);
    RunBounded(s, n, r);
    MissStarts(Run(s, n, r), r.data(n), r.fetch(n));
    NextCycle(s, n, r);
    StallRuns(s, n + 1, j - 1, r);
    MissHitsAfterStall(m, icache, dcache, n + 1, 49, r);
  }

  /** Any other op, and a load or store that hits, passes to write back in one cycle. */
  lemma OthersTakeOne(s: State, dataRandom: nat, fetchRandom: nat)
    requires Bounded(s) && s.memOp.Some? && s.memStall == 0 && !Misses(s)
    ensures Cycle(s, dataRandom, fetchRandom).wbOp == Some(AfterMemory(s.memOp.value, s.mem))
  {
    hide StageWb, StageMem, StageExecute, FrontHalf, Hits, Align, AfterMemory;
    var s1 := StageWb(s);
    var s2 := StageMem(s1, dataRandom);
    WbKeepsMem(s);
    MemPasses(s1, dataRandom);
    WbStep(s);
    MemStep(s1, dataRandom);
    ExecuteStep(s2);
    FrontStep(StageExecute(s2), fetchRandom);
  }

  // ---------- Fetch ----------

  /** While the fetch stalls there is nothing to decode. */
  predicate FetchHeld(s: State) {
    s.fetchStall > 0 ==> s.decodeOp.None?
  }

  predicate SameFetch(s: State, t: State) {
    t.fetchStall == s.fetchStall && t.decodeOp == s.decodeOp && t.icache == s.icache
  }

  lemma WbKeepsFetch(s: State)
    ensures SameFetch(s, StageWb(s))
  {
    hide WriteBack, IsExit;
  }

  lemma MemKeepsFetch(s: State, random: nat)
    ensures SameFetch(s, StageMem(s, random))
  {
    hide Access, AccessStall, AfterMemory, MemoryAfter;
  }

  lemma ExecuteKeepsFetch(s: State)
    ensures SameFetch(s, StageExecute(s))
  {
    hide Execute, HiAfter, LoAfter, MultiplierLatency, ReadSource, UsesHiLo, MarkReady;
  }

  lemma BackKeepsFetch(s: State, random: nat)
    ensures SameFetch(s, BackHalf(s, random))
  {
    hide StageWb, StageMem, StageExecute;
    WbKeepsFetch(s);
    MemKeepsFetch(StageWb(s), random);
    ExecuteKeepsFetch(StageMem(StageWb(s), random));
  }

  lemma FrontFetch(s: State, random: nat)
    requires FetchHeld(s)
    ensures var t := FrontHalf(s, random);
      && FetchHeld(t)
      && (s.fetchStall > 0 ==> t.fetchStall == s.fetchStall - 1 && t.decodeOp.None?)
      && (s.fetchStall == 0 && t.fetchStall > 0 ==> t.fetchStall == 49 && t.decodeOp.None?)
      && (s.fetchStall == 0 && s.decodeOp.None? && !Hits(s.icache, s.pc) ==> t.fetchStall == 49)
  {
    hide Decode, FetchOp, Read, Hits, Access;
  }

  lemma CycleFetch(s: State, dataRandom: nat, fetchRandom: nat)
    requires FetchHeld(s)
    ensures var t := Cycle(s, dataRandom, fetchRandom);
      && FetchHeld(t)
      && (s.fetchStall > 0 ==> t.fetchStall == s.fetchStall - 1 && t.decodeOp.None?)
      && (s.fetchStall == 0 && t.fetchStall > 0 ==> t.fetchStall == 49 && t.decodeOp.None?)
  {
    hide BackHalf, FrontHalf;
    BackKeepsFetch(s, dataRandom);
    FrontFetch(BackHalf(s, dataRandom), fetchRandom);
  }

  lemma {:induction false} RunFetchHeld(m: Machine, icache: SoundCache, dcache: SoundCache, n: nat, r: Randomness)
    ensures FetchHeld(Run(Boot(m, icache, dcache), n, r))
  {
    hide Cycle;
    if n > 0 {
      RunFetchHeld(m, icache, dcache, n - 1, r);
      var s := Run(Boot(m, icache, dcache), n - 1, r);
      CycleFetch(s, r.data(n - 1), r.fetch(n - 1));
    }
  }

  /** A cycle whose fetch misses begins 50 cycles in which nothing is fetched. */
  lemma {:induction false} FetchMissTakesFifty(m: Machine, icache: SoundCache, dcache: SoundCache, n: nat, j: nat, r: Randomness)
    requires 1 <= j <= 50
    requires var s := Boot(m, icache, dcache);
      Run(s, n, r).fetchStall == 0 && Run(s, n + 1, r).fetchStall > 0 && Run(s, n + j, r).running
    ensures var t := Run(Boot(m, icache, dcache), n + j, r); t.fetchStall == 50 - j && t.decodeOp.None?
    decreases j
  {
    hide Run, Boot, Cycle, FetchHeld;
    var s := Boot(m, icache, dcache);
    BootBounded(m, icache, dcache);
    RunMonotone(s, n + j - 1, 1, r);
    RunMonotone(s, n, j, r);
    var before := Run(s, n + j - 1, r);
    RunFetchHeld(m, icache, dcache, n + j - 1, r);
    CycleFetch(before, r.data(n + j - 1), r.fetch(n + j - 1));
    NextCycle(s, n + j - 1, r);
    if j > 1 {
      FetchMissTakesFifty(m, icache, dcache, n, j - 1, r);
    }
  }

  // ---------- HI and LO ----------

  /** A multiplication keeps HI and LO busy for 4 cycles, a division for 32; no other op does. */
  lemma BusyCycles(s: State, op: Op)
    ensures var stall := PassExecute(s, op).multiplierStall;
      if op.opcode == 0 && (op.subop == 0x18 || op.subop == 0x19) then stall == 4
      else if op.opcode == 0 && (op.subop == 0x1a || op.subop == 0x1b) then stall == 32
      else stall == s.multiplierStall
  {
    hide Execute, HiAfter, LoAfter;
  }

  /** MFHI, MTHI, MFLO or MTLO. */
  predicate MovesHiLo(op: Op) {
    op.opcode == 0 && op.subop in {0x10, 0x11, 0x12, 0x13}
  }

  /** An op that moves HI or LO waits in the execute stage while they are busy. */
  predicate Waiting(s: State, pc: Word) {
    s.executeOp.Some? && MovesHiLo(s.executeOp.value) && s.executeOp.value.pc == pc
  }

  lemma ExecuteHolds(s: State, pc: Word)
    requires Waiting(s, pc) && s.multiplierStall >= 2 && !s.branchRecover
    ensures var t := StageExecute(s);
      Waiting(t, pc) && t.multiplierStall == s.multiplierStall - 1 && !t.branchRecover && t.memOp == s.memOp
  {
    hide Execute, HiAfter, LoAfter, MultiplierLatency, ReadSource;
  }

  lemma BusyStep(s: State, pc: Word, dataRandom: nat, fetchRandom: nat)
    requires Bounded(s) && Waiting(s, pc) && s.multiplierStall >= 2
    ensures var t := Cycle(s, dataRandom, fetchRandom); Waiting(t, pc) && t.multiplierStall == s.multiplierStall - 1
  {
    hide StageExecute, FrontHalf, Hits, Align, WriteBack, IsExit, Access, AccessStall, AfterMemory, MemoryAfter;
    var s1 := StageWb(s);
    var s2 := StageMem(s1, dataRandom);
    WbStep(s);
    MemStep(s1, dataRandom);
    ExecuteHolds(s2, pc);
    ExecuteStep(s2);
    FrontStep(StageExecute(s2), fetchRandom);
  }

  /** With `k` busy cycles left, an op that moves HI or LO is still in the execute stage `k - 1` cycles later. */
  lemma {:induction false} HiLoWaits(m: Machine, icache: SoundCache, dcache: SoundCache, n: nat, j: nat, pc: Word, r: Randomness)
    requires var s := Boot(m, icache, dcache);
      Waiting(Run(s, n, r), pc) && j < Run(s, n, r).multiplierStall && Run(s, n + j, r).running
    ensures var s := Boot(m, icache, dcache);
      Waiting(Run(s, n + j, r), pc) && Run(s, n + j, r).multiplierStall == Run(s, n, r).multiplierStall - j
    decreases j
  {
    hide Run, Boot, Cycle, Bounded, Waiting;
    if j > 0 {
      var s := Boot(m, icache, dcache);
      BootBounded(m, icache, dcache);
      RunMonotone(s, n + j - 1, 1, r);
      HiLoWaits(m, icache, dcache, n, j - 1, pc, r);
      RunBounded(s, n + j - 1, r);
      BusyStep(Run(s, n + j - 1, r), pc, r.data(n + j - 1), r.fetch(n + j - 1));
      NextCycle(s, n + j - 1, r);
    }
  }

  // ---------- The program counter after the exit call ----------

  /** In the cycle that begins in state `s` the fetch stage counts the program counter on. */
  predicate FetchCounts(s: State) {
    && (s.executeOp.None? || s.decodeOp.None?)
    && Hits(s.icache, s.pc)
  }

  lemma DecodeLeaves(s: State)
    ensures var t := StageDecode(s);
      && t.pc == s.pc && t.fetchStall == s.fetchStall && t.icache == s.icache
      && t.branchRecover == s.branchRecover && t.branchDest == s.branchDest
      && (t.decodeOp.None? <==> s.executeOp.None? || s.decodeOp.None?)
  {
    hide Decode;
  }

  lemma FetchPc(s: State, random: nat)
    ensures var t := StageFetch(s, random);
      && t.pc == (if s.decodeOp.None? && s.fetchStall == 0 && Hits(s.icache, s.pc) then Wrap(s.pc + 4) else s.pc)
      && t.branchRecover == s.branchRecover && t.branchDest == s.branchDest
  {
    hide FetchOp, Read, Hits, Access, Wrap;
  }

  lemma FrontPc(s: State, random: nat)
    ensures FrontHalf(s, random).pc
         == if s.branchRecover then s.branchDest
            else if s.fetchStall == 0 && FetchCounts(s) then Wrap(s.pc + 4) else s.pc
  {
    hide StageDecode, StageFetch, Hits, Wrap;
    DecodeLeaves(s);
    FetchPc(StageDecode(s), random);
  }

  lemma BackKeepsPc(s: State, random: nat)
    ensures BackHalf(s, random).pc == StageWb(s).pc
  {
    hide StageWb;
    MemKeepsPc(StageWb(s), random);
    ExecuteKeepsPc(StageMem(StageWb(s), random));
  }

  lemma MemKeepsPc(s: State, random: nat)
    ensures StageMem(s, random).pc == s.pc
  {
    hide Access, AccessStall, AfterMemory, MemoryAfter;
  }

  lemma ExecuteKeepsPc(s: State)
    ensures StageExecute(s).pc == s.pc
  {
    hide Execute, HiAfter, LoAfter, MultiplierLatency, ReadSource, UsesHiLo, MarkReady;
  }

  lemma ExitSetsPc(s: State)
    requires s.wbOp.Some? && IsExit(s.wbOp.value)
    ensures StageWb(s).pc == if s.fetchStall > 0 then Wrap(s.wbOp.value.pc + 4) else s.wbOp.value.pc
  {
    hide WriteBack, IsExit, Wrap;
  }

  /**
   * The cycle in which the exit call retires leaves the program counter behind the call exactly if no
   * branch behind the call was taken in it (or one to that place), and the fetch was stalled or could
   * count on: the decode stage was free and the call's own line still in the instruction cache.
   */
  lemma ExitLeavesPcBehindIff(s: State, dataRandom: nat, fetchRandom: nat)
    requires s.wbOp.Some? && IsExit(s.wbOp.value)
    ensures var behind, b := Wrap(s.wbOp.value.pc + 4), BackHalf(s, dataRandom);
      Cycle(s, dataRandom, fetchRandom).pc == behind <==>
        if b.branchRecover then b.branchDest == behind else s.fetchStall > 0 || FetchCounts(b)
  {
    hide BackHalf, FrontHalf, StageWb, IsExit, FetchCounts;
    ExitSetsPc(s);
    BackKeepsPc(s, dataRandom);
    BackKeepsFetch(s, dataRandom);
    FrontPc(BackHalf(s, dataRandom), fetchRandom);
    NextIsOther(s.wbOp.value.pc);
  }

  lemma NextIsOther(pc: Word)
    ensures Wrap(pc + 4) != pc
  {
  }

  /** An exit call whose line has left the instruction cache, with nothing behind it, leaves the program counter at the call. */
  lemma ExitPcIsLost(m: Machine, icache: SoundCache, dcache: SoundCache, call: Op, dataRandom: nat, fetchRandom: nat)
    requires IsExit(call) && !Hits(icache, call.pc)
    ensures var s := Boot(m, icache, dcache).(wbOp := Some(call)); Cycle(s, dataRandom, fetchRandom).pc == call.pc
  {
    hide IsExit, Hits, Wrap;
    var s := Boot(m, icache, dcache).(wbOp := Some(call));
    ExitSetsPc(s);
    BackKeepsPc(s, dataRandom);
    BackKeepsFetch(s, dataRandom);
    EmptyBehind(s, dataRandom);
    FrontPc(BackHalf(s, dataRandom), fetchRandom);
  }

  lemma EmptyBehind(s: State, random: nat)
    requires s.memOp.None? && s.executeOp.None? && !s.branchRecover
    ensures !BackHalf(s, random).branchRecover
  {
    hide WriteBack, IsExit, Wrap, Execute, HiAfter, LoAfter;
  }
}
