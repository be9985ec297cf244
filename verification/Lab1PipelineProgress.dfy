/**
 * Progress of the pipeline: a bound on the cycles between two retirements, from the 50-cycle
 * miss, the 4- and 32-cycle HI/LO stalls, and branches that redirect a stalled fetch.
 */
module PipelineProgress {
  import opened Collections
  import opened Words
  import opened MipsIsa
  import opened SetAssociativeCache
  import opened Pipeline
  import opened PipelineRefinement

  /** What every cycle keeps: stalls within their latencies, and a missed load's line present. */
  ghost predicate Bounded(s: State) {
    && !s.branchRecover
    && s.multiplierStall <= 32
    && s.fetchStall < DRAM_ACCESS_CYCLES
    && s.memStall < DRAM_ACCESS_CYCLES
    && (s.memStall > 0 ==> s.memOp.Some? && s.memOp.value.isMem && DataHits(s))
  }

  ghost predicate DataHits(s: State)
    requires s.memOp.Some?
  {
    Hits(s.dcache, Align(s.memOp.value.memAddr))
  }

  const MISS: nat := DRAM_ACCESS_CYCLES + 1

  /** Cycles until the op in the memory stage leaves it. */
  ghost function MemWait(s: State): nat
    requires s.memOp.Some?
  {
    if s.memStall > 0 then s.memStall + 1
    else if !s.memOp.value.isMem || DataHits(s) then 1
    else MISS
  }

  ghost function ExecuteWait(s: State): nat
    requires s.executeOp.Some?
  {
    MISS + if UsesHiLo(s.executeOp.value) && s.multiplierStall > 1 then s.multiplierStall else 1
  }

  const DECODE_WAIT: nat := MISS + 32 + 1

  ghost function FetchWait(s: State): nat {
    DECODE_WAIT + s.fetchStall + if Hits(s.icache, s.pc) then 1 else MISS
  }

  /** A bound on the cycles until the oldest op reaches write back. */
  ghost function Wait(s: State): nat {
    if s.wbOp.Some? then 0
    else if s.memOp.Some? then MemWait(s)
    else if s.executeOp.Some? then ExecuteWait(s)
    else if s.decodeOp.Some? then DECODE_WAIT
    else FetchWait(s)
  }

  const MAX_WAIT: nat := DECODE_WAIT + (DRAM_ACCESS_CYCLES - 1) + MISS

  lemma WaitIsBounded(s: State)
    requires Bounded(s)
    ensures Wait(s) <= MAX_WAIT
  {
    hide Hits, UsesHiLo, Align;
  }

  // ---------- What a cycle does to the parts the bound depends on ----------

  lemma MemStep(s: State, random: nat)
    requires Bounded(s) && s.wbOp.None?
    ensures var t := StageMem(s, random);
      && Bounded(t)
      && t.(dcache := s.dcache, memStall := s.memStall, memOp := s.memOp, wbOp := s.wbOp, mem := s.mem) == s
      && (s.memOp.None? ==> t.memOp.None? && t.wbOp.None?)
      && (s.memOp.Some? ==> t.wbOp.Some? || (t.memOp == s.memOp && MemWait(t) < MemWait(s)))
      && (t.wbOp.Some? ==> t.memOp.None? && t.memStall == 0)
  {
    hide AfterMemory, MemoryAfter, Hits, Access, Align;
    if s.memOp.Some? {
      AccessBringsIn(s.dcache, Align(s.memOp.value.memAddr), random);
    }
  }

  /** What the execute stage may do: nothing but count down, retry, or pass its op on. */
  lemma ExecuteStep(s: State)
    requires Bounded(s)
    ensures var t := StageExecute(s);
      && t.multiplierStall <= 32
      && t.(multiplierStall := s.multiplierStall, executeOp := s.executeOp, memOp := s.memOp, hi := s.hi, lo := s.lo,
            branchRecover := s.branchRecover, branchFlush := s.branchFlush, branchDest := s.branchDest) == s
      && (t.branchRecover ==> t.branchFlush == 3 && s.memOp.None? && t.memOp.Some?)
      && (s.memOp.Some? || s.executeOp.None? ==> t.memOp == s.memOp && t.executeOp == s.executeOp)
      && (s.memOp.None? && s.executeOp.Some? ==>
            || t.memOp.Some?
            || (t.memOp.None? && t.executeOp.Some? && ExecuteWait(t) < ExecuteWait(s)))
  {
    hide Execute, HiAfter, LoAfter, Hits, MultiplierLatency;
  }

  lemma RecoverStep(s: State)
    requires s.branchRecover ==> s.branchFlush == 3
    ensures var t := Recover(s);
      && !t.branchRecover
      && (!s.branchRecover ==> t == s)
      && t.wbOp == s.wbOp && t.memOp == s.memOp && t.dcache == s.dcache && t.memStall == s.memStall
      && t.fetchStall == s.fetchStall && t.multiplierStall == s.multiplierStall && t.retired == s.retired
  {
  }

  /** The part of the state that fetch and decode leave alone. */
  predicate SameBehind(s: State, t: State) {
    && t.branchRecover == s.branchRecover && t.branchFlush == s.branchFlush
    && t.wbOp == s.wbOp && t.memOp == s.memOp && t.dcache == s.dcache && t.memStall == s.memStall
    && t.multiplierStall == s.multiplierStall && t.retired == s.retired
  }

  lemma DecodeStep(s: State)
    ensures var t := StageDecode(s);
      && SameBehind(s, t) && t.icache == s.icache && t.pc == s.pc && t.fetchStall == s.fetchStall
      && (s.executeOp.Some? ==> t.executeOp == s.executeOp)
      && (s.executeOp.None? ==> t.decodeOp.None? && (t.executeOp.Some? <==> s.decodeOp.Some?))
  {
    hide Decode;
  }

  lemma FetchStep(s: State, random: nat)
    requires s.fetchStall < DRAM_ACCESS_CYCLES
    ensures var t := StageFetch(s, random);
      && SameBehind(s, t) && t.executeOp == s.executeOp && t.fetchStall < DRAM_ACCESS_CYCLES
      && (s.decodeOp.None? ==> t.decodeOp.Some? || FetchWait(t) < FetchWait(s))
  {
    hide FetchOp, Read, Hits, Access;
    AccessBringsIn(s.icache, s.pc, random);
  }

  lemma FrontStep(s: State, random: nat)
    requires s.branchRecover ==> s.branchFlush == 3
    requires s.fetchStall < DRAM_ACCESS_CYCLES
    ensures var t := FrontHalf(s, random);
      && !t.branchRecover && t.fetchStall < DRAM_ACCESS_CYCLES
      && t.wbOp == s.wbOp && t.memOp == s.memOp && t.dcache == s.dcache && t.memStall == s.memStall
      && t.multiplierStall == s.multiplierStall && t.retired == s.retired
      && (!s.branchRecover && s.executeOp.Some? ==> t.executeOp == s.executeOp)
      && (!s.branchRecover && s.executeOp.None? && s.decodeOp.Some? ==> t.executeOp.Some?)
      && (!s.branchRecover && s.executeOp.None? && s.decodeOp.None? ==>
            t.executeOp.None? && (t.decodeOp.Some? || FetchWait(t) < FetchWait(s)))
  {
    hide StageDecode, StageFetch, Recover, Hits;
    DecodeStep(s);
    FetchStep(StageDecode(s), random);
    RecoverStep(StageFetch(StageDecode(s), random));
  }

  lemma WbStep(s: State)
    requires Bounded(s)
    ensures Bounded(StageWb(s)) && StageWb(s).wbOp.None?
    ensures s.wbOp.None? ==> StageWb(s) == s
    ensures StageWb(s).retired == s.retired + if s.wbOp.Some? then 1 else 0
  {
    hide WriteBack, IsExit, Hits, Align;
  }

  /** Every cycle either retires an op or brings the oldest one nearer to retirement. */
  lemma CycleAdvances(s: State, dataRandom: nat, fetchRandom: nat)
    requires Bounded(s)
    ensures var t := Cycle(s, dataRandom, fetchRandom);
      && Bounded(t)
      && t.retired == s.retired + (if s.wbOp.Some? then 1 else 0)
      && (s.wbOp.None? ==> Wait(t) < Wait(s))
  {
    hide StageWb, StageMem, StageExecute, FrontHalf, Hits, UsesHiLo, Align;
    var s1 := StageWb(s);
    var s2 := StageMem(s1, dataRandom);
    var s3 := StageExecute(s2);
    WbStep(s);
    MemStep(s1, dataRandom);
    ExecuteStep(s2);
    FrontStep(s3, fetchRandom);
  }

  lemma {:induction false} RunBounded(s: State, n: nat, r: Randomness)
    requires Bounded(s)
    ensures Bounded(Run(s, n, r))
  {
    hide Bounded, Cycle;
    if n > 0 {
      RunBounded(s, n - 1, r);
      if Run(s, n - 1, r).running {
        CycleAdvances(Run(s, n - 1, r), r.data(n - 1), r.fetch(n - 1));
      }
    }
  }

  /** Starting at cycle `n`, the oldest op retires or the machine halts after at most Wait + 1 cycles. */
  lemma {:induction false} RetiresWithinWait(s: State, n: nat, r: Randomness) returns (c: nat)
    requires Bounded(s)
    ensures c <= Wait(Run(s, n, r)) + 1
    ensures !Run(s, n + c, r).running || Run(s, n + c, r).retired > Run(s, n, r).retired
    decreases Wait(Run(s, n, r))
  {
    hide Bounded, Cycle, Wait;
    var now := Run(s, n, r);
    if !now.running {
      return 0;
    }
    RunBounded(s, n, r);
    CycleAdvances(now, r.data(n), r.fetch(n));
    if now.wbOp.Some? {
      return 1;
    }
    var rest := RetiresWithinWait(s, n + 1, r);
    c := rest + 1;
  }

  lemma BootBounded(m: Machine, icache: SoundCache, dcache: SoundCache)
    ensures Bounded(Boot(m, icache, dcache))
  {
  }

  /** Retirements are never undone, and a halted pipeline stays halted. */
  lemma {:induction false} RunMonotone(s: State, n: nat, d: nat, r: Randomness)
    requires Bounded(s)
    ensures Run(s, n, r).retired <= Run(s, n + d, r).retired
    ensures !Run(s, n, r).running ==> Run(s, n + d, r) == Run(s, n, r)
  {
    hide Bounded, Cycle, Wait;
    if d > 0 {
      RunMonotone(s, n, d - 1, r);
      var before := Run(s, n + d - 1, r);
      if before.running {
        RunBounded(s, n + d - 1, r);
        CycleAdvances(before, r.data(n + d - 1), r.fetch(n + d - 1));
      }
    }
  }

  const GAP: nat := 185

  /**
   * Between two retirements lie at most 185 cycles: from any cycle of any run, within 185 cycles
   * another instruction retires or the run bit is cleared.
   */
  lemma RetirementGap(m: Machine, icache: SoundCache, dcache: SoundCache, n: nat, r: Randomness)
    ensures var s := Boot(m, icache, dcache);
      !Run(s, n + GAP, r).running || Run(s, n + GAP, r).retired > Run(s, n, r).retired
  {
    hide Run, Boot, Bounded, Wait;
    BootBounded(m, icache, dcache);
    var s := Boot(m, icache, dcache);
    var c := RetiresWithinWait(s, n, r);
    RunBounded(s, n, r);
    WaitIsBounded(Run(s, n, r));
    assert MAX_WAIT + 1 == GAP;
    RunMonotone(s, n + c, GAP - c, r);
  }

  /** While the memory stage stalls, its op and the data cache stay as they are. */
  lemma StallStep(s: State, dataRandom: nat, fetchRandom: nat)
    requires Bounded(s) && s.memStall > 0
    ensures var t := Cycle(s, dataRandom, fetchRandom);
      t.memStall == s.memStall - 1 && t.memOp == s.memOp && t.dcache == s.dcache
  {
    hide StageExecute, FrontHalf, Hits, Align, WriteBack, IsExit, Access, AccessStall, AfterMemory, MemoryAfter;
    var s1 := StageWb(s);
    var s2 := StageMem(s1, dataRandom);
    WbStep(s);
    MemStep(s1, dataRandom);
    ExecuteStep(s2);
    FrontStep(StageExecute(s2), fetchRandom);
  }

  lemma {:induction false} StallRuns(s: State, n: nat, d: nat, r: Randomness)
    requires Bounded(s) && d <= Run(s, n, r).memStall && Run(s, n + d, r).running
    ensures var now, later := Run(s, n, r), Run(s, n + d, r);
      later.memStall == now.memStall - d && later.memOp == now.memOp && later.dcache == now.dcache
  {
    hide Bounded, Cycle;
    if d > 0 {
      RunMonotone(s, n + d - 1, 1, r);
      StallRuns(s, n, d - 1, r);
      RunBounded(s, n + d - 1, r);
      StallStep(Run(s, n + d - 1, r), r.data(n + d - 1), r.fetch(n + d - 1));
    }
  }

  /** An op whose line is present leaves the memory stage in the next cycle. */
  lemma HitPasses(s: State, dataRandom: nat, fetchRandom: nat)
    requires Bounded(s) && s.memStall == 0 && s.memOp.Some? && DataHits(s)
    ensures Cycle(s, dataRandom, fetchRandom).wbOp == Some(AfterMemory(s.memOp.value, s.mem))
  {
    hide StageExecute, FrontHalf, Hits, Align, WriteBack, IsExit, Access, AfterMemory, MemoryAfter;
    var s1 := StageWb(s);
    var s2 := StageMem(s1, dataRandom);
    WbStep(s);
    MemStep(s1, dataRandom);
    ExecuteStep(s2);
    FrontStep(StageExecute(s2), fetchRandom);
  }

  /**
   * A load or store that missed hits when its stall is over: if `k` stall cycles are left after `n`
   * cycles and the machine still runs after them, the same op is in the memory stage, its access
   * hits, and one cycle later it is in write back.
   */
  lemma MissHitsAfterStall(m: Machine, icache: SoundCache, dcache: SoundCache, n: nat, k: nat, r: Randomness)
    requires var s := Boot(m, icache, dcache);
      k == Run(s, n, r).memStall > 0 && Run(s, n + k, r).running
    ensures var s := Boot(m, icache, dcache);
      var now, later := Run(s, n, r), Run(s, n + k, r);
      && now.memOp.Some? && now.memOp.value.isMem
      && later.memStall == 0 && later.memOp == now.memOp && DataHits(later)
      && Run(s, n + k + 1, r).wbOp == Some(AfterMemory(now.memOp.value, later.mem))
  {
    hide Run, Boot, Cycle, AfterMemory, MemoryAfter, Hits, Access, Align;
    var s := Boot(m, icache, dcache);
    BootBounded(m, icache, dcache);
    RunBounded(s, n, r);
    RunBounded(s, n + k, r);
    StallRuns(s, n, k, r);
    var later := Run(s, n + k, r);
    HitPasses(later, r.data(n + k), r.fetch(n + k));
    NextCycle(s, n + k, r);
  }

  lemma NextCycle(s: State, n: nat, r: Randomness)
    requires Run(s, n, r).running
    ensures Run(s, n + 1, r) == Cycle(Run(s, n, r), r.data(n), r.fetch(n))
  {
    hide Cycle;
  }

  lemma {:induction false} RetiresAtLeast(m: Machine, icache: SoundCache, dcache: SoundCache, k: nat, r: Randomness)
    ensures var s := Run(Boot(m, icache, dcache), GAP * k, r);
      !s.running || s.retired >= k
  {
    hide Run, Boot;
    if k > 0 {
      RetiresAtLeast(m, icache, dcache, k - 1, r);
      RetirementGap(m, icache, dcache, GAP * (k - 1), r);
      BootBounded(m, icache, dcache);
      RunMonotone(Boot(m, icache, dcache), GAP * (k - 1), GAP, r);
      assert GAP * (k - 1) + GAP == GAP * k;
    }
  }

  /**
   * A program that exits sequentially also exits in the pipeline, within 185 cycles per
   * instruction, and with the registers of the sequential machine after its exit call.
   */
  lemma ExitingProgramHalts(m: Machine, icache: SoundCache, dcache: SoundCache, last: nat, r: Randomness)
    requires SettledText(m)
    requires IsExit(FinishedOp(Steps(m, last))) && NoExit(m, last)
    ensures var s := Run(Boot(m, icache, dcache), GAP * (last + 1), r);
      !s.running && s.retired == last + 1 && s.regs == Steps(m, last + 1).regs
  {
    hide Run, Boot, Steps, FinishedOp, IsExit, SettledText;
    RetiresAtLeast(m, icache, dcache, last + 1, r);
    HaltsAtFirstExit(m, icache, dcache, GAP * (last + 1), r);
    var s := Run(Boot(m, icache, dcache), GAP * (last + 1), r);
    assert s.running ==> !IsExit(FinishedOp(Steps(m, last)));
    assert s.retired - 1 > last ==> !IsExit(FinishedOp(Steps(m, last)));
    RunAgrees(m, icache, dcache, GAP * (last + 1), r);
  }
}
