/**
 * The overlapped machine computes what the sequential machine computes: in every reachable state
 * the pipeline's registers, memory, HI/LO and in-flight ops are those of the sequential run.
 */
module PipelineRefinement {
  import opened Collections
  import opened Words
  import opened MipsIsa
  import opened SetAssociativeCache
  import opened Pipeline

  function Count(o: Option<Op>): nat {
    if o.Some? then 1 else 0
  }

  /** Number of sequential instructions that have left the execute stage. */
  function Executed(s: State): nat {
    s.retired + Count(s.wbOp) + Count(s.memOp)
  }

  /**
   * `op` is the decoded op `d`, except for operands and the ready flag, which a stalled execute
   * stage has already written.
   */
  predicate Attempted(op: Op, d: Op) {
    && op == d.(regSrc1Value := op.regSrc1Value, regSrc2Value := op.regSrc2Value, regDstValueReady := op.regDstValueReady)
    && (d.regSrc1 == -1 ==> op.regSrc1Value == d.regSrc1Value)
    && (d.regSrc2 == -1 ==> op.regSrc2Value == d.regSrc2Value)
    && (op.regDstValueReady != d.regDstValueReady ==> d.opcode == OP_SPECIAL)
  }

  /** The back of the pipeline: retired state, and ops from execute's output on. */
  ghost predicate BackAgrees(s: State, m: Machine) {
    var k, w := s.retired, Count(s.wbOp);
    && s.regs == Steps(m, k).regs
    && s.mem == Steps(m, k + w).mem
    && s.hi == Steps(m, Executed(s)).hi
    && s.lo == Steps(m, Executed(s)).lo
    && (s.wbOp.Some? ==> s.wbOp.value == FinishedOp(Steps(m, k)))
    && (s.memOp.Some? ==> s.memOp.value == ExecutedOp(Steps(m, k + w)))
  }

  /** The instruction after `n` falls through from it. */
  ghost predicate FallsThrough(m: Machine, n: nat) {
    Steps(m, n + 1).pc == Wrap(Steps(m, n).pc + 4)
  }

  /** The op in the execute stage is sequential instruction `j`. */
  ghost predicate ExecuteAgrees(executeOp: Option<Op>, m: Machine, j: nat) {
    executeOp.Some? ==> Attempted(executeOp.value, DecodedOp(Steps(m, j)))
  }

  /** The op in the decode stage is the sequential one unless a taken branch is still ahead of it. */
  ghost predicate DecodeAgrees(ahead: bool, decodeOp: Option<Op>, m: Machine, j: nat) {
    decodeOp.Some? ==>
      var op := decodeOp.value;
      && op == FetchOp(op.instruction, op.pc)
      && (!ahead ==> op.pc == Steps(m, j).pc && op.instruction == Read(Steps(m, j).mem, Steps(m, j).pc))
      && (ahead ==>
          && op.pc == Wrap(Steps(m, j).pc + 4)
          && (FallsThrough(m, j) ==> op.instruction == Read(Steps(m, j + 1).mem, op.pc)))
  }

  ghost predicate PcAgrees(pc: Word, inFlight: nat, m: Machine, j: nat) {
    pc == Wrap(Steps(m, j).pc + 4 * inFlight)
  }

  /** The front of the pipeline, while no recovery is pending. */
  ghost predicate FrontAgrees(s: State, m: Machine) {
    && ExecuteAgrees(s.executeOp, m, Executed(s))
    && DecodeAgrees(s.executeOp.Some?, s.decodeOp, m, Executed(s))
    && (s.running ==> PcAgrees(s.pc, Count(s.executeOp) + Count(s.decodeOp), m, Executed(s)))
  }

  ghost predicate RecoveryAgrees(s: State, m: Machine) {
    s.branchFlush == 3 && s.branchDest == Steps(m, Executed(s)).pc
  }

  /** What holds between the stages of a cycle. */
  ghost predicate Agrees(s: State, m: Machine) {
    && BackAgrees(s, m)
    && (s.branchRecover ==> RecoveryAgrees(s, m))
    && (!s.branchRecover ==> FrontAgrees(s, m))
  }

  /**
   * The text is settled when instruction `n` is fetched: its word is not changed by the two
   * instructions before it, whose stores may still be pending at that moment.
   */
  ghost predicate SettledAt(m: Machine, n: nat, d: nat)
    requires d <= n
  {
    Read(Steps(m, n - d).mem, Steps(m, n).pc) == Read(Steps(m, n).mem, Steps(m, n).pc)
  }

  /** No exit system call is among the first `k` sequential instructions. */
  ghost predicate NoExit(m: Machine, k: nat) {
    forall i :: 0 <= i < k ==> !IsExit(FinishedOp(Steps(m, i)))
  }

  /** Instruction `n` can be fetched: no exit call is more than three instructions before it. */
  ghost predicate Fetchable(m: Machine, n: nat) {
    NoExit(m, if n < 3 then 0 else n - 3)
  }

  /** The text that can be fetched is settled. */
  ghost predicate SettledText(m: Machine) {
    forall n: nat, d: nat :: d <= n && d <= 2 && Fetchable(m, n) ==> SettledAt(m, n, d)
  }

  // ---------- One lemma per stage ----------

  lemma RetireEffect(m: Machine, n: nat)
    ensures Steps(m, n + 1).regs == WriteBack(FinishedOp(Steps(m, n)), Steps(m, n).regs)
  {
    hide FinishedOp, ExecutedOp, OperandsOp, WriteBack, HiAfter, LoAfter, MemoryAfter, Wrap;
  }

  lemma StoreEffect(m: Machine, n: nat)
    ensures Steps(m, n + 1).mem == MemoryAfter(ExecutedOp(Steps(m, n)), Steps(m, n).mem)
  {
    hide FinishedOp, ExecutedOp, OperandsOp, WriteBack, HiAfter, LoAfter, MemoryAfter, Wrap;
  }

  lemma ExecuteEffect(m: Machine, n: nat)
    ensures Steps(m, n + 1).hi == HiAfter(OperandsOp(Steps(m, n)), Steps(m, n).hi)
    ensures Steps(m, n + 1).lo == LoAfter(OperandsOp(Steps(m, n)), Steps(m, n).lo)
    ensures Steps(m, n + 1).pc ==
      if ExecutedOp(Steps(m, n)).branchTaken then ExecutedOp(Steps(m, n)).branchDest else Wrap(Steps(m, n).pc + 4)
  {
    hide FinishedOp, ExecutedOp, OperandsOp, WriteBack, HiAfter, LoAfter, MemoryAfter, Wrap;
  }

  lemma WbStage(s: State, m: Machine)
    requires Agrees(s, m) && !s.branchRecover
    ensures Agrees(StageWb(s), m) && !StageWb(s).branchRecover && StageWb(s).wbOp.None?
    ensures Executed(StageWb(s)) == Executed(s)
  {
    hide Steps, FinishedOp, ExecutedOp, ExecuteAgrees, DecodeAgrees, PcAgrees, IsExit, WriteBack, Wrap;
    RetireEffect(m, s.retired);
  }

  /** Neither the data cache nor the stall counter matters. */
  lemma AccessAgrees(s: State, m: Machine, dcache: SoundCache, stall: nat)
    requires Agrees(s, m)
    ensures Agrees(s.(dcache := dcache, memStall := stall), m)
    ensures Executed(s.(dcache := dcache, memStall := stall)) == Executed(s)
  {
    hide Steps, FinishedOp, ExecutedOp, ExecuteAgrees, DecodeAgrees, PcAgrees;
  }

  lemma PassMemAgrees(s: State, m: Machine)
    requires Agrees(s, m) && s.wbOp.None? && s.memOp.Some?
    ensures Agrees(PassMem(s, s.memOp.value), m) && Executed(PassMem(s, s.memOp.value)) == Executed(s)
  {
    hide Steps, ExecutedOp, ExecuteAgrees, DecodeAgrees, PcAgrees, AfterMemory, MemoryAfter;
    StoreEffect(m, s.retired);
  }

  lemma MemStage(s: State, m: Machine, random: nat)
    requires Agrees(s, m) && s.wbOp.None? && !s.branchRecover
    ensures Agrees(StageMem(s, random), m) && !StageMem(s, random).branchRecover
    ensures Executed(StageMem(s, random)) == Executed(s)
  {
    hide Agrees, Executed, AfterMemory, MemoryAfter, Access, AccessStall, Align;
    if s.memOp.Some? {
      var address := Align(s.memOp.value.memAddr);
      var accessed := Access(s.dcache, address, random);
      if s.memStall > 0 {
        AccessAgrees(s, m, s.dcache, s.memStall - 1);
      } else if !s.memOp.value.isMem {
        PassMemAgrees(s, m);
      } else if AccessStall(s.dcache, address) > 0 {
        AccessAgrees(s, m, accessed, AccessStall(s.dcache, address) - 1);
      } else {
        AccessAgrees(s, m, accessed, s.memStall);
        PassMemAgrees(s.(dcache := accessed), m);
      }
    }
  }

  lemma BypassedOperand(s: State, m: Machine, r: Reg, current: Word)
    requires BackAgrees(s, m) && s.memOp.None? && r != -1
    ensures ReadSource(s, r, current) == (Operand(Steps(m, Executed(s)).regs, r), false)
  {
    hide Steps, FinishedOp, ExecutedOp;
    RetireEffect(m, s.retired);
  }

  /** The operands of an attempted op, once bypassed, make it the sequential machine's op. */
  lemma OperandsAgree(s: State, m: Machine, op: Op)
    requires BackAgrees(s, m) && s.memOp.None?
    requires Attempted(op, DecodedOp(Steps(m, Executed(s))))
    ensures var (v1, wait1) := ReadSource(s, op.regSrc1, op.regSrc1Value);
      var (v2, wait2) := ReadSource(s, op.regSrc2, op.regSrc2Value);
      && !wait1 && !wait2
      && MarkReady(op.(regSrc1Value := v1, regSrc2Value := v2)) == OperandsOp(Steps(m, Executed(s)))
  {
    hide Steps, DecodedOp, ExecutedOp, FinishedOp, BackAgrees;
    if op.regSrc1 != -1 {
      BypassedOperand(s, m, op.regSrc1, op.regSrc1Value);
    }
    if op.regSrc2 != -1 {
      BypassedOperand(s, m, op.regSrc2, op.regSrc2Value);
    }
  }

  /** What is behind the execute stage when sequential instruction `j` leaves it. */
  lemma LeaveExecuteAgrees(s: State, m: Machine)
    requires BackAgrees(s, m) && s.memOp.None?
    ensures var t := LeaveExecute(s, OperandsOp(Steps(m, Executed(s))));
      BackAgrees(t, m) && Executed(t) == Executed(s) + 1
  {
    hide Steps, FinishedOp, OperandsOp, Execute, HiAfter, LoAfter, MultiplierLatency;
    ExecuteEffect(m, Executed(s));
  }

  /** Sequential instruction `j` leaves the execute stage. */
  lemma PassExecuteAgrees(s: State, m: Machine)
    requires Agrees(s, m) && !s.branchRecover && s.memOp.None? && s.executeOp.Some?
    ensures Agrees(PassExecute(s, OperandsOp(Steps(m, Executed(s)))), m)
  {
    hide Steps, FinishedOp, OperandsOp, DecodedOp, Attempted, Execute, HiAfter, LoAfter, MultiplierLatency, Read, Wrap;
    var j := Executed(s);
    LeaveExecuteAgrees(s, m);
    ExecuteEffect(m, j);
    var t := LeaveExecute(s, OperandsOp(Steps(m, j)));
    if !ExecutedOp(Steps(m, j)).branchTaken {
      WrapTwice(Steps(m, j).pc + 4, 4 * Count(s.decodeOp));
    }
  }

  lemma OperandsAttempted(m: Machine)
    ensures Attempted(OperandsOp(m), DecodedOp(m))
  {
    hide Decode, Operand;
  }

  /** The op in the execute stage may have read its operands. */
  lemma RetryAgrees(s: State, m: Machine, op: Op)
    requires Agrees(s, m) && Attempted(op, DecodedOp(Steps(m, Executed(s)))) && s.executeOp.Some?
    ensures Agrees(s.(executeOp := Some(op)), m)
  {
    hide Steps, FinishedOp, ExecutedOp, DecodedOp, Attempted, PcAgrees, Read, Wrap;
  }

  lemma StallAgrees(s: State, m: Machine, stall: nat)
    requires Agrees(s, m)
    ensures Agrees(s.(multiplierStall := stall), m)
  {
    hide Steps, FinishedOp, ExecutedOp, ExecuteAgrees, DecodeAgrees, PcAgrees;
  }

  lemma ExecuteStage(s: State, m: Machine)
    requires Agrees(s, m) && !s.branchRecover
    ensures Agrees(StageExecute(s), m)
  {
    hide Steps, OperandsOp, DecodedOp, PassExecute, UsesHiLo, BackAgrees, DecodeAgrees, PcAgrees, Attempted;
    var stall := if s.multiplierStall > 0 then s.multiplierStall - 1 else 0;
    StallAgrees(s, m, stall);
    if s.memOp.None? && s.executeOp.Some? {
      var s1 := s.(multiplierStall := stall);
      var sequential := Steps(m, Executed(s1));
      OperandsAgree(s1, m, s.executeOp.value);
      PassExecuteAgrees(s1, m);
      OperandsAttempted(sequential);
      RetryAgrees(s1, m, OperandsOp(sequential));
    }
  }

  lemma DecodeStage(s: State, m: Machine)
    requires Agrees(s, m)
    ensures Agrees(StageDecode(s), m)
  {
    hide Steps, FinishedOp, ExecutedOp, Decode, Read, PcAgrees;
  }

  /** What is fetched at the sequential program counter is the sequential instruction. */
  lemma FetchedWord(s: State, m: Machine, d: nat)
    requires BackAgrees(s, m) && SettledText(m) && NoExit(m, s.retired) && d <= 1
    ensures Read(s.mem, Steps(m, Executed(s) + d).pc) == Read(Steps(m, Executed(s) + d).mem, Steps(m, Executed(s) + d).pc)
  {
    hide Steps, FinishedOp, ExecutedOp, Read, IsExit;
    var n := Executed(s) + d;
    assert Fetchable(m, n);
    assert SettledAt(m, n, Count(s.memOp) + d);
  }

  lemma WrapTwice(x: int, y: int)
    ensures Wrap(Wrap(x) + y) == Wrap(x + y)
    ensures 0 <= x < WORDS ==> Wrap(x) == x
  {
  }

  /** Fetching at an agreeing program counter, with nothing in the decode stage. */
  lemma FetchedOpAgrees(s: State, m: Machine)
    requires Agrees(s, m) && s.running && SettledText(m) && NoExit(m, s.retired) && !s.branchRecover && s.decodeOp.None?
    ensures Agrees(s.(decodeOp := Some(FetchOp(Read(s.mem, s.pc), s.pc)), pc := Wrap(s.pc + 4)), m)
  {
    hide Steps, FinishedOp, ExecutedOp, ExecuteAgrees, Read, Wrap, SettledText, NoExit;
    var j, c := Executed(s), Count(s.executeOp);
    FetchedWord(s, m, c);
    WrapTwice(Steps(m, j).pc + 4 * c, 4);
    WrapTwice(Steps(m, j).pc, 0);
  }

  lemma FetchStage(s: State, m: Machine, random: nat)
    requires Agrees(s, m) && s.running && SettledText(m) && NoExit(m, s.retired)
    ensures Agrees(StageFetch(s, random), m)
  {
    hide NoExit, Steps, FinishedOp, ExecutedOp, ExecuteAgrees, DecodeAgrees, PcAgrees, FetchOp, Read, Wrap, Access, AccessStall, SettledText;
    if s.branchRecover || s.decodeOp.Some? {
    } else {
      FetchedOpAgrees(s, m);
    }
  }

  // ---------- Whole cycles and whole runs ----------

  lemma BackHalfAgrees(s: State, m: Machine, random: nat)
    requires Agrees(s, m) && !s.branchRecover
    ensures Agrees(BackHalf(s, random), m)
    ensures BackHalf(s, random).running == StageWb(s).running
    ensures BackHalf(s, random).retired == StageWb(s).retired
  {
    hide Agrees, StageWb, PassExecute, MarkReady, UsesHiLo, Access, AccessStall, AfterMemory, MemoryAfter;
    WbStage(s, m);
    MemStage(StageWb(s), m, random);
    ExecuteStage(StageMem(StageWb(s), random), m);
    ExecuteKeepsCount(StageMem(StageWb(s), random));
  }

  lemma ExecuteKeepsCount(s: State)
    ensures StageExecute(s).running == s.running && StageExecute(s).retired == s.retired
  {
    hide Execute, HiAfter, LoAfter, MultiplierLatency, UsesHiLo, MarkReady, ReadSource;
  }

  lemma RecoverAgrees(s: State, m: Machine)
    requires Agrees(s, m)
    ensures Agrees(Recover(s), m) && !Recover(s).branchRecover
  {
    hide Steps, FinishedOp, ExecutedOp, Wrap;
    WrapTwice(Steps(m, Executed(s)).pc, 0);
  }

  predicate SameBack(s: State, t: State) {
    && s.regs == t.regs && s.mem == t.mem && s.hi == t.hi && s.lo == t.lo
    && s.wbOp == t.wbOp && s.memOp == t.memOp && s.retired == t.retired && s.running == t.running
  }

  lemma DecodeKeepsBack(s: State)
    ensures SameBack(s, StageDecode(s)) && StageDecode(s).pc == s.pc
    ensures StageDecode(s).branchFlush == s.branchFlush && StageDecode(s).branchRecover == s.branchRecover
  {
    hide Decode;
  }

  lemma FetchKeepsBack(s: State, random: nat)
    ensures SameBack(s, StageFetch(s, random))
    ensures StageFetch(s, random).branchFlush == s.branchFlush && StageFetch(s, random).branchRecover == s.branchRecover
  {
    hide FetchOp, Read, Access, AccessStall;
  }

  lemma FrontHalfKeepsBack(s: State, m: Machine, random: nat)
    requires BackAgrees(s, m) && (s.branchRecover ==> s.branchFlush <= 3)
    ensures BackAgrees(FrontHalf(s, random), m)
    ensures FrontHalf(s, random).running == s.running && FrontHalf(s, random).retired == s.retired
  {
    hide Steps, FinishedOp, ExecutedOp, StageDecode, StageFetch;
    DecodeKeepsBack(s);
    FetchKeepsBack(StageDecode(s), random);
    assert SameBack(s, FrontHalf(s, random));
  }

  lemma CycleAgrees(s: State, m: Machine, dataRandom: nat, fetchRandom: nat)
    requires Agrees(s, m) && !s.branchRecover && SettledText(m) && s.running && NoExit(m, s.retired)
    ensures var s' := Cycle(s, dataRandom, fetchRandom);
      && BackAgrees(s', m)
      && (s'.running ==> Agrees(s', m) && !s'.branchRecover)
      && s'.running == StageWb(s).running && s'.retired == StageWb(s).retired
  {
    hide BackAgrees, FrontAgrees, BackHalf, StageDecode, StageFetch, Recover, StageWb, SettledText, Executed, NoExit;
    var s1 := BackHalf(s, dataRandom);
    BackHalfAgrees(s, m, dataRandom);
    NoExitYet(s, m);
    FrontHalfKeepsBack(s1, m, fetchRandom);
    if s1.running {
      DecodeStage(s1, m);
      DecodeKeepsBack(s1);
      FetchStage(StageDecode(s1), m, fetchRandom);
      RecoverAgrees(StageFetch(StageDecode(s1), fetchRandom), m);
    }
  }

  /** While the machine runs, what has retired is no exit call. */
  lemma NoExitYet(s: State, m: Machine)
    requires BackAgrees(s, m) && s.running && NoExit(m, s.retired)
    ensures StageWb(s).running ==> NoExit(m, StageWb(s).retired)
  {
    hide StageWb, BackAgrees, Steps, FinishedOp, IsExit;
    WbExit(s, m);
  }

  lemma BootAgrees(m: Machine, icache: SoundCache, dcache: SoundCache)
    ensures Agrees(Boot(m, icache, dcache), m) && !Boot(m, icache, dcache).branchRecover
  {
    hide Wrap, Step;
    WrapTwice(m.pc, 0);
  }

  /** What holds after every cycle: a halted pipeline has just retired the first exit call. */
  ghost predicate RunInvariant(s: State, m: Machine) {
    && BackAgrees(s, m)
    && (s.running ==> Agrees(s, m) && !s.branchRecover && NoExit(m, s.retired))
    && (!s.running ==>
        s.retired > 0 && NoExit(m, s.retired - 1) && IsExit(FinishedOp(Steps(m, s.retired - 1))))
  }

  lemma CycleKeepsInvariant(s: State, m: Machine, dataRandom: nat, fetchRandom: nat)
    requires RunInvariant(s, m) && s.running && SettledText(m)
    ensures RunInvariant(Cycle(s, dataRandom, fetchRandom), m)
  {
    hide Cycle, StageWb, FrontAgrees, SettledText, Steps, FinishedOp, IsExit, RecoveryAgrees;
    CycleAgrees(s, m, dataRandom, fetchRandom);
    WbExit(s, m);
  }

  lemma {:induction false} RunAgrees(m: Machine, icache: SoundCache, dcache: SoundCache, n: nat, r: Randomness)
    requires SettledText(m)
    ensures RunInvariant(Run(Boot(m, icache, dcache), n, r), m)
  {
    hide Boot, Cycle, FrontAgrees, BackAgrees, SettledText, RecoveryAgrees;
    if n == 0 {
      BootAgrees(m, icache, dcache);
      BootRuns(m, icache, dcache);
    } else {
      RunAgrees(m, icache, dcache, n - 1, r);
      if Run(Boot(m, icache, dcache), n - 1, r).running {
        CycleKeepsInvariant(Run(Boot(m, icache, dcache), n - 1, r), m, r.data(n - 1), r.fetch(n - 1));
      }
    }
  }

  lemma BootRuns(m: Machine, icache: SoundCache, dcache: SoundCache)
    ensures Boot(m, icache, dcache).running && Boot(m, icache, dcache).retired == 0
  {
  }

  lemma WbExit(s: State, m: Machine)
    requires BackAgrees(s, m) && s.running
    ensures s.wbOp.None? ==> StageWb(s).running && StageWb(s).retired == s.retired
    ensures s.wbOp.Some? ==>
      StageWb(s).retired == s.retired + 1 && StageWb(s).running == !IsExit(FinishedOp(Steps(m, s.retired)))
  {
    hide Steps, FinishedOp, ExecutedOp, IsExit, WriteBack, Wrap;
  }

  /**
   * The pipeline refines the sequential machine. After any number of cycles, whatever the caches
   * do, with `k` instructions retired: the registers are those after `k` sequential steps, the
   * memory includes the op waiting for write back, HI and LO also the op in the memory stage, and
   * the ops behind the execute stage are the next sequential ones, never wrong-path ones.
   */
  lemma PipelineRefinesSequential(m: Machine, icache: SoundCache, dcache: SoundCache, n: nat, r: Randomness)
    requires SettledText(m)
    ensures var s := Run(Boot(m, icache, dcache), n, r);
      var k, w, e := s.retired, Count(s.wbOp), Count(s.memOp);
      && s.regs == Steps(m, k).regs
      && s.mem == Steps(m, k + w).mem
      && s.hi == Steps(m, k + w + e).hi && s.lo == Steps(m, k + w + e).lo
      && (s.wbOp.Some? ==> s.wbOp.value == FinishedOp(Steps(m, k)))
      && (s.memOp.Some? ==> s.memOp.value == ExecutedOp(Steps(m, k + w)))
      && (s.running && s.executeOp.Some? ==> Attempted(s.executeOp.value, DecodedOp(Steps(m, k + w + e))))
  {
    hide Steps, FinishedOp, ExecutedOp, DecodedOp, Attempted, Run, Boot, SettledText, IsExit, DecodeAgrees, PcAgrees;
    RunAgrees(m, icache, dcache, n, r);
  }

  /** The run bit is cleared exactly when the first exit system call retires. */
  lemma HaltsAtFirstExit(m: Machine, icache: SoundCache, dcache: SoundCache, n: nat, r: Randomness)
    requires SettledText(m)
    ensures var s := Run(Boot(m, icache, dcache), n, r);
      && (s.running <==> NoExit(m, s.retired))
      && (!s.running ==> s.retired > 0 && NoExit(m, s.retired - 1) && s.regs == Steps(m, s.retired).regs)
  {
    hide Steps, FinishedOp, ExecutedOp, Run, Boot, SettledText, IsExit, FrontAgrees;
    RunAgrees(m, icache, dcache, n, r);
  }

  ghost predicate AlignedRun(m: Machine) {
    forall n: nat :: Steps(m, n).pc % 4 == 0
  }

  lemma MemKeepsPc(s: State, random: nat)
    ensures StageMem(s, random).pc == s.pc
  {
    hide AfterMemory, MemoryAfter, Access, AccessStall, Align;
  }

  lemma ExecuteKeepsPc(s: State)
    ensures StageExecute(s).pc == s.pc
  {
    hide Execute, HiAfter, LoAfter, MultiplierLatency, UsesHiLo, MarkReady, ReadSource;
  }

  lemma WbPc(s: State)
    requires s.pc % 4 == 0 && (s.wbOp.Some? ==> s.wbOp.value.pc % 4 == 0)
    ensures StageWb(s).pc % 4 == 0
  {
    hide WriteBack, IsExit;
  }

  /** The instruction cache is only ever accessed at word-aligned addresses if the program is aligned. */
  lemma FetchesAreAligned(m: Machine, s: State, random: nat)
    requires Agrees(s, m) && s.running && !s.branchRecover && AlignedRun(m)
    ensures StageDecode(BackHalf(s, random)).pc % 4 == 0
  {
    hide Steps, FinishedOp, ExecutedOp, StageWb, StageMem, StageExecute, StageDecode, ExecuteAgrees, DecodeAgrees;
    assert Steps(m, Executed(s)).pc % 4 == 0;
    assert Steps(m, s.retired).pc % 4 == 0;
    FinishedPc(Steps(m, s.retired));
    WbPc(s);
    MemKeepsPc(StageWb(s), random);
    ExecuteKeepsPc(StageMem(StageWb(s), random));
    DecodeKeepsBack(BackHalf(s, random));
  }

  lemma FinishedPc(m: Machine)
    ensures FinishedOp(m).pc == m.pc
  {
    hide Decode, Execute, WithOperands, LoadResult, MemoryWord, Read, MarkReady, IsLoad;
    OperandsPc(DecodedOp(m), m.regs);
    ExecutePc(OperandsOp(m), m.hi, m.lo);
  }

  lemma OperandsPc(op: Op, regs: RegisterFile)
    ensures MarkReady(WithOperands(op, regs)).pc == op.pc
  {
    hide Operand;
  }

  lemma ExecutePc(op: Op, hi: Word, lo: Word)
    ensures Execute(op, hi, lo).pc == op.pc
  {
    hide SpecialResult, ImmediateResult, ConditionHolds, Wrap;
  }
}
