/**
 * The five-stage pipeline of lab1. `State` is the pipeline's whole state between stages and the
 * Stage functions are its transitions; class Pipe performs them in place.
 */
module Pipeline {
  import opened Collections
  import opened Powers
  import opened Words
  import opened MipsIsa
  import opened SetAssociativeCache

  datatype State = State(
    decodeOp: Option<Op>, executeOp: Option<Op>, memOp: Option<Op>, wbOp: Option<Op>,
    regs: RegisterFile, hi: Word, lo: Word, pc: Word,
    branchRecover: bool, branchDest: Word, branchFlush: nat,
    multiplierStall: nat,
    icache: SoundCache, dcache: SoundCache, fetchStall: nat, memStall: nat,
    mem: Memory, running: bool, retired: nat)

  /** pipe_recover: a recovery already scheduled this cycle comes from an older op and wins. */
  function ScheduleRecovery(s: State, flush: nat, dest: Word): State {
    if s.branchRecover then s
    else s.(branchRecover := true, branchFlush := flush, branchDest := dest)
  }

  function StageWb(s: State): State {
    match s.wbOp
    case None => s
    case Some(op) =>
      var written := s.(wbOp := None, regs := WriteBack(op, s.regs), retired := s.retired + 1);
      if IsExit(op)
      then written.(pc := if s.fetchStall > 0 then Wrap(op.pc + 4) else op.pc, running := false)
      else written
  }

  function StageMem(s: State, random: nat): State {
    match s.memOp
    case None => s
    case Some(op) =>
      if s.memStall > 0 then s.(memStall := s.memStall - 1)
      else if op.isMem then
        var address := Align(op.memAddr);
        var stall := AccessStall(s.dcache, address);
        var accessed := s.(dcache := Access(s.dcache, address, random));
        if stall > 0 then accessed.(memStall := stall - 1) else PassMem(accessed, op)
      else PassMem(s, op)
  }

  function PassMem(s: State, op: Op): State {
    s.(memOp := None, wbOp := Some(AfterMemory(op, s.mem)), mem := MemoryAfter(op, s.mem))
  }

  /** An operand with its bypass; the flag says that the value is not produced yet. */
  function ReadSource(s: State, r: Reg, current: Word): (Word, bool) {
    if r == -1 then (current, false)
    else if r == 0 then (0, false)
    else if s.memOp.Some? && s.memOp.value.regDst == r then
      if !s.memOp.value.regDstValueReady then (current, true) else (s.memOp.value.regDstValue, false)
    else if s.wbOp.Some? && s.wbOp.value.regDst == r then (s.wbOp.value.regDstValue, false)
    else (s.regs[r], false)
  }

  function StageExecute(s0: State): State {
    var s := s0.(multiplierStall := if s0.multiplierStall > 0 then s0.multiplierStall - 1 else 0);
    if s.memOp.Some? || s.executeOp.None? then s
    else
      var op := s.executeOp.value;
      var (v1, wait1) := ReadSource(s, op.regSrc1, op.regSrc1Value);
      var (v2, wait2) := ReadSource(s, op.regSrc2, op.regSrc2Value);
      var read := op.(regSrc1Value := v1, regSrc2Value := v2);
      if wait1 || wait2 then s.(executeOp := Some(read))
      else
        var ready := MarkReady(read);
        if UsesHiLo(ready) && s.multiplierStall > 0 then s.(executeOp := Some(ready))
        else PassExecute(s, ready)
  }

  /** The op leaves the execute stage with its result, and HI and LO are written. */
  function LeaveExecute(s: State, op: Op): State {
    s.(hi := HiAfter(op, s.hi), lo := LoAfter(op, s.lo),
       multiplierStall := if MultiplierLatency(op) > 0 then MultiplierLatency(op) else s.multiplierStall,
       executeOp := None, memOp := Some(Execute(op, s.hi, s.lo)))
  }

  function PassExecute(s: State, op: Op): State {
    var done := Execute(op, s.hi, s.lo);
    var passed := LeaveExecute(s, op);
    if done.branchTaken then ScheduleRecovery(passed, 3, done.branchDest) else passed
  }

  lemma PassExecuteForgetsInput(s: State, input: Option<Op>, op: Op)
    ensures PassExecute(s.(executeOp := input), op) == PassExecute(s, op)
  {
    hide Execute, HiAfter, LoAfter, MultiplierLatency;
  }

  function StageDecode(s: State): State {
    if s.executeOp.Some? || s.decodeOp.None? then s
    else s.(decodeOp := None, executeOp := Some(Decode(s.decodeOp.value)))
  }

  function StageFetch(s: State, random: nat): State {
    if s.decodeOp.Some? then s
    else if s.fetchStall > 0 then s.(fetchStall := s.fetchStall - 1)
    else
      var stall := AccessStall(s.icache, s.pc);
      var accessed := s.(icache := Access(s.icache, s.pc, random));
      if stall > 0 then accessed.(fetchStall := stall - 1)
      else accessed.(decodeOp := Some(FetchOp(Read(s.mem, s.pc), s.pc)), pc := Wrap(s.pc + 4))
  }

  function Flush(s: State, stages: nat): State {
    s.(decodeOp := if stages >= 2 then None else s.decodeOp,
       executeOp := if stages >= 3 then None else s.executeOp,
       memOp := if stages >= 4 then None else s.memOp,
       wbOp := if stages >= 5 then None else s.wbOp)
  }

  /** The branch recovery at the end of a cycle. */
  function Recover(s: State): State {
    if !s.branchRecover then s
    else Flush(s, s.branchFlush).(pc := s.branchDest, branchRecover := false, branchDest := 0, branchFlush := 0)
  }

  /** The stages up to execute, and the ones behind it. */
  function BackHalf(s: State, random: nat): State {
    StageExecute(StageMem(StageWb(s), random))
  }

  function FrontHalf(s: State, random: nat): State {
    Recover(StageFetch(StageDecode(s), random))
  }

  /** pipe_cycle: `dataRandom` and `fetchRandom` are what rand() returns to the two caches. */
  function Cycle(s: State, dataRandom: nat, fetchRandom: nat): State {
    FrontHalf(BackHalf(s, dataRandom), fetchRandom)
  }

  /** The pipeline before its first cycle, with machine `m` as architectural state. */
  function Boot(m: Machine, icache: SoundCache, dcache: SoundCache): State {
    State(None, None, None, None, m.regs, m.hi, m.lo, m.pc, false, 0, 0, 0, icache, dcache, 0, 0, m.mem, true, 0)
  }

  /** The values rand() returns to the data and instruction cache, cycle by cycle. */
  datatype Randomness = Randomness(data: nat -> nat, fetch: nat -> nat)

  /** `n` cycles, or fewer when the run bit is cleared first. */
  function Run(s: State, n: nat, r: Randomness): State {
    if n == 0 then s
    else
      var before := Run(s, n - 1, r);
      if before.running then Cycle(before, r.data(n - 1), r.fetch(n - 1)) else before
  }

  lemma BlockAndIndexBits(iBlock: nat, iSet: nat, dBlock: nat, dSet: nat)
    requires Pow2(iBlock) <= 32 < Pow2(iBlock + 1) && Pow2(iSet) <= 64 < Pow2(iSet + 1)
    requires Pow2(dBlock) <= 32 < Pow2(dBlock + 1) && Pow2(dSet) <= 256 < Pow2(dSet + 1)
    ensures Pow2(iBlock) == 32 && Pow2(iSet) == 64 && Pow2(dBlock) == 32 && Pow2(dSet) == 256
  {
    Powers8();
    LogOfPower(iBlock, 5);
    LogOfPower(iSet, 6);
    LogOfPower(dBlock, 5);
    LogOfPower(dSet, 8);
  }

  lemma Powers8()
    ensures Pow2(5) == 32 && Pow2(6) == 64 && Pow2(8) == 256
  {
  }

  /** The pipeline as the program keeps it: op slots, registers and stall counters updated in place. */
  class Pipe {
    var decodeOp: Option<Op>
    var executeOp: Option<Op>
    var memOp: Option<Op>
    var wbOp: Option<Op>
    var regs: RegisterFile
    var hi: Word
    var lo: Word
    var pc: Word
    var branchRecover: bool
    var branchDest: Word
    var branchFlush: nat
    var multiplierStall: nat
    const icache: Cache
    const dcache: Cache
    var fetchStall: nat
    var memStall: nat
    var mem: Memory
    var running: bool
    var retired: nat

    ghost predicate Valid() {
      icache.Valid() && dcache.Valid() && icache.blocks != dcache.blocks
    }

    ghost function Value(): State
      requires Valid()
      reads this, icache.blocks, dcache.blocks
    {
      State(decodeOp, executeOp, memOp, wbOp, regs, hi, lo, pc, branchRecover, branchDest, branchFlush,
        multiplierStall, icache.Value(), dcache.Value(), fetchStall, memStall, mem, running, retired)
    }

    /** pipe_init: everything zero, fetch at the start of the text, caches empty. */
    constructor (policy: Policy, text: Memory)
      ensures Valid() && fresh(icache.blocks) && fresh(dcache.blocks)
      ensures Value() == Boot(Machine(0x0040_0000, seq(32, _ => 0), 0, 0, text), icache.Value(), dcache.Value())
      ensures Sized(icache, policy, 64, 4) && Sized(dcache, policy, 256, 8)
    {
      var i := new Cache(policy, 8 * 1024, 4, 32);
      var d := new Cache(policy, 64 * 1024, 8, 32);
      icache, dcache := i, d;
      decodeOp, executeOp, memOp, wbOp := None, None, None, None;
      regs, hi, lo, pc := seq(32, _ => 0), 0, 0, 0x0040_0000;
      branchRecover, branchDest, branchFlush := false, 0, 0;
      multiplierStall, fetchStall, memStall := 0, 0, 0;
      mem, running, retired := text, true, 0;
      new;
      BlockAndIndexBits(icache.geometry.blockBits, icache.geometry.setBits, dcache.geometry.blockBits, dcache.geometry.setBits);
    }

    /** A cache of so many sets and ways, with blocks of 32 bytes; the sets are indexed by whole bits. */
    static predicate Sized(c: Cache, policy: Policy, sets: nat, ways: nat) {
      && c.geometry.policy == policy && c.blocks.Length0 == sets && c.blocks.Length1 == ways
      && Pow2(c.geometry.blockBits) == 32 && Pow2(c.geometry.setBits) == sets
    }

    method PipeRecover(flush: nat, dest: Word)
      requires Valid()
      modifies this
      ensures Value() == ScheduleRecovery(old(Value()), flush, dest)
    {
      if branchRecover {
        return;
      }
      branchRecover, branchFlush, branchDest := true, flush, dest;
    }

    method PipeStageWb()
      requires Valid()
      modifies this
      ensures Value() == StageWb(old(Value()))
    {
      hide IsExit, Wrap, WriteBack, Cache.Value, WellFormed;
      if wbOp.None? {
        return;
      }
      var op := wbOp.value;
      WriteResult(op);
      if IsExit(op) {
        Halt(op);
      }
    }

    /** Write the result of the op in write back, which then retires. */
    method WriteResult(op: Op)
      requires Valid()
      modifies this`wbOp, this`regs, this`retired
      ensures Value() == old(Value()).(wbOp := None, regs := WriteBack(op, old(regs)), retired := old(retired) + 1)
    {
      hide Cache.Value, WellFormed;
      wbOp, retired := None, retired + 1;
      if op.regDst != -1 && op.regDst != 0 {
        regs := regs[op.regDst := op.regDstValue];
      }
    }

    /** An exit call clears the run bit and leaves the program counter behind the call. */
    method Halt(op: Op)
      requires Valid()
      modifies this`pc, this`running
      ensures Value() == old(Value()).(pc := if fetchStall > 0 then Wrap(op.pc + 4) else op.pc, running := false)
    {
      hide Wrap, Cache.Value, WellFormed;
      pc, running := if fetchStall > 0 then Wrap(op.pc + 4) else op.pc, false;
    }

    method PipeStageMem(random: nat)
      requires Valid()
      modifies this, dcache.blocks
      ensures Value() == StageMem(old(Value()), random)
    {
      hide PassMem, Access, AccessStall, Align;
      if memOp.None? {
        return;
      }
      if memStall > 0 {
        memStall := memStall - 1;
        return;
      }
      var op := memOp.value;
      if op.isMem {
        var stall := dcache.CacheAccess(Align(op.memAddr), random);
        assert icache.Value() == old(icache.Value());
        if stall > 0 {
          memStall := stall - 1;
          return;
        }
      }
      LeaveMemory(op);
    }

    /** The op leaves the memory stage with what it loaded, or what it stores is written. */
    method LeaveMemory(op: Op)
      requires Valid()
      modifies this`memOp, this`wbOp, this`mem
      ensures Value() == PassMem(old(Value()), op)
    {
      hide AfterMemory, MemoryAfter, Cache.Value, WellFormed;
      memOp, wbOp, mem := None, Some(AfterMemory(op, mem)), MemoryAfter(op, mem);
    }

    method PipeStageExecute()
      requires Valid()
      modifies this
      ensures Value() == StageExecute(old(Value()))
    {
      hide Execute, HiAfter, LoAfter, MultiplierLatency, UsesHiLo, MarkReady, ReadSource, PassExecute, Cache.Value, WellFormed;
      if multiplierStall > 0 {
        multiplierStall := multiplierStall - 1;
      }
      if memOp.Some? || executeOp.None? {
        return;
      }
      var op := executeOp.value;
      var v1, wait1 := ReadOperand(op.regSrc1, op.regSrc1Value);
      var v2, wait2 := ReadOperand(op.regSrc2, op.regSrc2Value);
      op := op.(regSrc1Value := v1, regSrc2Value := v2);
      executeOp := Some(op);
      if wait1 || wait2 {
        return;
      }
      op := MarkReady(op);
      executeOp := Some(op);
      if UsesHiLo(op) && multiplierStall > 0 {
        return;
      }
      PassExecuteForgetsInput(Value(), old(executeOp), op);
      ExecuteOperation(op);
    }

    /** Execute an op whose operands are known and pass it to the memory stage. */
    method ExecuteOperation(op: Op)
      requires Valid()
      modifies this
      ensures Value() == PassExecute(old(Value()), op)
    {
      hide Execute, LeaveExecute, Cache.Value, WellFormed;
      var done := Execute(op, hi, lo);
      WriteHiLo(op, done);
      if done.branchTaken {
        PipeRecover(3, done.branchDest);
      }
    }

    method WriteHiLo(op: Op, done: Op)
      requires Valid() && done == Execute(op, hi, lo)
      modifies this`hi, this`lo, this`multiplierStall, this`executeOp, this`memOp
      ensures Value() == LeaveExecute(old(Value()), op)
    {
      hide Execute, HiAfter, LoAfter, MultiplierLatency, Cache.Value, WellFormed;
      hi, lo := HiAfter(op, hi), LoAfter(op, lo);
      if MultiplierLatency(op) > 0 {
        multiplierStall := MultiplierLatency(op);
      }
      HandOver(done);
    }

    method HandOver(done: Op)
      requires Valid()
      modifies this`executeOp, this`memOp
      ensures Value() == old(Value()).(executeOp := None, memOp := Some(done))
    {
      hide Cache.Value, WellFormed;
      executeOp, memOp := None, Some(done);
    }

    /** The register read of the execute stage, with the bypasses from the stages ahead. */
    method ReadOperand(r: Reg, current: Word) returns (value: Word, stall: bool)
      requires Valid()
      ensures (value, stall) == ReadSource(Value(), r, current)
    {
      value, stall := current, false;
      if r != -1 {
        if r == 0 {
          value := 0;
        } else if memOp.Some? && memOp.value.regDst == r {
          if !memOp.value.regDstValueReady {
            stall := true;
          } else {
            value := memOp.value.regDstValue;
          }
        } else if wbOp.Some? && wbOp.value.regDst == r {
          value := wbOp.value.regDstValue;
        } else {
          value := regs[r];
        }
      }
    }

    method PipeStageDecode()
      requires Valid()
      modifies this
      ensures Value() == StageDecode(old(Value()))
    {
      hide Decode;
      if executeOp.Some? || decodeOp.None? {
        return;
      }
      var op := decodeOp.value;
      decodeOp := None;
      executeOp := Some(Decode(op));
    }

    method PipeStageFetch(random: nat)
      requires Valid()
      modifies this, icache.blocks
      ensures Value() == StageFetch(old(Value()), random)
    {
      hide FetchOp, Read, Access, AccessStall, Wrap;
      if decodeOp.Some? {
        return;
      }
      if fetchStall > 0 {
        fetchStall := fetchStall - 1;
        return;
      }
      var stall := icache.CacheAccess(pc, random);
      assert dcache.Value() == old(dcache.Value());
      if stall > 0 {
        fetchStall := stall - 1;
        return;
      }
      LeaveFetch();
    }

    /** The word at the program counter goes to the decode stage. */
    method LeaveFetch()
      requires Valid()
      modifies this`decodeOp, this`pc
      ensures Value() == old(Value()).(decodeOp := Some(FetchOp(Read(mem, old(pc)), old(pc))), pc := Wrap(old(pc) + 4))
    {
      hide FetchOp, Read, Wrap, Cache.Value, WellFormed;
      decodeOp := Some(FetchOp(Read(mem, pc), pc));
      pc := Wrap(pc + 4);
    }

    method PipeCycle(dataRandom: nat, fetchRandom: nat)
      requires Valid()
      modifies this, icache.blocks, dcache.blocks
      ensures Value() == Cycle(old(Value()), dataRandom, fetchRandom)
    {
      hide StageWb, StageMem, StageExecute, StageDecode, StageFetch, Recover, Cache.Value, WellFormed;
      PipeStageWb();
      PipeStageMem(dataRandom);
      PipeStageExecute();
      PipeStageDecode();
      PipeStageFetch(fetchRandom);
      HandleRecovery();
    }

    method HandleRecovery()
      requires Valid()
      modifies this
      ensures Value() == Recover(old(Value()))
    {
      hide Cache.Value, WellFormed, Flush;
      if branchRecover {
        FlushStages(branchFlush);
        Redirect();
      }
    }

    method Redirect()
      requires Valid()
      modifies this`pc, this`branchRecover, this`branchDest, this`branchFlush
      ensures Value() == old(Value()).(pc := old(branchDest), branchRecover := false, branchDest := 0, branchFlush := 0)
    {
      hide Cache.Value, WellFormed;
      pc, branchRecover, branchDest, branchFlush := branchDest, false, 0, 0;
    }

    method FlushStages(flush: nat)
      requires Valid()
      modifies this`decodeOp, this`executeOp, this`memOp, this`wbOp
      ensures Value() == Flush(old(Value()), flush)
    {
      hide Cache.Value, WellFormed;
      if flush >= 2 {
        decodeOp := None;
      }
      if flush >= 3 {
        executeOp := None;
      }
      if flush >= 4 {
        memOp := None;
      }
      if flush >= 5 {
        wbOp := None;
      }
    }

    /** `run n`: cycle until the run bit is cleared or the cycles are used up. */
    method Cycles(n: nat, r: Randomness)
      requires Valid()
      modifies this, icache.blocks, dcache.blocks
      ensures Value() == Run(old(Value()), n, r)
    {
      hide Cycle;
      var i := 0;
      while i < n
        invariant 0 <= i <= n
        invariant Value() == Run(old(Value()), i, r)
      {
        if running {
          PipeCycle(r.data(i), r.fetch(i));
        }
        i := i + 1;
      }
    }
  }
}
