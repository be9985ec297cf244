/** The allocator and the reorder buffer as the simulator updates them, each method tied to its function on values. */
module RenamingCore {
  import opened Collections
  import opened Renaming
  import opened RenamingProof

  class RegisterAllocator {
    const frontendRat: array<int>
    const backendRat: array<int>
    const physicalFile: array<PhysReg>
    const values: array<int>
    var freeRegisters: seq<nat>

    ghost function Footprint(): set<object> {
      {this as object, frontendRat, backendRat, physicalFile, values}
    }

    ghost predicate Valid()
      reads Footprint()
    {
      && frontendRat != backendRat && frontendRat != values && backendRat != values
      && WellFormed(View())
    }

    ghost function View(): Regs
      reads Footprint()
    {
      Regs(frontendRat[..], backendRat[..], freeRegisters, physicalFile[..], values[..])
    }

    constructor (physical: nat)
      requires physical <= ARCH_REGISTERS
      ensures Valid() && fresh(Footprint()) && View() == EmptyRegs(physical)
    {
      frontendRat := new int[ARCH_REGISTERS](_ => -1);
      backendRat := new int[ARCH_REGISTERS](_ => -1);
      physicalFile := new PhysReg[physical](_ => PhysReg(0, 0, false, false));
      values := new int[physical](_ => 0);
      freeRegisters := [];
      new;
      var i := 0;
      while i < physical
        modifies this`freeRegisters
        invariant i <= physical && freeRegisters == seq(i, k => k)
      {
        freeRegisters := freeRegisters + [i];
        i := i + 1;
      }
      assert View() == EmptyRegs(physical);
    }

    method RenameDestRegister(reg: nat, producer: nat) returns (phys: nat)
      requires Valid() && reg < ARCH_REGISTERS && |freeRegisters| > 0
      modifies Footprint()
      ensures Valid() && View() == RenameDest(old(View()), reg, producer) && phys == old(freeRegisters)[0]
    {
      phys := freeRegisters[0];
      freeRegisters := freeRegisters[1..];
      frontendRat[reg] := phys;
      physicalFile[phys] := PhysReg(reg, producer, false, true);
      assert View() == RenameDest(old(View()), reg, producer);
    }

    method RenameSrcRegister(p: Program, reg: nat) returns (phys: nat)
      requires Valid() && reg < ARCH_REGISTERS && (frontendRat[reg] == -1 ==> |freeRegisters| > 0)
      modifies Footprint()
      ensures Valid() && View() == RenameSrc(p, old(View()), reg) && phys == frontendRat[reg]
    {
      if frontendRat[reg] < 0 {
        phys := freeRegisters[0];
        freeRegisters := freeRegisters[1..];
        frontendRat[reg] := phys;
        backendRat[reg] := phys;
        physicalFile[phys] := PhysReg(reg, 0, true, true);
        values[phys] := p.initial(reg);
      } else {
        phys := frontendRat[reg];
      }
      assert View() == RenameSrc(p, old(View()), reg);
    }

    method CompleteDestRegister(phys: nat, value: int)
      requires Valid() && phys < physicalFile.Length
      modifies physicalFile, values
      ensures Valid() && View() == CompleteDest(old(View()), phys, value)
    {
      physicalFile[phys] := physicalFile[phys].(valid := true);
      values[phys] := value;
      assert View() == CompleteDest(old(View()), phys, value);
    }

    method FreeRegister(phys: nat)
      requires Valid() && phys < physicalFile.Length
      modifies this`freeRegisters, physicalFile
      ensures Valid() && View() == Renaming.FreeRegister(old(View()), phys)
    {
      physicalFile[phys] := PhysReg(255, 0, false, false);
      freeRegisters := freeRegisters + [phys];
      assert View() == Renaming.FreeRegister(old(View()), phys);
    }

    method RetireDestRegister(phys: nat)
      requires Valid() && phys < physicalFile.Length && physicalFile[phys].arch < ARCH_REGISTERS
      modifies Footprint()
      ensures Valid() && View() == RetireDest(old(View()), phys)
    {
      var arch := physicalFile[phys].arch;
      var previous := backendRat[arch];
      backendRat[arch] := phys;
      assert View() == old(View()).(backend := old(View()).backend[arch := phys]);
      if previous != -1 {
        FreeRegister(previous);
      }
    }

    /** The scheduler's count of sources that will need a register. */
    method CountUnallocated(regs: seq<nat>) returns (n: nat)
      requires Valid() && ArchRegisters(regs)
      ensures n == Unallocated(View(), regs)
    {
      n := 0;
      var i := |regs|;
      while i > 0
        invariant 0 <= i <= |regs| && n == Unallocated(View(), regs[i..])
      {
        i := i - 1;
        assert regs[i..][0] == regs[i] && regs[i..][1..] == regs[i + 1..];
        if frontendRat[regs[i]] == -1 {
          n := n + 1;
        }
      }
      assert regs[0..] == regs;
    }

    method SourcesValid(sources: seq<nat>) returns (valid: bool)
      requires Valid() && Ids(sources, physicalFile.Length)
      ensures valid == AllValid(View(), sources)
    {
      valid := true;
      var i := 0;
      while i < |sources| && valid
        invariant 0 <= i <= |sources|
        invariant valid == forall k :: 0 <= k < i ==> physicalFile[sources[k]].valid
        invariant !valid ==> !AllValid(View(), sources)
      {
        valid := physicalFile[sources[i]].valid;
        assert !valid ==> !View().file[sources[i]].valid;
        i := i + 1;
      }
    }
  }

  class ReorderBuffer {
    const allocator: RegisterAllocator
    const program: Program
    var rob: seq<Entry>
    var retired: nat
    var now: nat
    var warmup: bool

    ghost function Footprint(): set<object> {
      {this as object} + allocator.Footprint()
    }

    ghost predicate Valid()
      reads Footprint()
    {
      this !in allocator.Footprint() && allocator.Valid() && CoreOk(View()) && Runnable(program)
    }

    ghost function View(): Core
      reads Footprint()
    {
      Core(allocator.View(), rob, retired, now, warmup)
    }

    constructor (p: Program, physical: nat, inWarmup: bool)
      requires physical <= ARCH_REGISTERS && Runnable(p)
      ensures Valid() && fresh(Footprint()) && program == p && View() == Start(physical, inWarmup)
    {
      allocator := new RegisterAllocator(physical);
      program, rob, retired, now, warmup := p, [], 0, 0, inWarmup;
    }

    /** do_scheduling: rename the sources, then the destinations, of entry `j`. */
    method DoScheduling(j: nat)
      requires Valid() && j < |rob| && EnoughFree(View(), j)
      modifies Footprint()
      ensures Valid() && View() == Renaming.DoScheduling(program, old(View()), j)
    {
      hide CoreOk, EntryOk;
      var e := rob[j];
      EntryFits(View(), j);
      var sources := RenameSources(e.sources);
      ghost var u := allocator.View();
      var dests := RenameDestinations(e.dests, e.id);
      rob := rob[j := e.(sources := sources, dests := dests, scheduled := true)];
      assert sources == Lookup(u.frontend, e.sources);
      assert View() == Renaming.DoScheduling(program, old(View()), j);
    }

    method RenameSources(regs: seq<nat>) returns (phys: seq<nat>)
      requires this !in allocator.Footprint() && allocator.Valid() && ArchRegisters(regs)
      requires Unallocated(allocator.View(), regs) <= |allocator.freeRegisters|
      modifies allocator.Footprint()
      ensures allocator.Valid() && allocator.View() == RenameSrcs(program, old(allocator.View()), regs)
      ensures phys == Lookup(allocator.View().frontend, regs)
    {
      hide RenameSrc, RenameSrcs, Unallocated, Translated, Renaming.Ids;
      phys := [];
      var i := 0;
      assert regs[0..] == regs;
      NothingTranslated(allocator.View(), regs);
      while i < |regs|
        invariant 0 <= i <= |regs| && allocator.Valid() && Translated(allocator.View(), regs[..i], phys)
        invariant Unallocated(allocator.View(), regs[i..]) <= |allocator.freeRegisters|
        invariant RenameSrcs(program, allocator.View(), regs[i..]) == RenameSrcs(program, old(allocator.View()), regs)
      {
        ghost var before := allocator.View();
        SourceStep(program, before, regs, i, phys);
        var source := allocator.RenameSrcRegister(program, regs[i]);
        phys := phys + [source];
        i := i + 1;
      }
      AllTranslated(program, allocator.View(), regs, phys);
    }

    method RenameDestinations(regs: seq<nat>, id: nat) returns (phys: seq<nat>)
      requires this !in allocator.Footprint() && allocator.Valid() && ArchRegisters(regs)
      requires |regs| <= |allocator.freeRegisters|
      modifies allocator.Footprint()
      ensures allocator.Valid() && allocator.View() == RenameDests(old(allocator.View()), regs, id)
      ensures phys == old(allocator.freeRegisters)[..|regs|]
    {
      hide RenameDest;
      phys := [];
      var i := 0;
      assert regs[0..] == regs;
      while i < |regs|
        invariant 0 <= i == |phys| <= |regs| && allocator.Valid()
        invariant allocator.freeRegisters == old(allocator.freeRegisters)[i..]
        invariant phys == old(allocator.freeRegisters)[..i]
        invariant RenameDests(allocator.View(), regs[i..], id) == RenameDests(old(allocator.View()), regs, id)
      {
        assert regs[i..][1..] == regs[i + 1..];
        DestTakesFirst(allocator.View(), regs[i], id);
        var dest := allocator.RenameDestRegister(regs[i], id);
        phys := phys + [dest];
        i := i + 1;
      }
    }

    /** schedule_instruction with the scheduler's search bandwidth. */
    method ScheduleInstruction(bandwidth: nat)
      requires Valid()
      modifies Footprint()
      ensures Valid() && View() == ScheduleFrom(program, old(View()), 0, bandwidth)
    {
      hide CoreOk, EntryOk, Renaming.DoScheduling;
      var bw, j := bandwidth, 0;
      while j < |rob| && bw > 0
        invariant Valid()
        invariant ScheduleFrom(program, View(), j, bw) == ScheduleFrom(program, old(View()), 0, bandwidth)
        decreases |rob| - j
      {
        EntryFits(View(), j);
        var needed := allocator.CountUnallocated(rob[j].sources);
        if |allocator.freeRegisters| < needed + |rob[j].dests| {
          break;
        }
        if !rob[j].scheduled && rob[j].ready <= now {
          DoScheduling(j);
        }
        if !rob[j].executed {
          bw := bw - 1;
        }
        j := j + 1;
      }
    }

    /** execute_instruction: the reads happen when the instruction issues. */
    method ExecuteInstruction(bandwidth: nat, latency: nat)
      requires Valid()
      modifies Footprint()
      ensures Valid() && View() == ExecuteFrom(old(View()), 0, bandwidth, latency)
    {
      hide CoreOk, EntryOk;
      var bw, j := bandwidth, 0;
      while j < |rob| && bw > 0
        invariant Valid()
        invariant ExecuteFrom(View(), j, bw, latency) == ExecuteFrom(old(View()), 0, bandwidth, latency)
        decreases |rob| - j
      {
        EntryFits(View(), j);
        var e := rob[j];
        if e.scheduled && !e.executed && e.ready <= now {
          var ready := allocator.SourcesValid(e.sources);
          if ready {
            ghost var before := View();
            var operands := seq(|e.sources|, x requires 0 <= x < |e.sources| && e.sources[x] < allocator.values.Length
              reads allocator.values => allocator.values[e.sources[x]]);
            assert operands == Read(allocator.View(), e.sources);
            rob := rob[j := e.(executed := true, operands := operands, ready := now + if warmup then 0 else latency)];
            assert View() == DoExecution(before, j, latency);
            bw := bw - 1;
          }
        }
        j := j + 1;
      }
    }

    /** complete_inflight_instruction; `memoryDone` names the instructions whose memory operations are done. */
    method CompleteInflightInstruction(bandwidth: nat, memoryDone: set<nat>)
      requires Valid()
      modifies Footprint()
      ensures Valid() && View() == CompleteFrom(program, old(View()), 0, bandwidth, memoryDone)
    {
      hide CoreOk, EntryOk, Renaming.DoCompleteExecution;
      var bw, j := bandwidth, 0;
      while j < |rob| && bw > 0
        invariant Valid()
        invariant CompleteFrom(program, View(), j, bw, memoryDone)
                  == CompleteFrom(program, old(View()), 0, bandwidth, memoryDone)
        decreases |rob| - j
      {
        EntryFits(View(), j);
        if rob[j].scheduled && rob[j].executed && !rob[j].completed && rob[j].ready <= now && rob[j].id in memoryDone {
          DoCompleteExecution(j);
          bw := bw - 1;
        }
        j := j + 1;
      }
    }

    method DoCompleteExecution(j: nat)
      requires Valid() && j < |rob| && rob[j].scheduled
      modifies Footprint()
      ensures Valid() && View() == Renaming.DoCompleteExecution(program, old(View()), j)
    {
      hide CoreOk, EntryOk;
      EntryFits(View(), j);
      var e := rob[j];
      CompleteDestinations(e);
      rob := rob[j := e.(completed := true)];
      assert View() == Renaming.DoCompleteExecution(program, old(View()), j);
    }

    method CompleteDestinations(e: Entry)
      requires this !in allocator.Footprint() && allocator.Valid() && Ids(e.dests, allocator.physicalFile.Length)
      modifies allocator.Footprint()
      ensures allocator.Valid() && allocator.View() == CompleteDests(program, old(allocator.View()), e, 0)
    {
      hide CompleteDest;
      var x := 0;
      while x < |e.dests|
        invariant 0 <= x <= |e.dests| && allocator.Valid()
        invariant CompleteDests(program, allocator.View(), e, x) == CompleteDests(program, old(allocator.View()), e, 0)
      {
        allocator.CompleteDestRegister(e.dests[x], program.result(e.id, x, e.operands));
        x := x + 1;
      }
    }

    method RetireDestinations(dests: seq<nat>)
      requires this !in allocator.Footprint() && allocator.Valid() && Retirable(allocator.View(), dests)
      modifies allocator.Footprint()
      ensures allocator.Valid() && allocator.View() == RetireDests(old(allocator.View()), dests)
    {
      var x := 0;
      assert dests[0..] == dests;
      while x < |dests|
        invariant 0 <= x <= |dests| && allocator.Valid() && Retirable(allocator.View(), dests[x..])
        invariant RetireDests(allocator.View(), dests[x..]) == RetireDests(old(allocator.View()), dests)
      {
        assert dests[x..][1..] == dests[x + 1..];
        assert dests[x..][0] == dests[x];
        allocator.RetireDestRegister(dests[x]);
        x := x + 1;
      }
    }

    /** The instruction at the front of the reorder buffer retires. */
    method RetireFront(u: Setup, ghost s: nat)
      requires Valid() && u.program == program && Inv(program, u.schedulingLatency, View(), s)
      requires |rob| > 0 && rob[0].completed
      modifies Footprint()
      ensures Valid() && retired == old(retired) + 1 && s > 0
      ensures CoreOk(old(View())) && Retirable(old(View()).regs, old(rob)[0].dests) && View() == RetireOne(old(View()))
      ensures Inv(program, u.schedulingLatency, View(), s - 1)
    {
      hide Inv;
      CompletedIsRetirable(program, u.schedulingLatency, View(), s);
      RetireKeeps(program, u.schedulingLatency, View(), s);
      RetireDestinations(rob[0].dests);
      rob := rob[1..];
      retired := retired + 1;
      assert View() == RetireOne(old(View()));
    }

    /** retire_rob: the completed prefix of the reorder buffer, up to the retire width, retires in order. */
    method RetireRob(u: Setup, ghost s: nat, width: nat) returns (n: nat)
      requires Valid() && u.program == program && Inv(program, u.schedulingLatency, View(), s)
      modifies Footprint()
      ensures Valid() && n <= width && (n < width && |rob| > 0 ==> !rob[0].completed)
      ensures retired == old(retired) + n
      ensures Possible(u, old(View()), Retirements(n)) && View() == Run(u, old(View()), Retirements(n))
    {
      hide Inv, Step, Possible, Run;
      n := 0;
      ghost var t := s;
      NothingHappens(u, View());
      while n < width && |rob| > 0 && rob[0].completed
        invariant Valid() && n <= width && Inv(program, u.schedulingLatency, View(), t)
        invariant retired == old(retired) + n
        invariant Possible(u, old(View()), Retirements(n)) && View() == Run(u, old(View()), Retirements(n))
      {
        ghost var before := View();
        RetireFront(u, t);
        RetireStep(u, before);
        OneMoreEvent(u, old(View()), Retirements(n), Retire);
        assert Retirements(n) + [Retire] == Retirements(n + 1);
        n := n + 1;
        t := t - 1;
      }
    }

    /** The reorder-buffer part of dispatch_instruction for one instruction. */
    method DispatchInstruction(u: Setup)
      requires Valid() && u.program == program && Enabled(u, View(), Dispatch)
      modifies this
      ensures Valid() && View() == Step(u, old(View()), Dispatch)
    {
      hide CoreOk;
      var id := retired + |rob|;
      var inst := program.code[id];
      var ready := now + if warmup then 0 else u.schedulingLatency;
      rob := rob + [Entry(id, inst, inst.srcs, inst.dsts, ready, false, false, false, [])];
      assert View() == Step(u, old(View()), Dispatch);
    }
  }

  function Retirements(n: nat): seq<Event> {
    seq(n, _ => Retire)
  }

  lemma EntryFits(c: Core, j: nat)
    requires CoreOk(c) && j < |c.rob|
    ensures WellFormed(c.regs) && EntryOk(c.regs, c.rob[j])
    ensures ArchRegisters(c.rob[j].sources) && ArchRegisters(c.rob[j].dests)
    ensures c.rob[j].scheduled ==> Ids(c.rob[j].sources, |c.regs.file|) && Ids(c.rob[j].dests, |c.regs.file|)
  {
  }

  lemma UnallocatedHead(r: Regs, regs: seq<nat>)
    requires WellFormed(r) && ArchRegisters(regs) && |regs| > 0
    ensures Unallocated(r, regs) == (if Allocated(r, regs[0]) then 0 else 1) + Unallocated(r, regs[1..])
  {
  }

  /** `phys` holds the mappings of the registers. */
  ghost predicate Translated(r: Regs, regs: seq<nat>, phys: seq<nat>)
    requires WellFormed(r) && ArchRegisters(regs)
  {
    |phys| == |regs| && forall k :: 0 <= k < |regs| ==> phys[k] == r.frontend[regs[k]]
  }

  lemma NothingTranslated(r: Regs, regs: seq<nat>)
    requires WellFormed(r)
    ensures Translated(r, regs[..0], [])
  {
  }

  lemma AllTranslated(p: Program, r: Regs, regs: seq<nat>, phys: seq<nat>)
    requires WellFormed(r) && ArchRegisters(regs) && Translated(r, regs[..|regs|], phys)
    ensures forall i :: 0 <= i < |regs| ==> r.frontend[regs[i]] >= 0
    ensures phys == Lookup(r.frontend, regs)
    ensures Unallocated(r, regs[|regs|..]) == 0 && RenameSrcs(p, r, regs[|regs|..]) == r
  {
    assert regs[..|regs|] == regs;
  }

  /** A mapping that exists is not changed by the renaming of a source. */
  lemma SourceStays(p: Program, r: Regs, reg: nat)
    requires WellFormed(r) && reg < ARCH_REGISTERS && (!Allocated(r, reg) ==> |r.free| > 0)
    ensures forall a :: 0 <= a < ARCH_REGISTERS && Allocated(r, a) ==>
              RenameSrc(p, r, reg).frontend[a] == r.frontend[a]
  {
  }

  /** One round of the loop over the sources. */
  lemma SourceStep(p: Program, r: Regs, regs: seq<nat>, i: nat, phys: seq<nat>)
    requires WellFormed(r) && ArchRegisters(regs) && i < |regs|
    requires Translated(r, regs[..i], phys) && Unallocated(r, regs[i..]) <= |r.free|
    ensures !Allocated(r, regs[i]) ==> |r.free| > 0
    ensures var t := RenameSrc(p, r, regs[i]);
      && Unallocated(t, regs[i + 1..]) <= |t.free|
      && RenameSrcs(p, t, regs[i + 1..]) == RenameSrcs(p, r, regs[i..])
      && t.frontend[regs[i]] >= 0 && Translated(t, regs[..i + 1], phys + [t.frontend[regs[i]]])
  {
    hide RenameSrc, Unallocated, Renaming.Ids;
    assert regs[i..][0] == regs[i] && regs[i..][1..] == regs[i + 1..];
    UnallocatedHead(r, regs[i..]);
    RenamingOnlyAllocates(p, r, regs[i], regs[i + 1..]);
    SourceStays(p, r, regs[i]);
    forall k | 0 <= k < i ensures phys[k] == r.frontend[regs[k]] {
      assert regs[..i][k] == regs[k];
    }
    assert forall k :: 0 <= k < i ==> regs[..i + 1][k] == regs[k];
  }

  lemma DestTakesFirst(r: Regs, reg: nat, id: nat)
    requires WellFormed(r) && reg < ARCH_REGISTERS && |r.free| > 0
    ensures RenameDest(r, reg, id).free == r.free[1..]
  {
  }

  lemma RetireStep(u: Setup, c: Core)
    requires CoreOk(c) && Runnable(u.program) && Enabled(u, c, Retire)
    ensures Step(u, c, Retire) == RetireOne(c)
  {
  }

  lemma NothingHappens(u: Setup, c: Core)
    requires CoreOk(c) && Runnable(u.program)
    ensures Possible(u, c, Retirements(0)) && Run(u, c, Retirements(0)) == c
  {
  }

  lemma {:induction false} OneMoreEvent(u: Setup, c: Core, events: seq<Event>, e: Event)
    requires CoreOk(c) && Runnable(u.program) && Possible(u, c, events) && Enabled(u, Run(u, c, events), e)
    ensures Possible(u, c, events + [e]) && Run(u, c, events + [e]) == Step(u, Run(u, c, events), e)
    decreases |events|
  {
    hide Step, Enabled;
    if |events| > 0 {
      OneMoreEvent(u, Step(u, c, events[0]), events[1..], e);
      assert (events + [e])[1..] == events[1..] + [e];
    } else {
      assert events + [e] == [e];
      assert Possible(u, Step(u, c, e), []);
      assert [e][1..] == [];
    }
  }
}
