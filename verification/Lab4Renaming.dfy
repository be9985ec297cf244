/**
 * Register renaming of the lab4 out-of-order core: the allocator's operations and the stages of
 * the reorder buffer that use it.  The simulator tracks only when a physical register becomes
 * valid; the model adds the value it would hold, so that dataflow can be stated.
 */
module Renaming {
  import opened Collections

  /** The register allocation tables have one entry for every 8-bit register number. */
  const ARCH_REGISTERS: nat := 256

  datatype Inst = Inst(srcs: seq<nat>, dsts: seq<nat>)

  /** The instruction trace, what each instruction computes per destination slot, and the initial registers. */
  datatype Program = Program(code: seq<Inst>, result: (nat, nat, seq<int>) -> int, initial: nat -> int)

  predicate ArchRegisters(s: seq<nat>) {
    forall i :: 0 <= i < |s| ==> s[i] < ARCH_REGISTERS
  }

  predicate Runnable(p: Program) {
    forall k :: 0 <= k < |p.code| ==> ArchRegisters(p.code[k].srcs) && ArchRegisters(p.code[k].dsts)
  }

  datatype PhysReg = PhysReg(arch: nat, producer: nat, valid: bool, busy: bool)

  /** A table entry is -1 for no mapping, else a physical register. */
  datatype Regs = Regs(frontend: seq<int>, backend: seq<int>, free: seq<nat>, file: seq<PhysReg>, values: seq<int>)

  predicate TableOk(t: seq<int>, n: nat) {
    |t| == ARCH_REGISTERS && forall a :: 0 <= a < |t| ==> -1 <= t[a] < n
  }

  predicate Ids(s: seq<nat>, n: nat) {
    forall i :: 0 <= i < |s| ==> s[i] < n
  }

  /** Physical register numbers also index the tables (isAllocated), hence the bound on the file. */
  predicate WellFormed(r: Regs) {
    && |r.file| == |r.values| <= ARCH_REGISTERS
    && TableOk(r.frontend, |r.file|) && TableOk(r.backend, |r.file|)
    && Ids(r.free, |r.file|)
  }

  function EmptyRegs(n: nat): (r: Regs)
    requires n <= ARCH_REGISTERS
    ensures WellFormed(r)
  {
    Regs(seq(ARCH_REGISTERS, _ => -1), seq(ARCH_REGISTERS, _ => -1), seq(n, i => i),
         seq(n, _ => PhysReg(0, 0, false, false)), seq(n, _ => 0))
  }

  // ---------- The allocator ----------

  function RenameDest(r: Regs, reg: nat, id: nat): (t: Regs)
    requires WellFormed(r) && reg < ARCH_REGISTERS && |r.free| > 0
    ensures WellFormed(t) && |t.file| == |r.file|
  {
    r.(frontend := r.frontend[reg := r.free[0]],
       free := r.free[1..],
       file := r.file[r.free[0] := PhysReg(reg, id, false, true)])
  }

  function RenameDests(r: Regs, regs: seq<nat>, id: nat): (t: Regs)
    requires WellFormed(r) && ArchRegisters(regs) && |regs| <= |r.free|
    ensures WellFormed(t) && |t.file| == |r.file|
    decreases |regs|
  {
    if |regs| == 0 then r else RenameDests(RenameDest(r, regs[0], id), regs[1..], id)
  }

  predicate Allocated(r: Regs, reg: nat)
    requires WellFormed(r) && reg < ARCH_REGISTERS
  {
    r.frontend[reg] != -1
  }

  /** A register never written in the trace is mapped on its first read, with its initial value. */
  function RenameSrc(p: Program, r: Regs, reg: nat): (t: Regs)
    requires WellFormed(r) && reg < ARCH_REGISTERS && (!Allocated(r, reg) ==> |r.free| > 0)
    ensures WellFormed(t) && |t.file| == |r.file| && t.frontend[reg] >= 0
  {
    if Allocated(r, reg) then r
    else
      var phys := r.free[0];
      Regs(r.frontend[reg := phys], r.backend[reg := phys], r.free[1..],
           r.file[phys := PhysReg(reg, 0, true, true)], r.values[phys := p.initial(reg)])
  }

  /** The count_if of the scheduler: repeated registers count repeatedly. */
  function Unallocated(r: Regs, regs: seq<nat>): (n: nat)
    requires WellFormed(r) && ArchRegisters(regs)
    ensures n <= |regs|
  {
    if |regs| == 0 then 0 else (if Allocated(r, regs[0]) then 0 else 1) + Unallocated(r, regs[1..])
  }

  lemma {:induction false} RenamingOnlyAllocates(p: Program, r: Regs, reg: nat, regs: seq<nat>)
    requires WellFormed(r) && reg < ARCH_REGISTERS && ArchRegisters(regs) && (!Allocated(r, reg) ==> |r.free| > 0)
    ensures Unallocated(RenameSrc(p, r, reg), regs) <= Unallocated(r, regs)
    ensures |RenameSrc(p, r, reg).free| == |r.free| - if Allocated(r, reg) then 0 else 1
  {
    if |regs| > 0 {
      RenamingOnlyAllocates(p, r, reg, regs[1..]);
    }
  }

  function RenameSrcs(p: Program, r: Regs, regs: seq<nat>): (t: Regs)
    requires WellFormed(r) && ArchRegisters(regs) && Unallocated(r, regs) <= |r.free|
    ensures WellFormed(t) && |t.file| == |r.file|
    ensures |t.free| >= |r.free| - Unallocated(r, regs)
    ensures forall a :: 0 <= a < ARCH_REGISTERS && Allocated(r, a) ==> t.frontend[a] == r.frontend[a]
    ensures forall i :: 0 <= i < |regs| ==> t.frontend[regs[i]] >= 0
    decreases |regs|
  {
    if |regs| == 0 then r
    else
      RenamingOnlyAllocates(p, r, regs[0], regs[1..]);
      RenameSrcs(p, RenameSrc(p, r, regs[0]), regs[1..])
  }

  function CompleteDest(r: Regs, phys: nat, value: int): (t: Regs)
    requires WellFormed(r) && phys < |r.file|
    ensures WellFormed(t) && |t.file| == |r.file|
  {
    r.(file := r.file[phys := r.file[phys].(valid := true)], values := r.values[phys := value])
  }

  function FreeRegister(r: Regs, phys: nat): (t: Regs)
    requires WellFormed(r) && phys < |r.file|
    ensures WellFormed(t) && |t.file| == |r.file|
  {
    r.(file := r.file[phys := PhysReg(255, 0, false, false)], free := r.free + [phys])
  }

  function RetireDest(r: Regs, phys: nat): (t: Regs)
    requires WellFormed(r) && phys < |r.file| && r.file[phys].arch < ARCH_REGISTERS
    ensures WellFormed(t) && |t.file| == |r.file|
  {
    var arch := r.file[phys].arch;
    var previous := r.backend[arch];
    var u := r.(backend := r.backend[arch := phys]);
    if previous != -1 then FreeRegister(u, previous) else u
  }

  // ---------- The reorder buffer ----------

  /** `sources` and `dests` hold architectural registers until the entry is scheduled, physical ones after. */
  datatype Entry = Entry(
    id: nat, inst: Inst, sources: seq<nat>, dests: seq<nat>, ready: nat,
    scheduled: bool, executed: bool, completed: bool, operands: seq<int>)

  datatype Core = Core(regs: Regs, rob: seq<Entry>, retired: nat, now: nat, warmup: bool)

  predicate EntryOk(r: Regs, e: Entry) {
    && ArchRegisters(e.sources) && ArchRegisters(e.dests)
    && (e.scheduled ==> Ids(e.sources, |r.file|) && Ids(e.dests, |r.file|))
  }

  predicate CoreOk(c: Core) {
    WellFormed(c.regs) && forall j :: 0 <= j < |c.rob| ==> EntryOk(c.regs, c.rob[j])
  }

  predicate EnoughFree(c: Core, j: nat)
    requires CoreOk(c) && j < |c.rob|
  {
    |c.regs.free| >= Unallocated(c.regs, c.rob[j].sources) + |c.rob[j].dests|
  }

  /** The physical registers that a table holds for a list of architectural ones. */
  function Lookup(t: seq<int>, regs: seq<nat>): (phys: seq<nat>)
    requires |t| == ARCH_REGISTERS && ArchRegisters(regs)
    requires forall i :: 0 <= i < |regs| ==> t[regs[i]] >= 0
  {
    seq(|regs|, i requires 0 <= i < |regs| => t[regs[i]])
  }

  function DoScheduling(p: Program, c: Core, j: nat): (t: Core)
    requires CoreOk(c) && j < |c.rob| && EnoughFree(c, j)
    ensures CoreOk(t) && |t.rob| == |c.rob|
  {
    var e := c.rob[j];
    var u := RenameSrcs(p, c.regs, e.sources);
    var v := RenameDests(u, e.dests, e.id);
    var sources := Lookup(u.frontend, e.sources);
    c.(regs := v, rob := c.rob[j := e.(sources := sources, dests := u.free[..|e.dests|], scheduled := true)])
  }

  /** The scan of schedule_instruction from entry `j` on, with `bw` unexecuted entries left to look at. */
  function ScheduleFrom(p: Program, c: Core, j: nat, bw: nat): (t: Core)
    requires CoreOk(c)
    ensures CoreOk(t)
    decreases |c.rob| - j
  {
    if j >= |c.rob| || bw == 0 || !EnoughFree(c, j) then c
    else
      var d := if !c.rob[j].scheduled && c.rob[j].ready <= c.now then DoScheduling(p, c, j) else c;
      ScheduleFrom(p, d, j + 1, if d.rob[j].executed then bw else bw - 1)
  }

  predicate AllValid(r: Regs, sources: seq<nat>)
    requires WellFormed(r) && Ids(sources, |r.file|)
  {
    forall i :: 0 <= i < |sources| ==> r.file[sources[i]].valid
  }

  function Read(r: Regs, sources: seq<nat>): (v: seq<int>)
    requires WellFormed(r) && Ids(sources, |r.file|)
  {
    seq(|sources|, i requires 0 <= i < |sources| => r.values[sources[i]])
  }

  function DoExecution(c: Core, j: nat, latency: nat): (t: Core)
    requires CoreOk(c) && j < |c.rob| && c.rob[j].scheduled
    ensures CoreOk(t) && |t.rob| == |c.rob|
  {
    var e := c.rob[j];
    c.(rob := c.rob[j := e.(executed := true, operands := Read(c.regs, e.sources),
                            ready := c.now + if c.warmup then 0 else latency)])
  }

  predicate CanExecute(c: Core, j: nat)
    requires CoreOk(c) && j < |c.rob|
  {
    c.rob[j].scheduled && !c.rob[j].executed && c.rob[j].ready <= c.now && AllValid(c.regs, c.rob[j].sources)
  }

  function ExecuteFrom(c: Core, j: nat, bw: nat, latency: nat): (t: Core)
    requires CoreOk(c)
    ensures CoreOk(t)
    decreases |c.rob| - j
  {
    if j >= |c.rob| || bw == 0 then c
    else if CanExecute(c, j) then ExecuteFrom(DoExecution(c, j, latency), j + 1, bw - 1, latency)
    else ExecuteFrom(c, j + 1, bw, latency)
  }

  function CompleteDests(p: Program, r: Regs, e: Entry, x: nat): (t: Regs)
    requires WellFormed(r) && Ids(e.dests, |r.file|) && x <= |e.dests|
    ensures WellFormed(t) && |t.file| == |r.file|
    decreases |e.dests| - x
  {
    if x == |e.dests| then r
    else CompleteDests(p, CompleteDest(r, e.dests[x], p.result(e.id, x, e.operands)), e, x + 1)
  }

  function DoCompleteExecution(p: Program, c: Core, j: nat): (t: Core)
    requires CoreOk(c) && j < |c.rob| && c.rob[j].scheduled
    ensures CoreOk(t) && |t.rob| == |c.rob|
  {
    c.(regs := CompleteDests(p, c.regs, c.rob[j], 0), rob := c.rob[j := c.rob[j].(completed := true)])
  }

  /** `memoryDone` holds the instructions whose memory operations have all finished. */
  predicate CanComplete(c: Core, j: nat, memoryDone: set<nat>)
    requires j < |c.rob|
  {
    && c.rob[j].scheduled && c.rob[j].executed && !c.rob[j].completed
    && c.rob[j].ready <= c.now && c.rob[j].id in memoryDone
  }

  function CompleteFrom(p: Program, c: Core, j: nat, bw: nat, memoryDone: set<nat>): (t: Core)
    requires CoreOk(c)
    ensures CoreOk(t)
    decreases |c.rob| - j
  {
    if j >= |c.rob| || bw == 0 then c
    else if CanComplete(c, j, memoryDone) then
      CompleteFrom(p, DoCompleteExecution(p, c, j), j + 1, bw - 1, memoryDone)
    else CompleteFrom(p, c, j + 1, bw, memoryDone)
  }

  /** Every destination that retires names the architectural register it was allocated for. */
  predicate Retirable(r: Regs, dests: seq<nat>) {
    forall x :: 0 <= x < |dests| ==> dests[x] < |r.file| && r.file[dests[x]].arch < ARCH_REGISTERS
  }

  function RetireDests(r: Regs, dests: seq<nat>): (t: Regs)
    requires WellFormed(r) && Retirable(r, dests)
    ensures WellFormed(t) && |t.file| == |r.file|
    decreases |dests|
  {
    if |dests| == 0 then r else RetireDests(RetireDest(r, dests[0]), dests[1..])
  }

  /** One instruction leaves the reorder buffer. */
  function RetireOne(c: Core): (t: Core)
    requires CoreOk(c) && |c.rob| > 0 && Retirable(c.regs, c.rob[0].dests)
    ensures CoreOk(t)
  {
    c.(regs := RetireDests(c.regs, c.rob[0].dests), rob := c.rob[1..], retired := c.retired + 1)
  }

  // ---------- Runs ----------

  datatype Event =
    | Tick(elapsed: nat)
    | EndWarmup
    | Dispatch
    | Schedule(bandwidth: nat)
    | Execute(bandwidth: nat)
    | Complete(bandwidth: nat, memoryDone: set<nat>)
    | Retire

  datatype Setup = Setup(program: Program, robSize: nat, schedulingLatency: nat, execLatency: nat)

  function DispatchNext(s: Setup, c: Core): (t: Core)
    requires CoreOk(c) && Runnable(s.program) && c.retired + |c.rob| < |s.program.code|
    ensures CoreOk(t)
  {
    var id := c.retired + |c.rob|;
    var inst := s.program.code[id];
    var ready := c.now + if c.warmup then 0 else s.schedulingLatency;
    c.(rob := c.rob + [Entry(id, inst, inst.srcs, inst.dsts, ready, false, false, false, [])])
  }

  /** The front of the reorder buffer decides whether something retires; the rest may happen at any time. */
  predicate Enabled(s: Setup, c: Core, e: Event) {
    match e
    case Dispatch => |c.rob| < s.robSize && c.retired + |c.rob| < |s.program.code|
    case Retire => |c.rob| > 0 && c.rob[0].completed && Retirable(c.regs, c.rob[0].dests)
    case _ => true
  }

  function Step(s: Setup, c: Core, e: Event): (t: Core)
    requires CoreOk(c) && Runnable(s.program) && Enabled(s, c, e)
    ensures CoreOk(t)
  {
    match e
    case Tick(elapsed) => c.(now := c.now + elapsed)
    case EndWarmup => c.(warmup := false)
    case Dispatch => DispatchNext(s, c)
    case Schedule(bw) => ScheduleFrom(s.program, c, 0, bw)
    case Execute(bw) => ExecuteFrom(c, 0, bw, s.execLatency)
    case Complete(bw, done) => CompleteFrom(s.program, c, 0, bw, done)
    case Retire => RetireOne(c)
  }

  predicate Possible(s: Setup, c: Core, events: seq<Event>)
    requires CoreOk(c) && Runnable(s.program)
    decreases |events|
  {
    |events| == 0 || (Enabled(s, c, events[0]) && Possible(s, Step(s, c, events[0]), events[1..]))
  }

  function Run(s: Setup, c: Core, events: seq<Event>): (t: Core)
    requires CoreOk(c) && Runnable(s.program) && Possible(s, c, events)
    ensures CoreOk(t)
    decreases |events|
  {
    if |events| == 0 then c else Run(s, Step(s, c, events[0]), events[1..])
  }

  function Start(physical: nat, warmup: bool): (c: Core)
    requires physical <= ARCH_REGISTERS
    ensures CoreOk(c)
  {
    Core(EmptyRegs(physical), [], 0, 0, warmup)
  }
}
