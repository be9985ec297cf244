/**
 * The MIPS subset of lab1: one pipeline op as it is filled in stage by stage, and the
 * functions that decode it, execute it, access memory for it and write its result back.
 * Words are naturals below 2^32; arithmetic wraps explicitly.
 */
module Words {
  import opened Powers
  import Bits

  const WORDS: nat := 0x1_0000_0000

  type Word = w: int | 0 <= w < 0x1_0000_0000

  function Wrap(x: int): Word {
    x % WORDS
  }

  function Signed(w: Word): int {
    if w < 0x8000_0000 then w else w - WORDS
  }

  /** The `width` bits of `w` starting at bit `low`. */
  function Field(w: Word, low: nat, width: nat): nat {
    LowBits(Shr(w, low), width)
  }

  function SignExtend(x: nat, width: nat): Word
    requires width >= 1
  {
    Wrap(if LowBits(x, width) < Pow2(width - 1) then LowBits(x, width) else LowBits(x, width) - Pow2(width))
  }

  lemma WordBits()
    ensures Pow2(32) == WORDS
  {
    assert Pow2(8) == 0x100;
    Pow2Add(8, 8);
    Pow2Add(16, 16);
  }

  function And(a: Word, b: Word): Word {
    Bits.And(a, b)
  }

  function Or(a: Word, b: Word): Word {
    WordBits();
    Bits.OrBelow(a, b, 32);
    Bits.Or(a, b)
  }

  function Xor(a: Word, b: Word): Word {
    WordBits();
    Bits.XorBelow(a, b, 32);
    Bits.Xor(a, b)
  }

  function Not(a: Word): Word {
    0xFFFF_FFFF - a
  }

  /** Shift amounts of 32 and more are undefined in C; the low five bits are used, as on x86. */
  function ShiftLeft(w: Word, amount: nat): Word {
    Wrap(w * Pow2(amount % 32))
  }

  function ShiftRight(w: Word, amount: nat): Word {
    Wrap(Shr(w, amount % 32))
  }

  function ShiftRightArithmetic(w: Word, amount: nat): Word {
    if Signed(w) < 0 then Not(Shr(Not(w), amount % 32)) else Shr(w, amount % 32)
  }

  /** C division truncates toward zero. */
  function Quotient(a: int, b: int): int
    requires b != 0
  {
    if (a < 0) == (b < 0) then Magnitude(a) / Magnitude(b) else -(Magnitude(a) / Magnitude(b))
  }

  function Remainder(a: int, b: int): int
    requires b != 0
  {
    a - b * Quotient(a, b)
  }

  function Magnitude(a: int): nat {
    if a < 0 then -a else a
  }
}

/** Instruction semantics, one function per pipeline stage's work on an op. */
module MipsIsa {
  import opened Powers
  import opened Words

  /** A register number, or -1 for none. */
  type Reg = r: int | -1 <= r < 32 witness -1

  type RegisterFile = s: seq<Word> | |s| == 32 witness seq(32, _ => 0)

  /** Words of the mapped regions at word-aligned addresses; a missing entry reads as zero. */
  type Memory = map<Word, Word>

  const OP_SPECIAL: nat := 0x00
  const OP_BRSPEC: nat := 0x01
  const SUBOP_SYSCALL: nat := 0x0c
  const SUBOP_JR: nat := 0x08
  const SUBOP_JALR: nat := 0x09
  const BROP_BLTZAL: nat := 0x10
  const BROP_BGEZAL: nat := 0x11
  const EXIT_CODE: nat := 0xA

  datatype Op = Op(
    pc: Word, instruction: Word, opcode: nat, subop: nat,
    imm16: Word, seImm16: Word, shamt: nat,
    regSrc1: Reg, regSrc2: Reg, regSrc1Value: Word, regSrc2Value: Word,
    isMem: bool, memAddr: Word, memWrite: bool, memValue: Word,
    regDst: Reg, regDstValue: Word, regDstValueReady: bool,
    isBranch: bool, branchDest: Word, branchCond: bool, branchTaken: bool)

  // ---------- Memory ----------

  predicate InRegion(address: Word, start: Word) {
    start <= address < start + 0x0010_0000
  }

  predicate Mapped(address: Word) {
    || InRegion(address, 0x0040_0000)
    || InRegion(address, 0x1000_0000)
    || InRegion(address, 0x7ff0_0000)
    || InRegion(address, 0x9000_0000)
    || InRegion(address, 0x8000_0000)
  }

  function Align(address: Word): (a: Word)
    ensures a % 4 == 0 && a <= address
  {
    address - address % 4
  }

  /** mem_read_32: unmapped addresses read as zero. */
  function Read(mem: Memory, address: Word): Word {
    if Mapped(address) && address in mem then mem[address] else 0
  }

  /** mem_write_32: writes to unmapped addresses are dropped. */
  function Write(mem: Memory, address: Word, value: Word): Memory {
    if Mapped(address) then mem[address := value] else mem
  }

  // ---------- Fetch and decode ----------

  function FetchOp(instruction: Word, pc: Word): Op {
    Op(pc, instruction, 0, 0, 0, 0, 0, -1, -1, 0, 0, false, 0, false, 0, -1, 0, false, false, 0, false, false)
  }

  function DecodeCommon(op: Op): (r: Op)
    ensures r.pc == op.pc
  {
    op.(opcode := Field(op.instruction, 26, 6),
        imm16 := Field(op.instruction, 0, 16) % WORDS,
        seImm16 := SignExtend(Field(op.instruction, 0, 16), 16),
        shamt := Field(op.instruction, 6, 5))
  }

  function BranchTarget(op: Op): Word {
    Wrap(op.pc + 4 + 4 * op.seImm16)
  }

  function JumpTarget(op: Op): Word {
    Wrap(op.pc - op.pc % 0x1000_0000 + 4 * Field(op.instruction, 0, 26))
  }

  function RegField(op: Op, low: nat): Reg {
    Field(op.instruction, low, 5) % 32
  }

  function Rs(op: Op): Reg {
    RegField(op, 21)
  }

  function Rt(op: Op): Reg {
    RegField(op, 16)
  }

  function Rd(op: Op): Reg {
    RegField(op, 11)
  }

  function DecodeSpecial(op: Op): (r: Op)
    ensures r.pc == op.pc
  {
    var funct := Field(op.instruction, 0, 6);
    var special := op.(regSrc1 := Rs(op), regSrc2 := Rt(op), regDst := Rd(op), subop := funct);
    if funct == SUBOP_SYSCALL then special.(regSrc1 := 2, regSrc2 := 3)
    else if funct == SUBOP_JR || funct == SUBOP_JALR then special.(isBranch := true, branchCond := false)
    else special
  }

  function DecodeBranchSpecial(op: Op): (r: Op)
    ensures r.pc == op.pc
  {
    var branch := op.(isBranch := true, regSrc1 := Rs(op), regSrc2 := Rt(op), branchCond := true,
                      branchDest := BranchTarget(op), subop := Field(op.instruction, 16, 5));
    if branch.subop == BROP_BLTZAL || branch.subop == BROP_BGEZAL
    then branch.(regDst := 31, regDstValue := Wrap(op.pc + 4), regDstValueReady := true)
    else branch
  }

  function DecodeJump(op: Op): (r: Op)
    ensures r.pc == op.pc
  {
    op.(isBranch := true, branchCond := false, branchTaken := true, branchDest := JumpTarget(op))
  }

  function DecodeJumpAndLink(op: Op): (r: Op)
    ensures r.pc == op.pc
  {
    DecodeJump(op.(regDst := 31, regDstValue := Wrap(op.pc + 4), regDstValueReady := true))
  }

  /** The field set-up of the decode stage. */
  function Decode(raw: Op): (op: Op)
    ensures op.pc == raw.pc
  {
    var op := DecodeCommon(raw);
    if op.opcode == OP_SPECIAL then DecodeSpecial(op)
    else if op.opcode == OP_BRSPEC then DecodeBranchSpecial(op)
    else if op.opcode == 0x03 then DecodeJumpAndLink(op)
    else if op.opcode == 0x02 then DecodeJump(op)
    else if 0x04 <= op.opcode <= 0x07 then
      op.(isBranch := true, branchCond := true, branchDest := BranchTarget(op), regSrc1 := Rs(op), regSrc2 := Rt(op))
    else if 0x08 <= op.opcode <= 0x0f then
      op.(regSrc1 := Rs(op), regDst := Rt(op))
    else if IsLoad(op.opcode) then
      op.(isMem := true, regSrc1 := Rs(op), memWrite := false, regDst := Rt(op))
    else if IsStore(op.opcode) then
      op.(isMem := true, regSrc1 := Rs(op), memWrite := true, regSrc2 := Rt(op))
    else op
  }

  predicate IsLoad(opcode: nat) {
    opcode == 0x20 || opcode == 0x21 || opcode == 0x23 || opcode == 0x24 || opcode == 0x25
  }

  predicate IsStore(opcode: nat) {
    opcode == 0x28 || opcode == 0x29 || opcode == 0x2b
  }

  // ---------- Execute ----------

  /** MFHI, MTHI, MFLO and MTLO wait until a running multiply or divide is done. */
  predicate UsesHiLo(op: Op) {
    op.opcode == OP_SPECIAL && 0x10 <= op.subop <= 0x13
  }

  function Product(op: Op): int {
    if op.subop == 0x18 then Signed(op.regSrc1Value) * Signed(op.regSrc2Value)
    else op.regSrc1Value * op.regSrc2Value
  }

  /** HI after the op: multiplies, divides and MTHI write it. */
  function HiAfter(op: Op, hi: Word): Word {
    if op.opcode != OP_SPECIAL then hi
    else match op.subop
      case 0x18 => Wrap(Product(op) / WORDS)
      case 0x19 => Wrap(Product(op) / WORDS)
      case 0x1a =>
        if op.regSrc2Value == 0 then 0
        else Wrap(Remainder(Signed(op.regSrc1Value), Signed(op.regSrc2Value)))
      case 0x1b => if op.regSrc2Value == 0 then 0 else op.regSrc1Value % op.regSrc2Value
      case 0x11 => op.regSrc1Value
      case _ => hi
  }

  function LoAfter(op: Op, lo: Word): Word {
    if op.opcode != OP_SPECIAL then lo
    else match op.subop
      case 0x18 => Wrap(Product(op))
      case 0x19 => Wrap(Product(op))
      case 0x1a =>
        if op.regSrc2Value == 0 then 0
        else Wrap(Quotient(Signed(op.regSrc1Value), Signed(op.regSrc2Value)))
      case 0x1b => if op.regSrc2Value == 0 then 0 else Wrap(op.regSrc1Value / op.regSrc2Value)
      case 0x13 => op.regSrc1Value
      case _ => lo
  }

  /** Cycles until HI and LO may be read: 4 after a multiply, 32 after a divide, none otherwise. */
  function MultiplierLatency(op: Op): (latency: nat)
    ensures latency == 0 || latency == 4 || latency == 32
  {
    if op.opcode != OP_SPECIAL then 0
    else if op.subop == 0x18 || op.subop == 0x19 then 4
    else if op.subop == 0x1a || op.subop == 0x1b then 32
    else 0
  }

  function SpecialResult(op: Op, hi: Word, lo: Word): Word {
    var a, b := op.regSrc1Value, op.regSrc2Value;
    match op.subop
    case 0x00 => ShiftLeft(b, op.shamt)
    case 0x04 => ShiftLeft(b, a)
    case 0x02 => ShiftRight(b, op.shamt)
    case 0x06 => ShiftRight(b, a)
    case 0x03 => ShiftRightArithmetic(b, op.shamt)
    case 0x07 => ShiftRightArithmetic(b, a)
    case 0x08 => Wrap(op.pc + 4)
    case 0x09 => Wrap(op.pc + 4)
    case 0x10 => hi
    case 0x12 => lo
    case 0x20 => Wrap(a + b)
    case 0x21 => Wrap(a + b)
    case 0x22 => Wrap(a - b)
    case 0x23 => Wrap(a - b)
    case 0x24 => And(a, b)
    case 0x25 => Or(a, b)
    case 0x26 => Xor(a, b)
    case 0x27 => Not(Or(a, b))
    case 0x2a => if Signed(a) < Signed(b) then 1 else 0
    case 0x2b => if a < b then 1 else 0
    case _ => op.regDstValue
  }

  function ImmediateResult(op: Op): Word {
    var a := op.regSrc1Value;
    match op.opcode
    case 0x08 => Wrap(a + op.seImm16)
    case 0x09 => Wrap(a + op.seImm16)
    case 0x0a => if Signed(a) < Signed(op.seImm16) then 1 else 0
    case 0x0b => if a < op.seImm16 then 1 else 0
    case 0x0c => And(a, op.imm16)
    case 0x0d => Or(a, op.imm16)
    case 0x0e => Xor(a, op.imm16)
    case 0x0f => Wrap(op.imm16 * 0x1_0000)
    case _ => op.regDstValue
  }

  predicate ConditionHolds(op: Op) {
    var a, b := op.regSrc1Value, op.regSrc2Value;
    match op.opcode
    case 0x01 =>
      if op.subop == 0x00 || op.subop == BROP_BLTZAL then Signed(a) < 0
      else if op.subop == 0x01 || op.subop == BROP_BGEZAL then Signed(a) >= 0
      else false
    case 0x04 => a == b
    case 0x05 => a != b
    case 0x06 => Signed(a) <= 0
    case 0x07 => Signed(a) > 0
    case _ => false
  }

  /** R-type ops are marked ready before anything else is known about them. */
  function MarkReady(op: Op): Op {
    if op.opcode == OP_SPECIAL then op.(regDstValueReady := true) else op
  }

  /** The op as it leaves the execute stage, its operands having been read. */
  function Execute(op: Op, hi: Word, lo: Word): Op {
    if op.opcode == OP_SPECIAL then
      var done := op.(regDstValue := SpecialResult(op, hi, lo));
      if op.subop == SUBOP_JR || op.subop == SUBOP_JALR
      then done.(branchDest := op.regSrc1Value, branchTaken := true)
      else done
    else if op.opcode == OP_BRSPEC || 0x04 <= op.opcode <= 0x07 then
      if ConditionHolds(op) then op.(branchTaken := true) else op
    else if 0x08 <= op.opcode <= 0x0f then
      op.(regDstValueReady := true, regDstValue := ImmediateResult(op))
    else if IsLoad(op.opcode) then
      op.(memAddr := Wrap(op.regSrc1Value + op.seImm16))
    else if IsStore(op.opcode) then
      op.(memAddr := Wrap(op.regSrc1Value + op.seImm16), memValue := op.regSrc2Value)
    else op
  }

  // ---------- Memory access and write back ----------

  function HalfWord(word: Word, address: Word): nat {
    if (address / 2) % 2 == 1 then word / 0x1_0000 else word % 0x1_0000
  }

  function ByteOf(word: Word, address: Word): nat {
    Shr(word, 8 * (address % 4)) % 0x100
  }

  function LoadResult(op: Op, word: Word): Word {
    match op.opcode
    case 0x23 => word
    case 0x21 => SignExtend(HalfWord(word, op.memAddr), 16)
    case 0x25 => Wrap(HalfWord(word, op.memAddr))
    case 0x20 => SignExtend(ByteOf(word, op.memAddr), 8)
    case _ => Wrap(ByteOf(word, op.memAddr))
  }

  /** The word stored by SB, SH or SW over the old word. */
  function StoreResult(op: Op, word: Word): Word {
    match op.opcode
    case 0x28 =>
      var scale := Pow2(8 * (op.memAddr % 4));
      Wrap(word - ByteOf(word, op.memAddr) * scale + (op.memValue % 0x100) * scale)
    case 0x29 =>
      if (op.memAddr / 2) % 2 == 1 then Wrap(word % 0x1_0000 + op.memValue * 0x1_0000)
      else Wrap(word - word % 0x1_0000 + op.memValue % 0x1_0000)
    case _ => op.memValue
  }

  function AfterMemory(op: Op, mem: Memory): Op {
    if IsLoad(op.opcode) then
      op.(regDstValueReady := true, regDstValue := LoadResult(op, MemoryWord(op, mem)))
    else op
  }

  function MemoryWord(op: Op, mem: Memory): Word {
    if op.isMem then Read(mem, Align(op.memAddr)) else 0
  }

  function MemoryAfter(op: Op, mem: Memory): Memory {
    if IsStore(op.opcode) then Write(mem, Align(op.memAddr), StoreResult(op, MemoryWord(op, mem))) else mem
  }

  function WriteBack(op: Op, regs: RegisterFile): RegisterFile {
    if op.regDst != -1 && op.regDst != 0 then regs[op.regDst := op.regDstValue] else regs
  }

  predicate IsExit(op: Op) {
    op.opcode == OP_SPECIAL && op.subop == SUBOP_SYSCALL && op.regSrc1Value == EXIT_CODE
  }

  // ---------- One instruction at a time ----------

  datatype Machine = Machine(pc: Word, regs: RegisterFile, hi: Word, lo: Word, mem: Memory)

  function Operand(regs: RegisterFile, r: Reg): Word {
    if r == 0 || r == -1 then 0 else regs[r]
  }

  function DecodedOp(m: Machine): Op {
    Decode(FetchOp(Read(m.mem, m.pc), m.pc))
  }

  function WithOperands(op: Op, regs: RegisterFile): Op {
    op.(regSrc1Value := if op.regSrc1 == -1 then op.regSrc1Value else Operand(regs, op.regSrc1),
        regSrc2Value := if op.regSrc2 == -1 then op.regSrc2Value else Operand(regs, op.regSrc2))
  }

  function OperandsOp(m: Machine): Op {
    MarkReady(WithOperands(DecodedOp(m), m.regs))
  }

  function ExecutedOp(m: Machine): Op {
    Execute(OperandsOp(m), m.hi, m.lo)
  }

  function FinishedOp(m: Machine): Op {
    AfterMemory(ExecutedOp(m), m.mem)
  }

  /** The sequential machine: fetch, decode, read, execute, access memory and write back at once. */
  function Step(m: Machine): Machine {
    Machine(
      if ExecutedOp(m).branchTaken then ExecutedOp(m).branchDest else Wrap(m.pc + 4),
      WriteBack(FinishedOp(m), m.regs),
      HiAfter(OperandsOp(m), m.hi),
      LoAfter(OperandsOp(m), m.lo),
      MemoryAfter(ExecutedOp(m), m.mem))
  }

  function Steps(m: Machine, n: nat): Machine {
    if n == 0 then m else Step(Steps(m, n - 1))
  }
}
