/**
 * What one sequential instruction does to registers, memory and program counter, from the bits of
 * the instruction word alone.
 */
module SequentialSteps {
  import opened Powers
  import opened Words
  import opened MipsIsa
  import Bits
  import Facts = MipsIsaFacts

  // ---------- The fields of an instruction word ----------

  function OpcodeOf(w: Word): nat {
    w / 0x400_0000
  }

  function RsOf(w: Word): (r: nat)
    ensures r < 32
  {
    w / 0x20_0000 % 32
  }

  function RtOf(w: Word): (r: nat)
    ensures r < 32
  {
    w / 0x1_0000 % 32
  }

  function RdOf(w: Word): (r: nat)
    ensures r < 32
  {
    w / 0x800 % 32
  }

  function ShamtOf(w: Word): (s: nat)
    ensures s < 32
  {
    w / 64 % 32
  }

  function FunctOf(w: Word): nat {
    w % 64
  }

  /** The immediate without and with its sign. */
  function ImmOf(w: Word): Word {
    w % 0x1_0000
  }

  function OffsetOf(w: Word): int {
    if w % 0x1_0000 < 0x8000 then w % 0x1_0000 else w % 0x1_0000 - 0x1_0000
  }

  lemma FieldIs(w: Word, low: nat, width: nat, scale: nat, size: nat)
    requires Pow2(low) == scale && Pow2(width) == size
    ensures Field(w, low, width) == w / scale % size
  {
    ShrDivides(w, low);
    LowBitsRemain(Shr(w, low), width);
  }

  lemma FieldPowers()
    ensures Pow2(0) == 1 && Pow2(5) == 32 && Pow2(6) == 64 && Pow2(11) == 0x800 && Pow2(16) == 0x1_0000
    ensures Pow2(21) == 0x20_0000 && Pow2(26) == 0x400_0000
  {
    Pow2Add(5, 6);
    Pow2Add(5, 11);
    Pow2Add(5, 16);
    Pow2Add(5, 21);
  }

  /** The fields the decoder reads are these. */
  lemma FieldsAre(w: Word)
    ensures Field(w, 26, 6) == OpcodeOf(w) < 64 && Field(w, 21, 5) == RsOf(w) && Field(w, 16, 5) == RtOf(w)
    ensures Field(w, 11, 5) == RdOf(w) && Field(w, 6, 5) == ShamtOf(w) && Field(w, 0, 6) == FunctOf(w) < 64
    ensures Field(w, 0, 16) == ImmOf(w) && Field(w, 0, 26) == w % 0x400_0000
  {
    hide Field, Pow2;
    FieldPowers();
    FieldIs(w, 26, 6, 0x400_0000, 64);
    FieldIs(w, 21, 5, 0x20_0000, 32);
    FieldIs(w, 16, 5, 0x1_0000, 32);
    FieldIs(w, 11, 5, 0x800, 32);
    FieldIs(w, 6, 5, 64, 32);
    FieldIs(w, 0, 6, 1, 64);
    FieldIs(w, 0, 16, 1, 0x1_0000);
    FieldIs(w, 0, 26, 1, 0x400_0000);
  }

  /** The sign-extended immediate has the value of the offset. */
  lemma ImmediateIs(w: Word)
    ensures var x := SignExtend(ImmOf(w), 16); Signed(x) == OffsetOf(w) && x == Wrap(OffsetOf(w))
  {
    hide SignExtend;
    Facts.SignExtendIsSigned(ImmOf(w));
    SignedWraps(SignExtend(ImmOf(w), 16));
  }

  lemma SignedWraps(x: Word)
    ensures x == Wrap(Signed(x))
  {
  }

  /** The decoded op before the instruction's class matters. */
  function Common(w: Word, pc: Word): Op {
    FetchOp(w, pc).(opcode := OpcodeOf(w), imm16 := ImmOf(w), seImm16 := SignExtend(ImmOf(w), 16), shamt := ShamtOf(w))
  }

  lemma CommonIs(w: Word, pc: Word)
    ensures DecodeCommon(FetchOp(w, pc)) == Common(w, pc)
  {
    hide Field, SignExtend;
    FieldsAre(w);
  }

  /** The register fields of the op are those of the word. */
  lemma RegistersAre(w: Word, op: Op)
    requires op.instruction == w
    ensures Rs(op) == RsOf(w) && Rt(op) == RtOf(w) && Rd(op) == RdOf(w)
  {
    hide Field;
    FieldsAre(w);
  }

  function Value(m: Machine, r: nat): Word
    requires r < 32
  {
    if r == 0 then 0 else m.regs[r]
  }

  /** Register 0 is never written. */
  function Written(regs: RegisterFile, r: nat, value: Word): RegisterFile
    requires r < 32
  {
    if r == 0 then regs else regs[r := value]
  }

  /** The instruction word that is next. */
  function Fetched(m: Machine): Word {
    Read(m.mem, m.pc)
  }

  // ---------- Branches ----------

  /** The pc after a conditional branch. */
  function Branched(m: Machine, taken: bool): Word {
    if taken then (m.pc + 4 + 4 * OffsetOf(Fetched(m))) % WORDS else (m.pc + 4) % WORDS
  }

  lemma BranchTargetIs(w: Word, pc: Word)
    ensures Wrap(pc + 4 + 4 * SignExtend(ImmOf(w), 16)) == (pc + 4 + 4 * OffsetOf(w)) % WORDS
  {
    hide SignExtend;
    ImmediateIs(w);
    WrapSum(pc + 4, SignExtend(ImmOf(w), 16), OffsetOf(w));
  }

  lemma WrapSum(x: int, y: Word, z: int)
    requires y == Wrap(z)
    ensures Wrap(x + 4 * y) == (x + 4 * z) % WORDS && Wrap(x + y) == (x + z) % WORDS
  {
    assert z == z / WORDS * WORDS + y;
    MultipleDrops(x + 4 * y, 4 * (z / WORDS));
    MultipleDrops(x + y, z / WORDS);
  }

  lemma MultipleDrops(x: int, k: int)
    ensures (x + k * WORDS) % WORDS == x % WORDS
  {
  }

  /** The op of a conditional branch with its operands. */
  function BranchOp(m: Machine): Op {
    var w := Fetched(m);
    Common(w, m.pc).(isBranch := true, branchCond := true, branchDest := Branched(m, true),
                     regSrc1 := RsOf(w), regSrc2 := RtOf(w),
                     regSrc1Value := Value(m, RsOf(w)), regSrc2Value := Value(m, RtOf(w)))
  }

  lemma BranchOperands(m: Machine)
    requires 4 <= OpcodeOf(Fetched(m)) <= 7
    ensures OperandsOp(m) == BranchOp(m)
  {
    hide SignExtend, Field, DecodeCommon, RegField;
    var w := Fetched(m);
    CommonIs(w, m.pc);
    RegistersAre(w, Common(w, m.pc));
    BranchTargetIs(w, m.pc);
  }

  predicate Negative(x: Word) {
    x >= 0x8000_0000
  }

  /** The order of two words as signed numbers. */
  predicate SignedLess(a: Word, b: Word) {
    if Negative(a) == Negative(b) then a < b else Negative(a)
  }

  lemma SignedOrder(a: Word, b: Word)
    ensures Signed(a) < Signed(b) <==> SignedLess(a, b)
    ensures Signed(a) < 0 <==> Negative(a)
  {
  }

  /** BEQ, BNE, BLEZ and BGTZ jump by their offset exactly if their condition holds, and change nothing else. */
  lemma BranchStep(m: Machine)
    requires 4 <= OpcodeOf(Fetched(m)) <= 7
    ensures var w := Fetched(m);
      var a, b := Value(m, RsOf(w)), Value(m, RtOf(w));
      var taken := match OpcodeOf(w)
        case 4 => a == b
        case 5 => a != b
        case 6 => a == 0 || Negative(a)
        case _ => a != 0 && !Negative(a);
      Step(m) == m.(pc := Branched(m, taken))
  {
    hide SignExtend, Field, OperandsOp, Read;
    BranchOperands(m);
  }

  predicate Links(w: Word) {
    RtOf(w) == 0x10 || RtOf(w) == 0x11
  }

  function BranchSpecialOp(m: Machine): Op {
    var w := Fetched(m);
    var op := BranchOp(m).(subop := RtOf(w));
    if Links(w) then op.(regDst := 31, regDstValue := Wrap(m.pc + 4), regDstValueReady := true) else op
  }

  lemma BranchSpecialOperands(m: Machine)
    requires OpcodeOf(Fetched(m)) == 1
    ensures OperandsOp(m) == BranchSpecialOp(m)
  {
    hide SignExtend, Field, DecodeCommon, Rs, Rt;
    var w := Fetched(m);
    CommonIs(w, m.pc);
    RegistersAre(w, Common(w, m.pc));
    FieldsAre(w);
    BranchTargetIs(w, m.pc);
  }

  /** BLTZ and BGEZ and their linking forms: register 31 takes the return address even if the branch is not taken. */
  lemma BranchSpecialStep(m: Machine)
    requires OpcodeOf(Fetched(m)) == 1
    ensures var w := Fetched(m);
      var a := Value(m, RsOf(w));
      var taken := match RtOf(w)
        case 0x00 => Negative(a)
        case 0x10 => Negative(a)
        case 0x01 => !Negative(a)
        case 0x11 => !Negative(a)
        case _ => false;
      Step(m) == m.(pc := Branched(m, taken),
                    regs := if Links(w) then m.regs[31 := (m.pc + 4) % WORDS] else m.regs)
  {
    hide SignExtend, Field, OperandsOp, Read;
    BranchSpecialOperands(m);
  }

  // ---------- Jumps ----------

  /** The pc after a jump: the word address within the current 256 megabytes. */
  function Jumped(m: Machine): Word {
    (m.pc / 0x1000_0000 * 0x1000_0000 + 4 * (Fetched(m) % 0x400_0000)) % WORDS
  }

  function JumpOp(m: Machine): Op {
    var w := Fetched(m);
    var op := Common(w, m.pc).(isBranch := true, branchCond := false, branchTaken := true, branchDest := Jumped(m));
    if OpcodeOf(w) == 3 then op.(regDst := 31, regDstValue := Wrap(m.pc + 4), regDstValueReady := true) else op
  }

  lemma JumpOperands(m: Machine)
    requires OpcodeOf(Fetched(m)) == 2 || OpcodeOf(Fetched(m)) == 3
    ensures OperandsOp(m) == JumpOp(m)
  {
    hide SignExtend, Field, DecodeCommon;
    var w := Fetched(m);
    CommonIs(w, m.pc);
    FieldsAre(w);
  }

  /** J and JAL. */
  lemma JumpStep(m: Machine)
    requires OpcodeOf(Fetched(m)) == 2 || OpcodeOf(Fetched(m)) == 3
    ensures Step(m) == m.(pc := Jumped(m),
      regs := if OpcodeOf(Fetched(m)) == 3 then m.regs[31 := (m.pc + 4) % WORDS] else m.regs)
  {
    hide SignExtend, Field, OperandsOp, Read;
    JumpOperands(m);
  }

  // ---------- Instructions of opcode 0 ----------

  /** The op of an instruction of opcode 0 with its operands; a system call reads registers 2 and 3. */
  function SpecialOp(m: Machine): Op {
    var w := Fetched(m);
    var f := FunctOf(w);
    var rs: nat, rt: nat := if f == 0xc then 2 else RsOf(w), if f == 0xc then 3 else RtOf(w);
    Common(w, m.pc).(regSrc1 := rs, regSrc2 := rt, regDst := RdOf(w), subop := f,
                     isBranch := f == 8 || f == 9,
                     regSrc1Value := Value(m, rs), regSrc2Value := Value(m, rt), regDstValueReady := true)
  }

  lemma SpecialOperands(m: Machine)
    requires OpcodeOf(Fetched(m)) == 0
    ensures OperandsOp(m) == SpecialOp(m)
  {
    hide SignExtend, Field, DecodeCommon, Rs, Rt, Rd;
    var w := Fetched(m);
    CommonIs(w, m.pc);
    RegistersAre(w, Common(w, m.pc));
    FieldsAre(w);
  }

  /** The result goes to rd, and the machine goes on to the next instruction unless the op is a register jump. */
  lemma SpecialStep(m: Machine)
    requires OpcodeOf(Fetched(m)) == 0
    ensures var w, op := Fetched(m), SpecialOp(m);
      Step(m) == Machine(
        if FunctOf(w) == 8 || FunctOf(w) == 9 then Value(m, RsOf(w)) else (m.pc + 4) % WORDS,
        Written(m.regs, RdOf(w), SpecialResult(op, m.hi, m.lo)), HiAfter(op, m.hi), LoAfter(op, m.lo), m.mem)
  {
    hide SignExtend, Field, OperandsOp, Read, SpecialResult, HiAfter, LoAfter;
    SpecialOperands(m);
  }

  predicate IsSpecial(m: Machine, funct: nat) {
    OpcodeOf(Fetched(m)) == 0 && FunctOf(Fetched(m)) == funct
  }

  /** The machine after an instruction of opcode 0 that only writes `x` to rd. */
  function ToRd(m: Machine, x: Word): Machine {
    m.(pc := (m.pc + 4) % WORDS, regs := Written(m.regs, RdOf(Fetched(m)), x))
  }

  function A(m: Machine): Word {
    Value(m, RsOf(Fetched(m)))
  }

  function B(m: Machine): Word {
    Value(m, RtOf(Fetched(m)))
  }

  /** ADD, ADDU, SUB and SUBU compute modulo 2^32. */
  lemma ArithmeticStep(m: Machine)
    ensures IsSpecial(m, 0x20) || IsSpecial(m, 0x21) ==> Step(m) == ToRd(m, (A(m) + B(m)) % WORDS)
    ensures IsSpecial(m, 0x22) || IsSpecial(m, 0x23) ==> Step(m) == ToRd(m, (A(m) - B(m)) % WORDS)
  {
    hide SignExtend, Field, Step, Read;
    if OpcodeOf(Fetched(m)) == 0 {
      SpecialStep(m);
    }
  }

  /** What ADDU adds, a SUBU of the sum and the same operand takes away. */
  lemma AddThenSubtract(m: Machine)
    requires IsSpecial(m, 0x21) && IsSpecial(Step(m), 0x23)
    requires var w, v := Fetched(m), Fetched(Step(m));
      RsOf(v) == RdOf(w) != 0 && RtOf(v) == RtOf(w) != RdOf(w)
    ensures Step(Step(m)) == ToRd(Step(m), A(m))
  {
    hide Step, Read;
    ArithmeticStep(m);
    ArithmeticStep(Step(m));
    SubtractAdded(A(m), B(m));
  }

  lemma SubtractAdded(a: Word, b: Word)
    ensures ((a + b) % WORDS - b) % WORDS == a
  {
  }

  /** AND, OR, XOR and NOR work bit by bit. */
  lemma LogicStep(m: Machine) returns (x: Word)
    requires IsSpecial(m, 0x24) || IsSpecial(m, 0x25) || IsSpecial(m, 0x26) || IsSpecial(m, 0x27)
    ensures Step(m) == ToRd(m, x)
    ensures forall k: nat :: k < 32 ==>
      var a, b := Bits.Bit(A(m), k) == 1, Bits.Bit(B(m), k) == 1;
      (Bits.Bit(x, k) == 1 <==> match FunctOf(Fetched(m))
        case 0x24 => a && b
        case 0x25 => a || b
        case 0x26 => a != b
        case _ => !a && !b)
  {
    hide SignExtend, Field, Step, Read, Bits.Bit, Bits.Xor, Bits.And, Bits.Or;
    SpecialStep(m);
    x := SpecialResult(SpecialOp(m), m.hi, m.lo);
    forall k: nat | k < 32
      ensures var a, b := Bits.Bit(A(m), k) == 1, Bits.Bit(B(m), k) == 1;
        (Bits.Bit(x, k) == 1 <==> match FunctOf(Fetched(m))
          case 0x24 => a && b
          case 0x25 => a || b
          case 0x26 => a != b
          case _ => !a && !b)
    {
      Bits.BitOfAnd(A(m), B(m), k);
      Bits.BitOfOr(A(m), B(m), k);
      Bits.BitOfXor(A(m), B(m), k);
      BitOfNot(Or(A(m), B(m)), k);
    }
  }

  lemma BitOfNot(x: Word, k: nat)
    requires k < 32
    ensures Bits.Bit(Not(x), k) == 1 - Bits.Bit(x, k)
  {
    WordBits();
    Bits.BitOfComplement(x, 32, k);
  }

  /** SLT and SLTU give 1 or 0 by the order of the operands. */
  lemma CompareStep(m: Machine)
    ensures IsSpecial(m, 0x2a) ==> Step(m) == ToRd(m, if SignedLess(A(m), B(m)) then 1 else 0)
    ensures IsSpecial(m, 0x2b) ==> Step(m) == ToRd(m, if A(m) < B(m) then 1 else 0)
  {
    hide SignExtend, Field, Step, Read;
    if OpcodeOf(Fetched(m)) == 0 {
      SpecialStep(m);
    }
  }

  /** The shift amount: the field, or the low five bits of rs. */
  function Amount(m: Machine): (s: nat)
    ensures s < 32
  {
    if FunctOf(Fetched(m)) < 4 then ShamtOf(Fetched(m)) else A(m) % 32
  }

  lemma ShiftResults(op: Op, hi: Word, lo: Word)
    ensures op.subop == 0 ==> SpecialResult(op, hi, lo) == ShiftLeft(op.regSrc2Value, op.shamt)
    ensures op.subop == 2 ==> SpecialResult(op, hi, lo) == ShiftRight(op.regSrc2Value, op.shamt)
    ensures op.subop == 3 ==> SpecialResult(op, hi, lo) == ShiftRightArithmetic(op.regSrc2Value, op.shamt)
    ensures op.subop == 4 ==> SpecialResult(op, hi, lo) == ShiftLeft(op.regSrc2Value, op.regSrc1Value)
    ensures op.subop == 6 ==> SpecialResult(op, hi, lo) == ShiftRight(op.regSrc2Value, op.regSrc1Value)
    ensures op.subop == 7 ==> SpecialResult(op, hi, lo) == ShiftRightArithmetic(op.regSrc2Value, op.regSrc1Value)
  {
    hide ShiftLeft, ShiftRight, ShiftRightArithmetic;
  }

  /** What the shifts compute: a left shift modulo 2^32, a right shift rounding down. */
  lemma ShiftsAre(w: Word, amount: nat)
    ensures ShiftLeft(w, amount) == w * Pow2(amount % 32) % WORDS
    ensures ShiftRight(w, amount) == w / Pow2(amount % 32)
    ensures Signed(ShiftRightArithmetic(w, amount)) == Signed(w) / Pow2(amount % 32)
  {
    hide Shr, Pow2, Signed, ShiftRightArithmetic;
    ShrDivides(w, amount % 32);
    Facts.WrapNarrow(Shr(w, amount % 32));
    ArithmeticShift(w, amount);
  }

  predicate IsShift(funct: nat) {
    funct in {0, 2, 3, 4, 6, 7}
  }

  lemma ShiftOnlyWrites(m: Machine)
    requires OpcodeOf(Fetched(m)) == 0 && IsShift(FunctOf(Fetched(m)))
    ensures Step(m) == ToRd(m, SpecialResult(SpecialOp(m), m.hi, m.lo))
  {
    hide SignExtend, Step, Read, SpecialResult, OpcodeOf, RsOf, RtOf, RdOf;
    SpecialStep(m);
  }

  lemma ShiftOperands(m: Machine)
    requires IsShift(FunctOf(Fetched(m)))
    ensures var op := SpecialOp(m);
      && op.subop == FunctOf(Fetched(m)) && op.regSrc2Value == B(m)
      && op.regSrc1Value == A(m) && op.shamt == ShamtOf(Fetched(m))
  {
    hide SignExtend, OpcodeOf, RsOf, RtOf, RdOf, ImmOf, FunctOf;
  }

  /** A left shift multiplies modulo 2^32, a right shift divides, rounding down, unsigned or signed. */
  lemma ShiftStep(m: Machine) returns (x: Word)
    requires OpcodeOf(Fetched(m)) == 0 && IsShift(FunctOf(Fetched(m)))
    ensures Step(m) == ToRd(m, x)
    ensures FunctOf(Fetched(m)) % 4 == 0 ==> x == B(m) * Pow2(Amount(m)) % WORDS
    ensures FunctOf(Fetched(m)) % 4 == 2 ==> x == B(m) / Pow2(Amount(m))
    ensures FunctOf(Fetched(m)) % 4 == 3 ==> Signed(x) == Signed(B(m)) / Pow2(Amount(m))
  {
    hide Pow2, Signed, SpecialResult, SpecialOp, Step, ToRd, A, B, Amount, OpcodeOf, FunctOf, Fetched;
    ShiftOnlyWrites(m);
    x := SpecialResult(SpecialOp(m), m.hi, m.lo);
    ShiftValue(m);
  }

  lemma ShiftValue(m: Machine)
    requires IsShift(FunctOf(Fetched(m)))
    ensures var x := SpecialResult(SpecialOp(m), m.hi, m.lo);
      && (FunctOf(Fetched(m)) % 4 == 0 ==> x == B(m) * Pow2(Amount(m)) % WORDS)
      && (FunctOf(Fetched(m)) % 4 == 2 ==> x == B(m) / Pow2(Amount(m)))
      && (FunctOf(Fetched(m)) % 4 == 3 ==> Signed(x) == Signed(B(m)) / Pow2(Amount(m)))
  {
    hide Pow2, ShiftLeft, ShiftRight, ShiftRightArithmetic, Signed, SpecialResult, SpecialOp, A, B, ShamtOf, FunctOf;
    ShiftOperands(m);
    ShiftResults(SpecialOp(m), m.hi, m.lo);
    ShiftsAre(B(m), if FunctOf(Fetched(m)) < 4 then ShamtOf(Fetched(m)) else A(m));
  }

  lemma ArithmeticShift(b: Word, amount: nat)
    ensures Signed(ShiftRightArithmetic(b, amount)) == Signed(b) / Pow2(amount % 32)
  {
    hide Shr, Pow2;
    var s := amount % 32;
    ShrDivides(b, s);
    ShrDivides(Not(b), s);
    if Signed(b) < 0 {
      NegativeQuotient(Not(b), Pow2(s));
    }
  }

  /** Rounding down, the quotient of -1 - x is -1 less the quotient of x. */
  lemma NegativeQuotient(x: nat, d: nat)
    requires d >= 1
    ensures (-1 - x) / d == -1 - x / d && x / d <= x
  {
    var q, r := x / d, x % d;
    assert x == q * d + r;
    assert -1 - x == (-1 - q) * d + (d - 1 - r);
    QuotientIs(-1 - x, d, -1 - q, d - 1 - r);
  }

  lemma QuotientIs(x: int, d: nat, q: int, r: int)
    requires d >= 1 && x == q * d + r && 0 <= r < d
    ensures x / d == q
  {
    var p, s := x / d, x % d;
    assert x == p * d + s;
    assert (p - q) * d == r - s;
    MultipleAtLeast(p - q, d);
  }

  /** MFHI and MFLO read HI and LO; MTHI and MTLO write them, and like the other ops clear rd. */
  lemma HiLoStep(m: Machine)
    ensures IsSpecial(m, 0x10) ==> Step(m) == ToRd(m, m.hi)
    ensures IsSpecial(m, 0x12) ==> Step(m) == ToRd(m, m.lo)
    ensures IsSpecial(m, 0x11) ==> Step(m) == ToRd(m, 0).(hi := A(m))
    ensures IsSpecial(m, 0x13) ==> Step(m) == ToRd(m, 0).(lo := A(m))
  {
    hide SignExtend, Field, Step, Read;
    if OpcodeOf(Fetched(m)) == 0 {
      SpecialStep(m);
    }
  }

  /** MULT and MULTU leave the exact product in HI and LO. */
  lemma MultiplyStep(m: Machine)
    ensures IsSpecial(m, 0x18) ==>
      && Step(m) == ToRd(m, 0).(hi := Step(m).hi, lo := Step(m).lo)
      && Signed(Step(m).hi) * WORDS + Step(m).lo == Signed(A(m)) * Signed(B(m))
    ensures IsSpecial(m, 0x19) ==>
      && Step(m) == ToRd(m, 0).(hi := Step(m).hi, lo := Step(m).lo)
      && Step(m).hi * WORDS + Step(m).lo == A(m) * B(m)
  {
    hide SignExtend, Step, Read, HiAfter, LoAfter, Signed, OpcodeOf, RsOf, RtOf;
    if IsSpecial(m, 0x18) || IsSpecial(m, 0x19) {
      SpecialStep(m);
      Facts.MultiplyIsExact(SpecialOp(m), m.hi, m.lo);
    }
  }

  /** DIV leaves the quotient truncated toward zero in LO and the remainder, of the dividend's sign, in HI. */
  lemma DivideStep(m: Machine)
    requires IsSpecial(m, 0x1a)
    ensures var t := Step(m);
      && t == ToRd(m, 0).(hi := t.hi, lo := t.lo)
      && (B(m) == 0 ==> t.hi == 0 && t.lo == 0)
      && (B(m) != 0 && !(A(m) == 0x8000_0000 && B(m) == 0xFFFF_FFFF) ==>
            && Signed(A(m)) == Signed(t.lo) * Signed(B(m)) + Signed(t.hi)
            && Magnitude(Signed(t.hi)) < Magnitude(Signed(B(m)))
            && (Signed(t.hi) == 0 || (Signed(t.hi) < 0 <==> Signed(A(m)) < 0)))
  {
    hide SignExtend, Step, Read, HiAfter, LoAfter, Signed, Magnitude, OpcodeOf, RsOf, RtOf;
    SpecialStep(m);
    if B(m) == 0 {
      DivideByZero(SpecialOp(m), m.hi, m.lo);
    } else if !(A(m) == 0x8000_0000 && B(m) == 0xFFFF_FFFF) {
      SignedZero(B(m));
      Facts.DivideTruncates(SpecialOp(m), m.hi, m.lo);
    }
  }

  /** DIVU leaves the unsigned quotient in LO and the remainder in HI. */
  lemma DivideUnsignedStep(m: Machine)
    requires IsSpecial(m, 0x1b)
    ensures var t := Step(m);
      && t == ToRd(m, 0).(hi := t.hi, lo := t.lo)
      && (if B(m) == 0 then t.hi == 0 && t.lo == 0 else A(m) == t.lo * B(m) + t.hi && t.hi < B(m))
  {
    hide SignExtend, Step, Read, HiAfter, LoAfter, OpcodeOf, RsOf, RtOf;
    SpecialStep(m);
    Facts.DivideUnsigned(SpecialOp(m), m.hi, m.lo);
  }

  lemma DivideByZero(op: Op, hi: Word, lo: Word)
    requires op.opcode == OP_SPECIAL && op.subop == 0x1a && op.regSrc2Value == 0
    ensures HiAfter(op, hi) == 0 && LoAfter(op, lo) == 0
  {
  }

  lemma SignedZero(x: Word)
    ensures Signed(x) == 0 <==> x == 0
  {
  }

  /** JR and JALR go to the address in rs; the return address goes to rd. */
  lemma JumpRegisterStep(m: Machine)
    requires IsSpecial(m, 8) || IsSpecial(m, 9)
    ensures Step(m) == ToRd(m, (m.pc + 4) % WORDS).(pc := A(m))
  {
    hide SignExtend, Field, Step, Read;
    SpecialStep(m);
  }

  /** The functions that are not instructions of this machine, and the system call. */
  predicate NoFunction(f: nat) {
    || f == 1 || f == 5 || 0xa <= f <= 0xf || 0x14 <= f <= 0x17 || 0x1c <= f <= 0x1f
    || f == 0x28 || f == 0x29 || 0x2c <= f
  }

  /** An opcode 0 instruction of any other function clears rd and changes nothing else. */
  lemma UnknownFunctionStep(m: Machine)
    requires OpcodeOf(Fetched(m)) == 0 && NoFunction(FunctOf(Fetched(m)))
    ensures Step(m) == ToRd(m, 0)
  {
    hide SignExtend, Field, Step, Read;
    SpecialStep(m);
  }

  // ---------- Immediate operands ----------

  function ImmediateOp(m: Machine): Op {
    var w := Fetched(m);
    Common(w, m.pc).(regSrc1 := RsOf(w), regDst := RtOf(w), regSrc1Value := A(m))
  }

  lemma ImmediateOperands(m: Machine)
    requires 8 <= OpcodeOf(Fetched(m)) <= 0xf
    ensures OperandsOp(m) == ImmediateOp(m)
  {
    hide SignExtend, Field, DecodeCommon, RegField;
    var w := Fetched(m);
    CommonIs(w, m.pc);
    RegistersAre(w, Common(w, m.pc));
  }

  /** The machine after an instruction that only writes `x` to rt. */
  function ToRt(m: Machine, x: Word): Machine {
    m.(pc := (m.pc + 4) % WORDS, regs := Written(m.regs, RtOf(Fetched(m)), x))
  }

  lemma ImmediateStep(m: Machine)
    requires 8 <= OpcodeOf(Fetched(m)) <= 0xf
    ensures Step(m) == ToRt(m, ImmediateResult(ImmediateOp(m)))
  {
    hide SignExtend, Field, OperandsOp, Read, ImmediateResult;
    ImmediateOperands(m);
  }

  /** ADDI and ADDIU add the signed immediate, SLTI and SLTIU compare with it, and LUI places it in the upper half. */
  lemma ArithmeticImmediateStep(m: Machine)
    ensures var w := Fetched(m);
      && (OpcodeOf(w) == 8 || OpcodeOf(w) == 9 ==> Step(m) == ToRt(m, (A(m) + OffsetOf(w)) % WORDS))
      && (OpcodeOf(w) == 0xa ==> Step(m) == ToRt(m, if SignedLess(A(m), OffsetOf(w) % WORDS) then 1 else 0))
      && (OpcodeOf(w) == 0xb ==> Step(m) == ToRt(m, if A(m) < OffsetOf(w) % WORDS then 1 else 0))
      && (OpcodeOf(w) == 0xf ==> Step(m) == ToRt(m, ImmOf(w) * 0x1_0000))
  {
    hide SignExtend, Field, Step, Read, OpcodeOf, RsOf, RtOf, OffsetOf;
    var w := Fetched(m);
    if 8 <= OpcodeOf(w) <= 0xf {
      ImmediateStep(m);
      ImmediateIs(w);
      WrapSum(A(m), SignExtend(ImmOf(w), 16), OffsetOf(w));
      Facts.WrapNarrow(ImmOf(w) * 0x1_0000);
    }
  }

  /** ANDI, ORI and XORI combine rs and the immediate without sign, bit by bit. */
  lemma LogicImmediateStep(m: Machine) returns (x: Word)
    requires 0xc <= OpcodeOf(Fetched(m)) <= 0xe
    ensures Step(m) == ToRt(m, x)
    ensures forall k: nat :: k < 32 ==>
      var a, b := Bits.Bit(A(m), k) == 1, Bits.Bit(ImmOf(Fetched(m)), k) == 1;
      (Bits.Bit(x, k) == 1 <==> match OpcodeOf(Fetched(m))
        case 0xc => a && b
        case 0xd => a || b
        case _ => a != b)
  {
    hide SignExtend, Field, Step, Read, Bits.Bit, Bits.Xor, Bits.And, Bits.Or;
    ImmediateStep(m);
    x := ImmediateResult(ImmediateOp(m));
    forall k: nat | k < 32
      ensures var a, b := Bits.Bit(A(m), k) == 1, Bits.Bit(ImmOf(Fetched(m)), k) == 1;
        (Bits.Bit(x, k) == 1 <==> match OpcodeOf(Fetched(m))
          case 0xc => a && b
          case 0xd => a || b
          case _ => a != b)
    {
      Bits.BitOfAnd(A(m), ImmOf(Fetched(m)), k);
      Bits.BitOfOr(A(m), ImmOf(Fetched(m)), k);
      Bits.BitOfXor(A(m), ImmOf(Fetched(m)), k);
    }
  }

  /** A system call changes nothing but rd, which it clears; it is the exit call exactly if register 2 holds 10. */
  lemma SystemCallStep(m: Machine)
    ensures IsSpecial(m, 0xc) ==> Step(m) == ToRd(m, 0)
    ensures IsExit(FinishedOp(m)) <==> IsSpecial(m, 0xc) && Value(m, 2) == 10
  {
    hide SignExtend, Field, OperandsOp, Read;
    if OpcodeOf(Fetched(m)) == 0 {
      SpecialOperands(m);
    } else {
      OpcodeStays(m);
    }
  }

  lemma DecodeKeepsOpcode(raw: Op)
    ensures Decode(raw).opcode == DecodeCommon(raw).opcode
  {
    hide DecodeCommon, DecodeSpecial, DecodeBranchSpecial, DecodeJump, DecodeJumpAndLink, Rs, Rt, BranchTarget;
    ClassesKeepOpcode(DecodeCommon(raw));
  }

  lemma ClassesKeepOpcode(op: Op)
    ensures DecodeSpecial(op).opcode == op.opcode && DecodeBranchSpecial(op).opcode == op.opcode
    ensures DecodeJump(op).opcode == op.opcode && DecodeJumpAndLink(op).opcode == op.opcode
  {
    hide Field, Rs, Rt, Rd, BranchTarget, JumpTarget, Wrap;
  }

  lemma ExecuteKeepsOpcode(op: Op, hi: Word, lo: Word)
    ensures Execute(op, hi, lo).opcode == op.opcode
  {
    hide SpecialResult, ImmediateResult, ConditionHolds, Wrap;
  }

  lemma OperandsKeepOpcode(op: Op, regs: RegisterFile)
    ensures MarkReady(WithOperands(op, regs)).opcode == op.opcode
  {
    hide Operand;
  }

  lemma MemoryKeepsOpcode(op: Op, mem: Memory)
    ensures AfterMemory(op, mem).opcode == op.opcode
  {
    hide LoadResult, MemoryWord;
  }

  lemma OpcodeStays(m: Machine)
    ensures FinishedOp(m).opcode == OpcodeOf(Fetched(m))
  {
    hide Field, DecodeCommon, Decode, Execute, AfterMemory, MarkReady, WithOperands, SignExtend, OpcodeOf;
    CommonIs(Fetched(m), m.pc);
    DecodeKeepsOpcode(FetchOp(Fetched(m), m.pc));
    OperandsKeepOpcode(DecodedOp(m), m.regs);
    ExecuteKeepsOpcode(OperandsOp(m), m.hi, m.lo);
    MemoryKeepsOpcode(ExecutedOp(m), m.mem);
  }
}
