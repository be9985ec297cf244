/**
 * What one sequential load, store or unknown instruction does: memory is seen as the bytes at its
 * addresses, the lowest byte of a word first.
 */
module SequentialMemory {
  import opened Words
  import opened MipsIsa
  import opened SequentialSteps
  import Facts = MipsIsaFacts

  /** Memory is mapped in five regions of a megabyte each. */
  predicate InMemory(address: Word) {
    address / 0x10_0000 in {0x4, 0x100, 0x7ff, 0x800, 0x900}
  }

  lemma RegionsAre(address: Word)
    ensures Mapped(address) <==> InMemory(address)
    ensures Mapped(Align(address)) <==> InMemory(address)
  {
  }

  /** The byte of memory at an address. */
  function MemoryByte(mem: Memory, address: Word): nat {
    var w := Read(mem, address - address % 4);
    match address % 4
    case 0 => w % 0x100
    case 1 => w / 0x100 % 0x100
    case 2 => w / 0x1_0000 % 0x100
    case _ => w / 0x100_0000
  }

  lemma MemoryByteIs(mem: Memory, address: Word)
    ensures MemoryByte(mem, address) == Facts.ByteAt(Read(mem, Align(address)), address % 4) < 0x100
  {
    hide Facts.ByteAt, Read;
    var w := Read(mem, Align(address));
    Facts.FourBytes(w);
    Facts.ByteIsSmall(w, address % 4);
  }

  /** The half word with these bytes. */
  function MemoryHalf(mem: Memory, address: Word): nat {
    var low: Word := address - address % 2;
    MemoryByte(mem, low) + 0x100 * MemoryByte(mem, low + 1)
  }

  /** The address of a load or store. */
  function Address(m: Machine): Word {
    (A(m) + OffsetOf(Fetched(m))) % WORDS
  }

  // ---------- Loads ----------

  function LoadOp(m: Machine): Op {
    var w := Fetched(m);
    Common(w, m.pc).(isMem := true, regSrc1 := RsOf(w), memWrite := false, regDst := RtOf(w), regSrc1Value := A(m))
  }

  predicate Loads(m: Machine) {
    OpcodeOf(Fetched(m)) in {0x20, 0x21, 0x23, 0x24, 0x25}
  }

  lemma LoadOperands(m: Machine)
    requires Loads(m)
    ensures OperandsOp(m) == LoadOp(m)
  {
    hide SignExtend, Field, DecodeCommon, RegField;
    var w := Fetched(m);
    CommonIs(w, m.pc);
    RegistersAre(w, Common(w, m.pc));
  }

  lemma AddressIs(m: Machine)
    ensures Wrap(A(m) + SignExtend(ImmOf(Fetched(m)), 16)) == Address(m)
  {
    hide SignExtend, Fetched, A, OffsetOf;
    var w := Fetched(m);
    ImmediateIs(w);
    WrapSum(A(m), SignExtend(ImmOf(w), 16), OffsetOf(w));
  }

  lemma LoadToRt(m: Machine)
    requires Loads(m)
    ensures Step(m) == ToRt(m, LoadResult(LoadOp(m).(memAddr := Address(m)), Read(m.mem, Align(Address(m)))))
  {
    hide SignExtend, Field, OperandsOp, Read, LoadResult, Address, A, RsOf, OffsetOf;
    LoadOperands(m);
    AddressIs(m);
  }

  lemma HalfWordIs(mem: Memory, address: Word)
    ensures HalfWord(Read(mem, Align(address)), address) == MemoryHalf(mem, address) < 0x1_0000
  {
    hide Facts.ByteAt, Read, MemoryByte;
    var low: Word := address - address % 2;
    var w := Read(mem, Align(address));
    MemoryByteIs(mem, low);
    MemoryByteIs(mem, low + 1);
    assert Align(low) == Align(address) == Align(low + 1);
    var b0, b1, b2, b3 := Facts.Bytes(w);
    Facts.HalvesOf(b0, b1, b2, b3);
    HalfParity(address);
  }

  lemma HalfParity(address: Word)
    ensures (address - address % 2) % 4 == if address / 2 % 2 == 1 then 2 else 0
    ensures (address - address % 2 + 1) % 4 == if address / 2 % 2 == 1 then 3 else 1
  {
  }

  lemma ByteIs(mem: Memory, address: Word)
    ensures ByteOf(Read(mem, Align(address)), address) == MemoryByte(mem, address) < 0x100
  {
    hide Facts.ByteAt, Read, MemoryByte, ByteOf;
    MemoryByteIs(mem, address);
    Facts.ByteOfIs(FetchOp(0, 0).(memAddr := address), Read(mem, Align(address)));
  }

  /** What the load of an opcode from an address reads as `x`. */
  predicate Loaded(opcode: nat, mem: Memory, a: Word, x: Word) {
    var h, b := MemoryHalf(mem, a), MemoryByte(mem, a);
    match opcode
    case 0x23 => x == Read(mem, a - a % 4)
    case 0x21 => Signed(x) == if h < 0x8000 then h else h - 0x1_0000
    case 0x25 => x == h
    case 0x20 => Signed(x) == if b < 0x80 then b else b - 0x100
    case _ => x == b
  }

  lemma LoadedIs(op: Op, mem: Memory)
    ensures Loaded(op.opcode, mem, op.memAddr, LoadResult(op, Read(mem, Align(op.memAddr))))
  {
    hide SignExtend, Signed, Read, HalfWord, ByteOf, MemoryHalf, MemoryByte, Wrap;
    var h, b := MemoryHalf(mem, op.memAddr), MemoryByte(mem, op.memAddr);
    HalfWordIs(mem, op.memAddr);
    ByteIs(mem, op.memAddr);
    Facts.SignExtendIsSigned(h);
    Facts.SignExtendIsSigned(b);
    Facts.WrapNarrow(h);
    Facts.WrapNarrow(b);
  }

  /** LW, LH, LHU, LB and LBU write the word, half word or byte at their address to rt, and nothing else. */
  lemma LoadStep(m: Machine) returns (x: Word)
    requires Loads(m)
    ensures Step(m) == ToRt(m, x) && Loaded(OpcodeOf(Fetched(m)), m.mem, Address(m), x)
  {
    hide SignExtend, Step, Read, Address, RsOf, RtOf, ImmOf, OpcodeOf, Loaded, LoadResult, ToRt;
    LoadToRt(m);
    var op := LoadOp(m).(memAddr := Address(m));
    x := LoadResult(op, Read(m.mem, Align(Address(m))));
    LoadedIs(op, m.mem);
  }

  // ---------- Stores ----------

  function StoreOp(m: Machine): Op {
    var w := Fetched(m);
    Common(w, m.pc).(isMem := true, regSrc1 := RsOf(w), memWrite := true, regSrc2 := RtOf(w),
                     regSrc1Value := A(m), regSrc2Value := B(m))
  }

  predicate Stores(m: Machine) {
    OpcodeOf(Fetched(m)) in {0x28, 0x29, 0x2b}
  }

  lemma StoreOperands(m: Machine)
    requires Stores(m)
    ensures OperandsOp(m) == StoreOp(m)
  {
    hide SignExtend, Field, DecodeCommon, RegField;
    var w := Fetched(m);
    CommonIs(w, m.pc);
    RegistersAre(w, Common(w, m.pc));
  }

  function StoredOp(m: Machine): Op {
    StoreOp(m).(memAddr := Address(m), memValue := B(m))
  }

  lemma StoreToMemory(m: Machine)
    requires Stores(m)
    ensures var a := Align(Address(m));
      Step(m) == m.(pc := (m.pc + 4) % WORDS, mem := Write(m.mem, a, StoreResult(StoredOp(m), Read(m.mem, a))))
  {
    hide SignExtend, Field, OperandsOp, Read, Write, StoreResult, Address, A, B, RsOf, RtOf, OffsetOf;
    StoreOperands(m);
    AddressIs(m);
  }

  /** The addresses a store writes: the aligned bytes of its width. */
  predicate Covers(width: nat, a: Word, b: Word)
    requires width > 0
  {
    a / width == b / width
  }

  function StoreWidth(w: Word): (width: nat)
    ensures width == 1 || width == 2 || width == 4
  {
    if OpcodeOf(w) == 0x28 then 1 else if OpcodeOf(w) == 0x29 then 2 else 4
  }

  /** Byte `k` of a value. */
  function ValueByte(x: Word, k: nat): nat {
    match k
    case 0 => x % 0x100
    case 1 => x / 0x100 % 0x100
    case 2 => x / 0x1_0000 % 0x100
    case _ => x / 0x100_0000
  }

  lemma ValueByteIs(x: Word, k: nat)
    requires k < 4
    ensures ValueByte(x, k) == Facts.ByteAt(x, k)
  {
    hide Facts.ByteAt;
    Facts.FourBytes(x);
  }

  /** A byte of the word that a store leaves. */
  lemma StoredByte(op: Op, word: Word, width: nat, k: nat)
    requires k < 4
    requires (op.opcode == 0x28 && width == 1) || (op.opcode == 0x29 && width == 2) || (op.opcode == 0x2b && width == 4)
    ensures Facts.ByteAt(StoreResult(op, word), k)
         == if op.memAddr % 4 / width == k / width then ValueByte(op.memValue, k % width) else Facts.ByteAt(word, k)
  {
    hide Facts.ByteAt, StoreResult;
    ValueByteIs(op.memValue, k % width);
    if op.opcode == 0x28 {
      Facts.StoreByteReplaces(op, word, k);
    } else if op.opcode == 0x29 {
      Facts.StoreHalfReplaces(op, word, k);
    } else {
      Facts.StoreWordReplaces(op, word);
    }
  }

  lemma SameWord(width: nat, a: Word, b: Word)
    requires width == 1 || width == 2 || width == 4
    ensures Covers(width, a, b) <==> Align(a) == Align(b) && a % 4 / width == b % 4 / width
    ensures b % 4 % width == b % width
  {
    if width == 2 {
      SameHalf(a, b);
    }
  }

  lemma SameHalf(a: Word, b: Word)
    ensures a / 2 == b / 2 <==> a - a % 4 == b - b % 4 && a % 4 / 2 == b % 4 / 2
    ensures b % 4 % 2 == b % 2
  {
    HalfOf(a);
    HalfOf(b);
  }

  lemma HalfOf(a: Word)
    ensures a / 2 == 2 * (a / 4) + a % 4 / 2 && a % 4 % 2 == a % 2 && a % 4 / 2 < 2
    ensures a - a % 4 == 4 * (a / 4)
  {
  }

  /**
   * SB, SH and SW replace the bytes of their width at their address by those of rt, if the address
   * is mapped, and change no other byte, register or flag.
   */
  lemma StoreStep(m: Machine, b: Word)
    requires Stores(m)
    ensures Step(m) == m.(pc := (m.pc + 4) % WORDS, mem := Step(m).mem)
    ensures var width := StoreWidth(Fetched(m));
      MemoryByte(Step(m).mem, b)
      == if InMemory(Address(m)) && Covers(width, Address(m), b) then ValueByte(B(m), b % width)
         else MemoryByte(m.mem, b)
  {
    hide SignExtend, Step, Read, Write, StoreResult, Address, MemoryByte, ValueByte, Mapped, InMemory, A, B, Facts.ByteAt,
      OpcodeOf, RsOf, RtOf, ImmOf, Covers, ShamtOf;
    StoreToMemory(m);
    var a, width := Address(m), StoreWidth(Fetched(m));
    var before := Read(m.mem, Align(a));
    var word := StoreResult(StoredOp(m), before);
    RegionsAre(a);
    MemoryByteIs(m.mem, b);
    MemoryByteIs(Step(m).mem, b);
    SameWord(width, a, b);
    ReadWritten(m.mem, Align(a), word, Align(b));
    StoredByte(StoredOp(m), before, width, b % 4);
  }

  lemma ReadWritten(mem: Memory, a: Word, word: Word, b: Word)
    ensures Read(Write(mem, a, word), b) == if a == b && Mapped(a) then word else Read(mem, b)
  {
    hide Mapped;
  }

  // ---------- The rest ----------

  /** The instructions of this machine. */
  predicate Known(opcode: nat) {
    opcode < 0x10 || opcode in {0x20, 0x21, 0x23, 0x24, 0x25, 0x28, 0x29, 0x2b}
  }

  lemma UnknownOperands(m: Machine)
    requires !Known(OpcodeOf(Fetched(m)))
    ensures OperandsOp(m) == Common(Fetched(m), m.pc)
  {
    hide SignExtend, Field, DecodeCommon, Read, DecodeSpecial, DecodeBranchSpecial, DecodeJump, DecodeJumpAndLink, OpcodeOf;
    CommonIs(Fetched(m), m.pc);
  }

  /** Every other opcode does nothing. */
  lemma UnknownStep(m: Machine)
    requires !Known(OpcodeOf(Fetched(m)))
    ensures Step(m) == m.(pc := (m.pc + 4) % WORDS)
  {
    hide SignExtend, Field, OperandsOp, Read, ConditionHolds, SpecialResult, OpcodeOf;
    UnknownOperands(m);
  }
}
