/**
 * What the instruction functions compute, independently of the pipeline: products and quotients in
 * HI and LO, and the bytes of a word under stores and loads.
 */
module MipsIsaFacts {
  import opened Powers
  import opened Words
  import Bits
  import opened MipsIsa

  // ---------- Multiply and divide ----------

  lemma Monotone(a: int, b: int, factor: nat)
    requires a <= b
    ensures a * factor <= b * factor
  {
    assert (b - a) * factor >= 0;
  }

  lemma ProductBound(x: int, y: int, m: nat)
    requires 0 - m <= x <= m && 0 - m <= y <= m
    ensures 0 - m * m <= x * y <= m * m
  {
    var size := if x >= 0 then x else 0 - x;
    Monotone(size, m, m);
    Monotone(y, m, size);
    Monotone(0 - m, y, size);
    assert x * y == y * size || x * y == 0 - y * size;
    assert (0 - m) * size == 0 - m * size;
    assert m * size == size * m;
  }

  /** HI and LO together are the exact 64-bit product, signed or unsigned. */
  lemma MultiplyIsExact(op: Op, hi: Word, lo: Word)
    requires op.opcode == OP_SPECIAL && (op.subop == 0x18 || op.subop == 0x19)
    ensures op.subop == 0x18 ==>
              Signed(HiAfter(op, hi)) * WORDS + LoAfter(op, lo) == Signed(op.regSrc1Value) * Signed(op.regSrc2Value)
    ensures op.subop == 0x19 ==>
              HiAfter(op, hi) * WORDS + LoAfter(op, lo) == op.regSrc1Value * op.regSrc2Value
  {
    var p := Product(op);
    if op.subop == 0x18 {
      ProductBound(Signed(op.regSrc1Value), Signed(op.regSrc2Value), 0x8000_0000);
    } else {
      ProductBound(op.regSrc1Value, op.regSrc2Value, 0xFFFF_FFFF);
    }
    assert p == (p / WORDS) * WORDS + p % WORDS;
  }

  lemma TimesAtLeast(n: nat, q: nat)
    requires n >= 1
    ensures n * q >= q
  {
  }

  lemma DivMod(m: nat, n: nat)
    requires n > 0
    ensures m == n * (m / n) + m % n && m % n < n && 0 <= m / n <= m
  {
    TimesAtLeast(n, m / n);
  }

  lemma QuotientBounds(a: int, b: int)
    requires b != 0
    ensures a == Quotient(a, b) * b + Remainder(a, b)
    ensures Magnitude(Remainder(a, b)) < Magnitude(b)
    ensures Remainder(a, b) == 0 || (Remainder(a, b) < 0 <==> a < 0)
    ensures Magnitude(Quotient(a, b)) <= Magnitude(a)
  {
    var m, n := Magnitude(a), Magnitude(b);
    DivMod(m, n);
    SignOfProduct(n, m / n);
    var product: int := n * (m / n);
    assert b * Quotient(a, b) == if a < 0 then -product else product;
  }

  lemma SignOfProduct(n: int, q: int)
    ensures (-n) * q == -(n * q) && n * -q == -(n * q) && (-n) * -q == n * q
  {
  }

  /**
   * LO is the quotient truncated toward zero and HI the remainder, which is smaller than the divisor
   * and has the dividend's sign; dividing by zero clears both.  The quotient of the least integer by
   * -1, which C leaves undefined, is excluded.
   */
  lemma DivideTruncates(op: Op, hi: Word, lo: Word)
    requires op.opcode == OP_SPECIAL && op.subop == 0x1a
    requires !(op.regSrc1Value == 0x8000_0000 && op.regSrc2Value == 0xFFFF_FFFF)
    ensures var a, b, q, r :=
              Signed(op.regSrc1Value), Signed(op.regSrc2Value), Signed(LoAfter(op, lo)), Signed(HiAfter(op, hi));
      if b == 0 then q == 0 && r == 0
      else a == q * b + r && Magnitude(r) < Magnitude(b) && (r == 0 || (r < 0 <==> a < 0))
  {
    hide Quotient, Remainder, Wrap;
    var a, b := Signed(op.regSrc1Value), Signed(op.regSrc2Value);
    if b != 0 {
      QuotientBounds(a, b);
      QuotientFits(a, b);
      SignedWrap(Quotient(a, b));
      SignedWrap(Remainder(a, b));
    }
  }

  lemma SignedWrap(x: int)
    requires -0x8000_0000 <= x < 0x8000_0000
    ensures Signed(Wrap(x)) == x
  {
  }

  lemma QuotientFits(a: int, b: int)
    requires b != 0 && -0x8000_0000 <= a < 0x8000_0000 && -0x8000_0000 <= b < 0x8000_0000
    requires !(a == -0x8000_0000 && b == -1)
    ensures -0x8000_0000 <= Quotient(a, b) < 0x8000_0000
  {
    QuotientBounds(a, b);
    if a == -0x8000_0000 && b < 0 {
      assert Magnitude(b) >= 2;
      assert Magnitude(a) / Magnitude(b) < 0x8000_0000;
    }
  }

  lemma DivideUnsigned(op: Op, hi: Word, lo: Word)
    requires op.opcode == OP_SPECIAL && op.subop == 0x1b
    ensures var a, b, q, r := op.regSrc1Value, op.regSrc2Value, LoAfter(op, lo), HiAfter(op, hi);
      if b == 0 then q == 0 && r == 0 else a == q * b + r && r < b
  {
    var a, b := op.regSrc1Value, op.regSrc2Value;
    if b != 0 {
      DivMod(a, b);
    }
  }

  // ---------- Bytes of a word ----------

  /** Byte `k` of a word, 0 being the lowest. */
  function ByteAt(word: Word, k: nat): nat {
    Shr(word, 8 * k) % 0x100
  }

  lemma FourBytes(word: Word)
    ensures word == ByteAt(word, 0) + 0x100 * ByteAt(word, 1) + 0x1_0000 * ByteAt(word, 2) + 0x100_0000 * ByteAt(word, 3)
    ensures ByteAt(word, 0) == word % 0x100 && ByteAt(word, 1) == word / 0x100 % 0x100
    ensures ByteAt(word, 2) == word / 0x1_0000 % 0x100 && ByteAt(word, 3) == word / 0x100_0000
  {
    hide Shr;
    ShrBytes(word);
    Digits(word);
    assert ByteAt(word, 0) == Shr(word, 0) % 0x100 && ByteAt(word, 1) == Shr(word, 8) % 0x100;
    assert ByteAt(word, 2) == Shr(word, 16) % 0x100 && ByteAt(word, 3) == Shr(word, 24) % 0x100;
  }

  lemma Digits(x: nat)
    requires x < WORDS
    ensures x == x % 0x100 + 0x100 * (x / 0x100 % 0x100) + 0x1_0000 * (x / 0x1_0000 % 0x100) + 0x100_0000 * (x / 0x100_0000)
    ensures x / 0x100_0000 < 0x100
  {
    var q := x / 0x100;
    var r := q / 0x100;
    assert x == x % 0x100 + 0x100 * q;
    assert q == q % 0x100 + 0x100 * r && r == x / 0x1_0000;
    assert r == r % 0x100 + 0x100 * (r / 0x100) && r / 0x100 == x / 0x100_0000;
  }

  lemma ShrByte(x: nat)
    ensures Shr(x, 8) == x / 0x100
  {
    ShrOnce(x, 0);
    ShrOnce(x, 1);
    ShrOnce(x, 2);
    ShrOnce(x, 3);
    ShrOnce(x, 4);
    ShrOnce(x, 5);
    ShrOnce(x, 6);
    ShrOnce(x, 7);
  }

  lemma ShrBytes(word: nat)
    ensures Shr(word, 0) == word && Shr(word, 8) == word / 0x100
    ensures Shr(word, 16) == word / 0x1_0000 && Shr(word, 24) == word / 0x100_0000
  {
    hide Shr;
    ShrByte(word);
    ShrByte(Shr(word, 8));
    ShrByte(Shr(word, 16));
    Bits.ShrShr(word, 8, 8);
    Bits.ShrShr(word, 16, 8);
    assert word / 0x100 / 0x100 == word / 0x1_0000 && word / 0x1_0000 / 0x100 == word / 0x100_0000;
    ShrNothing(word);
  }

  lemma ShrNothing(x: nat)
    ensures Shr(x, 0) == x
  {
  }

  lemma Scales()
    ensures Pow2(0) == 1 && Pow2(8) == 0x100 && Pow2(16) == 0x1_0000 && Pow2(24) == 0x100_0000
  {
    Pow2Add(8, 8);
    Pow2Add(16, 8);
  }

  /** The word with these bytes, lowest first. */
  function WordOf(b0: nat, b1: nat, b2: nat, b3: nat): int {
    b0 + 0x100 * b1 + 0x1_0000 * b2 + 0x100_0000 * b3
  }

  predicate AreBytes(b0: nat, b1: nat, b2: nat, b3: nat) {
    b0 < 0x100 && b1 < 0x100 && b2 < 0x100 && b3 < 0x100
  }

  lemma BytesOfWord(b0: nat, b1: nat, b2: nat, b3: nat)
    requires AreBytes(b0, b1, b2, b3)
    ensures 0 <= WordOf(b0, b1, b2, b3) < WORDS
    ensures var w: Word := WordOf(b0, b1, b2, b3);
      ByteAt(w, 0) == b0 && ByteAt(w, 1) == b1 && ByteAt(w, 2) == b2 && ByteAt(w, 3) == b3
  {
    hide ByteAt;
    var w: Word := WordOf(b0, b1, b2, b3);
    FourBytes(w);
    LowByte(b0, b1 + 0x100 * b2 + 0x1_0000 * b3);
    LowByte(b1, b2 + 0x100 * b3);
    LowByte(b2, b3);
    QuotientOfQuotient(w);
  }

  lemma LowByte(low: nat, high: nat)
    requires low < 0x100
    ensures (low + 0x100 * high) % 0x100 == low && (low + 0x100 * high) / 0x100 == high
  {
  }

  lemma QuotientOfQuotient(w: Word)
    ensures w / 0x1_0000 == w / 0x100 / 0x100 && w / 0x100_0000 == w / 0x100 / 0x100 / 0x100
  {
  }

  lemma ByteIsSmall(word: Word, k: nat)
    ensures ByteAt(word, k) < 0x100
  {
  }

  /** The word as its four bytes. */
  lemma Bytes(word: Word) returns (b0: nat, b1: nat, b2: nat, b3: nat)
    ensures AreBytes(b0, b1, b2, b3) && word == WordOf(b0, b1, b2, b3)
    ensures ByteAt(word, 0) == b0 && ByteAt(word, 1) == b1 && ByteAt(word, 2) == b2 && ByteAt(word, 3) == b3
  {
    hide ByteAt;
    FourBytes(word);
    ByteIsSmall(word, 0);
    ByteIsSmall(word, 1);
    ByteIsSmall(word, 2);
    ByteIsSmall(word, 3);
    b0, b1, b2, b3 := ByteAt(word, 0), ByteAt(word, 1), ByteAt(word, 2), ByteAt(word, 3);
  }

  lemma WrapNarrow(x: int)
    requires 0 <= x < WORDS
    ensures Wrap(x) == x
  {
  }

  /** SB subtracts the old byte at its scale and adds the new one. */
  lemma StoreByteScaled(op: Op, word: Word, before: nat, scale: nat, after: nat)
    requires op.opcode == 0x28 && ByteOf(word, op.memAddr) == before && Pow2(8 * (op.memAddr % 4)) == scale
    requires after == op.memValue % 0x100 && 0 <= word - before * scale + after * scale < WORDS
    ensures StoreResult(op, word) == word - before * scale + after * scale
  {
    hide Pow2, ByteOf, Wrap;
    WrapNarrow(word - before * scale + after * scale);
  }

  lemma StoredByteWord(op: Op, word: Word, b0: nat, b1: nat, b2: nat, b3: nat)
    requires op.opcode == 0x28 && AreBytes(b0, b1, b2, b3) && word == WordOf(b0, b1, b2, b3)
    requires ByteOf(word, op.memAddr) == (match op.memAddr % 4 case 0 => b0 case 1 => b1 case 2 => b2 case _ => b3)
    ensures var k, v := op.memAddr % 4, op.memValue % 0x100;
      StoreResult(op, word) == WordOf(if k == 0 then v else b0, if k == 1 then v else b1,
                                      if k == 2 then v else b2, if k == 3 then v else b3)
  {
    hide Pow2, ByteOf, StoreResult;
    var k, v := op.memAddr % 4, op.memValue % 0x100;
    Scales();
    if k == 0 {
      StoreByteScaled(op, word, b0, 1, v);
    } else if k == 1 {
      StoreByteScaled(op, word, b1, 0x100, v);
    } else if k == 2 {
      StoreByteScaled(op, word, b2, 0x1_0000, v);
    } else {
      StoreByteScaled(op, word, b3, 0x100_0000, v);
    }
  }

  /** SB replaces the byte at its address and leaves the other three. */
  lemma StoreByteReplaces(op: Op, word: Word, j: nat)
    requires op.opcode == 0x28 && j < 4
    ensures ByteAt(StoreResult(op, word), j) == if j == op.memAddr % 4 then op.memValue % 0x100 else ByteAt(word, j)
  {
    hide ByteAt, StoreResult, WordOf, ByteOf;
    var k, v := op.memAddr % 4, op.memValue % 0x100;
    var b0, b1, b2, b3 := Bytes(word);
    ByteOfIs(op, word);
    StoredByteWord(op, word, b0, b1, b2, b3);
    BytesOfWord(if k == 0 then v else b0, if k == 1 then v else b1, if k == 2 then v else b2, if k == 3 then v else b3);
  }

  lemma ByteOfIs(op: Op, word: Word)
    ensures ByteOf(word, op.memAddr) == ByteAt(word, op.memAddr % 4)
  {
    hide Shr;
  }

  lemma StoredHalfWord(op: Op, word: Word, b0: nat, b1: nat, b2: nat, b3: nat, v0: nat, v1: nat, v2: nat, v3: nat)
    requires op.opcode == 0x29 && AreBytes(b0, b1, b2, b3) && AreBytes(v0, v1, v2, v3)
    requires word == WordOf(b0, b1, b2, b3) && op.memValue == WordOf(v0, v1, v2, v3)
    ensures StoreResult(op, word)
         == if op.memAddr / 2 % 2 == 1 then WordOf(b0, b1, v0, v1) else WordOf(v0, v1, b2, b3)
  {
    hide Wrap;
    HalvesOf(b0, b1, b2, b3);
    HalvesOf(v0, v1, v2, v3);
    if op.memAddr / 2 % 2 == 1 {
      HighHalf(word % 0x1_0000, op.memValue);
    } else {
      WrapNarrow(WordOf(v0, v1, b2, b3));
    }
  }

  lemma HighHalf(low: nat, value: Word)
    requires low < 0x1_0000
    ensures Wrap(low + value * 0x1_0000) == low + value % 0x1_0000 * 0x1_0000
  {
    assert value == value / 0x1_0000 * 0x1_0000 + value % 0x1_0000;
    assert low + value * 0x1_0000 == WORDS * (value / 0x1_0000) + (low + value % 0x1_0000 * 0x1_0000);
  }

  /** SH replaces the two bytes of the half word at its address and leaves the other two. */
  lemma StoreHalfReplaces(op: Op, word: Word, j: nat)
    requires op.opcode == 0x29 && j < 4
    ensures ByteAt(StoreResult(op, word), j)
         == if j / 2 == op.memAddr / 2 % 2 then ByteAt(op.memValue, j % 2) else ByteAt(word, j)
  {
    hide ByteAt, StoreResult, WordOf;
    var b0, b1, b2, b3 := Bytes(word);
    var v0, v1, v2, v3 := Bytes(op.memValue);
    StoredHalfWord(op, word, b0, b1, b2, b3, v0, v1, v2, v3);
    BytesOfWord(v0, v1, b2, b3);
    BytesOfWord(b0, b1, v0, v1);
  }

  lemma HalvesOf(b0: nat, b1: nat, b2: nat, b3: nat)
    requires AreBytes(b0, b1, b2, b3)
    ensures WordOf(b0, b1, b2, b3) % 0x1_0000 == b0 + 0x100 * b1
    ensures WordOf(b0, b1, b2, b3) / 0x1_0000 == b2 + 0x100 * b3
  {
  }

  /** A value read with its sign is the value modulo the width, in the signed range. */
  lemma SignExtendIsSigned(x: nat)
    ensures x < 0x100 ==> Signed(SignExtend(x, 8)) == if x < 0x80 then x else x - 0x100
    ensures x < 0x1_0000 ==> Signed(SignExtend(x, 16)) == if x < 0x8000 then x else x - 0x1_0000
  {
    hide Pow2, LowBits;
    Scales();
    Halves();
    if x < 0x1_0000 {
      NarrowLow(x, 16);
    }
    if x < 0x100 {
      NarrowLow(x, 8);
    }
  }

  lemma Halves()
    ensures Pow2(7) == 0x80 && Pow2(15) == 0x8000
  {
    Pow2Add(7, 8);
  }

  lemma {:induction false} NarrowLow(x: nat, n: nat)
    requires x < Pow2(n)
    ensures LowBits(x, n) == x
  {
    if n > 0 {
      NarrowLow(x / 2, n - 1);
    }
  }

  /** A byte or half word stored and loaded back without sign is the stored value cut to its width. */
  lemma StoreThenLoad(store: Op, load: Op, word: Word)
    requires load.memAddr == store.memAddr
    ensures store.opcode == 0x28 && load.opcode == 0x24 ==>
              LoadResult(load, StoreResult(store, word)) == store.memValue % 0x100
    ensures store.opcode == 0x29 && load.opcode == 0x25 ==>
              LoadResult(load, StoreResult(store, word)) == store.memValue % 0x1_0000
    ensures store.opcode == 0x2b && load.opcode == 0x23 ==>
              LoadResult(load, StoreResult(store, word)) == store.memValue
  {
    hide ByteAt, StoreResult, Shr;
    if store.opcode == 0x28 {
      StoreByteReplaces(store, word, store.memAddr % 4);
      ByteOfIs(load, StoreResult(store, word));
    } else if store.opcode == 0x29 {
      var h := store.memAddr / 2 % 2;
      StoreHalfReplaces(store, word, 2 * h);
      StoreHalfReplaces(store, word, 2 * h + 1);
      var b0, b1, b2, b3 := Bytes(StoreResult(store, word));
      var v0, v1, v2, v3 := Bytes(store.memValue);
      HalvesOf(b0, b1, b2, b3);
      HalvesOf(v0, v1, v2, v3);
    } else {
      StoreWordReplaces(store, word);
    }
  }

  lemma StoreWordReplaces(op: Op, word: Word)
    ensures op.opcode == 0x2b ==> StoreResult(op, word) == op.memValue
  {
  }
}
