/**
 * What the DRAM address map computes, bit by bit: which bits of the address make up each index, and
 * which bits of the row are added to them.
 */
module AddressHash {
  import opened Collections
  import opened Powers
  import opened Bits
  import opened AddressMap

  /** How many of the `n` bits start, start + step, start + 2 step, ... of `x` are set. */
  function Ones(x: nat, start: nat, step: nat, n: nat): nat
    decreases n
  {
    if n == 0 then 0 else Bit(x, start) + Ones(x, start + step, step, n - 1)
  }

  // ---------- Plain fields ----------

  /** The `size` bits of an address above its lowest `low` ones, as a number. */
  function BitsAbove(address: nat, low: nat, size: nat): nat {
    ShrDivides(address, low);
    LowBitsRemain(Shr(address, low), size);
    address / Pow2(low) % Pow2(size)
  }

  /** A field is the quotient by the size of all lower fields, modulo its own size. */
  lemma FieldDivides(sizes: seq<nat>, address: nat, i: nat)
    requires i < |sizes|
    ensures Field(sizes, address, i) == BitsAbove(address, SumOf(sizes[..i]), sizes[i])
  {
    hide Shr, LowBits, Pow2, SumOf;
    ShrDivides(address, SumOf(sizes[..i]));
    LowBitsRemain(Shr(address, SumOf(sizes[..i])), sizes[i]);
  }

  /** The fields of an address, lowest first: offset, channel, bank group, bank, column, rank, row. */
  lemma FieldOrder(sizes: seq<nat>, address: nat)
    requires Hashable(sizes)
    ensures var s, l := sizes, Locate(sizes, address);
      && l.offset == BitsAbove(address, 0, s[0])
      && l.column == BitsAbove(address, s[0] + s[1] + s[2] + s[3], s[4])
      && l.rank == BitsAbove(address, s[0] + s[1] + s[2] + s[3] + s[4], s[5])
      && l.row == BitsAbove(address, s[0] + s[1] + s[2] + s[3] + s[4] + s[5], s[6])
  {
    hide SwizzleFrom, BitsAbove, Field, SumOf;
    FieldDivides(sizes, address, OFFSET);
    FieldDivides(sizes, address, COLUMN);
    FieldDivides(sizes, address, RANK);
    FieldDivides(sizes, address, ROW);
    Prefixes(sizes);
  }

  lemma Prefixes(sizes: seq<nat>)
    requires |sizes| == FIELDS
    ensures SumOf(sizes[..0]) == 0 && SumOf(sizes[..1]) == sizes[0] && SumOf(sizes[..2]) == sizes[0] + sizes[1]
    ensures SumOf(sizes[..3]) == sizes[0] + sizes[1] + sizes[2]
    ensures SumOf(sizes[..4]) == sizes[0] + sizes[1] + sizes[2] + sizes[3]
    ensures SumOf(sizes[..5]) == sizes[0] + sizes[1] + sizes[2] + sizes[3] + sizes[4]
    ensures SumOf(sizes[..6]) == sizes[0] + sizes[1] + sizes[2] + sizes[3] + sizes[4] + sizes[5]
  {
    hide SumOf;
    SumOfNone();
    SumNext(sizes, 0);
    SumNext(sizes, 1);
    SumNext(sizes, 2);
    SumNext(sizes, 3);
    SumNext(sizes, 4);
    SumNext(sizes, 5);
  }

  // ---------- Hashed fields ----------

  lemma BitBeyond(x: nat, n: nat, p: nat)
    requires x < Pow2(n) && p >= n
    ensures Bit(x, p) == 0
  {
    LowOfNarrow(x, n);
    BitOfLow(x, n, p);
  }

  /** One segment of the row gives field bit `k` its own bit offset + k, if it has one. */
  lemma SegmentBit(row: Slice, lower: nat, segmentSize: nat, offset: nat, fieldBits: nat, k: nat)
    requires Proper(row.extent) && row.value < Pow2(Size(row.extent))
    ensures Bit(Segment(row, lower, segmentSize, offset, fieldBits), k)
         == if k < fieldBits && offset + k < segmentSize then Bit(row.value, lower + offset + k) else 0
  {
    hide Bit, Pow2, Shr, LowBits;
    var first := Part(row, FromSize(lower, segmentSize));
    var m, n := Size(first.extent), Size(Part(first, FromSize(offset, fieldBits)).extent);
    BitOfLow(Shr(first.value, offset), n, k);
    BitOfShr(first.value, offset, k);
    BitOfLow(Shr(row.value, lower), m, offset + k);
    BitOfShr(row.value, lower, offset + k);
    if lower + offset + k >= Size(row.extent) {
      BitBeyond(row.value, Size(row.extent), lower + offset + k);
    }
  }

  /** The segments the loop goes through from `lower` on. */
  function Rounds(upper: nat, lower: nat, segmentSize: nat): nat
    requires segmentSize > 0
    decreases upper - lower
  {
    if lower + segmentSize > upper then 0 else 1 + Rounds(upper, lower + segmentSize, segmentSize)
  }

  lemma {:induction false} RoundsFit(upper: nat, lower: nat, segmentSize: nat)
    requires segmentSize > 0 && lower <= upper
    ensures var n := Rounds(upper, lower, segmentSize);
      lower + n * segmentSize <= upper < lower + n * segmentSize + segmentSize
    decreases upper - lower
  {
    if lower + segmentSize <= upper {
      RoundsFit(upper, lower + segmentSize, segmentSize);
      var n := Rounds(upper, lower, segmentSize);
      assert n * segmentSize == (n - 1) * segmentSize + segmentSize;
    }
  }

  lemma RoundsAre(upper: nat, segmentSize: nat)
    requires segmentSize > 0
    ensures Rounds(upper, 0, segmentSize) == upper / segmentSize
  {
    RoundsFit(upper, 0, segmentSize);
    var n := Rounds(upper, 0, segmentSize);
    QuotientUnique(upper, segmentSize, n, upper - n * segmentSize);
  }

  lemma PlusIsParity(a: nat, b: nat, n: nat)
    requires a <= 1 && b <= 1
    ensures (Plus(a, b) + n) % 2 == (a + (b + n)) % 2
  {
  }

  lemma {:induction false} SwizzleBit(row: Slice, lower: nat, segmentSize: nat, offset: nat, field: nat, fieldBits: nat, k: nat)
    requires Proper(row.extent) && row.value < Pow2(Size(row.extent)) && segmentSize > 0
    ensures Bit(SwizzleFrom(row, lower, segmentSize, offset, field, fieldBits), k)
         == (Bit(field, k) + if k < fieldBits && offset + k < segmentSize
                             then Ones(row.value, lower + offset + k, segmentSize, Rounds(row.extent.upper, lower, segmentSize))
                             else 0) % 2
    decreases row.extent.upper - lower
  {
    hide Bit, Pow2, Segment, Xor, Plus;
    if lower + segmentSize <= row.extent.upper {
      var s := Segment(row, lower, segmentSize, offset, fieldBits);
      SegmentBit(row, lower, segmentSize, offset, fieldBits, k);
      SwizzleBit(row, lower + segmentSize, segmentSize, offset, Xor(field, s), fieldBits, k);
      BitOfXor(field, s, k);
      var rest := Ones(row.value, lower + segmentSize + offset + k, segmentSize,
                       Rounds(row.extent.upper, lower + segmentSize, segmentSize));
      PlusIsParity(Bit(field, k), Bit(s, k), rest);
      PlusIsParity(Bit(field, k), Bit(s, k), 0);
    }
  }

  /** What the row adds to bit `k` of a field: the parity of every `step`-th of its bits. */
  function RowParity(sizes: seq<nat>, address: nat, start: nat, step: nat): nat
    requires Hashable(sizes) && step > 0
  {
    RoundsAre(SumOf(sizes), step);
    Ones(Locate(sizes, address).row, start, step, SumOf(sizes) / step) % 2
  }

  lemma HashedBit(sizes: seq<nat>, address: nat, segmentSize: nat, offset: nat, field: nat, fieldBits: nat, k: nat)
    requires Hashable(sizes) && segmentSize > 0
    ensures var row := OfAddress(FieldExtent(sizes, ROW), address);
      Bit(SwizzleFrom(row, 0, segmentSize, offset, field, fieldBits), k)
      == (Bit(field, k) + if k < fieldBits && offset + k < segmentSize
                          then RowParity(sizes, address, offset + k, segmentSize) else 0) % 2
  {
    hide Bit, SwizzleFrom, Shr, LowBits, Ones, SumOf;
    var row := OfAddress(FieldExtent(sizes, ROW), address);
    assert sizes[..ROW + 1] == sizes;
    SwizzleBit(row, 0, segmentSize, offset, field, fieldBits, k);
    RoundsAre(row.extent.upper, segmentSize);
    RowValue(sizes, address);
  }

  lemma RowValue(sizes: seq<nat>, address: nat)
    requires Hashable(sizes)
    ensures Locate(sizes, address).row == OfAddress(FieldExtent(sizes, ROW), address).value
  {
    hide SwizzleFrom;
  }

  /**
   * The lowest bit of the channel is its address bit plus the parity of the whole row; with g bank
   * group and b bank bits, bit k of the bank group (of the bank) is its address bit plus the parity of
   * the row bits k, k + (g + b), ... (g + k, g + k + (g + b), ...).
   */
  lemma HashedBits(sizes: seq<nat>, address: nat, k: nat)
    requires Hashable(sizes)
    ensures var l, g, b := Locate(sizes, address), sizes[BANKGROUP], sizes[BANK];
      && (k < sizes[CHANNEL] ==>
            Bit(l.channel, k) == (Bit(address, sizes[0] + k) + if k == 0 then RowParity(sizes, address, 0, 1) else 0) % 2)
      && (k < g ==>
            Bit(l.bankgroup, k)
            == (Bit(address, sizes[0] + sizes[1] + k) + RowParity(sizes, address, k, g + b)) % 2)
      && (k < b ==>
            Bit(l.bank, k)
            == (Bit(address, sizes[0] + sizes[1] + g + k) + RowParity(sizes, address, g + k, g + b)) % 2)
  {
    hide Locate, Bit, SumOf, RowParity;
    Prefixes(sizes);
    if k < sizes[CHANNEL] {
      ChannelBit(sizes, address, k);
    }
    if k < sizes[BANKGROUP] {
      BankgroupBit(sizes, address, k);
    }
    if k < sizes[BANK] {
      BankBit(sizes, address, k);
    }
  }

  lemma ChannelBit(sizes: seq<nat>, address: nat, k: nat)
    requires Hashable(sizes) && k < sizes[CHANNEL]
    ensures Bit(Locate(sizes, address).channel, k)
         == (Bit(address, SumOf(sizes[..CHANNEL]) + k) + if k == 0 then RowParity(sizes, address, 0, 1) else 0) % 2
  {
    hide SwizzleFrom, Bit, SumOf, RowParity, Field, OfAddress, FieldExtent;
    HashedBit(sizes, address, 1, 0, Field(sizes, address, CHANNEL), sizes[CHANNEL], k);
    FieldBit(sizes, address, CHANNEL, k);
  }

  lemma BankgroupBit(sizes: seq<nat>, address: nat, k: nat)
    requires Hashable(sizes) && k < sizes[BANKGROUP]
    ensures Bit(Locate(sizes, address).bankgroup, k)
         == (Bit(address, SumOf(sizes[..BANKGROUP]) + k) + RowParity(sizes, address, k, sizes[BANKGROUP] + sizes[BANK])) % 2
  {
    hide SwizzleFrom, Bit, SumOf, RowParity, Field, OfAddress, FieldExtent;
    HashedBit(sizes, address, sizes[BANKGROUP] + sizes[BANK], 0, Field(sizes, address, BANKGROUP), sizes[BANKGROUP], k);
    FieldBit(sizes, address, BANKGROUP, k);
  }

  lemma BankBit(sizes: seq<nat>, address: nat, k: nat)
    requires Hashable(sizes) && k < sizes[BANK]
    ensures var g := sizes[BANKGROUP];
      Bit(Locate(sizes, address).bank, k)
      == (Bit(address, SumOf(sizes[..BANK]) + k) + RowParity(sizes, address, g + k, g + sizes[BANK])) % 2
  {
    hide SwizzleFrom, Bit, SumOf, RowParity, Field, OfAddress, FieldExtent;
    var g := sizes[BANKGROUP];
    HashedBit(sizes, address, g + sizes[BANK], g, Field(sizes, address, BANK), sizes[BANK], k);
    FieldBit(sizes, address, BANK, k);
  }

  lemma FieldBit(sizes: seq<nat>, address: nat, i: nat, k: nat)
    requires i < |sizes|
    ensures Bit(Field(sizes, address, i), k) == if k < sizes[i] then Bit(address, SumOf(sizes[..i]) + k) else 0
  {
    hide Bit, Shr, LowBits, SumOf;
    BitOfLow(Shr(address, SumOf(sizes[..i])), sizes[i], k);
    BitOfShr(address, SumOf(sizes[..i]), k);
  }

  // ---------- The logarithm ----------

  /** lg2 is the base-two logarithm, rounded down; the sizes of an accepted memory are exact. */
  lemma {:induction false} Lg2Is(n: nat)
    requires n >= 1
    ensures Pow2(Lg2(n)) <= n < Pow2(Lg2(n) + 1)
    decreases n
  {
    if n > 1 {
      Lg2Is(n / 2);
    }
  }

  /** The location of an address of a memory whose dimensions the constructor accepts: each index below its dimension. */
  lemma IndicesBelowDimensions(d: Dimensions, address: nat)
    requires Sane(d) && d.bankgroups * d.banks > 1
    ensures Hashable(Sizes(d))
    ensures var l := Locate(Sizes(d), address);
      && l.channel < d.channels && l.bankgroup < d.bankgroups && l.bank < d.banks && l.rank < d.ranks && l.row < d.rows
      && l.column < Pow2(Sizes(d)[COLUMN]) && d.columns == Pow2(Sizes(d)[COLUMN]) * d.prefetch
  {
    hide Lg2, Locate, SumOf;
    BankLoopsEndIff(d, address);
    SwizzleTerminatesIff(RowOf(d, address), BankSegment(d));
    LocationsAreInRange(Sizes(d), address);
    ShlIsTimes(d.prefetch, Sizes(d)[COLUMN]);
  }
}
