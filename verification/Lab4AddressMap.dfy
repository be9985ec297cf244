/**
 * The hashed DRAM address map: contiguous fields of an address, with the channel, bank group and
 * bank fields hashed by row bits.  It is a bijection onto the locations of the memory.
 */
module AddressMap {
  import opened Collections
  import opened Powers
  import opened Bits

  // ---------- Extents and slices ----------

  datatype Extent = Extent(upper: nat, lower: nat)

  predicate Proper(e: Extent) {
    e.upper >= e.lower
  }

  function Size(e: Extent): nat
    requires Proper(e)
  {
    e.upper - e.lower
  }

  /** The extent given by a lower limit and a size. */
  function FromSize(lower: nat, size: nat): (e: Extent)
    ensures Proper(e)
  {
    Extent(lower + size, lower)
  }

  /** A part of an extent, clipped to it. */
  function RelativeExtent(outer: Extent, part: Extent): (e: Extent)
    requires Proper(outer) && Proper(part)
    ensures Proper(e)
  {
    Extent(outer.lower + Min(part.upper, Size(outer)), outer.lower + Min(part.lower, Size(outer)))
  }

  predicate Contains(e: Extent, bit: nat) {
    e.lower <= bit < e.upper
  }

  /** The relative extent has those bits of the part that the outer extent has, counted from the outer's lowest. */
  lemma RelativeExtentClips(outer: Extent, part: Extent, bit: nat)
    requires Proper(outer) && Proper(part)
    ensures Contains(RelativeExtent(outer, part), outer.lower + bit)
      <==> Contains(part, bit) && Contains(outer, outer.lower + bit)
    ensures Contains(RelativeExtent(outer, part), bit) ==> Contains(outer, bit)
  {
  }

  datatype Slice = Slice(extent: Extent, value: nat)

  /** A slice made from a raw value keeps as many bits as its extent has. */
  function FromValue(e: Extent, value: nat): Slice
    requires Proper(e)
  {
    Slice(e, LowBits(value, Size(e)))
  }

  /** A slice of a full address (which starts at bit 0): mask and shift down. */
  function OfAddress(e: Extent, address: nat): Slice
    requires Proper(e)
  {
    Slice(e, LowBits(Shr(address, e.lower), Size(e)))
  }

  function Part(s: Slice, part: Extent): Slice
    requires Proper(s.extent) && Proper(part)
  {
    FromValue(RelativeExtent(s.extent, part), Shr(s.value, part.lower))
  }

  // ---------- Contiguous fields ----------

  function SumOf(sizes: seq<nat>): nat {
    if |sizes| == 0 then 0 else SumOf(sizes[..|sizes| - 1]) + sizes[|sizes| - 1]
  }

  /** make_contiguous_extent_set: each field starts where the one before it ends. */
  function FieldExtent(sizes: seq<nat>, i: nat): (e: Extent)
    requires i < |sizes|
    ensures Proper(e) && Size(e) == sizes[i]
  {
    assert sizes[..i + 1][..i] == sizes[..i];
    Extent(SumOf(sizes[..i + 1]), SumOf(sizes[..i]))
  }

  /** Every bit below the sum of the sizes is in exactly one field; the first field starts at bit 0. */
  lemma {:induction false} FieldsPartitionBits(sizes: seq<nat>, bit: nat) returns (i: nat)
    requires bit < SumOf(sizes)
    ensures i < |sizes| && Contains(FieldExtent(sizes, i), bit)
    ensures forall j :: 0 <= j < |sizes| && Contains(FieldExtent(sizes, j), bit) ==> j == i
    ensures FieldExtent(sizes, 0).lower == 0
    ensures forall j: nat, k: nat :: j < |sizes| && k < |sizes| && k == j + 1 ==>
              FieldExtent(sizes, k).lower == FieldExtent(sizes, j).upper
    decreases |sizes|
  {
    var n := |sizes| - 1;
    assert sizes[..n + 1] == sizes;
    if bit >= SumOf(sizes[..n]) {
      i := n;
    } else {
      i := FieldsPartitionBits(sizes[..n], bit);
      assert sizes[..n][..i] == sizes[..i] && sizes[..n][..i + 1] == sizes[..i + 1];
    }
    forall j | 0 <= j < |sizes| && Contains(FieldExtent(sizes, j), bit) ensures j == i {
      SumsGrow(sizes, i, j);
    }
  }

  /** Fields follow one another. */
  lemma SumsGrow(sizes: seq<nat>, i: nat, j: nat)
    requires i < |sizes| && j < |sizes|
    ensures i < j ==> FieldExtent(sizes, i).upper <= FieldExtent(sizes, j).lower
    ensures j < i ==> FieldExtent(sizes, j).upper <= FieldExtent(sizes, i).lower
  {
    if i < j {
      SumGrows(sizes, i + 1, j);
    } else if j < i {
      SumGrows(sizes, j + 1, i);
    }
  }

  function Field(sizes: seq<nat>, address: nat, i: nat): nat
    requires i < |sizes|
  {
    OfAddress(FieldExtent(sizes, i), address).value
  }

  /** The position of the highest set bit, by shifting (lg2). */
  function Lg2(n: nat): (r: nat)
    decreases n
  {
    if n <= 1 then 0 else 1 + Lg2(n / 2)
  }

  datatype Dimensions = Dimensions(
    channelWidth: nat, prefetch: nat, channels: nat, bankgroups: nat, banks: nat, columns: nat, ranks: nat, rows: nat)

  const OFFSET := 0
  const CHANNEL := 1
  const BANKGROUP := 2
  const BANK := 3
  const COLUMN := 4
  const RANK := 5
  const ROW := 6
  const FIELDS := 7

  /** make_slicer: the field sizes, lowest field first. */
  function Sizes(d: Dimensions): (s: seq<nat>)
    requires d.prefetch > 0
    ensures |s| == FIELDS
  {
    [Lg2(d.channelWidth * d.prefetch), Lg2(d.channels), Lg2(d.bankgroups), Lg2(d.banks), Lg2(d.columns / d.prefetch),
     Lg2(d.ranks), Lg2(d.rows)]
  }

  /** The constructor's sanity checks, for a memory that fits a 64-bit address. */
  predicate Sane(d: Dimensions) {
    && d.prefetch > 0 && SumOf(Sizes(d)) <= 64
    && d.channels == Pow2(Sizes(d)[CHANNEL]) && d.bankgroups == Pow2(Sizes(d)[BANKGROUP])
    && d.columns == Shl(d.prefetch, Sizes(d)[COLUMN])
    && d.banks == Pow2(Sizes(d)[BANK]) && d.ranks == Pow2(Sizes(d)[RANK]) && d.rows == Pow2(Sizes(d)[ROW])
  }

  // ---------- Hashing ----------

  /** One round of the hash: the part of the row's segment that goes with the field. */
  function Segment(row: Slice, lower: nat, segmentSize: nat, offset: nat, fieldBits: nat): nat
    requires Proper(row.extent)
  {
    Part(Part(row, FromSize(lower, segmentSize)), FromSize(offset, fieldBits)).value
  }

  /** The loop of swizzle_bits from the segment at `lower` on; segments past the row's own bits are empty. */
  function SwizzleFrom(row: Slice, lower: nat, segmentSize: nat, offset: nat, field: nat, fieldBits: nat): nat
    requires Proper(row.extent) && segmentSize > 0
    decreases row.extent.upper - lower
  {
    if lower + segmentSize > row.extent.upper then field
    else
      SwizzleFrom(row, lower + segmentSize, segmentSize, offset,
                  Xor(field, Segment(row, lower, segmentSize, offset, fieldBits)), fieldBits)
  }

  /** After `n` rounds the loop stands at this segment. */
  function LowerAfter(segmentSize: nat, n: nat): nat {
    if n == 0 then 0 else LowerAfter(segmentSize, n - 1) + segmentSize
  }

  /** The loop of swizzle_bits comes to a segment that passes the end of the row. */
  ghost predicate LoopEnds(row: Slice, segmentSize: nat) {
    exists n: nat :: LowerAfter(segmentSize, n) + segmentSize > row.extent.upper
  }

  /** The loop ends exactly when its segments are not empty. */
  lemma SwizzleTerminatesIff(row: Slice, segmentSize: nat)
    requires Proper(row.extent)
    ensures LoopEnds(row, segmentSize) <==> segmentSize > 0
  {
    if segmentSize > 0 {
      LowerGrows(segmentSize, row.extent.upper);
    } else {
      forall n: nat ensures LowerAfter(0, n) == 0 {
        LowerStays(n);
      }
    }
  }

  /** The segments of get_bank and get_bankgroup have as many bits as both fields together. */
  function BankSegment(d: Dimensions): nat
    requires d.prefetch > 0
  {
    Sizes(d)[BANKGROUP] + Sizes(d)[BANK]
  }

  function RowOf(d: Dimensions, address: nat): Slice
    requires d.prefetch > 0
  {
    OfAddress(FieldExtent(Sizes(d), ROW), address)
  }

  /** For accepted dimensions get_bank and get_bankgroup return, at any address, exactly if there is more than one bank. */
  lemma BankLoopsEndIff(d: Dimensions, address: nat)
    requires Sane(d)
    ensures LoopEnds(RowOf(d, address), BankSegment(d)) <==> d.bankgroups * d.banks > 1
  {
    hide LoopEnds, Lg2;
    SwizzleTerminatesIff(RowOf(d, address), BankSegment(d));
    Pow2Add(Sizes(d)[BANKGROUP], Sizes(d)[BANK]);
    Pow2AboveOne(BankSegment(d));
  }

  lemma Pow2AboveOne(n: nat)
    ensures Pow2(n) > 1 <==> n > 0
  {
  }

  /** A small memory with a single bank. */
  const ONE_BANK: Dimensions := Dimensions(8, 8, 1, 1, 1, 64, 1, 64)

  lemma OneBankSizes()
    ensures Sizes(ONE_BANK) == [6, 0, 0, 0, 3, 0, 6]
  {
    assert Lg2(64) == 6 && Lg2(1) == 0 && Lg2(8) == 3;
  }

  lemma OneBankSum()
    ensures SumOf([6, 0, 0, 0, 3, 0, 6]) == 15
  {
    var s := [6, 0, 0, 0, 3, 0, 6];
    assert s[..0] == [] && s[..1] == [6] && s[..2] == [6, 0] && s[..3] == [6, 0, 0] && s[..4] == [6, 0, 0, 0];
    assert s[..5] == [6, 0, 0, 0, 3] && s[..6] == [6, 0, 0, 0, 3, 0] && s[..7] == s;
    hide SumOf;
    SumNext(s, 0);
    SumNext(s, 1);
    SumNext(s, 2);
    SumNext(s, 3);
    SumNext(s, 4);
    SumNext(s, 5);
    SumNext(s, 6);
    SumOfNone();
  }

  lemma SumOfNone()
    ensures SumOf([]) == 0
  {
  }

  /** It passes the constructor's checks, for blocks of 64 bytes too, and the loops never end. */
  lemma OneBankNeverReturns(address: nat)
    ensures Sane(ONE_BANK) && ONE_BANK.channelWidth * ONE_BANK.prefetch % 64 == 0
    ensures !LoopEnds(RowOf(ONE_BANK, address), BankSegment(ONE_BANK))
  {
    hide LoopEnds, Sizes, SumOf;
    OneBankSizes();
    OneBankSum();
    assert Shl(8, 3) == 64 && Pow2(6) == 64 && Pow2(0) == 1;
    BankLoopsEndIff(ONE_BANK, address);
  }

  lemma {:induction false} LowerGrows(segmentSize: nat, n: nat)
    requires segmentSize > 0
    ensures LowerAfter(segmentSize, n) >= n
  {
    if n > 0 {
      LowerGrows(segmentSize, n - 1);
    }
  }

  lemma {:induction false} LowerStays(n: nat)
    ensures LowerAfter(0, n) == 0
  {
    if n > 0 {
      LowerStays(n - 1);
    }
  }

  lemma SegmentIsNarrow(row: Slice, lower: nat, segmentSize: nat, offset: nat, fieldBits: nat)
    requires Proper(row.extent)
    ensures Segment(row, lower, segmentSize, offset, fieldBits) < Pow2(fieldBits)
  {
    var e := RelativeExtent(RelativeExtent(row.extent, FromSize(lower, segmentSize)), FromSize(offset, fieldBits));
    Pow2Monotone(Size(e), fieldBits);
  }

  /** The hash adds a mask that depends on the row alone and is no wider than the field. */
  lemma {:induction false} SwizzleAddsMask(row: Slice, lower: nat, segmentSize: nat, offset: nat, field: nat, fieldBits: nat)
    requires Proper(row.extent) && segmentSize > 0
    ensures SwizzleFrom(row, lower, segmentSize, offset, field, fieldBits)
         == Xor(field, SwizzleFrom(row, lower, segmentSize, offset, 0, fieldBits))
    ensures SwizzleFrom(row, lower, segmentSize, offset, 0, fieldBits) < Pow2(fieldBits)
    decreases row.extent.upper - lower
  {
    hide Segment, Xor;
    XorWithZero(field);
    if lower + segmentSize <= row.extent.upper {
      var bits := Segment(row, lower, segmentSize, offset, fieldBits);
      var rest := SwizzleFrom(row, lower + segmentSize, segmentSize, offset, 0, fieldBits);
      SwizzleAddsMask(row, lower + segmentSize, segmentSize, offset, Xor(field, bits), fieldBits);
      SwizzleAddsMask(row, lower + segmentSize, segmentSize, offset, Xor(0, bits), fieldBits);
      XorWithZero(bits);
      XorAssociates(field, bits, rest);
      SegmentIsNarrow(row, lower, segmentSize, offset, fieldBits);
      XorBelow(bits, rest, fieldBits);
    }
  }

  /** swizzle_bits as a loop. */
  method SwizzleBits(sizes: seq<nat>, address: nat, segmentSize: nat, offset: nat, field: nat, fieldBits: nat)
      returns (permuted: nat)
    requires |sizes| == FIELDS && segmentSize > 0
    ensures permuted == SwizzleFrom(OfAddress(FieldExtent(sizes, ROW), address), 0, segmentSize, offset, field, fieldBits)
  {
    hide Segment, Xor;
    var row := OfAddress(FieldExtent(sizes, ROW), address);
    permuted := field;
    var part := FromSize(0, segmentSize);
    while part.upper <= row.extent.upper
      invariant part == FromSize(part.lower, segmentSize)
      invariant SwizzleFrom(row, part.lower, segmentSize, offset, permuted, fieldBits)
             == SwizzleFrom(row, 0, segmentSize, offset, field, fieldBits)
      decreases row.extent.upper + segmentSize - part.lower
    {
      permuted := Xor(permuted, Segment(row, part.lower, segmentSize, offset, fieldBits));
      part := FromSize(part.upper, segmentSize);
    }
  }

  // ---------- The map and its inverse ----------

  /** Where an address lies in the memory. */
  datatype Location = Location(
    offset: nat, channel: nat, bankgroup: nat, bank: nat, column: nat, rank: nat, row: nat)

  /** What the hash adds to a field, from the row slice. */
  function Mask(row: Slice, segmentSize: nat, offset: nat, fieldBits: nat): nat
    requires Proper(row.extent) && segmentSize > 0
  {
    SwizzleFrom(row, 0, segmentSize, offset, 0, fieldBits)
  }

  /** Bank groups or banks exist, so that the loop over segments of their bits ends. */
  predicate Hashable(sizes: seq<nat>) {
    |sizes| == FIELDS && sizes[BANKGROUP] + sizes[BANK] > 0
  }

  /** get_channel, get_bankgroup, get_bank, get_column, get_rank and get_row. */
  function Locate(sizes: seq<nat>, address: nat): Location
    requires Hashable(sizes)
  {
    var row := OfAddress(FieldExtent(sizes, ROW), address);
    var group := sizes[BANKGROUP] + sizes[BANK];
    Location(
      Field(sizes, address, OFFSET),
      SwizzleFrom(row, 0, 1, 0, Field(sizes, address, CHANNEL), sizes[CHANNEL]),
      SwizzleFrom(row, 0, group, 0, Field(sizes, address, BANKGROUP), sizes[BANKGROUP]),
      SwizzleFrom(row, 0, group, sizes[BANKGROUP], Field(sizes, address, BANK), sizes[BANK]),
      Field(sizes, address, COLUMN),
      Field(sizes, address, RANK),
      Field(sizes, address, ROW))
  }

  predicate InRange(sizes: seq<nat>, l: Location)
    requires |sizes| == FIELDS
  {
    && l.offset < Pow2(sizes[OFFSET]) && l.channel < Pow2(sizes[CHANNEL])
    && l.bankgroup < Pow2(sizes[BANKGROUP]) && l.bank < Pow2(sizes[BANK])
    && l.column < Pow2(sizes[COLUMN]) && l.rank < Pow2(sizes[RANK]) && l.row < Pow2(sizes[ROW])
  }

  /** Values packed from the lowest field up. */
  function Pack(sizes: seq<nat>, values: seq<nat>): nat
    requires |sizes| == |values|
  {
    if |sizes| == 0 then 0
    else
      var n := |sizes| - 1;
      Pack(sizes[..n], values[..n]) + Shl(values[n], SumOf(sizes[..n]))
  }

  predicate Fit(sizes: seq<nat>, values: seq<nat>) {
    |sizes| == |values| && forall i :: 0 <= i < |sizes| ==> values[i] < Pow2(sizes[i])
  }

  /** The fields that the hash was applied to, from a location: adding the mask again removes it. */
  function RawFields(sizes: seq<nat>, l: Location): (v: seq<nat>)
    requires Hashable(sizes)
    ensures |v| == FIELDS
  {
    var row := Slice(FieldExtent(sizes, ROW), l.row);
    var group := sizes[BANKGROUP] + sizes[BANK];
    [l.offset,
     Xor(l.channel, Mask(row, 1, 0, sizes[CHANNEL])),
     Xor(l.bankgroup, Mask(row, group, 0, sizes[BANKGROUP])),
     Xor(l.bank, Mask(row, group, sizes[BANKGROUP], sizes[BANK])),
     l.column, l.rank, l.row]
  }

  function AddressOf(sizes: seq<nat>, l: Location): nat
    requires Hashable(sizes)
  {
    Pack(sizes, RawFields(sizes, l))
  }

  lemma {:induction false} PackIsBelow(sizes: seq<nat>, values: seq<nat>)
    requires Fit(sizes, values)
    ensures Pack(sizes, values) < Pow2(SumOf(sizes))
  {
    hide Shl;
    if |sizes| > 0 {
      var n := |sizes| - 1;
      PackIsBelow(sizes[..n], values[..n]);
      JoinBelow(Pack(sizes[..n], values[..n]), values[n], SumOf(sizes[..n]), sizes[n]);
    }
  }

  /** Each field of a packed address is the value packed there. */
  lemma {:induction false} FieldOfPack(sizes: seq<nat>, values: seq<nat>, i: nat)
    requires Fit(sizes, values) && i < |sizes|
    ensures Field(sizes, Pack(sizes, values), i) == values[i]
    decreases |sizes|
  {
    hide Shl, Shr, LowBits, Pow2;
    var n := |sizes| - 1;
    var low := Pack(sizes[..n], values[..n]);
    assert sizes[..n + 1] == sizes;
    PackIsBelow(sizes[..n], values[..n]);
    JoinAndCut(low, values[n], SumOf(sizes[..n]));
    if i == n {
      LowOfNarrow(values[n], sizes[n]);
    } else {
      FieldOfPack(sizes[..n], values[..n], i);
      SumGrows(sizes, i + 1, n);
      assert sizes[..n][..i + 1] == sizes[..i + 1] && sizes[..n][..i] == sizes[..i];
      FieldOfLow(Pack(sizes, values), SumOf(sizes[..n]), SumOf(sizes[..i]), sizes[i]);
      SumNext(sizes, i);
    }
  }

  lemma SumNext(sizes: seq<nat>, i: nat)
    requires i < |sizes|
    ensures SumOf(sizes[..i + 1]) == SumOf(sizes[..i]) + sizes[i]
  {
    assert sizes[..i + 1][..i] == sizes[..i];
  }

  lemma {:induction false} SumGrows(sizes: seq<nat>, i: nat, n: nat)
    requires i <= n <= |sizes|
    ensures SumOf(sizes[..i]) <= SumOf(sizes[..n])
  {
    if i < n {
      SumGrows(sizes, i, n - 1);
      SumNext(sizes, n - 1);
    }
  }

  lemma {:induction false} LowOfNarrow(x: nat, n: nat)
    requires x < Pow2(n)
    ensures LowBits(x, n) == x
  {
    if n > 0 {
      LowOfNarrow(x / 2, n - 1);
    }
  }

  /** A field that lies within the low bits is a field of them. */
  lemma {:induction false} FieldOfLow(x: nat, m: nat, lower: nat, size: nat)
    requires lower + size <= m
    ensures LowBits(Shr(LowBits(x, m), lower), size) == LowBits(Shr(x, lower), size)
  {
    if lower > 0 {
      FieldOfLow(x / 2, m - 1, lower - 1, size);
      assert LowBits(x, m) / 2 == LowBits(x / 2, m - 1);
    } else {
      LowOfLow(x, m, size);
    }
  }

  lemma {:induction false} LowOfLow(x: nat, m: nat, size: nat)
    requires size <= m
    ensures LowBits(LowBits(x, m), size) == LowBits(x, size)
  {
    if size > 0 {
      LowOfLow(x / 2, m - 1, size - 1);
      assert LowBits(x, m) / 2 == LowBits(x / 2, m - 1) && LowBits(x, m) % 2 == x % 2;
    }
  }

  /** Packing all fields of an address gives back the bits they cover. */
  lemma {:induction false} PackOfFields(sizes: seq<nat>, address: nat, values: seq<nat>)
    requires |values| == |sizes| && forall i :: 0 <= i < |sizes| ==> values[i] == Field(sizes, address, i)
    ensures Pack(sizes, values) == LowBits(address, SumOf(sizes))
    decreases |sizes|
  {
    hide Shl, Shr, LowBits;
    if |sizes| > 0 {
      var n := |sizes| - 1;
      forall i | 0 <= i < n ensures values[i] == Field(sizes[..n], address, i) {
        assert sizes[..n][..i + 1] == sizes[..i + 1] && sizes[..n][..i] == sizes[..i];
      }
      PackOfFields(sizes[..n], address, values[..n]);
      assert sizes[..n + 1] == sizes;
      LowSplits(address, SumOf(sizes[..n]), sizes[n]);
    } else {
      NoBits(address);
    }
  }

  lemma NoBits(x: nat)
    ensures LowBits(x, 0) == 0
  {
  }

  lemma {:induction false} LowSplits(x: nat, m: nat, n: nat)
    ensures LowBits(x, m + n) == LowBits(x, m) + Shl(LowBits(Shr(x, m), n), m)
  {
    if m > 0 {
      LowSplits(x / 2, m - 1, n);
      assert Shl(LowBits(Shr(x, m), n), m) == 2 * Shl(LowBits(Shr(x / 2, m - 1), n), m - 1);
    }
  }

  // ---------- The map is a bijection ----------

  /** Every hashed index is a valid index of its dimension. */
  lemma LocationsAreInRange(sizes: seq<nat>, address: nat)
    requires Hashable(sizes)
    ensures InRange(sizes, Locate(sizes, address))
  {
    hide SwizzleFrom, Shr, LowBits, Pow2, Xor, SumOf;
    var row := OfAddress(FieldExtent(sizes, ROW), address);
    var group := sizes[BANKGROUP] + sizes[BANK];
    SwizzleInRange(row, 1, 0, Field(sizes, address, CHANNEL), sizes[CHANNEL]);
    SwizzleInRange(row, group, 0, Field(sizes, address, BANKGROUP), sizes[BANKGROUP]);
    SwizzleInRange(row, group, sizes[BANKGROUP], Field(sizes, address, BANK), sizes[BANK]);
  }

  lemma SwizzleInRange(row: Slice, segmentSize: nat, offset: nat, field: nat, fieldBits: nat)
    requires Proper(row.extent) && segmentSize > 0 && field < Pow2(fieldBits)
    ensures SwizzleFrom(row, 0, segmentSize, offset, field, fieldBits) < Pow2(fieldBits)
    ensures Xor(SwizzleFrom(row, 0, segmentSize, offset, field, fieldBits), Mask(row, segmentSize, offset, fieldBits)) == field
  {
    hide SwizzleFrom, Pow2, Xor;
    SwizzleAddsMask(row, 0, segmentSize, offset, field, fieldBits);
    XorBelow(field, Mask(row, segmentSize, offset, fieldBits), fieldBits);
    XorCancels(field, Mask(row, segmentSize, offset, fieldBits));
  }

  /** Undoing the hash of a located address gives its raw fields. */
  lemma RawFieldsOfLocated(sizes: seq<nat>, address: nat, i: nat)
    requires Hashable(sizes) && i < FIELDS
    ensures RawFields(sizes, Locate(sizes, address))[i] == Field(sizes, address, i)
  {
    hide SwizzleFrom, Shr, LowBits, Pow2, Xor, SumOf, Mask;
    var row := OfAddress(FieldExtent(sizes, ROW), address);
    var group := sizes[BANKGROUP] + sizes[BANK];
    assert Locate(sizes, address).row == row.value;
    SwizzleInRange(row, 1, 0, Field(sizes, address, CHANNEL), sizes[CHANNEL]);
    SwizzleInRange(row, group, 0, Field(sizes, address, BANKGROUP), sizes[BANKGROUP]);
    SwizzleInRange(row, group, sizes[BANKGROUP], Field(sizes, address, BANK), sizes[BANK]);
  }

  /** Every address of the memory is found again from its location. */
  lemma AddressRoundTrip(sizes: seq<nat>, address: nat)
    requires Hashable(sizes) && address < Pow2(SumOf(sizes))
    ensures AddressOf(sizes, Locate(sizes, address)) == address
  {
    hide Locate, RawFields, Pack, LowBits, Pow2, SumOf, Field;
    var values := RawFields(sizes, Locate(sizes, address));
    forall i | 0 <= i < |sizes| ensures values[i] == Field(sizes, address, i) {
      RawFieldsOfLocated(sizes, address, i);
    }
    PackOfFields(sizes, address, values);
    LowOfNarrow(address, SumOf(sizes));
  }

  lemma RawFieldsFit(sizes: seq<nat>, l: Location)
    requires Hashable(sizes) && InRange(sizes, l)
    ensures Fit(sizes, RawFields(sizes, l))
  {
    hide SwizzleFrom, Shr, LowBits, Pow2, Xor, SumOf;
    var row := Slice(FieldExtent(sizes, ROW), l.row);
    var group := sizes[BANKGROUP] + sizes[BANK];
    SwizzleAddsMask(row, 0, 1, 0, 0, sizes[CHANNEL]);
    SwizzleAddsMask(row, 0, group, 0, 0, sizes[BANKGROUP]);
    SwizzleAddsMask(row, 0, group, sizes[BANKGROUP], 0, sizes[BANK]);
    XorBelow(l.channel, Mask(row, 1, 0, sizes[CHANNEL]), sizes[CHANNEL]);
    XorBelow(l.bankgroup, Mask(row, group, 0, sizes[BANKGROUP]), sizes[BANKGROUP]);
    XorBelow(l.bank, Mask(row, group, sizes[BANKGROUP], sizes[BANK]), sizes[BANK]);
  }

  /** Every location of the memory is the location of exactly the address packed from it. */
  lemma LocationRoundTrip(sizes: seq<nat>, l: Location)
    requires Hashable(sizes) && InRange(sizes, l)
    ensures AddressOf(sizes, l) < Pow2(SumOf(sizes))
    ensures Locate(sizes, AddressOf(sizes, l)) == l
  {
    hide SwizzleFrom, Shr, LowBits, Pow2, Xor, SumOf, Pack, Field;
    var values, address := RawFields(sizes, l), AddressOf(sizes, l);
    RawFieldsFit(sizes, l);
    PackIsBelow(sizes, values);
    forall i | 0 <= i < FIELDS ensures Field(sizes, address, i) == values[i] {
      FieldOfPack(sizes, values, i);
    }
    RowSlice(sizes, address);
    HashOfLocation(sizes, l, address);
  }

  lemma RowSlice(sizes: seq<nat>, address: nat)
    requires |sizes| == FIELDS
    ensures OfAddress(FieldExtent(sizes, ROW), address) == Slice(FieldExtent(sizes, ROW), Field(sizes, address, ROW))
  {
  }

  lemma HashOfLocation(sizes: seq<nat>, l: Location, address: nat)
    requires Hashable(sizes)
    requires forall i :: 0 <= i < FIELDS ==> Field(sizes, address, i) == RawFields(sizes, l)[i]
    ensures Locate(sizes, address) == l
  {
    hide SwizzleFrom, Pow2, Xor, SumOf, Field, Mask, OfAddress;
    var row := Slice(FieldExtent(sizes, ROW), l.row);
    var group := sizes[BANKGROUP] + sizes[BANK];
    RowSlice(sizes, address);
    assert Field(sizes, address, ROW) == l.row;
    Unhash(row, 1, 0, l.channel, sizes[CHANNEL]);
    Unhash(row, group, 0, l.bankgroup, sizes[BANKGROUP]);
    Unhash(row, group, sizes[BANKGROUP], l.bank, sizes[BANK]);
  }

  lemma Unhash(row: Slice, segmentSize: nat, offset: nat, field: nat, fieldBits: nat)
    requires Proper(row.extent) && segmentSize > 0
    ensures SwizzleFrom(row, 0, segmentSize, offset, Xor(field, Mask(row, segmentSize, offset, fieldBits)), fieldBits) == field
  {
    hide SwizzleFrom, Pow2, Xor;
    SwizzleAddsMask(row, 0, segmentSize, offset, Xor(field, Mask(row, segmentSize, offset, fieldBits)), fieldBits);
    XorCancels(field, Mask(row, segmentSize, offset, fieldBits));
  }

  /**
   * For power-of-two dimensions with a bank or bank group bit: locations are in range, two
   * addresses of the memory with the same location are equal, and every location has an address.
   */
  lemma AddressMapIsBijective(d: Dimensions, a: nat, b: nat, l: Location)
    requires Sane(d) && d.bankgroups * d.banks > 1
    requires a < Pow2(SumOf(Sizes(d))) && b < Pow2(SumOf(Sizes(d)))
    requires l.channel < d.channels && l.bankgroup < d.bankgroups && l.bank < d.banks
    requires l.rank < d.ranks && l.row < d.rows
    requires l.offset < Pow2(Sizes(d)[OFFSET]) && l.column < Pow2(Sizes(d)[COLUMN])
    ensures Hashable(Sizes(d)) && InRange(Sizes(d), Locate(Sizes(d), a))
    ensures Locate(Sizes(d), a) == Locate(Sizes(d), b) ==> a == b
    ensures AddressOf(Sizes(d), l) < Pow2(SumOf(Sizes(d))) && Locate(Sizes(d), AddressOf(Sizes(d), l)) == l
  {
    hide Sizes, SumOf, Pow2, Locate, AddressOf;
    var sizes := Sizes(d);
    assert Hashable(sizes) by {
      if sizes[BANKGROUP] + sizes[BANK] == 0 {
        OneChoice();
      }
    }
    LocationsAreInRange(sizes, a);
    AddressRoundTrip(sizes, a);
    AddressRoundTrip(sizes, b);
    LocationRoundTrip(sizes, l);
  }

  lemma OneChoice()
    ensures Pow2(0) == 1
  {
  }

  // ---------- Bank indices ----------

  function BankgroupIndex(sizes: seq<nat>, l: Location): nat
    requires |sizes| == FIELDS
  {
    l.rank * Pow2(sizes[BANKGROUP]) + l.bankgroup
  }

  function BankIndex(sizes: seq<nat>, l: Location): nat
    requires |sizes| == FIELDS
  {
    BankgroupIndex(sizes, l) * Pow2(sizes[BANK]) + l.bank
  }

  lemma {:induction false} ShlIsTimes(x: nat, n: nat)
    ensures Shl(x, n) == x * Pow2(n)
  {
    if n > 0 {
      ShlIsTimes(x, n - 1);
      assert 2 * (x * Pow2(n - 1)) == x * (2 * Pow2(n - 1));
    }
  }

  /** The bank index numbers the banks of all ranks and bank groups without gaps or repetition. */
  lemma BankIndexNumbersBanks(sizes: seq<nat>, a: Location, b: Location)
    requires |sizes| == FIELDS && InRange(sizes, a) && InRange(sizes, b)
    ensures BankgroupIndex(sizes, a) < Pow2(sizes[BANKGROUP] + sizes[RANK])
    ensures BankIndex(sizes, a) < Pow2(sizes[BANK] + (sizes[BANKGROUP] + sizes[RANK]))
    ensures BankIndex(sizes, a) == BankIndex(sizes, b) <==>
              a.rank == b.rank && a.bankgroup == b.bankgroup && a.bank == b.bank
  {
    hide Pow2, Shl, LowBits, Shr;
    IndexParts(sizes, a);
    IndexParts(sizes, b);
  }

  lemma IndexParts(sizes: seq<nat>, l: Location)
    requires |sizes| == FIELDS && InRange(sizes, l)
    ensures BankgroupIndex(sizes, l) < Pow2(sizes[BANKGROUP] + sizes[RANK])
    ensures BankIndex(sizes, l) < Pow2(sizes[BANK] + (sizes[BANKGROUP] + sizes[RANK]))
    ensures LowBits(BankIndex(sizes, l), sizes[BANK]) == l.bank
    ensures Shr(BankIndex(sizes, l), sizes[BANK]) == BankgroupIndex(sizes, l)
    ensures LowBits(BankgroupIndex(sizes, l), sizes[BANKGROUP]) == l.bankgroup
    ensures Shr(BankgroupIndex(sizes, l), sizes[BANKGROUP]) == l.rank
  {
    hide Pow2, Shl, LowBits, Shr;
    var g := BankgroupIndex(sizes, l);
    ShlIsTimes(l.rank, sizes[BANKGROUP]);
    ShlIsTimes(g, sizes[BANK]);
    JoinAndCut(l.bankgroup, l.rank, sizes[BANKGROUP]);
    JoinBelow(l.bankgroup, l.rank, sizes[BANKGROUP], sizes[RANK]);
    JoinAndCut(l.bank, g, sizes[BANK]);
    JoinBelow(l.bank, g, sizes[BANK], sizes[BANKGROUP] + sizes[RANK]);
  }
}
