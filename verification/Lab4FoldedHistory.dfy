/**
 * The folded shift register of the hashed perceptron refines a plain list of branch outcomes.  Its
 * words have 12 bits; 5 of them fit a 64-bit integer, so a value has 60 bits.
 */
module FoldedHistory {
  import opened Powers
  import opened Bits

  // ---------- Operations on the packed values ----------

  function Msb(x: nat): nat {
    Bit(x, 59)
  }

  function ShiftIn(x: nat, lsb: nat): (r: nat)
    ensures r < Pow2(60)
  {
    LowBits(2 * x + lsb, 60)
  }

  /** std::accumulate with bit_xor. */
  function XorAll(words: seq<nat>): nat {
    if |words| == 0 then 0 else Xor(XorAll(words[..|words| - 1]), words[|words| - 1])
  }

  /** `n` rounds of the unpacking loop: shift by a word length, then add. */
  function Unpack(joined: nat, result: nat, n: nat): nat
    decreases n
  {
    if n == 0 then result
    else Unpack(Shr(joined, 12), Xor(result, Shr(joined, 12)), n - 1)
  }

  function Value(words: seq<nat>): nat {
    LowBits(Unpack(XorAll(words), XorAll(words), 6), 12)
  }

  /** Value `v` after the shift: the top bit of the value before it, or the new outcome, comes in. */
  function ShiftedAt(words: seq<nat>, ins: nat, v: nat): nat
    requires v < |words|
  {
    ShiftIn(words[v], if v == 0 then ins else Msb(words[v - 1]))
  }

  /** Only the last value is masked, and only when it is not full-width. */
  function PushBack(words: seq<nat>, lastBits: nat, ins: nat): (r: seq<nat>)
    ensures |r| == |words|
  {
    seq(|words|, v requires 0 <= v < |words| =>
      if v == |words| - 1 && lastBits != 0 then LowBits(ShiftedAt(words, ins, v), lastBits)
      else ShiftedAt(words, ins, v))
  }

  function ValueCount(length: nat): nat {
    length / 60 + if length % 60 != 0 then 1 else 0
  }

  function Empty(length: nat): seq<nat> {
    seq(ValueCount(length), _ => 0)
  }

  /** The register after pushing the outcomes in `pushes`, the first one first. */
  function Pushed(length: nat, pushes: seq<nat>): (words: seq<nat>)
    ensures |words| == ValueCount(length)
  {
    if |pushes| == 0 then Empty(length)
    else PushBack(Pushed(length, pushes[..|pushes| - 1]), length % 60, pushes[|pushes| - 1])
  }

  // ---------- The plain history ----------

  predicate Outcomes(s: seq<nat>) {
    forall i :: 0 <= i < |s| ==> s[i] <= 1
  }

  /** The outcome of age `j` (0 is the latest push) that a history of `length` outcomes retains, else 0. */
  function Retained(length: nat, pushes: seq<nat>, j: nat): (r: nat)
    ensures Outcomes(pushes) ==> r <= 1
  {
    if j < length && j < |pushes| then pushes[|pushes| - 1 - j] else 0
  }

  /** Exclusive or of the retained outcomes of age below `n` whose age is `b` modulo the word length. */
  function Folded(length: nat, pushes: seq<nat>, b: nat, n: nat): (r: nat)
    requires Outcomes(pushes)
    ensures r <= 1
  {
    if n == 0 then 0
    else
      Plus(Folded(length, pushes, b, n - 1),
           if (n - 1) % 12 == b then Retained(length, pushes, n - 1) else 0)
  }

  // ---------- The packed values hold exactly the retained outcomes ----------

  /** What the last value of a register leaves unused. */
  lemma LastValue(length: nat)
    ensures length % 60 != 0 ==> ValueCount(length) > 0 && length == 60 * (ValueCount(length) - 1) + length % 60
    ensures length % 60 == 0 ==> length == 60 * ValueCount(length)
  {
  }

  lemma ModStep(q: nat, m: nat)
    requires m < 12
    ensures (12 * q + m) % 12 == m
  {
  }

  lemma BitOfShift(x: nat, lsb: nat, k: nat)
    requires lsb <= 1 && k < 60
    ensures Bit(ShiftIn(x, lsb), k) == if k == 0 then lsb else Bit(x, k - 1)
  {
    BitOfLow(2 * x + lsb, 60, k);
    assert (2 * x + lsb) / 2 == x;
  }

  /** One push moves every bit up by one, across values, and drops what the last mask excludes. */
  lemma PushMovesBits(words: seq<nat>, lastBits: nat, ins: nat, v: nat, k: nat)
    requires v < |words| && k < 60 && ins <= 1
    ensures Bit(PushBack(words, lastBits, ins)[v], k)
         == if v == |words| - 1 && lastBits != 0 && k >= lastBits then 0
            else if k > 0 then Bit(words[v], k - 1)
            else if v > 0 then Bit(words[v - 1], 59)
            else ins
  {
    hide ShiftIn, Bit, LowBits, Pow2;
    var lsb := if v == 0 then ins else Msb(words[v - 1]);
    BitOfShift(words[v], lsb, k);
    BitOfLow(ShiftIn(words[v], lsb), lastBits, k);
  }

  lemma RetainedMoves(length: nat, pushes: seq<nat>, j: nat)
    requires |pushes| > 0
    ensures Retained(length, pushes, j)
         == if j >= length then 0
            else if j > 0 then Retained(length, pushes[..|pushes| - 1], j - 1)
            else pushes[|pushes| - 1]
  {
  }

  /** Bit `k` of value `v` is the outcome of age 60 v + k. */
  lemma {:induction false} ValuesHoldHistory(length: nat, pushes: seq<nat>, v: nat, k: nat)
    requires Outcomes(pushes) && v < ValueCount(length) && k < 60
    ensures Bit(Pushed(length, pushes)[v], k) == Retained(length, pushes, 60 * v + k)
    decreases |pushes|
  {
    hide ShiftIn, Bit, ValueCount, PushBack, Retained;
    LastValue(length);
    if |pushes| == 0 {
      BitOfZero(k);
      assert Retained(length, pushes, 60 * v + k) == 0 by {
        NothingRetained(length, 60 * v + k);
      }
    } else {
      var before := pushes[..|pushes| - 1];
      if k > 0 {
        ValuesHoldHistory(length, before, v, k - 1);
      } else if v > 0 {
        ValuesHoldHistory(length, before, v - 1, 59);
      }
      PushMovesBits(Pushed(length, before), length % 60, pushes[|pushes| - 1], v, k);
      RetainedMoves(length, pushes, 60 * v + k);
    }
  }

  lemma NothingRetained(length: nat, j: nat)
    ensures Retained(length, [], j) == 0
  {
  }

  lemma {:induction false} ValuesAreNarrow(length: nat, pushes: seq<nat>, v: nat)
    requires v < ValueCount(length)
    ensures Pushed(length, pushes)[v] < Pow2(60)
  {
    hide ShiftIn;
    if |pushes| == 0 {
    } else {
      Pow2Monotone(length % 60, 60);
    }
  }

  // ---------- Folding ----------

  /** Exclusive or of the bits b, b + 12, b + 24, ... of `x`, `n` of them. */
  function Column(x: nat, b: nat, n: nat): (r: nat)
    ensures r <= 1
  {
    if n == 0 then 0 else Plus(Column(x, b, n - 1), Bit(x, b + 12 * (n - 1)))
  }

  lemma {:induction false} ColumnOfXor(x: nat, y: nat, b: nat, n: nat)
    ensures Column(Xor(x, y), b, n) == Plus(Column(x, b, n), Column(y, b, n))
  {
    hide Xor, Bit, Column, Plus;
    ColumnNext(Xor(x, y), b, n);
    ColumnNext(x, b, n);
    ColumnNext(y, b, n);
    if n > 0 {
      var k := b + 12 * (n - 1);
      ColumnOfXor(x, y, b, n - 1);
      BitOfXor(x, y, k);
      PlusSwaps(Column(x, b, n - 1), Column(y, b, n - 1), Bit(x, k), Bit(y, k));
    } else {
      PlusZero(0);
    }
  }

  lemma PlusSwaps(a: nat, b: nat, c: nat, d: nat)
    requires a <= 1 && b <= 1 && c <= 1 && d <= 1
    ensures Plus(Plus(a, b), Plus(c, d)) == Plus(Plus(a, c), Plus(b, d))
  {
  }

  lemma {:induction false} ColumnOfZero(b: nat, n: nat)
    ensures Column(0, b, n) == 0
  {
    if n > 0 {
      ColumnOfZero(b, n - 1);
      BitOfZero(b + 12 * (n - 1));
    }
  }

  lemma {:induction false} HighBitsAreZero(x: nat, n: nat, k: nat)
    requires x < Pow2(n) && k >= n
    ensures Bit(x, k) == 0
  {
    if n > 0 {
      HighBitsAreZero(x / 2, n - 1, k - 1);
    } else {
      BitOfZero(k);
    }
  }

  /** The unpacking loop adds up a column of the joined values. */
  lemma {:induction false} UnpackAddsColumn(x: nat, result: nat, m: nat, n: nat, b: nat)
    requires Bit(result, b) == Column(x, b, m + 1)
    ensures Bit(Unpack(Shr(x, 12 * m), result, n), b) == Column(x, b, m + 1 + n)
    decreases n
  {
    hide Xor, Bit, Shr;
    if n > 0 {
      var next := Shr(Shr(x, 12 * m), 12);
      ShrShr(x, 12 * m, 12);
      BitOfShr(x, 12 * (m + 1), b);
      BitOfXor(result, next, b);
      UnpackAddsColumn(x, Xor(result, next), m + 1, n - 1, b);
    }
  }

  /** Above the width of a value there is nothing to add. */
  lemma WholeColumn(x: nat, b: nat)
    requires x < Pow2(60) && b < 12
    ensures Column(x, b, 7) == Column(x, b, 5)
  {
    HighBitsAreZero(x, 60, b + 60);
    HighBitsAreZero(x, 60, b + 12 * (6));
  }

  lemma {:induction false} XorAllIsNarrow(words: seq<nat>)
    requires forall v :: 0 <= v < |words| ==> words[v] < Pow2(60)
    ensures XorAll(words) < Pow2(60)
  {
    hide Xor, Pow2;
    if |words| > 0 {
      XorAllIsNarrow(words[..|words| - 1]);
      XorBelow(XorAll(words[..|words| - 1]), words[|words| - 1], 60);
    }
  }

  lemma ValueAddsColumn(words: seq<nat>, b: nat)
    requires b < 12 && forall v :: 0 <= v < |words| ==> words[v] < Pow2(60)
    ensures Bit(Value(words), b) == Column(XorAll(words), b, 5)
  {
    hide Xor, Bit, Unpack, XorAll, Pow2;
    var x := XorAll(words);
    assert Column(x, b, 1) == Bit(x, b) by {
      assert Column(x, b, 0) == 0;
    }
    UnpackAddsColumn(x, x, 0, 6, b);
    BitOfLow(Unpack(x, x, 6), 12, b);
    XorAllIsNarrow(words);
    WholeColumn(x, b);
  }

  /** A stretch of ages below one word length contributes at most one outcome. */
  lemma {:induction false} FoldedWord(length: nat, pushes: seq<nat>, b: nat, q: nat, m: nat)
    requires Outcomes(pushes) && b < 12 && m <= 12
    ensures Folded(length, pushes, b, 12 * q + m)
         == Plus(Folded(length, pushes, b, 12 * q), if b < m then Retained(length, pushes, 12 * q + b) else 0)
    decreases m
  {
    hide Retained, Folded;
    if m > 0 {
      FoldedWord(length, pushes, b, q, m - 1);
      FoldedNext(length, pushes, b, 12 * q + m - 1);
      ModStep(q, m - 1);
    }
  }

  lemma FoldedNext(length: nat, pushes: seq<nat>, b: nat, n: nat)
    requires Outcomes(pushes)
    ensures Folded(length, pushes, b, n + 1)
         == Plus(Folded(length, pushes, b, n), if n % 12 == b then Retained(length, pushes, n) else 0)
  {
  }

  lemma ColumnNext(x: nat, b: nat, n: nat)
    ensures Column(x, b, n) == if n == 0 then 0 else Plus(Column(x, b, n - 1), Bit(x, b + 12 * (n - 1)))
  {
  }

  lemma PlusZero(a: nat)
    requires a <= 1
    ensures Plus(a, 0) == a
  {
  }

  /** The column of one value is the fold of its sixty ages. */
  lemma {:induction false} FoldedColumn(length: nat, pushes: seq<nat>, b: nat, v: nat, n: nat)
    requires Outcomes(pushes) && b < 12 && v < ValueCount(length) && n <= 5
    ensures Folded(length, pushes, b, 60 * v + 12 * n)
         == Plus(Folded(length, pushes, b, 60 * v), Column(Pushed(length, pushes)[v], b, n))
    decreases n
  {
    hide Folded, Retained, Bit, Pushed, ValueCount, Column, Plus;
    LastValue(length);
    var x, before := Pushed(length, pushes)[v], Folded(length, pushes, b, 60 * v);
    ColumnNext(x, b, n);
    if n > 0 {
      var k := b + 12 * (n - 1);
      FoldedColumn(length, pushes, b, v, n - 1);
      FoldedWord(length, pushes, b, 5 * v + n - 1, 12);
      ValuesHoldHistory(length, pushes, v, k);
      PlusAssociates(before, Column(x, b, n - 1), Bit(x, k));
    } else {
      PlusZero(before);
    }
  }

  lemma {:induction false} FoldedValues(length: nat, pushes: seq<nat>, b: nat, m: nat)
    requires Outcomes(pushes) && b < 12 && m <= ValueCount(length)
    ensures Folded(length, pushes, b, 60 * m)
         == Column(XorAll(Pushed(length, pushes)[..m]), b, 5)
    decreases m
  {
    hide Retained, Bit, Pushed, ValueCount, Column, Xor, Folded;
    var words := Pushed(length, pushes);
    if m > 0 {
      FoldedValues(length, pushes, b, m - 1);
      FoldedColumn(length, pushes, b, m - 1, 5);
      assert words[..m][..m - 1] == words[..m - 1];
      ColumnOfXor(XorAll(words[..m - 1]), words[m - 1], b, 5);
    } else {
      ColumnOfZero(b, 5);
      FoldedNothing(length, pushes, b);
    }
  }

  lemma FoldedNothing(length: nat, pushes: seq<nat>, b: nat)
    requires Outcomes(pushes)
    ensures Folded(length, pushes, b, 0) == 0
  {
  }

  /** Ages that are not retained add nothing. */
  lemma {:induction false} FoldedBeyond(length: nat, pushes: seq<nat>, b: nat, n: nat)
    requires Outcomes(pushes) && n >= length
    ensures Folded(length, pushes, b, n) == Folded(length, pushes, b, length)
    decreases n
  {
    if n > length {
      FoldedBeyond(length, pushes, b, n - 1);
    }
  }

  /**
   * After any pushes into a register of any length, bit `b` of its value is the exclusive or of
   * exactly the last `length` outcomes whose age is `b` modulo 12, and there is no further bit.
   */
  lemma ValueFoldsHistory(length: nat, pushes: seq<nat>, b: nat)
    requires Outcomes(pushes) && b < 12
    ensures Value(Pushed(length, pushes)) < Pow2(12)
    ensures Bit(Value(Pushed(length, pushes)), b) == Folded(length, pushes, b, length)
  {
    hide Bit, Pushed, Column, Folded, Unpack, XorAll, Pow2;
    var words := Pushed(length, pushes);
    forall v | 0 <= v < |words| ensures words[v] < Pow2(60) {
      ValuesAreNarrow(length, pushes, v);
    }
    ValueAddsColumn(words, b);
    FoldedValues(length, pushes, b, ValueCount(length));
    assert words[..ValueCount(length)] == words;
    FoldedBeyond(length, pushes, b, 60 * ValueCount(length));
  }

  // ---------- The register as it is updated ----------

  class FoldedShiftRegister {
    const length: nat
    const lastBits: nat
    const words: array<nat>
    ghost var pushes: seq<nat>

    ghost predicate Valid()
      reads this, words
    {
      && lastBits == length % 60 && Outcomes(pushes)
      && words[..] == Pushed(length, pushes)
    }

    constructor (historyLength: nat)
      ensures Valid() && fresh(words) && length == historyLength && pushes == []
    {
      length, lastBits, pushes := historyLength, historyLength % 60, [];
      words := new nat[ValueCount(historyLength)](_ => 0);
      new;
      assert words[..] == Empty(length);
    }

    method Push(ins: nat)
      requires Valid() && ins <= 1
      modifies this, words
      ensures Valid() && pushes == old(pushes) + [ins]
    {
      hide ShiftIn, Bit, ValueCount, LowBits, Pow2, Msb, Pushed, ShiftedAt;
      var msbs := CollectMsbs(ins);
      ShiftAll(ins, msbs);
      LastIsThere(length);
      if lastBits != 0 {
        words[words.Length - 1] := LowBits(words[words.Length - 1], lastBits);
      }
      assert words[..] == PushBack(old(words[..]), lastBits, ins);
      pushes := pushes + [ins];
      PushedNext(length, old(pushes), ins);
    }

    /** The bits to pass to the next value, led by the new outcome. */
    method CollectMsbs(ins: nat) returns (msbs: seq<nat>)
      ensures |msbs| == words.Length + 1 && msbs[0] == ins
      ensures forall i :: 1 <= i <= words.Length ==> msbs[i] == Msb(words[i - 1])
    {
      hide Msb;
      msbs := [ins];
      var v := 0;
      while v < words.Length
        invariant 0 <= v <= words.Length && |msbs| == v + 1
        invariant msbs[0] == ins && forall i :: 1 <= i <= v ==> msbs[i] == Msb(words[i - 1])
      {
        msbs := msbs + [Msb(words[v])];
        v := v + 1;
      }
    }

    method ShiftAll(ins: nat, msbs: seq<nat>)
      requires |msbs| == words.Length + 1 && msbs[0] == ins
      requires forall i :: 1 <= i <= words.Length ==> msbs[i] == Msb(words[i - 1])
      modifies words
      ensures forall i :: 0 <= i < words.Length ==> words[i] == ShiftedAt(old(words[..]), ins, i)
    {
      hide ShiftIn, Msb;
      ghost var before := words[..];
      var v := 0;
      while v < words.Length
        invariant 0 <= v <= words.Length
        invariant forall i :: 0 <= i < v ==> words[i] == ShiftedAt(before, ins, i)
        invariant forall i :: v <= i < words.Length ==> words[i] == before[i]
      {
        assert msbs[v] == if v == 0 then ins else Msb(before[v - 1]);
        words[v] := ShiftIn(words[v], msbs[v]);
        v := v + 1;
      }
    }

    method ReadValue() returns (value: nat)
      requires Valid()
      ensures value == Value(words[..]) && value < Pow2(12)
      ensures forall b :: 0 <= b < 12 ==> Bit(value, b) == Folded(length, pushes, b, length)
    {
      hide Xor, Bit, Pushed, Folded, Pow2;
      var joined, v := 0, 0;
      while v < words.Length
        invariant 0 <= v <= words.Length && joined == XorAll(words[..v])
      {
        assert words[..v + 1][..v] == words[..v];
        joined := Xor(joined, words[v]);
        v := v + 1;
      }
      assert words[..words.Length] == words[..];
      var result, i := joined, 0;
      while i <= 5
        invariant 0 <= i <= 6
        invariant Unpack(joined, result, 6 - i)
               == Unpack(XorAll(words[..]), XorAll(words[..]), 6)
      {
        joined := Shr(joined, 12);
        result := Xor(result, joined);
        i := i + 1;
      }
      value := LowBits(result, 12);
      forall b | 0 <= b < 12 ensures Bit(value, b) == Folded(length, pushes, b, length) {
        ValueFoldsHistory(length, pushes, b);
      }
    }
  }

  lemma PushedNext(length: nat, pushes: seq<nat>, ins: nat)
    ensures Pushed(length, pushes + [ins]) == PushBack(Pushed(length, pushes), length % 60, ins)
  {
    assert (pushes + [ins])[..|pushes|] == pushes;
  }

  lemma LastIsThere(length: nat)
    ensures length % 60 != 0 ==> ValueCount(length) > 0
  {
  }
}
