/** Bits of natural numbers: shifts, masks and exclusive or, as the simulators use them on machine words. */
module Bits {
  import opened Powers

  function Bit(x: nat, k: nat): (b: nat)
    ensures b <= 1
  {
    if k == 0 then x % 2 else Bit(x / 2, k - 1)
  }

  /** `x << n`, in a word wide enough. */
  function Shl(x: nat, n: nat): nat {
    if n == 0 then x else 2 * Shl(x, n - 1)
  }

  /** Exclusive or of two bits. */
  function Plus(a: nat, b: nat): (c: nat)
    requires a <= 1 && b <= 1
    ensures c <= 1
  {
    if a == b then 0 else 1
  }

  /** `x ^ y`. */
  function Xor(x: nat, y: nat): nat
    decreases x + y
  {
    if x == 0 && y == 0 then 0 else Plus(x % 2, y % 2) + 2 * Xor(x / 2, y / 2)
  }

  /** `x & y`. */
  function And(x: nat, y: nat): (z: nat)
    ensures z <= x && z <= y
    decreases x
  {
    if x == 0 then 0 else (if x % 2 == 1 && y % 2 == 1 then 1 else 0) + 2 * And(x / 2, y / 2)
  }

  /** `x | y`. */
  function Or(x: nat, y: nat): nat
    decreases x + y
  {
    if x == 0 && y == 0 then 0 else (if x % 2 == 1 || y % 2 == 1 then 1 else 0) + 2 * Or(x / 2, y / 2)
  }

  lemma AndHalves(x: nat, y: nat)
    ensures And(x, y) / 2 == And(x / 2, y / 2) && (And(x, y) % 2 == 1 <==> x % 2 == 1 && y % 2 == 1)
  {
  }

  lemma OrHalves(x: nat, y: nat)
    ensures Or(x, y) / 2 == Or(x / 2, y / 2) && (Or(x, y) % 2 == 1 <==> x % 2 == 1 || y % 2 == 1)
  {
  }

  lemma {:induction false} BitOfAnd(x: nat, y: nat, k: nat)
    ensures Bit(And(x, y), k) == 1 <==> Bit(x, k) == 1 && Bit(y, k) == 1
    decreases k
  {
    hide And;
    AndHalves(x, y);
    if k > 0 {
      BitOfAnd(x / 2, y / 2, k - 1);
    }
  }

  lemma {:induction false} BitOfOr(x: nat, y: nat, k: nat)
    ensures Bit(Or(x, y), k) == 1 <==> Bit(x, k) == 1 || Bit(y, k) == 1
    decreases k
  {
    hide Or;
    OrHalves(x, y);
    if k > 0 {
      BitOfOr(x / 2, y / 2, k - 1);
    }
  }

  lemma {:induction false} OrBelow(x: nat, y: nat, n: nat)
    requires x < Pow2(n) && y < Pow2(n)
    ensures Or(x, y) < Pow2(n)
  {
    if n > 0 && (x > 0 || y > 0) {
      OrBelow(x / 2, y / 2, n - 1);
    }
  }

  /** Subtracting from a number of n ones turns every bit. */
  lemma {:induction false} BitOfComplement(x: nat, n: nat, k: nat)
    requires x < Pow2(n) && k < n
    ensures Bit(Pow2(n) - 1 - x, k) == 1 - Bit(x, k)
    decreases k
  {
    var y := Pow2(n) - 1 - x;
    assert y % 2 == 1 - x % 2 && y / 2 == Pow2(n - 1) - 1 - x / 2;
    if k > 0 {
      BitOfComplement(x / 2, n - 1, k - 1);
    }
  }

  lemma {:induction false} BitOfZero(k: nat)
    ensures Bit(0, k) == 0
  {
    if k > 0 {
      BitOfZero(k - 1);
    }
  }

  lemma {:induction false} BitOfXor(x: nat, y: nat, k: nat)
    ensures Bit(Xor(x, y), k) == Plus(Bit(x, k), Bit(y, k))
    decreases k
  {
    hide Xor, Plus;
    XorHalves(x, y);
    if k > 0 {
      BitOfXor(x / 2, y / 2, k - 1);
    }
  }

  lemma {:induction false} BitOfShr(x: nat, n: nat, k: nat)
    ensures Bit(Shr(x, n), k) == Bit(x, n + k)
  {
    if n > 0 {
      BitOfShr(x / 2, n - 1, k);
    }
  }

  lemma {:induction false} BitOfLow(x: nat, n: nat, k: nat)
    ensures Bit(LowBits(x, n), k) == if k < n then Bit(x, k) else 0
  {
    if n == 0 {
      BitOfZero(k);
    } else if k > 0 {
      BitOfLow(x / 2, n - 1, k - 1);
      assert LowBits(x, n) / 2 == LowBits(x / 2, n - 1);
    }
  }

  lemma {:induction false} XorBelow(x: nat, y: nat, n: nat)
    requires x < Pow2(n) && y < Pow2(n)
    ensures Xor(x, y) < Pow2(n)
  {
    hide Xor;
    XorHalves(x, y);
    if n > 0 {
      XorBelow(x / 2, y / 2, n - 1);
    } else {
      XorWithZero(0);
    }
  }

  lemma PlusAssociates(a: nat, b: nat, c: nat)
    requires a <= 1 && b <= 1 && c <= 1
    ensures Plus(Plus(a, b), c) == Plus(a, Plus(b, c))
  {
  }

  lemma {:induction false} XorAssociates(x: nat, y: nat, z: nat)
    ensures Xor(Xor(x, y), z) == Xor(x, Xor(y, z))
    decreases x + y + z
  {
    hide Plus, Xor;
    if x != 0 || y != 0 || z != 0 {
      PlusAssociates(x % 2, y % 2, z % 2);
      XorAssociates(x / 2, y / 2, z / 2);
      XorHalves(x, y);
      XorHalves(y, z);
      XorHalves(Xor(x, y), z);
      XorHalves(x, Xor(y, z));
      XorUnfolds(Xor(x, y), z);
      XorUnfolds(x, Xor(y, z));
    } else {
      XorWithZero(0);
    }
  }

  lemma XorHalves(x: nat, y: nat)
    ensures Xor(x, y) / 2 == Xor(x / 2, y / 2) && Xor(x, y) % 2 == Plus(x % 2, y % 2)
  {
  }

  lemma XorUnfolds(x: nat, y: nat)
    ensures Xor(x, y) == Plus(x % 2, y % 2) + 2 * Xor(x / 2, y / 2)
  {
  }

  lemma {:induction false} XorWithZero(x: nat)
    ensures Xor(x, 0) == x && Xor(0, x) == x
  {
    if x > 0 {
      XorWithZero(x / 2);
    }
  }

  lemma {:induction false} XorWithSelf(x: nat)
    ensures Xor(x, x) == 0
  {
    if x > 0 {
      XorWithSelf(x / 2);
    }
  }

  lemma XorCancels(x: nat, y: nat)
    ensures Xor(Xor(x, y), y) == x
  {
    XorAssociates(x, y, y);
    XorWithSelf(y);
    XorWithZero(x);
  }

  // ---------- Cutting a word in two ----------

  lemma {:induction false} CutAndJoin(x: nat, n: nat)
    ensures x == LowBits(x, n) + Shl(Shr(x, n), n)
  {
    if n > 0 {
      CutAndJoin(x / 2, n - 1);
      assert Shl(Shr(x, n), n) == 2 * Shl(Shr(x / 2, n - 1), n - 1);
    }
  }

  lemma {:induction false} JoinAndCut(low: nat, high: nat, n: nat)
    requires low < Pow2(n)
    ensures LowBits(low + Shl(high, n), n) == low && Shr(low + Shl(high, n), n) == high
  {
    if n > 0 {
      JoinAndCut(low / 2, high, n - 1);
      assert (low + Shl(high, n)) / 2 == low / 2 + Shl(high, n - 1);
      assert (low + Shl(high, n)) % 2 == low % 2;
    }
  }

  lemma {:induction false} ShrShr(x: nat, m: nat, n: nat)
    ensures Shr(Shr(x, m), n) == Shr(x, m + n)
  {
    if m > 0 {
      ShrShr(x / 2, m - 1, n);
    }
  }

  lemma {:induction false} ShrBelow(x: nat, m: nat, n: nat)
    requires x < Pow2(m + n)
    ensures Shr(x, m) < Pow2(n)
  {
    if m > 0 {
      ShrBelow(x / 2, m - 1, n);
    }
  }

  lemma {:induction false} JoinBelow(low: nat, high: nat, m: nat, n: nat)
    requires low < Pow2(m) && high < Pow2(n)
    ensures low + Shl(high, m) < Pow2(m + n)
  {
    if m > 0 {
      JoinBelow(low / 2, high, m - 1, n);
    }
  }
}
