/** Small shared vocabulary: optional values, first-match search, tallies, and powers of two. */
module Collections {
  datatype Option<+T> = None | Some(value: T)

  /** Position of the first element satisfying `p`, or the length when there is none (std::find_if). */
  function FirstIndex<T>(s: seq<T>, p: T -> bool): (i: nat)
    ensures i <= |s|
    ensures i < |s| ==> p(s[i])
    ensures forall j :: 0 <= j < i ==> !p(s[j])
  {
    if |s| == 0 then 0
    else if p(s[0]) then 0
    else
      var k := FirstIndex(s[1..], p);
      assert forall j :: 1 <= j < k + 1 ==> s[j] == s[1..][j - 1];
      k + 1
  }

  function Min(a: int, b: int): int {
    if a < b then a else b
  }

  function Max(a: int, b: int): int {
    if a < b then b else a
  }

  function Take<T>(s: seq<T>, n: nat): seq<T> {
    if n < |s| then s[..n] else s
  }

  ghost predicate Distinct<T(!new)>(s: seq<T>) {
    forall i, j :: 0 <= i < j < |s| ==> s[i] != s[j]
  }
}

/** How often a tag is named in a list of sets of tags: for each request exactly one entry or answer is to name it. */
module Tallies {
  function Has(tags: set<nat>, t: nat): nat {
    if t in tags then 1 else 0
  }

  function Times(s: seq<set<nat>>, t: nat): nat {
    if |s| == 0 then 0 else Times(s[..|s| - 1], t) + Has(s[|s| - 1], t)
  }

  lemma {:induction false} TimesOfSum(a: seq<set<nat>>, b: seq<set<nat>>, t: nat)
    ensures Times(a + b, t) == Times(a, t) + Times(b, t)
  {
    if |b| == 0 {
      assert a + b == a;
    } else {
      assert (a + b)[..|a + b| - 1] == a + b[..|b| - 1];
      TimesOfSum(a, b[..|b| - 1], t);
    }
  }

  lemma TimesOfOne(tags: set<nat>, t: nat)
    ensures Times([tags], t) == Has(tags, t)
  {
    assert [tags][..0] == [];
  }

  lemma TimesUpdate(s: seq<set<nat>>, i: nat, tags: set<nat>, t: nat)
    requires i < |s|
    ensures Times(s[i := tags], t) == Times(s, t) - Has(s[i], t) + Has(tags, t)
    ensures Times(s, t) >= Has(s[i], t)
  {
    hide Times, Has;
    assert s == s[..i] + [s[i]] + s[i + 1..];
    assert s[i := tags] == s[..i] + [tags] + s[i + 1..];
    TimesOfSum(s[..i] + [s[i]], s[i + 1..], t);
    TimesOfSum(s[..i], [s[i]], t);
    TimesOfSum(s[..i] + [tags], s[i + 1..], t);
    TimesOfSum(s[..i], [tags], t);
    TimesOfOne(s[i], t);
    TimesOfOne(tags, t);
  }

  lemma {:induction false} TimesOfAbsent(s: seq<set<nat>>, t: nat)
    ensures Times(s, t) == 0 <==> forall i :: 0 <= i < |s| ==> t !in s[i]
  {
    if |s| > 0 {
      TimesOfAbsent(s[..|s| - 1], t);
    }
  }
}

/** Powers of two and the base-two logarithm loop shared by both simulators' caches. */
module Powers {
  function Pow2(n: nat): (p: nat)
    ensures p >= 1
  {
    if n == 0 then 1 else 2 * Pow2(n - 1)
  }

  lemma {:induction false} Pow2Add(a: nat, b: nat)
    ensures Pow2(a + b) == Pow2(a) * Pow2(b)
  {
    if b == 0 {
    } else {
      Pow2Add(a, b - 1);
      calc {
        Pow2(a + b);
        2 * Pow2(a + (b - 1));
        2 * (Pow2(a) * Pow2(b - 1));
        Pow2(a) * (2 * Pow2(b - 1));
      }
    }
  }

  lemma {:induction false} Pow2Monotone(a: nat, b: nat)
    requires a <= b
    ensures Pow2(a) <= Pow2(b)
  {
    if a < b {
      Pow2Monotone(a, b - 1);
    }
  }

  /** The logarithm of a power of two. */
  lemma LogOfPower(n: nat, k: nat)
    requires Pow2(n) <= Pow2(k) < Pow2(n + 1)
    ensures n == k
  {
    if n < k {
      Pow2Monotone(n + 1, k);
    } else {
      Pow2Monotone(k, n);
      if k < n {
        Pow2Monotone(k + 1, n);
      }
    }
  }

  /** `x >> n`. */
  function Shr(x: nat, n: nat): (r: nat)
    ensures r <= x
  {
    if n == 0 then x else Shr(x / 2, n - 1)
  }

  /** The low `n` bits of `x`: `x & ((1 << n) - 1)`. */
  function LowBits(x: nat, n: nat): (r: nat)
    ensures r < Pow2(n)
  {
    if n == 0 then 0 else x % 2 + 2 * LowBits(x / 2, n - 1)
  }

  lemma {:induction false} ShrOnce(x: nat, n: nat)
    ensures Shr(x, n + 1) == Shr(x, n) / 2
  {
    if n > 0 {
      ShrOnce(x / 2, n - 1);
    }
  }

  lemma {:induction false} TopBit(x: nat, n: nat)
    ensures Shr(x, n) == 1 <==> Pow2(n) <= x < Pow2(n + 1)
  {
    if n > 0 {
      TopBit(x / 2, n - 1);
    }
  }

  lemma MultipleAtLeast(n: int, d: nat)
    ensures n >= 1 ==> n * d >= d
    ensures n <= -1 ==> n * d <= -(d as int)
  {
  }

  /** The quotient is the only number that leaves a remainder below the divisor. */
  lemma QuotientUnique(x: nat, d: nat, q: nat, r: nat)
    requires x == q * d + r && r < d
    ensures x / d == q && x % d == r
  {
    var p, s := x / d, x % d;
    assert x == p * d + s;
    assert (p - q) * d == r - s;
    MultipleAtLeast(p - q, d);
  }

  lemma HalfThenDivide(x: nat, p: nat)
    requires p >= 1
    ensures x / (2 * p) == x / 2 / p && x % (2 * p) == 2 * (x / 2 % p) + x % 2
  {
    var q, r := x / 2 / p, x / 2 % p;
    assert x / 2 == q * p + r;
    assert q * (2 * p) == 2 * (q * p);
    QuotientUnique(x, 2 * p, q, 2 * r + x % 2);
  }

  /** `x >> n` divides by 2^n. */
  lemma {:induction false} ShrDivides(x: nat, n: nat)
    ensures Shr(x, n) == x / Pow2(n)
  {
    if n > 0 {
      ShrDivides(x / 2, n - 1);
      HalfThenDivide(x, Pow2(n - 1));
    }
  }

  /** The low n bits are the remainder modulo 2^n. */
  lemma {:induction false} LowBitsRemain(x: nat, n: nat)
    ensures LowBits(x, n) == x % Pow2(n)
  {
    if n > 0 {
      LowBitsRemain(x / 2, n - 1);
      HalfThenDivide(x, Pow2(n - 1));
    }
  }

  /** The shift-and-count loop of alloc_cache: the position of the highest set bit. */
  method CountBits(x: nat) returns (bits: nat)
    ensures x >= 1 ==> Pow2(bits) <= x < Pow2(bits + 1)
    ensures x == 0 ==> bits == 0
  {
    var temp := x;
    bits := 0;
    while temp > 1
      invariant temp == Shr(x, bits)
      invariant x >= 1 ==> temp >= 1
      invariant x == 0 ==> bits == 0
    {
      ShrOnce(x, bits);
      temp := temp / 2;
      bits := bits + 1;
    }
    TopBit(x, bits);
  }
}
