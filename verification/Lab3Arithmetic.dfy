/**
 * Arithmetic of the lab3 reduction: sums of an integer element type, which wrap around at an
 * arbitrary modulus, and the strides 1, 2, 4, ... of the reduction tree.
 */
module ReductionArithmetic {
  import opened Collections
  import opened Powers

  /** `modulus` is 2 to the width of the element type T; elements are kept as residues. */
  datatype Config = Config(tasklets: nat, modulus: nat)

  predicate Usable(c: Config) {
    c.tasklets >= 1 && c.modulus >= 1
  }

  predicate IsElement(c: Config, x: int) {
    0 <= x < c.modulus
  }

  predicate AreElements(c: Config, s: seq<int>) {
    forall i :: 0 <= i < |s| ==> IsElement(c, s[i])
  }

  /** Wrapping addition. */
  function Add(c: Config, a: int, b: int): (r: int)
    requires IsElement(c, a) && IsElement(c, b)
    ensures IsElement(c, r)
  {
    if a + b < c.modulus then a + b else a + b - c.modulus
  }

  lemma AddAssociates(c: Config, x: int, y: int, z: int)
    requires IsElement(c, x) && IsElement(c, y) && IsElement(c, z)
    ensures Add(c, Add(c, x, y), z) == Add(c, x, Add(c, y, z))
    ensures Add(c, x, y) == Add(c, y, x)
  {
  }

  /** The sum of s[lo..hi]. */
  function Sum(c: Config, s: seq<int>, lo: nat, hi: nat): (r: int)
    requires Usable(c) && AreElements(c, s) && lo <= hi <= |s|
    ensures IsElement(c, r)
  {
    if lo == hi then 0 else Add(c, Sum(c, s, lo, hi - 1), s[hi - 1])
  }

  lemma {:induction false} SumSplits(c: Config, s: seq<int>, lo: nat, mid: nat, hi: nat)
    requires Usable(c) && AreElements(c, s) && lo <= mid <= hi <= |s|
    ensures Sum(c, s, lo, hi) == Add(c, Sum(c, s, lo, mid), Sum(c, s, mid, hi))
  {
    if mid < hi {
      SumSplits(c, s, lo, mid, hi - 1);
      AddAssociates(c, Sum(c, s, lo, mid), Sum(c, s, mid, hi - 1), s[hi - 1]);
    }
  }

  // ---------- The tree of strides ----------

  /** `i` is a multiple of the stride 2^l. */
  predicate OnLevel(i: nat, l: nat) {
    LowBits(i, l) == 0
  }

  lemma MultipleIsLarge(d: int, m: int)
    requires m >= 1
    ensures d >= 1 ==> d * m >= m
    ensures d <= -1 ==> d * m <= -m
  {
  }

  lemma ModUnique(x: int, m: int, q: int, r: int)
    requires x == q * m + r && 0 <= r < m
    ensures x % m == r
  {
    var d := q - x / m;
    assert x == m * (x / m) + x % m;
    assert d * m == x % m - r;
    MultipleIsLarge(d, m);
  }

  /** The test `tasklet_id % group == 0` of the source is a test on low bits. */
  lemma {:induction false} OnLevelMeansDivisible(i: nat, l: nat)
    ensures i % Pow2(l) == LowBits(i, l)
  {
    if l > 0 {
      OnLevelMeansDivisible(i / 2, l - 1);
      var m, h := Pow2(l - 1), i / 2;
      assert h == m * (h / m) + h % m;
      assert 2 * (m * (h / m)) == (h / m) * (2 * m);
      ModUnique(i, 2 * m, h / m, 2 * (h % m) + i % 2);
    }
  }

  lemma {:induction false} LowerLevel(i: nat, k: nat, l: nat)
    requires k <= l && OnLevel(i, l)
    ensures OnLevel(i, k)
  {
    if k > 0 {
      LowerLevel(i / 2, k - 1, l - 1);
    }
  }

  /** A tasklet that leaves the tree at level `l` has its partner 2^l below it, one level up. */
  lemma {:induction false} LeavesTo(i: nat, l: nat)
    requires OnLevel(i, l) && !OnLevel(i, l + 1)
    ensures i >= Pow2(l) && OnLevel(i - Pow2(l), l + 1)
  {
    if l > 0 {
      LeavesTo(i / 2, l - 1);
      assert (i - Pow2(l)) / 2 == i / 2 - Pow2(l - 1);
    } else {
      assert LowBits(i / 2, 0) == 0;
      assert LowBits((i - 1) / 2, 0) == 0;
    }
  }

  lemma {:induction false} PartnerLeaves(i: nat, l: nat)
    requires OnLevel(i, l + 1)
    ensures OnLevel(i + Pow2(l), l) && !OnLevel(i + Pow2(l), l + 1)
  {
    if l > 0 {
      PartnerLeaves(i / 2, l - 1);
      assert (i + Pow2(l)) / 2 == i / 2 + Pow2(l - 1);
    }
  }

  lemma {:induction false} OnLevelIsLarge(i: nat, l: nat)
    requires OnLevel(i, l) && i > 0
    ensures i >= Pow2(l)
  {
    if l > 0 {
      OnLevelIsLarge(i / 2, l - 1);
    }
  }

  lemma {:induction false} ZeroOnEveryLevel(l: nat)
    ensures OnLevel(0, l)
  {
    if l > 0 {
      ZeroOnEveryLevel(l - 1);
    }
  }

  /** The level at which tasklet `i` leaves the tree. */
  function LeaveLevel(i: nat): (l: nat)
    requires i > 0
    ensures OnLevel(i, l) && !OnLevel(i, l + 1)
  {
    if i % 2 == 1 then
      assert LowBits(i / 2, 0) == 0;
      0
    else 1 + LeaveLevel(i / 2)
  }

  /** The tasklet that waits for `i`. */
  function Parent(i: nat): (p: nat)
    requires i > 0
    ensures p < i && p + Pow2(LeaveLevel(i)) == i && OnLevel(p, LeaveLevel(i) + 1)
  {
    LeavesTo(i, LeaveLevel(i));
    i - Pow2(LeaveLevel(i))
  }

  lemma LeaveLevelUnique(i: nat, l: nat)
    requires i > 0 && OnLevel(i, l) && !OnLevel(i, l + 1)
    ensures l == LeaveLevel(i)
  {
    var k := LeaveLevel(i);
    if k < l {
      LowerLevel(i, k + 1, l);
    } else if l < k {
      LowerLevel(i, l + 1, k);
    }
  }

  /** Enough levels for `n` tasklets. */
  function Levels(n: nat): (k: nat)
    ensures Pow2(k) >= n
    ensures forall l: nat :: Pow2(l) < n ==> l < k
  {
    var k := if n <= 1 then 0 else 1 + Levels((n + 1) / 2);
    assert Pow2(k) >= n;
    forall l: nat | Pow2(l) < n ensures l < k {
      if l >= k {
        Pow2Monotone(k, l);
      }
    }
    k
  }

  /** `init` gives one initial partial for each tasklet. */
  predicate IsInput(c: Config, init: seq<int>) {
    Usable(c) && |init| == c.tasklets && AreElements(c, init)
  }

  /** The sum of the 2^l partials from `i` on, cut off at the last tasklet. */
  function Subtree(c: Config, init: seq<int>, i: nat, l: nat): (r: int)
    requires IsInput(c, init) && i < c.tasklets
    ensures IsElement(c, r)
  {
    Sum(c, init, i, Min(i + Pow2(l), c.tasklets))
  }

  /** A subtree and its partner's subtree make the subtree of the next level. */
  lemma SubtreesJoin(c: Config, init: seq<int>, i: nat, l: nat)
    requires IsInput(c, init) && i < c.tasklets
    ensures i + Pow2(l) < c.tasklets ==>
              Subtree(c, init, i, l + 1) == Add(c, Subtree(c, init, i, l), Subtree(c, init, i + Pow2(l), l))
    ensures i + Pow2(l) >= c.tasklets ==> Subtree(c, init, i, l + 1) == Subtree(c, init, i, l)
  {
    hide Sum;
    if i + Pow2(l) < c.tasklets {
      SumSplits(c, init, i, i + Pow2(l), Min(i + Pow2(l + 1), c.tasklets));
    }
  }

  lemma ChildOf(i: nat, l: nat)
    requires OnLevel(i, l + 1)
    ensures i + Pow2(l) > 0 && LeaveLevel(i + Pow2(l)) == l && Parent(i + Pow2(l)) == i
  {
    PartnerLeaves(i, l);
    LeaveLevelUnique(i + Pow2(l), l);
  }

  // ---------- Totals of a termination measure ----------

  function Total(s: seq<int>): int {
    if |s| == 0 then 0 else s[0] + Total(s[1..])
  }

  lemma {:induction false} TotalUpdate(s: seq<int>, i: nat, x: int)
    requires i < |s|
    ensures Total(s[i := x]) == Total(s) - s[i] + x
  {
    if i == 0 {
      assert s[i := x][1..] == s[1..];
    } else {
      assert s[i := x][1..] == s[1..][i - 1 := x];
      TotalUpdate(s[1..], i - 1, x);
    }
  }

  lemma {:induction false} TotalBounds(s: seq<int>, high: int)
    requires forall i :: 0 <= i < |s| ==> 0 <= s[i] <= high
    ensures 0 <= Total(s) <= |s| * high
  {
    if |s| > 0 {
      TotalBounds(s[1..], high);
      assert (|s| - 1) * high + high == |s| * high;
    }
  }

  lemma {:induction false} TotalDescends(s: seq<int>, t: seq<int>)
    requires |s| == |t| && forall i :: 0 <= i < |s| ==> t[i] < s[i]
    ensures Total(t) <= Total(s) - |s|
  {
    if |s| > 0 {
      TotalDescends(s[1..], t[1..]);
    }
  }

  // ---------- Which tasklet reads which block ----------

  /** The sum of the elements of the block at `start`; the last block may be short. */
  function BlockSum(c: Config, input: seq<int>, perBlock: nat, start: nat): (r: int)
    requires Usable(c) && AreElements(c, input) && start <= |input|
    ensures IsElement(c, r)
  {
    Sum(c, input, start, Min(start + perBlock, |input|))
  }

  /** What a tasklet adds up from position `start` on, reading one block every `step` elements. */
  function PartialFrom(c: Config, input: seq<int>, perBlock: nat, step: nat, start: nat): (r: int)
    requires Usable(c) && AreElements(c, input) && step >= 1
    ensures IsElement(c, r)
    decreases |input| - start
  {
    if start >= |input| then 0
    else Add(c, BlockSum(c, input, perBlock, start), PartialFrom(c, input, perBlock, step, start + step))
  }

  /** The partials of `n` tasklets whose first blocks follow each other from `start` on. */
  function Partials(c: Config, input: seq<int>, perBlock: nat, step: nat, start: nat, n: nat): (p: seq<int>)
    requires Usable(c) && AreElements(c, input) && step >= 1
    ensures |p| == n && AreElements(c, p)
    decreases n
  {
    if n == 0 then []
    else
      [PartialFrom(c, input, perBlock, step, start)]
      + Partials(c, input, perBlock, step, start + perBlock, n - 1)
  }

  lemma {:induction false} PartialsAt(
      c: Config, input: seq<int>, perBlock: nat, step: nat, start: nat, n: nat, t: nat)
    requires Usable(c) && AreElements(c, input) && step >= 1 && t < n
    ensures 0 <= t * perBlock
    ensures Partials(c, input, perBlock, step, start, n)[t]
      == PartialFrom(c, input, perBlock, step, start + t * perBlock)
    decreases n
  {
    hide PartialFrom;
    if t > 0 {
      PartialsAt(c, input, perBlock, step, start + perBlock, n - 1, t - 1);
      assert perBlock + (t - 1) * perBlock == t * perBlock;
    }
  }

  lemma {:induction false} SumIsPointwise(c: Config, s: seq<int>, u: seq<int>, lo: nat, hi: nat, d: nat)
    requires Usable(c) && AreElements(c, s) && AreElements(c, u)
    requires lo <= hi <= |s| && hi + d <= |u|
    requires forall i :: lo <= i < hi ==> s[i] == u[i + d]
    ensures Sum(c, s, lo, hi) == Sum(c, u, lo + d, hi + d)
  {
    if lo < hi {
      SumIsPointwise(c, s, u, lo, hi - 1, d);
    }
  }

  lemma SumOfOne(c: Config, s: seq<int>, i: nat)
    requires Usable(c) && AreElements(c, s) && i < |s|
    ensures Sum(c, s, i, i + 1) == s[i]
  {
    assert Sum(c, s, i, i) == 0;
  }

  /** Moving a sequence's head to the sum of what follows it. */
  lemma SumOfTail(c: Config, s: seq<int>)
    requires Usable(c) && AreElements(c, s) && |s| >= 1 && AreElements(c, s[1..])
    ensures Sum(c, s, 0, |s|) == Add(c, s[0], Sum(c, s[1..], 0, |s| - 1))
  {
    hide Sum;
    SumSplits(c, s, 0, 1, |s|);
    SumOfOne(c, s, 0);
    SumIsPointwise(c, s[1..], s, 0, |s| - 1, 1);
  }

  lemma SumOfInit(c: Config, s: seq<int>, u: seq<int>)
    requires Usable(c) && AreElements(c, s) && |s| >= 1 && AreElements(c, u) && u == s[..|s| - 1]
    ensures Sum(c, s, 0, |s|) == Add(c, Sum(c, u, 0, |u|), s[|s| - 1])
  {
    SumIsPointwise(c, u, s, 0, |u|, 0);
  }

  /** Sliding the window by one block trades the first tasklet's next block for the rest of its run. */
  lemma WindowSlides(c: Config, input: seq<int>, perBlock: nat, start: nat, n: nat)
    requires Usable(c) && AreElements(c, input) && perBlock >= 1 && start < |input|
    requires n >= 1 && n * perBlock >= 1
    ensures var step := n * perBlock;
      Sum(c, Partials(c, input, perBlock, step, start, n), 0, n)
        == Add(c, BlockSum(c, input, perBlock, start),
               Sum(c, Partials(c, input, perBlock, step, start + perBlock, n), 0, n))
  {
    hide Sum, BlockSum, PartialFrom, Add;
    var step := n * perBlock;
    var p := Partials(c, input, perBlock, step, start, n);
    var q := Partials(c, input, perBlock, step, start + perBlock, n);
    var common := Partials(c, input, perBlock, step, start + perBlock, n - 1);
    var block, later := BlockSum(c, input, perBlock, start), PartialFrom(c, input, perBlock, step, start + step);
    assert p[1..] == common;
    forall t | 0 <= t < n - 1 ensures q[t] == common[t] {
      PartialsAt(c, input, perBlock, step, start + perBlock, n, t);
      PartialsAt(c, input, perBlock, step, start + perBlock, n - 1, t);
    }
    assert q[..n - 1] == common;
    PartialsAt(c, input, perBlock, step, start + perBlock, n, n - 1);
    assert perBlock + (n - 1) * perBlock == step;
    assert q[n - 1] == later;
    assert p[0] == Add(c, block, later) by {
      NextBlock(c, input, perBlock, step, start);
    }
    SumOfTail(c, p);
    SumOfInit(c, q, common);
    var rest := Sum(c, common, 0, n - 1);
    AddAssociates(c, block, later, rest);
    AddAssociates(c, later, rest, 0);
  }

  lemma NextBlock(c: Config, input: seq<int>, perBlock: nat, step: nat, start: nat)
    requires Usable(c) && AreElements(c, input) && step >= 1 && start < |input|
    ensures PartialFrom(c, input, perBlock, step, start)
      == Add(c, BlockSum(c, input, perBlock, start), PartialFrom(c, input, perBlock, step, start + step))
  {
  }

  lemma {:induction false} ZeroSum(c: Config, s: seq<int>, n: nat)
    requires Usable(c) && AreElements(c, s) && n <= |s|
    requires forall i :: 0 <= i < n ==> s[i] == 0
    ensures Sum(c, s, 0, n) == 0
  {
    if n > 0 {
      ZeroSum(c, s, n - 1);
    }
  }

  /** From `start` on, the tasklets together add up exactly the elements from there on. */
  lemma {:induction false} WindowSum(c: Config, input: seq<int>, perBlock: nat, start: nat, n: nat)
    requires Usable(c) && AreElements(c, input) && perBlock >= 1 && n >= 1 && n * perBlock >= 1
    ensures Sum(c, Partials(c, input, perBlock, n * perBlock, start, n), 0, n)
      == if start < |input| then Sum(c, input, start, |input|) else 0
    decreases |input| - start
  {
    hide Sum, Add, Partials;
    var next := start + perBlock;
    if start < |input| {
      WindowSum(c, input, perBlock, next, n);
      WindowSlides(c, input, perBlock, start, n);
      BlockThenRest(c, input, perBlock, start);
    } else {
      var p := Partials(c, input, perBlock, n * perBlock, start, n);
      forall t | 0 <= t < n ensures p[t] == 0 {
        PartialsAt(c, input, perBlock, n * perBlock, start, n, t);
      }
      ZeroSum(c, p, n);
    }
  }

  lemma BlockThenRest(c: Config, input: seq<int>, perBlock: nat, start: nat)
    requires Usable(c) && AreElements(c, input) && perBlock >= 1 && start < |input|
    ensures Sum(c, input, start, |input|)
      == Add(c, BlockSum(c, input, perBlock, start),
             if start + perBlock < |input| then Sum(c, input, start + perBlock, |input|) else 0)
  {
    hide Sum;
    if start + perBlock < |input| {
      SumSplits(c, input, start, start + perBlock, |input|);
    }
  }

  /** The partials the tasklets start the final reduction with. */
  function InitialPartials(c: Config, input: seq<int>, perBlock: nat): (p: seq<int>)
    requires Usable(c) && AreElements(c, input) && perBlock >= 1
    ensures |p| == c.tasklets && AreElements(c, p)
  {
    MultipleIsLarge(c.tasklets, perBlock);
    Partials(c, input, perBlock, c.tasklets * perBlock, 0, c.tasklets)
  }

  /** The block starts that a tasklet's loop visits from `start` on. */
  function Visits(size: nat, step: nat, start: nat): (starts: seq<nat>)
    requires step >= 1
    decreases size - start
  {
    if start >= size then [] else [start] + Visits(size, step, start + step)
  }

  lemma {:induction false} VisitsAt(size: nat, step: nat, start: nat, k: nat)
    requires step >= 1
    ensures k < |Visits(size, step, start)| <==> start + k * step < size
    ensures k < |Visits(size, step, start)| ==> Visits(size, step, start)[k] == start + k * step
    decreases k
  {
    if k > 0 {
      assert step + (k - 1) * step == k * step;
      VisitsAt(size, step, start + step, k - 1);
    }
  }

  /** Tasklet `t` reads position `i` in its round `k`. */
  ghost predicate Reads(tasklets: nat, size: nat, perBlock: nat, t: nat, k: nat, i: nat)
    requires perBlock >= 1 && tasklets * perBlock >= 1
  {
    var starts := Visits(size, tasklets * perBlock, t * perBlock);
    k < |starts| && starts[k] <= i < starts[k] + perBlock
  }

  /** The start of the block that a tasklet reads in a round, as a multiple of the block size. */
  lemma VisitIsBlock(tasklets: nat, size: nat, perBlock: nat, t: nat, k: nat)
    requires perBlock >= 1 && tasklets * perBlock >= 1
    ensures var starts, block := Visits(size, tasklets * perBlock, t * perBlock), k * tasklets + t;
      && (k < |starts| <==> block * perBlock < size)
      && (k < |starts| ==> starts[k] == block * perBlock)
  {
    VisitsAt(size, tasklets * perBlock, t * perBlock, k);
    calc {
      (k * tasklets + t) * perBlock;
      k * tasklets * perBlock + t * perBlock;
      k * (tasklets * perBlock) + t * perBlock;
    }
  }

  /** Two multiples of `m` that are less than `m` apart are the same. */
  lemma SameMultiple(a: int, b: int, m: nat)
    requires m >= 1 && 0 - m < a * m - b * m < m
    ensures a == b
  {
    assert (a - b) * m == a * m - b * m;
    MultipleIsLarge(a - b, m);
  }

  lemma ReaderOfBlock(tasklets: nat, size: nat, perBlock: nat, t: nat, k: nat, i: nat, block: nat)
    requires perBlock >= 1 && tasklets * perBlock >= 1 && block * perBlock <= i < block * perBlock + perBlock && i < size
    ensures Reads(tasklets, size, perBlock, t, k, i) <==> k * tasklets + t == block
  {
    hide Visits;
    VisitIsBlock(tasklets, size, perBlock, t, k);
    if Reads(tasklets, size, perBlock, t, k, i) {
      SameMultiple(k * tasklets + t, block, perBlock);
    }
  }

  lemma RoundIsUnique(tasklets: nat, t: nat, k: nat, u: nat, l: nat)
    requires t < tasklets && u < tasklets && k * tasklets + t == l * tasklets + u
    ensures t == u && k == l
  {
    ModUnique(k * tasklets + t, tasklets, k, t);
    ModUnique(k * tasklets + t, tasklets, l, u);
    SameMultiple(k, l, tasklets);
  }

  lemma Divided(x: nat, m: nat) returns (q: nat, r: nat)
    requires m >= 1
    ensures x == q * m + r && r < m
  {
    q, r := x / m, x % m;
  }

  /** Every position of the input is read by exactly one tasklet, in exactly one of its rounds. */
  lemma EachElementIsReadOnce(tasklets: nat, size: nat, perBlock: nat, i: nat) returns (t: nat, k: nat)
    requires tasklets >= 1 && perBlock >= 1 && i < size
    ensures tasklets * perBlock >= 1 && t < tasklets && Reads(tasklets, size, perBlock, t, k, i)
    ensures forall u: nat, l: nat :: u < tasklets && Reads(tasklets, size, perBlock, u, l, i) ==> u == t && l == k
  {
    hide Reads;
    MultipleIsLarge(tasklets, perBlock);
    var block, offset := Divided(i, perBlock);
    k, t := Divided(block, tasklets);
    ReaderOfBlock(tasklets, size, perBlock, t, k, i, block);
    forall u: nat, l: nat | u < tasklets && Reads(tasklets, size, perBlock, u, l, i) ensures u == t && l == k {
      ReaderOfBlock(tasklets, size, perBlock, u, l, i, block);
      RoundIsUnique(tasklets, u, l, t, k);
    }
  }

  /** Each block is counted once: the partials add up to the whole input. */
  lemma PartialsCoverInput(c: Config, input: seq<int>, perBlock: nat)
    requires Usable(c) && AreElements(c, input) && perBlock >= 1
    ensures Sum(c, InitialPartials(c, input, perBlock), 0, c.tasklets) == Sum(c, input, 0, |input|)
  {
    hide Partials;
    MultipleIsLarge(c.tasklets, perBlock);
    WindowSum(c, input, perBlock, 0, c.tasklets);
  }

  /** vec_red: add a block's elements to the tasklet's partial. */
  method AddBlock(c: Config, input: seq<int>, lo: nat, hi: nat, partial: int) returns (r: int)
    requires Usable(c) && AreElements(c, input) && IsElement(c, partial) && lo <= hi <= |input|
    ensures IsElement(c, r) && r == Add(c, partial, Sum(c, input, lo, hi))
  {
    r := partial;
    var i := lo;
    while i < hi
      invariant lo <= i <= hi
      invariant IsElement(c, r) && r == Add(c, partial, Sum(c, input, lo, i))
    {
      AddAssociates(c, partial, Sum(c, input, lo, i), input[i]);
      r := Add(c, r, input[i]);
      i := i + 1;
    }
  }

  /** The block loop of main_kernel1 for one tasklet. */
  method ScanBlocks(c: Config, input: seq<int>, perBlock: nat, tasklet: nat)
      returns (partial: int, ghost visited: seq<nat>)
    requires Usable(c) && AreElements(c, input) && perBlock >= 1 && tasklet < c.tasklets
    ensures partial == InitialPartials(c, input, perBlock)[tasklet]
    ensures c.tasklets * perBlock >= 1 && visited == Visits(|input|, c.tasklets * perBlock, tasklet * perBlock)
  {
    hide Sum, Partials, Add, PartialFrom;
    MultipleIsLarge(c.tasklets, perBlock);
    var step := c.tasklets * perBlock;
    PartialsAt(c, input, perBlock, step, 0, c.tasklets, tasklet);
    partial, visited := 0, [];
    var at := tasklet * perBlock;
    ZeroIsNeutral(c, PartialFrom(c, input, perBlock, step, at));
    while at < |input|
      invariant IsElement(c, partial)
      invariant Add(c, partial, PartialFrom(c, input, perBlock, step, at))
                == PartialFrom(c, input, perBlock, step, tasklet * perBlock)
      invariant visited + Visits(|input|, step, at) == Visits(|input|, step, tasklet * perBlock)
      decreases |input| - at
    {
      var end := if at + perBlock > |input| then |input| else at + perBlock;
      NextBlock(c, input, perBlock, step, at);
      AddAssociates(c, partial, BlockSum(c, input, perBlock, at), PartialFrom(c, input, perBlock, step, at + step));
      partial := AddBlock(c, input, at, end, partial);
      visited := visited + [at];
      at := at + step;
    }
    NoMoreBlocks(c, input, perBlock, step, at);
    ZeroIsNeutral(c, partial);
  }

  lemma NoMoreBlocks(c: Config, input: seq<int>, perBlock: nat, step: nat, start: nat)
    requires Usable(c) && AreElements(c, input) && step >= 1 && start >= |input|
    ensures PartialFrom(c, input, perBlock, step, start) == 0
  {
  }

  lemma ZeroIsNeutral(c: Config, x: int)
    requires IsElement(c, x)
    ensures Add(c, x, 0) == x && Add(c, 0, x) == x
  {
  }
}
