/**
 * The set-associative cache of lab1: one model for the RAND and the LRU builds.
 * The functions say what an access does to one set and to the whole cache;
 * the class does it in place, as the C code does.
 */
module SetAssociativeCache {
  import opened Collections
  import opened Powers

  /** The replacement policy chosen at build time. */
  datatype Policy = Rand | Lru

  /** A cache line's bookkeeping; `recency` is used by the LRU build only, 0 being most recent. */
  datatype Block = Block(tag: nat, valid: bool, recency: nat)

  type Ways = seq<Block>

  datatype Geometry = Geometry(policy: Policy, setBits: nat, blockBits: nat)

  datatype CacheValue = CacheValue(geometry: Geometry, sets: seq<Ways>)

  const DRAM_ACCESS_CYCLES: nat := 50

  function TagOf(g: Geometry, address: nat): nat {
    Shr(address, g.blockBits + g.setBits)
  }

  function SetOf(g: Geometry, address: nat): (s: nat)
    ensures s < Pow2(g.setBits)
  {
    LowBits(Shr(address, g.blockBits), g.setBits)
  }

  predicate IsHitFor(b: Block, tag: nat) {
    b.tag == tag && b.valid
  }

  function FindTag(ways: Ways, tag: nat): (i: nat)
    ensures i <= |ways|
    ensures i < |ways| ==> IsHitFor(ways[i], tag)
    ensures forall j :: 0 <= j < i ==> !IsHitFor(ways[j], tag)
  {
    FirstIndex(ways, (b: Block) => IsHitFor(b, tag))
  }

  function FindInvalid(ways: Ways): (i: nat)
    ensures i <= |ways|
    ensures i < |ways| ==> !ways[i].valid
    ensures forall j :: 0 <= j < i ==> ways[j].valid
  {
    FirstIndex(ways, (b: Block) => !b.valid)
  }

  function FindOldest(ways: Ways): (i: nat)
    ensures i <= |ways|
    ensures i < |ways| ==> ways[i].recency == |ways| - 1
    ensures forall j :: 0 <= j < i ==> ways[j].recency != |ways| - 1
  {
    var n := |ways|;
    FirstIndex(ways, (b: Block) => b.recency == n - 1)
  }

  /** update_lru: age the valid blocks that were more recent, then make `b` the most recent. */
  function Touch(ways: Ways, b: nat): (r: Ways)
    requires b < |ways|
    ensures |r| == |ways|
  {
    seq(|ways|, i requires 0 <= i < |ways| =>
      if i == b then ways[i].(recency := 0)
      else if ways[i].valid && ways[i].recency < ways[b].recency then ways[i].(recency := ways[i].recency + 1)
      else ways[i])
  }

  /** The way to fill on a miss: an invalid one if there is one, otherwise the policy's choice. */
  function Victim(policy: Policy, ways: Ways, random: nat): (v: nat)
    requires |ways| > 0
    ensures v < |ways|
  {
    var free := FindInvalid(ways);
    if free < |ways| then free
    else match policy
      case Rand => random % |ways|
      case Lru => if FindOldest(ways) < |ways| then FindOldest(ways) else 0
  }

  function Refresh(policy: Policy, ways: Ways, b: nat): (r: Ways)
    requires b < |ways|
    ensures |r| == |ways|
  {
    if policy == Lru then Touch(ways, b) else ways
  }

  predicate Holds(ways: Ways, tag: nat) {
    FindTag(ways, tag) < |ways|
  }

  function AccessWays(policy: Policy, ways: Ways, tag: nat, random: nat): (r: Ways)
    requires |ways| > 0
    ensures |r| == |ways|
  {
    var b := FindTag(ways, tag);
    if b < |ways| then Refresh(policy, ways, b)
    else
      var v := Victim(policy, ways, random);
      Refresh(policy, ways[v := ways[v].(tag := tag, valid := true)], v)
  }

  predicate WellFormed(c: CacheValue) {
    && Pow2(c.geometry.setBits) <= |c.sets|
    && forall s :: 0 <= s < |c.sets| ==> |c.sets[s]| > 0
  }

  type SoundCache = c: CacheValue | WellFormed(c)
    witness CacheValue(Geometry(Rand, 0, 0), [[Block(0, false, 0)]])

  predicate Hits(c: CacheValue, address: nat)
    requires WellFormed(c)
  {
    Holds(c.sets[SetOf(c.geometry, address)], TagOf(c.geometry, address))
  }

  function Access(c: CacheValue, address: nat, random: nat): (r: CacheValue)
    requires WellFormed(c)
    ensures WellFormed(r) && r.geometry == c.geometry && |r.sets| == |c.sets|
  {
    var s := SetOf(c.geometry, address);
    c.(sets := c.sets[s := AccessWays(c.geometry.policy, c.sets[s], TagOf(c.geometry, address), random)])
  }

  /** Stall cycles of an access: none on a hit, a DRAM access on a miss. */
  function AccessStall(c: CacheValue, address: nat): (stall: nat)
    requires WellFormed(c)
    ensures stall == 0 || stall == DRAM_ACCESS_CYCLES
  {
    if Hits(c, address) then 0 else DRAM_ACCESS_CYCLES
  }

  /** A line that has been accessed is present right afterwards, under either policy. */
  lemma AccessBringsIn(c: CacheValue, address: nat, random: nat)
    requires WellFormed(c)
    ensures Hits(Access(c, address, random), address)
  {
    var s := SetOf(c.geometry, address);
    var tag := TagOf(c.geometry, address);
    var ways := c.sets[s];
    var after := AccessWays(c.geometry.policy, ways, tag, random);
    var b := if Holds(ways, tag) then FindTag(ways, tag) else Victim(c.geometry.policy, ways, random);
    assert IsHitFor(after[b], tag);
  }

  function InitialWays(n: nat): (w: Ways)
    ensures |w| == n
  {
    seq(n, i requires i >= 0 => Block(0, false, i))
  }

  class Cache {
    const geometry: Geometry
    const blocks: array2<Block>

    ghost predicate Valid() {
      && Pow2(geometry.setBits) <= blocks.Length0
      && blocks.Length1 > 0
    }

    ghost function WaysAt(s: nat): (w: Ways)
      requires s < blocks.Length0
      reads blocks
      ensures |w| == blocks.Length1 && forall i :: 0 <= i < |w| ==> w[i] == blocks[s, i]
    {
      seq(blocks.Length1, i requires 0 <= i < blocks.Length1 reads blocks => blocks[s, i])
    }

    ghost function Value(): (c: CacheValue)
      reads blocks
      ensures Valid() ==> WellFormed(c)
    {
      CacheValue(geometry, seq(blocks.Length0, s requires 0 <= s < blocks.Length0 reads blocks => WaysAt(s)))
    }

    /** alloc_cache: size the sets from the capacity, count index bits, mark every block invalid. */
    constructor (policy: Policy, capacity: nat, ways: nat, blockSize: nat)
      requires ways > 0 && blockSize > 0 && capacity >= blockSize * ways
      ensures Valid() && fresh(blocks)
      ensures geometry.policy == policy
      ensures Pow2(geometry.blockBits) <= blockSize < Pow2(geometry.blockBits + 1)
      ensures blocks.Length0 == capacity / (blockSize * ways) && blocks.Length1 == ways
      ensures Pow2(geometry.setBits) <= blocks.Length0 < Pow2(geometry.setBits + 1)
      ensures Value().sets == seq(blocks.Length0, s => InitialWays(ways))
    {
      var numSets := capacity / (blockSize * ways);
      assert numSets >= 1;
      var blockBits := CountBits(blockSize);
      var setBits := CountBits(numSets);
      var b := new Block[numSets, ways]((s, i) => Block(0, false, 0));
      geometry := Geometry(policy, setBits, blockBits);
      blocks := b;
      new;
      var s := 0;
      while s < numSets
        invariant 0 <= s <= numSets
        invariant forall t, i :: 0 <= t < s && 0 <= i < ways ==> b[t, i] == Block(0, false, i)
      {
        var i := 0;
        while i < ways
          invariant 0 <= i <= ways
          invariant forall t, j :: 0 <= t < s && 0 <= j < ways ==> b[t, j] == Block(0, false, j)
          invariant forall j :: 0 <= j < i ==> b[s, j] == Block(0, false, j)
        {
          b[s, i] := Block(0, false, i);
          i := i + 1;
        }
        s := s + 1;
      }
      forall t | 0 <= t < numSets ensures WaysAt(t) == InitialWays(ways) {
      }
    }

    /** update_lru, in place on one set. */
    method UpdateLru(index: nat, block: nat)
      requires index < blocks.Length0 && block < blocks.Length1
      modifies blocks
      ensures WaysAt(index) == Touch(old(WaysAt(index)), block)
      ensures forall s :: 0 <= s < blocks.Length0 && s != index ==> WaysAt(s) == old(WaysAt(s))
    {
      var previous := blocks[index, block].recency;
      var b := 0;
      while b < blocks.Length1
        invariant 0 <= b <= blocks.Length1
        invariant forall s, i :: 0 <= s < blocks.Length0 && 0 <= i < blocks.Length1 && (s != index || i >= b) ==>
          blocks[s, i] == old(blocks[s, i])
        invariant forall i :: 0 <= i < b ==>
          blocks[index, i] == (var was := old(blocks[index, i]);
            if was.valid && was.recency < previous then was.(recency := was.recency + 1) else was)
      {
        if blocks[index, b].valid && blocks[index, b].recency < previous {
          blocks[index, b] := blocks[index, b].(recency := blocks[index, b].recency + 1);
        }
        b := b + 1;
      }
      blocks[index, block] := blocks[index, block].(recency := 0);
      assert WaysAt(index) == Touch(old(WaysAt(index)), block);
    }

    method Update(index: nat, block: nat)
      requires index < blocks.Length0 && block < blocks.Length1
      modifies blocks
      ensures WaysAt(index) == Refresh(geometry.policy, old(WaysAt(index)), block)
      ensures forall s :: 0 <= s < blocks.Length0 && s != index ==> WaysAt(s) == old(WaysAt(s))
    {
      if geometry.policy == Lru {
        UpdateLru(index, block);
      }
    }

    method FindHit(index: nat, tag: nat) returns (b: nat)
      requires index < blocks.Length0
      ensures b == FindTag(WaysAt(index), tag)
    {
      b := 0;
      while b < blocks.Length1 && !IsHitFor(blocks[index, b], tag)
        invariant 0 <= b <= blocks.Length1
        invariant forall j :: 0 <= j < b ==> !IsHitFor(blocks[index, j], tag)
      {
        b := b + 1;
      }
    }

    method ChooseVictim(index: nat, random: nat) returns (victim: nat)
      requires index < blocks.Length0 && blocks.Length1 > 0
      ensures victim == Victim(geometry.policy, WaysAt(index), random)
    {
      var b := 0;
      while b < blocks.Length1 && blocks[index, b].valid
        invariant 0 <= b <= blocks.Length1
        invariant forall j :: 0 <= j < b ==> blocks[index, j].valid
      {
        b := b + 1;
      }
      assert b == FindInvalid(WaysAt(index));
      if b < blocks.Length1 {
        return b;
      }
      match geometry.policy {
        case Rand =>
          return random % blocks.Length1;
        case Lru =>
          b := 0;
          while b < blocks.Length1 && blocks[index, b].recency != blocks.Length1 - 1
            invariant 0 <= b <= blocks.Length1
            invariant forall j :: 0 <= j < b ==> blocks[index, j].recency != blocks.Length1 - 1
          {
            b := b + 1;
          }
          assert b == FindOldest(WaysAt(index));
          return if b < blocks.Length1 then b else 0;
      }
    }

    /** cache_access: the stall in cycles; `random` stands for the value rand() would return. */
    method CacheAccess(address: nat, random: nat) returns (stall: nat)
      requires Valid()
      modifies blocks
      ensures stall == AccessStall(old(Value()), address)
      ensures Value() == Access(old(Value()), address, random)
    {
      ghost var before := Value();
      var tag := Shr(address, geometry.blockBits + geometry.setBits);
      var index := LowBits(Shr(address, geometry.blockBits), geometry.setBits);
      assert index == SetOf(geometry, address);
      var b := FindHit(index, tag);
      if b < blocks.Length1 {
        Update(index, b);
        assert Value().sets == Access(before, address, random).sets;
        return 0;
      }
      var victim := ChooseVictim(index, random);
      blocks[index, victim] := blocks[index, victim].(tag := tag, valid := true);
      assert WaysAt(index) == before.sets[index][victim := before.sets[index][victim].(tag := tag, valid := true)];
      assert forall s :: 0 <= s < blocks.Length0 && s != index ==> WaysAt(s) == before.sets[s];
      Update(index, victim);
      assert Value().sets == Access(before, address, random).sets;
      return DRAM_ACCESS_CYCLES;
    }
  }
}
