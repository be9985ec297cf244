/**
 * What the index and the tag of lab1's cache mean for addresses, and what one access does to the
 * presence of every line.
 */
module CacheLines {
  import opened Powers
  import opened SetAssociativeCache
  import Bits

  /** The line of memory that an address is in. */
  function Line(g: Geometry, address: nat): nat {
    ShrDivides(address, g.blockBits);
    address / Pow2(g.blockBits)
  }

  /** The index is the line number modulo the indexed sets, the tag the rest of it. */
  lemma IndexAndTag(g: Geometry, address: nat)
    ensures SetOf(g, address) == Line(g, address) % Pow2(g.setBits)
    ensures TagOf(g, address) == Line(g, address) / Pow2(g.setBits)
  {
    hide Pow2, Shr, LowBits;
    ShrDivides(address, g.blockBits);
    LowBitsRemain(Line(g, address), g.setBits);
    Bits.ShrShr(address, g.blockBits, g.setBits);
    ShrDivides(Line(g, address), g.setBits);
  }

  /** Two addresses have the same index and tag exactly if they are in one line. */
  lemma SameLineIff(g: Geometry, a: nat, b: nat)
    ensures SetOf(g, a) == SetOf(g, b) && TagOf(g, a) == TagOf(g, b) <==> Line(g, a) == Line(g, b)
  {
    hide SetOf, TagOf, Line, Pow2;
    IndexAndTag(g, a);
    IndexAndTag(g, b);
    Composed(Line(g, a), Pow2(g.setBits));
    Composed(Line(g, b), Pow2(g.setBits));
  }

  lemma Composed(x: nat, d: nat)
    requires d >= 1
    ensures x == x / d * d + x % d
  {
  }

  /** The way that a miss fills when all are valid: any one, or the least recently used one. */
  predicate Replaced(policy: Policy, ways: Ways, random: nat, v: nat)
    requires v < |ways|
  {
    match policy
    case Rand => v == random % |ways|
    case Lru => ways[v].recency == |ways| - 1 || (v == 0 && forall i :: 0 <= i < |ways| ==> ways[i].recency != |ways| - 1)
  }

  /** Aging changes no tag and no valid bit. */
  lemma RefreshKeepsTags(policy: Policy, ways: Ways, b: nat, i: nat)
    requires b < |ways| && i < |ways|
    ensures Refresh(policy, ways, b)[i].tag == ways[i].tag && Refresh(policy, ways, b)[i].valid == ways[i].valid
  {
  }

  lemma HoldsIff(ways: Ways, tag: nat)
    ensures Holds(ways, tag) <==> exists i :: 0 <= i < |ways| && ways[i].valid && ways[i].tag == tag
  {
    var i := FindTag(ways, tag);
    assert i < |ways| ==> IsHitFor(ways[i], tag);
    if j :| 0 <= j < |ways| && ways[j].valid && ways[j].tag == tag {
      assert IsHitFor(ways[j], tag);
    }
  }

  lemma HitKeepsTags(policy: Policy, ways: Ways, tag: nat, random: nat, other: nat)
    requires |ways| > 0 && Holds(ways, tag)
    ensures Holds(AccessWays(policy, ways, tag, random), other) <==> Holds(ways, other)
  {
    hide Refresh, Holds, FindTag;
    var b := FindTag(ways, tag);
    assert b < |ways| by {
      FindsHeld(ways, tag);
    }
    var after := AccessWays(policy, ways, tag, random);
    forall i | 0 <= i < |ways| ensures after[i].tag == ways[i].tag && after[i].valid == ways[i].valid {
      RefreshKeepsTags(policy, ways, b, i);
    }
    HoldsIff(ways, other);
    HoldsIff(after, other);
  }

  lemma FindsHeld(ways: Ways, tag: nat)
    ensures Holds(ways, tag) <==> FindTag(ways, tag) < |ways|
  {
  }

  /** A miss brings in its tag in place of the one in the way it fills. */
  lemma MissReplaces(policy: Policy, ways: Ways, tag: nat, random: nat, other: nat) returns (v: nat)
    requires |ways| > 0 && !Holds(ways, tag)
    ensures v < |ways|
    ensures if exists i :: 0 <= i < |ways| && !ways[i].valid then !ways[v].valid else Replaced(policy, ways, random, v)
    ensures Holds(AccessWays(policy, ways, tag, random), other) <==>
      other == tag || exists i :: 0 <= i < |ways| && i != v && ways[i].valid && ways[i].tag == other
  {
    hide Refresh, Holds, FindTag;
    FindsHeld(ways, tag);
    v := Victim(policy, ways, random);
    VictimIs(policy, ways, random);
    var filled := ways[v := ways[v].(tag := tag, valid := true)];
    var after := AccessWays(policy, ways, tag, random);
    forall i | 0 <= i < |ways| ensures after[i].tag == filled[i].tag && after[i].valid == filled[i].valid {
      RefreshKeepsTags(policy, filled, v, i);
    }
    HoldsIff(after, other);
    assert after[v].valid && after[v].tag == tag;
    if i :| 0 <= i < |ways| && i != v && ways[i].valid && ways[i].tag == other {
      assert after[i].valid && after[i].tag == other;
    }
    if i :| 0 <= i < |after| && after[i].valid && after[i].tag == other {
      assert i != v ==> ways[i].valid && ways[i].tag == other;
    }
  }

  lemma VictimIs(policy: Policy, ways: Ways, random: nat)
    requires |ways| > 0
    ensures var v := Victim(policy, ways, random);
      if exists i :: 0 <= i < |ways| && !ways[i].valid then !ways[v].valid else Replaced(policy, ways, random, v)
  {
    var free := FindInvalid(ways);
    assert free < |ways| ==> !ways[free].valid;
  }

  /** The way whose line an access to `a` takes out, when the line of `b` is lost by it. */
  predicate TakesOut(c: CacheValue, a: nat, random: nat, b: nat, v: nat)
    requires WellFormed(c)
  {
    var ways := c.sets[SetOf(c.geometry, b)];
    && SetOf(c.geometry, a) == SetOf(c.geometry, b) && !Hits(c, a)
    && v < |ways| && ways[v].valid && ways[v].tag == TagOf(c.geometry, b)
    && (forall i :: 0 <= i < |ways| ==> ways[i].valid) && Replaced(c.geometry.policy, ways, random, v)
  }

  /**
   * After an access the lines present are those present before and the accessed one; one is lost only
   * by a miss to its set that finds all ways valid and replaces its way.
   */
  lemma AccessMovesOneLine(c: CacheValue, a: nat, random: nat, b: nat)
    requires WellFormed(c)
    ensures var d := Access(c, a, random);
      && (Line(c.geometry, a) == Line(c.geometry, b) ==> Hits(d, b))
      && (Hits(d, b) && !Hits(c, b) ==> Line(c.geometry, a) == Line(c.geometry, b))
      && (Hits(c, b) && !Hits(d, b) ==> exists v: nat :: TakesOut(c, a, random, b, v))
  {
    hide SetOf, TagOf, Line, AccessWays, Holds, Replaced;
    SameLineIff(c.geometry, a, b);
    var s, t := SetOf(c.geometry, a), TagOf(c.geometry, a);
    var ways, other := c.sets[s], TagOf(c.geometry, b);
    AccessBringsIn(c, a, random);
    if s == SetOf(c.geometry, b) {
      if Holds(ways, t) {
        HitKeepsTags(c.geometry.policy, ways, t, random, other);
      } else {
        var v := MissReplaces(c.geometry.policy, ways, t, random, other);
        HoldsIff(ways, other);
        if Hits(c, b) && !Hits(Access(c, a, random), b) {
          var i :| 0 <= i < |ways| && ways[i].valid && ways[i].tag == other;
          assert i == v;
          assert TakesOut(c, a, random, b, v);
        }
      }
    }
  }
}
