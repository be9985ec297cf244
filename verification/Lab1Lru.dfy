/**
 * What the LRU build of the lab1 cache promises: each set is a move-to-front list cut to the
 * number of ways, so hits follow stack distance and more ways never hit less.
 */
module LruRefinement {
  import opened Collections
  import opened Powers
  import opened SetAssociativeCache

  // ---------- The simple form: a move-to-front list ----------

  type Stack = seq<nat>

  function IndexOf(l: Stack, t: nat): (i: nat)
    ensures i <= |l|
    ensures i < |l| ==> l[i] == t
    ensures forall j :: 0 <= j < i ==> l[j] != t
    ensures t in l ==> i < |l|
  {
    FirstIndex(l, (x: nat) => x == t)
  }

  /** Put `t` in front; the entry it had before, if any, is taken out. */
  function MoveToFront(l: Stack, t: nat): (r: Stack)
    ensures |r| == if t in l then |l| else |l| + 1
  {
    var i := IndexOf(l, t);
    [t] + l[..i] + if i < |l| then l[i + 1..] else []
  }

  /** The unbounded recency stack of a reference string. */
  function StackOf(trace: seq<nat>): Stack {
    if trace == [] then [] else MoveToFront(StackOf(trace[..|trace| - 1]), trace[|trace| - 1])
  }

  // ---------- The fast form: recency counters ----------

  /**
   * `order` lists the ways by recency and is inverse to the recency field, so recencies are a
   * permutation of 0..ways-1; the first `used` ways, and only those, are valid.
   */
  ghost predicate Ranked(ways: Ways, order: seq<nat>, used: nat) {
    && |order| == |ways| && used <= |ways|
    && (forall i :: 0 <= i < |ways| ==> ways[i].recency < |ways| && order[ways[i].recency] == i)
    && (forall r :: 0 <= r < |ways| ==> order[r] < |ways| && ways[order[r]].recency == r)
    && (forall i :: 0 <= i < |ways| ==> (ways[i].valid <==> i < used))
    && (forall i :: used <= i < |ways| ==> ways[i].recency == i)
  }

  /** A valid set holds exactly the list `l`, most recent first. */
  ghost predicate Represents(ways: Ways, order: seq<nat>, l: Stack) {
    && |l| <= |ways|
    && Ranked(ways, order, |l|)
    && (forall r :: 0 <= r < |l| ==> ways[order[r]].tag == l[r])
    && Distinct(l)
  }

  ghost predicate Refines(ways: Ways, l: Stack) {
    exists order :: Represents(ways, order, l)
  }

  /** `order` after the way at recency `k` became the most recent one. */
  function Promote(order: seq<nat>, k: nat): (r: seq<nat>)
    requires k < |order|
    ensures |r| == |order|
  {
    [order[k]] + order[..k] + order[k + 1..]
  }

  lemma ValidFirst(ways: Ways, order: seq<nat>, used: nat, r: nat)
    requires Ranked(ways, order, used) && r < |ways|
    ensures r < used <==> order[r] < used
  {
    if r >= used {
      assert ways[r].recency == r;
      assert order[ways[r].recency] == r;
    }
  }

  lemma TouchRanks(ways: Ways, order: seq<nat>, used: nat, b: nat)
    requires Ranked(ways, order, used) && b < used
    ensures Ranked(Touch(ways, b), Promote(order, ways[b].recency), used)
  {
    var k := ways[b].recency;
    var after := Touch(ways, b);
    var order' := Promote(order, k);
    ValidFirst(ways, order, used, k);
    forall i | 0 <= i < |ways|
      ensures after[i].recency < |ways| && order'[after[i].recency] == i
      ensures i >= used ==> after[i].recency == i
    {
      ValidFirst(ways, order, used, ways[i].recency);
      if i != b && ways[i].recency < k {
        assert ways[i].valid;
        assert order'[ways[i].recency + 1] == order[ways[i].recency];
      } else if i != b {
        assert ways[i].recency != k;
      }
    }
    forall r | 0 <= r < |ways|
      ensures order'[r] < |ways| && after[order'[r]].recency == r
    {
      if 0 < r <= k {
        assert order'[r] == order[r - 1];
        ValidFirst(ways, order, used, r - 1);
        assert order[r - 1] != b;
      } else if r > k {
        assert order'[r] == order[r];
        assert order[r] != b;
      }
    }
  }

  lemma InitialRefines(n: nat)
    ensures Refines(InitialWays(n), [])
  {
    var order := seq(n, i requires i >= 0 => i);
    assert Represents(InitialWays(n), order, []);
  }

  /** The way found for a tag of the list is the one ranked at the tag's position. */
  lemma HitWay(ways: Ways, order: seq<nat>, l: Stack, tag: nat)
    requires Represents(ways, order, l) && tag in l
    ensures Holds(ways, tag)
    ensures ways[FindTag(ways, tag)].recency == IndexOf(l, tag) && FindTag(ways, tag) < |l|
  {
    var k := IndexOf(l, tag);
    ValidFirst(ways, order, |l|, k);
    assert IsHitFor(ways[order[k]], tag);
    var b := FindTag(ways, tag);
    var r := ways[b].recency;
    ValidFirst(ways, order, |l|, r);
    assert l[r] == ways[order[r]].tag == tag == l[k];
  }

  lemma PromoteAt(s: seq<nat>, k: nat, r: nat)
    requires k < |s| && r < |s|
    ensures Promote(s, k)[r] == s[if r == 0 then k else if r <= k then r - 1 else r]
  {
  }

  /** Promoting the way at position `k` promotes the entry at position `k` of the list. */
  lemma PromoteRepresents(ways: Ways, order: seq<nat>, l: Stack, k: nat)
    requires Represents(ways, order, l) && k < |l| && Distinct(Promote(l, k))
    ensures Refines(Touch(ways, order[k]), Promote(l, k))
  {
    ValidFirst(ways, order, |l|, k);
    TouchRanks(ways, order, |l|, order[k]);
    var order' := Promote(order, k);
    var after := Touch(ways, order[k]);
    forall r | 0 <= r < |l| ensures after[order'[r]].tag == Promote(l, k)[r] {
      var was := if r == 0 then k else if r <= k then r - 1 else r;
      PromoteAt(order, k, r);
      PromoteAt(l, k, r);
      assert after[order[was]].tag == ways[order[was]].tag == l[was];
    }
    assert Represents(after, order', Promote(l, k));
  }

  lemma MoveToFrontAt(l: Stack, t: nat, r: nat)
    requires r < |MoveToFront(l, t)|
    ensures MoveToFront(l, t)[r] == if r == 0 then t else if r <= IndexOf(l, t) then l[r - 1] else l[r]
  {
  }

  lemma MoveToFrontDistinct(l: Stack, t: nat)
    requires Distinct(l)
    ensures Distinct(MoveToFront(l, t))
  {
    forall i, j | 0 <= i < j < |MoveToFront(l, t)| ensures MoveToFront(l, t)[i] != MoveToFront(l, t)[j] {
      MoveToFrontAt(l, t, i);
      MoveToFrontAt(l, t, j);
    }
  }

  lemma HitRefines(ways: Ways, order: seq<nat>, l: Stack, tag: nat)
    requires Represents(ways, order, l) && tag in l
    ensures Holds(ways, tag)
    ensures Refines(AccessWays(Lru, ways, tag, 0), MoveToFront(l, tag))
  {
    var k := IndexOf(l, tag);
    HitWay(ways, order, l, tag);
    MoveToFrontDistinct(l, tag);
    assert MoveToFront(l, tag) == Promote(l, k);
    PromoteRepresents(ways, order, l, k);
  }

  lemma MissWays(ways: Ways, order: seq<nat>, l: Stack, tag: nat)
    requires Represents(ways, order, l) && tag !in l && |ways| > 0
    ensures !Holds(ways, tag)
    ensures Victim(Lru, ways, 0) == if |l| < |ways| then |l| else order[|ways| - 1]
  {
    forall b | 0 <= b < |ways| ensures !IsHitFor(ways[b], tag) {
      ValidFirst(ways, order, |l|, ways[b].recency);
    }
    var free := FindInvalid(ways);
    if |l| < |ways| {
      assert !ways[|l|].valid;
      assert free == |l|;
    } else {
      assert ways[order[|ways| - 1]].recency == |ways| - 1;
      assert FindOldest(ways) == order[|ways| - 1];
    }
  }

  /** Filling the victim gives a set representing the list with the new tag in the victim's place. */
  lemma FillRepresents(ways: Ways, order: seq<nat>, l: Stack, tag: nat)
    requires Represents(ways, order, l) && tag !in l && |ways| > 0
    ensures var v := Victim(Lru, ways, 0);
      Represents(ways[v := ways[v].(tag := tag, valid := true)], order, l[..Min(|l|, |ways| - 1)] + [tag])
      && v == order[Min(|l|, |ways| - 1)]
  {
    MissWays(ways, order, l, tag);
    var v := Victim(Lru, ways, 0);
    var m := Min(|l|, |ways| - 1);
    if |l| < |ways| {
      assert ways[|l|].recency == |l|;
    }
    var filled := ways[v := ways[v].(tag := tag, valid := true)];
    var l' := l[..m] + [tag];
    assert Ranked(filled, order, m + 1);
    forall r | 0 <= r < m ensures filled[order[r]].tag == l'[r] {
      assert ways[order[r]].recency == r;
    }
  }

  lemma MissRefines(ways: Ways, order: seq<nat>, l: Stack, tag: nat)
    requires Represents(ways, order, l) && tag !in l && |ways| > 0
    ensures !Holds(ways, tag)
    ensures Refines(AccessWays(Lru, ways, tag, 0), Take(MoveToFront(l, tag), |ways|))
  {
    MissWays(ways, order, l, tag);
    FillRepresents(ways, order, l, tag);
    var m := Min(|l|, |ways| - 1);
    var filled := ways[order[m] := ways[order[m]].(tag := tag, valid := true)];
    assert AccessWays(Lru, ways, tag, 0) == Touch(filled, order[m]);
    MissList(l, tag, |ways|);
    assert Promote(l[..m] + [tag], m) == [tag] + l[..m];
    PromoteRepresents(filled, order, l[..m] + [tag], m);
  }

  lemma MissList(l: Stack, tag: nat, n: nat)
    requires Distinct(l) && tag !in l && |l| <= n && n > 0
    ensures var m := Min(|l|, n - 1);
      Take(MoveToFront(l, tag), n) == [tag] + l[..m] && Distinct([tag] + l[..m])
  {
    assert MoveToFront(l, tag) == [tag] + l;
  }

  lemma LruIgnoresRandom(ways: Ways, tag: nat, random: nat)
    requires |ways| > 0
    ensures AccessWays(Lru, ways, tag, random) == AccessWays(Lru, ways, tag, 0)
  {
  }

  /** One access: the counters and the move-to-front list agree on the outcome and on the next state. */
  lemma AccessRefines(ways: Ways, l: Stack, tag: nat, random: nat)
    requires Refines(ways, l) && |ways| > 0
    ensures Holds(ways, tag) <==> tag in l
    ensures Refines(AccessWays(Lru, ways, tag, random), Take(MoveToFront(l, tag), |ways|))
  {
    var order :| Represents(ways, order, l);
    LruIgnoresRandom(ways, tag, random);
    if tag in l {
      HitRefines(ways, order, l, tag);
      assert Take(MoveToFront(l, tag), |ways|) == MoveToFront(l, tag);
    } else {
      MissRefines(ways, order, l, tag);
    }
  }

  // ---------- Truncation and stack distance ----------

  lemma FoundMoves(l: Stack, t: nat, i: nat)
    requires i < |l| && l[i] == t && t !in l[..i]
    ensures MoveToFront(l, t) == [t] + l[..i] + l[i + 1..]
  {
    var j := IndexOf(l, t);
    forall k | 0 <= k < i ensures l[k] != t {
      assert l[k] == l[..i][k];
    }
    assert j == i;
  }

  lemma NewMoves(l: Stack, t: nat)
    requires t !in l
    ensures MoveToFront(l, t) == [t] + l
  {
    assert IndexOf(l, t) == |l|;
  }

  /** What is beyond the cut does not reach the front of it. */
  lemma CutFound(l: Stack, t: nat, n: nat, i: nat)
    requires i < n < |l| && l[i] == t && t !in l[..i]
    ensures Take(MoveToFront(l[..n], t), n) == Take(MoveToFront(l, t), n)
  {
    hide MoveToFront;
    assert l[..n][..i] == l[..i];
    FoundMoves(l, t, i);
    FoundMoves(l[..n], t, i);
    assert ([t] + l[..i] + l[i + 1..])[..n] == [t] + l[..i] + l[i + 1..n];
    assert l[..n][i + 1..] == l[i + 1..n];
  }

  lemma CutBehind(l: Stack, t: nat, n: nat, i: nat)
    requires 0 < n <= i < |l| && l[i] == t && t !in l[..i]
    ensures Take(MoveToFront(l[..n], t), n) == Take(MoveToFront(l, t), n)
  {
    hide MoveToFront;
    forall x | x in l[..n] ensures x in l[..i] {
      assert l[..n] == l[..i][..n];
    }
    FoundMoves(l, t, i);
    NewMoves(l[..n], t);
    assert ([t] + l[..i] + l[i + 1..])[..n] == [t] + l[..n - 1];
    assert ([t] + l[..n])[..n] == [t] + l[..n - 1];
  }

  lemma CutNew(l: Stack, t: nat, n: nat)
    requires 0 < n < |l| && t !in l
    ensures Take(MoveToFront(l[..n], t), n) == Take(MoveToFront(l, t), n)
  {
    hide MoveToFront;
    NewMoves(l, t);
    NewMoves(l[..n], t);
    assert ([t] + l)[..n] == [t] + l[..n - 1];
    assert ([t] + l[..n])[..n] == [t] + l[..n - 1];
  }

  lemma TakeMoveToFront(l: Stack, t: nat, n: nat)
    requires n > 0
    ensures Take(MoveToFront(Take(l, n), t), n) == Take(MoveToFront(l, t), n)
  {
    hide MoveToFront;
    if n < |l| {
      var i := IndexOf(l, t);
      if i == |l| {
        CutNew(l, t, n);
      } else if i < n {
        CutFound(l, t, n, i);
      } else {
        CutBehind(l, t, n, i);
      }
    }
  }

  /** The distinct elements of a sequence. */
  function Elements(s: seq<nat>): (e: set<nat>)
    ensures forall x :: x in e <==> x in s
  {
    if s == [] then {} else Elements(s[..|s| - 1]) + {s[|s| - 1]}
  }

  lemma {:induction false} StackMembers(trace: seq<nat>, x: nat)
    ensures x in StackOf(trace) <==> x in trace
  {
    hide MoveToFront;
    if trace != [] {
      var prefix, t := trace[..|trace| - 1], trace[|trace| - 1];
      StackMembers(prefix, x);
      MoveToFrontMembers(StackOf(prefix), t, x);
      assert trace == prefix + [t];
    }
  }

  lemma {:induction false} StackDistinct(trace: seq<nat>)
    ensures Distinct(StackOf(trace))
    ensures forall x :: x in StackOf(trace) <==> x in trace
  {
    hide MoveToFront, Distinct;
    if trace != [] {
      StackDistinct(trace[..|trace| - 1]);
      MoveToFrontDistinct(StackOf(trace[..|trace| - 1]), trace[|trace| - 1]);
    } else {
      NoneDistinct();
    }
    forall x ensures x in StackOf(trace) <==> x in trace {
      StackMembers(trace, x);
    }
  }

  lemma NoneDistinct()
    ensures Distinct<nat>([])
  {
  }

  lemma MoveToFrontMembers(l: Stack, t: nat, x: nat)
    ensures x in MoveToFront(l, t) <==> x in l || x == t
  {
    var i := IndexOf(l, t);
    if i < |l| {
      SplitAt(l, i, x);
    } else {
      assert MoveToFront(l, t) == [t] + l;
    }
  }

  /**
   * Stack distance: the position of `t` is the number of distinct other tags referenced since
   * its last reference, which occupy exactly the positions before it.
   */
  lemma {:induction false} StackDistance(trace: seq<nat>, p: nat)
    requires p < |trace| && trace[p] !in trace[p + 1..]
    ensures |Elements(trace[p + 1..])| < |StackOf(trace)|
    ensures StackOf(trace)[|Elements(trace[p + 1..])|] == trace[p]
    ensures Elements(StackOf(trace)[..|Elements(trace[p + 1..])|]) == Elements(trace[p + 1..])
  {
    var n := |trace| - 1;
    var prefix, x, t := trace[..n], trace[n], trace[p];
    var since := trace[p + 1..];
    var l := StackOf(prefix);
    if p == n {
      assert since == [];
    } else {
      var before := prefix[p + 1..];
      assert since == before + [x];
      assert since[..|since| - 1] == before;
      assert x in since;
      assert x != t;
      StackDistance(prefix, p);
      StackDistinct(prefix);
      StackDistanceStep(l, x, t, Elements(before), |Elements(before)|);
    }
  }

  /** Moving `x` to the front of `l`, where the elements of `d` come right before `t`. */
  lemma StackDistanceStep(l: Stack, x: nat, t: nat, d: set<nat>, n: nat)
    requires Distinct(l) && x != t && n == |d|
    requires n < |l| && l[n] == t && Elements(l[..n]) == d
    ensures |d + {x}| < |MoveToFront(l, x)| && MoveToFront(l, x)[|d + {x}|] == t
    ensures Elements(MoveToFront(l, x)[..|d + {x}|]) == d + {x}
  {
    if x in d {
      assert d + {x} == d;
      assert x in l[..n];
      MoveWithin(l, x, n);
    } else {
      assert |d + {x}| == n + 1;
      MoveFromBehind(l, x, n);
    }
  }

  lemma MoveWithin(l: Stack, x: nat, n: nat)
    requires Distinct(l) && n < |l| && x in l[..n]
    ensures |MoveToFront(l, x)| == |l| && MoveToFront(l, x)[n] == l[n]
    ensures Elements(MoveToFront(l, x)[..n]) == Elements(l[..n])
  {
    var i := IndexOf(l, x);
    var j :| 0 <= j < n && l[..n][j] == x;
    assert l[j] == x;
    var low := l[..n];
    assert MoveToFront(l, x)[..n] == [low[i]] + low[..i] + low[i + 1..];
    forall y ensures y in MoveToFront(l, x)[..n] <==> y in low {
      SplitAt(low, i, y);
    }
  }

  lemma MoveFromBehind(l: Stack, x: nat, n: nat)
    requires n < |l| && x !in Elements(l[..n]) && l[n] != x
    ensures |MoveToFront(l, x)| > n + 1 && MoveToFront(l, x)[n + 1] == l[n]
    ensures Elements(MoveToFront(l, x)[..n + 1]) == Elements(l[..n]) + {x}
  {
    var i := IndexOf(l, x);
    assert forall j :: 0 <= j < n ==> l[j] == l[..n][j] != x;
    assert i > n;
    assert MoveToFront(l, x)[..n + 1] == [x] + l[..n];
    forall y ensures y in MoveToFront(l, x)[..n + 1] <==> y in l[..n] || y == x {
    }
  }

  lemma SplitAt(s: seq<nat>, i: nat, y: nat)
    requires i < |s|
    ensures y in s <==> y in [s[i]] + s[..i] + s[i + 1..]
  {
    assert s == s[..i] + [s[i]] + s[i + 1..];
  }

  // ---------- Whole runs of a cache ----------

  /** The tags referenced in set `s` by a trace of addresses, in order. */
  function SetTrace(g: Geometry, trace: seq<nat>, s: nat): seq<nat> {
    if trace == [] then []
    else
      var n := |trace| - 1;
      SetTrace(g, trace[..n], s) + if SetOf(g, trace[n]) == s then [TagOf(g, trace[n])] else []
  }

  function InitialCache(g: Geometry, sets: nat, ways: nat): CacheValue {
    CacheValue(g, seq(sets, s => InitialWays(ways)))
  }

  /** The cache after a trace of addresses, `random` giving what rand() returns at each access. */
  function RunCache(c: CacheValue, trace: seq<nat>, random: nat -> nat): (r: CacheValue)
    requires WellFormed(c)
    ensures WellFormed(r) && r.geometry == c.geometry && |r.sets| == |c.sets|
  {
    if trace == [] then c
    else
      var n := |trace| - 1;
      Access(RunCache(c, trace[..n], random), trace[n], random(n))
  }

  /** Every set of a run is the recency stack of its own references, cut to the number of ways. */
  lemma {:induction false} RunRefinesStack(g: Geometry, sets: nat, ways: nat, trace: seq<nat>, random: nat -> nat, s: nat)
    requires g.policy == Lru && Pow2(g.setBits) <= sets && ways > 0 && s < sets
    ensures WellFormed(InitialCache(g, sets, ways))
    ensures var c := RunCache(InitialCache(g, sets, ways), trace, random);
      |c.sets[s]| == ways && Refines(c.sets[s], Take(StackOf(SetTrace(g, trace, s)), ways))
  {
    if trace == [] {
      InitialRefines(ways);
      assert Take(StackOf([]), ways) == [];
    } else {
      var n := |trace| - 1;
      RunRefinesStack(g, sets, ways, trace[..n], random, s);
      var c := RunCache(InitialCache(g, sets, ways), trace[..n], random);
      if SetOf(g, trace[n]) == s {
        var t := TagOf(g, trace[n]);
        var l := StackOf(SetTrace(g, trace[..n], s));
        AccessRefines(c.sets[s], Take(l, ways), t, random(n));
        TakeMoveToFront(l, t, ways);
        var tr := SetTrace(g, trace, s);
        assert tr[..|tr| - 1] == SetTrace(g, trace[..n], s);
      } else {
        assert SetTrace(g, trace, s) == SetTrace(g, trace[..n], s);
      }
    }
  }

  /** In every run the recencies of a set are a permutation of 0..ways-1. */
  lemma RecenciesArePermutation(g: Geometry, sets: nat, ways: nat, trace: seq<nat>, random: nat -> nat, s: nat)
    requires g.policy == Lru && Pow2(g.setBits) <= sets && ways > 0 && s < sets
    ensures WellFormed(InitialCache(g, sets, ways))
    ensures var c := RunCache(InitialCache(g, sets, ways), trace, random);
      && |c.sets[s]| == ways
      && (forall i :: 0 <= i < ways ==> c.sets[s][i].recency < ways)
      && (forall i, j :: 0 <= i < j < ways ==> c.sets[s][i].recency != c.sets[s][j].recency)
  {
    RunRefinesStack(g, sets, ways, trace, random, s);
    var w := RunCache(InitialCache(g, sets, ways), trace, random).sets[s];
    var l := Take(StackOf(SetTrace(g, trace, s)), ways);
    var order :| Represents(w, order, l);
    assert forall i :: 0 <= i < ways ==> order[w[i].recency] == i;
  }

  /** The next access hits exactly when its tag is among the `ways` most recent tags of its set. */
  lemma HitIffRecent(g: Geometry, sets: nat, ways: nat, trace: seq<nat>, random: nat -> nat, address: nat)
    requires g.policy == Lru && Pow2(g.setBits) <= sets && ways > 0
    ensures WellFormed(InitialCache(g, sets, ways))
    ensures Hits(RunCache(InitialCache(g, sets, ways), trace, random), address)
      <==> TagOf(g, address) in Take(StackOf(SetTrace(g, trace, SetOf(g, address))), ways)
  {
    var s := SetOf(g, address);
    RunRefinesStack(g, sets, ways, trace, random, s);
    var c := RunCache(InitialCache(g, sets, ways), trace, random);
    AccessRefines(c.sets[s], Take(StackOf(SetTrace(g, trace, s)), ways), TagOf(g, address), 0);
  }

  lemma TakenIffBefore(l: seq<nat>, d: nat, ways: nat)
    requires Distinct(l) && d < |l|
    ensures l[d] in Take(l, ways) <==> d < ways
  {
    if d < ways {
      assert Take(l, ways)[d] == l[d];
    } else {
      assert forall j :: 0 <= j < |Take(l, ways)| ==> Take(l, ways)[j] == l[j] != l[d];
    }
  }

  /**
   * Hit criterion: after its last reference at position `p` of the set's reference string, a tag
   * hits exactly when fewer than `ways` distinct other tags of the set were referenced since.
   */
  lemma HitIffStackDistance(g: Geometry, sets: nat, ways: nat, trace: seq<nat>, random: nat -> nat, address: nat, p: nat)
    requires g.policy == Lru && Pow2(g.setBits) <= sets && ways > 0
    requires var tr := SetTrace(g, trace, SetOf(g, address));
      p < |tr| && tr[p] == TagOf(g, address) && tr[p] !in tr[p + 1..]
    ensures WellFormed(InitialCache(g, sets, ways))
    ensures Hits(RunCache(InitialCache(g, sets, ways), trace, random), address)
      <==> |Elements(SetTrace(g, trace, SetOf(g, address))[p + 1..])| < ways
  {
    hide WellFormed, InitialCache, RunCache, Hits, SetTrace, StackOf, Elements, Take, Distinct;
    var tr := SetTrace(g, trace, SetOf(g, address));
    HitIffRecent(g, sets, ways, trace, random, address);
    StackDistance(tr, p);
    StackDistinct(tr);
    TakenIffBefore(StackOf(tr), |Elements(tr[p + 1..])|, ways);
  }

  /** A tag never referenced in its set misses. */
  lemma ColdMiss(g: Geometry, sets: nat, ways: nat, trace: seq<nat>, random: nat -> nat, address: nat)
    requires g.policy == Lru && Pow2(g.setBits) <= sets && ways > 0
    requires TagOf(g, address) !in SetTrace(g, trace, SetOf(g, address))
    ensures WellFormed(InitialCache(g, sets, ways))
    ensures !Hits(RunCache(InitialCache(g, sets, ways), trace, random), address)
  {
    HitIffRecent(g, sets, ways, trace, random, address);
    StackDistinct(SetTrace(g, trace, SetOf(g, address)));
  }

  /** Inclusion: with equal sets and blocks, more ways hit whenever fewer do, on every trace. */
  lemma MoreWaysNeverHitLess(g: Geometry, sets: nat, few: nat, many: nat, trace: seq<nat>,
      r1: nat -> nat, r2: nat -> nat, address: nat)
    requires g.policy == Lru && Pow2(g.setBits) <= sets && 0 < few <= many
    ensures WellFormed(InitialCache(g, sets, few)) && WellFormed(InitialCache(g, sets, many))
    ensures Hits(RunCache(InitialCache(g, sets, few), trace, r1), address)
      ==> Hits(RunCache(InitialCache(g, sets, many), trace, r2), address)
  {
    HitIffRecent(g, sets, few, trace, r1, address);
    HitIffRecent(g, sets, many, trace, r2, address);
    var l := StackOf(SetTrace(g, trace, SetOf(g, address)));
    assert Take(l, few) <= Take(l, many);
  }
}
