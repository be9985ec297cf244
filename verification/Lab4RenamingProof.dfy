/**
 * Renaming keeps every physical register accounted for and preserves dataflow: whatever order the
 * validity bits allow, an instruction reads what program order would have given it.
 */
module RenamingProof {
  import opened Collections
  import opened Renaming

  // ---------- Program order ----------

  function LastIndex(s: seq<nat>, a: nat): (i: nat)
    requires a in s
    ensures i < |s| && s[i] == a && forall k :: i < k < |s| ==> s[k] != a
  {
    if s[|s| - 1] == a then |s| - 1 else LastIndex(s[..|s| - 1], a)
  }

  /** The value of register `a` after the first `k` instructions in program order. */
  function SeqValue(p: Program, k: nat, a: nat): int
    requires k <= |p.code|
    decreases k, 0
  {
    if k == 0 then p.initial(a)
    else if a in p.code[k - 1].dsts then
      p.result(k - 1, LastIndex(p.code[k - 1].dsts, a), SeqOperands(p, k - 1))
    else SeqValue(p, k - 1, a)
  }

  function SeqOperands(p: Program, k: nat): (v: seq<int>)
    requires k < |p.code|
    decreases k, 1
  {
    seq(|p.code[k].srcs|, x requires 0 <= x < |p.code[k].srcs| => SeqValue(p, k, p.code[k].srcs[x]))
  }

  /** The youngest instruction before `k` that writes `a`; 0 also stands for none. */
  function LastProducer(p: Program, k: nat, a: nat): nat
    requires k <= |p.code|
  {
    if k == 0 then 0 else if a in p.code[k - 1].dsts then k - 1 else LastProducer(p, k - 1, a)
  }

  // ---------- Who owns a physical register ----------

  /** The table entry a reader placed before rob[j] must see. */
  function Front(rob: seq<Entry>, backend: seq<int>, j: nat, a: nat): int
    requires j <= |rob| && a < |backend|
  {
    if j == 0 then backend[a]
    else if WritesSlot(rob[j - 1], a) then rob[j - 1].dests[LastIndex(rob[j - 1].inst.dsts, a)]
    else Front(rob, backend, j - 1, a)
  }

  predicate WritesSlot(e: Entry, a: nat) {
    a in e.inst.dsts && |e.dests| == |e.inst.dsts|
  }

  function Mapped(t: seq<int>): multiset<nat> {
    if |t| == 0 then multiset{}
    else Mapped(t[1..]) + (if t[0] >= 0 then multiset{t[0] as nat} else multiset{})
  }

  function InFlight(rob: seq<Entry>): multiset<nat> {
    if |rob| == 0 then multiset{}
    else InFlight(rob[1..]) + (if rob[0].scheduled then multiset(rob[0].dests) else multiset{})
  }

  function AllRegisters(n: nat): multiset<nat> {
    if n == 0 then multiset{} else AllRegisters(n - 1) + multiset{n - 1}
  }

  lemma {:induction false} EachOnce(n: nat, q: nat)
    ensures AllRegisters(n)[q] == if q < n then 1 else 0
  {
    if n > 0 {
      EachOnce(n - 1, q);
    }
  }

  lemma {:induction false} MappedUpdate(t: seq<int>, a: nat, q: int)
    requires a < |t|
    ensures Mapped(t[a := q]) + (if t[a] >= 0 then multiset{t[a] as nat} else multiset{})
         == Mapped(t) + (if q >= 0 then multiset{q as nat} else multiset{})
  {
    if a == 0 {
      assert t[a := q][1..] == t[1..];
    } else {
      assert t[a := q][1..] == t[1..][a - 1 := q];
      MappedUpdate(t[1..], a - 1, q);
    }
  }

  lemma {:induction false} MappedHas(t: seq<int>, a: nat)
    requires a < |t| && t[a] >= 0
    ensures Mapped(t)[t[a] as nat] >= 1
  {
    if a > 0 {
      MappedHas(t[1..], a - 1);
    }
  }

  lemma {:induction false} MappedTwice(t: seq<int>, a: nat, b: nat)
    requires a < b < |t| && t[a] == t[b] >= 0
    ensures Mapped(t)[t[a] as nat] >= 2
  {
    if a == 0 {
      MappedHas(t[1..], b - 1);
    } else {
      MappedTwice(t[1..], a - 1, b - 1);
    }
  }

  lemma {:induction false} FlightHas(rob: seq<Entry>, j: nat, q: nat)
    requires j < |rob| && rob[j].scheduled
    ensures InFlight(rob)[q] >= multiset(rob[j].dests)[q]
  {
    if j > 0 {
      FlightHas(rob[1..], j - 1, q);
    }
  }

  lemma {:induction false} FlightTwice(rob: seq<Entry>, i: nat, j: nat, q: nat)
    requires i < j < |rob| && rob[i].scheduled && rob[j].scheduled
    ensures InFlight(rob)[q] >= multiset(rob[i].dests)[q] + multiset(rob[j].dests)[q]
  {
    if i == 0 {
      FlightHas(rob[1..], j - 1, q);
    } else {
      FlightTwice(rob[1..], i - 1, j - 1, q);
    }
  }

  lemma SameTwice(d: seq<nat>, x: nat, y: nat)
    requires x < y < |d| && d[x] == d[y]
    ensures multiset(d)[d[x]] >= 2
  {
    assert d == d[..y] + [d[y]] + d[y + 1..];
    assert d[x] in d[..y];
    assert multiset(d) == multiset(d[..y]) + multiset{d[y]} + multiset(d[y + 1..]);
  }

  lemma {:induction false} FlightCongruent(r: seq<Entry>, s: seq<Entry>)
    requires |r| == |s|
    requires forall i :: 0 <= i < |r| ==> r[i].scheduled == s[i].scheduled && (r[i].scheduled ==> r[i].dests == s[i].dests)
    ensures InFlight(r) == InFlight(s)
  {
    if |r| > 0 {
      FlightCongruent(r[1..], s[1..]);
    }
  }

  lemma {:induction false} FlightSchedules(rob: seq<Entry>, j: nat, e: Entry)
    requires j < |rob| && !rob[j].scheduled && e.scheduled
    ensures InFlight(rob[j := e]) == InFlight(rob) + multiset(e.dests)
  {
    if j == 0 {
      assert rob[j := e][1..] == rob[1..];
    } else {
      assert rob[j := e][1..] == rob[1..][j - 1 := e];
      FlightSchedules(rob[1..], j - 1, e);
    }
  }

  lemma {:induction false} FlightAppends(rob: seq<Entry>, e: Entry)
    requires !e.scheduled
    ensures InFlight(rob + [e]) == InFlight(rob)
  {
    if |rob| == 0 {
      assert (rob + [e])[1..] == [];
    } else {
      assert (rob + [e])[1..] == rob[1..] + [e];
      FlightAppends(rob[1..], e);
    }
  }

  lemma {:induction false} FrontCongruent(r: seq<Entry>, s: seq<Entry>, t: seq<int>, u: seq<int>, j: nat, a: nat)
    requires j <= |r| && j <= |s| && a < |t| == |u| && t[a] == u[a]
    requires forall i :: 0 <= i < j ==> r[i].inst == s[i].inst && r[i].dests == s[i].dests
    ensures Front(r, t, j, a) == Front(s, u, j, a)
  {
    if j > 0 {
      FrontCongruent(r, s, t, u, j - 1, a);
    }
  }

  lemma {:induction false} FrontShift(rob: seq<Entry>, t: seq<int>, u: seq<int>, j: nat, a: nat)
    requires j < |rob| && a < |t| == |u|
    requires u[a] == Front(rob, t, 1, a)
    ensures Front(rob[1..], u, j, a) == Front(rob, t, j + 1, a)
  {
    if j > 0 {
      FrontShift(rob, t, u, j - 1, a);
    }
  }

  /** A register without a mapping had none at any earlier point, and allocating it maps it at all of them. */
  lemma {:induction false} FrontUnmapped(rob: seq<Entry>, t: seq<int>, j: nat, k: nat, a: nat, q: int)
    requires j <= k <= |rob| && a < |t|
    requires Front(rob, t, k, a) == -1
    ensures Front(rob, t, j, a) == -1 && Front(rob, t[a := q], j, a) == q
    decreases k + j
  {
    if k > j {
      FrontUnmapped(rob, t, j, k - 1, a, q);
    } else if k > 0 {
      FrontUnmapped(rob, t, j - 1, k - 1, a, q);
    }
  }

  // ---------- The invariant ----------

  predicate EntryShape(p: Program, c: Core, s: nat, j: nat)
    requires j < |c.rob| && c.retired + |c.rob| <= |p.code|
  {
    var e := c.rob[j];
    && e.id == c.retired + j && e.inst == p.code[e.id]
    && |e.sources| == |e.inst.srcs| && |e.dests| == |e.inst.dsts|
    && (e.scheduled <==> j < s)
    && (e.executed ==> e.scheduled) && (e.completed ==> e.executed)
    && (!e.scheduled ==> e.sources == e.inst.srcs && e.dests == e.inst.dsts)
  }

  ghost predicate Shape(p: Program, c: Core, s: nat) {
    && CoreOk(c) && Runnable(p) && s <= |c.rob| && c.retired + |c.rob| <= |p.code|
    && forall j :: 0 <= j < |c.rob| ==> EntryShape(p, c, s, j)
  }

  /** Entries not yet scheduled become ready in order, so that the scheduler cannot pass one. */
  ghost predicate InOrder(c: Core, s: nat, latency: nat) {
    && (forall i, j :: s <= i < j < |c.rob| ==> c.rob[i].ready <= c.rob[j].ready)
    && (forall j :: s <= j < |c.rob| ==> c.rob[j].ready <= c.now + if c.warmup then 0 else latency)
  }

  predicate Partition(c: Core) {
    multiset(c.regs.free) + Mapped(c.regs.backend) + InFlight(c.rob) == AllRegisters(|c.regs.file|)
  }

  predicate FrontIs(c: Core, s: nat, a: nat)
    requires CoreOk(c) && s <= |c.rob| && a < ARCH_REGISTERS
  {
    c.regs.frontend[a] == Front(c.rob, c.regs.backend, s, a)
  }

  predicate SourceIs(c: Core, j: nat, x: nat)
    requires CoreOk(c) && j < |c.rob| && x < |c.rob[j].sources|
  {
    && x < |c.rob[j].inst.srcs| && c.rob[j].inst.srcs[x] < ARCH_REGISTERS
    && c.rob[j].sources[x] == Front(c.rob, c.regs.backend, j, c.rob[j].inst.srcs[x])
  }

  /** Physical register `q` carries register `a` as program order leaves it before instruction `k`. */
  predicate Holds(p: Program, r: Regs, k: nat, a: nat, q: int)
    requires WellFormed(r) && k <= |p.code| && q < |r.file|
  {
    if q >= 0 then
      && r.file[q].arch == a && r.file[q].producer == LastProducer(p, k, a)
      && (r.file[q].valid ==> r.values[q] == SeqValue(p, k, a))
    else LastProducer(p, k, a) == 0 && SeqValue(p, k, a) == p.initial(a)
  }

  predicate BackendTag(p: Program, r: Regs, k: nat, a: nat)
    requires WellFormed(r) && k <= |p.code| && a < ARCH_REGISTERS
  {
    Holds(p, r, k, a, r.backend[a]) && (r.backend[a] >= 0 ==> r.file[r.backend[a]].valid)
  }

  predicate FlightTag(p: Program, r: Regs, e: Entry, x: nat)
    requires WellFormed(r) && x < |e.dests|
  {
    && x < |e.inst.dsts| && e.dests[x] < |r.file|
    && r.file[e.dests[x]].arch == e.inst.dsts[x] && r.file[e.dests[x]].producer == e.id
    && (r.file[e.dests[x]].valid <==> e.completed)
    && (e.completed ==> r.values[e.dests[x]] == p.result(e.id, x, e.operands))
  }

  predicate OperandsTag(p: Program, e: Entry) {
    e.executed ==> e.id < |p.code| && e.operands == SeqOperands(p, e.id)
  }

  ghost predicate Inv(p: Program, latency: nat, c: Core, s: nat) {
    && Shape(p, c, s) && InOrder(c, s, latency) && Partition(c)
    && (forall a :: 0 <= a < ARCH_REGISTERS ==> FrontIs(c, s, a))
    && (forall j, x :: 0 <= j < s && 0 <= x < |c.rob[j].sources| ==> SourceIs(c, j, x))
    && (forall a :: 0 <= a < ARCH_REGISTERS ==> BackendTag(p, c.regs, c.retired, a))
    && (forall j, x :: 0 <= j < s && 0 <= x < |c.rob[j].dests| ==> FlightTag(p, c.regs, c.rob[j], x))
    && (forall j :: 0 <= j < |c.rob| ==> OperandsTag(p, c.rob[j]))
  }

  lemma InvIsOk(p: Program, latency: nat, c: Core, s: nat)
    requires Inv(p, latency, c, s)
    ensures CoreOk(c) && Runnable(p) && s <= |c.rob| && c.retired + |c.rob| <= |p.code|
  {
  }

  /** What a reader before rob[j] finds is what program order leaves there. */
  lemma {:induction false} FrontHolds(p: Program, latency: nat, c: Core, s: nat, j: nat, a: nat)
    requires Inv(p, latency, c, s) && j <= s && a < ARCH_REGISTERS
    ensures -1 <= Front(c.rob, c.regs.backend, j, a) < |c.regs.file|
    ensures Holds(p, c.regs, c.retired + j, a, Front(c.rob, c.regs.backend, j, a))
  {
    hide Partition, InOrder, FrontIs, SourceIs, LastIndex, SeqOperands;
    if j == 0 {
      assert BackendTag(p, c.regs, c.retired, a);
    } else {
      var e := c.rob[j - 1];
      assert EntryShape(p, c, s, j - 1);
      if a in e.inst.dsts {
        assert EntryOk(c.regs, e);
        assert FlightTag(p, c.regs, e, LastIndex(e.inst.dsts, a));
        assert OperandsTag(p, e);
      } else {
        FrontHolds(p, latency, c, s, j - 1, a);
      }
    }
  }

  // ---------- Disjointness from the partition ----------

  lemma FreeIsUnused(p: Program, latency: nat, c: Core, s: nat, i: nat)
    requires Inv(p, latency, c, s) && i < |c.regs.free|
    ensures forall a :: 0 <= a < ARCH_REGISTERS ==> c.regs.backend[a] != c.regs.free[i]
    ensures forall j, x :: 0 <= j < s && 0 <= x < |c.rob[j].dests| ==> c.rob[j].dests[x] != c.regs.free[i]
    ensures forall k :: 0 <= k < |c.regs.free| && k != i ==> c.regs.free[k] != c.regs.free[i]
  {
    hide InOrder, FrontIs, SourceIs, BackendTag, FlightTag, OperandsTag, Mapped, InFlight, AllRegisters;
    var q := c.regs.free[i];
    EachOnce(|c.regs.file|, q);
    assert multiset(c.regs.free)[q] >= 1;
    forall a | 0 <= a < ARCH_REGISTERS ensures c.regs.backend[a] != q {
      if c.regs.backend[a] == q {
        MappedHas(c.regs.backend, a);
      }
    }
    forall j, x | 0 <= j < s && 0 <= x < |c.rob[j].dests| ensures c.rob[j].dests[x] != q {
      assert EntryShape(p, c, s, j);
      FlightHas(c.rob, j, q);
    }
    forall k | 0 <= k < |c.regs.free| && k != i ensures c.regs.free[k] != q {
      if c.regs.free[k] == q {
        SameTwice(c.regs.free, if k < i then k else i, if k < i then i else k);
      }
    }
  }

  lemma FlightIsUnshared(p: Program, latency: nat, c: Core, s: nat, j: nat, x: nat)
    requires Inv(p, latency, c, s) && j < s && x < |c.rob[j].dests|
    ensures c.rob[j].dests[x] !in c.regs.free
    ensures forall a :: 0 <= a < ARCH_REGISTERS ==> c.regs.backend[a] != c.rob[j].dests[x]
    ensures forall i, y :: 0 <= i < s && 0 <= y < |c.rob[i].dests| && (i != j || y != x) ==>
              c.rob[i].dests[y] != c.rob[j].dests[x]
  {
    hide InOrder, FrontIs, SourceIs, BackendTag, FlightTag, OperandsTag, Mapped, InFlight, AllRegisters;
    var q := c.rob[j].dests[x];
    EachOnce(|c.regs.file|, q);
    assert EntryShape(p, c, s, j);
    FlightHas(c.rob, j, q);
    assert multiset(c.rob[j].dests)[q] >= 1;
    forall a | 0 <= a < ARCH_REGISTERS ensures c.regs.backend[a] != q {
      if c.regs.backend[a] == q {
        MappedHas(c.regs.backend, a);
      }
    }
    forall i, y | 0 <= i < s && 0 <= y < |c.rob[i].dests| && (i != j || y != x) ensures c.rob[i].dests[y] != q {
      assert EntryShape(p, c, s, i);
      if c.rob[i].dests[y] == q {
        if i == j {
          SameTwice(c.rob[j].dests, if x < y then x else y, if x < y then y else x);
        } else {
          assert multiset(c.rob[i].dests)[q] >= 1;
          FlightTwice(c.rob, if i < j then i else j, if i < j then j else i, q);
        }
      }
    }
  }

  // ---------- Renaming a source ----------

  lemma AllocateKeepsTables(p: Program, latency: nat, c: Core, s: nat, reg: nat, t: Core)
    requires Inv(p, latency, c, s) && reg < ARCH_REGISTERS && !Allocated(c.regs, reg) && |c.regs.free| > 0
    requires t == c.(regs := RenameSrc(p, c.regs, reg))
    ensures Shape(p, t, s)
    ensures forall a :: 0 <= a < ARCH_REGISTERS ==> FrontIs(t, s, a)
    ensures forall j, x :: 0 <= j < s && 0 <= x < |t.rob[j].sources| ==> SourceIs(t, j, x)
  {
    hide Partition, BackendTag, FlightTag, OperandsTag, Front, InOrder;
    var q := c.regs.free[0];
    assert FrontIs(c, s, reg);
    assert forall j :: 0 <= j < |c.rob| ==> EntryShape(p, c, s, j);
    assert forall j :: 0 <= j < |t.rob| ==> EntryOk(c.regs, c.rob[j]);
    assert Shape(p, t, s) by {
      forall j | 0 <= j < |t.rob| ensures EntryShape(p, t, s, j) && EntryOk(t.regs, t.rob[j]) {
        assert EntryShape(p, c, s, j);
      }
    }
    forall a | 0 <= a < ARCH_REGISTERS ensures FrontIs(t, s, a) {
      assert FrontIs(c, s, a);
      if a == reg {
        FrontUnmapped(c.rob, c.regs.backend, s, s, reg, q);
      } else {
        FrontCongruent(c.rob, c.rob, c.regs.backend, t.regs.backend, s, a);
      }
    }
    forall j, x | 0 <= j < s && 0 <= x < |t.rob[j].sources| ensures SourceIs(t, j, x) {
      assert EntryShape(p, c, s, j);
      assert SourceIs(c, j, x);
      var a := c.rob[j].inst.srcs[x];
      assert a < ARCH_REGISTERS;
      if a == reg {
        FrontUnmapped(c.rob, c.regs.backend, j, s, reg, q);
      } else {
        FrontCongruent(c.rob, c.rob, c.regs.backend, t.regs.backend, j, a);
      }
    }
  }

  lemma AllocateKeepsPartition(p: Program, latency: nat, c: Core, s: nat, reg: nat)
    requires Inv(p, latency, c, s) && reg < ARCH_REGISTERS && !Allocated(c.regs, reg) && |c.regs.free| > 0
    ensures c.regs.backend[reg] == -1
    ensures Partition(c.(regs := RenameSrc(p, c.regs, reg)))
  {
    hide InOrder, SourceIs, BackendTag, FlightTag, OperandsTag, Mapped, InFlight, AllRegisters;
    assert forall j :: 0 <= j < |c.rob| ==> EntryShape(p, c, s, j);
    assert FrontIs(c, s, reg);
    FrontUnmapped(c.rob, c.regs.backend, 0, s, reg, 0);
    var t := c.(regs := RenameSrc(p, c.regs, reg));
    MappedUpdate(c.regs.backend, reg, c.regs.free[0]);
    assert c.regs.free == [c.regs.free[0]] + t.regs.free;
    assert multiset(c.regs.free) == multiset{c.regs.free[0]} + multiset(t.regs.free);
    assert Mapped(t.regs.backend) == Mapped(c.regs.backend) + multiset{c.regs.free[0]};
    assert |t.regs.file| == |c.regs.file| && t.rob == c.rob;
  }

  lemma AllocateKeeps(p: Program, latency: nat, c: Core, s: nat, reg: nat)
    requires Inv(p, latency, c, s) && reg < ARCH_REGISTERS && (!Allocated(c.regs, reg) ==> |c.regs.free| > 0)
    ensures Inv(p, latency, c.(regs := RenameSrc(p, c.regs, reg)), s)
  {
    hide Partition, Front, FrontIs, SourceIs, SeqValue, LastProducer;
    if !Allocated(c.regs, reg) {
      var t := c.(regs := RenameSrc(p, c.regs, reg));
      AllocateKeepsTables(p, latency, c, s, reg, t);
      AllocateKeepsPartition(p, latency, c, s, reg);
      FreeIsUnused(p, latency, c, s, 0);
      forall a | 0 <= a < ARCH_REGISTERS ensures BackendTag(p, t.regs, t.retired, a) {
        assert BackendTag(p, c.regs, c.retired, a);
      }
      forall j, x | 0 <= j < s && 0 <= x < |t.rob[j].dests| ensures FlightTag(p, t.regs, t.rob[j], x) {
        assert EntryShape(p, c, s, j) && EntryOk(c.regs, c.rob[j]);
        assert FlightTag(p, c.regs, c.rob[j], x);
      }
      assert InOrder(t, s, latency);
      assert forall j :: 0 <= j < |t.rob| ==> OperandsTag(p, c.rob[j]);
    } else {
      assert c.(regs := RenameSrc(p, c.regs, reg)) == c;
    }
  }

  lemma {:induction false} AllocateAllKeeps(p: Program, latency: nat, c: Core, s: nat, regs: seq<nat>)
    requires Inv(p, latency, c, s) && ArchRegisters(regs) && Unallocated(c.regs, regs) <= |c.regs.free|
    ensures Inv(p, latency, c.(regs := RenameSrcs(p, c.regs, regs)), s)
    decreases |regs|
  {
    hide Inv, RenameSrc;
    InvIsOk(p, latency, c, s);
    if |regs| > 0 {
      RenamingOnlyAllocates(p, c.regs, regs[0], regs[1..]);
      AllocateKeeps(p, latency, c, s, regs[0]);
      var d := c.(regs := RenameSrc(p, c.regs, regs[0]));
      AllocateAllKeeps(p, latency, d, s, regs[1..]);
    } else {
      assert c.(regs := RenameSrcs(p, c.regs, regs)) == c;
    }
  }

  // ---------- Renaming the destinations ----------

  lemma {:induction false} RenameDestsTables(r: Regs, regs: seq<nat>, id: nat, t: Regs)
    requires WellFormed(r) && ArchRegisters(regs) && |regs| <= |r.free| && t == RenameDests(r, regs, id)
    ensures t.backend == r.backend && t.values == r.values && t.free == r.free[|regs|..]
    ensures forall a :: 0 <= a < ARCH_REGISTERS ==>
              t.frontend[a] == if a in regs then r.free[LastIndex(regs, a)] else r.frontend[a]
    decreases |regs|
  {
    hide LastIndex;
    if |regs| > 0 {
      RenameDestsTables(RenameDest(r, regs[0], id), regs[1..], id, t);
      forall a | 0 <= a < ARCH_REGISTERS
        ensures t.frontend[a] == if a in regs then r.free[LastIndex(regs, a)] else r.frontend[a]
      {
        LastIndexOfTail(regs, a);
      }
    }
  }

  lemma {:induction false} RenameDestsFile(r: Regs, regs: seq<nat>, id: nat, t: Regs)
    requires WellFormed(r) && ArchRegisters(regs) && |regs| <= |r.free| && t == RenameDests(r, regs, id)
    requires Distinct(r.free)
    ensures forall q :: 0 <= q < |r.file| && q !in r.free[..|regs|] ==> t.file[q] == r.file[q]
    ensures forall x :: 0 <= x < |regs| ==> t.file[r.free[x]] == PhysReg(regs[x], id, false, true)
    decreases |regs|
  {
    if |regs| > 0 {
      var u, rest := RenameDest(r, regs[0], id), regs[1..];
      assert Distinct(u.free) by {
        assert forall i :: 0 <= i < |u.free| ==> u.free[i] == r.free[i + 1];
      }
      RenameDestsFile(u, rest, id, t);
      assert r.free[..|regs|] == [r.free[0]] + u.free[..|rest|];
      assert r.free[0] !in u.free;
      forall x | 0 <= x < |regs| ensures t.file[r.free[x]] == PhysReg(regs[x], id, false, true) {
        if x > 0 {
          assert u.free[x - 1] == r.free[x] && rest[x - 1] == regs[x];
        } else {
          assert r.free[0] !in u.free[..|rest|];
        }
      }
    }
  }

  lemma LastIndexOfTail(s: seq<nat>, a: nat)
    requires |s| > 0
    ensures a in s[1..] ==> a in s && LastIndex(s, a) == LastIndex(s[1..], a) + 1
    ensures a in s && a !in s[1..] ==> s[0] == a && LastIndex(s, a) == 0
  {
    if a in s[1..] {
      var k := LastIndex(s[1..], a);
      assert s[k + 1] == s[1..][k] == a;
      forall i | k + 1 < i < |s| ensures s[i] != a {
        assert s[i] == s[1..][i - 1];
      }
    }
  }

  lemma ScheduleKeepsTables(p: Program, latency: nat, c: Core, s: nat, t: Core, n: nat)
    requires Inv(p, latency, c, s) && s < |c.rob| && |c.rob[s].dests| <= |c.regs.free|
    requires forall i :: 0 <= i < |c.rob[s].sources| ==> c.regs.frontend[c.rob[s].sources[i]] >= 0
    requires t == Scheduled(c, s) && n == s + 1
    ensures Shape(p, t, n)
    ensures forall a :: 0 <= a < ARCH_REGISTERS ==> FrontIs(t, n, a)
    ensures forall j, x :: 0 <= j < n && 0 <= x < |t.rob[j].sources| ==> SourceIs(t, j, x)
  {
    hide Partition, BackendTag, FlightTag, OperandsTag, InOrder, LastIndex, RenameDests;
    var e := c.rob[s];
    assert EntryShape(p, c, s, s);
    RenameDestsTables(c.regs, e.dests, e.id, t.regs);
    forall j | 0 <= j < |t.rob| ensures EntryShape(p, t, n, j) && EntryOk(t.regs, t.rob[j]) {
      assert EntryShape(p, c, s, j) && EntryOk(c.regs, c.rob[j]);
    }
    forall a | 0 <= a < ARCH_REGISTERS ensures FrontIs(t, n, a) {
      assert FrontIs(c, s, a);
      FrontCongruent(c.rob, t.rob, c.regs.backend, t.regs.backend, s, a);
    }
    forall j, x | 0 <= j < n && 0 <= x < |t.rob[j].sources| ensures SourceIs(t, j, x) {
      assert EntryShape(p, t, n, j);
      var a := t.rob[j].inst.srcs[x];
      assert a < ARCH_REGISTERS;
      FrontCongruent(c.rob, t.rob, c.regs.backend, t.regs.backend, j, a);
      if j < s {
        assert SourceIs(c, j, x);
      } else {
        assert FrontIs(c, s, a);
      }
    }
  }

  /** Entry `s`, its sources being mapped, gets them and its destinations renamed. */
  function Scheduled(c: Core, s: nat): Core
    requires CoreOk(c) && s < |c.rob| && |c.rob[s].dests| <= |c.regs.free|
    requires forall i :: 0 <= i < |c.rob[s].sources| ==> c.regs.frontend[c.rob[s].sources[i]] >= 0
  {
    var e := c.rob[s];
    c.(regs := RenameDests(c.regs, e.dests, e.id),
       rob := c.rob[s := e.(sources := Lookup(c.regs.frontend, e.sources),
                            dests := c.regs.free[..|e.dests|], scheduled := true)])
  }

  lemma ScheduleKeepsTags(p: Program, latency: nat, c: Core, s: nat, t: Core)
    requires Inv(p, latency, c, s) && s < |c.rob| && |c.rob[s].dests| <= |c.regs.free|
    requires forall i :: 0 <= i < |c.rob[s].sources| ==> c.regs.frontend[c.rob[s].sources[i]] >= 0
    requires t == Scheduled(c, s)
    ensures Partition(t) && WellFormed(t.regs)
    ensures forall a :: 0 <= a < ARCH_REGISTERS ==> BackendTag(p, t.regs, t.retired, a)
    ensures forall j, x :: 0 <= j < s + 1 && 0 <= x < |t.rob[j].dests| ==> FlightTag(p, t.regs, t.rob[j], x)
    ensures forall j :: 0 <= j < |t.rob| ==> OperandsTag(p, t.rob[j])
  {
    hide InOrder, FrontIs, SourceIs, LastIndex, RenameDests, Mapped, InFlight, AllRegisters, SeqValue, LastProducer;
    var e, free := c.rob[s], c.regs.free;
    assert EntryShape(p, c, s, s);
    forall i: nat | i < |free|
      ensures forall a :: 0 <= a < ARCH_REGISTERS ==> c.regs.backend[a] != free[i]
      ensures forall j, x :: 0 <= j < s && 0 <= x < |c.rob[j].dests| ==> c.rob[j].dests[x] != free[i]
      ensures forall k :: 0 <= k < |free| && k != i ==> free[k] != free[i]
    {
      FreeIsUnused(p, latency, c, s, i);
    }
    RenameDestsTables(c.regs, e.dests, e.id, t.regs);
    RenameDestsFile(c.regs, e.dests, e.id, t.regs);
    FlightSchedules(c.rob, s, t.rob[s]);
    assert free == free[..|e.dests|] + free[|e.dests|..];
    forall a | 0 <= a < ARCH_REGISTERS ensures BackendTag(p, t.regs, t.retired, a) {
      assert BackendTag(p, c.regs, c.retired, a);
    }
    forall j, x | 0 <= j < s + 1 && 0 <= x < |t.rob[j].dests| ensures FlightTag(p, t.regs, t.rob[j], x) {
      assert EntryShape(p, c, s, j);
      if j < s {
        assert FlightTag(p, c.regs, c.rob[j], x);
      }
    }
    assert forall j :: 0 <= j < |c.rob| ==> OperandsTag(p, c.rob[j]);
  }

  lemma DoSchedulingKeeps(p: Program, latency: nat, c: Core, s: nat)
    requires Inv(p, latency, c, s) && s < |c.rob| && EnoughFree(c, s)
    ensures Inv(p, latency, DoScheduling(p, c, s), s + 1)
  {
    hide RenameSrcs, RenameDests, Partition, FrontIs, SourceIs, BackendTag, FlightTag, OperandsTag, Unallocated;
    var e := c.rob[s];
    assert EntryShape(p, c, s, s);
    var u := c.(regs := RenameSrcs(p, c.regs, e.sources));
    AllocateAllKeeps(p, latency, c, s, e.sources);
    var t := DoScheduling(p, c, s);
    assert t == Scheduled(u, s);
    ScheduleKeepsTables(p, latency, u, s, t, s + 1);
    ScheduleKeepsTags(p, latency, u, s, t);
    assert InOrder(t, s + 1, latency);
  }

  /** The scan schedules a prefix: it never passes an entry that is not ready to schedule a later one. */
  lemma {:induction false} ScheduleFromKeeps(p: Program, latency: nat, c: Core, s: nat, j: nat, bw: nat) returns (u: nat)
    requires Inv(p, latency, c, s)
    requires j <= s || (s < |c.rob| && c.rob[s].ready > c.now)
    ensures Inv(p, latency, ScheduleFrom(p, c, j, bw), u)
    decreases |c.rob| - j
  {
    hide Partition, FrontIs, SourceIs, BackendTag, FlightTag, OperandsTag, DoScheduling, EnoughFree;
    if j >= |c.rob| || bw == 0 || !EnoughFree(c, j) {
      u := s;
    } else {
      assert EntryShape(p, c, s, j);
      if !c.rob[j].scheduled && c.rob[j].ready <= c.now {
        DoSchedulingKeeps(p, latency, c, s);
        var d := DoScheduling(p, c, j);
        u := ScheduleFromKeeps(p, latency, d, s + 1, j + 1, if d.rob[j].executed then bw else bw - 1);
      } else {
        u := ScheduleFromKeeps(p, latency, c, s, j + 1, if c.rob[j].executed then bw else bw - 1);
      }
    }
  }

  // ---------- Execution and completion ----------

  /** The values read at execution are those of program order. */
  lemma ExecutionReadsProgramOrder(p: Program, latency: nat, c: Core, s: nat, j: nat)
    requires Inv(p, latency, c, s) && j < |c.rob| && CanExecute(c, j)
    ensures c.rob[j].id < |p.code| && Read(c.regs, c.rob[j].sources) == SeqOperands(p, c.rob[j].id)
  {
    hide Partition, FrontIs, BackendTag, FlightTag, OperandsTag, InOrder, Front, SeqValue, LastProducer;
    var e := c.rob[j];
    assert EntryShape(p, c, s, j);
    forall x | 0 <= x < |e.sources| ensures c.regs.values[e.sources[x]] == SeqValue(p, e.id, e.inst.srcs[x]) {
      assert SourceIs(c, j, x);
      FrontHolds(p, latency, c, s, j, e.inst.srcs[x]);
    }
  }

  /** An entry in the scheduled prefix changes in nothing but its progress. */
  predicate Progressed(c: Core, t: Core, j: nat) {
    && j < |c.rob| == |t.rob| && t.retired == c.retired && t.now == c.now && t.warmup == c.warmup
    && t.regs.frontend == c.regs.frontend && t.regs.backend == c.regs.backend && t.regs.free == c.regs.free
    && |t.regs.file| == |c.regs.file|
    && (forall i :: 0 <= i < |c.rob| && i != j ==> t.rob[i] == c.rob[i])
    && t.rob[j] == c.rob[j].(executed := t.rob[j].executed, completed := t.rob[j].completed,
                             operands := t.rob[j].operands, ready := t.rob[j].ready)
    && t.rob[j].executed && (c.rob[j].completed ==> t.rob[j].completed)
  }

  lemma ProgressKeepsTables(p: Program, latency: nat, c: Core, s: nat, j: nat, t: Core)
    requires Inv(p, latency, c, s) && j < s && Progressed(c, t, j) && CoreOk(t)
    ensures Shape(p, t, s) && InOrder(t, s, latency) && Partition(t)
    ensures forall a :: 0 <= a < ARCH_REGISTERS ==> FrontIs(t, s, a)
    ensures forall i, x :: 0 <= i < s && 0 <= x < |t.rob[i].sources| ==> SourceIs(t, i, x)
  {
    hide BackendTag, FlightTag, OperandsTag, LastIndex, Mapped, InFlight, AllRegisters;
    forall i | 0 <= i < |t.rob| ensures EntryShape(p, t, s, i) {
      assert EntryShape(p, c, s, i);
    }
    FlightCongruent(c.rob, t.rob);
    forall a | 0 <= a < ARCH_REGISTERS ensures FrontIs(t, s, a) {
      assert FrontIs(c, s, a);
      FrontCongruent(c.rob, t.rob, c.regs.backend, t.regs.backend, s, a);
    }
    forall i, x | 0 <= i < s && 0 <= x < |t.rob[i].sources| ensures SourceIs(t, i, x) {
      assert SourceIs(c, i, x);
      FrontCongruent(c.rob, t.rob, c.regs.backend, t.regs.backend, i, c.rob[i].inst.srcs[x]);
    }
  }

  lemma DoExecutionKeeps(p: Program, latency: nat, c: Core, s: nat, j: nat, execLatency: nat)
    requires Inv(p, latency, c, s) && j < |c.rob| && CanExecute(c, j)
    ensures Inv(p, latency, DoExecution(c, j, execLatency), s)
  {
    hide Partition, FrontIs, SourceIs, InOrder, Front, SeqValue, LastProducer;
    var t := DoExecution(c, j, execLatency);
    assert EntryShape(p, c, s, j);
    ProgressKeepsTables(p, latency, c, s, j, t);
    ExecutionReadsProgramOrder(p, latency, c, s, j);
    forall a | 0 <= a < ARCH_REGISTERS ensures BackendTag(p, t.regs, t.retired, a) {
      assert BackendTag(p, c.regs, c.retired, a);
    }
    forall i, x | 0 <= i < s && 0 <= x < |t.rob[i].dests| ensures FlightTag(p, t.regs, t.rob[i], x) {
      assert FlightTag(p, c.regs, c.rob[i], x);
    }
    forall i | 0 <= i < |t.rob| ensures OperandsTag(p, t.rob[i]) {
      assert OperandsTag(p, c.rob[i]);
    }
  }

  lemma {:induction false} ExecuteFromKeeps(
      p: Program, latency: nat, c: Core, s: nat, j: nat, bw: nat, execLatency: nat)
    requires Inv(p, latency, c, s)
    ensures Inv(p, latency, ExecuteFrom(c, j, bw, execLatency), s)
    decreases |c.rob| - j
  {
    hide Inv, DoExecution, CanExecute;
    InvIsOk(p, latency, c, s);
    if j < |c.rob| && bw > 0 {
      if CanExecute(c, j) {
        DoExecutionKeeps(p, latency, c, s, j, execLatency);
        CanExecuteIsScheduled(c, j);
        ExecuteFromKeeps(p, latency, DoExecution(c, j, execLatency), s, j + 1, bw - 1, execLatency);
      } else {
        ExecuteFromKeeps(p, latency, c, s, j + 1, bw, execLatency);
      }
    }
  }

  lemma CanExecuteIsScheduled(c: Core, j: nat)
    requires CoreOk(c) && j < |c.rob| && CanExecute(c, j)
    ensures c.rob[j].scheduled
  {
  }

  lemma {:induction false} CompleteDestsEffect(p: Program, r: Regs, e: Entry, x: nat, t: Regs)
    requires WellFormed(r) && Ids(e.dests, |r.file|) && x <= |e.dests| && t == CompleteDests(p, r, e, x)
    requires forall y, z :: 0 <= y < z < |e.dests| ==> e.dests[y] != e.dests[z]
    ensures t.frontend == r.frontend && t.backend == r.backend && t.free == r.free
    ensures forall q :: 0 <= q < |r.file| && q !in e.dests[x..] ==> t.file[q] == r.file[q] && t.values[q] == r.values[q]
    ensures forall y :: x <= y < |e.dests| ==>
              && t.file[e.dests[y]] == r.file[e.dests[y]].(valid := true)
              && t.values[e.dests[y]] == p.result(e.id, y, e.operands)
    decreases |e.dests| - x
  {
    if x < |e.dests| {
      var u := CompleteDest(r, e.dests[x], p.result(e.id, x, e.operands));
      CompleteDestsEffect(p, u, e, x + 1, t);
      assert e.dests[x..] == [e.dests[x]] + e.dests[x + 1..];
      assert e.dests[x] !in e.dests[x + 1..];
    }
  }

  lemma DoCompleteKeeps(p: Program, latency: nat, c: Core, s: nat, j: nat)
    requires Inv(p, latency, c, s) && j < |c.rob| && c.rob[j].executed
    ensures c.rob[j].scheduled && Inv(p, latency, DoCompleteExecution(p, c, j), s)
  {
    hide Partition, FrontIs, SourceIs, InOrder, Front, SeqValue, LastProducer, CompleteDests;
    assert EntryShape(p, c, s, j);
    var t, e := DoCompleteExecution(p, c, j), c.rob[j];
    forall y | 0 <= y < |e.dests|
      ensures forall z :: 0 <= z < |e.dests| && z != y ==> e.dests[z] != e.dests[y]
      ensures forall a :: 0 <= a < ARCH_REGISTERS ==> c.regs.backend[a] != e.dests[y]
      ensures forall i, z :: 0 <= i < s && i != j && 0 <= z < |c.rob[i].dests| ==> c.rob[i].dests[z] != e.dests[y]
    {
      FlightIsUnshared(p, latency, c, s, j, y);
    }
    CompleteDestsEffect(p, c.regs, e, 0, t.regs);
    ProgressKeepsTables(p, latency, c, s, j, t);
    forall a | 0 <= a < ARCH_REGISTERS ensures BackendTag(p, t.regs, t.retired, a) {
      assert BackendTag(p, c.regs, c.retired, a);
    }
    forall i, x | 0 <= i < s && 0 <= x < |t.rob[i].dests| ensures FlightTag(p, t.regs, t.rob[i], x) {
      assert FlightTag(p, c.regs, c.rob[i], x);
    }
    forall i | 0 <= i < |t.rob| ensures OperandsTag(p, t.rob[i]) {
      assert OperandsTag(p, c.rob[i]);
    }
  }

  lemma {:induction false} CompleteFromKeeps(
      p: Program, latency: nat, c: Core, s: nat, j: nat, bw: nat, memoryDone: set<nat>)
    requires Inv(p, latency, c, s)
    ensures Inv(p, latency, CompleteFrom(p, c, j, bw, memoryDone), s)
    decreases |c.rob| - j
  {
    hide Inv, DoCompleteExecution;
    InvIsOk(p, latency, c, s);
    if j < |c.rob| && bw > 0 {
      if CanComplete(c, j, memoryDone) {
        DoCompleteKeeps(p, latency, c, s, j);
        CompleteFromKeeps(p, latency, DoCompleteExecution(p, c, j), s, j + 1, bw - 1, memoryDone);
      } else {
        CompleteFromKeeps(p, latency, c, s, j + 1, bw, memoryDone);
      }
    }
  }

  // ---------- Retirement ----------

  lemma Exchange(
      free: multiset<nat>, freed: multiset<nat>, mapped: multiset<nat>, before: multiset<nat>,
      retiring: multiset<nat>, later: multiset<nat>, rest: multiset<nat>)
    requires mapped + freed == before + retiring
    ensures (free + freed) + mapped + later + rest == free + before + (retiring + later) + rest
  {
    assert (free + freed) + mapped + later + rest == free + (mapped + freed) + later + rest;
  }

  /** The registers named by `dests` retire in this order; `rest` are those of the younger instructions. */
  predicate Retiring(r: Regs, dests: seq<nat>, dsts: seq<nat>, rest: multiset<nat>) {
    && WellFormed(r) && |dests| == |dsts| && Ids(dests, |r.file|) && ArchRegisters(dsts)
    && (forall x :: 0 <= x < |dests| ==> r.file[dests[x]].arch == dsts[x])
    && multiset(r.free) + Mapped(r.backend) + multiset(dests) + rest == AllRegisters(|r.file|)
  }

  lemma PreviousIsOther(r: Regs, dests: seq<nat>, dsts: seq<nat>, rest: multiset<nat>, x: nat)
    requires Retiring(r, dests, dsts, rest) && x < |dests|
    ensures forall a :: 0 <= a < ARCH_REGISTERS ==> r.backend[a] != dests[x]
  {
    hide Mapped, AllRegisters;
    EachOnce(|r.file|, dests[x]);
    assert multiset(dests)[dests[x]] >= 1;
    forall a | 0 <= a < ARCH_REGISTERS ensures r.backend[a] != dests[x] {
      if r.backend[a] == dests[x] {
        MappedHas(r.backend, a);
      }
    }
  }

  lemma RetireDestKeeps(r: Regs, dests: seq<nat>, dsts: seq<nat>, rest: multiset<nat>)
    requires Retiring(r, dests, dsts, rest) && |dests| > 0
    ensures Retiring(RetireDest(r, dests[0]), dests[1..], dsts[1..], rest)
  {
    hide Mapped, AllRegisters;
    var u := RetireDest(r, dests[0]);
    var arch, previous := dsts[0], r.backend[dsts[0]];
    var freed := if previous >= 0 then multiset{previous as nat} else multiset{};
    assert dests == [dests[0]] + dests[1..];
    assert multiset(dests) == multiset{dests[0]} + multiset(dests[1..]);
    MappedUpdate(r.backend, arch, dests[0]);
    assert multiset(u.free) == multiset(r.free) + freed;
    assert Mapped(u.backend) + freed == Mapped(r.backend) + multiset{dests[0]};
    Exchange(multiset(r.free), freed, Mapped(u.backend), Mapped(r.backend), multiset{dests[0]}, multiset(dests[1..]), rest);
    forall x | 0 <= x < |dests[1..]| ensures u.file[dests[1..][x]].arch == dsts[1..][x] {
      PreviousIsOther(r, dests, dsts, rest, x + 1);
    }
  }

  lemma {:induction false} RetireDestsEffect(r: Regs, dests: seq<nat>, dsts: seq<nat>, rest: multiset<nat>, t: Regs)
    requires Retiring(r, dests, dsts, rest) && t == RetireDests(r, dests)
    ensures multiset(t.free) + Mapped(t.backend) + rest == AllRegisters(|r.file|)
    ensures t.frontend == r.frontend && t.values == r.values
    ensures forall q :: q in r.free ==> q in t.free
    ensures forall a :: 0 <= a < ARCH_REGISTERS ==>
              t.backend[a] == if a in dsts then dests[LastIndex(dsts, a)] else r.backend[a]
    ensures forall q :: 0 <= q < |r.file| ==> q in t.free || t.file[q] == r.file[q]
    decreases |dests|
  {
    hide LastIndex, Mapped, AllRegisters;
    if |dests| > 0 {
      RetireDestKeeps(r, dests, dsts, rest);
      RetireDestsEffect(RetireDest(r, dests[0]), dests[1..], dsts[1..], rest, t);
      forall a | 0 <= a < ARCH_REGISTERS
        ensures t.backend[a] == if a in dsts then dests[LastIndex(dsts, a)] else r.backend[a]
      {
        LastIndexOfTail(dsts, a);
      }
    }
  }

  /** A completed instruction's destinations can be retired: their file entries still name their registers. */
  lemma CompletedIsRetirable(p: Program, latency: nat, c: Core, s: nat)
    requires Inv(p, latency, c, s) && |c.rob| > 0 && c.rob[0].completed
    ensures s > 0 && Retirable(c.regs, c.rob[0].dests)
  {
    hide Partition, FrontIs, SourceIs, InOrder, SeqValue, LastProducer;
    assert EntryShape(p, c, s, 0);
    forall x | 0 <= x < |c.rob[0].dests|
      ensures c.rob[0].dests[x] < |c.regs.file| && c.regs.file[c.rob[0].dests[x]].arch < ARCH_REGISTERS
    {
      assert FlightTag(p, c.regs, c.rob[0], x);
      assert c.rob[0].inst.dsts[x] < ARCH_REGISTERS;
    }
  }

  /** The facts of RetireDestsEffect for the front of the reorder buffer. */
  lemma RetireEffect(p: Program, latency: nat, c: Core, s: nat, t: Core)
    requires Inv(p, latency, c, s) && |c.rob| > 0 && c.rob[0].completed && Retirable(c.regs, c.rob[0].dests)
    requires t == RetireOne(c)
    ensures Partition(t) && t.regs.frontend == c.regs.frontend && t.regs.values == c.regs.values
    ensures forall a :: 0 <= a < ARCH_REGISTERS ==> t.regs.backend[a] == Front(c.rob, c.regs.backend, 1, a)
    ensures forall q :: 0 <= q < |c.regs.file| ==> q in t.regs.free || t.regs.file[q] == c.regs.file[q]
  {
    hide FrontIs, SourceIs, BackendTag, OperandsTag, InOrder, LastIndex, Mapped, AllRegisters, RetireDests;
    var e := c.rob[0];
    assert EntryShape(p, c, s, 0) && EntryOk(c.regs, e);
    forall x | 0 <= x < |e.dests| ensures c.regs.file[e.dests[x]].arch == e.inst.dsts[x] {
      assert FlightTag(p, c.regs, e, x);
    }
    assert InFlight(c.rob) == InFlight(t.rob) + multiset(e.dests);
    RetireDestsEffect(c.regs, e.dests, e.inst.dsts, InFlight(t.rob), t.regs);
    forall a | 0 <= a < ARCH_REGISTERS ensures t.regs.backend[a] == Front(c.rob, c.regs.backend, 1, a) {
      assert Front(c.rob, c.regs.backend, 0, a) == c.regs.backend[a];
    }
  }

  lemma RetireKeepsTables(p: Program, latency: nat, c: Core, s: nat, t: Core, n: nat)
    requires Inv(p, latency, c, s) && |c.rob| > 0 && c.rob[0].completed && Retirable(c.regs, c.rob[0].dests)
    requires t == RetireOne(c) && s == n + 1
    ensures Shape(p, t, n) && InOrder(t, n, latency)
    ensures forall a :: 0 <= a < ARCH_REGISTERS ==> FrontIs(t, n, a)
    ensures forall j, x :: 0 <= j < n && 0 <= x < |t.rob[j].sources| ==> SourceIs(t, j, x)
  {
    hide BackendTag, FlightTag, OperandsTag, LastIndex, Partition, RetireDests, Front;
    RetireEffect(p, latency, c, s, t);
    forall j | 0 <= j < |t.rob| ensures EntryShape(p, t, n, j) && EntryOk(t.regs, t.rob[j]) {
      assert EntryShape(p, c, s, j + 1) && EntryOk(c.regs, c.rob[j + 1]);
    }
    forall a | 0 <= a < ARCH_REGISTERS ensures FrontIs(t, n, a) {
      assert FrontIs(c, s, a);
      FrontShift(c.rob, c.regs.backend, t.regs.backend, n, a);
    }
    forall j, x | 0 <= j < n && 0 <= x < |t.rob[j].sources| ensures SourceIs(t, j, x) {
      assert SourceIs(c, j + 1, x);
      FrontShift(c.rob, c.regs.backend, t.regs.backend, j, c.rob[j + 1].inst.srcs[x]);
    }
  }

  lemma RetireKeepsTags(p: Program, latency: nat, c: Core, s: nat, t: Core, n: nat)
    requires Inv(p, latency, c, s) && |c.rob| > 0 && c.rob[0].completed && Retirable(c.regs, c.rob[0].dests)
    requires t == RetireOne(c) && s == n + 1 && t.retired <= |p.code|
    ensures forall a :: 0 <= a < ARCH_REGISTERS ==> BackendTag(p, t.regs, t.retired, a)
    ensures forall j, x :: 0 <= j < n && 0 <= x < |t.rob[j].dests| ==> FlightTag(p, t.regs, t.rob[j], x)
    ensures forall j :: 0 <= j < |t.rob| ==> OperandsTag(p, t.rob[j])
  {
    hide LastIndex, SourceIs, InOrder, RetireDests, Front, Mapped, InFlight, AllRegisters, FrontIs;
    hide OperandsTag, SeqValue, LastProducer;
    RetireEffect(p, latency, c, s, t);
    forall a | 0 <= a < ARCH_REGISTERS ensures BackendTag(p, t.regs, t.retired, a) {
      var q := t.regs.backend[a];
      FrontHolds(p, latency, c, s, 1, a);
      if q >= 0 {
        EachOnce(|t.regs.file|, q);
        MappedHas(t.regs.backend, a);
        assert q !in t.regs.free;
        assert BackendTag(p, c.regs, c.retired, a);
        FrontOfOne(p, latency, c, s, a);
      }
    }
    forall j, x | 0 <= j < n && 0 <= x < |t.rob[j].dests| ensures FlightTag(p, t.regs, t.rob[j], x) {
      var q := t.rob[j].dests[x];
      assert EntryShape(p, c, s, j + 1);
      assert FlightTag(p, c.regs, c.rob[j + 1], x);
      EachOnce(|t.regs.file|, q);
      FlightHas(t.rob, j, q);
      assert q in t.rob[j].dests;
      assert q !in t.regs.free;
    }
    forall j | 0 <= j < |t.rob| ensures OperandsTag(p, t.rob[j]) {
      assert OperandsTag(p, c.rob[j + 1]);
    }
  }

  lemma FrontOfOne(p: Program, latency: nat, c: Core, s: nat, a: nat)
    requires Inv(p, latency, c, s) && |c.rob| > 0 && c.rob[0].completed && a < ARCH_REGISTERS
    ensures -1 <= Front(c.rob, c.regs.backend, 1, a) < |c.regs.file|
    ensures Front(c.rob, c.regs.backend, 1, a) >= 0 ==> c.regs.file[Front(c.rob, c.regs.backend, 1, a)].valid
  {
    hide LastIndex, SourceIs, InOrder, Partition, FrontIs, OperandsTag, SeqValue, LastProducer;
    assert EntryShape(p, c, s, 0);
    assert BackendTag(p, c.regs, c.retired, a);
    FrontHolds(p, latency, c, s, 1, a);
    if a in c.rob[0].inst.dsts {
      assert FlightTag(p, c.regs, c.rob[0], LastIndex(c.rob[0].inst.dsts, a));
    } else {
      assert Front(c.rob, c.regs.backend, 0, a) == c.regs.backend[a];
    }
  }

  lemma RetireKeeps(p: Program, latency: nat, c: Core, s: nat)
    requires Inv(p, latency, c, s) && |c.rob| > 0 && c.rob[0].completed && Retirable(c.regs, c.rob[0].dests)
    ensures s > 0 && Inv(p, latency, RetireOne(c), s - 1)
  {
    hide LastIndex, SourceIs, InOrder, FrontIs, BackendTag, FlightTag, OperandsTag, Partition;
    var t := RetireOne(c);
    assert EntryShape(p, c, s, 0);
    RetireEffect(p, latency, c, s, t);
    RetireKeepsTables(p, latency, c, s, t, s - 1);
    RetireKeepsTags(p, latency, c, s, t, s - 1);
  }

  // ---------- Dispatch and time ----------

  lemma DispatchKeeps(u: Setup, c: Core, s: nat)
    requires Inv(u.program, u.schedulingLatency, c, s) && c.retired + |c.rob| < |u.program.code|
    ensures Inv(u.program, u.schedulingLatency, DispatchNext(u, c), s)
  {
    hide LastIndex, Mapped, AllRegisters, InFlight, BackendTag, FlightTag;
    var p := u.program;
    var t := DispatchNext(u, c);
    FlightAppends(c.rob, t.rob[|c.rob|]);
    forall j | 0 <= j < |t.rob| ensures EntryShape(p, t, s, j) && OperandsTag(p, t.rob[j]) {
      if j < |c.rob| {
        assert EntryShape(p, c, s, j) && OperandsTag(p, c.rob[j]);
      }
    }
    forall a | 0 <= a < ARCH_REGISTERS ensures FrontIs(t, s, a) {
      assert FrontIs(c, s, a);
      FrontCongruent(c.rob, t.rob, c.regs.backend, t.regs.backend, s, a);
    }
    forall j, x | 0 <= j < s && 0 <= x < |t.rob[j].sources| ensures SourceIs(t, j, x) {
      assert SourceIs(c, j, x);
      FrontCongruent(c.rob, t.rob, c.regs.backend, t.regs.backend, j, c.rob[j].inst.srcs[x]);
    }
    forall j, x | 0 <= j < s && 0 <= x < |t.rob[j].dests| ensures FlightTag(p, t.regs, t.rob[j], x) {
      assert FlightTag(p, c.regs, c.rob[j], x);
    }
  }

  lemma TimeKeeps(p: Program, latency: nat, c: Core, s: nat, t: Core)
    requires Inv(p, latency, c, s) && t.now >= c.now && (t.warmup ==> c.warmup)
    requires t == c.(now := t.now, warmup := t.warmup)
    ensures Inv(p, latency, t, s)
  {
    hide LastIndex, Mapped, AllRegisters, InFlight, Front, SeqValue, LastProducer;
    forall j | 0 <= j < |t.rob| ensures EntryShape(p, t, s, j) && EntryOk(t.regs, t.rob[j]) {
      assert EntryShape(p, c, s, j) && EntryOk(c.regs, c.rob[j]);
    }
    forall a | 0 <= a < ARCH_REGISTERS ensures FrontIs(t, s, a) {
      assert FrontIs(c, s, a);
    }
    forall j, x | 0 <= j < s && 0 <= x < |t.rob[j].sources| ensures SourceIs(t, j, x) {
      assert SourceIs(c, j, x);
    }
  }

  // ---------- Every run ----------

  lemma StepKeeps(u: Setup, c: Core, s: nat, e: Event) returns (n: nat)
    requires Inv(u.program, u.schedulingLatency, c, s) && CoreOk(c) && Runnable(u.program) && Enabled(u, c, e)
    ensures Inv(u.program, u.schedulingLatency, Step(u, c, e), n)
  {
    hide Inv, ScheduleFrom, ExecuteFrom, CompleteFrom, RetireOne, DispatchNext;
    n := s;
    match e
    case Tick(_) => TimeKeeps(u.program, u.schedulingLatency, c, s, Step(u, c, e));
    case EndWarmup => TimeKeeps(u.program, u.schedulingLatency, c, s, Step(u, c, e));
    case Dispatch => DispatchKeeps(u, c, s);
    case Schedule(bw) => n := ScheduleFromKeeps(u.program, u.schedulingLatency, c, s, 0, bw);
    case Execute(bw) => ExecuteFromKeeps(u.program, u.schedulingLatency, c, s, 0, bw, u.execLatency);
    case Complete(bw, done) => CompleteFromKeeps(u.program, u.schedulingLatency, c, s, 0, bw, done);
    case Retire =>
      RetireKeeps(u.program, u.schedulingLatency, c, s);
      n := s - 1;
  }

  lemma StartOk(p: Program, latency: nat, physical: nat, warmup: bool)
    requires physical <= ARCH_REGISTERS && Runnable(p)
    ensures Inv(p, latency, Start(physical, warmup), 0)
  {
    hide LastIndex;
    var c := Start(physical, warmup);
    MappedNothing(c.regs.backend);
    CountsUp(physical);
  }

  lemma {:induction false} MappedNothing(t: seq<int>)
    requires forall a :: 0 <= a < |t| ==> t[a] < 0
    ensures Mapped(t) == multiset{}
  {
    if |t| > 0 {
      MappedNothing(t[1..]);
    }
  }

  lemma {:induction false} CountsUp(n: nat)
    ensures multiset(seq(n, i => i)) == AllRegisters(n)
  {
    if n > 0 {
      CountsUp(n - 1);
      assert seq(n, i => i) == seq(n - 1, i => i) + [n - 1];
    }
  }

  lemma {:induction false} RunKeeps(u: Setup, c: Core, s: nat, events: seq<Event>) returns (n: nat)
    requires CoreOk(c) && Runnable(u.program) && Possible(u, c, events)
    requires Inv(u.program, u.schedulingLatency, c, s)
    ensures Inv(u.program, u.schedulingLatency, Run(u, c, events), n)
    decreases |events|
  {
    hide Inv, Step, Enabled;
    if |events| > 0 {
      n := StepKeeps(u, c, s, events[0]);
      n := RunKeeps(u, Step(u, c, events[0]), n, events[1..]);
    } else {
      n := s;
    }
  }

  // ---------- Main results ----------

  /** The core after a run of events. */
  function After(u: Setup, physical: nat, warmup: bool, events: seq<Event>): (c: Core)
    requires physical <= ARCH_REGISTERS && Runnable(u.program) && Possible(u, Start(physical, warmup), events)
    ensures CoreOk(c)
  {
    Run(u, Start(physical, warmup), events)
  }

  /**
   * Register conservation, in every run: each physical register is exactly one of free, mapped by
   * the backend table, or the destination of a scheduled instruction that has not retired; so the
   * free list holds no register twice.
   */
  lemma RegistersAreConserved(u: Setup, physical: nat, warmup: bool, events: seq<Event>)
    requires physical <= ARCH_REGISTERS && Runnable(u.program) && Possible(u, Start(physical, warmup), events)
    ensures var c := After(u, physical, warmup, events);
      && multiset(c.regs.free) + Mapped(c.regs.backend) + InFlight(c.rob) == AllRegisters(|c.regs.file|)
      && Distinct(c.regs.free)
  {
    hide Run, Possible, FrontIs, SourceIs, BackendTag, FlightTag, OperandsTag, InOrder, Mapped, InFlight;
    StartOk(u.program, u.schedulingLatency, physical, warmup);
    var n := RunKeeps(u, Start(physical, warmup), 0, events);
    var c := After(u, physical, warmup, events);
    forall i, j | 0 <= i < j < |c.regs.free| ensures c.regs.free[i] != c.regs.free[j] {
      FreeIsUnused(u.program, u.schedulingLatency, c, n, i);
    }
  }

  /**
   * In every run, each source of a scheduled instruction that has not retired is a register that is
   * not free and that holds the tag of the youngest older writer; once it is valid it holds the
   * value program order gives.
   */
  lemma SourcesAreHeld(u: Setup, physical: nat, warmup: bool, events: seq<Event>, j: nat, x: nat)
    requires physical <= ARCH_REGISTERS && Runnable(u.program) && Possible(u, Start(physical, warmup), events)
    requires j < |After(u, physical, warmup, events).rob|
    requires x < |After(u, physical, warmup, events).rob[j].sources|
    ensures var c := After(u, physical, warmup, events);
      var e := c.rob[j];
      && e.id < |u.program.code| && |e.sources| == |u.program.code[e.id].srcs|
      && (e.scheduled ==>
            var q, a := e.sources[x], u.program.code[e.id].srcs[x];
            && q < |c.regs.file| && q !in c.regs.free
            && c.regs.file[q].arch == a && c.regs.file[q].producer == LastProducer(u.program, e.id, a)
            && (c.regs.file[q].valid ==> c.regs.values[q] == SeqValue(u.program, e.id, a)))
  {
    hide Run, Possible, FrontIs, BackendTag, FlightTag, OperandsTag, InOrder, Partition, SeqValue, LastProducer;
    StartOk(u.program, u.schedulingLatency, physical, warmup);
    var n := RunKeeps(u, Start(physical, warmup), 0, events);
    var c := After(u, physical, warmup, events);
    assert EntryShape(u.program, c, n, j) && EntryOk(c.regs, c.rob[j]);
    if c.rob[j].scheduled {
      assert SourceIs(c, j, x);
      FrontHolds(u.program, u.schedulingLatency, c, n, j, c.rob[j].inst.srcs[x]);
      FrontIsUsed(u.program, u.schedulingLatency, c, n, j, c.rob[j].inst.srcs[x]);
    }
  }

  lemma {:induction false} FrontIsUsed(p: Program, latency: nat, c: Core, s: nat, j: nat, a: nat)
    requires Inv(p, latency, c, s) && j <= s && a < ARCH_REGISTERS
    requires Front(c.rob, c.regs.backend, j, a) >= 0
    ensures (Front(c.rob, c.regs.backend, j, a) as nat) !in c.regs.free
  {
    hide FrontIs, BackendTag, FlightTag, OperandsTag, InOrder, Partition, LastIndex, SourceIs;
    var q := Front(c.rob, c.regs.backend, j, a);
    if (q as nat) in c.regs.free {
      var i :| 0 <= i < |c.regs.free| && c.regs.free[i] == q;
      FreeIsUnused(p, latency, c, s, i);
      if j == 0 {
        assert false;
      } else if WritesSlot(c.rob[j - 1], a) {
        assert false;
      } else {
        FrontIsUsed(p, latency, c, s, j - 1, a);
      }
    }
  }

  /**
   * Dataflow, in every run: every executed instruction read exactly the operands that executing the
   * program one instruction at a time would have given it, and the backend table holds the
   * registers of that execution after as many instructions as have retired.
   */
  lemma RenamingPreservesDataflow(u: Setup, physical: nat, warmup: bool, events: seq<Event>)
    requires physical <= ARCH_REGISTERS && Runnable(u.program) && Possible(u, Start(physical, warmup), events)
    ensures var c := After(u, physical, warmup, events);
      && c.retired <= |u.program.code|
      && (forall j :: 0 <= j < |c.rob| && c.rob[j].executed ==>
            && c.rob[j].id == c.retired + j < |u.program.code|
            && c.rob[j].operands == SeqOperands(u.program, c.rob[j].id))
      && (forall a :: 0 <= a < ARCH_REGISTERS && c.regs.backend[a] >= 0 ==>
            c.regs.values[c.regs.backend[a]] == SeqValue(u.program, c.retired, a))
  {
    hide Run, Possible, FrontIs, SourceIs, FlightTag, InOrder, Partition, SeqValue, LastProducer, SeqOperands;
    StartOk(u.program, u.schedulingLatency, physical, warmup);
    var n := RunKeeps(u, Start(physical, warmup), 0, events);
    var c := After(u, physical, warmup, events);
    forall j | 0 <= j < |c.rob| && c.rob[j].executed
      ensures c.rob[j].id == c.retired + j < |u.program.code|
      ensures c.rob[j].operands == SeqOperands(u.program, c.rob[j].id)
    {
      assert EntryShape(u.program, c, n, j) && OperandsTag(u.program, c.rob[j]);
    }
    forall a | 0 <= a < ARCH_REGISTERS && c.regs.backend[a] >= 0
      ensures c.regs.values[c.regs.backend[a]] == SeqValue(u.program, c.retired, a)
    {
      assert BackendTag(u.program, c.regs, c.retired, a);
    }
  }

  /** In every run the scheduled instructions are the oldest ones, and a completed front can retire. */
  lemma SchedulingIsInOrder(u: Setup, physical: nat, warmup: bool, events: seq<Event>)
    requires physical <= ARCH_REGISTERS && Runnable(u.program) && Possible(u, Start(physical, warmup), events)
    ensures var c := After(u, physical, warmup, events);
      && (forall i, j :: 0 <= i < j < |c.rob| && c.rob[j].scheduled ==> c.rob[i].scheduled)
      && (|c.rob| > 0 && c.rob[0].completed ==> Enabled(u, c, Retire))
  {
    hide Run, Possible, FrontIs, SourceIs, FlightTag, InOrder, Partition, BackendTag, OperandsTag;
    StartOk(u.program, u.schedulingLatency, physical, warmup);
    var n := RunKeeps(u, Start(physical, warmup), 0, events);
    var c := After(u, physical, warmup, events);
    forall i, j | 0 <= i < j < |c.rob| && c.rob[j].scheduled ensures c.rob[i].scheduled {
      assert EntryShape(u.program, c, n, i) && EntryShape(u.program, c, n, j);
    }
    if |c.rob| > 0 && c.rob[0].completed {
      CompletedIsRetirable(u.program, u.schedulingLatency, c, n);
    }
  }
}
