/**
 * Every memory operation of an instruction in the reorder buffer is finished, waiting in the load
 * queue, or a store not yet issued: so no assertion of the simulator can fail, and stores reach the
 * L1D in program order, after their instruction has executed and retired.
 */
module LoadStoreProof {
  import opened Collections
  import opened LoadStore

  // ---------- Counting ----------

  function LoadsOf(lq: seq<Option<Load>>, id: nat): nat {
    if |lq| == 0 then 0 else (if lq[0].Some? && lq[0].value.id == id then 1 else 0) + LoadsOf(lq[1..], id)
  }

  function PendingOf(sq: seq<Store>, id: nat): nat {
    if |sq| == 0 then 0 else (if !sq[0].fetchIssued && sq[0].id == id then 1 else 0) + PendingOf(sq[1..], id)
  }

  /** The load queue slots named by stores that have not been issued. */
  function WaitSlots(sq: seq<Store>): multiset<nat> {
    if |sq| == 0 then multiset{}
    else WaitSlots(sq[1..]) + Names(sq[0])
  }

  function Owns(l: Option<Load>, id: nat): nat {
    if l.Some? && l.value.id == id then 1 else 0
  }

  function Pends(s: Store, id: nat): nat {
    if !s.fetchIssued && s.id == id then 1 else 0
  }

  lemma {:induction false} LoadsUpdate(lq: seq<Option<Load>>, k: nat, l: Option<Load>, id: nat)
    requires k < |lq|
    ensures LoadsOf(lq[k := l], id) == LoadsOf(lq, id) - Owns(lq[k], id) + Owns(l, id)
    ensures LoadsOf(lq, id) >= Owns(lq[k], id)
  {
    if k == 0 {
      assert lq[k := l][1..] == lq[1..];
    } else {
      assert lq[k := l][1..] == lq[1..][k - 1 := l];
      LoadsUpdate(lq[1..], k - 1, l, id);
    }
  }

  lemma {:induction false} PendingUpdate(sq: seq<Store>, k: nat, x: Store, id: nat)
    requires k < |sq|
    ensures PendingOf(sq[k := x], id) == PendingOf(sq, id) - Pends(sq[k], id) + Pends(x, id)
    ensures PendingOf(sq, id) >= Pends(sq[k], id)
  {
    if k == 0 {
      assert sq[k := x][1..] == sq[1..];
    } else {
      assert sq[k := x][1..] == sq[1..][k - 1 := x];
      PendingUpdate(sq[1..], k - 1, x, id);
    }
  }

  function Names(s: Store): multiset<nat> {
    if s.fetchIssued then multiset{} else multiset(s.dependents)
  }

  lemma {:induction false} WaitSlotsUpdate(sq: seq<Store>, k: nat, x: Store)
    requires k < |sq|
    ensures WaitSlots(sq[k := x]) + Names(sq[k]) == WaitSlots(sq) + Names(x)
  {
    hide Names;
    if k == 0 {
      assert sq[k := x][1..] == sq[1..];
    } else {
      assert sq[k := x][1..] == sq[1..][k - 1 := x];
      WaitSlotsUpdate(sq[1..], k - 1, x);
      var rest, later := WaitSlots(sq[k := x][1..]), WaitSlots(sq[1..]);
      assert rest + Names(sq[k]) == later + Names(x);
      assert (rest + Names(sq[0])) + Names(sq[k]) == (rest + Names(sq[k])) + Names(sq[0]);
      assert (later + Names(sq[0])) + Names(x) == (later + Names(x)) + Names(sq[0]);
    }
  }

  lemma Cancel(a: multiset<nat>, b: multiset<nat>, common: multiset<nat>, more: multiset<nat>)
    requires a + common == b + (common + more)
    ensures a == b + more
  {
    forall d ensures a[d] == (b + more)[d] {
      assert (a + common)[d] == (b + (common + more))[d];
    }
  }

  lemma {:induction false} WaitSlotsHas(sq: seq<Store>, k: nat, d: nat)
    requires k < |sq| && !sq[k].fetchIssued
    ensures WaitSlots(sq)[d] >= multiset(sq[k].dependents)[d]
  {
    if k > 0 {
      WaitSlotsHas(sq[1..], k - 1, d);
    }
  }

  /** Queues that agree on what is counted have the same counts. */
  lemma {:induction false} LoadsCongruent(a: seq<Option<Load>>, b: seq<Option<Load>>, id: nat)
    requires |a| == |b| && forall i :: 0 <= i < |a| ==> Owns(a[i], id) == Owns(b[i], id)
    ensures LoadsOf(a, id) == LoadsOf(b, id)
  {
    if |a| > 0 {
      assert Owns(a[0], id) == Owns(b[0], id);
      LoadsCongruent(a[1..], b[1..], id);
    }
  }

  predicate SameStore(a: Store, b: Store) {
    a.id == b.id && a.fetchIssued == b.fetchIssued && a.dependents == b.dependents && a.addr == b.addr
  }

  lemma {:induction false} StoresCongruent(a: seq<Store>, b: seq<Store>, id: nat)
    requires |a| == |b| && forall i :: 0 <= i < |a| ==> SameStore(a[i], b[i])
    ensures PendingOf(a, id) == PendingOf(b, id) && WaitSlots(a) == WaitSlots(b) && Sent(a) == Sent(b)
  {
    if |a| > 0 {
      assert SameStore(a[0], b[0]);
      StoresCongruent(a[1..], b[1..], id);
    }
  }

  lemma {:induction false} NewStoresCount(sq: seq<Store>, id: nat, addrs: seq<nat>, other: nat)
    ensures PendingOf(sq + NewStores(id, addrs), other) == PendingOf(sq, other) + if other == id then |addrs| else 0
    ensures WaitSlots(sq + NewStores(id, addrs)) == WaitSlots(sq)
    decreases |sq|, |addrs|
  {
    var new_ := NewStores(id, addrs);
    if |sq| > 0 {
      assert (sq + new_)[1..] == sq[1..] + new_;
      NewStoresCount(sq[1..], id, addrs, other);
    } else if |addrs| > 0 {
      assert sq + new_ == new_;
      assert new_[1..] == NewStores(id, addrs[1..]);
      assert [] + new_[1..] == new_[1..];
      NewStoresCount([], id, addrs[1..], other);
    }
  }

  // ---------- Program order of stores ----------

  function Sent(sq: seq<Store>): (r: seq<Written>)
    ensures |r| == |sq|
  {
    seq(|sq|, i requires 0 <= i < |sq| => Written(sq[i].id, sq[i].addr))
  }

  /** All stores of the first `m` instructions, in program order. */
  function AllStores(code: seq<Inst>, m: nat): seq<Written>
    requires m <= |code|
  {
    if m == 0 then [] else AllStores(code, m - 1) + Sent(NewStores(m - 1, code[m - 1].stores))
  }

  // ---------- The invariant ----------

  predicate RobOk(u: Setup, s: State, j: nat)
    requires j < |s.rob|
  {
    var e := s.rob[j];
    && e.id == s.retired + j < |u.code| && e.inst == u.code[e.id]
    && (e.completed ==> e.executed && e.memoryDone == Operations(e.inst))
  }

  /** `owed` counts the operations of the youngest instruction that its dispatch has still to queue. */
  predicate Balanced(s: State, owed: nat, j: nat)
    requires j < |s.rob|
  {
    var e := s.rob[j];
    e.memoryDone + LoadsOf(s.lq, e.id) + PendingOf(s.sq, e.id) + (if j == |s.rob| - 1 then owed else 0)
    == Operations(e.inst)
  }

  predicate InRob(s: State, id: nat) {
    s.retired <= id < s.retired + |s.rob|
  }

  predicate Executed(s: State, id: nat) {
    id < s.retired || (InRob(s, id) && s.rob[id - s.retired].executed)
  }

  predicate LoadOk(s: State, l: Load) {
    && InRob(s, l.id)
    && (l.fetchIssued ==> l.producer.None? && l.ready.Some?)
    && (l.ready.Some? ==> Executed(s, l.id))
    && (l.producer.Some? ==> l.producer.value < l.id)
  }

  predicate StoreOk(s: State, x: Store) {
    && x.id < s.retired + |s.rob|
    && (!x.fetchIssued ==> InRob(s, x.id))
    && (x.fetchIssued || x.ready.Some? ==> Executed(s, x.id))
  }

  ghost predicate InOrder(sq: seq<Store>) {
    forall i, k :: 0 <= i < k < |sq| ==> sq[i].id <= sq[k].id && (sq[k].fetchIssued ==> sq[i].fetchIssued)
  }

  predicate IsWaiting(lq: seq<Option<Load>>, d: nat) {
    d < |lq| && lq[d].Some? && lq[d].value.producer.Some?
  }

  /** Each slot with a waiting load is named once, by a store in the queue or in `loose`; no other slot is. */
  predicate NamedOnce(s: State, loose: multiset<nat>, d: nat) {
    WaitSlots(s.sq)[d] + loose[d] == if IsWaiting(s.lq, d) then 1 else 0
  }

  predicate WaitsFor(lq: seq<Option<Load>>, d: nat, id: nat) {
    IsWaiting(lq, d) && lq[d].value.producer == Some(id)
  }

  ghost predicate Inv(u: Setup, s: State, owed: nat, m: nat, loose: multiset<nat>) {
    && s.retired + |s.rob| <= |u.code| && m <= s.retired + |s.rob|
    && (forall j :: 0 <= j < |s.rob| ==> RobOk(u, s, j))
    && (forall j :: 0 <= j < |s.rob| ==> Balanced(s, owed, j))
    && (forall k :: 0 <= k < |s.lq| && s.lq[k].Some? ==> LoadOk(s, s.lq[k].value))
    && (forall k :: 0 <= k < |s.sq| ==> StoreOk(s, s.sq[k]))
    && InOrder(s.sq)
    && (forall d: nat :: NamedOnce(s, loose, d))
    && (forall k, x :: 0 <= k < |s.sq| && !s.sq[k].fetchIssued && 0 <= x < |s.sq[k].dependents| ==>
          WaitsFor(s.lq, s.sq[k].dependents[x], s.sq[k].id))
    && s.written + Sent(s.sq) == AllStores(u.code, m)
    && (forall i :: 0 <= i < |s.written| ==> s.written[i].id < s.retired)
  }

  /** The invariant between steps. */
  ghost predicate Good(u: Setup, s: State) {
    Inv(u, s, 0, s.retired + |s.rob|, multiset{})
  }

  // ---------- Finishing one operation ----------

  lemma {:induction false} LocateFinds(u: Setup, rob: seq<Entry>, base: nat, id: nat)
    requires base <= id < base + |rob| && forall j :: 0 <= j < |rob| ==> rob[j].id == base + j
    ensures Locate(rob, id) == id - base
  {
    if id > base {
      LocateFinds(u, rob[1..], base + 1, id);
    }
  }

  /** While an operation of instruction `id` is outstanding, finishing one neither loses the instruction nor overruns. */
  lemma FinishRuns(u: Setup, s: State, id: nat)
    requires InRob(s, id) && forall j :: 0 <= j < |s.rob| ==> RobOk(u, s, j)
    requires s.rob[id - s.retired].memoryDone < Operations(s.rob[id - s.retired].inst)
    ensures var j := id - s.retired;
      Finish(s, id) == Running(s.(rob := s.rob[j := s.rob[j].(memoryDone := s.rob[j].memoryDone + 1)]))
  {
    assert forall j :: 0 <= j < |s.rob| ==> RobOk(u, s, j) && s.rob[j].id == s.retired + j;
    LocateFinds(u, s.rob, s.retired, id);
  }

  /** A load in slot `k` that is not waiting, or no longer named, finishes and leaves its slot. */
  lemma LoadFinishes(u: Setup, s: State, owed: nat, m: nat, loose: multiset<nat>, k: nat)
    requires k < |s.lq| && s.lq[k].Some?
    requires Inv(u, s, owed, m, if IsWaiting(s.lq, k) then loose + multiset{k} else loose)
    ensures Finish(s, s.lq[k].value.id).Running?
    ensures Inv(u, Finish(s, s.lq[k].value.id).state.(lq := s.lq[k := None]), owed, m, loose)
  {
    hide Finish, LoadsOf, PendingOf, WaitSlots, Sent, AllStores;
    var id := s.lq[k].value.id;
    assert LoadOk(s, s.lq[k].value);
    var i := id - s.retired;
    assert RobOk(u, s, i) && Balanced(s, owed, i);
    LoadsUpdate(s.lq, k, None, id);
    FinishRuns(u, s, id);
    var t := Finish(s, id).state.(lq := s.lq[k := None]);
    forall j | 0 <= j < |t.rob| ensures RobOk(u, t, j) && Balanced(t, owed, j) {
      assert RobOk(u, s, j) && Balanced(s, owed, j);
      LoadsUpdate(s.lq, k, None, s.rob[j].id);
    }
    forall d: nat ensures NamedOnce(t, loose, d) {
      assert NamedOnce(s, if IsWaiting(s.lq, k) then loose + multiset{k} else loose, d);
    }
    LoadFinishKeepsWaiters(u, s, owed, m, loose, k, t);
    forall i | 0 <= i < |t.lq| && t.lq[i].Some? ensures LoadOk(t, t.lq[i].value) {
      assert LoadOk(s, s.lq[i].value);
    }
    forall i | 0 <= i < |t.sq| ensures StoreOk(t, t.sq[i]) {
      assert StoreOk(s, s.sq[i]);
    }
  }

  lemma LoadFinishKeepsWaiters(u: Setup, s: State, owed: nat, m: nat, loose: multiset<nat>, k: nat, t: State)
    requires k < |s.lq| && s.lq[k].Some?
    requires Inv(u, s, owed, m, if IsWaiting(s.lq, k) then loose + multiset{k} else loose)
    requires t.sq == s.sq && t.lq == s.lq[k := None]
    ensures forall i, x :: 0 <= i < |t.sq| && !t.sq[i].fetchIssued && 0 <= x < |t.sq[i].dependents| ==>
              WaitsFor(t.lq, t.sq[i].dependents[x], t.sq[i].id)
  {
    hide LoadsOf, PendingOf, WaitSlots, Sent, AllStores, RobOk, Balanced, LoadOk, StoreOk;
    forall i, x | 0 <= i < |t.sq| && !t.sq[i].fetchIssued && 0 <= x < |t.sq[i].dependents|
      ensures WaitsFor(t.lq, t.sq[i].dependents[x], t.sq[i].id)
    {
      var d := t.sq[i].dependents[x];
      assert WaitsFor(s.lq, d, s.sq[i].id);
      WaitSlotsHas(s.sq, i, d);
      assert multiset(s.sq[i].dependents)[d] >= 1;
      assert NamedOnce(s, if IsWaiting(s.lq, k) then loose + multiset{k} else loose, d);
    }
  }

  // ---------- Dispatch ----------

  /** The scan returns the youngest store to the address, if there is one, and the oldest of that instruction. */
  lemma {:induction false} MaxElementIsYoungest(sq: seq<Store>, addr: nat, best: nat, i: nat)
    requires best < i <= |sq|
    requires sq[best].addr != addr ==> forall j :: 0 <= j < i ==> sq[j].addr != addr
    requires sq[best].addr == addr ==>
               forall j :: 0 <= j < i && sq[j].addr == addr ==>
                 sq[j].id <= sq[best].id && (j < best ==> sq[j].id < sq[best].id)
    ensures var k := MaxElement(sq, addr, best, i);
      && (sq[k].addr == addr <==> exists j :: 0 <= j < |sq| && sq[j].addr == addr)
      && (sq[k].addr == addr ==>
            forall j :: 0 <= j < |sq| && sq[j].addr == addr ==>
              sq[j].id <= sq[k].id && (j < k ==> sq[j].id < sq[k].id))
    decreases |sq| - i
  {
    if i < |sq| {
      MaxElementIsYoungest(sq, addr, if Beaten(sq[best], sq[i], addr) then i else best, i + 1);
    }
  }

  lemma {:induction false} FreeSlotExists(lq: seq<Option<Load>>)
    requires FreeSlots(lq) > 0
    ensures FirstFree(lq) < |lq|
  {
    if lq[0].Some? {
      FreeSlotExists(lq[1..]);
    }
  }

  lemma {:induction false} FillingTakesOne(lq: seq<Option<Load>>, k: nat, l: Option<Load>)
    requires k < |lq| && lq[k].None?
    ensures FreeSlots(lq[k := l]) >= FreeSlots(lq) - 1
  {
    if k == 0 {
      assert lq[k := l][1..] == lq[1..];
    } else {
      assert lq[k := l][1..] == lq[1..][k - 1 := l];
      FillingTakesOne(lq[1..], k - 1, l);
    }
  }

  /** A new load in a free slot, waiting for sq[k] when `k` is a position in the store queue. */
  ghost predicate Enqueued(s: State, slot: nat, l: Load, k: nat, t: State) {
    && |s.rob| > 0 && slot < |s.lq| && s.lq[slot].None?
    && l.id == s.rob[|s.rob| - 1].id && l.ready.None? && !l.fetchIssued
    && k <= |s.sq| && (k < |s.sq| ==> !s.sq[k].fetchIssued && s.sq[k].id < l.id)
    && l.producer == (if k < |s.sq| then Some(s.sq[k].id) else None)
    && t == s.(lq := s.lq[slot := Some(l)],
               sq := if k < |s.sq| then s.sq[k := s.sq[k].(dependents := s.sq[k].dependents + [slot])] else s.sq)
  }

  lemma EnqueueKeepsCounts(u: Setup, s: State, owed: nat, m: nat, slot: nat, l: Load, k: nat, t: State, left: nat)
    requires Inv(u, s, owed, m, multiset{}) && owed == left + 1 && Enqueued(s, slot, l, k, t)
    ensures forall j :: 0 <= j < |t.rob| ==> RobOk(u, t, j)
    ensures forall j :: 0 <= j < |t.rob| ==> Balanced(t, left, j)
    ensures forall i :: 0 <= i < |t.lq| && t.lq[i].Some? ==> LoadOk(t, t.lq[i].value)
    ensures forall i :: 0 <= i < |t.sq| ==> StoreOk(t, t.sq[i])
  {
    hide LoadsOf, PendingOf, WaitSlots, AllStores, Sent, NamedOnce, WaitsFor, InOrder;
    assert RobOk(u, s, |s.rob| - 1);
    forall j | 0 <= j < |t.rob| ensures RobOk(u, t, j) && Balanced(t, left, j) {
      assert RobOk(u, s, j) && Balanced(s, owed, j);
      LoadsUpdate(s.lq, slot, Some(l), s.rob[j].id);
      if k < |s.sq| {
        PendingUpdate(s.sq, k, t.sq[k], s.rob[j].id);
      }
    }
    forall i | 0 <= i < |t.lq| && t.lq[i].Some? ensures LoadOk(t, t.lq[i].value) {
      if i != slot {
        assert LoadOk(s, s.lq[i].value);
      }
    }
    forall i | 0 <= i < |t.sq| ensures StoreOk(t, t.sq[i]) {
      assert StoreOk(s, s.sq[i]);
    }
  }

  lemma EnqueueKeepsNames(u: Setup, s: State, owed: nat, m: nat, slot: nat, l: Load, k: nat, t: State)
    requires Inv(u, s, owed, m, multiset{}) && Enqueued(s, slot, l, k, t)
    ensures forall d: nat :: NamedOnce(t, multiset{}, d)
  {
    hide LoadsOf, PendingOf, WaitSlots, AllStores, Sent, WaitsFor, InOrder, RobOk, Balanced, LoadOk, StoreOk;
    if k < |s.sq| {
      WaitSlotsUpdate(s.sq, k, t.sq[k]);
      assert Names(t.sq[k]) == Names(s.sq[k]) + multiset{slot};
      Cancel(WaitSlots(t.sq), WaitSlots(s.sq), Names(s.sq[k]), multiset{slot});
    }
    forall d: nat ensures NamedOnce(t, multiset{}, d) {
      assert NamedOnce(s, multiset{}, d);
    }
  }

  lemma EnqueueKeeps(u: Setup, s: State, owed: nat, m: nat, slot: nat, l: Load, k: nat, t: State)
    requires Inv(u, s, owed, m, multiset{}) && owed > 0 && Enqueued(s, slot, l, k, t)
    ensures Inv(u, t, owed - 1, m, multiset{})
  {
    hide LoadsOf, PendingOf, WaitSlots, AllStores, RobOk, Balanced, LoadOk, StoreOk, NamedOnce;
    EnqueueKeepsCounts(u, s, owed, m, slot, l, k, t, owed - 1);
    EnqueueKeepsNames(u, s, owed, m, slot, l, k, t);
    assert Sent(t.sq) == Sent(s.sq);
    forall i, x | 0 <= i < |t.sq| && !t.sq[i].fetchIssued && 0 <= x < |t.sq[i].dependents|
      ensures WaitsFor(t.lq, t.sq[i].dependents[x], t.sq[i].id)
    {
      if x < |s.sq[i].dependents| {
        assert WaitsFor(s.lq, s.sq[i].dependents[x], s.sq[i].id);
      }
    }
  }

  /** A load forwarded from an issued store is finished at once. */
  lemma ForwardKeeps(u: Setup, s: State, owed: nat, m: nat, id: nat)
    requires Inv(u, s, owed, m, multiset{}) && owed > 0 && |s.rob| > 0 && id == s.rob[|s.rob| - 1].id
    ensures Finish(s, id).Running? && Inv(u, Finish(s, id).state, owed - 1, m, multiset{})
  {
    hide LoadsOf, PendingOf, WaitSlots, Sent, AllStores, Finish;
    var last, left := |s.rob| - 1, owed - 1;
    assert RobOk(u, s, last) && Balanced(s, owed, last);
    FinishRuns(u, s, id);
    var t := Finish(s, id).state;
    forall j | 0 <= j < |t.rob| ensures RobOk(u, t, j) && Balanced(t, left, j) {
      assert RobOk(u, s, j) && Balanced(s, owed, j);
    }
    forall i | 0 <= i < |t.lq| && t.lq[i].Some? ensures LoadOk(t, t.lq[i].value) {
      assert LoadOk(s, s.lq[i].value);
    }
    forall i | 0 <= i < |t.sq| ensures StoreOk(t, t.sq[i]) {
      assert StoreOk(s, s.sq[i]);
    }
    forall d: nat ensures NamedOnce(t, multiset{}, d) {
      assert NamedOnce(s, multiset{}, d);
    }
    forall i, x | 0 <= i < |t.sq| && !t.sq[i].fetchIssued && 0 <= x < |t.sq[i].dependents|
      ensures WaitsFor(t.lq, t.sq[i].dependents[x], t.sq[i].id)
    {
      assert WaitsFor(s.lq, s.sq[i].dependents[x], s.sq[i].id);
    }
    assert t.sq == s.sq && t.written == s.written;
  }

  lemma DispatchLoadRuns(u: Setup, s: State, owed: nat, m: nat, id: nat, addr: nat)
    requires Inv(u, s, owed, m, multiset{}) && owed > 0 && |s.rob| > 0 && id == s.rob[|s.rob| - 1].id
    requires FreeSlots(s.lq) > 0 && m == s.retired + |s.rob| - 1
    requires forall k :: 0 <= k < |s.sq| ==> s.sq[k].id < id
    ensures var o := DispatchLoad(s, id, addr);
      && o.Running? && Inv(u, o.state, owed - 1, m, multiset{})
      && FreeSlots(o.state.lq) >= FreeSlots(s.lq) - 1 && |o.state.lq| == |s.lq|
      && |o.state.rob| == |s.rob| && o.state.retired == s.retired && o.state.rob[|s.rob| - 1].id == id
      && |o.state.sq| == |s.sq| && (forall k :: 0 <= k < |s.sq| ==> o.state.sq[k].id == s.sq[k].id)
  {
    hide Inv, Finish, FirstFree, FreeSlots;
    var slot := FirstFree(s.lq);
    FreeSlotExists(s.lq);
    var load := Load(addr, id, None, false, None);
    var o := DispatchLoad(s, id, addr);
    if |s.sq| > 0 && s.sq[MaxElement(s.sq, addr, 0, 1)].addr == addr {
      var k := MaxElement(s.sq, addr, 0, 1);
      if s.sq[k].fetchIssued {
        ForwardKeeps(u, s, owed, m, id);
        ForwardShape(u, s, owed, m, id);
      } else {
        FillingTakesOne(s.lq, slot, Some(load.(producer := Some(s.sq[k].id))));
        EnqueueKeeps(u, s, owed, m, slot, load.(producer := Some(s.sq[k].id)), k, o.state);
      }
    } else {
      FillingTakesOne(s.lq, slot, Some(load));
      EnqueueKeeps(u, s, owed, m, slot, load, |s.sq|, o.state);
    }
  }

  lemma ForwardShape(u: Setup, s: State, owed: nat, m: nat, id: nat)
    requires Inv(u, s, owed, m, multiset{}) && owed > 0 && |s.rob| > 0 && id == s.rob[|s.rob| - 1].id
    requires Finish(s, id).Running?
    ensures var t := Finish(s, id).state;
      |t.rob| == |s.rob| && t.rob[|s.rob| - 1].id == id && t == s.(rob := t.rob)
  {
  }

  lemma {:induction false} DispatchLoadsRun(u: Setup, s: State, owed: nat, m: nat, id: nat, addrs: seq<nat>)
    requires Inv(u, s, owed, m, multiset{}) && owed >= |addrs| && |s.rob| > 0 && id == s.rob[|s.rob| - 1].id
    requires FreeSlots(s.lq) >= |addrs| && m == s.retired + |s.rob| - 1
    requires forall k :: 0 <= k < |s.sq| ==> s.sq[k].id < id
    ensures var o := DispatchLoads(s, id, addrs);
      && o.Running? && Inv(u, o.state, owed - |addrs|, m, multiset{})
      && |o.state.rob| == |s.rob| && o.state.retired == s.retired && o.state.rob[|s.rob| - 1].id == id
      && |o.state.sq| == |s.sq| && (forall k :: 0 <= k < |s.sq| ==> o.state.sq[k].id == s.sq[k].id)
    decreases |addrs|
  {
    hide Inv, DispatchLoad, FreeSlots;
    if |addrs| > 0 {
      DispatchLoadRuns(u, s, owed, m, id, addrs[0]);
      DispatchLoadsRun(u, DispatchLoad(s, id, addrs[0]).state, owed - 1, m, id, addrs[1..]);
    }
  }

  /** A new entry at the end of the reorder buffer owes all its memory operations. */
  lemma NewEntryKeeps(u: Setup, s: State, t: State)
    requires Good(u, s) && s.retired + |s.rob| < |u.code|
    requires var id := s.retired + |s.rob|; t == s.(rob := s.rob + [Entry(id, u.code[id], false, false, 0)])
    ensures Inv(u, t, Operations(u.code[s.retired + |s.rob|]), s.retired + |s.rob|, multiset{})
  {
    hide LoadsOf, PendingOf, WaitSlots, Sent, AllStores;
    var id := s.retired + |s.rob|;
    var owed := Operations(u.code[id]);
    NoneYet(u, s, id);
    forall j | 0 <= j < |t.rob| ensures RobOk(u, t, j) && Balanced(t, owed, j) {
      if j < |s.rob| {
        assert RobOk(u, s, j) && Balanced(s, 0, j);
      }
    }
    forall i | 0 <= i < |t.lq| && t.lq[i].Some? ensures LoadOk(t, t.lq[i].value) {
      assert LoadOk(s, s.lq[i].value);
    }
    forall i | 0 <= i < |t.sq| ensures StoreOk(t, t.sq[i]) {
      assert StoreOk(s, s.sq[i]);
    }
    forall d: nat ensures NamedOnce(t, multiset{}, d) {
      assert NamedOnce(s, multiset{}, d);
    }
  }

  lemma NoneYet(u: Setup, s: State, id: nat)
    requires Good(u, s) && id == s.retired + |s.rob|
    ensures LoadsOf(s.lq, id) == 0 && PendingOf(s.sq, id) == 0
  {
    hide WaitSlots, Sent, AllStores, NamedOnce, InOrder;
    forall i | 0 <= i < |s.lq| ensures Owns(s.lq[i], id) == 0 {
      assert s.lq[i].Some? ==> LoadOk(s, s.lq[i].value);
    }
    forall i | 0 <= i < |s.sq| ensures Pends(s.sq[i], id) == 0 {
      assert StoreOk(s, s.sq[i]);
    }
    NoLoads(s.lq, id);
    NoStores(s.sq, id);
  }

  lemma {:induction false} NoLoads(lq: seq<Option<Load>>, id: nat)
    requires forall i :: 0 <= i < |lq| ==> Owns(lq[i], id) == 0
    ensures LoadsOf(lq, id) == 0
  {
    if |lq| > 0 {
      assert Owns(lq[0], id) == 0;
      NoLoads(lq[1..], id);
    }
  }

  lemma {:induction false} NoStores(sq: seq<Store>, id: nat)
    requires forall i :: 0 <= i < |sq| ==> Pends(sq[i], id) == 0
    ensures PendingOf(sq, id) == 0
  {
    if |sq| > 0 {
      assert Pends(sq[0], id) == 0;
      NoStores(sq[1..], id);
    }
  }

  lemma StoresJoinQueue(u: Setup, s: State, inst: Inst, t: State)
    requires |s.rob| > 0
    requires var id := s.retired + |s.rob| - 1; Inv(u, s, |inst.stores|, id, multiset{}) && inst == u.code[id]
    requires forall k :: 0 <= k < |s.sq| ==> s.sq[k].id < s.retired + |s.rob| - 1
    requires t == s.(sq := s.sq + NewStores(s.retired + |s.rob| - 1, inst.stores))
    ensures Good(u, t)
  {
    hide LoadsOf, PendingOf, WaitSlots;
    var id := s.retired + |s.rob| - 1;
    forall j | 0 <= j < |t.rob| ensures RobOk(u, t, j) && Balanced(t, 0, j) {
      assert RobOk(u, s, j) && Balanced(s, |inst.stores|, j);
      NewStoresCount(s.sq, id, inst.stores, s.rob[j].id);
    }
    NewStoresCount(s.sq, id, inst.stores, id);
    forall i | 0 <= i < |t.lq| && t.lq[i].Some? ensures LoadOk(t, t.lq[i].value) {
      assert LoadOk(s, s.lq[i].value);
    }
    forall i | 0 <= i < |t.sq| ensures StoreOk(t, t.sq[i]) {
      if i < |s.sq| {
        assert StoreOk(s, s.sq[i]);
      }
    }
    forall d: nat ensures NamedOnce(t, multiset{}, d) {
      assert NamedOnce(s, multiset{}, d);
    }
    forall i, x | 0 <= i < |t.sq| && !t.sq[i].fetchIssued && 0 <= x < |t.sq[i].dependents|
      ensures WaitsFor(t.lq, t.sq[i].dependents[x], t.sq[i].id)
    {
      assert t.sq[i] == s.sq[i];
    }
    assert Sent(t.sq) == Sent(s.sq) + Sent(NewStores(id, inst.stores));
    assert t.written + Sent(t.sq) == (s.written + Sent(s.sq)) + Sent(NewStores(id, inst.stores));
  }

  lemma DispatchRuns(u: Setup, s: State)
    requires Good(u, s) && CanDispatch(u, s)
    ensures Dispatch(u, s).Running? && Good(u, Dispatch(u, s).state)
  {
    hide Inv, DispatchLoads, FreeSlots;
    var id := s.retired + |s.rob|;
    var inst := u.code[id];
    var t := s.(rob := s.rob + [Entry(id, inst, false, false, 0)]);
    NewEntryKeeps(u, s, t);
    StoresAreOlder(u, s);
    DispatchLoadsRun(u, t, Operations(inst), id, id, inst.loads);
    var v := DispatchLoads(t, id, inst.loads).state;
    StoresJoinQueue(u, v, inst, Dispatch(u, s).state);
  }

  lemma StoresAreOlder(u: Setup, s: State)
    requires Good(u, s)
    ensures forall k :: 0 <= k < |s.sq| ==> s.sq[k].id < s.retired + |s.rob|
  {
    assert forall k :: 0 <= k < |s.sq| ==> StoreOk(s, s.sq[k]);
  }

  // ---------- Issued stores ----------

  lemma {:induction false} ReleaseIgnoresStores(s: State, q: seq<Store>, id: nat, slots: seq<nat>)
    ensures Release(s.(sq := q), id, slots).Running? <==> Release(s, id, slots).Running?
    ensures Release(s, id, slots).Running? ==>
              Release(s.(sq := q), id, slots).state == Release(s, id, slots).state.(sq := q)
    decreases |slots|
  {
    if |slots| > 0 && slots[0] < |s.lq| && s.lq[slots[0]].Some? {
      var load := s.lq[slots[0]].value;
      if Finish(s, load.id).Running? {
        var t := Finish(s, load.id).state;
        assert Finish(s.(sq := q), load.id) == Running(t.(sq := q));
        ReleaseIgnoresStores(t.(lq := t.lq[slots[0] := None]), q, id, slots[1..]);
        assert t.(lq := t.lq[slots[0] := None]).(sq := q) == t.(sq := q).(lq := t.lq[slots[0] := None]);
      }
    }
  }

  lemma {:induction false} ReleaseRuns(u: Setup, s: State, m: nat, id: nat, slots: seq<nat>)
    requires Inv(u, s, 0, m, multiset(slots))
    requires forall x :: 0 <= x < |slots| ==> WaitsFor(s.lq, slots[x], id)
    ensures Release(s, id, slots).Running? && Inv(u, Release(s, id, slots).state, 0, m, multiset{})
    ensures Release(s, id, slots).state.retired == s.retired
    ensures |Release(s, id, slots).state.rob| == |s.rob|
    decreases |slots|
  {
    hide Inv, Finish;
    if |slots| == 0 {
      assert multiset(slots) == multiset{};
    } else {
      var d := slots[0];
      assert WaitsFor(s.lq, d, id);
      assert slots == [d] + slots[1..];
      assert multiset(slots) == multiset(slots[1..]) + multiset{d};
      LoadFinishes(u, s, 0, m, multiset(slots[1..]), d);
      FinishKeepsLength(s, s.lq[d].value.id);
      var t := Finish(s, s.lq[d].value.id).state.(lq := s.lq[d := None]);
      forall x | 0 <= x < |slots[1..]| ensures WaitsFor(t.lq, slots[1..][x], id) {
        assert WaitsFor(s.lq, slots[x + 1], id);
        NamedTwice(u, s, m, slots, x + 1);
      }
      ReleaseRuns(u, t, m, id, slots[1..]);
    }
  }

  lemma FinishKeepsLength(s: State, id: nat)
    ensures Finish(s, id).Running? ==> |Finish(s, id).state.rob| == |s.rob|
  {
  }

  lemma NamedTwice(u: Setup, s: State, m: nat, slots: seq<nat>, x: nat)
    requires Inv(u, s, 0, m, multiset(slots)) && 0 < x < |slots|
    ensures slots[x] != slots[0]
  {
    assert NamedOnce(s, multiset(slots), slots[0]);
    assert slots == [slots[0]] + slots[1..];
    assert multiset(slots) == multiset{slots[0]} + multiset(slots[1..]);
    assert slots[1..][x - 1] == slots[x];
    assert multiset(slots[1..])[slots[x]] >= 1;
  }

  /** The store is issued: its operation is done, and the slots waiting for it are to be released. */
  lemma IssueKeeps(u: Setup, s: State, k: nat, t: State)
    requires Good(u, s) && k == FirstUnissued(s.sq) < |s.sq| && s.sq[k].ready.Some?
    requires Finish(s, s.sq[k].id).Running?
    requires t == Finish(s, s.sq[k].id).state.(sq := s.sq[k := s.sq[k].(fetchIssued := true, ready := Some(s.now))])
    requires s.rob[s.sq[k].id - s.retired].memoryDone < Operations(s.rob[s.sq[k].id - s.retired].inst)
    ensures Inv(u, t, 0, s.retired + |s.rob|, multiset(s.sq[k].dependents))
    ensures t.retired == s.retired && |t.rob| == |s.rob|
    ensures forall x :: 0 <= x < |s.sq[k].dependents| ==> WaitsFor(t.lq, s.sq[k].dependents[x], s.sq[k].id)
  {
    hide LoadsOf, PendingOf, WaitSlots, AllStores, Finish, FirstUnissued;
    var id := s.sq[k].id;
    assert StoreOk(s, s.sq[k]);
    FinishRuns(u, s, id);
    assert Sent(t.sq) == Sent(s.sq);
    WaitSlotsUpdate(s.sq, k, t.sq[k]);
    forall j | 0 <= j < |t.rob| ensures RobOk(u, t, j) && Balanced(t, 0, j) {
      assert RobOk(u, s, j) && Balanced(s, 0, j);
      PendingUpdate(s.sq, k, t.sq[k], s.rob[j].id);
    }
    forall i | 0 <= i < |t.lq| && t.lq[i].Some? ensures LoadOk(t, t.lq[i].value) {
      assert LoadOk(s, s.lq[i].value);
    }
    forall i | 0 <= i < |t.sq| ensures StoreOk(t, t.sq[i]) {
      assert StoreOk(s, s.sq[i]);
    }
    assert WaitSlots(t.sq) + multiset(s.sq[k].dependents) == WaitSlots(s.sq);
    forall d: nat ensures NamedOnce(t, multiset(s.sq[k].dependents), d) {
      assert NamedOnce(s, multiset{}, d);
      assert (WaitSlots(t.sq) + multiset(s.sq[k].dependents))[d] == WaitSlots(s.sq)[d];
    }
    forall i, x | 0 <= i < |t.sq| && !t.sq[i].fetchIssued && 0 <= x < |t.sq[i].dependents|
      ensures WaitsFor(t.lq, t.sq[i].dependents[x], t.sq[i].id)
    {
      assert WaitsFor(s.lq, s.sq[i].dependents[x], s.sq[i].id);
    }
  }

  lemma StoreIsOwed(u: Setup, s: State, k: nat)
    requires Good(u, s) && k < |s.sq| && !s.sq[k].fetchIssued
    ensures InRob(s, s.sq[k].id)
    ensures s.rob[s.sq[k].id - s.retired].memoryDone < Operations(s.rob[s.sq[k].id - s.retired].inst)
    ensures Finish(s, s.sq[k].id).Running?
  {
    hide LoadsOf, PendingOf, WaitSlots, AllStores, Finish;
    assert StoreOk(s, s.sq[k]);
    var j := s.sq[k].id - s.retired;
    assert RobOk(u, s, j) && Balanced(s, 0, j);
    PendingUpdate(s.sq, k, s.sq[k], s.sq[k].id);
    FinishRuns(u, s, s.sq[k].id);
  }

  lemma FinishStoreRuns(u: Setup, s: State, k: nat)
    requires Good(u, s) && k == FirstUnissued(s.sq) < |s.sq| && s.sq[k].ready.Some?
    ensures FinishStore(s, k).Running? && Good(u, FinishStore(s, k).state)
    ensures var t := FinishStore(s, k).state; |t.sq| == |s.sq| && FirstUnissued(t.sq) >= k + 1
    ensures FinishStore(s, k).state.sq == s.sq[k := s.sq[k].(fetchIssued := true, ready := Some(s.now))]
  {
    hide Inv, Finish, Release, FirstUnissued;
    var store := s.sq[k];
    var q := s.sq[k := store.(fetchIssued := true, ready := Some(s.now))];
    StoreIsOwed(u, s, k);
    var f := Finish(s, store.id).state;
    IssueKeeps(u, s, k, f.(sq := q));
    ReleaseRuns(u, f.(sq := q), s.retired + |s.rob|, store.id, store.dependents);
    ReleaseIgnoresStores(f, q, store.id, store.dependents);
    UnissuedMovesOn(s.sq, k, q);
  }

  lemma UnissuedMovesOn(sq: seq<Store>, k: nat, q: seq<Store>)
    requires k == FirstUnissued(sq) < |sq| == |q| && q[k].fetchIssued && forall i :: 0 <= i < k ==> q[i] == sq[i]
    ensures FirstUnissued(q) >= k + 1
  {
    assert forall i :: 0 <= i <= k ==> q[i].fetchIssued;
  }

  /** Past the first unissued store all are unissued, so the loop always stands at the first unissued one. */
  lemma {:induction false} FinishStoresRuns(u: Setup, s: State, k: nat, bw: nat)
    requires Good(u, s) && (k == FirstUnissued(s.sq) || k >= |s.sq|)
    ensures FinishStores(s, k, bw).Running? && Good(u, FinishStores(s, k, bw).state)
    decreases bw
  {
    hide Inv, FinishStore, FirstUnissued;
    if k < |s.sq| && bw > 0 && !s.sq[k].fetchIssued && IsReady(s.sq[k].ready, s.now) {
      FinishStoreRuns(u, s, k);
      var t := FinishStore(s, k).state;
      if k + 1 < |t.sq| {
        NextIsUnissued(u, s, k, t);
      }
      FinishStoresRuns(u, t, k + 1, bw - 1);
    }
  }

  lemma NextIsUnissued(u: Setup, s: State, k: nat, t: State)
    requires Good(u, s) && k == FirstUnissued(s.sq) && k + 1 < |s.sq| == |t.sq| && t.sq[k + 1] == s.sq[k + 1]
    requires FirstUnissued(t.sq) >= k + 1
    ensures FirstUnissued(t.sq) == k + 1
  {
    assert InOrder(s.sq);
    assert !s.sq[k + 1].fetchIssued;
  }

  /** A store leaves for the L1D only when it has been issued and its instruction has retired. */
  lemma WritableIsDone(u: Setup, s: State)
    requires Good(u, s) && CanWrite(s)
    ensures s.sq[0].fetchIssued && s.sq[0].id < s.retired
  {
    assert StoreOk(s, s.sq[0]);
    if |s.rob| > 0 {
      assert RobOk(u, s, 0);
    }
  }

  lemma WriteKeeps(u: Setup, s: State, t: State)
    requires Good(u, s) && CanWrite(s)
    requires t == s.(sq := s.sq[1..], written := s.written + [Written(s.sq[0].id, s.sq[0].addr)])
    ensures Good(u, t)
  {
    hide LoadsOf, AllStores;
    WritableIsDone(u, s);
    forall j | 0 <= j < |t.rob| ensures RobOk(u, t, j) && Balanced(t, 0, j) {
      assert RobOk(u, s, j) && Balanced(s, 0, j);
    }
    forall i | 0 <= i < |t.lq| && t.lq[i].Some? ensures LoadOk(t, t.lq[i].value) {
      assert LoadOk(s, s.lq[i].value);
    }
    forall i | 0 <= i < |t.sq| ensures StoreOk(t, t.sq[i]) {
      assert StoreOk(s, s.sq[i + 1]);
    }
    forall d: nat ensures NamedOnce(t, multiset{}, d) {
      assert NamedOnce(s, multiset{}, d);
    }
    forall i, x | 0 <= i < |t.sq| && !t.sq[i].fetchIssued && 0 <= x < |t.sq[i].dependents|
      ensures WaitsFor(t.lq, t.sq[i].dependents[x], t.sq[i].id)
    {
      assert WaitsFor(s.lq, s.sq[i + 1].dependents[x], s.sq[i + 1].id);
    }
    assert Sent(s.sq) == [Written(s.sq[0].id, s.sq[0].addr)] + Sent(t.sq);
    assert t.written + Sent(t.sq) == s.written + Sent(s.sq);
  }

  lemma {:induction false} WriteStoresKeeps(u: Setup, s: State, bw: nat, accepted: nat)
    requires Good(u, s)
    ensures Good(u, WriteStores(s, bw, accepted))
    decreases bw
  {
    hide Inv;
    if bw > 0 && accepted > 0 && CanWrite(s) {
      var t := s.(sq := s.sq[1..], written := s.written + [Written(s.sq[0].id, s.sq[0].addr)]);
      WriteKeeps(u, s, t);
      WriteStoresKeeps(u, t, bw - 1, accepted - 1);
    }
  }

  // ---------- Loads ----------

  lemma IssueLoadKeeps(u: Setup, s: State, k: nat, t: State)
    requires Good(u, s) && k < |s.lq| && CanIssueLoad(s, k)
    requires t == s.(lq := s.lq[k := Some(s.lq[k].value.(fetchIssued := true))])
    ensures Good(u, t)
  {
    hide LoadsOf, PendingOf, WaitSlots, Sent, AllStores;
    assert LoadOk(s, s.lq[k].value);
    forall j | 0 <= j < |t.rob| ensures RobOk(u, t, j) && Balanced(t, 0, j) {
      assert RobOk(u, s, j) && Balanced(s, 0, j);
      LoadsUpdate(s.lq, k, t.lq[k], s.rob[j].id);
    }
    forall i | 0 <= i < |t.lq| && t.lq[i].Some? ensures LoadOk(t, t.lq[i].value) {
      assert LoadOk(s, s.lq[i].value);
    }
    forall i | 0 <= i < |t.sq| ensures StoreOk(t, t.sq[i]) {
      assert StoreOk(s, s.sq[i]);
    }
    forall d: nat ensures NamedOnce(t, multiset{}, d) {
      assert NamedOnce(s, multiset{}, d);
    }
    forall i, x | 0 <= i < |t.sq| && !t.sq[i].fetchIssued && 0 <= x < |t.sq[i].dependents|
      ensures WaitsFor(t.lq, t.sq[i].dependents[x], t.sq[i].id)
    {
      assert WaitsFor(s.lq, s.sq[i].dependents[x], s.sq[i].id);
    }
  }

  lemma {:induction false} IssueLoadsKeeps(u: Setup, s: State, k: nat, bw: nat, accepted: set<nat>)
    requires Good(u, s)
    ensures Good(u, IssueLoads(s, k, bw, accepted))
    decreases |s.lq| - k
  {
    hide Inv;
    if k < |s.lq| && bw > 0 {
      if CanIssueLoad(s, k) && k in accepted {
        var t := s.(lq := s.lq[k := Some(s.lq[k].value.(fetchIssued := true))]);
        IssueLoadKeeps(u, s, k, t);
        IssueLoadsKeeps(u, t, k + 1, bw - 1, accepted);
      } else {
        IssueLoadsKeeps(u, s, k + 1, bw, accepted);
      }
    }
  }

  lemma {:induction false} ReturnRuns(u: Setup, s: State, m: nat, block: nat, k: nat)
    requires Inv(u, s, 0, m, multiset{})
    ensures Return(u, s, block, k).Running? && Inv(u, Return(u, s, block, k).state, 0, m, multiset{})
    ensures Return(u, s, block, k).state.retired == s.retired && |Return(u, s, block, k).state.rob| == |s.rob|
    decreases |s.lq| - k
  {
    hide Inv, Finish;
    if k < |s.lq| {
      if s.lq[k].Some? && s.lq[k].value.fetchIssued && u.block(s.lq[k].value.addr) == block {
        SentIsNotWaiting(u, s, m, k);
        LoadFinishes(u, s, 0, m, multiset{}, k);
        FinishKeepsLength(s, s.lq[k].value.id);
        ReturnRuns(u, Finish(s, s.lq[k].value.id).state.(lq := s.lq[k := None]), m, block, k + 1);
      } else {
        ReturnRuns(u, s, m, block, k + 1);
      }
    }
  }

  lemma SentIsNotWaiting(u: Setup, s: State, m: nat, k: nat)
    requires Inv(u, s, 0, m, multiset{}) && k < |s.lq| && s.lq[k].Some? && s.lq[k].value.fetchIssued
    ensures !IsWaiting(s.lq, k)
  {
    assert LoadOk(s, s.lq[k].value);
  }

  // ---------- Execution, completion, retirement ----------

  lemma ExecuteKeeps(u: Setup, s: State, j: nat, ready: nat)
    requires Good(u, s) && j < |s.rob|
    ensures Good(u, Execute(s, j, ready))
  {
    hide LoadsOf, PendingOf, WaitSlots, Sent, AllStores;
    var t := Execute(s, j, ready);
    assert RobOk(u, s, j);
    forall i | 0 <= i < |s.sq| ensures SameStore(s.sq[i], t.sq[i]) {
    }
    StoresCongruent(s.sq, t.sq, 0);
    forall i | 0 <= i < |t.rob| ensures RobOk(u, t, i) && Balanced(t, 0, i) {
      assert RobOk(u, s, i) && Balanced(s, 0, i);
      StoresCongruent(s.sq, t.sq, s.rob[i].id);
      LoadsCongruent(s.lq, t.lq, s.rob[i].id);
    }
    forall i | 0 <= i < |t.lq| && t.lq[i].Some? ensures LoadOk(t, t.lq[i].value) {
      assert LoadOk(s, s.lq[i].value);
    }
    forall i | 0 <= i < |t.sq| ensures StoreOk(t, t.sq[i]) {
      assert StoreOk(s, s.sq[i]);
    }
    forall d: nat ensures NamedOnce(t, multiset{}, d) {
      assert NamedOnce(s, multiset{}, d);
    }
    forall i, x | 0 <= i < |t.sq| && !t.sq[i].fetchIssued && 0 <= x < |t.sq[i].dependents|
      ensures WaitsFor(t.lq, t.sq[i].dependents[x], t.sq[i].id)
    {
      assert WaitsFor(s.lq, s.sq[i].dependents[x], s.sq[i].id);
    }
  }

  lemma CompleteKeeps(u: Setup, s: State, j: nat)
    requires Good(u, s) && Enabled(u, s, Completing(j))
    ensures Good(u, Complete(s, j))
  {
    hide LoadsOf, PendingOf, WaitSlots, Sent, AllStores;
    var t := Complete(s, j);
    forall i | 0 <= i < |t.rob| ensures RobOk(u, t, i) && Balanced(t, 0, i) {
      assert RobOk(u, s, i) && Balanced(s, 0, i);
    }
    forall i | 0 <= i < |t.lq| && t.lq[i].Some? ensures LoadOk(t, t.lq[i].value) {
      assert LoadOk(s, s.lq[i].value);
    }
    forall i | 0 <= i < |t.sq| ensures StoreOk(t, t.sq[i]) {
      assert StoreOk(s, s.sq[i]);
    }
    forall d: nat ensures NamedOnce(t, multiset{}, d) {
      assert NamedOnce(s, multiset{}, d);
    }
  }

  /** What retires has executed, and has nothing left in either queue but issued stores. */
  lemma RetiringIsDone(u: Setup, s: State)
    requires Good(u, s) && Enabled(u, s, Retiring)
    ensures s.rob[0].executed && s.rob[0].memoryDone == Operations(s.rob[0].inst)
    ensures forall k :: 0 <= k < |s.lq| && s.lq[k].Some? ==> s.lq[k].value.id != s.rob[0].id
    ensures forall k :: 0 <= k < |s.sq| && s.sq[k].id == s.rob[0].id ==> s.sq[k].fetchIssued
  {
    hide LoadsOf, PendingOf, WaitSlots, Sent, AllStores;
    assert RobOk(u, s, 0) && Balanced(s, 0, 0);
    forall k | 0 <= k < |s.lq| && s.lq[k].Some? ensures s.lq[k].value.id != s.rob[0].id {
      LoadsUpdate(s.lq, k, None, s.rob[0].id);
    }
    forall k | 0 <= k < |s.sq| && s.sq[k].id == s.rob[0].id ensures s.sq[k].fetchIssued {
      PendingUpdate(s.sq, k, s.sq[k], s.rob[0].id);
    }
  }

  lemma RetireKeeps(u: Setup, s: State)
    requires Good(u, s) && Enabled(u, s, Retiring)
    ensures Good(u, Retire(s))
  {
    hide LoadsOf, PendingOf, WaitSlots, Sent, AllStores;
    RetiringIsDone(u, s);
    var t := Retire(s);
    assert RobOk(u, s, 0);
    forall i | 0 <= i < |t.rob| ensures RobOk(u, t, i) && Balanced(t, 0, i) {
      assert RobOk(u, s, i + 1) && Balanced(s, 0, i + 1);
    }
    forall i | 0 <= i < |t.lq| && t.lq[i].Some? ensures LoadOk(t, t.lq[i].value) {
      assert LoadOk(s, s.lq[i].value);
    }
    forall i | 0 <= i < |t.sq| ensures StoreOk(t, t.sq[i]) {
      assert StoreOk(s, s.sq[i]);
    }
    forall d: nat ensures NamedOnce(t, multiset{}, d) {
      assert NamedOnce(s, multiset{}, d);
    }
  }

  lemma TimeKeeps(u: Setup, s: State, now: nat)
    requires Good(u, s)
    ensures Good(u, s.(now := now))
  {
    hide LoadsOf, PendingOf, WaitSlots, Sent, AllStores;
    var t := s.(now := now);
    forall i | 0 <= i < |t.rob| ensures RobOk(u, t, i) && Balanced(t, 0, i) {
      assert RobOk(u, s, i) && Balanced(s, 0, i);
    }
    forall i | 0 <= i < |t.lq| && t.lq[i].Some? ensures LoadOk(t, t.lq[i].value) {
      assert LoadOk(s, s.lq[i].value);
    }
    forall i | 0 <= i < |t.sq| ensures StoreOk(t, t.sq[i]) {
      assert StoreOk(s, s.sq[i]);
    }
    forall d: nat ensures NamedOnce(t, multiset{}, d) {
      assert NamedOnce(s, multiset{}, d);
    }
  }

  // ---------- Every run ----------

  lemma StepRuns(u: Setup, s: State, e: Event)
    requires Good(u, s) && Enabled(u, s, e)
    ensures Step(u, s, e).Running? && Good(u, Step(u, s, e).state)
  {
    hide Inv, Dispatch, FinishStores, WriteStores, IssueLoads, Return, CanDispatch;
    match e
    case Tick(elapsed) => TimeKeeps(u, s, s.now + elapsed);
    case Dispatching => DispatchRuns(u, s);
    case Executing(j, ready) => ExecuteKeeps(u, s, j, ready);
    case FinishingStores(bw) => FinishStoresRuns(u, s, FirstUnissued(s.sq), bw);
    case WritingStores(bw, room) => WriteStoresKeeps(u, s, bw, room);
    case IssuingLoads(bw, accepted) => IssueLoadsKeeps(u, s, 0, bw, accepted);
    case Returning(block) => ReturnRuns(u, s, s.retired + |s.rob|, block, 0);
    case Completing(j) => CompleteKeeps(u, s, j);
    case Retiring => RetireKeeps(u, s);
  }

  lemma {:induction false} RunRuns(u: Setup, s: State, events: seq<Event>)
    requires Good(u, s)
    ensures Run(u, s, events).Running? && Good(u, Run(u, s, events).state)
    decreases |events|
  {
    hide Good, Step, Enabled;
    if |events| > 0 {
      if Enabled(u, s, events[0]) {
        StepRuns(u, s, events[0]);
        RunRuns(u, Step(u, s, events[0]).state, events[1..]);
      } else {
        RunRuns(u, s, events[1..]);
      }
    }
  }

  lemma StartIsGood(u: Setup)
    ensures Good(u, Start(u))
  {
  }

  // ---------- Main results ----------

  /**
   * No assertion of the queues ever fails, and in every reachable state the operations done, the
   * loads in the queue and the stores not yet issued of each instruction make up all its operations.
   */
  lemma OperationsAreConserved(u: Setup, events: seq<Event>)
    ensures Run(u, Start(u), events).Running?
    ensures var s := Run(u, Start(u), events).state;
      forall j :: 0 <= j < |s.rob| ==>
        s.rob[j].memoryDone + LoadsOf(s.lq, s.rob[j].id) + PendingOf(s.sq, s.rob[j].id)
          == |s.rob[j].inst.loads| + |s.rob[j].inst.stores|
  {
    hide Run, LoadsOf, PendingOf, WaitSlots, Sent, AllStores;
    StartIsGood(u);
    RunRuns(u, Start(u), events);
    var s := Run(u, Start(u), events).state;
    forall j | 0 <= j < |s.rob|
      ensures s.rob[j].memoryDone + LoadsOf(s.lq, s.rob[j].id) + PendingOf(s.sq, s.rob[j].id)
           == |s.rob[j].inst.loads| + |s.rob[j].inst.stores|
    {
      assert Balanced(s, 0, j);
    }
  }

  /**
   * The stores sent to the L1D followed by those in the queue are all stores dispatched, in program
   * order; the ones sent belong to retired instructions.
   */
  lemma StoresReachMemoryInOrder(u: Setup, events: seq<Event>)
    ensures Run(u, Start(u), events).Running?
    ensures var s := Run(u, Start(u), events).state;
      && s.retired + |s.rob| <= |u.code|
      && s.written + Sent(s.sq) == AllStores(u.code, s.retired + |s.rob|)
      && (forall i :: 0 <= i < |s.written| ==> s.written[i].id < s.retired)
      && (CanWrite(s) ==> s.sq[0].fetchIssued && s.sq[0].id < s.retired)
      && (Enabled(u, s, Retiring) ==> s.rob[0].executed && s.rob[0].memoryDone == Operations(s.rob[0].inst))
  {
    hide Run, LoadsOf, PendingOf, WaitSlots, Sent, AllStores;
    StartIsGood(u);
    RunRuns(u, Start(u), events);
    var s := Run(u, Start(u), events).state;
    if CanWrite(s) {
      WritableIsDone(u, s);
    }
    if Enabled(u, s, Retiring) {
      RetiringIsDone(u, s);
    }
  }

  /** A load that waits for a store waits for one that is older and still to be issued, and that knows of it. */
  lemma WaitingLoadsAreKnown(u: Setup, events: seq<Event>, d: nat)
    ensures Run(u, Start(u), events).Running?
    ensures var s := Run(u, Start(u), events).state;
      IsWaiting(s.lq, d) ==>
        && s.lq[d].value.producer.value < s.lq[d].value.id
        && exists k :: 0 <= k < |s.sq| && !s.sq[k].fetchIssued && d in s.sq[k].dependents
                       && s.sq[k].id == s.lq[d].value.producer.value
  {
    hide Run, LoadsOf, PendingOf, WaitSlots, Sent, AllStores;
    StartIsGood(u);
    RunRuns(u, Start(u), events);
    var s := Run(u, Start(u), events).state;
    if IsWaiting(s.lq, d) {
      assert LoadOk(s, s.lq[d].value);
      assert NamedOnce(s, multiset{}, d);
      var k := NamedSomewhere(s.sq, d);
      var x :| 0 <= x < |s.sq[k].dependents| && s.sq[k].dependents[x] == d;
      assert WaitsFor(s.lq, s.sq[k].dependents[x], s.sq[k].id);
    }
  }

  lemma {:induction false} NamedSomewhere(sq: seq<Store>, d: nat) returns (k: nat)
    requires WaitSlots(sq)[d] > 0
    ensures k < |sq| && !sq[k].fetchIssued && d in sq[k].dependents
  {
    if Names(sq[0])[d] > 0 {
      k := 0;
    } else {
      k := NamedSomewhere(sq[1..], d);
      k := k + 1;
    }
  }
}
