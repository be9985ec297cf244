/**
 * Loads and older stores to the same address: a load is sent to the L1D only when no older store to
 * its address is queued, and otherwise waits for the youngest of them, or is forwarded from it.
 */
module LoadStoreOrder {
  import opened Collections
  import opened LoadStore
  import opened LoadStoreProof
  import opened LoadStoreProgress

  // ---------- One load at dispatch ----------

  /** The youngest store of the queue to an address. */
  predicate YoungestTo(sq: seq<Store>, addr: nat, k: nat) {
    k < |sq| && sq[k].addr == addr && forall j :: 0 <= j < |sq| && sq[j].addr == addr ==> sq[j].id <= sq[k].id
  }

  predicate NoneTo(sq: seq<Store>, addr: nat) {
    forall j :: 0 <= j < |sq| ==> sq[j].addr != addr
  }

  /** The new load is in a slot that was free, and waits for the store it names, if any. */
  predicate Queued(s: State, t: State, id: nat, addr: nat, producer: Option<nat>) {
    exists slot: nat :: slot < |s.lq| && s.lq[slot].None? && t.lq == s.lq[slot := Some(Load(addr, id, None, false, producer))]
  }

  /**
   * A load to whose address no store is queued joins the load queue; one that meets an issued store
   * is done at once; one that meets a store not issued waits for it.  The store is the youngest one.
   */
  lemma LoadMeetsYoungest(s: State, id: nat, addr: nat)
    requires DispatchLoad(s, id, addr).Running?
    ensures var t := DispatchLoad(s, id, addr).state;
      || (NoneTo(s.sq, addr) && Queued(s, t, id, addr, None) && t == s.(lq := t.lq))
      || exists k: nat :: YoungestTo(s.sq, addr, k) && Met(s, t, id, addr, k)
  {
    hide FirstFree, MaxElement;
    var slot := FirstFree(s.lq);
    var t := DispatchLoad(s, id, addr).state;
    if |s.sq| > 0 {
      MaxElementIsYoungest(s.sq, addr, 0, 1);
      var k := MaxElement(s.sq, addr, 0, 1);
      if s.sq[k].addr == addr {
        assert YoungestTo(s.sq, addr, k);
        assert Met(s, t, id, addr, k);
      }
    }
  }

  /** What meeting the store in slot `k` does. */
  predicate Met(s: State, t: State, id: nat, addr: nat, k: nat)
    requires k < |s.sq|
  {
    if s.sq[k].fetchIssued then Finish(s, id) == Running(t)
    else
      && Queued(s, t, id, addr, Some(s.sq[k].id)) && s.sq[k].id < id
      && exists slot: nat :: slot < |s.lq| && s.lq[slot].None? && slot < |t.lq| && t.lq[slot].Some?
           && t == s.(lq := t.lq, sq := s.sq[k := s.sq[k].(dependents := s.sq[k].dependents + [slot])])
  }

  // ---------- No load passes an older store ----------

  /** Every older store to the load's address is one the load waits for, or older than that. */
  predicate MayPass(sq: seq<Store>, l: Load) {
    forall k :: 0 <= k < |sq| && sq[k].addr == l.addr && sq[k].id < l.id ==>
      l.producer.Some? && sq[k].id <= l.producer.value
  }

  /** A load that a store is to release is for the store's address. */
  predicate Matches(s: State, k: nat, x: nat)
    requires k < |s.sq| && x < |s.sq[k].dependents|
  {
    var d := s.sq[k].dependents[x];
    !s.sq[k].fetchIssued && d < |s.lq| && s.lq[d].Some? ==> s.lq[d].value.addr == s.sq[k].addr
  }

  ghost predicate Passing(s: State) {
    && (forall d :: 0 <= d < |s.lq| && s.lq[d].Some? ==> MayPass(s.sq, s.lq[d].value))
    && (forall k: nat, x: nat :: k < |s.sq| && x < |s.sq[k].dependents| ==> Matches(s, k, x))
  }

  /** Loads leave or change in what does not matter here; stores leave from the front or are issued. */
  ghost predicate Drained(s: State, t: State, n: nat) {
    && |t.lq| == |s.lq| && n <= |s.sq| && |t.sq| == |s.sq| - n
    && (forall d :: 0 <= d < |s.lq| && t.lq[d].Some? ==> s.lq[d].Some? && SameLoad(s.lq[d].value, t.lq[d].value))
    && (forall k :: 0 <= k < |t.sq| ==> SameTarget(s.sq[k + n], t.sq[k]))
  }

  predicate SameLoad(a: Load, b: Load) {
    b.addr == a.addr && b.id == a.id && b.producer == a.producer
  }

  predicate SameTarget(a: Store, b: Store) {
    b.addr == a.addr && b.id == a.id && b.dependents == a.dependents && (a.fetchIssued ==> b.fetchIssued)
  }

  lemma DrainedPassing(s: State, t: State, n: nat)
    requires Passing(s) && Drained(s, t, n)
    ensures Passing(t)
  {
    forall d | 0 <= d < |t.lq| && t.lq[d].Some? ensures MayPass(t.sq, t.lq[d].value) {
      assert MayPass(s.sq, s.lq[d].value) && SameLoad(s.lq[d].value, t.lq[d].value);
      forall k | 0 <= k < |t.sq| && t.sq[k].addr == t.lq[d].value.addr && t.sq[k].id < t.lq[d].value.id
        ensures t.lq[d].value.producer.Some? && t.sq[k].id <= t.lq[d].value.producer.value
      {
        assert SameTarget(s.sq[k + n], t.sq[k]);
      }
    }
    forall k: nat, x: nat | k < |t.sq| && x < |t.sq[k].dependents| ensures Matches(t, k, x) {
      assert SameTarget(s.sq[k + n], t.sq[k]);
      assert Matches(s, k + n, x);
      var d := t.sq[k].dependents[x];
      assert d < |t.lq| && t.lq[d].Some? ==> SameLoad(s.lq[d].value, t.lq[d].value);
    }
  }

  // ---------- Dispatch ----------

  /** Stores still to be issued name no free slot. */
  ghost predicate NamesTaken(s: State) {
    forall k, x :: 0 <= k < |s.sq| && !s.sq[k].fetchIssued && 0 <= x < |s.sq[k].dependents| ==>
      WaitsFor(s.lq, s.sq[k].dependents[x], s.sq[k].id)
  }

  lemma DispatchOnePassing(s: State, id: nat, addr: nat)
    requires Passing(s) && NamesTaken(s) && DispatchLoad(s, id, addr).Running?
    ensures Passing(DispatchLoad(s, id, addr).state)
  {
    hide FirstFree, MaxElement;
    FinishSame(s, id);
    var t := DispatchLoad(s, id, addr).state;
    var slot := FirstFree(s.lq);
    if |s.sq| > 0 {
      MaxElementIsYoungest(s.sq, addr, 0, 1);
    }
    forall d | 0 <= d < |t.lq| && t.lq[d].Some? ensures MayPass(t.sq, t.lq[d].value) {
      assert t.lq[d] == s.lq[d] ==> MayPass(s.sq, s.lq[d].value);
    }
    forall k: nat, x: nat | k < |t.sq| && x < |t.sq[k].dependents| ensures Matches(t, k, x) {
      if x < |s.sq[k].dependents| {
        assert Matches(s, k, x);
        assert !s.sq[k].fetchIssued ==> WaitsFor(s.lq, s.sq[k].dependents[x], s.sq[k].id);
      }
    }
  }

  lemma {:induction false} DispatchPassing(u: Setup, s: State, owed: nat, m: nat, id: nat, addrs: seq<nat>)
    requires Inv(u, s, owed, m, multiset{}) && owed >= |addrs| && |s.rob| > 0 && id == s.rob[|s.rob| - 1].id
    requires FreeSlots(s.lq) >= |addrs| && m == s.retired + |s.rob| - 1
    requires forall k :: 0 <= k < |s.sq| ==> s.sq[k].id < id
    requires Passing(s)
    ensures DispatchLoads(s, id, addrs).Running? && Passing(DispatchLoads(s, id, addrs).state)
    ensures var t := DispatchLoads(s, id, addrs).state;
      |t.sq| == |s.sq| && |t.rob| == |s.rob| && t.retired == s.retired
    decreases |addrs|
  {
    hide Inv, DispatchLoad, FreeSlots, Passing;
    if |addrs| > 0 {
      InvNames(u, s, owed, m);
      DispatchLoadRuns(u, s, owed, m, id, addrs[0]);
      DispatchOnePassing(s, id, addrs[0]);
      DispatchPassing(u, DispatchLoad(s, id, addrs[0]).state, owed - 1, m, id, addrs[1..]);
    }
  }

  lemma InvNames(u: Setup, s: State, owed: nat, m: nat)
    requires Inv(u, s, owed, m, multiset{})
    ensures NamesTaken(s)
  {
  }

  lemma DispatchingPassing(u: Setup, s: State)
    requires Good(u, s) && Passing(s) && CanDispatch(u, s)
    ensures Dispatch(u, s).Running? && Passing(Dispatch(u, s).state)
  {
    hide Inv, DispatchLoads, FreeSlots, MayPass;
    var id := s.retired + |s.rob|;
    var v := s.(rob := s.rob + [Entry(id, u.code[id], false, false, 0)]);
    NewEntryKeeps(u, s, v);
    StoresAreOlder(u, s);
    assert Drained(s, v, 0);
    DrainedPassing(s, v, 0);
    DispatchPassing(u, v, Operations(u.code[id]), id, id, u.code[id].loads);
    DispatchLoadsRun(u, v, Operations(u.code[id]), id, id, u.code[id].loads);
    var w := DispatchLoads(v, id, u.code[id].loads).state;
    LoadsAreInRob(u, w, Operations(u.code[id]) - |u.code[id].loads|, id);
    StoresAppend(w, id, u.code[id].stores);
  }

  lemma LoadsAreInRob(u: Setup, s: State, owed: nat, m: nat)
    requires Inv(u, s, owed, m, multiset{})
    ensures forall d :: 0 <= d < |s.lq| && s.lq[d].Some? ==> s.lq[d].value.id < s.retired + |s.rob|
  {
    forall d | 0 <= d < |s.lq| && s.lq[d].Some? ensures s.lq[d].value.id < s.retired + |s.rob| {
      assert LoadOk(s, s.lq[d].value);
    }
  }

  /** The instruction's own stores are no older than any load. */
  lemma StoresAppend(s: State, id: nat, addrs: seq<nat>)
    requires Passing(s) && forall d :: 0 <= d < |s.lq| && s.lq[d].Some? ==> s.lq[d].value.id <= id
    ensures Passing(s.(sq := s.sq + NewStores(id, addrs)))
  {
    var t := s.(sq := s.sq + NewStores(id, addrs));
    forall d | 0 <= d < |t.lq| && t.lq[d].Some? ensures MayPass(t.sq, t.lq[d].value) {
      assert MayPass(s.sq, s.lq[d].value);
    }
    forall k: nat, x: nat | k < |t.sq| && x < |t.sq[k].dependents| ensures Matches(t, k, x) {
      assert Matches(s, k, x);
    }
  }

  // ---------- The other steps ----------

  lemma ExecutePassing(s: State, j: nat, ready: nat)
    requires Passing(s) && j < |s.rob|
    ensures Passing(Execute(s, j, ready))
  {
    DrainedPassing(s, Execute(s, j, ready), 0);
  }

  lemma FinishStoresPassing(s: State, k: nat, bw: nat)
    requires Passing(s) && FinishStores(s, k, bw).Running?
    ensures Passing(FinishStores(s, k, bw).state)
  {
    hide FinishStores, ReadyRun;
    FinishStoresAdvances(s, k, bw);
    FinishesReadyRun(s, k, bw);
    DrainedPassing(s, FinishStores(s, k, bw).state, 0);
  }

  lemma WriteStoresPassing(s: State, bw: nat, room: nat)
    requires Passing(s)
    ensures Passing(WriteStores(s, bw, room))
  {
    hide WriteStores;
    var n := WritesReadyPrefix(s, bw, room);
    DrainedPassing(s, WriteStores(s, bw, room), n);
  }

  lemma IssueLoadsPassing(s: State, bw: nat, accepted: set<nat>)
    requires Passing(s)
    ensures Passing(IssueLoads(s, 0, bw, accepted))
  {
    hide IssueLoads;
    var t := IssueLoads(s, 0, bw, accepted);
    IssueAdvances(s, bw, accepted);
    IssueKeepsEarlier(s, 0, bw, accepted);
    forall d | 0 <= d < |s.lq| && t.lq[d].Some? ensures s.lq[d].Some? && SameLoad(s.lq[d].value, t.lq[d].value) {
      assert LoadAdvanced(s.lq[d], t.lq[d]);
    }
    DrainedPassing(s, t, 0);
  }

  lemma ReturnPassing(u: Setup, s: State, block: nat)
    requires Passing(s) && Return(u, s, block, 0).Running?
    ensures Passing(Return(u, s, block, 0).state)
  {
    hide Return;
    ReturnEmpties(u, s, block, 0);
    DrainedPassing(s, Return(u, s, block, 0).state, 0);
  }

  lemma StepPassing(u: Setup, s: State, e: Event)
    requires Good(u, s) && Passing(s) && Enabled(u, s, e)
    ensures Step(u, s, e).Running? && Passing(Step(u, s, e).state)
  {
    hide Inv, Passing, Dispatch, FinishStores, WriteStores, IssueLoads, Return, CanDispatch, FirstUnissued, Execute;
    StepRuns(u, s, e);
    match e
    case Dispatching => DispatchingPassing(u, s);
    case Executing(j, ready) => ExecutePassing(s, j, ready);
    case FinishingStores(bw) => FinishStoresPassing(s, FirstUnissued(s.sq), bw);
    case WritingStores(bw, room) => WriteStoresPassing(s, bw, room);
    case IssuingLoads(bw, accepted) => IssueLoadsPassing(s, bw, accepted);
    case Returning(block) => ReturnPassing(u, s, block);
    case _ => DrainedPassing(s, Step(u, s, e).state, 0);
  }

  lemma {:induction false} RunPassing(u: Setup, s: State, events: seq<Event>)
    requires Good(u, s) && Passing(s)
    ensures Run(u, s, events).Running? && Good(u, Run(u, s, events).state) && Passing(Run(u, s, events).state)
    decreases |events|
  {
    hide Good, Passing, Step, Enabled;
    if |events| > 0 {
      if Enabled(u, s, events[0]) {
        StepRuns(u, s, events[0]);
        StepPassing(u, s, events[0]);
        RunPassing(u, Step(u, s, events[0]).state, events[1..]);
      } else {
        RunPassing(u, s, events[1..]);
      }
    }
  }

  // ---------- Main results ----------

  /** In every run a load that has been sent to the L1D has no older store to its address before it. */
  lemma LoadsPassNoOlderStore(u: Setup, events: seq<Event>, d: nat, k: nat)
    ensures Run(u, Start(u), events).Running?
    ensures var s := Run(u, Start(u), events).state;
      d < |s.lq| && s.lq[d].Some? && s.lq[d].value.fetchIssued && k < |s.sq| && s.sq[k].addr == s.lq[d].value.addr ==>
        s.sq[k].id >= s.lq[d].value.id
  {
    hide Run, LoadsOf, PendingOf, WaitSlots, Sent, AllStores;
    StartIsGood(u);
    RunPassing(u, Start(u), events);
    var s := Run(u, Start(u), events).state;
    if d < |s.lq| && s.lq[d].Some? {
      assert LoadOk(s, s.lq[d].value) && MayPass(s.sq, s.lq[d].value);
    }
  }

  /** The store of slot `k` is the youngest one older than the load to its address, and will release slot `d`. */
  predicate WaitsForYoungest(s: State, d: nat, k: nat)
    requires IsWaiting(s.lq, d) && k < |s.sq|
  {
    var l, x := s.lq[d].value, s.sq[k];
    && !x.fetchIssued && d in x.dependents && x.addr == l.addr && x.id < l.id
    && forall j :: 0 <= j < |s.sq| && s.sq[j].addr == l.addr && s.sq[j].id < l.id ==> s.sq[j].id <= x.id
  }

  /** In every run a load that waits waits for the youngest older store to its own address. */
  lemma LoadsWaitForYoungest(u: Setup, events: seq<Event>, d: nat)
    ensures Run(u, Start(u), events).Running?
    ensures var s := Run(u, Start(u), events).state;
      IsWaiting(s.lq, d) ==> exists k: nat :: k < |s.sq| && WaitsForYoungest(s, d, k)
  {
    hide Run, LoadsOf, PendingOf, WaitSlots, Sent, AllStores;
    StartIsGood(u);
    RunPassing(u, Start(u), events);
    WaitingLoadsAreKnown(u, events, d);
    var s := Run(u, Start(u), events).state;
    if IsWaiting(s.lq, d) {
      var k: nat :| k < |s.sq| && !s.sq[k].fetchIssued && d in s.sq[k].dependents
                    && s.sq[k].id == s.lq[d].value.producer.value;
      var x: nat :| x < |s.sq[k].dependents| && s.sq[k].dependents[x] == d;
      assert Matches(s, k, x) && MayPass(s.sq, s.lq[d].value);
      assert WaitsForYoungest(s, d, k);
    }
  }
}
