/**
 * What the loops over the load and store queues do entry by entry, and progress: from every
 * reachable state a few events finish all memory operations of the oldest instruction, which retires.
 */
module LoadStoreProgress {
  import opened Collections
  import opened LoadStore
  import opened LoadStoreProof

  // ---------- Which loads are sent ----------

  /** The load in slot `k` may be sent: executed, older than now, waiting for no store, accepted by the L1D. */
  predicate Sendable(s: State, accepted: set<nat>, k: nat) {
    && k in accepted && k < |s.lq| && s.lq[k].Some? && !s.lq[k].value.fetchIssued && s.lq[k].value.producer.None?
    && s.lq[k].value.ready.Some? && s.lq[k].value.ready.value < s.now
  }

  /** How many of the slots from `lo` to before `hi` may be sent. */
  function SendableCount(s: State, accepted: set<nat>, lo: nat, hi: nat): nat
    requires lo <= hi
    decreases hi - lo
  {
    if lo == hi then 0 else (if Sendable(s, accepted, lo) then 1 else 0) + SendableCount(s, accepted, lo + 1, hi)
  }

  /** A slot's own change does not matter for the slots behind it. */
  lemma {:induction false} CountIgnoresEarlier(s: State, t: State, accepted: set<nat>, lo: nat, hi: nat)
    requires lo <= hi && t.now == s.now && |t.lq| == |s.lq| && forall i :: lo <= i < |s.lq| ==> t.lq[i] == s.lq[i]
    ensures SendableCount(t, accepted, lo, hi) == SendableCount(s, accepted, lo, hi)
    decreases hi - lo
  {
    if lo < hi {
      CountIgnoresEarlier(s, t, accepted, lo + 1, hi);
    }
  }

  lemma {:induction false} IssuesFrom(s: State, k: nat, bw: nat, accepted: set<nat>, j: nat)
    requires k <= j < |s.lq|
    ensures var t := IssueLoads(s, k, bw, accepted);
      && t == s.(lq := t.lq) && |t.lq| == |s.lq| && (forall i :: 0 <= i < k ==> t.lq[i] == s.lq[i])
      && t.lq[j] == if Sendable(s, accepted, j) && SendableCount(s, accepted, k, j) < bw
                    then Some(s.lq[j].value.(fetchIssued := true)) else s.lq[j]
    decreases |s.lq| - k
  {
    if bw > 0 {
      if CanIssueLoad(s, k) && k in accepted {
        var t := s.(lq := s.lq[k := Some(s.lq[k].value.(fetchIssued := true))]);
        if k < j {
          IssuesFrom(t, k + 1, bw - 1, accepted, j);
          CountIgnoresEarlier(s, t, accepted, k + 1, j);
        } else {
          IssueKeepsEarlier(t, k + 1, bw - 1, accepted);
        }
      } else if k < j {
        IssuesFrom(s, k + 1, bw, accepted, j);
      } else {
        IssueKeepsEarlier(s, k + 1, bw, accepted);
      }
    }
  }

  lemma {:induction false} IssueKeepsEarlier(s: State, k: nat, bw: nat, accepted: set<nat>)
    ensures var t := IssueLoads(s, k, bw, accepted);
      t == s.(lq := t.lq) && |t.lq| == |s.lq| && forall i :: 0 <= i < k && i < |s.lq| ==> t.lq[i] == s.lq[i]
    decreases |s.lq| - k
  {
    if k < |s.lq| && bw > 0 {
      if CanIssueLoad(s, k) && k in accepted {
        IssueKeepsEarlier(s.(lq := s.lq[k := Some(s.lq[k].value.(fetchIssued := true))]), k + 1, bw - 1, accepted);
      } else {
        IssueKeepsEarlier(s, k + 1, bw, accepted);
      }
    }
  }

  /** A load is sent exactly if it may be and fewer than `bw` of the slots before it were; nothing else changes. */
  lemma SendsFirstReady(s: State, bw: nat, accepted: set<nat>, j: nat)
    requires j < |s.lq|
    ensures var t := IssueLoads(s, 0, bw, accepted);
      && t == s.(lq := t.lq) && |t.lq| == |s.lq|
      && t.lq[j] == if Sendable(s, accepted, j) && SendableCount(s, accepted, 0, j) < bw
                    then Some(s.lq[j].value.(fetchIssued := true)) else s.lq[j]
  {
    IssuesFrom(s, 0, bw, accepted, j);
  }

  // ---------- Which loads return ----------

  /** The load has been sent for the block. */
  predicate SentFor(u: Setup, l: Option<Load>, block: nat) {
    l.Some? && l.value.fetchIssued && u.block(l.value.addr) == block
  }

  /** Only counts of finished operations differ. */
  ghost predicate SameProgram(s: State, t: State) {
    && t.retired == s.retired && t.now == s.now && t.written == s.written && |t.rob| == |s.rob|
    && forall j :: 0 <= j < |s.rob| ==> t.rob[j] == s.rob[j].(memoryDone := t.rob[j].memoryDone)
  }

  lemma FinishSame(s: State, id: nat)
    ensures Finish(s, id).Running? ==>
              var t := Finish(s, id).state; SameProgram(s, t) && t.lq == s.lq && t.sq == s.sq
  {
  }

  lemma SameProgramChains(s: State, t: State, v: State)
    requires SameProgram(s, t) && SameProgram(t, v)
    ensures SameProgram(s, v)
  {
  }

  /** A returned block empties exactly the slots of the loads that were sent for it. */
  lemma {:induction false} ReturnEmpties(u: Setup, s: State, block: nat, k: nat)
    ensures Return(u, s, block, k).Running? ==>
              var t := Return(u, s, block, k).state;
              && SameProgram(s, t) && t.sq == s.sq && |t.lq| == |s.lq|
              && (forall i :: 0 <= i < |s.lq| ==>
                    t.lq[i] == if i >= k && SentFor(u, s.lq[i], block) then None else s.lq[i])
    decreases |s.lq| - k
  {
    hide Finish;
    if k < |s.lq| {
      if SentFor(u, s.lq[k], block) {
        FinishSame(s, s.lq[k].value.id);
        if Finish(s, s.lq[k].value.id).Running? {
          var v := Finish(s, s.lq[k].value.id).state.(lq := s.lq[k := None]);
          ReturnEmpties(u, v, block, k + 1);
          if Return(u, s, block, k).Running? {
            SameProgramChains(s, v, Return(u, s, block, k).state);
          }
        }
      } else {
        ReturnEmpties(u, s, block, k + 1);
      }
    }
  }

  // ---------- Which stores finish and leave ----------

  /** The stores from `first` to `j` are all ready and not issued. */
  predicate ReadyRun(s: State, first: nat, j: nat) {
    forall i :: first <= i <= j && i < |s.sq| ==> !s.sq[i].fetchIssued && IsReady(s.sq[i].ready, s.now)
  }

  lemma {:induction false} ReleaseSame(s: State, id: nat, slots: seq<nat>)
    ensures Release(s, id, slots).Running? ==>
              var t := Release(s, id, slots).state;
              SameProgram(s, t) && t.sq == s.sq && |t.lq| == |s.lq| && Released(s, t, slots)
    decreases |slots|
  {
    hide Finish;
    if |slots| > 0 && slots[0] < |s.lq| && s.lq[slots[0]].Some? && Release(s, id, slots).Running? {
      var load := s.lq[slots[0]].value.id;
      FinishSame(s, load);
      var v := Finish(s, load).state.(lq := s.lq[slots[0] := None]);
      ReleaseSame(v, id, slots[1..]);
      var t := Release(s, id, slots).state;
      SameProgramChains(s, v, t);
      assert forall i :: i in slots <==> i == slots[0] || i in slots[1..];
    }
  }

  /** Exactly the named slots are emptied. */
  predicate Released(s: State, t: State, slots: seq<nat>)
    requires |t.lq| == |s.lq|
  {
    forall i: nat :: i < |s.lq| ==> t.lq[i] == if i in slots then None else s.lq[i]
  }

  lemma FinishStoreIs(s: State, k: nat)
    requires k < |s.sq|
    ensures FinishStore(s, k).Running? ==>
              var t := FinishStore(s, k).state;
              && SameProgram(s, t) && |t.lq| == |s.lq| && Released(s, t, s.sq[k].dependents)
              && t.sq == s.sq[k := s.sq[k].(fetchIssued := true, ready := Some(s.now))]
  {
    hide Finish, Release;
    FinishSame(s, s.sq[k].id);
    if Finish(s, s.sq[k].id).Running? {
      var f := Finish(s, s.sq[k].id).state;
      ReleaseSame(f, s.sq[k].id, s.sq[k].dependents);
      if Release(f, s.sq[k].id, s.sq[k].dependents).Running? {
        SameProgramChains(s, f, Release(f, s.sq[k].id, s.sq[k].dependents).state);
      }
    }
  }

  /** A store finishes exactly if it and all those before it from slot `k` on are ready, within the bandwidth. */
  lemma {:induction false} FinishesReadyRun(s: State, k: nat, bw: nat)
    requires FinishStores(s, k, bw).Running?
    ensures var t := FinishStores(s, k, bw).state;
      && SameProgram(s, t) && |t.sq| == |s.sq| && |t.lq| == |s.lq|
      && (forall j: nat :: j < |s.sq| ==>
            t.sq[j] == if k <= j < k + bw && ReadyRun(s, k, j) then s.sq[j].(fetchIssued := true, ready := Some(s.now))
                       else s.sq[j])
    decreases bw
  {
    hide FinishStore;
    if k < |s.sq| && bw > 0 && !s.sq[k].fetchIssued && IsReady(s.sq[k].ready, s.now) {
      FinishStoreIs(s, k);
      var v := FinishStore(s, k).state;
      FinishesReadyRun(v, k + 1, bw - 1);
      var t := FinishStores(s, k, bw).state;
      SameProgramChains(s, v, t);
      forall j: nat | k < j < |s.sq| ensures ReadyRun(s, k, j) <==> ReadyRun(v, k + 1, j) {
        RunFromNext(s, v, k, j);
      }
    } else {
      forall j: nat | k <= j < |s.sq| && j < k + bw ensures !ReadyRun(s, k, j) {
        assert k <= k <= j;
      }
    }
  }

  lemma RunFromNext(s: State, v: State, k: nat, j: nat)
    requires k < |s.sq| == |v.sq| && k < j && v.now == s.now && !s.sq[k].fetchIssued && IsReady(s.sq[k].ready, s.now)
    requires forall i :: k < i < |s.sq| ==> v.sq[i] == s.sq[i]
    ensures ReadyRun(s, k, j) <==> ReadyRun(v, k + 1, j)
  {
  }

  /**
   * The stores that leave for the L1D are a prefix of the queue, all ready and older than the reorder
   * buffer; no more leave than the bandwidth and the L1D allow, and no fewer.
   */
  lemma {:induction false} WritesReadyPrefix(s: State, bw: nat, room: nat) returns (n: nat)
    ensures n <= |s.sq| && n <= bw && n <= room
    ensures var t := WriteStores(s, bw, room);
      && t == s.(sq := s.sq[n..], written := s.written + Sent(s.sq[..n]))
      && (n < bw && n < room ==> !CanWrite(t))
    ensures forall i :: 0 <= i < n ==>
              IsReady(s.sq[i].ready, s.now) && (|s.rob| == 0 || s.sq[i].id < s.rob[0].id)
    decreases bw
  {
    if bw == 0 || room == 0 || !CanWrite(s) {
      n := 0;
      assert s.sq[0..] == s.sq;
      assert s.written + Sent(s.sq[..0]) == s.written;
    } else {
      var v := s.(sq := s.sq[1..], written := s.written + [Written(s.sq[0].id, s.sq[0].addr)]);
      var m := WritesReadyPrefix(v, bw - 1, room - 1);
      n := m + 1;
      assert s.sq[1..][m..] == s.sq[n..];
      assert s.sq[..n] == [s.sq[0]] + s.sq[1..][..m];
      assert Sent(s.sq[..n]) == [Written(s.sq[0].id, s.sq[0].addr)] + Sent(s.sq[1..][..m]);
      assert v.written + Sent(v.sq[..m]) == s.written + Sent(s.sq[..n]);
      forall i | 0 <= i < n
        ensures IsReady(s.sq[i].ready, s.now) && (|s.rob| == 0 || s.sq[i].id < s.rob[0].id)
      {
        assert i > 0 ==> s.sq[i] == v.sq[i - 1];
      }
    }
  }

  // ---------- An executed instruction's operations have a time ----------

  predicate ExecutedHere(s: State, id: nat) {
    InRob(s, id) && s.rob[id - s.retired].executed
  }

  predicate LoadMarked(s: State, l: Option<Load>) {
    l.Some? && ExecutedHere(s, l.value.id) ==> l.value.ready.Some?
  }

  predicate StoreMarked(s: State, x: Store) {
    ExecutedHere(s, x.id) ==> x.ready.Some?
  }

  ghost predicate Marked(s: State) {
    && (forall k :: 0 <= k < |s.lq| ==> LoadMarked(s, s.lq[k]))
    && (forall k :: 0 <= k < |s.sq| ==> StoreMarked(s, s.sq[k]))
  }

  predicate LoadAdvanced(a: Option<Load>, b: Option<Load>) {
    b == a || b.None? || (a.Some? && b == Some(a.value.(fetchIssued := true)))
  }

  /** The same program; loads have left or have been sent, stores have been issued. */
  ghost predicate Advanced(s: State, t: State) {
    && SameProgram(s, t) && |t.lq| == |s.lq| && |t.sq| == |s.sq|
    && (forall k :: 0 <= k < |s.lq| ==> LoadAdvanced(s.lq[k], t.lq[k]))
    && (forall k :: 0 <= k < |s.sq| ==> t.sq[k] == s.sq[k] || (t.sq[k].ready.Some? && t.sq[k].id == s.sq[k].id))
  }

  lemma AdvancedMarked(s: State, t: State)
    requires Marked(s) && Advanced(s, t)
    ensures Marked(t)
  {
    forall k | 0 <= k < |t.lq| ensures LoadMarked(t, t.lq[k]) {
      assert LoadMarked(s, s.lq[k]);
    }
    forall k | 0 <= k < |t.sq| ensures StoreMarked(t, t.sq[k]) {
      assert StoreMarked(s, s.sq[k]);
    }
  }

  lemma IssueAdvances(s: State, bw: nat, accepted: set<nat>)
    ensures Advanced(s, IssueLoads(s, 0, bw, accepted))
  {
    hide IssueLoads, Sendable, SendableCount;
    IssueKeepsEarlier(s, 0, bw, accepted);
    forall j: nat | j < |s.lq|
      ensures var l := IssueLoads(s, 0, bw, accepted).lq[j];
        l == s.lq[j] || (s.lq[j].Some? && l == Some(s.lq[j].value.(fetchIssued := true)))
    {
      SendsFirstReady(s, bw, accepted, j);
      SendableIsLoad(s, accepted, j);
    }
  }

  lemma SendableIsLoad(s: State, accepted: set<nat>, k: nat)
    ensures Sendable(s, accepted, k) ==> k < |s.lq| && s.lq[k].Some?
  {
  }

  lemma ReturnAdvances(u: Setup, s: State, block: nat)
    requires Return(u, s, block, 0).Running?
    ensures Advanced(s, Return(u, s, block, 0).state)
  {
    hide Return;
    ReturnEmpties(u, s, block, 0);
  }

  lemma {:induction false} FinishStoresAdvances(s: State, k: nat, bw: nat)
    requires FinishStores(s, k, bw).Running?
    ensures var t := FinishStores(s, k, bw).state;
      && SameProgram(s, t) && |t.lq| == |s.lq| && |t.sq| == |s.sq|
      && (forall i :: 0 <= i < |s.lq| ==> t.lq[i] == s.lq[i] || t.lq[i].None?)
    decreases bw
  {
    hide FinishStore;
    if k < |s.sq| && bw > 0 && !s.sq[k].fetchIssued && IsReady(s.sq[k].ready, s.now) {
      FinishStoreIs(s, k);
      var v := FinishStore(s, k).state;
      FinishStoresAdvances(v, k + 1, bw - 1);
      SameProgramChains(s, v, FinishStores(s, k, bw).state);
    }
  }

  lemma FinishAdvances(s: State, k: nat, bw: nat)
    requires FinishStores(s, k, bw).Running?
    ensures Advanced(s, FinishStores(s, k, bw).state)
  {
    hide FinishStores, ReadyRun;
    FinishStoresAdvances(s, k, bw);
    FinishesReadyRun(s, k, bw);
  }

  lemma ExecuteMarked(u: Setup, s: State, j: nat, ready: nat)
    requires Good(u, s) && Marked(s) && j < |s.rob|
    ensures Marked(Execute(s, j, ready))
  {
    hide LoadsOf, PendingOf, WaitSlots, Sent, AllStores, NamedOnce, InOrder;
    var t := Execute(s, j, ready);
    assert RobOk(u, s, j);
    forall k | 0 <= k < |t.lq| ensures LoadMarked(t, t.lq[k]) {
      assert LoadMarked(s, s.lq[k]);
    }
    forall k | 0 <= k < |t.sq| ensures StoreMarked(t, t.sq[k]) {
      assert StoreMarked(s, s.sq[k]);
    }
  }

  /** Loads of an instruction that has not executed join the queue. */
  lemma {:induction false} DispatchMarked(s: State, id: nat, addrs: seq<nat>)
    requires Marked(s) && InRob(s, id) && !ExecutedHere(s, id) && DispatchLoads(s, id, addrs).Running?
    ensures var t := DispatchLoads(s, id, addrs).state;
      Marked(t) && t.retired == s.retired && |t.rob| == |s.rob| && !ExecutedHere(t, id)
    decreases |addrs|
  {
    hide DispatchLoad, Marked;
    if |addrs| > 0 {
      DispatchOneMarked(s, id, addrs[0]);
      DispatchMarked(DispatchLoad(s, id, addrs[0]).state, id, addrs[1..]);
    }
  }

  lemma DispatchOneMarked(s: State, id: nat, addr: nat)
    requires Marked(s) && InRob(s, id) && !ExecutedHere(s, id) && DispatchLoad(s, id, addr).Running?
    ensures var t := DispatchLoad(s, id, addr).state;
      Marked(t) && t.retired == s.retired && |t.rob| == |s.rob| && !ExecutedHere(t, id)
  {
    hide FirstFree, MaxElement;
    FinishSame(s, id);
    var t := DispatchLoad(s, id, addr).state;
    forall k | 0 <= k < |t.lq| ensures LoadMarked(t, t.lq[k]) {
      assert LoadMarked(s, s.lq[k]);
    }
    forall k | 0 <= k < |t.sq| ensures StoreMarked(t, t.sq[k]) {
      assert StoreMarked(s, s.sq[k]);
    }
  }

  lemma DispatchingMarked(u: Setup, s: State)
    requires Good(u, s) && Marked(s) && CanDispatch(u, s) && Dispatch(u, s).Running?
    ensures Marked(Dispatch(u, s).state)
  {
    hide LoadsOf, PendingOf, WaitSlots, Sent, AllStores, NamedOnce, InOrder, Balanced, DispatchLoads, FreeSlots;
    var id := s.retired + |s.rob|;
    var v := s.(rob := s.rob + [Entry(id, u.code[id], false, false, 0)]);
    forall k | 0 <= k < |v.lq| ensures LoadMarked(v, v.lq[k]) {
      assert LoadMarked(s, s.lq[k]);
      assert s.lq[k].Some? ==> LoadOk(s, s.lq[k].value);
    }
    forall k | 0 <= k < |v.sq| ensures StoreMarked(v, v.sq[k]) {
      assert StoreMarked(s, s.sq[k]) && StoreOk(s, s.sq[k]);
    }
    DispatchMarked(v, id, u.code[id].loads);
    var w := DispatchLoads(v, id, u.code[id].loads).state;
    var t := Dispatch(u, s).state;
    forall k | 0 <= k < |t.sq| ensures StoreMarked(t, t.sq[k]) {
      assert k < |w.sq| ==> StoreMarked(w, w.sq[k]);
    }
    forall k | 0 <= k < |t.lq| ensures LoadMarked(t, t.lq[k]) {
      assert LoadMarked(w, w.lq[k]);
    }
  }

  lemma {:induction false} WriteMarked(s: State, bw: nat, room: nat)
    requires Marked(s)
    ensures Marked(WriteStores(s, bw, room))
  {
    hide WriteStores;
    var n := WritesReadyPrefix(s, bw, room);
    var t := WriteStores(s, bw, room);
    forall k | 0 <= k < |t.sq| ensures StoreMarked(t, t.sq[k]) {
      assert StoreMarked(s, s.sq[n + k]);
    }
    forall k | 0 <= k < |t.lq| ensures LoadMarked(t, t.lq[k]) {
      assert LoadMarked(s, s.lq[k]);
    }
  }

  lemma RetireMarked(u: Setup, s: State)
    requires Good(u, s) && Marked(s) && |s.rob| > 0
    ensures Marked(Retire(s))
  {
    var t := Retire(s);
    forall k | 0 <= k < |t.lq| ensures LoadMarked(t, t.lq[k]) {
      assert LoadMarked(s, s.lq[k]);
    }
    forall k | 0 <= k < |t.sq| ensures StoreMarked(t, t.sq[k]) {
      assert StoreMarked(s, s.sq[k]);
    }
  }

  lemma CalmMarked(s: State, t: State)
    requires Marked(s) && t.lq == s.lq && t.sq == s.sq && t.retired == s.retired && |t.rob| == |s.rob|
    requires forall j :: 0 <= j < |s.rob| ==> t.rob[j].executed == s.rob[j].executed
    ensures Marked(t)
  {
    forall k | 0 <= k < |t.lq| ensures LoadMarked(t, t.lq[k]) {
      assert LoadMarked(s, s.lq[k]);
    }
    forall k | 0 <= k < |t.sq| ensures StoreMarked(t, t.sq[k]) {
      assert StoreMarked(s, s.sq[k]);
    }
  }

  lemma StepMarked(u: Setup, s: State, e: Event)
    requires Good(u, s) && Marked(s) && Enabled(u, s, e) && Step(u, s, e).Running?
    ensures Marked(Step(u, s, e).state)
  {
    hide Inv, Marked, Advanced, Dispatch, FinishStores, WriteStores, IssueLoads, Return, CanDispatch, FirstUnissued, Execute;
    match e
    case Tick(elapsed) => CalmMarked(s, Step(u, s, e).state);
    case Dispatching => DispatchingMarked(u, s);
    case Executing(j, ready) => ExecuteMarked(u, s, j, ready);
    case FinishingStores(bw) =>
      FinishAdvances(s, FirstUnissued(s.sq), bw);
      AdvancedMarked(s, Step(u, s, e).state);
    case WritingStores(bw, room) => WriteMarked(s, bw, room);
    case IssuingLoads(bw, accepted) =>
      IssueAdvances(s, bw, accepted);
      AdvancedMarked(s, Step(u, s, e).state);
    case Returning(block) =>
      ReturnAdvances(u, s, block);
      AdvancedMarked(s, Step(u, s, e).state);
    case Completing(j) => CalmMarked(s, Step(u, s, e).state);
    case Retiring => RetireMarked(u, s);
  }

  lemma {:induction false} RunMarked(u: Setup, s: State, events: seq<Event>)
    requires Good(u, s) && Marked(s)
    ensures Run(u, s, events).Running? && Good(u, Run(u, s, events).state) && Marked(Run(u, s, events).state)
    decreases |events|
  {
    hide Good, Marked, Step, Enabled;
    if |events| > 0 {
      if Enabled(u, s, events[0]) {
        StepRuns(u, s, events[0]);
        StepMarked(u, s, events[0]);
        RunMarked(u, Step(u, s, events[0]).state, events[1..]);
      } else {
        RunMarked(u, s, events[1..]);
      }
    }
  }
}
