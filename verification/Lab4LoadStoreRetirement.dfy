/**
 * From every reachable state of the queues a few events retire the oldest instruction: its loads wait
 * for no store, and its stores come before all others that are not issued.
 */
module LoadStoreRetirement {
  import opened Collections
  import opened LoadStore
  import opened LoadStoreProof
  import opened LoadStoreProgress

  ghost predicate Live(u: Setup, s: State) {
    Good(u, s) && Marked(s) && |s.rob| > 0
  }

  ghost predicate RetiresBy(u: Setup, s: State, events: seq<Event>) {
    Run(u, s, events).Running? && Run(u, s, events).state.retired == s.retired + 1
  }

  /** One event that retires nothing, and then the rest. */
  lemma Then(u: Setup, s: State, e: Event, rest: seq<Event>)
    requires Enabled(u, s, e) && Step(u, s, e).Running? && Step(u, s, e).state.retired == s.retired
    requires RetiresBy(u, Step(u, s, e).state, rest)
    ensures RetiresBy(u, s, [e] + rest)
  {
    hide Step, Enabled;
    assert ([e] + rest)[1..] == rest;
  }

  lemma LiveStays(u: Setup, s: State, e: Event)
    requires Live(u, s) && Enabled(u, s, e)
    ensures Step(u, s, e).Running? && Good(u, Step(u, s, e).state) && Marked(Step(u, s, e).state)
  {
    hide Good, Marked, Enabled, Step;
    StepRuns(u, s, e);
    StepMarked(u, s, e);
  }

  // ---------- The oldest instruction ----------

  /** A load of the oldest instruction. */
  predicate FrontLoad(s: State, k: nat) {
    k < |s.lq| && s.lq[k].Some? && s.lq[k].value.id == s.retired
  }

  predicate FrontStore(s: State, k: nat) {
    k < |s.sq| && s.sq[k].id == s.retired
  }

  lemma UnissuedIsYounger(u: Setup, s: State, k: nat)
    requires Live(u, s) && k < |s.sq| && !s.sq[k].fetchIssued
    ensures s.sq[k].id >= s.retired
  {
    assert StoreOk(s, s.sq[k]);
  }

  /** It waits for no store: every store before it has been issued. */
  lemma FrontDoesNotWait(u: Setup, s: State, k: nat)
    requires Live(u, s) && FrontLoad(s, k)
    ensures s.lq[k].value.producer.None?
  {
    hide LoadsOf, PendingOf, WaitSlots, Sent, AllStores;
    if IsWaiting(s.lq, k) {
      assert LoadOk(s, s.lq[k].value);
      assert NamedOnce(s, multiset{}, k);
      var i := NamedSomewhere(s.sq, k);
      UnissuedIsYounger(u, s, i);
      assert false;
    }
  }

  /** The oldest instruction has executed, and is not completed. */
  predicate AtWork(s: State) {
    |s.rob| > 0 && s.rob[0].executed && !s.rob[0].completed
  }

  predicate StoreDue(s: State, k: nat) {
    FrontStore(s, k) ==> IsReady(s.sq[k].ready, s.now)
  }

  predicate LoadDue(s: State, k: nat) {
    FrontLoad(s, k) ==> s.lq[k].value.ready.Some? && s.lq[k].value.ready.value < s.now
  }

  lemma FrontIs(u: Setup, s: State)
    requires Live(u, s)
    ensures s.rob[0].id == s.retired && InRob(s, s.retired)
    ensures s.rob[0].completed ==> s.rob[0].executed
    ensures s.rob[0].memoryDone + LoadsOf(s.lq, s.retired) + PendingOf(s.sq, s.retired) == Operations(s.rob[0].inst)
  {
    hide LoadsOf, PendingOf, WaitSlots, Sent, AllStores, Operations;
    assert RobOk(u, s, 0) && Balanced(s, 0, 0);
  }

  lemma CompletedRetires(u: Setup, s: State)
    requires Live(u, s) && s.rob[0].completed
    ensures RetiresBy(u, s, [Retiring])
  {
    hide Good, Marked;
    assert [Retiring][1..] == [];
  }

  // ---------- Nothing left but to complete ----------

  lemma CompletesThenRetires(u: Setup, s: State)
    requires Live(u, s) && AtWork(s) && (forall k: nat :: !FrontLoad(s, k))
    requires forall k: nat :: FrontStore(s, k) ==> s.sq[k].fetchIssued
    ensures RetiresBy(u, s, [Completing(0), Retiring])
  {
    hide Inv, Marked, LoadsOf, PendingOf, Run;
    FrontIs(u, s);
    forall k | 0 <= k < |s.lq| ensures Owns(s.lq[k], s.retired) == 0 {
      assert !FrontLoad(s, k);
    }
    forall k | 0 <= k < |s.sq| ensures Pends(s.sq[k], s.retired) == 0 {
      assert FrontStore(s, k) ==> s.sq[k].fetchIssued;
    }
    NoLoads(s.lq, s.retired);
    NoStores(s.sq, s.retired);
    var e := Completing(0);
    LiveStays(u, s, e);
    CompletedRetires(u, Step(u, s, e).state);
    Then(u, s, e, [Retiring]);
    assert [e] + [Retiring] == [e, Retiring];
  }

  // ---------- Its stores finish ----------

  /** Its stores that are not issued are the first ones, and ready. */
  lemma FrontStoresFirst(u: Setup, s: State, j: nat)
    requires Live(u, s) && FrontStore(s, j) && !s.sq[j].fetchIssued && (forall k: nat :: StoreDue(s, k))
    ensures FirstUnissued(s.sq) <= j && ReadyRun(s, FirstUnissued(s.sq), j)
  {
    hide LoadsOf, PendingOf, WaitSlots, Sent, AllStores, FirstUnissued;
    var first := FirstUnissued(s.sq);
    assert first <= j;
    forall i | first <= i <= j && i < |s.sq| ensures !s.sq[i].fetchIssued && IsReady(s.sq[i].ready, s.now) {
      assert StoreOk(s, s.sq[i]);
      assert InOrder(s.sq);
      assert s.sq[i].id <= s.sq[j].id;
      assert StoreDue(s, i);
    }
  }

  lemma StoresFinish(u: Setup, s: State)
    requires Live(u, s) && AtWork(s) && (forall k: nat :: !FrontLoad(s, k)) && (forall k: nat :: StoreDue(s, k))
    ensures RetiresBy(u, s, [FinishingStores(|s.sq|), Completing(0), Retiring])
  {
    hide Inv, Marked, FirstUnissued, FinishStores, ReadyRun, Run;
    var e := FinishingStores(|s.sq|);
    LiveStays(u, s, e);
    var t := Step(u, s, e).state;
    var first := FirstUnissued(s.sq);
    FinishAdvances(s, first, |s.sq|);
    FinishesReadyRun(s, first, |s.sq|);
    forall k: nat ensures !FrontLoad(t, k) {
      assert !FrontLoad(s, k);
      assert k < |s.lq| ==> LoadAdvanced(s.lq[k], t.lq[k]);
    }
    forall k: nat | FrontStore(t, k) ensures t.sq[k].fetchIssued {
      if !s.sq[k].fetchIssued {
        assert FrontStore(s, k);
        FrontStoresFirst(u, s, k);
      }
    }
    CompletesThenRetires(u, t);
    Then(u, s, e, [Completing(0), Retiring]);
    assert [e] + [Completing(0), Retiring] == [e, Completing(0), Retiring];
  }

  // ---------- Its loads return ----------

  lemma {:induction false} LoadsFewer(a: seq<Option<Load>>, b: seq<Option<Load>>, id: nat)
    requires |a| == |b| && forall i :: 0 <= i < |a| ==> Owns(b[i], id) <= Owns(a[i], id)
    ensures LoadsOf(b, id) <= LoadsOf(a, id)
    ensures (exists i :: 0 <= i < |a| && Owns(b[i], id) < Owns(a[i], id)) ==> LoadsOf(b, id) < LoadsOf(a, id)
  {
    if |a| > 0 {
      assert Owns(b[0], id) <= Owns(a[0], id);
      LoadsFewer(a[1..], b[1..], id);
      if i :| 0 < i < |a| && Owns(b[i], id) < Owns(a[i], id) {
        assert Owns(b[1..][i - 1], id) < Owns(a[1..][i - 1], id);
      }
    }
  }

  lemma {:induction false} LoadsReturn(u: Setup, s: State) returns (events: seq<Event>)
    requires Live(u, s) && AtWork(s) && (forall k: nat :: StoreDue(s, k))
    requires forall k: nat :: FrontLoad(s, k) ==> s.lq[k].value.fetchIssued
    ensures RetiresBy(u, s, events) && |events| <= 3 + LoadsOf(s.lq, s.retired)
    decreases LoadsOf(s.lq, s.retired)
  {
    hide Inv, Marked, Return, RetiresBy, LoadsOf;
    if k: nat :| FrontLoad(s, k) {
      var e := Returning(u.block(s.lq[k].value.addr));
      LiveStays(u, s, e);
      var t := Step(u, s, e).state;
      ReturnEmpties(u, s, e.block, 0);
      assert t.lq[k].None?;
      assert Owns(t.lq[k], s.retired) < Owns(s.lq[k], s.retired);
      LoadsFewer(s.lq, t.lq, s.retired);
      forall i: nat ensures StoreDue(t, i) && (FrontLoad(t, i) ==> t.lq[i].value.fetchIssued) {
        assert StoreDue(s, i) && (FrontLoad(t, i) ==> FrontLoad(s, i));
      }
      var rest := LoadsReturn(u, t);
      Then(u, s, e, rest);
      events := [e] + rest;
    } else {
      events := [FinishingStores(|s.sq|), Completing(0), Retiring];
      StoresFinish(u, s);
    }
  }

  // ---------- Its loads are sent ----------

  lemma {:induction false} CountBelow(s: State, accepted: set<nat>, lo: nat, hi: nat)
    requires lo <= hi
    ensures SendableCount(s, accepted, lo, hi) <= hi - lo
    decreases hi - lo
  {
    if lo < hi {
      CountBelow(s, accepted, lo + 1, hi);
    }
  }

  function Below(n: nat): (all: set<nat>)
    ensures forall k: nat :: k in all <==> k < n
  {
    if n == 0 then {} else Below(n - 1) + {n - 1}
  }

  lemma LoadsAreSent(u: Setup, s: State) returns (events: seq<Event>)
    requires Live(u, s) && AtWork(s) && (forall k: nat :: StoreDue(s, k)) && (forall k: nat :: LoadDue(s, k))
    ensures RetiresBy(u, s, events) && |events| <= 4 + LoadsOf(s.lq, s.retired)
  {
    hide Inv, Marked, IssueLoads, SendableCount, RetiresBy, LoadsOf, Below;
    var all := Below(|s.lq|);
    var e := IssuingLoads(|s.lq|, all);
    LiveStays(u, s, e);
    var t := Step(u, s, e).state;
    IssueAdvances(s, |s.lq|, all);
    forall k: nat | FrontLoad(t, k) ensures t.lq[k].value.fetchIssued {
      assert LoadAdvanced(s.lq[k], t.lq[k]);
      assert FrontLoad(s, k) && LoadDue(s, k);
      FrontDoesNotWait(u, s, k);
      CountBelow(s, all, 0, k);
      SendsFirstReady(s, |s.lq|, all, k);
    }
    IssueKeepsEarlier(s, 0, |s.lq|, all);
    forall k: nat ensures StoreDue(t, k) {
      assert StoreDue(s, k);
    }
    forall k | 0 <= k < |s.lq| ensures Owns(t.lq[k], s.retired) <= Owns(s.lq[k], s.retired) {
      assert LoadAdvanced(s.lq[k], t.lq[k]);
    }
    LoadsFewer(s.lq, t.lq, s.retired);
    var rest := LoadsReturn(u, t);
    Then(u, s, e, rest);
    events := [e] + rest;
  }

  // ---------- Its operations are ready ----------

  /** A time by which every load and store that has a time is ready. */
  function LatestLoad(lq: seq<Option<Load>>): (t: nat)
    ensures forall k :: 0 <= k < |lq| && lq[k].Some? && lq[k].value.ready.Some? ==> lq[k].value.ready.value <= t
  {
    if |lq| == 0 then 0
    else
      var rest := LatestLoad(lq[1..]);
      assert forall k :: 1 <= k < |lq| ==> lq[k] == lq[1..][k - 1];
      if lq[0].Some? && lq[0].value.ready.Some? && lq[0].value.ready.value > rest then lq[0].value.ready.value else rest
  }

  function LatestStore(sq: seq<Store>): (t: nat)
    ensures forall k :: 0 <= k < |sq| && sq[k].ready.Some? ==> sq[k].ready.value <= t
  {
    if |sq| == 0 then 0
    else
      var rest := LatestStore(sq[1..]);
      assert forall k :: 1 <= k < |sq| ==> sq[k] == sq[1..][k - 1];
      if sq[0].ready.Some? && sq[0].ready.value > rest then sq[0].ready.value else rest
  }

  lemma OperationsBecomeReady(u: Setup, s: State) returns (events: seq<Event>)
    requires Live(u, s) && AtWork(s)
    ensures RetiresBy(u, s, events) && |events| <= 5 + LoadsOf(s.lq, s.retired)
  {
    hide Inv, RetiresBy, LoadsOf, LatestLoad, LatestStore;
    FrontIs(u, s);
    var e := Tick(LatestLoad(s.lq) + LatestStore(s.sq) + 1);
    LiveStays(u, s, e);
    var t := Step(u, s, e).state;
    forall k: nat ensures LoadDue(t, k) && StoreDue(t, k) {
      assert k < |s.lq| ==> LoadMarked(s, s.lq[k]);
      assert k < |s.sq| ==> StoreMarked(s, s.sq[k]);
    }
    var rest := LoadsAreSent(u, t);
    Then(u, s, e, rest);
    events := [e] + rest;
  }

  /**
   * From every state with an instruction in the reorder buffer, a number of events no larger than its
   * memory operations and six retires the oldest one.
   */
  lemma FrontRetires(u: Setup, s: State) returns (events: seq<Event>)
    requires Live(u, s)
    ensures RetiresBy(u, s, events) && |events| <= 6 + Operations(s.rob[0].inst)
  {
    hide Inv, Marked, RetiresBy, LoadsOf, PendingOf;
    FrontIs(u, s);
    if s.rob[0].completed {
      CompletedRetires(u, s);
      events := [Retiring];
    } else if s.rob[0].executed {
      events := OperationsBecomeReady(u, s);
    } else {
      var e := Executing(0, s.now);
      LiveStays(u, s, e);
      var t := Step(u, s, e).state;
      FrontIs(u, t);
      var rest := OperationsBecomeReady(u, t);
      Then(u, s, e, rest);
      events := [e] + rest;
    }
  }

  /** In every run, as long as the reorder buffer is not empty, its oldest instruction can still retire. */
  lemma EveryRunCanRetire(u: Setup, before: seq<Event>) returns (events: seq<Event>)
    ensures Run(u, Start(u), before).Running?
    ensures var s := Run(u, Start(u), before).state;
      |s.rob| > 0 ==> RetiresBy(u, s, events) && |events| <= 6 + Operations(s.rob[0].inst)
  {
    hide Good, Run, RetiresBy, Operations;
    StartIsGood(u);
    RunMarked(u, Start(u), before);
    var s := Run(u, Start(u), before).state;
    if |s.rob| > 0 {
      events := FrontRetires(u, s);
    } else {
      events := [];
    }
  }
}
