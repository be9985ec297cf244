/**
 * The load and store queues as the simulator updates them.  Each of its assertions is an assertion
 * here; each method carries out its step of the model, which never fails from a good state.
 */
module LoadStoreCore {
  import opened Collections
  import opened LoadStore
  import opened LoadStoreProof

  class LoadStoreUnit {
    const setup: Setup
    const lq: array<Option<Load>>
    var rob: seq<Entry>
    var sq: seq<Store>
    var retired: nat
    var now: nat
    var written: seq<Written>

    ghost function View(): State
      reads this, lq
    {
      State(rob, lq[..], sq, retired, now, written)
    }

    constructor (u: Setup)
      ensures setup == u && fresh(lq) && View() == Start(u) && Good(u, View())
    {
      setup, rob, sq, retired, now, written := u, [], [], 0, 0, [];
      lq := new Option<Load>[u.lqSize](_ => None);
      new;
      assert lq[..] == seq(u.lqSize, _ => None);
      StartIsGood(u);
    }

    /** LSQ_ENTRY::finish. */
    method Finish(id: nat)
      requires LoadStore.Finish(View(), id).Running?
      modifies this`rob
      ensures Running(View()) == LoadStore.Finish(old(View()), id)
    {
      var i := 0;
      while i < |rob| && rob[i].id < id
        invariant 0 <= i <= |rob| && Locate(rob, id) == i + Locate(rob[i..], id)
      {
        assert rob[i..][1..] == rob[i + 1..];
        i := i + 1;
      }
      assert i < |rob|;
      assert rob[i].id == id;
      rob := rob[i := rob[i].(memoryDone := rob[i].memoryDone + 1)];
      assert rob[i].memoryDone <= Operations(rob[i].inst);
    }

    /** do_memory_scheduling for one load: take a free slot, and look for a store to forward from. */
    method ScheduleLoad(id: nat, addr: nat)
      requires DispatchLoad(View(), id, addr).Running?
      modifies this`rob, this`sq, lq
      ensures Running(View()) == DispatchLoad(old(View()), id, addr)
    {
      var slot := FindFree();
      assert slot < lq.Length;
      var load := Load(addr, id, None, false, None);
      if |sq| > 0 {
        var k := FindStore(addr);
        if sq[k].addr == addr {
          if sq[k].fetchIssued {
            Finish(id);
          } else {
            assert sq[k].id < id;
            sq := sq[k := sq[k].(dependents := sq[k].dependents + [slot])];
            lq[slot] := Some(load.(producer := Some(sq[k].id)));
            assert lq[..] == old(lq[..])[slot := lq[slot]];
          }
          return;
        }
      }
      lq[slot] := Some(load);
      assert lq[..] == old(lq[..])[slot := Some(load)];
    }

    method FindFree() returns (slot: nat)
      ensures slot == FirstFree(lq[..])
    {
      slot := 0;
      while slot < lq.Length && lq[slot].Some?
        invariant 0 <= slot <= lq.Length && FirstFree(lq[..]) == slot + FirstFree(lq[slot..])
      {
        assert lq[slot..][1..] == lq[slot + 1..];
        slot := slot + 1;
      }
    }

    /** std::max_element with the comparison of do_memory_scheduling. */
    method FindStore(addr: nat) returns (best: nat)
      requires |sq| > 0
      ensures best < |sq| && best == MaxElement(sq, addr, 0, 1)
      ensures sq[best].addr == addr <==> exists j :: 0 <= j < |sq| && sq[j].addr == addr
      ensures sq[best].addr == addr ==> forall j :: 0 <= j < |sq| && sq[j].addr == addr ==> sq[j].id <= sq[best].id
    {
      best := 0;
      var i := 1;
      while i < |sq|
        invariant best < i <= |sq| && MaxElement(sq, addr, best, i) == MaxElement(sq, addr, 0, 1)
      {
        if sq[best].addr != addr || (sq[i].addr == addr && sq[best].id < sq[i].id) {
          best := i;
        }
        i := i + 1;
      }
      MaxElementIsYoungest(sq, addr, 0, 1);
    }

    /** dispatch_instruction and do_memory_scheduling. */
    method DispatchInstruction()
      requires Good(setup, View()) && CanDispatch(setup, View())
      modifies this, lq
      ensures Running(View()) == Step(setup, old(View()), Dispatching) && Good(setup, View())
    {
      hide Inv, DispatchLoad, CanDispatch;
      DispatchRuns(setup, View());
      CodeRemains(setup, View());
      var id := retired + |rob|;
      var inst := setup.code[id];
      rob := rob + [Entry(id, inst, false, false, 0)];
      ghost var entered := View();
      var i := 0;
      assert inst.loads[0..] == inst.loads;
      while i < |inst.loads|
        invariant 0 <= i <= |inst.loads|
        invariant DispatchLoads(View(), id, inst.loads[i..]) == DispatchLoads(entered, id, inst.loads)
        invariant DispatchLoads(entered, id, inst.loads).Running?
      {
        assert inst.loads[i..][1..] == inst.loads[i + 1..];
        ScheduleLoad(id, inst.loads[i]);
        i := i + 1;
      }
      ghost var loaded := View();
      i := 0;
      while i < |inst.stores|
        invariant 0 <= i <= |inst.stores| && rob == loaded.rob && lq[..] == loaded.lq
        invariant View() == loaded.(sq := loaded.sq + NewStores(id, inst.stores)[..i])
      {
        assert NewStores(id, inst.stores)[..i + 1]
            == NewStores(id, inst.stores)[..i] + [Store(inst.stores[i], id, None, false, [])];
        sq := sq + [Store(inst.stores[i], id, None, false, [])];
        i := i + 1;
      }
      assert NewStores(id, inst.stores)[..i] == NewStores(id, inst.stores);
    }

    /** do_finish_store: the store's own operation, then every load waiting for it. */
    method FinishStore(k: nat)
      requires k < |sq| && LoadStore.FinishStore(View(), k).Running?
      modifies this`rob, this`sq, lq
      ensures Running(View()) == LoadStore.FinishStore(old(View()), k)
    {
      hide LoadStore.Finish;
      var store := sq[k];
      Finish(store.id);
      ghost var finished := View();
      var x := 0;
      assert store.dependents[0..] == store.dependents;
      while x < |store.dependents|
        invariant 0 <= x <= |store.dependents| && sq == old(sq)
        invariant Release(View(), store.id, store.dependents[x..]) == Release(finished, store.id, store.dependents)
        invariant Release(finished, store.id, store.dependents).Running?
      {
        var d := store.dependents[x];
        assert store.dependents[x..][1..] == store.dependents[x + 1..];
        assert lq[d].Some?;
        assert lq[d].value.producer == Some(store.id);
        Finish(lq[d].value.id);
        ghost var before := lq[..];
        lq[d] := None;
        assert lq[..] == before[d := None];
        x := x + 1;
      }
      sq := sq[k := store.(fetchIssued := true, ready := Some(now))];
    }

    /** The first part of operate_lsq. */
    method FinishStores(bandwidth: nat)
      requires Good(setup, View())
      modifies this`rob, this`sq, lq
      ensures Running(View()) == Step(setup, old(View()), FinishingStores(bandwidth)) && Good(setup, View())
    {
      hide Inv, LoadStore.FinishStore;
      var k := 0;
      while k < |sq| && sq[k].fetchIssued
        invariant 0 <= k <= |sq| && FirstUnissued(sq) == k + FirstUnissued(sq[k..])
      {
        assert sq[k..][1..] == sq[k + 1..];
        k := k + 1;
      }
      FinishStoresRuns(setup, View(), k, bandwidth);
      var bw := bandwidth;
      ghost var first := k;
      while k < |sq| && bw > 0 && !sq[k].fetchIssued && sq[k].ready.Some? && sq[k].ready.value <= now
        invariant k <= |sq| && LoadStore.FinishStores(View(), k, bw) == LoadStore.FinishStores(old(View()), first, bandwidth)
        invariant LoadStore.FinishStores(old(View()), first, bandwidth).Running?
        decreases bw
      {
        StoreCountStays(View(), k);
        FinishStore(k);
        k, bw := k + 1, bw - 1;
      }
    }

    /** The second part of operate_lsq: finished stores of retired instructions go to the L1D. */
    method WriteStores(bandwidth: nat, room: nat)
      requires Good(setup, View())
      modifies this`sq, this`written
      ensures Running(View()) == Step(setup, old(View()), WritingStores(bandwidth, room)) && Good(setup, View())
    {
      hide Inv;
      WriteStoresKeeps(setup, View(), bandwidth, room);
      var bw, accepted := bandwidth, room;
      while bw > 0 && accepted > 0 && |sq| > 0 && (|rob| == 0 || sq[0].id < rob[0].id)
            && sq[0].ready.Some? && sq[0].ready.value <= now
        invariant LoadStore.WriteStores(View(), bw, accepted) == LoadStore.WriteStores(old(View()), bandwidth, room)
        decreases bw
      {
        written := written + [Written(sq[0].id, sq[0].addr)];
        sq := sq[1..];
        bw, accepted := bw - 1, accepted - 1;
      }
    }

    /** The last part of operate_lsq: ready loads that wait for no store go to the L1D. */
    method IssueLoads(bandwidth: nat, accepted: set<nat>)
      requires Good(setup, View())
      modifies lq
      ensures Running(View()) == Step(setup, old(View()), IssuingLoads(bandwidth, accepted)) && Good(setup, View())
    {
      hide Inv;
      IssueLoadsKeeps(setup, View(), 0, bandwidth, accepted);
      var bw, k := bandwidth, 0;
      while k < lq.Length && bw > 0
        invariant 0 <= k <= lq.Length
        invariant LoadStore.IssueLoads(View(), k, bw, accepted) == LoadStore.IssueLoads(old(View()), 0, bandwidth, accepted)
        decreases lq.Length - k
      {
        if lq[k].Some? && lq[k].value.producer.None? && !lq[k].value.fetchIssued
           && lq[k].value.ready.Some? && lq[k].value.ready.value < now && k in accepted {
          ghost var before := lq[..];
          lq[k] := Some(lq[k].value.(fetchIssued := true));
          assert lq[..] == before[k := lq[k]];
          bw := bw - 1;
        }
        k := k + 1;
      }
    }

    /** handle_memory_return for one block from the L1D. */
    method HandleReturn(block: nat)
      requires Good(setup, View())
      modifies this`rob, lq
      ensures Running(View()) == Step(setup, old(View()), Returning(block)) && Good(setup, View())
    {
      hide Inv, LoadStore.Finish;
      ReturnRuns(setup, View(), retired + |rob|, block, 0);
      var k := 0;
      while k < lq.Length
        invariant 0 <= k <= lq.Length
        invariant Return(setup, View(), block, k) == Return(setup, old(View()), block, 0)
        invariant Return(setup, old(View()), block, 0).Running?
      {
        if lq[k].Some? && lq[k].value.fetchIssued && setup.block(lq[k].value.addr) == block {
          Finish(lq[k].value.id);
          ghost var before := lq[..];
          lq[k] := None;
          assert lq[..] == before[k := None];
        }
        k := k + 1;
      }
    }
  }

  lemma CodeRemains(u: Setup, s: State)
    requires CanDispatch(u, s)
    ensures s.retired + |s.rob| < |u.code|
  {
  }

  lemma StoreCountStays(s: State, k: nat)
    requires k < |s.sq|
    ensures LoadStore.FinishStore(s, k).Running? ==> |LoadStore.FinishStore(s, k).state.sq| == |s.sq|
  {
  }
}
