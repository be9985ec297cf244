/** The DRAM channel as the simulator updates it, each step tied to its function on values. */
module DramChannelCore {
  import opened Collections
  import opened DramChannel
  import opened DramDelivery

  class ChannelUnit {
    const setup: Setup
    const rq: array<Option<Request>>
    const wq: array<Option<Request>>
    const banks: array<Bank>
    const groupReady: array<nat>
    var active: Option<nat>
    var writeMode: bool
    var busFree: nat
    var lastRefresh: nat
    var now: nat
    var answers: seq<Answer>

    ghost function Footprint(): set<object> {
      {this as object, rq, wq, banks, groupReady}
    }

    ghost function View(): Channel
      reads Footprint()
    {
      Channel(rq[..], wq[..], banks[..], active, writeMode, busFree, groupReady[..], lastRefresh, now, answers)
    }

    ghost predicate Valid()
      reads Footprint()
    {
      rq != wq && Linked(setup, View())
    }

    /** The slot at a position of one of the queues. */
    method SetSlot(s: Slot, r: Option<Request>)
      requires rq != wq && s.index < |Queue(View(), s.write)|
      modifies rq, wq
      ensures View() == Put(old(View()), s, r)
    {
      if s.write {
        wq[s.index] := r;
        assert wq[..] == old(wq[..])[s.index := r];
      } else {
        rq[s.index] := r;
        assert rq[..] == old(rq[..])[s.index := r];
      }
    }

    method FindCollision(q: array<Option<Request>>, address: nat, lo: nat, hi: nat) returns (j: nat)
      requires lo <= hi <= q.Length
      ensures j == Find(setup, q[..], address, lo, hi)
    {
      j := lo;
      while j < hi && !Collides(setup, q[j], address)
        invariant lo <= j <= hi && Find(setup, q[..], address, j, hi) == Find(setup, q[..], address, lo, hi)
      {
        j := j + 1;
      }
    }

    method FindEmpty(q: array<Option<Request>>) returns (i: nat)
      ensures i == FirstEmpty(q[..])
    {
      i := 0;
      while i < q.Length && q[i].Some?
        invariant 0 <= i <= q.Length && FirstEmpty(q[..]) == i + FirstEmpty(q[i..])
      {
        assert q[i..][1..] == q[i + 1..];
        i := i + 1;
      }
    }

    method AddRq(r: Read, tag: nat) returns (accepted: bool)
      requires Valid()
      modifies rq
      ensures Valid() && View() == AddRead(old(View()), r, tag)
      ensures accepted <==> FirstEmpty(old(rq[..])) < rq.Length
    {
      hide Linked, FirstEmpty;
      AddKeepsLinks(setup, View(), r, tag, 0);
      var i := FindEmpty(rq);
      accepted := i < rq.Length;
      if accepted {
        rq[i] := Some(Request(r.address, false, false, Some(now), {tag},
                              if r.queue.Some? then {r.queue.value} else {}, r.deps));
        assert rq[..] == old(rq[..])[i := rq[i]];
      }
    }

    method AddWq(address: nat) returns (accepted: bool)
      requires Valid()
      modifies wq
      ensures Valid() && View() == AddWrite(old(View()), address)
      ensures accepted <==> FirstEmpty(old(wq[..])) < wq.Length
    {
      hide Linked, FirstEmpty;
      AddKeepsLinks(setup, View(), Read(0, None, {}), 0, address);
      var i := FindEmpty(wq);
      accepted := i < wq.Length;
      if accepted {
        wq[i] := Some(Request(address, false, false, Some(now), {}, {}, {}));
        assert wq[..] == old(wq[..])[i := wq[i]];
      }
    }

    method CheckWriteCollision()
      requires Valid()
      modifies wq
      ensures Valid() && View() == CheckWrites(setup, old(View()), 0)
    {
      hide Linked, Find;
      CheckWritesKeepsLinks(setup, View(), 0);
      var i := 0;
      while i < wq.Length
        invariant 0 <= i <= wq.Length
        invariant CheckWrites(setup, View(), i) == CheckWrites(setup, old(View()), 0)
      {
        ghost var before := View();
        if wq[i].Some? && !wq[i].value.checked {
          var a := wq[i].value.address;
          var found := FindCollision(wq, a, 0, i);
          if found == i {
            found := FindCollision(wq, a, i + 1, wq.Length);
          }
          wq[i] := if found != wq.Length then None else Some(wq[i].value.(checked := true));
          assert wq[..] == before.wq[i := wq[i]];
        }
        assert View() == CheckWrite(setup, before, i);
        i := i + 1;
      }
    }

    method CheckReadCollision()
      requires Valid()
      modifies this`answers, rq
      ensures Valid() && View() == CheckReads(setup, old(View()), 0)
    {
      hide Linked, CheckRead;
      CheckReadsKeepsLinks(setup, View(), 0);
      var i := 0;
      while i < rq.Length
        invariant 0 <= i <= rq.Length && unchanged(wq, banks, groupReady)
        invariant CheckReads(setup, View(), i) == CheckReads(setup, old(View()), 0)
      {
        CheckOneRead(i);
        i := i + 1;
      }
    }

    method CheckOneRead(i: nat)
      requires rq != wq && i < rq.Length
      modifies this`answers, rq
      ensures View() == CheckRead(setup, old(View()), i)
    {
      hide Find;
      if rq[i].Some? && !rq[i].value.checked {
        var r := rq[i].value;
        var inWrites := FindCollision(wq, r.address, 0, wq.Length);
        var before := FindCollision(rq, r.address, 0, i);
        var after := FindCollision(rq, r.address, i + 1, rq.Length);
        if inWrites != wq.Length {
          answers := answers + [AnswerOf(r)];
          rq[i] := None;
          assert rq[..] == old(rq[..])[i := None];
        } else if before != i {
          rq[before] := Some(Absorb(rq[before].value, r));
          rq[i] := None;
          assert rq[..] == old(rq[..])[before := rq[before]][i := None];
        } else if after != rq.Length {
          rq[after] := Some(Absorb(rq[after].value, r));
          rq[i] := None;
          assert rq[..] == old(rq[..])[after := rq[after]][i := None];
        } else {
          rq[i] := Some(r.(checked := true));
          assert rq[..] == old(rq[..])[i := rq[i]];
        }
      }
    }

    method FinishDbusRequest()
      requires Valid()
      modifies Footprint()
      ensures Valid() && (CanFinish(setup, old(View())) ==> Occupied(old(View()), old(View()).banks[old(active).value].pkt))
      ensures View() == FinishBus(setup, old(View()))
    {
      hide Linked;
      LinkedSlots(setup, View());
      ActiveInRange(setup, View());
      FinishKeepsLinks(setup, View());
      if active.Some? && banks[active.value].ready <= now {
        var b := active.value;
        var s := banks[b].pkt;
        var r := if s.write then wq[s.index].value else rq[s.index].value;
        answers := answers + [AnswerOf(r)];
        banks[b] := banks[b].(valid := false);
        assert banks[..] == old(banks[..])[b := banks[b]];
        active := None;
        SetSlot(s, None);
      }
    }

    method Count(q: array<Option<Request>>) returns (n: nat)
      ensures n == Occupancy(q[..])
    {
      n := 0;
      var i := q.Length;
      while i > 0
        invariant 0 <= i <= q.Length && n == Occupancy(q[i..])
      {
        i := i - 1;
        assert q[i..][1..] == q[i + 1..];
        if q[i].Some? {
          n := n + 1;
        }
      }
      assert q[0..] == q[..];
    }

    /** One bank of the loop in swap_write_mode. */
    method ReturnRequest(b: nat)
      requires rq != wq && BanksOccupied(View()) && b < banks.Length
      modifies rq, wq, banks
      ensures View() == GiveBack(setup, old(View()), b)
    {
      if active != Some(b) && banks[b].valid {
        var bank := banks[b];
        var s := bank.pkt;
        assert Occupied(View(), s);
        var r := if s.write then wq[s.index].value else rq[s.index].value;
        var row := if bank.ready < now + setup.tCAS then None else bank.openRow;
        banks[b] := bank.(openRow := row, valid := false);
        assert banks[..] == old(banks[..])[b := banks[b]];
        SetSlot(s, Some(r.(scheduled := false, ready := Some(now))));
      }
    }

    method SwapMode()
      requires Valid()
      modifies Footprint()
      ensures Valid() && BanksOccupied(old(View()))
      ensures old(active).Some? ==> old(active).value < |old(View()).banks|
      ensures View() == SwapWriteMode(setup, old(View()))
    {
      hide Linked, GiveBack;
      SwapKeepsLinks(setup, View());
      ActiveInRange(setup, View());
      var writeCount := Count(wq);
      var readCount := Count(rq);
      if (!writeMode && (writeCount >= wq.Length * 7 / 8 || (readCount == 0 && writeCount > 0)))
         || (writeMode && (writeCount == 0 || (readCount > 0 && writeCount < wq.Length * 6 / 8))) {
        var free := (if active.Some? then banks[active.value].ready else now) + setup.turnAround;
        var b := 0;
        while b < banks.Length
          invariant 0 <= b <= banks.Length && BanksOccupied(View()) && unchanged(this) && unchanged(groupReady)
          invariant GiveBackFrom(setup, View(), b) == GiveBackFrom(setup, old(View()), 0)
        {
          ReturnRequest(b);
          b := b + 1;
        }
        busFree := free;
        writeMode := !writeMode;
      }
    }

    method ScheduleRefresh()
      requires Valid()
      modifies this`lastRefresh, banks
      ensures Valid() && View() == Refresh(setup, old(View()))
    {
      hide Linked;
      RefreshKeepsLinks(setup, View());
      var due := now >= lastRefresh + setup.tREF;
      if due {
        lastRefresh := now;
      }
      ghost var before := banks[..];
      var b := 0;
      while b < banks.Length
        modifies banks
        invariant 0 <= b <= banks.Length
        invariant forall a :: 0 <= a < b ==> banks[a] == RefreshBank(setup, before[a], due, now)
        invariant forall a :: b <= a < banks.Length ==> banks[a] == before[a]
      {
        var bank := banks[b];
        var need := bank.needRefresh || due;
        if need && !bank.valid {
          banks[b] := bank.(ready := now + setup.tRFC, needRefresh := false, underRefresh := true);
        } else if bank.underRefresh && bank.ready <= now {
          banks[b] := bank.(needRefresh := need, underRefresh := false, openRow := None);
        } else {
          banks[b] := bank.(needRefresh := need);
        }
        b := b + 1;
      }
      assert banks[..] == Refresh(setup, old(View())).banks;
    }

    method PopulateDbus()
      requires Valid()
      modifies this`active, banks, groupReady
      ensures Valid() && BanksOccupied(old(View())) && Mapped(setup) && Sized(setup, old(View()))
      ensures View() == PopulateBus(setup, old(View()))
    {
      hide Linked;
      PopulateKeepsLinks(setup, View());
      ActiveInRange(setup, View());
      var best, i := 0, 1;
      while i < banks.Length
        invariant 1 <= i <= banks.Length && best < i
        invariant MinBank(banks[..], best, i) == MinBank(banks[..], 0, 1)
      {
        if BankBefore(banks[i], banks[best]) {
          best := i;
        }
        i := i + 1;
      }
      if banks[best].valid && banks[best].ready <= now && active.None? && busFree <= now {
        var s := banks[best].pkt;
        assert Occupied(View(), s);
        var g := setup.groupOf(if s.write then wq[s.index].value.address else rq[s.index].value.address);
        var start := if groupReady[g] > now then groupReady[g] else now;
        active := Some(best);
        banks[best] := banks[best].(ready := start + setup.returnTime);
        groupReady[g] := now + setup.returnTime + setup.groupStall;
        assert banks[..] == old(banks[..])[best := banks[best]];
        assert groupReady[..] == old(groupReady[..])[g := groupReady[g]];
      }
    }

    method SchedulePacket() returns (s: Slot)
      requires Valid()
      ensures Mapped(setup) && Sized(setup, View())
      ensures s.write == writeMode && s.index < |Queue(View(), s.write)|
      ensures s.index == MinSlot(setup, View(), Queue(View(), writeMode), 0, 1)
      ensures forall j :: 0 <= j < |Queue(View(), writeMode)| ==> AsGood(setup, View(), Queue(View(), writeMode), s.index, j)
    {
      hide Linked;
      ActiveInRange(setup, View());
      var q := if writeMode then wq else rq;
      var best, i := 0, 1;
      while i < q.Length
        invariant 1 <= i <= q.Length && best < i
        invariant MinSlot(setup, View(), q[..], best, i) == MinSlot(setup, View(), q[..], 0, 1)
      {
        if ScheduledBefore(q[i], q[best]) {
          best := i;
        }
        i := i + 1;
      }
      MinSlotIsBest(setup, View(), q[..], 0, 1);
      s := Slot(writeMode, best);
    }

    /** The scheduler's comparison, reading the banks. */
    function ScheduledBefore(l: Option<Request>, r: Option<Request>): (before: bool)
      requires Mapped(setup) && banks.Length == setup.banks
      reads Footprint()
      ensures before == ScheduleBefore(setup, View(), l, r)
    {
      if !Candidate(r) then true
      else if !Candidate(l) then false
      else
        var lFree, rFree := !banks[setup.bankOf(l.value.address)].valid, !banks[setup.bankOf(r.value.address)].valid;
        if rFree == lFree then ReadyBy(l.value.ready, r.value.ready) else lFree
    }

    method ServicePacket(s: Slot)
      requires Valid() && Mapped(setup) && Sized(setup, View())
      requires s.write == writeMode && s.index < |Queue(View(), s.write)|
      requires Occupied(View(), s) ==> At(View(), s).checked
      modifies rq, wq, banks
      ensures Valid() && View() == Service(setup, old(View()), s)
    {
      hide Linked;
      ServiceKeepsLinks(setup, View(), s);
      var slot := if s.write then wq[s.index] else rq[s.index];
      if slot.Some? && ReadyBy(slot.value.ready, Some(now)) {
        var r := slot.value;
        var b := setup.bankOf(r.address);
        if !banks[b].valid && !banks[b].underRefresh {
          var row := setup.rowOf(r.address);
          var hit := banks[b].openRow == Some(row);
          var charge := if hit then 0 else if banks[b].openRow.Some? then setup.tRP + setup.tRCD else setup.tRCD;
          banks[b] := Bank(true, hit, false, false, Some(row), now + setup.tCAS + charge, s);
          assert banks[..] == old(banks[..])[b := banks[b]];
          SetSlot(s, Some(r.(scheduled := true, ready := None)));
        }
      }
    }

    /** operate, outside warmup. */
    method OperateChannel(ghost issued: seq<Read>)
      requires Valid() && Good(setup, View(), issued)
      modifies Footprint()
      ensures Valid() && Good(setup, View(), issued) && View() == Operate(setup, old(View()))
    {
      hide Linked, Delivering, CheckWrites, CheckReads, FinishBus, SwapWriteMode, Refresh, PopulateBus, Service;
      hide RefreshPending, BlocksDiffer;
      OperateKeeps(setup, View(), issued);
      ChecksKeep(setup, View(), issued);
      CheckWriteCollision();
      CheckReadCollision();
      FinishDelivers(setup, View(), issued);
      FinishDbusRequest();
      SwapDelivers(setup, View(), issued);
      SwapMode();
      RefreshKeeps(setup, View(), issued);
      ScheduleRefresh();
      PopulateKeeps(setup, View(), issued);
      PopulateDbus();
      var s := SchedulePacket();
      SettledAt(setup, View(), s);
      ServicePacket(s);
    }
  }

  lemma SettledAt(u: Setup, c: Channel, s: Slot)
    requires Settled(u, c)
    ensures Occupied(c, s) ==> At(c, s).checked
  {
  }
}
