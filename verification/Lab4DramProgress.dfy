/**
 * Progress of a DRAM channel whose arrivals have stopped and whose cycles go on: every read that was
 * accepted is answered, exactly if the write queue has more than one slot and a refresh ends before
 * the next one is due.
 */
module DramProgress {
  import opened Collections
  import opened DramChannel
  import opened DramDelivery
  import opened DramService

  // ---------- Requests wait since a time that has come ----------

  predicate TimelyEntry(r: Option<Request>, now: nat) {
    r.Some? && !r.value.scheduled && r.value.ready.Some? ==> r.value.ready.value <= now
  }

  ghost predicate Timely(c: Channel) {
    && (forall i :: 0 <= i < |c.rq| ==> TimelyEntry(c.rq[i], c.now))
    && (forall i :: 0 <= i < |c.wq| ==> TimelyEntry(c.wq[i], c.now))
  }

  lemma {:induction false} CheckWritesTimely(u: Setup, c: Channel, i: nat)
    requires Timely(c)
    ensures Timely(CheckWrites(u, c, i)) && CheckWrites(u, c, i).now == c.now
    decreases |c.wq| - i
  {
    if i < |c.wq| {
      CheckWriteTimely(u, c, i);
      CheckWritesTimely(u, CheckWrite(u, c, i), i + 1);
    }
  }

  lemma CheckWriteTimely(u: Setup, c: Channel, i: nat)
    requires Timely(c) && i < |c.wq|
    ensures Timely(CheckWrite(u, c, i)) && CheckWrite(u, c, i).now == c.now && |CheckWrite(u, c, i).wq| == |c.wq|
  {
    hide Find;
    assert TimelyEntry(c.wq[i], c.now);
  }

  lemma {:induction false} CheckReadsTimely(u: Setup, c: Channel, i: nat)
    requires Timely(c)
    ensures Timely(CheckReads(u, c, i)) && CheckReads(u, c, i).now == c.now
    decreases |c.rq| - i
  {
    if i < |c.rq| {
      CheckReadTimely(u, c, i);
      CheckReadsTimely(u, CheckRead(u, c, i), i + 1);
    }
  }

  lemma CheckReadTimely(u: Setup, c: Channel, i: nat)
    requires Timely(c) && i < |c.rq|
    ensures Timely(CheckRead(u, c, i)) && CheckRead(u, c, i).now == c.now && |CheckRead(u, c, i).rq| == |c.rq|
  {
    hide Find;
    var d := CheckRead(u, c, i);
    forall j | 0 <= j < |d.rq| ensures TimelyEntry(d.rq[j], d.now) {
      assert TimelyEntry(c.rq[i], c.now) && TimelyEntry(c.rq[j], c.now);
    }
  }

  lemma {:induction false} GiveBackTimely(u: Setup, c: Channel, b: nat)
    requires Timely(c) && BanksOccupied(c)
    ensures Timely(GiveBackFrom(u, c, b)) && GiveBackFrom(u, c, b).now == c.now
    decreases |c.banks| - b
  {
    if b < |c.banks| {
      GiveOneBackTimely(u, c, b);
      GiveBackTimely(u, GiveBack(u, c, b), b + 1);
    }
  }

  lemma GiveOneBackTimely(u: Setup, c: Channel, b: nat)
    requires Timely(c) && BanksOccupied(c) && b < |c.banks|
    ensures Timely(GiveBack(u, c, b)) && GiveBack(u, c, b).now == c.now
  {
  }

  lemma ServiceTimely(u: Setup, c: Channel)
    requires Mapped(u) && Sized(u, c) && Timely(c)
    ensures Timely(ServiceNext(u, c)) && ServiceNext(u, c).now == c.now
  {
    hide MinSlot;
  }

  lemma FinishTimely(u: Setup, c: Channel)
    requires Linked(u, c) && Timely(c)
    ensures CanFinish(u, c) ==> Occupied(c, c.banks[c.active.value].pkt)
    ensures Timely(FinishBus(u, c)) && FinishBus(u, c).now == c.now
  {
    LinkedSlots(u, c);
  }

  lemma SwapTimely(u: Setup, c: Channel)
    requires Linked(u, c) && Timely(c)
    ensures BanksOccupied(c) && Timely(SwapWriteMode(u, c)) && SwapWriteMode(u, c).now == c.now
  {
    hide MustSwap, Linked, GiveBackFrom;
    LinkedSlots(u, c);
    LinkedIsSized(u, c);
    GiveBackTimely(u, c, 0);
  }

  lemma OperateTimely(u: Setup, c: Channel)
    requires Linked(u, c) && Timely(c)
    ensures Timely(Operate(u, c)) && Operate(u, c).now == c.now
  {
    hide Linked, CheckWrites, CheckReads, FinishBus, SwapWriteMode, ServiceNext, MinBank;
    CheckWritesKeepsLinks(u, c, 0);
    CheckWritesTimely(u, c, 0);
    var written := CheckWrites(u, c, 0);
    CheckReadsKeepsLinks(u, written, 0);
    CheckReadsTimely(u, written, 0);
    var merged := CheckReads(u, written, 0);
    FinishKeepsLinks(u, merged);
    FinishTimely(u, merged);
    var finished := FinishBus(u, merged);
    LinkedIsSized(u, finished);
    SwapKeepsLinks(u, finished);
    SwapTimely(u, finished);
    var swapped := SwapWriteMode(u, finished);
    RefreshKeepsLinks(u, swapped);
    var refreshed := Refresh(u, swapped);
    LinkedIsSized(u, refreshed);
    PopulateKeepsLinks(u, refreshed);
    LinkedIsSized(u, PopulateBus(u, refreshed));
    ServiceTimely(u, PopulateBus(u, refreshed));
  }

  lemma LaterTimely(c: Channel, elapsed: nat)
    requires Timely(c)
    ensures Timely(c.(now := c.now + elapsed))
  {
    var d := c.(now := c.now + elapsed);
    forall i | 0 <= i < |d.rq| ensures TimelyEntry(d.rq[i], d.now) {
      assert TimelyEntry(c.rq[i], c.now);
    }
    forall i | 0 <= i < |d.wq| ensures TimelyEntry(d.wq[i], d.now) {
      assert TimelyEntry(c.wq[i], c.now);
    }
  }

  lemma StepTimely(u: Setup, s: System, e: Event)
    requires Good(u, s.channel, s.issued) && Timely(s.channel)
    ensures Timely(Step(u, s, e).channel)
  {
    hide Linked, Delivering, BlocksDiffer, Operate, FirstEmpty;
    match e
    case ReadArrives(r) =>
    case WriteArrives(a) =>
    case Cycle(elapsed) =>
      var c := s.channel.(now := s.channel.now + elapsed);
      TimeKeeps(u, s.channel, s.issued, c);
      LaterTimely(s.channel, elapsed);
      OperateTimely(u, c);
  }

  lemma {:induction false} RunTimely(u: Setup, s: System, events: seq<Event>)
    requires Good(u, s.channel, s.issued) && Timely(s.channel)
    ensures Timely(Run(u, s, events).channel)
    decreases |events|
  {
    hide Good, Timely, Step;
    if |events| > 0 {
      StepKeeps(u, s, events[0]);
      StepTimely(u, s, events[0]);
      RunTimely(u, Step(u, s, events[0]), events[1..]);
    }
  }

  // ---------- How many requests are left ----------

  function Pending(c: Channel): nat {
    Occupancy(c.rq) + Occupancy(c.wq)
  }

  lemma {:induction false} SameOccupancy(a: seq<Option<Request>>, b: seq<Option<Request>>)
    requires SameEntries(a, b)
    ensures Occupancy(a) == Occupancy(b)
  {
    if |a| > 0 {
      assert SameEntry(a[0], b[0]);
      assert SameEntries(a[1..], b[1..]);
      SameOccupancy(a[1..], b[1..]);
    }
  }

  lemma {:induction false} EmptiedOccupancy(q: seq<Option<Request>>, i: nat)
    requires i < |q| && q[i].Some?
    ensures Occupancy(q[i := None]) == Occupancy(q) - 1
  {
    if i == 0 {
      assert q[i := None][1..] == q[1..];
    } else {
      assert q[i := None][1..] == q[1..][i - 1 := None];
      EmptiedOccupancy(q[1..], i - 1);
    }
  }

  lemma {:induction false} EmptyQueue(q: seq<Option<Request>>)
    ensures Occupancy(q) == 0 <==> forall i :: 0 <= i < |q| ==> q[i].None?
  {
    if |q| > 0 {
      EmptyQueue(q[1..]);
      assert forall i :: 1 <= i < |q| ==> q[i] == q[1..][i - 1];
    }
  }

  // ---------- A cycle in which nothing finishes ----------

  /** Checked entries are left alone. */
  lemma {:induction false} NothingToCheck(u: Setup, c: Channel, i: nat)
    requires AllChecked(c.rq, |c.rq|) && AllChecked(c.wq, |c.wq|)
    ensures CheckWrites(u, c, i) == c && CheckReads(u, c, i) == c
    decreases |c.rq| + |c.wq| - i
  {
    if i < |c.rq| + |c.wq| {
      NothingToCheck(u, c, i + 1);
    }
  }

  /** The channel after the bus request, if any, has finished, and before the mode switch. */
  function Finished(u: Setup, c: Channel): (d: Channel)
    requires Linked(u, c)
    ensures Linked(u, d)
  {
    FinishKeepsLinks(u, c);
    FinishBus(u, c)
  }

  function Refreshed(u: Setup, c: Channel): (d: Channel)
    requires Linked(u, c)
    ensures Linked(u, d) && BanksOccupied(d)
  {
    SwapKeepsLinks(u, c);
    RefreshKeepsLinks(u, SwapWriteMode(u, c));
    LinkedSlots(u, Refresh(u, SwapWriteMode(u, c)));
    Refresh(u, SwapWriteMode(u, c))
  }

  function Populated(u: Setup, c: Channel): (d: Channel)
    requires Linked(u, c) && BanksOccupied(c)
    ensures Linked(u, d) && Mapped(u) && Sized(u, d)
  {
    PopulateKeepsLinks(u, c);
    PopulateBus(u, c)
  }

  /** A cycle of a channel whose entries are all checked. */
  lemma SettledCycle(u: Setup, c: Channel)
    requires Linked(u, c) && Settled(u, c)
    ensures Operate(u, c) == ServiceNext(u, Populated(u, Refreshed(u, Finished(u, c))))
  {
    hide Linked, FinishBus, SwapWriteMode, Refresh, PopulateBus, ServiceNext, BlocksDiffer;
    NothingToCheck(u, c, 0);
  }

  lemma FinishPending(u: Setup, c: Channel)
    requires Linked(u, c)
    ensures Pending(Finished(u, c)) == Pending(c) - if CanFinish(u, c) then 1 else 0
    ensures |Finished(u, c).wq| == |c.wq|
  {
    hide Occupancy, Linked;
    LinkedSlots(u, c);
    if CanFinish(u, c) {
      var s := c.banks[c.active.value].pkt;
      EmptiedOccupancy(Queue(c, s.write), s.index);
    }
  }

  /** The later steps neither add nor remove an entry. */
  lemma RestKeepsEntries(u: Setup, c: Channel)
    requires Linked(u, c)
    ensures var d := ServiceNext(u, Populated(u, Refreshed(u, c)));
      SameEntries(c.rq, d.rq) && SameEntries(c.wq, d.wq)
  {
    hide Linked, GiveBackFrom, Service, MinBank, MinSlot, MustSwap;
    LinkedSlots(u, c);
    LinkedIsSized(u, c);
    GiveBackFromSame(u, c, 0);
    var p := Populated(u, Refreshed(u, c));
    var k := MinSlot(u, p, Queue(p, p.writeMode), 0, 1);
    ServiceSame(u, p, Slot(p.writeMode, k));
    var d := ServiceNext(u, p);
    ChainEntries(c.rq, p.rq, d.rq);
    ChainEntries(c.wq, p.wq, d.wq);
  }

  lemma ChainEntries(a: seq<Option<Request>>, b: seq<Option<Request>>, c: seq<Option<Request>>)
    requires SameEntries(a, b) && SameEntries(b, c)
    ensures SameEntries(a, c)
  {
    forall i | 0 <= i < |a| ensures SameEntry(a[i], c[i]) {
      assert SameEntry(a[i], b[i]) && SameEntry(b[i], c[i]);
    }
  }

  /** A cycle removes one entry if the request on the bus has finished, and none otherwise. */
  lemma CyclePending(u: Setup, c: Channel)
    requires Linked(u, c) && Settled(u, c)
    ensures Pending(Operate(u, c)) == Pending(c) - if CanFinish(u, c) then 1 else 0
    ensures |Operate(u, c).wq| == |c.wq|
    ensures !CanFinish(u, c) ==>
      Occupancy(Operate(u, c).rq) == Occupancy(c.rq) && Occupancy(Operate(u, c).wq) == Occupancy(c.wq)
  {
    hide Linked, Settled, Operate, ServiceNext, Occupancy, CanFinish, Populated, Refreshed;
    SettledCycle(u, c);
    FinishPending(u, c);
    var f := Finished(u, c);
    RestKeepsEntries(u, f);
    SameOccupancy(f.rq, Operate(u, c).rq);
    SameOccupancy(f.wq, Operate(u, c).wq);
    assert !CanFinish(u, c) ==> f == c;
  }

  // ---------- The mode settles ----------

  lemma LaterKeepsMode(u: Setup, c: Channel)
    requires Linked(u, c)
    ensures ServiceNext(u, Populated(u, Refreshed(u, c))).writeMode == if MustSwap(c) then !c.writeMode else c.writeMode
  {
    hide Linked, GiveBackFrom, MinBank, MinSlot, MustSwap;
    LinkedSlots(u, c);
    LinkedIsSized(u, c);
    GiveBackFromKeepsLinks(u, c, 0);
  }

  lemma QuietMode(u: Setup, c: Channel)
    requires Linked(u, c) && Settled(u, c) && !CanFinish(u, c)
    ensures Operate(u, c).writeMode == if MustSwap(c) then !c.writeMode else c.writeMode
  {
    hide Linked, Settled, Operate, ServiceNext, MustSwap, CanFinish, Populated, Refreshed;
    SettledCycle(u, c);
    LaterKeepsMode(u, c);
  }

  /** With two slots or more for writes, a cycle without an answer leaves a mode that stays. */
  lemma ModeSettles(u: Setup, c: Channel)
    requires Linked(u, c) && Settled(u, c) && !CanFinish(u, c) && |c.wq| >= 2
    ensures !MustSwap(Operate(u, c))
  {
    hide Linked, Settled, Operate, CanFinish, Occupancy;
    CyclePending(u, c);
    QuietMode(u, c);
  }

  // ---------- The request on the bus ----------

  lemma SwapKeepsActive(u: Setup, c: Channel)
    requires Linked(u, c) && c.active.Some?
    ensures BanksOccupied(c)
    ensures var d := SwapWriteMode(u, c); d.active == c.active && d.banks[c.active.value] == c.banks[c.active.value]
  {
    hide MustSwap, GiveBackFrom;
    LinkedSlots(u, c);
    GiveBackSkipsActive(u, c, 0);
  }

  lemma {:induction false} GiveBackSkipsActive(u: Setup, c: Channel, b: nat)
    requires BanksOccupied(c) && c.active.Some? && c.active.value < |c.banks|
    ensures var d := GiveBackFrom(u, c, b); d.active == c.active && d.banks[c.active.value] == c.banks[c.active.value]
    decreases |c.banks| - b
  {
    if b < |c.banks| {
      GiveBackSkipsActive(u, GiveBack(u, c, b), b + 1);
    }
  }

  lemma ActiveStays(u: Setup, c: Channel)
    requires Linked(u, c) && Settled(u, c) && !CanFinish(u, c) && c.active.Some?
    ensures var d, a := Operate(u, c), c.active.value;
      d.active == c.active && a < |c.banks| == |d.banks| && d.banks[a].ready == c.banks[a].ready
  {
    hide Settled, Operate, MustSwap, MinBank, MinSlot, SwapWriteMode;
    SettledCycle(u, c);
    SwapKeepsActive(u, c);
    SwapKeepsLinks(u, c);
    var a := c.active.value;
    assert BankLinked(u, c, a);
  }

  // ---------- A request at a bank ----------

  lemma SteadySwap(u: Setup, c: Channel)
    requires Linked(u, c) && !MustSwap(c)
    ensures Refreshed(u, c) == Refresh(u, c)
  {
    LinkedSlots(u, c);
  }

  /** A bank with a request keeps it and its time through refresh. */
  lemma RefreshKeepsBusy(u: Setup, c: Channel, b: nat)
    requires Linked(u, c) && b < |c.banks| && c.banks[b].valid
    ensures var d := Refresh(u, c);
      d.banks[b].valid && d.banks[b].ready == c.banks[b].ready && d.busFree == c.busFree && d.active == c.active
  {
    assert BankLinked(u, c, b);
  }

  /** With no request on the bus, the bus is taken once it is free and a bank is ready. */
  lemma PopulateTakes(u: Setup, c: Channel, b: nat)
    requires Linked(u, c) && BanksOccupied(c) && c.active.None? && b < |c.banks| && c.banks[b].valid
    ensures var d := Populated(u, c);
      if c.busFree <= c.now && c.banks[b].ready <= c.now then d.active.Some?
      else d.active.Some? || d == c
  {
    hide Linked, MinBank;
    LinkedIsSized(u, c);
    MinBankIsFirstReady(c.banks, 0, 1);
  }

  lemma ServiceKeepsBusy(u: Setup, c: Channel, b: nat)
    requires Mapped(u) && Sized(u, c) && b < |c.banks| && c.banks[b].valid
    ensures var d := ServiceNext(u, c);
      |d.banks| == |c.banks| && d.banks[b] == c.banks[b] && d.active == c.active && d.busFree == c.busFree
  {
    hide MinSlot;
  }

  lemma BusyStays(u: Setup, c: Channel, b: nat)
    requires Linked(u, c) && Settled(u, c) && c.active.None? && !MustSwap(c) && b < |c.banks| && c.banks[b].valid
    ensures var d := Operate(u, c);
      || d.active.Some?
      || (&& b < |d.banks| && d.banks[b].valid && d.banks[b].ready == c.banks[b].ready && d.busFree == c.busFree
          && (c.now < c.busFree || c.now < c.banks[b].ready))
  {
    hide Linked, Settled, Operate, MustSwap, ServiceNext, Populated, Refreshed, Refresh;
    SettledCycle(u, c);
    assert Finished(u, c) == c;
    SteadySwap(u, c);
    RefreshKeepsBusy(u, c, b);
    var r := Refreshed(u, c);
    PopulateTakes(u, r, b);
    var p := Populated(u, r);
    if p == r {
      ServiceKeepsBusy(u, p, b);
    } else {
      LinkedIsSized(u, p);
      ActiveIsBusy(u, p);
      ServiceKeepsBusy(u, p, p.active.value);
    }
  }

  lemma ActiveIsBusy(u: Setup, c: Channel)
    requires Linked(u, c) && c.active.Some?
    ensures c.active.value < |c.banks| && c.banks[c.active.value].valid
  {
  }

  // ---------- No bank has a request ----------

  predicate NoneBusy(c: Channel) {
    forall b :: 0 <= b < |c.banks| ==> !c.banks[b].valid
  }

  /** Bank of the request in slot `k` of the queue of the current mode. */
  function BankAt(u: Setup, c: Channel, k: nat): (b: nat)
    requires Mapped(u) && |c.banks| == u.banks && Waits(u, c, k)
    ensures b < |c.banks|
  {
    u.bankOf(Queue(c, c.writeMode)[k].value.address)
  }

  lemma SomeoneIsForemost(u: Setup, c: Channel) returns (k: nat)
    requires Linked(u, c) && NoneBusy(c) && !MustSwap(c) && Pending(c) > 0
    ensures Mapped(u) && |c.banks| == u.banks && Foremost(u, c, k)
  {
    hide MinSlot, Foremost, Occupancy;
    var q := Queue(c, c.writeMode);
    EmptyQueue(q);
    var i: nat :| i < |q| && q[i].Some?;
    assert SlotLinked(u, c, Slot(c.writeMode, i));
    assert Waits(u, c, i);
    TakesForemost(u, c);
    k := MinSlot(u, c, q, 0, 1);
  }

  lemma TimelySince(c: Channel, k: nat)
    requires Timely(c) && k < |Queue(c, c.writeMode)|
    requires var r := Queue(c, c.writeMode)[k]; r.Some? && !r.value.scheduled
    ensures Since(c, k) <= c.now
  {
    assert TimelyEntry(Queue(c, c.writeMode)[k], c.now);
  }

  /** A change of the idle banks' refresh alone leaves the foremost request where it is. */
  lemma ForemostStays(u: Setup, c: Channel, d: Channel, k: nat)
    requires Mapped(u) && |c.banks| == u.banks == |d.banks| && NoneBusy(c) && NoneBusy(d) && Foremost(u, c, k)
    requires d.rq == c.rq && d.wq == c.wq && d.writeMode == c.writeMode
    ensures Foremost(u, d, k) && BankAt(u, d, k) == BankAt(u, c, k)
  {
    forall j: nat | j < |Queue(d, d.writeMode)| && j != k && Waits(u, d, j) ensures Ahead(d, k, j) {
      assert Waits(u, c, j);
    }
  }

  lemma NothingToPopulate(u: Setup, c: Channel)
    requires Linked(u, c) && BanksOccupied(c) && NoneBusy(c)
    ensures Populated(u, c) == c
  {
    hide MinBank;
  }

  lemma RefreshKeepsIdle(u: Setup, c: Channel)
    requires NoneBusy(c)
    ensures NoneBusy(Refresh(u, c))
  {
  }

  /** With all banks idle a cycle refreshes, and starts the foremost request unless its bank is under refresh. */
  lemma IdleCycle(u: Setup, c: Channel, k: nat)
    requires Linked(u, c) && Settled(u, c) && Timely(c) && c.active.None? && !MustSwap(c) && NoneBusy(c)
    requires Foremost(u, c, k)
    ensures var r, d, b := Refresh(u, c), Operate(u, c), BankAt(u, c, k);
      if r.banks[b].underRefresh then d == r else b < |d.banks| && d.banks[b].valid && d.active.None?
  {
    hide Linked, Settled, Operate, MustSwap, ServiceNext, Populated, Refreshed, Refresh, Foremost, Waits, Ahead;
    LinkedIsSized(u, c);
    SettledCycle(u, c);
    assert Finished(u, c) == c;
    SteadySwap(u, c);
    var r := Refresh(u, c);
    RefreshKeepsIdle(u, c);
    RefreshKeepsLinks(u, c);
    NothingToPopulate(u, r);
    ForemostStays(u, c, r, k);
    ForemostStarts(u, r, k);
  }

  lemma ForemostStarts(u: Setup, c: Channel, k: nat)
    requires Linked(u, c) && Timely(c) && Foremost(u, c, k)
    ensures var d, b := ServiceNext(u, c), BankAt(u, c, k);
      if c.banks[b].underRefresh then d == c else b < |d.banks| && d.banks[b].valid && d.active == c.active
  {
    hide Linked, ServiceNext, Ahead;
    LinkedIsSized(u, c);
    ServiceStartsForemost(u, c, k);
    TimelySince(c, k);
  }
}
