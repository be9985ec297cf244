/**
 * Which request a DRAM channel starts in a cycle, and when its bank is ready: the one that has
 * waited longest among those whose banks are idle, provided its bank is not under refresh.
 */
module DramService {
  import opened Collections
  import opened DramChannel
  import opened DramDelivery

  // ---------- The foremost request ----------

  /** Slot `k` of the queue of the current mode holds a request not yet started whose bank is idle. */
  predicate Waits(u: Setup, c: Channel, k: nat)
    requires Mapped(u) && |c.banks| == u.banks
  {
    var q := Queue(c, c.writeMode);
    k < |q| && q[k].Some? && !q[k].value.scheduled && !c.banks[u.bankOf(q[k].value.address)].valid
  }

  /** The time since which the request in slot `k` waits. */
  function Since(c: Channel, k: nat): nat
    requires k < |Queue(c, c.writeMode)|
  {
    var r := Queue(c, c.writeMode)[k];
    if r.Some? && r.value.ready.Some? then r.value.ready.value else 0
  }

  /** The longer wait comes first; of two that wait equally long, the later slot does. */
  predicate Ahead(c: Channel, k: nat, j: nat)
    requires k < |Queue(c, c.writeMode)| && j < |Queue(c, c.writeMode)|
  {
    Since(c, k) < Since(c, j) || (Since(c, k) == Since(c, j) && k > j)
  }

  predicate Foremost(u: Setup, c: Channel, k: nat)
    requires Mapped(u) && |c.banks| == u.banks
  {
    Waits(u, c, k) && forall j: nat :: j < |Queue(c, c.writeMode)| && j != k && Waits(u, c, j) ==> Ahead(c, k, j)
  }

  lemma ForemostIsUnique(u: Setup, c: Channel, k: nat, j: nat)
    requires Mapped(u) && |c.banks| == u.banks && Foremost(u, c, k) && Foremost(u, c, j)
    ensures k == j
  {
  }

  /** The slot is the foremost of the first `i` ones, if any of them waits. */
  predicate LeadsTo(u: Setup, c: Channel, k: nat, i: nat)
    requires Mapped(u) && |c.banks| == u.banks && k < |Queue(c, c.writeMode)| && i <= |Queue(c, c.writeMode)|
  {
    forall j: nat :: j < i && j != k && Waits(u, c, j) ==> Waits(u, c, k) && Ahead(c, k, j)
  }

  lemma ScheduleBeforeIs(u: Setup, c: Channel, i: nat, best: nat)
    requires Linked(u, c) && best < i < |Queue(c, c.writeMode)|
    ensures var q := Queue(c, c.writeMode);
      && (Waits(u, c, i) ==> (ScheduleBefore(u, c, q[i], q[best]) <==> !Waits(u, c, best) || Ahead(c, i, best)))
      && (!Waits(u, c, i) && Waits(u, c, best) ==> !ScheduleBefore(u, c, q[i], q[best]))
  {
    assert SlotLinked(u, c, Slot(c.writeMode, i));
    assert SlotLinked(u, c, Slot(c.writeMode, best));
  }

  lemma {:induction false} MinSlotLeads(u: Setup, c: Channel, best: nat, i: nat)
    requires Linked(u, c) && best < i <= |Queue(c, c.writeMode)| && LeadsTo(u, c, best, i)
    ensures LeadsTo(u, c, MinSlot(u, c, Queue(c, c.writeMode), best, i), |Queue(c, c.writeMode)|)
    decreases |Queue(c, c.writeMode)| - i
  {
    hide Linked, ScheduleBefore, Waits, Ahead;
    LinkedIsSized(u, c);
    var q := Queue(c, c.writeMode);
    if i < |q| {
      var next := if ScheduleBefore(u, c, q[i], q[best]) then i else best;
      NextLeads(u, c, best, i, next);
      MinSlotLeads(u, c, next, i + 1);
    }
  }

  lemma NextLeads(u: Setup, c: Channel, best: nat, i: nat, next: nat)
    requires Linked(u, c) && best < i < |Queue(c, c.writeMode)| && LeadsTo(u, c, best, i)
    requires next == if ScheduleBefore(u, c, Queue(c, c.writeMode)[i], Queue(c, c.writeMode)[best]) then i else best
    ensures LeadsTo(u, c, next, i + 1)
  {
    hide Linked, ScheduleBefore, Waits, Since;
    LinkedIsSized(u, c);
    ScheduleBeforeIs(u, c, i, best);
  }

  lemma LinkedIsSized(u: Setup, c: Channel)
    requires Linked(u, c)
    ensures Mapped(u) && Sized(u, c)
  {
  }

  /** The scheduler takes the foremost request; there is one exactly if any request waits. */
  lemma TakesForemost(u: Setup, c: Channel)
    requires Linked(u, c)
    ensures var k := MinSlot(u, c, Queue(c, c.writeMode), 0, 1);
      && (Waits(u, c, k) <==> Foremost(u, c, k))
      && (Waits(u, c, k) <==> exists j: nat :: Waits(u, c, j))
  {
    hide Linked, Waits, MinSlot, Ahead;
    LinkedIsSized(u, c);
    MinSlotLeads(u, c, 0, 1);
    var k := MinSlot(u, c, Queue(c, c.writeMode), 0, 1);
    WaitsInRange(u, c);
  }

  lemma WaitsInRange(u: Setup, c: Channel)
    requires Mapped(u) && |c.banks| == u.banks
    ensures forall j: nat :: Waits(u, c, j) ==> j < |Queue(c, c.writeMode)|
  {
  }

  // ---------- What is started ----------

  /** The request's wait is over and its bank is not under refresh. */
  predicate CanStart(u: Setup, c: Channel, k: nat)
    requires Mapped(u) && |c.banks| == u.banks && Waits(u, c, k)
  {
    Since(c, k) <= c.now && !c.banks[u.bankOf(Queue(c, c.writeMode)[k].value.address)].underRefresh
  }

  /** The time a bank takes for a row: the column access, the activation of the row, the precharge of another one. */
  function Delay(u: Setup, open: Option<nat>, row: nat): nat {
    match open
    case None => u.tRCD + u.tCAS
    case Some(other) => if other == row then u.tCAS else u.tRP + u.tRCD + u.tCAS
  }

  /** The request in slot `k`, and only it, has been started between `c` and `d`. */
  ghost predicate Started(u: Setup, c: Channel, d: Channel, k: nat)
    requires Mapped(u) && |c.banks| == u.banks && Waits(u, c, k)
  {
    var q := Queue(c, c.writeMode);
    var r := q[k].value;
    var b, row := u.bankOf(r.address), u.rowOf(r.address);
    && d == c.(rq := d.rq, wq := d.wq, banks := d.banks)
    && Queue(d, !c.writeMode) == Queue(c, !c.writeMode)
    && Queue(d, c.writeMode) == q[k := Some(r.(scheduled := true, ready := None))]
    && |d.banks| == |c.banks| && (forall a :: 0 <= a < |c.banks| && a != b ==> d.banks[a] == c.banks[a])
    && d.banks[b].valid && d.banks[b].pkt == Slot(c.writeMode, k)
    && !d.banks[b].needRefresh && !d.banks[b].underRefresh
    && d.banks[b].openRow == Some(row) && (d.banks[b].hit <==> c.banks[b].openRow == Some(row))
    && d.banks[b].ready == c.now + Delay(u, c.banks[b].openRow, row)
  }

  lemma ServiceStarts(u: Setup, c: Channel, k: nat)
    requires Linked(u, c) && Waits(u, c, k)
    ensures var d := Service(u, c, Slot(c.writeMode, k));
      if CanStart(u, c, k) then Started(u, c, d, k) else d == c
  {
    assert SlotLinked(u, c, Slot(c.writeMode, k));
  }

  lemma ServiceWithoutWait(u: Setup, c: Channel, k: nat)
    requires Linked(u, c) && k < |Queue(c, c.writeMode)| && !Waits(u, c, k)
    ensures Service(u, c, Slot(c.writeMode, k)) == c
  {
    assert SlotLinked(u, c, Slot(c.writeMode, k));
  }

  /**
   * The service step starts the foremost request if it can start, with its bank ready after the
   * delay of its row, and otherwise changes nothing at all.
   */
  lemma ServiceStartsForemost(u: Setup, c: Channel, k: nat)
    requires Linked(u, c)
    ensures Foremost(u, c, k) && CanStart(u, c, k) ==> Started(u, c, ServiceNext(u, c), k)
    ensures Foremost(u, c, k) && !CanStart(u, c, k) ==> ServiceNext(u, c) == c
    ensures (forall j: nat :: !Waits(u, c, j)) ==> ServiceNext(u, c) == c
  {
    hide Linked, Waits, MinSlot, Ahead, Service, Started, CanStart;
    LinkedIsSized(u, c);
    TakesForemost(u, c);
    var m := MinSlot(u, c, Queue(c, c.writeMode), 0, 1);
    if Waits(u, c, m) {
      ServiceStarts(u, c, m);
      if Foremost(u, c, k) {
        ForemostIsUnique(u, c, k, m);
      }
    } else {
      ServiceWithoutWait(u, c, m);
    }
  }

  // ---------- A whole cycle ----------

  /** The channel before the last step of its cycle. */
  function BeforeService(u: Setup, c: Channel): (d: Channel)
    requires Linked(u, c)
    ensures Linked(u, d)
  {
    CheckWritesKeepsLinks(u, c, 0);
    var written := CheckWrites(u, c, 0);
    CheckReadsKeepsLinks(u, written, 0);
    var merged := CheckReads(u, written, 0);
    FinishKeepsLinks(u, merged);
    var finished := FinishBus(u, merged);
    SwapKeepsLinks(u, finished);
    var swapped := SwapWriteMode(u, finished);
    RefreshKeepsLinks(u, swapped);
    var refreshed := Refresh(u, swapped);
    PopulateKeepsLinks(u, refreshed);
    PopulateBus(u, refreshed)
  }

  /**
   * A cycle starts a request exactly if the foremost one after its earlier steps can start; then it
   * starts that one and no other.
   */
  lemma CycleStartsForemost(u: Setup, c: Channel)
    requires Linked(u, c)
    ensures var b, d := BeforeService(u, c), Operate(u, c);
      && (forall k: nat :: Foremost(u, b, k) && CanStart(u, b, k) ==> Started(u, b, d, k))
      && (d == b <==> !exists k: nat :: Foremost(u, b, k) && CanStart(u, b, k))
  {
    hide Linked, CheckWrites, CheckReads, FinishBus, SwapWriteMode, Refresh, PopulateBus, ServiceNext, Waits, CanStart;
    hide BeforeService, Operate, Ahead, Started;
    var b := BeforeService(u, c);
    OperateServes(u, c);
    LinkedIsSized(u, b);
    forall k: nat | Foremost(u, b, k) && CanStart(u, b, k)
      ensures Started(u, b, Operate(u, c), k) && Operate(u, c) != b
    {
      ServiceStartsForemost(u, b, k);
      StartedDiffers(u, b, Operate(u, c), k);
    }
    if !exists k: nat :: Foremost(u, b, k) && CanStart(u, b, k) {
      TakesForemost(u, b);
      ServiceStartsForemost(u, b, MinSlot(u, b, Queue(b, b.writeMode), 0, 1));
    }
  }

  lemma OperateServes(u: Setup, c: Channel)
    requires Linked(u, c)
    ensures Mapped(u) && Sized(u, BeforeService(u, c)) && Operate(u, c) == ServiceNext(u, BeforeService(u, c))
  {
    hide Linked, CheckWrites, CheckReads, FinishBus, SwapWriteMode, Refresh, PopulateBus, ServiceNext;
    LinkedIsSized(u, BeforeService(u, c));
  }

  lemma StartedDiffers(u: Setup, c: Channel, d: Channel, k: nat)
    requires Mapped(u) && |c.banks| == u.banks && Waits(u, c, k) && Started(u, c, d, k)
    ensures d != c
  {
    assert Queue(d, c.writeMode)[k].value.scheduled && !Queue(c, c.writeMode)[k].value.scheduled;
  }

  /** Slot `k` is the foremost, and the cycle starts a request exactly if this one can start. */
  ghost predicate Decides(u: Setup, c: Channel, k: nat)
    requires Linked(u, c)
  {
    var b := BeforeService(u, c);
    && Mapped(u) && |b.banks| == u.banks
    && Foremost(u, b, k) && (Operate(u, c) != b <==> CanStart(u, b, k))
  }

  /**
   * A request that is ready and whose bank is idle and not under refresh makes the cycle start one
   * exactly if the foremost request can start: if its bank is under refresh, all others wait too.
   */
  lemma StartsIffForemostCan(u: Setup, c: Channel, j: nat)
    requires Linked(u, c)
    requires Waits(u, BeforeService(u, c), j) && CanStart(u, BeforeService(u, c), j)
    ensures exists k: nat :: Decides(u, c, k)
  {
    hide Linked, BeforeService, Operate, Waits, CanStart, Started, Ahead, MinSlot;
    var b := BeforeService(u, c);
    CycleStartsForemost(u, c);
    LinkedIsSized(u, b);
    TakesForemost(u, b);
    var k := MinSlot(u, b, Queue(b, b.writeMode), 0, 1);
    assert Foremost(u, b, k);
    if exists i: nat :: Foremost(u, b, i) && CanStart(u, b, i) {
      var i: nat :| Foremost(u, b, i) && CanStart(u, b, i);
      ForemostIsUnique(u, b, i, k);
    }
    assert Decides(u, c, k);
  }

  /** A read to a bank under refresh keeps a ready read to an idle bank from starting. */
  lemma RefreshBlocksOthers()
    ensures exists u: Setup, c: Channel :: Linked(u, c) && Waits(u, c, 1) && CanStart(u, c, 1) && ServiceNext(u, c) == c
  {
    var u := Setup(2, a => a % 2, 1, a => 0, a => 0, a => a, 1, 1, 1, 10, 5, 1, 1, 1);
    var idle := Bank(false, false, false, false, None, 0, Slot(false, 0));
    var older := Request(0, false, true, Some(0), {0}, {}, {});
    var newer := Request(1, false, true, Some(1), {1}, {}, {});
    var c := Channel([Some(older), Some(newer)], [None, None], [idle.(underRefresh := true, ready := 9), idle],
                     None, false, 0, [0], 0, 2, []);
    BlockedExample(u, c);
  }

  lemma BlockedExample(u: Setup, c: Channel)
    requires Mapped(u) && u.banks == 2 && u.groups == 1 && u.bankOf(0) == 0 && u.bankOf(1) == 1
    requires c.rq == [Some(Request(0, false, true, Some(0), {0}, {}, {})), Some(Request(1, false, true, Some(1), {1}, {}, {}))]
    requires c.wq == [None, None] && |c.banks| == 2 && |c.groupReady| == 1 && c.active.None? && !c.writeMode && c.now == 2
    requires !c.banks[0].valid && !c.banks[1].valid && c.banks[0].underRefresh && !c.banks[1].underRefresh
    ensures Linked(u, c) && Waits(u, c, 1) && CanStart(u, c, 1) && ServiceNext(u, c) == c
  {
    assert Ahead(c, 0, 1);
    assert Foremost(u, c, 0);
    ServiceStartsForemost(u, c, 0);
  }

  // ---------- The banks and the bus before a request is started ----------

  lemma {:induction false} WriteChecksKeepBanks(u: Setup, c: Channel, i: nat)
    ensures var d := CheckWrites(u, c, i); d == c.(wq := d.wq)
    decreases |c.wq| - i
  {
    hide CheckWrite;
    if i < |c.wq| {
      WriteCheckKeepsBanks(u, c, i);
      WriteChecksKeepBanks(u, CheckWrite(u, c, i), i + 1);
    }
  }

  lemma WriteCheckKeepsBanks(u: Setup, c: Channel, i: nat)
    requires i < |c.wq|
    ensures var d := CheckWrite(u, c, i); d == c.(wq := d.wq) && |d.wq| == |c.wq|
  {
    hide Find;
  }

  lemma {:induction false} ReadChecksKeepBanks(u: Setup, c: Channel, i: nat)
    ensures var d := CheckReads(u, c, i); d == c.(rq := d.rq, answers := d.answers)
    decreases |c.rq| - i
  {
    hide CheckRead;
    if i < |c.rq| {
      ReadCheckKeepsBanks(u, c, i);
      ReadChecksKeepBanks(u, CheckRead(u, c, i), i + 1);
    }
  }

  lemma ReadCheckKeepsBanks(u: Setup, c: Channel, i: nat)
    requires i < |c.rq|
    ensures var d := CheckRead(u, c, i); d == c.(rq := d.rq, answers := d.answers) && |d.rq| == |c.rq|
  {
    hide Find;
  }

  /** What the mode switch leaves of a bank: the row is lost if its data were less than a column access away. */
  function TakenBack(u: Setup, k: Bank, now: nat): Bank {
    k.(valid := false, openRow := if k.ready < now + u.tCAS then None else k.openRow)
  }

  lemma {:induction false} GiveBackBank(u: Setup, c: Channel, i: nat, b: nat)
    requires BanksOccupied(c) && b < |c.banks|
    ensures var d := GiveBackFrom(u, c, i);
      d.banks[b] == if i <= b && c.active != Some(b) && c.banks[b].valid then TakenBack(u, c.banks[b], c.now) else c.banks[b]
    ensures var d := GiveBackFrom(u, c, i); d == c.(rq := d.rq, wq := d.wq, banks := d.banks)
    decreases |c.banks| - i
  {
    if i < |c.banks| {
      GiveBackBank(u, GiveBack(u, c, i), i + 1, b);
    }
  }

  /** The active bank has finished. */
  predicate Finishes(c: Channel, b: nat)
    requires b < |c.banks|
  {
    c.active == Some(b) && c.banks[b].ready <= c.now
  }

  /** The slots of a queue that hold a request. */
  function Held(q: seq<Option<Request>>): set<nat> {
    set i: nat | i < |q| && q[i].Some?
  }

  lemma {:induction false} OccupancyCounts(q: seq<Option<Request>>)
    ensures Occupancy(q) == |Held(q)|
    decreases |q|
  {
    if |q| > 0 {
      var n := |q| - 1;
      OccupancyCounts(q[..n]);
      OccupancyOfLast(q);
      assert Held(q) == Held(q[..n]) + if q[n].Some? then {n} else {};
    }
  }

  lemma {:induction false} OccupancyOfLast(q: seq<Option<Request>>)
    requires |q| > 0
    ensures Occupancy(q) == Occupancy(q[..|q| - 1]) + if q[|q| - 1].Some? then 1 else 0
    decreases |q|
  {
    if |q| > 1 {
      OccupancyOfLast(q[1..]);
      assert q[1..][..|q| - 2] == q[..|q| - 1][1..];
    }
  }

  /**
   * Reading gives way when writes hold seven eighths of their slots, or no read is left; writing gives
   * way when no write is left, or reads wait and writes hold less than three quarters of their slots.
   */
  lemma ModeSwitchesIff(u: Setup, c: Channel)
    requires Linked(u, c)
    ensures BanksOccupied(c) && (c.active.Some? ==> c.active.value < |c.banks|)
    ensures var d := SwapWriteMode(u, c);
      var writeCount, readCount, size := |Held(c.wq)|, |Held(c.rq)|, |c.wq|;
      && (!c.writeMode ==> (d.writeMode <==> 8 * writeCount + 8 > 7 * size || (readCount == 0 && writeCount > 0)))
      && (c.writeMode ==> (!d.writeMode <==> writeCount == 0 || (readCount > 0 && 4 * writeCount + 4 <= 3 * size)))
      && d.busFree == (if d.writeMode == c.writeMode then c.busFree
                       else if c.active.Some? then c.banks[c.active.value].ready + u.turnAround
                       else c.now + u.turnAround)
  {
    hide Linked, GiveBackFrom, Occupancy;
    LinkedIsSized(u, c);
    LinkedSlots(u, c);
    OccupancyCounts(c.wq);
    OccupancyCounts(c.rq);
    if |c.banks| > 0 {
      GiveBackBank(u, c, 0, 0);
    }
  }

  lemma PopulateKeepsBank(u: Setup, c: Channel, b: nat)
    requires Linked(u, c) && BanksOccupied(c) && b < |c.banks|
    ensures var d := PopulateBus(u, c);
      && d == c.(active := d.active, banks := d.banks, groupReady := d.groupReady) && |d.banks| == |c.banks|
      && d.banks[b] == c.banks[b].(ready := d.banks[b].ready)
      && (!c.banks[b].valid ==> d.banks[b] == c.banks[b])
  {
    hide MinBank, Linked;
    LinkedIsSized(u, c);
  }

  lemma FinishedBank(u: Setup, c: Channel, b: nat)
    requires Linked(u, c) && b < |c.banks|
    ensures CanFinish(u, c) ==> Occupied(c, c.banks[c.active.value].pkt)
    ensures var d := FinishBus(u, c);
      && |d.banks| == |c.banks| && d.writeMode == c.writeMode && d.lastRefresh == c.lastRefresh && d.now == c.now
      && d.banks[b] == (if Finishes(c, b) then c.banks[b].(valid := false) else c.banks[b])
      && (d.active == Some(b) <==> c.active == Some(b) && !Finishes(c, b))
  {
    hide Linked;
    LinkedIsSized(u, c);
    LinkedSlots(u, c);
  }

  lemma SwappedBank(u: Setup, c: Channel, b: nat)
    requires Linked(u, c) && b < |c.banks|
    ensures BanksOccupied(c) && (c.active.Some? ==> c.active.value < |c.banks|)
    ensures var d := SwapWriteMode(u, c);
      && |d.banks| == |c.banks| && d.lastRefresh == c.lastRefresh && d.now == c.now
      && d.banks[b] == (if d.writeMode != c.writeMode && c.active != Some(b) && c.banks[b].valid
                        then TakenBack(u, c.banks[b], c.now) else c.banks[b])
  {
    hide Linked, MustSwap, GiveBackFrom;
    LinkedIsSized(u, c);
    LinkedSlots(u, c);
    GiveBackBank(u, c, 0, b);
  }

  lemma MergedBank(u: Setup, c: Channel)
    requires Linked(u, c)
    ensures var d := CheckReads(u, CheckWrites(u, c, 0), 0);
      Linked(u, d) && d == c.(rq := d.rq, wq := d.wq, answers := d.answers)
  {
    hide Linked, CheckWrites, CheckReads;
    CheckWritesKeepsLinks(u, c, 0);
    WriteChecksKeepBanks(u, c, 0);
    var written := CheckWrites(u, c, 0);
    CheckReadsKeepsLinks(u, written, 0);
    ReadChecksKeepBanks(u, written, 0);
  }

  /** A bank of the channel after its refresh step. */
  lemma RefreshedBank(u: Setup, c: Channel, b: nat)
    requires Linked(u, c) && b < |c.banks|
    ensures var p := BeforeService(u, c);
      && b < |p.banks| && p.now == c.now
      && p.lastRefresh == (if c.now >= c.lastRefresh + u.tREF then c.now else c.lastRefresh)
      && var k := if Finishes(c, b) then c.banks[b].(valid := false) else c.banks[b];
      var w := if p.writeMode != c.writeMode && c.active != Some(b) && k.valid then TakenBack(u, k, c.now) else k;
      var r := RefreshBank(u, w, c.now >= c.lastRefresh + u.tREF, c.now);
      p.banks[b] == r.(ready := p.banks[b].ready) && (!r.valid ==> p.banks[b] == r)
  {
    hide Linked, CheckWrites, CheckReads, FinishBus, SwapWriteMode, PopulateBus, RefreshBank, TakenBack, Finishes;
    MergedBank(u, c);
    var merged := CheckReads(u, CheckWrites(u, c, 0), 0);
    FinishKeepsLinks(u, merged);
    FinishedBank(u, merged, b);
    assert Finishes(merged, b) == Finishes(c, b) by {
      SameBankFinishes(c, merged, b);
    }
    var finished := FinishBus(u, merged);
    SwapKeepsLinks(u, finished);
    SwappedBank(u, finished, b);
    var swapped := SwapWriteMode(u, finished);
    RefreshKeepsLinks(u, swapped);
    var refreshed := Refresh(u, swapped);
    PopulateKeepsLinks(u, refreshed);
    PopulateKeepsBank(u, refreshed, b);
  }

  lemma SameBankFinishes(c: Channel, d: Channel, b: nat)
    requires b < |c.banks| && d.banks == c.banks && d.active == c.active && d.now == c.now
    ensures Finishes(c, b) == Finishes(d, b)
  {
  }

  /**
   * A bank before the last step of a cycle: its request has left it exactly if it was finished or
   * taken back by a mode switch; a refresh that is due begins once the bank is idle, and ends when
   * its time is over; the open row is lost with the end of a refresh, or with a request that is taken
   * back too late.
   */
  lemma BankBeforeService(u: Setup, c: Channel, b: nat)
    requires Linked(u, c) && b < |c.banks|
    ensures var p := BeforeService(u, c);
      && b < |p.banks|
      && var k, n := c.banks[b], p.banks[b];
      var due := c.now >= c.lastRefresh + u.tREF;
      var back := k.valid && c.active != Some(b) && p.writeMode != c.writeMode;
      var begins := !n.valid && (k.needRefresh || due);
      && (n.valid <==> k.valid && !Finishes(c, b) && !back)
      && (n.underRefresh <==> begins || (k.underRefresh && c.now < k.ready))
      && (n.needRefresh <==> (k.needRefresh || due) && n.valid)
      && (begins ==> n.ready == c.now + u.tRFC)
      && n.openRow == (if k.underRefresh && !n.underRefresh then None
                       else if back && k.ready < c.now + u.tCAS then None else k.openRow)
      && p.lastRefresh == (if due then c.now else c.lastRefresh) && p.now == c.now
  {
    hide Linked, BeforeService;
    RefreshedBank(u, c, b);
    IdleUnderRefresh(u, c, b);
  }

  lemma IdleUnderRefresh(u: Setup, c: Channel, b: nat)
    requires Linked(u, c) && b < |c.banks|
    ensures c.banks[b].underRefresh ==> !c.banks[b].valid && c.active != Some(b)
  {
    assert BankLinked(u, c, b);
  }

  /**
   * When no request is on the bus and the bus is free, it goes to a bank whose request is ready, if
   * there is one: to one that was ready first. The transfer waits for the bank's group.
   */
  lemma BusGoesToFirstReady(u: Setup, c: Channel)
    requires Linked(u, c)
    ensures Mapped(u) && Sized(u, c) && BanksOccupied(c)
    ensures var d := PopulateBus(u, c);
      && (c.active.Some? ==> d == c)
      && (c.active.None? ==>
            (d.active.Some? <==> c.busFree <= c.now && exists b: nat :: IsReady(c, b)))
      && (c.active.None? && d.active.None? ==> d == c)
      && (c.active.None? && d.active.Some? ==> PutOnBus(u, c, d, d.active.value))
  {
    hide Linked, MinBank;
    LinkedIsSized(u, c);
    LinkedSlots(u, c);
    MinBankIsFirstReady(c.banks, 0, 1);
    var b := MinBank(c.banks, 0, 1);
    assert c.banks[b].valid && c.banks[b].ready <= c.now <==> exists a: nat :: IsReady(c, a) by {
      if a: nat :| IsReady(c, a) {
        assert c.banks[a].valid;
      }
      assert c.banks[b].valid && c.banks[b].ready <= c.now ==> IsReady(c, b);
    }
  }

  predicate IsReady(c: Channel, b: nat) {
    b < |c.banks| && c.banks[b].valid && c.banks[b].ready <= c.now
  }

  /** Bank `b` was ready first, and its transfer begins now or when its group is free. */
  ghost predicate PutOnBus(u: Setup, c: Channel, d: Channel, b: nat)
    requires Mapped(u) && Sized(u, c) && BanksOccupied(c)
  {
    && IsReady(c, b) && (forall a: nat :: IsReady(c, a) ==> c.banks[b].ready <= c.banks[a].ready)
    && var g := u.groupOf(At(c, c.banks[b].pkt).address);
    var end := (if c.groupReady[g] <= c.now then c.now else c.groupReady[g]) + u.returnTime;
    d == c.(active := Some(b), banks := c.banks[b := c.banks[b].(ready := end)],
            groupReady := c.groupReady[g := c.now + u.returnTime + u.groupStall])
  }
}
