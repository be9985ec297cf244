/**
 * When a DRAM channel never answers a read: a write queue of one slot makes it switch between reading
 * and writing in every cycle, and a refresh longer than the time between two keeps its banks from work.
 */
module DramStarvation {
  import opened Collections
  import opened DramChannel
  import opened DramDelivery
  import opened DramService
  import opened DramProgress
  import opened DramLiveness

  // ---------- A write queue of one slot ----------

  /** Nothing has been answered, and there are no writes and no request on the bus. */
  predicate Quiet(c: Channel) {
    c.active.None? && c.answers == [] && forall i :: 0 <= i < |c.wq| ==> c.wq[i].None?
  }

  lemma {:induction false} NoWritesToCheck(u: Setup, c: Channel, i: nat)
    requires Quiet(c)
    ensures CheckWrites(u, c, i) == c
    decreases |c.wq| - i
  {
    if i < |c.wq| {
      NoWritesToCheck(u, c, i + 1);
    }
  }

  lemma {:induction false} ReadsStayUnanswered(u: Setup, c: Channel, i: nat)
    requires Quiet(c)
    ensures var d := CheckReads(u, c, i); Quiet(d) && d == c.(rq := d.rq)
    decreases |c.rq| - i
  {
    if i < |c.rq| {
      ReadsStayUnanswered(u, CheckRead(u, c, i), i + 1);
    }
  }

  /** A mode switch takes the requests from all banks. */
  lemma SwapClears(u: Setup, c: Channel)
    requires Linked(u, c) && Quiet(c)
    ensures BanksOccupied(c)
    ensures Quiet(SwapWriteMode(u, c)) && (MustSwap(c) || NoneBusy(c) ==> NoneBusy(SwapWriteMode(u, c)))
    ensures var d := SwapWriteMode(u, c); |d.banks| == |c.banks| && |d.wq| == |c.wq| && d.now == c.now
  {
    hide MustSwap, Linked, GiveBackFrom;
    LinkedSlots(u, c);
    LinkedIsSized(u, c);
    GiveBackFromKeepsLinks(u, c, 0);
    GiveBackFromSame(u, c, 0);
    SameTime(u, c, 0);
    assert forall i :: 0 <= i < |c.wq| ==> SameEntry(c.wq[i], GiveBackFrom(u, c, 0).wq[i]);
  }

  lemma {:induction false} SameTime(u: Setup, c: Channel, b: nat)
    requires BanksOccupied(c)
    ensures GiveBackFrom(u, c, b).now == c.now && GiveBackFrom(u, c, b).lastRefresh == c.lastRefresh
    decreases |c.banks| - b
  {
    if b < |c.banks| {
      SameTime(u, GiveBack(u, c, b), b + 1);
    }
  }

  lemma OneSlotSwaps(c: Channel)
    requires |c.wq| == 1 && Quiet(c)
    ensures MustSwap(c)
  {
    EmptyQueue(c.wq);
  }

  lemma ServiceStaysQuiet(u: Setup, c: Channel)
    requires Linked(u, c) && Quiet(c)
    ensures Quiet(ServiceNext(u, c)) && |ServiceNext(u, c).wq| == |c.wq|
  {
    hide MinSlot, Linked;
    LinkedIsSized(u, c);
    var k := MinSlot(u, c, Queue(c, c.writeMode), 0, 1);
    assert c.writeMode ==> !Occupied(c, Slot(true, k));
  }

  /** The channel after the checks of a cycle, when there is nothing to finish. */
  lemma QuietCycle(u: Setup, c: Channel)
    requires Linked(u, c) && Quiet(c)
    ensures var d := CheckReads(u, c, 0);
      && Linked(u, d) && Quiet(d) && d == c.(rq := d.rq)
      && Operate(u, c) == ServiceNext(u, Populated(u, Refreshed(u, d)))
  {
    hide Linked, CheckWrites, CheckReads, SwapWriteMode, Refresh, PopulateBus, ServiceNext;
    NoWritesToCheck(u, c, 0);
    CheckReadsKeepsLinks(u, c, 0);
    ReadsStayUnanswered(u, c, 0);
  }

  /** With one slot for writes and no write, every cycle switches the mode and takes back what the last one started. */
  lemma OneSlotCycle(u: Setup, c: Channel)
    requires Linked(u, c) && Quiet(c) && |c.wq| == 1
    ensures Quiet(Operate(u, c))
  {
    hide Linked, CheckReads, Operate, SwapWriteMode, ServiceNext, MustSwap;
    QuietCycle(u, c);
    var d := CheckReads(u, c, 0);
    OneSlotSwaps(d);
    SwapKeepsLinks(u, d);
    SwapClears(u, d);
    var r := Refreshed(u, d);
    RefreshKeepsIdle(u, SwapWriteMode(u, d));
    NothingToPopulate(u, r);
    ServiceStaysQuiet(u, r);
  }

  lemma {:induction false} OneSlotRun(u: Setup, s: System, events: seq<Event>)
    requires Good(u, s.channel, s.issued) && Quiet(s.channel) && |s.channel.wq| == 1
    requires forall e :: e in events ==> !e.WriteArrives?
    ensures Quiet(Run(u, s, events).channel)
    decreases |events|
  {
    hide Good, Step, Quiet;
    if |events| > 0 {
      StepKeeps(u, s, events[0]);
      StepSize(u, s, events[0]);
      OneSlotStep(u, s, events[0]);
      OneSlotRun(u, Step(u, s, events[0]), events[1..]);
    }
  }

  lemma OneSlotStep(u: Setup, s: System, e: Event)
    requires Good(u, s.channel, s.issued) && Quiet(s.channel) && |s.channel.wq| == 1 && !e.WriteArrives?
    ensures Quiet(Step(u, s, e).channel)
  {
    hide Linked, Delivering, BlocksDiffer, Operate, FirstEmpty;
    match e
    case ReadArrives(r) =>
    case Cycle(elapsed) =>
      var c := s.channel.(now := s.channel.now + elapsed);
      TimeKeeps(u, s.channel, s.issued, c);
      OneSlotCycle(u, c);
  }

  // ---------- A refresh that never ends ----------

  /** All banks are under the refresh that began `i` cycles ago, when the last one was due. */
  predicate Blocked(u: Setup, c: Channel, period: nat, i: nat) {
    && Quiet(c) && NoneBusy(c) && c.now == c.lastRefresh + i * period
    && forall b :: 0 <= b < |c.banks| ==>
         c.banks[b].underRefresh && !c.banks[b].needRefresh && c.banks[b].ready == c.lastRefresh + u.tRFC
  }

  lemma {:induction false} NothingToGiveBack(u: Setup, c: Channel, b: nat)
    requires NoneBusy(c) && BanksOccupied(c)
    ensures GiveBackFrom(u, c, b) == c
    decreases |c.banks| - b
  {
    if b < |c.banks| {
      NothingToGiveBack(u, c, b + 1);
    }
  }

  /** The mode may switch, the banks stay. */
  lemma IdleSwap(u: Setup, c: Channel)
    requires Linked(u, c) && Quiet(c) && NoneBusy(c)
    ensures BanksOccupied(c)
    ensures var d := SwapWriteMode(u, c); d == c.(busFree := d.busFree, writeMode := d.writeMode)
  {
    hide MustSwap;
    LinkedSlots(u, c);
    NothingToGiveBack(u, c, 0);
  }

  lemma AllUnderRefresh(u: Setup, c: Channel)
    requires Mapped(u) && Sized(u, c) && forall b :: 0 <= b < |c.banks| ==> c.banks[b].underRefresh
    ensures ServiceNext(u, c) == c
  {
    hide MinSlot;
  }

  lemma BlockedRefresh(u: Setup, c: Channel, period: nat, i: nat) returns (j: nat)
    requires period > 0 && !RefreshEnds(u, period) && Blocked(u, c, period, i)
    ensures Blocked(u, Refresh(u, c.(now := c.now + period)), period, j)
  {
    hide RefreshCycles;
    RefreshLasts(u, period, i + 1);
    assert (i + 1) * period == i * period + period;
    j := if c.now + period >= c.lastRefresh + u.tREF then 0 else i + 1;
  }

  lemma BlockedCycle(u: Setup, c: Channel, period: nat, i: nat) returns (j: nat)
    requires Linked(u, c) && period > 0 && !RefreshEnds(u, period) && Blocked(u, c, period, i)
    requires Linked(u, c.(now := c.now + period))
    ensures Blocked(u, Operate(u, c.(now := c.now + period)), period, j)
  {
    hide Linked, CheckReads, Operate, SwapWriteMode, ServiceNext, RefreshEnds, Refresh;
    var e := c.(now := c.now + period);
    QuietCycle(u, e);
    var d := CheckReads(u, e, 0);
    IdleSwap(u, d);
    var w := SwapWriteMode(u, d);
    j := BlockedRefresh(u, w.(now := c.now), period, i);
    var r := Refreshed(u, d);
    assert w == w.(now := c.now).(now := c.now + period);
    NothingToPopulate(u, r);
    LinkedIsSized(u, r);
    AllUnderRefresh(u, r);
  }

  lemma {:induction false} BlockedForever(u: Setup, s: System, period: nat, i: nat, n: nat)
    requires Good(u, s.channel, s.issued) && period > 0 && !RefreshEnds(u, period) && Blocked(u, s.channel, period, i)
    ensures Cycles(u, s, period, n).channel.answers == []
    decreases n
  {
    hide Linked, Delivering, Operate, RefreshEnds, Cycles;
    if n == 0 {
      NoCycle(u, s, period);
    } else {
      TimeKeeps(u, s.channel, s.issued, Later(s, period));
      var j := BlockedCycle(u, s.channel, period, i);
      CyclesUnfold(u, s, period, n - 1);
      BlockedForever(u, After(u, s, period), period, j, n - 1);
    }
  }

  /** Nothing has happened yet but the passing of time. */
  predicate Resting(c: Channel) {
    && Quiet(c) && NoneBusy(c) && c.lastRefresh == 0
    && (forall i :: 0 <= i < |c.rq| ==> c.rq[i].None?)
    && (forall b :: 0 <= b < |c.banks| ==> !c.banks[b].underRefresh && !c.banks[b].needRefresh)
  }

  predicate NoReads(c: Channel) {
    forall i :: 0 <= i < |c.rq| ==> c.rq[i].None?
  }

  lemma {:induction false} NoReadsToCheck(u: Setup, c: Channel, i: nat)
    requires NoReads(c)
    ensures CheckReads(u, c, i) == c
    decreases |c.rq| - i
  {
    if i < |c.rq| {
      NoReadsToCheck(u, c, i + 1);
    }
  }

  lemma NothingToService(u: Setup, c: Channel)
    requires Mapped(u) && Sized(u, c) && NoReads(c) && Quiet(c)
    ensures ServiceNext(u, c) == c
  {
    hide MinSlot;
  }

  /** While the channel rests a cycle does nothing, until the first refresh is due in all banks. */
  lemma RestingCycle(u: Setup, c: Channel, period: nat)
    requires Linked(u, c) && Resting(c) && Linked(u, c.(now := c.now + period))
    ensures var d := Operate(u, c.(now := c.now + period));
      && d.now == c.now + period && NoReads(d)
      && if d.now >= u.tREF then Blocked(u, d, period, 0) else Resting(d)
  {
    hide Linked, CheckReads, Operate, SwapWriteMode, ServiceNext;
    var e := c.(now := c.now + period);
    QuietCycle(u, e);
    NoReadsToCheck(u, e, 0);
    IdleSwap(u, e);
    var r := Refreshed(u, e);
    NothingToPopulate(u, r);
    LinkedIsSized(u, r);
    NothingToService(u, r);
  }

  /** Events after which a read has been accepted and all banks are under refresh. */
  lemma {:induction false} BlockedRun(u: Setup, s: System, period: nat) returns (events: seq<Event>, i: nat)
    requires Good(u, s.channel, s.issued) && period > 0 && Resting(s.channel) && s.issued == []
    ensures var t := Run(u, s, events); Blocked(u, t.channel, period, i) && |t.issued| == 1
    decreases u.tREF - s.channel.now
  {
    hide Linked, Delivering, Operate;
    TimeKeeps(u, s.channel, s.issued, Later(s, period));
    RestingCycle(u, s.channel, period);
    var t := After(u, s, period);
    var rest: seq<Event>;
    if t.channel.now >= u.tREF {
      rest := [ReadArrives(Read(0, None, {}))];
      i := 0;
      FirstReadBlocked(u, t, period);
    } else {
      rest, i := BlockedRun(u, t, period);
    }
    events := [Cycle(period)] + rest;
    assert events[1..] == rest;
  }

  lemma FirstReadBlocked(u: Setup, s: System, period: nat)
    requires Good(u, s.channel, s.issued) && Blocked(u, s.channel, period, 0) && NoReads(s.channel) && s.issued == []
    ensures var t := Run(u, s, [ReadArrives(Read(0, None, {}))]);
      Blocked(u, t.channel, period, 0) && |t.issued| == 1
  {
    hide Linked, Delivering, Operate;
    LinkedIsSized(u, s.channel);
    var e := ReadArrives(Read(0, None, {}));
    StepKeeps(u, s, e);
    assert [e][1..] == [];
  }

  // ---------- The exact condition ----------

  lemma NotAllAnswered(s: System)
    ensures |s.issued| > 0 && s.channel.answers == [] ==> !AllAnswered(s)
  {
    assert 0 < |s.issued| && s.channel.answers == [] ==> TimesAnswered(s.channel.answers, 0) == 0;
  }

  lemma UnansweredForever(u: Setup, s: System, period: nat)
    requires Good(u, s.channel, s.issued) && |s.issued| > 0
    requires forall n: nat :: Cycles(u, s, period, n).channel.answers == []
    ensures !EventuallyAnswers(u, s, period)
  {
    hide Good, Cycles, AllAnswered;
    forall n: nat ensures !AnswersAfter(u, s, period, n) {
      NotAllAnswered(Cycles(u, s, period, n));
    }
  }

  /** A read accepted by a channel with one slot for writes, and no write ever. */
  lemma OneSlotStarves(u: Setup, rqSize: nat, period: nat)
    requires Mapped(u) && rqSize > 0
    ensures !EventuallyAnswers(u, Run(u, Start(u, rqSize, 1), [ReadArrives(Read(0, None, {}))]), period)
  {
    hide Good, Cycles, Run, EventuallyAnswers;
    var s, e := Start(u, rqSize, 1), [ReadArrives(Read(0, None, {}))];
    StartIsResting(u, rqSize, 1);
    OneSlotRun(u, s, e);
    FirstReadAccepted(u, rqSize);
    var t := Run(u, s, e);
    RunSize(u, s, e);
    forall n: nat ensures Cycles(u, t, period, n).channel.answers == [] {
      OneSlotCycles(u, t, period, n);
    }
    UnansweredForever(u, t, period);
  }

  lemma FirstReadAccepted(u: Setup, rqSize: nat)
    requires Mapped(u) && rqSize > 0
    ensures |Run(u, Start(u, rqSize, 1), [ReadArrives(Read(0, None, {}))]).issued| == 1
  {
    hide Linked, Delivering, Operate;
    var s, e := Start(u, rqSize, 1), ReadArrives(Read(0, None, {}));
    StepKeeps(u, s, e);
    assert [e][1..] == [];
  }

  lemma {:induction false} OneSlotCycles(u: Setup, s: System, period: nat, n: nat)
    requires Good(u, s.channel, s.issued) && Quiet(s.channel) && |s.channel.wq| == 1
    ensures Cycles(u, s, period, n).channel.answers == []
    decreases n
  {
    hide Good, Step, Cycles;
    if n == 0 {
      NoCycle(u, s, period);
    } else {
      OneSlotStep(u, s, Cycle(period));
      StepSize(u, s, Cycle(period));
      CyclesUnfold(u, s, period, n - 1);
      OneSlotCycles(u, After(u, s, period), period, n - 1);
    }
  }

  lemma StartIsResting(u: Setup, rqSize: nat, wqSize: nat)
    requires Mapped(u) && rqSize > 0 && wqSize > 0
    ensures var s := Start(u, rqSize, wqSize); Resting(s.channel) && s.issued == [] && Timely(s.channel)
    ensures |Start(u, rqSize, wqSize).channel.wq| == wqSize
  {
    hide Good;
  }

  lemma RefreshStarves(u: Setup, rqSize: nat, wqSize: nat, period: nat) returns (events: seq<Event>)
    requires Mapped(u) && rqSize > 0 && wqSize > 0 && period > 0 && !RefreshEnds(u, period)
    ensures !EventuallyAnswers(u, Run(u, Start(u, rqSize, wqSize), events), period)
  {
    hide Good, Cycles, Run, Start, EventuallyAnswers, RefreshEnds;
    StartIsResting(u, rqSize, wqSize);
    var s, i := Start(u, rqSize, wqSize), 0;
    events, i := BlockedRun(u, s, period);
    var t := Run(u, s, events);
    forall n: nat ensures Cycles(u, t, period, n).channel.answers == [] {
      BlockedForever(u, t, period, i, n);
    }
    UnansweredForever(u, t, period);
  }

  /** In every run, whenever arrivals stop, every read that was accepted is answered. */
  ghost predicate AlwaysAnswers(u: Setup, rqSize: nat, wqSize: nat, period: nat)
    requires Mapped(u) && rqSize > 0 && wqSize > 0
  {
    forall events: seq<Event> :: EventuallyAnswers(u, Run(u, Start(u, rqSize, wqSize), events), period)
  }

  /**
   * For every clock period: all accepted reads of all runs are answered if and only if the write
   * queue has more than one slot and a refresh is over in some cycle before the next one is due.
   */
  lemma ReadsAreAnsweredIff(u: Setup, rqSize: nat, wqSize: nat, period: nat)
    requires Mapped(u) && rqSize > 0 && wqSize > 0 && period > 0
    ensures AlwaysAnswers(u, rqSize, wqSize, period) <==> wqSize >= 2 && RefreshEnds(u, period)
  {
    hide Good, Run, Start, EventuallyAnswers, RefreshEnds;
    if wqSize < 2 {
      OneSlotStarves(u, rqSize, period);
    } else if !RefreshEnds(u, period) {
      var events := RefreshStarves(u, rqSize, wqSize, period);
    } else {
      forall events: seq<Event> ensures EventuallyAnswers(u, Run(u, Start(u, rqSize, wqSize), events), period) {
        var s := Start(u, rqSize, wqSize);
        StartIsResting(u, rqSize, wqSize);
        RunTimely(u, s, events);
        RunSize(u, s, events);
        LiveAnswers(u, Run(u, s, events), period);
      }
    }
  }
}
