/**
 * Every accepted read of a DRAM channel is answered once arrivals stop, if the write queue has more
 * than one slot and a refresh ends before the next one is due.
 */
module DramLiveness {
  import opened Collections
  import opened DramChannel
  import opened DramDelivery
  import opened DramService
  import opened DramProgress

  // ---------- Cycles without arrivals ----------

  /** `n` cycles of the clock, one `period` apart, without arrivals. */
  function Cycles(u: Setup, s: System, period: nat, n: nat): (t: System)
    requires Good(u, s.channel, s.issued)
    ensures Good(u, t.channel, t.issued)
    decreases n
  {
    if n == 0 then s
    else
      StepKeeps(u, s, Cycle(period));
      Cycles(u, Step(u, s, Cycle(period)), period, n - 1)
  }

  function After(u: Setup, s: System, period: nat): (t: System)
    requires Good(u, s.channel, s.issued)
    ensures Good(u, t.channel, t.issued)
  {
    StepKeeps(u, s, Cycle(period));
    Step(u, s, Cycle(period))
  }

  /** The channel at the beginning of its next cycle. */
  function Later(s: System, period: nat): Channel {
    s.channel.(now := s.channel.now + period)
  }

  /** All entries are checked and have waited since a time that has come. */
  ghost predicate Live(u: Setup, s: System) {
    Good(u, s.channel, s.issued) && Settled(u, s.channel) && Timely(s.channel)
  }

  lemma LaterIs(u: Setup, s: System, period: nat)
    requires Live(u, s)
    ensures var c := Later(s, period);
      Linked(u, c) && Settled(u, c) && Timely(c) && After(u, s, period) == s.(channel := Operate(u, c))
  {
    hide Linked, Delivering, BlocksDiffer, Operate, Timely;
    TimeKeeps(u, s.channel, s.issued, Later(s, period));
    LaterTimely(s.channel, period);
  }

  lemma LiveStays(u: Setup, s: System, period: nat)
    requires Live(u, s)
    ensures Live(u, After(u, s, period)) && |After(u, s, period).channel.wq| == |s.channel.wq|
    ensures Pending(After(u, s, period).channel) <= Pending(s.channel)
  {
    hide Good, Settled, Timely, Operate, Occupancy, Step, Linked;
    StepKeeps(u, s, Cycle(period));
    StepTimely(u, s, Cycle(period));
    LaterIs(u, s, period);
    CyclePending(u, Later(s, period));
  }

  lemma CyclesUnfold(u: Setup, s: System, period: nat, n: nat)
    requires Good(u, s.channel, s.issued)
    ensures Cycles(u, s, period, n + 1) == Cycles(u, After(u, s, period), period, n)
  {
  }

  // ---------- An answer comes ----------

  /** After `n` cycles some entry has gone. */
  ghost predicate Shrinks(u: Setup, s: System, period: nat, n: nat) {
    Live(u, s) && Pending(Cycles(u, s, period, n).channel) < Pending(s.channel)
  }

  lemma ShrinksLater(u: Setup, s: System, period: nat, n: nat)
    requires Live(u, s) && Shrinks(u, After(u, s, period), period, n)
    ensures Shrinks(u, s, period, n + 1)
  {
    hide Good, Settled, Timely, Pending, Step, Cycles;
    LiveStays(u, s, period);
    CyclesUnfold(u, s, period, n);
  }

  lemma FinishShrinks(u: Setup, s: System, period: nat)
    requires Live(u, s) && CanFinish(u, Later(s, period))
    ensures Shrinks(u, s, period, 1)
  {
    hide Good, Settled, Timely, Occupancy, Operate, Linked, Cycles, CanFinish;
    LaterIs(u, s, period);
    CyclePending(u, Later(s, period));
    OneCycle(u, s, period);
  }

  lemma OneCycle(u: Setup, s: System, period: nat)
    requires Good(u, s.channel, s.issued)
    ensures Cycles(u, s, period, 1) == After(u, s, period)
  {
    hide Step, Good;
    CyclesUnfold(u, s, period, 0);
    NoCycle(u, After(u, s, period), period);
  }

  lemma NoCycle(u: Setup, s: System, period: nat)
    requires Good(u, s.channel, s.issued)
    ensures Cycles(u, s, period, 0) == s
  {
  }

  /** The request on the bus is answered when its time has come. */
  lemma {:induction false} ActiveFinishes(u: Setup, s: System, period: nat) returns (n: nat)
    requires Live(u, s) && period > 0 && s.channel.active.Some? && s.channel.active.value < |s.channel.banks|
    ensures Shrinks(u, s, period, n)
    decreases s.channel.banks[s.channel.active.value].ready - s.channel.now
  {
    hide Good, Settled, Timely, Occupancy, Operate, Linked, Cycles, Shrinks;
    var c := Later(s, period);
    LaterIs(u, s, period);
    if CanFinish(u, c) {
      FinishShrinks(u, s, period);
      n := 1;
    } else {
      ActiveStays(u, c);
      OperateTimely(u, c);
      LiveStays(u, s, period);
      var m := ActiveFinishes(u, After(u, s, period), period);
      ShrinksLater(u, s, period, m);
      n := m + 1;
    }
  }

  function Max(a: int, b: int): int {
    if a < b then b else a
  }

  lemma StableStays(u: Setup, s: System, period: nat)
    requires Live(u, s) && s.channel.active.None? && |s.channel.wq| >= 2
    ensures !MustSwap(After(u, s, period).channel)
  {
    hide Good, Settled, Timely, Operate, Linked, MustSwap;
    LaterIs(u, s, period);
    ModeSettles(u, Later(s, period));
  }

  /** A bank with a request gets the bus, once the bus is free and the bank is ready. */
  lemma {:induction false} BusyFinishes(u: Setup, s: System, period: nat, b: nat) returns (n: nat)
    requires Live(u, s) && period > 0 && |s.channel.wq| >= 2 && s.channel.active.None? && !MustSwap(s.channel)
    requires b < |s.channel.banks| && s.channel.banks[b].valid
    ensures Shrinks(u, s, period, n)
    decreases Max(s.channel.busFree, s.channel.banks[b].ready) - s.channel.now
  {
    hide Good, Settled, Timely, Occupancy, Operate, Linked, Cycles, Shrinks;
    var c, t := Later(s, period), After(u, s, period);
    LaterIs(u, s, period);
    BusyStays(u, c, b);
    OperateTimely(u, c);
    LiveStays(u, s, period);
    StableStays(u, s, period);
    var m: nat;
    if t.channel.active.Some? {
      LiveActive(u, t);
      m := ActiveFinishes(u, t, period);
    } else {
      m := BusyFinishes(u, t, period, b);
    }
    ShrinksLater(u, s, period, m);
    n := m + 1;
  }

  lemma LiveActive(u: Setup, s: System)
    requires Live(u, s) && s.channel.active.Some?
    ensures s.channel.active.value < |s.channel.banks|
  {
  }

  // ---------- A refresh ends ----------

  /** The cycles a refresh lasts. */
  function RefreshCycles(u: Setup, period: nat): (n: nat)
    requires period > 0
    ensures n >= 1
  {
    if u.tRFC == 0 then 1 else (u.tRFC + period - 1) / period
  }

  /** A refresh is over in some cycle before the next one is due. */
  predicate RefreshEnds(u: Setup, period: nat)
    requires period > 0
  {
    RefreshCycles(u, period) * period < u.tREF
  }

  lemma RefreshLasts(u: Setup, period: nat, i: nat)
    requires period > 0
    ensures i >= RefreshCycles(u, period) ==> u.tRFC <= i * period
    ensures 0 < i < RefreshCycles(u, period) ==> i * period < u.tRFC
    ensures i <= RefreshCycles(u, period) ==> i * period <= RefreshCycles(u, period) * period
    ensures i >= RefreshCycles(u, period) ==> i * period >= RefreshCycles(u, period) * period
  {
    var n := RefreshCycles(u, period);
    if i >= n {
      Scaled(n, i, period);
    } else {
      Scaled(i, n, period);
      Scaled(i, n - 1, period);
    }
  }

  lemma Scaled(a: nat, b: nat, factor: nat)
    requires a <= b
    ensures a * factor <= b * factor
  {
  }

  /** The bank's refresh began `i` cycles ago, when the last one was due. */
  predicate RefreshingSince(u: Setup, c: Channel, b: nat, period: nat, i: nat) {
    && b < |c.banks| && c.banks[b].underRefresh
    && c.banks[b].ready == c.lastRefresh + u.tRFC && c.now == c.lastRefresh + i * period
  }

  lemma RefreshGoesOn(u: Setup, c: Channel, b: nat, period: nat, i: nat)
    requires period > 0 && RefreshEnds(u, period) && RefreshingSince(u, c, b, period, i) && i < RefreshCycles(u, period)
    requires !c.banks[b].valid && !c.banks[b].needRefresh
    ensures var d := Refresh(u, c.(now := c.now + period));
      d.banks[b].underRefresh ==> i + 1 < RefreshCycles(u, period) && RefreshingSince(u, d, b, period, i + 1)
  {
    hide RefreshCycles;
    RefreshLasts(u, period, i + 1);
    assert (i + 1) * period == i * period + period;
  }

  lemma RefreshStarts(u: Setup, c: Channel, b: nat, period: nat)
    requires period > 0 && b < |c.banks| && !c.banks[b].valid && !c.banks[b].needRefresh
    ensures var d := Refresh(u, c.(now := c.now + period));
      d.banks[b].underRefresh ==>
        || RefreshingSince(u, d, b, period, 0)
        || (d.lastRefresh == c.lastRefresh && d.now < d.lastRefresh + u.tREF)
  {
  }

  // ---------- An idle channel starts a request ----------

  /** No bank has a request, and the foremost one, in slot `k`, is for bank `b`. */
  ghost predicate Idle(u: Setup, c: Channel, k: nat, b: nat) {
    && Mapped(u) && |c.banks| == u.banks && c.active.None? && !MustSwap(c) && NoneBusy(c)
    && Foremost(u, c, k) && BankAt(u, c, k) == b
  }

  lemma IdleLater(u: Setup, c: Channel, k: nat, b: nat, d: Channel)
    requires Idle(u, c, k, b) && d == c.(now := d.now)
    ensures Idle(u, d, k, b)
  {
    hide Waits, Foremost, MustSwap;
    ForemostStays(u, c, d, k);
    assert MustSwap(d) == MustSwap(c) by {
      SameMode(c, d);
    }
  }

  lemma SameMode(c: Channel, d: Channel)
    requires d.rq == c.rq && d.wq == c.wq && d.writeMode == c.writeMode
    ensures MustSwap(d) == MustSwap(c)
  {
  }

  /** A cycle of an idle channel: the request is started, or the channel stays idle and its bank under refresh. */
  lemma IdleGoesOn(u: Setup, s: System, k: nat, b: nat, period: nat)
    requires Live(u, s) && Idle(u, s.channel, k, b)
    ensures var r, d := Refresh(u, Later(s, period)), After(u, s, period).channel;
      b < |r.banks| && b < |s.channel.banks| &&
      if r.banks[b].underRefresh then d == r && Idle(u, d, k, b)
      else b < |d.banks| && d.banks[b].valid && d.active.None?
  {
    hide Good, Settled, Timely, Operate, Linked, MustSwap, Foremost, Waits;
    var c := Later(s, period);
    LaterIs(u, s, period);
    IdleLater(u, s.channel, k, b, c);
    IdleCycle(u, c, k);
    var r := Refresh(u, c);
    RefreshKeepsIdle(u, c);
    ForemostStays(u, c, r, k);
    SameMode(c, r);
  }

  lemma IdleNeedsNothing(u: Setup, s: System, k: nat, b: nat)
    requires Live(u, s) && Idle(u, s.channel, k, b)
    ensures b < |s.channel.banks| && !s.channel.banks[b].valid && !s.channel.banks[b].needRefresh
  {
    hide Linked, Delivering, BlocksDiffer, Foremost, MustSwap;
    assert RefreshPending(s.channel, b);
  }

  lemma {:induction false} RefreshedFinishes(u: Setup, s: System, period: nat, k: nat, b: nat, i: nat) returns (n: nat)
    requires Live(u, s) && period > 0 && |s.channel.wq| >= 2 && Idle(u, s.channel, k, b) && RefreshEnds(u, period)
    requires RefreshingSince(u, s.channel, b, period, i) && i < RefreshCycles(u, period)
    ensures Shrinks(u, s, period, n)
    decreases RefreshCycles(u, period) - i
  {
    hide Good, Settled, Timely, Operate, Linked, Cycles, Shrinks, Step, RefreshCycles, RefreshEnds, Refresh, Foremost;
    var t := After(u, s, period);
    IdleGoesOn(u, s, k, b, period);
    IdleNeedsNothing(u, s, k, b);
    RefreshGoesOn(u, s.channel, b, period, i);
    LiveStays(u, s, period);
    StableStays(u, s, period);
    var m: nat;
    if t.channel.banks[b].valid {
      m := BusyFinishes(u, t, period, b);
    } else {
      m := RefreshedFinishes(u, t, period, k, b, i + 1);
    }
    ShrinksLater(u, s, period, m);
    n := m + 1;
  }

  lemma {:induction false} IdleFinishes(u: Setup, s: System, period: nat, k: nat, b: nat) returns (n: nat)
    requires Live(u, s) && period > 0 && |s.channel.wq| >= 2 && Idle(u, s.channel, k, b) && RefreshEnds(u, period)
    ensures Shrinks(u, s, period, n)
    decreases s.channel.lastRefresh + u.tREF - s.channel.now
  {
    hide Good, Settled, Timely, Operate, Linked, Cycles, Shrinks, Step, RefreshCycles, RefreshEnds, Refresh, Foremost;
    var t := After(u, s, period);
    IdleGoesOn(u, s, k, b, period);
    IdleNeedsNothing(u, s, k, b);
    RefreshStarts(u, s.channel, b, period);
    LiveStays(u, s, period);
    StableStays(u, s, period);
    var m: nat;
    if t.channel.banks[b].valid {
      m := BusyFinishes(u, t, period, b);
    } else if RefreshingSince(u, t.channel, b, period, 0) {
      m := RefreshedFinishes(u, t, period, k, b, 0);
    } else {
      m := IdleFinishes(u, t, period, k, b);
    }
    ShrinksLater(u, s, period, m);
    n := m + 1;
  }

  // ---------- Any live channel ----------

  lemma StableShrinks(u: Setup, s: System, period: nat) returns (n: nat)
    requires Live(u, s) && period > 0 && |s.channel.wq| >= 2 && RefreshEnds(u, period)
    requires !MustSwap(s.channel) && s.channel.active.None? && Pending(s.channel) > 0
    ensures Shrinks(u, s, period, n)
  {
    hide Settled, Delivering, BlocksDiffer, Timely, MustSwap, Occupancy, Shrinks, Waits, RefreshEnds;
    if b: nat :| b < |s.channel.banks| && s.channel.banks[b].valid {
      n := BusyFinishes(u, s, period, b);
    } else {
      var k := SomeoneIsForemost(u, s.channel);
      n := IdleFinishes(u, s, period, k, BankAt(u, s.channel, k));
    }
  }

  lemma LiveShrinks(u: Setup, s: System, period: nat) returns (n: nat)
    requires Live(u, s) && period > 0 && |s.channel.wq| >= 2 && RefreshEnds(u, period) && Pending(s.channel) > 0
    ensures Shrinks(u, s, period, n)
  {
    hide Good, Settled, Timely, Occupancy, Operate, Linked, Cycles, Shrinks, Step, RefreshEnds, MustSwap;
    if s.channel.active.Some? {
      LiveActive(u, s);
      n := ActiveFinishes(u, s, period);
    } else if !MustSwap(s.channel) {
      n := StableShrinks(u, s, period);
    } else {
      var t := After(u, s, period);
      LiveStays(u, s, period);
      StableStays(u, s, period);
      LaterIs(u, s, period);
      CyclePending(u, Later(s, period));
      var m: nat;
      if t.channel.active.Some? {
        LiveActive(u, t);
        m := ActiveFinishes(u, t, period);
      } else {
        m := StableShrinks(u, t, period);
      }
      ShrinksLater(u, s, period, m);
      n := m + 1;
    }
  }

  lemma {:induction false} CyclesAdd(u: Setup, s: System, period: nat, m: nat, n: nat)
    requires Good(u, s.channel, s.issued)
    ensures Cycles(u, s, period, m + n) == Cycles(u, Cycles(u, s, period, m), period, n)
    decreases m
  {
    hide Good, Step;
    if m == 0 {
      NoCycle(u, s, period);
    } else {
      CyclesUnfold(u, s, period, m - 1);
      CyclesUnfold(u, s, period, m + n - 1);
      CyclesAdd(u, After(u, s, period), period, m - 1, n);
    }
  }

  lemma {:induction false} LiveCycles(u: Setup, s: System, period: nat, n: nat)
    requires Live(u, s)
    ensures Live(u, Cycles(u, s, period, n)) && |Cycles(u, s, period, n).channel.wq| == |s.channel.wq|
    ensures Pending(Cycles(u, s, period, n).channel) <= Pending(s.channel)
    ensures Cycles(u, s, period, n).issued == s.issued
    decreases n
  {
    hide Good, Settled, Timely, Pending, Operate;
    if n == 0 {
      NoCycle(u, s, period);
    } else {
      CyclesUnfold(u, s, period, n - 1);
      LiveStays(u, s, period);
      LaterIs(u, s, period);
      LiveCycles(u, After(u, s, period), period, n - 1);
    }
  }

  /** The queues run empty. */
  lemma {:induction false} Drains(u: Setup, s: System, period: nat) returns (n: nat)
    requires Live(u, s) && period > 0 && |s.channel.wq| >= 2 && RefreshEnds(u, period)
    ensures Pending(Cycles(u, s, period, n).channel) == 0
    decreases Pending(s.channel)
  {
    hide Good, Settled, Timely, Pending, Cycles, RefreshEnds;
    if Pending(s.channel) == 0 {
      NoCycle(u, s, period);
      n := 0;
    } else {
      var m := LiveShrinks(u, s, period);
      LiveCycles(u, s, period, m);
      var k := Drains(u, Cycles(u, s, period, m), period);
      CyclesAdd(u, s, period, m, k);
      n := m + k;
    }
  }

  // ---------- Answers ----------

  /** Every read that was accepted has been answered, once. */
  ghost predicate AllAnswered(s: System) {
    forall t: nat :: t < |s.issued| ==> TimesAnswered(s.channel.answers, t) == 1
  }

  /** If no more requests arrive, every read that was accepted is answered within some number of cycles. */
  ghost predicate EventuallyAnswers(u: Setup, s: System, period: nat)
    requires Good(u, s.channel, s.issued)
  {
    exists n: nat :: AnswersAfter(u, s, period, n)
  }

  ghost predicate AnswersAfter(u: Setup, s: System, period: nat, n: nat)
    requires Good(u, s.channel, s.issued)
  {
    forall m: nat :: m >= n ==> AllAnswered(Cycles(u, s, period, m)) && Cycles(u, s, period, m).issued == s.issued
  }

  lemma EmptyIsAnswered(u: Setup, s: System)
    requires Good(u, s.channel, s.issued) && Pending(s.channel) == 0
    ensures AllAnswered(s)
  {
    hide Linked, SpeaksFor, Occurrences, TimesAnswered, Occupancy, BlocksDiffer;
    EmptyQueue(s.channel.rq);
    forall t: nat | t < |s.issued| ensures TimesAnswered(s.channel.answers, t) == 1 {
      assert Once(s.channel, s.issued, t);
      NoneOccurs(s.channel.rq, t);
    }
  }

  /** One cycle makes a reachable channel live. */
  lemma BecomesLive(u: Setup, s: System, period: nat)
    requires Good(u, s.channel, s.issued) && Timely(s.channel)
    ensures Live(u, After(u, s, period)) && After(u, s, period).issued == s.issued
    ensures |After(u, s, period).channel.wq| == |s.channel.wq|
  {
    hide Linked, Delivering, BlocksDiffer, AllChecked, Timely, Operate;
    StepKeeps(u, s, Cycle(period));
    StepTimely(u, s, Cycle(period));
    TimeKeeps(u, s.channel, s.issued, Later(s, period));
    OperateSize(u, Later(s, period));
  }

  lemma {:induction false} CheckReadsSize(u: Setup, c: Channel, i: nat)
    ensures CheckReads(u, c, i).wq == c.wq
    decreases |c.rq| - i
  {
    if i < |c.rq| {
      CheckReadsSize(u, CheckRead(u, c, i), i + 1);
    }
  }

  /** The write queue keeps its size. */
  lemma OperateSize(u: Setup, c: Channel)
    requires Linked(u, c)
    ensures |Operate(u, c).wq| == |c.wq|
  {
    hide Linked, CheckWrites, CheckReads, ServiceNext, MinBank, GiveBackFrom, MustSwap;
    CheckWritesKeepsLinks(u, c, 0);
    var written := CheckWrites(u, c, 0);
    CheckReadsKeepsLinks(u, written, 0);
    CheckReadsSize(u, written, 0);
    var merged := CheckReads(u, written, 0);
    var f := Finished(u, merged);
    assert |f.wq| == |c.wq| by {
      LinkedSlots(u, merged);
    }
    RestKeepsEntries(u, f);
  }

  lemma DrainedAnswers(u: Setup, s: System, period: nat, n: nat, m: nat)
    requires Live(u, s) && Pending(Cycles(u, s, period, n).channel) == 0 && m >= n
    ensures AllAnswered(Cycles(u, s, period, m)) && Cycles(u, s, period, m).issued == s.issued
  {
    hide Good, Settled, Timely, Pending, Cycles, AllAnswered;
    LiveCycles(u, s, period, n);
    CyclesAdd(u, s, period, n, m - n);
    LiveCycles(u, Cycles(u, s, period, n), period, m - n);
    EmptyIsAnswered(u, Cycles(u, s, period, m));
  }

  lemma LiveAnswers(u: Setup, s: System, period: nat)
    requires Good(u, s.channel, s.issued) && Timely(s.channel)
    requires period > 0 && |s.channel.wq| >= 2 && RefreshEnds(u, period)
    ensures EventuallyAnswers(u, s, period)
  {
    hide Good, Live, Timely, Pending, Cycles, RefreshEnds, AllAnswered, After;
    BecomesLive(u, s, period);
    var t := After(u, s, period);
    var n := Drains(u, t, period);
    forall m: nat | m >= n + 1
      ensures AllAnswered(Cycles(u, s, period, m)) && Cycles(u, s, period, m).issued == s.issued
    {
      CyclesUnfold(u, s, period, m - 1);
      DrainedAnswers(u, t, period, n, m - 1);
    }
    assert AnswersAfter(u, s, period, n + 1);
  }

  lemma {:induction false} RunSize(u: Setup, s: System, events: seq<Event>)
    requires Good(u, s.channel, s.issued)
    ensures |Run(u, s, events).channel.wq| == |s.channel.wq|
    decreases |events|
  {
    hide Good, Step;
    if |events| > 0 {
      StepKeeps(u, s, events[0]);
      StepSize(u, s, events[0]);
      RunSize(u, Step(u, s, events[0]), events[1..]);
    }
  }

  lemma StepSize(u: Setup, s: System, e: Event)
    requires Good(u, s.channel, s.issued)
    ensures |Step(u, s, e).channel.wq| == |s.channel.wq|
  {
    hide Linked, Delivering, BlocksDiffer, Operate, FirstEmpty;
    match e
    case ReadArrives(r) =>
    case WriteArrives(a) =>
    case Cycle(elapsed) =>
      var c := s.channel.(now := s.channel.now + elapsed);
      TimeKeeps(u, s.channel, s.issued, c);
      OperateSize(u, c);
  }
}
