/**
 * The DRAM request scheduler of lab2. Each bank remembers only its last request; the proofs
 * relate that to the history of all requests ever issued.
 */
module DramScheduler {
  import opened Collections
  import opened Powers

  const CMD_CYCLES: nat := 4
  const BANK_BUSY_CYCLES: nat := 100
  const DATA_TF_CYCLES: nat := 50
  const NUM_BANKS: nat := 8

  datatype Bank = Bank(reqStart: nat, openRow: nat, hasOpenRow: bool, numCommands: nat)

  datatype Request = Request(address: nat, arrival: nat, fromMem: bool, valid: bool)

  function BankOf(address: nat): (b: nat)
    ensures b < NUM_BANKS
  {
    assert Pow2(3) == 8;
    LowBits(Shr(address, 5), 3)
  }

  function RowOf(address: nat): nat {
    Shr(address, 16)
  }

  predicate IsRowHit(bank: Bank, row: nat) {
    bank.hasOpenRow && bank.openRow == row
  }

  /** READ/WRITE; ACTIVATE and READ/WRITE; or PRECHARGE, ACTIVATE and READ/WRITE. */
  function Commands(bank: Bank, row: nat): (n: nat)
    ensures 1 <= n <= 3
  {
    if !bank.hasOpenRow then 2 else if bank.openRow == row then 1 else 3
  }

  // ---------- Issued requests and the resources they occupy ----------

  datatype Issued = Issued(bank: nat, row: nat, start: nat, commands: nat)

  function CommandStart(i: Issued, c: nat): nat {
    i.start + c * BANK_BUSY_CYCLES
  }

  function DataStart(i: Issued): nat {
    i.start + i.commands * BANK_BUSY_CYCLES
  }

  /** Two intervals of the same length starting at `a` and `b` have no cycle in common. */
  predicate Apart(a: nat, b: nat, length: nat) {
    a + length <= b || b + length <= a
  }

  predicate CommandsApart(a: Issued, b: Issued) {
    forall c :: 0 <= c < a.commands ==> CommandApart(CommandStart(a, c), b)
  }

  /** One command, starting at `start`, against all commands of `i`. */
  predicate CommandApart(start: nat, i: Issued) {
    forall d :: 0 <= d < i.commands ==> Apart(start, CommandStart(i, d), CMD_CYCLES)
  }

  predicate DataApart(a: Issued, b: Issued) {
    Apart(DataStart(a), DataStart(b), DATA_TF_CYCLES)
  }

  /** The bank is busy from the first command until the data transfer starts. */
  predicate BusyApart(a: Issued, b: Issued) {
    a.bank == b.bank ==> DataStart(a) <= b.start || DataStart(b) <= a.start
  }

  predicate Exclusive(a: Issued, b: Issued) {
    CommandsApart(a, b) && DataApart(a, b) && BusyApart(a, b)
  }

  // ---------- The scheduling decision ----------

  type Banks = s: seq<Bank> | |s| == NUM_BANKS
    witness seq(NUM_BANKS, _ => Bank(0, 0, false, 0))

  function Remembered(banks: Banks, b: nat): Issued
    requires b < NUM_BANKS
  {
    Issued(b, banks[b].openRow, banks[b].reqStart, banks[b].numCommands)
  }

  function Proposed(banks: Banks, address: nat, now: nat): Issued {
    Issued(BankOf(address), RowOf(address), now, Commands(banks[BankOf(address)], RowOf(address)))
  }

  /** is_request_schedulable: command bus, data bus and bank checked against the last request of each bank. */
  predicate Schedulable(banks: Banks, address: nat, now: nat) {
    var ours := Proposed(banks, address, now);
    && (forall b :: 0 <= b < NUM_BANKS && banks[b].hasOpenRow ==> CommandsApart(ours, Remembered(banks, b)))
    && (forall b :: 0 <= b < NUM_BANKS && banks[b].hasOpenRow ==> DataApart(ours, Remembered(banks, b)))
    && (banks[ours.bank].openRow != 0 ==> BusyApart(ours, Remembered(banks, ours.bank)))
  }

  function Issue(banks: Banks, address: nat, now: nat): Banks {
    var ours := Proposed(banks, address, now);
    banks[ours.bank := Bank(now, RowOf(address), true, ours.commands)]
  }

  /** Every bank remembers the newest request of its own, and there is one exactly if a row is open. */
  ghost predicate RemembersLast(banks: Banks, history: seq<Issued>) {
    forall b :: 0 <= b < NUM_BANKS ==>
      && (!banks[b].hasOpenRow ==> banks[b].openRow == 0 && forall i :: 0 <= i < |history| ==> history[i].bank != b)
      && (banks[b].hasOpenRow ==> banks[b].openRow != 0 && exists k :: IsLast(history, b, k) && history[k] == Remembered(banks, b))
  }

  predicate IsLast(history: seq<Issued>, b: nat, k: int) {
    && 0 <= k < |history| && history[k].bank == b
    && forall i :: k < i < |history| ==> history[i].bank != b
  }

  ghost predicate Chronological(history: seq<Issued>) {
    && (forall i :: 0 <= i < |history| ==> history[i].bank < NUM_BANKS && 1 <= history[i].commands <= 3)
    && (forall i, j :: 0 <= i < j < |history| ==> history[i].start < history[j].start)
  }

  ghost predicate AllExclusive(history: seq<Issued>) {
    forall i, j :: 0 <= i < j < |history| ==> Exclusive(history[j], history[i])
  }

  ghost predicate Recorded(banks: Banks, history: seq<Issued>, now: nat) {
    && RemembersLast(banks, history)
    && Chronological(history)
    && AllExclusive(history)
    && forall i :: 0 <= i < |history| ==> history[i].start < now
  }

  ghost predicate NoConflict(ours: Issued, history: seq<Issued>) {
    forall i :: 0 <= i < |history| ==> Exclusive(ours, history[i])
  }

  /** A request of the same bank older than `last` cannot reach a request that starts after `last`. */
  lemma OlderIsOver(ours: Issued, older: Issued, last: Issued)
    requires older.bank == last.bank && older.start < last.start < ours.start
    requires BusyApart(last, older) && 1 <= older.commands && 1 <= last.commands && 1 <= ours.commands
    ensures Exclusive(ours, older)
  {
    assert DataStart(older) <= last.start;
    forall c, d | 0 <= c < ours.commands && 0 <= d < older.commands
      ensures Apart(CommandStart(ours, c), CommandStart(older, d), CMD_CYCLES)
    {
      assert CommandStart(older, d) + BANK_BUSY_CYCLES <= DataStart(older);
    }
    assert DataStart(ours) >= ours.start + BANK_BUSY_CYCLES;
  }

  /**
   * Looking only at the last request of each bank is as good as looking at the whole history:
   * a request is schedulable exactly when it conflicts with none ever issued.
   */
  lemma SchedulableIffNoConflict(banks: Banks, history: seq<Issued>, address: nat, now: nat)
    requires Recorded(banks, history, now)
    ensures Schedulable(banks, address, now) <==> NoConflict(Proposed(banks, address, now), history)
  {
    hide CommandsApart, DataApart, Commands, BankOf, RowOf;
    var ours := Proposed(banks, address, now);
    if Schedulable(banks, address, now) {
      forall i | 0 <= i < |history| ensures Exclusive(ours, history[i]) {
        RememberedDecides(banks, history, address, now, i);
      }
    }
    if NoConflict(ours, history) {
      forall b | 0 <= b < NUM_BANKS && banks[b].hasOpenRow
        ensures Exclusive(ours, Remembered(banks, b))
      {
        var k :| IsLast(history, b, k) && history[k] == Remembered(banks, b);
      }
    }
  }

  lemma RememberedDecides(banks: Banks, history: seq<Issued>, address: nat, now: nat, i: nat)
    requires Recorded(banks, history, now) && Schedulable(banks, address, now) && i < |history|
    ensures Exclusive(Proposed(banks, address, now), history[i])
  {
    hide CommandsApart, DataApart, Commands, BankOf, RowOf;
    var ours := Proposed(banks, address, now);
    var b := history[i].bank;
    var k :| IsLast(history, b, k) && history[k] == Remembered(banks, b);
    assert Exclusive(ours, history[k]);
    if i < k {
      assert Exclusive(history[k], history[i]);
      OlderIsOver(ours, history[i], history[k]);
    }
  }

  lemma IssueKeepsRecord(banks: Banks, history: seq<Issued>, address: nat, now: nat)
    requires Recorded(banks, history, now) && Schedulable(banks, address, now) && RowOf(address) != 0
    ensures Recorded(Issue(banks, address, now), history + [Proposed(banks, address, now)], now + 1)
  {
    hide CommandsApart, DataApart, BusyApart, Commands, BankOf, RowOf;
    SchedulableIffNoConflict(banks, history, address, now);
    var ours := Proposed(banks, address, now);
    var history' := history + [ours];
    var banks' := Issue(banks, address, now);
    forall b | 0 <= b < NUM_BANKS && banks'[b].hasOpenRow
      ensures exists k :: IsLast(history', b, k) && history'[k] == Remembered(banks', b)
    {
      if b == ours.bank {
        assert IsLast(history', b, |history|);
      } else {
        var k :| IsLast(history, b, k) && history[k] == Remembered(banks, b);
        assert IsLast(history', b, k);
      }
    }
  }

  // ---------- Choosing among the queued requests ----------

  predicate Candidate(banks: Banks, r: Request, now: nat) {
    r.valid && r.arrival <= now && Schedulable(banks, r.address, now)
  }

  predicate RowHit(banks: Banks, r: Request) {
    IsRowHit(banks[BankOf(r.address)], RowOf(r.address))
  }

  /** Priority: row hits, then earlier arrival, then requests of the memory stage. */
  predicate Better(banks: Banks, a: Request, b: Request) {
    if RowHit(banks, a) != RowHit(banks, b) then RowHit(banks, a)
    else if a.arrival != b.arrival then a.arrival < b.arrival
    else a.fromMem && !b.fromMem
  }

  /** The scan of select_request_to_schedule over the first `n` slots. */
  function Scan(banks: Banks, queue: seq<Request>, now: nat, n: nat): (best: Option<nat>)
    requires n <= |queue|
    ensures best.Some? ==> best.value < n && Candidate(banks, queue[best.value], now)
  {
    if n == 0 then None
    else
      var best := Scan(banks, queue, now, n - 1);
      if !Candidate(banks, queue[n - 1], now) then best
      else if best.None? || Better(banks, queue[n - 1], queue[best.value]) then Some(n - 1)
      else best
  }

  /** The request chosen is first by priority, then by slot, among all that could be scheduled. */
  lemma {:induction false} ScanFindsBest(banks: Banks, queue: seq<Request>, now: nat, n: nat)
    requires n <= |queue|
    ensures var best := Scan(banks, queue, now, n);
      forall j :: 0 <= j < n && Candidate(banks, queue[j], now) ==>
        && best.Some?
        && !Better(banks, queue[j], queue[best.value])
        && (j < best.value ==> Better(banks, queue[best.value], queue[j]))
  {
    if n > 0 {
      ScanFindsBest(banks, queue, now, n - 1);
    }
  }

  // ---------- Cycles and runs ----------

  /** `history` says what the requests issued so far occupy, `issued` which requests they were. */
  datatype State = State(banks: Banks, queue: seq<Request>, history: seq<Issued>, issued: seq<Request>)

  datatype Arrival = Arrival(address: nat, fromMem: bool)

  function FreeSlot(queue: seq<Request>): (i: nat)
    ensures i <= |queue|
    ensures i < |queue| ==> !queue[i].valid
    ensures forall j :: 0 <= j < i ==> queue[j].valid
  {
    FirstIndex(queue, (r: Request) => !r.valid)
  }

  function Enqueue(queue: seq<Request>, a: Arrival, now: nat): (q: seq<Request>)
    ensures |q| == |queue|
  {
    var i := FreeSlot(queue);
    if i < |queue| then queue[i := Request(a.address, now, a.fromMem, true)] else queue
  }

  function EnqueueAll(queue: seq<Request>, arrivals: seq<Arrival>, now: nat): (q: seq<Request>)
    ensures |q| == |queue|
  {
    if arrivals == [] then queue
    else Enqueue(EnqueueAll(queue, arrivals[..|arrivals| - 1], now), arrivals[|arrivals| - 1], now)
  }

  /** memory_controller_cycle: queue the new misses, then issue the best schedulable request. */
  function Cycle(s: State, arrivals: seq<Arrival>, now: nat): State {
    IssueBest(s.(queue := EnqueueAll(s.queue, arrivals, now)), now)
  }

  function IssueBest(s: State, now: nat): State {
    match Scan(s.banks, s.queue, now, |s.queue|)
    case None => s
    case Some(i) =>
      State(Issue(s.banks, s.queue[i].address, now),
        s.queue[i := s.queue[i].(valid := false)],
        s.history + [Proposed(s.banks, s.queue[i].address, now)], s.issued + [s.queue[i]])
  }

  function Idle(capacity: nat): State {
    State(seq(NUM_BANKS, _ => Bank(0, 0, false, 0)), seq(capacity, _ => Request(0, 0, false, false)), [], [])
  }

  /** The state after the cycles `t`, ..., `t + n - 1`. */
  function Run(s: State, t: nat, n: nat, arrivals: nat -> seq<Arrival>): State {
    if n == 0 then s else Cycle(Run(s, t, n - 1, arrivals), arrivals(t + n - 1), t + n - 1)
  }

  ghost predicate NonzeroRows(queue: seq<Request>) {
    forall i :: 0 <= i < |queue| && queue[i].valid ==> RowOf(queue[i].address) != 0
  }

  ghost predicate Arrived(queue: seq<Request>, now: nat) {
    forall i :: 0 <= i < |queue| && queue[i].valid ==> queue[i].arrival <= now
  }

  ghost predicate Mapped(arrivals: seq<Arrival>) {
    forall i :: 0 <= i < |arrivals| ==> RowOf(arrivals[i].address) != 0
  }

  ghost predicate MappedArrivals(arrivals: nat -> seq<Arrival>) {
    forall t: nat :: Mapped(arrivals(t))
  }

  ghost predicate Sound(s: State, now: nat) {
    && Recorded(s.banks, s.history, now)
    && NonzeroRows(s.queue)
    && Arrived(s.queue, now)
  }

  lemma {:induction false} EnqueueKeeps(queue: seq<Request>, arrivals: seq<Arrival>, now: nat)
    requires NonzeroRows(queue) && Arrived(queue, now)
    requires Mapped(arrivals)
    ensures NonzeroRows(EnqueueAll(queue, arrivals, now)) && Arrived(EnqueueAll(queue, arrivals, now), now)
  {
    if arrivals != [] {
      EnqueueKeeps(queue, arrivals[..|arrivals| - 1], now);
    }
  }

  lemma CycleKeepsSound(s: State, arrivals: seq<Arrival>, now: nat)
    requires Sound(s, now)
    requires Mapped(arrivals)
    ensures Sound(Cycle(s, arrivals, now), now + 1)
  {
    EnqueueKeeps(s.queue, arrivals, now);
    var queue := EnqueueAll(s.queue, arrivals, now);
    var best := Scan(s.banks, queue, now, |queue|);
    if best.Some? {
      IssueKeepsRecord(s.banks, s.history, queue[best.value].address, now);
    }
  }

  lemma {:induction false} RunKeepsSound(s: State, t: nat, n: nat, arrivals: nat -> seq<Arrival>)
    requires Sound(s, t) && MappedArrivals(arrivals)
    ensures Sound(Run(s, t, n, arrivals), t + n)
  {
    hide Sound, Cycle, Mapped;
    if n > 0 {
      RunKeepsSound(s, t, n - 1, arrivals);
      CycleKeepsSound(Run(s, t, n - 1, arrivals), arrivals(t + n - 1), t + n - 1);
    }
  }

  /**
   * Exclusion over the whole history: in every run, with any queue capacity and any arrivals to
   * mapped (nonzero) rows, no two requests ever issued overlap on the command bus, on the data
   * bus, or in the busy time of a bank.
   */
  lemma WholeHistoryExclusion(capacity: nat, t: nat, n: nat, arrivals: nat -> seq<Arrival>, i: nat, j: nat)
    requires MappedArrivals(arrivals)
    requires i < j < |Run(Idle(capacity), t, n, arrivals).history|
    ensures var h := Run(Idle(capacity), t, n, arrivals).history;
      CommandsApart(h[j], h[i]) && DataApart(h[j], h[i]) && BusyApart(h[j], h[i]) && h[i].start < h[j].start
  {
    assert Sound(Idle(capacity), t);
    RunKeepsSound(Idle(capacity), t, n, arrivals);
    assert Exclusive(Run(Idle(capacity), t, n, arrivals).history[j], Run(Idle(capacity), t, n, arrivals).history[i]);
  }

  // ---------- Bounded service ----------

  const LONGEST: nat := 300

  /** When every issued request started at least 300 cycles ago, every request is schedulable. */
  lemma FreeAfterLongest(banks: Banks, history: seq<Issued>, address: nat, now: nat)
    requires Recorded(banks, history, now)
    requires forall i :: 0 <= i < |history| ==> history[i].start + LONGEST <= now
    ensures Schedulable(banks, address, now)
  {
    var ours := Proposed(banks, address, now);
    forall i | 0 <= i < |history| ensures Exclusive(ours, history[i]) {
      var h := history[i];
      assert h.commands == 1 || h.commands == 2 || h.commands == 3;
      assert DataStart(h) <= h.start + LONGEST;
      assert DataStart(ours) >= now + BANK_BUSY_CYCLES;
      forall c, d | 0 <= c < ours.commands && 0 <= d < h.commands
        ensures Apart(CommandStart(ours, c), CommandStart(h, d), CMD_CYCLES)
      {
        assert CommandStart(h, d) + BANK_BUSY_CYCLES <= DataStart(h);
      }
    }
    SchedulableIffNoConflict(banks, history, address, now);
  }

  function Pending(queue: seq<Request>): nat {
    if queue == [] then 0
    else Pending(queue[..|queue| - 1]) + if queue[|queue| - 1].valid then 1 else 0
  }

  lemma {:induction false} PendingZero(queue: seq<Request>)
    ensures Pending(queue) == 0 <==> forall i :: 0 <= i < |queue| ==> !queue[i].valid
  {
    if queue != [] {
      PendingZero(queue[..|queue| - 1]);
    }
  }

  lemma {:induction false} PendingRemove(queue: seq<Request>, i: nat)
    requires i < |queue| && queue[i].valid
    ensures Pending(queue[i := queue[i].(valid := false)]) == Pending(queue) - 1
  {
    var n := |queue| - 1;
    var after := queue[i := queue[i].(valid := false)];
    if i == n {
      assert after[..n] == queue[..n];
    } else {
      assert after[..n] == queue[..n][i := queue[..n][i].(valid := false)];
      PendingRemove(queue[..n], i);
    }
  }

  lemma {:induction false} PendingAdd(queue: seq<Request>, i: nat, r: Request)
    requires i < |queue| && !queue[i].valid && r.valid
    ensures Pending(queue[i := r]) == Pending(queue) + 1
  {
    var n := |queue| - 1;
    var after := queue[i := r];
    if i == n {
      assert after[..n] == queue[..n];
    } else {
      assert after[..n] == queue[..n][i := r];
      PendingAdd(queue[..n], i, r);
    }
  }

  /** The queue is full exactly if no slot is free. */
  lemma {:induction false} PendingFull(queue: seq<Request>)
    ensures Pending(queue) <= |queue|
    ensures Pending(queue) == |queue| <==> forall i :: 0 <= i < |queue| ==> queue[i].valid
  {
    if queue != [] {
      PendingFull(queue[..|queue| - 1]);
    }
  }

  lemma EnqueueCounts(queue: seq<Request>, a: Arrival, now: nat)
    ensures FreeSlot(queue) < |queue| <==> Pending(queue) < |queue|
    ensures Pending(Enqueue(queue, a, now)) == Min(|queue|, Pending(queue) + 1)
  {
    hide Pending, FreeSlot;
    PendingFull(queue);
    var i := FreeSlot(queue);
    if i < |queue| {
      PendingAdd(queue, i, Request(a.address, now, a.fromMem, true));
    }
  }

  function Silence(t: nat): seq<Arrival> {
    []
  }

  /**
   * Service gap: whatever arrives, a cycle that comes 300 cycles or more after the last issue and
   * finds a request in the queue issues one.
   */
  lemma IssuesAfterGap(s: State, arrivals: seq<Arrival>, now: nat)
    requires Sound(s, now) && Mapped(arrivals)
    requires forall i :: 0 <= i < |s.history| ==> s.history[i].start + LONGEST <= now
    requires Pending(EnqueueAll(s.queue, arrivals, now)) > 0
    ensures |Cycle(s, arrivals, now).history| == |s.history| + 1
    ensures Cycle(s, arrivals, now).history[|s.history|].start == now
  {
    EnqueueKeeps(s.queue, arrivals, now);
    var queue := EnqueueAll(s.queue, arrivals, now);
    PendingZero(queue);
    var i :| 0 <= i < |queue| && queue[i].valid;
    FreeAfterLongest(s.banks, s.history, queue[i].address, now);
    assert Candidate(s.banks, queue[i], now);
    ScanFindsBest(s.banks, queue, now, |queue|);
  }

  /** A cycle without arrivals issues one pending request or changes nothing. */
  lemma QuietCycle(s: State, now: nat)
    requires Sound(s, now)
    ensures var s' := Cycle(s, [], now);
      || s' == s
      || (Pending(s'.queue) == Pending(s.queue) - 1 && |s'.history| == |s.history| + 1)
    ensures (forall i :: 0 <= i < |s.history| ==> s.history[i].start + LONGEST <= now) && Pending(s.queue) > 0
      ==> Cycle(s, [], now) != s
  {
    var best := Scan(s.banks, s.queue, now, |s.queue|);
    if best.Some? {
      PendingRemove(s.queue, best.value);
    }
    if (forall i :: 0 <= i < |s.history| ==> s.history[i].start + LONGEST <= now) && Pending(s.queue) > 0 {
      IssuesAfterGap(s, [], now);
    }
  }

  lemma SilenceIsMapped()
    ensures MappedArrivals(Silence)
  {
  }

  /** While nothing is issued and nothing arrives, the state stands still. */
  lemma {:induction false} QuietRun(s: State, t: nat, n: nat)
    requires Sound(s, t)
    ensures var s' := Run(s, t, n, Silence);
      || s' == s
      || (Pending(s'.queue) < Pending(s.queue))
  {
    hide Sound, Cycle, Pending, MappedArrivals;
    if n > 0 {
      QuietRun(s, t, n - 1);
      SilenceIsMapped();
      RunKeepsSound(s, t, n - 1, Silence);
      QuietCycle(Run(s, t, n - 1, Silence), t + n - 1);
    }
  }

  /** With a request pending, one is issued within 300 cycles. */
  lemma IssuesWithinLongest(s: State, t: nat)
    requires Sound(s, t) && Pending(s.queue) > 0
    ensures Pending(Run(s, t, LONGEST, Silence).queue) < Pending(s.queue)
  {
    var before := Run(s, t, LONGEST - 1, Silence);
    QuietRun(s, t, LONGEST - 1);
    SilenceIsMapped();
    RunKeepsSound(s, t, LONGEST - 1, Silence);
    QuietCycle(before, t + LONGEST - 1);
  }

  lemma {:induction false} RunCompose(s: State, t: nat, a: nat, b: nat)
    ensures Run(s, t, a + b, Silence) == Run(Run(s, t, a, Silence), t + a, b, Silence)
  {
    hide Cycle;
    if b > 0 {
      RunCompose(s, t, a, b - 1);
    }
  }

  lemma RunNothing(s: State, t: nat)
    ensures Run(s, t, 0, Silence) == s
  {
  }

  /** Bounded service: `n` queued requests with no new arrivals all issue within 300 * n cycles. */
  lemma {:induction false} AllIssueWithin(s: State, t: nat, n: nat)
    requires Sound(s, t) && Pending(s.queue) <= n
    ensures Pending(Run(s, t, LONGEST * n, Silence).queue) == 0
    decreases n
  {
    hide Sound, Cycle, Pending, MappedArrivals, Run;
    if n == 0 {
      RunNothing(s, t);
    } else {
      var s1 := Run(s, t, LONGEST, Silence);
      SilenceIsMapped();
      RunKeepsSound(s, t, LONGEST, Silence);
      if Pending(s.queue) > 0 {
        IssuesWithinLongest(s, t);
      } else {
        QuietRun(s, t, LONGEST);
      }
      AllIssueWithin(s1, t + LONGEST, n - 1);
      RunCompose(s, t, LONGEST, LONGEST * (n - 1));
      assert LONGEST + LONGEST * (n - 1) == LONGEST * n;
    }
  }

  // ---------- Row 0 ----------

  /** The banks after the only request so far, for bank `b` at cycle `t`. */
  function OnlyUsed(b: nat, t: nat, row: nat, commands: nat): Banks
    requires b < NUM_BANKS
  {
    seq(NUM_BANKS, _ => Bank(0, 0, false, 0))[b := Bank(t, row, true, commands)]
  }

  /** The request counts as schedulable although its bank is still busy with its last one. */
  predicate AcceptsWhileBusy(banks: Banks, address: nat, now: nat) {
    && Schedulable(banks, address, now)
    && !BusyApart(Proposed(banks, address, now), Remembered(banks, BankOf(address)))
  }

  /**
   * Row 0 is not protected: the bank test reads the row number as a flag. For a request to the
   * open row of the only bank in use, there is a cycle in which it is accepted while the bank is
   * still busy exactly when that row is row 0.
   */
  lemma BusyBankAcceptsIffRowZero(b: nat, t: nat, commands: nat, address: nat)
    requires b == BankOf(address) && 1 <= commands <= 3
    ensures (exists now :: AcceptsWhileBusy(OnlyUsed(b, t, RowOf(address), commands), address, now)) <==> RowOf(address) == 0
  {
    var banks := OnlyUsed(b, t, RowOf(address), commands);
    if RowOf(address) == 0 {
      var now := t + DATA_TF_CYCLES;
      var ours := Proposed(banks, address, now);
      assert ours.commands == 1;
      assert CommandsApart(ours, Remembered(banks, b)) && DataApart(ours, Remembered(banks, b));
      assert AcceptsWhileBusy(banks, address, now);
    }
  }

  /** Two requests to address 0, at cycles 0 and 50, are both issued and overlap in bank 0. */
  lemma RowZeroOverlaps()
    ensures var unused := Idle(2).banks;
      var after := Issue(unused, 0, 0);
      && Schedulable(unused, 0, 0) && Schedulable(after, 0, 50)
      && !BusyApart(Proposed(after, 0, 50), Proposed(unused, 0, 0))
  {
    var unused := Idle(2).banks;
    assert BankOf(0) < NUM_BANKS;
    assert Proposed(unused, 0, 0).commands == 2;
    var after := Issue(unused, 0, 0);
    assert RowOf(0) == 0;
    assert Proposed(after, 0, 50).commands == 1;
  }

  /** The same miss arrives in cycles 0 and 4. */
  function Twice(address: nat): nat -> seq<Arrival> {
    (t: nat) => if t == 0 || t == 4 then [Arrival(address, false)] else []
  }

  lemma EnqueueOne(queue: seq<Request>, a: Arrival, now: nat)
    ensures EnqueueAll(queue, [a], now) == Enqueue(queue, a, now)
  {
    assert [a][..0] == [];
  }

  /** The only slot is taken by the only arrival, which is issued at once if it is schedulable. */
  lemma SingleIssue(s: State, address: nat, now: nat)
    requires |s.queue| == 1 && !s.queue[0].valid && Schedulable(s.banks, address, now)
    ensures var t := Cycle(s, [Arrival(address, false)], now);
      && t.banks == Issue(s.banks, address, now) && t.history == s.history + [Proposed(s.banks, address, now)]
      && |t.queue| == 1 && !t.queue[0].valid
  {
    hide Schedulable, Issue, Proposed;
    EnqueueOne(s.queue, Arrival(address, false), now);
    var q := EnqueueAll(s.queue, [Arrival(address, false)], now);
    assert q[0] == Request(address, now, false, true);
    assert Candidate(s.banks, q[0], now);
    assert Scan(s.banks, q, now, 0) == None;
  }

  lemma EmptyCycle(s: State, now: nat)
    requires |s.queue| == 1 && !s.queue[0].valid
    ensures Cycle(s, [], now) == s
  {
    hide Schedulable;
    assert Scan(s.banks, s.queue, now, 0) == None;
  }

  /** A miss to row 0 that comes twice is issued in cycles 0 and 4, its bank being busy until cycle 199. */
  lemma RowZeroRunOverlaps(address: nat)
    requires RowOf(address) == 0
    ensures var h := Run(Idle(1), 0, 5, Twice(address)).history; |h| == 2 && !BusyApart(h[1], h[0])
  {
    hide Cycle, BankOf, RowOf;
    var arrivals, idle := Twice(address), Idle(1);
    SingleIssue(idle, address, 0);
    var first := Cycle(idle, arrivals(0), 0);
    EmptyCycle(first, 1);
    EmptyCycle(first, 2);
    EmptyCycle(first, 3);
    assert Run(idle, 0, 0, arrivals) == idle;
    assert Run(idle, 0, 1, arrivals) == first;
    assert Run(idle, 0, 2, arrivals) == first;
    assert Run(idle, 0, 3, arrivals) == first;
    assert Run(idle, 0, 4, arrivals) == first;
    var ours := Proposed(first.banks, address, 4);
    assert ours.commands == 1 && Proposed(idle.banks, address, 0).commands == 2;
    assert CommandsApart(ours, Remembered(first.banks, ours.bank)) && DataApart(ours, Remembered(first.banks, ours.bank));
    SingleIssue(first, address, 4);
  }

  ghost predicate Restricted(allowed: nat -> bool, arrivals: nat -> seq<Arrival>) {
    forall t: nat, k :: 0 <= k < |arrivals(t)| ==> allowed(arrivals(t)[k].address)
  }

  ghost predicate RunsExclusively(arrivals: nat -> seq<Arrival>) {
    forall capacity: nat, t: nat, n: nat :: AllExclusive(Run(Idle(capacity), t, n, arrivals).history)
  }

  /**
   * The exact condition for exclusion: the runs on the misses of a set of addresses never overlap
   * on a bus or in a bank if and only if no address of the set is in row 0.
   */
  lemma ExclusionIffNoRowZero(allowed: nat -> bool)
    ensures (forall arrivals: nat -> seq<Arrival> :: Restricted(allowed, arrivals) ==> RunsExclusively(arrivals))
      <==> (forall address: nat :: allowed(address) ==> RowOf(address) != 0)
  {
    hide RowOf, CommandsApart, DataApart, BusyApart, Run, Twice;
    if forall address: nat :: allowed(address) ==> RowOf(address) != 0 {
      forall arrivals: nat -> seq<Arrival> | Restricted(allowed, arrivals) ensures RunsExclusively(arrivals) {
        AllowedRunsExclusively(allowed, arrivals);
      }
    } else {
      var address: nat :| allowed(address) && RowOf(address) == 0;
      RowZeroRunOverlaps(address);
      var h := Run(Idle(1), 0, 5, Twice(address)).history;
      assert !Exclusive(h[1], h[0]);
      TwiceRestricted(allowed, address);
      assert !RunsExclusively(Twice(address));
    }
  }

  lemma TwiceRestricted(allowed: nat -> bool, address: nat)
    requires allowed(address)
    ensures Restricted(allowed, Twice(address))
  {
  }

  lemma AllowedRunsExclusively(allowed: nat -> bool, arrivals: nat -> seq<Arrival>)
    requires Restricted(allowed, arrivals) && forall address: nat :: allowed(address) ==> RowOf(address) != 0
    ensures RunsExclusively(arrivals)
  {
    hide Run, RowOf;
    assert MappedArrivals(arrivals);
    forall capacity: nat, t: nat, n: nat ensures AllExclusive(Run(Idle(capacity), t, n, arrivals).history) {
      var h := Run(Idle(capacity), t, n, arrivals).history;
      forall i, j | 0 <= i < j < |h| ensures Exclusive(h[j], h[i]) {
        WholeHistoryExclusion(capacity, t, n, arrivals, i, j);
      }
    }
  }

  // ---------- The controller ----------

  class MemController {
    const queue: array<Request>
    const banks: array<Bank>
    ghost var history: seq<Issued>
    ghost var issued: seq<Request>

    ghost predicate Valid() {
      banks.Length == NUM_BANKS
    }

    ghost function Value(): State
      requires Valid()
      reads this, queue, banks
    {
      State(banks[..], queue[..], history, issued)
    }

    constructor (capacity: nat)
      ensures Valid() && fresh(queue) && fresh(banks)
      ensures Value() == Idle(capacity)
    {
      queue := new Request[capacity](_ => Request(0, 0, false, false));
      banks := new Bank[NUM_BANKS](_ => Bank(0, 0, false, 0));
      history, issued := [], [];
      new;
      assert banks[..] == Idle(capacity).banks;
      assert queue[..] == Idle(capacity).queue;
    }

    /** One proposed command against the commands of one bank's last request. */
    method CommandClashes(start: nat, b: nat) returns (clash: bool)
      requires Valid() && b < NUM_BANKS
      ensures clash <==> !CommandApart(start, Remembered(banks[..], b))
    {
      var d := 0;
      while d < banks[b].numCommands
        invariant 0 <= d <= banks[b].numCommands
        invariant forall e :: 0 <= e < d ==> Apart(start, CommandStart(Remembered(banks[..], b), e), CMD_CYCLES)
      {
        var scheduled := banks[b].reqStart + d * BANK_BUSY_CYCLES;
        assert scheduled == CommandStart(Remembered(banks[..], b), d);
        if !(start + CMD_CYCLES - 1 < scheduled || start > scheduled + CMD_CYCLES - 1) {
          return true;
        }
        d := d + 1;
      }
      return false;
    }

    method CommandBusFree(ours: Issued) returns (free: bool)
      requires Valid()
      ensures free <==> forall b :: 0 <= b < NUM_BANKS && banks[b].hasOpenRow ==>
        CommandsApart(ours, Remembered(banks[..], b))
    {
      var c := 0;
      while c < ours.commands
        invariant 0 <= c <= ours.commands
        invariant forall b, a :: 0 <= b < NUM_BANKS && banks[b].hasOpenRow && 0 <= a < c ==>
          CommandApart(CommandStart(ours, a), Remembered(banks[..], b))
      {
        var b := 0;
        while b < NUM_BANKS
          invariant 0 <= b <= NUM_BANKS
          invariant forall e :: 0 <= e < b && banks[e].hasOpenRow ==>
            CommandApart(CommandStart(ours, c), Remembered(banks[..], e))
        {
          if banks[b].hasOpenRow {
            var clash := CommandClashes(CommandStart(ours, c), b);
            if clash {
              return false;
            }
          }
          b := b + 1;
        }
        c := c + 1;
      }
      return true;
    }

    method DataBusFree(ours: Issued) returns (free: bool)
      requires Valid()
      ensures free <==> forall b :: 0 <= b < NUM_BANKS && banks[b].hasOpenRow ==> DataApart(ours, Remembered(banks[..], b))
    {
      var b := 0;
      while b < NUM_BANKS
        invariant 0 <= b <= NUM_BANKS
        invariant forall e :: 0 <= e < b && banks[e].hasOpenRow ==> DataApart(ours, Remembered(banks[..], e))
      {
        if banks[b].hasOpenRow && !DataApart(ours, Remembered(banks[..], b)) {
          return false;
        }
        b := b + 1;
      }
      return true;
    }

    /** is_request_schedulable. */
    method IsRequestSchedulable(address: nat, now: nat) returns (ok: bool)
      requires Valid()
      ensures ok == Schedulable(banks[..], address, now)
    {
      var ours := Proposed(banks[..], address, now);
      ok := CommandBusFree(ours);
      if !ok {
        return;
      }
      ok := DataBusFree(ours);
      if !ok {
        return;
      }
      if banks[ours.bank].openRow != 0 && !BusyApart(ours, Remembered(banks[..], ours.bank)) {
        return false;
      }
    }

    /** select_request_to_schedule. */
    method SelectRequest(now: nat) returns (best: Option<nat>)
      requires Valid()
      ensures best == Scan(banks[..], queue[..], now, queue.Length)
    {
      best := None;
      var i := 0;
      while i < queue.Length
        invariant 0 <= i <= queue.Length
        invariant best == Scan(banks[..], queue[..], now, i)
      {
        if queue[i].valid && queue[i].arrival <= now {
          var ok := IsRequestSchedulable(queue[i].address, now);
          if ok && (best.None? || Better(banks[..], queue[i], queue[best.value])) {
            best := Some(i);
          }
        }
        i := i + 1;
      }
    }

    /** Put one miss into the first free queue slot; the source asserts that there is one. */
    method QueueMiss(a: Arrival, now: nat) returns (queued: bool)
      requires Valid()
      modifies queue
      ensures queued <==> FreeSlot(old(queue[..])) < queue.Length
      ensures queue[..] == Enqueue(old(queue[..]), a, now)
    {
      var j := 0;
      while j < queue.Length && queue[j].valid
        invariant 0 <= j <= queue.Length
        invariant forall i :: 0 <= i < j ==> queue[i].valid
      {
        j := j + 1;
      }
      assert j == FreeSlot(queue[..]);
      queued := j < queue.Length;
      if queued {
        queue[j] := Request(a.address, now, a.fromMem, true);
      }
    }

    /** issue_dram_request. */
    method IssueRequest(i: nat, now: nat)
      requires Valid() && i < queue.Length
      modifies this, banks
      ensures banks[..] == Issue(old(banks[..]), queue[i].address, now)
      ensures history == old(history) + [Proposed(old(banks[..]), queue[i].address, now)]
      ensures issued == old(issued) + [queue[i]]
    {
      var b, row := BankOf(queue[i].address), RowOf(queue[i].address);
      var commands := Commands(banks[b], row);
      history, issued := history + [Proposed(banks[..], queue[i].address, now)], issued + [queue[i]];
      banks[b] := Bank(now, row, true, commands);
    }

    /** The loop that queues the misses of a cycle. */
    method QueueMisses(arrivals: seq<Arrival>, now: nat) returns (queued: bool)
      requires Valid()
      modifies queue
      ensures queue[..] == EnqueueAll(old(queue[..]), arrivals, now)
      ensures queued <==> Pending(old(queue[..])) + |arrivals| <= queue.Length
    {
      hide Pending, Enqueue;
      queued := true;
      var i := 0;
      PendingFull(queue[..]);
      while i < |arrivals|
        invariant 0 <= i <= |arrivals|
        invariant Pending(queue[..]) == Min(queue.Length, Pending(old(queue[..])) + i)
        invariant queued <==> Pending(old(queue[..])) + i <= queue.Length
        invariant queue[..] == EnqueueAll(old(queue[..]), arrivals[..i], now)
      {
        EnqueueCounts(queue[..], arrivals[i], now);
        ghost var free := FreeSlot(queue[..]) < queue.Length;
        var done := QueueMiss(arrivals[i], now);
        assert done == free;
        queued := queued && done;
        assert arrivals[..i + 1][..i] == arrivals[..i];
        i := i + 1;
      }
      assert arrivals[..i] == arrivals;
    }

    /** Issue the best schedulable request, if there is one, and remove it from the queue. */
    method IssueSelected(now: nat)
      requires Valid()
      modifies this, queue, banks
      ensures Value() == IssueBest(old(Value()), now)
    {
      var best := SelectRequest(now);
      if best.Some? {
        IssueRequest(best.value, now);
        queue[best.value] := queue[best.value].(valid := false);
      }
    }

    /**
     * memory_controller_cycle, from the misses that arrive in this cycle on. `queued` says whether the
     * source's assertion holds for all of them: exactly if there are enough free slots.
     */
    method ControllerCycle(arrivals: seq<Arrival>, now: nat) returns (queued: bool)
      requires Valid()
      modifies this, queue, banks
      ensures Value() == Cycle(old(Value()), arrivals, now)
      ensures queued <==> Pending(old(queue[..])) + |arrivals| <= queue.Length
    {
      hide Pending, EnqueueAll, IssueBest;
      queued := QueueMisses(arrivals, now);
      IssueSelected(now);
    }
  }
}
