/**
 * What the lab2 controller issues in a run: when the data of a request comes, which request is
 * chosen, and that requests are neither lost nor repeated.
 */
module DramHistory {
  import opened Collections
  import opened Powers
  import opened DramScheduler

  // ---------- What is issued, and when its data comes ----------

  /** Request `j` is the one issued to the bank of request `i` right before it. */
  predicate Previous(history: seq<Issued>, i: nat, j: nat) {
    j < i < |history| && history[j].bank == history[i].bank
    && forall k :: j < k < i ==> history[k].bank != history[i].bank
  }

  ghost predicate SameRowBefore(history: seq<Issued>, i: nat) {
    exists j: nat :: Previous(history, i, j) && history[j].row == history[i].row
  }

  ghost predicate OtherRowBefore(history: seq<Issued>, i: nat) {
    exists j: nat :: Previous(history, i, j) && history[j].row != history[i].row
  }

  ghost predicate NoneBefore(history: seq<Issued>, i: nat)
    requires i < |history|
  {
    forall j :: 0 <= j < i ==> history[j].bank != history[i].bank
  }

  /** A row hit takes one command, the first request of a bank two, and a row conflict three, of 100 cycles each. */
  ghost predicate DataInTime(history: seq<Issued>, i: nat)
    requires i < |history|
  {
    && (DataStart(history[i]) == history[i].start + 100 <==> SameRowBefore(history, i))
    && (DataStart(history[i]) == history[i].start + 200 <==> NoneBefore(history, i))
    && (DataStart(history[i]) == history[i].start + 300 <==> OtherRowBefore(history, i))
  }

  /** Bits 5 to 7 of an address select its bank, the bits from 16 on its row. */
  lemma BankAndRow(address: nat)
    ensures BankOf(address) == address / 32 % 8 && RowOf(address) == address / 65536
  {
    hide Shr, LowBits;
    ShrDivides(address, 5);
    LowBitsRemain(address / 32, 3);
    ShrDivides(address, 16);
    assert Pow2(5) == 32 && Pow2(3) == 8 && Pow2(8) == 256;
    Pow2Add(8, 8);
  }

  ghost predicate IsFor(h: Issued, r: Request) {
    h.bank == r.address / 32 % 8 && h.row == r.address / 65536 && r.valid && r.arrival <= h.start
  }

  /** Every bank holds the row of the last request issued to it, and none if there was none. */
  ghost predicate RowsRemembered(banks: Banks, history: seq<Issued>) {
    forall b :: 0 <= b < NUM_BANKS ==>
      && (!banks[b].hasOpenRow ==> forall i :: 0 <= i < |history| ==> history[i].bank != b)
      && (banks[b].hasOpenRow ==> exists k :: IsLast(history, b, k) && history[k].row == banks[b].openRow)
  }

  ghost predicate Timely(s: State) {
    && RowsRemembered(s.banks, s.history) && |s.issued| == |s.history|
    && (forall i :: 0 <= i < |s.history| ==> DataInTime(s.history, i) && IsFor(s.history[i], s.issued[i]))
  }

  lemma PreviousStays(history: seq<Issued>, h: Issued, i: nat, j: nat)
    requires i < |history|
    ensures Previous(history + [h], i, j) <==> Previous(history, i, j)
  {
    var more := history + [h];
    assert forall k :: 0 <= k < |history| ==> more[k] == history[k];
  }

  lemma PreviousIsBefore(history: seq<Issued>, i: nat)
    ensures forall j: nat :: Previous(history, i, j) ==> j < i < |history|
  {
  }

  lemma OnePrevious(history: seq<Issued>, i: nat, j: nat, k: nat)
    requires Previous(history, i, j) && Previous(history, i, k)
    ensures j == k
  {
  }

  lemma OlderStay(history: seq<Issued>, h: Issued, i: nat)
    requires i < |history| && DataInTime(history, i)
    ensures DataInTime(history + [h], i)
  {
    hide DataStart, Previous;
    var more := history + [h];
    forall j: nat ensures Previous(more, i, j) <==> Previous(history, i, j) {
      PreviousStays(history, h, i, j);
    }
    assert forall j :: 0 <= j <= i ==> more[j] == history[j];
    assert forall j: nat :: Previous(history, i, j) ==> j < i by { PreviousIsBefore(history, i); }
    assert SameRowBefore(more, i) <==> SameRowBefore(history, i);
    assert OtherRowBefore(more, i) <==> OtherRowBefore(history, i);
    assert NoneBefore(more, i) <==> NoneBefore(history, i);
  }

  lemma NewestInTime(banks: Banks, history: seq<Issued>, address: nat, now: nat)
    requires RowsRemembered(banks, history)
    ensures DataInTime(history + [Proposed(banks, address, now)], |history|)
  {
    hide BankOf, RowOf;
    var ours := Proposed(banks, address, now);
    var more, n := history + [ours], |history|;
    if banks[ours.bank].hasOpenRow {
      var k :| IsLast(history, ours.bank, k) && history[k].row == banks[ours.bank].openRow;
      assert Previous(more, n, k);
      forall j: nat | Previous(more, n, j) ensures j == k {
        OnePrevious(more, n, j, k);
      }
      assert !NoneBefore(more, n);
    } else {
      assert forall j: nat :: j < n ==> more[j].bank != ours.bank;
    }
  }

  lemma IssueRemembersRows(banks: Banks, history: seq<Issued>, address: nat, now: nat)
    requires RowsRemembered(banks, history)
    ensures RowsRemembered(Issue(banks, address, now), history + [Proposed(banks, address, now)])
  {
    hide BankOf, RowOf, Commands;
    var ours := Proposed(banks, address, now);
    var more, after := history + [ours], Issue(banks, address, now);
    forall b | 0 <= b < NUM_BANKS && after[b].hasOpenRow
      ensures exists k :: IsLast(more, b, k) && more[k].row == after[b].openRow
    {
      if b == ours.bank {
        assert IsLast(more, b, |history|);
      } else {
        var k :| IsLast(history, b, k) && history[k].row == banks[b].openRow;
        assert IsLast(more, b, k);
      }
    }
  }

  lemma CycleKeepsTimely(s: State, arrivals: seq<Arrival>, now: nat)
    requires Timely(s)
    ensures Timely(Cycle(s, arrivals, now))
  {
    hide DataInTime, RowsRemembered, Issue, Proposed, Schedulable, EnqueueAll;
    var queue := EnqueueAll(s.queue, arrivals, now);
    var t := Cycle(s, arrivals, now);
    var best := Scan(s.banks, queue, now, |queue|);
    if best.Some? {
      var r := queue[best.value];
      var h := Proposed(s.banks, r.address, now);
      IssueRemembersRows(s.banks, s.history, r.address, now);
      NewestInTime(s.banks, s.history, r.address, now);
      ProposedIsFor(s.banks, r, now);
      forall i | 0 <= i < |t.history| ensures DataInTime(t.history, i) && IsFor(t.history[i], t.issued[i]) {
        if i < |s.history| {
          OlderStay(s.history, h, i);
        }
      }
    }
  }

  lemma ProposedIsFor(banks: Banks, r: Request, now: nat)
    requires Candidate(banks, r, now)
    ensures IsFor(Proposed(banks, r.address, now), r)
  {
    hide BankOf, RowOf, Schedulable;
    BankAndRow(r.address);
  }

  lemma {:induction false} RunKeepsTimely(capacity: nat, t: nat, n: nat, arrivals: nat -> seq<Arrival>)
    ensures Timely(Run(Idle(capacity), t, n, arrivals))
  {
    hide Cycle, DataInTime;
    if n > 0 {
      RunKeepsTimely(capacity, t, n - 1, arrivals);
      CycleKeepsTimely(Run(Idle(capacity), t, n - 1, arrivals), arrivals(t + n - 1), t + n - 1);
    }
  }

  /**
   * Row buffers: in every run the data of an issued request comes 100 cycles after its start exactly
   * if the request before it in its bank was to the same row, 200 exactly if its bank had none, and
   * 300 exactly if it was to another row; bank and row are those of the request's address.
   */
  lemma DataFollowsRowBuffer(capacity: nat, t: nat, n: nat, arrivals: nat -> seq<Arrival>, i: nat)
    requires i < |Run(Idle(capacity), t, n, arrivals).history|
    ensures var s := Run(Idle(capacity), t, n, arrivals);
      var h := s.history;
      && |s.issued| == |h|
      && h[i].bank == s.issued[i].address / 32 % 8 && h[i].row == s.issued[i].address / 65536
      && s.issued[i].arrival <= h[i].start
      && (DataStart(h[i]) == h[i].start + 100 <==> SameRowBefore(h, i))
      && (DataStart(h[i]) == h[i].start + 200 <==> NoneBefore(h, i))
      && (DataStart(h[i]) == h[i].start + 300 <==> OtherRowBefore(h, i))
  {
    hide Run, RowsRemembered, DataStart, SameRowBefore, OtherRowBefore, NoneBefore;
    RunKeepsTimely(capacity, t, n, arrivals);
    var s := Run(Idle(capacity), t, n, arrivals);
    assert DataInTime(s.history, i) && IsFor(s.history[i], s.issued[i]);
  }

  // ---------- No request is lost, repeated or changed ----------

  /** A slot as what it holds. */
  function Held(r: Request): multiset<Request> {
    if r.valid then multiset{r} else multiset{}
  }

  /** The requests in the queue. */
  function Queued(queue: seq<Request>): multiset<Request> {
    if queue == [] then multiset{} else Queued(queue[..|queue| - 1]) + Held(queue[|queue| - 1])
  }

  /** The requests that the first `k` misses of a cycle become. */
  function Requests(arrivals: seq<Arrival>, k: nat, now: nat): seq<Request>
    requires k <= |arrivals|
  {
    seq(k, i requires 0 <= i < k => Request(arrivals[i].address, now, arrivals[i].fromMem, true))
  }

  /** As many misses are admitted as there are free slots. */
  function Admitted(queue: seq<Request>, arrivals: seq<Arrival>): (k: nat)
    ensures k <= |arrivals|
  {
    var free := if Pending(queue) <= |queue| then |queue| - Pending(queue) else 0;
    if free < |arrivals| then free else |arrivals|
  }

  lemma {:induction false} QueuedChange(queue: seq<Request>, i: nat, r: Request)
    requires i < |queue|
    ensures Queued(queue[i := r]) + Held(queue[i]) == Queued(queue) + Held(r)
  {
    hide Held;
    var n := |queue| - 1;
    var after := queue[i := r];
    if i == n {
      assert after[..n] == queue[..n];
    } else {
      assert after[..n] == queue[..n][i := r];
      QueuedChange(queue[..n], i, r);
      var a, b, last := Queued(after[..n]), Queued(queue[..n]), Held(queue[n]);
      assert (a + last) + Held(queue[i]) == (a + Held(queue[i])) + last;
    }
  }

  lemma EnqueueAdds(queue: seq<Request>, a: Arrival, now: nat)
    ensures Queued(Enqueue(queue, a, now)) ==
      if Pending(queue) < |queue| then Queued(queue) + multiset{Request(a.address, now, a.fromMem, true)} else Queued(queue)
  {
    hide Queued, Pending, FreeSlot;
    EnqueueCounts(queue, a, now);
    var i := FreeSlot(queue);
    if i < |queue| {
      QueuedChange(queue, i, Request(a.address, now, a.fromMem, true));
    }
  }

  lemma RequestsGrow(arrivals: seq<Arrival>, k: nat, now: nat)
    requires k < |arrivals|
    ensures Requests(arrivals, k + 1, now)
         == Requests(arrivals, k, now) + [Request(arrivals[k].address, now, arrivals[k].fromMem, true)]
  {
  }

  lemma RequestsOfPart(arrivals: seq<Arrival>, n: nat, k: nat, now: nat)
    requires k <= n <= |arrivals|
    ensures Requests(arrivals, k, now) == Requests(arrivals[..n], k, now)
  {
  }

  lemma {:induction false} EnqueueAllAdds(queue: seq<Request>, arrivals: seq<Arrival>, now: nat)
    ensures Pending(EnqueueAll(queue, arrivals, now)) == Pending(queue) + Admitted(queue, arrivals)
    ensures Queued(EnqueueAll(queue, arrivals, now))
         == Queued(queue) + multiset(Requests(arrivals, Admitted(queue, arrivals), now))
  {
    hide Queued, Pending, Enqueue, Requests;
    PendingFull(queue);
    if arrivals != [] {
      var n := |arrivals| - 1;
      var before := EnqueueAll(queue, arrivals[..n], now);
      var k := Admitted(queue, arrivals[..n]);
      EnqueueAllAdds(queue, arrivals[..n], now);
      EnqueueCounts(before, arrivals[n], now);
      EnqueueAdds(before, arrivals[n], now);
      RequestsOfPart(arrivals, n, k, now);
      if Pending(before) < |before| {
        RequestsGrow(arrivals, k, now);
        AddOne(Requests(arrivals, k, now), Request(arrivals[k].address, now, arrivals[k].fromMem, true));
      }
    } else {
      NoRequests(now);
    }
  }

  lemma NoRequests(now: nat)
    ensures Requests([], 0, now) == []
  {
  }

  lemma AddOne(s: seq<Request>, r: Request)
    ensures multiset(s + [r]) == multiset(s) + multiset{r}
  {
  }

  /** The requests admitted in the first `n` cycles of a run, oldest first. */
  function AllAdmitted(capacity: nat, t: nat, n: nat, arrivals: nat -> seq<Arrival>): seq<Request> {
    if n == 0 then []
    else
      var s := Run(Idle(capacity), t, n - 1, arrivals);
      AllAdmitted(capacity, t, n - 1, arrivals)
      + Requests(arrivals(t + n - 1), Admitted(s.queue, arrivals(t + n - 1)), t + n - 1)
  }

  lemma CycleConserves(s: State, arrivals: seq<Arrival>, now: nat)
    ensures var t := Cycle(s, arrivals, now);
      multiset(t.issued) + Queued(t.queue)
        == multiset(s.issued) + Queued(s.queue) + multiset(Requests(arrivals, Admitted(s.queue, arrivals), now))
  {
    hide Queued, Pending, EnqueueAll, Issue, Proposed, Schedulable;
    EnqueueAllAdds(s.queue, arrivals, now);
    var queue := EnqueueAll(s.queue, arrivals, now);
    var best := Scan(s.banks, queue, now, |queue|);
    if best.Some? {
      var r := queue[best.value];
      var after := queue[best.value := r.(valid := false)];
      QueuedChange(queue, best.value, r.(valid := false));
      AddOne(s.issued, r);
      assert Queued(after) + multiset{r} == Queued(queue);
      assert Cycle(s, arrivals, now).queue == after && Cycle(s, arrivals, now).issued == s.issued + [r];
      var rest := Queued(after);
      assert (multiset(s.issued) + multiset{r}) + rest == multiset(s.issued) + (rest + multiset{r});
    }
  }

  lemma {:induction false} NothingQueued(queue: seq<Request>)
    requires forall i :: 0 <= i < |queue| ==> !queue[i].valid
    ensures Queued(queue) == multiset{}
  {
    if queue != [] {
      NothingQueued(queue[..|queue| - 1]);
    }
  }

  /**
   * In every run the requests issued and those queued are together the requests admitted, each as it
   * came: none is lost, repeated or changed, and the cycle of its arrival is kept.
   */
  lemma {:induction false} RequestsAreConserved(capacity: nat, t: nat, n: nat, arrivals: nat -> seq<Arrival>)
    ensures var s := Run(Idle(capacity), t, n, arrivals);
      multiset(s.issued) + Queued(s.queue) == multiset(AllAdmitted(capacity, t, n, arrivals))
  {
    hide Cycle, Queued, Requests, Admitted;
    if n == 0 {
      NothingQueued(Idle(capacity).queue);
    } else {
      var s := Run(Idle(capacity), t, n - 1, arrivals);
      RequestsAreConserved(capacity, t, n - 1, arrivals);
      CycleConserves(s, arrivals(t + n - 1), t + n - 1);
      var more := Requests(arrivals(t + n - 1), Admitted(s.queue, arrivals(t + n - 1)), t + n - 1);
      assert multiset(AllAdmitted(capacity, t, n - 1, arrivals) + more)
          == multiset(AllAdmitted(capacity, t, n - 1, arrivals)) + multiset(more);
    }
  }

  /** The priority of the scan spelled out: row hit first, then earlier arrival, then the memory stage, then the slot. */
  lemma ChoiceIsMinimal(banks: Banks, queue: seq<Request>, now: nat, j: nat)
    requires j < |queue| && Candidate(banks, queue[j], now)
    ensures var best := Scan(banks, queue, now, |queue|);
      && best.Some? && best.value < |queue|
      && (var a, b := queue[best.value], queue[j];
          var hitA, hitB := OpensRow(banks, a.address), OpensRow(banks, b.address);
          || (hitA && !hitB)
          || (hitA == hitB && a.arrival < b.arrival)
          || (hitA == hitB && a.arrival == b.arrival && a.fromMem && !b.fromMem)
          || (hitA == hitB && a.arrival == b.arrival && a.fromMem == b.fromMem && best.value <= j))
  {
    hide Schedulable, BankOf, RowOf;
    ScanFindsBest(banks, queue, now, |queue|);
    BankAndRow(queue[j].address);
    BankAndRow(queue[Scan(banks, queue, now, |queue|).value].address);
  }

  /** The address is in the row that is open in its bank. */
  predicate OpensRow(banks: Banks, address: nat) {
    var b := address / 32 % 8;
    banks[b].hasOpenRow && banks[b].openRow == address / 65536
  }
}
