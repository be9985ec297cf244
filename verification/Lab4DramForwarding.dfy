/**
 * Where the answers of a DRAM channel come from: a read is answered by the data bus, or at once by a
 * write to its block that waits in the write queue; and no write is lost before it has been on the bus.
 */
module DramForwarding {
  import opened Collections
  import opened DramChannel
  import opened DramDelivery
  import opened DramService
  import opened DramProgress

  /** A slot of the queue is for the block of the address. */
  predicate Holds(u: Setup, q: seq<Option<Request>>, address: nat) {
    exists w :: 0 <= w < |q| && Collides(u, q[w], address)
  }

  lemma FindHolds(u: Setup, q: seq<Option<Request>>, address: nat)
    ensures Find(u, q, address, 0, |q|) < |q| <==> Holds(u, q, address)
  {
  }

  // ---------- Writes ----------

  /** Of two writes for a block one is dropped, and no block loses its last one. */
  lemma CheckWriteHolds(u: Setup, c: Channel, i: nat, address: nat)
    requires i < |c.wq|
    ensures Holds(u, CheckWrite(u, c, i).wq, address) <==> Holds(u, c.wq, address)
  {
    var d := CheckWrite(u, c, i);
    if Unchecked(c.wq[i]) {
      var a := c.wq[i].value.address;
      var before, after := Find(u, c.wq, a, 0, i), Find(u, c.wq, a, i + 1, |c.wq|);
      if w :| 0 <= w < |c.wq| && Collides(u, c.wq[w], address) {
        assert Collides(u, d.wq[if w != i || d.wq[i].Some? then w else if before < i then before else after], address);
      }
      if w :| 0 <= w < |d.wq| && Collides(u, d.wq[w], address) {
        assert Collides(u, c.wq[w], address);
      }
    }
  }

  lemma {:induction false} CheckWritesHold(u: Setup, c: Channel, i: nat, address: nat)
    ensures Holds(u, CheckWrites(u, c, i).wq, address) <==> Holds(u, c.wq, address)
    decreases |c.wq| - i
  {
    hide CheckWrite, Holds;
    if i < |c.wq| {
      WriteCheckKeepsBanks(u, c, i);
      CheckWriteHolds(u, c, i, address);
      CheckWritesHold(u, CheckWrite(u, c, i), i + 1, address);
    }
  }

  lemma SameHolds(u: Setup, a: seq<Option<Request>>, b: seq<Option<Request>>, address: nat)
    requires SameEntries(a, b)
    ensures Holds(u, a, address) <==> Holds(u, b, address)
  {
    if w :| 0 <= w < |a| && Collides(u, a[w], address) {
      assert SameEntry(a[w], b[w]) && Collides(u, b[w], address);
    }
    if w :| 0 <= w < |b| && Collides(u, b[w], address) {
      assert SameEntry(a[w], b[w]) && Collides(u, a[w], address);
    }
  }

  // ---------- Reads that meet a write ----------

  lemma CheckReadAnswers(u: Setup, c: Channel, i: nat)
    requires i < |c.rq|
    ensures var d := CheckRead(u, c, i);
      && |d.rq| == |c.rq| && d.wq == c.wq
      && (d.answers == c.answers ||
            (Unchecked(c.rq[i]) && Holds(u, c.wq, c.rq[i].value.address) && d.answers == c.answers + [AnswerOf(c.rq[i].value)]))
      && (Unchecked(c.rq[i]) && Holds(u, c.wq, c.rq[i].value.address) ==>
            d.rq == c.rq[i := None] && d.answers == c.answers + [AnswerOf(c.rq[i].value)])
  {
    hide Find, Holds;
    if Unchecked(c.rq[i]) {
      FindHolds(u, c.wq, c.rq[i].value.address);
    }
  }

  /** The checks answer a read only from a write to its block. */
  lemma {:induction false} ChecksAnswerFromWrites(u: Setup, c: Channel, i: nat, k: nat)
    ensures var d := CheckReads(u, c, i);
      && d.wq == c.wq && c.answers <= d.answers
      && (|c.answers| <= k < |d.answers| ==> Holds(u, c.wq, d.answers[k].address))
    decreases |c.rq| - i
  {
    hide CheckRead, Holds;
    if i < |c.rq| {
      CheckReadAnswers(u, c, i);
      ChecksAnswerFromWrites(u, CheckRead(u, c, i), i + 1, k);
    }
  }

  /** A check of another entry leaves a read that meets a write as it is. */
  lemma OtherCheckSkips(u: Setup, c: Channel, i: nat, k: nat)
    requires i < |c.rq| && k < |c.rq| && i != k
    requires Unchecked(c.rq[k]) && Holds(u, c.wq, c.rq[k].value.address)
    ensures CheckRead(u, c, i).rq[k] == c.rq[k]
  {
    hide Holds;
    if Unchecked(c.rq[i]) && u.blockOf(c.rq[i].value.address) == u.blockOf(c.rq[k].value.address) {
      SameBlockHolds(u, c.wq, c.rq[k].value.address, c.rq[i].value.address);
      CheckReadAnswers(u, c, i);
    }
  }

  lemma SameBlockHolds(u: Setup, q: seq<Option<Request>>, a: nat, b: nat)
    requires u.blockOf(a) == u.blockOf(b) && Holds(u, q, a)
    ensures Holds(u, q, b)
  {
    var w :| 0 <= w < |q| && Collides(u, q[w], a);
    assert Collides(u, q[w], b);
  }

  /** A read that has not been checked and finds a write to its block is answered at once. */
  lemma {:induction false} ReadMeetsWrite(u: Setup, c: Channel, i: nat, k: nat)
    requires i <= k < |c.rq| && Unchecked(c.rq[k]) && Holds(u, c.wq, c.rq[k].value.address)
    ensures var d := CheckReads(u, c, i); |c.answers| <= |d.answers| && AnswerOf(c.rq[k].value) in d.answers[|c.answers|..]
    decreases |c.rq| - i
  {
    hide CheckRead, Holds, CheckReads;
    CheckReadAnswers(u, c, i);
    var e := CheckRead(u, c, i);
    ChecksUnfold(u, c, i);
    ChecksAnswerFromWrites(u, e, i + 1, 0);
    var d := CheckReads(u, c, i);
    if i == k {
      assert d.answers[|c.answers|] == e.answers[|c.answers|] == AnswerOf(c.rq[k].value);
    } else {
      OtherCheckSkips(u, c, i, k);
      ReadMeetsWrite(u, e, i + 1, k);
      assert forall x :: x in d.answers[|e.answers|..] ==> x in d.answers[|c.answers|..];
    }
  }

  lemma ChecksUnfold(u: Setup, c: Channel, i: nat)
    requires i < |c.rq|
    ensures |CheckRead(u, c, i).rq| == |c.rq|
    ensures CheckReads(u, c, i) == CheckReads(u, CheckRead(u, c, i), i + 1)
  {
    hide Find;
  }

  // ---------- A cycle ----------

  /** The channel after the checks. */
  function Checked(u: Setup, c: Channel): (d: Channel)
    requires Linked(u, c)
    ensures Linked(u, d)
  {
    MergedBank(u, c);
    CheckReads(u, CheckWrites(u, c, 0), 0)
  }

  lemma OperateIs(u: Setup, c: Channel)
    requires Linked(u, c)
    ensures Operate(u, c) == ServiceNext(u, Populated(u, Refreshed(u, Finished(u, Checked(u, c)))))
  {
    hide Linked, CheckWrites, CheckReads, FinishBus, SwapWriteMode, Refresh, PopulateBus, ServiceNext;
  }

  lemma RestKeepsAnswers(u: Setup, c: Channel)
    requires Linked(u, c)
    ensures ServiceNext(u, Populated(u, Refreshed(u, c))).answers == c.answers
  {
    hide Linked, GiveBackFrom, MinBank, MinSlot, MustSwap;
    LinkedSlots(u, c);
    LinkedIsSized(u, c);
    GiveBackFromSame(u, c, 0);
  }

  lemma FinishAnswers(u: Setup, c: Channel)
    requires Linked(u, c)
    ensures CanFinish(u, c) ==> Occupied(c, c.banks[c.active.value].pkt)
    ensures Finished(u, c).answers
         == c.answers + if CanFinish(u, c) then [AnswerOf(At(c, c.banks[c.active.value].pkt))] else []
  {
    hide Linked;
    LinkedSlots(u, c);
  }

  /**
   * The answers a cycle adds are those of reads that met a write to their block, and then that of the
   * request whose transfer on the data bus is over; every unchecked read that meets a write is answered.
   */
  lemma AnswersOfCycle(u: Setup, c: Channel, k: nat)
    requires Linked(u, c)
    ensures var m, d := Checked(u, c), Operate(u, c);
      && (CanFinish(u, m) <==> CanFinish(u, c)) && (CanFinish(u, m) ==> Occupied(m, m.banks[m.active.value].pkt))
      && d.answers == m.answers + (if CanFinish(u, m) then [AnswerOf(At(m, m.banks[m.active.value].pkt))] else [])
      && c.answers <= m.answers
      && (|c.answers| <= k < |m.answers| ==> Holds(u, c.wq, m.answers[k].address))
      && (k < |c.rq| && Unchecked(c.rq[k]) && Holds(u, c.wq, c.rq[k].value.address) ==>
            AnswerOf(c.rq[k].value) in m.answers[|c.answers|..])
  {
    hide Linked, CheckWrites, CheckReads, Holds, Finished, ServiceNext, Populated, Refreshed;
    var m := Checked(u, c);
    OperateIs(u, c);
    RestKeepsAnswers(u, Finished(u, m));
    FinishAnswers(u, m);
    MergedBank(u, c);
    WriteChecksKeepBanks(u, c, 0);
    var w := CheckWrites(u, c, 0);
    ChecksAnswerFromWrites(u, w, 0, k);
    if |c.answers| <= k < |m.answers| {
      CheckWritesHold(u, c, 0, m.answers[k].address);
    }
    if k < |c.rq| && Unchecked(c.rq[k]) && Holds(u, c.wq, c.rq[k].value.address) {
      CheckWritesHold(u, c, 0, c.rq[k].value.address);
      ReadMeetsWrite(u, w, 0, k);
    }
  }

  lemma FinishHolds(u: Setup, c: Channel, address: nat)
    requires Linked(u, c)
    ensures CanFinish(u, c) ==> Occupied(c, c.banks[c.active.value].pkt)
    ensures Holds(u, Finished(u, c).wq, address) ==> Holds(u, c.wq, address)
    ensures Holds(u, c.wq, address) && !Holds(u, Finished(u, c).wq, address) ==>
      && CanFinish(u, c) && c.banks[c.active.value].pkt.write
      && u.blockOf(At(c, c.banks[c.active.value].pkt).address) == u.blockOf(address)
  {
    hide Linked;
    LinkedSlots(u, c);
    var d := Finished(u, c);
    if w :| 0 <= w < |d.wq| && Collides(u, d.wq[w], address) {
      assert Collides(u, c.wq[w], address);
    }
    if w :| 0 <= w < |c.wq| && Collides(u, c.wq[w], address) {
      assert d.wq[w] == c.wq[w] ==> Collides(u, d.wq[w], address);
    }
  }

  /** A block has a write waiting until a write to it has been on the data bus. */
  lemma WritesLeaveByTheBus(u: Setup, c: Channel, address: nat)
    requires Linked(u, c)
    ensures var m, d := Checked(u, c), Operate(u, c);
      && (Holds(u, d.wq, address) ==> Holds(u, c.wq, address))
      && (Holds(u, c.wq, address) && !Holds(u, d.wq, address) ==>
            && CanFinish(u, m) && m.banks[m.active.value].pkt.write
            && Occupied(m, m.banks[m.active.value].pkt)
            && u.blockOf(At(m, m.banks[m.active.value].pkt).address) == u.blockOf(address))
  {
    hide Linked, CheckWrites, CheckReads, Holds, Finished, ServiceNext, Populated, Refreshed;
    var m := Checked(u, c);
    OperateIs(u, c);
    CheckWritesHold(u, c, 0, address);
    ChecksAnswerFromWrites(u, CheckWrites(u, c, 0), 0, 0);
    FinishHolds(u, m, address);
    var f := Finished(u, m);
    RestKeepsEntries(u, f);
    SameHolds(u, f.wq, Operate(u, c).wq, address);
  }

  /** An accepted write is waiting; it is refused exactly if all slots are taken. */
  lemma WriteTakesSlot(u: Setup, c: Channel, address: nat, other: nat)
    ensures var d := AddWrite(c, address);
      && (AddWrite(c, address) == c <==> forall i :: 0 <= i < |c.wq| ==> c.wq[i].Some?)
      && (Holds(u, d.wq, other) <==>
            Holds(u, c.wq, other) || (d != c && u.blockOf(other) == u.blockOf(address)))
  {
    hide FirstEmpty;
    var i, d := FirstEmpty(c.wq), AddWrite(c, address);
    FirstEmptyIs(c.wq);
    if w :| 0 <= w < |c.wq| && Collides(u, c.wq[w], other) {
      assert Collides(u, d.wq[w], other);
    }
    if w :| 0 <= w < |d.wq| && Collides(u, d.wq[w], other) {
      assert w != i ==> Collides(u, c.wq[w], other);
    }
    if i < |c.wq| && u.blockOf(other) == u.blockOf(address) {
      assert Collides(u, d.wq[i], other);
    }
  }

  lemma {:induction false} FirstEmptyIs(q: seq<Option<Request>>)
    ensures FirstEmpty(q) == |q| <==> forall i :: 0 <= i < |q| ==> q[i].Some?
    ensures forall i :: 0 <= i < FirstEmpty(q) ==> q[i].Some?
  {
    if |q| > 0 {
      FirstEmptyIs(q[1..]);
      assert forall i :: 1 <= i < |q| ==> q[i] == q[1..][i - 1];
    }
  }

  /** A read is refused exactly if all slots are taken; otherwise the first free one holds it, unchecked. */
  lemma ReadTakesSlot(c: Channel, r: Read, tag: nat)
    ensures var d := AddRead(c, r, tag);
      && (d == c <==> forall i :: 0 <= i < |c.rq| ==> c.rq[i].Some?)
      && (d != c ==>
            exists i :: 0 <= i < |c.rq| && c.rq[i].None? && TakesSlot(c, d, r, tag, i))
  {
    hide FirstEmpty;
    FirstEmptyIs(c.rq);
    var i := FirstEmpty(c.rq);
    if i < |c.rq| {
      assert TakesSlot(c, AddRead(c, r, tag), r, tag, i);
    }
  }

  /** The read waits in slot `i` for itself alone, from now on. */
  predicate TakesSlot(c: Channel, d: Channel, r: Read, tag: nat, i: nat)
    requires i < |c.rq|
  {
    && d == c.(rq := d.rq) && |d.rq| == |c.rq| && (forall j :: 0 <= j < |c.rq| && j != i ==> d.rq[j] == c.rq[j])
    && d.rq[i].Some?
    && var e := d.rq[i].value;
    && e.address == r.address && !e.scheduled && !e.checked && e.ready == Some(c.now) && e.tags == {tag}
    && e.queues == (if r.queue.Some? then {r.queue.value} else {}) && e.deps == r.deps
  }
}
