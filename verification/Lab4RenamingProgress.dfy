/**
 * What one call of the scheduler, of execution and of completion does to each entry of the reorder
 * buffer, and that the front of the reorder buffer retires.
 */
module RenamingProgress {
  import opened Collections
  import opened Renaming
  import opened RenamingProof

  // ---------- Execution, entry by entry ----------

  /** How many entries from `j` to before `k` can execute. */
  function Executable(c: Core, j: nat, k: nat): nat
    requires CoreOk(c) && j <= k <= |c.rob|
    decreases k - j
  {
    if j == k then 0 else Executable(c, j, k - 1) + if CanExecute(c, k - 1) then 1 else 0
  }

  /** The entry after it has started to execute: operands from its source registers, ready after the latency. */
  function Started(c: Core, e: Entry, latency: nat): Entry
    requires CoreOk(c) && Ids(e.sources, |c.regs.file|)
  {
    e.(executed := true, ready := c.now + if c.warmup then 0 else latency,
       operands := seq(|e.sources|, x requires 0 <= x < |e.sources| => c.regs.values[e.sources[x]]))
  }

  lemma {:induction false} ExecutableFirst(c: Core, j: nat, k: nat)
    requires CoreOk(c) && j < k <= |c.rob|
    ensures Executable(c, j, k) == (if CanExecute(c, j) then 1 else 0) + Executable(c, j + 1, k)
    decreases k - j
  {
    hide CanExecute;
    if k > j + 1 {
      ExecutableFirst(c, j, k - 1);
    }
  }

  /** Entries behind `j` can execute in `d` as in `c`. */
  lemma {:induction false} ExecutableElsewhere(c: Core, d: Core, j: nat, k: nat)
    requires CoreOk(c) && CoreOk(d) && |d.rob| == |c.rob| && d.regs == c.regs && d.now == c.now && j <= k <= |c.rob|
    requires forall i :: j <= i < |c.rob| ==> d.rob[i] == c.rob[i]
    ensures Executable(d, j, k) == Executable(c, j, k)
    decreases k - j
  {
    if j < k {
      ExecutableElsewhere(c, d, j, k - 1);
    }
  }

  /**
   * What execute_instruction does to entry `k`: it starts exactly if it could and fewer than `bw`
   * older ones could; nothing else changes.
   */
  lemma {:induction false} ExecutesOldest(c: Core, j: nat, bw: nat, latency: nat, k: nat)
    requires CoreOk(c) && k < |c.rob|
    ensures var t := ExecuteFrom(c, j, bw, latency);
      && |t.rob| == |c.rob| && t == c.(rob := t.rob)
      && t.rob[k] == if j <= k && CanExecute(c, k) && Executable(c, j, k) < bw
                     then Started(c, c.rob[k], latency) else c.rob[k]
    decreases |c.rob| - j
  {
    hide CanExecute, EntryOk;
    if j < |c.rob| && bw > 0 {
      CanExecuteFits(c, k);
      if j < k {
        ExecutableFirst(c, j, k);
      }
      if CanExecute(c, j) {
        CanExecuteFits(c, j);
        var d := DoExecution(c, j, latency);
        ExecutesOldest(d, j + 1, bw - 1, latency, k);
        if j < k {
          ExecutableElsewhere(c, d, j + 1, k);
          SameCanExecute(c, d, k);
        }
      } else {
        ExecutesOldest(c, j + 1, bw, latency, k);
      }
    }
  }

  lemma CanExecuteFits(c: Core, j: nat)
    requires CoreOk(c) && j < |c.rob|
    ensures CanExecute(c, j) ==> c.rob[j].scheduled && Ids(c.rob[j].sources, |c.regs.file|)
  {
  }

  lemma SameCanExecute(c: Core, d: Core, k: nat)
    requires CoreOk(c) && CoreOk(d) && k < |c.rob| == |d.rob| && d.rob[k] == c.rob[k] && d.regs == c.regs && d.now == c.now
    ensures CanExecute(d, k) <==> CanExecute(c, k)
  {
  }

  // ---------- Completion, entry by entry ----------

  function Completable(c: Core, j: nat, k: nat, memoryDone: set<nat>): nat
    requires j <= k <= |c.rob|
    decreases k - j
  {
    if j == k then 0 else Completable(c, j, k - 1, memoryDone) + if CanComplete(c, k - 1, memoryDone) then 1 else 0
  }

  lemma {:induction false} CompletableFirst(c: Core, j: nat, k: nat, memoryDone: set<nat>)
    requires j < k <= |c.rob|
    ensures Completable(c, j, k, memoryDone)
      == (if CanComplete(c, j, memoryDone) then 1 else 0) + Completable(c, j + 1, k, memoryDone)
    decreases k - j
  {
    hide CanComplete;
    if k > j + 1 {
      CompletableFirst(c, j, k - 1, memoryDone);
    }
  }

  lemma {:induction false} CompletableElsewhere(c: Core, d: Core, j: nat, k: nat, memoryDone: set<nat>)
    requires |d.rob| == |c.rob| && d.now == c.now && j <= k <= |c.rob|
    requires forall i :: j <= i < |c.rob| ==> d.rob[i] == c.rob[i]
    ensures Completable(d, j, k, memoryDone) == Completable(c, j, k, memoryDone)
    decreases k - j
  {
    if j < k {
      CompletableElsewhere(c, d, j, k - 1, memoryDone);
    }
  }

  /**
   * What complete_inflight_instruction does to entry `k`: it completes exactly if it is due and fewer
   * than `bw` older ones are; the tables and the free list stay.
   */
  lemma {:induction false} CompletesOldest(p: Program, c: Core, j: nat, bw: nat, memoryDone: set<nat>, k: nat)
    requires CoreOk(c) && k < |c.rob|
    ensures var t := CompleteFrom(p, c, j, bw, memoryDone);
      && |t.rob| == |c.rob| && t == c.(regs := t.regs, rob := t.rob)
      && t.regs.frontend == c.regs.frontend && t.regs.backend == c.regs.backend && t.regs.free == c.regs.free
      && t.rob[k] == if j <= k && CanComplete(c, k, memoryDone) && Completable(c, j, k, memoryDone) < bw
                     then c.rob[k].(completed := true) else c.rob[k]
    decreases |c.rob| - j
  {
    hide CanComplete, EntryOk, CompleteDests;
    if j < |c.rob| && bw > 0 {
      if j < k {
        CompletableFirst(c, j, k, memoryDone);
      }
      if CanComplete(c, j, memoryDone) {
        CanCompleteFits(c, j, memoryDone);
        var d := DoCompleteExecution(p, c, j);
        CompletionKeepsTables(p, c.regs, c.rob[j], 0);
        CompletesOldest(p, d, j + 1, bw - 1, memoryDone, k);
        if j < k {
          CompletableElsewhere(c, d, j + 1, k, memoryDone);
          SameCanComplete(c, d, k, memoryDone);
        }
      } else {
        CompletesOldest(p, c, j + 1, bw, memoryDone, k);
      }
    }
  }

  lemma CanCompleteFits(c: Core, j: nat, memoryDone: set<nat>)
    requires CoreOk(c) && j < |c.rob| && CanComplete(c, j, memoryDone)
    ensures c.rob[j].scheduled && Ids(c.rob[j].dests, |c.regs.file|)
  {
  }

  lemma SameCanComplete(c: Core, d: Core, k: nat, memoryDone: set<nat>)
    requires k < |c.rob| == |d.rob| && d.rob[k] == c.rob[k] && d.now == c.now
    ensures CanComplete(d, k, memoryDone) <==> CanComplete(c, k, memoryDone)
  {
  }

  /** Completing an instruction makes its destinations valid, and no other register. */
  lemma {:induction false} CompletionValidates(p: Program, r: Regs, e: Entry, x: nat, q: nat)
    requires WellFormed(r) && Ids(e.dests, |r.file|) && x <= |e.dests| && q < |r.file|
    ensures var t := CompleteDests(p, r, e, x);
      && t.file[q] == (if q in e.dests[x..] then r.file[q].(valid := true) else r.file[q])
    decreases |e.dests| - x
  {
    if x < |e.dests| {
      CompletionValidates(p, CompleteDest(r, e.dests[x], p.result(e.id, x, e.operands)), e, x + 1, q);
      assert e.dests[x..] == [e.dests[x]] + e.dests[x + 1..];
    }
  }

  lemma {:induction false} CompletionKeepsTables(p: Program, r: Regs, e: Entry, x: nat)
    requires WellFormed(r) && Ids(e.dests, |r.file|) && x <= |e.dests|
    ensures var t := CompleteDests(p, r, e, x);
      t.frontend == r.frontend && t.backend == r.backend && t.free == r.free
    decreases |e.dests| - x
  {
    if x < |e.dests| {
      CompletionKeepsTables(p, CompleteDest(r, e.dests[x], p.result(e.id, x, e.operands)), e, x + 1);
    }
  }

  /** After the call a register is valid exactly if it was, or an instruction that completed in it writes it. */
  lemma {:induction false} CompletionsValidate(p: Program, c: Core, j: nat, bw: nat, memoryDone: set<nat>, q: nat)
    requires CoreOk(c) && q < |c.regs.file|
    ensures var t := CompleteFrom(p, c, j, bw, memoryDone);
      && |t.rob| == |c.rob| && |t.regs.file| == |c.regs.file|
      && (t.regs.file[q].valid <==> c.regs.file[q].valid || CompletedWriter(c, t, j, q))
    decreases |c.rob| - j
  {
    hide CanComplete, EntryOk, CompleteDests;
    var t := CompleteFrom(p, c, j, bw, memoryDone);
    if j < |c.rob| && bw > 0 {
      CompletesOldest(p, c, j, bw, memoryDone, j);
      if CanComplete(c, j, memoryDone) {
        CanCompleteFits(c, j, memoryDone);
        NotYetCompleted(c, j, memoryDone);
        var d := DoCompleteExecution(p, c, j);
        var e := c.rob[j];
        CompletionValidates(p, c.regs, e, 0, q);
        CompletionsValidate(p, d, j + 1, bw - 1, memoryDone, q);
        assert e.dests[0..] == e.dests;
        CompletesOldest(p, d, j + 1, bw - 1, memoryDone, j);
        if CompletedWriter(c, t, j, q) {
          var k :| j <= k < |c.rob| && !c.rob[k].completed && t.rob[k].completed && q in c.rob[k].dests;
          assert k > j ==> d.rob[k] == c.rob[k];
        }
        if CompletedWriter(d, t, j + 1, q) {
          var k :| j + 1 <= k < |d.rob| && !d.rob[k].completed && t.rob[k].completed && q in d.rob[k].dests;
          assert d.rob[k] == c.rob[k];
        }
      } else {
        CompletionsValidate(p, c, j + 1, bw, memoryDone, q);
      }
    }
  }

  lemma NotYetCompleted(c: Core, j: nat, memoryDone: set<nat>)
    requires j < |c.rob| && CanComplete(c, j, memoryDone)
    ensures !c.rob[j].completed
  {
  }

  ghost predicate CompletedWriter(c: Core, t: Core, j: nat, q: nat)
    requires |t.rob| == |c.rob|
  {
    exists k :: j <= k < |c.rob| && !c.rob[k].completed && t.rob[k].completed && q in c.rob[k].dests
  }

  // ---------- Scheduling, entry by entry ----------

  /** How many of the first `k` entries have not executed. */
  function Unexecuted(rob: seq<Entry>, k: nat): nat
    requires k <= |rob|
  {
    if k == 0 then 0 else Unexecuted(rob, k - 1) + if rob[k - 1].executed then 0 else 1
  }

  /** Scheduling changes nothing of an entry but its register numbers. */
  predicate OnlyRenamed(e: Entry, f: Entry) {
    f == e.(sources := f.sources, dests := f.dests, scheduled := f.scheduled) && (e.scheduled ==> f == e)
  }

  lemma {:induction false} SameUnexecuted(r: seq<Entry>, s: seq<Entry>, k: nat)
    requires k <= |r| == |s| && forall i :: 0 <= i < |r| ==> r[i].executed == s[i].executed
    ensures Unexecuted(r, k) == Unexecuted(s, k)
  {
    if k > 0 {
      SameUnexecuted(r, s, k - 1);
    }
  }

  /** What the scan leaves alone. */
  lemma {:induction false} ScanLeaves(p: Program, c: Core, j: nat, bw: nat)
    requires CoreOk(c)
    ensures var t := ScheduleFrom(p, c, j, bw);
      && |t.rob| == |c.rob| && t == c.(regs := t.regs, rob := t.rob)
      && (forall k :: 0 <= k < |c.rob| ==> OnlyRenamed(c.rob[k], t.rob[k]))
      && (forall k :: 0 <= k < |c.rob| && k < j ==> t.rob[k] == c.rob[k])
      && (forall k :: 0 <= k < |c.rob| && t.rob[k].scheduled && !c.rob[k].scheduled ==> c.rob[k].ready <= c.now)
    decreases |c.rob| - j
  {
    hide EnoughFree, RenameSrcs, RenameDests, EntryOk;
    if j < |c.rob| && bw > 0 && EnoughFree(c, j) {
      var d := if !c.rob[j].scheduled && c.rob[j].ready <= c.now then DoScheduling(p, c, j) else c;
      ScanLeaves(p, d, j + 1, if d.rob[j].executed then bw else bw - 1);
    }
  }

  /** Why a scan schedules no more than the first `u` entries. */
  ghost predicate ScanStops(c: Core, t: Core, size: nat, u: nat)
    requires CoreOk(t) && u <= |c.rob| == |t.rob|
  {
    || u == |c.rob|
    || c.rob[u].ready > c.now
    || Unexecuted(c.rob, u) >= size
    || exists b :: 0 <= b <= u && !EnoughFree(t, b)
  }

  lemma {:induction false} UnexecutedGrows(rob: seq<Entry>, j: nat, k: nat)
    requires j <= k <= |rob|
    ensures Unexecuted(rob, j) <= Unexecuted(rob, k)
  {
    if j < k {
      UnexecutedGrows(rob, j, k - 1);
    }
  }

  /** The scan from entry `j` on, `size` unexecuted entries in all being looked at. */
  lemma {:induction false} ScanSchedules(p: Program, latency: nat, c: Core, s: nat, j: nat, size: nat) returns (u: nat)
    requires Inv(p, latency, c, s) && j <= |c.rob| && Unexecuted(c.rob, j) <= size
    requires j <= s || (s < |c.rob| && c.rob[s].ready > c.now)
    ensures var t := ScheduleFrom(p, c, j, size - Unexecuted(c.rob, j));
      && s <= u <= |c.rob| == |t.rob|
      && (forall k :: 0 <= k < |c.rob| ==> (t.rob[k].scheduled <==> k < u))
      && (forall k :: s <= k < u ==> Unexecuted(c.rob, k) < size)
      && ScanStops(c, t, size, u)
    decreases |c.rob| - j
  {
    hide Inv, EnoughFree, DoScheduling, Unexecuted, ScanStops, EntryOk;
    InvIsOk(p, latency, c, s);
    var bw := size - Unexecuted(c.rob, j);
    ScheduledPrefix(p, latency, c, s);
    if j >= |c.rob| || bw == 0 || !EnoughFree(c, j) {
      u := s;
      ScanEnds(c, s, j, size);
    } else {
      NextUnexecuted(c.rob, j);
      if !c.rob[j].scheduled && c.rob[j].ready <= c.now {
        UnscheduledIsNext(p, latency, c, s, j);
        var d := DoScheduling(p, c, j);
        DoSchedulingKeeps(p, latency, c, s);
        DoSchedulingRenames(p, c, j);
        forall k | 0 <= k <= |c.rob| ensures Unexecuted(d.rob, k) == Unexecuted(c.rob, k) {
          SameUnexecuted(c.rob, d.rob, k);
        }
        u := ScanSchedules(p, latency, d, s + 1, j + 1, size);
        StopsAsBefore(c, d, ScheduleFrom(p, c, j, bw), size, u);
      } else {
        ScheduledOrLater(p, latency, c, s, j);
        u := ScanSchedules(p, latency, c, s, j + 1, size);
      }
    }
  }

  /** A scan that looks no further than entry `j` has stopped for one of the reasons. */
  lemma ScanEnds(c: Core, s: nat, j: nat, size: nat)
    requires CoreOk(c) && j <= |c.rob| && s <= |c.rob| && (j <= s || (s < |c.rob| && c.rob[s].ready > c.now))
    requires j == |c.rob| || Unexecuted(c.rob, j) == size || !EnoughFree(c, j)
    ensures ScanStops(c, c, size, s)
  {
    hide EnoughFree, Unexecuted, EntryOk;
    if j <= s {
      UnexecutedGrows(c.rob, j, s);
    }
  }

  lemma NextUnexecuted(rob: seq<Entry>, j: nat)
    requires j < |rob|
    ensures Unexecuted(rob, j + 1) == Unexecuted(rob, j) + if rob[j].executed then 0 else 1
  {
  }

  lemma ScheduledPrefix(p: Program, latency: nat, c: Core, s: nat)
    requires Inv(p, latency, c, s)
    ensures s <= |c.rob| && forall k :: 0 <= k < |c.rob| ==> (c.rob[k].scheduled <==> k < s)
  {
    hide Partition, FrontIs, SourceIs, BackendTag, FlightTag, OperandsTag, InOrder, EntryOk;
    forall k | 0 <= k < |c.rob| ensures c.rob[k].scheduled <==> k < s {
      assert EntryShape(p, c, s, k);
    }
  }

  /** Where the scan finds an entry to schedule, it is the oldest unscheduled one. */
  lemma UnscheduledIsNext(p: Program, latency: nat, c: Core, s: nat, j: nat)
    requires Inv(p, latency, c, s) && j < |c.rob| && !c.rob[j].scheduled && c.rob[j].ready <= c.now
    requires j <= s || (s < |c.rob| && c.rob[s].ready > c.now)
    ensures j == s
  {
    hide Partition, FrontIs, SourceIs, BackendTag, FlightTag, OperandsTag, EntryOk;
    assert EntryShape(p, c, s, j);
  }

  lemma ScheduledOrLater(p: Program, latency: nat, c: Core, s: nat, j: nat)
    requires Inv(p, latency, c, s) && j < |c.rob| && !(!c.rob[j].scheduled && c.rob[j].ready <= c.now)
    requires j <= s || (s < |c.rob| && c.rob[s].ready > c.now)
    ensures j + 1 <= s || (s < |c.rob| && c.rob[s].ready > c.now)
  {
    hide Partition, FrontIs, SourceIs, BackendTag, FlightTag, OperandsTag, EntryOk, InOrder;
    assert EntryShape(p, c, s, j);
  }

  lemma DoSchedulingRenames(p: Program, c: Core, j: nat)
    requires CoreOk(c) && j < |c.rob| && EnoughFree(c, j)
    ensures var d := DoScheduling(p, c, j);
      && |d.rob| == |c.rob| && d.now == c.now
      && forall k :: 0 <= k < |c.rob| ==> d.rob[k].executed == c.rob[k].executed && d.rob[k].ready == c.rob[k].ready
  {
    hide EnoughFree, RenameSrcs, RenameDests, EntryOk;
  }

  lemma StopsAsBefore(c: Core, d: Core, t: Core, size: nat, u: nat)
    requires CoreOk(t) && u <= |c.rob| == |t.rob| == |d.rob| && d.now == c.now && ScanStops(d, t, size, u)
    requires forall k :: 0 <= k < |c.rob| ==> d.rob[k].ready == c.rob[k].ready
    requires Unexecuted(d.rob, u) == Unexecuted(c.rob, u)
    ensures ScanStops(c, t, size, u)
  {
    hide EnoughFree, Unexecuted, CoreOk;
  }

  /**
   * What schedule_instruction does: afterwards exactly the first `u` entries are scheduled. The new
   * ones were ready and fewer than `size` unexecuted entries were before them; the next one was not
   * ready, or beyond the search, or registers were missing for it or one before it.
   */
  lemma SchedulesInOrder(p: Program, latency: nat, c: Core, s: nat, size: nat) returns (u: nat)
    requires Inv(p, latency, c, s)
    ensures CoreOk(c)
    ensures var t := ScheduleFrom(p, c, 0, size);
      && s <= u <= |c.rob| == |t.rob| && t == c.(regs := t.regs, rob := t.rob)
      && (forall k :: 0 <= k < |c.rob| ==> OnlyRenamed(c.rob[k], t.rob[k]) && (t.rob[k].scheduled <==> k < u))
      && (forall k :: s <= k < u ==> c.rob[k].ready <= c.now && Unexecuted(c.rob, k) < size)
      && ScanStops(c, t, size, u)
  {
    hide Inv, ScanStops;
    InvIsOk(p, latency, c, s);
    ScheduledPrefix(p, latency, c, s);
    ScanLeaves(p, c, 0, size);
    u := ScanSchedules(p, latency, c, s, 0, size);
  }

  // ---------- The front retires ----------

  /** What is known of the front of the reorder buffer on its way to retirement. */
  predicate FrontStands(c: Core, id: nat, scheduled: bool, executed: bool, completed: bool) {
    && |c.rob| > 0 && c.rob[0].id == id
    && (scheduled ==> c.rob[0].scheduled) && (executed ==> c.rob[0].executed) && (completed ==> c.rob[0].completed)
  }

  /** In a good state the sources of a scheduled front are valid: their producers have retired. */
  lemma FrontIsReady(p: Program, latency: nat, c: Core, s: nat)
    requires Inv(p, latency, c, s) && s > 0
    ensures CoreOk(c) && c.rob[0].scheduled && Ids(c.rob[0].sources, |c.regs.file|) && AllValid(c.regs, c.rob[0].sources)
  {
    hide Partition, FrontIs, FlightTag, OperandsTag, InOrder, SeqValue, LastProducer;
    var e := c.rob[0];
    assert EntryShape(p, c, s, 0) && EntryOk(c.regs, e);
    forall x | 0 <= x < |e.sources| ensures c.regs.file[e.sources[x]].valid {
      assert SourceIs(c, 0, x);
      assert BackendTag(p, c.regs, c.retired, e.inst.srcs[x]);
    }
  }

  lemma ScheduleFront(p: Program, c: Core, bw: nat)
    requires CoreOk(c) && |c.rob| > 0 && bw > 0
    requires c.rob[0].scheduled || (EnoughFree(c, 0) && c.rob[0].ready <= c.now)
    ensures var t := ScheduleFrom(p, c, 0, bw);
      |t.rob| == |c.rob| && t.rob[0].scheduled && OnlyRenamed(c.rob[0], t.rob[0])
      && t.now == c.now && t.retired == c.retired && t.warmup == c.warmup
  {
    hide EnoughFree, DoScheduling, EntryOk, OnlyRenamed;
    ScanLeaves(p, c, 0, bw);
    if EnoughFree(c, 0) && !c.rob[0].scheduled {
      var d := DoScheduling(p, c, 0);
      DoSchedulingSchedules(p, c);
      ScanLeaves(p, d, 1, if d.rob[0].executed then bw else bw - 1);
    } else {
      FirstStays(c.rob[0], ScheduleFrom(p, c, 0, bw).rob[0]);
    }
  }

  lemma FirstStays(e: Entry, f: Entry)
    requires OnlyRenamed(e, f) && e.scheduled
    ensures f == e
  {
  }

  lemma DoSchedulingSchedules(p: Program, c: Core)
    requires CoreOk(c) && |c.rob| > 0 && EnoughFree(c, 0)
    ensures |DoScheduling(p, c, 0).rob| == |c.rob| && DoScheduling(p, c, 0).rob[0].scheduled
  {
    hide EnoughFree, RenameSrcs, RenameDests, EntryOk;
  }

  lemma ExecuteFront(p: Program, latency: nat, c: Core, s: nat, bw: nat, execLatency: nat)
    requires Inv(p, latency, c, s) && s > 0 && bw > 0 && c.rob[0].ready <= c.now
    ensures CoreOk(c)
    ensures var t := ExecuteFrom(c, 0, bw, execLatency);
      |t.rob| == |c.rob| && t.rob[0].executed && t.rob[0].id == c.rob[0].id && t.rob[0].ready <= t.now + execLatency
      && t.now == c.now && t.retired == c.retired
  {
    hide Inv, ExecuteFrom, EntryOk;
    InvIsOk(p, latency, c, s);
    FrontIsReady(p, latency, c, s);
    ExecutesOldest(c, 0, bw, execLatency, 0);
    assert Executable(c, 0, 0) == 0;
  }

  lemma CompleteFront(p: Program, c: Core, bw: nat)
    requires CoreOk(c) && |c.rob| > 0 && bw > 0 && c.rob[0].scheduled && c.rob[0].executed && c.rob[0].ready <= c.now
    ensures var t := CompleteFrom(p, c, 0, bw, {c.rob[0].id});
      |t.rob| == |c.rob| && t.rob[0].completed && t.retired == c.retired
  {
    hide CompleteFrom, EntryOk;
    CompletesOldest(p, c, 0, bw, {c.rob[0].id}, 0);
    assert Completable(c, 0, 0, {c.rob[0].id}) == 0;
  }

  /** Widths of the scheduler search, of execution and of completion. */
  datatype Widths = Widths(schedule: nat, execute: nat, complete: nat)

  /** The way of the front: wait until it is ready, schedule, execute, wait for the latency, complete, retire. */
  function FrontEvents(u: Setup, c: Core, w: Widths): seq<Event>
    requires |c.rob| > 0
  {
    [Tick(c.rob[0].ready), Schedule(w.schedule), Execute(w.execute), Tick(u.execLatency),
     Complete(w.complete, {c.rob[0].id}), Retire]
  }

  /** One more event of a run. */
  lemma RunOn(u: Setup, c: Core, e: Event, rest: seq<Event>)
    requires CoreOk(c) && Runnable(u.program) && Enabled(u, c, e) && Possible(u, Step(u, c, e), rest)
    ensures Possible(u, c, [e] + rest) && Run(u, c, [e] + rest) == Run(u, Step(u, c, e), rest)
  {
    assert ([e] + rest)[1..] == rest;
  }

  /** The registers the front needs are there. */
  predicate FrontHasRegisters(c: Core)
    requires CoreOk(c) && |c.rob| > 0
  {
    c.rob[0].scheduled || |c.regs.free| >= Unallocated(c.regs, c.rob[0].sources) + |c.rob[0].dests|
  }

  /** The front retires by its six events, whatever else is in the reorder buffer. */
  lemma FrontRetires(u: Setup, c: Core, s: nat, w: Widths)
    requires Inv(u.program, u.schedulingLatency, c, s) && |c.rob| > 0
    requires w.schedule > 0 && w.execute > 0 && w.complete > 0
    ensures CoreOk(c) && Runnable(u.program)
    ensures FrontHasRegisters(c) ==>
      && Possible(u, c, FrontEvents(u, c, w))
      && Run(u, c, FrontEvents(u, c, w)).retired == c.retired + 1
  {
    hide Inv, EntryOk, Possible, Run, ScheduleFrom, ExecuteFrom, CompleteFrom, RetireOne, Unallocated;
    InvIsOk(u.program, u.schedulingLatency, c, s);
    if FrontHasRegisters(c) {
      var id := c.rob[0].id;
      var c1 := Step(u, c, Tick(c.rob[0].ready));
      var s1 := StepKeeps(u, c, s, Tick(c.rob[0].ready));
      ScheduleFront(u.program, c1, w.schedule);
      var c2 := Step(u, c1, Schedule(w.schedule));
      var s2 := StepKeeps(u, c1, s1, Schedule(w.schedule));
      ScheduledPrefix(u.program, u.schedulingLatency, c2, s2);
      ExecuteFront(u.program, u.schedulingLatency, c2, s2, w.execute, u.execLatency);
      var c3 := Step(u, c2, Execute(w.execute));
      var s3 := StepKeeps(u, c2, s2, Execute(w.execute));
      var c4 := Step(u, c3, Tick(u.execLatency));
      var s4 := StepKeeps(u, c3, s3, Tick(u.execLatency));
      ExecutedIsScheduled(u.program, u.schedulingLatency, c4, s4);
      CompleteFront(u.program, c4, w.complete);
      var c5 := Step(u, c4, Complete(w.complete, {id}));
      var s5 := StepKeeps(u, c4, s4, Complete(w.complete, {id}));
      InvIsOk(u.program, u.schedulingLatency, c5, s5);
      CompletedIsRetirable(u.program, u.schedulingLatency, c5, s5);
      RetireCounts(c5);
      SixEvents(u, c, c1, c2, c3, c4, c5, Step(u, c5, Retire), FrontEvents(u, c, w));
    }
  }

  lemma ExecutedIsScheduled(p: Program, latency: nat, c: Core, s: nat)
    requires Inv(p, latency, c, s) && |c.rob| > 0 && c.rob[0].executed
    ensures c.rob[0].scheduled
  {
    hide Partition, FrontIs, SourceIs, BackendTag, FlightTag, OperandsTag, InOrder, EntryOk;
    assert EntryShape(p, c, s, 0);
  }

  lemma RetireCounts(c: Core)
    requires CoreOk(c) && |c.rob| > 0 && Retirable(c.regs, c.rob[0].dests)
    ensures RetireOne(c).retired == c.retired + 1
  {
    hide RetireDests, EntryOk;
  }

  lemma SixEvents(u: Setup, c: Core, c1: Core, c2: Core, c3: Core, c4: Core, c5: Core, c6: Core, events: seq<Event>)
    requires |events| == 6 && Runnable(u.program)
    requires CoreOk(c) && CoreOk(c1) && CoreOk(c2) && CoreOk(c3) && CoreOk(c4) && CoreOk(c5)
    requires Enabled(u, c, events[0]) && c1 == Step(u, c, events[0])
    requires Enabled(u, c1, events[1]) && c2 == Step(u, c1, events[1])
    requires Enabled(u, c2, events[2]) && c3 == Step(u, c2, events[2])
    requires Enabled(u, c3, events[3]) && c4 == Step(u, c3, events[3])
    requires Enabled(u, c4, events[4]) && c5 == Step(u, c4, events[4])
    requires Enabled(u, c5, events[5]) && c6 == Step(u, c5, events[5])
    ensures Possible(u, c, events) && Run(u, c, events) == c6
  {
    hide Step, Enabled, CoreOk, Possible, Run;
    NoEvents(u, c6);
    RunOn(u, c5, events[5], []);
    RunOn(u, c4, events[4], [events[5]] + []);
    RunOn(u, c3, events[3], [events[4]] + ([events[5]] + []));
    RunOn(u, c2, events[2], [events[3]] + ([events[4]] + ([events[5]] + [])));
    RunOn(u, c1, events[1], [events[2]] + ([events[3]] + ([events[4]] + ([events[5]] + []))));
    RunOn(u, c, events[0], [events[1]] + ([events[2]] + ([events[3]] + ([events[4]] + ([events[5]] + [])))));
    assert events == [events[0]] + ([events[1]] + ([events[2]] + ([events[3]] + ([events[4]] + ([events[5]] + [])))));
  }

  lemma NoEvents(u: Setup, c: Core)
    requires CoreOk(c) && Runnable(u.program)
    ensures Possible(u, c, []) && Run(u, c, []) == c
  {
  }

  // ---------- Without registers it never does ----------

  /** Nothing is scheduled, and the front lacks registers. */
  ghost predicate Stuck(c: Core) {
    && CoreOk(c) && |c.rob| > 0 && !FrontHasRegisters(c)
    && forall k :: 0 <= k < |c.rob| ==> !c.rob[k].scheduled && !c.rob[k].executed && !c.rob[k].completed
  }

  lemma StuckStays(u: Setup, c: Core, e: Event)
    requires Stuck(c) && Runnable(u.program) && Enabled(u, c, e)
    ensures Stuck(Step(u, c, e)) && Step(u, c, e).retired == c.retired
  {
    hide Unallocated, EntryOk;
    match e
    case Execute(bw) =>
      forall k | 0 <= k < |c.rob| ensures |ExecuteFrom(c, 0, bw, u.execLatency).rob| == |c.rob|
        && ExecuteFrom(c, 0, bw, u.execLatency).rob[k] == c.rob[k]
        && ExecuteFrom(c, 0, bw, u.execLatency).regs == c.regs
      {
        ExecutesOldest(c, 0, bw, u.execLatency, k);
      }
      ExecutesOldest(c, 0, bw, u.execLatency, 0);
    case Complete(bw, done) => NothingCompletes(u.program, c, 0, bw, done);
    case _ =>
  }

  lemma {:induction false} NothingCompletes(p: Program, c: Core, j: nat, bw: nat, memoryDone: set<nat>)
    requires CoreOk(c) && forall k :: 0 <= k < |c.rob| ==> !c.rob[k].scheduled
    ensures CompleteFrom(p, c, j, bw, memoryDone) == c
    decreases |c.rob| - j
  {
    hide EntryOk;
    if j < |c.rob| && bw > 0 {
      NothingCompletes(p, c, j + 1, bw, memoryDone);
    }
  }

  lemma {:induction false} StuckForever(u: Setup, c: Core, events: seq<Event>)
    requires Stuck(c) && Runnable(u.program) && Possible(u, c, events)
    ensures Run(u, c, events).retired == c.retired
    decreases |events|
  {
    hide Stuck, Step, Enabled, CoreOk;
    if |events| > 0 {
      StuckIsOk(c);
      StuckStays(u, c, events[0]);
      StuckForever(u, Step(u, c, events[0]), events[1..]);
    }
  }

  lemma StuckIsOk(c: Core)
    requires Stuck(c)
    ensures CoreOk(c)
  {
  }

  lemma LackingIsStuck(p: Program, latency: nat, c: Core, s: nat)
    requires Inv(p, latency, c, s) && CoreOk(c) && |c.rob| > 0 && !FrontHasRegisters(c)
    ensures Stuck(c)
  {
    hide Partition, FrontIs, SourceIs, BackendTag, FlightTag, OperandsTag, InOrder, EntryOk, Unallocated;
    forall k | 0 <= k < |c.rob| ensures !c.rob[k].scheduled && !c.rob[k].executed && !c.rob[k].completed {
      assert EntryShape(p, c, s, k) && EntryShape(p, c, s, 0);
    }
  }

  /**
   * Progress, from every reachable state with instructions in the reorder buffer: some further events
   * retire an instruction if and only if the front is scheduled already or finds as many free
   * registers as it has unmapped sources and destinations; then six events are enough, for any
   * widths but zero.
   */
  lemma FrontRetiresIff(u: Setup, physical: nat, warmup: bool, events: seq<Event>, w: Widths)
    requires physical <= ARCH_REGISTERS && Runnable(u.program) && Possible(u, Start(physical, warmup), events)
    requires w.schedule > 0 && w.execute > 0 && w.complete > 0
    requires |After(u, physical, warmup, events).rob| > 0
    ensures var c := After(u, physical, warmup, events);
      && (FrontHasRegisters(c) ==>
            |FrontEvents(u, c, w)| == 6 && Possible(u, c, FrontEvents(u, c, w))
            && Run(u, c, FrontEvents(u, c, w)).retired == c.retired + 1)
      && (!FrontHasRegisters(c) ==>
            forall more :: Possible(u, c, more) ==> Run(u, c, more).retired == c.retired)
  {
    hide Run, Possible, Inv, Unallocated, Stuck;
    StartOk(u.program, u.schedulingLatency, physical, warmup);
    var n := RunKeeps(u, Start(physical, warmup), 0, events);
    var c := After(u, physical, warmup, events);
    FrontRetires(u, c, n, w);
    if !FrontHasRegisters(c) {
      LackingIsStuck(u.program, u.schedulingLatency, c, n);
      forall more | Possible(u, c, more) ensures Run(u, c, more).retired == c.retired {
        StuckForever(u, c, more);
      }
    }
  }
}
