/**
 * One DRAM channel outside warmup: read and write queues of optional slots, banks that point to the
 * slot they work on, one data bus, refresh, and the switch between reading and writing.
 */
module DramChannel {
  import opened Collections

  /** The address map as the channel sees it, and the timing parameters. */
  datatype Setup = Setup(
    banks: nat, bankOf: nat -> nat, groups: nat, groupOf: nat -> nat, rowOf: nat -> nat, blockOf: nat -> nat,
    tRP: nat, tRCD: nat, tCAS: nat, tREF: nat, tRFC: nat, turnAround: nat, returnTime: nat, groupStall: nat)

  ghost predicate Mapped(u: Setup) {
    u.banks > 0 && forall a :: u.bankOf(a) < u.banks && u.groupOf(a) < u.groups
  }

  /** A read that came in; its tag is its position in the list of reads.  `queue` is where it wants its response. */
  datatype Read = Read(address: nat, queue: Option<nat>, deps: set<nat>)

  /** `ready` is None for the largest time point; `tags` names the reads the entry stands for. */
  datatype Request = Request(
    address: nat, scheduled: bool, checked: bool, ready: Option<nat>,
    tags: set<nat>, queues: set<nat>, deps: set<nat>)

  datatype Slot = Slot(write: bool, index: nat)

  datatype Bank = Bank(
    valid: bool, hit: bool, needRefresh: bool, underRefresh: bool, openRow: Option<nat>, ready: nat, pkt: Slot)

  /** One response pushed to each of the return queues `queues`. */
  datatype Answer = Answer(queues: set<nat>, address: nat, tags: set<nat>, deps: set<nat>)

  datatype Channel = Channel(
    rq: seq<Option<Request>>, wq: seq<Option<Request>>, banks: seq<Bank>, active: Option<nat>, writeMode: bool,
    busFree: nat, groupReady: seq<nat>, lastRefresh: nat, now: nat, answers: seq<Answer>)

  function Queue(c: Channel, write: bool): seq<Option<Request>> {
    if write then c.wq else c.rq
  }

  function WithQueue(c: Channel, write: bool, q: seq<Option<Request>>): Channel {
    if write then c.(wq := q) else c.(rq := q)
  }

  predicate Occupied(c: Channel, s: Slot) {
    s.index < |Queue(c, s.write)| && Queue(c, s.write)[s.index].Some?
  }

  function At(c: Channel, s: Slot): Request
    requires Occupied(c, s)
  {
    Queue(c, s.write)[s.index].value
  }

  function Put(c: Channel, s: Slot, r: Option<Request>): Channel
    requires s.index < |Queue(c, s.write)|
  {
    WithQueue(c, s.write, Queue(c, s.write)[s.index := r])
  }

  // ---------- Arrival ----------

  function FirstEmpty(q: seq<Option<Request>>): (i: nat)
    ensures i <= |q| && (i < |q| ==> q[i].None?)
  {
    if |q| == 0 || q[0].None? then 0 else 1 + FirstEmpty(q[1..])
  }

  /** add_rq for a read of tag `tag`; a full queue refuses it. */
  function AddRead(c: Channel, r: Read, tag: nat): Channel {
    var i := FirstEmpty(c.rq);
    if i == |c.rq| then c
    else
      c.(rq := c.rq[i := Some(Request(r.address, false, false, Some(c.now), {tag},
                                      if r.queue.Some? then {r.queue.value} else {}, r.deps))])
  }

  function AddWrite(c: Channel, address: nat): Channel {
    var i := FirstEmpty(c.wq);
    if i == |c.wq| then c
    else c.(wq := c.wq[i := Some(Request(address, false, false, Some(c.now), {}, {}, {}))])
  }

  // ---------- Collisions ----------

  predicate Collides(u: Setup, r: Option<Request>, address: nat) {
    r.Some? && u.blockOf(r.value.address) == u.blockOf(address)
  }

  /** The first slot in [lo, hi) that collides with the address, or `hi`. */
  function Find(u: Setup, q: seq<Option<Request>>, address: nat, lo: nat, hi: nat): (j: nat)
    requires lo <= hi <= |q|
    ensures lo <= j <= hi && (j < hi ==> Collides(u, q[j], address))
    ensures forall k :: lo <= k < j ==> !Collides(u, q[k], address)
    decreases hi - lo
  {
    if lo == hi || Collides(u, q[lo], address) then lo else Find(u, q, address, lo + 1, hi)
  }

  predicate Unchecked(r: Option<Request>) {
    r.Some? && !r.value.checked
  }

  /** One round of check_write_collision: an unchecked write that meets another one is dropped. */
  function CheckWrite(u: Setup, c: Channel, i: nat): Channel
    requires i < |c.wq|
  {
    if !Unchecked(c.wq[i]) then c
    else
      var a := c.wq[i].value.address;
      if Find(u, c.wq, a, 0, i) < i || Find(u, c.wq, a, i + 1, |c.wq|) < |c.wq| then c.(wq := c.wq[i := None])
      else c.(wq := c.wq[i := Some(c.wq[i].value.(checked := true))])
  }

  function CheckWrites(u: Setup, c: Channel, i: nat): (d: Channel)
    ensures |d.wq| == |c.wq|
    decreases |c.wq| - i
  {
    if i >= |c.wq| then c else CheckWrites(u, CheckWrite(u, c, i), i + 1)
  }

  /** The entry takes over the reads of another one. */
  function Absorb(into: Request, from: Request): Request {
    into.(tags := into.tags + from.tags, queues := into.queues + from.queues, deps := into.deps + from.deps)
  }

  function AnswerOf(r: Request): Answer {
    Answer(r.queues, r.address, r.tags, r.deps)
  }

  /** One round of check_read_collision: forward from a write, merge into another read, or keep the entry. */
  function CheckRead(u: Setup, c: Channel, i: nat): Channel
    requires i < |c.rq|
  {
    if !Unchecked(c.rq[i]) then c
    else
      var r := c.rq[i].value;
      var before, after := Find(u, c.rq, r.address, 0, i), Find(u, c.rq, r.address, i + 1, |c.rq|);
      if Find(u, c.wq, r.address, 0, |c.wq|) < |c.wq| then
        c.(rq := c.rq[i := None], answers := c.answers + [AnswerOf(r)])
      else if before < i then c.(rq := c.rq[before := Some(Absorb(c.rq[before].value, r))][i := None])
      else if after < |c.rq| then c.(rq := c.rq[after := Some(Absorb(c.rq[after].value, r))][i := None])
      else c.(rq := c.rq[i := Some(r.(checked := true))])
  }

  function CheckReads(u: Setup, c: Channel, i: nat): (d: Channel)
    ensures |d.rq| == |c.rq|
    decreases |c.rq| - i
  {
    if i >= |c.rq| then c else CheckReads(u, CheckRead(u, c, i), i + 1)
  }

  // ---------- Data bus ----------

  predicate Sized(u: Setup, c: Channel) {
    && |c.banks| == u.banks && |c.groupReady| == u.groups && |c.rq| > 0 && |c.wq| > 0
    && (c.active.Some? ==> c.active.value < u.banks)
  }

  /** The active bank's packet may be answered; an empty slot there would be an error of the simulator. */
  predicate CanFinish(u: Setup, c: Channel) {
    && c.active.Some? && c.active.value < |c.banks|
    && c.banks[c.active.value].ready <= c.now
  }

  function FinishBus(u: Setup, c: Channel): Channel
    requires CanFinish(u, c) ==> Occupied(c, c.banks[c.active.value].pkt)
  {
    if !CanFinish(u, c) then c
    else
      var b := c.active.value;
      var s := c.banks[b].pkt;
      Put(c.(banks := c.banks[b := c.banks[b].(valid := false)], active := None,
             answers := c.answers + [AnswerOf(At(c, s))]), s, None)
  }

  // ---------- Write mode ----------

  function Occupancy(q: seq<Option<Request>>): nat {
    if |q| == 0 then 0 else (if q[0].Some? then 1 else 0) + Occupancy(q[1..])
  }

  /** The watermarks are 7/8 and 6/8 of the write queue. */
  predicate MustSwap(c: Channel) {
    var writeCount, readCount := Occupancy(c.wq), Occupancy(c.rq);
    || (!c.writeMode && (writeCount >= |c.wq| * 7 / 8 || (readCount == 0 && writeCount > 0)))
    || (c.writeMode && (writeCount == 0 || (readCount > 0 && writeCount < |c.wq| * 6 / 8)))
  }

  ghost predicate BanksOccupied(c: Channel) {
    forall b :: 0 <= b < |c.banks| && c.banks[b].valid ==> Occupied(c, c.banks[b].pkt)
  }

  /** A bank other than the active one gives its request back to the queue. */
  function GiveBack(u: Setup, c: Channel, b: nat): (d: Channel)
    requires b < |c.banks| && BanksOccupied(c)
    ensures BanksOccupied(d) && |d.banks| == |c.banks|
  {
    if c.active == Some(b) || !c.banks[b].valid then c
    else
      var bank := c.banks[b];
      var row := if bank.ready < c.now + u.tCAS then None else bank.openRow;
      Put(c.(banks := c.banks[b := bank.(openRow := row, valid := false)]), bank.pkt,
          Some(At(c, bank.pkt).(scheduled := false, ready := Some(c.now))))
  }

  function GiveBackFrom(u: Setup, c: Channel, b: nat): (d: Channel)
    requires BanksOccupied(c)
    ensures BanksOccupied(d) && |d.banks| == |c.banks|
    decreases |c.banks| - b
  {
    if b >= |c.banks| then c else GiveBackFrom(u, GiveBack(u, c, b), b + 1)
  }

  function SwapWriteMode(u: Setup, c: Channel): Channel
    requires BanksOccupied(c) && (c.active.Some? ==> c.active.value < |c.banks|)
  {
    if !MustSwap(c) then c
    else
      var d := GiveBackFrom(u, c, 0);
      d.(busFree := (if c.active.Some? then c.banks[c.active.value].ready else c.now) + u.turnAround,
         writeMode := !c.writeMode)
  }

  // ---------- Refresh ----------

  function RefreshBank(u: Setup, bank: Bank, due: bool, now: nat): Bank {
    var need := bank.needRefresh || due;
    if need && !bank.valid then bank.(ready := now + u.tRFC, needRefresh := false, underRefresh := true)
    else if bank.underRefresh && bank.ready <= now then
      bank.(needRefresh := need, underRefresh := false, openRow := None)
    else bank.(needRefresh := need)
  }

  function Refresh(u: Setup, c: Channel): (d: Channel)
    ensures d == c.(lastRefresh := d.lastRefresh, banks := d.banks) && |d.banks| == |c.banks|
  {
    var due := c.now >= c.lastRefresh + u.tREF;
    c.(lastRefresh := if due then c.now else c.lastRefresh,
       banks := seq(|c.banks|, b requires 0 <= b < |c.banks| => RefreshBank(u, c.banks[b], due, c.now)))
  }

  // ---------- Bus arbitration ----------

  /** The comparison handed to std::min_element over the banks. */
  predicate BankBefore(l: Bank, r: Bank) {
    !r.valid || (l.valid && l.ready < r.ready)
  }

  function MinBank(banks: seq<Bank>, best: nat, i: nat): (b: nat)
    requires best < |banks| && i <= |banks|
    ensures b < |banks|
    decreases |banks| - i
  {
    if i == |banks| then best else MinBank(banks, if BankBefore(banks[i], banks[best]) then i else best, i + 1)
  }

  function PopulateBus(u: Setup, c: Channel): Channel
    requires |c.banks| > 0 && Mapped(u) && |c.groupReady| == u.groups
    requires BanksOccupied(c)
  {
    var b := MinBank(c.banks, 0, 1);
    if c.banks[b].valid && c.banks[b].ready <= c.now && c.active.None? && c.busFree <= c.now then
      var g := u.groupOf(At(c, c.banks[b].pkt).address);
      var start := if c.groupReady[g] > c.now then c.groupReady[g] else c.now;
      c.(active := Some(b), banks := c.banks[b := c.banks[b].(ready := start + u.returnTime)],
         groupReady := c.groupReady[g := c.now + u.returnTime + u.groupStall])
    else c
  }

  // ---------- Scheduling ----------

  predicate Candidate(r: Option<Request>) {
    r.Some? && !r.value.scheduled
  }

  predicate BankFree(u: Setup, c: Channel, r: Request)
    requires Mapped(u) && |c.banks| == u.banks
  {
    !c.banks[u.bankOf(r.address)].valid
  }

  predicate ReadyBy(a: Option<nat>, b: Option<nat>) {
    b.None? || (a.Some? && a.value <= b.value)
  }

  /** The comparison handed to std::min_element over the queue: free banks first, then the longest waiting. */
  predicate ScheduleBefore(u: Setup, c: Channel, l: Option<Request>, r: Option<Request>)
    requires Mapped(u) && |c.banks| == u.banks
  {
    if !Candidate(r) then true
    else if !Candidate(l) then false
    else if BankFree(u, c, r.value) == BankFree(u, c, l.value) then ReadyBy(l.value.ready, r.value.ready)
    else BankFree(u, c, l.value)
  }

  function MinSlot(u: Setup, c: Channel, q: seq<Option<Request>>, best: nat, i: nat): (k: nat)
    requires best < |q| && i <= |q| && Mapped(u) && |c.banks| == u.banks
    ensures k < |q|
    decreases |q| - i
  {
    if i == |q| then best else MinSlot(u, c, q, if ScheduleBefore(u, c, q[i], q[best]) then i else best, i + 1)
  }

  function Service(u: Setup, c: Channel, s: Slot): Channel
    requires Mapped(u) && Sized(u, c) && s.index < |Queue(c, s.write)|
  {
    if !Occupied(c, s) || !ReadyBy(At(c, s).ready, Some(c.now)) then c
    else
      var r := At(c, s);
      var b := u.bankOf(r.address);
      if c.banks[b].valid || c.banks[b].underRefresh then c
      else
        var row := u.rowOf(r.address);
        var hit := c.banks[b].openRow == Some(row);
        var charge := if hit then 0 else if c.banks[b].openRow.Some? then u.tRP + u.tRCD else u.tRCD;
        Put(c.(banks := c.banks[b := Bank(true, hit, false, false, Some(row), c.now + u.tCAS + charge, s)]),
            s, Some(r.(scheduled := true, ready := None)))
  }

  function ServiceNext(u: Setup, c: Channel): Channel
    requires Mapped(u) && Sized(u, c)
  {
    Service(u, c, Slot(c.writeMode, MinSlot(u, c, Queue(c, c.writeMode), 0, 1)))
  }

  // ---------- Linkage ----------

  predicate BankLinked(u: Setup, c: Channel, b: nat)
    requires b < |c.banks|
  {
    c.banks[b].valid ==>
      && !c.banks[b].underRefresh && Occupied(c, c.banks[b].pkt)
      && At(c, c.banks[b].pkt).scheduled && u.bankOf(At(c, c.banks[b].pkt).address) == b
      && (c.active != Some(b) ==> c.banks[b].pkt.write == c.writeMode)
  }

  predicate SlotLinked(u: Setup, c: Channel, s: Slot) {
    Occupied(c, s) ==>
      var r := At(c, s);
      && (r.scheduled ==>
            && r.checked && r.ready.None?
            && u.bankOf(r.address) < |c.banks| && c.banks[u.bankOf(r.address)].valid
            && c.banks[u.bankOf(r.address)].pkt == s)
      && (!r.scheduled ==> r.ready.Some?)
  }

  ghost predicate Linked(u: Setup, c: Channel) {
    && Mapped(u) && Sized(u, c)
    && (forall b :: 0 <= b < |c.banks| ==> BankLinked(u, c, b))
    && (forall s :: SlotLinked(u, c, s))
    && (c.active.Some? ==> c.banks[c.active.value].valid)
  }

  // ---------- Every step keeps the linkage ----------

  /** An entry that is not scheduled comes, goes, or changes in what the links do not mention. */
  lemma UnscheduledChange(u: Setup, c: Channel, s: Slot, r: Option<Request>, d: Channel)
    requires Linked(u, c) && s.index < |Queue(c, s.write)|
    requires Occupied(c, s) ==> !At(c, s).scheduled
    requires r.Some? ==> !r.value.scheduled && r.value.ready.Some?
    requires d == Put(c, s, r).(answers := d.answers)
    ensures Linked(u, d)
  {
    forall b | 0 <= b < |d.banks| ensures BankLinked(u, d, b) {
      assert BankLinked(u, c, b);
    }
    forall t ensures SlotLinked(u, d, t) {
      assert SlotLinked(u, c, t);
    }
  }

  /** A read takes over others: its address, bank and progress stay. */
  lemma AbsorbKeepsLinks(u: Setup, c: Channel, s: Slot, from: Request, d: Channel)
    requires Linked(u, c) && Occupied(c, s) && d == Put(c, s, Some(Absorb(At(c, s), from)))
    ensures Linked(u, d)
  {
    forall b | 0 <= b < |d.banks| ensures BankLinked(u, d, b) {
      assert BankLinked(u, c, b);
    }
    forall t ensures SlotLinked(u, d, t) {
      assert SlotLinked(u, c, t);
    }
  }

  lemma UncheckedIsUnscheduled(u: Setup, c: Channel, s: Slot)
    requires Linked(u, c) && Occupied(c, s) && !At(c, s).checked
    ensures !At(c, s).scheduled && At(c, s).ready.Some?
  {
    assert SlotLinked(u, c, s);
  }

  lemma AddKeepsLinks(u: Setup, c: Channel, r: Read, tag: nat, address: nat)
    requires Linked(u, c)
    ensures Linked(u, AddRead(c, r, tag)) && Linked(u, AddWrite(c, address))
  {
    hide Linked;
    var i, j := FirstEmpty(c.rq), FirstEmpty(c.wq);
    if i < |c.rq| {
      UnscheduledChange(u, c, Slot(false, i), AddRead(c, r, tag).rq[i], AddRead(c, r, tag));
    }
    if j < |c.wq| {
      UnscheduledChange(u, c, Slot(true, j), AddWrite(c, address).wq[j], AddWrite(c, address));
    }
  }

  lemma CheckWriteKeepsLinks(u: Setup, c: Channel, i: nat)
    requires Linked(u, c) && i < |c.wq|
    ensures Linked(u, CheckWrite(u, c, i)) && |CheckWrite(u, c, i).wq| == |c.wq|
  {
    hide Linked, Find;
    if Unchecked(c.wq[i]) {
      UncheckedIsUnscheduled(u, c, Slot(true, i));
      UnscheduledChange(u, c, Slot(true, i), CheckWrite(u, c, i).wq[i], CheckWrite(u, c, i));
    }
  }

  lemma {:induction false} CheckWritesKeepsLinks(u: Setup, c: Channel, i: nat)
    requires Linked(u, c)
    ensures Linked(u, CheckWrites(u, c, i))
    decreases |c.wq| - i
  {
    hide Linked, CheckWrite;
    if i < |c.wq| {
      CheckWriteKeepsLinks(u, c, i);
      CheckWritesKeepsLinks(u, CheckWrite(u, c, i), i + 1);
    }
  }

  lemma MergeKeepsLinks(u: Setup, c: Channel, i: nat, j: nat, d: Channel)
    requires Linked(u, c) && i < |c.rq| && Unchecked(c.rq[i]) && j < |c.rq| && j != i && c.rq[j].Some?
    requires d == c.(rq := c.rq[j := Some(Absorb(c.rq[j].value, c.rq[i].value))][i := None])
    ensures Linked(u, d)
  {
    hide Linked;
    UncheckedIsUnscheduled(u, c, Slot(false, i));
    var e := Put(c, Slot(false, j), Some(Absorb(c.rq[j].value, c.rq[i].value)));
    AbsorbKeepsLinks(u, c, Slot(false, j), c.rq[i].value, e);
    UnscheduledChange(u, e, Slot(false, i), None, d);
  }

  lemma CheckReadKeepsLinks(u: Setup, c: Channel, i: nat)
    requires Linked(u, c) && i < |c.rq|
    ensures Linked(u, CheckRead(u, c, i)) && |CheckRead(u, c, i).rq| == |c.rq|
  {
    hide Linked, Find;
    if Unchecked(c.rq[i]) {
      var r, d := c.rq[i].value, CheckRead(u, c, i);
      var before, after := Find(u, c.rq, r.address, 0, i), Find(u, c.rq, r.address, i + 1, |c.rq|);
      UncheckedIsUnscheduled(u, c, Slot(false, i));
      if Find(u, c.wq, r.address, 0, |c.wq|) < |c.wq| {
        UnscheduledChange(u, c, Slot(false, i), None, d);
      } else if before < i {
        MergeKeepsLinks(u, c, i, before, d);
      } else if after < |c.rq| {
        MergeKeepsLinks(u, c, i, after, d);
      } else {
        UnscheduledChange(u, c, Slot(false, i), d.rq[i], d);
      }
    }
  }

  lemma {:induction false} CheckReadsKeepsLinks(u: Setup, c: Channel, i: nat)
    requires Linked(u, c)
    ensures Linked(u, CheckReads(u, c, i))
    decreases |c.rq| - i
  {
    hide Linked, CheckRead;
    if i < |c.rq| {
      CheckReadKeepsLinks(u, c, i);
      CheckReadsKeepsLinks(u, CheckRead(u, c, i), i + 1);
    }
  }

  lemma LinkedSlots(u: Setup, c: Channel)
    requires Linked(u, c)
    ensures BanksOccupied(c)
    ensures CanFinish(u, c) ==> Occupied(c, c.banks[c.active.value].pkt)
  {
    forall b | 0 <= b < |c.banks| && c.banks[b].valid ensures Occupied(c, c.banks[b].pkt) {
      assert BankLinked(u, c, b);
    }
  }

  /** Two banks never work on the same slot. */
  lemma BanksDiffer(u: Setup, c: Channel, a: nat, b: nat)
    requires Linked(u, c) && a < |c.banks| && b < |c.banks| && a != b && c.banks[a].valid && c.banks[b].valid
    ensures c.banks[a].pkt != c.banks[b].pkt
  {
    assert BankLinked(u, c, a) && BankLinked(u, c, b);
  }

  lemma FinishKeepsLinks(u: Setup, c: Channel)
    requires Linked(u, c)
    ensures CanFinish(u, c) ==> Occupied(c, c.banks[c.active.value].pkt)
    ensures Linked(u, FinishBus(u, c))
  {
    LinkedSlots(u, c);
    if CanFinish(u, c) {
      var d, b := FinishBus(u, c), c.active.value;
      assert BankLinked(u, c, b);
      forall a | 0 <= a < |d.banks| ensures BankLinked(u, d, a) {
        assert BankLinked(u, c, a);
        if a != b && c.banks[a].valid {
          BanksDiffer(u, c, a, b);
        }
      }
      forall s ensures SlotLinked(u, d, s) {
        assert SlotLinked(u, c, s);
      }
    }
  }

  lemma RefreshKeepsLinks(u: Setup, c: Channel)
    requires Linked(u, c)
    ensures Linked(u, Refresh(u, c))
  {
    var d := Refresh(u, c);
    forall b | 0 <= b < |d.banks| ensures BankLinked(u, d, b) {
      assert BankLinked(u, c, b);
    }
    forall s ensures SlotLinked(u, d, s) {
      assert SlotLinked(u, c, s);
    }
  }

  lemma PopulateKeepsLinks(u: Setup, c: Channel)
    requires Linked(u, c)
    ensures BanksOccupied(c)
    ensures Linked(u, PopulateBus(u, c))
  {
    hide MinBank;
    LinkedSlots(u, c);
    var d := PopulateBus(u, c);
    forall b | 0 <= b < |d.banks| ensures BankLinked(u, d, b) {
      assert BankLinked(u, c, b);
    }
    forall s ensures SlotLinked(u, d, s) {
      assert SlotLinked(u, c, s);
    }
  }

  lemma ServiceKeepsLinks(u: Setup, c: Channel, s: Slot)
    requires Linked(u, c) && s.index < |Queue(c, s.write)| && s.write == c.writeMode
    requires Occupied(c, s) ==> At(c, s).checked
    ensures Linked(u, Service(u, c, s))
  {
    var d := Service(u, c, s);
    assert SlotLinked(u, c, s);
    forall b | 0 <= b < |d.banks| ensures BankLinked(u, d, b) {
      assert BankLinked(u, c, b);
    }
    forall t ensures SlotLinked(u, d, t) {
      assert SlotLinked(u, c, t);
    }
  }

  lemma GiveBackKeepsLinks(u: Setup, c: Channel, b: nat)
    requires Linked(u, c) && BanksOccupied(c) && b < |c.banks|
    ensures Linked(u, GiveBack(u, c, b))
    ensures var d := GiveBack(u, c, b);
      && d.active == c.active && d.writeMode == c.writeMode && |d.rq| == |c.rq| && |d.wq| == |c.wq|
      && (forall a :: 0 <= a < |c.banks| && a != b ==> d.banks[a] == c.banks[a])
      && (d.banks[b].valid ==> c.active == Some(b))
  {
    var d := GiveBack(u, c, b);
    assert BankLinked(u, c, b);
    forall a | 0 <= a < |d.banks| ensures BankLinked(u, d, a) {
      assert BankLinked(u, c, a);
    }
    forall s ensures SlotLinked(u, d, s) {
      assert SlotLinked(u, c, s);
    }
  }

  lemma {:induction false} GiveBackFromKeepsLinks(u: Setup, c: Channel, b: nat)
    requires Linked(u, c) && BanksOccupied(c)
    requires forall a :: 0 <= a < b && a < |c.banks| && c.banks[a].valid ==> c.active == Some(a)
    ensures var d := GiveBackFrom(u, c, b);
      && Linked(u, d) && d.active == c.active && d.writeMode == c.writeMode
      && (forall a :: 0 <= a < |d.banks| && d.banks[a].valid ==> c.active == Some(a))
    decreases |c.banks| - b
  {
    hide Linked, GiveBack;
    if b < |c.banks| {
      GiveBackKeepsLinks(u, c, b);
      GiveBackFromKeepsLinks(u, GiveBack(u, c, b), b + 1);
    }
  }

  /** After the switch only the request on the data bus is left at a bank. */
  lemma SwapKeepsLinks(u: Setup, c: Channel)
    requires Linked(u, c)
    ensures BanksOccupied(c) && Linked(u, SwapWriteMode(u, c))
  {
    hide MustSwap;
    LinkedSlots(u, c);
    if MustSwap(c) {
      GiveBackFromKeepsLinks(u, c, 0);
      var e, d := GiveBackFrom(u, c, 0), SwapWriteMode(u, c);
      forall b | 0 <= b < |d.banks| ensures BankLinked(u, d, b) {
        assert BankLinked(u, e, b);
      }
      forall s ensures SlotLinked(u, d, s) {
        assert SlotLinked(u, e, s);
      }
    }
  }

  // ---------- Blocks ----------

  predicate AllChecked(q: seq<Option<Request>>, n: nat)
    requires n <= |q|
  {
    forall i :: 0 <= i < n && q[i].Some? ==> q[i].value.checked
  }

  predicate IsChecked(r: Option<Request>) {
    r.Some? && r.value.checked
  }

  /** No two checked entries of a queue are for the same block. */
  ghost predicate BlocksDiffer(u: Setup, q: seq<Option<Request>>) {
    forall i, j :: 0 <= i < j < |q| && IsChecked(q[i]) && IsChecked(q[j]) ==>
      u.blockOf(q[i].value.address) != u.blockOf(q[j].value.address)
  }

  lemma CheckWriteKeepsBlocks(u: Setup, c: Channel, i: nat)
    requires BlocksDiffer(u, c.wq) && i < |c.wq| && AllChecked(c.wq, i)
    ensures var d := CheckWrite(u, c, i);
      && d.rq == c.rq && |d.wq| == |c.wq| && BlocksDiffer(u, d.wq) && AllChecked(d.wq, i + 1)
  {
  }

  lemma {:induction false} CheckWritesClears(u: Setup, c: Channel, i: nat)
    requires BlocksDiffer(u, c.wq) && i <= |c.wq| && AllChecked(c.wq, i)
    ensures var d := CheckWrites(u, c, i);
      && d.rq == c.rq && |d.wq| == |c.wq| && BlocksDiffer(u, d.wq) && AllChecked(d.wq, |d.wq|)
    decreases |c.wq| - i
  {
    hide CheckWrite, BlocksDiffer;
    if i < |c.wq| {
      CheckWriteKeepsBlocks(u, c, i);
      CheckWritesClears(u, CheckWrite(u, c, i), i + 1);
    }
  }

  lemma CheckReadKeepsBlocks(u: Setup, c: Channel, i: nat)
    requires BlocksDiffer(u, c.rq) && i < |c.rq| && AllChecked(c.rq, i)
    ensures var d := CheckRead(u, c, i);
      && d.wq == c.wq && |d.rq| == |c.rq| && BlocksDiffer(u, d.rq) && AllChecked(d.rq, i + 1)
  {
  }

  lemma {:induction false} CheckReadsClears(u: Setup, c: Channel, i: nat)
    requires BlocksDiffer(u, c.rq) && i <= |c.rq| && AllChecked(c.rq, i)
    ensures var d := CheckReads(u, c, i);
      && d.wq == c.wq && |d.rq| == |c.rq| && BlocksDiffer(u, d.rq) && AllChecked(d.rq, |d.rq|)
    decreases |c.rq| - i
  {
    hide CheckRead, BlocksDiffer;
    if i < |c.rq| {
      CheckReadKeepsBlocks(u, c, i);
      CheckReadsClears(u, CheckRead(u, c, i), i + 1);
    }
  }

  // ---------- What the arbiters choose ----------

  /** The bus goes to a bank with a request whenever there is one, and to one that is ready first. */
  lemma {:induction false} MinBankIsFirstReady(banks: seq<Bank>, best: nat, i: nat)
    requires best < i <= |banks|
    requires banks[best].valid || forall j :: 0 <= j < i ==> !banks[j].valid
    requires banks[best].valid ==> forall j :: 0 <= j < i && banks[j].valid ==> banks[best].ready <= banks[j].ready
    ensures var b := MinBank(banks, best, i);
      && (banks[b].valid <==> exists j :: 0 <= j < |banks| && banks[j].valid)
      && (banks[b].valid ==> forall j :: 0 <= j < |banks| && banks[j].valid ==> banks[b].ready <= banks[j].ready)
    decreases |banks| - i
  {
    if i < |banks| {
      MinBankIsFirstReady(banks, if BankBefore(banks[i], banks[best]) then i else best, i + 1);
    }
  }

  /** `k` is at least as good a choice as `j`: a free bank before a busy one, then the longer wait. */
  predicate AsGood(u: Setup, c: Channel, q: seq<Option<Request>>, k: nat, j: nat)
    requires Mapped(u) && |c.banks| == u.banks && k < |q| && j < |q|
  {
    Candidate(q[j]) ==>
      && Candidate(q[k])
      && (BankFree(u, c, q[j].value) ==> BankFree(u, c, q[k].value))
      && (BankFree(u, c, q[j].value) == BankFree(u, c, q[k].value) ==> ReadyBy(q[k].value.ready, q[j].value.ready))
  }

  /** Among the requests of the queue not yet scheduled, the scheduler takes a best one. */
  lemma {:induction false} MinSlotIsBest(u: Setup, c: Channel, q: seq<Option<Request>>, best: nat, i: nat)
    requires Mapped(u) && |c.banks| == u.banks && best < i <= |q|
    requires forall j :: 0 <= j < i ==> AsGood(u, c, q, best, j)
    ensures var k := MinSlot(u, c, q, best, i); forall j :: 0 <= j < |q| ==> AsGood(u, c, q, k, j)
    decreases |q| - i
  {
    if i < |q| {
      var next := if ScheduleBefore(u, c, q[i], q[best]) then i else best;
      forall j | 0 <= j < i + 1 ensures AsGood(u, c, q, next, j) {
        assert j < i ==> AsGood(u, c, q, best, j);
      }
      MinSlotIsBest(u, c, q, next, i + 1);
      assert MinSlot(u, c, q, best, i) == MinSlot(u, c, q, next, i + 1);
    } else {
      assert MinSlot(u, c, q, best, i) == best;
    }
  }
}
