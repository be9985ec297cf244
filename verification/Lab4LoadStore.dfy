/**
 * The load and store queues of the lab4 core: what dispatch, execution, store completion and memory
 * returns do to them and to the count of finished memory operations in the reorder buffer.  An
 * assertion of the simulator that fails is an outcome of its own.
 */
module LoadStore {
  import opened Collections

  /** The addresses an instruction loads from and stores to. */
  datatype Inst = Inst(loads: seq<nat>, stores: seq<nat>)

  /** `ready` is None until the instruction executes (the largest time point). */
  datatype Load = Load(addr: nat, id: nat, ready: Option<nat>, fetchIssued: bool, producer: Option<nat>)

  /** `dependents` are the load queue slots that wait for this store. */
  datatype Store = Store(addr: nat, id: nat, ready: Option<nat>, fetchIssued: bool, dependents: seq<nat>)

  datatype Entry = Entry(id: nat, inst: Inst, executed: bool, completed: bool, memoryDone: nat)

  /** A store that has been sent to the L1D. */
  datatype Written = Written(id: nat, addr: nat)

  datatype State = State(
    rob: seq<Entry>, lq: seq<Option<Load>>, sq: seq<Store>, retired: nat, now: nat, written: seq<Written>)

  datatype Outcome = Running(state: State) | AssertFailed

  /** The trace, the store queue's size, and the cache block of an address. */
  datatype Setup = Setup(code: seq<Inst>, lqSize: nat, sqSize: nat, block: nat -> nat)

  function Operations(i: Inst): nat {
    |i.loads| + |i.stores|
  }

  /** std::partition_point over the reorder buffer, which is in program order. */
  function Locate(rob: seq<Entry>, id: nat): (i: nat)
    ensures i <= |rob|
  {
    if |rob| == 0 || rob[0].id >= id then 0 else 1 + Locate(rob[1..], id)
  }

  /** LSQ_ENTRY::finish: one more memory operation of instruction `id` is done. */
  function Finish(s: State, id: nat): (o: Outcome)
    ensures o.Running? ==> o.state == s.(rob := o.state.rob)
  {
    var i := Locate(s.rob, id);
    if i == |s.rob| || s.rob[i].id != id || s.rob[i].memoryDone + 1 > Operations(s.rob[i].inst) then AssertFailed
    else Running(s.(rob := s.rob[i := s.rob[i].(memoryDone := s.rob[i].memoryDone + 1)]))
  }

  // ---------- Dispatch ----------

  function FreeSlots(lq: seq<Option<Load>>): (n: nat)
    ensures n <= |lq|
  {
    if |lq| == 0 then 0 else (if lq[0].None? then 1 else 0) + FreeSlots(lq[1..])
  }

  function FirstFree(lq: seq<Option<Load>>): (k: nat)
    ensures k <= |lq| && (k < |lq| ==> lq[k].None?)
    ensures forall i :: 0 <= i < k ==> lq[i].Some?
  {
    if |lq| == 0 || lq[0].None? then 0 else 1 + FirstFree(lq[1..])
  }

  /** The comparison handed to std::max_element; it is not an ordering, so the scan itself is modelled. */
  predicate Beaten(best: Store, other: Store, addr: nat) {
    best.addr != addr || (other.addr == addr && best.id < other.id)
  }

  function MaxElement(sq: seq<Store>, addr: nat, best: nat, i: nat): (k: nat)
    requires best < |sq| && i <= |sq|
    ensures k < |sq|
    decreases |sq| - i
  {
    if i == |sq| then best
    else MaxElement(sq, addr, if Beaten(sq[best], sq[i], addr) then i else best, i + 1)
  }

  /** One load of the instruction at the end of the reorder buffer. */
  function DispatchLoad(s: State, id: nat, addr: nat): Outcome {
    var slot := FirstFree(s.lq);
    if slot == |s.lq| then AssertFailed
    else
      var load := Load(addr, id, None, false, None);
      if |s.sq| > 0 && s.sq[MaxElement(s.sq, addr, 0, 1)].addr == addr then
        var k := MaxElement(s.sq, addr, 0, 1);
        if s.sq[k].fetchIssued then Finish(s, id)
        else if s.sq[k].id >= id then AssertFailed
        else
          Running(s.(lq := s.lq[slot := Some(load.(producer := Some(s.sq[k].id)))],
                     sq := s.sq[k := s.sq[k].(dependents := s.sq[k].dependents + [slot])]))
      else Running(s.(lq := s.lq[slot := Some(load)]))
  }

  function DispatchLoads(s: State, id: nat, addrs: seq<nat>): Outcome
    decreases |addrs|
  {
    if |addrs| == 0 then Running(s)
    else
      match DispatchLoad(s, id, addrs[0])
      case AssertFailed => AssertFailed
      case Running(t) => DispatchLoads(t, id, addrs[1..])
  }

  function NewStores(id: nat, addrs: seq<nat>): (r: seq<Store>)
    ensures |r| == |addrs|
  {
    seq(|addrs|, i requires 0 <= i < |addrs| => Store(addrs[i], id, None, false, []))
  }

  predicate CanDispatch(u: Setup, s: State) {
    var id := s.retired + |s.rob|;
    && id < |u.code|
    && FreeSlots(s.lq) >= |u.code[id].loads|
    && |u.code[id].stores| + |s.sq| <= u.sqSize
  }

  function Dispatch(u: Setup, s: State): Outcome
    requires CanDispatch(u, s)
  {
    var id := s.retired + |s.rob|;
    var inst := u.code[id];
    match DispatchLoads(s.(rob := s.rob + [Entry(id, inst, false, false, 0)]), id, inst.loads)
    case AssertFailed => AssertFailed
    case Running(t) => Running(t.(sq := t.sq + NewStores(id, inst.stores)))
  }

  // ---------- Execution ----------

  function MarkLoads(lq: seq<Option<Load>>, id: nat, ready: nat): (r: seq<Option<Load>>)
    ensures |r| == |lq|
  {
    seq(|lq|, i requires 0 <= i < |lq| =>
      if lq[i].Some? && lq[i].value.id == id then Some(lq[i].value.(ready := Some(ready))) else lq[i])
  }

  function MarkStores(sq: seq<Store>, id: nat, ready: nat): (r: seq<Store>)
    ensures |r| == |sq|
  {
    seq(|sq|, i requires 0 <= i < |sq| => if sq[i].id == id then sq[i].(ready := Some(ready)) else sq[i])
  }

  /** The part of do_execution that concerns memory operations; `ready` is the end of the execution. */
  function Execute(s: State, j: nat, ready: nat): State
    requires j < |s.rob|
  {
    var id := s.rob[j].id;
    s.(rob := s.rob[j := s.rob[j].(executed := true)],
       lq := MarkLoads(s.lq, id, ready), sq := MarkStores(s.sq, id, ready))
  }

  // ---------- Stores ----------

  predicate IsReady(ready: Option<nat>, now: nat) {
    ready.Some? && ready.value <= now
  }

  /** Release the loads waiting for a store of instruction `id`. */
  function Release(s: State, id: nat, slots: seq<nat>): (o: Outcome)
    ensures o.Running? ==> o.state == s.(rob := o.state.rob, lq := o.state.lq)
    decreases |slots|
  {
    if |slots| == 0 then Running(s)
    else if slots[0] >= |s.lq| || s.lq[slots[0]].None? || s.lq[slots[0]].value.producer != Some(id) then AssertFailed
    else
      match Finish(s, s.lq[slots[0]].value.id)
      case AssertFailed => AssertFailed
      case Running(t) => Release(t.(lq := t.lq[slots[0] := None]), id, slots[1..])
  }

  /** do_finish_store on sq[k], and its being marked as issued. */
  function FinishStore(s: State, k: nat): Outcome
    requires k < |s.sq|
  {
    var store := s.sq[k];
    match Finish(s, store.id)
    case AssertFailed => AssertFailed
    case Running(t) =>
      match Release(t, store.id, store.dependents)
      case AssertFailed => AssertFailed
      case Running(v) => Running(v.(sq := v.sq[k := store.(fetchIssued := true, ready := Some(s.now))]))
  }

  function FirstUnissued(sq: seq<Store>): (k: nat)
    ensures k <= |sq| && (k < |sq| ==> !sq[k].fetchIssued)
    ensures forall i :: 0 <= i < k ==> sq[i].fetchIssued
  {
    if |sq| == 0 || !sq[0].fetchIssued then 0 else 1 + FirstUnissued(sq[1..])
  }

  /** The stores from position `k` on that are ready finish, at most `bw` of them. */
  function FinishStores(s: State, k: nat, bw: nat): Outcome
    decreases bw
  {
    if k >= |s.sq| || bw == 0 || s.sq[k].fetchIssued || !IsReady(s.sq[k].ready, s.now) then Running(s)
    else
      match FinishStore(s, k)
      case AssertFailed => AssertFailed
      case Running(t) => FinishStores(t, k + 1, bw - 1)
  }

  /** The front of the store queue may go to the L1D: older than the reorder buffer, and ready. */
  predicate CanWrite(s: State) {
    && |s.sq| > 0 && IsReady(s.sq[0].ready, s.now)
    && (|s.rob| == 0 || s.sq[0].id < s.rob[0].id)
  }

  /** Stores leave for the L1D, which accepts at most `accepted` of them; `bw` bounds both. */
  function WriteStores(s: State, bw: nat, accepted: nat): State
    decreases bw
  {
    if bw == 0 || accepted == 0 || !CanWrite(s) then s
    else
      WriteStores(s.(sq := s.sq[1..], written := s.written + [Written(s.sq[0].id, s.sq[0].addr)]),
                  bw - 1, accepted - 1)
  }

  // ---------- Loads ----------

  predicate CanIssueLoad(s: State, k: nat)
    requires k < |s.lq|
  {
    && s.lq[k].Some? && s.lq[k].value.producer.None? && !s.lq[k].value.fetchIssued
    && s.lq[k].value.ready.Some? && s.lq[k].value.ready.value < s.now
  }

  /** Loads from slot `k` on are sent to the L1D, which accepts those whose slot is in `accepted`. */
  function IssueLoads(s: State, k: nat, bw: nat, accepted: set<nat>): State
    decreases |s.lq| - k
  {
    if k >= |s.lq| || bw == 0 then s
    else if CanIssueLoad(s, k) && k in accepted then
      IssueLoads(s.(lq := s.lq[k := Some(s.lq[k].value.(fetchIssued := true))]), k + 1, bw - 1, accepted)
    else IssueLoads(s, k + 1, bw, accepted)
  }

  /** A block returns from the L1D: every load from slot `k` on that was sent for it finishes. */
  function Return(u: Setup, s: State, block: nat, k: nat): Outcome
    decreases |s.lq| - k
  {
    if k >= |s.lq| then Running(s)
    else if s.lq[k].Some? && s.lq[k].value.fetchIssued && u.block(s.lq[k].value.addr) == block then
      match Finish(s, s.lq[k].value.id)
      case AssertFailed => AssertFailed
      case Running(t) => Return(u, t.(lq := t.lq[k := None]), block, k + 1)
    else Return(u, s, block, k + 1)
  }

  // ---------- Completion, retirement, runs ----------

  function Complete(s: State, j: nat): State
    requires j < |s.rob|
  {
    s.(rob := s.rob[j := s.rob[j].(completed := true)])
  }

  function Retire(s: State): State
    requires |s.rob| > 0
  {
    s.(rob := s.rob[1..], retired := s.retired + 1)
  }

  datatype Event =
    | Tick(elapsed: nat)
    | Dispatching
    | Executing(entry: nat, ready: nat)
    | FinishingStores(bandwidth: nat)
    | WritingStores(bandwidth: nat, room: nat)
    | IssuingLoads(bandwidth: nat, accepted: set<nat>)
    | Returning(block: nat)
    | Completing(entry: nat)
    | Retiring

  predicate Enabled(u: Setup, s: State, e: Event) {
    match e
    case Dispatching => CanDispatch(u, s)
    case Executing(j, ready) => j < |s.rob| && !s.rob[j].executed && ready >= s.now
    case Completing(j) =>
      && j < |s.rob| && s.rob[j].executed && !s.rob[j].completed
      && s.rob[j].memoryDone == Operations(s.rob[j].inst)
    case Retiring => |s.rob| > 0 && s.rob[0].completed
    case _ => true
  }

  function Step(u: Setup, s: State, e: Event): Outcome
    requires Enabled(u, s, e)
  {
    match e
    case Tick(elapsed) => Running(s.(now := s.now + elapsed))
    case Dispatching => Dispatch(u, s)
    case Executing(j, ready) => Running(Execute(s, j, ready))
    case FinishingStores(bw) => FinishStores(s, FirstUnissued(s.sq), bw)
    case WritingStores(bw, room) => Running(WriteStores(s, bw, room))
    case IssuingLoads(bw, accepted) => Running(IssueLoads(s, 0, bw, accepted))
    case Returning(block) => Return(u, s, block, 0)
    case Completing(j) => Running(Complete(s, j))
    case Retiring => Running(Retire(s))
  }

  function Start(u: Setup): State {
    State([], seq(u.lqSize, _ => None), [], 0, 0, [])
  }

  /** The outcome of a sequence of events; events that are not enabled are skipped. */
  function Run(u: Setup, s: State, events: seq<Event>): Outcome
    decreases |events|
  {
    if |events| == 0 then Running(s)
    else if !Enabled(u, s, events[0]) then Run(u, s, events[1..])
    else
      match Step(u, s, events[0])
      case AssertFailed => AssertFailed
      case Running(t) => Run(u, t, events[1..])
  }
}
