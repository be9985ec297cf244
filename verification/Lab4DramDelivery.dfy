/**
 * Runs of the DRAM channel: the links between banks and slots hold, no two reads are kept for one
 * block, no refresh is forgotten, and every read is answered exactly once.
 */
module DramDelivery {
  import opened Collections
  import opened DramChannel

  // ---------- Where a read is ----------

  function Has(r: Option<Request>, t: nat): nat {
    if r.Some? && t in r.value.tags then 1 else 0
  }

  /** The number of slots that stand for read `t`. */
  function Occurrences(q: seq<Option<Request>>, t: nat): nat {
    if |q| == 0 then 0 else Has(q[0], t) + Occurrences(q[1..], t)
  }

  /** The number of responses given for read `t`. */
  function TimesAnswered(answers: seq<Answer>, t: nat): nat {
    if |answers| == 0 then 0
    else TimesAnswered(answers[..|answers| - 1], t) + if t in answers[|answers| - 1].tags then 1 else 0
  }

  lemma {:induction false} OccurrencesUpdate(q: seq<Option<Request>>, i: nat, r: Option<Request>, t: nat)
    requires i < |q|
    ensures Occurrences(q[i := r], t) == Occurrences(q, t) - Has(q[i], t) + Has(r, t)
    ensures Occurrences(q, t) >= Has(q[i], t)
  {
    hide Has;
    if i == 0 {
      assert q[i := r][1..] == q[1..];
    } else {
      assert q[i := r][1..] == q[1..][i - 1 := r];
      OccurrencesUpdate(q[1..], i - 1, r, t);
    }
  }

  lemma {:induction false} TwoOccurrences(q: seq<Option<Request>>, i: nat, j: nat, t: nat)
    requires i < j < |q|
    ensures Occurrences(q, t) >= Has(q[i], t) + Has(q[j], t)
  {
    hide Has;
    if i == 0 {
      OccurrencesUpdate(q[1..], j - 1, None, t);
    } else {
      TwoOccurrences(q[1..], i - 1, j - 1, t);
    }
  }

  lemma AnsweredOneMore(answers: seq<Answer>, a: Answer, t: nat)
    ensures TimesAnswered(answers + [a], t) == TimesAnswered(answers, t) + if t in a.tags then 1 else 0
  {
    assert (answers + [a])[..|answers|] == answers;
  }

  /** What a read asks for is part of what is done for it. */
  predicate Covers(u: Setup, issued: seq<Read>, address: nat, queues: set<nat>, deps: set<nat>, t: nat) {
    && t < |issued| && u.blockOf(issued[t].address) == u.blockOf(address)
    && issued[t].deps <= deps && (issued[t].queue.Some? ==> issued[t].queue.value in queues)
  }

  predicate Wanted(issued: seq<Read>, tags: set<nat>, queue: nat) {
    exists t :: t in tags && t < |issued| && issued[t].queue == Some(queue)
  }

  predicate Depended(issued: seq<Read>, tags: set<nat>, x: nat) {
    exists t :: t in tags && t < |issued| && x in issued[t].deps
  }

  /** An entry or a response stands for exactly the reads it names: all they asked for, and nothing else. */
  ghost predicate SpeaksFor(
    u: Setup, issued: seq<Read>, address: nat, tags: set<nat>, queues: set<nat>, deps: set<nat>)
  {
    && (forall t :: t in tags ==> Covers(u, issued, address, queues, deps, t))
    && (forall q :: q in queues ==> Wanted(issued, tags, q))
    && (forall x :: x in deps ==> Depended(issued, tags, x))
  }

  ghost predicate EntrySpeaks(u: Setup, issued: seq<Read>, r: Option<Request>) {
    r.Some? ==> SpeaksFor(u, issued, r.value.address, r.value.tags, r.value.queues, r.value.deps)
  }

  ghost predicate AnswerSpeaks(u: Setup, issued: seq<Read>, a: Answer) {
    SpeaksFor(u, issued, a.address, a.tags, a.queues, a.deps)
  }

  predicate Once(c: Channel, issued: seq<Read>, t: nat) {
    Occurrences(c.rq, t) + TimesAnswered(c.answers, t) == if t < |issued| then 1 else 0
  }

  predicate IsWrite(r: Option<Request>) {
    r.Some? ==> r.value.tags == {} && r.value.queues == {} && r.value.deps == {}
  }

  ghost predicate Delivering(u: Setup, c: Channel, issued: seq<Read>) {
    && (forall t: nat :: Once(c, issued, t))
    && (forall i :: 0 <= i < |c.rq| ==> EntrySpeaks(u, issued, c.rq[i]))
    && (forall i :: 0 <= i < |c.wq| ==> IsWrite(c.wq[i]))
    && (forall i :: 0 <= i < |c.answers| ==> AnswerSpeaks(u, issued, c.answers[i]))
  }

  // ---------- Steps that leave the entries as they are ----------

  predicate SameEntry(a: Option<Request>, b: Option<Request>) {
    && (a.Some? <==> b.Some?)
    && (a.Some? ==>
          && a.value.address == b.value.address && a.value.checked == b.value.checked
          && a.value.tags == b.value.tags && a.value.queues == b.value.queues && a.value.deps == b.value.deps)
  }

  ghost predicate SameEntries(a: seq<Option<Request>>, b: seq<Option<Request>>) {
    |a| == |b| && forall i :: 0 <= i < |a| ==> SameEntry(a[i], b[i])
  }

  lemma {:induction false} SameOccurrences(a: seq<Option<Request>>, b: seq<Option<Request>>, t: nat)
    requires SameEntries(a, b)
    ensures Occurrences(a, t) == Occurrences(b, t)
  {
    if |a| > 0 {
      assert SameEntry(a[0], b[0]);
      assert SameEntries(a[1..], b[1..]);
      SameOccurrences(a[1..], b[1..], t);
    }
  }

  ghost predicate Settled(u: Setup, c: Channel) {
    && BlocksDiffer(u, c.rq) && BlocksDiffer(u, c.wq)
    && AllChecked(c.rq, |c.rq|) && AllChecked(c.wq, |c.wq|)
  }

  lemma SameKeeps(u: Setup, c: Channel, issued: seq<Read>, d: Channel)
    requires SameEntries(c.rq, d.rq) && SameEntries(c.wq, d.wq) && d.answers == c.answers
    ensures Delivering(u, c, issued) ==> Delivering(u, d, issued)
    ensures Settled(u, c) ==> Settled(u, d)
  {
    hide SpeaksFor, Occurrences, TimesAnswered;
    assert forall i :: 0 <= i < |c.rq| ==> SameEntry(c.rq[i], d.rq[i]);
    assert forall i :: 0 <= i < |c.wq| ==> SameEntry(c.wq[i], d.wq[i]);
    if Delivering(u, c, issued) {
      forall t: nat ensures Once(d, issued, t) {
        assert Once(c, issued, t);
        SameOccurrences(c.rq, d.rq, t);
      }
      forall i | 0 <= i < |d.rq| ensures EntrySpeaks(u, issued, d.rq[i]) {
        assert EntrySpeaks(u, issued, c.rq[i]);
      }
      forall i | 0 <= i < |d.wq| ensures IsWrite(d.wq[i]) {
        assert IsWrite(c.wq[i]);
      }
    }
  }

  lemma GiveBackSame(u: Setup, c: Channel, b: nat)
    requires b < |c.banks| && BanksOccupied(c)
    ensures var d := GiveBack(u, c, b);
      SameEntries(c.rq, d.rq) && SameEntries(c.wq, d.wq) && d.answers == c.answers
  {
  }

  lemma {:induction false} GiveBackFromSame(u: Setup, c: Channel, b: nat)
    requires BanksOccupied(c)
    ensures var d := GiveBackFrom(u, c, b);
      SameEntries(c.rq, d.rq) && SameEntries(c.wq, d.wq) && d.answers == c.answers
    decreases |c.banks| - b
  {
    hide GiveBack;
    if b < |c.banks| {
      GiveBackSame(u, c, b);
      GiveBackFromSame(u, GiveBack(u, c, b), b + 1);
    }
  }

  lemma ServiceSame(u: Setup, c: Channel, s: Slot)
    requires Mapped(u) && Sized(u, c) && s.index < |Queue(c, s.write)|
    ensures var d := Service(u, c, s);
      SameEntries(c.rq, d.rq) && SameEntries(c.wq, d.wq) && d.answers == c.answers
  {
  }

  // ---------- Steps that answer or move reads ----------

  lemma MoreReads(u: Setup, issued: seq<Read>, r: Read, address: nat, tags: set<nat>, queues: set<nat>, deps: set<nat>)
    requires SpeaksFor(u, issued, address, tags, queues, deps)
    ensures SpeaksFor(u, issued + [r], address, tags, queues, deps)
  {
    var more := issued + [r];
    forall t | t in tags ensures Covers(u, more, address, queues, deps, t) {
      assert Covers(u, issued, address, queues, deps, t);
    }
    forall q | q in queues ensures Wanted(more, tags, q) {
      assert Wanted(issued, tags, q);
      var t :| t in tags && t < |issued| && issued[t].queue == Some(q);
      assert more[t].queue == Some(q);
    }
    forall x | x in deps ensures Depended(more, tags, x) {
      assert Depended(issued, tags, x);
      var t :| t in tags && t < |issued| && x in issued[t].deps;
      assert x in more[t].deps;
    }
  }

  lemma NewReadSpeaks(u: Setup, issued: seq<Read>, r: Read)
    ensures SpeaksFor(u, issued + [r], r.address, {|issued|}, if r.queue.Some? then {r.queue.value} else {}, r.deps)
  {
    var more, queues := issued + [r], if r.queue.Some? then {r.queue.value} else {};
    assert more[|issued|] == r;
    forall q | q in queues ensures Wanted(more, {|issued|}, q) {
      assert |issued| in {|issued|} && more[|issued|].queue == Some(q);
    }
    forall x | x in r.deps ensures Depended(more, {|issued|}, x) {
      assert |issued| in {|issued|} && x in more[|issued|].deps;
    }
  }

  lemma AddReadDelivers(u: Setup, c: Channel, issued: seq<Read>, r: Read)
    requires Delivering(u, c, issued) && FirstEmpty(c.rq) < |c.rq|
    ensures Delivering(u, AddRead(c, r, |issued|), issued + [r])
  {
    hide SpeaksFor, Occurrences, TimesAnswered, FirstEmpty;
    var d, i := AddRead(c, r, |issued|), FirstEmpty(c.rq);
    forall t: nat ensures Once(d, issued + [r], t) {
      assert Once(c, issued, t);
      OccurrencesUpdate(c.rq, i, d.rq[i], t);
    }
    forall k | 0 <= k < |d.rq| ensures EntrySpeaks(u, issued + [r], d.rq[k]) {
      if k == i {
        NewReadSpeaks(u, issued, r);
      } else {
        assert EntrySpeaks(u, issued, c.rq[k]);
        if c.rq[k].Some? {
          var e := c.rq[k].value;
          MoreReads(u, issued, r, e.address, e.tags, e.queues, e.deps);
        }
      }
    }
    forall k | 0 <= k < |d.answers| ensures AnswerSpeaks(u, issued + [r], d.answers[k]) {
      var a := c.answers[k];
      assert AnswerSpeaks(u, issued, a);
      MoreReads(u, issued, r, a.address, a.tags, a.queues, a.deps);
    }
    assert forall k :: 0 <= k < |c.wq| ==> IsWrite(c.wq[k]);
  }

  /** Writes come and go without touching what is kept for reads. */
  lemma WritesDeliver(u: Setup, c: Channel, issued: seq<Read>, d: Channel)
    requires Delivering(u, c, issued) && d.rq == c.rq && d.answers == c.answers
    requires forall i :: 0 <= i < |d.wq| ==> IsWrite(d.wq[i])
    ensures Delivering(u, d, issued)
  {
    hide SpeaksFor, Occurrences, TimesAnswered;
    forall t: nat ensures Once(d, issued, t) {
      assert Once(c, issued, t);
    }
  }

  lemma {:induction false} CheckWritesDelivers(u: Setup, c: Channel, issued: seq<Read>, i: nat)
    requires Delivering(u, c, issued)
    ensures Delivering(u, CheckWrites(u, c, i), issued)
    decreases |c.wq| - i
  {
    hide Delivering;
    if i < |c.wq| {
      CheckWriteDelivers(u, c, issued, i);
      CheckWritesDelivers(u, CheckWrite(u, c, i), issued, i + 1);
    }
  }

  lemma CheckWriteDelivers(u: Setup, c: Channel, issued: seq<Read>, i: nat)
    requires Delivering(u, c, issued) && i < |c.wq|
    ensures Delivering(u, CheckWrite(u, c, i), issued) && |CheckWrite(u, c, i).wq| == |c.wq|
  {
    hide SpeaksFor, Find;
    var d := CheckWrite(u, c, i);
    forall k | 0 <= k < |d.wq| ensures IsWrite(d.wq[k]) {
      assert IsWrite(c.wq[k]);
    }
    WritesDeliver(u, c, issued, d);
  }

  /** An entry is answered and leaves. */
  lemma AnswerDelivers(u: Setup, c: Channel, issued: seq<Read>, i: nat, d: Channel)
    requires Delivering(u, c, issued) && i < |c.rq| && c.rq[i].Some?
    requires d.rq == c.rq[i := None] && d.wq == c.wq && d.answers == c.answers + [AnswerOf(c.rq[i].value)]
    ensures Delivering(u, d, issued)
  {
    hide SpeaksFor, Occurrences, TimesAnswered;
    assert EntrySpeaks(u, issued, c.rq[i]);
    forall t: nat ensures Once(d, issued, t) {
      assert Once(c, issued, t);
      OccurrencesUpdate(c.rq, i, None, t);
      AnsweredOneMore(c.answers, AnswerOf(c.rq[i].value), t);
    }
    forall k | 0 <= k < |d.answers| ensures AnswerSpeaks(u, issued, d.answers[k]) {
      assert k < |c.answers| ==> AnswerSpeaks(u, issued, c.answers[k]);
    }
    forall k | 0 <= k < |d.rq| ensures EntrySpeaks(u, issued, d.rq[k]) {
      assert EntrySpeaks(u, issued, c.rq[k]);
    }
  }

  lemma AbsorbSpeaks(u: Setup, issued: seq<Read>, a: Request, b: Request)
    requires EntrySpeaks(u, issued, Some(a)) && EntrySpeaks(u, issued, Some(b))
    requires u.blockOf(a.address) == u.blockOf(b.address)
    ensures EntrySpeaks(u, issued, Some(Absorb(a, b)))
  {
    var m := Absorb(a, b);
    forall t | t in m.tags ensures Covers(u, issued, m.address, m.queues, m.deps, t) {
      assert t in a.tags ==> Covers(u, issued, a.address, a.queues, a.deps, t);
      assert t in b.tags ==> Covers(u, issued, b.address, b.queues, b.deps, t);
    }
    forall q | q in m.queues ensures Wanted(issued, m.tags, q) {
      assert q in a.queues ==> Wanted(issued, a.tags, q);
      assert q in b.queues ==> Wanted(issued, b.tags, q);
    }
    forall x | x in m.deps ensures Depended(issued, m.tags, x) {
      assert x in a.deps ==> Depended(issued, a.tags, x);
      assert x in b.deps ==> Depended(issued, b.tags, x);
    }
  }

  /** An entry takes over the reads of another one, which leaves. */
  lemma MergeDelivers(u: Setup, c: Channel, issued: seq<Read>, i: nat, j: nat, d: Channel)
    requires Delivering(u, c, issued) && i < |c.rq| && j < |c.rq| && i != j && c.rq[i].Some? && c.rq[j].Some?
    requires u.blockOf(c.rq[i].value.address) == u.blockOf(c.rq[j].value.address)
    requires d == c.(rq := c.rq[j := Some(Absorb(c.rq[j].value, c.rq[i].value))][i := None])
    ensures Delivering(u, d, issued)
  {
    hide SpeaksFor, Occurrences, TimesAnswered;
    var merged := Some(Absorb(c.rq[j].value, c.rq[i].value));
    assert EntrySpeaks(u, issued, c.rq[i]) && EntrySpeaks(u, issued, c.rq[j]);
    AbsorbSpeaks(u, issued, c.rq[j].value, c.rq[i].value);
    forall t: nat ensures Once(d, issued, t) {
      assert Once(c, issued, t);
      OccurrencesUpdate(c.rq, j, merged, t);
      OccurrencesUpdate(c.rq[j := merged], i, None, t);
      TwoOccurrences(c.rq, if i < j then i else j, if i < j then j else i, t);
    }
    forall k | 0 <= k < |d.rq| ensures EntrySpeaks(u, issued, d.rq[k]) {
      assert EntrySpeaks(u, issued, c.rq[k]);
    }
  }

  lemma CheckReadDelivers(u: Setup, c: Channel, issued: seq<Read>, i: nat)
    requires Delivering(u, c, issued) && i < |c.rq|
    ensures Delivering(u, CheckRead(u, c, i), issued) && |CheckRead(u, c, i).rq| == |c.rq|
  {
    hide Delivering, Find;
    if Unchecked(c.rq[i]) {
      var r, d := c.rq[i].value, CheckRead(u, c, i);
      var before, after := Find(u, c.rq, r.address, 0, i), Find(u, c.rq, r.address, i + 1, |c.rq|);
      if Find(u, c.wq, r.address, 0, |c.wq|) < |c.wq| {
        AnswerDelivers(u, c, issued, i, d);
      } else if before < i {
        MergeDelivers(u, c, issued, i, before, d);
      } else if after < |c.rq| {
        MergeDelivers(u, c, issued, i, after, d);
      } else {
        MarkDelivers(u, c, issued, i, d);
      }
    }
  }

  lemma MarkDelivers(u: Setup, c: Channel, issued: seq<Read>, i: nat, d: Channel)
    requires Delivering(u, c, issued) && i < |c.rq| && c.rq[i].Some?
    requires d == c.(rq := c.rq[i := Some(c.rq[i].value.(checked := true))])
    ensures Delivering(u, d, issued)
  {
    hide SpeaksFor, Occurrences, TimesAnswered;
    forall t: nat ensures Once(d, issued, t) {
      assert Once(c, issued, t);
      OccurrencesUpdate(c.rq, i, d.rq[i], t);
    }
    forall k | 0 <= k < |d.rq| ensures EntrySpeaks(u, issued, d.rq[k]) {
      assert EntrySpeaks(u, issued, c.rq[k]);
    }
  }

  lemma {:induction false} CheckReadsDelivers(u: Setup, c: Channel, issued: seq<Read>, i: nat)
    requires Delivering(u, c, issued)
    ensures Delivering(u, CheckReads(u, c, i), issued)
    decreases |c.rq| - i
  {
    hide Delivering, CheckRead;
    if i < |c.rq| {
      CheckReadDelivers(u, c, issued, i);
      CheckReadsDelivers(u, CheckRead(u, c, i), issued, i + 1);
    }
  }

  lemma FinishDelivers(u: Setup, c: Channel, issued: seq<Read>)
    requires Linked(u, c) && Delivering(u, c, issued)
    ensures CanFinish(u, c) ==> Occupied(c, c.banks[c.active.value].pkt)
    ensures Delivering(u, FinishBus(u, c), issued)
    ensures Settled(u, c) ==> Settled(u, FinishBus(u, c))
  {
    hide SpeaksFor, Linked;
    LinkedSlots(u, c);
    if CanFinish(u, c) {
      var s, d := c.banks[c.active.value].pkt, FinishBus(u, c);
      if s.write {
        FinishWriteDelivers(u, c, issued, s, d);
      } else {
        AnswerDelivers(u, c, issued, s.index, d);
      }
    }
  }

  lemma FinishWriteDelivers(u: Setup, c: Channel, issued: seq<Read>, s: Slot, d: Channel)
    requires Delivering(u, c, issued) && s.write && Occupied(c, s)
    requires d.rq == c.rq && d.wq == c.wq[s.index := None] && d.answers == c.answers + [AnswerOf(At(c, s))]
    ensures Delivering(u, d, issued)
  {
    hide Occurrences, TimesAnswered;
    assert IsWrite(c.wq[s.index]);
    forall t: nat ensures Once(d, issued, t) {
      assert Once(c, issued, t);
      AnsweredOneMore(c.answers, AnswerOf(At(c, s)), t);
    }
    forall k | 0 <= k < |d.answers| ensures AnswerSpeaks(u, issued, d.answers[k]) {
      assert k < |c.answers| ==> AnswerSpeaks(u, issued, c.answers[k]);
    }
    forall k | 0 <= k < |d.wq| ensures IsWrite(d.wq[k]) {
      assert IsWrite(c.wq[k]);
    }
  }

  // ---------- A cycle ----------

  /** A bank that needs a refresh is busy: otherwise its refresh has begun. */
  predicate RefreshPending(c: Channel, b: nat)
    requires b < |c.banks|
  {
    c.banks[b].needRefresh ==> c.banks[b].valid
  }

  ghost predicate Good(u: Setup, c: Channel, issued: seq<Read>) {
    && Linked(u, c) && Delivering(u, c, issued) && BlocksDiffer(u, c.rq) && BlocksDiffer(u, c.wq)
    && (forall b :: 0 <= b < |c.banks| ==> RefreshPending(c, b))
  }

  /** DRAM_CHANNEL::operate. */
  function Operate(u: Setup, c: Channel): Channel
    requires Linked(u, c)
  {
    CheckWritesKeepsLinks(u, c, 0);
    var written := CheckWrites(u, c, 0);
    CheckReadsKeepsLinks(u, written, 0);
    var merged := CheckReads(u, written, 0);
    FinishKeepsLinks(u, merged);
    var finished := FinishBus(u, merged);
    SwapKeepsLinks(u, finished);
    var swapped := SwapWriteMode(u, finished);
    RefreshKeepsLinks(u, swapped);
    var refreshed := Refresh(u, swapped);
    PopulateKeepsLinks(u, refreshed);
    ServiceNext(u, PopulateBus(u, refreshed))
  }

  lemma SwapDelivers(u: Setup, c: Channel, issued: seq<Read>)
    requires Linked(u, c) && Delivering(u, c, issued) && Settled(u, c)
    ensures BanksOccupied(c) && Delivering(u, SwapWriteMode(u, c), issued) && Settled(u, SwapWriteMode(u, c))
  {
    hide Linked, Delivering, Settled, GiveBackFrom, MustSwap;
    LinkedSlots(u, c);
    ActiveInRange(u, c);
    if MustSwap(c) {
      GiveBackFromSame(u, c, 0);
      SameKeeps(u, c, issued, SwapWriteMode(u, c));
    }
  }

  lemma ActiveInRange(u: Setup, c: Channel)
    requires Linked(u, c)
    ensures Mapped(u) && Sized(u, c)
  {
  }

  lemma RefreshKeeps(u: Setup, c: Channel, issued: seq<Read>)
    requires Delivering(u, c, issued) && Settled(u, c)
    ensures var d := Refresh(u, c);
      && Delivering(u, d, issued) && Settled(u, d)
      && (forall b :: 0 <= b < |d.banks| ==> RefreshPending(d, b))
  {
    hide Delivering, Settled;
    SameKeeps(u, c, issued, Refresh(u, c));
  }

  lemma PopulateKeeps(u: Setup, c: Channel, issued: seq<Read>)
    requires Linked(u, c) && Delivering(u, c, issued) && Settled(u, c)
    requires forall b :: 0 <= b < |c.banks| ==> RefreshPending(c, b)
    ensures BanksOccupied(c)
    ensures var d := PopulateBus(u, c);
      && Linked(u, d) && Delivering(u, d, issued) && Settled(u, d)
      && (forall b :: 0 <= b < |d.banks| ==> RefreshPending(d, b))
  {
    hide Linked, Delivering, Settled, MinBank;
    PopulateKeepsLinks(u, c);
    ActiveInRange(u, c);
    SameKeeps(u, c, issued, PopulateBus(u, c));
    forall b | 0 <= b < |PopulateBus(u, c).banks| ensures RefreshPending(PopulateBus(u, c), b) {
      assert RefreshPending(c, b);
    }
  }

  lemma ServiceKeeps(u: Setup, c: Channel, issued: seq<Read>)
    requires Linked(u, c) && Delivering(u, c, issued) && Settled(u, c)
    requires forall b :: 0 <= b < |c.banks| ==> RefreshPending(c, b)
    ensures var d := ServiceNext(u, c);
      && Linked(u, d) && Delivering(u, d, issued) && Settled(u, d)
      && (forall b :: 0 <= b < |d.banks| ==> RefreshPending(d, b))
      && (forall b :: 0 <= b < |c.banks| && c.banks[b].needRefresh ==> d.banks[b].needRefresh)
  {
    hide Linked, Delivering, MinSlot;
    ActiveInRange(u, c);
    var s := Slot(c.writeMode, MinSlot(u, c, Queue(c, c.writeMode), 0, 1));
    ServiceKeepsLinks(u, c, s);
    ServiceSame(u, c, s);
    SameKeeps(u, c, issued, Service(u, c, s));
    var d := Service(u, c, s);
    forall b | 0 <= b < |d.banks|
      ensures RefreshPending(d, b)
      ensures c.banks[b].needRefresh ==> d.banks[b].needRefresh
    {
      assert RefreshPending(c, b);
    }
  }

  lemma ChecksKeep(u: Setup, c: Channel, issued: seq<Read>)
    requires Good(u, c, issued)
    ensures var d := CheckReads(u, CheckWrites(u, c, 0), 0);
      && Linked(u, CheckWrites(u, c, 0)) && Linked(u, d) && Delivering(u, d, issued) && Settled(u, d)
  {
    hide Linked, Delivering, CheckWrites, CheckReads, BlocksDiffer;
    CheckWritesKeepsLinks(u, c, 0);
    CheckWritesDelivers(u, c, issued, 0);
    CheckWritesClears(u, c, 0);
    var w := CheckWrites(u, c, 0);
    CheckReadsKeepsLinks(u, w, 0);
    CheckReadsDelivers(u, w, issued, 0);
    CheckReadsClears(u, w, 0);
  }

  /** A cycle keeps everything, and leaves no entry unchecked. */
  lemma OperateKeeps(u: Setup, c: Channel, issued: seq<Read>)
    requires Good(u, c, issued)
    ensures Good(u, Operate(u, c), issued) && Settled(u, Operate(u, c))
  {
    hide Linked, Delivering, CheckWrites, CheckReads, FinishBus, SwapWriteMode, Refresh, PopulateBus, ServiceNext;
    hide RefreshPending, BlocksDiffer, AllChecked;
    ChecksKeep(u, c, issued);
    var merged := CheckReads(u, CheckWrites(u, c, 0), 0);
    FinishKeepsLinks(u, merged);
    FinishDelivers(u, merged, issued);
    var finished := FinishBus(u, merged);
    SwapKeepsLinks(u, finished);
    SwapDelivers(u, finished, issued);
    ActiveInRange(u, finished);
    var swapped := SwapWriteMode(u, finished);
    RefreshKeepsLinks(u, swapped);
    RefreshKeeps(u, swapped, issued);
    var refreshed := Refresh(u, swapped);
    PopulateKeeps(u, refreshed, issued);
    ActiveInRange(u, refreshed);
    ServiceKeeps(u, PopulateBus(u, refreshed), issued);
  }

  // ---------- Runs ----------

  datatype System = System(channel: Channel, issued: seq<Read>)

  datatype Event = ReadArrives(read: Read) | WriteArrives(address: nat) | Cycle(elapsed: nat)

  function Step(u: Setup, s: System, e: Event): System
    requires Good(u, s.channel, s.issued)
  {
    match e
    case ReadArrives(r) =>
      if FirstEmpty(s.channel.rq) == |s.channel.rq| then s
      else System(AddRead(s.channel, r, |s.issued|), s.issued + [r])
    case WriteArrives(a) => s.(channel := AddWrite(s.channel, a))
    case Cycle(elapsed) =>
      var c := s.channel.(now := s.channel.now + elapsed);
      TimeKeeps(u, s.channel, s.issued, c);
      s.(channel := Operate(u, c))
  }

  lemma TimeKeeps(u: Setup, c: Channel, issued: seq<Read>, d: Channel)
    requires Good(u, c, issued) && d == c.(now := d.now)
    ensures Good(u, d, issued)
  {
    hide SpeaksFor, Occurrences, TimesAnswered;
    forall b | 0 <= b < |d.banks| ensures BankLinked(u, d, b) && RefreshPending(d, b) {
      assert BankLinked(u, c, b) && RefreshPending(c, b);
    }
    forall s ensures SlotLinked(u, d, s) {
      assert SlotLinked(u, c, s);
    }
    forall t: nat ensures Once(d, issued, t) {
      assert Once(c, issued, t);
    }
  }

  lemma ReadArrivalKeeps(u: Setup, c: Channel, issued: seq<Read>, r: Read)
    requires Good(u, c, issued) && FirstEmpty(c.rq) < |c.rq|
    ensures Good(u, AddRead(c, r, |issued|), issued + [r])
  {
    hide Linked, Delivering, FirstEmpty;
    AddKeepsLinks(u, c, r, |issued|, 0);
    AddReadDelivers(u, c, issued, r);
    forall b | 0 <= b < |c.banks| ensures RefreshPending(AddRead(c, r, |issued|), b) {
      assert RefreshPending(c, b);
    }
  }

  lemma WriteArrivalKeeps(u: Setup, c: Channel, issued: seq<Read>, address: nat)
    requires Good(u, c, issued)
    ensures Good(u, AddWrite(c, address), issued)
  {
    hide Linked, SpeaksFor, FirstEmpty, Occurrences, TimesAnswered;
    var d := AddWrite(c, address);
    AddKeepsLinks(u, c, Read(0, None, {}), 0, address);
    forall i | 0 <= i < |d.wq| ensures IsWrite(d.wq[i]) {
      assert i < |c.wq| ==> IsWrite(c.wq[i]);
    }
    WritesDeliver(u, c, issued, d);
    forall b | 0 <= b < |d.banks| ensures RefreshPending(d, b) {
      assert RefreshPending(c, b);
    }
  }

  lemma StepKeeps(u: Setup, s: System, e: Event)
    requires Good(u, s.channel, s.issued)
    ensures Good(u, Step(u, s, e).channel, Step(u, s, e).issued)
    ensures e.Cycle? ==> Settled(u, Step(u, s, e).channel)
  {
    hide Good, Operate, Settled, AddRead, AddWrite;
    match e
    case ReadArrives(r) =>
      if FirstEmpty(s.channel.rq) != |s.channel.rq| {
        ReadArrivalKeeps(u, s.channel, s.issued, r);
      }
    case WriteArrives(a) => WriteArrivalKeeps(u, s.channel, s.issued, a);
    case Cycle(elapsed) =>
      var c := s.channel.(now := s.channel.now + elapsed);
      TimeKeeps(u, s.channel, s.issued, c);
      OperateKeeps(u, c, s.issued);
  }

  function Run(u: Setup, s: System, events: seq<Event>): (t: System)
    requires Good(u, s.channel, s.issued)
    ensures Good(u, t.channel, t.issued)
    decreases |events|
  {
    if |events| == 0 then s
    else
      StepKeeps(u, s, events[0]);
      Run(u, Step(u, s, events[0]), events[1..])
  }

  function Start(u: Setup, rqSize: nat, wqSize: nat): (s: System)
    requires Mapped(u) && rqSize > 0 && wqSize > 0
    ensures Good(u, s.channel, s.issued)
  {
    var idle := Bank(false, false, false, false, None, 0, Slot(false, 0));
    var s := System(
      Channel(seq(rqSize, _ => None), seq(wqSize, _ => None), seq(u.banks, _ => idle), None, false, 0,
              seq(u.groups, _ => 0), 0, 0, []), []);
    StartIsGood(u, s.channel);
    s
  }

  lemma StartIsGood(u: Setup, c: Channel)
    requires Mapped(u) && Sized(u, c) && c.active.None? && c.answers == []
    requires forall i :: 0 <= i < |c.rq| ==> c.rq[i].None?
    requires forall i :: 0 <= i < |c.wq| ==> c.wq[i].None?
    requires forall b :: 0 <= b < |c.banks| ==> !c.banks[b].valid && !c.banks[b].needRefresh
    ensures Good(u, c, [])
  {
    forall t: nat ensures Once(c, [], t) {
      NoneOccurs(c.rq, t);
    }
  }

  lemma {:induction false} NoneOccurs(q: seq<Option<Request>>, t: nat)
    requires forall i :: 0 <= i < |q| ==> q[i].None?
    ensures Occurrences(q, t) == 0
  {
    if |q| > 0 {
      NoneOccurs(q[1..], t);
    }
  }

  // ---------- Main results ----------

  /**
   * In every run: a busy bank works on one occupied, scheduled slot of its own bank index and is not
   * under refresh; a scheduled slot is worked on by exactly the bank of its address; the request on
   * the data bus, if any, is that of one busy bank; a bank that still needs a refresh is busy.
   */
  lemma BanksAndSlotsAreLinked(u: Setup, rqSize: nat, wqSize: nat, events: seq<Event>, b: nat, s: Slot)
    requires Mapped(u) && rqSize > 0 && wqSize > 0
    ensures var c := Run(u, Start(u, rqSize, wqSize), events).channel;
      && (b < |c.banks| && c.banks[b].valid ==>
            && !c.banks[b].underRefresh && Occupied(c, c.banks[b].pkt)
            && At(c, c.banks[b].pkt).scheduled && u.bankOf(At(c, c.banks[b].pkt).address) == b)
      && (Occupied(c, s) && At(c, s).scheduled ==>
            b < |c.banks| ==> (c.banks[b].valid && c.banks[b].pkt == s <==> b == u.bankOf(At(c, s).address)))
      && (c.active.Some? ==> c.active.value < |c.banks| && c.banks[c.active.value].valid)
      && (b < |c.banks| && c.banks[b].needRefresh ==> c.banks[b].valid)
  {
    hide Run, Start, Delivering;
    var c := Run(u, Start(u, rqSize, wqSize), events).channel;
    assert SlotLinked(u, c, s);
    if b < |c.banks| {
      assert BankLinked(u, c, b) && RefreshPending(c, b);
    }
  }

  /**
   * In every run each read that was accepted is either in exactly one slot of the read queue or has
   * been answered exactly once; the entry or the answer is for its block, carries its dependents,
   * and goes to the return queue it asked for, and to no queue that no read of it asked for.
   */
  lemma ReadsAreAnsweredOnce(u: Setup, rqSize: nat, wqSize: nat, events: seq<Event>, t: nat)
    requires Mapped(u) && rqSize > 0 && wqSize > 0
    ensures var s := Run(u, Start(u, rqSize, wqSize), events);
      && Occurrences(s.channel.rq, t) + TimesAnswered(s.channel.answers, t) == (if t < |s.issued| then 1 else 0)
      && (forall i :: 0 <= i < |s.channel.rq| && s.channel.rq[i].Some? ==>
            EntrySpeaks(u, s.issued, s.channel.rq[i]))
      && (forall i :: 0 <= i < |s.channel.answers| ==> AnswerSpeaks(u, s.issued, s.channel.answers[i]))
  {
    hide Run, Start, Linked, SpeaksFor, Occurrences, TimesAnswered;
    var s := Run(u, Start(u, rqSize, wqSize), events);
    assert Once(s.channel, s.issued, t);
  }

  /** After every cycle of a run, the entries of each queue are for different blocks. */
  lemma NoBlockTwice(u: Setup, rqSize: nat, wqSize: nat, events: seq<Event>, elapsed: nat, i: nat, j: nat)
    requires Mapped(u) && rqSize > 0 && wqSize > 0
    ensures var c := Step(u, Run(u, Start(u, rqSize, wqSize), events), Cycle(elapsed)).channel;
      && (i < j < |c.rq| && c.rq[i].Some? && c.rq[j].Some? ==>
            u.blockOf(c.rq[i].value.address) != u.blockOf(c.rq[j].value.address))
      && (i < j < |c.wq| && c.wq[i].Some? && c.wq[j].Some? ==>
            u.blockOf(c.wq[i].value.address) != u.blockOf(c.wq[j].value.address))
  {
    hide Run, Start, Good, Step;
    StepKeeps(u, Run(u, Start(u, rqSize, wqSize), events), Cycle(elapsed));
  }
}
