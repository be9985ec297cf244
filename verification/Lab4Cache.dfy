/**
 * The miss path of a cache that distinguishes full addresses (its writes allocate like reads): tag
 * checks, miss registers, returns from the lower level, and fills.
 */
module MissCache {
  import opened Collections
  import opened Powers
  import opened Tallies
  import Channel

  datatype Kind = Load | Rfo | Prefetch | Write | Translation

  /** `fromHere` marks a prefetch issued by this cache, `skipFill` one that is not to be filled here. */
  datatype Packet = Packet(address: nat, kind: Kind, fromHere: bool, skipFill: bool, deps: seq<nat>, queues: seq<nat>)

  /**
   * A miss register; `ready` is None until the lower level has returned. `tags` names the packets it
   * stands for; the source does not keep it.
   */
  datatype Entry = Entry(
    address: nat, kind: Kind, fromHere: bool, enqueued: nat, ready: Option<nat>, deps: seq<nat>, queues: seq<nat>,
    tags: set<nat>)

  datatype Block = Block(valid: bool, dirty: bool, prefetched: bool, address: nat)

  datatype Answer = Answer(address: nat, deps: seq<nat>, queues: seq<nat>, tags: set<nat>)

  datatype Setup = Setup(offsetBits: nat, setBits: nat, ways: nat, mshrSize: nat, fillLatency: nat)

  /**
   * `pending` holds the blocks requested from the lower level; `accepted` the packets that hit or were
   * taken on so far, whose positions are their tags.
   */
  datatype Cache = Cache(
    sets: seq<seq<Block>>, mshr: seq<Entry>, pending: set<nat>, now: nat, warmup: bool,
    accepted: seq<Packet>, answers: seq<Answer>)

  function BlockOf(u: Setup, address: nat): nat {
    Shr(address, u.offsetBits)
  }

  function SetOf(u: Setup, address: nat): (s: nat)
    ensures s < Pow2(u.setBits)
  {
    LowBits(BlockOf(u, address), u.setBits)
  }

  predicate Shaped(u: Setup, c: Cache) {
    |c.sets| == Pow2(u.setBits) && forall s :: 0 <= s < |c.sets| ==> |c.sets[s]| == u.ways
  }

  // ---------- Tag check ----------

  predicate Matches(u: Setup, b: Block, address: nat) {
    b.valid && BlockOf(u, b.address) == BlockOf(u, address)
  }

  function HitWay(u: Setup, row: seq<Block>, address: nat): (w: nat)
    ensures w <= |row| && (w < |row| ==> Matches(u, row[w], address))
    ensures forall k :: 0 <= k < w ==> !Matches(u, row[k], address)
  {
    if |row| == 0 || Matches(u, row[0], address) then 0 else 1 + HitWay(u, row[1..], address)
  }

  predicate Hits(u: Setup, c: Cache, address: nat)
    requires Shaped(u, c)
  {
    HitWay(u, c.sets[SetOf(u, address)], address) < u.ways
  }

  /** try_hit, when the block is there: answer, and update the dirty and prefetch bits. */
  function Hit(u: Setup, c: Cache, p: Packet): Cache
    requires Shaped(u, c) && Hits(u, c, p.address)
  {
    var s := SetOf(u, p.address);
    var w := HitWay(u, c.sets[s], p.address);
    var b := c.sets[s][w];
    var useful := b.prefetched && !p.fromHere;
    c.(sets := c.sets[s := c.sets[s][w := b.(dirty := b.dirty || p.kind.Write?, prefetched := b.prefetched && !useful)]],
       answers := c.answers + [Answer(p.address, p.deps, p.queues, {|c.accepted|})], accepted := c.accepted + [p])
  }

  // ---------- Misses ----------

  function NewEntry(p: Packet, now: nat, tag: nat): Entry {
    Entry(p.address, p.kind, p.fromHere, now, None, p.deps, p.queues, {tag})
  }

  /** mshr_type::merge: a later demand takes over the entry, but not its returned data. */
  function MergeEntries(first: Entry, second: Entry): Entry {
    var kept := if second.kind.Prefetch? then first else second;
    kept.(enqueued := if !second.kind.Prefetch? && first.kind.Prefetch? then second.enqueued else first.enqueued,
          deps := Channel.SetUnion(first.deps, second.deps), queues := Channel.SetUnion(first.queues, second.queues),
          ready := first.ready, tags := first.tags + second.tags)
  }

  function FindEntry(u: Setup, mshr: seq<Entry>, address: nat): (i: nat)
    ensures i <= |mshr| && (i < |mshr| ==> BlockOf(u, mshr[i].address) == BlockOf(u, address))
    ensures forall k :: 0 <= k < i ==> BlockOf(u, mshr[k].address) != BlockOf(u, address)
  {
    if |mshr| == 0 || BlockOf(u, mshr[0].address) == BlockOf(u, address) then 0
    else 1 + FindEntry(u, mshr[1..], address)
  }

  /** Whether the lower level is asked to respond to the forwarded miss. */
  predicate WantsResponse(p: Packet) {
    !p.fromHere || !p.skipFill
  }

  /** handle_miss can be carried out; `room` says whether the lower level accepts a request. */
  predicate CanMiss(u: Setup, c: Cache, p: Packet, room: bool) {
    FindEntry(u, c.mshr, p.address) < |c.mshr| || (|c.mshr| != u.mshrSize && room)
  }

  function Miss(u: Setup, c: Cache, p: Packet): Cache {
    var i := FindEntry(u, c.mshr, p.address);
    var e := NewEntry(p, c.now, |c.accepted|);
    if i < |c.mshr| then
      c.(mshr := c.mshr[i := MergeEntries(c.mshr[i], e)], accepted := c.accepted + [p])
    else if WantsResponse(p) then
      c.(mshr := c.mshr + [e], pending := c.pending + {BlockOf(u, p.address)}, accepted := c.accepted + [p])
    else c
  }

  function TagCheck(u: Setup, c: Cache, p: Packet, room: bool): Cache
    requires Shaped(u, c)
  {
    if Hits(u, c, p.address) then Hit(u, c, p) else if CanMiss(u, c, p, room) then Miss(u, c, p) else c
  }

  // ---------- Returns ----------

  function FirstUnreturned(mshr: seq<Entry>): (i: nat)
    ensures i <= |mshr| && (i < |mshr| ==> mshr[i].ready.None?)
    ensures forall k :: 0 <= k < i ==> mshr[k].ready.Some?
  {
    if |mshr| == 0 || mshr[0].ready.None? then 0 else 1 + FirstUnreturned(mshr[1..])
  }

  function Swap(mshr: seq<Entry>, i: nat, j: nat): (swapped: seq<Entry>)
    requires i < |mshr| && j < |mshr|
    ensures |swapped| == |mshr|
  {
    mshr[i := mshr[j]][j := mshr[i]]
  }

  /** finish_packet: mark the entry returned and order it after those returned before. */
  function FinishPacket(u: Setup, c: Cache, address: nat): Cache
    requires FindEntry(u, c.mshr, address) < |c.mshr| && FirstUnreturned(c.mshr) < |c.mshr|
  {
    var i, j := FindEntry(u, c.mshr, address), FirstUnreturned(c.mshr);
    var e := c.mshr[i].(ready := Some(c.now + if c.warmup then 0 else u.fillLatency));
    c.(mshr := Swap(c.mshr[i := e], i, j), pending := c.pending - {BlockOf(u, address)})
  }

  // ---------- Fills ----------

  function FirstInvalid(row: seq<Block>): (w: nat)
    ensures w <= |row|
  {
    if |row| == 0 || !row[0].valid then 0 else 1 + FirstInvalid(row[1..])
  }

  /** The way a fill takes; the number of ways stands for a bypass. */
  function FillWay(row: seq<Block>, victim: nat): (w: nat)
    requires victim <= |row|
    ensures w <= |row|
  {
    if FirstInvalid(row) < |row| then FirstInvalid(row) else victim
  }

  function Filled(e: Entry): Block {
    Block(true, e.kind.Write?, e.fromHere, e.address)
  }

  predicate IsReady(e: Entry, now: nat) {
    e.ready.Some? && e.ready.value <= now
  }

  /** The front register can be filled; `room` says whether the lower level takes the write-back of a dirty victim. */
  predicate CanFill(u: Setup, c: Cache, victim: nat, room: bool)
    requires Shaped(u, c) && victim <= u.ways
  {
    |c.mshr| > 0 && IsReady(c.mshr[0], c.now)
    && (var row := c.sets[SetOf(u, c.mshr[0].address)];
        var w := FillWay(row, victim);
        w < u.ways && row[w].valid && row[w].dirty ==> room)
  }

  /** handle_fill of the front register, which leaves. */
  function Fill(u: Setup, c: Cache, victim: nat): Cache
    requires Shaped(u, c) && victim <= u.ways && |c.mshr| > 0
  {
    var e := c.mshr[0];
    var s := SetOf(u, e.address);
    var w := FillWay(c.sets[s], victim);
    c.(sets := if w < u.ways then c.sets[s := c.sets[s][w := Filled(e)]] else c.sets,
       mshr := c.mshr[1..], answers := c.answers + [Answer(e.address, e.deps, e.queues, e.tags)])
  }

  /** One choice of the replacement policy and of the lower level for each fill. */
  datatype Choice = Choice(victim: nat, room: bool)

  predicate Choices(u: Setup, choices: seq<Choice>) {
    forall i :: 0 <= i < |choices| ==> choices[i].victim <= u.ways
  }

  /** Ready registers are filled from the front until the bandwidth is used or a fill is refused. */
  function FillReady(u: Setup, c: Cache, choices: seq<Choice>): (d: Cache)
    requires Shaped(u, c) && Choices(u, choices)
    ensures Shaped(u, d)
    decreases |choices|
  {
    if |choices| == 0 || !CanFill(u, c, choices[0].victim, choices[0].room) then c
    else FillReady(u, Fill(u, c, choices[0].victim), choices[1..])
  }

  // ---------- The invariant ----------

  predicate Differ(u: Setup, a: Entry, b: Entry) {
    BlockOf(u, a.address) != BlockOf(u, b.address)
  }

  ghost predicate Distinct(u: Setup, mshr: seq<Entry>) {
    forall i, j :: 0 <= i < j < |mshr| ==> Differ(u, mshr[i], mshr[j])
  }

  predicate Earlier(a: Entry, b: Entry) {
    b.ready.Some? ==> a.ready.Some? && a.ready.value <= b.ready.value
  }

  /** The returned registers come first, in the order in which they become ready. */
  ghost predicate ReturnedFirst(mshr: seq<Entry>) {
    forall i, j :: 0 <= i < j < |mshr| ==> Earlier(mshr[i], mshr[j])
  }

  /** No register becomes ready later than one that returned now would. */
  ghost predicate NotLate(u: Setup, c: Cache) {
    forall i :: 0 <= i < |c.mshr| && c.mshr[i].ready.Some? ==>
      c.mshr[i].ready.value <= c.now + if c.warmup then 0 else u.fillLatency
  }

  ghost predicate Awaited(u: Setup, c: Cache, block: nat) {
    exists i :: 0 <= i < |c.mshr| && BlockOf(u, c.mshr[i].address) == block && c.mshr[i].ready.None?
  }

  ghost predicate Awaiting(u: Setup, c: Cache) {
    forall b: nat :: b in c.pending <==> Awaited(u, c, b)
  }

  /** A valid block lies in its set, in one way only, and has no register. */
  ghost predicate BlockOk(u: Setup, c: Cache, s: nat, w: nat)
    requires Shaped(u, c) && s < |c.sets| && w < u.ways
  {
    var b := c.sets[s][w];
    b.valid ==>
      && SetOf(u, b.address) == s
      && (forall v :: 0 <= v < u.ways && v != w ==> !Matches(u, c.sets[s][v], b.address))
      && (forall i :: 0 <= i < |c.mshr| ==> BlockOf(u, c.mshr[i].address) != BlockOf(u, b.address))
  }

  ghost predicate SingleCopies(u: Setup, c: Cache)
    requires Shaped(u, c)
  {
    forall s, w :: 0 <= s < |c.sets| && 0 <= w < u.ways ==> BlockOk(u, c, s, w)
  }

  /** What is done for a packet: a register or a response for its block, with its dependents and return queues. */
  predicate Serves(u: Setup, address: nat, deps: seq<nat>, queues: seq<nat>, p: Packet) {
    BlockOf(u, address) == BlockOf(u, p.address) && Channel.Within(p.deps, deps) && Channel.Within(p.queues, queues)
  }

  predicate Depended(accepted: seq<Packet>, tags: set<nat>, x: nat) {
    exists t :: t in tags && t < |accepted| && x in accepted[t].deps
  }

  predicate Asked(accepted: seq<Packet>, tags: set<nat>, queue: nat) {
    exists t :: t in tags && t < |accepted| && queue in accepted[t].queues
  }

  /** A register or a response serves the packets it names, and does nothing that none of them asks for. */
  ghost predicate Speaks(
    u: Setup, accepted: seq<Packet>, address: nat, deps: seq<nat>, queues: seq<nat>, tags: set<nat>)
  {
    && (forall t :: t in tags ==> t < |accepted| && Serves(u, address, deps, queues, accepted[t]))
    && (forall x :: x in deps ==> Depended(accepted, tags, x))
    && (forall q :: q in queues ==> Asked(accepted, tags, q))
  }

  ghost predicate EntrySpeaks(u: Setup, accepted: seq<Packet>, e: Entry) {
    Speaks(u, accepted, e.address, e.deps, e.queues, e.tags)
  }

  ghost predicate AnswerSpeaks(u: Setup, accepted: seq<Packet>, a: Answer) {
    Speaks(u, accepted, a.address, a.deps, a.queues, a.tags)
  }

  function EntryTags(mshr: seq<Entry>): (s: seq<set<nat>>)
    ensures |s| == |mshr| && forall i :: 0 <= i < |mshr| ==> s[i] == mshr[i].tags
  {
    seq(|mshr|, i requires 0 <= i < |mshr| => mshr[i].tags)
  }

  function AnswerTags(answers: seq<Answer>): (s: seq<set<nat>>)
    ensures |s| == |answers| && forall i :: 0 <= i < |answers| ==> s[i] == answers[i].tags
  {
    seq(|answers|, i requires 0 <= i < |answers| => answers[i].tags)
  }

  /** How many registers and responses stand for packet `t`. */
  function Places(mshr: seq<Entry>, answers: seq<Answer>, t: nat): nat {
    Times(EntryTags(mshr), t) + Times(AnswerTags(answers), t)
  }

  /** Every accepted packet is in one register or has been answered once, and all speak for what they name. */
  ghost predicate Delivers(u: Setup, accepted: seq<Packet>, mshr: seq<Entry>, answers: seq<Answer>) {
    && (forall i :: 0 <= i < |mshr| ==> EntrySpeaks(u, accepted, mshr[i]))
    && (forall i :: 0 <= i < |answers| ==> AnswerSpeaks(u, accepted, answers[i]))
    && (forall t: nat :: Places(mshr, answers, t) == if t < |accepted| then 1 else 0)
  }

  ghost predicate Sorted(c: Cache) {
    forall i :: 0 <= i < |c.mshr| ==> Channel.Increasing(c.mshr[i].deps) && Channel.Increasing(c.mshr[i].queues)
  }

  ghost predicate Inv(u: Setup, c: Cache) {
    && Shaped(u, c) && |c.mshr| <= u.mshrSize && Distinct(u, c.mshr) && ReturnedFirst(c.mshr) && NotLate(u, c)
    && Awaiting(u, c) && SingleCopies(u, c) && Sorted(c)
    && Delivers(u, c.accepted, c.mshr, c.answers)
  }

  ghost predicate Sound(p: Packet) {
    Channel.Increasing(p.deps) && Channel.Increasing(p.queues)
  }

  // ---------- Delivery ----------

  lemma MoreAccepted(
      u: Setup, accepted: seq<Packet>, p: Packet, address: nat, deps: seq<nat>, queues: seq<nat>, tags: set<nat>)
    requires Speaks(u, accepted, address, deps, queues, tags)
    ensures Speaks(u, accepted + [p], address, deps, queues, tags)
  {
    hide Serves;
    var more := accepted + [p];
    assert forall t :: 0 <= t < |accepted| ==> more[t] == accepted[t];
    forall x | x in deps ensures Depended(more, tags, x) {
      assert Depended(accepted, tags, x);
      var t :| t in tags && t < |accepted| && x in accepted[t].deps;
      assert x in more[t].deps;
    }
    forall q | q in queues ensures Asked(more, tags, q) {
      assert Asked(accepted, tags, q);
      var t :| t in tags && t < |accepted| && q in accepted[t].queues;
      assert q in more[t].queues;
    }
  }

  /** All that speak still do when one more packet is accepted. */
  lemma AllSpeakForMore(u: Setup, accepted: seq<Packet>, mshr: seq<Entry>, answers: seq<Answer>, p: Packet)
    requires Delivers(u, accepted, mshr, answers)
    ensures forall i :: 0 <= i < |mshr| ==> EntrySpeaks(u, accepted + [p], mshr[i])
    ensures forall i :: 0 <= i < |answers| ==> AnswerSpeaks(u, accepted + [p], answers[i])
  {
    hide Speaks, Places;
    forall i | 0 <= i < |mshr| ensures EntrySpeaks(u, accepted + [p], mshr[i]) {
      assert EntrySpeaks(u, accepted, mshr[i]);
      MoreAccepted(u, accepted, p, mshr[i].address, mshr[i].deps, mshr[i].queues, mshr[i].tags);
    }
    forall i | 0 <= i < |answers| ensures AnswerSpeaks(u, accepted + [p], answers[i]) {
      assert AnswerSpeaks(u, accepted, answers[i]);
      MoreAccepted(u, accepted, p, answers[i].address, answers[i].deps, answers[i].queues, answers[i].tags);
    }
  }

  lemma NewSpeaks(u: Setup, accepted: seq<Packet>, p: Packet)
    ensures Speaks(u, accepted + [p], p.address, p.deps, p.queues, {|accepted|})
  {
    hide BlockOf;
    var more, tags := accepted + [p], {|accepted|};
    assert more[|accepted|] == p && |accepted| in tags;
    forall x | x in p.deps ensures Depended(more, tags, x) {
      assert x in more[|accepted|].deps;
    }
    forall q | q in p.queues ensures Asked(more, tags, q) {
      assert q in more[|accepted|].queues;
    }
  }

  lemma OneMoreAnswer(mshr: seq<Entry>, answers: seq<Answer>, a: Answer, t: nat)
    ensures Places(mshr, answers + [a], t) == Places(mshr, answers, t) + Has(a.tags, t)
  {
    hide Times, Has;
    assert AnswerTags(answers + [a]) == AnswerTags(answers) + [a.tags];
    TimesOfSum(AnswerTags(answers), [a.tags], t);
    TimesOfOne(a.tags, t);
  }

  lemma OneMoreEntry(mshr: seq<Entry>, answers: seq<Answer>, e: Entry, t: nat)
    ensures Places(mshr + [e], answers, t) == Places(mshr, answers, t) + Has(e.tags, t)
  {
    hide Times, Has;
    assert EntryTags(mshr + [e]) == EntryTags(mshr) + [e.tags];
    TimesOfSum(EntryTags(mshr), [e.tags], t);
    TimesOfOne(e.tags, t);
  }

  lemma OneEntryLess(mshr: seq<Entry>, answers: seq<Answer>, t: nat)
    requires |mshr| > 0
    ensures Places(mshr, answers, t) == Places(mshr[1..], answers, t) + Has(mshr[0].tags, t)
  {
    hide Times, Has;
    assert EntryTags(mshr) == [mshr[0].tags] + EntryTags(mshr[1..]);
    TimesOfSum([mshr[0].tags], EntryTags(mshr[1..]), t);
    TimesOfOne(mshr[0].tags, t);
  }

  lemma EntryChanged(mshr: seq<Entry>, answers: seq<Answer>, i: nat, e: Entry, t: nat)
    requires i < |mshr|
    ensures Places(mshr[i := e], answers, t) == Places(mshr, answers, t) - Has(mshr[i].tags, t) + Has(e.tags, t)
    ensures Places(mshr, answers, t) >= Has(mshr[i].tags, t)
  {
    hide Times, Has;
    assert EntryTags(mshr[i := e]) == EntryTags(mshr)[i := e.tags];
    TimesUpdate(EntryTags(mshr), i, e.tags, t);
  }

  /** A hit is answered at once. */
  lemma AnswerDelivers(u: Setup, accepted: seq<Packet>, mshr: seq<Entry>, answers: seq<Answer>, p: Packet)
    requires Delivers(u, accepted, mshr, answers)
    ensures Delivers(u, accepted + [p], mshr, answers + [Answer(p.address, p.deps, p.queues, {|accepted|})])
  {
    hide Speaks, Places;
    var a := Answer(p.address, p.deps, p.queues, {|accepted|});
    AllSpeakForMore(u, accepted, mshr, answers, p);
    NewSpeaks(u, accepted, p);
    forall t: nat ensures Places(mshr, answers + [a], t) == if t < |accepted + [p]| then 1 else 0 {
      OneMoreAnswer(mshr, answers, a, t);
    }
  }

  /** A new register stands for its packet. */
  lemma AllocateDelivers(u: Setup, accepted: seq<Packet>, mshr: seq<Entry>, answers: seq<Answer>, p: Packet, now: nat)
    requires Delivers(u, accepted, mshr, answers)
    ensures Delivers(u, accepted + [p], mshr + [NewEntry(p, now, |accepted|)], answers)
  {
    hide Speaks, Places;
    var e := NewEntry(p, now, |accepted|);
    AllSpeakForMore(u, accepted, mshr, answers, p);
    NewSpeaks(u, accepted, p);
    forall t: nat ensures Places(mshr + [e], answers, t) == if t < |accepted + [p]| then 1 else 0 {
      OneMoreEntry(mshr, answers, e, t);
    }
  }

  lemma MergedSpeaks(u: Setup, accepted: seq<Packet>, e: Entry, p: Packet, now: nat)
    requires BlockOf(u, e.address) == BlockOf(u, p.address) && EntrySpeaks(u, accepted + [p], e)
    requires Channel.Increasing(e.deps) && Channel.Increasing(e.queues) && Sound(p)
    ensures EntrySpeaks(u, accepted + [p], MergeEntries(e, NewEntry(p, now, |accepted|)))
  {
    hide BlockOf, MergeEntries, Channel.Increasing;
    var m, more := MergeEntries(e, NewEntry(p, now, |accepted|)), accepted + [p];
    MergeAdds(u, e, p, now, |accepted|);
    assert more[|accepted|] == p && |accepted| in m.tags;
    forall t | t in m.tags ensures t < |more| && Serves(u, m.address, m.deps, m.queues, more[t]) {
      assert t in e.tags ==> Serves(u, e.address, e.deps, e.queues, more[t]);
    }
    forall x | x in m.deps ensures Depended(more, m.tags, x) {
      if x in p.deps {
        assert x in more[|accepted|].deps;
      } else {
        assert Depended(more, e.tags, x);
        var t :| t in e.tags && t < |more| && x in more[t].deps;
        assert t in m.tags;
      }
    }
    forall q | q in m.queues ensures Asked(more, m.tags, q) {
      if q in p.queues {
        assert q in more[|accepted|].queues;
      } else {
        assert Asked(more, e.tags, q);
        var t :| t in e.tags && t < |more| && q in more[t].queues;
        assert t in m.tags;
      }
    }
  }

  /** A register that a packet is merged into stands for it too. */
  lemma MergeDelivers(u: Setup, c: Cache, p: Packet, i: nat)
    requires Delivers(u, c.accepted, c.mshr, c.answers) && Sorted(c) && Sound(p)
    requires i < |c.mshr| && BlockOf(u, c.mshr[i].address) == BlockOf(u, p.address)
    ensures var m := MergeEntries(c.mshr[i], NewEntry(p, c.now, |c.accepted|));
      Delivers(u, c.accepted + [p], c.mshr[i := m], c.answers)
  {
    hide Speaks, Places, BlockOf, MergeEntries, Channel.Increasing;
    var m := MergeEntries(c.mshr[i], NewEntry(p, c.now, |c.accepted|));
    AllSpeakForMore(u, c.accepted, c.mshr, c.answers, p);
    MergeAdds(u, c.mshr[i], p, c.now, |c.accepted|);
    MergedSpeaks(u, c.accepted, c.mshr[i], p, c.now);
    var mshr := c.mshr[i := m];
    forall t: nat ensures Places(mshr, c.answers, t) == if t < |c.accepted + [p]| then 1 else 0 {
      EntryChanged(c.mshr, c.answers, i, m, t);
    }
  }

  /** Registers that change places, and whose ready times change, stand for the same packets. */
  lemma SwapDelivers(u: Setup, c: Cache, i: nat, j: nat, ready: Option<nat>)
    requires Delivers(u, c.accepted, c.mshr, c.answers) && i < |c.mshr| && j < |c.mshr|
    ensures Delivers(u, c.accepted, Swap(c.mshr[i := c.mshr[i].(ready := ready)], i, j), c.answers)
  {
    hide Speaks, Places;
    var e := c.mshr[i].(ready := ready);
    var first := c.mshr[i := e];
    var second := first[i := first[j]];
    var mshr := Swap(first, i, j);
    assert mshr == second[j := first[i]];
    assert EntrySpeaks(u, c.accepted, c.mshr[i]);
    forall t: nat ensures Places(mshr, c.answers, t) == Places(c.mshr, c.answers, t) {
      EntryChanged(c.mshr, c.answers, i, e, t);
      EntryChanged(first, c.answers, i, first[j], t);
      EntryChanged(second, c.answers, j, first[i], t);
    }
  }

  /** A register that is filled is answered. */
  lemma FillDelivers(u: Setup, accepted: seq<Packet>, mshr: seq<Entry>, answers: seq<Answer>)
    requires Delivers(u, accepted, mshr, answers) && |mshr| > 0
    ensures var e := mshr[0];
      Delivers(u, accepted, mshr[1..], answers + [Answer(e.address, e.deps, e.queues, e.tags)])
  {
    hide Speaks, Places;
    var e := mshr[0];
    var a := Answer(e.address, e.deps, e.queues, e.tags);
    assert EntrySpeaks(u, accepted, e);
    assert forall i :: 0 <= i < |mshr[1..]| ==> mshr[1..][i] == mshr[i + 1];
    forall t: nat ensures Places(mshr[1..], answers + [a], t) == if t < |accepted| then 1 else 0 {
      OneMoreAnswer(mshr[1..], answers, a, t);
      OneEntryLess(mshr, answers, t);
    }
  }

  // ---------- Steps ----------

  lemma HitKeeps(u: Setup, c: Cache, p: Packet)
    requires Inv(u, c) && Hits(u, c, p.address)
    ensures Inv(u, Hit(u, c, p))
  {
    hide BlockOf, SetOf, Distinct, ReturnedFirst;
    var d := Hit(u, c, p);
    forall s, w | 0 <= s < |d.sets| && 0 <= w < u.ways ensures BlockOk(u, d, s, w) {
      assert BlockOk(u, c, s, w);
    }
    forall b: nat ensures b in d.pending <==> Awaited(u, d, b) {
      assert b in c.pending <==> Awaited(u, c, b);
    }
    AnswerDelivers(u, c.accepted, c.mshr, c.answers, p);
  }

  /** A merge keeps the block and the returned data of the register and adds the new waiters. */
  lemma MergeAdds(u: Setup, e: Entry, p: Packet, now: nat, tag: nat)
    requires BlockOf(u, e.address) == BlockOf(u, p.address)
    requires Channel.Increasing(e.deps) && Channel.Increasing(e.queues) && Sound(p)
    ensures var m := MergeEntries(e, NewEntry(p, now, tag));
      && BlockOf(u, m.address) == BlockOf(u, e.address) && m.ready == e.ready && m.tags == e.tags + {tag}
      && (forall x :: x in m.deps <==> x in e.deps || x in p.deps)
      && (forall x :: x in m.queues <==> x in e.queues || x in p.queues)
      && Channel.Increasing(m.deps) && Channel.Increasing(m.queues)
  {
    Channel.SetUnionIsUnion(e.deps, p.deps);
    Channel.SetUnionIsUnion(e.queues, p.queues);
  }

  lemma MergeKeeps(u: Setup, c: Cache, p: Packet, i: nat, d: Cache)
    requires Inv(u, c) && Sound(p) && i < |c.mshr| && BlockOf(u, c.mshr[i].address) == BlockOf(u, p.address)
    requires d == c.(mshr := c.mshr[i := MergeEntries(c.mshr[i], NewEntry(p, c.now, |c.accepted|))], accepted := c.accepted + [p])
    ensures Inv(u, d)
  {
    hide BlockOf, SetOf, MergeEntries;
    MergeAdds(u, c.mshr[i], p, c.now, |c.accepted|);
    forall s, w | 0 <= s < |d.sets| && 0 <= w < u.ways ensures BlockOk(u, d, s, w) {
      assert BlockOk(u, c, s, w);
    }
    forall b: nat ensures b in d.pending <==> Awaited(u, d, b) {
      assert b in c.pending <==> Awaited(u, c, b);
      SameAwaited(u, c, d, b);
    }
    MergeDelivers(u, c, p, i);
    assert forall a, b :: 0 <= a < b < |c.mshr| ==> Differ(u, c.mshr[a], c.mshr[b]) && Earlier(c.mshr[a], c.mshr[b]);
  }

  lemma SameAwaited(u: Setup, c: Cache, d: Cache, b: nat)
    requires |d.mshr| == |c.mshr|
    requires forall i :: 0 <= i < |c.mshr| ==>
               BlockOf(u, d.mshr[i].address) == BlockOf(u, c.mshr[i].address) && d.mshr[i].ready == c.mshr[i].ready
    ensures Awaited(u, c, b) <==> Awaited(u, d, b)
  {
    hide BlockOf;
    if i :| 0 <= i < |c.mshr| && BlockOf(u, c.mshr[i].address) == b && c.mshr[i].ready.None? {
      assert BlockOf(u, d.mshr[i].address) == b;
    }
  }

  lemma AllocateKeeps(u: Setup, c: Cache, p: Packet, d: Cache)
    requires Inv(u, c) && Sound(p) && !Hits(u, c, p.address) && |c.mshr| < u.mshrSize
    requires forall i :: 0 <= i < |c.mshr| ==> BlockOf(u, c.mshr[i].address) != BlockOf(u, p.address)
    requires d == c.(mshr := c.mshr + [NewEntry(p, c.now, |c.accepted|)], pending := c.pending + {BlockOf(u, p.address)},
                     accepted := c.accepted + [p])
    ensures Inv(u, d)
  {
    hide BlockOf, LowBits, HitWay;
    forall s, w | 0 <= s < |d.sets| && 0 <= w < u.ways ensures BlockOk(u, d, s, w) {
      assert BlockOk(u, c, s, w);
      NotThere(u, c, p.address, s, w);
    }
    forall b: nat ensures b in d.pending <==> Awaited(u, d, b) {
      assert b in c.pending <==> Awaited(u, c, b);
      OneMoreAwaited(u, c, p, d, b);
    }
    AllocateDelivers(u, c.accepted, c.mshr, c.answers, p, c.now);
  }

  lemma OneMoreAwaited(u: Setup, c: Cache, p: Packet, d: Cache, b: nat)
    requires d.mshr == c.mshr + [NewEntry(p, c.now, |c.accepted|)]
    ensures Awaited(u, d, b) <==> Awaited(u, c, b) || b == BlockOf(u, p.address)
  {
    hide BlockOf;
    if i :| 0 <= i < |c.mshr| && BlockOf(u, c.mshr[i].address) == b && c.mshr[i].ready.None? {
      assert d.mshr[i] == c.mshr[i];
    }
    assert d.mshr[|c.mshr|].address == p.address;
  }

  /** A block that misses its set is in no set. */
  lemma NotThere(u: Setup, c: Cache, address: nat, s: nat, w: nat)
    requires Shaped(u, c) && SingleCopies(u, c) && !Hits(u, c, address) && s < |c.sets| && w < u.ways
    ensures c.sets[s][w].valid ==> BlockOf(u, c.sets[s][w].address) != BlockOf(u, address)
  {
    hide HitWay, LowBits;
    assert BlockOk(u, c, s, w);
    assert !Matches(u, c.sets[SetOf(u, address)][w], address);
  }

  lemma TagCheckKeeps(u: Setup, c: Cache, p: Packet, room: bool)
    requires Inv(u, c) && Sound(p)
    ensures Inv(u, TagCheck(u, c, p, room))
  {
    hide Inv, Hit, Hits;
    InvIsShaped(u, c);
    if Hits(u, c, p.address) {
      HitKeeps(u, c, p);
    } else if CanMiss(u, c, p, room) {
      var i := FindEntry(u, c.mshr, p.address);
      if i < |c.mshr| {
        MergeKeeps(u, c, p, i, Miss(u, c, p));
      } else if WantsResponse(p) {
        AllocateKeeps(u, c, p, Miss(u, c, p));
      }
    }
  }

  lemma InvIsShaped(u: Setup, c: Cache)
    requires Inv(u, c)
    ensures Shaped(u, c) && |c.mshr| <= u.mshrSize
  {
  }

  /** A response for a requested block finds its register, which has not returned yet. */
  lemma ReturnFindsEntry(u: Setup, c: Cache, address: nat)
    requires Inv(u, c) && BlockOf(u, address) in c.pending
    ensures var i, j := FindEntry(u, c.mshr, address), FirstUnreturned(c.mshr);
      j <= i < |c.mshr| && c.mshr[i].ready.None?
  {
    hide BlockOf, SingleCopies;
    assert Awaited(u, c, BlockOf(u, address));
    var k :| 0 <= k < |c.mshr| && BlockOf(u, c.mshr[k].address) == BlockOf(u, address) && c.mshr[k].ready.None?;
    DistinctAt(u, c.mshr, FindEntry(u, c.mshr, address), k);
  }

  lemma DistinctAt(u: Setup, mshr: seq<Entry>, i: nat, k: nat)
    requires Distinct(u, mshr) && i < |mshr| && k < |mshr| && BlockOf(u, mshr[i].address) == BlockOf(u, mshr[k].address)
    ensures i == k
  {
    hide BlockOf;
    assert i < k ==> Differ(u, mshr[i], mshr[k]);
    assert k < i ==> Differ(u, mshr[k], mshr[i]);
  }

  lemma SwapAt(mshr: seq<Entry>, i: nat, j: nat, k: nat)
    requires j <= i < |mshr| && k < |mshr|
    ensures Swap(mshr, i, j)[k] == if k == j then mshr[i] else if k == i then mshr[j] else mshr[k]
  {
  }

  /** After a return the registers before `j` are as they were, the one at `j` is ready last, and the others are not. */
  lemma SwappedReady(mshr: seq<Entry>, i: nat, j: nat, ready: nat, k: nat)
    requires ReturnedFirst(mshr) && j <= i < |mshr| && k < |mshr| && j == FirstUnreturned(mshr)
    ensures Swap(mshr[i := mshr[i].(ready := Some(ready))], i, j)[k].ready
      == if k < j then mshr[k].ready else if k == j then Some(ready) else None
  {
    assert j < k ==> Earlier(mshr[j], mshr[k]);
  }

  lemma SwapKeepsDistinct(u: Setup, mshr: seq<Entry>, i: nat, j: nat, ready: nat)
    requires Distinct(u, mshr) && j <= i < |mshr|
    ensures Distinct(u, Swap(mshr[i := mshr[i].(ready := Some(ready))], i, j))
  {
    hide BlockOf;
    var p := Swap(mshr[i := mshr[i].(ready := Some(ready))], i, j);
    forall a, b | 0 <= a < b < |p| ensures Differ(u, p[a], p[b]) {
      var x, y := if a == j then i else if a == i then j else a, if b == j then i else if b == i then j else b;
      assert p[a].address == mshr[x].address && p[b].address == mshr[y].address;
      assert x < y ==> Differ(u, mshr[x], mshr[y]);
      assert y < x ==> Differ(u, mshr[y], mshr[x]);
    }
  }

  lemma SwapKeepsSorted(mshr: seq<Entry>, i: nat, j: nat, ready: nat)
    requires j <= i < |mshr|
    requires forall k :: 0 <= k < |mshr| ==> Channel.Increasing(mshr[k].deps) && Channel.Increasing(mshr[k].queues)
    ensures var p := Swap(mshr[i := mshr[i].(ready := Some(ready))], i, j);
      forall k :: 0 <= k < |p| ==> Channel.Increasing(p[k].deps) && Channel.Increasing(p[k].queues)
  {
    hide Channel.Increasing;
  }

  /** Where those before `j` return no later than `ready` and those after it have not returned, the order is kept. */
  lemma OrderedByReady(mshr: seq<Entry>, p: seq<Entry>, j: nat, ready: nat)
    requires ReturnedFirst(mshr) && |p| == |mshr| && j < |p|
    requires forall k :: 0 <= k < |p| ==>
               p[k].ready == if k < j then mshr[k].ready else if k == j then Some(ready) else None
    requires forall k :: 0 <= k < j ==> mshr[k].ready.Some? && mshr[k].ready.value <= ready
    ensures ReturnedFirst(p)
  {
    forall a, b | 0 <= a < b < |p| ensures Earlier(p[a], p[b]) {
      assert b < j ==> Earlier(mshr[a], mshr[b]);
    }
  }

  lemma FinishKeepsOrder(u: Setup, c: Cache, address: nat, d: Cache)
    requires Inv(u, c) && BlockOf(u, address) in c.pending
    requires FindEntry(u, c.mshr, address) < |c.mshr| && FirstUnreturned(c.mshr) < |c.mshr|
    requires d == FinishPacket(u, c, address)
    ensures Distinct(u, d.mshr) && ReturnedFirst(d.mshr) && NotLate(u, d) && Sorted(d)
  {
    hide BlockOf, SingleCopies, Channel.Increasing, Distinct, Delivers, Swap, Awaiting, ReturnedFirst;
    ReturnFindsEntry(u, c, address);
    var i, j := FindEntry(u, c.mshr, address), FirstUnreturned(c.mshr);
    var ready := c.now + if c.warmup then 0 else u.fillLatency;
    SwapKeepsDistinct(u, c.mshr, i, j, ready);
    SwapKeepsSorted(c.mshr, i, j, ready);
    forall k | 0 <= k < |d.mshr|
      ensures d.mshr[k].ready == if k < j then c.mshr[k].ready else if k == j then Some(ready) else None
    {
      SwappedReady(c.mshr, i, j, ready, k);
    }
    OrderedByReady(c.mshr, d.mshr, j, ready);
  }

  lemma FinishKeeps(u: Setup, c: Cache, address: nat)
    requires Inv(u, c) && BlockOf(u, address) in c.pending
    ensures FindEntry(u, c.mshr, address) < |c.mshr| && FirstUnreturned(c.mshr) < |c.mshr|
    ensures Inv(u, FinishPacket(u, c, address))
  {
    hide BlockOf, SetOf, Channel.Increasing, Distinct, ReturnedFirst, NotLate, Sorted, Delivers, Swap, FindEntry, FirstUnreturned;
    ReturnFindsEntry(u, c, address);
    var i, j, d := FindEntry(u, c.mshr, address), FirstUnreturned(c.mshr), FinishPacket(u, c, address);
    FinishKeepsOrder(u, c, address, d);
    var e := c.mshr[i].(ready := Some(c.now + if c.warmup then 0 else u.fillLatency));
    forall k: nat | k < |c.mshr|
      ensures d.mshr[k] == if k == j then e else if k == i then c.mshr[j] else c.mshr[k]
    {
      SwapAt(c.mshr[i := e], i, j, k);
    }
    forall s, w | 0 <= s < |d.sets| && 0 <= w < u.ways ensures BlockOk(u, d, s, w) {
      assert BlockOk(u, c, s, w);
    }
    forall b: nat ensures b in d.pending <==> Awaited(u, d, b) {
      assert b in c.pending <==> Awaited(u, c, b);
      ReturnedAwaited(u, c, address, d, i, j, b);
    }
    SwapDelivers(u, c, i, j, e.ready);
  }

  lemma ReturnedAwaited(u: Setup, c: Cache, address: nat, d: Cache, i: nat, j: nat, b: nat)
    requires Distinct(u, c.mshr) && |d.mshr| == |c.mshr| && j <= i < |c.mshr| && d.mshr[j].ready.Some?
    requires BlockOf(u, c.mshr[i].address) == BlockOf(u, address)
    requires forall k :: 0 <= k < |c.mshr| && k != j ==> d.mshr[k] == if k == i then c.mshr[j] else c.mshr[k]
    ensures Awaited(u, d, b) <==> Awaited(u, c, b) && b != BlockOf(u, address)
  {
    hide BlockOf;
    if k :| 0 <= k < |d.mshr| && BlockOf(u, d.mshr[k].address) == b && d.mshr[k].ready.None? {
      var x := if k == i then j else k;
      assert d.mshr[k] == c.mshr[x];
      assert x < i ==> Differ(u, c.mshr[x], c.mshr[i]);
      assert i < x ==> Differ(u, c.mshr[i], c.mshr[x]);
    }
    if k :| 0 <= k < |c.mshr| && BlockOf(u, c.mshr[k].address) == b && c.mshr[k].ready.None? {
      if b != BlockOf(u, address) {
        assert k != i;
        var x := if k == j then i else k;
        assert d.mshr[x] == c.mshr[k];
      }
    }
  }

  lemma FillKeepsBlocks(u: Setup, c: Cache, victim: nat)
    requires Inv(u, c) && victim <= u.ways && |c.mshr| > 0
    ensures Shaped(u, Fill(u, c, victim)) && SingleCopies(u, Fill(u, c, victim))
  {
    hide BlockOf, LowBits, Awaiting, Channel.Increasing, FillWay;
    var d, e := Fill(u, c, victim), c.mshr[0];
    var t := SetOf(u, e.address);
    forall s, w | 0 <= s < |d.sets| && 0 <= w < u.ways ensures BlockOk(u, d, s, w) {
      assert BlockOk(u, c, s, w);
      forall i | 0 <= i < |d.mshr| ensures BlockOf(u, d.mshr[i].address) != BlockOf(u, e.address) {
        assert Differ(u, c.mshr[0], c.mshr[i + 1]);
      }
      forall v | 0 <= v < u.ways ensures !Matches(u, c.sets[s][v], e.address) {
        assert BlockOk(u, c, s, v);
      }
      assert forall i :: 0 <= i < |d.mshr| ==> d.mshr[i] == c.mshr[i + 1];
    }
  }

  lemma FillKeeps(u: Setup, c: Cache, victim: nat)
    requires Inv(u, c) && victim <= u.ways && |c.mshr| > 0 && c.mshr[0].ready.Some?
    ensures Inv(u, Fill(u, c, victim))
  {
    hide BlockOf, SetOf, Channel.Increasing, SingleCopies, FillWay;
    var d, e := Fill(u, c, victim), c.mshr[0];
    FillKeepsBlocks(u, c, victim);
    assert forall i :: 0 <= i < |d.mshr| ==> d.mshr[i] == c.mshr[i + 1];
    forall i, j | 0 <= i < j < |d.mshr| ensures Differ(u, d.mshr[i], d.mshr[j]) && Earlier(d.mshr[i], d.mshr[j]) {
      assert Differ(u, c.mshr[i + 1], c.mshr[j + 1]) && Earlier(c.mshr[i + 1], c.mshr[j + 1]);
    }
    forall b: nat ensures b in d.pending <==> Awaited(u, d, b) {
      assert b in c.pending <==> Awaited(u, c, b);
      FrontAwaited(u, c, d, b);
    }
    FillDelivers(u, c.accepted, c.mshr, c.answers);
  }

  lemma FrontAwaited(u: Setup, c: Cache, d: Cache, b: nat)
    requires |c.mshr| > 0 && c.mshr[0].ready.Some? && d.mshr == c.mshr[1..]
    ensures Awaited(u, c, b) <==> Awaited(u, d, b)
  {
    hide BlockOf;
    if i :| 0 <= i < |c.mshr| && BlockOf(u, c.mshr[i].address) == b && c.mshr[i].ready.None? {
      assert d.mshr[i - 1] == c.mshr[i];
    }
  }

  lemma {:induction false} FillReadyKeeps(u: Setup, c: Cache, choices: seq<Choice>)
    requires Inv(u, c) && Choices(u, choices)
    ensures Inv(u, FillReady(u, c, choices))
    decreases |choices|
  {
    hide Inv, Fill;
    InvIsShaped(u, c);
    if |choices| > 0 && CanFill(u, c, choices[0].victim, choices[0].room) {
      FillKeeps(u, c, choices[0].victim);
      InvIsShaped(u, Fill(u, c, choices[0].victim));
      FillReadyKeeps(u, Fill(u, c, choices[0].victim), choices[1..]);
    }
  }

  // ---------- Runs ----------

  datatype Event =
    | Tick(elapsed: nat)
    | EndWarmup
    | Returning(address: nat)
    | Filling(choices: seq<Choice>)
    | Checking(packet: Packet, room: bool)

  /** The lower level answers what it was asked, once; packets come with ordered dependents and queues. */
  ghost predicate Enabled(u: Setup, c: Cache, e: Event) {
    match e
    case Returning(address) => BlockOf(u, address) in c.pending
    case Filling(choices) => Choices(u, choices)
    case Checking(p, _) => Sound(p)
    case _ => true
  }

  function Step(u: Setup, c: Cache, e: Event): Cache
    requires Inv(u, c) && Enabled(u, c, e)
  {
    match e
    case Tick(elapsed) => c.(now := c.now + elapsed)
    case EndWarmup => c.(warmup := false)
    case Returning(address) =>
      ReturnFindsEntry(u, c, address);
      FinishPacket(u, c, address)
    case Filling(choices) => FillReady(u, c, choices)
    case Checking(p, room) => TagCheck(u, c, p, room)
  }

  lemma TimeKeeps(u: Setup, c: Cache, d: Cache)
    requires Inv(u, c) && d == c.(now := d.now, warmup := d.warmup) && d.now >= c.now && (d.warmup ==> c.warmup)
    ensures Inv(u, d)
  {
    hide BlockOf, SetOf, Channel.Increasing, Distinct, ReturnedFirst;
    forall s, w | 0 <= s < |d.sets| && 0 <= w < u.ways ensures BlockOk(u, d, s, w) {
      assert BlockOk(u, c, s, w);
    }
    forall b: nat ensures b in d.pending <==> Awaited(u, d, b) {
      assert b in c.pending <==> Awaited(u, c, b);
      SameAwaited(u, c, d, b);
    }
  }

  lemma StepKeeps(u: Setup, c: Cache, e: Event)
    requires Inv(u, c) && Enabled(u, c, e)
    ensures Inv(u, Step(u, c, e))
  {
    hide Inv, FinishPacket, FillReady, TagCheck, Sound;
    match e
    case Tick(_) => TimeKeeps(u, c, Step(u, c, e));
    case EndWarmup => TimeKeeps(u, c, Step(u, c, e));
    case Returning(address) => FinishKeeps(u, c, address);
    case Filling(choices) => FillReadyKeeps(u, c, choices);
    case Checking(p, room) => TagCheckKeeps(u, c, p, room);
  }

  /** Events that are not enabled do not happen. */
  ghost function Run(u: Setup, c: Cache, events: seq<Event>): (d: Cache)
    requires Inv(u, c)
    ensures Inv(u, d)
    decreases |events|
  {
    if |events| == 0 then c
    else if !Enabled(u, c, events[0]) then Run(u, c, events[1..])
    else
      StepKeeps(u, c, events[0]);
      Run(u, Step(u, c, events[0]), events[1..])
  }

  function Start(u: Setup, warmup: bool): (c: Cache)
    ensures Inv(u, c)
  {
    var empty := Block(false, false, false, 0);
    var c := Cache(seq(Pow2(u.setBits), _ => seq(u.ways, _ => empty)), [], {}, 0, warmup, [], []);
    StartOk(u, c);
    c
  }

  lemma StartOk(u: Setup, c: Cache)
    requires Shaped(u, c) && c.mshr == [] && c.pending == {} && c.accepted == [] && c.answers == []
    requires forall s, w :: 0 <= s < |c.sets| && 0 <= w < u.ways ==> !c.sets[s][w].valid
    ensures Inv(u, c)
  {
    hide BlockOf, SetOf;
    forall s, w | 0 <= s < |c.sets| && 0 <= w < u.ways ensures BlockOk(u, c, s, w) {
    }
  }

  // ---------- Main results ----------

  /**
   * In every run the miss registers are for distinct blocks and no more than there are; the returned
   * ones come first, in the order in which they become ready; and a response to a request finds a
   * register that has not returned.
   */
  ghost predicate OrderlyRegisters(u: Setup, c: Cache, i: nat, j: nat, address: nat) {
    && |c.mshr| <= u.mshrSize
    && (i < j < |c.mshr| ==>
          && BlockOf(u, c.mshr[i].address) != BlockOf(u, c.mshr[j].address)
          && (c.mshr[j].ready.Some? ==>
                c.mshr[i].ready.Some? && c.mshr[i].ready.value <= c.mshr[j].ready.value))
    && (BlockOf(u, address) in c.pending ==>
          var k := FindEntry(u, c.mshr, address); k < |c.mshr| && c.mshr[k].ready.None?)
  }

  lemma RegistersStayOrderly(u: Setup, warmup: bool, events: seq<Event>, i: nat, j: nat, address: nat)
    ensures OrderlyRegisters(u, Run(u, Start(u, warmup), events), i, j, address)
  {
    hide Run, Start, BlockOf, SingleCopies;
    var c := Run(u, Start(u, warmup), events);
    if BlockOf(u, address) in c.pending {
      ReturnFindsEntry(u, c, address);
    }
    assert i < j < |c.mshr| ==> Differ(u, c.mshr[i], c.mshr[j]) && Earlier(c.mshr[i], c.mshr[j]);
  }

  /** In every run a block is valid in at most one way of the whole cache, and never while it has a register. */
  lemma BlocksHaveOneCopy(u: Setup, warmup: bool, events: seq<Event>, s: nat, w: nat, t: nat, v: nat, i: nat)
    ensures var c := Run(u, Start(u, warmup), events);
      s < |c.sets| && w < |c.sets[s]| && c.sets[s][w].valid ==>
        && (t < |c.sets| && v < |c.sets[t]| && Matches(u, c.sets[t][v], c.sets[s][w].address) ==> t == s && v == w)
        && (i < |c.mshr| ==> BlockOf(u, c.mshr[i].address) != BlockOf(u, c.sets[s][w].address))
  {
    hide Run, Start, LowBits, Distinct, ReturnedFirst, Awaiting;
    var c := Run(u, Start(u, warmup), events);
    if s < |c.sets| && w < |c.sets[s]| && c.sets[s][w].valid {
      assert BlockOk(u, c, s, w);
      if t < |c.sets| && v < |c.sets[t]| && c.sets[t][v].valid {
        assert BlockOk(u, c, t, v);
      }
    }
  }

  /**
   * In every run each packet that hit or was taken on as a miss is in exactly one register or has
   * been answered exactly once; a register or a response is for the block of each packet it names,
   * with its dependents and return queues, and with no others.
   */
  lemma PacketsAreAnsweredOnce(u: Setup, warmup: bool, events: seq<Event>, t: nat)
    ensures var c := Run(u, Start(u, warmup), events);
      && Times(EntryTags(c.mshr), t) + Times(AnswerTags(c.answers), t) == (if t < |c.accepted| then 1 else 0)
      && (forall i :: 0 <= i < |c.mshr| ==> EntrySpeaks(u, c.accepted, c.mshr[i]))
      && (forall i :: 0 <= i < |c.answers| ==> AnswerSpeaks(u, c.accepted, c.answers[i]))
  {
    hide Run, Start, BlockOf, SingleCopies, Distinct, ReturnedFirst, Awaiting, Speaks, Times;
    var c := Run(u, Start(u, warmup), events);
    assert Places(c.mshr, c.answers, t) == if t < |c.accepted| then 1 else 0;
  }
}
