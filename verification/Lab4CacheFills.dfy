/**
 * What the cache holds: what a fill installs and evicts, which blocks hit after a run, when a block
 * is dirty, which packets are refused, and that every packet taken on can be answered.
 */
module MissCacheFills {
  import opened Collections
  import opened Powers
  import opened Tallies
  import opened MissCache
  import Channel

  // ---------- Addresses ----------

  /** The block of an address drops the offset; its set is the block number modulo the number of sets. */
  lemma BlockAndSet(u: Setup, address: nat)
    ensures BlockOf(u, address) == address / Pow2(u.offsetBits)
    ensures SetOf(u, address) == address / Pow2(u.offsetBits) % Pow2(u.setBits)
  {
    ShrDivides(address, u.offsetBits);
    LowBitsRemain(BlockOf(u, address), u.setBits);
  }

  /** Whether a block is in some way of its set. */
  ghost predicate Present(u: Setup, c: Cache, address: nat)
    requires Shaped(u, c)
  {
    exists w :: 0 <= w < u.ways && Matches(u, c.sets[SetOf(u, address)][w], address)
  }

  lemma HitsIffPresent(u: Setup, c: Cache, address: nat)
    requires Shaped(u, c)
    ensures Hits(u, c, address) <==> Present(u, c, address)
  {
    hide Matches, SetOf;
  }

  // ---------- One fill ----------

  predicate Full(row: seq<Block>) {
    forall w :: 0 <= w < |row| ==> row[w].valid
  }

  /** A fill takes the first invalid way, and the victim's only if the set is full. */
  lemma {:induction false} FirstInvalidIs(row: seq<Block>)
    ensures var w := FirstInvalid(row);
      && (w == |row| <==> Full(row))
      && (w < |row| ==> !row[w].valid && forall k :: 0 <= k < w ==> row[k].valid)
  {
    if |row| > 0 && row[0].valid {
      FirstInvalidIs(row[1..]);
      assert forall k :: 1 <= k < |row| ==> row[k] == row[1..][k - 1];
    }
  }

  /** The way the fill of the front register takes; the number of ways if it bypasses the cache. */
  function WayTaken(u: Setup, c: Cache, victim: nat): (w: nat)
    requires Shaped(u, c) && victim <= u.ways && |c.mshr| > 0
    ensures w <= u.ways
  {
    FillWay(c.sets[SetOf(u, c.mshr[0].address)], victim)
  }

  /** The block is evicted: it lies in the way taken of a full set. */
  predicate Evicted(u: Setup, c: Cache, victim: nat, address: nat)
    requires Shaped(u, c) && victim <= u.ways && |c.mshr| > 0
  {
    var s := SetOf(u, c.mshr[0].address);
    Full(c.sets[s]) && victim < u.ways && Matches(u, c.sets[s][victim], address)
  }

  /**
   * After a fill exactly those blocks hit that hit before and are not evicted, and the filled one
   * unless the fill bypasses the cache, which it does exactly if the set is full and no victim is named.
   */
  lemma FillInstalls(u: Setup, c: Cache, victim: nat, address: nat)
    requires Inv(u, c) && victim <= u.ways && |c.mshr| > 0
    ensures Shaped(u, c) && Shaped(u, Fill(u, c, victim))
    ensures var d, e := Fill(u, c, victim), c.mshr[0];
      var bypass := Full(c.sets[SetOf(u, e.address)]) && victim == u.ways;
      && !Hits(u, c, e.address)
      && (Hits(u, d, address) <==>
            || (BlockOf(u, address) == BlockOf(u, e.address) && !bypass)
            || (Hits(u, c, address) && !Evicted(u, c, victim, address)))
  {
    hide BlockOf, LowBits, FillWay, HitWay, Awaiting, Delivers, Sorted, MissCache.Distinct, ReturnedFirst, Hits, Full;
    var d, e := Fill(u, c, victim), c.mshr[0];
    var s, w := SetOf(u, e.address), WayTaken(u, c, victim);
    FillKeepsBlocks(u, c, victim);
    HitsIffPresent(u, c, e.address);
    HitsIffPresent(u, c, address);
    HitsIffPresent(u, d, address);
    WayTakenIs(u, c, victim);
    forall v | 0 <= v < u.ways ensures !Matches(u, c.sets[s][v], e.address) {
      assert BlockOk(u, c, s, v);
    }
    if w < u.ways {
      assert d.sets[s][w] == Filled(e);
      InstalledPresence(u, c, d, s, w, e, address);
    }
  }

  lemma WayTakenIs(u: Setup, c: Cache, victim: nat)
    requires Shaped(u, c) && victim <= u.ways && |c.mshr| > 0
    ensures var row, w := c.sets[SetOf(u, c.mshr[0].address)], WayTaken(u, c, victim);
      && (Full(row) ==> w == victim) && (!Full(row) ==> w < u.ways && !row[w].valid)
  {
    hide SetOf;
    FirstInvalidIs(c.sets[SetOf(u, c.mshr[0].address)]);
  }

  /** Presence after one block of one way is replaced. */
  lemma InstalledPresence(u: Setup, c: Cache, d: Cache, s: nat, w: nat, e: Entry, address: nat)
    requires Shaped(u, c) && Shaped(u, d) && SingleCopies(u, c) && s == SetOf(u, e.address) && w < u.ways
    requires d.sets == c.sets[s := c.sets[s][w := Filled(e)]]
    ensures Present(u, d, address) <==>
      BlockOf(u, address) == BlockOf(u, e.address) || (Present(u, c, address) && !Matches(u, c.sets[s][w], address))
  {
    hide BlockOf, LowBits;
    var t := SetOf(u, address);
    if BlockOf(u, address) == BlockOf(u, e.address) {
      assert t == s && Matches(u, d.sets[s][w], address);
    } else if Present(u, c, address) {
      var v :| 0 <= v < u.ways && Matches(u, c.sets[t][v], address);
      if Matches(u, c.sets[s][w], address) {
        assert BlockOk(u, c, s, w);
        assert t == s;
      } else {
        assert Matches(u, d.sets[t][v], address);
      }
    }
    if Present(u, d, address) && BlockOf(u, address) != BlockOf(u, e.address) {
      var v :| 0 <= v < u.ways && Matches(u, d.sets[t][v], address);
      assert Matches(u, c.sets[t][v], address);
    }
  }

  /** The block a fill installs is dirty exactly if its register was for a write; the other blocks stay as they are. */
  lemma FillChangesOneBlock(u: Setup, c: Cache, victim: nat, s: nat, w: nat)
    requires Inv(u, c) && victim <= u.ways && |c.mshr| > 0
    ensures Shaped(u, c)
    ensures var d, e := Fill(u, c, victim), c.mshr[0];
      s < |c.sets| && w < u.ways ==>
        && |d.sets| == |c.sets| && |d.sets[s]| == u.ways
        && d.sets[s][w] == if s == SetOf(u, e.address) && w == WayTaken(u, c, victim)
                           then Block(true, e.kind == Write, e.fromHere, e.address) else c.sets[s][w]
  {
    hide BlockOf, SetOf, FillWay, Awaiting, Delivers, Sorted, MissCache.Distinct, ReturnedFirst, SingleCopies;
  }

  /**
   * The fill phase answers registers from the front that are due, in order, and stops at the first
   * that is not due, or whose dirty victim the lower level does not take, or when the bandwidth is used.
   */
  lemma {:induction false} FillsDuePrefix(u: Setup, c: Cache, choices: seq<Choice>) returns (k: nat)
    requires Shaped(u, c) && Choices(u, choices)
    ensures var d := FillReady(u, c, choices);
      && k <= |choices| && k <= |c.mshr| && d.mshr == c.mshr[k..]
      && (forall i :: 0 <= i < k ==> c.mshr[i].ready.Some? && c.mshr[i].ready.value <= c.now)
      && (k < |choices| && k < |c.mshr| && c.mshr[k].ready.Some? && c.mshr[k].ready.value <= c.now ==>
            var w := WayTaken(u, d, choices[k].victim);
            w < u.ways && !choices[k].room
            && d.sets[SetOf(u, c.mshr[k].address)][w].valid && d.sets[SetOf(u, c.mshr[k].address)][w].dirty)
    decreases |choices|
  {
    hide FillWay, SetOf;
    k := 0;
    if |choices| > 0 && CanFill(u, c, choices[0].victim, choices[0].room) {
      k := FillsDuePrefix(u, Fill(u, c, choices[0].victim), choices[1..]);
      assert forall i :: 1 <= i < |c.mshr| ==> c.mshr[i] == c.mshr[1..][i - 1];
      k := k + 1;
    }
  }

  // ---------- What a run has put into the cache ----------

  /** A fill of a way, or a hit of a packet on a block. */
  datatype Note = FillOf(s: nat, w: nat, block: nat, write: bool) | HitOn(block: nat, write: bool)

  /** The note that a fill leaves; a bypass leaves none. */
  function NoteOfFill(u: Setup, c: Cache, victim: nat): seq<Note>
    requires Shaped(u, c) && victim <= u.ways && |c.mshr| > 0
  {
    var e, w := c.mshr[0], WayTaken(u, c, victim);
    if w == u.ways then [] else [FillOf(SetOf(u, e.address), w, BlockOf(u, e.address), e.kind == Write)]
  }

  function NotesOfFills(u: Setup, c: Cache, choices: seq<Choice>): seq<Note>
    requires Shaped(u, c) && Choices(u, choices)
    decreases |choices|
  {
    if |choices| == 0 || !CanFill(u, c, choices[0].victim, choices[0].room) then []
    else NoteOfFill(u, c, choices[0].victim) + NotesOfFills(u, Fill(u, c, choices[0].victim), choices[1..])
  }

  function NotesOf(u: Setup, c: Cache, e: Event): seq<Note>
    requires Shaped(u, c) && (e.Filling? ==> Choices(u, e.choices))
  {
    match e
    case Filling(choices) => NotesOfFills(u, c, choices)
    case Checking(p, _) => if Hits(u, c, p.address) then [HitOn(BlockOf(u, p.address), p.kind == Write)] else []
    case _ => []
  }

  /** The notes of a run, oldest first. */
  ghost function Notes(u: Setup, c: Cache, events: seq<Event>): seq<Note>
    requires Inv(u, c)
    decreases |events|
  {
    if |events| == 0 then []
    else if !Enabled(u, c, events[0]) then Notes(u, c, events[1..])
    else
      StepKeeps(u, c, events[0]);
      NotesOf(u, c, events[0]) + Notes(u, Step(u, c, events[0]), events[1..])
  }

  /** Note `i` is the last fill of a way. */
  predicate LastFill(notes: seq<Note>, i: nat, s: nat, w: nat) {
    && i < |notes| && notes[i].FillOf? && notes[i].s == s && notes[i].w == w
    && forall k :: i < k < |notes| && notes[k].FillOf? ==> notes[k].s != s || notes[k].w != w
  }

  /** The block was written by the fill or by a hit since. */
  ghost predicate WrittenSince(notes: seq<Note>, i: nat)
    requires i < |notes| && notes[i].FillOf?
  {
    notes[i].write || exists k :: i < k < |notes| && notes[k].HitOn? && notes[k].write && notes[k].block == notes[i].block
  }

  /** A way holds what its last fill put there, dirty exactly if written since, and nothing if there was none. */
  ghost predicate WayIs(u: Setup, b: Block, notes: seq<Note>, s: nat, w: nat) {
    && (!b.valid ==> forall i: nat :: !LastFill(notes, i, s, w))
    && (b.valid ==> exists i: nat :: LastFill(notes, i, s, w) && notes[i].block == BlockOf(u, b.address)
                                     && (b.dirty <==> WrittenSince(notes, i)))
  }

  ghost predicate Noted(u: Setup, c: Cache, notes: seq<Note>)
    requires Shaped(u, c)
  {
    forall s, w :: 0 <= s < |c.sets| && 0 <= w < u.ways ==> WayIs(u, c.sets[s][w], notes, s, w)
  }

  /** A note that neither fills this way nor writes its block changes nothing for it. */
  lemma WayStays(u: Setup, b: Block, notes: seq<Note>, n: Note, s: nat, w: nat)
    requires WayIs(u, b, notes, s, w)
    requires n.FillOf? ==> n.s != s || n.w != w
    requires n.HitOn? && n.write ==> !b.valid || n.block != BlockOf(u, b.address)
    ensures WayIs(u, b, notes + [n], s, w)
  {
    hide BlockOf;
    var more := notes + [n];
    forall i: nat ensures LastFill(more, i, s, w) <==> LastFill(notes, i, s, w) {
      LastFillStays(notes, n, i, s, w);
    }
    if b.valid {
      var i: nat :| LastFill(notes, i, s, w) && notes[i].block == BlockOf(u, b.address) && (b.dirty <==> WrittenSince(notes, i));
      WrittenStays(notes, n, i);
    }
  }

  lemma LastFillStays(notes: seq<Note>, n: Note, i: nat, s: nat, w: nat)
    requires n.FillOf? ==> n.s != s || n.w != w
    ensures LastFill(notes + [n], i, s, w) <==> LastFill(notes, i, s, w)
  {
    var more := notes + [n];
    assert forall k :: 0 <= k < |notes| ==> more[k] == notes[k];
  }

  lemma WrittenStays(notes: seq<Note>, n: Note, i: nat)
    requires i < |notes| && notes[i].FillOf?
    requires n.HitOn? && n.write ==> n.block != notes[i].block
    ensures WrittenSince(notes + [n], i) <==> WrittenSince(notes, i)
  {
    var more := notes + [n];
    assert forall k :: 0 <= k < |notes| ==> more[k] == notes[k];
  }

  /** A fill of the way puts its block there. */
  lemma WayFilled(u: Setup, b: Block, notes: seq<Note>, s: nat, w: nat)
    requires b.valid
    ensures WayIs(u, b, notes + [FillOf(s, w, BlockOf(u, b.address), b.dirty)], s, w)
  {
    hide BlockOf;
    var more := notes + [FillOf(s, w, BlockOf(u, b.address), b.dirty)];
    assert LastFill(more, |notes|, s, w);
  }

  /** A hit makes the block dirty if it writes. */
  lemma WayHit(u: Setup, b: Block, d: Block, notes: seq<Note>, write: bool, s: nat, w: nat)
    requires WayIs(u, b, notes, s, w) && b.valid && d.valid && d.address == b.address && d.dirty == (b.dirty || write)
    ensures WayIs(u, d, notes + [HitOn(BlockOf(u, b.address), write)], s, w)
  {
    hide BlockOf;
    var n := HitOn(BlockOf(u, b.address), write);
    var more := notes + [n];
    var i: nat :| LastFill(notes, i, s, w) && notes[i].block == BlockOf(u, b.address) && (b.dirty <==> WrittenSince(notes, i));
    LastFillStays(notes, n, i, s, w);
    if write {
      assert more[|notes|] == n;
    } else {
      WrittenStays(notes, n, i);
    }
  }

  lemma FillNotes(u: Setup, c: Cache, victim: nat, notes: seq<Note>)
    requires Inv(u, c) && victim <= u.ways && |c.mshr| > 0 && Shaped(u, c) && Noted(u, c, notes)
    ensures Shaped(u, Fill(u, c, victim)) && Noted(u, Fill(u, c, victim), notes + NoteOfFill(u, c, victim))
  {
    hide Inv, WayIs, BlockOf, SetOf, FillWay;
    var d, e := Fill(u, c, victim), c.mshr[0];
    var n := NoteOfFill(u, c, victim);
    FillShape(u, c, victim);
    forall s, w | 0 <= s < |d.sets| && 0 <= w < u.ways ensures WayIs(u, d.sets[s][w], notes + n, s, w) {
      assert WayIs(u, c.sets[s][w], notes, s, w);
      FillChangesOneBlock(u, c, victim, s, w);
      if n == [] {
        assert notes + n == notes;
      } else if s == SetOf(u, e.address) && w == WayTaken(u, c, victim) {
        WayFilled(u, d.sets[s][w], notes, s, w);
      } else {
        WayStays(u, c.sets[s][w], notes, n[0], s, w);
      }
    }
  }

  lemma FillShape(u: Setup, c: Cache, victim: nat)
    requires Inv(u, c) && victim <= u.ways && |c.mshr| > 0
    ensures Shaped(u, c) && Shaped(u, Fill(u, c, victim)) && |Fill(u, c, victim).sets| == |c.sets|
  {
    hide BlockOf, SetOf, FillWay, Awaiting, Delivers, Sorted, MissCache.Distinct, ReturnedFirst, SingleCopies;
  }

  lemma {:induction false} FillsNote(u: Setup, c: Cache, choices: seq<Choice>, notes: seq<Note>)
    requires Inv(u, c) && Choices(u, choices) && Shaped(u, c) && Noted(u, c, notes)
    ensures Noted(u, FillReady(u, c, choices), notes + NotesOfFills(u, c, choices))
    decreases |choices|
  {
    hide Inv, Fill, Noted, NoteOfFill;
    if |choices| > 0 && CanFill(u, c, choices[0].victim, choices[0].room) {
      FillKeeps(u, c, choices[0].victim);
      FillNotes(u, c, choices[0].victim, notes);
      FillsNote(u, Fill(u, c, choices[0].victim), choices[1..], notes + NoteOfFill(u, c, choices[0].victim));
      var rest := NotesOfFills(u, Fill(u, c, choices[0].victim), choices[1..]);
      assert notes + NoteOfFill(u, c, choices[0].victim) + rest == notes + (NoteOfFill(u, c, choices[0].victim) + rest);
    } else {
      assert notes + NotesOfFills(u, c, choices) == notes;
    }
  }

  lemma HitNotes(u: Setup, c: Cache, p: Packet, notes: seq<Note>)
    requires Inv(u, c) && Shaped(u, c) && Hits(u, c, p.address) && Noted(u, c, notes)
    ensures Shaped(u, Hit(u, c, p)) && Noted(u, Hit(u, c, p), notes + [HitOn(BlockOf(u, p.address), p.kind == Write)])
  {
    hide WayIs, BlockOf, LowBits, Awaiting, Delivers, Sorted, MissCache.Distinct, ReturnedFirst;
    var d, n := Hit(u, c, p), HitOn(BlockOf(u, p.address), p.kind == Write);
    var t := SetOf(u, p.address);
    var v := HitWay(u, c.sets[t], p.address);
    forall s, w | 0 <= s < |d.sets| && 0 <= w < u.ways ensures WayIs(u, d.sets[s][w], notes + [n], s, w) {
      assert WayIs(u, c.sets[s][w], notes, s, w);
      assert BlockOk(u, c, s, w);
      if s == t && w == v {
        WayHit(u, c.sets[s][w], d.sets[s][w], notes, p.kind == Write, s, w);
      } else {
        assert BlockOk(u, c, t, v);
        WayStays(u, c.sets[s][w], notes, n, s, w);
      }
    }
  }

  lemma StepNotes(u: Setup, c: Cache, e: Event, notes: seq<Note>)
    requires Inv(u, c) && Enabled(u, c, e) && Shaped(u, c) && Noted(u, c, notes)
    ensures Shaped(u, Step(u, c, e)) && Noted(u, Step(u, c, e), notes + NotesOf(u, c, e))
  {
    hide Inv, WayIs, FillReady, Hits, Hit, Swap, FindEntry, FirstUnreturned, BlockOf;
    StepKeeps(u, c, e);
    InvIsShaped(u, Step(u, c, e));
    match e
    case Filling(choices) => FillsNote(u, c, choices, notes);
    case Checking(p, room) =>
      if Hits(u, c, p.address) {
        HitNotes(u, c, p, notes);
      } else {
        assert notes + NotesOf(u, c, e) == notes;
      }
    case _ => assert notes + NotesOf(u, c, e) == notes;
  }

  lemma {:induction false} RunNotes(u: Setup, c: Cache, events: seq<Event>, notes: seq<Note>)
    requires Inv(u, c) && Shaped(u, c) && Noted(u, c, notes)
    ensures Shaped(u, Run(u, c, events)) && Noted(u, Run(u, c, events), notes + Notes(u, c, events))
    decreases |events|
  {
    hide Inv, Noted, Step, NotesOf, Enabled;
    if |events| == 0 {
      assert notes + Notes(u, c, events) == notes;
    } else if !Enabled(u, c, events[0]) {
      RunNotes(u, c, events[1..], notes);
    } else {
      StepKeeps(u, c, events[0]);
      EnabledChoices(u, c, events[0]);
      StepNotes(u, c, events[0], notes);
      RunNotes(u, Step(u, c, events[0]), events[1..], notes + NotesOf(u, c, events[0]));
      var rest := Notes(u, Step(u, c, events[0]), events[1..]);
      assert notes + NotesOf(u, c, events[0]) + rest == notes + (NotesOf(u, c, events[0]) + rest);
    }
  }

  /** The block was filled into a way that no later fill took. */
  ghost predicate Remains(notes: seq<Note>, block: nat, i: nat) {
    && i < |notes| && notes[i].FillOf? && notes[i].block == block
    && forall k :: i < k < |notes| && notes[k].FillOf? ==> notes[k].s != notes[i].s || notes[k].w != notes[i].w
  }

  lemma {:induction false} FillsAreInSets(u: Setup, c: Cache, choices: seq<Choice>, k: nat)
    requires Shaped(u, c) && Choices(u, choices) && k < |NotesOfFills(u, c, choices)|
    ensures var n := NotesOfFills(u, c, choices)[k]; n.FillOf? && n.s == n.block % Pow2(u.setBits) && n.w < u.ways
    decreases |choices|
  {
    hide BlockOf, FillWay;
    var first := NoteOfFill(u, c, choices[0].victim);
    if k < |first| {
      LowBitsRemain(BlockOf(u, c.mshr[0].address), u.setBits);
    } else {
      FillsAreInSets(u, Fill(u, c, choices[0].victim), choices[1..], k - |first|);
    }
  }

  lemma {:induction false} NotedFillsAreInSets(u: Setup, c: Cache, events: seq<Event>, k: nat)
    requires Inv(u, c) && k < |Notes(u, c, events)|
    ensures var n := Notes(u, c, events)[k]; n.FillOf? ==> n.s == n.block % Pow2(u.setBits) && n.w < u.ways
    decreases |events|
  {
    hide Inv, Step, Enabled, NotesOfFills, Hits;
    if !Enabled(u, c, events[0]) {
      NotedFillsAreInSets(u, c, events[1..], k);
    } else {
      StepKeeps(u, c, events[0]);
      InvIsShaped(u, c);
      EnabledChoices(u, c, events[0]);
      var first := NotesOf(u, c, events[0]);
      if k >= |first| {
        NotedFillsAreInSets(u, Step(u, c, events[0]), events[1..], k - |first|);
      } else if events[0].Filling? {
        FillsAreInSets(u, c, events[0].choices, k);
      }
    }
  }

  lemma EnabledChoices(u: Setup, c: Cache, e: Event)
    requires Enabled(u, c, e)
    ensures e.Filling? ==> Choices(u, e.choices)
  {
  }

  lemma StartNoted(u: Setup, warmup: bool)
    ensures Shaped(u, Start(u, warmup)) && Noted(u, Start(u, warmup), [])
  {
  }

  lemma RunIsNoted(u: Setup, warmup: bool, events: seq<Event>)
    ensures var c, notes := Run(u, Start(u, warmup), events), Notes(u, Start(u, warmup), events);
      Shaped(u, c) && Noted(u, c, notes)
  {
    hide Run, Notes, Start, Noted;
    var notes := Notes(u, Start(u, warmup), events);
    StartNoted(u, warmup);
    RunNotes(u, Start(u, warmup), events, []);
    assert [] + notes == notes;
  }

  /** A fill that remains is the last one of the way of its set. */
  lemma RemainsIsLast(u: Setup, warmup: bool, events: seq<Event>, address: nat, i: nat)
    requires Remains(Notes(u, Start(u, warmup), events), address / Pow2(u.offsetBits), i)
    ensures var notes := Notes(u, Start(u, warmup), events);
      notes[i].w < u.ways && LastFill(notes, i, SetOf(u, address), notes[i].w)
  {
    hide Notes, Start, SetOf;
    BlockAndSet(u, address);
    NotedFillsAreInSets(u, Start(u, warmup), events, i);
  }

  /** In every run a block hits if and only if it was filled into a way that no later fill took. */
  lemma HitsWhatWasFilled(u: Setup, warmup: bool, events: seq<Event>, address: nat)
    ensures var c, notes := Run(u, Start(u, warmup), events), Notes(u, Start(u, warmup), events);
      && Shaped(u, c)
      && (Hits(u, c, address) <==> exists i: nat :: Remains(notes, address / Pow2(u.offsetBits), i))
  {
    hide Run, Notes, Start, BlockOf, SetOf, Hits, WrittenSince;
    var c, notes := Run(u, Start(u, warmup), events), Notes(u, Start(u, warmup), events);
    RunIsNoted(u, warmup, events);
    BlockAndSet(u, address);
    HitsIffPresent(u, c, address);
    var block, s := address / Pow2(u.offsetBits), SetOf(u, address);
    if Present(u, c, address) {
      var w :| 0 <= w < u.ways && Matches(u, c.sets[s][w], address);
      assert WayIs(u, c.sets[s][w], notes, s, w);
      var i: nat :| LastFill(notes, i, s, w) && notes[i].block == BlockOf(u, c.sets[s][w].address);
      assert Remains(notes, block, i);
    }
    if i: nat :| Remains(notes, block, i) {
      RemainsIsLast(u, warmup, events, address, i);
      var w := notes[i].w;
      assert WayIs(u, c.sets[s][w], notes, s, w);
      OnlyLastFill(notes, s, w);
      assert Matches(u, c.sets[s][w], address);
    }
  }

  /** The way of a fill that remains is dirty if and only if the fill, or a hit on the block since, was a write. */
  lemma DirtyIffWritten(u: Setup, warmup: bool, events: seq<Event>, address: nat, i: nat)
    requires Remains(Notes(u, Start(u, warmup), events), address / Pow2(u.offsetBits), i)
    ensures var c, notes := Run(u, Start(u, warmup), events), Notes(u, Start(u, warmup), events);
      var w := notes[i].w;
      && Shaped(u, c) && w < u.ways && Matches(u, c.sets[SetOf(u, address)][w], address)
      && (c.sets[SetOf(u, address)][w].dirty <==> WrittenSince(notes, i))
  {
    hide Run, Notes, Start, BlockOf, SetOf, WrittenSince;
    var c, notes := Run(u, Start(u, warmup), events), Notes(u, Start(u, warmup), events);
    RunIsNoted(u, warmup, events);
    BlockAndSet(u, address);
    RemainsIsLast(u, warmup, events, address, i);
    var s, w := SetOf(u, address), notes[i].w;
    assert WayIs(u, c.sets[s][w], notes, s, w);
    OnlyLastFill(notes, s, w);
  }

  lemma OnlyLastFill(notes: seq<Note>, s: nat, w: nat)
    ensures forall i: nat, k: nat :: LastFill(notes, i, s, w) && LastFill(notes, k, s, w) ==> i == k
  {
  }

  // ---------- What is taken on, and that it can be answered ----------

  /** A register for the block exists. */
  ghost predicate HasRegister(u: Setup, c: Cache, address: nat) {
    exists i :: 0 <= i < |c.mshr| && BlockOf(u, c.mshr[i].address) == BlockOf(u, address)
  }

  /**
   * A packet is accepted exactly if it hits, or its block has a register, or a register is free, the
   * lower level has room and the packet wants a response; otherwise nothing changes.
   */
  lemma AcceptedIff(u: Setup, c: Cache, p: Packet, room: bool)
    requires Shaped(u, c) && |c.mshr| <= u.mshrSize
    ensures var t := TagCheck(u, c, p, room);
      var accepts := Hits(u, c, p.address) || HasRegister(u, c, p.address)
        || (|c.mshr| < u.mshrSize && room && (!p.fromHere || !p.skipFill));
      && t.accepted == (if accepts then c.accepted + [p] else c.accepted)
      && (!accepts ==> t == c)
  {
    hide BlockOf, SetOf, HitWay;
    var i := FindEntry(u, c.mshr, p.address);
    assert HasRegister(u, c, p.address) <==> i < |c.mshr|;
  }

  function Unreturned(mshr: seq<Entry>): nat {
    if |mshr| == 0 then 0 else Unreturned(mshr[1..]) + if mshr[0].ready.None? then 1 else 0
  }

  lemma {:induction false} UnreturnedUpdate(mshr: seq<Entry>, i: nat, e: Entry)
    requires i < |mshr|
    ensures Unreturned(mshr[i := e])
      == Unreturned(mshr) - (if mshr[i].ready.None? then 1 else 0) + (if e.ready.None? then 1 else 0)
    ensures mshr[i].ready.None? ==> Unreturned(mshr) > 0
  {
    if i == 0 {
      assert mshr[i := e][1..] == mshr[1..];
    } else {
      assert mshr[i := e][1..] == mshr[1..][i - 1 := e];
      UnreturnedUpdate(mshr[1..], i - 1, e);
    }
  }

  lemma {:induction false} AllReturned(mshr: seq<Entry>)
    ensures Unreturned(mshr) == 0 <==> forall i :: 0 <= i < |mshr| ==> mshr[i].ready.Some?
  {
    if |mshr| > 0 {
      AllReturned(mshr[1..]);
    }
  }

  /** A response makes one register fewer wait. */
  lemma ReturnCounts(u: Setup, c: Cache, address: nat)
    requires Inv(u, c) && BlockOf(u, address) in c.pending
    ensures FindEntry(u, c.mshr, address) < |c.mshr| && FirstUnreturned(c.mshr) < |c.mshr|
    ensures var d := FinishPacket(u, c, address);
      Unreturned(d.mshr) == Unreturned(c.mshr) - 1 && |d.mshr| == |c.mshr| && d.accepted == c.accepted
  {
    hide Inv, Unreturned, FindEntry, FirstUnreturned, BlockOf;
    ReturnFindsEntry(u, c, address);
    var i, j := FindEntry(u, c.mshr, address), FirstUnreturned(c.mshr);
    var e := c.mshr[i].(ready := Some(c.now + if c.warmup then 0 else u.fillLatency));
    var first := c.mshr[i := e];
    UnreturnedUpdate(c.mshr, i, e);
    UnreturnedUpdate(first, i, first[j]);
    UnreturnedUpdate(first[i := first[j]], j, first[i]);
  }

  lemma {:induction false} RunOn(u: Setup, c: Cache, first: seq<Event>, rest: seq<Event>)
    requires Inv(u, c)
    ensures Run(u, c, first + rest) == Run(u, Run(u, c, first), rest)
    decreases |first|
  {
    hide Inv, Step, Enabled;
    if |first| == 0 {
      assert first + rest == rest;
    } else {
      assert (first + rest)[1..] == first[1..] + rest && (first + rest)[0] == first[0];
      if Enabled(u, c, first[0]) {
        StepKeeps(u, c, first[0]);
        RunOn(u, Step(u, c, first[0]), first[1..], rest);
      } else {
        RunOn(u, c, first[1..], rest);
      }
    }
  }

  lemma OneEvent(u: Setup, c: Cache, e: Event)
    requires Inv(u, c) && Enabled(u, c, e)
    ensures Run(u, c, [e]) == Step(u, c, e)
  {
    hide Inv, Step, Enabled;
    StepKeeps(u, c, e);
    assert [e][1..] == [];
  }

  /** The lower level can answer everything it was asked, one response for each register that waits. */
  lemma {:induction false} Returns(u: Setup, c: Cache) returns (events: seq<Event>)
    requires Inv(u, c)
    ensures |events| == Unreturned(c.mshr)
    ensures var d := Run(u, c, events); Unreturned(d.mshr) == 0 && |d.mshr| == |c.mshr| && d.accepted == c.accepted
    decreases Unreturned(c.mshr)
  {
    hide Inv, Unreturned, Run, FinishPacket;
    if Unreturned(c.mshr) == 0 {
      events := [];
      NoEvents(u, c);
    } else {
      AllReturned(c.mshr);
      var i :| 0 <= i < |c.mshr| && c.mshr[i].ready.None?;
      var address := c.mshr[i].address;
      WaitingIsPending(u, c, i);
      ReturnCounts(u, c, address);
      var e := Returning(address);
      StepKeeps(u, c, e);
      OneEvent(u, c, e);
      var rest := Returns(u, Step(u, c, e));
      events := [e] + rest;
      RunOn(u, c, [e], rest);
    }
  }

  lemma NoEvents(u: Setup, c: Cache)
    requires Inv(u, c)
    ensures Run(u, c, []) == c
  {
  }

  lemma WaitingIsPending(u: Setup, c: Cache, i: nat)
    requires Inv(u, c) && i < |c.mshr| && c.mshr[i].ready.None?
    ensures BlockOf(u, c.mshr[i].address) in c.pending
  {
    hide BlockOf, SingleCopies, Delivers, MissCache.Distinct, ReturnedFirst, Sorted;
    assert Awaited(u, c, BlockOf(u, c.mshr[i].address));
  }

  /** Choices for as many fills, none of which the lower level refuses. */
  function Willing(n: nat): seq<Choice> {
    seq(n, _ => Choice(0, true))
  }

  lemma {:induction false} FillsAll(u: Setup, c: Cache)
    requires Inv(u, c) && forall i :: 0 <= i < |c.mshr| ==> IsReady(c.mshr[i], c.now)
    ensures Shaped(u, c) && Choices(u, Willing(|c.mshr|))
    ensures FillReady(u, c, Willing(|c.mshr|)).mshr == [] && FillReady(u, c, Willing(|c.mshr|)).accepted == c.accepted
    decreases |c.mshr|
  {
    hide Inv, FillWay, SetOf;
    InvIsShaped(u, c);
    if |c.mshr| > 0 {
      assert Willing(|c.mshr|)[1..] == Willing(|c.mshr| - 1);
      FillKeeps(u, c, 0);
      var d := Fill(u, c, 0);
      assert forall i :: 0 <= i < |d.mshr| ==> d.mshr[i] == c.mshr[i + 1];
      FillsAll(u, d);
    }
  }

  /** After the responses and the latency every register is ready. */
  lemma ReadyAfterLatency(u: Setup, c: Cache)
    requires Inv(u, c) && Unreturned(c.mshr) == 0
    ensures forall i :: 0 <= i < |c.mshr| ==> c.mshr[i].ready.Some? && c.mshr[i].ready.value <= c.now + u.fillLatency
  {
    hide BlockOf, SingleCopies, Delivers, MissCache.Distinct, ReturnedFirst, Sorted, Awaiting;
    AllReturned(c.mshr);
  }

  lemma FillingEnabled(u: Setup, c: Cache, choices: seq<Choice>)
    requires Choices(u, choices)
    ensures Enabled(u, c, Filling(choices))
  {
  }

  /**
   * Progress: from every reachable cache some further events, one response for each register that
   * waits, the latency, and one fill phase, lead to a state where no register is left and every
   * accepted packet has been answered exactly once.
   */
  lemma AllCanBeAnswered(u: Setup, warmup: bool, events: seq<Event>) returns (more: seq<Event>)
    ensures |more| <= u.mshrSize + 2
    ensures var c, d := Run(u, Start(u, warmup), events), Run(u, Start(u, warmup), events + more);
      && d.mshr == [] && d.accepted == c.accepted
      && forall t: nat :: t < |d.accepted| ==> Times(AnswerTags(d.answers), t) == 1
  {
    hide Inv, Run, Start, Unreturned, FillReady, IsReady, Times;
    var c := Run(u, Start(u, warmup), events);
    InvIsShaped(u, c);
    var answers := Returns(u, c);
    UnreturnedBound(c.mshr);
    var c1 := Run(u, c, answers);
    var wait := Tick(u.fillLatency);
    StepKeeps(u, c1, wait);
    OneEvent(u, c1, wait);
    ReadyAfterLatency(u, c1);
    var c2 := Step(u, c1, wait);
    ReadyThen(u, c1, c2);
    FillsAll(u, c2);
    var fills := Filling(Willing(|c2.mshr|));
    FillingEnabled(u, c2, Willing(|c2.mshr|));
    OneEvent(u, c2, fills);
    more := answers + ([wait] + [fills]);
    RunOn(u, c, answers, [wait] + [fills]);
    RunOn(u, c1, [wait], [fills]);
    RunOn(u, Start(u, warmup), events, more);
    var d := Run(u, Start(u, warmup), events + more);
    forall t: nat | t < |d.accepted| ensures Times(AnswerTags(d.answers), t) == 1 {
      PacketsAreAnsweredOnce(u, warmup, events + more, t);
      TimesOfAbsent(EntryTags(d.mshr), t);
    }
  }

  lemma ReadyThen(u: Setup, c: Cache, d: Cache)
    requires d == c.(now := c.now + u.fillLatency)
    requires forall i :: 0 <= i < |c.mshr| ==> c.mshr[i].ready.Some? && c.mshr[i].ready.value <= c.now + u.fillLatency
    ensures forall i :: 0 <= i < |d.mshr| ==> IsReady(d.mshr[i], d.now)
  {
  }

  lemma {:induction false} UnreturnedBound(mshr: seq<Entry>)
    ensures Unreturned(mshr) <= |mshr|
  {
    if |mshr| > 0 {
      UnreturnedBound(mshr[1..]);
    }
  }
}
