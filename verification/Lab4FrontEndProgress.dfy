/**
 * How far each loop of the front end goes, and when the front end cannot get stuck: every
 * instruction delivered can still retire exactly if no width and no buffer size is zero.
 */
module FrontEndProgress {
  import opened Collections
  import opened FrontEnd

  // ---------- No loop stops early ----------

  /** Reading stops only at the bandwidth, the end of the queue, or behind an instruction that stops it. */
  lemma {:induction false} ReadsUntilStopped(input: seq<Instr>, bw: nat, stopping: set<nat>)
    ensures var n := ReadCount(input, bw, stopping);
      && (forall i :: 0 <= i < n - 1 ==> input[i].id !in stopping)
      && (n < bw && n < |input| ==> n > 0 && input[n - 1].id in stopping)
    decreases bw
  {
    if bw > 0 && |input| > 0 && input[0].id !in stopping {
      ReadsUntilStopped(input[1..], bw - 1, stopping);
      var n := ReadCount(input, bw, stopping);
      forall i | 0 <= i < n - 1 ensures input[i].id !in stopping {
        assert i > 0 ==> input[i] == input[1..][i - 1];
      }
    }
  }

  predicate IsFetched(x: Instr, now: nat) {
    x.fetched && x.ready <= now
  }

  /** The window is the longest run of fetched, ready instructions within the bandwidth. */
  lemma {:induction false} WindowIsLongest(s: seq<Instr>, bw: nat, now: nat)
    ensures var n := Window(s, bw, now);
      (forall i :: 0 <= i < n ==> IsFetched(s[i], now)) && (n < bw && n < |s| ==> !IsFetched(s[n], now))
    decreases bw
  {
    if bw > 0 && |s| > 0 && IsFetched(s[0], now) {
      WindowIsLongest(s[1..], bw - 1, now);
      forall i | 0 <= i < Window(s, bw, now) ensures IsFetched(s[i], now) {
        assert i > 0 ==> s[i] == s[1..][i - 1];
      }
    }
  }

  /** Dispatch stops only at its width, the room in the queues, a full reorder buffer, or an instruction that is not ready. */
  lemma {:induction false} DispatchIsLongest(w: Widths, s: seq<Instr>, robUsed: nat, bw: nat, room: nat, now: nat)
    requires robUsed <= w.robSize
    ensures var n := DispatchCount(w, s, robUsed, bw, room, now);
      && n <= bw && n <= room && robUsed + n <= w.robSize
      && (forall i :: 0 <= i < n ==> s[i].ready <= now)
      && (n < |s| && n < bw && n < room && robUsed + n < w.robSize ==> s[n].ready > now)
    decreases bw
  {
    if bw > 0 && room > 0 && |s| > 0 && s[0].ready <= now && robUsed < w.robSize {
      DispatchIsLongest(w, s[1..], robUsed + 1, bw - 1, room - 1, now);
      forall i | 0 <= i < DispatchCount(w, s, robUsed, bw, room, now) ensures s[i].ready <= now {
        assert i > 0 ==> s[i] == s[1..][i - 1];
      }
    }
  }

  /** Retirement takes the longest completed run within its width. */
  lemma {:induction false} RetirementIsLongest(s: seq<Instr>, bw: nat)
    ensures var n := CompletedCount(s, bw); n < bw && n < |s| ==> !s[n].completed
    decreases bw
  {
    if bw > 0 && |s| > 0 && s[0].completed {
      RetirementIsLongest(s[1..], bw - 1);
    }
  }

  // ---------- The decode scan ----------

  /** What the scan has taken is ready, and within the widths it started with. */
  ghost predicate Taken(b: Buffers, c: Scan, now: nat, width: nat, decoders: nat) {
    && Fits(b, c) && c.hit + c.dec + c.inOrder == width && c.dec + c.decode == decoders
    && (forall i :: 0 <= i < c.hit ==> b.hits[i].ready <= now)
    && (forall i :: 0 <= i < c.dec ==> b.decode[i].ready <= now)
  }

  lemma {:induction false} BothTakes(b: Buffers, c: Scan, now: nat, width: nat, decoders: nat)
    requires Unequal(b) && Taken(b, c, now, width, decoders)
    ensures var r := ScanBoth(b, c, now);
      && Taken(b, r, now, width, decoders)
      && (r.hit == |b.hits| || r.dec == |b.decode| || r.inOrder == 0 || r.decode == 0
            || First(b.hits[r.hit], b.decode[r.dec]).ready > now)
    decreases c.inOrder
  {
    if c.hit < |b.hits| && c.dec < |b.decode| && c.inOrder > 0 && c.decode > 0
       && First(b.hits[c.hit], b.decode[c.dec]).ready <= now {
      assert b.hits[c.hit].id != b.decode[c.dec].id;
      BothTakes(b, if b.hits[c.hit].id < b.decode[c.dec].id then c.(hit := c.hit + 1, inOrder := c.inOrder - 1)
                   else c.(dec := c.dec + 1, inOrder := c.inOrder - 1, decode := c.decode - 1), now, width, decoders);
    }
  }

  lemma {:induction false} HitsTake(b: Buffers, c: Scan, now: nat, width: nat, decoders: nat)
    requires Taken(b, c, now, width, decoders)
    ensures var r := ScanHits(b, c, now);
      && Taken(b, r, now, width, decoders) && r.dec == c.dec && r.hit >= c.hit
      && (r.hit == |b.hits| || r.inOrder == 0 || b.hits[r.hit].ready > now
            || (r.dec < |b.decode| && b.decode[r.dec].id <= b.hits[r.hit].id))
    decreases c.inOrder
  {
    if c.hit < |b.hits| && c.inOrder > 0 && b.hits[c.hit].ready <= now
       && (c.dec == |b.decode| || b.hits[c.hit].id < b.decode[c.dec].id) {
      HitsTake(b, c.(hit := c.hit + 1, inOrder := c.inOrder - 1), now, width, decoders);
    }
  }

  lemma {:induction false} DecodesTake(b: Buffers, c: Scan, now: nat, width: nat, decoders: nat)
    requires Taken(b, c, now, width, decoders)
    ensures var r := ScanDecode(b, c, now);
      && Taken(b, r, now, width, decoders) && r.hit == c.hit && r.dec >= c.dec
      && (r.dec == |b.decode| || r.inOrder == 0 || r.decode == 0 || b.decode[r.dec].ready > now
            || (r.hit < |b.hits| && b.hits[r.hit].id <= b.decode[r.dec].id))
    decreases c.inOrder
  {
    if c.dec < |b.decode| && c.inOrder > 0 && c.decode > 0 && b.decode[c.dec].ready <= now
       && (c.hit == |b.hits| || b.decode[c.dec].id < b.hits[c.hit].id) {
      DecodesTake(b, c.(dec := c.dec + 1, inOrder := c.inOrder - 1, decode := c.decode - 1), now, width, decoders);
    }
  }

  /** The oldest instruction not taken from either buffer: a hit, or one still to be decoded. */
  predicate NextIsHit(b: Buffers, c: Scan)
    requires Fits(b, c)
  {
    c.hit < |b.hits| && (c.dec < |b.decode| ==> b.hits[c.hit].id < b.decode[c.dec].id)
  }

  predicate NextIsDecode(b: Buffers, c: Scan)
    requires Fits(b, c)
  {
    c.dec < |b.decode| && !NextIsHit(b, c)
  }

  /**
   * The three loops take ready instructions only, and stop only when the in-order width is used up,
   * or the oldest one left is not ready, or it is to be decoded and the decode width is used up.
   */
  lemma ScanStopsLate(w: Widths, b: Buffers, now: nat)
    requires Inv(w, b)
    ensures var c := FullScan(w, b, now);
      && c.hit + c.dec <= Min(w.inOrder, Room(w.dispatchBuffer, |b.dispatch|)) && c.dec <= w.decode
      && (forall i :: 0 <= i < c.hit ==> b.hits[i].ready <= now)
      && (forall i :: 0 <= i < c.dec ==> b.decode[i].ready <= now)
      && (c.hit + c.dec < Min(w.inOrder, Room(w.dispatchBuffer, |b.dispatch|)) ==>
            && (NextIsHit(b, c) ==> b.hits[c.hit].ready > now)
            && (NextIsDecode(b, c) ==> b.decode[c.dec].ready > now || c.dec == w.decode))
  {
    hide ScanBoth, ScanHits, ScanDecode, Pipeline;
    PathsAreUnequal(w, b);
    var width, decoders := Min(w.inOrder, Room(w.dispatchBuffer, |b.dispatch|)), w.decode;
    var c0 := StartScan(w, b);
    BothTakes(b, c0, now, width, decoders);
    var c1 := ScanBoth(b, c0, now);
    HitsTake(b, c1, now, width, decoders);
    var c2 := ScanHits(b, c1, now);
    DecodesTake(b, c2, now, width, decoders);
  }

  // ---------- When what moves on is ready ----------

  lemma {:induction false} SelectedAre(s: seq<Instr>, decoded: bool)
    ensures forall i :: 0 <= i < |Select(s, decoded)| ==> Select(s, decoded)[i].decoded == decoded
  {
    if |s| > 0 {
      SelectedAre(s[1..], decoded);
    }
  }

  lemma {:induction false} MergeIsReady(x: seq<Instr>, y: seq<Instr>, ready: nat)
    requires (forall i :: 0 <= i < |x| ==> x[i].ready == ready) && (forall i :: 0 <= i < |y| ==> y[i].ready == ready)
    ensures forall i :: 0 <= i < |Merge(x, y)| ==> Merge(x, y)[i].ready == ready
    decreases |x| + |y|
  {
    if |x| > 0 && |y| > 0 {
      if y[0].id < x[0].id {
        MergeIsReady(x, y[1..], ready);
      } else {
        MergeIsReady(x[1..], y, ready);
      }
    }
  }

  /** From position `n` on, all are ready at that time. */
  predicate ReadyFrom(s: seq<Instr>, n: nat, ready: nat) {
    forall i :: n <= i < |s| ==> s[i].ready == ready
  }

  /** Decoded instructions take the hit path and the others the decoder, each to be ready at its path's time. */
  lemma PathsSplitByDecoded(w: Widths, b: Buffers, now: nat, hitReady: nat, decodeReady: nat)
    ensures var t := Promote(w, b, now, hitReady, decodeReady);
      && |b.hits| <= |t.hits| && ReadyFrom(t.hits, |b.hits|, hitReady)
      && |b.decode| <= |t.decode| && ReadyFrom(t.decode, |b.decode|, decodeReady)
      && (forall i :: |b.hits| <= i < |t.hits| ==> t.hits[i].decoded)
      && (forall i :: |b.decode| <= i < |t.decode| ==> !t.decode[i].decoded)
  {
    hide Select, Window;
    var n := Window(b.fetch, Min(w.fetch, Min(Room(w.hitBuffer, |b.hits|), Room(w.decodeBuffer, |b.decode|))), now);
    SelectedAre(b.fetch[..n], true);
    SelectedAre(b.fetch[..n], false);
  }

  /** What is read, decoded or dispatched is ready at the time its stage gives it. */
  lemma StagesSetReady(w: Widths, b: Buffers, stopping: set<nat>, room: nat, now: nat, ready: nat)
    ensures var t := Initialize(w, b, stopping, now); |b.fetch| <= |t.fetch| && ReadyFrom(t.fetch, |b.fetch|, now)
    ensures var t := Decode(w, b, now, ready); |b.dispatch| <= |t.dispatch| && ReadyFrom(t.dispatch, |b.dispatch|, ready)
    ensures var t := Dispatch(w, b, room, now, ready); |b.rob| <= |t.rob| && ReadyFrom(t.rob, |b.rob|, ready)
  {
    hide ReadCount, FullScan, DispatchCount, Merge;
    var c := FullScan(w, b, now);
    MergeIsReady(SetReady(b.hits[..c.hit], ready), SetReady(b.decode[..c.dec], ready), ready);
  }

  // ---------- The oldest instruction can retire ----------

  predicate AllWide(w: Widths) {
    && w.fetch > 0 && w.decode > 0 && w.inOrder > 0 && w.dispatch > 0 && w.retire > 0
    && w.fetchBuffer > 0 && w.hitBuffer > 0 && w.decodeBuffer > 0 && w.dispatchBuffer > 0 && w.robSize > 0
  }

  ghost predicate Retires(w: Widths, b: Buffers, events: seq<Event>) {
    |Run(w, b, events).retired| > |b.retired|
  }

  lemma Then(w: Widths, b: Buffers, e: Event, rest: seq<Event>)
    requires Step(w, b, e).retired == b.retired && Retires(w, Step(w, b, e), rest)
    ensures Retires(w, b, [e] + rest)
  {
    hide Step;
    assert ([e] + rest)[1..] == rest;
  }

  lemma FromReorderBuffer(w: Widths, b: Buffers)
    requires AllWide(w) && |b.rob| > 0
    ensures Retires(w, b, [Completing(0), Retiring])
  {
    var t := Step(w, b, Completing(0));
    RetirementIsLongest(t.rob, w.retire);
    assert [Retiring][1..] == [];
    Then(w, b, Completing(0), [Retiring]);
    assert [Completing(0)] + [Retiring] == [Completing(0), Retiring];
  }

  lemma FromDispatch(w: Widths, b: Buffers) returns (events: seq<Event>)
    requires AllWide(w) && |b.dispatch| > 0
    ensures Retires(w, b, events) && |events| <= 3
  {
    hide Retires;
    if |b.rob| > 0 {
      FromReorderBuffer(w, b);
      events := [Completing(0), Retiring];
    } else {
      var now := b.dispatch[0].ready;
      var e := Dispatching(1, now, 0);
      DispatchIsLongest(w, b.dispatch, 0, w.dispatch, 1, now);
      FromReorderBuffer(w, Step(w, b, e));
      Then(w, b, e, [Completing(0), Retiring]);
      events := [e] + [Completing(0), Retiring];
    }
  }

  lemma FromPaths(w: Widths, b: Buffers) returns (events: seq<Event>)
    requires AllWide(w) && Inv(w, b) && |b.hits| + |b.decode| > 0
    ensures Retires(w, b, events) && |events| <= 4
  {
    hide Retires, FullScan, Merge, Pipeline, Run;
    if |b.dispatch| > 0 {
      events := FromDispatch(w, b);
    } else {
      var now := (if |b.hits| > 0 then b.hits[0].ready else 0) + if |b.decode| > 0 then b.decode[0].ready else 0;
      var e := Decoding(now, 0);
      ScanStopsLate(w, b, now);
      var c := FullScan(w, b, now);
      assert c.hit + c.dec > 0;
      var rest := FromDispatch(w, Step(w, b, e));
      Then(w, b, e, rest);
      events := [e] + rest;
    }
  }

  lemma SelectNonEmpty(s: seq<Instr>)
    requires |s| > 0
    ensures |Select(s, true)| + |Select(s, false)| > 0
  {
  }

  lemma FromFetch(w: Widths, b: Buffers) returns (events: seq<Event>)
    requires AllWide(w) && Inv(w, b) && |b.fetch| > 0
    ensures Retires(w, b, events) && |events| <= 6
  {
    hide Retires, Merge, Pipeline, Run, Select;
    if |b.hits| + |b.decode| > 0 {
      events := FromPaths(w, b);
    } else {
      var e := Fetching(0, false, 0);
      StepKeeps(w, b, e);
      var t := Step(w, b, e);
      var now := t.fetch[0].ready;
      var f := Promoting(now, 0, 0);
      StepKeeps(w, t, f);
      var bw := Min(w.fetch, Min(Room(w.hitBuffer, |t.hits|), Room(w.decodeBuffer, |t.decode|)));
      WindowIsLongest(t.fetch, bw, now);
      SelectNonEmpty(t.fetch[..Window(t.fetch, bw, now)]);
      var rest := FromPaths(w, Step(w, t, f));
      Then(w, t, f, rest);
      Then(w, b, e, [f] + rest);
      events := [e] + ([f] + rest);
    }
  }

  lemma FromInput(w: Widths, b: Buffers) returns (events: seq<Event>)
    requires AllWide(w) && Inv(w, b) && |b.input| > 0
    ensures Retires(w, b, events) && |events| <= 7
  {
    hide Retires, Merge, Pipeline, Run;
    if |b.fetch| > 0 {
      events := FromFetch(w, b);
    } else {
      var e := Initializing({}, 0);
      StepKeeps(w, b, e);
      ReadsUntilStopped(b.input, Min(w.fetch, Room(w.fetchBuffer, |b.fetch|)), {});
      var rest := FromFetch(w, Step(w, b, e));
      Then(w, b, e, rest);
      events := [e] + rest;
    }
  }

  /** Something that has not retired is in one of the buffers. */
  lemma SomewhereInside(w: Widths, b: Buffers)
    requires Inv(w, b) && |b.retired| < b.delivered
    ensures |b.rob| + |b.dispatch| + |b.hits| + |b.decode| + |b.fetch| + |b.input| > 0
  {
    hide Merge;
    assert |Pipeline(b)| == b.delivered;
  }

  /** At most seven events retire the oldest instruction. */
  lemma OldestRetires(w: Widths, b: Buffers) returns (events: seq<Event>)
    requires AllWide(w) && Inv(w, b) && |b.retired| < b.delivered
    ensures Retires(w, b, events) && |events| <= 7
  {
    hide Inv, Retires;
    SomewhereInside(w, b);
    if |b.rob| > 0 {
      FromReorderBuffer(w, b);
      events := [Completing(0), Retiring];
    } else if |b.dispatch| > 0 {
      events := FromDispatch(w, b);
    } else if |b.hits| + |b.decode| > 0 {
      events := FromPaths(w, b);
    } else if |b.fetch| > 0 {
      events := FromFetch(w, b);
    } else {
      events := FromInput(w, b);
    }
  }

  // ---------- A zero width ----------

  /** A zero width in front of every instruction delivered. */
  predicate Walled(w: Widths, b: Buffers) {
    && b.retired == []
    && (w.retire == 0 || (b.rob == [] && (w.dispatch == 0 || w.robSize == 0 || WalledDecode(w, b))))
  }

  predicate WalledDecode(w: Widths, b: Buffers) {
    b.dispatch == [] && (w.inOrder == 0 || w.dispatchBuffer == 0 || WalledFetch(w, b))
  }

  predicate WalledFetch(w: Widths, b: Buffers) {
    && b.hits == [] && b.decode == []
    && (w.fetch == 0 || w.hitBuffer == 0 || w.decodeBuffer == 0 || (b.fetch == [] && w.fetchBuffer == 0))
  }

  lemma WalledStays(w: Widths, b: Buffers, e: Event)
    requires Walled(w, b)
    ensures Walled(w, Step(w, b, e))
  {
    hide ScanBoth, ScanHits, ScanDecode;
    match e
    case Decoding(now, ready) => NoRoomNoScan(w, b, now);
    case _ =>
  }

  lemma NoRoomNoScan(w: Widths, b: Buffers, now: nat)
    ensures var c := FullScan(w, b, now); Fits(b, c) && (w.inOrder == 0 || w.dispatchBuffer == 0 ==> c.hit == 0 && c.dec == 0)
  {
  }

  /** The first instruction waits to be decoded, and nothing is older. */
  ghost predicate Undecoded(w: Widths, b: Buffers) {
    && w.decode == 0 && b.retired == [] && b.rob == [] && b.dispatch == [] && b.delivered > 0
    && |b.decode| > 0 && b.decode[0].id == 0
    && Younger(b.hits) && Younger(b.fetch) && Younger(b.input)
  }

  predicate Younger(s: seq<Instr>) {
    forall i :: 0 <= i < |s| ==> s[i].id > 0
  }

  lemma UndecodedStays(w: Widths, b: Buffers, e: Event)
    requires Undecoded(w, b)
    ensures Undecoded(w, Step(w, b, e))
  {
    hide ReadCount, Window, Merge, Select;
    match e
    case Decoding(now, ready) =>
      assert FullScan(w, b, now) == StartScan(w, b);
      MergeOfNone();
    case Promoting(now, hitReady, decodeReady) =>
      var n := Window(b.fetch, Min(w.fetch, Min(Room(w.hitBuffer, |b.hits|), Room(w.decodeBuffer, |b.decode|))), now);
      SelectedAreYounger(b.fetch[..n]);
    case _ =>
  }

  lemma MergeOfNone()
    ensures Merge([], []) == []
  {
  }

  lemma SelectedAreYounger(s: seq<Instr>)
    requires Younger(s)
    ensures Younger(Select(s, true))
  {
    hide Select;
    SelectMembers(s, true);
    forall i | 0 <= i < |Select(s, true)| ensures Select(s, true)[i].id > 0 {
      assert Select(s, true)[i] in s;
    }
  }

  lemma {:induction false} StuckForever(w: Widths, b: Buffers, events: seq<Event>)
    requires Walled(w, b) || Undecoded(w, b)
    ensures Run(w, b, events).retired == []
    decreases |events|
  {
    hide Walled, Undecoded, Step;
    if |events| > 0 {
      if Walled(w, b) {
        WalledStays(w, b, events[0]);
      } else {
        UndecodedStays(w, b, events[0]);
      }
      StuckForever(w, Step(w, b, events[0]), events[1..]);
    } else {
      StuckHasNone(w, b);
    }
  }

  lemma StuckHasNone(w: Widths, b: Buffers)
    requires Walled(w, b) || Undecoded(w, b)
    ensures b.retired == []
  {
  }

  lemma OneDelivered(w: Widths)
    ensures var b := Run(w, Start(), [Delivering]);
      b == Start().(input := [Instr(0, 0, false, false, false)], delivered := 1)
  {
    assert [Delivering][1..] == [];
  }

  lemma RunOfFour(w: Widths, b: Buffers, e: Event, f: Event, g: Event, h: Event)
    ensures Run(w, b, [e, f, g, h]) == Step(w, Step(w, Step(w, Step(w, b, e), f), g), h)
  {
    hide Step;
    assert [e, f, g, h][1..] == [f, g, h] && [f, g, h][1..] == [g, h] && [g, h][1..] == [h] && [h][1..] == [];
    var b3 := Step(w, Step(w, Step(w, b, e), f), g);
    assert Run(w, b3, [h]) == Run(w, Step(w, b3, h), []);
    assert Run(w, b, [e, f, g, h]) == Run(w, Step(w, b, e), [f, g, h]);
  }

  /** With no decoders the first instruction that is not decoded stays where it is. */
  lemma FirstUndecoded(w: Widths)
    requires w.decode == 0 && w.fetch > 0 && w.fetchBuffer > 0 && w.hitBuffer > 0 && w.decodeBuffer > 0
    ensures Undecoded(w, Run(w, Start(), [Delivering, Initializing({}, 0), Fetching(0, false, 0), Promoting(0, 0, 0)]))
  {
    hide Run;
    RunOfFour(w, Start(), Delivering, Initializing({}, 0), Fetching(0, false, 0), Promoting(0, 0, 0));
    var b1 := Step(w, Start(), Delivering);
    assert ReadCount(b1.input, Min(w.fetch, Room(w.fetchBuffer, 0)), {}) == 1;
    var b3 := Step(w, Step(w, b1, Initializing({}, 0)), Fetching(0, false, 0));
    assert Window(b3.fetch, Min(w.fetch, Min(Room(w.hitBuffer, 0), Room(w.decodeBuffer, 0))), 0) == 1;
  }

  /** After every run, whatever has been delivered and has not retired, the oldest of it can still retire. */
  ghost predicate NeverStuck(w: Widths) {
    forall before: seq<Event> :: CanGoOn(w, Run(w, Start(), before))
  }

  ghost predicate CanGoOn(w: Widths, b: Buffers) {
    |b.retired| < b.delivered ==> exists events: seq<Event> :: Retires(w, b, events)
  }

  /** The front end never gets stuck if and only if no width and no buffer size is zero. */
  lemma NeverStuckIff(w: Widths)
    ensures NeverStuck(w) <==> AllWide(w)
  {
    hide Inv, Retires, Walled, Undecoded, Run;
    if AllWide(w) {
      forall before: seq<Event> ensures CanGoOn(w, Run(w, Start(), before)) {
        StartKeeps(w);
        RunKeeps(w, Start(), before);
        if |Run(w, Start(), before).retired| < Run(w, Start(), before).delivered {
          var events := OldestRetires(w, Run(w, Start(), before));
        }
      }
    } else {
      var before := StuckRun(w);
      assert !CanGoOn(w, Run(w, Start(), before));
    }
  }

  lemma StartKeeps(w: Widths)
    ensures Inv(w, Start())
  {
    hide Merge;
    NothingAtStart();
  }

  lemma StuckRun(w: Widths) returns (before: seq<Event>)
    requires !AllWide(w)
    ensures var b := Run(w, Start(), before);
      |b.retired| < b.delivered && forall events: seq<Event> :: !Retires(w, b, events)
  {
    hide Run;
    if w.decode == 0 && w.fetch > 0 && w.fetchBuffer > 0 && w.hitBuffer > 0 && w.decodeBuffer > 0 {
      before := [Delivering, Initializing({}, 0), Fetching(0, false, 0), Promoting(0, 0, 0)];
      FirstUndecoded(w);
    } else {
      before := [Delivering];
      OneDelivered(w);
      assert Walled(w, Run(w, Start(), before));
    }
    var b := Run(w, Start(), before);
    forall events: seq<Event> ensures !Retires(w, b, events) {
      StuckForever(w, b, events);
    }
    StuckHasNone(w, b);
  }
}
