/**
 * The in-order part of the lab4 core: the instruction buffer, the two decode paths that meet again
 * at dispatch, the reorder buffer and retirement.
 */
module FrontEnd {
  import opened Collections

  datatype Instr = Instr(id: nat, ready: nat, fetched: bool, decoded: bool, completed: bool)

  datatype Widths = Widths(
    fetch: nat, decode: nat, inOrder: nat, dispatch: nat, retire: nat,
    fetchBuffer: nat, hitBuffer: nat, decodeBuffer: nat, dispatchBuffer: nat, robSize: nat)

  /** `retired` lists what has left the reorder buffer; `delivered` counts what the trace reader handed over. */
  datatype Buffers = Buffers(
    input: seq<Instr>, fetch: seq<Instr>, hits: seq<Instr>, decode: seq<Instr>, dispatch: seq<Instr>,
    rob: seq<Instr>, retired: seq<Instr>, delivered: nat)

  function SetReady(s: seq<Instr>, ready: nat): (r: seq<Instr>)
    ensures |r| == |s|
  {
    seq(|s|, i requires 0 <= i < |s| => s[i].(ready := ready))
  }

  lemma SetReadyNext(s: seq<Instr>, n: nat, ready: nat)
    requires n < |s|
    ensures SetReady(s[..n + 1], ready) == SetReady(s[..n], ready) + [s[n].(ready := ready)]
  {
  }

  function Room(size: nat, used: nat): nat {
    if used < size then size - used else 0
  }

  /** The trace reader numbers instructions in order. */
  function Deliver(b: Buffers): Buffers {
    b.(input := b.input + [Instr(b.delivered, 0, false, false, false)], delivered := b.delivered + 1)
  }

  /** How many instructions are read before one stops the fetch; `stopping` holds those that do. */
  function ReadCount(input: seq<Instr>, bw: nat, stopping: set<nat>): (n: nat)
    ensures n <= |input| && n <= bw
    decreases bw
  {
    if bw == 0 || |input| == 0 then 0
    else if input[0].id in stopping then 1
    else 1 + ReadCount(input[1..], bw - 1, stopping)
  }

  function Initialize(w: Widths, b: Buffers, stopping: set<nat>, now: nat): Buffers {
    var n := ReadCount(b.input, Min(w.fetch, Room(w.fetchBuffer, |b.fetch|)), stopping);
    b.(fetch := b.fetch + SetReady(b.input[..n], now), input := b.input[n..])
  }

  /** get_span_p over the fetched instructions that are ready. */
  function Window(s: seq<Instr>, bw: nat, now: nat): (n: nat)
    ensures n <= |s| && n <= bw
    decreases bw
  {
    if bw == 0 || |s| == 0 || !s[0].fetched || s[0].ready > now then 0 else 1 + Window(s[1..], bw - 1, now)
  }

  /** The two halves of std::stable_partition. */
  function Select(s: seq<Instr>, decoded: bool): (r: seq<Instr>)
    ensures |r| <= |s|
  {
    if |s| == 0 then []
    else (if s[0].decoded == decoded then [s[0]] else []) + Select(s[1..], decoded)
  }

  /** Decoded instructions take the hit path, the others the decoder. */
  function Promote(w: Widths, b: Buffers, now: nat, hitReady: nat, decodeReady: nat): Buffers {
    var n := Window(b.fetch, Min(w.fetch, Min(Room(w.hitBuffer, |b.hits|), Room(w.decodeBuffer, |b.decode|))), now);
    b.(hits := b.hits + SetReady(Select(b.fetch[..n], true), hitReady),
       decode := b.decode + SetReady(Select(b.fetch[..n], false), decodeReady),
       fetch := b.fetch[n..])
  }

  // ---------- Decode: three loops over two buffers ----------

  /** Positions reached in the two buffers, and the bandwidths left. */
  datatype Scan = Scan(hit: nat, dec: nat, inOrder: nat, decode: nat)

  predicate Fits(b: Buffers, c: Scan) {
    c.hit <= |b.hits| && c.dec <= |b.decode|
  }

  function First(x: Instr, y: Instr): Instr {
    if y.id < x.id then y else x
  }

  /** While both buffers have instructions, take the older of the two. */
  function ScanBoth(b: Buffers, c: Scan, now: nat): (r: Scan)
    requires Fits(b, c)
    ensures Fits(b, r)
    decreases c.inOrder
  {
    if c.hit == |b.hits| || c.dec == |b.decode| || c.inOrder == 0 || c.decode == 0
       || First(b.hits[c.hit], b.decode[c.dec]).ready > now then c
    else if b.hits[c.hit].id < b.decode[c.dec].id then
      ScanBoth(b, c.(hit := c.hit + 1, inOrder := c.inOrder - 1), now)
    else ScanBoth(b, c.(dec := c.dec + 1, inOrder := c.inOrder - 1, decode := c.decode - 1), now)
  }

  /** Then hits that are older than every instruction still to be decoded. */
  function ScanHits(b: Buffers, c: Scan, now: nat): (r: Scan)
    requires Fits(b, c)
    ensures Fits(b, r)
    decreases c.inOrder
  {
    if c.hit < |b.hits| && c.inOrder > 0 && b.hits[c.hit].ready <= now
       && (c.dec == |b.decode| || b.hits[c.hit].id < b.decode[c.dec].id)
    then ScanHits(b, c.(hit := c.hit + 1, inOrder := c.inOrder - 1), now)
    else c
  }

  /** Then instructions to decode that are older than every hit. */
  function ScanDecode(b: Buffers, c: Scan, now: nat): (r: Scan)
    requires Fits(b, c)
    ensures Fits(b, r)
    decreases c.inOrder
  {
    if c.dec < |b.decode| && c.inOrder > 0 && c.decode > 0 && b.decode[c.dec].ready <= now
       && (c.hit == |b.hits| || b.decode[c.dec].id < b.hits[c.hit].id)
    then ScanDecode(b, c.(dec := c.dec + 1, inOrder := c.inOrder - 1, decode := c.decode - 1), now)
    else c
  }

  function StartScan(w: Widths, b: Buffers): Scan {
    Scan(0, 0, Min(w.inOrder, Room(w.dispatchBuffer, |b.dispatch|)), w.decode)
  }

  function FullScan(w: Widths, b: Buffers, now: nat): (c: Scan)
    ensures Fits(b, c)
  {
    ScanDecode(b, ScanHits(b, ScanBoth(b, StartScan(w, b), now), now), now)
  }

  /** std::merge in program order. */
  function Merge(x: seq<Instr>, y: seq<Instr>): (r: seq<Instr>)
    ensures |r| == |x| + |y|
  {
    if |x| == 0 then y
    else if |y| == 0 then x
    else if y[0].id < x[0].id then [y[0]] + Merge(x, y[1..])
    else [x[0]] + Merge(x[1..], y)
  }

  function Decode(w: Widths, b: Buffers, now: nat, ready: nat): Buffers {
    var c := FullScan(w, b, now);
    b.(dispatch := b.dispatch + Merge(SetReady(b.hits[..c.hit], ready), SetReady(b.decode[..c.dec], ready)),
       hits := b.hits[c.hit..], decode := b.decode[c.dec..])
  }

  // ---------- Dispatch and retirement ----------

  /** `room` is the number of instructions the load and store queues have room for. */
  function DispatchCount(w: Widths, s: seq<Instr>, robUsed: nat, bw: nat, room: nat, now: nat): (n: nat)
    ensures n <= |s| && (robUsed <= w.robSize ==> robUsed + n <= w.robSize)
    decreases bw
  {
    if bw == 0 || room == 0 || |s| == 0 || s[0].ready > now || robUsed == w.robSize then 0
    else 1 + DispatchCount(w, s[1..], robUsed + 1, bw - 1, room - 1, now)
  }

  function Dispatch(w: Widths, b: Buffers, room: nat, now: nat, ready: nat): Buffers {
    var n := DispatchCount(w, b.dispatch, |b.rob|, w.dispatch, room, now);
    b.(rob := b.rob + SetReady(b.dispatch[..n], ready), dispatch := b.dispatch[n..])
  }

  function CompletedCount(s: seq<Instr>, bw: nat): (n: nat)
    ensures n <= |s| && n <= bw
    ensures forall i :: 0 <= i < n ==> s[i].completed
    decreases bw
  {
    if bw == 0 || |s| == 0 || !s[0].completed then 0 else 1 + CompletedCount(s[1..], bw - 1)
  }

  function Retire(w: Widths, b: Buffers): Buffers {
    var n := CompletedCount(b.rob, w.retire);
    b.(retired := b.retired + b.rob[..n], rob := b.rob[n..])
  }

  // ---------- Runs ----------

  /** The flags of a buffered instruction change; its number does not. */
  datatype Event =
    | Delivering
    | Initializing(stopping: set<nat>, now: nat)
    | Fetching(position: nat, decoded: bool, now: nat)
    | Promoting(now: nat, hitReady: nat, decodeReady: nat)
    | Decoding(now: nat, ready: nat)
    | Dispatching(room: nat, now: nat, ready: nat)
    | Completing(position: nat)
    | Retiring

  /** An instruction's line returns, or its line is found decoded. */
  function Fetch(b: Buffers, k: nat, decoded: bool, now: nat): Buffers {
    if k >= |b.fetch| then b
    else if decoded then b.(fetch := b.fetch[k := b.fetch[k].(fetched := true, decoded := true, ready := now)])
    else b.(fetch := b.fetch[k := b.fetch[k].(fetched := true)])
  }

  function Complete(b: Buffers, k: nat): Buffers {
    if k >= |b.rob| then b else b.(rob := b.rob[k := b.rob[k].(completed := true)])
  }

  function Step(w: Widths, b: Buffers, e: Event): Buffers {
    match e
    case Delivering => Deliver(b)
    case Initializing(stopping, now) => Initialize(w, b, stopping, now)
    case Fetching(k, decoded, now) => Fetch(b, k, decoded, now)
    case Promoting(now, hitReady, decodeReady) => Promote(w, b, now, hitReady, decodeReady)
    case Decoding(now, ready) => Decode(w, b, now, ready)
    case Dispatching(room, now, ready) => Dispatch(w, b, room, now, ready)
    case Completing(k) => Complete(b, k)
    case Retiring => Retire(w, b)
  }

  function Start(): Buffers {
    Buffers([], [], [], [], [], [], [], 0)
  }

  function Run(w: Widths, b: Buffers, events: seq<Event>): Buffers
    decreases |events|
  {
    if |events| == 0 then b else Run(w, Step(w, b, events[0]), events[1..])
  }

  // ---------- Order ----------

  function Ids(s: seq<Instr>): (r: seq<nat>)
    ensures |r| == |s|
  {
    seq(|s|, i requires 0 <= i < |s| => s[i].id)
  }

  /** Everything delivered so far, oldest first: the two decode paths count as one buffer. */
  function Pipeline(b: Buffers): seq<nat> {
    Ids(b.retired) + Ids(b.rob) + Ids(b.dispatch) + Ids(Merge(b.hits, b.decode)) + Ids(b.fetch) + Ids(b.input)
  }

  ghost predicate Within(w: Widths, b: Buffers) {
    && |b.fetch| <= w.fetchBuffer && |b.hits| <= w.hitBuffer && |b.decode| <= w.decodeBuffer
    && |b.dispatch| <= w.dispatchBuffer && |b.rob| <= w.robSize
  }

  ghost predicate Below(x: seq<Instr>, y: seq<Instr>) {
    forall i, j :: 0 <= i < |x| && 0 <= j < |y| ==> x[i].id < y[j].id
  }

  ghost predicate Increasing(s: seq<Instr>) {
    forall i, j :: 0 <= i < j < |s| ==> s[i].id < s[j].id
  }

  /** Nothing delivered is lost, duplicated or out of order, and no buffer overflows. */
  ghost predicate Inv(w: Widths, b: Buffers) {
    Pipeline(b) == seq(b.delivered, i => i) && Increasing(b.hits) && Increasing(b.decode) && Within(w, b)
  }

  // ---------- Merging ----------

  lemma TakeHit(x: seq<Instr>, y: seq<Instr>)
    requires |x| > 0 && (|y| == 0 || x[0].id <= y[0].id)
    ensures Merge(x, y) == [x[0]] + Merge(x[1..], y)
  {
  }

  lemma TakeDecode(x: seq<Instr>, y: seq<Instr>)
    requires |y| > 0 && (|x| == 0 || y[0].id < x[0].id)
    ensures Merge(x, y) == [y[0]] + Merge(x, y[1..])
  {
  }

  lemma IdsOfParts(s: seq<Instr>, n: nat)
    requires n <= |s|
    ensures Ids(s) == Ids(s[..n]) + Ids(s[n..])
  {
  }

  lemma IdsOfSum(s: seq<Instr>, t: seq<Instr>)
    ensures Ids(s + t) == Ids(s) + Ids(t)
  {
  }

  lemma IdsOfReady(s: seq<Instr>, ready: nat)
    ensures Ids(SetReady(s, ready)) == Ids(s)
  {
  }

  lemma {:induction false} MergeOfReady(x: seq<Instr>, y: seq<Instr>, a: nat, c: nat)
    ensures Ids(Merge(SetReady(x, a), SetReady(y, c))) == Ids(Merge(x, y))
    decreases |x| + |y|
  {
    hide Merge;
    var u, v := SetReady(x, a), SetReady(y, c);
    if |x| > 0 && (|y| == 0 || x[0].id <= y[0].id) {
      TakeHit(x, y);
      TakeHit(u, v);
      assert u[1..] == SetReady(x[1..], a);
      MergeOfReady(x[1..], y, a, c);
      IdsOfSum([x[0]], Merge(x[1..], y));
      IdsOfSum([u[0]], Merge(u[1..], v));
    } else if |y| > 0 {
      TakeDecode(x, y);
      TakeDecode(u, v);
      assert v[1..] == SetReady(y[1..], c);
      MergeOfReady(x, y[1..], a, c);
      IdsOfSum([y[0]], Merge(x, y[1..]));
      IdsOfSum([v[0]], Merge(u, v[1..]));
    }
  }

  /** Instructions younger than both buffers merge behind them. */
  lemma {:induction false} MergeAppends(x: seq<Instr>, y: seq<Instr>, u: seq<Instr>, v: seq<Instr>)
    requires Below(x, u) && Below(x, v) && Below(y, u) && Below(y, v)
    ensures Merge(x + u, y + v) == Merge(x, y) + Merge(u, v)
    decreases |x| + |y|
  {
    hide Merge;
    if |x| > 0 && (|y| == 0 || x[0].id <= y[0].id) {
      assert (x + u)[1..] == x[1..] + u && (|y + v| == 0 || (x + u)[0].id <= (y + v)[0].id);
      TakeHit(x, y);
      TakeHit(x + u, y + v);
      MergeAppends(x[1..], y, u, v);
    } else if |y| > 0 {
      assert (y + v)[1..] == y[1..] + v && (|x + u| == 0 || (y + v)[0].id < (x + u)[0].id);
      TakeDecode(x, y);
      TakeDecode(x + u, y + v);
      MergeAppends(x, y[1..], u, v);
    } else {
      assert x + u == u && y + v == v && Merge(x, y) == [];
    }
  }

  lemma {:induction false} SelectMembers(s: seq<Instr>, decoded: bool)
    ensures forall x :: x in Select(s, decoded) ==> x in s
  {
    if |s| > 0 {
      SelectMembers(s[1..], decoded);
    }
  }

  lemma {:induction false} SelectIncreases(s: seq<Instr>, decoded: bool)
    requires Increasing(s)
    ensures Increasing(Select(s, decoded))
  {
    if |s| > 0 {
      var rest := Select(s[1..], decoded);
      SelectIncreases(s[1..], decoded);
      SelectMembers(s[1..], decoded);
      forall i | 0 <= i < |rest| ensures s[0].id < rest[i].id {
        assert rest[i] in s[1..];
        var k :| 0 <= k < |s[1..]| && s[1..][k] == rest[i];
        assert s[k + 1] == rest[i];
      }
      assert Select(s, decoded) == (if s[0].decoded == decoded then [s[0]] else []) + rest;
    }
  }

  lemma HeadIsFirst(s: seq<Instr>)
    requires Increasing(s) && |s| > 0
    ensures Increasing(s[1..]) && forall z :: z in s[1..] ==> s[0].id < z.id
  {
    forall z | z in s[1..] ensures s[0].id < z.id {
      var k :| 0 <= k < |s[1..]| && s[1..][k] == z;
      assert s[k + 1] == z;
    }
  }

  /** Splitting an ordered window over the two paths and merging it again gives the window. */
  lemma {:induction false} PartitionMerges(s: seq<Instr>)
    requires Increasing(s)
    ensures Merge(Select(s, true), Select(s, false)) == s
  {
    hide Merge, Increasing;
    if |s| > 0 {
      var x, y := Select(s, true), Select(s, false);
      HeadIsFirst(s);
      PartitionMerges(s[1..]);
      SelectMembers(s[1..], true);
      SelectMembers(s[1..], false);
      if s[0].decoded {
        assert x[1..] == Select(s[1..], true) && y == Select(s[1..], false);
        assert |y| > 0 ==> y[0] in s[1..];
        TakeHit(x, y);
      } else {
        assert y[1..] == Select(s[1..], false) && x == Select(s[1..], true);
        assert |x| > 0 ==> x[0] in s[1..];
        TakeDecode(x, y);
      }
    } else {
      assert Merge([], []) == [];
    }
  }

  lemma {:induction false} MergeMembers(x: seq<Instr>, y: seq<Instr>)
    ensures forall z :: z in x || z in y ==> z in Merge(x, y)
    decreases |x| + |y|
  {
    hide Merge;
    if |x| > 0 && (|y| == 0 || x[0].id <= y[0].id) {
      TakeHit(x, y);
      MergeMembers(x[1..], y);
    } else if |y| > 0 {
      TakeDecode(x, y);
      MergeMembers(x, y[1..]);
    }
  }

  // ---------- Order between buffers ----------

  /** Regrouping a block that moves from one buffer to the one before it. */
  lemma Regroup(before: seq<nat>, left: seq<nat>, block: seq<nat>, right: seq<nat>, after: seq<nat>)
    ensures before + (left + block) + right + after == before + left + (block + right) + after
  {
  }

  lemma PathsBelowFetch(w: Widths, b: Buffers)
    requires Inv(w, b)
    ensures Below(b.hits, b.fetch) && Below(b.decode, b.fetch) && Increasing(b.fetch)
  {
    hide Merge;
    var m := Merge(b.hits, b.decode);
    var p := Ids(b.retired) + Ids(b.rob) + Ids(b.dispatch);
    MergeMembers(b.hits, b.decode);
    assert Pipeline(b) == p + Ids(m) + Ids(b.fetch) + Ids(b.input);
    forall q, j | q in m && 0 <= j < |b.fetch| ensures q.id < b.fetch[j].id {
      var i :| 0 <= i < |m| && m[i] == q;
      assert Pipeline(b)[|p| + i] == Ids(m)[i];
      assert Pipeline(b)[|p| + |m| + j] == Ids(b.fetch)[j];
    }
    assert forall i :: 0 <= i < |b.hits| ==> b.hits[i] in m;
    assert forall i :: 0 <= i < |b.decode| ==> b.decode[i] in m;
    forall i, j | 0 <= i < j < |b.fetch| ensures b.fetch[i].id < b.fetch[j].id {
      assert Pipeline(b)[|p| + |m| + i] == Ids(b.fetch)[i];
      assert Pipeline(b)[|p| + |m| + j] == Ids(b.fetch)[j];
    }
  }

  // ---------- Every step keeps the order ----------

  lemma DeliverKeeps(w: Widths, b: Buffers)
    requires Inv(w, b)
    ensures Inv(w, Deliver(b))
  {
    hide Merge;
    var t := Deliver(b);
    IdsOfSum(b.input, [Instr(b.delivered, 0, false, false, false)]);
    assert Pipeline(t) == Pipeline(b) + [b.delivered];
  }

  lemma InitializeKeeps(w: Widths, b: Buffers, stopping: set<nat>, now: nat)
    requires Inv(w, b)
    ensures Inv(w, Initialize(w, b, stopping, now))
  {
    hide Merge, Ids, SetReady;
    var n := ReadCount(b.input, Min(w.fetch, Room(w.fetchBuffer, |b.fetch|)), stopping);
    IdsOfParts(b.input, n);
    IdsOfReady(b.input[..n], now);
    IdsOfSum(b.fetch, SetReady(b.input[..n], now));
    var before := Ids(b.retired) + Ids(b.rob) + Ids(b.dispatch) + Ids(Merge(b.hits, b.decode));
    Regroup(before, Ids(b.fetch), Ids(b.input[..n]), Ids(b.input[n..]), []);
  }

  /** What is selected from a window above `x` is above `x`, and in order. */
  lemma SelectedAbove(x: seq<Instr>, window: seq<Instr>, decoded: bool, ready: nat)
    requires Below(x, window) && Increasing(window)
    ensures Below(x, SetReady(Select(window, decoded), ready)) && Increasing(SetReady(Select(window, decoded), ready))
  {
    hide Select, SetReady;
    var u := Select(window, decoded);
    SelectMembers(window, decoded);
    SelectIncreases(window, decoded);
    ReadyKeepsNumbers(u, ready);
    assert forall i :: 0 <= i < |u| ==> u[i] in window;
  }

  lemma AppendIncreases(x: seq<Instr>, u: seq<Instr>)
    requires Increasing(x) && Increasing(u) && Below(x, u)
    ensures Increasing(x + u)
  {
  }

  /** The two parts of a window, appended to the two paths, merge to the paths and then the window. */
  lemma WindowMerges(x: seq<Instr>, y: seq<Instr>, window: seq<Instr>, hitReady: nat, decodeReady: nat)
    requires Below(x, window) && Below(y, window) && Increasing(window)
    ensures var u, v := SetReady(Select(window, true), hitReady), SetReady(Select(window, false), decodeReady);
      Ids(Merge(x + u, y + v)) == Ids(Merge(x, y)) + Ids(window)
  {
    hide Merge, Ids, SetReady, Select, Below, Increasing;
    var u, v := SetReady(Select(window, true), hitReady), SetReady(Select(window, false), decodeReady);
    SelectedAbove(x, window, true, hitReady);
    SelectedAbove(x, window, false, decodeReady);
    SelectedAbove(y, window, true, hitReady);
    SelectedAbove(y, window, false, decodeReady);
    MergeAppends(x, y, u, v);
    MergeOfReady(Select(window, true), Select(window, false), hitReady, decodeReady);
    PartitionMerges(window);
    IdsOfSum(Merge(x, y), Merge(u, v));
  }

  lemma PromoteKeepsOrder(w: Widths, b: Buffers, now: nat, hitReady: nat, decodeReady: nat)
    requires Inv(w, b)
    ensures var t := Promote(w, b, now, hitReady, decodeReady);
      && Ids(Merge(t.hits, t.decode)) + Ids(t.fetch) == Ids(Merge(b.hits, b.decode)) + Ids(b.fetch)
      && Increasing(t.hits) && Increasing(t.decode)
  {
    hide Merge, Ids, SetReady, Select, Pipeline, Within, Window;
    var n := Window(b.fetch, Min(w.fetch, Min(Room(w.hitBuffer, |b.hits|), Room(w.decodeBuffer, |b.decode|))), now);
    var window := b.fetch[..n];
    PathsBelowFetch(w, b);
    WindowMerges(b.hits, b.decode, window, hitReady, decodeReady);
    SelectedAbove(b.hits, window, true, hitReady);
    SelectedAbove(b.decode, window, false, decodeReady);
    AppendIncreases(b.hits, SetReady(Select(window, true), hitReady));
    AppendIncreases(b.decode, SetReady(Select(window, false), decodeReady));
    IdsOfParts(b.fetch, n);
  }

  lemma ReadyKeepsNumbers(s: seq<Instr>, ready: nat)
    ensures forall i :: 0 <= i < |s| ==> SetReady(s, ready)[i].id == s[i].id
  {
  }

  lemma {:induction false} SelectSplits(s: seq<Instr>)
    ensures |Select(s, true)| + |Select(s, false)| == |s|
  {
    if |s| > 0 {
      SelectSplits(s[1..]);
    }
  }

  lemma PromoteKeeps(w: Widths, b: Buffers, now: nat, hitReady: nat, decodeReady: nat)
    requires Inv(w, b)
    ensures Inv(w, Promote(w, b, now, hitReady, decodeReady))
  {
    hide Merge, Ids, SetReady, Select, Window;
    var t := Promote(w, b, now, hitReady, decodeReady);
    PromoteKeepsOrder(w, b, now, hitReady, decodeReady);
    var before := Ids(b.retired) + Ids(b.rob) + Ids(b.dispatch);
    assert Pipeline(t) == before + (Ids(Merge(t.hits, t.decode)) + Ids(t.fetch)) + Ids(t.input);
    assert Pipeline(b) == before + (Ids(Merge(b.hits, b.decode)) + Ids(b.fetch)) + Ids(b.input);
  }

  /** What the scan has taken is older than what it leaves in the other buffer. */
  ghost predicate Cut(b: Buffers, c: Scan) {
    Fits(b, c) && Below(b.hits[..c.hit], b.decode[c.dec..]) && Below(b.decode[..c.dec], b.hits[c.hit..])
  }

  lemma CutExtends(b: Buffers, c: Scan)
    requires Increasing(b.hits) && Increasing(b.decode) && Cut(b, c)
    ensures c.hit < |b.hits| && (c.dec == |b.decode| || b.hits[c.hit].id < b.decode[c.dec].id) ==>
              Cut(b, c.(hit := c.hit + 1))
    ensures c.dec < |b.decode| && (c.hit == |b.hits| || b.decode[c.dec].id < b.hits[c.hit].id) ==>
              Cut(b, c.(dec := c.dec + 1))
  {
    if c.hit < |b.hits| && (c.dec == |b.decode| || b.hits[c.hit].id < b.decode[c.dec].id) {
      var x, y := b.hits[..c.hit + 1], b.decode[c.dec..];
      forall i, j | 0 <= i < |x| && 0 <= j < |y| ensures x[i].id < y[j].id {
        assert i < c.hit ==> x[i] == b.hits[..c.hit][i];
      }
      var u, v := b.decode[..c.dec], b.hits[c.hit + 1..];
      forall i, j | 0 <= i < |u| && 0 <= j < |v| ensures u[i].id < v[j].id {
        assert v[j] == b.hits[c.hit..][j + 1];
      }
    }
    if c.dec < |b.decode| && (c.hit == |b.hits| || b.decode[c.dec].id < b.hits[c.hit].id) {
      var x, y := b.decode[..c.dec + 1], b.hits[c.hit..];
      forall i, j | 0 <= i < |x| && 0 <= j < |y| ensures x[i].id < y[j].id {
        assert i < c.dec ==> x[i] == b.decode[..c.dec][i];
      }
      var u, v := b.hits[..c.hit], b.decode[c.dec + 1..];
      forall i, j | 0 <= i < |u| && 0 <= j < |v| ensures u[i].id < v[j].id {
        assert v[j] == b.decode[c.dec..][j + 1];
      }
    }
  }

  ghost predicate Unequal(b: Buffers) {
    forall i, j :: 0 <= i < |b.hits| && 0 <= j < |b.decode| ==> b.hits[i].id != b.decode[j].id
  }

  lemma {:induction false} ScanBothCuts(b: Buffers, c: Scan, now: nat)
    requires Increasing(b.hits) && Increasing(b.decode) && Unequal(b) && Fits(b, c) && Cut(b, c)
    ensures Cut(b, ScanBoth(b, c, now))
    ensures var r := ScanBoth(b, c, now); r.hit + r.dec + r.inOrder == c.hit + c.dec + c.inOrder
    decreases c.inOrder
  {
    hide Cut, Increasing;
    if !(c.hit == |b.hits| || c.dec == |b.decode| || c.inOrder == 0 || c.decode == 0
         || First(b.hits[c.hit], b.decode[c.dec]).ready > now) {
      CutExtends(b, c);
      if b.hits[c.hit].id < b.decode[c.dec].id {
        CutIgnoresWidths(b, c.(hit := c.hit + 1), c.inOrder - 1, c.decode);
        ScanBothCuts(b, c.(hit := c.hit + 1, inOrder := c.inOrder - 1), now);
      } else {
        CutIgnoresWidths(b, c.(dec := c.dec + 1), c.inOrder - 1, c.decode - 1);
        ScanBothCuts(b, c.(dec := c.dec + 1, inOrder := c.inOrder - 1, decode := c.decode - 1), now);
      }
    }
  }

  lemma CutIgnoresWidths(b: Buffers, c: Scan, inOrder: nat, decode: nat)
    requires Cut(b, c)
    ensures Cut(b, c.(inOrder := inOrder, decode := decode))
  {
  }

  lemma {:induction false} ScanHitsCuts(b: Buffers, c: Scan, now: nat)
    requires Increasing(b.hits) && Increasing(b.decode) && Cut(b, c)
    ensures Cut(b, ScanHits(b, c, now))
    ensures var r := ScanHits(b, c, now); r.hit + r.dec + r.inOrder == c.hit + c.dec + c.inOrder
    decreases c.inOrder
  {
    hide Below, Increasing;
    if c.hit < |b.hits| && c.inOrder > 0 && b.hits[c.hit].ready <= now
       && (c.dec == |b.decode| || b.hits[c.hit].id < b.decode[c.dec].id) {
      CutExtends(b, c);
      ScanHitsCuts(b, c.(hit := c.hit + 1, inOrder := c.inOrder - 1), now);
    }
  }

  lemma {:induction false} ScanDecodeCuts(b: Buffers, c: Scan, now: nat)
    requires Increasing(b.hits) && Increasing(b.decode) && Cut(b, c)
    ensures Cut(b, ScanDecode(b, c, now))
    ensures var r := ScanDecode(b, c, now); r.hit + r.dec + r.inOrder == c.hit + c.dec + c.inOrder
    decreases c.inOrder
  {
    hide Below, Increasing;
    if c.dec < |b.decode| && c.inOrder > 0 && c.decode > 0 && b.decode[c.dec].ready <= now
       && (c.hit == |b.hits| || b.decode[c.dec].id < b.hits[c.hit].id) {
      CutExtends(b, c);
      ScanDecodeCuts(b, c.(dec := c.dec + 1, inOrder := c.inOrder - 1, decode := c.decode - 1), now);
    }
  }

  /** No instruction is on both paths. */
  lemma PathsAreUnequal(w: Widths, b: Buffers)
    requires Inv(w, b)
    ensures Unequal(b)
  {
    hide Merge;
    var m := Merge(b.hits, b.decode);
    var p := Ids(b.retired) + Ids(b.rob) + Ids(b.dispatch);
    assert Pipeline(b) == p + Ids(m) + Ids(b.fetch) + Ids(b.input);
    forall i, j | 0 <= i < j < |m| ensures m[i].id < m[j].id {
      assert Pipeline(b)[|p| + i] == Ids(m)[i] && Pipeline(b)[|p| + j] == Ids(m)[j];
    }
    MergeSeparates(b.hits, b.decode);
  }

  /** The first of an ordered merge is older than what is merged behind it. */
  lemma HeadIsOldest(m: seq<Instr>, x: seq<Instr>, y: seq<Instr>)
    requires Increasing(m) && |m| > 0 && m[1..] == Merge(x, y)
    ensures forall z :: z in x || z in y ==> m[0].id < z.id
  {
    hide Merge;
    MergeMembers(x, y);
    forall z | z in x || z in y ensures m[0].id < z.id {
      var p :| 0 <= p < |m[1..]| && m[1..][p] == z;
      assert m[p + 1] == z;
    }
  }

  lemma {:induction false} MergeSeparates(x: seq<Instr>, y: seq<Instr>)
    requires Increasing(Merge(x, y))
    ensures forall i, j :: 0 <= i < |x| && 0 <= j < |y| ==> x[i].id != y[j].id
    decreases |x| + |y|
  {
    hide Merge, Increasing;
    var m := Merge(x, y);
    if |x| > 0 && (|y| == 0 || x[0].id <= y[0].id) {
      TakeHit(x, y);
      TailIncreases(m);
      assert m[1..] == Merge(x[1..], y);
      MergeSeparates(x[1..], y);
      HeadIsOldest(m, x[1..], y);
      assert forall j :: 0 <= j < |y| ==> y[j] in y;
      assert forall i :: 1 <= i < |x| ==> x[i] == x[1..][i - 1];
    } else if |y| > 0 {
      TakeDecode(x, y);
      TailIncreases(m);
      assert m[1..] == Merge(x, y[1..]);
      MergeSeparates(x, y[1..]);
      HeadIsOldest(m, x, y[1..]);
      assert forall i :: 0 <= i < |x| ==> x[i] in x;
      assert forall j :: 1 <= j < |y| ==> y[j] == y[1..][j - 1];
    }
  }

  lemma TailIncreases(s: seq<Instr>)
    requires Increasing(s) && |s| > 0
    ensures Increasing(s[1..])
  {
  }

  /** The scan always takes the oldest instruction of both buffers, and no more than dispatch has room for. */
  lemma ScanTakesOldest(w: Widths, b: Buffers, now: nat)
    requires Inv(w, b)
    ensures var c := FullScan(w, b, now);
      && Cut(b, c) && c.hit + c.dec <= Min(w.inOrder, Room(w.dispatchBuffer, |b.dispatch|))
      && Merge(b.hits, b.decode) == Merge(b.hits[..c.hit], b.decode[..c.dec]) + Merge(b.hits[c.hit..], b.decode[c.dec..])
  {
    hide Merge, ScanBoth, ScanHits, ScanDecode, Pipeline;
    var c := FullScan(w, b, now);
    PathsAreUnequal(w, b);
    var c0 := StartScan(w, b);
    ScanBothCuts(b, c0, now);
    ScanHitsCuts(b, ScanBoth(b, c0, now), now);
    ScanDecodeCuts(b, ScanHits(b, ScanBoth(b, c0, now), now), now);
    assert Below(b.hits[..c.hit], b.hits[c.hit..]) && Below(b.decode[..c.dec], b.decode[c.dec..]);
    MergeAppends(b.hits[..c.hit], b.decode[..c.dec], b.hits[c.hit..], b.decode[c.dec..]);
    assert b.hits[..c.hit] + b.hits[c.hit..] == b.hits && b.decode[..c.dec] + b.decode[c.dec..] == b.decode;
  }

  lemma DecodeKeeps(w: Widths, b: Buffers, now: nat, ready: nat)
    requires Inv(w, b)
    ensures Inv(w, Decode(w, b, now, ready))
  {
    hide Merge, Ids, SetReady, FullScan;
    var c, t := FullScan(w, b, now), Decode(w, b, now, ready);
    ScanTakesOldest(w, b, now);
    var x, y := b.hits[..c.hit], b.decode[..c.dec];
    MergeOfReady(x, y, ready, ready);
    IdsOfSum(b.dispatch, Merge(SetReady(x, ready), SetReady(y, ready)));
    IdsOfSum(Merge(x, y), Merge(t.hits, t.decode));
    Regroup(Ids(b.retired) + Ids(b.rob), Ids(b.dispatch), Ids(Merge(x, y)), Ids(Merge(t.hits, t.decode)),
            Ids(b.fetch) + Ids(b.input));
    var before := Ids(b.retired) + Ids(b.rob);
    assert Pipeline(t) == before + Ids(t.dispatch) + Ids(Merge(t.hits, t.decode)) + (Ids(b.fetch) + Ids(b.input));
    assert Pipeline(b) == before + Ids(b.dispatch) + Ids(Merge(b.hits, b.decode)) + (Ids(b.fetch) + Ids(b.input));
  }

  lemma DispatchKeeps(w: Widths, b: Buffers, room: nat, now: nat, ready: nat)
    requires Inv(w, b)
    ensures Inv(w, Dispatch(w, b, room, now, ready))
  {
    hide Merge, Ids, SetReady;
    var n, t := DispatchCount(w, b.dispatch, |b.rob|, w.dispatch, room, now), Dispatch(w, b, room, now, ready);
    IdsOfParts(b.dispatch, n);
    IdsOfReady(b.dispatch[..n], ready);
    IdsOfSum(b.rob, SetReady(b.dispatch[..n], ready));
    var after := Ids(Merge(b.hits, b.decode)) + Ids(b.fetch) + Ids(b.input);
    Regroup(Ids(b.retired), Ids(b.rob), Ids(b.dispatch[..n]), Ids(b.dispatch[n..]), after);
    assert Pipeline(t) == Ids(b.retired) + Ids(t.rob) + Ids(t.dispatch) + after;
    assert Pipeline(b) == Ids(b.retired) + Ids(b.rob) + Ids(b.dispatch) + after;
  }

  lemma RetireKeeps(w: Widths, b: Buffers)
    requires Inv(w, b)
    ensures Inv(w, Retire(w, b))
  {
    hide Merge, Ids;
    var n, t := CompletedCount(b.rob, w.retire), Retire(w, b);
    IdsOfParts(b.rob, n);
    IdsOfSum(b.retired, b.rob[..n]);
    var after := Ids(b.dispatch) + Ids(Merge(b.hits, b.decode)) + Ids(b.fetch) + Ids(b.input);
    Regroup([], Ids(b.retired), Ids(b.rob[..n]), Ids(b.rob[n..]), after);
    assert Pipeline(t) == Ids(t.retired) + Ids(t.rob) + after;
    assert Pipeline(b) == Ids(b.retired) + Ids(b.rob) + after;
  }

  lemma StepKeeps(w: Widths, b: Buffers, e: Event)
    requires Inv(w, b)
    ensures Inv(w, Step(w, b, e))
  {
    hide Deliver, Initialize, Promote, Decode, Dispatch, Retire, Merge;
    match e
    case Delivering => DeliverKeeps(w, b);
    case Initializing(stopping, now) => InitializeKeeps(w, b, stopping, now);
    case Fetching(k, decoded, now) => assert Ids(Fetch(b, k, decoded, now).fetch) == Ids(b.fetch);
    case Promoting(now, hitReady, decodeReady) => PromoteKeeps(w, b, now, hitReady, decodeReady);
    case Decoding(now, ready) => DecodeKeeps(w, b, now, ready);
    case Dispatching(room, now, ready) => DispatchKeeps(w, b, room, now, ready);
    case Completing(k) => assert Ids(Complete(b, k).rob) == Ids(b.rob);
    case Retiring => RetireKeeps(w, b);
  }

  lemma {:induction false} RunKeeps(w: Widths, b: Buffers, events: seq<Event>)
    requires Inv(w, b)
    ensures Inv(w, Run(w, b, events))
    decreases |events|
  {
    hide Inv, Step;
    if |events| > 0 {
      StepKeeps(w, b, events[0]);
      RunKeeps(w, Step(w, b, events[0]), events[1..]);
    }
  }

  /**
   * In every run the retired instructions, the reorder buffer, the dispatch buffer, the two decode
   * paths taken together, the fetch buffer and the input queue are, one after the other, exactly
   * the instructions delivered so far in order; each buffer keeps within its size.
   */
  lemma InstructionsStayInOrder(w: Widths, events: seq<Event>)
    ensures var b := Run(w, Start(), events);
      && Ids(b.retired) + Ids(b.rob) + Ids(b.dispatch) + Ids(Merge(b.hits, b.decode)) + Ids(b.fetch) + Ids(b.input)
           == seq(b.delivered, i => i)
      && Within(w, b)
      && Ids(b.retired) == seq(|b.retired|, i => i)
  {
    hide Merge, Run, Ids;
    NothingAtStart();
    RunKeeps(w, Start(), events);
    var b := Run(w, Start(), events);
    forall i | 0 <= i < |b.retired| ensures Ids(b.retired)[i] == i {
      assert Pipeline(b)[i] == Ids(b.retired)[i];
    }
  }

  lemma NothingAtStart()
    ensures Pipeline(Start()) == []
  {
  }

  // ---------- The buffers as the core updates them ----------

  class Core {
    const widths: Widths
    var input: seq<Instr>
    var fetch: seq<Instr>
    var hits: seq<Instr>
    var decode: seq<Instr>
    var dispatch: seq<Instr>
    var rob: seq<Instr>
    var retired: seq<Instr>
    var delivered: nat

    ghost function View(): Buffers
      reads this
    {
      Buffers(input, fetch, hits, decode, dispatch, rob, retired, delivered)
    }

    constructor (w: Widths)
      ensures widths == w && View() == Start() && Inv(w, View())
    {
      widths, input, fetch, hits, decode, dispatch, rob, retired, delivered := w, [], [], [], [], [], [], [], 0;
    }

    /** initialize_instruction, when the fetch may resume. */
    method InitializeInstruction(stopping: set<nat>, now: nat)
      requires Inv(widths, View())
      modifies this`input, this`fetch
      ensures View() == Step(widths, old(View()), Initializing(stopping, now)) && Inv(widths, View())
    {
      hide Inv, SetReady;
      StepKeeps(widths, View(), Initializing(stopping, now));
      var bw: nat := Min(widths.fetch, Room(widths.fetchBuffer, |fetch|));
      var stop, n := false, 0;
      ghost var total := ReadCount(input, bw, stopping);
      while bw > 0 && !stop && |input| > 0
        invariant n <= total <= |old(input)| && input == old(input)[n..]
        invariant fetch == old(fetch) + SetReady(old(input)[..n], now)
        invariant total == n + if stop then 0 else ReadCount(input, bw, stopping)
        decreases bw
      {
        bw := bw - 1;
        stop := input[0].id in stopping;
        SetReadyNext(old(input), n, now);
        fetch := fetch + [input[0].(ready := now)];
        input := input[1..];
        n := n + 1;
      }
    }

    /** promote_to_decode. */
    method PromoteToDecode(now: nat, hitReady: nat, decodeReady: nat)
      requires Inv(widths, View())
      modifies this`fetch, this`hits, this`decode
      ensures View() == Step(widths, old(View()), Promoting(now, hitReady, decodeReady)) && Inv(widths, View())
    {
      hide Inv, SetReady, Select;
      StepKeeps(widths, View(), Promoting(now, hitReady, decodeReady));
      var bw := Min(widths.fetch, Min(Room(widths.hitBuffer, |hits|), Room(widths.decodeBuffer, |decode|)));
      var n := 0;
      ghost var total := Window(fetch, bw, now);
      while n < bw && n < |fetch| && fetch[n].fetched && fetch[n].ready <= now
        invariant n <= total <= |fetch| && n <= bw
        invariant total == n + Window(fetch[n..], bw - n, now)
      {
        assert fetch[n..][1..] == fetch[n + 1..];
        n := n + 1;
      }
      assert n == total;
      hits := hits + SetReady(Select(fetch[..n], true), hitReady);
      decode := decode + SetReady(Select(fetch[..n], false), decodeReady);
      fetch := fetch[n..];
    }

    /** The first loop of decode_instruction; the scan is in local variables there. */
    method TakeOlder(now: nat) returns (hit: nat, dec: nat, inOrder: nat, bw: nat)
      ensures Scan(hit, dec, inOrder, bw) == ScanBoth(View(), StartScan(widths, View()), now)
      ensures hit <= |hits| && dec <= |decode|
    {
      hit, dec, inOrder, bw := 0, 0, Min(widths.inOrder, Room(widths.dispatchBuffer, |dispatch|)), widths.decode;
      ghost var c := StartScan(widths, View());
      while hit < |hits| && dec < |decode| && inOrder > 0 && bw > 0 && First(hits[hit], decode[dec]).ready <= now
        invariant hit <= |hits| && dec <= |decode|
        invariant ScanBoth(View(), Scan(hit, dec, inOrder, bw), now) == ScanBoth(View(), c, now)
        decreases inOrder
      {
        if hits[hit].id < decode[dec].id {
          hit, inOrder := hit + 1, inOrder - 1;
        } else {
          dec, inOrder, bw := dec + 1, inOrder - 1, bw - 1;
        }
      }
    }

    /** The second loop. */
    method TakeHits(h: nat, dec: nat, width: nat, bw: nat, now: nat) returns (hit: nat, inOrder: nat)
      requires h <= |hits| && dec <= |decode|
      ensures Scan(hit, dec, inOrder, bw) == ScanHits(View(), Scan(h, dec, width, bw), now)
      ensures hit <= |hits|
    {
      hit, inOrder := h, width;
      while hit < |hits| && inOrder > 0 && hits[hit].ready <= now && (dec == |decode| || hits[hit].id < decode[dec].id)
        invariant hit <= |hits|
        invariant ScanHits(View(), Scan(hit, dec, inOrder, bw), now) == ScanHits(View(), Scan(h, dec, width, bw), now)
        decreases inOrder
      {
        hit, inOrder := hit + 1, inOrder - 1;
      }
    }

    /** The third loop. */
    method TakeDecode(hit: nat, d: nat, width: nat, decodeWidth: nat, now: nat) returns (dec: nat)
      requires hit <= |hits| && d <= |decode|
      ensures dec == ScanDecode(View(), Scan(hit, d, width, decodeWidth), now).dec <= |decode|
      ensures hit == ScanDecode(View(), Scan(hit, d, width, decodeWidth), now).hit
    {
      dec := d;
      var inOrder, bw := width, decodeWidth;
      ghost var c := Scan(hit, d, width, decodeWidth);
      while dec < |decode| && inOrder > 0 && bw > 0 && decode[dec].ready <= now
            && (hit == |hits| || decode[dec].id < hits[hit].id)
        invariant dec <= |decode|
        invariant ScanDecode(View(), Scan(hit, dec, inOrder, bw), now) == ScanDecode(View(), c, now)
        decreases inOrder
      {
        dec, inOrder, bw := dec + 1, inOrder - 1, bw - 1;
      }
    }

    /** decode_instruction. */
    method DecodeInstruction(now: nat, ready: nat)
      requires Inv(widths, View())
      modifies this`hits, this`decode, this`dispatch
      ensures View() == Step(widths, old(View()), Decoding(now, ready)) && Inv(widths, View())
    {
      hide Inv;
      StepKeeps(widths, View(), Decoding(now, ready));
      var h, d, width, bw := TakeOlder(now);
      var hit, left := TakeHits(h, d, width, bw, now);
      var dec := TakeDecode(hit, d, left, bw, now);
      dispatch := dispatch + Merge(SetReady(hits[..hit], ready), SetReady(decode[..dec], ready));
      decode := decode[dec..];
      hits := hits[hit..];
    }

    /** dispatch_instruction. */
    method DispatchInstruction(room: nat, now: nat, ready: nat)
      requires Inv(widths, View())
      modifies this`dispatch, this`rob
      ensures View() == Step(widths, old(View()), Dispatching(room, now, ready)) && Inv(widths, View())
    {
      hide Inv, SetReady;
      StepKeeps(widths, View(), Dispatching(room, now, ready));
      var bw: nat, left: nat, n := widths.dispatch, room, 0;
      ghost var total := DispatchCount(widths, dispatch, |rob|, bw, left, now);
      while bw > 0 && left > 0 && |dispatch| > 0 && dispatch[0].ready <= now && |rob| != widths.robSize
        invariant n <= total <= |old(dispatch)| && dispatch == old(dispatch)[n..]
        invariant rob == old(rob) + SetReady(old(dispatch)[..n], ready)
        invariant total == n + DispatchCount(widths, dispatch, |rob|, bw, left, now)
        decreases bw
      {
        SetReadyNext(old(dispatch), n, ready);
        rob := rob + [dispatch[0].(ready := ready)];
        dispatch := dispatch[1..];
        bw, left, n := bw - 1, left - 1, n + 1;
      }
    }

    /** retire_rob. */
    method RetireRob()
      requires Inv(widths, View())
      modifies this`rob, this`retired
      ensures View() == Step(widths, old(View()), Retiring) && Inv(widths, View())
    {
      hide Inv;
      StepKeeps(widths, View(), Retiring);
      var n := 0;
      ghost var total := CompletedCount(rob, widths.retire);
      while n < widths.retire && n < |rob| && rob[n].completed
        invariant n <= total <= |rob| && n <= widths.retire
        invariant total == n + CompletedCount(rob[n..], widths.retire - n)
      {
        assert rob[n..][1..] == rob[n + 1..];
        n := n + 1;
      }
      assert n == total;
      retired := retired + rob[..n];
      rob := rob[n..];
    }
  }
}
