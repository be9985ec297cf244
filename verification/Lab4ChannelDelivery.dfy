/**
 * Runs of a channel: every accepted request is stood for exactly once, by a waiting entry, by one
 * the cache has taken, or by a response.
 */
module ChannelDelivery {
  import opened Collections
  import opened Powers
  import opened Tallies
  import opened Channel

  // ---------- Tags ----------

  /** An accepted request and the queue it went to. */
  datatype Way = Loads | Prefetches | Stores

  datatype Issue = Issue(way: Way, request: Request)

  function TagsOf(q: seq<Request>): (s: seq<set<nat>>)
    ensures |s| == |q| && forall i :: 0 <= i < |q| ==> s[i] == q[i].tags
  {
    seq(|q|, i requires 0 <= i < |q| => q[i].tags)
  }

  function TagsTold(returned: seq<Response>): (s: seq<set<nat>>)
    ensures |s| == |returned| && forall i :: 0 <= i < |returned| ==> s[i] == returned[i].tags
  {
    seq(|returned|, i requires 0 <= i < |returned| => returned[i].tags)
  }

  /** The number of entries that stand for request `t`. */
  function Held(q: seq<Request>, t: nat): nat {
    Times(TagsOf(q), t)
  }

  /** The number of responses to request `t`. */
  function Told(returned: seq<Response>, t: nat): nat {
    Times(TagsTold(returned), t)
  }

  lemma HeldSum(p: seq<Request>, q: seq<Request>, t: nat)
    ensures Held(p + q, t) == Held(p, t) + Held(q, t)
  {
    assert TagsOf(p + q) == TagsOf(p) + TagsOf(q);
    TimesOfSum(TagsOf(p), TagsOf(q), t);
  }

  lemma ToldSum(a: seq<Response>, b: seq<Response>, t: nat)
    ensures Told(a + b, t) == Told(a, t) + Told(b, t)
  {
    assert TagsTold(a + b) == TagsTold(a) + TagsTold(b);
    TimesOfSum(TagsTold(a), TagsTold(b), t);
  }

  lemma HeldOne(r: Request, t: nat)
    ensures Held([r], t) == Has(r.tags, t)
  {
    assert TagsOf([r]) == [r.tags];
    TimesOfOne(r.tags, t);
  }

  lemma ToldOne(p: Response, t: nat)
    ensures Told([p], t) == Has(p.tags, t)
  {
    assert TagsTold([p]) == [p.tags];
    TimesOfOne(p.tags, t);
  }

  lemma HeldUpdate(q: seq<Request>, i: nat, r: Request, t: nat)
    requires i < |q|
    ensures Held(q[i := r], t) == Held(q, t) - Has(q[i].tags, t) + Has(r.tags, t)
    ensures Held(q, t) >= Has(q[i].tags, t)
  {
    assert TagsOf(q[i := r]) == TagsOf(q)[i := r.tags];
    TimesUpdate(TagsOf(q), i, r.tags, t);
  }

  lemma HeldNot(q: seq<Request>, t: nat)
    ensures Held(q, t) == 0 <==> forall i :: 0 <= i < |q| ==> t !in q[i].tags
  {
    TimesOfAbsent(TagsOf(q), t);
  }

  /** One round moves the tags of `r`: to the entry it is merged into or becomes, or to its response. */
  lemma OneConserves(u: Setup, wq: seq<Request>, done: seq<Request>, r: Request, returned: seq<Response>, t: nat)
    requires Held(done, t) + Has(r.tags, t) <= 1
    ensures var (p, b) := AfterOne(u, wq, done, r, returned);
      && Held(p, t) + Told(b, t) <= Held(done, t) + Has(r.tags, t) + Told(returned, t)
      && Told(b, t) >= Told(returned, t)
      && (r.wants || Unanswered(u, wq, r) || t !in r.tags ==>
            Held(p, t) + Told(b, t) == Held(done, t) + Has(r.tags, t) + Told(returned, t))
  {
    hide Held, Told, SetUnion, Shr;
    if Collides(wq, r, WriteShift(u)) {
      var a := Answer(wq, r, WriteShift(u));
      ToldSum(returned, a, t);
      if r.wants {
        ToldOne(a[0], t);
      } else {
        assert returned + a == returned;
      }
    } else if Collides(done, r, u.offsetBits) {
      var i := FirstMatch(done, r, u.offsetBits);
      HeldUpdate(done, i, Merged(done[i], r), t);
    } else {
      HeldSum(done, [r.(checked := true)], t);
      HeldOne(r.(checked := true), t);
    }
  }

  lemma HeldRest(q: seq<Request>, t: nat)
    requires |q| > 0
    ensures Held(q, t) == Has(q[0].tags, t) + Held(q[1..], t)
  {
    assert q == [q[0]] + q[1..];
    HeldSum([q[0]], q[1..], t);
    HeldOne(q[0], t);
  }

  /** The loop neither repeats nor invents a tag, and loses none whose entry wants a response. */
  lemma {:induction false} ReadsConserve(
      u: Setup, wq: seq<Request>, done: seq<Request>, rest: seq<Request>, returned: seq<Response>, t: nat)
    requires Held(done, t) + Held(rest, t) <= 1
    ensures var o := CheckReads(u, wq, done, rest, returned);
      && Held(o.queue, t) + Told(o.returned, t) <= Held(done, t) + Held(rest, t) + Told(returned, t)
      && Told(o.returned, t) >= Told(returned, t)
      && ((forall i :: 0 <= i < |rest| && t in rest[i].tags ==> rest[i].wants || Unanswered(u, wq, rest[i])) ==>
            Held(o.queue, t) + Told(o.returned, t) == Held(done, t) + Held(rest, t) + Told(returned, t))
    decreases |rest|
  {
    hide Collides, MergeInto, Answer, Held, Told;
    if |rest| == 0 {
      HeldNot(rest, t);
    } else {
      var (p, b) := AfterOne(u, wq, done, rest[0], returned);
      HeldRest(rest, t);
      OneConserves(u, wq, done, rest[0], returned, t);
      assert Held(p, t) <= Held(done, t) + Has(rest[0].tags, t);
      ReadsConserve(u, wq, p, rest[1..], b, t);
      assert forall i :: 0 <= i < |rest[1..]| ==> rest[1..][i] == rest[i + 1];
    }
  }

  // ---------- Entries and responses speak for the requests they name ----------

  predicate Wanted(issued: seq<Issue>, tags: set<nat>) {
    exists t :: t in tags && t < |issued| && issued[t].request.wants
  }

  predicate Depended(issued: seq<Issue>, tags: set<nat>, x: nat) {
    exists t :: t in tags && t < |issued| && x in issued[t].request.deps
  }

  /** The entry does what each request it names asks for, and nothing that none of them asks for. */
  ghost predicate EntrySpeaks(shift: nat, way: Way, issued: seq<Issue>, e: Request) {
    && (forall t :: t in e.tags ==> t < |issued| && issued[t].way == way && Covers(shift, e, issued[t].request))
    && (e.wants ==> Wanted(issued, e.tags))
    && (forall x :: x in e.deps ==> Depended(issued, e.tags, x))
  }

  ghost predicate AnswerSpeaks(shift: nat, issued: seq<Issue>, p: Response) {
    && (forall t :: t in p.tags ==> t < |issued| && issued[t].way != Stores && AnswerFor(shift, p, issued[t].request))
    && Wanted(issued, p.tags)
    && (forall x :: x in p.deps ==> Depended(issued, p.tags, x))
  }

  ghost predicate EntriesSpeak(shift: nat, way: Way, issued: seq<Issue>, q: seq<Request>) {
    forall i :: 0 <= i < |q| ==> EntrySpeaks(shift, way, issued, q[i])
  }

  ghost predicate AnswersSpeak(shift: nat, issued: seq<Issue>, returned: seq<Response>) {
    forall i :: 0 <= i < |returned| ==> AnswerSpeaks(shift, issued, returned[i])
  }

  lemma MergedSpeaks(shift: nat, way: Way, issued: seq<Issue>, e: Request, r: Request)
    requires EntrySpeaks(shift, way, issued, e) && EntrySpeaks(shift, way, issued, r)
    requires SameBlock(e, r, shift) && e.translated == r.translated && Increasing(e.deps) && Increasing(r.deps)
    ensures EntrySpeaks(shift, way, issued, Merged(e, r))
  {
    hide Shr, Increasing, SetUnion;
    var m := Merged(e, r);
    SetUnionIsUnion(e.deps, r.deps);
    forall t | t in m.tags ensures t < |issued| && issued[t].way == way && Covers(shift, m, issued[t].request) {
      assert t in e.tags || t in r.tags;
    }
    if m.wants {
      assert Wanted(issued, if e.wants then e.tags else r.tags);
      var t :| t in (if e.wants then e.tags else r.tags) && t < |issued| && issued[t].request.wants;
      assert t in m.tags;
    }
    forall x | x in m.deps ensures Depended(issued, m.tags, x) {
      var t :| (t in e.tags || t in r.tags) && t < |issued| && x in issued[t].request.deps;
      assert t in m.tags;
    }
  }

  lemma ReadSpeaks(
      u: Setup, way: Way, issued: seq<Issue>, wq: seq<Request>, done: seq<Request>, r: Request, returned: seq<Response>)
    requires way != Stores || wq == []
    requires EntriesSpeak(u.offsetBits, way, issued, done) && EntrySpeaks(u.offsetBits, way, issued, r)
    requires AnswersSpeak(u.offsetBits, issued, returned) && Ordered(done) && Increasing(r.deps)
    ensures var (p, b) := AfterOne(u, wq, done, r, returned);
      EntriesSpeak(u.offsetBits, way, issued, p) && AnswersSpeak(u.offsetBits, issued, b)
  {
    hide EntrySpeaks, Shr, Increasing, SetUnion, Merged;
    if Collides(wq, r, WriteShift(u)) {
      if r.wants {
        AnsweredSpeaks(u.offsetBits, way, issued, r, Answer(wq, r, WriteShift(u))[0]);
      }
    } else if Collides(done, r, u.offsetBits) {
      MergedSpeaks(u.offsetBits, way, issued, done[FirstMatch(done, r, u.offsetBits)], r);
    } else {
      CheckedSpeaks(u.offsetBits, way, issued, r);
    }
  }

  lemma AnsweredSpeaks(shift: nat, way: Way, issued: seq<Issue>, r: Request, p: Response)
    requires EntrySpeaks(shift, way, issued, r) && way != Stores && r.wants
    requires p.address == r.address && p.deps == r.deps && p.tags == r.tags
    ensures AnswerSpeaks(shift, issued, p)
  {
    hide Shr;
  }

  lemma CheckedSpeaks(shift: nat, way: Way, issued: seq<Issue>, r: Request)
    requires EntrySpeaks(shift, way, issued, r)
    ensures EntrySpeaks(shift, way, issued, r.(checked := true))
  {
    hide Shr;
  }

  lemma {:induction false} ReadsSpeak(
      u: Setup, way: Way, issued: seq<Issue>, wq: seq<Request>, done: seq<Request>, rest: seq<Request>,
      returned: seq<Response>)
    requires way != Stores || wq == []
    requires EntriesSpeak(u.offsetBits, way, issued, done) && EntriesSpeak(u.offsetBits, way, issued, rest)
    requires AnswersSpeak(u.offsetBits, issued, returned) && Ordered(done) && Ordered(rest) && AllChecked(done)
    ensures var o := CheckReads(u, wq, done, rest, returned);
      EntriesSpeak(u.offsetBits, way, issued, o.queue) && AnswersSpeak(u.offsetBits, issued, o.returned)
    decreases |rest|
  {
    hide EntrySpeaks, AnswerSpeaks, Increasing, Collides, MergeInto, Answer, Served;
    if |rest| > 0 {
      var (p, b) := AfterOne(u, wq, done, rest[0], returned);
      ReadSpeaks(u, way, issued, wq, done, rest[0], returned);
      ReadIsServed(u, wq, done, rest[0], returned);
      assert forall i :: 0 <= i < |rest[1..]| ==> rest[1..][i] == rest[i + 1];
      ReadsSpeak(u, way, issued, wq, p, rest[1..], b);
    }
  }

  // ---------- Runs ----------

  /** `taken` lists what the cache took from the front of the queue. */
  datatype Lane = Lane(queue: seq<Request>, taken: seq<Request>)

  /** `issued` lists the requests accepted so far; the tag of a request is its position in it. */
  datatype State = State(loads: Lane, prefetches: Lane, stores: Lane, returned: seq<Response>, issued: seq<Issue>)

  function LaneOf(s: State, way: Way): Lane {
    match way
    case Loads => s.loads
    case Prefetches => s.prefetches
    case Stores => s.stores
  }

  function WithLane(s: State, way: Way, l: Lane): State {
    match way
    case Loads => s.(loads := l)
    case Prefetches => s.(prefetches := l)
    case Stores => s.(stores := l)
  }

  function SizeOf(u: Setup, way: Way): nat {
    match way
    case Loads => u.rqSize
    case Prefetches => u.pqSize
    case Stores => u.wqSize
  }

  /** The width of the offset at which requests of a queue are compared with each other. */
  function ShiftOf(u: Setup, way: Way): nat {
    if way == Stores then WriteShift(u) else u.offsetBits
  }

  datatype Event = Add(way: Way, request: Request) | Take(way: Way, count: nat) | CheckCollision

  /** do_add_queue: a full queue refuses, and a new request is unchecked. */
  function AddTo(u: Setup, s: State, way: Way, r: Request): State {
    var l := LaneOf(s, way);
    if |l.queue| >= SizeOf(u, way) then s
    else
      WithLane(s, way, l.(queue := l.queue + [r.(checked := false, tags := {|s.issued|})]))
      .(issued := s.issued + [Issue(way, r)])
  }

  function TakeFrom(l: Lane, count: nat): Lane {
    var n := if count < |l.queue| then count else |l.queue|;
    Lane(l.queue[n..], l.taken + l.queue[..n])
  }

  /** check_collision: writes first, then reads and prefetches against the remaining writes. */
  function Check(u: Setup, s: State): State {
    var wq := CheckWriteQueue(u, s.stores.queue);
    var rq := CheckReadQueue(u, wq, s.loads.queue, s.returned);
    var pq := CheckReadQueue(u, wq, s.prefetches.queue, rq.returned);
    State(s.loads.(queue := rq.queue), s.prefetches.(queue := pq.queue), s.stores.(queue := wq), pq.returned, s.issued)
  }

  function Step(u: Setup, s: State, e: Event): State {
    match e
    case Add(way, r) => AddTo(u, s, way, r)
    case Take(way, n) => WithLane(s, way, TakeFrom(LaneOf(s, way), n))
    case CheckCollision => Check(u, s)
  }

  /** The requests come with ordered dependents. */
  ghost predicate Sound(e: Event) {
    e.Add? ==> Increasing(e.request.deps)
  }

  function Run(u: Setup, s: State, events: seq<Event>): State
    decreases |events|
  {
    if |events| == 0 then s else Run(u, Step(u, s, events[0]), events[1..])
  }

  function Start(): State {
    State(Lane([], []), Lane([], []), Lane([], []), [], [])
  }

  /** The checked entries come before the unchecked ones. */
  ghost predicate CheckedFirst(q: seq<Request>) {
    forall i, j :: 0 <= i < j < |q| && q[j].checked ==> q[i].checked
  }

  ghost predicate LaneOk(u: Setup, way: Way, issued: seq<Issue>, l: Lane) {
    && Ordered(l.queue) && CheckedFirst(l.queue) && |l.queue| <= SizeOf(u, way)
    && EntriesSpeak(ShiftOf(u, way), way, issued, l.queue) && EntriesSpeak(ShiftOf(u, way), way, issued, l.taken)
  }

  /** How often request `t` is stood for: waiting or taken in a lane, or answered. */
  function Places(way: Way, l: Lane, returned: seq<Response>, t: nat): nat {
    Held(l.queue, t) + Held(l.taken, t) + if way == Stores then 0 else Told(returned, t)
  }

  /** At most once, and exactly once if it wants a response or is a write. */
  ghost predicate Once(s: State, t: nat) {
    t < |s.issued| ==>
      var i := s.issued[t];
      var n := Places(i.way, LaneOf(s, i.way), s.returned, t);
      n <= 1 && (i.request.wants || i.way == Stores ==> n == 1)
  }

  ghost predicate Inv(u: Setup, s: State) {
    && (forall way :: LaneOk(u, way, s.issued, LaneOf(s, way)))
    && AnswersSpeak(u.offsetBits, s.issued, s.returned)
    && (forall t: nat :: Once(s, t))
  }

  // ---------- Adding and taking ----------

  lemma MoreIssued(shift: nat, way: Way, issued: seq<Issue>, i: Issue, e: Request)
    requires EntrySpeaks(shift, way, issued, e)
    ensures EntrySpeaks(shift, way, issued + [i], e)
  {
    hide Covers;
    var more := issued + [i];
    assert forall t :: 0 <= t < |issued| ==> more[t] == issued[t];
    if e.wants {
      var t :| t in e.tags && t < |issued| && issued[t].request.wants;
      assert more[t].request.wants;
    }
    forall x | x in e.deps ensures Depended(more, e.tags, x) {
      assert Depended(issued, e.tags, x);
      var t :| t in e.tags && t < |issued| && x in issued[t].request.deps;
      assert x in more[t].request.deps;
    }
  }

  lemma MoreIssuedAnswer(shift: nat, issued: seq<Issue>, i: Issue, p: Response)
    requires AnswerSpeaks(shift, issued, p)
    ensures AnswerSpeaks(shift, issued + [i], p)
  {
    hide AnswerFor;
    var more := issued + [i];
    assert forall t :: 0 <= t < |issued| ==> more[t] == issued[t];
    var t :| t in p.tags && t < |issued| && issued[t].request.wants;
    assert more[t].request.wants;
    forall x | x in p.deps ensures Depended(more, p.tags, x) {
      assert Depended(issued, p.tags, x);
      var t :| t in p.tags && t < |issued| && x in issued[t].request.deps;
      assert x in more[t].request.deps;
    }
  }

  lemma NewSpeaks(shift: nat, way: Way, issued: seq<Issue>, r: Request)
    ensures EntrySpeaks(shift, way, issued + [Issue(way, r)], r.(checked := false, tags := {|issued|}))
  {
    hide Shr;
    var more := issued + [Issue(way, r)];
    assert more[|issued|] == Issue(way, r);
    var e := r.(checked := false, tags := {|issued|});
    assert e.wants ==> Wanted(more, e.tags);
    forall x | x in e.deps ensures Depended(more, e.tags, x) {
      assert x in more[|issued|].request.deps;
    }
  }

  /** A request that no entry can name is held nowhere. */
  lemma NotYetHeld(u: Setup, way: Way, issued: seq<Issue>, l: Lane, t: nat)
    requires LaneOk(u, way, issued, l) && (t >= |issued| || issued[t].way != way)
    ensures Held(l.queue, t) == 0 && Held(l.taken, t) == 0
  {
    hide Ordered, Covers, Held;
    HeldNot(l.queue, t);
    HeldNot(l.taken, t);
    assert forall i :: 0 <= i < |l.queue| ==> EntrySpeaks(ShiftOf(u, way), way, issued, l.queue[i]);
    assert forall i :: 0 <= i < |l.taken| ==> EntrySpeaks(ShiftOf(u, way), way, issued, l.taken[i]);
  }

  lemma NotYetTold(shift: nat, issued: seq<Issue>, returned: seq<Response>, t: nat)
    requires AnswersSpeak(shift, issued, returned) && (t >= |issued| || issued[t].way == Stores)
    ensures Told(returned, t) == 0
  {
    hide AnswerFor;
    TimesOfAbsent(TagsTold(returned), t);
    assert forall i :: 0 <= i < |returned| ==> AnswerSpeaks(shift, issued, returned[i]);
  }

  lemma MoreIssuedLane(u: Setup, way: Way, issued: seq<Issue>, i: Issue, l: Lane)
    requires LaneOk(u, way, issued, l)
    ensures LaneOk(u, way, issued + [i], l)
  {
    hide EntrySpeaks, Ordered, CheckedFirst;
    var shift := ShiftOf(u, way);
    forall k | 0 <= k < |l.queue| ensures EntrySpeaks(shift, way, issued + [i], l.queue[k]) {
      MoreIssued(shift, way, issued, i, l.queue[k]);
    }
    forall k | 0 <= k < |l.taken| ensures EntrySpeaks(shift, way, issued + [i], l.taken[k]) {
      MoreIssued(shift, way, issued, i, l.taken[k]);
    }
  }

  lemma AddKeepsLane(u: Setup, way: Way, issued: seq<Issue>, l: Lane, r: Request)
    requires LaneOk(u, way, issued, l) && Increasing(r.deps) && |l.queue| < SizeOf(u, way)
    ensures var e := r.(checked := false, tags := {|issued|});
      LaneOk(u, way, issued + [Issue(way, r)], l.(queue := l.queue + [e]))
  {
    hide EntrySpeaks, Increasing;
    MoreIssuedLane(u, way, issued, Issue(way, r), l);
    NewSpeaks(ShiftOf(u, way), way, issued, r);
  }

  lemma AddKeeps(u: Setup, s: State, way: Way, r: Request)
    requires Inv(u, s) && Increasing(r.deps)
    ensures Inv(u, AddTo(u, s, way, r))
  {
    hide LaneOk, AnswerSpeaks, Held, Told, Increasing;
    var d, l := AddTo(u, s, way, r), LaneOf(s, way);
    if |l.queue| < SizeOf(u, way) {
      var i, e := Issue(way, r), r.(checked := false, tags := {|s.issued|});
      forall w ensures LaneOk(u, w, d.issued, LaneOf(d, w)) {
        if w == way {
          AddKeepsLane(u, way, s.issued, l, r);
        } else {
          MoreIssuedLane(u, w, s.issued, i, LaneOf(s, w));
        }
      }
      forall k | 0 <= k < |d.returned| ensures AnswerSpeaks(u.offsetBits, d.issued, d.returned[k]) {
        MoreIssuedAnswer(u.offsetBits, s.issued, i, s.returned[k]);
      }
      forall t: nat ensures Once(d, t) {
        HeldSum(l.queue, [e], t);
        HeldOne(e, t);
        if t < |s.issued| {
          assert Once(s, t) && d.issued[t] == s.issued[t];
        } else if t == |s.issued| {
          NotYetHeld(u, way, s.issued, l, t);
          NotYetTold(u.offsetBits, s.issued, s.returned, t);
        }
      }
    }
  }

  lemma TakeKeepsLane(u: Setup, way: Way, issued: seq<Issue>, l: Lane, count: nat)
    requires LaneOk(u, way, issued, l)
    ensures LaneOk(u, way, issued, TakeFrom(l, count))
  {
    hide EntrySpeaks, Increasing;
    var m := TakeFrom(l, count);
    var n := |l.queue| - |m.queue|;
    assert forall i :: 0 <= i < |m.queue| ==> m.queue[i] == l.queue[n + i];
    assert forall i :: 0 <= i < |m.taken| ==>
      m.taken[i] == if i < |l.taken| then l.taken[i] else l.queue[i - |l.taken|];
  }

  lemma TakeKeepsPlaces(l: Lane, count: nat, t: nat)
    ensures var m := TakeFrom(l, count);
      Held(m.queue, t) + Held(m.taken, t) == Held(l.queue, t) + Held(l.taken, t)
  {
    hide Held;
    var m := TakeFrom(l, count);
    var n := |l.queue| - |m.queue|;
    assert l.queue == l.queue[..n] + l.queue[n..];
    HeldSum(l.queue[..n], l.queue[n..], t);
    HeldSum(l.taken, l.queue[..n], t);
  }

  lemma TakeKeeps(u: Setup, s: State, way: Way, count: nat)
    requires Inv(u, s)
    ensures Inv(u, WithLane(s, way, TakeFrom(LaneOf(s, way), count)))
  {
    hide LaneOk, AnswersSpeak, Held, Told, TakeFrom;
    var d := WithLane(s, way, TakeFrom(LaneOf(s, way), count));
    TakeKeepsLane(u, way, s.issued, LaneOf(s, way), count);
    forall w ensures LaneOk(u, w, d.issued, LaneOf(d, w)) {
      assert LaneOk(u, w, s.issued, LaneOf(s, w));
    }
    forall t: nat ensures Once(d, t) {
      assert Once(s, t);
      TakeKeepsPlaces(LaneOf(s, way), count, t);
    }
  }

  // ---------- Checking ----------

  lemma CheckKeepsLane(u: Setup, way: Way, issued: seq<Issue>, wq: seq<Request>, l: Lane, returned: seq<Response>)
    requires LaneOk(u, way, issued, l) && AnswersSpeak(u.offsetBits, issued, returned) && way != Stores
    ensures var o := CheckReadQueue(u, wq, l.queue, returned);
      && LaneOk(u, way, issued, l.(queue := o.queue)) && AllChecked(o.queue)
      && AnswersSpeak(u.offsetBits, issued, o.returned)
  {
    hide EntrySpeaks, AnswerSpeaks, Increasing, CheckReads, Served;
    var n := CheckedCount(l.queue);
    NoWaiterIsLost(u, wq, l.queue, returned);
    assert forall i :: 0 <= i < n ==> l.queue[..n][i] == l.queue[i];
    assert forall i :: 0 <= i < |l.queue| - n ==> l.queue[n..][i] == l.queue[n + i];
    ReadsSpeak(u, way, issued, wq, l.queue[..n], l.queue[n..], returned);
  }

  lemma CheckKeepsStores(u: Setup, issued: seq<Issue>, l: Lane)
    requires LaneOk(u, Stores, issued, l)
    ensures var wq := CheckWriteQueue(u, l.queue);
      LaneOk(u, Stores, issued, l.(queue := wq)) && AllChecked(wq)
  {
    hide EntrySpeaks, Increasing, CheckWrites, CheckReads, Served, WriteShift, CoveredIn;
    var n := CheckedCount(l.queue);
    WriteQueueAsReadQueue(u, l.queue, []);
    WritesAreKept(u, l.queue);
    assert forall i :: 0 <= i < n ==> l.queue[..n][i] == l.queue[i];
    assert forall i :: 0 <= i < |l.queue| - n ==> l.queue[n..][i] == l.queue[n + i];
    ReadsSpeak(AsReads(u), Stores, issued, [], l.queue[..n], l.queue[n..], []);
  }

  /** What an accepted request named by an entry wants, the entry wants. */
  lemma NamedWants(shift: nat, way: Way, issued: seq<Issue>, q: seq<Request>, t: nat)
    requires EntriesSpeak(shift, way, issued, q) && t < |issued| && issued[t].request.wants
    ensures forall i :: 0 <= i < |q| && t in q[i].tags ==> q[i].wants
  {
    hide Shr;
    forall i | 0 <= i < |q| && t in q[i].tags ensures q[i].wants {
      assert EntrySpeaks(shift, way, issued, q[i]);
    }
  }

  lemma CheckConserves(
      u: Setup, wq: seq<Request>, q: seq<Request>, returned: seq<Response>, t: nat)
    requires Held(q, t) <= 1
    ensures var o := CheckReadQueue(u, wq, q, returned);
      && Held(o.queue, t) + Told(o.returned, t) <= Held(q, t) + Told(returned, t)
      && Told(o.returned, t) >= Told(returned, t)
      && ((forall i :: 0 <= i < |q| && t in q[i].tags ==> q[i].wants || Unanswered(u, wq, q[i])) ==>
            Held(o.queue, t) + Told(o.returned, t) == Held(q, t) + Told(returned, t))
  {
    hide Held, Told, CheckReads, Unanswered;
    var n := CheckedCount(q);
    assert q == q[..n] + q[n..];
    HeldSum(q[..n], q[n..], t);
    assert forall i :: 0 <= i < |q| - n ==> q[n..][i] == q[n + i];
    ReadsConserve(u, wq, q[..n], q[n..], returned, t);
  }

  lemma CheckConservesWrites(u: Setup, wq: seq<Request>, t: nat)
    requires Held(wq, t) <= 1
    ensures Held(CheckWriteQueue(u, wq), t) == Held(wq, t)
  {
    hide Held, CheckReadQueue, CheckWriteQueue, Unanswered;
    CheckConserves(AsReads(u), [], wq, [], t);
    WriteQueueAsReadQueue(u, wq, []);
    forall i | 0 <= i < |wq| ensures Unanswered(AsReads(u), [], wq[i]) {
      NothingAnswers(AsReads(u), wq[i]);
    }
  }

  lemma NothingAnswers(u: Setup, r: Request)
    ensures Unanswered(u, [], r)
  {
  }

  /** A check leaves the places of a request as they are, or moves it to a response. */
  lemma CheckKeepsOnce(u: Setup, s: State, t: nat)
    requires Inv(u, s)
    ensures Once(Check(u, s), t)
  {
    hide LaneOk, AnswersSpeak, Held, Told, CheckReadQueue, CheckWriteQueue, Unanswered;
    if t < |s.issued| {
      var i := s.issued[t];
      assert Once(s, t);
      forall way | way != i.way ensures Held(LaneOf(s, way).queue, t) == 0 {
        NotYetHeld(u, way, s.issued, LaneOf(s, way), t);
      }
      var wq := CheckWriteQueue(u, s.stores.queue);
      var rq := CheckReadQueue(u, wq, s.loads.queue, s.returned);
      assert Held(LaneOf(s, Loads).queue, t) <= 1 && Held(LaneOf(s, Prefetches).queue, t) <= 1;
      CheckConserves(u, wq, s.loads.queue, s.returned, t);
      CheckConserves(u, wq, s.prefetches.queue, rq.returned, t);
      if i.way == Stores {
        CheckConservesWrites(u, s.stores.queue, t);
      } else if i.request.wants {
        WantedEverywhere(u, s, i.way, t);
        NotNamed(u, s, if i.way == Loads then Prefetches else Loads, t);
      }
    }
  }

  lemma WantedEverywhere(u: Setup, s: State, way: Way, t: nat)
    requires LaneOk(u, way, s.issued, LaneOf(s, way)) && t < |s.issued| && s.issued[t].request.wants
    ensures forall i :: 0 <= i < |LaneOf(s, way).queue| && t in LaneOf(s, way).queue[i].tags ==> LaneOf(s, way).queue[i].wants
  {
    hide EntriesSpeak, Ordered, CheckedFirst;
    NamedWants(ShiftOf(u, way), way, s.issued, LaneOf(s, way).queue, t);
  }

  lemma NotNamed(u: Setup, s: State, way: Way, t: nat)
    requires LaneOk(u, way, s.issued, LaneOf(s, way)) && t < |s.issued| && s.issued[t].way != way
    ensures forall i :: 0 <= i < |LaneOf(s, way).queue| ==> t !in LaneOf(s, way).queue[i].tags
  {
    hide LaneOk;
    NotYetHeld(u, way, s.issued, LaneOf(s, way), t);
    HeldNot(LaneOf(s, way).queue, t);
  }

  lemma CheckKeeps(u: Setup, s: State)
    requires Inv(u, s)
    ensures Inv(u, Check(u, s))
    ensures forall way :: AllChecked(LaneOf(Check(u, s), way).queue)
  {
    hide LaneOk, CheckWriteQueue, CheckReadQueue, AnswersSpeak, AllChecked, Once;
    assert LaneOk(u, Loads, s.issued, LaneOf(s, Loads)) && LaneOk(u, Prefetches, s.issued, LaneOf(s, Prefetches))
        && LaneOk(u, Stores, s.issued, LaneOf(s, Stores));
    var wq := CheckWriteQueue(u, s.stores.queue);
    var rq := CheckReadQueue(u, wq, s.loads.queue, s.returned);
    CheckKeepsStores(u, s.issued, s.stores);
    CheckKeepsLane(u, Loads, s.issued, wq, s.loads, s.returned);
    CheckKeepsLane(u, Prefetches, s.issued, wq, s.prefetches, rq.returned);
    forall t: nat ensures Once(Check(u, s), t) {
      CheckKeepsOnce(u, s, t);
    }
  }

  lemma StepKeeps(u: Setup, s: State, e: Event)
    requires Inv(u, s) && Sound(e)
    ensures Inv(u, Step(u, s, e))
  {
    hide Inv, Check, AddTo, TakeFrom, Increasing;
    match e
    case Add(way, r) => AddKeeps(u, s, way, r);
    case Take(way, n) => TakeKeeps(u, s, way, n);
    case CheckCollision => CheckKeeps(u, s);
  }

  lemma StartOk(u: Setup)
    ensures Inv(u, Start())
  {
    hide EntrySpeaks, AnswerSpeaks;
  }

  lemma {:induction false} RunKeeps(u: Setup, s: State, events: seq<Event>)
    requires Inv(u, s) && forall i :: 0 <= i < |events| ==> Sound(events[i])
    ensures Inv(u, Run(u, s, events))
    decreases |events|
  {
    hide Inv, Step, Sound;
    if |events| > 0 {
      StepKeeps(u, s, events[0]);
      assert forall i :: 0 <= i < |events[1..]| ==> events[1..][i] == events[i + 1];
      RunKeeps(u, Step(u, s, events[0]), events[1..]);
    }
  }

  /**
   * In every run each accepted request that wants a response, and each write, is stood for exactly
   * once, and any other at most once: by a waiting entry of the queue it went to, by an entry the
   * cache has taken from that queue, or, for a read or prefetch, by a response. Entries and responses
   * are for the block of each request they name, with its dependents and no others; the queues keep
   * within their sizes, dependents are in order, and checked entries come first.
   */
  lemma WaitersArePreserved(u: Setup, events: seq<Event>, way: Way, t: nat)
    requires forall i :: 0 <= i < |events| ==> Sound(events[i])
    ensures var s := Run(u, Start(), events);
      var l := LaneOf(s, way);
      && (t < |s.issued| && s.issued[t].way == way ==>
            var n := Held(l.queue, t) + Held(l.taken, t) + if way == Stores then 0 else Told(s.returned, t);
            n <= 1 && (s.issued[t].request.wants || way == Stores ==> n == 1))
      && (t >= |s.issued| || s.issued[t].way != way ==> Held(l.queue, t) == 0 && Held(l.taken, t) == 0)
      && EntriesSpeak(ShiftOf(u, way), way, s.issued, l.queue) && EntriesSpeak(ShiftOf(u, way), way, s.issued, l.taken)
      && AnswersSpeak(u.offsetBits, s.issued, s.returned)
      && Ordered(l.queue) && CheckedFirst(l.queue) && |l.queue| <= SizeOf(u, way)
  {
    hide Run, Increasing, EntrySpeaks, AnswerSpeaks, Held, Told;
    StartOk(u);
    RunKeeps(u, Start(), events);
    var s := Run(u, Start(), events);
    assert LaneOk(u, way, s.issued, LaneOf(s, way)) && Once(s, t);
    if t >= |s.issued| || s.issued[t].way != way {
      NotYetHeld(u, way, s.issued, LaneOf(s, way), t);
    }
  }

  // ---------- One entry for each block in runs ----------

  /** The requests of a lane agree in translation, and its checked entries are for different blocks. */
  ghost predicate Lone(shift: nat, q: seq<Request>, translated: bool) {
    Uniform(q, translated) && BlocksDiffer(shift, q[..CheckedCount(q)])
  }

  /** Where the checked entries come first, they are those of the counted prefix. */
  lemma {:induction false} CountedAreChecked(q: seq<Request>)
    requires CheckedFirst(q)
    ensures forall i :: 0 <= i < |q| ==> (q[i].checked <==> i < CheckedCount(q))
  {
    if |q| > 0 {
      forall i, j | 0 <= i < j < |q[1..]| && q[1..][j].checked ensures q[1..][i].checked {
        assert q[1..][i] == q[i + 1] && q[1..][j] == q[j + 1];
      }
      CountedAreChecked(q[1..]);
      assert forall i :: 1 <= i < |q| ==> q[i] == q[1..][i - 1];
    }
  }

  /** Entries of `p` are entries of `q` in order, with their addresses, and checked ones only where they were. */
  lemma LonePart(shift: nat, q: seq<Request>, p: seq<Request>, from: nat, translated: bool)
    requires CheckedFirst(q) && CheckedFirst(p) && Lone(shift, q, translated) && Uniform(p, translated)
    requires forall i :: 0 <= i < |p| && p[i].checked ==> from + i < |q| && p[i] == q[from + i]
    ensures Lone(shift, p, translated)
  {
    hide Shr;
    CountedAreChecked(q);
    CountedAreChecked(p);
    var a, b := q[..CheckedCount(q)], p[..CheckedCount(p)];
    forall i, j | 0 <= i < j < |b| ensures !SameBlock(b[i], b[j], shift) {
      assert b[i] == p[i] == a[from + i] && b[j] == p[j] == a[from + j];
    }
  }

  lemma CheckedQueueIsLone(u: Setup, wq: seq<Request>, q: seq<Request>, returned: seq<Response>, translated: bool)
    requires Lone(u.offsetBits, q, translated)
    ensures Lone(u.offsetBits, CheckReadQueue(u, wq, q, returned).queue, translated)
  {
    hide CheckReadQueue, SameBlock;
    OneEntryPerBlock(u, wq, q, returned, translated);
    var from := CheckKeepsOrder(u, wq, q, returned);
    var p := CheckReadQueue(u, wq, q, returned).queue;
    assert forall i :: 0 <= i < CheckedCount(p) ==> p[..CheckedCount(p)][i] == p[i];
  }

  lemma CheckKeepsLone(u: Setup, s: State, way: Way, translated: bool)
    requires Lone(ShiftOf(u, way), LaneOf(s, way).queue, translated)
    ensures Lone(ShiftOf(u, way), LaneOf(Check(u, s), way).queue, translated)
  {
    hide CheckReadQueue, CheckWriteQueue, Lone;
    var wq := CheckWriteQueue(u, s.stores.queue);
    var rq := CheckReadQueue(u, wq, s.loads.queue, s.returned);
    match way {
      case Loads => CheckedQueueIsLone(u, wq, s.loads.queue, s.returned, translated);
      case Prefetches => CheckedQueueIsLone(u, wq, s.prefetches.queue, rq.returned, translated);
      case Stores =>
        CheckedQueueIsLone(AsReads(u), [], s.stores.queue, [], translated);
        WriteQueueAsReadQueue(u, s.stores.queue, []);
    }
  }

  /** The request, if it goes to this queue, has the translation. */
  predicate Suits(e: Event, way: Way, translated: bool) {
    e.Add? && e.way == way ==> e.request.translated == translated
  }

  lemma AddKeepsLone(shift: nat, q: seq<Request>, e: Request, translated: bool)
    requires CheckedFirst(q) && Lone(shift, q, translated) && !e.checked && e.translated == translated
    ensures Lone(shift, q + [e], translated)
  {
    hide BlocksDiffer, CheckedCount;
    LonePart(shift, q, q + [e], 0, translated);
  }

  lemma TakeKeepsLone(shift: nat, q: seq<Request>, n: nat, translated: bool)
    requires CheckedFirst(q) && Lone(shift, q, translated) && n <= |q|
    ensures Lone(shift, q[n..], translated)
  {
    hide BlocksDiffer, CheckedCount;
    assert forall i :: 0 <= i < |q| - n ==> q[n..][i] == q[n + i];
    LonePart(shift, q, q[n..], n, translated);
  }

  lemma StepKeepsLone(u: Setup, s: State, e: Event, way: Way, translated: bool)
    requires Inv(u, s) && Suits(e, way, translated) && Lone(ShiftOf(u, way), LaneOf(s, way).queue, translated)
    ensures Lone(ShiftOf(u, way), LaneOf(Step(u, s, e), way).queue, translated)
  {
    hide Inv, Lone, Check, CheckedFirst;
    var q := LaneOf(s, way).queue;
    QueueIsOrderly(u, s, way);
    match e
    case Add(w, r) =>
      if w == way {
        AddKeepsLone(ShiftOf(u, way), q, r.(checked := false, tags := {|s.issued|}), translated);
      }
    case Take(w, count) =>
      if w == way {
        TakeKeepsLone(ShiftOf(u, way), q, if count < |q| then count else |q|, translated);
      }
    case CheckCollision => CheckKeepsLone(u, s, way, translated);
  }

  lemma QueueIsOrderly(u: Setup, s: State, way: Way)
    requires Inv(u, s)
    ensures CheckedFirst(LaneOf(s, way).queue)
  {
    hide EntriesSpeak, AnswersSpeak;
    assert LaneOk(u, way, s.issued, LaneOf(s, way));
  }

  lemma {:induction false} RunKeepsLone(u: Setup, s: State, events: seq<Event>, way: Way, translated: bool)
    requires Inv(u, s) && Lone(ShiftOf(u, way), LaneOf(s, way).queue, translated)
    requires forall i :: 0 <= i < |events| ==> Sound(events[i]) && Suits(events[i], way, translated)
    ensures Lone(ShiftOf(u, way), LaneOf(Run(u, s, events), way).queue, translated)
    decreases |events|
  {
    hide Inv, Step, Sound, Suits, Lone;
    if |events| > 0 {
      StepKeeps(u, s, events[0]);
      StepKeepsLone(u, s, events[0], way, translated);
      assert forall i :: 0 <= i < |events[1..]| ==> events[1..][i] == events[i + 1];
      RunKeepsLone(u, Step(u, s, events[0]), events[1..], way, translated);
    }
  }

  /**
   * In every run in which all requests of a queue agree in translation, a check leaves one entry of
   * it for each block, and for writes one for each address if the channel matches offsets.
   */
  lemma UniformRunsHaveOneEntryPerBlock(u: Setup, events: seq<Event>, way: Way, translated: bool)
    requires forall i :: 0 <= i < |events| ==> Sound(events[i]) && Suits(events[i], way, translated)
    ensures BlocksDiffer(ShiftOf(u, way), LaneOf(Check(u, Run(u, Start(), events)), way).queue)
  {
    hide Run, Inv, Sound, Suits, Check, SameBlock;
    var s := Run(u, Start(), events);
    StartOk(u);
    assert Lone(ShiftOf(u, way), LaneOf(Start(), way).queue, translated);
    RunKeeps(u, Start(), events);
    RunKeepsLone(u, Start(), events, way, translated);
    CheckKeepsLone(u, s, way, translated);
    CheckKeeps(u, s);
    AllCounted(LaneOf(Check(u, s), way).queue);
  }

  lemma {:induction false} AllCounted(q: seq<Request>)
    requires AllChecked(q)
    ensures CheckedCount(q) == |q| && q[..|q|] == q
  {
    if |q| > 0 {
      assert forall i :: 0 <= i < |q[1..]| ==> q[1..][i] == q[i + 1];
      AllCounted(q[1..]);
    }
  }
}
