/**
 * The queues between two cache levels: waiting requests for one block are merged, and reads are
 * answered from waiting writes.
 */
module Channel {
  import opened Collections
  import opened Powers

  /** `tags` names the accepted requests that an entry or a response stands for; the source does not keep it. */
  datatype Request = Request(
    address: nat, translated: bool, wants: bool, checked: bool, data: nat, deps: seq<nat>, tags: set<nat>)

  datatype Response = Response(address: nat, data: nat, deps: seq<nat>, tags: set<nat>)

  /** The widths of the offset that the read and the write side ignore when they compare addresses. */
  datatype Setup = Setup(offsetBits: nat, matchOffset: bool, rqSize: nat, pqSize: nat, wqSize: nat)

  function WriteShift(u: Setup): nat {
    if u.matchOffset then 0 else u.offsetBits
  }

  // ---------- Dependents ----------

  ghost predicate Increasing(s: seq<nat>) {
    forall i, j :: 0 <= i < j < |s| ==> s[i] < s[j]
  }

  /** std::set_union of two ordered lists. */
  function SetUnion(a: seq<nat>, b: seq<nat>): seq<nat>
    decreases |a| + |b|
  {
    if |a| == 0 then b
    else if |b| == 0 then a
    else if a[0] < b[0] then [a[0]] + SetUnion(a[1..], b)
    else if b[0] < a[0] then [b[0]] + SetUnion(a, b[1..])
    else [a[0]] + SetUnion(a[1..], b[1..])
  }

  lemma TailIsAbove(s: seq<nat>)
    requires Increasing(s) && |s| > 0
    ensures Increasing(s[1..]) && forall x :: x in s <==> x == s[0] || x in s[1..]
    ensures forall x :: x in s[1..] ==> s[0] < x
  {
    forall x | x in s[1..] ensures s[0] < x {
      var k :| 0 <= k < |s[1..]| && s[1..][k] == x;
      assert s[k + 1] == x;
    }
  }

  lemma PrependKeepsOrder(head: nat, rest: seq<nat>)
    requires Increasing(rest) && forall x :: x in rest ==> head < x
    ensures Increasing([head] + rest) && forall x :: x in [head] + rest <==> x == head || x in rest
  {
    assert forall i :: 0 <= i < |rest| ==> rest[i] in rest;
  }

  /** On ordered lists it is the union, and ordered again. */
  lemma {:induction false} SetUnionIsUnion(a: seq<nat>, b: seq<nat>)
    requires Increasing(a) && Increasing(b)
    ensures Increasing(SetUnion(a, b))
    ensures forall x :: x in SetUnion(a, b) <==> x in a || x in b
    decreases |a| + |b|
  {
    hide Increasing;
    if |a| > 0 && |b| > 0 {
      TailIsAbove(a);
      TailIsAbove(b);
      if a[0] < b[0] {
        SetUnionIsUnion(a[1..], b);
        PrependKeepsOrder(a[0], SetUnion(a[1..], b));
      } else if b[0] < a[0] {
        SetUnionIsUnion(a, b[1..]);
        PrependKeepsOrder(b[0], SetUnion(a, b[1..]));
      } else {
        SetUnionIsUnion(a[1..], b[1..]);
        PrependKeepsOrder(a[0], SetUnion(a[1..], b[1..]));
      }
    }
  }

  // ---------- Collisions ----------

  predicate SameBlock(a: Request, b: Request, shift: nat) {
    Shr(a.address, shift) == Shr(b.address, shift)
  }

  /** The first request of the queue for the block, whatever its translation. */
  function FirstMatch(q: seq<Request>, r: Request, shift: nat): (i: nat)
    ensures i <= |q| && (i < |q| ==> SameBlock(q[i], r, shift))
    ensures forall j :: 0 <= j < i ==> !SameBlock(q[j], r, shift)
  {
    if |q| == 0 || SameBlock(q[0], r, shift) then 0 else 1 + FirstMatch(q[1..], r, shift)
  }

  /** do_collision_for: only the first match counts, and only when its translation agrees. */
  predicate Collides(q: seq<Request>, r: Request, shift: nat) {
    var i := FirstMatch(q, r, shift);
    i < |q| && q[i].translated == r.translated
  }

  /** do_collision_for_merge on the entry that stays. */
  function Merged(e: Request, r: Request): Request {
    e.(wants := e.wants || r.wants, deps := SetUnion(e.deps, r.deps), tags := e.tags + r.tags)
  }

  function MergeInto(q: seq<Request>, r: Request, shift: nat): (p: seq<Request>)
    requires Collides(q, r, shift)
    ensures |p| == |q|
  {
    var i := FirstMatch(q, r, shift);
    q[i := Merged(q[i], r)]
  }

  function Answer(q: seq<Request>, r: Request, shift: nat): seq<Response>
    requires Collides(q, r, shift)
  {
    if r.wants then [Response(r.address, q[FirstMatch(q, r, shift)].data, r.deps, r.tags)] else []
  }

  function CheckedCount(q: seq<Request>): (n: nat)
    ensures n <= |q| && forall i :: 0 <= i < n ==> q[i].checked
  {
    if |q| == 0 || !q[0].checked then 0 else 1 + CheckedCount(q[1..])
  }

  /** The write loop: `done` is the part of the queue before the iterator, `rest` the part from it on. */
  function CheckWrites(done: seq<Request>, rest: seq<Request>, shift: nat): seq<Request>
    decreases |rest|
  {
    if |rest| == 0 then done
    else if Collides(done, rest[0], shift) then CheckWrites(MergeInto(done, rest[0], shift), rest[1..], shift)
    else CheckWrites(done + [rest[0].(checked := true)], rest[1..], shift)
  }

  datatype Outcome = Outcome(queue: seq<Request>, returned: seq<Response>)

  /** The read and the prefetch loop: answer from a write, else merge, else keep. */
  function CheckReads(u: Setup, wq: seq<Request>, done: seq<Request>, rest: seq<Request>, returned: seq<Response>): Outcome
    decreases |rest|
  {
    if |rest| == 0 then Outcome(done, returned)
    else if Collides(wq, rest[0], WriteShift(u)) then
      CheckReads(u, wq, done, rest[1..], returned + Answer(wq, rest[0], WriteShift(u)))
    else if Collides(done, rest[0], u.offsetBits) then
      CheckReads(u, wq, MergeInto(done, rest[0], u.offsetBits), rest[1..], returned)
    else CheckReads(u, wq, done + [rest[0].(checked := true)], rest[1..], returned)
  }

  function CheckWriteQueue(u: Setup, wq: seq<Request>): seq<Request> {
    var n := CheckedCount(wq);
    CheckWrites(wq[..n], wq[n..], WriteShift(u))
  }

  function CheckReadQueue(u: Setup, wq: seq<Request>, q: seq<Request>, returned: seq<Response>): Outcome {
    var n := CheckedCount(q);
    CheckReads(u, wq, q[..n], q[n..], returned)
  }

  // ---------- The write loop is the read loop without writes to answer from ----------

  /** The channel whose reads are compared as this one's writes are. */
  function AsReads(u: Setup): Setup {
    u.(offsetBits := WriteShift(u))
  }

  lemma {:induction false} WritesAsReads(
      u: Setup, done: seq<Request>, rest: seq<Request>, returned: seq<Response>)
    ensures CheckReads(u, [], done, rest, returned) == Outcome(CheckWrites(done, rest, u.offsetBits), returned)
    decreases |rest|
  {
    hide MergeInto;
    if |rest| > 0 {
      var r := rest[0];
      if Collides(done, r, u.offsetBits) {
        WritesAsReads(u, MergeInto(done, r, u.offsetBits), rest[1..], returned);
      } else {
        WritesAsReads(u, done + [r.(checked := true)], rest[1..], returned);
      }
    }
  }

  lemma WriteQueueAsReadQueue(u: Setup, wq: seq<Request>, returned: seq<Response>)
    ensures CheckReadQueue(AsReads(u), [], wq, returned) == Outcome(CheckWriteQueue(u, wq), returned)
  {
    hide CheckReads, CheckWrites;
    var n := CheckedCount(wq);
    WritesAsReads(AsReads(u), wq[..n], wq[n..], returned);
  }

  // ---------- What a request is owed ----------

  predicate Within(a: seq<nat>, b: seq<nat>) {
    forall x :: x in a ==> x in b
  }

  /** The entry stands for the request: same block and translation, and, if a response is wanted, all its dependents. */
  predicate Covers(shift: nat, e: Request, r: Request) {
    && SameBlock(e, r, shift) && e.translated == r.translated
    && (r.wants ==> e.wants) && Within(r.deps, e.deps)
  }

  predicate AnswerFor(shift: nat, p: Response, r: Request) {
    Shr(p.address, shift) == Shr(r.address, shift) && Within(r.deps, p.deps)
  }

  ghost predicate CoveredIn(shift: nat, q: seq<Request>, r: Request) {
    exists i :: 0 <= i < |q| && Covers(shift, q[i], r)
  }

  ghost predicate AnsweredIn(shift: nat, returned: seq<Response>, r: Request) {
    exists i :: 0 <= i < |returned| && AnswerFor(shift, returned[i], r)
  }

  /** A request is not lost: an entry stands for it, or a write answers it, with a response if one is wanted. */
  ghost predicate Served(u: Setup, wq: seq<Request>, q: seq<Request>, returned: seq<Response>, r: Request) {
    || CoveredIn(u.offsetBits, q, r)
    || (Collides(wq, r, WriteShift(u)) && (r.wants ==> AnsweredIn(u.offsetBits, returned, r)))
  }

  lemma CoverIsTransitive(shift: nat, a: Request, b: Request, c: Request)
    requires Covers(shift, a, b) && Covers(shift, b, c)
    ensures Covers(shift, a, c)
  {
  }

  /** Every list of dependents of the queue is in order. */
  ghost predicate Ordered(q: seq<Request>) {
    forall i :: 0 <= i < |q| ==> Increasing(q[i].deps)
  }

  ghost predicate AllChecked(q: seq<Request>) {
    forall i :: 0 <= i < |q| ==> q[i].checked
  }

  lemma MergeCovers(shift: nat, q: seq<Request>, r: Request)
    requires Collides(q, r, shift) && Ordered(q) && Increasing(r.deps)
    ensures var p := MergeInto(q, r, shift);
      && Ordered(p) && CoveredIn(shift, p, r)
      && (forall i :: 0 <= i < |q| ==> Covers(shift, p[i], q[i]) && p[i].checked == q[i].checked && p[i].address == q[i].address)
  {
    var i := FirstMatch(q, r, shift);
    SetUnionIsUnion(q[i].deps, r.deps);
    assert Covers(shift, MergeInto(q, r, shift)[i], r);
  }

  lemma CoveredStays(shift: nat, q: seq<Request>, p: seq<Request>, r: Request)
    requires CoveredIn(shift, q, r) && |q| <= |p| && forall i :: 0 <= i < |q| ==> Covers(shift, p[i], q[i])
    ensures CoveredIn(shift, p, r)
  {
    var i :| 0 <= i < |q| && Covers(shift, q[i], r);
    CoverIsTransitive(shift, p[i], q[i], r);
  }

  /** `p` extends `q`: its entries still stand for those of `q`, and responses are only added. */
  ghost predicate Extends(shift: nat, q: seq<Request>, a: seq<Response>, p: seq<Request>, b: seq<Response>) {
    && |q| <= |p| && |a| <= |b| && b[..|a|] == a
    && (forall i :: 0 <= i < |q| ==> Covers(shift, p[i], q[i]))
  }

  lemma ServedStays(
      u: Setup, wq: seq<Request>, q: seq<Request>, a: seq<Response>, p: seq<Request>, b: seq<Response>, r: Request)
    requires Served(u, wq, q, a, r) && Extends(u.offsetBits, q, a, p, b)
    ensures Served(u, wq, p, b, r)
  {
    hide Collides;
    if CoveredIn(u.offsetBits, q, r) {
      CoveredStays(u.offsetBits, q, p, r);
    } else if r.wants {
      var i :| 0 <= i < |a| && AnswerFor(u.offsetBits, a[i], r);
      assert b[i] == b[..|a|][i];
    }
  }

  lemma CoversItself(shift: nat, r: Request)
    ensures Covers(shift, r, r) && Covers(shift, r.(checked := true), r)
  {
  }

  lemma ExtendsAgain(
      shift: nat, q: seq<Request>, a: seq<Response>, p: seq<Request>, b: seq<Response>, s: seq<Request>, c: seq<Response>)
    requires Extends(shift, q, a, p, b) && Extends(shift, p, b, s, c)
    ensures Extends(shift, q, a, s, c)
  {
    hide Covers;
    forall i | 0 <= i < |q| ensures Covers(shift, s[i], q[i]) {
      CoverIsTransitive(shift, s[i], p[i], q[i]);
    }
    assert c[..|a|] == c[..|b|][..|a|];
  }

  /** The queue and the responses after the round of the loop for `r`. */
  ghost function AfterOne(u: Setup, wq: seq<Request>, done: seq<Request>, r: Request, returned: seq<Response>):
      (o: (seq<Request>, seq<Response>))
  {
    if Collides(wq, r, WriteShift(u)) then (done, returned + Answer(wq, r, WriteShift(u)))
    else if Collides(done, r, u.offsetBits) then (MergeInto(done, r, u.offsetBits), returned)
    else (done + [r.(checked := true)], returned)
  }

  lemma ReadIsServed(u: Setup, wq: seq<Request>, done: seq<Request>, r: Request, returned: seq<Response>)
    requires Ordered(done) && Increasing(r.deps) && AllChecked(done)
    ensures var (p, b) := AfterOne(u, wq, done, r, returned);
      && Extends(u.offsetBits, done, returned, p, b) && Served(u, wq, p, b, r)
      && Ordered(p) && AllChecked(p) && |p| <= |done| + 1
  {
    hide SetUnion, Shr, Increasing;
    var (p, b) := AfterOne(u, wq, done, r, returned);
    if Collides(wq, r, WriteShift(u)) {
      if r.wants {
        assert AnswerFor(u.offsetBits, b[|returned|], r);
      }
    } else if Collides(done, r, u.offsetBits) {
      MergeCovers(u.offsetBits, done, r);
    } else {
      assert Covers(u.offsetBits, p[|done|], r);
    }
  }

  /** The loop extends what is done, and serves every request of the rest. */
  lemma {:induction false} ReadsAreServed(
      u: Setup, wq: seq<Request>, done: seq<Request>, rest: seq<Request>, returned: seq<Response>)
    requires Ordered(done) && Ordered(rest) && AllChecked(done)
    ensures var o := CheckReads(u, wq, done, rest, returned);
      && Extends(u.offsetBits, done, returned, o.queue, o.returned) && Ordered(o.queue) && AllChecked(o.queue)
      && |o.queue| <= |done| + |rest|
      && (forall i :: 0 <= i < |rest| ==> Served(u, wq, o.queue, o.returned, rest[i]))
    decreases |rest|
  {
    hide Collides, MergeInto, Covers, SetUnion, Shr, Increasing, Served;
    if |rest| == 0 {
      forall i | 0 <= i < |done| ensures Covers(u.offsetBits, done[i], done[i]) {
        CoversItself(u.offsetBits, done[i]);
      }
    } else {
      var r := rest[0];
      var o := CheckReads(u, wq, done, rest, returned);
      var (done2, returned2) := AfterOne(u, wq, done, r, returned);
      ReadIsServed(u, wq, done, r, returned);
      assert Ordered(rest[1..]) by {
        assert forall i :: 0 <= i < |rest[1..]| ==> rest[1..][i] == rest[i + 1];
      }
      ReadsAreServed(u, wq, done2, rest[1..], returned2);
      ServedStays(u, wq, done2, returned2, o.queue, o.returned, r);
      ExtendsAgain(u.offsetBits, done, returned, done2, returned2, o.queue, o.returned);
      forall i | 0 <= i < |rest| ensures Served(u, wq, o.queue, o.returned, rest[i]) {
        assert i > 0 ==> rest[i] == rest[1..][i - 1];
      }
    }
  }

  lemma EntryServed(u: Setup, wq: seq<Request>, q: seq<Request>, returned: seq<Response>, i: nat, r: Request)
    requires i < |q| && Covers(u.offsetBits, q[i], r)
    ensures Served(u, wq, q, returned, r)
  {
  }

  /**
   * No waiter is lost: after the check every request of the queue is stood for by a surviving entry
   * for its block and translation, or has met a write for its address; if it wanted a response, the
   * entry wants one with all its dependents, or the response has them; dependents are in order, and
   * every entry is checked.
   */
  lemma NoWaiterIsLost(u: Setup, wq: seq<Request>, q: seq<Request>, returned: seq<Response>)
    requires Ordered(q)
    ensures var o := CheckReadQueue(u, wq, q, returned);
      && (forall i :: 0 <= i < |q| ==> Served(u, wq, o.queue, o.returned, q[i]))
      && Ordered(o.queue) && AllChecked(o.queue) && |o.queue| <= |q|
      && |returned| <= |o.returned| && o.returned[..|returned|] == returned
  {
    hide CheckReads, Increasing, Covers, Served;
    var n := CheckedCount(q);
    var o := CheckReadQueue(u, wq, q, returned);
    assert forall i :: 0 <= i < n ==> q[..n][i] == q[i];
    assert forall i :: 0 <= i < |q| - n ==> q[n..][i] == q[n + i];
    ReadsAreServed(u, wq, q[..n], q[n..], returned);
    forall i | 0 <= i < |q| ensures Served(u, wq, o.queue, o.returned, q[i]) {
      if i < n {
        assert Covers(u.offsetBits, o.queue[i], q[..n][i]);
        EntryServed(u, wq, o.queue, o.returned, i, q[i]);
      } else {
        assert q[i] == q[n..][i - n];
      }
    }
  }

  /** No write is lost: each is stood for by an entry with the address at which the channel tells writes apart. */
  lemma WritesAreKept(u: Setup, wq: seq<Request>)
    requires Ordered(wq)
    ensures var q := CheckWriteQueue(u, wq);
      && (forall i :: 0 <= i < |wq| ==> CoveredIn(WriteShift(u), q, wq[i]))
      && Ordered(q) && AllChecked(q) && |q| <= |wq|
  {
    hide CheckReadQueue, CheckWriteQueue, CoveredIn, Ordered;
    WriteQueueAsReadQueue(u, wq, []);
    NoWaiterIsLost(AsReads(u), [], wq, []);
    forall i | 0 <= i < |wq| ensures CoveredIn(WriteShift(u), CheckWriteQueue(u, wq), wq[i]) {
      assert Served(AsReads(u), [], CheckWriteQueue(u, wq), [], wq[i]);
    }
  }

  // ---------- Survivors keep their order ----------

  /** `p` comes from `q` by dropping entries: entry i of `p` is entry at[i] of `q`. */
  ghost predicate ComesFrom(p: seq<Request>, q: seq<Request>, at: seq<nat>) {
    && |at| == |p| && (forall i :: 0 <= i < |at| ==> at[i] < |q|)
    && (forall i, j :: 0 <= i < j < |at| ==> at[i] < at[j])
    && (forall i :: 0 <= i < |p| ==> p[i].address == q[at[i]].address && p[i].translated == q[at[i]].translated)
  }

  lemma {:induction false} SurvivorsInOrder(
      u: Setup, wq: seq<Request>, done: seq<Request>, rest: seq<Request>, returned: seq<Response>,
      q: seq<Request>, at: seq<nat>, next: nat) returns (b: seq<nat>)
    requires next + |rest| == |q| && rest == q[next..] && ComesFrom(done, q, at)
    requires forall i :: 0 <= i < |at| ==> at[i] < next
    ensures ComesFrom(CheckReads(u, wq, done, rest, returned).queue, q, b)
    decreases |rest|
  {
    hide Collides, SetUnion, Shr;
    if |rest| == 0 {
      b := at;
    } else {
      assert rest[0] == q[next] && rest[1..] == q[next + 1..];
      var (p, c) := AfterOne(u, wq, done, rest[0], returned);
      if |p| > |done| {
        assert ComesFrom(p, q, at + [next]);
        b := SurvivorsInOrder(u, wq, p, rest[1..], c, q, at + [next], next + 1);
      } else {
        b := SurvivorsInOrder(u, wq, p, rest[1..], c, q, at, next + 1);
      }
    }
  }

  /** The entries left by the check are entries of the queue, in the same order. */
  lemma CheckKeepsOrder(u: Setup, wq: seq<Request>, q: seq<Request>, returned: seq<Response>) returns (at: seq<nat>)
    ensures ComesFrom(CheckReadQueue(u, wq, q, returned).queue, q, at)
  {
    var n := CheckedCount(q);
    var first := seq(n, i => i);
    at := SurvivorsInOrder(u, wq, q[..n], q[n..], returned, q, first, n);
  }

  // ---------- One entry for each block ----------

  ghost predicate BlocksDiffer(shift: nat, q: seq<Request>) {
    forall i, j :: 0 <= i < j < |q| ==> !SameBlock(q[i], q[j], shift)
  }

  /** Two requests for one block agree in their translation. */
  predicate Agree(shift: nat, a: Request, b: Request) {
    SameBlock(a, b, shift) ==> a.translated == b.translated
  }

  /** No write answers the request. */
  predicate Unanswered(u: Setup, wq: seq<Request>, r: Request) {
    !Collides(wq, r, WriteShift(u))
  }

  /** The unanswered requests of the rest agree with each other and with those done. */
  ghost predicate AllAgree(u: Setup, wq: seq<Request>, done: seq<Request>, rest: seq<Request>) {
    && (forall i, j :: 0 <= i < |done| && 0 <= j < |rest| && Unanswered(u, wq, rest[j]) ==>
          Agree(u.offsetBits, done[i], rest[j]))
    && (forall i, j :: 0 <= i < j < |rest| && Unanswered(u, wq, rest[i]) && Unanswered(u, wq, rest[j]) ==>
          Agree(u.offsetBits, rest[i], rest[j]))
  }

  /** The loop keeps the addresses of what is done at the front. */
  lemma {:induction false} DoneStaysInFront(
      u: Setup, wq: seq<Request>, done: seq<Request>, rest: seq<Request>, returned: seq<Response>)
    ensures var q := CheckReads(u, wq, done, rest, returned).queue;
      |done| <= |q| && forall i :: 0 <= i < |done| ==> q[i].address == done[i].address
    decreases |rest|
  {
    hide Collides, SetUnion, Shr;
    if |rest| > 0 {
      var (p, b) := AfterOne(u, wq, done, rest[0], returned);
      assert forall i :: 0 <= i < |done| ==> p[i].address == done[i].address;
      DoneStaysInFront(u, wq, p, rest[1..], b);
    }
  }

  lemma RepeatStays(
      u: Setup, wq: seq<Request>, done: seq<Request>, rest: seq<Request>, returned: seq<Response>, i: nat, j: nat)
    requires i < j < |done| && SameBlock(done[i], done[j], u.offsetBits)
    ensures !BlocksDiffer(u.offsetBits, CheckReads(u, wq, done, rest, returned).queue)
  {
    hide CheckReads, Shr;
    DoneStaysInFront(u, wq, done, rest, returned);
    var q := CheckReads(u, wq, done, rest, returned).queue;
    assert SameBlock(q[i], q[j], u.offsetBits);
  }

  /** Whether request `r` and what comes after it agree, in terms of what follows. */
  lemma AgreeUnfolds(u: Setup, wq: seq<Request>, done: seq<Request>, rest: seq<Request>)
    requires |rest| > 0
    ensures AllAgree(u, wq, done, rest) <==>
      && AllAgree(u, wq, done, rest[1..])
      && (Unanswered(u, wq, rest[0]) ==>
            && (forall i :: 0 <= i < |done| ==> Agree(u.offsetBits, done[i], rest[0]))
            && (forall j :: 0 <= j < |rest[1..]| && Unanswered(u, wq, rest[1..][j]) ==>
                  Agree(u.offsetBits, rest[0], rest[1..][j])))
  {
    hide Unanswered, Agree;
    assert forall j :: 0 <= j < |rest[1..]| ==> rest[1..][j] == rest[j + 1];
    assert forall j :: 1 <= j < |rest| ==> rest[j] == rest[1..][j - 1];
    if AllAgree(u, wq, done, rest) {
      forall i, j | 0 <= i < |done| && 0 <= j < |rest[1..]| && Unanswered(u, wq, rest[1..][j])
        ensures Agree(u.offsetBits, done[i], rest[1..][j])
      {
        assert rest[1..][j] == rest[j + 1];
      }
    }
  }

  /** A request that is merged agrees with what follows exactly if the entry it is merged into does. */
  lemma MergedAgrees(u: Setup, wq: seq<Request>, done: seq<Request>, r: Request, rest: seq<Request>)
    requires BlocksDiffer(u.offsetBits, done) && Collides(done, r, u.offsetBits)
    ensures BlocksDiffer(u.offsetBits, MergeInto(done, r, u.offsetBits))
    ensures forall i :: 0 <= i < |done| ==> Agree(u.offsetBits, done[i], r)
    ensures AllAgree(u, wq, MergeInto(done, r, u.offsetBits), rest) <==> AllAgree(u, wq, done, rest)
    ensures AllAgree(u, wq, done, rest) ==>
      forall j :: 0 <= j < |rest| && Unanswered(u, wq, rest[j]) ==> Agree(u.offsetBits, r, rest[j])
  {
    hide Unanswered, SetUnion, Shr;
    var k, p := FirstMatch(done, r, u.offsetBits), MergeInto(done, r, u.offsetBits);
    assert forall i :: 0 <= i < |done| ==> p[i].address == done[i].address && p[i].translated == done[i].translated;
    forall i | 0 <= i < |done| ensures Agree(u.offsetBits, done[i], r) {
      assert i < k ==> !SameBlock(done[i], done[k], u.offsetBits);
      assert k < i ==> !SameBlock(done[k], done[i], u.offsetBits);
    }
    if AllAgree(u, wq, done, rest) {
      forall j | 0 <= j < |rest| && Unanswered(u, wq, rest[j]) ensures Agree(u.offsetBits, r, rest[j]) {
        assert Agree(u.offsetBits, done[k], rest[j]);
      }
    }
  }

  /** A request for a new block goes to the end of what is done. */
  lemma AppendedAgrees(u: Setup, wq: seq<Request>, done: seq<Request>, r: Request, rest: seq<Request>)
    requires BlocksDiffer(u.offsetBits, done) && FirstMatch(done, r, u.offsetBits) == |done|
    ensures BlocksDiffer(u.offsetBits, done + [r.(checked := true)])
    ensures forall i :: 0 <= i < |done| ==> Agree(u.offsetBits, done[i], r)
    ensures AllAgree(u, wq, done + [r.(checked := true)], rest) <==>
      && AllAgree(u, wq, done, rest)
      && (forall j :: 0 <= j < |rest| && Unanswered(u, wq, rest[j]) ==> Agree(u.offsetBits, r, rest[j]))
  {
    hide Unanswered, Shr;
    var p := done + [r.(checked := true)];
    assert forall i :: 0 <= i < |done| ==> p[i] == done[i];
    if AllAgree(u, wq, p, rest) {
      forall j | 0 <= j < |rest| && Unanswered(u, wq, rest[j]) ensures Agree(u.offsetBits, r, rest[j]) {
        assert Agree(u.offsetBits, p[|done|], rest[j]);
      }
      forall i, j | 0 <= i < |done| && 0 <= j < |rest| && Unanswered(u, wq, rest[j])
        ensures Agree(u.offsetBits, done[i], rest[j])
      {
        assert Agree(u.offsetBits, p[i], rest[j]);
      }
    }
  }

  /** The loop leaves one entry for each block exactly if there was none twice and all translations agree. */
  lemma {:induction false} LoopKeepsBlocksDistinctIff(
      u: Setup, wq: seq<Request>, done: seq<Request>, rest: seq<Request>, returned: seq<Response>)
    ensures BlocksDiffer(u.offsetBits, CheckReads(u, wq, done, rest, returned).queue)
      <==> BlocksDiffer(u.offsetBits, done) && AllAgree(u, wq, done, rest)
    decreases |rest|
  {
    hide AllAgree, MergeInto, SameBlock, Agree;
    if |rest| == 0 {
      NothingDisagrees(u, wq, done, rest);
    } else if !BlocksDiffer(u.offsetBits, done) {
      var i, j :| 0 <= i < j < |done| && SameBlock(done[i], done[j], u.offsetBits);
      RepeatStays(u, wq, done, rest, returned, i, j);
    } else {
      var r := rest[0];
      AgreeUnfolds(u, wq, done, rest);
      if !Unanswered(u, wq, r) {
        LoopKeepsBlocksDistinctIff(u, wq, done, rest[1..], returned + Answer(wq, r, WriteShift(u)));
      } else if Collides(done, r, u.offsetBits) {
        MergedAgrees(u, wq, done, r, rest[1..]);
        LoopKeepsBlocksDistinctIff(u, wq, MergeInto(done, r, u.offsetBits), rest[1..], returned);
      } else {
        NewEntryKeepsIff(u, wq, done, rest, returned);
      }
    }
  }

  lemma NothingDisagrees(u: Setup, wq: seq<Request>, done: seq<Request>, rest: seq<Request>)
    requires |rest| == 0
    ensures AllAgree(u, wq, done, rest)
  {
  }

  lemma NewEntryKeepsIff(
      u: Setup, wq: seq<Request>, done: seq<Request>, rest: seq<Request>, returned: seq<Response>)
    requires |rest| > 0 && BlocksDiffer(u.offsetBits, done)
    requires Unanswered(u, wq, rest[0]) && !Collides(done, rest[0], u.offsetBits)
    ensures BlocksDiffer(u.offsetBits, CheckReads(u, wq, done, rest, returned).queue) <==> AllAgree(u, wq, done, rest)
    decreases |rest|, 0
  {
    hide AllAgree, Unanswered, SameBlock, BlocksDiffer;
    var r := rest[0];
    var p := done + [r.(checked := true)];
    var k := FirstMatch(done, r, u.offsetBits);
    AgreeUnfolds(u, wq, done, rest);
    assert CheckReads(u, wq, done, rest, returned) == CheckReads(u, wq, p, rest[1..], returned) by {
      UnansweredIsKept(u, wq, done, rest, returned);
    }
    if k < |done| {
      assert !Agree(u.offsetBits, done[k], r);
      SameBlockChecked(p[k], r, u.offsetBits);
      RepeatStays(u, wq, p, rest[1..], returned, k, |done|);
    } else {
      AppendedAgrees(u, wq, done, r, rest[1..]);
      LoopKeepsBlocksDistinctIff(u, wq, p, rest[1..], returned);
    }
  }

  lemma UnansweredIsKept(u: Setup, wq: seq<Request>, done: seq<Request>, rest: seq<Request>, returned: seq<Response>)
    requires |rest| > 0 && Unanswered(u, wq, rest[0]) && !Collides(done, rest[0], u.offsetBits)
    ensures CheckReads(u, wq, done, rest, returned)
      == CheckReads(u, wq, done + [rest[0].(checked := true)], rest[1..], returned)
  {
  }

  lemma SameBlockChecked(a: Request, r: Request, shift: nat)
    ensures SameBlock(a, r.(checked := true), shift) <==> SameBlock(a, r, shift)
  {
  }

  /** The request at `i` was checked before, or no write answers it. */
  predicate Stays(u: Setup, wq: seq<Request>, q: seq<Request>, i: nat)
    requires i < |q|
  {
    i < CheckedCount(q) || Unanswered(u, wq, q[i])
  }

  /** Any two requests for one block that stay agree in their translation, unless both were checked before. */
  ghost predicate TranslationsAgree(u: Setup, wq: seq<Request>, q: seq<Request>) {
    forall i, j :: 0 <= i < j < |q| && CheckedCount(q) <= j && Stays(u, wq, q, i) && Stays(u, wq, q, j) ==>
      Agree(u.offsetBits, q[i], q[j])
  }

  /**
   * Exactly when a check leaves one entry for each block: the checked entries are for different
   * blocks, and the translations of those that stay agree.
   */
  lemma OneEntryPerBlockIff(u: Setup, wq: seq<Request>, q: seq<Request>, returned: seq<Response>)
    ensures BlocksDiffer(u.offsetBits, CheckReadQueue(u, wq, q, returned).queue)
      <==> BlocksDiffer(u.offsetBits, q[..CheckedCount(q)]) && TranslationsAgree(u, wq, q)
  {
    hide Agree, Unanswered, BlocksDiffer, CheckReads;
    var n := CheckedCount(q);
    LoopKeepsBlocksDistinctIff(u, wq, q[..n], q[n..], returned);
    AgreeByIndex(u, wq, q);
  }

  lemma AgreeByIndex(u: Setup, wq: seq<Request>, q: seq<Request>)
    ensures AllAgree(u, wq, q[..CheckedCount(q)], q[CheckedCount(q)..]) <==> TranslationsAgree(u, wq, q)
  {
    hide Agree, Unanswered;
    var n := CheckedCount(q);
    var a, b := q[..n], q[n..];
    assert forall i :: 0 <= i < n ==> a[i] == q[i];
    assert forall i :: n <= i < |q| ==> q[i] == b[i - n];
    assert forall i :: 0 <= i < |b| ==> b[i] == q[n + i];
    if AllAgree(u, wq, a, b) {
      forall i, j | 0 <= i < j < |q| && n <= j && Stays(u, wq, q, i) && Stays(u, wq, q, j)
        ensures Agree(u.offsetBits, q[i], q[j])
      {
        assert q[j] == b[j - n] && q[i] == if i < n then a[i] else b[i - n];
      }
    }
    if TranslationsAgree(u, wq, q) {
      forall i, j | 0 <= i < n && 0 <= j < |b| && Unanswered(u, wq, b[j]) ensures Agree(u.offsetBits, a[i], b[j]) {
        assert Stays(u, wq, q, i) && Stays(u, wq, q, n + j);
      }
      forall i, j | 0 <= i < j < |b| && Unanswered(u, wq, b[i]) && Unanswered(u, wq, b[j])
        ensures Agree(u.offsetBits, b[i], b[j])
      {
        assert Stays(u, wq, q, n + i) && Stays(u, wq, q, n + j);
      }
    }
  }

  /** The same for writes, which are told apart by full addresses in a channel that matches offsets. */
  lemma OneWritePerAddressIff(u: Setup, wq: seq<Request>)
    ensures var n, shift := CheckedCount(wq), WriteShift(u);
      BlocksDiffer(shift, CheckWriteQueue(u, wq)) <==>
        && BlocksDiffer(shift, wq[..n])
        && (forall i, j :: 0 <= i < j < |wq| && n <= j ==> Agree(shift, wq[i], wq[j]))
  {
    hide CheckReadQueue, CheckWriteQueue, BlocksDiffer, Agree;
    WriteQueueAsReadQueue(u, wq, []);
    OneEntryPerBlockIff(AsReads(u), [], wq, []);
    assert forall i :: 0 <= i < |wq| ==> Stays(AsReads(u), [], wq, i);
  }

  ghost predicate Uniform(q: seq<Request>, translated: bool) {
    forall i :: 0 <= i < |q| ==> q[i].translated == translated
  }

  /** Where all requests agree in translation, a check leaves one entry for each block. */
  lemma OneEntryPerBlock(u: Setup, wq: seq<Request>, q: seq<Request>, returned: seq<Response>, translated: bool)
    requires BlocksDiffer(u.offsetBits, q[..CheckedCount(q)]) && Uniform(q, translated)
    ensures BlocksDiffer(u.offsetBits, CheckReadQueue(u, wq, q, returned).queue)
  {
    hide CheckReadQueue, BlocksDiffer, SameBlock;
    OneEntryPerBlockIff(u, wq, q, returned);
  }

  /** Mixed translations can repeat a block: only the first request for it is compared. */
  lemma MixedTranslationsRepeatBlocks(u: Setup, returned: seq<Response>)
    ensures var a, b := Request(0, false, true, false, 0, [], {}), Request(0, true, true, false, 0, [], {});
      CheckReadQueue(u, [], [a, b, b], returned).queue
        == [a.(checked := true), b.(checked := true), b.(checked := true)]
  {
    hide Shr;
    var a, b := Request(0, false, true, false, 0, [], {}), Request(0, true, true, false, 0, [], {});
    var x, y := a.(checked := true), b.(checked := true);
    assert CheckedCount([a, b, b]) == 0;
    assert [a, b, b][..0] == [] && [a, b, b][0..] == [a, b, b];
    assert [a, b, b][1..] == [b, b] && [b, b][1..] == [b] && [b][1..] == [];
    assert [] + [x] == [x] && [x] + [y] == [x, y] && [x, y] + [y] == [x, y, y];
    assert CheckReads(u, [], [x, y], [b], returned).queue == [x, y, y];
    assert CheckReads(u, [], [x], [b, b], returned) == CheckReads(u, [], [x, y], [b], returned);
    assert CheckReads(u, [], [], [a, b, b], returned) == CheckReads(u, [], [x], [b, b], returned);
  }
}
