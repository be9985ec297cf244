/**
 * Which data a read is answered with when a write to its address waits: those of the oldest such
 * write, because a write that is merged leaves its own data behind.
 */
module ChannelForwarding {
  import opened Collections
  import opened Powers
  import opened Channel
  import opened ChannelDelivery

  /** Two requests are for one block of 2^shift addresses. */
  lemma SameBlockIs(a: Request, b: Request, shift: nat)
    ensures SameBlock(a, b, shift) <==> a.address / Pow2(shift) == b.address / Pow2(shift)
  {
    hide Shr, Pow2;
    ShrDivides(a.address, shift);
    ShrDivides(b.address, shift);
  }

  /** Slot `i` holds the oldest request of the queue for the block of `r`. */
  predicate OldestFor(q: seq<Request>, r: Request, shift: nat, i: nat) {
    i < |q| && SameBlock(q[i], r, shift) && forall j :: 0 <= j < i ==> !SameBlock(q[j], r, shift)
  }

  lemma FirstMatchIsOldest(q: seq<Request>, r: Request, shift: nat)
    ensures forall i: nat :: OldestFor(q, r, shift, i) <==> i == FirstMatch(q, r, shift) && i < |q|
  {
    hide SameBlock;
  }

  /** The response to a read from a write. */
  function ResponseTo(r: Request, write: Request): Response {
    Response(r.address, write.data, r.deps, r.tags)
  }

  // ---------- Merged writes keep the oldest data ----------

  predicate SameData(a: Request, b: Request) {
    a.address == b.address && a.translated == b.translated && a.data == b.data
  }

  lemma MatchesAlike(a: seq<Request>, b: seq<Request>, r: Request, shift: nat)
    requires |a| == |b| && forall i :: 0 <= i < |a| ==> SameData(a[i], b[i])
    ensures FirstMatch(a, r, shift) == FirstMatch(b, r, shift)
  {
    hide Shr;
    var i, j := FirstMatch(a, r, shift), FirstMatch(b, r, shift);
    assert i < |a| ==> SameData(a[i], b[i]);
    assert j < |a| ==> SameData(a[j], b[j]);
  }

  lemma MatchInPrefix(a: seq<Request>, b: seq<Request>, r: Request, shift: nat)
    ensures FirstMatch(a + b, r, shift)
         == if FirstMatch(a, r, shift) < |a| then FirstMatch(a, r, shift) else |a| + FirstMatch(b, r, shift)
  {
    hide SameBlock;
    var i, k := FirstMatch(a, r, shift), FirstMatch(a + b, r, shift);
    assert forall j :: 0 <= j < |a| ==> (a + b)[j] == a[j];
    assert forall j :: 0 <= j < |b| ==> (a + b)[|a| + j] == b[j];
    if i == |a| {
      var m := FirstMatch(b, r, shift);
      assert k >= |a|;
      assert m < |b| ==> SameBlock((a + b)[|a| + m], r, shift);
      assert k < |a + b| ==> (a + b)[k] == b[k - |a|];
    }
  }

  /** The oldest entry for a block, or nothing. */
  function Oldest(q: seq<Request>, r: Request, shift: nat): Option<Request> {
    var i := FirstMatch(q, r, shift);
    if i < |q| then Some(q[i]) else None
  }

  predicate Alike(a: Option<Request>, b: Option<Request>) {
    a.Some? == b.Some? && (a.Some? ==> SameData(a.value, b.value))
  }

  /** The write loop leaves the oldest entry for each block with the data it had. */
  lemma {:induction false} ChecksKeepOldest(done: seq<Request>, rest: seq<Request>, shift: nat, r: Request)
    ensures Alike(Oldest(CheckWrites(done, rest, shift), r, shift), Oldest(done + rest, r, shift))
    decreases |rest|
  {
    hide FirstMatch, SameBlock, MergeInto, Collides;
    if |rest| == 0 {
      assert done + rest == done;
    } else {
      assert done + rest == (done + [rest[0]]) + rest[1..];
      MatchInPrefix(done + [rest[0]], rest[1..], r, shift);
      if Collides(done, rest[0], shift) {
        ChecksKeepOldest(MergeInto(done, rest[0], shift), rest[1..], shift, r);
        MergeKeepsMatch(done, rest[0], shift, r);
        MatchInPrefix(MergeInto(done, rest[0], shift), rest[1..], r, shift);
      } else {
        var marked := rest[0].(checked := true);
        ChecksKeepOldest(done + [marked], rest[1..], shift, r);
        MatchesAlike(done + [marked], done + [rest[0]], r, shift);
        MatchInPrefix(done + [marked], rest[1..], r, shift);
      }
    }
  }

  /** An entry that is merged into an older one for its block was not the oldest. */
  lemma MergeKeepsMatch(q: seq<Request>, e: Request, shift: nat, r: Request)
    requires Collides(q, e, shift)
    ensures var p := MergeInto(q, e, shift);
      && |p| == |q| && (forall i :: 0 <= i < |q| ==> SameData(p[i], q[i]))
      && FirstMatch(p, r, shift) == FirstMatch(q, r, shift)
      && (FirstMatch(q + [e], r, shift) < |q| <==> FirstMatch(q, r, shift) < |q|)
      && (FirstMatch(q, r, shift) < |q| ==> FirstMatch(q + [e], r, shift) == FirstMatch(q, r, shift))
      && (FirstMatch(q, r, shift) == |q| ==> FirstMatch(q + [e], r, shift) == |q| + 1)
  {
    hide Shr;
    var p, k := MergeInto(q, e, shift), FirstMatch(q, e, shift);
    MatchesAlike(p, q, r, shift);
    MatchInPrefix(q, [e], r, shift);
    if SameBlock(e, r, shift) {
      assert SameBlock(q[k], r, shift);
    }
  }

  // ---------- Which reads are answered ----------

  /** The responses to the reads that meet a write, in order. */
  function Forwarded(wq: seq<Request>, rest: seq<Request>, shift: nat): seq<Response>
    decreases |rest|
  {
    if |rest| == 0 then []
    else (if Collides(wq, rest[0], shift) then Answer(wq, rest[0], shift) else []) + Forwarded(wq, rest[1..], shift)
  }

  lemma {:induction false} LoopForwards(u: Setup, wq: seq<Request>, done: seq<Request>, rest: seq<Request>, returned: seq<Response>)
    ensures CheckReads(u, wq, done, rest, returned).returned == returned + Forwarded(wq, rest, WriteShift(u))
    decreases |rest|
  {
    hide Collides, MergeInto, Answer;
    if |rest| > 0 {
      var r := rest[0];
      if Collides(wq, r, WriteShift(u)) {
        LoopForwards(u, wq, done, rest[1..], returned + Answer(wq, r, WriteShift(u)));
      } else if Collides(done, r, u.offsetBits) {
        LoopForwards(u, wq, MergeInto(done, r, u.offsetBits), rest[1..], returned);
      } else {
        LoopForwards(u, wq, done + [r.(checked := true)], rest[1..], returned);
      }
    }
  }

  /** The read wants a response, and the oldest write for its address is of its translation. */
  predicate MeetsWrite(wq: seq<Request>, r: Request, shift: nat) {
    r.wants && Oldest(wq, r, shift).Some? && Oldest(wq, r, shift).value.translated == r.translated
  }

  /** The response to a read, given the writes that wait. */
  predicate AnswersFrom(wq: seq<Request>, r: Request, shift: nat, p: Response) {
    MeetsWrite(wq, r, shift) && p == Response(r.address, Oldest(wq, r, shift).value.data, r.deps, r.tags)
  }

  lemma AnswerIs(wq: seq<Request>, r: Request, shift: nat, p: Response)
    ensures Collides(wq, r, shift) && p in Answer(wq, r, shift) <==> AnswersFrom(wq, r, shift, p)
  {
    hide FirstMatch;
  }

  lemma {:induction false} ForwardedAre(wq: seq<Request>, rest: seq<Request>, shift: nat, p: Response)
    ensures p in Forwarded(wq, rest, shift) <==> exists k :: 0 <= k < |rest| && AnswersFrom(wq, rest[k], shift, p)
    decreases |rest|
  {
    hide FirstMatch, AnswersFrom, Collides, Answer;
    if |rest| > 0 {
      ForwardedAre(wq, rest[1..], shift, p);
      AnswerIs(wq, rest[0], shift, p);
      var head := if Collides(wq, rest[0], shift) then Answer(wq, rest[0], shift) else [];
      assert Forwarded(wq, rest, shift) == head + Forwarded(wq, rest[1..], shift);
      if k :| 0 <= k < |rest| && AnswersFrom(wq, rest[k], shift, p) {
        assert k > 0 ==> AnswersFrom(wq, rest[1..][k - 1], shift, p);
      }
      if k :| 0 <= k < |rest[1..]| && AnswersFrom(wq, rest[1..][k], shift, p) {
        assert AnswersFrom(wq, rest[k + 1], shift, p);
      }
    }
  }

  lemma AnswersAlike(wq: seq<Request>, checked: seq<Request>, r: Request, shift: nat, p: Response)
    requires Alike(Oldest(checked, r, shift), Oldest(wq, r, shift))
    ensures AnswersFrom(checked, r, shift, p) <==> AnswersFrom(wq, r, shift, p)
  {
    hide Oldest;
  }

  /**
   * A check answers exactly the unchecked reads that want a response and whose address has a write
   * waiting, the oldest one being of their translation; the data are those of that oldest write, as
   * the writes waited before the check.
   */
  lemma ReadsGetOldestWrite(u: Setup, wq: seq<Request>, q: seq<Request>, returned: seq<Response>, p: Response)
    ensures var o, n := CheckReadQueue(u, CheckWriteQueue(u, wq), q, returned), CheckedCount(q);
      && |returned| <= |o.returned| && o.returned[..|returned|] == returned
      && (p in o.returned[|returned|..] <==> exists k :: n <= k < |q| && AnswersFrom(wq, q[k], WriteShift(u), p))
  {
    hide CheckReads, CheckWriteQueue, Oldest, AnswersFrom, Forwarded;
    var checked, n, shift := CheckWriteQueue(u, wq), CheckedCount(q), WriteShift(u);
    LoopForwards(u, checked, q[..n], q[n..], returned);
    assert (returned + Forwarded(checked, q[n..], shift))[|returned|..] == Forwarded(checked, q[n..], shift);
    ForwardedAre(checked, q[n..], shift, p);
    if k :| 0 <= k < |q[n..]| && AnswersFrom(checked, q[n..][k], shift, p) {
      QueueKeepsOldest(u, wq, q[n + k]);
      AnswersAlike(wq, checked, q[n + k], shift, p);
    }
    if k :| n <= k < |q| && AnswersFrom(wq, q[k], shift, p) {
      QueueKeepsOldest(u, wq, q[k]);
      AnswersAlike(wq, checked, q[k], shift, p);
      assert q[n..][k - n] == q[k];
    }
  }

  lemma QueueKeepsOldest(u: Setup, wq: seq<Request>, r: Request)
    ensures Alike(Oldest(CheckWriteQueue(u, wq), r, WriteShift(u)), Oldest(wq, r, WriteShift(u)))
  {
    hide CheckWrites, Oldest;
    var n := CheckedCount(wq);
    ChecksKeepOldest(wq[..n], wq[n..], WriteShift(u), r);
    assert wq[..n] + wq[n..] == wq;
  }

  /** The youngest waiting write for the address of `r`. */
  function Youngest(q: seq<Request>, r: Request, shift: nat): (y: Option<Request>)
    ensures y.Some? ==> y.value in q && SameBlock(y.value, r, shift)
    decreases |q|
  {
    if |q| == 0 then None
    else if SameBlock(q[|q| - 1], r, shift) then Some(q[|q| - 1])
    else Youngest(q[..|q| - 1], r, shift)
  }

  /** A read that meets a write gets the data of the youngest write if and only if the oldest one has the same data. */
  lemma LatestDataIff(u: Setup, wq: seq<Request>, q: seq<Request>, returned: seq<Response>, k: nat) returns (p: Response)
    requires CheckedCount(q) <= k < |q| && MeetsWrite(wq, q[k], WriteShift(u))
    ensures var o := CheckReadQueue(u, CheckWriteQueue(u, wq), q, returned);
      && |returned| <= |o.returned| && p in o.returned[|returned|..] && p.tags == q[k].tags && p.address == q[k].address
    ensures var oldest, youngest := Oldest(wq, q[k], WriteShift(u)), Youngest(wq, q[k], WriteShift(u));
      oldest.Some? && (youngest.Some? ==> (p.data == youngest.value.data <==> oldest.value.data == youngest.value.data))
  {
    hide CheckReadQueue, CheckWriteQueue, Oldest, Youngest;
    p := ResponseTo(q[k], Oldest(wq, q[k], WriteShift(u)).value);
    assert AnswersFrom(wq, q[k], WriteShift(u), p);
    ReadsGetOldestWrite(u, wq, q, returned, p);
  }

  /** Two writes to one address and then a read of it: the read gets the data of the first. */
  lemma LaterDataAreLost(u: Setup, returned: seq<Response>)
    ensures exists wq: seq<Request>, q: seq<Request>, p: Response ::
      && |wq| == 2 && wq[0].address == wq[1].address && wq[0].data != wq[1].data && |q| == 1
      && p in CheckReadQueue(u, CheckWriteQueue(u, wq), q, returned).returned
      && p.tags == q[0].tags && p.data == wq[0].data
  {
    var first := Request(0, true, false, false, 1, [], {});
    var second := first.(data := 2);
    var read := Request(0, true, true, false, 0, [], {0});
    var wq, q := [first, second], [read];
    assert FirstMatch(wq, read, WriteShift(u)) == 0;
    var p := ResponseTo(read, first);
    assert AnswersFrom(wq, q[0], WriteShift(u), p);
    assert CheckedCount(q) == 0;
    ReadsGetOldestWrite(u, wq, q, returned, p);
    assert p in CheckReadQueue(u, CheckWriteQueue(u, wq), q, returned).returned;
  }
}
