/** The queues of a channel as the simulator updates them, with erasure while iterating. */
module ChannelCore {
  import opened Collections
  import opened Powers
  import opened Channel
  import opened ChannelDelivery

  class ChannelUnit {
    const setup: Setup
    var rq: seq<Request>
    var pq: seq<Request>
    var wq: seq<Request>
    var returned: seq<Response>

    constructor (u: Setup)
      ensures setup == u && rq == [] && pq == [] && wq == [] && returned == []
    {
      setup, rq, pq, wq, returned := u, [], [], [], [];
    }

    method AddRq(r: Request) returns (accepted: bool)
      modifies this`rq
      ensures accepted <==> |old(rq)| < setup.rqSize
      ensures rq == if accepted then old(rq) + [r.(checked := false)] else old(rq)
    {
      accepted := |rq| < setup.rqSize;
      if accepted {
        rq := rq + [r.(checked := false)];
      }
    }

    method AddPq(r: Request) returns (accepted: bool)
      modifies this`pq
      ensures accepted <==> |old(pq)| < setup.pqSize
      ensures pq == if accepted then old(pq) + [r.(checked := false)] else old(pq)
    {
      accepted := |pq| < setup.pqSize;
      if accepted {
        pq := pq + [r.(checked := false)];
      }
    }

    method AddWq(r: Request) returns (accepted: bool)
      modifies this`wq
      ensures accepted <==> |old(wq)| < setup.wqSize
      ensures wq == if accepted then old(wq) + [r.(checked := false)] else old(wq)
    {
      accepted := |wq| < setup.wqSize;
      if accepted {
        wq := wq + [r.(checked := false)];
      }
    }

    /** The position of the first request that is not checked. */
    static method FirstUnchecked(q: seq<Request>) returns (n: nat)
      ensures n == CheckedCount(q)
    {
      n := 0;
      while n < |q| && q[n].checked
        invariant 0 <= n <= |q| && CheckedCount(q) == n + CheckedCount(q[n..])
      {
        assert q[n..][1..] == q[n + 1..];
        n := n + 1;
      }
    }

    /** The first request of a stretch of a queue for the same block. */
    static method FindBlock(q: seq<Request>, end: nat, r: Request, shift: nat) returns (i: nat)
      requires end <= |q|
      ensures i == FirstMatch(q[..end], r, shift)
    {
      i := 0;
      while i < end && Shr(q[i].address, shift) != Shr(r.address, shift)
        invariant 0 <= i <= end && FirstMatch(q[..end], r, shift) == i + FirstMatch(q[..end][i..], r, shift)
      {
        assert q[..end][i..][0] == q[i] && q[..end][i..][1..] == q[..end][i + 1..];
        i := i + 1;
      }
      assert i < end ==> q[..end][i..][0] == q[i];
    }

    /** do_collision_for_merge on the part of a queue before position `end`. */
    static method MergeBefore(q: seq<Request>, end: nat, r: Request, shift: nat) returns (merged: bool, p: seq<Request>)
      requires end <= |q|
      ensures merged == Collides(q[..end], r, shift)
      ensures p == if merged then MergeInto(q[..end], r, shift) + q[end..] else q
    {
      var i := FindBlock(q, end, r, shift);
      merged, p := i < end && q[i].translated == r.translated, q;
      if merged {
        p := q[i := q[i].(wants := q[i].wants || r.wants, deps := SetUnion(q[i].deps, r.deps), tags := q[i].tags + r.tags)];
        assert p == MergeInto(q[..end], r, shift) + q[end..];
      }
    }

    method CheckWriteQueue()
      modifies this`wq
      ensures wq == Channel.CheckWriteQueue(setup, old(wq))
    {
      hide Collides, MergeInto;
      var shift := WriteShift(setup);
      var it := FirstUnchecked(wq);
      while it < |wq|
        invariant 0 <= it <= |wq|
        invariant CheckWrites(wq[..it], wq[it..], shift) == Channel.CheckWriteQueue(setup, old(wq))
        decreases |wq| - it
      {
        var r := wq[it];
        assert wq[it..][0] == r && wq[it..][1..] == wq[it + 1..];
        var merged, q := MergeBefore(wq, it, r, shift);
        if merged {
          assert q[..it] == MergeInto(wq[..it], r, shift) && q[it + 1..] == wq[it + 1..];
          wq := q[..it] + q[it + 1..];
          assert wq[..it] == q[..it] && wq[it..] == q[it + 1..];
        } else {
          ghost var before := wq;
          wq := wq[it := r.(checked := true)];
          it := it + 1;
          assert wq[..it] == before[..it - 1] + [r.(checked := true)] && wq[it..] == before[it..];
        }
      }
      assert wq[..it] == wq;
    }

    /** The loop over the read or the prefetch queue. */
    method CheckReadLoop(before: seq<Request>) returns (queue: seq<Request>)
      modifies this`returned
      ensures Outcome(queue, returned) == CheckReadQueue(setup, wq, before, old(returned))
    {
      hide Collides, MergeInto;
      queue := before;
      var it := FirstUnchecked(queue);
      while it < |queue|
        invariant 0 <= it <= |queue|
        invariant CheckReads(setup, wq, queue[..it], queue[it..], returned)
               == CheckReadQueue(setup, wq, before, old(returned))
        decreases |queue| - it
      {
        var r := queue[it];
        assert queue[it..][0] == r && queue[it..][1..] == queue[it + 1..];
        var answered := AnswerFromWrites(r);
        if answered {
          ghost var q := queue;
          queue := queue[..it] + queue[it + 1..];
          assert queue[..it] == q[..it] && queue[it..] == q[it + 1..];
        } else {
          var merged, q := MergeBefore(queue, it, r, setup.offsetBits);
          if merged {
            assert q[..it] == MergeInto(queue[..it], r, setup.offsetBits) && q[it + 1..] == queue[it + 1..];
            queue := q[..it] + q[it + 1..];
            assert queue[..it] == q[..it] && queue[it..] == q[it + 1..];
          } else {
            queue := q[it := r.(checked := true)];
            it := it + 1;
            assert queue[..it] == q[..it - 1] + [r.(checked := true)] && queue[it..] == q[it..];
          }
        }
      }
      assert queue[..it] == queue;
    }

    /** do_collision_for_return against the write queue. */
    method AnswerFromWrites(r: Request) returns (answered: bool)
      modifies this`returned
      ensures answered == Collides(wq, r, WriteShift(setup))
      ensures returned == if answered then old(returned) + Answer(wq, r, WriteShift(setup)) else old(returned)
    {
      var i := FindBlock(wq, |wq|, r, WriteShift(setup));
      assert wq[..|wq|] == wq;
      answered := i < |wq| && wq[i].translated == r.translated;
      if answered && r.wants {
        returned := returned + [Response(r.address, wq[i].data, r.deps, r.tags)];
      }
    }

    /** check_collision: no waiter of either read queue is lost, and everything left is checked. */
    method CheckCollision()
      requires Ordered(rq) && Ordered(pq) && Ordered(wq)
      modifies this
      ensures forall a, b, c, issued ::
                Check(setup, State(Lane(old(rq), a), Lane(old(pq), b), Lane(old(wq), c), old(returned), issued))
                == State(Lane(rq, a), Lane(pq, b), Lane(wq, c), returned, issued)
      ensures AllChecked(rq) && AllChecked(pq) && AllChecked(wq)
      ensures forall i :: 0 <= i < |old(wq)| ==> CoveredIn(WriteShift(setup), wq, old(wq)[i])
      ensures forall i :: 0 <= i < |old(rq)| ==> Served(setup, wq, rq, returned, old(rq)[i])
      ensures forall i :: 0 <= i < |old(pq)| ==> Served(setup, wq, pq, returned, old(pq)[i])
    {
      hide CheckReadQueue, Channel.CheckWriteQueue, Ordered, Covers, CoveredIn, Served;
      WritesAreKept(setup, wq);
      CheckWriteQueue();
      NoWaiterIsLost(setup, wq, rq, returned);
      rq := CheckReadLoop(rq);
      ghost var answers := returned;
      NoWaiterIsLost(setup, wq, pq, returned);
      pq := CheckReadLoop(pq);
      forall i | 0 <= i < |old(rq)| ensures Served(setup, wq, rq, returned, old(rq)[i]) {
        LaterAnswers(setup, wq, rq, answers, returned, old(rq)[i]);
      }
    }
  }

  lemma LaterAnswers(u: Setup, wq: seq<Request>, q: seq<Request>, a: seq<Response>, b: seq<Response>, r: Request)
    requires Served(u, wq, q, a, r) && |a| <= |b| && b[..|a|] == a
    ensures Served(u, wq, q, b, r)
  {
    hide Served, Covers;
    forall i | 0 <= i < |q| ensures Covers(u.offsetBits, q[i], q[i]) {
      CoversItself(u.offsetBits, q[i]);
    }
    ServedStays(u, wq, q, a, q, b, r);
  }
}
