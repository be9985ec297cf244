/** The cache's blocks and miss registers as the simulator updates them, each method tied to its step. */
module MissCacheCore {
  import opened Collections
  import opened Powers
  import opened MissCache
  import Channel

  class CacheUnit {
    const setup: Setup
    const blocks: array2<Block>
    var mshr: seq<Entry>
    var pending: set<nat>
    var now: nat
    var warmup: bool
    var accepted: seq<Packet>
    var answers: seq<Answer>

    ghost function Sets(): (s: seq<seq<Block>>)
      reads blocks
    {
      seq(blocks.Length0, s requires 0 <= s < blocks.Length0 reads blocks => Row(s))
    }

    ghost function Row(s: nat): (row: seq<Block>)
      requires s < blocks.Length0
      reads blocks
      ensures |row| == blocks.Length1
    {
      seq(blocks.Length1, w requires 0 <= w < blocks.Length1 reads blocks => blocks[s, w])
    }

    ghost function View(): Cache
      reads this, blocks
    {
      Cache(Sets(), mshr, pending, now, warmup, accepted, answers)
    }

    ghost predicate Valid()
      reads this, blocks
    {
      blocks.Length0 == Pow2(setup.setBits) && blocks.Length1 == setup.ways && Inv(setup, View())
    }

    constructor (u: Setup, inWarmup: bool)
      ensures Valid() && fresh(blocks) && setup == u && View() == Start(u, inWarmup)
    {
      setup, mshr, pending, now, warmup, accepted, answers := u, [], {}, 0, inWarmup, [], [];
      blocks := new Block[Pow2(u.setBits), u.ways]((_, _) => Block(false, false, false, 0));
      new;
      forall s | 0 <= s < blocks.Length0 ensures Row(s) == Start(u, inWarmup).sets[s] {
      }
      assert Sets() == Start(u, inWarmup).sets;
    }

    method SetBlock(s: nat, w: nat, b: Block)
      requires s < blocks.Length0 && w < blocks.Length1
      modifies blocks
      ensures Sets() == old(Sets())[s := old(Row(s))[w := b]]
    {
      blocks[s, w] := b;
      assert Row(s) == old(Row(s))[w := b];
      forall t | 0 <= t < blocks.Length0 && t != s ensures Row(t) == old(Row(t)) {
      }
    }

    method FindWay(address: nat) returns (s: nat, w: nat)
      requires blocks.Length0 == Pow2(setup.setBits)
      ensures s == SetOf(setup, address) < blocks.Length0 && w == HitWay(setup, Row(s), address) <= blocks.Length1
    {
      s, w := SetOf(setup, address), 0;
      while w < blocks.Length1 && !(blocks[s, w].valid && BlockOf(setup, blocks[s, w].address) == BlockOf(setup, address))
        invariant w <= blocks.Length1
        invariant HitWay(setup, Row(s), address) == w + HitWay(setup, Row(s)[w..], address)
      {
        assert Row(s)[w..][0] == blocks[s, w] && Row(s)[w..][1..] == Row(s)[w + 1..];
        w := w + 1;
      }
      assert w < blocks.Length1 ==> Row(s)[w..][0] == blocks[s, w];
    }

    /** try_hit. */
    method TryHit(p: Packet) returns (hit: bool)
      requires Valid()
      modifies this`accepted, this`answers, blocks
      ensures Valid() && hit == Hits(setup, old(View()), p.address)
      ensures View() == if hit then Hit(setup, old(View()), p) else old(View())
    {
      hide Inv, HitWay;
      InvIsShaped(setup, View());
      var s, w := FindWay(p.address);
      hit := w < blocks.Length1;
      if hit {
        HitKeeps(setup, View(), p);
        var b := blocks[s, w];
        var useful := b.prefetched && !p.fromHere;
        answers := answers + [Answer(p.address, p.deps, p.queues, {|accepted|})];
        accepted := accepted + [p];
        SetBlock(s, w, b.(dirty := b.dirty || p.kind.Write?, prefetched := b.prefetched && !useful));
      }
    }

    method FindRegister(address: nat) returns (i: nat)
      ensures i == FindEntry(setup, mshr, address)
    {
      i := 0;
      while i < |mshr| && BlockOf(setup, mshr[i].address) != BlockOf(setup, address)
        invariant 0 <= i <= |mshr| && FindEntry(setup, mshr, address) == i + FindEntry(setup, mshr[i..], address)
      {
        assert mshr[i..][1..] == mshr[i + 1..];
        i := i + 1;
      }
    }

    /** handle_miss for a packet whose block is not in the cache. */
    method HandleMiss(p: Packet, room: bool) returns (done: bool)
      requires Valid() && Sound(p) && !Hits(setup, View(), p.address)
      modifies this`mshr, this`pending, this`accepted
      ensures Valid() && View() == TagCheck(setup, old(View()), p, room)
      ensures done == CanMiss(setup, old(View()), p, room)
    {
      hide Inv, HitWay, FindEntry;
      TagCheckKeeps(setup, View(), p, room);
      var i := FindRegister(p.address);
      var full := |mshr| == setup.mshrSize;
      if i < |mshr| {
        mshr := mshr[i := MergeEntries(mshr[i], NewEntry(p, now, |accepted|))];
        accepted := accepted + [p];
        done := true;
      } else if full || !room {
        done := false;
      } else {
        if WantsResponse(p) {
          mshr := mshr + [NewEntry(p, now, |accepted|)];
          pending := pending + {BlockOf(setup, p.address)};
          accepted := accepted + [p];
        }
        done := true;
      }
    }

    /** The tag check of one packet. */
    method CheckTag(p: Packet, room: bool) returns (done: bool)
      requires Valid() && Sound(p)
      modifies this`mshr, this`pending, this`accepted, this`answers, blocks
      ensures Valid() && View() == TagCheck(setup, old(View()), p, room)
    {
      hide Inv, Hit;
      done := TryHit(p);
      if !done {
        done := HandleMiss(p, room);
      }
    }

    /** finish_packet: the sanity check of the source holds for every requested block. */
    method FinishReturn(address: nat)
      requires Valid() && BlockOf(setup, address) in pending
      modifies this`mshr, this`pending
      ensures Valid()
      ensures FindEntry(setup, old(mshr), address) < |old(mshr)| && FirstUnreturned(old(mshr)) < |old(mshr)|
      ensures View() == FinishPacket(setup, old(View()), address)
    {
      hide Inv, FindEntry;
      FinishKeeps(setup, View(), address);
      var i := FindRegister(address);
      var j := 0;
      while j < |mshr| && mshr[j].ready.Some?
        invariant 0 <= j <= |mshr| && FirstUnreturned(mshr) == j + FirstUnreturned(mshr[j..])
      {
        assert mshr[j..][1..] == mshr[j + 1..];
        j := j + 1;
      }
      assert i != |mshr|;
      mshr := mshr[i := mshr[i].(ready := Some(now + if warmup then 0 else setup.fillLatency))];
      mshr := mshr[i := mshr[j]][j := mshr[i]];
      pending := pending - {BlockOf(setup, address)};
    }

    method FindFree(s: nat) returns (w: nat)
      requires s < blocks.Length0
      ensures w == FirstInvalid(Row(s)) <= blocks.Length1
    {
      w := 0;
      while w < blocks.Length1 && blocks[s, w].valid
        invariant w <= blocks.Length1 && FirstInvalid(Row(s)) == w + FirstInvalid(Row(s)[w..])
      {
        assert Row(s)[w..][0] == blocks[s, w] && Row(s)[w..][1..] == Row(s)[w + 1..];
        w := w + 1;
      }
      assert w < blocks.Length1 ==> Row(s)[w..][0] == blocks[s, w];
    }

    /** handle_fill of the front register, with the erasure that follows a successful one. */
    method HandleFill(choice: Choice) returns (done: bool)
      requires Valid() && choice.victim <= setup.ways && |mshr| > 0 && IsReady(mshr[0], now)
      modifies this`mshr, this`answers, blocks
      ensures Valid() && Shaped(setup, old(View())) && done == CanFill(setup, old(View()), choice.victim, choice.room)
      ensures View() == if done then Fill(setup, old(View()), choice.victim) else old(View())
    {
      hide Inv, FirstInvalid;
      InvIsShaped(setup, View());
      FillKeeps(setup, View(), choice.victim);
      var e := mshr[0];
      var s := SetOf(setup, e.address);
      var w := FindFree(s);
      if w == blocks.Length1 {
        w := choice.victim;
      }
      done := true;
      if w < blocks.Length1 && blocks[s, w].valid && blocks[s, w].dirty {
        done := choice.room;
      }
      if done {
        mshr := mshr[1..];
        answers := answers + [Answer(e.address, e.deps, e.queues, e.tags)];
        if w < blocks.Length1 {
          SetBlock(s, w, Filled(e));
        }
      }
    }

    /** The fill phase of operate. */
    method PerformFills(choices: seq<Choice>)
      requires Valid() && Choices(setup, choices)
      modifies this`mshr, this`answers, blocks
      ensures Valid() && Shaped(setup, old(View())) && View() == FillReady(setup, old(View()), choices)
    {
      hide Inv, Fill, CanFill, IsReady;
      InvIsShaped(setup, View());
      var k := 0;
      assert choices[0..] == choices;
      while k < |choices| && |mshr| > 0 && IsReady(mshr[0], now)
        invariant 0 <= k <= |choices| && Valid() && Shaped(setup, View())
        invariant FillReady(setup, View(), choices[k..]) == FillReady(setup, old(View()), choices)
      {
        assert choices[k..][0] == choices[k] && choices[k..][1..] == choices[k + 1..];
        var done := HandleFill(choices[k]);
        InvIsShaped(setup, View());
        if !done {
          return;
        }
        k := k + 1;
      }
      if k < |choices| {
        NothingReady(setup, View(), choices[k..][0]);
      }
    }
  }

  lemma NothingReady(u: Setup, c: Cache, choice: Choice)
    requires Shaped(u, c) && choice.victim <= u.ways && (|c.mshr| == 0 || !IsReady(c.mshr[0], c.now))
    ensures !CanFill(u, c, choice.victim, choice.room)
  {
  }
}
