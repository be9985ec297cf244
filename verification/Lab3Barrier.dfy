/**
 * The tree reduction with a barrier after every level, as a step machine.  Reading the two
 * operands of a merge and storing its result are separate steps, so that a conflict would show.
 */
module BarrierReduction {
  import opened Collections
  import opened Powers
  import opened ReductionArithmetic

  /** `Blocked(k)` and `Looping(k)`: at the k-th barrier, and between the k-th and the next one. */
  datatype Phase =
    | Scanning
    | Blocked(level: nat)
    | Looping(level: nat)
    | Storing(level: nat, merged: int)
    | Returned(level: nat, value: int)

  /** `releases` counts the times the barrier has let everybody go. */
  datatype State = State(partials: seq<int>, phases: seq<Phase>, releases: nat)

  datatype Action = Publish(who: nat) | Iterate(who: nat) | Store(who: nat) | Release

  predicate Sized(c: Config, s: State) {
    && Usable(c)
    && |s.partials| == |s.phases| == c.tasklets
    && AreElements(c, s.partials)
    && forall i :: 0 <= i < c.tasklets && s.phases[i].Storing? ==> IsElement(c, s.phases[i].merged)
  }

  predicate Enabled(c: Config, s: State, a: Action)
    requires Sized(c, s)
  {
    match a
    case Publish(i) => i < c.tasklets && s.phases[i].Scanning?
    case Iterate(i) => i < c.tasklets && s.phases[i].Looping?
    case Store(i) => i < c.tasklets && s.phases[i].Storing?
    case Release => forall i :: 0 <= i < c.tasklets ==> s.phases[i].Blocked?
  }

  /** The tasklet merges at the level with stride 2^l, reading the partial 2^l above its own. */
  predicate Merges(c: Config, i: nat, l: nat) {
    Pow2(l) < c.tasklets && OnLevel(i, l + 1) && i + Pow2(l) < c.tasklets
  }

  /** One evaluation of the loop guard, and of the merge under it up to its store. */
  function NextPhase(c: Config, s: State, i: nat, l: nat): (p: Phase)
    requires Sized(c, s) && i < c.tasklets
    ensures p.Storing? ==> IsElement(c, p.merged)
  {
    if Pow2(l) >= c.tasklets then Returned(l, s.partials[i])
    else if Merges(c, i, l) then Storing(l, Add(c, s.partials[i], s.partials[i + Pow2(l)]))
    else Blocked(l + 1)
  }

  function Released(p: Phase): Phase {
    if p.Blocked? then Looping(p.level) else p
  }

  function Apply(c: Config, init: seq<int>, s: State, a: Action): (t: State)
    requires Sized(c, s) && Enabled(c, s, a) && IsInput(c, init)
    ensures Sized(c, t)
  {
    match a
    case Publish(i) => s.(partials := s.partials[i := init[i]], phases := s.phases[i := Blocked(0)])
    case Iterate(i) => s.(phases := s.phases[i := NextPhase(c, s, i, s.phases[i].level)])
    case Store(i) =>
      s.(partials := s.partials[i := s.phases[i].merged], phases := s.phases[i := Blocked(s.phases[i].level + 1)])
    case Release =>
      s.(phases := seq(c.tasklets, i requires 0 <= i < c.tasklets => Released(s.phases[i])),
         releases := s.releases + 1)
  }

  function Start(c: Config): (s: State)
    requires Usable(c)
    ensures Sized(c, s)
  {
    State(seq(c.tasklets, _ => 0), seq(c.tasklets, _ => Scanning), 0)
  }

  predicate Possible(c: Config, init: seq<int>, s: State, schedule: seq<Action>)
    requires Sized(c, s) && IsInput(c, init)
    decreases |schedule|
  {
    |schedule| == 0
    || (Enabled(c, s, schedule[0]) && Possible(c, init, Apply(c, init, s, schedule[0]), schedule[1..]))
  }

  function Run(c: Config, init: seq<int>, s: State, schedule: seq<Action>): (t: State)
    requires Sized(c, s) && IsInput(c, init) && Possible(c, init, s, schedule)
    ensures Sized(c, t)
    decreases |schedule|
  {
    if |schedule| == 0 then s else Run(c, init, Apply(c, init, s, schedule[0]), schedule[1..])
  }

  predicate AllReturned(s: State) {
    forall i :: 0 <= i < |s.phases| ==> s.phases[i].Returned?
  }

  // ---------- The invariant ----------

  /** What tasklet `i`'s partial is before the level with stride 2^l. */
  function Before(c: Config, init: seq<int>, i: nat, l: nat): (r: int)
    requires IsInput(c, init) && i < c.tasklets
    ensures IsElement(c, r)
  {
    Subtree(c, init, i, if i > 0 && LeaveLevel(i) < l then LeaveLevel(i) else l)
  }

  predicate TaskletOk(c: Config, init: seq<int>, releases: nat, i: nat, x: int, p: Phase)
    requires IsInput(c, init) && i < c.tasklets
  {
    match p
    case Scanning => releases == 0
    case Blocked(k) =>
      && k == releases && x == Before(c, init, i, k)
      && (k == 0 || (k <= Levels(c.tasklets) && Pow2(k - 1) < c.tasklets))
    case Looping(k) => k + 1 == releases && k <= Levels(c.tasklets) && x == Before(c, init, i, k)
    case Storing(k, v) =>
      && k + 1 == releases && k < Levels(c.tasklets) && Merges(c, i, k)
      && x == Before(c, init, i, k) && v == Before(c, init, i, k + 1)
    case Returned(k, v) =>
      k + 1 == releases && Pow2(k) >= c.tasklets && x == v && x == Before(c, init, i, k)
  }

  ghost predicate Inv(c: Config, init: seq<int>, s: State) {
    && Sized(c, s) && IsInput(c, init)
    && (forall i :: 0 <= i < c.tasklets ==> TaskletOk(c, init, s.releases, i, s.partials[i], s.phases[i]))
  }

  lemma InvIsSized(c: Config, init: seq<int>, s: State)
    requires Inv(c, init, s)
    ensures Sized(c, s) && IsInput(c, init)
  {
  }

  /** A level changes the partials of the merging tasklets only, doubling what they cover. */
  lemma LevelCovers(c: Config, init: seq<int>, i: nat, l: nat)
    requires IsInput(c, init) && i < c.tasklets && Pow2(l) < c.tasklets
    ensures Merges(c, i, l) ==>
              Before(c, init, i, l + 1) == Add(c, Before(c, init, i, l), Before(c, init, i + Pow2(l), l))
    ensures Merges(c, i, l) ==> Before(c, init, i + Pow2(l), l + 1) == Before(c, init, i + Pow2(l), l)
    ensures !Merges(c, i, l) ==> Before(c, init, i, l + 1) == Before(c, init, i, l)
  {
    hide LowBits, Levels, LeaveLevel, Pow2, Sum, Subtree;
    if i > 0 && OnLevel(i, l + 1) && LeaveLevel(i) <= l {
      LowerLevel(i, LeaveLevel(i) + 1, l + 1);
    }
    if Merges(c, i, l) {
      SubtreesJoin(c, init, i, l);
      ChildOf(i, l);
    } else if OnLevel(i, l + 1) {
      SubtreesJoin(c, init, i, l);
    } else if i == 0 {
      ZeroOnEveryLevel(l + 1);
    } else if LeaveLevel(i) > l {
      LowerLevel(i, l + 1, LeaveLevel(i));
    }
  }

  // ---------- Every step keeps the invariant ----------

  lemma PublishKeeps(c: Config, init: seq<int>, s: State, i: nat)
    requires Inv(c, init, s) && Enabled(c, s, Publish(i))
    ensures Inv(c, init, Apply(c, init, s, Publish(i)))
  {
    hide Levels, LeaveLevel, LowBits, Sum;
    assert TaskletOk(c, init, s.releases, i, s.partials[i], s.phases[i]);
    SumOfOne(c, init, i);
  }

  /** The loaded value is right although other tasklets of the level may already have stored theirs. */
  lemma LoadIsRight(c: Config, init: seq<int>, s: State, i: nat)
    requires Inv(c, init, s) && i < c.tasklets && s.phases[i].Looping? && Merges(c, i, s.phases[i].level)
    ensures Add(c, s.partials[i], s.partials[i + Pow2(s.phases[i].level)])
         == Before(c, init, i, s.phases[i].level + 1)
  {
    hide Levels, LeaveLevel, LowBits, Sum, Before, Pow2, OnLevel;
    var l := s.phases[i].level;
    var j := i + Pow2(l);
    LevelCovers(c, init, i, l);
    assert TaskletOk(c, init, s.releases, i, s.partials[i], s.phases[i]);
    assert TaskletOk(c, init, s.releases, j, s.partials[j], s.phases[j]);
  }

  lemma IterateKeeps(c: Config, init: seq<int>, s: State, i: nat)
    requires Inv(c, init, s) && Enabled(c, s, Iterate(i))
    ensures Inv(c, init, Apply(c, init, s, Iterate(i)))
  {
    hide Levels, LeaveLevel, LowBits, Sum, Before, Pow2;
    var l := s.phases[i].level;
    assert TaskletOk(c, init, s.releases, i, s.partials[i], s.phases[i]);
    if Pow2(l) < c.tasklets {
      LevelCovers(c, init, i, l);
      if Merges(c, i, l) {
        LoadIsRight(c, init, s, i);
      }
    }
  }

  lemma StoreKeeps(c: Config, init: seq<int>, s: State, i: nat)
    requires Inv(c, init, s) && Enabled(c, s, Store(i))
    ensures Inv(c, init, Apply(c, init, s, Store(i)))
  {
    hide Levels, LeaveLevel, LowBits, Sum, Before, Pow2;
    assert TaskletOk(c, init, s.releases, i, s.partials[i], s.phases[i]);
  }

  lemma ReleaseKeeps(c: Config, init: seq<int>, s: State)
    requires Inv(c, init, s) && Enabled(c, s, Release)
    ensures Inv(c, init, Apply(c, init, s, Release))
  {
    hide Levels, LeaveLevel, LowBits, Sum, Before, Pow2;
    var t := Apply(c, init, s, Release);
    forall i | 0 <= i < c.tasklets ensures TaskletOk(c, init, t.releases, i, t.partials[i], t.phases[i]) {
      assert TaskletOk(c, init, s.releases, i, s.partials[i], s.phases[i]);
    }
  }

  lemma StepKeeps(c: Config, init: seq<int>, s: State, a: Action)
    requires Inv(c, init, s) && Enabled(c, s, a)
    ensures Inv(c, init, Apply(c, init, s, a))
  {
    hide Inv, Apply;
    match a
    case Publish(i) => PublishKeeps(c, init, s, i);
    case Iterate(i) => IterateKeeps(c, init, s, i);
    case Store(i) => StoreKeeps(c, init, s, i);
    case Release => ReleaseKeeps(c, init, s);
  }

  lemma {:induction false} RunKeeps(c: Config, init: seq<int>, s: State, schedule: seq<Action>)
    requires Inv(c, init, s) && Possible(c, init, s, schedule)
    ensures Inv(c, init, Run(c, init, s, schedule))
    decreases |schedule|
  {
    hide Inv, Apply, Enabled;
    InvIsSized(c, init, s);
    if |schedule| > 0 {
      StepKeeps(c, init, s, schedule[0]);
      RunKeeps(c, init, Apply(c, init, s, schedule[0]), schedule[1..]);
    }
  }

  // ---------- No deadlock, no endless run ----------

  lemma SomeStepEnabled(c: Config, init: seq<int>, s: State) returns (a: Action)
    requires Inv(c, init, s) && !AllReturned(s)
    ensures Enabled(c, s, a)
  {
    hide Levels, LeaveLevel, LowBits, Sum, Before;
    var i :| 0 <= i < |s.phases| && !s.phases[i].Returned?;
    match s.phases[i]
    case Scanning => a := Publish(i);
    case Looping(_) => a := Iterate(i);
    case Storing(_, _) => a := Store(i);
    case Blocked(k) =>
      if j: nat :| j < c.tasklets && s.phases[j].Scanning? {
        a := Publish(j);
      } else if j: nat :| j < c.tasklets && s.phases[j].Looping? {
        a := Iterate(j);
      } else if j: nat :| j < c.tasklets && s.phases[j].Storing? {
        a := Store(j);
      } else {
        forall j | 0 <= j < c.tasklets ensures s.phases[j].Blocked? {
          assert TaskletOk(c, init, s.releases, i, s.partials[i], s.phases[i]);
          assert TaskletOk(c, init, s.releases, j, s.partials[j], s.phases[j]);
        }
        a := Release;
      }
  }

  function Rank(k: nat, p: Phase): int {
    match p
    case Scanning => 3 * k + 4
    case Blocked(l) => 3 * (k - l) + 3
    case Looping(l) => 3 * (k - l) + 2
    case Storing(l, _) => 3 * (k - l) + 1
    case Returned(_, _) => 0
  }

  function Ranks(k: nat, phases: seq<Phase>): (r: seq<int>)
    ensures |r| == |phases|
  {
    seq(|phases|, i requires 0 <= i < |phases| => Rank(k, phases[i]))
  }

  lemma RanksUpdate(k: nat, phases: seq<Phase>, i: nat, p: Phase)
    requires i < |phases|
    ensures Total(Ranks(k, phases[i := p])) == Total(Ranks(k, phases)) - Rank(k, phases[i]) + Rank(k, p)
  {
    hide Rank, Total;
    assert Ranks(k, phases[i := p]) == Ranks(k, phases)[i := Rank(k, p)];
    TotalUpdate(Ranks(k, phases), i, Rank(k, p));
  }

  lemma RanksBounds(c: Config, init: seq<int>, s: State)
    requires Inv(c, init, s)
    ensures 0 <= Total(Ranks(Levels(c.tasklets), s.phases)) <= c.tasklets * (3 * Levels(c.tasklets) + 4)
  {
    hide Levels, LeaveLevel, LowBits, Sum, Before, Pow2, Total;
    var k := Levels(c.tasklets);
    forall i | 0 <= i < |s.phases| ensures 0 <= Ranks(k, s.phases)[i] <= 3 * k + 4 {
      assert TaskletOk(c, init, s.releases, i, s.partials[i], s.phases[i]);
    }
    TotalBounds(Ranks(k, s.phases), 3 * k + 4);
  }

  lemma StepDescends(c: Config, init: seq<int>, s: State, a: Action)
    requires Inv(c, init, s) && Enabled(c, s, a)
    ensures Total(Ranks(Levels(c.tasklets), Apply(c, init, s, a).phases))
          < Total(Ranks(Levels(c.tasklets), s.phases))
  {
    hide Levels, LeaveLevel, LowBits, Sum, Before, Pow2, Total, Ranks;
    var k := Levels(c.tasklets);
    if a.Release? {
      ReleaseDescends(c, init, s);
    } else {
      var i := a.who;
      assert TaskletOk(c, init, s.releases, i, s.partials[i], s.phases[i]);
      RanksUpdate(k, s.phases, i, Apply(c, init, s, a).phases[i]);
    }
  }

  lemma ReleaseDescends(c: Config, init: seq<int>, s: State)
    requires Inv(c, init, s) && Enabled(c, s, Release)
    ensures Total(Ranks(Levels(c.tasklets), Apply(c, init, s, Release).phases))
          < Total(Ranks(Levels(c.tasklets), s.phases))
  {
    hide Levels, LeaveLevel, LowBits, Sum, Before, Pow2, Total, TaskletOk;
    var k := Levels(c.tasklets);
    TotalDescends(Ranks(k, s.phases), Ranks(k, Apply(c, init, s, Release).phases));
  }

  lemma {:induction false} RunDescends(c: Config, init: seq<int>, s: State, schedule: seq<Action>)
    requires Inv(c, init, s) && Possible(c, init, s, schedule)
    ensures |schedule| <= Total(Ranks(Levels(c.tasklets), s.phases))
    decreases |schedule|
  {
    hide Inv, Apply, Enabled, Ranks, Levels, Total;
    InvIsSized(c, init, s);
    if |schedule| > 0 {
      StepKeeps(c, init, s, schedule[0]);
      StepDescends(c, init, s, schedule[0]);
      RunDescends(c, init, Apply(c, init, s, schedule[0]), schedule[1..]);
    } else {
      RanksBounds(c, init, s);
    }
  }

  // ---------- Main results ----------

  lemma StartOk(c: Config, init: seq<int>)
    requires IsInput(c, init)
    ensures Inv(c, init, Start(c))
  {
  }

  /** Every interleaving is finite, and whenever some tasklet has not returned some step is possible. */
  lemma BarrierTerminates(c: Config, init: seq<int>, schedule: seq<Action>)
    requires IsInput(c, init) && Possible(c, init, Start(c), schedule)
    ensures |schedule| <= c.tasklets * (3 * Levels(c.tasklets) + 4)
    ensures !AllReturned(Run(c, init, Start(c), schedule)) ==>
              exists a :: Enabled(c, Run(c, init, Start(c), schedule), a)
  {
    hide Inv, Levels, Ranks, Total, Apply, Enabled;
    StartOk(c, init);
    RanksBounds(c, init, Start(c));
    RunDescends(c, init, Start(c), schedule);
    RunKeeps(c, init, Start(c), schedule);
    if !AllReturned(Run(c, init, Start(c), schedule)) {
      var a := SomeStepEnabled(c, init, Run(c, init, Start(c), schedule));
    }
  }

  /** The position tasklet `k` reads beside its own when it takes its next step. */
  predicate Reads(c: Config, s: State, k: nat, position: nat)
    requires Sized(c, s) && k < c.tasklets
  {
    && s.phases[k].Looping?
    && (position == k || (Merges(c, k, s.phases[k].level) && position == k + Pow2(s.phases[k].level)))
  }

  /**
   * No level has a conflict: while a tasklet's store is pending, no other tasklet is about to read
   * that partial, nor has one read it for a pending store of its own.
   */
  lemma NoConflict(c: Config, init: seq<int>, schedule: seq<Action>, i: nat, k: nat)
    requires IsInput(c, init) && Possible(c, init, Start(c), schedule)
    requires i < c.tasklets && k < c.tasklets && i != k
    ensures var t := Run(c, init, Start(c), schedule);
      t.phases[i].Storing? ==>
        && !Reads(c, t, k, i)
        && (t.phases[k].Storing? ==> i != k + Pow2(t.phases[k].level))
  {
    hide Levels, LeaveLevel, LowBits, Sum, Before, Pow2, Possible, Run;
    StartOk(c, init);
    RunKeeps(c, init, Start(c), schedule);
    var t := Run(c, init, Start(c), schedule);
    assert TaskletOk(c, init, t.releases, i, t.partials[i], t.phases[i]);
    assert TaskletOk(c, init, t.releases, k, t.partials[k], t.phases[k]);
    if (t.phases[k].Looping? || t.phases[k].Storing?) && OnLevel(k, t.phases[k].level + 1) {
      PartnerLeaves(k, t.phases[k].level);
    }
  }

  /** After the level with stride 2^l every index divisible by 2^(l+1) holds the sum of its 2^(l+1) partials. */
  lemma LevelSums(c: Config, init: seq<int>, schedule: seq<Action>, i: nat, l: nat)
    requires IsInput(c, init) && Possible(c, init, Start(c), schedule)
    requires i < c.tasklets && i % Pow2(l + 1) == 0
    ensures var t := Run(c, init, Start(c), schedule);
      t.phases[i] == Blocked(l + 1) || t.phases[i] == Looping(l + 1) ==>
        t.partials[i] == Sum(c, init, i, Min(i + Pow2(l + 1), c.tasklets))
  {
    hide Levels, LeaveLevel, LowBits, Sum, Pow2, Possible, Run;
    StartOk(c, init);
    RunKeeps(c, init, Start(c), schedule);
    var t := Run(c, init, Start(c), schedule);
    assert TaskletOk(c, init, t.releases, i, t.partials[i], t.phases[i]);
    OnLevelMeansDivisible(i, l + 1);
    if i > 0 && LeaveLevel(i) < l + 1 {
      LowerLevel(i, LeaveLevel(i) + 1, l + 1);
    }
  }

  /**
   * In every run, when tasklet 0 returns it returns the sum of the whole input; all tasklets that
   * have returned have passed the same number of barriers, and nobody returns before all have.
   */
  lemma BarrierReduces(c: Config, input: seq<int>, perBlock: nat, schedule: seq<Action>)
    requires Usable(c) && AreElements(c, input) && perBlock >= 1
    requires Possible(c, InitialPartials(c, input, perBlock), Start(c), schedule)
    ensures var t := Run(c, InitialPartials(c, input, perBlock), Start(c), schedule);
      && (t.phases[0].Returned? ==> t.phases[0].value == Sum(c, input, 0, |input|))
      && (forall i, k :: 0 <= i < c.tasklets && 0 <= k < c.tasklets && t.phases[i].Returned? ==>
            (t.phases[k].Returned? || t.phases[k].Looping?) && t.phases[k].level == t.phases[i].level)
  {
    hide Levels, LeaveLevel, LowBits, Sum, Pow2, Possible, Run, Partials;
    var init := InitialPartials(c, input, perBlock);
    StartOk(c, init);
    RunKeeps(c, init, Start(c), schedule);
    PartialsCoverInput(c, input, perBlock);
    var t := Run(c, init, Start(c), schedule);
    assert TaskletOk(c, init, t.releases, 0, t.partials[0], t.phases[0]);
    forall i, k | 0 <= i < c.tasklets && 0 <= k < c.tasklets && t.phases[i].Returned?
      ensures (t.phases[k].Returned? || t.phases[k].Looping?) && t.phases[k].level == t.phases[i].level
    {
      assert TaskletOk(c, init, t.releases, i, t.partials[i], t.phases[i]);
      assert TaskletOk(c, init, t.releases, k, t.partials[k], t.phases[k]);
    }
  }
}
