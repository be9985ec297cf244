/**
 * The tree reduction with pairwise handshakes, as a step machine: any tasklet whose next step is
 * enabled may take it, so a run is any interleaving.  `wait_for(j)` and `notify` meet.
 */
module HandshakeReduction {
  import opened Collections
  import opened Powers
  import opened ReductionArithmetic

  /** Where a tasklet stands; `level` is the base-two logarithm of the loop's stride. */
  datatype Phase =
    | Scanning
    | Looping(level: nat)
    | Waiting(level: nat)
    | Merging(level: nat)
    | Notifying(level: nat)
    | Returned

  datatype Meeting = Meeting(waiter: nat, notifier: nat)

  datatype State = State(partials: seq<int>, phases: seq<Phase>, meetings: seq<Meeting>)

  datatype Action =
    | Publish(who: nat)
    | Iterate(who: nat)
    | Meet(who: nat, partner: nat)
    | Merge(who: nat)

  predicate Sized(c: Config, s: State) {
    && Usable(c)
    && |s.partials| == |s.phases| == c.tasklets
    && AreElements(c, s.partials)
  }

  predicate Enabled(c: Config, s: State, a: Action)
    requires Sized(c, s)
  {
    && a.who < c.tasklets
    && match a
       case Publish(i) => s.phases[i].Scanning?
       case Iterate(i) => s.phases[i].Looping?
       case Meet(i, j) =>
         && s.phases[i].Waiting? && j == i + Pow2(s.phases[i].level)
         && j < c.tasklets && s.phases[j].Notifying?
       case Merge(i) => s.phases[i].Merging? && i + Pow2(s.phases[i].level) < c.tasklets
  }

  /** One evaluation of the loop guard and of the branch under it. */
  function NextPhase(c: Config, i: nat, l: nat): Phase {
    if Pow2(l) >= c.tasklets then Returned
    else if !OnLevel(i, l + 1) then Notifying(l)
    else if i + Pow2(l) < c.tasklets then Waiting(l)
    else Looping(l + 1)
  }

  /** `init` holds what each tasklet's block loop adds up. */
  function Apply(c: Config, init: seq<int>, s: State, a: Action): (t: State)
    requires Sized(c, s) && Enabled(c, s, a) && |init| == c.tasklets && AreElements(c, init)
    ensures Sized(c, t)
  {
    match a
    case Publish(i) => s.(partials := s.partials[i := init[i]], phases := s.phases[i := Looping(0)])
    case Iterate(i) => s.(phases := s.phases[i := NextPhase(c, i, s.phases[i].level)])
    case Meet(i, j) =>
      s.(phases := s.phases[i := Merging(s.phases[i].level)][j := Returned],
         meetings := s.meetings + [Meeting(i, j)])
    case Merge(i) =>
      var l := s.phases[i].level;
      s.(partials := s.partials[i := Add(c, s.partials[i], s.partials[i + Pow2(l)])],
         phases := s.phases[i := Looping(l + 1)])
  }

  function Start(c: Config): (s: State)
    requires Usable(c)
    ensures Sized(c, s)
  {
    State(seq(c.tasklets, _ => 0), seq(c.tasklets, _ => Scanning), [])
  }

  /** `schedule` can be carried out action by action. */
  predicate Possible(c: Config, init: seq<int>, s: State, schedule: seq<Action>)
    requires Sized(c, s) && IsInput(c, init)
    decreases |schedule|
  {
    |schedule| == 0
    || (Enabled(c, s, schedule[0]) && Possible(c, init, Apply(c, init, s, schedule[0]), schedule[1..]))
  }

  function Run(c: Config, init: seq<int>, s: State, schedule: seq<Action>): (t: State)
    requires Sized(c, s) && IsInput(c, init) && Possible(c, init, s, schedule)
    ensures Sized(c, t)
    decreases |schedule|
  {
    if |schedule| == 0 then s else Run(c, init, Apply(c, init, s, schedule[0]), schedule[1..])
  }

  predicate AllReturned(s: State) {
    forall i :: 0 <= i < |s.phases| ==> s.phases[i].Returned?
  }

  // ---------- The invariant ----------

  /** The phase says that the rendezvous of level `l` is over (or that there was none). */
  predicate Passed(p: Phase, l: nat) {
    match p
    case Scanning => false
    case Looping(m) => m > l
    case Waiting(m) => m > l
    case Merging(m) => m >= l
    case Notifying(m) => m > l
    case Returned => true
  }

  predicate TaskletOk(c: Config, init: seq<int>, i: nat, x: int, p: Phase)
    requires IsInput(c, init) && i < c.tasklets
  {
    match p
    case Scanning => true
    case Looping(l) => OnLevel(i, l) && l <= Levels(c.tasklets) && x == Subtree(c, init, i, l)
    case Waiting(l) =>
      OnLevel(i, l + 1) && i + Pow2(l) < c.tasklets && l < Levels(c.tasklets) && x == Subtree(c, init, i, l)
    case Merging(l) =>
      OnLevel(i, l + 1) && i + Pow2(l) < c.tasklets && l < Levels(c.tasklets) && x == Subtree(c, init, i, l)
    case Notifying(l) => i > 0 && l == LeaveLevel(i) && x == Subtree(c, init, i, l)
    case Returned => x == if i > 0 then Subtree(c, init, i, LeaveLevel(i)) else Sum(c, init, 0, c.tasklets)
  }

  /** A tasklet has returned exactly when its parent has met it. */
  predicate LinkOk(phases: seq<Phase>, i: nat)
    requires 0 < i < |phases|
  {
    phases[i].Returned? <==> Passed(phases[Parent(i)], LeaveLevel(i))
  }

  ghost predicate MeetingsOk(s: State) {
    && (forall a, b :: 0 <= a < b < |s.meetings| ==> s.meetings[a].notifier != s.meetings[b].notifier)
    && (forall m :: m in s.meetings ==>
          0 < m.notifier < |s.phases| && m.waiter == Parent(m.notifier) && s.phases[m.notifier].Returned?)
    && (forall j :: 0 < j < |s.phases| && s.phases[j].Returned? ==> Meeting(Parent(j), j) in s.meetings)
  }

  ghost predicate Inv(c: Config, init: seq<int>, s: State) {
    && Sized(c, s) && IsInput(c, init)
    && (forall i :: 0 <= i < c.tasklets ==> TaskletOk(c, init, i, s.partials[i], s.phases[i]))
    && (forall i :: 0 < i < c.tasklets ==> LinkOk(s.phases, i))
    && MeetingsOk(s)
  }

  lemma InvIsSized(c: Config, init: seq<int>, s: State)
    requires Inv(c, init, s)
    ensures Sized(c, s) && IsInput(c, init)
  {
  }

  lemma StartOk(c: Config, init: seq<int>)
    requires IsInput(c, init)
    ensures Inv(c, init, Start(c))
  {
  }

  /** All partners of a tasklet that leaves the tree lie on lower levels. */
  lemma ChildrenAreLower(i: nat)
    requires i > 0 && Parent(i) > 0
    ensures LeaveLevel(i) < LeaveLevel(Parent(i))
  {
    var p, l := Parent(i), LeaveLevel(i);
    if LeaveLevel(p) <= l {
      LowerLevel(p, LeaveLevel(p) + 1, l + 1);
    }
  }

  // ---------- Every step keeps the invariant ----------

  lemma PublishKeeps(c: Config, init: seq<int>, s: State, i: nat)
    requires Inv(c, init, s) && Enabled(c, s, Publish(i))
    ensures Inv(c, init, Apply(c, init, s, Publish(i)))
  {
    hide Levels, LeaveLevel, Parent;
    var t := Apply(c, init, s, Publish(i));
    assert OnLevel(i, 0);
    assert Subtree(c, init, i, 0) == init[i] by {
      SumOfOne(c, init, i);
    }
    forall j | 0 < j < c.tasklets ensures LinkOk(t.phases, j) {
      assert LinkOk(s.phases, j);
    }
  }

  lemma IterateKeepsTasklet(c: Config, init: seq<int>, i: nat, l: nat, x: int)
    requires IsInput(c, init) && i < c.tasklets && TaskletOk(c, init, i, x, Looping(l))
    ensures TaskletOk(c, init, i, x, NextPhase(c, i, l))
  {
    hide Levels, LeaveLevel, Parent, LowBits, Sum, Pow2;
    if Pow2(l) >= c.tasklets {
      if i > 0 {
        OnLevelIsLarge(i, l);
      }
    } else if !OnLevel(i, l + 1) {
      if i == 0 {
        ZeroOnEveryLevel(l + 1);
      }
      LeaveLevelUnique(i, l);
    } else {
      SubtreesJoin(c, init, i, l);
    }
  }

  lemma IterateKeepsLinks(c: Config, init: seq<int>, s: State, i: nat, j: nat)
    requires Inv(c, init, s) && Enabled(c, s, Iterate(i)) && 0 < j < c.tasklets
    ensures LinkOk(Apply(c, init, s, Iterate(i)).phases, j)
  {
    hide Levels, LeaveLevel, Parent, Sum, Subtree, MeetingsOk, LowBits;
    var t := Apply(c, init, s, Iterate(i));
    var l := s.phases[i].level;
    assert LinkOk(s.phases, j);
    assert TaskletOk(c, init, i, s.partials[i], s.phases[i]);
    assert TaskletOk(c, init, j, s.partials[j], s.phases[j]);
    if j == i {
      if Pow2(l) >= c.tasklets {
        OnLevelIsLarge(i, l);
      }
    }
    if Parent(j) == i {
      var m := LeaveLevel(j);
      if m >= l && Pow2(l) >= c.tasklets {
        Pow2Monotone(l, m);
      }
    }
  }

  lemma IterateKeeps(c: Config, init: seq<int>, s: State, i: nat)
    requires Inv(c, init, s) && Enabled(c, s, Iterate(i))
    ensures Inv(c, init, Apply(c, init, s, Iterate(i)))
  {
    hide Levels, LeaveLevel, Parent, Sum, Subtree, LowBits, TaskletOk, LinkOk;
    var t := Apply(c, init, s, Iterate(i));
    IterateKeepsTasklet(c, init, i, s.phases[i].level, s.partials[i]);
    forall j | 0 < j < c.tasklets ensures LinkOk(t.phases, j) {
      IterateKeepsLinks(c, init, s, i, j);
    }
    IterateKeepsMeetings(c, init, s, i);
  }

  lemma IterateKeepsMeetings(c: Config, init: seq<int>, s: State, i: nat)
    requires Inv(c, init, s) && Enabled(c, s, Iterate(i))
    ensures MeetingsOk(Apply(c, init, s, Iterate(i)))
  {
    hide Levels, LeaveLevel, Parent, Sum, Subtree, LowBits, LinkOk;
    assert TaskletOk(c, init, i, s.partials[i], s.phases[i]);
    if Pow2(s.phases[i].level) >= c.tasklets && i > 0 {
      OnLevelIsLarge(i, s.phases[i].level);
    }
  }

  lemma MeetKeepsTasklets(c: Config, init: seq<int>, s: State, i: nat, j: nat)
    requires Inv(c, init, s) && Enabled(c, s, Meet(i, j))
    ensures LeaveLevel(j) == s.phases[i].level && Parent(j) == i && i != j
    ensures TaskletOk(c, init, i, s.partials[i], Merging(s.phases[i].level))
    ensures TaskletOk(c, init, j, s.partials[j], Returned)
  {
    hide Levels, LeaveLevel, Parent, Sum, Subtree, LowBits, LinkOk, MeetingsOk;
    assert TaskletOk(c, init, i, s.partials[i], s.phases[i]);
    assert TaskletOk(c, init, j, s.partials[j], s.phases[j]);
    ChildOf(i, s.phases[i].level);
  }

  lemma MeetKeepsLinks(c: Config, init: seq<int>, s: State, i: nat, j: nat, k: nat)
    requires Inv(c, init, s) && Enabled(c, s, Meet(i, j)) && 0 < k < c.tasklets
    ensures LinkOk(Apply(c, init, s, Meet(i, j)).phases, k)
  {
    hide Levels, LeaveLevel, Parent, Sum, Subtree, LowBits, MeetingsOk;
    MeetKeepsTasklets(c, init, s, i, j);
    assert LinkOk(s.phases, k);
    assert TaskletOk(c, init, j, s.partials[j], s.phases[j]);
    if Parent(k) == j {
      ChildrenAreLower(k);
    }
  }

  lemma MeetKeepsMeetings(c: Config, init: seq<int>, s: State, i: nat, j: nat)
    requires Inv(c, init, s) && Enabled(c, s, Meet(i, j))
    ensures MeetingsOk(Apply(c, init, s, Meet(i, j)))
  {
    hide Levels, LeaveLevel, Parent, Sum, Subtree, LowBits, LinkOk, TaskletOk;
    var t := Apply(c, init, s, Meet(i, j));
    MeetKeepsTasklets(c, init, s, i, j);
    assert t.meetings[|s.meetings|] == Meeting(i, j);
    forall k | 0 < k < |t.phases| && t.phases[k].Returned? ensures Meeting(Parent(k), k) in t.meetings {
      assert k != j ==> Meeting(Parent(k), k) in s.meetings;
    }
  }

  lemma MeetKeeps(c: Config, init: seq<int>, s: State, i: nat, j: nat)
    requires Inv(c, init, s) && Enabled(c, s, Meet(i, j))
    ensures Inv(c, init, Apply(c, init, s, Meet(i, j)))
  {
    hide Levels, LeaveLevel, Parent, Sum, Subtree, LowBits, LinkOk, TaskletOk, MeetingsOk;
    MeetKeepsTasklets(c, init, s, i, j);
    MeetKeepsMeetings(c, init, s, i, j);
    forall k | 0 < k < c.tasklets ensures LinkOk(Apply(c, init, s, Meet(i, j)).phases, k) {
      MeetKeepsLinks(c, init, s, i, j, k);
    }
  }

  lemma MergeKeeps(c: Config, init: seq<int>, s: State, i: nat)
    requires Inv(c, init, s) && Enabled(c, s, Merge(i))
    ensures Inv(c, init, Apply(c, init, s, Merge(i)))
  {
    hide Levels, LeaveLevel, Parent, Sum, Subtree, LowBits;
    var t := Apply(c, init, s, Merge(i));
    var l := s.phases[i].level;
    var j := i + Pow2(l);
    assert TaskletOk(c, init, i, s.partials[i], s.phases[i]);
    ChildOf(i, l);
    assert LinkOk(s.phases, j);
    assert TaskletOk(c, init, j, s.partials[j], s.phases[j]);
    SubtreesJoin(c, init, i, l);
    forall k | 0 < k < c.tasklets ensures LinkOk(t.phases, k) {
      assert LinkOk(s.phases, k);
    }
  }

  lemma StepKeeps(c: Config, init: seq<int>, s: State, a: Action)
    requires Inv(c, init, s) && Enabled(c, s, a)
    ensures Inv(c, init, Apply(c, init, s, a))
  {
    hide Inv, Apply;
    match a
    case Publish(i) => PublishKeeps(c, init, s, i);
    case Iterate(i) => IterateKeeps(c, init, s, i);
    case Meet(i, j) => MeetKeeps(c, init, s, i, j);
    case Merge(i) => MergeKeeps(c, init, s, i);
  }

  lemma {:induction false} RunKeeps(c: Config, init: seq<int>, s: State, schedule: seq<Action>)
    requires Inv(c, init, s) && Possible(c, init, s, schedule)
    ensures Inv(c, init, Run(c, init, s, schedule))
    decreases |schedule|
  {
    hide Inv, Apply, Enabled;
    InvIsSized(c, init, s);
    if |schedule| > 0 {
      StepKeeps(c, init, s, schedule[0]);
      RunKeeps(c, init, Apply(c, init, s, schedule[0]), schedule[1..]);
    }
  }

  // ---------- No deadlock ----------

  /** A waiting tasklet can meet its partner, or the partner can move, or something the partner waits for can. */
  lemma {:induction false} WaitingUnblocks(c: Config, init: seq<int>, s: State, i: nat) returns (a: Action)
    requires Inv(c, init, s) && i < c.tasklets && s.phases[i].Waiting?
    ensures Enabled(c, s, a)
    decreases c.tasklets - i
  {
    hide Levels, LeaveLevel, Parent, Sum, Subtree, LowBits, MeetingsOk;
    var l := s.phases[i].level;
    var j := i + Pow2(l);
    assert TaskletOk(c, init, i, s.partials[i], s.phases[i]);
    ChildOf(i, l);
    assert LinkOk(s.phases, j);
    match s.phases[j]
    case Scanning => a := Publish(j);
    case Looping(_) => a := Iterate(j);
    case Waiting(_) => a := WaitingUnblocks(c, init, s, j);
    case Merging(m) =>
      assert TaskletOk(c, init, j, s.partials[j], s.phases[j]);
      a := Merge(j);
    case Notifying(_) => a := Meet(i, j);
  }

  lemma SomeStepEnabled(c: Config, init: seq<int>, s: State) returns (a: Action)
    requires Inv(c, init, s) && !AllReturned(s)
    ensures Enabled(c, s, a)
  {
    hide Levels, LeaveLevel, Parent, Sum, Subtree, LowBits, MeetingsOk;
    var i :| 0 <= i < |s.phases| && !s.phases[i].Returned?;
    assert TaskletOk(c, init, i, s.partials[i], s.phases[i]);
    match s.phases[i]
    case Scanning => a := Publish(i);
    case Looping(_) => a := Iterate(i);
    case Waiting(_) => a := WaitingUnblocks(c, init, s, i);
    case Merging(_) => a := Merge(i);
    case Notifying(_) =>
      var p := Parent(i);
      assert LinkOk(s.phases, i);
      assert TaskletOk(c, init, p, s.partials[p], s.phases[p]);
      match s.phases[p] {
        case Scanning => a := Publish(p);
        case Looping(_) => a := Iterate(p);
        case Waiting(_) => a := WaitingUnblocks(c, init, s, p);
        case Merging(_) => a := Merge(p);
        case Notifying(m) => ChildrenAreLower(i);
      }
  }

  // ---------- Every run is finite ----------

  function Rank(k: nat, p: Phase): int {
    match p
    case Scanning => 4 * k + 4
    case Looping(l) => 4 * (k - l) + 3
    case Waiting(l) => 4 * (k - l) + 2
    case Merging(l) => 4 * (k - l) + 1
    case Notifying(_) => 1
    case Returned => 0
  }

  function Ranks(k: nat, phases: seq<Phase>): (r: seq<int>)
    ensures |r| == |phases|
  {
    seq(|phases|, i requires 0 <= i < |phases| => Rank(k, phases[i]))
  }

  lemma RanksUpdate(k: nat, phases: seq<Phase>, i: nat, p: Phase)
    requires i < |phases|
    ensures Total(Ranks(k, phases[i := p])) == Total(Ranks(k, phases)) - Rank(k, phases[i]) + Rank(k, p)
  {
    hide Rank, Total;
    assert Ranks(k, phases[i := p]) == Ranks(k, phases)[i := Rank(k, p)];
    TotalUpdate(Ranks(k, phases), i, Rank(k, p));
  }

  lemma RanksNonNegative(c: Config, init: seq<int>, s: State)
    requires Inv(c, init, s)
    ensures 0 <= Total(Ranks(Levels(c.tasklets), s.phases)) <= c.tasklets * (4 * Levels(c.tasklets) + 4)
  {
    hide Levels, LeaveLevel, Parent, Sum, Subtree, LowBits, MeetingsOk, LinkOk, Pow2, Total;
    var k := Levels(c.tasklets);
    forall i | 0 <= i < |s.phases| ensures 0 <= Ranks(k, s.phases)[i] <= 4 * k + 4 {
      assert TaskletOk(c, init, i, s.partials[i], s.phases[i]);
    }
    TotalBounds(Ranks(k, s.phases), 4 * k + 4);
  }

  lemma StepDescends(c: Config, init: seq<int>, s: State, a: Action)
    requires Inv(c, init, s) && Enabled(c, s, a)
    ensures Total(Ranks(Levels(c.tasklets), Apply(c, init, s, a).phases))
              < Total(Ranks(Levels(c.tasklets), s.phases))
  {
    hide Levels, LeaveLevel, Parent, Sum, Subtree, LowBits, MeetingsOk, LinkOk, Pow2, Ranks, Total;
    var k := Levels(c.tasklets);
    var i := a.who;
    assert TaskletOk(c, init, i, s.partials[i], s.phases[i]);
    match a
    case Publish(_) => RanksUpdate(k, s.phases, i, Looping(0));
    case Iterate(_) =>
      RanksUpdate(k, s.phases, i, NextPhase(c, i, s.phases[i].level));
    case Meet(_, j) =>
      RanksUpdate(k, s.phases, i, Merging(s.phases[i].level));
      RanksUpdate(k, s.phases[i := Merging(s.phases[i].level)], j, Returned);
    case Merge(_) => RanksUpdate(k, s.phases, i, Looping(s.phases[i].level + 1));
  }

  lemma {:induction false} RunDescends(c: Config, init: seq<int>, s: State, schedule: seq<Action>)
    requires Inv(c, init, s) && Possible(c, init, s, schedule)
    ensures |schedule| <= Total(Ranks(Levels(c.tasklets), s.phases))
    decreases |schedule|
  {
    hide Inv, Apply, Enabled, Ranks, Levels, Total;
    InvIsSized(c, init, s);
    if |schedule| > 0 {
      StepKeeps(c, init, s, schedule[0]);
      StepDescends(c, init, s, schedule[0]);
      RunDescends(c, init, Apply(c, init, s, schedule[0]), schedule[1..]);
    } else {
      RanksNonNegative(c, init, s);
    }
  }

  // ---------- Main results ----------

  /** Every interleaving is finite, and whenever some tasklet has not returned some step is possible. */
  lemma HandshakeTerminates(c: Config, init: seq<int>, schedule: seq<Action>)
    requires IsInput(c, init) && Possible(c, init, Start(c), schedule)
    ensures |schedule| <= c.tasklets * (4 * Levels(c.tasklets) + 4)
    ensures !AllReturned(Run(c, init, Start(c), schedule)) ==>
              exists a :: Enabled(c, Run(c, init, Start(c), schedule), a)
  {
    hide Inv, Levels, Ranks, Total, Apply, Enabled;
    StartOk(c, init);
    RanksNonNegative(c, init, Start(c));
    RunDescends(c, init, Start(c), schedule);
    RunKeeps(c, init, Start(c), schedule);
    if !AllReturned(Run(c, init, Start(c), schedule)) {
      var a := SomeStepEnabled(c, init, Run(c, init, Start(c), schedule));
    }
  }

  /** When tasklet 0 has returned, so has every other tasklet: nobody is left waiting. */
  lemma {:induction false} RootReturnsLast(c: Config, init: seq<int>, s: State, i: nat)
    requires Inv(c, init, s) && s.phases[0].Returned? && i < c.tasklets
    ensures s.phases[i].Returned?
    decreases i
  {
    if i > 0 {
      RootReturnsLast(c, init, s, Parent(i));
      assert LinkOk(s.phases, i);
    }
  }
  /**
   * In every run: no tasklet notifies twice; and once tasklet 0 returns it holds the sum of the whole
   * input, every tasklet has returned, and the rendezvous held are exactly one per non-zero tasklet,
   * with its parent in the tree.
   */
  lemma HandshakeReduces(c: Config, input: seq<int>, perBlock: nat, schedule: seq<Action>)
    requires Usable(c) && AreElements(c, input) && perBlock >= 1
    requires Possible(c, InitialPartials(c, input, perBlock), Start(c), schedule)
    ensures var t := Run(c, InitialPartials(c, input, perBlock), Start(c), schedule);
      && (forall a, b :: 0 <= a < b < |t.meetings| ==> t.meetings[a].notifier != t.meetings[b].notifier)
      && (t.phases[0].Returned? ==>
            && t.partials[0] == Sum(c, input, 0, |input|)
            && AllReturned(t)
            && forall m :: m in t.meetings <==> 0 < m.notifier < c.tasklets && m.waiter == Parent(m.notifier))
  {
    hide Sum, Partials, LeaveLevel, Parent, Possible, Run, Apply, LinkOk;
    var init := InitialPartials(c, input, perBlock);
    StartOk(c, init);
    RunKeeps(c, init, Start(c), schedule);
    var t := Run(c, init, Start(c), schedule);
    assert TaskletOk(c, init, 0, t.partials[0], t.phases[0]);
    PartialsCoverInput(c, input, perBlock);
    if t.phases[0].Returned? {
      forall i | 0 <= i < |t.phases| ensures t.phases[i].Returned? {
        RootReturnsLast(c, init, t, i);
      }
      forall m: Meeting ensures m in t.meetings <==> 0 < m.notifier < c.tasklets && m.waiter == Parent(m.notifier) {
        if 0 < m.notifier < c.tasklets && m.waiter == Parent(m.notifier) {
          assert t.phases[m.notifier].Returned?;
          assert m == Meeting(Parent(m.notifier), m.notifier);
        }
      }
    }
  }
}
