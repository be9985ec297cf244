/**
 * The two flat reductions: every tasklet adds its partial to one accumulator under a mutex, or
 * tasklet 0 adds up all partials.  Both are step machines in which any enabled step may be next.
 */
module MutexReduction {
  import opened Collections
  import opened ReductionArithmetic

  /**
   * `Entering` and `AtStart` come before the kernel's first barrier, where tasklet 0 resets the
   * accumulator left by an earlier launch; `Leaving` comes after the last one.
   */
  datatype Phase =
    | Entering
    | AtStart
    | Scanning
    | Locking
    | Reading
    | Writing(merged: int)
    | Unlocking
    | AtEnd
    | Leaving
    | Returned(value: int)

  datatype State = State(
    accum: int, partials: seq<int>, phases: seq<Phase>, holder: Option<nat>, releases: nat)

  datatype Action = Advance(who: nat) | Release

  predicate Sized(c: Config, s: State) {
    && Usable(c)
    && |s.partials| == |s.phases| == c.tasklets
    && AreElements(c, s.partials)
    && IsElement(c, s.accum)
    && forall i :: 0 <= i < c.tasklets && s.phases[i].Writing? ==> IsElement(c, s.phases[i].merged)
  }

  predicate AtBarrier(p: Phase) {
    p.AtStart? || p.AtEnd?
  }

  /** A tasklet can move unless it waits at the barrier, for the lock, or has returned. */
  predicate Enabled(c: Config, s: State, a: Action)
    requires Sized(c, s)
  {
    match a
    case Advance(i) =>
      && i < c.tasklets && !AtBarrier(s.phases[i]) && !s.phases[i].Returned?
      && (s.phases[i].Locking? ==> s.holder.None?)
    case Release => forall i :: 0 <= i < c.tasklets ==> AtBarrier(s.phases[i])
  }

  function Released(p: Phase): Phase {
    if p.AtStart? then Scanning else if p.AtEnd? then Leaving else p
  }

  function Apply(c: Config, init: seq<int>, s: State, a: Action): (t: State)
    requires Sized(c, s) && Enabled(c, s, a) && IsInput(c, init)
    ensures Sized(c, t)
  {
    match a
    case Release =>
      s.(phases := seq(c.tasklets, i requires 0 <= i < c.tasklets => Released(s.phases[i])),
         releases := s.releases + 1)
    case Advance(i) =>
      match s.phases[i]
      case Entering => s.(accum := if i == 0 then 0 else s.accum, phases := s.phases[i := AtStart])
      case Scanning => s.(partials := s.partials[i := init[i]], phases := s.phases[i := Locking])
      case Locking => s.(holder := Some(i), phases := s.phases[i := Reading])
      case Reading => s.(phases := s.phases[i := Writing(Add(c, s.accum, s.partials[i]))])
      case Writing(v) => s.(accum := v, phases := s.phases[i := Unlocking])
      case Unlocking => s.(holder := None, phases := s.phases[i := AtEnd])
      case Leaving => s.(phases := s.phases[i := Returned(s.accum)])
  }

  /** The accumulator is static storage: a launch may find any value in it. */
  function Start(c: Config, stale: int): (s: State)
    requires Usable(c) && IsElement(c, stale)
    ensures Sized(c, s)
  {
    State(stale, seq(c.tasklets, _ => 0), seq(c.tasklets, _ => Entering), None, 0)
  }

  predicate Possible(c: Config, init: seq<int>, s: State, schedule: seq<Action>)
    requires Sized(c, s) && IsInput(c, init)
    decreases |schedule|
  {
    |schedule| == 0
    || (Enabled(c, s, schedule[0]) && Possible(c, init, Apply(c, init, s, schedule[0]), schedule[1..]))
  }

  function Run(c: Config, init: seq<int>, s: State, schedule: seq<Action>): (t: State)
    requires Sized(c, s) && IsInput(c, init) && Possible(c, init, s, schedule)
    ensures Sized(c, t)
    decreases |schedule|
  {
    if |schedule| == 0 then s else Run(c, init, Apply(c, init, s, schedule[0]), schedule[1..])
  }

  predicate AllReturned(s: State) {
    forall i :: 0 <= i < |s.phases| ==> s.phases[i].Returned?
  }

  // ---------- The invariant ----------

  predicate Merged(p: Phase) {
    p.Unlocking? || p.AtEnd? || p.Leaving? || p.Returned?
  }

  predicate Holds(p: Phase) {
    p.Reading? || p.Writing? || p.Unlocking?
  }

  /** What each tasklet has put into the accumulator so far. */
  function Given(c: Config, init: seq<int>, s: State): (g: seq<int>)
    requires Sized(c, s) && IsInput(c, init)
    ensures |g| == c.tasklets && AreElements(c, g)
  {
    seq(c.tasklets, i requires 0 <= i < c.tasklets => if Merged(s.phases[i]) then init[i] else 0)
  }

  predicate TaskletOk(c: Config, init: seq<int>, s: State, i: nat)
    requires Sized(c, s) && IsInput(c, init) && i < c.tasklets
  {
    && (Holds(s.phases[i]) <==> s.holder == Some(i))
    && match s.phases[i]
       case Entering => s.releases == 0
       case AtStart => s.releases == 0
       case Scanning => s.releases == 1
       case Writing(v) => s.releases == 1 && s.partials[i] == init[i] && v == Add(c, s.accum, init[i])
       case Leaving => s.releases == 2
       case Returned(v) => s.releases == 2 && v == s.accum
       case _ => s.releases == 1 && s.partials[i] == init[i]
  }

  ghost predicate Inv(c: Config, init: seq<int>, s: State) {
    && Sized(c, s) && IsInput(c, init)
    && (forall i :: 0 <= i < c.tasklets ==> TaskletOk(c, init, s, i))
    && (s.holder.Some? ==> s.holder.value < c.tasklets)
    && (s.releases == 0 && !s.phases[0].Entering? ==> s.accum == 0)
    && (s.releases > 0 ==> s.accum == Sum(c, Given(c, init, s), 0, c.tasklets))
  }

  lemma InvIsSized(c: Config, init: seq<int>, s: State)
    requires Inv(c, init, s)
    ensures Sized(c, s) && IsInput(c, init)
  {
  }

  lemma {:induction false} SumGains(c: Config, g: seq<int>, i: nat, x: int, n: nat)
    requires Usable(c) && AreElements(c, g) && IsElement(c, x) && i < n <= |g| && g[i] == 0
    requires AreElements(c, g[i := x])
    ensures Sum(c, g[i := x], 0, n) == Add(c, Sum(c, g, 0, n), x)
  {
    if i < n - 1 {
      SumGains(c, g, i, x, n - 1);
      AddAssociates(c, Sum(c, g, 0, n - 1), x, g[n - 1]);
      AddAssociates(c, x, g[n - 1], 0);
      AddAssociates(c, Sum(c, g, 0, n - 1), g[n - 1], x);
    } else {
      SumIsPointwise(c, g, g[i := x], 0, i, 0);
    }
  }

  // ---------- Every step keeps the invariant ----------

  lemma AdvanceKeepsTasklet(c: Config, init: seq<int>, s: State, i: nat, k: nat)
    requires Inv(c, init, s) && Enabled(c, s, Advance(i)) && k < c.tasklets
    ensures TaskletOk(c, init, Apply(c, init, s, Advance(i)), k)
  {
    hide Sum, Given, Add;
    assert TaskletOk(c, init, s, i);
    assert TaskletOk(c, init, s, k);
  }

  lemma AdvanceKeepsSum(c: Config, init: seq<int>, s: State, i: nat)
    requires Inv(c, init, s) && Enabled(c, s, Advance(i))
    ensures var t := Apply(c, init, s, Advance(i));
      t.releases > 0 ==> t.accum == Sum(c, Given(c, init, t), 0, c.tasklets)
  {
    hide Sum, Add;
    var t := Apply(c, init, s, Advance(i));
    assert TaskletOk(c, init, s, i);
    var g, h := Given(c, init, s), Given(c, init, t);
    if s.phases[i].Writing? {
      assert h == g[i := init[i]];
      SumGains(c, g, i, init[i], c.tasklets);
    } else {
      assert h == g;
    }
  }

  lemma AdvanceKeeps(c: Config, init: seq<int>, s: State, i: nat)
    requires Inv(c, init, s) && Enabled(c, s, Advance(i))
    ensures Inv(c, init, Apply(c, init, s, Advance(i)))
  {
    hide Sum, Given, Add;
    assert TaskletOk(c, init, s, i);
    AdvanceKeepsSum(c, init, s, i);
    forall k | 0 <= k < c.tasklets ensures TaskletOk(c, init, Apply(c, init, s, Advance(i)), k) {
      AdvanceKeepsTasklet(c, init, s, i, k);
    }
  }

  lemma ReleaseKeeps(c: Config, init: seq<int>, s: State)
    requires Inv(c, init, s) && Enabled(c, s, Release)
    ensures Inv(c, init, Apply(c, init, s, Release))
  {
    hide Sum, Add;
    var t := Apply(c, init, s, Release);
    var g, h := Given(c, init, s), Given(c, init, t);
    assert TaskletOk(c, init, s, 0);
    forall k | 0 <= k < c.tasklets ensures TaskletOk(c, init, t, k) && h[k] == if s.releases == 0 then 0 else g[k] {
      assert TaskletOk(c, init, s, k);
    }
    if s.releases == 0 {
      ZeroSum(c, h, c.tasklets);
    } else {
      assert h == g;
    }
  }

  lemma StepKeeps(c: Config, init: seq<int>, s: State, a: Action)
    requires Inv(c, init, s) && Enabled(c, s, a)
    ensures Inv(c, init, Apply(c, init, s, a))
  {
    hide Inv, Apply;
    match a
    case Advance(i) => AdvanceKeeps(c, init, s, i);
    case Release => ReleaseKeeps(c, init, s);
  }

  lemma {:induction false} RunKeeps(c: Config, init: seq<int>, s: State, schedule: seq<Action>)
    requires Inv(c, init, s) && Possible(c, init, s, schedule)
    ensures Inv(c, init, Run(c, init, s, schedule))
    decreases |schedule|
  {
    hide Inv, Apply, Enabled;
    InvIsSized(c, init, s);
    if |schedule| > 0 {
      StepKeeps(c, init, s, schedule[0]);
      RunKeeps(c, init, Apply(c, init, s, schedule[0]), schedule[1..]);
    }
  }

  // ---------- No deadlock, no endless run ----------

  lemma HolderHolds(c: Config, init: seq<int>, s: State)
    requires Inv(c, init, s)
    ensures s.holder.Some? ==> s.holder.value < c.tasklets && Holds(s.phases[s.holder.value])
  {
    hide Sum, Given, Add;
    if s.holder.Some? {
      assert TaskletOk(c, init, s, s.holder.value);
    }
  }

  lemma SomeStepEnabled(c: Config, init: seq<int>, s: State) returns (a: Action)
    requires Inv(c, init, s) && !AllReturned(s)
    ensures Enabled(c, s, a)
  {
    hide Sum, Given, Add;
    if i: nat :| i < c.tasklets && Holds(s.phases[i]) {
      a := Advance(i);
    } else if i: nat :| i < c.tasklets && !AtBarrier(s.phases[i]) && !s.phases[i].Returned? {
      HolderHolds(c, init, s);
      a := Advance(i);
    } else {
      var i :| 0 <= i < |s.phases| && !s.phases[i].Returned?;
      assert TaskletOk(c, init, s, i);
      forall k | 0 <= k < c.tasklets ensures AtBarrier(s.phases[k]) {
        assert TaskletOk(c, init, s, k);
      }
      a := Release;
    }
  }

  function Rank(p: Phase): int {
    match p
    case Entering => 9
    case AtStart => 8
    case Scanning => 7
    case Locking => 6
    case Reading => 5
    case Writing(_) => 4
    case Unlocking => 3
    case AtEnd => 2
    case Leaving => 1
    case Returned(_) => 0
  }

  function Ranks(phases: seq<Phase>): (r: seq<int>)
    ensures |r| == |phases|
  {
    seq(|phases|, i requires 0 <= i < |phases| => Rank(phases[i]))
  }

  lemma StepDescends(c: Config, init: seq<int>, s: State, a: Action)
    requires Sized(c, s) && Enabled(c, s, a) && IsInput(c, init)
    ensures Total(Ranks(Apply(c, init, s, a).phases)) < Total(Ranks(s.phases))
  {
    hide Total, Add;
    var t := Apply(c, init, s, a);
    match a
    case Advance(i) =>
      assert Ranks(t.phases) == Ranks(s.phases)[i := Rank(t.phases[i])];
      TotalUpdate(Ranks(s.phases), i, Rank(t.phases[i]));
    case Release => TotalDescends(Ranks(s.phases), Ranks(t.phases));
  }

  lemma {:induction false} RunDescends(c: Config, init: seq<int>, s: State, schedule: seq<Action>)
    requires Sized(c, s) && IsInput(c, init) && Possible(c, init, s, schedule)
    ensures |schedule| <= Total(Ranks(s.phases))
    decreases |schedule|
  {
    hide Apply, Enabled, Total;
    if |schedule| > 0 {
      StepDescends(c, init, s, schedule[0]);
      RunDescends(c, init, Apply(c, init, s, schedule[0]), schedule[1..]);
    } else {
      TotalBounds(Ranks(s.phases), 9);
    }
  }

  // ---------- Main results ----------

  lemma StartOk(c: Config, init: seq<int>, stale: int)
    requires IsInput(c, init) && IsElement(c, stale)
    ensures Inv(c, init, Start(c, stale))
  {
  }

  /** Every interleaving is finite, and whenever some tasklet has not returned some step is possible. */
  lemma MutexTerminates(c: Config, init: seq<int>, stale: int, schedule: seq<Action>)
    requires IsInput(c, init) && IsElement(c, stale) && Possible(c, init, Start(c, stale), schedule)
    ensures |schedule| <= 9 * c.tasklets
    ensures !AllReturned(Run(c, init, Start(c, stale), schedule)) ==>
              exists a :: Enabled(c, Run(c, init, Start(c, stale), schedule), a)
  {
    hide Inv, Total, Apply, Enabled;
    StartOk(c, init, stale);
    TotalBounds(Ranks(Start(c, stale).phases), 9);
    RunDescends(c, init, Start(c, stale), schedule);
    RunKeeps(c, init, Start(c, stale), schedule);
    if !AllReturned(Run(c, init, Start(c, stale), schedule)) {
      var a := SomeStepEnabled(c, init, Run(c, init, Start(c, stale), schedule));
    }
  }

  /** In every run, from any stale accumulator, every tasklet returns the sum of the whole input. */
  lemma MutexReduces(c: Config, input: seq<int>, perBlock: nat, stale: int, schedule: seq<Action>, i: nat)
    requires Usable(c) && AreElements(c, input) && perBlock >= 1 && IsElement(c, stale) && i < c.tasklets
    requires Possible(c, InitialPartials(c, input, perBlock), Start(c, stale), schedule)
    ensures var t := Run(c, InitialPartials(c, input, perBlock), Start(c, stale), schedule);
      t.phases[i].Returned? ==> t.phases[i].value == Sum(c, input, 0, |input|)
  {
    hide Sum, Partials, Possible, Run, Add;
    var init := InitialPartials(c, input, perBlock);
    StartOk(c, init, stale);
    RunKeeps(c, init, Start(c, stale), schedule);
    PartialsCoverInput(c, input, perBlock);
    var t := Run(c, init, Start(c, stale), schedule);
    assert TaskletOk(c, init, t, i);
    if t.phases[i].Returned? {
      forall k | 0 <= k < c.tasklets ensures Given(c, init, t)[k] == init[k] {
        assert TaskletOk(c, init, t, k);
      }
      assert Given(c, init, t) == init;
    }
  }

  /** At most one tasklet is between lock and unlock. */
  lemma MutualExclusion(c: Config, init: seq<int>, stale: int, schedule: seq<Action>, i: nat, k: nat)
    requires IsInput(c, init) && IsElement(c, stale) && Possible(c, init, Start(c, stale), schedule)
    requires i < c.tasklets && k < c.tasklets && i != k
    ensures var t := Run(c, init, Start(c, stale), schedule);
      !(Holds(t.phases[i]) && Holds(t.phases[k]))
  {
    hide Sum, Possible, Run, Add, Given;
    StartOk(c, init, stale);
    RunKeeps(c, init, Start(c, stale), schedule);
    var t := Run(c, init, Start(c, stale), schedule);
    assert TaskletOk(c, init, t, i) && TaskletOk(c, init, t, k);
  }
}

/** The reduction by tasklet 0 alone, after two barriers. */
module SingleReduction {
  import opened Collections
  import opened ReductionArithmetic

  /** `AtBarrier(k)`: k barriers passed; `Adding(i, acc)`: about to add partial i. */
  datatype Phase =
    | Scanning
    | AtBarrier(passed: nat)
    | Adding(next: nat, acc: int)
    | Returned(value: int)

  datatype State = State(partials: seq<int>, phases: seq<Phase>)

  datatype Action = Advance(who: nat) | Release

  predicate Sized(c: Config, s: State) {
    && Usable(c)
    && |s.partials| == |s.phases| == c.tasklets
    && AreElements(c, s.partials)
    && forall i :: 0 <= i < c.tasklets && s.phases[i].Adding? ==> IsElement(c, s.phases[i].acc)
  }

  predicate Enabled(c: Config, s: State, a: Action)
    requires Sized(c, s)
  {
    match a
    case Advance(i) => i < c.tasklets && (s.phases[i].Scanning? || s.phases[i].Adding?)
    case Release => forall i :: 0 <= i < c.tasklets ==> s.phases[i].AtBarrier?
  }

  function Released(i: nat, p: Phase): Phase {
    if !p.AtBarrier? then p
    else if p.passed == 0 then AtBarrier(1)
    else if i == 0 then Adding(0, 0)
    else Returned(0)
  }

  function Apply(c: Config, init: seq<int>, s: State, a: Action): (t: State)
    requires Sized(c, s) && Enabled(c, s, a) && IsInput(c, init)
    ensures Sized(c, t)
  {
    match a
    case Release => s.(phases := seq(c.tasklets, i requires 0 <= i < c.tasklets => Released(i, s.phases[i])))
    case Advance(i) =>
      if s.phases[i].Scanning? then
        s.(partials := s.partials[i := init[i]], phases := s.phases[i := AtBarrier(0)])
      else
        var p := s.phases[i];
        s.(phases := s.phases[i := if p.next < c.tasklets then Adding(p.next + 1, Add(c, p.acc, s.partials[p.next]))
                                   else Returned(p.acc)])
  }

  function Start(c: Config): (s: State)
    requires Usable(c)
    ensures Sized(c, s)
  {
    State(seq(c.tasklets, _ => 0), seq(c.tasklets, _ => Scanning))
  }

  predicate Possible(c: Config, init: seq<int>, s: State, schedule: seq<Action>)
    requires Sized(c, s) && IsInput(c, init)
    decreases |schedule|
  {
    |schedule| == 0
    || (Enabled(c, s, schedule[0]) && Possible(c, init, Apply(c, init, s, schedule[0]), schedule[1..]))
  }

  function Run(c: Config, init: seq<int>, s: State, schedule: seq<Action>): (t: State)
    requires Sized(c, s) && IsInput(c, init) && Possible(c, init, s, schedule)
    ensures Sized(c, t)
    decreases |schedule|
  {
    if |schedule| == 0 then s else Run(c, init, Apply(c, init, s, schedule[0]), schedule[1..])
  }

  /** Tasklets are in the same round, and partials are final once a barrier has been passed. */
  ghost predicate Inv(c: Config, init: seq<int>, s: State) {
    && Sized(c, s) && IsInput(c, init)
    && (forall i :: 0 <= i < c.tasklets && !s.phases[i].Scanning? ==> s.partials[i] == init[i])
    && (forall i, k :: 0 <= i < c.tasklets && 0 <= k < c.tasklets && Round(s.phases[i]) > 0 ==>
          Round(s.phases[k]) == Round(s.phases[i]))
    && (s.phases[0].Adding? ==>
          s.phases[0].next <= c.tasklets && s.phases[0].acc == Sum(c, init, 0, s.phases[0].next))
    && (s.phases[0].Returned? ==> s.phases[0].value == Sum(c, init, 0, c.tasklets))
    && (forall i :: 0 < i < c.tasklets ==> !s.phases[i].Adding?)
  }

  function Round(p: Phase): nat {
    match p
    case Scanning => 0
    case AtBarrier(k) => if k == 0 then 0 else 1
    case _ => 2
  }

  lemma StepKeeps(c: Config, init: seq<int>, s: State, a: Action)
    requires Inv(c, init, s) && Enabled(c, s, a)
    ensures Inv(c, init, Apply(c, init, s, a))
  {
    var t := Apply(c, init, s, a);
    if a.Release? {
      forall i, k | 0 <= i < c.tasklets && 0 <= k < c.tasklets ensures Round(t.phases[i]) == Round(t.phases[k]) {
      }
    } else if s.phases[a.who].Adding? {
      assert forall k :: 0 <= k < c.tasklets ==> Round(s.phases[k]) == 2;
      assert s.partials == init;
    }
  }

  lemma {:induction false} RunKeeps(c: Config, init: seq<int>, s: State, schedule: seq<Action>)
    requires Inv(c, init, s) && Possible(c, init, s, schedule)
    ensures Inv(c, init, Run(c, init, s, schedule))
    decreases |schedule|
  {
    hide Apply, Sum;
    if |schedule| > 0 {
      StepKeeps(c, init, s, schedule[0]);
      RunKeeps(c, init, Apply(c, init, s, schedule[0]), schedule[1..]);
    }
  }

  // ---------- Termination ----------

  /** Ones for the tasklets that still scan. */
  function Scanners(phases: seq<Phase>): (s: seq<int>)
    ensures |s| == |phases| && forall i :: 0 <= i < |s| ==> s[i] == if phases[i].Scanning? then 1 else 0
  {
    seq(|phases|, i requires 0 <= i < |phases| => if phases[i].Scanning? then 1 else 0)
  }

  /** The barriers tasklet 0 still has to pass and the steps of its own loop. */
  function Ahead(n: nat, p: Phase): int {
    match p
    case Scanning => n + 3
    case AtBarrier(passed) => if passed == 0 then n + 3 else n + 2
    case Adding(next, _) => n - next + 1
    case Returned(_) => 0
  }

  /** The number of steps until tasklet 0 returns. */
  function StepsLeft(c: Config, s: State): int
    requires Sized(c, s)
  {
    Total(Scanners(s.phases)) + Ahead(c.tasklets, s.phases[0])
  }

  lemma ScannersUpdate(phases: seq<Phase>, i: nat, p: Phase)
    requires i < |phases| && !p.Scanning?
    ensures Total(Scanners(phases[i := p])) == Total(Scanners(phases)) - if phases[i].Scanning? then 1 else 0
  {
    assert Scanners(phases[i := p]) == Scanners(phases)[i := 0];
    TotalUpdate(Scanners(phases), i, 0);
  }

  /** Every step is one of those that were left, whatever the interleaving. */
  lemma StepDescends(c: Config, init: seq<int>, s: State, a: Action)
    requires Inv(c, init, s) && Enabled(c, s, a)
    ensures StepsLeft(c, Apply(c, init, s, a)) == StepsLeft(c, s) - 1
  {
    hide Total, Sum, Add;
    var t := Apply(c, init, s, a);
    match a {
      case Release => assert Scanners(t.phases) == Scanners(s.phases);
      case Advance(i) => ScannersUpdate(s.phases, i, t.phases[i]);
    }
  }

  lemma {:induction false} RunDescends(c: Config, init: seq<int>, s: State, schedule: seq<Action>)
    requires Inv(c, init, s) && Possible(c, init, s, schedule)
    ensures StepsLeft(c, Run(c, init, s, schedule)) == StepsLeft(c, s) - |schedule|
    decreases |schedule|
  {
    hide Apply, StepsLeft, Sum;
    if |schedule| > 0 {
      StepDescends(c, init, s, schedule[0]);
      StepKeeps(c, init, s, schedule[0]);
      RunDescends(c, init, Apply(c, init, s, schedule[0]), schedule[1..]);
    }
  }

  lemma {:induction false} TotalOfSame(s: seq<int>, x: int)
    requires forall i :: 0 <= i < |s| ==> s[i] == x
    ensures Total(s) == |s| * x
  {
    if |s| > 0 {
      TotalOfSame(s[1..], x);
    }
  }

  /** Nothing is left exactly when tasklet 0 has returned. */
  lemma DoneIffReturned(c: Config, init: seq<int>, s: State)
    requires Inv(c, init, s)
    ensures StepsLeft(c, s) >= 0 && (StepsLeft(c, s) == 0 <==> s.phases[0].Returned?)
  {
    hide Sum;
    TotalBounds(Scanners(s.phases), 1);
    if s.phases[0].Returned? {
      forall i | 0 <= i < c.tasklets ensures Scanners(s.phases)[i] == 0 {
        assert Round(s.phases[i]) == Round(s.phases[0]);
      }
      TotalOfSame(Scanners(s.phases), 0);
    }
  }

  lemma StartOk(c: Config, init: seq<int>)
    requires IsInput(c, init)
    ensures Inv(c, init, Start(c)) && StepsLeft(c, Start(c)) == 2 * c.tasklets + 3
  {
    TotalOfSame(Scanners(Start(c).phases), 1);
  }

  /** Every interleaving has at most 2n + 3 steps for n tasklets, and has them all exactly when tasklet 0 has returned. */
  lemma SingleTerminates(c: Config, init: seq<int>, schedule: seq<Action>)
    requires IsInput(c, init) && Possible(c, init, Start(c), schedule)
    ensures |schedule| <= 2 * c.tasklets + 3
    ensures |schedule| == 2 * c.tasklets + 3 <==> Run(c, init, Start(c), schedule).phases[0].Returned?
  {
    hide Inv, Possible, Run, StepsLeft, Start;
    StartOk(c, init);
    RunKeeps(c, init, Start(c), schedule);
    RunDescends(c, init, Start(c), schedule);
    DoneIffReturned(c, init, Run(c, init, Start(c), schedule));
  }

  /** In every run tasklet 0 returns the sum of the whole input, and until then some step is possible. */
  lemma SingleReduces(c: Config, input: seq<int>, perBlock: nat, schedule: seq<Action>)
    requires Usable(c) && AreElements(c, input) && perBlock >= 1
    requires Possible(c, InitialPartials(c, input, perBlock), Start(c), schedule)
    ensures var t := Run(c, InitialPartials(c, input, perBlock), Start(c), schedule);
      && (t.phases[0].Returned? ==> t.phases[0].value == Sum(c, input, 0, |input|))
      && (!t.phases[0].Returned? ==> exists a :: Enabled(c, t, a))
  {
    hide Sum, Partials, Possible, Run, Add;
    var init := InitialPartials(c, input, perBlock);
    RunKeeps(c, init, Start(c), schedule);
    PartialsCoverInput(c, input, perBlock);
    var t := Run(c, init, Start(c), schedule);
    if !t.phases[0].Returned? {
      if i: nat :| i < c.tasklets && t.phases[i].Scanning? {
        assert Enabled(c, t, Advance(i));
      } else if t.phases[0].Adding? {
        assert Enabled(c, t, Advance(0));
      } else {
        assert Round(t.phases[0]) < 2;
        forall k | 0 <= k < c.tasklets ensures t.phases[k].AtBarrier? {
          assert Round(t.phases[k]) > 0 ==> Round(t.phases[k]) == Round(t.phases[0]);
        }
        assert Enabled(c, t, Release);
      }
    }
  }
}
