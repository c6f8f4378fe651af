/** Threads calling the random source without a lock. Each call tests the index,
    refills the table when it is used up, reads the word at the index and stores
    the index plus one; the first call seeds. The index is read and written by
    separate steps, so other callers may act in between. */
module RandomCallers {
  import MersenneTwister

  const N: nat := MersenneTwister.N

  /** Passed: past the test, about to read the word. Loaded: has read the word at
      this index, about to store the index plus one. */
  datatype Caller = Out | Seeding | Testing | Refilling | Passed | Loaded(at: nat)

  datatype State = State(index: nat, seeded: bool, callers: seq<Caller>)

  datatype Act = Call | Seed | Test | Refill | Load | Store
  datatype Step = Step(who: nat, act: Act)

  predicate Enabled(st: State, step: Step) {
    step.who < |st.callers| &&
    match step.act
    case Call => st.callers[step.who].Out?
    case Seed => st.callers[step.who].Seeding?
    case Test => st.callers[step.who].Testing?
    case Refill => st.callers[step.who].Refilling?
    case Load => st.callers[step.who].Passed?
    case Store => st.callers[step.who].Loaded?
  }

  function Move(st: State, who: nat, to: Caller): State
    requires who < |st.callers|
  {
    st.(callers := st.callers[who := to])
  }

  function Next(st: State, step: Step): State
    requires Enabled(st, step)
  {
    var c := step.who;
    match step.act
    case Call => Move(st, c, if st.seeded then Testing else Seeding)
    case Seed => Move(st.(index := N, seeded := true), c, Testing)
    case Test => Move(st, c, if st.index >= N then Refilling else Passed)
    case Refill => Move(st.(index := 0), c, Passed)
    case Load => Move(st, c, Loaded(st.index))
    case Store => Move(st.(index := st.callers[c].at + 1), c, Out)
  }

  predicate Legal(st: State, steps: seq<Step>)
    decreases |steps|
  {
    steps == [] || (Enabled(st, steps[0]) && Legal(Next(st, steps[0]), steps[1..]))
  }

  function Run(st: State, steps: seq<Step>): State
    requires Legal(st, steps)
    decreases |steps|
  {
    if steps == [] then st else Run(Next(st, steps[0]), steps[1..])
  }

  /** The initial index is one past the value that forces a refill. */
  function Start(callers: nat): State {
    State(N + 1, false, seq(callers, _ => Out))
  }

  /** Every word that was read lies in the table. */
  predicate InRange(st: State) {
    forall c :: 0 <= c < |st.callers| && st.callers[c].Loaded? ==> st.callers[c].at < N
  }

  /** At most one caller is inside. */
  predicate Alone(st: State) {
    forall c, d :: 0 <= c < d < |st.callers| ==> st.callers[c].Out? || st.callers[d].Out?
  }

  predicate AloneThroughout(st: State, steps: seq<Step>)
    requires Legal(st, steps)
    decreases |steps|
  {
    Alone(st) && (steps == [] || AloneThroughout(Next(st, steps[0]), steps[1..]))
  }

  /** What the caller inside, if any, knows about the index. */
  predicate Inv(st: State) {
    forall c :: 0 <= c < |st.callers| ==>
      match st.callers[c]
      case Passed => st.index < N
      case Loaded(at) => at == st.index < N
      case _ => true
  }

  lemma NextInv(st: State, step: Step)
    requires Inv(st) && Alone(st) && Enabled(st, step)
    ensures Inv(Next(st, step))
  {
  }

  lemma {:induction false} RunInv(st: State, steps: seq<Step>)
    requires Inv(st) && Legal(st, steps) && AloneThroughout(st, steps)
    ensures Inv(Run(st, steps))
    decreases |steps|
  {
    if steps != [] {
      NextInv(st, steps[0]);
      RunInv(Next(st, steps[0]), steps[1..]);
    }
  }

  /** As long as callers come one at a time, however many there are, every read is
      inside the table. */
  lemma OneAtATime(callers: nat, steps: seq<Step>)
    requires Legal(Start(callers), steps) && AloneThroughout(Start(callers), steps)
    ensures InRange(Run(Start(callers), steps))
  {
    RunInv(Start(callers), steps);
  }

  lemma {:induction false} FewAreAlone(st: State, steps: seq<Step>)
    requires |st.callers| <= 1 && Legal(st, steps)
    ensures AloneThroughout(st, steps)
    decreases |steps|
  {
    if steps != [] {
      FewAreAlone(Next(st, steps[0]), steps[1..]);
    }
  }

  lemma OneMore(st: State, step: Step, rest: seq<Step>)
    requires Enabled(st, step) && Legal(Next(st, step), rest)
    ensures Legal(st, [step] + rest) && Run(st, [step] + rest) == Run(Next(st, step), rest)
  {
    assert ([step] + rest)[1..] == rest;
  }

  /** The steps of one call that nobody disturbs. */
  function WholeCall(st: State, c: nat): seq<Step> {
    [Step(c, Call)] + ((if st.seeded then [] else [Step(c, Seed)]) + ([Step(c, Test)] +
    ((if st.seeded && st.index < N then [] else [Step(c, Refill)]) + ([Step(c, Load)] + ([Step(c, Store)] + [])))))
  }

  /** The word a call reads: the one at the index, or the first of a new block. */
  function ReadsAt(st: State): nat {
    if st.seeded && st.index < N then st.index else 0
  }

  /** Undisturbed calls read the words of a block in order: each reads the word
      after the one before it, starts again after 624, and leaves the index one
      further. */
  lemma CallsReadInOrder(st: State, c: nat)
    requires c < |st.callers| && st.callers[c].Out?
    ensures var steps := WholeCall(st, c);
            && Legal(st, steps)
            && Run(st, steps) == State(ReadsAt(st) + 1, true, st.callers)
  {
    var called := Next(st, Step(c, Call));
    var seeded := if st.seeded then called else Next(called, Step(c, Seed));
    ReadsInOrder(seeded, c);
    var tail := [Step(c, Test)] +
                ((if seeded.index < N then [] else [Step(c, Refill)]) + ([Step(c, Load)] + ([Step(c, Store)] + [])));
    if st.seeded {
      assert [] + tail == tail;
    } else {
      OneMore(called, Step(c, Seed), tail);
      tail := [Step(c, Seed)] + tail;
    }
    OneMore(st, Step(c, Call), tail);
    assert seeded.callers[c := Out] == st.callers;
  }

  lemma LoadsAndStores(st: State, c: nat)
    requires c < |st.callers| && st.callers[c].Passed?
    ensures var steps := [Step(c, Load)] + ([Step(c, Store)] + []);
            Legal(st, steps) && Run(st, steps) == State(st.index + 1, st.seeded, st.callers[c := Out])
  {
    var loaded := Next(st, Step(c, Load));
    OneMore(loaded, Step(c, Store), []);
    OneMore(st, Step(c, Load), [Step(c, Store)] + []);
    assert Next(loaded, Step(c, Store)).callers == st.callers[c := Out];
  }

  lemma ReadsInOrder(st: State, c: nat)
    requires c < |st.callers| && st.callers[c].Testing?
    ensures var steps := [Step(c, Test)] +
                         ((if st.index < N then [] else [Step(c, Refill)]) + ([Step(c, Load)] + ([Step(c, Store)] + [])));
            && Legal(st, steps)
            && Run(st, steps) == State((if st.index < N then st.index else 0) + 1, st.seeded, st.callers[c := Out])
  {
    var tested := Next(st, Step(c, Test));
    var ready := if st.index < N then tested else Next(tested, Step(c, Refill));
    LoadsAndStores(ready, c);
    var tail := [Step(c, Load)] + ([Step(c, Store)] + []);
    if st.index < N {
      assert [] + tail == tail;
    } else {
      OneMore(tested, Step(c, Refill), tail);
      tail := [Step(c, Refill)] + tail;
    }
    OneMore(st, Step(c, Test), tail);
    assert ready.callers[c := Out] == st.callers[c := Out];
  }

  /** Two first callers: the second seeds after the first has refilled. */
  lemma FirstCallersRace(callers: nat) returns (steps: seq<Step>)
    requires callers >= 2
    ensures Legal(Start(callers), steps) && !InRange(Run(Start(callers), steps))
  {
    var s0 := Start(callers);
    var s1 := Next(s0, Step(0, Call));
    var s2 := Next(s1, Step(1, Call));
    var s3 := Next(s2, Step(0, Seed));
    var s4 := Next(s3, Step(0, Test));
    var s5 := Next(s4, Step(0, Refill));
    var s6 := Next(s5, Step(1, Seed));
    var s7 := Next(s6, Step(0, Load));
    assert s7.callers[0] == Loaded(N);
    steps := [];
    OneMore(s6, Step(0, Load), steps); steps := [Step(0, Load)] + steps;
    OneMore(s5, Step(1, Seed), steps); steps := [Step(1, Seed)] + steps;
    OneMore(s4, Step(0, Refill), steps); steps := [Step(0, Refill)] + steps;
    OneMore(s3, Step(0, Test), steps); steps := [Step(0, Test)] + steps;
    OneMore(s2, Step(0, Seed), steps); steps := [Step(0, Seed)] + steps;
    OneMore(s1, Step(1, Call), steps); steps := [Step(1, Call)] + steps;
    OneMore(s0, Step(0, Call), steps); steps := [Step(0, Call)] + steps;
  }

  /** Two later callers at the last word: both pass the test, and the second reads
      behind the table. */
  lemma LaterCallersRace(st: State, a: nat, b: nat) returns (steps: seq<Step>)
    requires st.seeded && st.index == N - 1 && a < |st.callers| && b < |st.callers| && a != b
    requires st.callers[a].Out? && st.callers[b].Out?
    ensures Legal(st, steps)
    ensures b < |Run(st, steps).callers| && Run(st, steps).callers[b] == Loaded(N)
  {
    var s1 := Next(st, Step(a, Call));
    var s2 := Next(s1, Step(a, Test));
    var s3 := Next(s2, Step(b, Call));
    var s4 := Next(s3, Step(b, Test));
    var s5 := Next(s4, Step(a, Load));
    var s6 := Next(s5, Step(a, Store));
    steps := [];
    OneMore(s6, Step(b, Load), steps); steps := [Step(b, Load)] + steps;
    OneMore(s5, Step(a, Store), steps); steps := [Step(a, Store)] + steps;
    OneMore(s4, Step(a, Load), steps); steps := [Step(a, Load)] + steps;
    OneMore(s3, Step(b, Test), steps); steps := [Step(b, Test)] + steps;
    OneMore(s2, Step(b, Call), steps); steps := [Step(b, Call)] + steps;
    OneMore(s1, Step(a, Test), steps); steps := [Step(a, Test)] + steps;
    OneMore(st, Step(a, Call), steps); steps := [Step(a, Call)] + steps;
  }

  /** The exact condition on the number of threads: every read of every run is
      inside the table if and only if there is at most one. */
  lemma InRangeIff(callers: nat)
    ensures (forall steps :: Legal(Start(callers), steps) ==> InRange(Run(Start(callers), steps)))
            <==> callers <= 1
  {
    if callers <= 1 {
      forall steps | Legal(Start(callers), steps) ensures InRange(Run(Start(callers), steps)) {
        FewAreAlone(Start(callers), steps);
        OneAtATime(callers, steps);
      }
    } else {
      var steps := FirstCallersRace(callers);
    }
  }
}
