/** How a shutdown goes, told from the steps of the run: which phase the server is
    in, when the drain ends, and whether it can end without being forced. */
module ServerShutdown {
  import opened Options
  import opened IpLimiter
  import opened IpRefinement
  import opened JobQueue
  import opened Server
  import opened ServerRuns
  import IpRuns
  import TQ = TaskQueue

  // ----- the phase from the run ----------------------------------------------

  /** The first signal of a run: whether it is an interrupt. */
  function FirstSignal(steps: seq<Step>): Option<bool> {
    if steps == [] then None
    else
      match steps[0]
      case Shut(Signal(interrupt)) => Some(interrupt)
      case _ => FirstSignal(steps[1..])
  }

  /** The drain read a clock past the deadline, having seen requests in flight. */
  ghost predicate TimedOut(steps: seq<Step>) {
    Shut(DrainClock(true)) in steps
  }

  ghost function PhaseAfter(phase: Phase, steps: seq<Step>): Phase {
    match phase
    case Running =>
      (match FirstSignal(steps)
       case None => Running
       case Some(interrupt) => if interrupt || TimedOut(steps) then Forced else Draining)
    case Draining => if TimedOut(steps) then Forced else Draining
    case Forced => Forced
  }

  lemma PhaseStep(st: State, h: nat -> nat, steps: seq<Step>)
    requires steps != [] && Wired(st, h) && Enabled(st, steps[0]) && Lateness(st)
    ensures PhaseAfter(Next(st, h, steps[0]).ctx.phase, steps[1..]) == PhaseAfter(st.ctx.phase, steps)
  {
    assert steps == [steps[0]] + steps[1..];
    assert TimedOut(steps) <==> steps[0] == Shut(DrainClock(true)) || TimedOut(steps[1..]);
    PhaseMoves(st, h, steps[0]);
  }

  /** What one step does to the phase. */
  lemma PhaseMoves(st: State, h: nat -> nat, step: Step)
    requires Wired(st, h) && Enabled(st, step) && Lateness(st)
    ensures var p, q := st.ctx.phase, Next(st, h, step).ctx.phase;
            && (step == Shut(Signal(true)) && p == Running ==> q == Forced)
            && (step == Shut(Signal(false)) && p == Running ==> q == Draining)
            && (step == Shut(DrainClock(true)) ==> p == Draining && q == Forced)
            && (step != Shut(DrainClock(true)) && !(p == Running && step.Shut? && step.s.Signal?) ==> q == p)
  {
    match step
    case Accept(a) => if a.Ask? { AskedFrame(st, h, a.now); }
    case _ =>
  }

  lemma {:induction false} RunPhase(st: State, h: nat -> nat, steps: seq<Step>)
    requires Inv(st, h) && Wired(st, h) && Legal(st, h, steps)
    ensures Run(st, h, steps).ctx.phase == PhaseAfter(st.ctx.phase, steps)
    decreases |steps|
  {
    if steps != [] {
      NextInv(st, h, steps[0]);
      NextWired(st, h, steps[0]);
      PhaseStep(st, h, steps);
      RunPhase(Next(st, h, steps[0]), h, steps[1..]);
    }
  }

  /** The phase in every run: RUNNING until the first signal; FORCED from then on if
      it is an interrupt; otherwise DRAINING, until the drain reads a clock past the
      deadline, and FORCED from then on. Later signals change nothing. */
  lemma PhaseFromRun(h: nat -> nat, limit: nat, now: nat, slots: seq<TQ.Task>, steps: seq<Step>)
    requires limit >= 1 && (forall ip :: h(ip) < SHARDS) && |slots| == TQ.INITIAL_CAPACITY
    requires Legal(Start(limit, now, slots), h, steps)
    ensures Run(Start(limit, now, slots), h, steps).ctx.phase
         == match FirstSignal(steps)
            case None => Running
            case Some(interrupt) => if interrupt || TimedOut(steps) then Forced else Draining
  {
    StartInv(limit, now, slots, h);
    RunPhase(Start(limit, now, slots), h, steps);
  }

  // ----- the end of the drain ------------------------------------------------

  predicate AcceptorsStep(step: Step) {
    step.Accept? || (step.Shut? && !step.s.Signal?)
  }

  lemma DrainMoves(st: State, h: nat -> nat, step: Step)
    requires Inv(st, h) && st.acceptor == DrainLoop && Enabled(st, step) && AcceptorsStep(step)
    ensures var st' := Next(st, h, step);
            && st'.ctx.phase == Draining
            && st'.acceptor == if st.ctx.inFlight == 0 then Measuring else DrainBusy
  {
  }

  /** The drain looks before it waits: in every reachable state in which it is at the
      top of its loop, the accepting thread's next step ends the drain, still in
      DRAINING, if nothing is in flight, and goes on to the clock otherwise. In the
      first case the report has all requests of the peak completed and none forced. */
  lemma DrainEndsIff(h: nat -> nat, limit: nat, now: nat, slots: seq<TQ.Task>, steps: seq<Step>, step: Step)
    requires limit >= 1 && (forall ip :: h(ip) < SHARDS) && |slots| == TQ.INITIAL_CAPACITY
    requires Legal(Start(limit, now, slots), h, steps)
    requires var st := Run(Start(limit, now, slots), h, steps);
             st.acceptor == DrainLoop && Enabled(st, step) && AcceptorsStep(step)
    ensures var st := Run(Start(limit, now, slots), h, steps);
            var st' := Next(st, h, step);
            && st'.ctx.phase == Draining
            && st'.acceptor == (if st.ctx.inFlight == 0 then Measuring else DrainBusy)
            && (st.ctx.inFlight == 0 ==>
                  st'.tasks == st.tasks
                  && ShutNext(st', Measure).ctx == Context(Draining, 0, st.ctx.peak, st.ctx.peak, 0))
  {
    Reach(h, limit, now, slots, steps);
    DrainMoves(Run(Start(limit, now, slots), h, steps), h, step);
  }

  // ----- whether it can end by itself ----------------------------------------

  /** The work left: take, serve and finish. */
  function WorkLeft(tasks: Tasks): nat {
    3 * tasks.jobs.ring.count + 2 * |tasks.serving| + tasks.paid
  }

  /** The next step of some worker, while there is one to do. */
  ghost function WorkersStep(tasks: Tasks): Step
    requires WorkLeft(tasks) > 0
  {
    if tasks.paid > 0 then Work(Finish)
    else if tasks.serving != multiset{} then
      var ip :| ip in tasks.serving; Work(Pay(ip))
    else Work(Take)
  }

  /** The drain loop runs, and nothing was dropped. */
  ghost predicate DrainsClean(st: State, h: nat -> nat) {
    && Inv(st, h) && Wired(st, h) && st.tasks.jobs.lost == multiset{}
    && (st.acceptor == DrainLoop || st.acceptor == DrainBusy)
  }

  lemma WorkGoesOn(st: State, h: nat -> nat)
    requires DrainsClean(st, h) && WorkLeft(st.tasks) > 0
    ensures var step := WorkersStep(st.tasks);
            && Enabled(st, step) && DrainsClean(Next(st, h, step), h)
            && WorkLeft(Next(st, h, step).tasks) < WorkLeft(st.tasks)
  {
    var step := WorkersStep(st.tasks);
    if step == Work(Take) {
      IntactFront(st.tasks.jobs);
    }
    NextInv(st, h, step);
    NextWired(st, h, step);
    QueueNext(st, h, step);
  }

  lemma NoWorkNoFlight(st: State, h: nat -> nat)
    requires DrainsClean(st, h) && WorkLeft(st.tasks) == 0
    ensures st.ctx.inFlight == 0
  {
    NoAddresses(st.tasks.jobs.owner);
  }

  /** From the loop or from the clock, with nothing in flight. */
  lemma LoopEnds(st: State, h: nat -> nat) returns (steps: seq<Step>)
    requires DrainsClean(st, h) && st.ctx.inFlight == 0
    ensures Legal(st, h, steps)
    ensures Run(st, h, steps).acceptor == Stopped && Run(st, h, steps).ctx.phase == Draining
  {
    var top := if st.acceptor == DrainBusy then Next(st, h, Shut(DrainClock(false))) else st;
    var measuring := Next(top, h, Shut(DrainCheck));
    OneMore(measuring, h, Shut(Measure), []);
    OneMore(top, h, Shut(DrainCheck), [Shut(Measure)] + []);
    steps := [Shut(DrainCheck)] + ([Shut(Measure)] + []);
    if st.acceptor == DrainBusy {
      OneMore(st, h, Shut(DrainClock(false)), steps);
      steps := [Shut(DrainClock(false))] + steps;
    }
  }

  lemma {:induction false} DrainFinishes(st: State, h: nat -> nat) returns (steps: seq<Step>)
    requires DrainsClean(st, h)
    ensures Legal(st, h, steps)
    ensures Run(st, h, steps).acceptor == Stopped && Run(st, h, steps).ctx.phase == Draining
    decreases WorkLeft(st.tasks)
  {
    if WorkLeft(st.tasks) == 0 {
      NoWorkNoFlight(st, h);
      steps := LoopEnds(st, h);
    } else {
      WorkGoesOn(st, h);
      var step := WorkersStep(st.tasks);
      steps := DrainFinishes(Next(st, h, step), h);
      OneMore(st, h, step, steps);
      steps := [step] + steps;
    }
  }

  /** A dropped request is in flight for ever. */
  ghost predicate Stuck(st: State, h: nat -> nat) {
    && Wired(st, h) && Counts(st) && QueueOk(st.tasks.jobs) && st.tasks.jobs.lost != multiset{}
    && (st.acceptor == DrainLoop || st.acceptor == DrainBusy || st.ctx.phase == Forced)
  }

  lemma StuckNext(st: State, h: nat -> nat, step: Step)
    requires Stuck(st, h) && Enabled(st, step)
    ensures Stuck(Next(st, h, step), h)
  {
    NextWired(st, h, step);
    CountsNext(st, h, step);
    QueueNext(st, h, step);
    PhaseForward(st, h, step);
    if st.ctx.phase != Forced { StuckAcceptor(st, h, step); }
  }

  lemma StuckAcceptor(st: State, h: nat -> nat, step: Step)
    requires Wired(st, h) && Counts(st) && Enabled(st, step) && st.tasks.jobs.lost != multiset{}
    requires st.acceptor == DrainLoop || st.acceptor == DrainBusy
    ensures var st' := Next(st, h, step);
            st'.acceptor == DrainLoop || st'.acceptor == DrainBusy || st'.ctx.phase == Forced
  {
    assert |st.tasks.jobs.lost| > 0;
  }

  lemma {:induction false} StuckRun(st: State, h: nat -> nat, steps: seq<Step>)
    requires Stuck(st, h) && Legal(st, h, steps)
    ensures Stuck(Run(st, h, steps), h)
    decreases |steps|
  {
    if steps != [] {
      StuckNext(st, h, steps[0]);
      StuckRun(Next(st, h, steps[0]), h, steps[1..]);
    }
  }

  /** The drain is over, and was not forced. */
  ghost predicate EndsByItself(st: State, h: nat -> nat, steps: seq<Step>)
    requires Wired(st, h)
  {
    && Legal(st, h, steps)
    && Run(st, h, steps).acceptor == Stopped && Run(st, h, steps).ctx.phase == Draining
  }

  /** The exact condition: from every reachable state in which the server drains, the
      drain can still end by itself if and only if the queue has dropped nothing. */
  lemma DrainCanEndIff(h: nat -> nat, limit: nat, now: nat, slots: seq<TQ.Task>, before: seq<Step>)
    requires limit >= 1 && (forall ip :: h(ip) < SHARDS) && |slots| == TQ.INITIAL_CAPACITY
    requires Legal(Start(limit, now, slots), h, before)
    requires var st := Run(Start(limit, now, slots), h, before);
             st.acceptor == DrainLoop || st.acceptor == DrainBusy
    ensures var st := Run(Start(limit, now, slots), h, before);
            (exists steps :: EndsByItself(st, h, steps)) <==> st.tasks.jobs.lost == multiset{}
  {
    Reach(h, limit, now, slots, before);
    CanEndIff(Run(Start(limit, now, slots), h, before), h);
  }

  lemma CanEndIff(st: State, h: nat -> nat)
    requires Inv(st, h) && Wired(st, h) && (st.acceptor == DrainLoop || st.acceptor == DrainBusy)
    ensures (exists steps :: EndsByItself(st, h, steps)) <==> st.tasks.jobs.lost == multiset{}
  {
    if st.tasks.jobs.lost == multiset{} {
      var steps := DrainFinishes(st, h);
      assert EndsByItself(st, h, steps);
    } else {
      forall steps | Legal(st, h, steps) ensures !EndsByItself(st, h, steps) {
        StuckRun(st, h, steps);
      }
    }
  }
}
