/** What holds in every run of the server, whatever the order in which the
    accepting thread, the workers and the signal handler take their steps. */
module ServerRuns {
  import opened IpLimiter
  import opened IpRefinement
  import opened JobQueue
  import opened Server
  import IpRuns
  import TQ = TaskQueue

  lemma NextWired(st: State, h: nat -> nat, step: Step)
    requires Wired(st, h) && Enabled(st, step)
    ensures Wired(Next(st, h, step), h)
    ensures Next(st, h, step).limiter.table.limit == st.limiter.table.limit
  {
  }

  ghost predicate Legal(st: State, h: nat -> nat, steps: seq<Step>)
    requires Wired(st, h)
    decreases |steps|
  {
    steps == [] ||
    (Enabled(st, steps[0]) && (NextWired(st, h, steps[0]); Legal(Next(st, h, steps[0]), h, steps[1..])))
  }

  ghost function Run(st: State, h: nat -> nat, steps: seq<Step>): (st': State)
    requires Wired(st, h) && Legal(st, h, steps)
    ensures Wired(st', h) && st'.limiter.table.limit == st.limiter.table.limit
    decreases |steps|
  {
    if steps == [] then st
    else NextWired(st, h, steps[0]); Run(Next(st, h, steps[0]), h, steps[1..])
  }

  lemma OneMore(st: State, h: nat -> nat, step: Step, rest: seq<Step>)
    requires Wired(st, h) && Enabled(st, step)
    requires Wired(Next(st, h, step), h) && Legal(Next(st, h, step), h, rest)
    ensures Legal(st, h, [step] + rest) && Run(st, h, [step] + rest) == Run(Next(st, h, step), h, rest)
  {
    assert ([step] + rest)[1..] == rest;
  }

  /** No push of the run grows the queue with its front at zero. */
  ghost predicate NeverDrops(st: State, h: nat -> nat, steps: seq<Step>)
    requires Wired(st, h) && Legal(st, h, steps)
    decreases |steps|
  {
    steps == [] ||
    (!Drops(st, steps[0]) && (NextWired(st, h, steps[0]); NeverDrops(Next(st, h, steps[0]), h, steps[1..])))
  }

  function Rank(p: Phase): nat {
    match p case Running => 0 case Draining => 1 case Forced => 2
  }

  /** The shutdown phase never goes back. */
  lemma PhaseForward(st: State, h: nat -> nat, step: Step)
    requires Wired(st, h) && Enabled(st, step)
    ensures Rank(st.ctx.phase) <= Rank(Next(st, h, step).ctx.phase)
  {
  }

  lemma {:induction false} RunInv(st: State, h: nat -> nat, steps: seq<Step>)
    requires Inv(st, h) && Wired(st, h) && Legal(st, h, steps)
    ensures var st' := Run(st, h, steps); Inv(st', h) && Rank(st.ctx.phase) <= Rank(st'.ctx.phase)
    decreases |steps|
  {
    if steps != [] {
      NextInv(st, h, steps[0]);
      NextWired(st, h, steps[0]);
      PhaseForward(st, h, steps[0]);
      RunInv(Next(st, h, steps[0]), h, steps[1..]);
    }
  }

  /** Along a run the queue drops something if and only if some push grows it
      with its front at zero. */
  lemma {:induction false} RunDrops(st: State, h: nat -> nat, steps: seq<Step>)
    requires Wired(st, h) && QueueOk(st.tasks.jobs) && Legal(st, h, steps)
    ensures var q, q' := st.tasks.jobs, Run(st, h, steps).tasks.jobs;
            && QueueOk(q') && q.lost <= q'.lost
            && (q.lost == multiset{} ==> (q'.lost == multiset{} <==> NeverDrops(st, h, steps)))
    decreases |steps|
  {
    if steps != [] {
      QueueNext(st, h, steps[0]);
      NextWired(st, h, steps[0]);
      RunDrops(Next(st, h, steps[0]), h, steps[1..]);
    }
  }

  lemma Reach(h: nat -> nat, limit: nat, now: nat, slots: seq<TQ.Task>, steps: seq<Step>)
    requires limit >= 1 && (forall ip :: h(ip) < SHARDS) && |slots| == TQ.INITIAL_CAPACITY
    requires Legal(Start(limit, now, slots), h, steps)
    ensures var st := Run(Start(limit, now, slots), h, steps);
            Inv(st, h) && st.limiter.table.limit == limit
  {
    StartInv(limit, now, slots, h);
    RunInv(Start(limit, now, slots), h, steps);
  }

  lemma InvBalance(st: State)
    requires Debts(st) && AtMost(st.limiter.live, st.limiter.table.limit)
    ensures forall ip ::
              Outstanding(st)[ip] + st.tasks.jobs.lost[ip] == Get(st.limiter.live, ip) <= st.limiter.table.limit
    ensures st.ledger.admitted == st.ledger.repaid + Outstanding(st) + st.tasks.jobs.lost
  {
    assert Charged(st) == Outstanding(st) + st.tasks.jobs.lost;
    forall ip
      ensures Outstanding(st)[ip] + st.tasks.jobs.lost[ip] == Get(st.limiter.live, ip) <= st.limiter.table.limit
    {
      assert Charged(st)[ip] == Get(st.limiter.live, ip);
    }
  }

  lemma LostIsMissing(paid: multiset<nat>, lost: multiset<nat>)
    ensures paid + lost == paid <==> lost == multiset{}
  {
    assert |paid + lost| == |paid| + |lost|;
  }

  /** In every interleaving the connections of one address that are queued, being
      served or in the accepting thread's hands never exceed the limit, not even
      together with those the queue has dropped; each admission is repaid exactly
      once, still outstanding, or dropped; and the requests in flight are counted
      exactly, dropped ones included. */
  lemma AdmissionsBalance(h: nat -> nat, limit: nat, now: nat, slots: seq<TQ.Task>, steps: seq<Step>)
    requires limit >= 1 && (forall ip :: h(ip) < SHARDS) && |slots| == TQ.INITIAL_CAPACITY
    requires Legal(Start(limit, now, slots), h, steps)
    ensures var st := Run(Start(limit, now, slots), h, steps);
            var lost := st.tasks.jobs.lost;
            && (forall ip :: Outstanding(st)[ip] + lost[ip] == Get(st.limiter.live, ip) <= limit)
            && st.ledger.admitted == st.ledger.repaid + Outstanding(st) + lost
            && IpRuns.Inv(st.limiter, h)
            && Counts(st)
  {
    Reach(h, limit, now, slots, steps);
    InvBalance(Run(Start(limit, now, slots), h, steps));
  }

  /** The exact condition for every admission to be repaid or outstanding: no push
      of the run grows the queue with its front at zero. */
  lemma BalanceIff(h: nat -> nat, limit: nat, now: nat, slots: seq<TQ.Task>, steps: seq<Step>)
    requires limit >= 1 && (forall ip :: h(ip) < SHARDS) && |slots| == TQ.INITIAL_CAPACITY
    requires Legal(Start(limit, now, slots), h, steps)
    ensures var st := Run(Start(limit, now, slots), h, steps);
            st.ledger.admitted == st.ledger.repaid + Outstanding(st)
            <==> NeverDrops(Start(limit, now, slots), h, steps)
  {
    AdmissionsBalance(h, limit, now, slots, steps);
    RunDrops(Start(limit, now, slots), h, steps);
    var st := Run(Start(limit, now, slots), h, steps);
    LostIsMissing(st.ledger.repaid + Outstanding(st), st.tasks.jobs.lost);
  }

  /** Until such a push, the task a worker finds is always a waiting connection,
      the oldest one. */
  lemma WorkersFindConnections(h: nat -> nat, limit: nat, now: nat, slots: seq<TQ.Task>, steps: seq<Step>)
    requires (forall ip :: h(ip) < SHARDS) && |slots| == TQ.INITIAL_CAPACITY
    requires Legal(Start(limit, now, slots), h, steps) && NeverDrops(Start(limit, now, slots), h, steps)
    ensures var st := Run(Start(limit, now, slots), h, steps);
            st.tasks.jobs.ring.count > 0 ==>
              Enabled(st, Work(Take)) && TQ.Contents(st.tasks.jobs.ring)[0] == Job(First(st.tasks.jobs))
  {
    RunDrops(Start(limit, now, slots), h, steps);
    var q := Run(Start(limit, now, slots), h, steps).tasks.jobs;
    if q.ring.count > 0 {
      IntactFront(q);
    }
  }

  /** At most one request is counted in after the server left RUNNING, and the
      phase never goes back. */
  lemma AtMostOneLateDispatch(h: nat -> nat, limit: nat, now: nat, slots: seq<TQ.Task>,
                              before: seq<Step>, after: seq<Step>)
    requires limit >= 1 && (forall ip :: h(ip) < SHARDS) && |slots| == TQ.INITIAL_CAPACITY
    requires Legal(Start(limit, now, slots), h, before)
    requires Legal(Run(Start(limit, now, slots), h, before), h, after)
    ensures var st := Run(Start(limit, now, slots), h, before);
            var st' := Run(st, h, after);
            st'.ledger.late <= 1 && Rank(st.ctx.phase) <= Rank(st'.ctx.phase)
  {
    Reach(h, limit, now, slots, before);
    LateFrom(Run(Start(limit, now, slots), h, before), h, after);
  }

  lemma LateFrom(st: State, h: nat -> nat, steps: seq<Step>)
    requires Inv(st, h) && Legal(st, h, steps)
    ensures Run(st, h, steps).ledger.late <= 1 && Rank(st.ctx.phase) <= Rank(Run(st, h, steps).ctx.phase)
  {
    RunInv(st, h, steps);
  }

  lemma InvReport(st: State, h: nat -> nat)
    requires Wired(st, h) && Counts(st) && Lateness(st) && st.acceptor.Measuring?
    ensures var ctx := Next(st, h, Shut(Measure)).ctx;
            && (ctx.forced == 0 || ctx.phase == Forced)
            && |st.tasks.jobs.lost| <= ctx.forced <= ctx.peak + 1
            && ctx.forced == |InQueue(st.tasks.jobs)| + |st.tasks.serving| + st.tasks.paid
            && (st.ledger.late <= st.ledger.finished ==> ctx.completed == st.ledger.finished - st.ledger.late)
            && (ctx.completed + ctx.forced == ctx.peak <==> st.ledger.late <= st.ledger.finished)
            && (st.ledger.late > st.ledger.finished ==> ctx.completed + ctx.forced == ctx.peak + TWO_64)
            && (st.ledger.late == 0 ==> ctx.completed + ctx.forced == ctx.peak && 0 <= ctx.completed)
  {
  }

  /** The drain's report: it ends with nothing in flight or in FORCED, with at
      most one request more than the peak and at least the dropped ones. Forced
      are the requests still queued, served, unfinished or dropped; completed are
      those finished since the signal, less the late one;
      completed and forced add up to the peak if and only if no more requests
      came late than finished since the signal, so always when none came late.
      Otherwise the unsigned subtraction has wrapped. */
  lemma DrainReport(h: nat -> nat, limit: nat, now: nat, slots: seq<TQ.Task>, steps: seq<Step>)
    requires limit >= 1 && (forall ip :: h(ip) < SHARDS) && |slots| == TQ.INITIAL_CAPACITY
    requires Legal(Start(limit, now, slots), h, steps)
    requires Run(Start(limit, now, slots), h, steps).acceptor.Measuring?
    ensures var st := Run(Start(limit, now, slots), h, steps);
            var ctx := Next(st, h, Shut(Measure)).ctx;
            && (ctx.forced == 0 || ctx.phase == Forced)
            && |st.tasks.jobs.lost| <= ctx.forced <= ctx.peak + 1
            && ctx.forced == |InQueue(st.tasks.jobs)| + |st.tasks.serving| + st.tasks.paid
            && (st.ledger.late <= st.ledger.finished ==> ctx.completed == st.ledger.finished - st.ledger.late)
            && (ctx.completed + ctx.forced == ctx.peak <==> st.ledger.late <= st.ledger.finished)
            && (st.ledger.late > st.ledger.finished ==> ctx.completed + ctx.forced == ctx.peak + TWO_64)
            && (st.ledger.late == 0 ==> ctx.completed + ctx.forced == ctx.peak && 0 <= ctx.completed)
  {
    Reach(h, limit, now, slots, steps);
    InvReport(Run(Start(limit, now, slots), h, steps), h);
  }
}
