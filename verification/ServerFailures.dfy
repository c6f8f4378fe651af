/** Runs of the server that go wrong: a drain report that wraps, and an overload
    that loses connections. */
module ServerFailures {
  import opened IpLimiter
  import opened IpRefinement
  import opened JobQueue
  import opened Server
  import opened ServerRuns
  import TQ = TaskQueue

  function DrainTail(): seq<Step> {
    [Shut(BeginShutdown)] + ([Shut(DrainCheck)] + ([Shut(DrainClock(true))] + ([Shut(Measure)] + [])))
  }

  lemma WrapInDrain(st: State, h: nat -> nat)
    requires Wired(st, h) && st.acceptor == Leaving && st.ctx == Context(Draining, 1, 0, 0, 0)
    ensures Legal(st, h, DrainTail()) && Run(st, h, DrainTail()).ctx == Context(Forced, 1, 0, TWO_64 - 1, 1)
  {
    var s7 := Next(st, h, Shut(BeginShutdown));
    var s8 := Next(s7, h, Shut(DrainCheck));
    var s9 := Next(s8, h, Shut(DrainClock(true)));
    OneMore(s9, h, Shut(Measure), []);
    OneMore(s8, h, Shut(DrainClock(true)), [Shut(Measure)] + []);
    OneMore(s7, h, Shut(DrainCheck), [Shut(DrainClock(true))] + ([Shut(Measure)] + []));
    OneMore(st, h, Shut(BeginShutdown), [Shut(DrainCheck)] + ([Shut(DrainClock(true))] + ([Shut(Measure)] + [])));
  }

  function LateTail(memory: nat -> TQ.Task): seq<Step> {
    [Shut(Signal(false))] + ([Accept(CountIn)] + ([Accept(AddTask(true, memory))] + ([Shut(LeaveLoop)] + DrainTail())))
  }

  lemma WrapAfterAdmission(st: State, h: nat -> nat, memory: nat -> TQ.Task)
    requires Wired(st, h) && st.acceptor.Admitted? && st.ctx == Context(Running, 0, 0, 0, 0)
    requires st.limiter.sweeper.Idle?
    ensures Legal(st, h, LateTail(memory))
    ensures Run(st, h, LateTail(memory)).ctx == Context(Forced, 1, 0, TWO_64 - 1, 1)
  {
    var add := Accept(AddTask(true, memory));
    var s3 := Next(st, h, Shut(Signal(false)));
    var s4 := Next(s3, h, Accept(CountIn));
    var s5 := Next(s4, h, add);
    WrapInDrain(Next(s5, h, Shut(LeaveLoop)), h);
    OneMore(s5, h, Shut(LeaveLoop), DrainTail());
    OneMore(s4, h, add, [Shut(LeaveLoop)] + DrainTail());
    OneMore(s3, h, Accept(CountIn), [add] + ([Shut(LeaveLoop)] + DrainTail()));
    OneMore(st, h, Shut(Signal(false)), [Accept(CountIn)] + ([add] + ([Shut(LeaveLoop)] + DrainTail())));
  }

  /** The map says when the table admits. */
  lemma Admits(st: State, h: nat -> nat, ip: Address, now: nat)
    requires Inv(st, h) && st.acceptor == Checked(ip)
    requires var n := Get(st.limiter.live, ip);
             n < st.limiter.table.limit && (n > 0 || st.limiter.live == map[])
    ensures var st' := Asked(st, h, now);
            && st'.acceptor == Admitted(ip) && st'.ctx == st.ctx && st'.tasks == st.tasks
            && st'.limiter.sweeper == st.limiter.sweeper
            && Get(st'.limiter.live, ip) == Get(st.limiter.live, ip) + 1
  {
    CheckRefines(st.limiter.table, st.limiter.live, h, ip, now);
    assert ShardIps(map[], h, h(ip)) == {};
  }

  /** Ready for a connection of this address, which the map would admit. */
  ghost predicate Welcomes(st: State, h: nat -> nat, ip: Address) {
    && Inv(st, h) && Enabled(st, Accept(SeeConnection(ip)))
    && var n := Get(st.limiter.live, ip);
       n < st.limiter.table.limit && (n > 0 || st.limiter.live == map[])
  }

  function Seen(st: State, ip: Address): State {
    st.(acceptor := Checked(ip))
  }

  lemma SeenInv(st: State, h: nat -> nat, ip: Address)
    requires Inv(st, h) && Enabled(st, Accept(SeeConnection(ip)))
    ensures Inv(Seen(st, ip), h)
  {
    NextInv(st, h, Accept(SeeConnection(ip)));
  }

  lemma AskedInv(st: State, h: nat -> nat, now: nat)
    requires Inv(st, h) && st.acceptor.Checked?
    ensures Inv(Asked(st, h, now), h)
  {
    NextInv(st, h, Accept(Ask(now)));
  }

  /** A connection arrives and is admitted. */
  lemma Arrives(st: State, h: nat -> nat, ip: Address, now: nat)
    requires Welcomes(st, h, ip)
    ensures Inv(Seen(st, ip), h)
    ensures var s2 := Asked(Seen(st, ip), h, now);
            && Inv(s2, h) && s2.acceptor == Admitted(ip) && s2.ctx == st.ctx && s2.tasks == st.tasks
            && s2.limiter.sweeper.Idle? && s2.limiter.table.limit == st.limiter.table.limit
            && Get(s2.limiter.live, ip) == Get(st.limiter.live, ip) + 1
  {
    SeenInv(st, h, ip);
    Admits(Seen(st, ip), h, ip, now);
    AskedInv(Seen(st, ip), h, now);
  }

  lemma ArrivesThen(st: State, h: nat -> nat, ip: Address, now: nat, rest: seq<Step>)
    requires Welcomes(st, h, ip) && Wired(Seen(st, ip), h)
    requires var s2 := Asked(Seen(st, ip), h, now); Wired(s2, h) && Legal(s2, h, rest)
    ensures var steps := [Accept(SeeConnection(ip))] + ([Accept(Ask(now))] + rest);
            Legal(st, h, steps) && Run(st, h, steps) == Run(Asked(Seen(st, ip), h, now), h, rest)
  {
    OneMore(Seen(st, ip), h, Accept(Ask(now)), rest);
    OneMore(st, h, Accept(SeeConnection(ip)), [Accept(Ask(now))] + rest);
  }

  lemma WrapFrom(st: State, h: nat -> nat, ip: Address, memory: nat -> TQ.Task)
    requires Welcomes(st, h, ip) && st.ctx == Context(Running, 0, 0, 0, 0)
    ensures var steps := [Accept(SeeConnection(ip))] + ([Accept(Ask(0))] + LateTail(memory));
            Legal(st, h, steps) && Run(st, h, steps).ctx == Context(Forced, 1, 0, TWO_64 - 1, 1)
  {
    Arrives(st, h, ip, 0);
    WrapAfterAdmission(Asked(Seen(st, ip), h, 0), h, memory);
    ArrivesThen(st, h, ip, 0, LateTail(memory));
  }

  lemma StartsIdle(limit: nat, now: nat, slots: seq<TQ.Task>, h: nat -> nat, ip: Address)
    requires limit >= 1 && (forall x :: h(x) < SHARDS) && |slots| == TQ.INITIAL_CAPACITY
    ensures var st := Start(limit, now, slots);
            && Piling(st, h, ip) && st.limiter.live == map[] && st.limiter.table.limit == limit
            && st.ctx == Context(Running, 0, 0, 0, 0)
            && st.tasks.jobs.ring.count == 0 && |st.tasks.jobs.ring.slots| == TQ.INITIAL_CAPACITY
  {
    StartInv(limit, now, slots, h);
  }

  /** The wrap happens: a signal between the running check and the dispatch of
      the only connection, which then outlives the deadline, reports 2^64 - 1
      completed requests. */
  lemma LateDispatchWraps(h: nat -> nat, limit: nat, now: nat, slots: seq<TQ.Task>, ip: Address,
                          memory: nat -> TQ.Task)
    requires limit >= 1 && (forall x :: h(x) < SHARDS) && |slots| == TQ.INITIAL_CAPACITY
    ensures var steps := [Accept(SeeConnection(ip))] + ([Accept(Ask(0))] + LateTail(memory));
            && Legal(Start(limit, now, slots), h, steps)
            && Run(Start(limit, now, slots), h, steps).ctx == Context(Forced, 1, 0, TWO_64 - 1, 1)
  {
    StartsIdle(limit, now, slots, h, ip);
    WrapFrom(Start(limit, now, slots), h, ip, memory);
  }

  // ----- overload ------------------------------------------------------------

  function CountedIn(st: State): State
    requires st.acceptor.Admitted?
  {
    st.(ctx := st.ctx.(inFlight := st.ctx.inFlight + 1), acceptor := Counted(st.acceptor.ip),
        ledger := if st.ctx.phase == Running then st.ledger else st.ledger.(late := st.ledger.late + 1))
  }

  /** The state after a connection has been seen, admitted, counted and queued. */
  ghost function Arrived(st: State, h: nat -> nat, ip: Address, memory: nat -> TQ.Task): State
    requires Welcomes(st, h, ip)
  {
    Arrives(st, h, ip, 0);
    Queued(CountedIn(Asked(Seen(st, ip), h, 0)), memory)
  }

  function Arrival(ip: Address, memory: nat -> TQ.Task, rest: seq<Step>): seq<Step> {
    [Accept(SeeConnection(ip))] + ([Accept(Ask(0))] + ([Accept(CountIn)] + ([Accept(AddTask(true, memory))] + rest)))
  }

  lemma CountedInInv(st: State, h: nat -> nat)
    requires Inv(st, h) && st.acceptor.Admitted?
    ensures Inv(CountedIn(st), h)
  {
    NextInv(st, h, Accept(CountIn));
  }

  lemma QueuedInv(st: State, h: nat -> nat, memory: nat -> TQ.Task)
    requires Inv(st, h) && st.acceptor.Counted?
    ensures Inv(Queued(st, memory), h)
  {
    NextInv(st, h, Accept(AddTask(true, memory)));
  }

  lemma ArrivedInv(st: State, h: nat -> nat, ip: Address, memory: nat -> TQ.Task)
    requires Welcomes(st, h, ip)
    ensures var st' := Arrived(st, h, ip, memory);
            && Inv(st', h) && Enabled(st', Accept(SeeConnection(ip)))
            && st'.tasks.jobs == Enqueue(st.tasks.jobs, ip, memory)
            && Get(st'.limiter.live, ip) == Get(st.limiter.live, ip) + 1
            && st'.limiter.table.limit == st.limiter.table.limit
  {
    Arrives(st, h, ip, 0);
    var s2 := Asked(Seen(st, ip), h, 0);
    CountedInInv(s2, h);
    QueuedInv(CountedIn(s2), h, memory);
  }

  lemma AddedThen(st: State, h: nat -> nat, memory: nat -> TQ.Task, rest: seq<Step>)
    requires Wired(st, h) && st.acceptor.Counted?
    requires Wired(Queued(st, memory), h) && Legal(Queued(st, memory), h, rest)
    ensures var steps := [Accept(AddTask(true, memory))] + rest;
            Legal(st, h, steps) && Run(st, h, steps) == Run(Queued(st, memory), h, rest)
  {
    OneMore(st, h, Accept(AddTask(true, memory)), rest);
  }

  lemma QueuedThen(st: State, h: nat -> nat, memory: nat -> TQ.Task, rest: seq<Step>)
    requires Wired(st, h) && st.acceptor.Admitted?
    requires Wired(Queued(CountedIn(st), memory), h) && Legal(Queued(CountedIn(st), memory), h, rest)
    ensures var steps := [Accept(CountIn)] + ([Accept(AddTask(true, memory))] + rest);
            Legal(st, h, steps) && Run(st, h, steps) == Run(Queued(CountedIn(st), memory), h, rest)
  {
    AddedThen(CountedIn(st), h, memory, rest);
    OneMore(st, h, Accept(CountIn), [Accept(AddTask(true, memory))] + rest);
  }

  lemma ArrivalThen(st: State, h: nat -> nat, ip: Address, memory: nat -> TQ.Task, rest: seq<Step>)
    requires Welcomes(st, h, ip)
    requires Wired(Arrived(st, h, ip, memory), h) && Legal(Arrived(st, h, ip, memory), h, rest)
    ensures Legal(st, h, Arrival(ip, memory, rest))
    ensures Run(st, h, Arrival(ip, memory, rest)) == Run(Arrived(st, h, ip, memory), h, rest)
  {
    Arrives(st, h, ip, 0);
    QueuedThen(Asked(Seen(st, ip), h, 0), h, memory, rest);
    ArrivesThen(st, h, ip, 0, [Accept(CountIn)] + ([Accept(AddTask(true, memory))] + rest));
  }

  /** The acceptor is ready for the next connection of this address, and nobody
      has taken anything from the queue. */
  ghost predicate Piling(st: State, h: nat -> nat, ip: Address) {
    && Inv(st, h) && Enabled(st, Accept(SeeConnection(ip)))
    && (Get(st.limiter.live, ip) > 0 || st.limiter.live == map[])
    && Get(st.limiter.live, ip) == st.tasks.jobs.ring.count
    && st.tasks.jobs.ring.front == 0
  }

  /** Until the queue is full an arrival just adds one. */
  lemma PilesOne(st: State, h: nat -> nat, ip: Address, memory: nat -> TQ.Task)
    requires Piling(st, h, ip) && st.tasks.jobs.ring.count < |st.tasks.jobs.ring.slots| < st.limiter.table.limit
    ensures var st' := Arrived(st, h, ip, memory);
            && Piling(st', h, ip)
            && |st'.tasks.jobs.ring.slots| == |st.tasks.jobs.ring.slots| < st'.limiter.table.limit
            && st'.tasks.jobs.ring.count == st.tasks.jobs.ring.count + 1
  {
    ArrivedInv(st, h, ip, memory);
  }

  lemma FullQueueLoses(st: State, h: nat -> nat, ip: Address, memory: nat -> TQ.Task)
    requires Piling(st, h, ip) && st.tasks.jobs.ring.count == |st.tasks.jobs.ring.slots| < st.limiter.table.limit
    ensures Wired(Arrived(st, h, ip, memory), h)
    ensures Arrived(st, h, ip, memory).tasks.jobs.lost != multiset{}
  {
    ArrivedInv(st, h, ip, memory);
    QueueLoses(st.tasks.jobs, ip, memory);
  }

  lemma QueueLoses(q: Jobs, ip: nat, memory: nat -> TQ.Task)
    requires QueueOk(q) && TQ.GrowsAtZero(q.ring)
    ensures Enqueue(q, ip, memory).lost != multiset{}
  {
    EnqueueAccounts(q, ip, memory);
    if q.lost == multiset{} {
      EnqueueIntactIff(q, ip, memory);
    }
  }

  lemma {:induction false} OverloadFrom(st: State, h: nat -> nat, ip: Address, memory: nat -> TQ.Task)
    returns (steps: seq<Step>)
    requires Piling(st, h, ip) && |st.tasks.jobs.ring.slots| < st.limiter.table.limit
    ensures Legal(st, h, steps) && Run(st, h, steps).tasks.jobs.lost != multiset{}
    decreases |st.tasks.jobs.ring.slots| - st.tasks.jobs.ring.count
  {
    if st.tasks.jobs.ring.count == |st.tasks.jobs.ring.slots| {
      FullQueueLoses(st, h, ip, memory);
      steps := [];
    } else {
      PilesOne(st, h, ip, memory);
      steps := OverloadFrom(Arrived(st, h, ip, memory), h, ip, memory);
    }
    ArrivalThen(st, h, ip, memory, steps);
    steps := Arrival(ip, memory, steps);
  }

  /** Overload: 257 connections of one address within its limit, none taken in the
      meantime. The last push drops the 256 connections before it, whose
      admissions nobody will repay. */
  lemma OverloadLosesConnections(h: nat -> nat, limit: nat, now: nat, slots: seq<TQ.Task>, ip: Address,
                                 memory: nat -> TQ.Task) returns (steps: seq<Step>)
    requires (forall x :: h(x) < SHARDS) && |slots| == TQ.INITIAL_CAPACITY && limit > 256
    ensures Legal(Start(limit, now, slots), h, steps)
    ensures var st := Run(Start(limit, now, slots), h, steps);
            && st.tasks.jobs.lost != multiset{}
            && st.ledger.admitted != st.ledger.repaid + Outstanding(st)
  {
    StartsIdle(limit, now, slots, h, ip);
    steps := OverloadFrom(Start(limit, now, slots), h, ip, memory);
    AdmissionsBalance(h, limit, now, slots, steps);
    var st := Run(Start(limit, now, slots), h, steps);
    LostIsMissing(st.ledger.repaid + Outstanding(st), st.tasks.jobs.lost);
  }
}
