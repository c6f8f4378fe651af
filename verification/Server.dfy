/** Admission and graceful shutdown as one state machine: the accepting thread
    (which also drains at the end), the worker tasks, and a signal handler,
    interleaved in any order. The limiter inside is the slot table itself, not
    the plain map, and the pool's queue is the ring that can lose tasks. A run
    goes on only as long as workers take slots in which a connection waits. */
module Server {
  import opened Counting
  import opened IpLimiter
  import opened IpRefinement
  import opened JobQueue
  import IpRuns
  import TQ = TaskQueue

  /** Client addresses other than zero (see `IpAgreement`). */
  type Address = ip: nat | ip != 0 witness 1

  datatype Phase = Running | Draining | Forced

  /** The shutdown context: its counters are 64-bit. */
  datatype Context = Context(phase: Phase, inFlight: int, peak: int, completed: int, forced: int)

  /** Where the accepting thread is. Checked: it has a connection and has seen
      the server running. Admitted: the limiter said yes. Counted: the request
      is counted in flight and not yet queued. Refused: the pool said no
      and the count is undone, the limiter not yet. DrainBusy: the drain loop has
      seen requests in flight and is about to read the clock. */
  datatype Acceptor =
    | Polling
    | Checked(ip: Address)
    | Admitted(ip: Address)
    | Counted(ip: Address)
    | Refused(ip: Address)
    | Leaving
    | DrainLoop
    | DrainBusy
    | Measuring
    | Stopped

  /** The pool's queue, the addresses of running tasks, and the number of tasks
      that have told the limiter but are still counted in flight. */
  datatype Tasks = Tasks(jobs: Jobs, serving: multiset<nat>, paid: nat)

  /** What has happened: admissions, repayments, and, since the first signal,
      requests counted in and counted out. */
  datatype Ledger = Ledger(admitted: multiset<nat>, repaid: multiset<nat>, late: nat, finished: nat)

  datatype State = State(limiter: IpRuns.State, acceptor: Acceptor, tasks: Tasks, ctx: Context, ledger: Ledger)

  /** The accepting thread, up to the hand-over of a connection. */
  datatype AcceptStep =
    | SeeConnection(ip: Address)
    | Tidy(op: IpRuns.Op)
    | Ask(now: nat)
    | GiveUp
    | CountIn
    | AddTask(ok: bool, memory: nat -> TQ.Task)
    | Refund

  /** The workers. */
  datatype WorkStep = Take | Pay(who: nat) | Finish

  /** The signal handler, and the accepting thread on its way out. */
  datatype ShutStep =
    | Signal(interrupt: bool)
    | LeaveLoop
    | BeginShutdown
    | DrainCheck
    | DrainClock(deadlinePassed: bool)
    | Measure

  datatype Step = Accept(a: AcceptStep) | Work(w: WorkStep) | Shut(s: ShutStep)

  /** It compacts between two connections. The pool says no only when its queue
      is full and cannot grow. */
  predicate CanAccept(st: State, a: AcceptStep) {
    match a
    case SeeConnection(_) => st.acceptor == Polling && st.limiter.sweeper.Idle? && st.ctx.phase == Running
    case Tidy(op) => st.acceptor == Polling && (op.Begin? || op.Sweep? || op.Settle?) && IpRuns.Allowed(st.limiter, op)
    case Ask(_) => st.acceptor.Checked?
    case GiveUp => st.acceptor.Admitted?
    case CountIn => st.acceptor.Admitted?
    case AddTask(ok, _) => st.acceptor.Counted? && (ok || st.tasks.jobs.ring.count == |st.tasks.jobs.ring.slots|)
    case Refund => st.acceptor.Refused?
  }

  predicate CanWork(st: State, w: WorkStep) {
    match w
    case Take => Ready(st.tasks.jobs)
    case Pay(who) => who in st.tasks.serving
    case Finish => st.tasks.paid > 0
  }

  predicate CanShut(st: State, s: ShutStep) {
    match s
    case Signal(_) => true
    case LeaveLoop => st.acceptor == Polling && st.limiter.sweeper.Idle?
    case BeginShutdown => st.acceptor == Leaving
    case DrainCheck => st.acceptor == DrainLoop
    case DrainClock(_) => st.acceptor == DrainBusy
    case Measure => st.acceptor == Measuring
  }

  predicate Enabled(st: State, step: Step) {
    match step
    case Accept(a) => CanAccept(st, a)
    case Work(w) => CanWork(st, w)
    case Shut(s) => CanShut(st, s)
  }

  ghost predicate Wired(st: State, h: nat -> nat) {
    IpRuns.Wired(st.limiter, h) && Shape(st.tasks.jobs)
  }

  /** Subtraction on 64-bit counters. */
  function Minus(a: int, b: int): int {
    if a >= b then a - b else a - b + TWO_64
  }

  /** A limiter decrement. */
  ghost function Repay(st: State, h: nat -> nat, ip: nat): State
    requires Wired(st, h)
  {
    st.(limiter := if Get(st.limiter.live, ip) > 0 then IpRuns.Next(st.limiter, h, IpRuns.Leave(ip))
                   else st.limiter.(table := Release(st.limiter.table, h(ip), ip)),
        ledger := st.ledger.(repaid := st.ledger.repaid + multiset{ip}))
  }

  ghost function Asked(st: State, h: nat -> nat, now: nat): State
    requires Wired(st, h) && st.acceptor.Checked?
  {
    var ip := st.acceptor.ip;
    var lim := IpRuns.Next(st.limiter, h, IpRuns.Admit(ip, now));
    if Check(st.limiter.table, h(ip), ip, now).1.verdict == Ok then
      st.(limiter := lim, acceptor := Admitted(ip),
          ledger := st.ledger.(admitted := st.ledger.admitted + multiset{ip}))
    else st.(limiter := lim, acceptor := Polling)
  }

  function CountOut(st: State): State {
    st.(ctx := st.ctx.(inFlight := Minus(st.ctx.inFlight, 1)),
        ledger := if st.ctx.phase == Running then st.ledger
                  else st.ledger.(finished := st.ledger.finished + 1))
  }

  function HandleSignal(ctx: Context, interrupt: bool): Context {
    if ctx.phase != Running then ctx
    else if interrupt then ctx.(phase := Forced)
    else ctx.(phase := Draining, peak := ctx.inFlight)
  }

  function Queued(st: State, memory: nat -> TQ.Task): State
    requires Shape(st.tasks.jobs) && st.acceptor.Counted?
  {
    st.(tasks := st.tasks.(jobs := Enqueue(st.tasks.jobs, st.acceptor.ip, memory)), acceptor := Polling)
  }

  function Taken(st: State): State
    requires Shape(st.tasks.jobs) && Ready(st.tasks.jobs)
  {
    st.(tasks := st.tasks.(jobs := Dequeue(st.tasks.jobs),
                           serving := st.tasks.serving + multiset{First(st.tasks.jobs)}))
  }

  function Served(st: State, ip: nat): State {
    st.(tasks := st.tasks.(serving := st.tasks.serving - multiset{ip}, paid := st.tasks.paid + 1))
  }

  ghost function Accepted(st: State, h: nat -> nat, a: AcceptStep): State
    requires CanAccept(st, a) && Wired(st, h)
  {
    match a
    case SeeConnection(ip) => st.(acceptor := Checked(ip))
    case Tidy(op) => st.(limiter := IpRuns.Next(st.limiter, h, op))
    case Ask(now) => Asked(st, h, now)
    case GiveUp => Repay(st.(acceptor := Polling), h, st.acceptor.ip)
    case CountIn =>
      st.(ctx := st.ctx.(inFlight := st.ctx.inFlight + 1), acceptor := Counted(st.acceptor.ip),
          ledger := if st.ctx.phase == Running then st.ledger else st.ledger.(late := st.ledger.late + 1))
    case AddTask(ok, memory) =>
      if ok then Queued(st, memory) else CountOut(st.(acceptor := Refused(st.acceptor.ip)))
    case Refund => Repay(st.(acceptor := Polling), h, st.acceptor.ip)
  }

  ghost function Worked(st: State, h: nat -> nat, w: WorkStep): State
    requires CanWork(st, w) && Wired(st, h)
  {
    match w
    case Take => Taken(st)
    case Pay(who) => Repay(Served(st, who), h, who)
    case Finish => CountOut(st.(tasks := st.tasks.(paid := st.tasks.paid - 1)))
  }

  /** Where the accepting thread and the context go on the way out. */
  function Shutting(a: Acceptor, ctx: Context, s: ShutStep): (Acceptor, Context) {
    match s
    case Signal(interrupt) => (a, HandleSignal(ctx, interrupt))
    case LeaveLoop => (Leaving, ctx)
    case BeginShutdown => (if ctx.phase == Draining then DrainLoop else Stopped, ctx)
    case DrainCheck => (if ctx.inFlight == 0 then Measuring else DrainBusy, ctx)
    case DrainClock(deadlinePassed) =>
      if deadlinePassed then (Measuring, ctx.(phase := Forced)) else (DrainLoop, ctx)
    case Measure => (Stopped, ctx.(completed := Minus(ctx.peak, ctx.inFlight), forced := ctx.inFlight))
  }

  function ShutNext(st: State, s: ShutStep): State {
    var (a, ctx) := Shutting(st.acceptor, st.ctx, s);
    st.(acceptor := a, ctx := ctx)
  }

  ghost function Next(st: State, h: nat -> nat, step: Step): State
    requires Enabled(st, step) && Wired(st, h)
  {
    match step
    case Accept(a) => Accepted(st, h, a)
    case Work(w) => Worked(st, h, w)
    case Shut(s) => ShutNext(st, s)
  }

  function Start(limit: nat, now: nat, slots: seq<TQ.Task>): State
    requires |slots| == TQ.INITIAL_CAPACITY
  {
    State(IpRuns.Start(limit, now), Polling, Tasks(Empty(slots), multiset{}, 0),
          Context(Running, 0, 0, 0, 0), Ledger(multiset{}, multiset{}, 0, 0))
  }

  // ----- the invariant -------------------------------------------------------

  /** The admission the accepting thread itself is responsible for. */
  function Held(a: Acceptor): multiset<nat> {
    if a.Admitted? || a.Counted? || a.Refused? then multiset{a.ip} else multiset{}
  }

  /** Connections that wait in the queue, and those it has dropped. */
  function InQueue(q: Jobs): multiset<nat> {
    Addresses(q.owner) + q.lost
  }

  /** Admissions not yet paid back, by address. */
  function Charged(st: State): multiset<nat> {
    Held(st.acceptor) + (InQueue(st.tasks.jobs) + st.tasks.serving)
  }

  /** Connections that are queued, being served or in the acceptor's hands. */
  function Outstanding(st: State): multiset<nat> {
    Held(st.acceptor) + (Addresses(st.tasks.jobs.owner) + st.tasks.serving)
  }

  ghost predicate Matches(owed: multiset<nat>, live: Live) {
    forall ip :: owed[ip] == Get(live, ip)
  }

  /** Every admission is repaid or charged, and the map counts exactly the
      charged ones. */
  ghost predicate Debts(st: State) {
    st.ledger.admitted == st.ledger.repaid + Charged(st) && Matches(Charged(st), st.limiter.live)
  }

  ghost predicate AtMost(live: Live, limit: nat) {
    forall x :: x in live ==> live[x] <= limit
  }

  ghost predicate Limited(st: State, h: nat -> nat) {
    IpRuns.Inv(st.limiter, h) && AtMost(st.limiter.live, st.limiter.table.limit)
  }

  ghost predicate Counts(st: State) {
    st.ctx.inFlight == One(st.acceptor.Counted?) + |InQueue(st.tasks.jobs)| + |st.tasks.serving| + st.tasks.paid
  }

  /** Requests counted in after the first signal: at most one, and none after
      the accepting thread has gone back to polling or left. While draining,
      the requests in flight are those at the signal, plus the late one, minus
      those that finished. */
  ghost predicate LateOk(a: Acceptor, ctx: Context, late: nat, finished: nat) {
    && ctx.peak >= 0 && (ctx.phase == Running ==> late == 0 && finished == 0)
    && (ctx.phase != Running ==> late + One(a.Checked? || a.Admitted?) <= 1)
    && (ctx.phase == Draining || a.Measuring? ==> ctx.inFlight + finished == ctx.peak + late)
    && (a.DrainLoop? || a.DrainBusy? ==> ctx.phase == Draining)
    && (a.Measuring? ==> ctx.phase == Forced || (ctx.phase == Draining && ctx.inFlight == 0))
  }

  ghost predicate Lateness(st: State) {
    LateOk(st.acceptor, st.ctx, st.ledger.late, st.ledger.finished)
  }

  /** A queue that has dropped nothing is intact. */
  ghost predicate QueueOk(q: Jobs) {
    Shape(q) && (q.lost == multiset{} ==> Intact(q))
  }

  ghost predicate Inv(st: State, h: nat -> nat) {
    Limited(st, h) && Debts(st) && Counts(st) && Lateness(st) && QueueOk(st.tasks.jobs)
  }

  lemma StartInv(limit: nat, now: nat, slots: seq<TQ.Task>, h: nat -> nat)
    requires limit >= 1 && (forall ip :: h(ip) < SHARDS) && |slots| == TQ.INITIAL_CAPACITY
    ensures Inv(Start(limit, now, slots), h)
  {
    IpRuns.StartInv(limit, now, h);
    NoAddresses(Start(limit, now, slots).tasks.jobs.owner);
  }

  // ----- admissions and repayments -------------------------------------------

  lemma MatchesAdd(owed: multiset<nat>, live: Live, ip: nat)
    requires Matches(owed, live)
    ensures Matches(owed + multiset{ip}, live[ip := Get(live, ip) + 1])
  {
  }

  lemma MatchesSubtract(owed: multiset<nat>, live: Live, ip: nat)
    requires Matches(owed + multiset{ip}, live)
    ensures Get(live, ip) > 0 && Matches(owed, SpecRelease(live, ip))
  {
    assert (owed + multiset{ip})[ip] > 0;
    forall x ensures owed[x] == Get(SpecRelease(live, ip), x) {
      assert (owed + multiset{ip})[x] == Get(live, x);
    }
  }

  /** A repayment of one charged admission, from the state without it. */
  lemma RepayInv(st: State, h: nat -> nat, ip: nat)
    requires Limited(st, h) && Wired(st, h) && Matches(Charged(st) + multiset{ip}, st.limiter.live)
    requires st.ledger.admitted == st.ledger.repaid + (Charged(st) + multiset{ip})
    ensures Limited(Repay(st, h, ip), h) && Debts(Repay(st, h, ip))
  {
    MatchesSubtract(Charged(st), st.limiter.live, ip);
    IpRuns.LeaveInv(st.limiter, h, ip);
  }

  /** The map's own admission: it answers yes exactly when it counts one more,
      and it keeps every address within the limit. */
  lemma SpecCheckAdds(live: Live, h: nat -> nat, limit: nat, ip: nat)
    requires AtMost(live, limit)
    ensures var (live', a) := SpecCheck(live, h, limit, ip);
            && AtMost(live', limit)
            && live' == if a.verdict == Ok then live[ip := Get(live, ip) + 1] else live
  {
  }

  /** An admission that the map, the ledger and the acceptor all take note of. */
  lemma ChargeOne(st: State, st': State, ip: nat)
    requires Debts(st) && Held(st.acceptor) == multiset{} && Held(st'.acceptor) == multiset{ip}
    requires st'.tasks == st.tasks && st'.limiter.live == st.limiter.live[ip := Get(st.limiter.live, ip) + 1]
    requires st'.ledger.admitted == st.ledger.admitted + multiset{ip} && st'.ledger.repaid == st.ledger.repaid
    ensures Debts(st')
  {
    MatchesAdd(Charged(st), st.limiter.live, ip);
    assert Charged(st') == Charged(st) + multiset{ip};
  }

  lemma SameAnswer(l: Limiter, live: Live, h: nat -> nat, ip: nat, now: nat)
    requires Rep(l, live, h) && ip != 0
    ensures Check(l, h(ip), ip, now).1 == SpecCheck(live, h, l.limit, ip).1
  {
    CheckRefines(l, live, h, ip, now);
  }

  /** The table says yes exactly when the map counts one more. */
  lemma AskedEffect(st: State, h: nat -> nat, now: nat)
    requires Limited(st, h) && Wired(st, h) && st.acceptor.Checked?
    ensures var st', ip, live := Asked(st, h, now), st.acceptor.ip, st.limiter.live;
            && st'.tasks == st.tasks && st'.ctx == st.ctx && st'.limiter.sweeper == st.limiter.sweeper
            && (st'.acceptor == Admitted(ip) || st'.acceptor == Polling)
            && st'.limiter.live == (if st'.acceptor.Admitted? then live[ip := Get(live, ip) + 1] else live)
            && st'.ledger == (if st'.acceptor.Admitted?
                              then st.ledger.(admitted := st.ledger.admitted + multiset{ip}) else st.ledger)
  {
    SameAnswer(st.limiter.table, st.limiter.live, h, st.acceptor.ip, now);
    SpecCheckAdds(st.limiter.live, h, st.limiter.table.limit, st.acceptor.ip);
  }

  lemma AskLimited(st: State, h: nat -> nat, now: nat)
    requires Limited(st, h) && Wired(st, h) && st.acceptor.Checked?
    ensures Limited(Asked(st, h, now), h)
  {
    IpRuns.AdmitInv(st.limiter, h, st.acceptor.ip, now);
    SpecCheckAdds(st.limiter.live, h, st.limiter.table.limit, st.acceptor.ip);
  }

  lemma AskDebts(st: State, st': State, ip: Address)
    requires Debts(st) && st.acceptor == Checked(ip) && st'.tasks == st.tasks
    requires st'.acceptor == Admitted(ip) || st'.acceptor == Polling
    requires st'.limiter.live == if st'.acceptor.Admitted?
                                 then st.limiter.live[ip := Get(st.limiter.live, ip) + 1] else st.limiter.live
    requires st'.ledger == if st'.acceptor.Admitted?
                           then st.ledger.(admitted := st.ledger.admitted + multiset{ip}) else st.ledger
    ensures Debts(st')
  {
    if st'.acceptor.Admitted? {
      ChargeOne(st, st', ip);
    }
  }

  lemma TidyInv(st: State, h: nat -> nat, op: IpRuns.Op)
    requires Limited(st, h) && Wired(st, h) && Debts(st) && CanAccept(st, Tidy(op))
    ensures var st' := Accepted(st, h, Tidy(op)); Limited(st', h) && Debts(st')
  {
    IpRuns.NextInv(st.limiter, h, op);
  }

  lemma ReturnInv(st: State, h: nat -> nat)
    requires Limited(st, h) && Wired(st, h) && Debts(st) && (st.acceptor.Admitted? || st.acceptor.Refused?)
    ensures var st' := Repay(st.(acceptor := Polling), h, st.acceptor.ip); Limited(st', h) && Debts(st')
  {
    var mid := st.(acceptor := Polling);
    assert Charged(st) == Charged(mid) + multiset{st.acceptor.ip};
    RepayInv(mid, h, st.acceptor.ip);
  }

  lemma PayInv(st: State, h: nat -> nat, ip: nat)
    requires Limited(st, h) && Wired(st, h) && Debts(st) && ip in st.tasks.serving
    ensures var st' := Repay(Served(st, ip), h, ip); Limited(st', h) && Debts(st')
  {
    var mid := Served(st, ip);
    assert st.tasks.serving == mid.tasks.serving + multiset{ip};
    assert Charged(st) == Charged(mid) + multiset{ip};
    RepayInv(mid, h, ip);
  }

  /** Queueing moves an admission from the acceptor into the queue, also when
      the queue drops others: those stay charged. */
  lemma QueuedCharges(st: State, memory: nat -> TQ.Task)
    requires Shape(st.tasks.jobs) && st.acceptor.Counted?
    ensures Charged(Queued(st, memory)) == Charged(st)
    ensures |InQueue(Queued(st, memory).tasks.jobs)| == |InQueue(st.tasks.jobs)| + 1
  {
    EnqueueAccounts(st.tasks.jobs, st.acceptor.ip, memory);
    var q, q' := st.tasks.jobs, Queued(st, memory).tasks.jobs;
    assert InQueue(q') == InQueue(q) + multiset{st.acceptor.ip};
  }

  lemma TakenCharges(st: State)
    requires Shape(st.tasks.jobs) && Ready(st.tasks.jobs)
    ensures Charged(Taken(st)) == Charged(st)
    ensures |InQueue(Taken(st).tasks.jobs)| + 1 == |InQueue(st.tasks.jobs)|
  {
    DequeueAccounts(st.tasks.jobs);
    var q, q', ip := st.tasks.jobs, Dequeue(st.tasks.jobs), First(st.tasks.jobs);
    assert InQueue(q) == InQueue(q') + multiset{ip};
    assert InQueue(q') + (st.tasks.serving + multiset{ip}) == InQueue(q) + st.tasks.serving;
  }

  lemma SameDebts(st: State, st': State, h: nat -> nat)
    requires Limited(st, h) && Debts(st)
    requires st'.limiter == st.limiter && Charged(st') == Charged(st)
    requires st'.ledger.admitted == st.ledger.admitted && st'.ledger.repaid == st.ledger.repaid
    ensures Limited(st', h) && Debts(st')
  {
  }

  /** A step of the acceptor that touches neither the limiter nor the queue. */
  lemma PlainAccept(st: State, h: nat -> nat, a: AcceptStep)
    requires Wired(st, h) && CanAccept(st, a) && (a.SeeConnection? || a.CountIn? || (a.AddTask? && !a.ok))
    ensures var st' := Accepted(st, h, a);
            && st'.limiter == st.limiter && st'.tasks == st.tasks && Held(st'.acceptor) == Held(st.acceptor)
            && st'.ledger.admitted == st.ledger.admitted && st'.ledger.repaid == st.ledger.repaid
  {
  }

  lemma QueuedDebts(st: State, h: nat -> nat, memory: nat -> TQ.Task)
    requires Limited(st, h) && Wired(st, h) && Debts(st) && st.acceptor.Counted?
    ensures Limited(Queued(st, memory), h) && Debts(Queued(st, memory))
  {
    QueuedCharges(st, memory);
    SameDebts(st, Queued(st, memory), h);
  }

  lemma AskInv(st: State, h: nat -> nat, now: nat)
    requires Limited(st, h) && Wired(st, h) && Debts(st) && st.acceptor.Checked?
    ensures Limited(Asked(st, h, now), h) && Debts(Asked(st, h, now))
  {
    AskLimited(st, h, now);
    AskedEffect(st, h, now);
    AskDebts(st, Asked(st, h, now), st.acceptor.ip);
  }

  lemma AcceptDebts(st: State, h: nat -> nat, a: AcceptStep)
    requires Limited(st, h) && Wired(st, h) && Debts(st) && CanAccept(st, a)
    ensures Limited(Accepted(st, h, a), h) && Debts(Accepted(st, h, a))
  {
    match a
    case Ask(now) => AskInv(st, h, now);
    case Tidy(op) => TidyInv(st, h, op);
    case GiveUp => ReturnInv(st, h);
    case Refund => ReturnInv(st, h);
    case AddTask(ok, memory) =>
      if ok {
        QueuedDebts(st, h, memory);
      } else {
        PlainAccept(st, h, a);
        SameDebts(st, Accepted(st, h, a), h);
      }
    case _ =>
      PlainAccept(st, h, a);
      SameDebts(st, Accepted(st, h, a), h);
  }

  lemma WorkDebts(st: State, h: nat -> nat, w: WorkStep)
    requires Limited(st, h) && Wired(st, h) && Debts(st) && CanWork(st, w)
    ensures Limited(Worked(st, h, w), h) && Debts(Worked(st, h, w))
  {
    match w
    case Take =>
      TakenCharges(st);
      SameDebts(st, Taken(st), h);
    case Pay(who) => PayInv(st, h, who);
    case Finish => SameDebts(st, Worked(st, h, w), h);
  }

  lemma ShutHolds(st: State, s: ShutStep)
    requires CanShut(st, s)
    ensures Held(ShutNext(st, s).acceptor) == Held(st.acceptor)
    ensures ShutNext(st, s).acceptor.Counted? <==> st.acceptor.Counted?
    ensures ShutNext(st, s).ctx.inFlight == st.ctx.inFlight
  {
  }

  lemma DebtsNext(st: State, h: nat -> nat, step: Step)
    requires Limited(st, h) && Wired(st, h) && Debts(st) && Enabled(st, step)
    ensures Limited(Next(st, h, step), h) && Debts(Next(st, h, step))
  {
    match step
    case Accept(a) => AcceptDebts(st, h, a);
    case Work(w) => WorkDebts(st, h, w);
    case Shut(s) =>
      ShutHolds(st, s);
      SameDebts(st, ShutNext(st, s), h);
  }

  // ----- requests in flight and the shutdown phases --------------------------

  /** A check moves the acceptor and leaves the rest of the server alone. */
  lemma AskedFrame(st: State, h: nat -> nat, now: nat)
    requires Wired(st, h) && st.acceptor.Checked?
    ensures var st' := Asked(st, h, now);
            && st'.ctx == st.ctx && st'.tasks == st.tasks && (st'.acceptor.Admitted? || st'.acceptor.Polling?)
            && st'.ledger.late == st.ledger.late && st'.ledger.finished == st.ledger.finished
  {
  }

  lemma AcceptCounts(st: State, h: nat -> nat, a: AcceptStep)
    requires Wired(st, h) && Counts(st) && CanAccept(st, a)
    ensures Counts(Accepted(st, h, a))
  {
    match a
    case Ask(now) => AskedFrame(st, h, now);
    case AddTask(ok, memory) => if ok { QueuedCharges(st, memory); }
    case _ =>
  }

  lemma WorkCounts(st: State, h: nat -> nat, w: WorkStep)
    requires Wired(st, h) && Counts(st) && CanWork(st, w)
    ensures Counts(Worked(st, h, w))
  {
    if w.Take? { TakenCharges(st); }
  }

  lemma CountsNext(st: State, h: nat -> nat, step: Step)
    requires Wired(st, h) && Counts(st) && Enabled(st, step)
    ensures Counts(Next(st, h, step))
  {
    match step
    case Accept(a) => AcceptCounts(st, h, a);
    case Work(w) => WorkCounts(st, h, w);
    case Shut(s) => ShutHolds(st, s);
  }

  lemma AcceptLateness(st: State, h: nat -> nat, a: AcceptStep)
    requires Wired(st, h) && Counts(st) && Lateness(st) && CanAccept(st, a)
    ensures Lateness(Accepted(st, h, a))
  {
    match a
    case Ask(now) => AskedFrame(st, h, now);
    case _ =>
  }

  lemma WorkLateness(st: State, h: nat -> nat, w: WorkStep)
    requires Wired(st, h) && Counts(st) && Lateness(st) && CanWork(st, w)
    ensures Lateness(Worked(st, h, w))
  {
  }

  lemma ShutLateness(a: Acceptor, ctx: Context, late: nat, finished: nat, s: ShutStep)
    requires LateOk(a, ctx, late, finished) && ctx.inFlight >= 0
    requires s.LeaveLoop? ==> a == Polling
    requires s.BeginShutdown? ==> a == Leaving
    requires s.DrainCheck? ==> a == DrainLoop
    requires s.DrainClock? ==> a == DrainBusy
    requires s.Measure? ==> a == Measuring
    ensures var (a', ctx') := Shutting(a, ctx, s); LateOk(a', ctx', late, finished)
  {
  }

  lemma LatenessNext(st: State, h: nat -> nat, step: Step)
    requires Wired(st, h) && Counts(st) && Lateness(st) && Enabled(st, step)
    ensures Lateness(Next(st, h, step))
  {
    match step
    case Accept(a) => AcceptLateness(st, h, a);
    case Work(w) => WorkLateness(st, h, w);
    case Shut(s) => ShutLateness(st.acceptor, st.ctx, st.ledger.late, st.ledger.finished, s);
  }

  // ----- what the queue has dropped ------------------------------------------

  /** A push that meets a full queue with its front at zero. */
  predicate Drops(st: State, step: Step) {
    step.Accept? && step.a.AddTask? && step.a.ok && TQ.GrowsAtZero(st.tasks.jobs.ring)
  }

  lemma QueuedDrops(st: State, memory: nat -> TQ.Task)
    requires QueueOk(st.tasks.jobs) && st.acceptor.Counted?
    ensures var q, q' := st.tasks.jobs, Queued(st, memory).tasks.jobs;
            && QueueOk(q') && q.lost <= q'.lost
            && (q.lost == multiset{} ==> (q'.lost == multiset{} <==> !TQ.GrowsAtZero(q.ring)))
  {
    var q := st.tasks.jobs;
    EnqueueAccounts(q, st.acceptor.ip, memory);
    if q.lost == multiset{} {
      EnqueueIntactIff(q, st.acceptor.ip, memory);
    }
  }

  lemma OthersKeepQueue(st: State, h: nat -> nat, a: AcceptStep)
    requires Wired(st, h) && CanAccept(st, a) && !(a.AddTask? && a.ok)
    ensures Accepted(st, h, a).tasks == st.tasks
  {
  }

  /** Nothing once dropped comes back; a step drops something if and only if it
      grows the queue with its front at zero. */
  lemma QueueNext(st: State, h: nat -> nat, step: Step)
    requires Wired(st, h) && QueueOk(st.tasks.jobs) && Enabled(st, step)
    ensures var q, q' := st.tasks.jobs, Next(st, h, step).tasks.jobs;
            && QueueOk(q') && q.lost <= q'.lost
            && (q.lost == multiset{} ==> (q'.lost == multiset{} <==> !Drops(st, step)))
  {
    match step
    case Accept(AddTask(ok, memory)) => if ok { QueuedDrops(st, memory); }
    case Accept(a) => OthersKeepQueue(st, h, a);
    case Work(Take) => if Intact(st.tasks.jobs) { DequeueIntact(st.tasks.jobs); }
    case _ =>
  }

  lemma NextInv(st: State, h: nat -> nat, step: Step)
    requires Inv(st, h) && Enabled(st, step)
    ensures Inv(Next(st, h, step), h)
  {
    DebtsNext(st, h, step);
    CountsNext(st, h, step);
    LatenessNext(st, h, step);
    QueueNext(st, h, step);
  }
}
