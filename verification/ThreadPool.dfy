/** The worker threads of the pool: which slots they own, and when they sleep.
    Every critical section of the pool's mutex is one step; a run is any
    interleaving of callers, workers, time-outs and spurious wake-ups. */
module ThreadPool {
  import opened Counting
  import opened Options
  import TQ = TaskQueue

  // ----- slot bookkeeping ----------------------------------------------------

  /** The pool's counters and its stack of reusable thread slots. */
  datatype Books = Books(min: nat, max: nat, num: nat, created: nat, free: seq<nat>)

  /** Both guards refuse silently when they do not hold. */
  function MarkExit(b: Books, index: nat): Books {
    b.(free := if |b.free| < b.max then b.free + [index] else b.free,
       num := if b.num > 0 then b.num - 1 else b.num)
  }

  /** The slot for a new thread, or `max` when none is left. */
  function Reserve(b: Books): (Books, nat) {
    if b.free != [] then (b.(free := b.free[..|b.free| - 1]), b.free[|b.free| - 1])
    else if b.created >= b.max then (b, b.max)
    else (b.(created := b.created + 1), b.created)
  }

  /** What a push does about another worker. */
  datatype Hired = NotNeeded | NoSlot | Started(slot: nat) | Failed(slot: nat)

  /** More tasks than workers: one more thread if a slot is left. The slot of a
      thread that fails to start is not given back. */
  function Hire(b: Books, queued: nat, ok: bool): (Books, Hired) {
    if queued > b.num && b.num < b.max then
      var (r, index) := Reserve(b);
      if index >= b.max then (r, NoSlot)
      else if ok then (r.(num := r.num + 1), Started(index))
      else (r, Failed(index))
    else (b, NotNeeded)
  }

  /** What a worker does next, with the lock held. */
  datatype Turn = Sleep | Leave | Work

  function TurnOf(queued: nat, shutdown: bool): Turn {
    if queued == 0 && !shutdown then Sleep else if shutdown then Leave else Work
  }

  /** The same when it comes out of the timed wait: an idle worker above the
      minimum leaves. */
  function WokenTurn(b: Books, queued: nat, shutdown: bool, timedOut: bool): Turn {
    if timedOut && queued == 0 && b.num > b.min then Leave else TurnOf(queued, shutdown)
  }

  class SlotTable {
    const minThreads: nat
    const maxThreads: nat
    var numThreads: nat
    var threadsCreated: nat
    const freeIndices: array<nat>
    var freeCount: nat

    ghost predicate Valid()
      reads this
    {
      freeIndices.Length == maxThreads && freeCount <= maxThreads
    }

    ghost function Abs(): Books
      requires Valid()
      reads this, freeIndices
    {
      Books(minThreads, maxThreads, numThreads, threadsCreated, freeIndices[..freeCount])
    }

    /** The clamping of `thread_pool_create`, once all initial threads are up. */
    constructor (min: nat, max: nat)
      requires max > 0
      ensures Valid() && fresh(freeIndices) && Abs() == Clamped(min, max)
    {
      var m := if min == 0 then 1 else min;
      if m > max { m := max; }
      minThreads, maxThreads, numThreads, threadsCreated := m, max, m, m;
      freeIndices := new nat[max](_ => 0);
      freeCount := 0;
    }

    method MarkThreadExit(index: nat)
      requires Valid()
      modifies this, freeIndices
      ensures Valid() && Abs() == MarkExit(old(Abs()), index)
    {
      if freeCount < maxThreads {
        freeIndices[freeCount] := index;
        freeCount := freeCount + 1;
      }
      if numThreads > 0 {
        numThreads := numThreads - 1;
      }
    }

    /** The slot choice inside `thread_pool_add_task`. */
    method ReserveSlot() returns (index: nat)
      requires Valid()
      modifies this
      ensures Valid() && (Abs(), index) == Reserve(old(Abs()))
    {
      if freeCount > 0 {
        ghost var free := freeIndices[..freeCount];
        freeCount := freeCount - 1;
        index := freeIndices[freeCount];
        assert freeIndices[..freeCount] == free[..|free| - 1];
      } else if threadsCreated >= maxThreads {
        index := maxThreads;
      } else {
        index := threadsCreated;
        threadsCreated := threadsCreated + 1;
      }
    }
  }

  function Clamped(min: nat, max: nat): (b: Books)
    requires max > 0
    ensures 1 <= b.min <= b.max == max && b.num == b.created == b.min && b.free == []
    ensures (min == 0 ==> b.min == 1) && (1 <= min <= max ==> b.min == min) && (min >= max ==> b.min == max)
  {
    var m := if min == 0 then 1 else if min > max then max else min;
    Books(m, max, m, m, [])
  }

  /** What the pool's mutex protects. */
  class SharedPool {
    const table: SlotTable
    const queue: TQ.Queue
    var shutdown: bool

    ghost predicate Valid()
      reads this, table, queue, queue.tasks
    {
      table.Valid() && TQ.Valid(queue.Abs())
    }

    constructor (min: nat, max: nat, block: array<TQ.Task>)
      requires max > 0 && block.Length == TQ.INITIAL_CAPACITY
      ensures Valid() && !shutdown && fresh(table) && fresh(table.freeIndices) && fresh(queue)
      ensures table.Abs() == Clamped(min, max) && queue.tasks == block && queue.count == 0
    {
      table := new SlotTable(min, max);
      queue := new TQ.Queue(block);
      shutdown := false;
    }

    /** `thread_pool_add_task`: refused after shutdown or when the queue cannot
        grow, and then without effect. */
    method AddTask(task: TQ.Task, block: array<TQ.Task>, mallocOk: bool, spawnOk: bool)
      returns (ok: bool, hired: Hired)
      requires Valid() && block.Length == 2 * queue.tasks.Length && block != queue.tasks
      modifies queue, queue.tasks, block, table
      ensures Valid()
      ensures ok <==> !shutdown && (old(queue.count) < old(queue.tasks.Length) || mallocOk)
      ensures queue.Abs() == if ok then TQ.Push(old(queue.Abs()), task, old(block[..])) else old(queue.Abs())
      ensures (table.Abs(), hired) == if ok then Hire(old(table.Abs()), old(queue.count) + 1, spawnOk)
                                      else (old(table.Abs()), NotNeeded)
    {
      hired := NotNeeded;
      if shutdown { return false, NotNeeded; }
      ok := queue.TaskQueuePush(task, block, mallocOk);
      if !ok { return; }
      if queue.count > table.numThreads && table.numThreads < table.maxThreads {
        var index := table.ReserveSlot();
        if index < table.maxThreads {
          if spawnOk {
            table.numThreads := table.numThreads + 1;
            hired := Started(index);
          } else {
            hired := Failed(index);
          }
        } else {
          hired := NoSlot;
        }
      }
    }

    /** `worker_thread` from where it has the lock to where it sleeps, leaves or
        runs a task; `timedOut` when it comes out of the wait by time. */
    method TakeTurn(index: nat, timedOut: bool) returns (turn: Turn, task: TQ.Task)
      requires Valid()
      modifies queue, table, table.freeIndices
      ensures Valid() && queue.tasks == old(queue.tasks)
      ensures turn == WokenTurn(old(table.Abs()), old(queue.count), shutdown, timedOut)
      ensures turn == Work ==> task == TQ.Contents(old(queue.Abs()))[0] && queue.Abs() == TQ.Pop(old(queue.Abs()))
      ensures turn != Work ==> queue.Abs() == old(queue.Abs())
      ensures table.Abs() == if turn == Leave then MarkExit(old(table.Abs()), index) else old(table.Abs())
    {
      task := TQ.Task(0, 0);
      if timedOut && queue.count == 0 {
        if table.numThreads > table.minThreads {
          table.MarkThreadExit(index);
          return Leave, task;
        }
      }
      if queue.count == 0 && !shutdown { return Sleep, task; }
      if shutdown {
        table.MarkThreadExit(index);
        return Leave, task;
      }
      var got;
      task, got := queue.TaskQueuePop();
      turn := Work;
    }
  }

  /** `thread_pool_create`: no pool without room for a thread, without memory, or
      when an initial thread does not start. */
  method CreatePool(min: nat, max: nat, block: array<TQ.Task>, memoryOk: bool, starts: nat -> bool)
    returns (pool: Option<SharedPool>)
    requires block.Length == TQ.INITIAL_CAPACITY
    ensures pool.Some? <==> max > 0 && memoryOk && forall i :: 0 <= i < Clamped(min, max).min ==> starts(i)
    ensures pool.Some? ==>
              && fresh(pool.value) && pool.value.Valid() && !pool.value.shutdown
              && pool.value.table.Abs() == Clamped(min, max) && pool.value.queue.count == 0
  {
    if max == 0 || !memoryOk { return None; }
    var p := new SharedPool(min, max, block);
    var i := 0;
    while i < p.table.minThreads
      invariant 0 <= i <= p.table.minThreads && forall k :: 0 <= k < i ==> starts(k)
    {
      if !starts(i) { return None; }
      i := i + 1;
    }
    return Some(p);
  }

  // ----- the pool as a state machine -----------------------------------------

  /** Busy: running a task, or on the way to the lock. Asleep: in the timed
      wait. Awake: out of the wait set, on the way back to the lock. */
  datatype Phase = Busy | Asleep | Awake | Gone
  datatype Worker = Worker(slot: nat, phase: Phase)

  /** `lost` lists the slots taken by a thread that failed to start. */
  datatype Pool = Pool(books: Books, lost: seq<nat>, queued: nat, workers: seq<Worker>, shutdown: bool)

  predicate Live(w: Worker) { w.phase != Gone }
  predicate IsAwake(w: Worker) { w.phase == Awake }

  datatype Step =
    | AddTask(pushOk: bool, spawnOk: bool, woken: nat)
    | Lock(w: nat)
    | Wake(w: nat)
    | Resume(w: nat, timedOut: bool)
    | Destroy

  ghost predicate AnyAsleep(p: Pool) {
    exists i :: 0 <= i < |p.workers| && p.workers[i].phase == Asleep
  }

  predicate InPhase(p: Pool, w: nat, phase: Phase) {
    w < |p.workers| && p.workers[w].phase == phase
  }

  /** The signal of a push reaches some sleeping worker if there is one. */
  ghost predicate Enabled(p: Pool, step: Step) {
    match step
    case AddTask(_, _, woken) => AnyAsleep(p) ==> InPhase(p, woken, Asleep)
    case Lock(w) => InPhase(p, w, Busy)
    case Wake(w) => InPhase(p, w, Asleep)
    case Resume(w, _) => InPhase(p, w, Awake)
    case Destroy => !p.shutdown
  }

  function SetPhase(p: Pool, w: nat, phase: Phase): Pool
    requires w < |p.workers|
  {
    p.(workers := p.workers[w := p.workers[w].(phase := phase)])
  }

  function Spawn(p: Pool, ok: bool): Pool {
    var (b, hired) := Hire(p.books, p.queued, ok);
    match hired
    case Started(slot) => p.(books := b, workers := p.workers + [Worker(slot, Busy)])
    case Failed(slot) => p.(books := b, lost := p.lost + [slot])
    case _ => p.(books := b)
  }

  function Exit(p: Pool, w: nat): Pool
    requires w < |p.workers|
  {
    SetPhase(p.(books := MarkExit(p.books, p.workers[w].slot)), w, Gone)
  }

  /** A worker that has the lock takes its turn. */
  function Act(p: Pool, w: nat, turn: Turn): Pool
    requires w < |p.workers| && (turn == Work ==> p.queued > 0)
  {
    match turn
    case Sleep => SetPhase(p, w, Asleep)
    case Leave => Exit(p, w)
    case Work => SetPhase(p.(queued := p.queued - 1), w, Busy)
  }

  function Broadcast(ws: seq<Worker>): (r: seq<Worker>)
    ensures |r| == |ws|
    ensures forall i :: 0 <= i < |ws| ==>
              r[i] == if ws[i].phase == Asleep then ws[i].(phase := Awake) else ws[i]
  {
    seq(|ws|, i requires 0 <= i < |ws| => if ws[i].phase == Asleep then ws[i].(phase := Awake) else ws[i])
  }

  /** `thread_pool_add_task` once the push has succeeded. */
  ghost function Added(p: Pool, spawnOk: bool, woken: nat): Pool
    requires AnyAsleep(p) ==> InPhase(p, woken, Asleep)
  {
    var q := Spawn(p.(queued := p.queued + 1), spawnOk);
    if AnyAsleep(p) then SetPhase(q, woken, Awake) else q
  }

  ghost function Next(p: Pool, step: Step): Pool
    requires Enabled(p, step)
  {
    match step
    case AddTask(pushOk, spawnOk, woken) =>
      if p.shutdown || !pushOk then p else Added(p, spawnOk, woken)
    case Lock(w) => Act(p, w, TurnOf(p.queued, p.shutdown))
    case Wake(w) => SetPhase(p, w, Awake)
    case Resume(w, timedOut) => Act(p, w, WokenTurn(p.books, p.queued, p.shutdown, timedOut))
    case Destroy => p.(shutdown := true, workers := Broadcast(p.workers))
  }

  function Fresh(n: nat): (ws: seq<Worker>)
    ensures |ws| == n && forall i :: 0 <= i < n ==> ws[i] == Worker(i, Busy)
  {
    if n == 0 then [] else Fresh(n - 1) + [Worker(n - 1, Busy)]
  }

  function Create(min: nat, max: nat): Pool
    requires max > 0
  {
    var b := Clamped(min, max);
    Pool(b, [], 0, Fresh(b.num), false)
  }

  // ----- the invariant -------------------------------------------------------

  ghost predicate NoDup(s: seq<nat>) {
    forall i, j :: 0 <= i < j < |s| ==> s[i] != s[j]
  }

  ghost predicate Below(s: seq<nat>, n: nat) {
    forall i :: 0 <= i < |s| ==> s[i] < n
  }

  /** Live workers own distinct slots; free and lost slots are neither owned
      nor shared; every slot is below the number ever created. */
  ghost predicate SlotsOk(workers: seq<Worker>, free: seq<nat>, lost: seq<nat>, created: nat) {
    && (forall i, j :: 0 <= i < j < |workers| && Live(workers[i]) && Live(workers[j]) ==>
          workers[i].slot != workers[j].slot)
    && (forall i :: 0 <= i < |workers| && Live(workers[i]) ==>
          workers[i].slot < created && workers[i].slot !in free && workers[i].slot !in lost)
    && NoDup(free) && NoDup(lost)
    && Below(free, created) && Below(lost, created)
    && (forall x :: x in free ==> x !in lost)
  }

  ghost predicate PoolSlotsOk(p: Pool) {
    SlotsOk(p.workers, p.books.free, p.lost, p.books.created)
  }

  ghost predicate CountsOk(p: Pool) {
    && 1 <= p.books.min <= p.books.max
    && p.books.num == Count(p.workers, Live)
    && p.books.num + |p.books.free| + |p.lost| == p.books.created <= p.books.max
    && (!p.shutdown ==> p.books.min <= p.books.num)
  }

  /** While some worker sleeps, every queued task has its own awake worker on
      the way to the queue; after shutdown nobody sleeps. */
  ghost predicate WakeOk(p: Pool) {
    && (p.shutdown ==> !AnyAsleep(p))
    && (AnyAsleep(p) ==> p.queued <= Count(p.workers, IsAwake))
  }

  ghost predicate Inv(p: Pool) {
    && PoolSlotsOk(p)
    && CountsOk(p)
    && WakeOk(p)
  }

  lemma {:induction false} AllBusy(n: nat)
    ensures Count(Fresh(n), Live) == n && Count(Fresh(n), IsAwake) == 0
  {
    if n > 0 {
      AllBusy(n - 1);
      CountAppend(Fresh(n - 1), Worker(n - 1, Busy), Live);
      CountAppend(Fresh(n - 1), Worker(n - 1, Busy), IsAwake);
    }
  }

  lemma FreshInv(b: Books)
    requires 1 <= b.min == b.num == b.created <= b.max && b.free == []
    ensures Inv(Pool(b, [], 0, Fresh(b.num), false))
  {
    AllBusy(b.num);
  }

  lemma CreateInv(min: nat, max: nat)
    requires max > 0
    ensures Inv(Create(min, max))
  {
    FreshInv(Clamped(min, max));
  }

  lemma PhaseCounts(p: Pool, w: nat, phase: Phase)
    requires w < |p.workers|
    ensures var q := SetPhase(p, w, phase);
            && Count(q.workers, Live) + One(Live(p.workers[w])) == Count(p.workers, Live) + One(phase != Gone)
            && Count(q.workers, IsAwake) + One(IsAwake(p.workers[w])) == Count(p.workers, IsAwake) + One(phase == Awake)
  {
    CountUpdate(p.workers, w, p.workers[w].(phase := phase), Live);
    CountUpdate(p.workers, w, p.workers[w].(phase := phase), IsAwake);
  }

  ghost predicate Unowned(ws: seq<Worker>, free: seq<nat>, lost: seq<nat>, created: nat, x: nat) {
    && x < created && x !in free && x !in lost
    && (forall i :: 0 <= i < |ws| && Live(ws[i]) ==> ws[i].slot != x)
  }

  /** Reserving moves one slot from the free ones, or makes a new one. */
  lemma ReserveBooks(b: Books)
    requires b.created <= b.max && Below(b.free, b.created)
    ensures var (r, x) := Reserve(b);
            if x < b.max then
              && r == b.(free := r.free, created := r.created) && r.created <= r.max
              && |r.free| + b.created + 1 == |b.free| + r.created
            else r == b
  {
  }

  /** A reserved slot below the maximum is nobody's. */
  lemma ReserveSlots(ws: seq<Worker>, lost: seq<nat>, b: Books)
    requires SlotsOk(ws, b.free, lost, b.created) && b.created <= b.max
    ensures var (r, x) := Reserve(b);
            if x < b.max then SlotsOk(ws, r.free, lost, r.created) && Unowned(ws, r.free, lost, r.created, x)
            else r == b
  {
    if b.free != [] {
      var (r, x) := Reserve(b);
      assert b.free == r.free + [x];
      assert forall i :: 0 <= i < |r.free| ==> r.free[i] == b.free[i];
      assert x in b.free;
    }
  }

  /** The slot of the worker that left last is the first to be used again. */
  lemma LastOutFirstIn(b: Books, index: nat)
    requires |b.free| < b.max
    ensures var (r, x) := Reserve(MarkExit(b, index));
            x == index && r == b.(num := if b.num > 0 then b.num - 1 else 0)
  {
  }

  lemma HireSlot(ws: seq<Worker>, free: seq<nat>, lost: seq<nat>, created: nat, x: nat)
    requires SlotsOk(ws, free, lost, created) && Unowned(ws, free, lost, created, x)
    ensures SlotsOk(ws + [Worker(x, Busy)], free, lost, created)
    ensures SlotsOk(ws, free, lost + [x], created)
  {
  }

  lemma ReleaseSlot(ws: seq<Worker>, free: seq<nat>, lost: seq<nat>, created: nat, w: nat)
    requires SlotsOk(ws, free, lost, created) && w < |ws| && Live(ws[w])
    ensures SlotsOk(ws[w := ws[w].(phase := Gone)], free + [ws[w].slot], lost, created)
  {
  }

  lemma KeepSlots(ws: seq<Worker>, ws': seq<Worker>, free: seq<nat>, lost: seq<nat>, created: nat)
    requires SlotsOk(ws, free, lost, created) && |ws'| == |ws|
    requires forall i :: 0 <= i < |ws| ==> ws'[i].slot == ws[i].slot && (Live(ws'[i]) ==> Live(ws[i]))
    ensures SlotsOk(ws', free, lost, created)
  {
  }

  lemma SpawnSlots(p: Pool, ok: bool)
    requires PoolSlotsOk(p) && p.books.created <= p.books.max
    ensures PoolSlotsOk(Spawn(p, ok))
  {
    var (b, hired) := Hire(p.books, p.queued, ok);
    ReserveSlots(p.workers, p.lost, p.books);
    if hired.Started? || hired.Failed? {
      HireSlot(p.workers, b.free, p.lost, b.created, hired.slot);
    }
  }

  /** A hire conserves slots: a new one is at work or lost. */
  lemma HireBooks(b: Books, queued: nat, ok: bool)
    requires b.created <= b.max && Below(b.free, b.created)
    ensures var (r, hired) := Hire(b, queued, ok);
            && r.min == b.min && r.max == b.max && r.created <= r.max
            && r.num == b.num + One(hired.Started?)
            && |r.free| + b.created + One(hired.Started? || hired.Failed?) == |b.free| + r.created
  {
    ReserveBooks(b);
  }

  lemma CountsAfter(p: Pool, q: Pool, started: bool, failed: bool)
    requires CountsOk(p) && q.shutdown == p.shutdown && !(started && failed)
    requires q.books.min == p.books.min && q.books.max == p.books.max && q.books.created <= q.books.max
    requires q.books.num == p.books.num + One(started) == Count(q.workers, Live)
    requires |q.books.free| + p.books.created + One(started || failed) == |p.books.free| + q.books.created
    requires |q.lost| == |p.lost| + One(failed)
    ensures CountsOk(q)
  {
  }

  lemma SpawnCounts(p: Pool, ok: bool)
    requires Below(p.books.free, p.books.created) && CountsOk(p)
    ensures CountsOk(Spawn(p, ok))
  {
    var hired := Hire(p.books, p.queued, ok).1;
    HireBooks(p.books, p.queued, ok);
    if hired.Started? {
      CountAppend(p.workers, Worker(hired.slot, Busy), Live);
    }
    CountsAfter(p, Spawn(p, ok), hired.Started?, hired.Failed?);
  }

  /** A spawn adds at most one busy worker and leaves the others as they are. */
  lemma SpawnWorkers(p: Pool, ok: bool)
    ensures var q := Spawn(p, ok);
            && q.queued == p.queued && q.shutdown == p.shutdown
            && p.workers <= q.workers && |q.workers| <= |p.workers| + 1
            && Count(q.workers, IsAwake) == Count(p.workers, IsAwake)
            && (AnyAsleep(q) <==> AnyAsleep(p))
  {
    var q := Spawn(p, ok);
    if |q.workers| > |p.workers| {
      CountAppend(p.workers, q.workers[|p.workers|], IsAwake);
    }
    if AnyAsleep(p) {
      var i :| 0 <= i < |p.workers| && p.workers[i].phase == Asleep;
      assert q.workers[i].phase == Asleep;
    }
  }

  lemma ExitInv(p: Pool, w: nat)
    requires PoolSlotsOk(p) && CountsOk(p)
    requires w < |p.workers| && Live(p.workers[w])
    requires p.shutdown || p.books.num > p.books.min
    ensures var q := Exit(p, w);
            && PoolSlotsOk(q) && CountsOk(q)
            && (AnyAsleep(q) ==> AnyAsleep(p))
  {
    GuardsHold(p, w);
    ReleaseSlot(p.workers, p.books.free, p.lost, p.books.created, w);
    PhaseCounts(p.(books := MarkExit(p.books, p.workers[w].slot)), w, Gone);
  }

  /** A change of phase among the living moves no slot and no counter. */
  lemma RephaseInv(p: Pool, w: nat, phase: Phase)
    requires PoolSlotsOk(p) && CountsOk(p)
    requires w < |p.workers| && Live(p.workers[w]) && phase != Gone
    ensures var q := SetPhase(p, w, phase);
            && PoolSlotsOk(q) && CountsOk(q)
            && Count(q.workers, IsAwake) + One(IsAwake(p.workers[w])) == Count(p.workers, IsAwake) + One(phase == Awake)
            && (phase != Asleep && AnyAsleep(q) ==> AnyAsleep(p))
  {
    var q := SetPhase(p, w, phase);
    KeepSlots(p.workers, q.workers, p.books.free, p.lost, p.books.created);
    PhaseCounts(p, w, phase);
  }

  /** The guards of `mark_thread_exit` never refuse: a live worker leaves room
      on the free stack, and it is itself counted. */
  lemma GuardsHold(p: Pool, w: nat)
    requires CountsOk(p) && w < |p.workers| && Live(p.workers[w])
    ensures |p.books.free| < p.books.max && p.books.num > 0
  {
    CountMember(p.workers, w, Live);
  }

  lemma ActInv(p: Pool, w: nat, turn: Turn)
    requires Inv(p) && w < |p.workers| && (p.workers[w].phase == Busy || p.workers[w].phase == Awake)
    requires turn == TurnOf(p.queued, p.shutdown) || (turn == Leave && p.queued == 0 && p.books.num > p.books.min)
    ensures Inv(Act(p, w, turn))
  {
    match turn
    case Sleep => RephaseInv(p, w, Asleep);
    case Leave => ExitInv(p, w);
    case Work =>
      RephaseInv(p.(queued := p.queued - 1), w, Busy);
      assert AnyAsleep(p.(queued := p.queued - 1)) == AnyAsleep(p);
  }

  lemma {:induction false} BroadcastCounts(ws: seq<Worker>)
    ensures Count(Broadcast(ws), Live) == Count(ws, Live)
  {
    if ws != [] {
      var init := ws[..|ws| - 1];
      BroadcastCounts(init);
      assert Broadcast(ws)[..|ws| - 1] == Broadcast(init);
    }
  }

  lemma SignalInv(q: Pool, woken: nat)
    requires PoolSlotsOk(q) && CountsOk(q)
    requires !q.shutdown && q.queued <= Count(q.workers, IsAwake) + 1 && InPhase(q, woken, Asleep)
    ensures Inv(SetPhase(q, woken, Awake))
  {
    RephaseInv(q, woken, Awake);
  }

  lemma AddedInv(p: Pool, spawnOk: bool, woken: nat)
    requires Inv(p) && !p.shutdown && (AnyAsleep(p) ==> InPhase(p, woken, Asleep))
    ensures Inv(Added(p, spawnOk, woken))
  {
    var p1 := p.(queued := p.queued + 1);
    var q := Spawn(p1, spawnOk);
    SpawnSlots(p1, spawnOk);
    SpawnCounts(p1, spawnOk);
    SpawnWorkers(p1, spawnOk);
    if AnyAsleep(p) {
      SignalInv(q, woken);
    } else {
      assert !AnyAsleep(p1);
    }
  }

  lemma DestroyInv(p: Pool)
    requires Inv(p)
    ensures Inv(p.(shutdown := true, workers := Broadcast(p.workers)))
  {
    BroadcastCounts(p.workers);
    KeepSlots(p.workers, Broadcast(p.workers), p.books.free, p.lost, p.books.created);
  }

  lemma NextInv(p: Pool, step: Step)
    requires Inv(p) && Enabled(p, step)
    ensures Inv(Next(p, step))
  {
    match step
    case AddTask(pushOk, spawnOk, woken) =>
      if !p.shutdown && pushOk { AddedInv(p, spawnOk, woken); }
    case Lock(w) =>
      ActInv(p, w, TurnOf(p.queued, p.shutdown));
    case Wake(w) =>
      RephaseInv(p, w, Awake);
    case Resume(w, timedOut) =>
      ActInv(p, w, WokenTurn(p.books, p.queued, p.shutdown, timedOut));
    case Destroy =>
      DestroyInv(p);
  }

  // ----- runs ----------------------------------------------------------------

  ghost predicate Legal(p: Pool, steps: seq<Step>)
    decreases |steps|
  {
    steps == [] || (Enabled(p, steps[0]) && Legal(Next(p, steps[0]), steps[1..]))
  }

  ghost function Run(p: Pool, steps: seq<Step>): Pool
    requires Legal(p, steps)
    decreases |steps|
  {
    if steps == [] then p else Run(Next(p, steps[0]), steps[1..])
  }

  lemma {:induction false} RunInv(p: Pool, steps: seq<Step>)
    requires Inv(p) && Legal(p, steps)
    ensures Inv(Run(p, steps))
    decreases |steps|
  {
    if steps != [] {
      NextInv(p, steps[0]);
      RunInv(Next(p, steps[0]), steps[1..]);
    }
  }

  lemma Reach(min: nat, max: nat, steps: seq<Step>)
    requires max > 0 && Legal(Create(min, max), steps)
    ensures Inv(Run(Create(min, max), steps))
  {
    CreateInv(min, max);
    RunInv(Create(min, max), steps);
  }

  // ----- when threads come and go --------------------------------------------

  /** When adding a task starts a thread: there are more queued tasks than
      threads, and the threads and the slots lost to failed starts leave one slot. */
  predicate Overloaded(p: Pool) {
    p.queued + 1 > p.books.num && p.books.num + |p.lost| < p.books.max
  }

  lemma HireIff(b: Books, lost: nat, queued: nat, ok: bool)
    requires b.num + |b.free| + lost == b.created <= b.max && Below(b.free, b.created)
    ensures var (r, hired) := Hire(b, queued, ok);
            && (hired.Started? || hired.Failed? <==> queued > b.num && b.num + lost < b.max)
            && (hired.Started? ==> ok) && (hired.Failed? ==> !ok)
            && r.num == b.num + One(hired.Started?)
  {
  }

  lemma HiresFrom(p: Pool, spawnOk: bool, woken: nat)
    requires CountsOk(p) && Below(p.books.free, p.books.created)
    requires !p.shutdown && Enabled(p, AddTask(true, spawnOk, woken))
    ensures var q := Next(p, AddTask(true, spawnOk, woken));
            && q.queued == p.queued + 1
            && q.books.num == p.books.num + One(Overloaded(p) && spawnOk)
            && |q.lost| == |p.lost| + One(Overloaded(p) && !spawnOk)
  {
    HireIff(p.books, |p.lost|, p.queued + 1, spawnOk);
  }

  /** In every reachable state before shutdown, a task that is added starts a thread
      exactly when the pool is overloaded; if the thread fails to start, its slot is
      lost. */
  lemma HiresIff(min: nat, max: nat, steps: seq<Step>, spawnOk: bool, woken: nat)
    requires max > 0 && Legal(Create(min, max), steps)
    requires var p := Run(Create(min, max), steps); !p.shutdown && Enabled(p, AddTask(true, spawnOk, woken))
    ensures var p := Run(Create(min, max), steps);
            var q := Next(p, AddTask(true, spawnOk, woken));
            && q.queued == p.queued + 1
            && q.books.num == p.books.num + One(Overloaded(p) && spawnOk)
            && |q.lost| == |p.lost| + One(Overloaded(p) && !spawnOk)
  {
    Reach(min, max, steps);
    HiresFrom(Run(Create(min, max), steps), spawnOk, woken);
  }

  function Adds(n: nat): seq<Step> {
    if n == 0 then [] else [AddTask(true, true, 0)] + Adds(n - 1)
  }

  function Grown(min: nat, max: nat, n: nat): nat {
    if n <= min then min else if n <= max then n else max
  }

  lemma OneMore(p: Pool, step: Step, rest: seq<Step>)
    requires Enabled(p, step) && Legal(Next(p, step), rest)
    ensures Legal(p, [step] + rest) && Run(p, [step] + rest) == Run(Next(p, step), rest)
  {
    assert ([step] + rest)[1..] == rest;
  }

  /** All workers are busy and as many as the queue calls for. */
  ghost predicate Loaded(p: Pool) {
    && Inv(p) && !p.shutdown && !AnyAsleep(p) && p.lost == [] && p.books.min <= p.books.max
    && p.books.num == Grown(p.books.min, p.books.max, p.queued)
  }

  lemma AddedNoSleeper(p: Pool, spawnOk: bool)
    requires !AnyAsleep(p)
    ensures Added(p, spawnOk, 0) == Spawn(p.(queued := p.queued + 1), spawnOk) && !AnyAsleep(Added(p, spawnOk, 0))
  {
    SpawnWorkers(p.(queued := p.queued + 1), spawnOk);
    assert AnyAsleep(p.(queued := p.queued + 1)) == AnyAsleep(p);
  }

  lemma SpawnNumbers(p: Pool)
    requires p.books.num + |p.books.free| + |p.lost| == p.books.created <= p.books.max
    requires Below(p.books.free, p.books.created)
    ensures var q := Spawn(p, true);
            && q.books.num == p.books.num + One(p.queued > p.books.num && p.books.num + |p.lost| < p.books.max)
            && q.books.min == p.books.min && q.books.max == p.books.max && q.lost == p.lost && q.queued == p.queued
  {
    HireIff(p.books, |p.lost|, p.queued, true);
  }

  lemma LoadedNext(p: Pool)
    requires Loaded(p)
    ensures Enabled(p, AddTask(true, true, 0)) && Loaded(Next(p, AddTask(true, true, 0)))
    ensures var q := Next(p, AddTask(true, true, 0));
            q.queued == p.queued + 1 && q.books.min == p.books.min && q.books.max == p.books.max
  {
    NextInv(p, AddTask(true, true, 0));
    AddedNoSleeper(p, true);
    SpawnNumbers(p.(queued := p.queued + 1));
  }

  lemma {:induction false} LoadGrows(p: Pool, n: nat)
    requires Loaded(p)
    ensures Legal(p, Adds(n))
    ensures Run(p, Adds(n)).books.num == Grown(p.books.min, p.books.max, p.queued + n)
    decreases n
  {
    if n > 0 {
      LoadedNext(p);
      LoadGrows(Next(p, AddTask(true, true, 0)), n - 1);
      OneMore(p, AddTask(true, true, 0), Adds(n - 1));
    }
  }

  /** Under load the pool grows with its queue: after n tasks that nobody takes it
      has n threads, but never fewer than the minimum or more than the maximum. */
  lemma GrowsUnderLoad(min: nat, max: nat, n: nat)
    requires 1 <= min <= max
    ensures Legal(Create(min, max), Adds(n))
    ensures Run(Create(min, max), Adds(n)).books.num == if n <= min then min else if n <= max then n else max
  {
    CreateInv(min, max);
    LoadGrows(Create(min, max), n);
  }

  predicate IsTurn(step: Step, w: nat) {
    (step.Lock? || step.Resume?) && step.w == w
  }

  /** A worker comes out of the wait by time, finds nothing to do, and is spare. */
  predicate TimesOut(p: Pool, step: Step) {
    step.Resume? && step.timedOut && p.queued == 0 && p.books.num > p.books.min
  }

  /** A worker that acts leaves, works or sleeps, and nobody else moves. */
  lemma ActEffect(p: Pool, w: nat, turn: Turn)
    requires CountsOk(p) && w < |p.workers| && Live(p.workers[w]) && (turn == Work ==> p.queued > 0)
    ensures var q := Act(p, w, turn);
            && |q.workers| == |p.workers|
            && q.workers[w].phase == (match turn case Sleep => Asleep case Leave => Gone case Work => Busy)
            && q.queued == p.queued - One(turn == Work) && q.books.num == p.books.num - One(turn == Leave)
            && forall v :: 0 <= v < |p.workers| && v != w ==> q.workers[v] == p.workers[v]
  {
    GuardsHold(p, w);
  }

  /** No other step makes a worker leave. */
  lemma OthersStay(p: Pool, step: Step, w: nat)
    requires Enabled(p, step) && w < |p.workers| && Live(p.workers[w]) && !IsTurn(step, w)
    ensures w < |Next(p, step).workers| && Live(Next(p, step).workers[w])
  {
    if step.AddTask? && !p.shutdown && step.pushOk {
      SpawnWorkers(p.(queued := p.queued + 1), step.spawnOk);
    }
  }

  /** What a worker does at its turn, in every state of the pool: it leaves exactly
      after shutdown or when it times out as a spare one, it takes exactly one task
      when there is one before shutdown, and it sleeps otherwise; nobody else moves
      and no other step makes a worker leave. */
  lemma TurnIff(p: Pool, step: Step, w: nat)
    requires Inv(p) && Enabled(p, step) && w < |p.workers| && Live(p.workers[w])
    ensures var q := Next(p, step);
            && w < |q.workers|
            && (!Live(q.workers[w]) <==> IsTurn(step, w) && (p.shutdown || TimesOut(p, step)))
            && (!Live(q.workers[w]) ==> q.books.num == p.books.num - 1 && q.queued == p.queued)
            && (IsTurn(step, w) && !p.shutdown && p.queued > 0 ==>
                  q.workers[w].phase == Busy && q.queued == p.queued - 1 && q.books.num == p.books.num)
            && (IsTurn(step, w) && !p.shutdown && p.queued == 0 && !TimesOut(p, step) ==>
                  q.workers[w].phase == Asleep && q.queued == 0 && q.books.num == p.books.num)
            && (IsTurn(step, w) ==> forall v :: 0 <= v < |p.workers| && v != w ==> v < |q.workers| && q.workers[v] == p.workers[v])
  {
    match step
    case Lock(v) =>
      if v == w { ActEffect(p, w, TurnOf(p.queued, p.shutdown)); } else { OthersStay(p, step, w); }
    case Resume(v, timedOut) =>
      if v == w { ActEffect(p, w, WokenTurn(p.books, p.queued, p.shutdown, timedOut)); } else { OthersStay(p, step, w); }
    case _ => OthersStay(p, step, w);
  }

  function Rank(phase: Phase): nat {
    match phase case Busy => 3 case Asleep => 2 case Awake => 1 case Gone => 0
  }

  /** The steps that bring an idle worker to a time-out. */
  function IdleStep(p: Pool, w: nat): Step
    requires w < |p.workers| && Live(p.workers[w])
  {
    match p.workers[w].phase
    case Busy => Lock(w)
    case Asleep => Wake(w)
    case _ => Resume(w, true)
  }

  lemma IdleNext(p: Pool, w: nat)
    requires Inv(p) && !p.shutdown && p.queued == 0 && p.books.num > p.books.min
    requires w < |p.workers| && Live(p.workers[w])
    ensures var step := IdleStep(p, w);
            && Enabled(p, step)
            && var q := Next(p, step);
               && Inv(q) && !q.shutdown && q.queued == 0 && q.books.min == p.books.min && |q.workers| == |p.workers|
               && Rank(q.workers[w].phase) < Rank(p.workers[w].phase)
               && q.books.num == p.books.num - One(!Live(q.workers[w]))
  {
    NextInv(p, IdleStep(p, w));
    GuardsHold(p, w);
  }

  lemma {:induction false} ShrinksBy(p: Pool, w: nat) returns (steps: seq<Step>)
    requires Inv(p) && !p.shutdown && p.queued == 0 && p.books.num > p.books.min
    requires w < |p.workers| && Live(p.workers[w])
    ensures Legal(p, steps) && Run(p, steps).books.num == p.books.min
    decreases p.books.num, Rank(p.workers[w].phase)
  {
    IdleNext(p, w);
    var step := IdleStep(p, w);
    var q := Next(p, step);
    if Live(q.workers[w]) {
      steps := ShrinksBy(q, w);
    } else if q.books.num == q.books.min {
      steps := [];
    } else {
      var v := CountWitness(q.workers, Live);
      steps := ShrinksBy(q, v);
    }
    OneMore(p, step, steps);
    steps := [step] + steps;
  }

  /** An idle pool shrinks: from every reachable state before shutdown with an empty
      queue, time-outs alone bring the threads down to the minimum. */
  lemma ShrinksToMinimum(min: nat, max: nat, before: seq<Step>) returns (steps: seq<Step>)
    requires max > 0 && Legal(Create(min, max), before)
    requires var p := Run(Create(min, max), before); !p.shutdown && p.queued == 0
    ensures var p := Run(Create(min, max), before); Legal(p, steps) && Run(p, steps).books.num == p.books.min
  {
    Reach(min, max, before);
    var p := Run(Create(min, max), before);
    steps := [];
    if p.books.num > p.books.min {
      var w := CountWitness(p.workers, Live);
      steps := ShrinksBy(p, w);
    }
  }

  lemma {:induction false} EmptiesBy(p: Pool) returns (steps: seq<Step>)
    requires Inv(p) && p.shutdown
    ensures Legal(p, steps) && Run(p, steps).books.num == 0 && Run(p, steps).queued == p.queued
    decreases p.books.num
  {
    steps := [];
    if p.books.num > 0 {
      var w := CountWitness(p.workers, Live);
      var step := if p.workers[w].phase == Busy then Lock(w) else Resume(w, false);
      TurnIff(p, step, w);
      NextInv(p, step);
      steps := EmptiesBy(Next(p, step));
      OneMore(p, step, steps);
      steps := [step] + steps;
    }
  }

  /** After shutdown every worker can leave, whatever is still queued, and what is
      queued then stays undone. */
  lemma ShutdownEmpties(min: nat, max: nat, before: seq<Step>) returns (steps: seq<Step>)
    requires max > 0 && Legal(Create(min, max), before) && Run(Create(min, max), before).shutdown
    ensures var p := Run(Create(min, max), before);
            Legal(p, steps) && Run(p, steps).books.num == 0 && Run(p, steps).queued == p.queued
  {
    Reach(min, max, before);
    steps := EmptiesBy(Run(Create(min, max), before));
  }

  /** No lost wake-up: in every reachable state before shutdown with a queued
      task some live worker is not asleep; and if any worker sleeps there are
      as many awake workers heading for the queue as queued tasks. */
  lemma NoLostWakeup(min: nat, max: nat, steps: seq<Step>)
    requires max > 0 && Legal(Create(min, max), steps)
    ensures var p := Run(Create(min, max), steps);
            && (!p.shutdown && p.queued > 0 ==>
                  exists i :: 0 <= i < |p.workers| && Live(p.workers[i]) && p.workers[i].phase != Asleep)
            && (AnyAsleep(p) ==> p.queued <= Count(p.workers, IsAwake))
            && (p.shutdown ==> !AnyAsleep(p))
  {
    Reach(min, max, steps);
    var p := Run(Create(min, max), steps);
    if !p.shutdown && p.queued > 0 {
      var i: nat;
      if AnyAsleep(p) {
        i := CountWitness(p.workers, IsAwake);
      } else {
        i := CountWitness(p.workers, Live);
      }
      assert Live(p.workers[i]) && p.workers[i].phase != Asleep;
    }
  }

  /** Slot accounting in every reachable state: distinct owners disjoint from
      the free stack, the conservation law, the thread bounds, and a join range
      that covers every live worker. */
  lemma SlotAccounting(min: nat, max: nat, steps: seq<Step>)
    requires max > 0 && Legal(Create(min, max), steps)
    ensures var p := Run(Create(min, max), steps);
            && PoolSlotsOk(p)
            && p.books.num == Count(p.workers, Live)
            && p.books.num + |p.books.free| + |p.lost| == p.books.created <= p.books.max == max
            && (!p.shutdown ==> p.books.min <= p.books.num <= max)
            && (forall i :: 0 <= i < |p.workers| && Live(p.workers[i]) ==>
                  && p.workers[i].slot < p.books.created
                  && |p.books.free| < p.books.max && p.books.num > 0)
  {
    CreateInv(min, max);
    RunInv(Create(min, max), steps);
    SameMax(Create(min, max), steps);
    var p := Run(Create(min, max), steps);
    forall i | 0 <= i < |p.workers| && Live(p.workers[i])
      ensures |p.books.free| < p.books.max && p.books.num > 0
    {
      GuardsHold(p, i);
    }
  }

  lemma {:induction false} SameMax(p: Pool, steps: seq<Step>)
    requires Legal(p, steps)
    ensures Run(p, steps).books.max == p.books.max
    decreases |steps|
  {
    if steps != [] {
      SameMax(Next(p, steps[0]), steps[1..]);
    }
  }
}
