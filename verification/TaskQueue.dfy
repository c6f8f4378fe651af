/** The thread pool's circular task queue, which doubles when full. The growth
    step copies the queued tasks only when the front index is not zero, so the
    queue is first-in first-out exactly as long as it never grows with the
    front at zero. */
module TaskQueue {
  import opened Arithmetic

  datatype Task = Task(function_: int, arg: int)

  /** The queue's fields; the capacity is the number of slots. */
  datatype Ring = Ring(slots: seq<Task>, front: nat, rear: nat, count: nat)

  const INITIAL_CAPACITY: nat := 256

  /** Reduction of an index below twice the capacity. */
  function Wrap(x: nat, n: nat): nat {
    if x < n then x else x - n
  }

  lemma WrapIsRemainder(x: nat, n: nat)
    requires x < 2 * n
    ensures x % n == Wrap(x, n)
  {
    RemainderIs(x, n, if x < n then 0 else 1, Wrap(x, n));
  }

  ghost predicate Valid(r: Ring) {
    r.front < |r.slots| && r.rear < |r.slots| && r.count <= |r.slots|
  }

  /** The write position is where a queue of `count` tasks ends. */
  ghost predicate Sound(r: Ring) {
    Valid(r) && r.rear == Wrap(r.front + r.count, |r.slots|)
  }

  function Contents(r: Ring): (c: seq<Task>)
    requires Valid(r)
    ensures |c| == r.count
    ensures forall i :: 0 <= i < |c| ==> c[i] == r.slots[Wrap(r.front + i, |r.slots|)]
  {
    seq(r.count, i requires 0 <= i < r.count => r.slots[Wrap(r.front + i, |r.slots|)])
  }

  /** Full, with the oldest task in slot 0: growth skips the copy. */
  predicate GrowsAtZero(r: Ring) {
    r.count == |r.slots| && r.front == 0
  }

  /** Growth into `block`, whose initial contents are whatever malloc returned. */
  function Grow(r: Ring, block: seq<Task>): Ring
    requires Valid(r) && |block| == 2 * |r.slots|
  {
    if r.count < |r.slots| then r
    else if r.front > 0 then Ring(Contents(r) + block[r.count..], 0, r.count, r.count)
    else Ring(block, r.front, r.rear, r.count)
  }

  function Push(r: Ring, task: Task, block: seq<Task>): (r': Ring)
    requires Valid(r) && |block| == 2 * |r.slots|
    ensures Valid(r')
  {
    var g := Grow(r, block);
    Ring(g.slots[g.rear := task], g.front, Wrap(g.rear + 1, |g.slots|), g.count + 1)
  }

  function Pop(r: Ring): (r': Ring)
    requires Valid(r) && r.count > 0
    ensures Valid(r')
  {
    r.(front := Wrap(r.front + 1, |r.slots|), count := r.count - 1)
  }

  // ----- the code ------------------------------------------------------------

  class Queue {
    var tasks: array<Task>
    var count: nat
    var front: nat
    var rear: nat

    ghost function Abs(): Ring
      reads this, tasks
    {
      Ring(tasks[..], front, rear, count)
    }

    constructor (block: array<Task>)
      requires block.Length == INITIAL_CAPACITY
      ensures tasks == block && Abs() == Ring(block[..], 0, 0, 0) && Sound(Abs())
    {
      tasks := block;
      count, front, rear := 0, 0, 0;
    }

    /** The copy loop of the growth step: unwraps the queue into `block`. */
    method CopyTo(block: array<Task>)
      requires Valid(Abs()) && block.Length == 2 * tasks.Length && block != tasks
      modifies block
      ensures block[..] == Contents(Abs()) + old(block[..])[count..]
    {
      ghost var mem := block[..];
      var i := 0;
      while i < count
        invariant 0 <= i <= count
        invariant forall k :: 0 <= k < i ==> block[k] == Contents(Abs())[k]
        invariant forall k :: i <= k < block.Length ==> block[k] == mem[k]
      {
        WrapIsRemainder(front + i, tasks.Length);
        block[i] := tasks[(front + i) % tasks.Length];
        i := i + 1;
      }
    }

    /** The growth step of `task_queue_push`; `block` is what malloc returns when
        `mallocOk`. */
    method MakeRoom(block: array<Task>, mallocOk: bool) returns (ok: bool)
      requires Valid(Abs()) && block.Length == 2 * tasks.Length && block != tasks
      modifies this, block
      ensures ok <==> old(count) < old(tasks.Length) || mallocOk
      ensures Abs() == if ok then Grow(old(Abs()), old(block[..])) else old(Abs())
      ensures tasks == if ok && old(count) == old(tasks.Length) then block else old(tasks)
    {
      if count < tasks.Length { return true; }
      if !mallocOk { return false; }
      if front > 0 {
        CopyTo(block);
        front := 0;
        rear := count;
      }
      tasks := block;
      return true;
    }

    /** `task_queue_push`. */
    method TaskQueuePush(task: Task, block: array<Task>, mallocOk: bool) returns (ok: bool)
      requires Valid(Abs()) && block.Length == 2 * tasks.Length && block != tasks
      modifies this, tasks, block
      ensures ok <==> old(count) < old(tasks.Length) || mallocOk
      ensures Abs() == if ok then Push(old(Abs()), task, old(block[..])) else old(Abs())
      ensures tasks == if ok && old(count) == old(tasks.Length) then block else old(tasks)
    {
      ok := MakeRoom(block, mallocOk);
      if !ok { return; }
      WrapIsRemainder(rear + 1, tasks.Length);
      tasks[rear] := task;
      rear := (rear + 1) % tasks.Length;
      count := count + 1;
    }

    /** `task_queue_pop`: no task when empty, else the one at the front. */
    method TaskQueuePop() returns (task: Task, got: bool)
      requires Valid(Abs())
      modifies this
      ensures got <==> old(count) > 0
      ensures got ==> task == Contents(old(Abs()))[0] && Abs() == Pop(old(Abs()))
      ensures !got ==> Abs() == old(Abs())
      ensures tasks == old(tasks)
    {
      if count == 0 {
        return Task(0, 0), false;
      }
      WrapIsRemainder(front + 1, tasks.Length);
      task := tasks[front];
      front := (front + 1) % tasks.Length;
      count := count - 1;
      got := true;
    }
  }

  // ----- one step ------------------------------------------------------------

  lemma PopFifo(r: Ring)
    requires Sound(r) && r.count > 0
    ensures Sound(Pop(r)) && Contents(r) == [Contents(r)[0]] + Contents(Pop(r))
  {
  }

  lemma PushNoGrow(r: Ring, task: Task)
    requires Sound(r) && r.count < |r.slots|
    ensures var r' := Ring(r.slots[r.rear := task], r.front, Wrap(r.rear + 1, |r.slots|), r.count + 1);
            Sound(r') && Contents(r') == Contents(r) + [task]
  {
  }

  /** A push keeps first-in first-out order unless it grows with the front at
      zero, including when it grows a buffer whose contents wrap around. */
  lemma PushFifo(r: Ring, task: Task, block: seq<Task>)
    requires Sound(r) && |block| == 2 * |r.slots| && !GrowsAtZero(r)
    ensures Sound(Push(r, task, block))
    ensures Contents(Push(r, task, block)) == Contents(r) + [task]
  {
    var g := Grow(r, block);
    assert Contents(g) == Contents(r);
    PushNoGrow(g, task);
  }

  /** A push that grows with the front at zero puts the new task first and
      drops every queued task: the rest is uninitialised memory. */
  lemma PushAtZero(r: Ring, task: Task, block: seq<Task>)
    requires Sound(r) && |block| == 2 * |r.slots| && GrowsAtZero(r)
    ensures Contents(Push(r, task, block)) == [task] + block[1..r.count + 1]
  {
    assert r.rear == 0;
  }

  /** The exact condition: a push appends for every possible new block if and
      only if it does not grow with the front at zero. */
  lemma PushAppendsIff(r: Ring, task: Task)
    requires Sound(r)
    ensures (forall block: seq<Task> :: |block| == 2 * |r.slots| ==>
               Contents(Push(r, task, block)) == Contents(r) + [task])
            <==> !GrowsAtZero(r)
  {
    if GrowsAtZero(r) {
      var right := (Contents(r) + [task])[1];
      var wrong := Task(right.function_, right.arg + 1);
      var block := seq(2 * |r.slots|, _ => wrong);
      PushAtZero(r, task, block);
      assert Contents(Push(r, task, block))[1] == wrong;
    } else {
      forall block: seq<Task> | |block| == 2 * |r.slots|
        ensures Contents(Push(r, task, block)) == Contents(r) + [task]
      {
        PushFifo(r, task, block);
      }
    }
  }

  // ----- runs ----------------------------------------------------------------

  /** A call; `memory` is what malloc's block holds if the call has to grow. */
  datatype Op = Put(task: Task, memory: nat -> Task) | Take

  /** A ring with what it has accepted and what it has handed out. */
  datatype History = History(ring: Ring, accepted: seq<Task>, dequeued: seq<Task>)

  function Next(h: History, op: Op): (h': History)
    requires Valid(h.ring)
    ensures Valid(h'.ring)
  {
    match op
    case Put(task, memory) =>
      History(Push(h.ring, task, seq(2 * |h.ring.slots|, memory)), h.accepted + [task], h.dequeued)
    case Take =>
      if h.ring.count == 0 then h
      else History(Pop(h.ring), h.accepted, h.dequeued + [Contents(h.ring)[0]])
  }

  function Run(h: History, ops: seq<Op>): (h': History)
    requires Valid(h.ring)
    ensures Valid(h'.ring)
    decreases |ops|
  {
    if ops == [] then h else Run(Next(h, ops[0]), ops[1..])
  }

  predicate NeverGrowsAtZero(h: History, ops: seq<Op>)
    requires Valid(h.ring)
    decreases |ops|
  {
    ops == [] ||
    (!(ops[0].Put? && GrowsAtZero(h.ring)) && NeverGrowsAtZero(Next(h, ops[0]), ops[1..]))
  }

  ghost predicate Fifo(h: History) {
    Sound(h.ring) && h.dequeued + Contents(h.ring) == h.accepted
  }

  function Start(slots: seq<Task>): History
    requires |slots| == INITIAL_CAPACITY
  {
    History(Ring(slots, 0, 0, 0), [], [])
  }

  lemma NextFifo(h: History, op: Op)
    requires Fifo(h) && !(op.Put? && GrowsAtZero(h.ring))
    ensures Fifo(Next(h, op))
  {
    match op
    case Put(task, memory) =>
      PushFifo(h.ring, task, seq(2 * |h.ring.slots|, memory));
    case Take =>
      if h.ring.count > 0 {
        PopFifo(h.ring);
        assert h.dequeued + Contents(h.ring)
            == (h.dequeued + [Contents(h.ring)[0]]) + Contents(Pop(h.ring));
      }
  }

  /** Over every run that never grows with the front at zero, what was handed
      out followed by what is queued is what was accepted, in order. */
  lemma {:induction false} RunFifo(h: History, ops: seq<Op>)
    requires Fifo(h) && NeverGrowsAtZero(h, ops)
    ensures Fifo(Run(h, ops))
    decreases |ops|
  {
    if ops != [] {
      NextFifo(h, ops[0]);
      RunFifo(Next(h, ops[0]), ops[1..]);
    }
  }

  /** And only over those: right after a growth at zero, order is lost for some
      block contents. */
  lemma GrowthAtZeroBreaks(h: History, task: Task)
    requires Fifo(h) && GrowsAtZero(h.ring)
    ensures exists memory :: !Fifo(Next(h, Put(task, memory)))
  {
    var right := (Contents(h.ring) + [task])[1];
    var fill := Task(right.function_, right.arg + 1);
    var memory := (i: nat) => fill;
    var h' := Next(h, Put(task, memory));
    PushAtZero(h.ring, task, seq(2 * |h.ring.slots|, memory));
    assert (h.dequeued + Contents(h'.ring))[|h.dequeued| + 1] == fill;
    assert h.accepted + [task] == h.dequeued + (Contents(h.ring) + [task]);
  }

  function Puts(tasks: seq<Task>, memory: nat -> Task): seq<Op> {
    seq(|tasks|, i requires 0 <= i < |tasks| => Put(tasks[i], memory))
  }

  lemma {:induction false} FillUp(h: History, tasks: seq<Task>, memory: nat -> Task)
    requires Fifo(h) && h.ring.front == 0 && h.ring.count + |tasks| <= |h.ring.slots|
    ensures var h' := Run(h, Puts(tasks, memory));
            && Fifo(h') && h'.ring.front == 0 && |h'.ring.slots| == |h.ring.slots|
            && h'.ring.count == h.ring.count + |tasks|
    decreases |tasks|
  {
    var ops := Puts(tasks, memory);
    if tasks != [] {
      NextFifo(h, ops[0]);
      assert ops[1..] == Puts(tasks[1..], memory);
      FillUp(Next(h, ops[0]), tasks[1..], memory);
    }
  }

  lemma NextAtZero(h: History, task: Task, memory: nat -> Task)
    requires Sound(h.ring) && GrowsAtZero(h.ring)
    ensures Contents(Next(h, Put(task, memory)).ring)
         == [task] + seq(2 * |h.ring.slots|, memory)[1..h.ring.count + 1]
  {
    PushAtZero(h.ring, task, seq(2 * |h.ring.slots|, memory));
  }

  lemma NothingTaken(h: History, tasks: seq<Task>)
    requires Fifo(h) && h.dequeued == [] && h.accepted == [] + tasks
    ensures Contents(h.ring) == tasks
  {
    assert h.dequeued + Contents(h.ring) == Contents(h.ring);
  }

  lemma FullUp(h: History, tasks: seq<Task>, memory: nat -> Task)
    requires Fifo(h) && h.ring.front == 0 && h.accepted == [] && h.dequeued == [] && |tasks| == |h.ring.slots|
    requires h.ring.count == 0
    ensures var full := Run(h, Puts(tasks, memory));
            && Sound(full.ring) && GrowsAtZero(full.ring) && Contents(full.ring) == tasks
            && |full.ring.slots| == full.ring.count == |tasks|
  {
    FillUp(h, tasks, memory);
    RunAccepts(h, tasks, memory);
    NothingTaken(Run(h, Puts(tasks, memory)), tasks);
  }

  lemma LossFrom(h: History, tasks: seq<Task>, last: Task, memory: nat -> Task)
    requires Fifo(h) && h.ring.front == 0 && h.accepted == [] && h.dequeued == [] && |tasks| == |h.ring.slots|
    requires h.ring.count == 0
    ensures var full := Run(h, Puts(tasks, memory));
            && GrowsAtZero(full.ring)
            && Contents(full.ring) == tasks
            && Contents(Next(full, Put(last, memory)).ring) == [last] + seq(2 * |tasks|, memory)[1..|tasks| + 1]
  {
    FullUp(h, tasks, memory);
    NextAtZero(Run(h, Puts(tasks, memory)), last, memory);
  }

  /** The exception is reached by 257 pushes with no pop: the next pop hands
      out the last task pushed, and none of the first 256 is queued any more. */
  lemma LossIsReachable(slots: seq<Task>, tasks: seq<Task>, last: Task, memory: nat -> Task)
    requires |slots| == |tasks| == 256
    ensures var full := Run(Start(slots), Puts(tasks, memory));
            && GrowsAtZero(full.ring)
            && Contents(full.ring) == tasks
            && Contents(Next(full, Put(last, memory)).ring) == [last] + seq(2 * |tasks|, memory)[1..|tasks| + 1]
  {
    LossFrom(Start(slots), tasks, last, memory);
  }

  lemma {:induction false} RunAccepts(h: History, tasks: seq<Task>, memory: nat -> Task)
    requires Valid(h.ring)
    ensures var h' := Run(h, Puts(tasks, memory));
            h'.accepted == h.accepted + tasks && h'.dequeued == h.dequeued
    decreases |tasks|
  {
    if tasks != [] {
      var ops := Puts(tasks, memory);
      assert ops[1..] == Puts(tasks[1..], memory);
      RunAccepts(Next(h, ops[0]), tasks[1..], memory);
    }
  }
}
