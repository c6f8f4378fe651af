/** The asynchronous log: producers write into a ring under a mutex, one
    consumer reads it without any lock. Entries are written and copied field by
    field, the producers' view of the tail may be out of date, and so may the
    consumer's view of the head. */
module LogRing {
  import opened Arithmetic

  datatype Message = Message(level: int, text: int)

  // ----- positions -----------------------------------------------------------

  function Slot(k: nat, size: nat): (i: nat)
    requires size > 0
    ensures i < size
  {
    k % size
  }

  /** Positions less than a full turn apart are different slots. */
  lemma SlotsDiffer(j: nat, k: nat, size: nat)
    requires size > 0 && j < k < j + size
    ensures Slot(j, size) != Slot(k, size)
  {
    var a, b := j / size, k / size;
    assert j == a * size + j % size;
    assert k == b * size + k % size;
    assert (b - a) * size == b * size - a * size;
    NoSmallMultiple(b - a, size);
  }

  /** The slots hold these messages from position `from` on. */
  ghost predicate Holds(slots: seq<Message>, from: nat, messages: seq<Message>) {
    && 0 < |slots|
    && forall i :: 0 <= i < |messages| ==> slots[Slot(from + i, |slots|)] == messages[i]
  }

  /** Writing the slot after fewer than a full turn of messages overwrites none. */
  lemma WriteNext(slots: seq<Message>, from: nat, messages: seq<Message>, m: Message)
    requires Holds(slots, from, messages) && |messages| < |slots|
    ensures Holds(slots[Slot(from + |messages|, |slots|) := m], from, messages)
    ensures Holds(slots[Slot(from + |messages|, |slots|) := m], from, messages + [m])
  {
    var next := slots[Slot(from + |messages|, |slots|) := m];
    forall i | 0 <= i < |messages|
      ensures next[Slot(from + i, |slots|)] == messages[i]
    {
      SlotsDiffer(from + i, from + |messages|, |slots|);
    }
  }

  lemma DropFirst(slots: seq<Message>, from: nat, messages: seq<Message>)
    requires Holds(slots, from, messages) && messages != []
    ensures slots[Slot(from, |slots|)] == messages[0]
    ensures Holds(slots, from + 1, messages[1..])
  {
    assert slots[Slot(from + 0, |slots|)] == messages[0];
    forall i | 0 <= i < |messages| - 1
      ensures slots[Slot(from + 1 + i, |slots|)] == messages[1..][i]
    {
      assert slots[Slot(from + (i + 1), |slots|)] == messages[i + 1];
    }
  }

  // ----- the code, one call at a time ----------------------------------------

  class LogBuffer {
    const buffer: array<Message>
    var head: nat
    var tail: nat
    var running: bool
    const minLevel: int
    /** Messages accepted and not yet consumed. */
    ghost var pending: seq<Message>

    ghost predicate Valid()
      reads this, buffer
    {
      && buffer.Length > 0
      && head == tail + |pending| && |pending| <= buffer.Length
      && Holds(buffer[..], tail, pending)
    }

    /** `log_init`: a size of zero or less means 1024. */
    constructor (size: int, minLevel: int)
      ensures Valid() && fresh(buffer) && pending == [] && running && this.minLevel == minLevel
      ensures buffer.Length == if size > 0 then size else 1024
    {
      buffer := new Message[if size > 0 then size else 1024](_ => Message(0, 0));
      head, tail, running, pending := 0, 0, true, [];
      this.minLevel := minLevel;
    }

    /** `log_message`, with the value its relaxed load of the tail returns. A
        message is accepted only if there is room; with an up-to-date tail,
        whenever there is room. */
    method LogMessage(m: Message, tailRead: nat) returns (accepted: bool)
      requires Valid() && tailRead <= tail
      modifies this, buffer
      ensures Valid() && tail == old(tail) && running == old(running)
      ensures accepted <==> running && m.level >= minLevel && old(head) - tailRead < buffer.Length
      ensures accepted ==> old(|pending|) < buffer.Length
      ensures pending == if accepted then old(pending) + [m] else old(pending)
    {
      if !running || m.level < minLevel { return false; }
      if head - tailRead >= buffer.Length { return false; }
      WriteNext(buffer[..], tail, pending, m);
      var slot := Slot(head, buffer.Length);
      ghost var was := buffer[..];
      buffer[slot] := m;
      assert buffer[..] == was[slot := m];
      head := head + 1;
      pending := pending + [m];
      return true;
    }

    /** One round of the consumer, with the value its load of the head returns:
        nothing if it sees an empty ring, else the oldest message. */
    method ConsumeOne(headRead: nat) returns (m: Message, got: bool)
      requires Valid() && tail <= headRead <= head
      modifies this
      ensures Valid() && head == old(head) && running == old(running)
      ensures got <==> headRead != old(tail)
      ensures got ==> old(pending) == [m] + pending
      ensures !got ==> pending == old(pending)
    {
      if tail == headRead {
        return Message(0, 0), false;
      }
      DropFirst(buffer[..], tail, pending);
      m := buffer[Slot(tail, buffer.Length)];
      got := true;
      tail := tail + 1;
      pending := pending[1..];
    }
  }

  // ----- interleaving --------------------------------------------------------

  /** The producer that holds the mutex. */
  datatype Writer = NoWriter | Locked(m: Message) | HalfWritten(m: Message) | Written(m: Message)

  datatype Reader = Top | Entered | SawWork | HalfRead(level: int) | Copied(m: Message) | Output | Exited

  /** `armed`: producers that have passed the running check and wait for the
      mutex. `accepted` and `delivered` record the run. */
  datatype State = State(
    slots: seq<Message>,
    head: nat,
    tail: nat,
    running: bool,
    armed: multiset<Message>,
    writer: Writer,
    reader: Reader,
    accepted: seq<Message>,
    delivered: seq<Message>)

  datatype Step =
    | Arm(m: Message)
    | TakeLock(m: Message)
    | CheckRoom(tailRead: nat)
    | WriteText
    | Publish
    | TestLoop
    | LoadHead(headRead: nat)
    | ReadLevel
    | ReadText
    | Emit
    | Advance
    | Stop

  predicate Enabled(st: State, step: Step) {
    |st.slots| > 0 &&
    match step
    case Arm(_) => st.running
    case TakeLock(m) => m in st.armed && st.writer.NoWriter?
    case CheckRoom(t) => st.writer.Locked? && t <= st.tail
    case WriteText => st.writer.HalfWritten?
    case Publish => st.writer.Written?
    case TestLoop => st.reader.Top?
    case LoadHead(h) => st.reader.Entered? && st.tail <= h <= st.head
    case ReadLevel => st.reader.SawWork?
    case ReadText => st.reader.HalfRead?
    case Emit => st.reader.Copied?
    case Advance => st.reader.Output?
    case Stop => true
  }

  function Next(st: State, step: Step): State
    requires Enabled(st, step)
  {
    var n := |st.slots|;
    match step
    case Arm(m) => st.(armed := st.armed + multiset{m})
    case TakeLock(m) => st.(armed := st.armed - multiset{m}, writer := Locked(m))
    case CheckRoom(t) =>
      var s := Slot(st.head, n);
      if st.head - t >= n then st.(writer := NoWriter)
      else st.(slots := st.slots[s := st.slots[s].(level := st.writer.m.level)], writer := HalfWritten(st.writer.m))
    case WriteText =>
      var s := Slot(st.head, n);
      st.(slots := st.slots[s := st.slots[s].(text := st.writer.m.text)], writer := Written(st.writer.m))
    case Publish =>
      st.(head := st.head + 1, accepted := st.accepted + [st.writer.m], writer := NoWriter)
    case TestLoop => st.(reader := if st.running || st.head != st.tail then Entered else Exited)
    case LoadHead(h) => st.(reader := if st.tail == h then Top else SawWork)
    case ReadLevel => st.(reader := HalfRead(st.slots[Slot(st.tail, n)].level))
    case ReadText => st.(reader := Copied(Message(st.reader.level, st.slots[Slot(st.tail, n)].text)))
    case Emit => st.(delivered := st.delivered + [st.reader.m], reader := Output)
    case Advance => st.(tail := st.tail + 1, reader := Top)
    case Stop => st.(running := false)
  }

  /** The unread part of what was accepted. */
  function Unread(st: State): seq<Message>
    requires st.tail <= |st.accepted|
  {
    st.accepted[st.tail..]
  }

  ghost predicate RingOk(st: State) {
    && st.tail <= st.head == |st.accepted|
    && st.head - st.tail <= |st.slots|
    && Holds(st.slots, st.tail, Unread(st))
  }

  /** A half-done write has room, and has filled its slot as far as it got. */
  ghost predicate WriterOk(st: State) {
    |st.slots| > 0 &&
    match st.writer
    case HalfWritten(m) => st.head - st.tail < |st.slots| && st.slots[Slot(st.head, |st.slots|)].level == m.level
    case Written(m) => st.head - st.tail < |st.slots| && st.slots[Slot(st.head, |st.slots|)] == m
    case _ => true
  }

  /** What the reader has copied is the oldest unread message. */
  ghost predicate ReaderOk(st: State) {
    st.tail <= st.head == |st.accepted| &&
    (st.reader.SawWork? || st.reader.HalfRead? || st.reader.Copied? || st.reader.Output? ==> st.tail < st.head) &&
    match st.reader
    case HalfRead(level) => level == st.accepted[st.tail].level
    case Copied(m) => m == st.accepted[st.tail]
    case _ => true
  }

  ghost predicate DeliveredOk(st: State) {
    && st.tail <= |st.accepted|
    && (st.reader.Output? ==> st.tail < |st.accepted|)
    && st.delivered == st.accepted[..if st.reader.Output? then st.tail + 1 else st.tail]
  }

  ghost predicate Inv(st: State) {
    RingOk(st) && WriterOk(st) && ReaderOk(st) && DeliveredOk(st) && (st.reader.Exited? ==> !st.running)
  }

  lemma WriteInv(st: State, step: Step)
    requires Inv(st) && Enabled(st, step) && (step.CheckRoom? || step.WriteText?)
    ensures Inv(Next(st, step))
  {
    var s := Slot(st.head, |st.slots|);
    if step.WriteText? || st.head - step.tailRead < |st.slots| {
      WriteNext(st.slots, st.tail, Unread(st), Next(st, step).slots[s]);
      assert st.tail + |Unread(st)| == st.head;
    }
  }

  /** A slot already written becomes the newest message. */
  lemma AlreadyWritten(slots: seq<Message>, from: nat, messages: seq<Message>, m: Message)
    requires Holds(slots, from, messages) && |messages| < |slots| && slots[Slot(from + |messages|, |slots|)] == m
    ensures Holds(slots, from, messages + [m])
  {
    assert slots[Slot(from + |messages|, |slots|) := m] == slots;
    WriteNext(slots, from, messages, m);
  }

  lemma PublishRing(st: State)
    requires RingOk(st) && WriterOk(st) && Enabled(st, Publish)
    ensures RingOk(Next(st, Publish))
  {
    assert st.tail + |Unread(st)| == st.head;
    AlreadyWritten(st.slots, st.tail, Unread(st), st.writer.m);
    assert Unread(Next(st, Publish)) == Unread(st) + [st.writer.m];
  }

  lemma PublishInv(st: State)
    requires Inv(st) && Enabled(st, Publish)
    ensures Inv(Next(st, Publish))
  {
    PublishRing(st);
  }

  lemma ReadInv(st: State, step: Step)
    requires Inv(st) && Enabled(st, step) && (step.ReadLevel? || step.ReadText? || step.Emit? || step.Advance?)
    ensures Inv(Next(st, step))
  {
    DropFirst(st.slots, st.tail, Unread(st));
    if step.Advance? {
      assert Unread(Next(st, step)) == Unread(st)[1..];
    }
  }

  lemma NextInv(st: State, step: Step)
    requires Inv(st) && Enabled(st, step)
    ensures Inv(Next(st, step))
  {
    match step
    case CheckRoom(_) => WriteInv(st, step);
    case WriteText => WriteInv(st, step);
    case Publish => PublishInv(st);
    case ReadLevel => ReadInv(st, step);
    case ReadText => ReadInv(st, step);
    case Emit => ReadInv(st, step);
    case Advance => ReadInv(st, step);
    case _ =>
  }

  // ----- runs ----------------------------------------------------------------

  predicate Legal(st: State, steps: seq<Step>)
    decreases |steps|
  {
    steps == [] || (Enabled(st, steps[0]) && Legal(Next(st, steps[0]), steps[1..]))
  }

  function Run(st: State, steps: seq<Step>): State
    requires Legal(st, steps)
    decreases |steps|
  {
    if steps == [] then st else Run(Next(st, steps[0]), steps[1..])
  }

  function Start(slots: seq<Message>): State {
    State(slots, 0, 0, true, multiset{}, NoWriter, Top, [], [])
  }

  lemma {:induction false} RunInv(st: State, steps: seq<Step>)
    requires Inv(st) && Legal(st, steps)
    ensures Inv(Run(st, steps)) && |Run(st, steps).slots| == |st.slots|
    decreases |steps|
  {
    if steps != [] {
      NextInv(st, steps[0]);
      RunInv(Next(st, steps[0]), steps[1..]);
    }
  }

  /** Ring safety in every interleaving: never more unread messages than slots,
      every unread message intact in its slot, and the delivered messages
      followed by the pending ones are the accepted ones in order. Between the
      output of a message and the advance of the tail the message counts as
      delivered. */
  lemma RingSafety(slots: seq<Message>, steps: seq<Step>)
    requires |slots| > 0 && Legal(Start(slots), steps)
    ensures var st := Run(Start(slots), steps);
            && 0 <= st.head - st.tail <= |slots|
            && st.tail <= |st.accepted| == st.head
            && Holds(st.slots, st.tail, Unread(st))
            && (!st.reader.Output? ==> st.delivered + Unread(st) == st.accepted)
            && (st.reader.Output? ==>
                  st.tail < |st.accepted| && st.delivered + st.accepted[st.tail + 1..] == st.accepted)
  {
    assert Inv(Start(slots));
    RunInv(Start(slots), steps);
  }

  /** In every reachable state a producer that has the mutex gives up if and only
      if the tail it read shows a full ring; with an up-to-date tail, if and only if
      every slot holds an unread message. Otherwise its next two steps publish. */
  lemma GivesUpIff(slots: seq<Message>, steps: seq<Step>, t: nat)
    requires |slots| > 0 && Legal(Start(slots), steps)
    requires Enabled(Run(Start(slots), steps), CheckRoom(t))
    ensures var st := Run(Start(slots), steps);
            var st' := Next(st, CheckRoom(t));
            && (st'.writer.NoWriter? <==> |st.accepted| - t >= |slots|)
            && (t == st.tail ==> (st'.writer.NoWriter? <==> |st.accepted| - st.tail == |slots|))
            && (!st'.writer.NoWriter? ==>
                  && Legal(st', [WriteText, Publish])
                  && Run(st', [WriteText, Publish]).accepted == st.accepted + [st.writer.m])
  {
    assert Inv(Start(slots));
    RunInv(Start(slots), steps);
    var st' := Next(Run(Start(slots), steps), CheckRoom(t));
    if !st'.writer.NoWriter? {
      OneMore(Next(st', WriteText), Publish, []);
      OneMore(st', WriteText, [Publish]);
      assert [Publish] + [] == [Publish] && [WriteText] + [Publish] == [WriteText, Publish];
    }
  }

  /** Stopped, with no producer past the running check. */
  predicate Quiet(st: State) {
    !st.running && st.armed == multiset{} && st.writer.NoWriter?
  }

  /** The consumer leaves only when everything published so far is delivered. */
  lemma ExitMeansDrained(st: State)
    requires Inv(st) && Enabled(st, TestLoop) && Next(st, TestLoop).reader.Exited?
    ensures st.delivered == st.accepted && !st.running
  {
  }

  lemma {:induction false} DrainedAtExit(st: State, steps: seq<Step>)
    requires Inv(st) && Quiet(st) && Legal(st, steps)
    requires st.reader.Exited? ==> st.delivered == st.accepted
    ensures Run(st, steps).reader.Exited? ==> Run(st, steps).delivered == Run(st, steps).accepted
    decreases |steps|
  {
    if steps != [] {
      NextInv(st, steps[0]);
      DrainedAtExit(Next(st, steps[0]), steps[1..]);
    }
  }

  lemma OneMore(st: State, step: Step, rest: seq<Step>)
    requires Enabled(st, step) && Legal(Next(st, step), rest)
    ensures Legal(st, [step] + rest) && Run(st, [step] + rest) == Run(Next(st, step), rest)
  {
    assert ([step] + rest)[1..] == rest;
  }

  lemma {:induction false} RunConcat(st: State, first: seq<Step>, second: seq<Step>)
    requires Legal(st, first) && Legal(Run(st, first), second)
    ensures Legal(st, first + second) && Run(st, first + second) == Run(Run(st, first), second)
    decreases |first|
  {
    if first == [] {
      assert first + second == second;
    } else {
      assert (first + second)[0] == first[0] && (first + second)[1..] == first[1..] + second;
      RunConcat(Next(st, first[0]), first[1..], second);
    }
  }

  /** The consumer's next step once logging has stopped, if left alone. */
  function ReaderStep(st: State): Step
    requires !st.reader.Exited?
  {
    match st.reader
    case Top => TestLoop
    case Entered => LoadHead(st.head)
    case SawWork => ReadLevel
    case HalfRead(_) => ReadText
    case Copied(_) => Emit
    case Output => Advance
  }

  function ReaderRank(st: State): nat {
    match st.reader
    case Top => if st.head == st.tail then 1 else 6
    case Entered => if st.head == st.tail then 2 else 5
    case SawWork => 4
    case HalfRead(_) => 3
    case Copied(_) => 2
    case Output => 1
    case Exited => 0
  }

  /** Left alone, the consumer of a stopped log delivers everything published
      and leaves. */
  lemma {:induction false} ReaderFinishes(st: State) returns (steps: seq<Step>)
    requires Inv(st) && !st.running
    ensures Legal(st, steps) && Inv(Run(st, steps)) && Run(st, steps).reader.Exited?
    ensures var st' := Run(st, steps);
            !st'.running && st'.accepted == st.accepted && st'.writer == st.writer && st'.armed == st.armed
    ensures !st.reader.Exited? ==> Run(st, steps).delivered == st.accepted
    decreases st.head - st.tail, ReaderRank(st)
  {
    if st.reader.Exited? {
      steps := [];
    } else {
      var step := ReaderStep(st);
      NextInv(st, step);
      if Next(st, step).reader.Exited? {
        steps := [];
      } else {
        steps := ReaderFinishes(Next(st, step));
      }
      OneMore(st, step, steps);
      steps := [step] + steps;
    }
  }

  /** A producer that holds the mutex can still publish. */
  lemma WriterPublishes(st: State) returns (steps: seq<Step>)
    requires Inv(st) && st.head == st.tail && !st.writer.NoWriter?
    ensures Legal(st, steps)
    ensures Run(st, steps).accepted == st.accepted + [st.writer.m]
    ensures Run(st, steps).delivered == st.delivered && Run(st, steps).reader == st.reader
  {
    steps := [];
    var cur := st;
    if cur.writer.Locked? {
      cur := Next(cur, CheckRoom(cur.tail));
      steps := [CheckRoom(st.tail)];
      OneMore(st, CheckRoom(st.tail), []);
    }
    if cur.writer.HalfWritten? {
      OneMore(cur, WriteText, []);
      RunConcat(st, steps, [WriteText]);
      steps := steps + [WriteText];
      cur := Next(cur, WriteText);
    }
    OneMore(cur, Publish, []);
    RunConcat(st, steps, [Publish]);
    steps := steps + [Publish];
  }

  /** If some producer is past the running check when logging stops, there is a
      way for its message to be accepted after the consumer has left. */
  lemma LateMessage(st: State) returns (steps: seq<Step>)
    requires Inv(st) && !st.running && !st.reader.Exited? && !Quiet(st)
    ensures Legal(st, steps) && Run(st, steps).reader.Exited?
    ensures Run(st, steps).delivered != Run(st, steps).accepted
  {
    steps := ReaderFinishes(st);
    var cur := Run(st, steps);
    assert cur.head == cur.tail;
    if cur.writer.NoWriter? {
      var m :| m in cur.armed;
      OneMore(cur, TakeLock(m), []);
      RunConcat(st, steps, [TakeLock(m)]);
      NextInv(cur, TakeLock(m));
      steps := steps + [TakeLock(m)];
      cur := Next(cur, TakeLock(m));
    }
    var rest := WriterPublishes(cur);
    RunConcat(st, steps, rest);
    steps := steps + rest;
  }

  /** Such a stop is reachable: a producer passes the running check, and logging
      stops. From there the message can be accepted and never delivered. */
  lemma StopCanLose(slots: seq<Message>, m: Message) returns (steps: seq<Step>)
    requires |slots| > 0
    ensures var before := [Arm(m), Stop];
            && Legal(Start(slots), before)
            && var st := Run(Start(slots), before);
               && !st.running && !st.reader.Exited? && !Quiet(st)
               && Legal(st, steps) && Run(st, steps).reader.Exited?
               && Run(st, steps).delivered != Run(st, steps).accepted
  {
    var s0 := Start(slots);
    var s1 := Next(s0, Arm(m));
    OneMore(s1, Stop, []);
    OneMore(s0, Arm(m), [Stop]);
    assert [Stop] + [] == [Stop] && [Arm(m)] + [Stop] == [Arm(m), Stop];
    assert Inv(s0);
    NextInv(s0, Arm(m));
    NextInv(s1, Stop);
    var st := Next(s1, Stop);
    assert m in st.armed;
    steps := LateMessage(st);
  }

  /** When a stop delivers everything: from any reachable state in which logging
      has stopped and the consumer is still there, every continuation in which
      the consumer leaves has delivered every accepted message, if and only if
      no producer was past the running check. */
  lemma StopDeliversIff(slots: seq<Message>, before: seq<Step>)
    requires |slots| > 0 && Legal(Start(slots), before)
    requires !Run(Start(slots), before).running && !Run(Start(slots), before).reader.Exited?
    ensures var st := Run(Start(slots), before);
            (forall steps :: Legal(st, steps) && Run(st, steps).reader.Exited? ==>
               Run(st, steps).delivered == Run(st, steps).accepted)
            <==> Quiet(st)
  {
    assert Inv(Start(slots));
    RunInv(Start(slots), before);
    var st := Run(Start(slots), before);
    if Quiet(st) {
      forall steps | Legal(st, steps) && Run(st, steps).reader.Exited?
        ensures Run(st, steps).delivered == Run(st, steps).accepted
      {
        DrainedAtExit(st, steps);
      }
    } else {
      var steps := LateMessage(st);
      assert Legal(st, steps) && Run(st, steps).reader.Exited?;
    }
  }
}
