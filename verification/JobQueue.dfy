/** The pool's task queue as the server uses it: each task carries a client
    connection. Beside the ring runs an account of which slot holds which
    connection that is queued and not yet taken, and of the connections that a
    growth with the front at zero has dropped. */
module JobQueue {
  import opened Options
  import TQ = TaskQueue

  const CLIENT_TASK: int := 1

  function Job(ip: nat): TQ.Task {
    TQ.Task(CLIENT_TASK, ip)
  }

  /** `owner[i]` is the connection waiting in slot `i`, if any. */
  datatype Jobs = Jobs(ring: TQ.Ring, owner: seq<Option<nat>>, lost: multiset<nat>)

  function Single(o: Option<nat>): multiset<nat> {
    if o.Some? then multiset{o.value} else multiset{}
  }

  /** The addresses of the waiting connections. */
  function Addresses(owner: seq<Option<nat>>): multiset<nat> {
    if owner == [] then multiset{}
    else Addresses(owner[..|owner| - 1]) + Single(owner[|owner| - 1])
  }

  function Nobody(n: nat): (owner: seq<Option<nat>>)
    ensures |owner| == n && forall i :: 0 <= i < n ==> owner[i] == None
  {
    seq(n, _ => None)
  }

  ghost predicate Shape(q: Jobs) {
    TQ.Valid(q.ring) && |q.owner| == |q.ring.slots|
  }

  /** The account after the growth step: turned with the tasks when they are
      copied, empty when they are not. */
  function Moved(q: Jobs): (owner: seq<Option<nat>>)
    requires Shape(q)
    ensures |owner| == if q.ring.count < |q.owner| then |q.owner| else 2 * |q.owner|
  {
    var r := q.ring;
    if r.count < |r.slots| then q.owner
    else if r.front > 0 then q.owner[r.front..] + q.owner[..r.front] + Nobody(|q.owner|)
    else Nobody(2 * |q.owner|)
  }

  /** The growth step, if one is needed. */
  function Grown(q: Jobs, block: seq<TQ.Task>): (g: Jobs)
    requires Shape(q) && |block| == 2 * |q.ring.slots|
    ensures Shape(g) && g.ring.count < |g.ring.slots|
  {
    Jobs(TQ.Grow(q.ring, block), Moved(q),
         if TQ.GrowsAtZero(q.ring) then q.lost + Addresses(q.owner) else q.lost)
  }

  /** The write behind the last task. */
  function Put(q: Jobs, ip: nat): (q': Jobs)
    requires Shape(q) && q.ring.count < |q.ring.slots|
    ensures Shape(q')
  {
    var r := q.ring;
    Jobs(TQ.Ring(r.slots[r.rear := Job(ip)], r.front, TQ.Wrap(r.rear + 1, |r.slots|), r.count + 1),
         q.owner[r.rear := Some(ip)],
         q.lost + Single(q.owner[r.rear]))
  }

  /** A push: on the ring it is the queue's own. */
  function Enqueue(q: Jobs, ip: nat, memory: nat -> TQ.Task): (q': Jobs)
    requires Shape(q)
    ensures Shape(q') && q'.ring == TQ.Push(q.ring, Job(ip), seq(2 * |q.ring.slots|, memory))
  {
    Put(Grown(q, seq(2 * |q.ring.slots|, memory)), ip)
  }

  /** The front slot holds a waiting connection. */
  predicate Ready(q: Jobs) {
    q.ring.count > 0 && q.ring.front < |q.owner| && q.owner[q.ring.front].Some?
  }

  function First(q: Jobs): nat
    requires Ready(q)
  {
    q.owner[q.ring.front].value
  }

  function Dequeue(q: Jobs): (q': Jobs)
    requires Shape(q) && Ready(q)
    ensures Shape(q')
  {
    Jobs(TQ.Pop(q.ring), q.owner[q.ring.front := None], q.lost)
  }

  function Empty(slots: seq<TQ.Task>): (q: Jobs)
    requires |slots| > 0
    ensures Intact(q) && q.lost == multiset{}
  {
    Jobs(TQ.Ring(slots, 0, 0, 0), Nobody(|slots|), multiset{})
  }

  // ----- addresses -----------------------------------------------------------

  lemma LastAddress(owner: seq<Option<nat>>)
    requires owner != []
    ensures Addresses(owner) == Addresses(owner[..|owner| - 1]) + Single(owner[|owner| - 1])
  {
  }

  lemma Exchange(p: multiset<nat>, x: multiset<nat>, q: multiset<nat>, y: multiset<nat>, z: multiset<nat>)
    requires p + x == q + y
    ensures (p + z) + x == (q + z) + y
  {
    assert (p + z) + x == (p + x) + z;
  }

  lemma Regroup(p: multiset<nat>, q: multiset<nat>, r: multiset<nat>)
    ensures (p + q) + r == p + (q + r) && (p + q) + r == (p + r) + q
  {
  }

  lemma UpdateLast(init: seq<Option<nat>>, last: Option<nat>, o: Option<nat>)
    ensures Addresses(init + [o]) + Single(last) == Addresses(init + [last]) + Single(o)
  {
    LastAddress(init + [o]);
    LastAddress(init + [last]);
    assert (init + [o])[..|init|] == init && (init + [last])[..|init|] == init;
    Regroup(Addresses(init), Single(o), Single(last));
  }

  lemma UpdateBefore(init: seq<Option<nat>>, init': seq<Option<nat>>, last: Option<nat>, x: Option<nat>, o: Option<nat>)
    requires Addresses(init') + Single(x) == Addresses(init) + Single(o)
    ensures Addresses(init' + [last]) + Single(x) == Addresses(init + [last]) + Single(o)
  {
    LastAddress(init + [last]);
    LastAddress(init' + [last]);
    assert (init + [last])[..|init|] == init && (init' + [last])[..|init'|] == init';
    Exchange(Addresses(init'), Single(x), Addresses(init), Single(o), Single(last));
  }

  lemma {:induction false} AddressesUpdate(owner: seq<Option<nat>>, i: nat, o: Option<nat>)
    requires i < |owner|
    ensures Addresses(owner[i := o]) + Single(owner[i]) == Addresses(owner) + Single(o)
  {
    var n := |owner| - 1;
    var init, last := owner[..n], owner[n];
    assert owner == init + [last];
    if i == n {
      assert owner[i := o] == init + [o];
      UpdateLast(init, last, o);
    } else {
      assert owner[i := o] == init[i := o] + [last] && init[i] == owner[i];
      AddressesUpdate(init, i, o);
      UpdateBefore(init, init[i := o], last, owner[i], o);
    }
  }

  lemma {:induction false} AddressesConcat(a: seq<Option<nat>>, b: seq<Option<nat>>)
    ensures Addresses(a + b) == Addresses(a) + Addresses(b)
    decreases |b|
  {
    if b == [] {
      assert a + b == a;
    } else {
      var n := |b| - 1;
      assert (a + b)[..|a| + n] == a + b[..n];
      LastAddress(a + b);
      LastAddress(b);
      AddressesConcat(a, b[..n]);
      Regroup(Addresses(a), Addresses(b[..n]), Single(b[n]));
    }
  }

  lemma {:induction false} NoAddresses(owner: seq<Option<nat>>)
    requires forall i :: 0 <= i < |owner| ==> owner[i] == None
    ensures Addresses(owner) == multiset{}
  {
    if owner != [] {
      NoAddresses(owner[..|owner| - 1]);
    }
  }

  lemma Swapped(owner: seq<Option<nat>>, a: seq<Option<nat>>, b: seq<Option<nat>>)
    requires owner == a + b
    ensures Addresses(b + a) == Addresses(owner)
  {
    AddressesConcat(a, b);
    AddressesConcat(b, a);
  }

  lemma Halves<T>(s: seq<T>, k: nat)
    requires k <= |s|
    ensures s == s[..k] + s[k..]
  {
  }

  lemma Turned(owner: seq<Option<nat>>, k: nat)
    requires k <= |owner|
    ensures Addresses(owner[k..] + owner[..k]) == Addresses(owner)
  {
    Halves(owner, k);
    Swapped(owner, owner[..k], owner[k..]);
  }

  lemma Padded(owner: seq<Option<nat>>, n: nat)
    ensures Addresses(owner + Nobody(n)) == Addresses(owner)
  {
    AddressesConcat(owner, Nobody(n));
    NoAddresses(Nobody(n));
  }

  lemma GrownAccounts(q: Jobs, block: seq<TQ.Task>)
    requires Shape(q) && |block| == 2 * |q.ring.slots|
    ensures var g := Grown(q, block);
            Addresses(g.owner) + g.lost == Addresses(q.owner) + q.lost && q.lost <= g.lost
  {
    if q.ring.count == |q.owner| {
      if q.ring.front > 0 {
        Turned(q.owner, q.ring.front);
        Padded(q.owner[q.ring.front..] + q.owner[..q.ring.front], |q.owner|);
      } else {
        NoAddresses(Nobody(2 * |q.owner|));
      }
    }
  }

  lemma PutAccounts(q: Jobs, ip: nat)
    requires Shape(q) && q.ring.count < |q.ring.slots|
    ensures var q' := Put(q, ip);
            Addresses(q'.owner) + q'.lost == (Addresses(q.owner) + q.lost) + multiset{ip} && q.lost <= q'.lost
  {
    var after, was := Addresses(Put(q, ip).owner), Single(q.owner[q.ring.rear]);
    AddressesUpdate(q.owner, q.ring.rear, Some(ip));
    Regroup(after, q.lost, was);
    Regroup(Addresses(q.owner), multiset{ip}, q.lost);
  }

  /** A push adds one connection and loses none that the account does not name. */
  lemma EnqueueAccounts(q: Jobs, ip: nat, memory: nat -> TQ.Task)
    requires Shape(q)
    ensures var q' := Enqueue(q, ip, memory);
            Addresses(q'.owner) + q'.lost == (Addresses(q.owner) + q.lost) + multiset{ip} && q.lost <= q'.lost
  {
    var block := seq(2 * |q.ring.slots|, memory);
    GrownAccounts(q, block);
    PutAccounts(Grown(q, block), ip);
  }

  lemma DequeueAccounts(q: Jobs)
    requires Shape(q) && Ready(q)
    ensures Addresses(Dequeue(q).owner) + multiset{First(q)} == Addresses(q.owner)
  {
    AddressesUpdate(q.owner, q.ring.front, None);
  }

  // ----- a queue that has lost nothing ---------------------------------------

  /** How far behind the front a slot lies. */
  function Behind(r: TQ.Ring, i: nat): nat
    requires i < |r.slots| && r.front < |r.slots|
  {
    if i >= r.front then i - r.front else i + |r.slots| - r.front
  }

  /** Every task in the queue is a waiting connection, and no other slot is. */
  ghost predicate Intact(q: Jobs) {
    && Shape(q) && TQ.Sound(q.ring)
    && forall i :: 0 <= i < |q.owner| ==>
         && (q.owner[i].Some? <==> Behind(q.ring, i) < q.ring.count)
         && (q.owner[i].Some? ==> q.ring.slots[i] == Job(q.owner[i].value))
  }

  lemma IntactFront(q: Jobs)
    requires Intact(q) && q.ring.count > 0
    ensures Ready(q) && TQ.Contents(q.ring)[0] == Job(First(q))
  {
  }

  lemma DequeueIntact(q: Jobs)
    requires Intact(q) && Ready(q)
    ensures Intact(Dequeue(q))
  {
  }

  lemma PutIntact(q: Jobs, ip: nat)
    requires Intact(q) && q.ring.count < |q.ring.slots|
    ensures Intact(Put(q, ip)) && Put(q, ip).lost == q.lost
  {
  }

  /** Where the copy puts a slot: both its task and its account. */
  lemma CopiedSlot(q: Jobs, block: seq<TQ.Task>, i: nat)
    requires Shape(q) && |block| == 2 * |q.ring.slots| && q.ring.count == |q.ring.slots| && q.ring.front > 0
    requires i < q.ring.count
    ensures var g, k := Grown(q, block), TQ.Wrap(q.ring.front + i, |q.owner|);
            g.owner[i] == q.owner[k] && g.ring.slots[i] == q.ring.slots[k]
  {
  }

  lemma GrownIntact(q: Jobs, block: seq<TQ.Task>)
    requires Intact(q) && |block| == 2 * |q.ring.slots| && !TQ.GrowsAtZero(q.ring)
    ensures Intact(Grown(q, block)) && Grown(q, block).lost == q.lost
  {
    if q.ring.count == |q.ring.slots| {
      var g := Grown(q, block);
      forall i | 0 <= i < |g.owner|
        ensures g.owner[i].Some? <==> i < q.ring.count
        ensures g.owner[i].Some? ==> g.ring.slots[i] == Job(g.owner[i].value)
      {
        if i < q.ring.count { CopiedSlot(q, block, i); }
      }
    }
  }

  lemma {:induction false} SomeAddress(owner: seq<Option<nat>>, i: nat)
    requires i < |owner| && owner[i].Some?
    ensures owner[i].value in Addresses(owner)
  {
    if i < |owner| - 1 {
      SomeAddress(owner[..|owner| - 1], i);
    }
  }

  /** A push keeps the queue intact if and only if it does not grow with the
      front at zero; if it does, every waiting connection is lost. */
  lemma EnqueueIntactIff(q: Jobs, ip: nat, memory: nat -> TQ.Task)
    requires Intact(q)
    ensures var q' := Enqueue(q, ip, memory);
            && (!TQ.GrowsAtZero(q.ring) ==> Intact(q') && q'.lost == q.lost)
            && (TQ.GrowsAtZero(q.ring) ==> q'.lost == q.lost + Addresses(q.owner) && q'.lost != multiset{})
  {
    var block := seq(2 * |q.ring.slots|, memory);
    if TQ.GrowsAtZero(q.ring) {
      SomeAddress(q.owner, 0);
      assert q.owner[0].value in Enqueue(q, ip, memory).lost;
    } else {
      GrownIntact(q, block);
      PutIntact(Grown(q, block), ip);
    }
  }

  /** Told by the tasks alone: a push appends its task whatever the new block
      holds, if and only if it does not grow with the front at zero. */
  lemma QueueKeepsIff(q: Jobs, ip: nat)
    requires Intact(q)
    ensures (forall memory: nat -> TQ.Task ::
               TQ.Contents(Enqueue(q, ip, memory).ring) == TQ.Contents(q.ring) + [Job(ip)])
            <==> !TQ.GrowsAtZero(q.ring)
  {
    if TQ.GrowsAtZero(q.ring) {
      var right := (TQ.Contents(q.ring) + [Job(ip)])[1];
      var memory := (i: nat) => TQ.Task(right.function_, right.arg + 1);
      TQ.PushAtZero(q.ring, Job(ip), seq(2 * |q.ring.slots|, memory));
      assert TQ.Contents(Enqueue(q, ip, memory).ring)[1] != right;
    } else {
      forall memory: nat -> TQ.Task
        ensures TQ.Contents(Enqueue(q, ip, memory).ring) == TQ.Contents(q.ring) + [Job(ip)]
      {
        TQ.PushFifo(q.ring, Job(ip), seq(2 * |q.ring.slots|, memory));
      }
    }
  }

  /** After such a growth a worker gets the new connection, and the one after it
      takes a slot in which nobody waits. */
  lemma LossLeavesJunk(q: Jobs, ip: nat, memory: nat -> TQ.Task)
    requires Intact(q) && TQ.GrowsAtZero(q.ring)
    ensures var q1 := Enqueue(q, ip, memory);
            && Ready(q1) && First(q1) == ip
            && var q2 := Dequeue(q1); q2.ring.count > 0 && !Ready(q2)
  {
  }
}
