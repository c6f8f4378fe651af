/** Runs of the limiter. A check or a release locks one shard and is one step; a
    compaction locks one shard at a time and subtracts from the total at the end,
    so checks and releases may fall between its steps. */
module IpRuns {
  import opened Counting
  import opened IpLimiter
  import opened IpRefinement

  // ----- bookkeeping ---------------------------------------------------------

  /** Slots that carry an address, over all shards. */
  function Occupied(shards: seq<seq<Entry>>): nat {
    if shards == [] then 0
    else Occupied(shards[..|shards| - 1]) + Count(shards[|shards| - 1], HasIp)
  }

  lemma {:induction false} OccupiedUpdate(shards: seq<seq<Entry>>, s: nat, slots: seq<Entry>)
    requires s < |shards|
    ensures Occupied(shards[s := slots]) + Count(shards[s], HasIp) == Occupied(shards) + Count(slots, HasIp)
  {
    var n := |shards| - 1;
    if s == n {
      assert shards[s := slots][..n] == shards[..n];
    } else {
      assert shards[s := slots][..n] == shards[..n][s := slots];
      OccupiedUpdate(shards[..n], s, slots);
    }
  }

  /** Filling a slot adds an address unless it replaces another one's. */
  lemma CheckOccupied(slots: seq<Entry>, ip: nat, limit: nat, now: nat)
    requires ip != 0
    ensures Count(CheckSlots(slots, ip, limit, now).0, HasIp) + One(RecyclesStale(slots, ip))
         == Count(slots, HasIp) + One(Fills(slots, ip))
  {
    var f, k := Find(slots, ip), FirstIdle(slots);
    var e := Entry(ip, 1, now, false);
    if f < |slots| {
      CountUpdate(slots, f, CheckSlots(slots, ip, limit, now).0[f], HasIp);
    } else if k < |slots| {
      CountUpdate(slots, k, e, HasIp);
    } else {
      CountAppend(slots, e, HasIp);
    }
  }

  lemma ReleaseOccupied(slots: seq<Entry>, ip: nat)
    ensures Count(ReleaseSlots(slots, ip), HasIp) == Count(slots, HasIp)
  {
    var f := Find(slots, ip);
    if f < |slots| {
      CountUpdate(slots, f, ReleaseSlots(slots, ip)[f], HasIp);
    }
  }

  lemma {:induction false} ClearedOccupied(slots: seq<Entry>, now: nat)
    requires forall i :: 0 <= i < |slots| ==> (slots[i].marked ==> slots[i].ip != 0)
    ensures Count(ClearedAll(slots, now), HasIp) + Removed(slots, now) == Count(slots, HasIp)
  {
    if slots != [] {
      var n := |slots| - 1;
      ClearedOccupied(slots[..n], now);
      assert ClearedAll(slots, now)[..n] == ClearedAll(slots[..n], now);
    }
  }

  lemma CompactOccupied(slots: seq<Entry>, now: nat)
    requires ShardInv(slots)
    ensures Count(CompactSlots(slots, now), HasIp) + Removed(slots, now) == Count(slots, HasIp)
  {
    ClearedOccupied(slots, now);
    CountBound(slots, HasIp);
  }

  lemma {:induction false} OccupiedEmpty(n: nat)
    ensures Occupied(seq(n, _ => [])) == 0
  {
    if n > 0 {
      OccupiedEmpty(n - 1);
      var empty: seq<seq<Entry>> := seq(n, _ => []);
      assert empty[..n - 1] == seq(n - 1, _ => []);
    }
  }

  // ----- runs ----------------------------------------------------------------

  datatype Op = Admit(ip: nat, now: nat) | Leave(ip: nat) | Begin(now: nat) | Sweep | Settle

  /** Where the compaction is: the next shard, its clock reading, and how many
      entries it has removed and not yet subtracted. */
  datatype Sweeper = Idle | At(next: nat, now: nat, removed: nat)

  /** What has happened: when each address was last admitted, when compactions
      began (after the start), and how many checks the map refused. */
  datatype Log = Log(admitted: map<nat, nat>, begun: seq<nat>, refused: nat)

  /** The table, the plain map run beside it, the number of slots taken over
      from another address, and the compaction under way. */
  datatype State = State(table: Limiter, live: Live, stale: nat, sweeper: Sweeper, log: Log)

  /** Only admitted connections are released; one compaction at a time. */
  predicate Allowed(st: State, op: Op) {
    match op
    case Admit(_, _) => true
    case Leave(ip) => Get(st.live, ip) > 0
    case Begin(_) => st.sweeper.Idle?
    case Sweep => st.sweeper.At? && st.sweeper.next < SHARDS
    case Settle => st.sweeper.At? && st.sweeper.next == SHARDS
  }

  function Begun(st: State, now: nat): State {
    if Elapsed(st.table.lastCompaction, now) < COMPACTION_INTERVAL_NS then st
    else st.(table := st.table.(lastCompaction := now), sweeper := At(0, now, 0),
             log := st.log.(begun := st.log.begun + [now]))
  }

  function Swept(st: State): State
    requires st.sweeper.At? && st.sweeper.next < |st.table.shards|
  {
    var At(k, now, removed) := st.sweeper;
    var slots := st.table.shards[k];
    st.(table := st.table.(shards := st.table.shards[k := CompactSlots(slots, now)]),
        sweeper := At(k + 1, now, removed + Removed(slots, now)))
  }

  function Settled(st: State): State
    requires st.sweeper.At?
  {
    st.(table := st.table.(total := st.table.total - st.sweeper.removed), sweeper := Idle)
  }

  ghost predicate Wired(st: State, h: nat -> nat) {
    |st.table.shards| == SHARDS && forall ip :: h(ip) < SHARDS
  }

  function Noted(log: Log, ip: nat, now: nat, verdict: Verdict): Log {
    if verdict == Ok then log.(admitted := log.admitted[ip := now]) else log.(refused := log.refused + 1)
  }

  ghost function Next(st: State, h: nat -> nat, op: Op): (st': State)
    requires Wired(st, h) && Allowed(st, op)
    ensures |st'.table.shards| == SHARDS && st'.table.limit == st.table.limit
  {
    match op
    case Admit(ip, now) =>
      st.(table := Check(st.table, h(ip), ip, now).0,
          live := SpecCheck(st.live, h, st.table.limit, ip).0,
          stale := st.stale + One(RecyclesStale(st.table.shards[h(ip)], ip)),
          log := Noted(st.log, ip, now, SpecCheck(st.live, h, st.table.limit, ip).1.verdict))
    case Leave(ip) => st.(table := Release(st.table, h(ip), ip), live := SpecRelease(st.live, ip))
    case Begin(now) => Begun(st, now)
    case Sweep => Swept(st)
    case Settle => Settled(st)
  }

  ghost predicate Legal(st: State, h: nat -> nat, ops: seq<Op>)
    requires Wired(st, h)
    decreases |ops|
  {
    ops == [] || (Allowed(st, ops[0]) && Legal(Next(st, h, ops[0]), h, ops[1..]))
  }

  ghost function Run(st: State, h: nat -> nat, ops: seq<Op>): (st': State)
    requires Wired(st, h) && Legal(st, h, ops)
    ensures |st'.table.shards| == SHARDS && st'.table.limit == st.table.limit
    decreases |ops|
  {
    if ops == [] then st else Run(Next(st, h, ops[0]), h, ops[1..])
  }

  function Unsettled(sweeper: Sweeper): nat {
    if sweeper.At? then sweeper.removed else 0
  }

  ghost predicate Inv(st: State, h: nat -> nat) {
    Rep(st.table, st.live, h) && st.table.total == Occupied(st.table.shards) + st.stale + Unsettled(st.sweeper)
  }

  function Start(limit: nat, now: nat): State {
    State(Init(limit, now), map[], 0, Idle, Log(map[], [], 0))
  }

  lemma StartInv(limit: nat, now: nat, h: nat -> nat)
    requires limit >= 1 && forall ip :: h(ip) < SHARDS
    ensures Inv(Start(limit, now), h)
  {
    OccupiedEmpty(SHARDS);
  }

  lemma AdmitInv(st: State, h: nat -> nat, ip: nat, now: nat)
    requires Inv(st, h) && ip != 0
    ensures Inv(Next(st, h, Admit(ip, now)), h)
  {
    var l := st.table;
    CheckRefines(l, st.live, h, ip, now);
    CheckOccupied(l.shards[h(ip)], ip, l.limit, now);
    OccupiedUpdate(l.shards, h(ip), CheckSlots(l.shards[h(ip)], ip, l.limit, now).0);
  }

  lemma LeaveInv(st: State, h: nat -> nat, ip: nat)
    requires Inv(st, h) && Get(st.live, ip) > 0
    ensures Inv(Next(st, h, Leave(ip)), h)
  {
    var l := st.table;
    ReleaseRefines(l, st.live, h, ip);
    ReleaseOccupied(l.shards[h(ip)], ip);
    OccupiedUpdate(l.shards, h(ip), ReleaseSlots(l.shards[h(ip)], ip));
  }

  lemma SweepInv(st: State, h: nat -> nat)
    requires Inv(st, h) && Allowed(st, Sweep)
    ensures Inv(Next(st, h, Sweep), h)
  {
    var l, k, now := st.table, st.sweeper.next, st.sweeper.now;
    assert ShardRep(l.shards[k], st.live, h, k);
    CompactShard(l.shards[k], st.live, h, k, now);
    CompactOccupied(l.shards[k], now);
    OccupiedUpdate(l.shards, k, CompactSlots(l.shards[k], now));
  }

  lemma NextInv(st: State, h: nat -> nat, op: Op)
    requires Inv(st, h) && Allowed(st, op) && (op.Admit? ==> op.ip != 0)
    ensures Inv(Next(st, h, op), h)
  {
    match op
    case Admit(ip, now) => AdmitInv(st, h, ip, now);
    case Leave(ip) => LeaveInv(st, h, ip);
    case Sweep => SweepInv(st, h);
    case _ =>
  }

  /** The operations only admit these addresses. */
  ghost predicate Uses(ops: seq<Op>, ips: iset<nat>) {
    forall i :: 0 <= i < |ops| && ops[i].Admit? ==> ops[i].ip in ips
  }

  lemma {:induction false} RunInv(st: State, h: nat -> nat, ops: seq<Op>, ips: iset<nat>)
    requires Inv(st, h) && Legal(st, h, ops) && Uses(ops, ips) && 0 !in ips
    ensures Inv(Run(st, h, ops), h)
    decreases |ops|
  {
    if ops != [] {
      NextInv(st, h, ops[0]);
      RunInv(Next(st, h, ops[0]), h, ops[1..], ips);
    }
  }

  /** No address ever has more live connections than the limit. */
  lemma {:induction false} WithinLimit(st: State, h: nat -> nat, ops: seq<Op>)
    requires Wired(st, h) && Legal(st, h, ops)
    requires forall x :: x in st.live ==> st.live[x] <= st.table.limit
    ensures forall x :: x in Run(st, h, ops).live ==> Run(st, h, ops).live[x] <= st.table.limit
    decreases |ops|
  {
    if ops != [] {
      WithinLimit(Next(st, h, ops[0]), h, ops[1..]);
    }
  }

  /** Bookkeeping in every interleaving of checks, releases and the steps of a
      compaction: the entry total is the number of occupied slots, plus the slots
      taken over from another address, plus what the compaction under way has
      removed and not yet subtracted. So at rest it equals the occupied slots
      exactly when nothing was taken over, and the subtraction never takes it
      below zero. */
  lemma TotalAccounting(h: nat -> nat, limit: nat, start: nat, ops: seq<Op>, ips: iset<nat>)
    requires limit >= 1 && (forall x :: h(x) < SHARDS) && 0 !in ips
    requires Legal(Start(limit, start), h, ops) && Uses(ops, ips)
    ensures var st := Run(Start(limit, start), h, ops);
            && st.table.total == Occupied(st.table.shards) + st.stale + Unsettled(st.sweeper)
            && (st.sweeper.Idle? ==> (st.table.total == Occupied(st.table.shards) <==> st.stale == 0))
            && (st.sweeper.At? ==> Settled(st).table.total >= 0)
  {
    StartInv(limit, start, h);
    RunInv(Start(limit, start), h, ops, ips);
  }

  // ----- a compaction that is not interrupted --------------------------------

  function Sweeps(n: nat): (ops: seq<Op>)
    ensures |ops| == n && forall i :: 0 <= i < n ==> ops[i] == Sweep
  {
    if n == 0 then [] else [Sweep] + Sweeps(n - 1)
  }

  lemma {:induction false} RunConcat(st: State, h: nat -> nat, first: seq<Op>, second: seq<Op>)
    requires Wired(st, h) && Legal(st, h, first) && Legal(Run(st, h, first), h, second)
    ensures Legal(st, h, first + second)
    ensures Run(st, h, first + second) == Run(Run(st, h, first), h, second)
    decreases |first|
  {
    if first == [] {
      assert first + second == second;
    } else {
      assert (first + second)[0] == first[0] && (first + second)[1..] == first[1..] + second;
      RunConcat(Next(st, h, first[0]), h, first[1..], second);
    }
  }

  lemma OneOp(st: State, h: nat -> nat, op: Op)
    requires Wired(st, h) && Allowed(st, op)
    ensures Legal(st, h, [op]) && Run(st, h, [op]) == Next(st, h, op)
  {
    assert [op][1..] == [];
  }

  /** The shards with the first `k` compacted. */
  ghost predicate Midway(was: seq<seq<Entry>>, shards: seq<seq<Entry>>, k: nat, now: nat) {
    && |was| == |shards| == SHARDS
    && forall s :: 0 <= s < SHARDS ==> shards[s] == if s < k then CompactSlots(was[s], now) else was[s]
  }

  lemma MidwayStep(was: seq<seq<Entry>>, shards: seq<seq<Entry>>, k: nat, now: nat)
    requires k < SHARDS && Midway(was, shards, k, now)
    ensures Midway(was, shards[k := CompactSlots(shards[k], now)], k + 1, now)
    ensures SumRemoved(was[..k + 1], now) == SumRemoved(was[..k], now) + Removed(shards[k], now)
  {
    assert was[..k + 1][..k] == was[..k];
  }

  lemma MidwayEnd(was: seq<seq<Entry>>, shards: seq<seq<Entry>>, now: nat)
    requires Midway(was, shards, SHARDS, now)
    ensures shards == CompactAll(was, now) && was[..SHARDS] == was
  {
  }

  /** Halfway through a compaction of `was`. */
  ghost predicate Sweeping(st: State, was: seq<seq<Entry>>) {
    && st.sweeper.At? && st.sweeper.next <= SHARDS
    && Midway(was, st.table.shards, st.sweeper.next, st.sweeper.now)
    && st.sweeper.removed == SumRemoved(was[..st.sweeper.next], st.sweeper.now)
  }

  function Done(st: State, was: seq<seq<Entry>>): State
    requires st.sweeper.At?
  {
    st.(table := st.table.(shards := CompactAll(was, st.sweeper.now)),
        sweeper := At(SHARDS, st.sweeper.now, SumRemoved(was, st.sweeper.now)))
  }

  lemma SweepOne(st: State, was: seq<seq<Entry>>)
    requires Sweeping(st, was) && st.sweeper.next < SHARDS
    ensures Sweeping(Swept(st), was) && Done(Swept(st), was) == Done(st, was)
  {
    MidwayStep(was, st.table.shards, st.sweeper.next, st.sweeper.now);
  }

  lemma SweptLast(st: State, was: seq<seq<Entry>>)
    requires Sweeping(st, was) && st.sweeper.next == SHARDS
    ensures Done(st, was) == st
  {
    MidwayEnd(was, st.table.shards, st.sweeper.now);
  }

  lemma OneMore(st: State, h: nat -> nat, op: Op, rest: seq<Op>)
    requires Wired(st, h) && Allowed(st, op) && Legal(Next(st, h, op), h, rest)
    ensures Legal(st, h, [op] + rest) && Run(st, h, [op] + rest) == Run(Next(st, h, op), h, rest)
  {
    assert ([op] + rest)[1..] == rest;
  }

  lemma {:induction false} SweepRest(st: State, h: nat -> nat, was: seq<seq<Entry>>)
    requires Wired(st, h) && Sweeping(st, was)
    ensures var ops := Sweeps(SHARDS - st.sweeper.next);
            Legal(st, h, ops) && Run(st, h, ops) == Done(st, was)
    decreases SHARDS - st.sweeper.next
  {
    if st.sweeper.next == SHARDS {
      SweptLast(st, was);
    } else {
      SweepOne(st, was);
      SweepRest(Swept(st), h, was);
      OneMore(st, h, Sweep, Sweeps(SHARDS - st.sweeper.next - 1));
    }
  }

  function Tidy(now: nat): seq<Op> {
    [Begin(now)] + Sweeps(SHARDS) + [Settle]
  }

  /** Its steps together are the compaction of the whole table. */
  lemma TidyIsCompact(st: State, h: nat -> nat, now: nat)
    requires Wired(st, h) && st.sweeper.Idle?
    requires Elapsed(st.table.lastCompaction, now) >= COMPACTION_INTERVAL_NS
    ensures Legal(st, h, Tidy(now)) && Run(st, h, Tidy(now)) == st.(table := Compact(st.table, now), log := Begun(st, now).log)
  {
    var st1 := Begun(st, now);
    OneOp(st, h, Begin(now));
    SweepRest(st1, h, st.table.shards);
    var st2 := Run(st1, h, Sweeps(SHARDS));
    OneOp(st2, h, Settle);
    RunConcat(st, h, [Begin(now)], Sweeps(SHARDS));
    RunConcat(st, h, [Begin(now)] + Sweeps(SHARDS), [Settle]);
  }

  // ----- a total that is off --------------------------------------------------

  /** One slot, through the three operations. */
  lemma SlotTakenOver(x: nat, y: nat, limit: nat, now: nat)
    requires limit >= 1 && x != y
    ensures var s1 := CheckSlots([], x, limit, now).0;
            var s2 := ReleaseSlots(s1, x);
            && Fills([], x) && !RecyclesStale([], x) && s1 == [Entry(x, 1, now, false)]
            && s2 == [Entry(x, 0, now, true)] && Fills(s2, y) && (x != 0 ==> RecyclesStale(s2, y))
  {
  }

  lemma TakenOverFrom(st: State, h: nat -> nat, x: nat, y: nat, now: nat)
    requires Wired(st, h) && st.table.shards[h(x)] == [] && st.live == map[] && st.table.limit >= 1
    requires x != 0 && y != 0 && x != y && h(x) == h(y)
    ensures var ops := [Admit(x, now)] + ([Leave(x)] + [Admit(y, now)]);
            && Legal(st, h, ops)
            && var st' := Run(st, h, ops);
               && st'.stale == st.stale + 1 && st'.table.total == st.table.total + 2
               && st'.sweeper == st.sweeper
  {
    SlotTakenOver(x, y, st.table.limit, now);
    assert ShardIps(map[], h, h(x)) == {};
    var s1 := Next(st, h, Admit(x, now));
    var s2 := Next(s1, h, Leave(x));
    OneOp(s2, h, Admit(y, now));
    OneMore(s1, h, Leave(x), [Admit(y, now)]);
    OneMore(st, h, Admit(x, now), [Leave(x)] + [Admit(y, now)]);
  }

  /** A slot taken over: after `x` comes and goes, `y` of the same shard gets its
      slot, and the total says two where one slot is occupied. */
  lemma TakenOver(h: nat -> nat, limit: nat, start: nat, x: nat, y: nat)
    requires limit >= 1 && (forall ip :: h(ip) < SHARDS) && x != 0 && y != 0 && x != y && h(x) == h(y)
    ensures var ops := [Admit(x, start)] + ([Leave(x)] + [Admit(y, start)]);
            && Legal(Start(limit, start), h, ops)
            && var st := Run(Start(limit, start), h, ops);
               st.stale == 1 && st.table.total == 2 && Occupied(st.table.shards) == 1
  {
    StartInv(limit, start, h);
    TakenOverFrom(Start(limit, start), h, x, y, start);
    RunInv(Start(limit, start), h, [Admit(x, start)] + ([Leave(x)] + [Admit(y, start)]), iset{x, y});
  }
}
