/** How long the limiter remembers, over every interleaving: which slots a
    compaction clears, how often compactions begin, how many refusals are counted,
    and what a release without an admission does. */
module IpAging {
  import opened IpLimiter
  import opened IpRefinement
  import opened IpRuns

  /** Nanoseconds from one reading of the 64-bit clock to another. */
  function Between(earlier: int, later: int): int {
    (later - earlier) % 0x1_0000_0000_0000_0000
  }

  // ----- the time stamp of a slot --------------------------------------------

  /** Every slot carries the time of the last admission of its address. */
  ghost predicate ShardTimes(slots: seq<Entry>, admitted: map<nat, nat>) {
    forall i :: 0 <= i < |slots| && slots[i].ip != 0 ==>
      slots[i].ip in admitted && admitted[slots[i].ip] == slots[i].lastSeen
  }

  lemma AdmitTimes(slots: seq<Entry>, ip: nat, limit: nat, now: nat, admitted: map<nat, nat>)
    requires ShardInv(slots) && ShardTimes(slots, admitted) && ip != 0 && limit >= 1
    ensures var (slots', a) := CheckSlots(slots, ip, limit, now);
            ShardTimes(slots', if a.verdict == Ok then admitted[ip := now] else admitted)
  {
    if Find(slots, ip) < |slots| {
      SlotHeld(slots, ip, limit, now);
    }
  }

  /** An admission leaves the slots of other shards alone. */
  lemma OtherTimes(slots: seq<Entry>, live: Live, h: nat -> nat, s: nat, ip: nat, now: nat, admitted: map<nat, nat>)
    requires ShardRep(slots, live, h, s) && ShardTimes(slots, admitted) && h(ip) != s
    ensures ShardTimes(slots, admitted[ip := now])
  {
  }

  lemma ReleaseTimes(slots: seq<Entry>, ip: nat, admitted: map<nat, nat>)
    requires ShardTimes(slots, admitted)
    ensures ShardTimes(ReleaseSlots(slots, ip), admitted)
  {
  }

  lemma CompactTimes(slots: seq<Entry>, now: nat, admitted: map<nat, nat>)
    requires ShardTimes(slots, admitted)
    ensures ShardTimes(CompactSlots(slots, now), admitted)
  {
  }

  ghost predicate Times(st: State) {
    forall s :: 0 <= s < |st.table.shards| ==> ShardTimes(st.table.shards[s], st.log.admitted)
  }

  lemma AdmitKeepsTimes(st: State, h: nat -> nat, ip: nat, now: nat)
    requires Inv(st, h) && Times(st) && ip != 0
    ensures Times(Next(st, h, Admit(ip, now)))
  {
    var l, st' := st.table, Next(st, h, Admit(ip, now));
    CheckRefines(l, st.live, h, ip, now);
    assert ShardRep(l.shards[h(ip)], st.live, h, h(ip));
    AdmitTimes(l.shards[h(ip)], ip, l.limit, now, st.log.admitted);
    forall s | 0 <= s < SHARDS && s != h(ip) ensures ShardTimes(st'.table.shards[s], st'.log.admitted) {
      OtherTimes(l.shards[s], st.live, h, s, ip, now, st.log.admitted);
    }
  }

  lemma TimesNext(st: State, h: nat -> nat, op: Op)
    requires Inv(st, h) && Times(st) && Allowed(st, op) && (op.Admit? ==> op.ip != 0)
    ensures Times(Next(st, h, op))
  {
    match op
    case Admit(ip, now) => AdmitKeepsTimes(st, h, ip, now);
    case Leave(ip) => ReleaseTimes(st.table.shards[h(ip)], ip, st.log.admitted);
    case Sweep => CompactTimes(st.table.shards[st.sweeper.next], st.sweeper.now, st.log.admitted);
    case _ =>
  }

  // ----- compactions and refusals --------------------------------------------

  /** The start, and the compactions begun since. */
  function Moments(start: nat, begun: seq<nat>): seq<nat> {
    [start] + begun
  }

  /** At least five seconds between neighbours, on the 64-bit clock. */
  ghost predicate FiveSecondsApart(times: seq<nat>) {
    forall i :: 0 < i < |times| ==> Between(times[i - 1], times[i]) >= 5_000_000_000
  }

  ghost predicate Paced(st: State, start: nat) {
    var times := Moments(start, st.log.begun);
    FiveSecondsApart(times) && st.table.lastCompaction == times[|times| - 1]
  }

  lemma PacedNext(st: State, h: nat -> nat, op: Op, start: nat)
    requires Wired(st, h) && Paced(st, start) && Allowed(st, op)
    ensures Paced(Next(st, h, op), start)
  {
    if op.Begin? && Begun(st, op.now) != st {
      assert Moments(start, st.log.begun + [op.now]) == Moments(start, st.log.begun) + [op.now];
    }
  }

  lemma RefusalsNext(st: State, h: nat -> nat, op: Op)
    requires Inv(st, h) && st.table.rejections == st.log.refused
    requires Allowed(st, op) && (op.Admit? ==> op.ip != 0)
    ensures Next(st, h, op).table.rejections == Next(st, h, op).log.refused
  {
    if op.Admit? { CheckRefines(st.table, st.live, h, op.ip, op.now); }
  }

  // ----- runs ----------------------------------------------------------------

  ghost predicate Aged(st: State, h: nat -> nat, start: nat) {
    Inv(st, h) && Times(st) && Paced(st, start) && st.table.rejections == st.log.refused
  }

  lemma {:induction false} RunAges(st: State, h: nat -> nat, ops: seq<Op>, ips: iset<nat>, start: nat)
    requires Aged(st, h, start) && Legal(st, h, ops) && Uses(ops, ips) && 0 !in ips
    ensures Aged(Run(st, h, ops), h, start)
    decreases |ops|
  {
    if ops != [] {
      NextInv(st, h, ops[0]);
      TimesNext(st, h, ops[0]);
      PacedNext(st, h, ops[0], start);
      RefusalsNext(st, h, ops[0]);
      RunAges(Next(st, h, ops[0]), h, ops[1..], ips, start);
    }
  }

  lemma StartAges(limit: nat, start: nat, h: nat -> nat, ops: seq<Op>, ips: iset<nat>)
    requires limit >= 1 && (forall x :: h(x) < SHARDS) && 0 !in ips
    requires Legal(Start(limit, start), h, ops) && Uses(ops, ips)
    ensures Aged(Run(Start(limit, start), h, ops), h, start)
  {
    StartInv(limit, start, h);
    RunAges(Start(limit, start), h, ops, ips, start);
  }

  /** The rejection counter is the number of checks the map refused. */
  lemma RejectionsAreExact(h: nat -> nat, limit: nat, start: nat, ops: seq<Op>, ips: iset<nat>)
    requires limit >= 1 && (forall x :: h(x) < SHARDS) && 0 !in ips
    requires Legal(Start(limit, start), h, ops) && Uses(ops, ips)
    ensures var st := Run(Start(limit, start), h, ops); st.table.rejections == st.log.refused
  {
    StartAges(limit, start, h, ops, ips);
  }

  /** Compactions begin at least five seconds apart, and one begins whenever it is
      asked for five seconds or more after the last one, or after the start. */
  lemma CompactionsArePaced(h: nat -> nat, limit: nat, start: nat, ops: seq<Op>, ips: iset<nat>, now: nat)
    requires limit >= 1 && (forall x :: h(x) < SHARDS) && 0 !in ips
    requires Legal(Start(limit, start), h, ops) && Uses(ops, ips)
    ensures var st := Run(Start(limit, start), h, ops);
            var times := Moments(start, st.log.begun);
            && FiveSecondsApart(times)
            && (Allowed(st, Begin(now)) ==>
                  (Next(st, h, Begin(now)).sweeper == At(0, now, 0)
                   <==> Between(times[|times| - 1], now) >= 5_000_000_000))
  {
    StartAges(limit, start, h, ops, ips);
  }

  // ----- which slots go ------------------------------------------------------

  /** What compaction does to the slot of one address. */
  lemma SlotGoes(slots: seq<Entry>, live: Live, h: nat -> nat, s: nat, x: nat, now: nat)
    requires ShardRep(slots, live, h, s) && x != 0 && Find(slots, x) < |slots|
    ensures Held(CompactSlots(slots, now), x) <==> !Expired(slots[Find(slots, x)], now)
  {
    var f, cleared := Find(slots, x), ClearedAll(slots, now);
    RemovedAll(slots, now);
    if !Expired(slots[f], now) {
      assert cleared[f].ip == x;
    } else {
      forall i | 0 <= i < |slots| ensures cleared[i].ip != x {
        assert i != f ==> slots[i].ip != x;
      }
    }
  }

  /** The shard of `x` is the next to be swept, and `x` has a slot in it. */
  ghost predicate Facing(st: State, h: nat -> nat, x: nat) {
    && Wired(st, h) && Allowed(st, Sweep) && st.sweeper.next == h(x)
    && Held(st.table.shards[h(x)], x)
  }

  lemma SweptSlot(st: State, h: nat -> nat, x: nat)
    requires Rep(st.table, st.live, h) && Times(st) && x != 0 && Facing(st, h, x)
    ensures var kept := Held(Next(st, h, Sweep).table.shards[h(x)], x);
            && x in st.log.admitted
            && (Get(st.live, x) > 0 ==> kept)
            && (Get(st.live, x) == 0 ==> (kept <==> Between(st.log.admitted[x], st.sweeper.now) <= 60_000_000_000))
  {
    var slots := st.table.shards[h(x)];
    assert ShardRep(slots, st.live, h, h(x)) && ShardTimes(slots, st.log.admitted);
    assert Find(slots, x) < |slots|;
    SlotGoes(slots, st.live, h, h(x), x, st.sweeper.now);
  }

  /** The sweep of a shard at time t, in every interleaving: an address with live
      connections keeps its slot, and one without keeps the slot it still had if
      and only if it was last admitted at most 60 seconds before t, on the 64-bit
      clock. */
  lemma KeepsSlotIff(h: nat -> nat, limit: nat, start: nat, ops: seq<Op>, ips: iset<nat>, x: nat)
    requires limit >= 1 && (forall ip :: h(ip) < SHARDS) && 0 !in ips && x != 0
    requires Legal(Start(limit, start), h, ops) && Uses(ops, ips) && Facing(Run(Start(limit, start), h, ops), h, x)
    ensures var st := Run(Start(limit, start), h, ops);
            var kept := Held(Next(st, h, Sweep).table.shards[h(x)], x);
            && x in st.log.admitted
            && (Get(st.live, x) > 0 ==> kept)
            && (Get(st.live, x) == 0 ==> (kept <==> Between(st.log.admitted[x], st.sweeper.now) <= 60_000_000_000))
  {
    StartAges(limit, start, h, ops, ips);
    SweptSlot(Run(Start(limit, start), h, ops), h, x);
  }

  // ----- a release without an admission --------------------------------------

  /** A release of an address with no live connection is harmless if and only if
      the address has no slot. If it has one, the 32-bit count wraps. */
  lemma StrayReleaseIff(slots: seq<Entry>, live: Live, h: nat -> nat, s: nat, ip: nat)
    requires ShardRep(slots, live, h, s) && ip != 0 && Get(live, ip) == 0
    ensures ShardRep(ReleaseSlots(slots, ip), live, h, s) <==> !Held(slots, ip)
    ensures Held(slots, ip) ==> ReleaseSlots(slots, ip)[Find(slots, ip)].count == 4_294_967_295
  {
    var f, slots' := Find(slots, ip), ReleaseSlots(slots, ip);
    if f < |slots| {
      assert slots[f].count == Get(live, ip) == 0;
      assert slots'[f].ip == ip && slots'[f].count != Get(live, ip);
    }
  }
}
