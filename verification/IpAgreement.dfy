/** When the table answers as the plain map does. Zero is an address like any
    other for a check, but it also marks a slot that compaction has emptied, so a
    set of addresses is safe exactly when zero is not in it or has its shard to
    itself. */
module IpAgreement {
  import opened IpLimiter
  import opened IpRefinement
  import opened IpRuns

  /** Zero is not used, or nothing else in its shard is. */
  ghost predicate Safe(h: nat -> nat, ips: iset<nat>) {
    0 !in ips || forall x :: x in ips && x != 0 ==> h(x) != h(0)
  }

  /** Every check of the run has the map's answer. */
  ghost predicate Agrees(st: State, h: nat -> nat, ops: seq<Op>)
    requires Wired(st, h) && Legal(st, h, ops)
    decreases |ops|
  {
    ops == [] ||
    (&& (ops[0].Admit? ==>
           Check(st.table, h(ops[0].ip), ops[0].ip, ops[0].now).1
           == SpecCheck(st.live, h, st.table.limit, ops[0].ip).1)
     && Agrees(Next(st, h, ops[0]), h, ops[1..]))
  }

  // ----- zero alone in its shard ---------------------------------------------

  /** The shard of zero holds at most the slot of zero. */
  ghost predicate ZeroShard(slots: seq<Entry>, n: nat) {
    && |slots| <= 1
    && (slots == [] ==> n == 0)
    && (slots != [] ==> slots[0].ip == 0 && slots[0].count == n && (slots[0].marked <==> n == 0))
  }

  lemma ZeroCheck(slots: seq<Entry>, n: nat, limit: nat, now: nat)
    requires ZeroShard(slots, n) && limit >= 1
    ensures var (slots', a) := CheckSlots(slots, 0, limit, now);
            if n < limit then a == Answer(Ok, n + 1) && ZeroShard(slots', n + 1)
            else a == Answer(Rejected, n) && ZeroShard(slots', n)
  {
  }

  lemma ZeroRelease(slots: seq<Entry>, n: nat)
    requires ZeroShard(slots, n) && n > 0
    ensures ZeroShard(ReleaseSlots(slots, 0), n - 1)
  {
  }

  /** The only slot goes away as a whole, so no slot with a zero address stays. */
  lemma ZeroCompact(slots: seq<Entry>, n: nat, now: nat)
    requires ZeroShard(slots, n)
    ensures ZeroShard(CompactSlots(slots, now), n)
  {
    if slots != [] {
      assert slots[..|slots| - 1] == [];
      assert Removed(slots, now) == if Expired(slots[0], now) then 1 else 0;
    }
  }

  /** The table against the map when zero has its shard to itself: the other
      shards do not see zero. */
  ghost predicate ZeroRep(l: Limiter, live: Live, h: nat -> nat) {
    && |l.shards| == SHARDS && l.limit >= 1
    && (forall ip :: h(ip) < SHARDS)
    && ZeroShard(l.shards[h(0)], Get(live, 0))
    && (forall x :: x in live && h(x) == h(0) ==> x == 0 && live[0] > 0)
    && (forall s :: 0 <= s < SHARDS && s != h(0) ==> ShardRep(l.shards[s], live - {0}, h, s))
  }

  lemma ZeroAdmit(st: State, h: nat -> nat, now: nat)
    requires ZeroRep(st.table, st.live, h)
    ensures Check(st.table, h(0), 0, now).1 == SpecCheck(st.live, h, st.table.limit, 0).1
    ensures var st' := Next(st, h, Admit(0, now)); ZeroRep(st'.table, st'.live, h)
  {
    var n, st' := Get(st.live, 0), Next(st, h, Admit(0, now));
    ZeroCheck(st.table.shards[h(0)], n, st.table.limit, now);
    if n == 0 {
      assert ShardIps(st.live, h, h(0)) == {};
    }
    assert st'.live - {0} == st.live - {0};
  }

  /** An address of another shard: neither the map's answer nor its change
      depends on zero. */
  lemma SpecWithoutZero(live: Live, h: nat -> nat, limit: nat, ip: nat)
    requires h(ip) != h(0)
    ensures var (live', a) := SpecCheck(live, h, limit, ip);
            SpecCheck(live - {0}, h, limit, ip) == (live' - {0}, a)
    ensures Get(SpecCheck(live, h, limit, ip).0, 0) == Get(live, 0)
  {
    assert ShardIps(live - {0}, h, h(ip)) == ShardIps(live, h, h(ip));
    assert live[ip := Get(live, ip) + 1] - {0} == (live - {0})[ip := Get(live, ip) + 1];
  }

  lemma OtherAdmit(st: State, h: nat -> nat, ip: nat, now: nat)
    requires ZeroRep(st.table, st.live, h) && h(ip) != h(0)
    ensures Check(st.table, h(ip), ip, now).1 == SpecCheck(st.live, h, st.table.limit, ip).1
    ensures var st' := Next(st, h, Admit(ip, now)); ZeroRep(st'.table, st'.live, h)
  {
    var k, rest := h(ip), st.live - {0};
    var slots, rest' := st.table.shards[k], SpecCheck(rest, h, st.table.limit, ip).0;
    SpecWithoutZero(st.live, h, st.table.limit, ip);
    if Find(slots, ip) < |slots| {
      CheckHeld(slots, rest, h, k, ip, st.table.limit, now);
    } else {
      CheckFresh(slots, rest, h, k, ip, st.table.limit, now);
    }
    forall s | 0 <= s < SHARDS && s != h(0) && s != k ensures ShardRep(st.table.shards[s], rest', h, s) {
      OtherShard(st.table.shards[s], rest, rest', h, s, ip);
    }
  }

  lemma ZeroLeave(st: State, h: nat -> nat)
    requires ZeroRep(st.table, st.live, h) && Get(st.live, 0) > 0
    ensures var st' := Next(st, h, Leave(0)); ZeroRep(st'.table, st'.live, h)
  {
    ZeroRelease(st.table.shards[h(0)], Get(st.live, 0));
    assert SpecRelease(st.live, 0) - {0} == st.live - {0};
  }

  lemma ReleaseWithoutZero(live: Live, ip: nat)
    requires Get(live, ip) > 0 && ip != 0
    ensures Get(live - {0}, ip) > 0 && SpecRelease(live - {0}, ip) == SpecRelease(live, ip) - {0}
    ensures Get(SpecRelease(live, ip), 0) == Get(live, 0)
  {
  }

  lemma OtherLeave(st: State, h: nat -> nat, ip: nat)
    requires ZeroRep(st.table, st.live, h) && Get(st.live, ip) > 0 && h(ip) != h(0)
    ensures var st' := Next(st, h, Leave(ip)); ZeroRep(st'.table, st'.live, h)
  {
    var rest, rest' := st.live - {0}, SpecRelease(st.live - {0}, ip);
    ReleaseWithoutZero(st.live, ip);
    ReleaseShard(st.table.shards[h(ip)], rest, h, h(ip), ip);
    forall s | 0 <= s < SHARDS && s != h(0) && s != h(ip) ensures ShardRep(st.table.shards[s], rest', h, s) {
      OtherShard(st.table.shards[s], rest, rest', h, s, ip);
    }
  }

  lemma ZeroSweep(st: State, h: nat -> nat)
    requires ZeroRep(st.table, st.live, h) && Allowed(st, Sweep)
    ensures var st' := Next(st, h, Sweep); ZeroRep(st'.table, st'.live, h)
  {
    var k, now := st.sweeper.next, st.sweeper.now;
    if k == h(0) {
      ZeroCompact(st.table.shards[k], Get(st.live, 0), now);
    } else {
      CompactShard(st.table.shards[k], st.live - {0}, h, k, now);
    }
  }

  /** One step of either kind of safe run. */
  ghost predicate Faithful(st: State, h: nat -> nat, ips: iset<nat>) {
    if 0 in ips then ZeroRep(st.table, st.live, h) else Rep(st.table, st.live, h)
  }

  lemma FaithfulAdmit(st: State, h: nat -> nat, ips: iset<nat>, ip: nat, now: nat)
    requires Faithful(st, h, ips) && Safe(h, ips) && ip in ips
    ensures Check(st.table, h(ip), ip, now).1 == SpecCheck(st.live, h, st.table.limit, ip).1
    ensures Faithful(Next(st, h, Admit(ip, now)), h, ips)
  {
    if 0 !in ips {
      CheckRefines(st.table, st.live, h, ip, now);
    } else if ip == 0 {
      ZeroAdmit(st, h, now);
    } else {
      OtherAdmit(st, h, ip, now);
    }
  }

  lemma FaithfulNext(st: State, h: nat -> nat, ips: iset<nat>, op: Op)
    requires Faithful(st, h, ips) && Safe(h, ips) && Allowed(st, op) && (op.Admit? ==> op.ip in ips)
    ensures Faithful(Next(st, h, op), h, ips)
  {
    match op
    case Admit(ip, now) => FaithfulAdmit(st, h, ips, ip, now);
    case Leave(ip) =>
      if 0 !in ips {
        ReleaseRefines(st.table, st.live, h, ip);
      } else if ip == 0 {
        ZeroLeave(st, h);
      } else {
        OtherLeave(st, h, ip);
      }
    case Sweep =>
      if 0 in ips {
        ZeroSweep(st, h);
      } else {
        var k := st.sweeper.next;
        CompactShard(st.table.shards[k], st.live, h, k, st.sweeper.now);
      }
    case _ =>
  }

  lemma {:induction false} SafeRun(st: State, h: nat -> nat, ips: iset<nat>, ops: seq<Op>)
    requires Faithful(st, h, ips) && Safe(h, ips) && Legal(st, h, ops) && Uses(ops, ips)
    ensures Agrees(st, h, ops) && Faithful(Run(st, h, ops), h, ips)
    decreases |ops|
  {
    if ops != [] {
      if ops[0].Admit? { FaithfulAdmit(st, h, ips, ops[0].ip, ops[0].now); }
      FaithfulNext(st, h, ips, ops[0]);
      SafeRun(Next(st, h, ops[0]), h, ips, ops[1..]);
    }
  }

  lemma StartFaithful(limit: nat, start: nat, h: nat -> nat, ips: iset<nat>)
    requires limit >= 1 && forall ip :: h(ip) < SHARDS
    ensures Faithful(Start(limit, start), h, ips)
  {
  }

  /** After every run over a safe set of addresses, and whatever was recycled,
      marked or compacted on the way, a check admits exactly when the address has
      between one and limit - 1 live connections, or none while fewer than 256
      addresses of its shard are live; it reports the new count, the count at the
      limit, or the limit when the shard is full. */
  lemma AdmitsExactly(h: nat -> nat, limit: nat, start: nat, ips: iset<nat>, ops: seq<Op>, ip: nat, now: nat)
    requires limit >= 1 && (forall x :: h(x) < SHARDS) && Safe(h, ips) && ip in ips
    requires Legal(Start(limit, start), h, ops) && Uses(ops, ips)
    ensures var st := Run(Start(limit, start), h, ops);
            var a := Check(st.table, h(ip), ip, now).1;
            var n := Get(st.live, ip);
            && (a.verdict == Ok <==> 0 < n < limit || (n == 0 && |ShardIps(st.live, h, h(ip))| < 256))
            && (a.verdict == Ok ==> a.current == n + 1)
            && (a.verdict == Rejected ==> a.current == limit && (n > 0 ==> n == limit))
  {
    StartFaithful(limit, start, h, ips);
    SafeRun(Start(limit, start), h, ips, ops);
    var st := Run(Start(limit, start), h, ops);
    FaithfulAdmit(st, h, ips, ip, now);
    WithinLimit(Start(limit, start), h, ops);
  }

  // ----- zero with company ---------------------------------------------------

  const LATER: nat := ENTRY_EXPIRY_NS + 1

  /** The slots of the shard after `x` and zero came, `x` left, and its slot
      was cleared: the first slot carries zero but is not the slot of zero. */
  lemma TwoZeros(x: nat, limit: nat, t: nat)
    requires x != 0 && limit >= 1
    ensures var s1 := CheckSlots([], x, limit, t).0;
            var s2 := CheckSlots(s1, 0, limit, t).0;
            && CheckSlots(s1, 0, limit, t).1 == Answer(Ok, 1)
            && CompactSlots(ReleaseSlots(s2, x), t + LATER) == [Entry(0, 0, 0, false), Entry(0, 1, t, false)]
  {
    var s1 := CheckSlots([], x, limit, t).0;
    var s2 := CheckSlots(s1, 0, limit, t).0;
    assert s2 == [Entry(x, 1, t, false), Entry(0, 1, t, false)];
    var r := ReleaseSlots(s2, x);
    assert r == [Entry(x, 0, t, true), Entry(0, 1, t, false)];
    assert r[..1] == [Entry(x, 0, t, true)] && r[..1][..0] == [];
    assert Expired(r[..1][0], t + LATER) && !Expired(r[1], t + LATER);
    assert Removed(r[..1], t + LATER) == 1;
    assert ClearedAll(r, t + LATER) == [Entry(0, 0, 0, false), Entry(0, 1, t, false)];
  }

  function Arrivals(x: nat, t: nat): seq<Op> {
    [Admit(x, t), Admit(0, t), Leave(x)]
  }

  /** The table and the map after the arrivals. */
  lemma AfterArrivals(h: nat -> nat, limit: nat, t: nat, x: nat)
    requires limit >= 1 && (forall ip :: h(ip) < SHARDS) && x != 0 && h(x) == h(0)
    ensures Legal(Start(limit, t), h, Arrivals(x, t))
    ensures var st := Run(Start(limit, t), h, Arrivals(x, t));
            && st.sweeper.Idle? && st.table.lastCompaction == t && st.table.limit == limit
            && Get(st.live, 0) == 1
            && CompactSlots(st.table.shards[h(0)], t + LATER) == [Entry(0, 0, 0, false), Entry(0, 1, t, false)]
  {
    var s0 := Start(limit, t);
    var s1 := Next(s0, h, Admit(x, t));
    var s2 := Next(s1, h, Admit(0, t));
    TwoZeros(x, limit, t);
    assert ShardIps(map[], h, h(0)) == {} && ShardIps(s1.live, h, h(0)) == {x};
    assert Get(s2.live, x) == 1 && Get(s2.live, 0) == 1;
    var ops := Arrivals(x, t);
    assert ops[1..] == [Admit(0, t), Leave(x)] && ops[1..][1..] == [Leave(x)];
    OneOp(s2, h, Leave(x));
  }

  /** For every limit and every other address of the shard of zero: that address
      comes and goes around an arrival of zero, a compaction follows, and the next
      check of zero is told it is the first connection although one is live. With
      a limit of one that is one connection too many. */
  lemma ZeroAddressIsAdmittedTwice(h: nat -> nat, limit: nat, t: nat, x: nat)
    requires limit >= 1 && (forall ip :: h(ip) < SHARDS) && x != 0 && h(x) == h(0)
    ensures var ops := Arrivals(x, t) + Tidy(t + LATER);
            && Legal(Start(limit, t), h, ops)
            && var st := Run(Start(limit, t), h, ops);
               && Get(st.live, 0) == 1
               && Check(st.table, h(0), 0, t + LATER).1 == Answer(Ok, 1)
               && SpecCheck(st.live, h, limit, 0).1 != Answer(Ok, 1)
  {
    AfterArrivals(h, limit, t, x);
    var st := Run(Start(limit, t), h, Arrivals(x, t));
    TidyIsCompact(st, h, t + LATER);
    RunConcat(Start(limit, t), h, Arrivals(x, t), Tidy(t + LATER));
  }

  lemma HashOf154()
    ensures HashIp(154) == 0x8f86_0100
  {
    var a: bv32 := 154 * 2654435761;
    assert a == 0x2d5f_347a;
    var b: bv32 := (a ^ (a >> 16)) * 2654435761;
    assert b == 0x8e95_df95;
  }

  lemma ShardOf(ip: nat, word: bv32, hash: bv32)
    requires (ip % TWO_32) as bv32 == word && HashIp(word) == hash
    ensures ShardIndex(ip) == LowByte(hash)
  {
  }

  lemma Words()
    ensures (154 % TWO_32) as bv32 == 154 && (0 % TWO_32) as bv32 == 0
    ensures LowByte(0x8f86_0100) == 0 && LowByte(0) == 0
  {
  }

  lemma HashOf5()
    ensures HashIp(5) == 0x5c18_5e93
  {
    var a: bv32 := 5 * 2654435761;
    assert a == 0x1715_6075;
    var b: bv32 := (a ^ (a >> 16)) * 2654435761;
    assert b == 0x00e3_e960;
  }

  lemma WordOf5()
    ensures (5 % TWO_32) as bv32 == 5 && LowByte(0x5c18_5e93) == 147
  {
  }

  /** And others elsewhere, in the upper half of the shards as well. */
  lemma FiveLivesElsewhere()
    ensures ShardIndex(5) == 147 && Safe(ShardIndex, iset{0, 5})
  {
    WordOf5();
    HashOf5();
    ShardOf(5, 5, 0x5c18_5e93);
    ShardOf(0, 0, 0);
    Words();
  }

  /** The hash does put another address into the shard of zero. */
  lemma ZeroHasCompany()
    ensures ShardIndex(154) == ShardIndex(0) && !Safe(ShardIndex, iset{0, 154})
  {
    Words();
    HashOf154();
    ShardOf(154, 154, 0x8f86_0100);
    ShardOf(0, 0, 0);
  }

  lemma {:induction false} DisagreesAtEnd(st: State, h: nat -> nat, ops: seq<Op>, ip: nat, now: nat)
    requires Wired(st, h) && Legal(st, h, ops)
    requires var end := Run(st, h, ops);
             Check(end.table, h(ip), ip, now).1 != SpecCheck(end.live, h, end.table.limit, ip).1
    ensures Legal(st, h, ops + [Admit(ip, now)]) && !Agrees(st, h, ops + [Admit(ip, now)])
    decreases |ops|
  {
    var all := ops + [Admit(ip, now)];
    if ops == [] {
      OneOp(st, h, Admit(ip, now));
      assert all == [Admit(ip, now)];
    } else {
      assert all[0] == ops[0] && all[1..] == ops[1..] + [Admit(ip, now)];
      DisagreesAtEnd(Next(st, h, ops[0]), h, ops[1..], ip, now);
    }
  }

  lemma QuietTidy(now: nat)
    ensures forall i :: 0 <= i < |Tidy(now)| ==> !Tidy(now)[i].Admit?
  {
  }

  /** Two users of the shard of zero can be told apart from the map. */
  lemma UnsafeRun(h: nat -> nat, limit: nat, start: nat, ips: iset<nat>, x: nat) returns (ops: seq<Op>)
    requires limit >= 1 && (forall ip :: h(ip) < SHARDS)
    requires 0 in ips && x in ips && x != 0 && h(x) == h(0)
    ensures Legal(Start(limit, start), h, ops) && Uses(ops, ips) && !Agrees(Start(limit, start), h, ops)
  {
    var before := Arrivals(x, start) + Tidy(start + LATER);
    ops := before + [Admit(0, start + LATER)];
    assert Uses(ops, ips) by { QuietTidy(start + LATER); }
    ZeroAddressIsAdmittedTwice(h, limit, start, x);
    DisagreesAtEnd(Start(limit, start), h, before, 0, start + LATER);
  }

  /** The exact condition: over a set of addresses, every run that releases only
      admitted connections gets the map's answers if and only if the set is safe. */
  lemma AgreesIff(h: nat -> nat, limit: nat, start: nat, ips: iset<nat>)
    requires limit >= 1 && forall ip :: h(ip) < SHARDS
    ensures (forall ops :: Legal(Start(limit, start), h, ops) && Uses(ops, ips) ==> Agrees(Start(limit, start), h, ops))
            <==> Safe(h, ips)
  {
    if Safe(h, ips) {
      StartFaithful(limit, start, h, ips);
      forall ops | Legal(Start(limit, start), h, ops) && Uses(ops, ips) ensures Agrees(Start(limit, start), h, ops) {
        SafeRun(Start(limit, start), h, ips, ops);
      }
    } else {
      var x :| x in ips && x != 0 && h(x) == h(0);
      var ops := UnsafeRun(h, limit, start, ips, x);
    }
  }
}
