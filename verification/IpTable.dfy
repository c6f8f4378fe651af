/** The limiter's code: shards of 256 slots, updated in place by scanning loops
    and tied to the value model of `IpLimiter`. */
module IpTable {
  import opened Counting
  import opened IpLimiter
  import opened Options

  lemma FindIs(slots: seq<Entry>, ip: nat, k: nat)
    requires k <= |slots| && (k < |slots| ==> slots[k].ip == ip) && forall i :: 0 <= i < k ==> slots[i].ip != ip
    ensures Find(slots, ip) == k
  {
  }

  lemma FirstIdleIs(slots: seq<Entry>, k: nat)
    requires k <= |slots| && (k < |slots| ==> slots[k].count == 0) && forall i :: 0 <= i < k ==> slots[i].count != 0
    ensures FirstIdle(slots) == k
  {
  }

  class Shard {
    const entries: array<Entry>
    var count: nat

    ghost predicate Valid()
      reads this
    {
      entries.Length == SLOTS && count <= SLOTS
    }

    /** The slots in use. */
    ghost function Slots(): seq<Entry>
      requires Valid()
      reads this, entries
    {
      entries[..count]
    }

    constructor ()
      ensures Valid() && fresh(entries) && Slots() == []
    {
      entries := new Entry[SLOTS](_ => Entry(0, 0, 0, false));
      count := 0;
    }

    /** First scan of a check: the address's slot, and the first idle slot
        seen before it. */
    method Scan(ip: nat) returns (found: nat, idle: nat)
      requires Valid()
      ensures found == Find(Slots(), ip)
      ensures found == count ==> idle == FirstIdle(Slots())
    {
      found := 0;
      idle := count;
      while found < count
        invariant 0 <= found <= count
        invariant forall i :: 0 <= i < found ==> entries[i].ip != ip
        invariant idle == count || (idle < found && entries[idle].count == 0)
        invariant forall i :: 0 <= i < found && i < idle ==> entries[i].count != 0
      {
        if entries[found].ip == ip { break; }
        if entries[found].count == 0 && idle == count {
          idle := found;
        }
        found := found + 1;
      }
      FindIs(Slots(), ip, found);
      if found == count { FirstIdleIs(Slots(), idle); }
    }

    /** The eviction scan: the idle slot seen longest ago. It finds one exactly
        when the shard has an idle slot whose time stamp is not the maximum. */
    method OldestIdle() returns (oldest: Option<nat>)
      requires Valid()
      ensures oldest.Some? <==>
              exists i :: 0 <= i < count && entries[i].count == 0 && entries[i].lastSeen < TWO_64 - 1
      ensures oldest.Some? ==>
                && oldest.value < count && entries[oldest.value].count == 0
                && forall i :: 0 <= i < count && entries[i].count == 0 ==>
                     entries[oldest.value].lastSeen <= entries[i].lastSeen
    {
      oldest := None;
      var oldestTime := TWO_64 - 1;
      for i := 0 to count
        invariant oldest.None? ==> oldestTime == TWO_64 - 1
        invariant oldest.Some? ==>
                    oldest.value < i && entries[oldest.value].count == 0
                    && entries[oldest.value].lastSeen == oldestTime < TWO_64 - 1
        invariant forall k :: 0 <= k < i && entries[k].count == 0 ==> oldestTime <= entries[k].lastSeen
      {
        if entries[i].count == 0 && entries[i].lastSeen < oldestTime {
          oldest := Some(i);
          oldestTime := entries[i].lastSeen;
        }
      }
    }

    /** `ip_limiter_check_and_increment` under the shard lock. After a failed
        first scan the eviction scan cannot find anything: every slot of the
        shard has a connection. */
    method CheckAndIncrement(ip: nat, limit: nat, now: nat) returns (answer: Answer, filled: bool)
      requires Valid()
      modifies this, entries
      ensures Valid()
      ensures (Slots(), answer) == CheckSlots(old(Slots()), ip, limit, now)
      ensures filled == Fills(old(Slots()), ip)
    {
      ghost var was := Slots();
      var found, idle := Scan(ip);
      filled := false;
      if found < count {
        if entries[found].marked {
          entries[found] := entries[found].(marked := false, count := 0);
        }
        var current := entries[found].count;
        if current >= limit {
          answer := Answer(Rejected, current);
        } else {
          entries[found] := entries[found].(count := current + 1, lastSeen := now);
          answer := Answer(Ok, current + 1);
        }
        assert Slots() == was[found := entries[found]];
        return;
      }
      var empty := idle < count;
      if !empty && count < SLOTS {
        empty := true;
        count := count + 1;
      }
      if empty {
        entries[idle] := Entry(ip, 1, now, false);
        answer := Answer(Ok, 1);
        filled := true;
        assert Slots() == if idle < |was| then was[idle := entries[idle]] else was + [entries[idle]];
      } else {
        var oldest := OldestIdle();
        if oldest.Some? {
          assert false;
        }
        answer := Answer(Rejected, limit);
      }
    }

    /** `ip_limiter_decrement` under the shard lock. */
    method Decrement(ip: nat)
      requires Valid()
      modifies entries
      ensures Valid() && Slots() == ReleaseSlots(old(Slots()), ip)
    {
      var i := 0;
      while i < count
        invariant 0 <= i <= count
        invariant forall k :: 0 <= k < i ==> entries[k].ip != ip
        invariant Slots() == old(Slots())
      {
        if entries[i].ip == ip {
          var e := entries[i];
          assert Find(Slots(), ip) == i;
          entries[i] := e.(count := if e.count == 0 then TWO_32 - 1 else e.count - 1,
                           marked := e.marked || e.count <= 1);
          break;
        }
        i := i + 1;
      }
    }

    /** One shard of `ip_limiter_compact`. */
    method Compact(now: nat) returns (removed: nat)
      requires Valid()
      modifies this, entries
      ensures Valid() && Slots() == CompactSlots(old(Slots()), now)
      ensures removed == Removed(old(Slots()), now)
    {
      ghost var was := Slots();
      removed := 0;
      for j := 0 to count
        invariant Valid() && count == |was|
        invariant forall k :: 0 <= k < j ==> entries[k] == Cleared(was[k], now)
        invariant forall k :: j <= k < count ==> entries[k] == was[k]
        invariant removed == Removed(was[..j], now)
      {
        RemovedStep(was, j, now);
        if entries[j].marked && entries[j].count == 0 {
          if Elapsed(entries[j].lastSeen, now) > ENTRY_EXPIRY_NS {
            entries[j] := entries[j].(ip := 0, lastSeen := 0, marked := false);
            removed := removed + 1;
          }
        }
      }
      assert was[..count] == was;
      assert Slots() == ClearedAll(was, now);
      if removed > 0 && removed == count {
        count := 0;
      }
    }
  }

  lemma RemovedStep(slots: seq<Entry>, j: nat, now: nat)
    requires j < |slots|
    ensures Removed(slots[..j + 1], now) == Removed(slots[..j], now) + One(Expired(slots[j], now))
  {
    assert slots[..j + 1][..j] == slots[..j];
  }

  lemma SumRemovedStep(was: seq<seq<Entry>>, i: nat, now: nat)
    requires i < |was|
    ensures SumRemoved(was[..i + 1], now) == SumRemoved(was[..i], now) + Removed(was[i], now)
  {
    assert was[..i + 1][..i] == was[..i];
  }

  lemma CompactIs(l: Limiter, now: nat)
    requires Elapsed(l.lastCompaction, now) >= COMPACTION_INTERVAL_NS
    ensures Compact(l, now)
         == Limiter(CompactAll(l.shards, now), l.limit, l.total - SumRemoved(l.shards, now), l.rejections, now)
  {
  }

  class Table {
    const shards: seq<Shard>
    const shardOf: nat -> nat
    const defaultLimit: nat
    var totalEntries: int
    var rejectionsTotal: nat
    var lastCompaction: nat
    /** The table as a value. */
    ghost var model: Limiter

    ghost function Memory(): set<object> {
      (set i | 0 <= i < |shards| :: shards[i] as object)
        + (set i | 0 <= i < |shards| :: shards[i].entries as object)
    }

    ghost function Repr(): set<object> {
      {this as object} + Memory()
    }

    /** The shards hold these slots. */
    ghost predicate Holds(slots: seq<seq<Entry>>)
      reads Memory()
    {
      && |shards| == |slots| == SHARDS
      && forall s :: 0 <= s < SHARDS ==> shards[s].Valid() && shards[s].Slots() == slots[s]
    }

    ghost predicate Separate() {
      forall i, j :: 0 <= i < j < |shards| ==>
        shards[i] != shards[j] && shards[i].entries != shards[j].entries
    }

    ghost predicate Valid()
      reads this, Repr()
    {
      && Holds(model.shards)
      && Separate()
      && (forall ip :: shardOf(ip) < SHARDS)
      && model == Limiter(model.shards, defaultLimit, totalEntries, rejectionsTotal, lastCompaction)
    }

    constructor (shardOf: nat -> nat, limit: nat, now: nat)
      requires forall ip :: shardOf(ip) < SHARDS
      ensures Valid() && fresh(Repr()) && model == Init(limit, now) && this.shardOf == shardOf
    {
      var built: seq<Shard> := [];
      while |built| < SHARDS
        invariant |built| <= SHARDS
        invariant forall i :: 0 <= i < |built| ==>
                    && fresh(built[i]) && fresh(built[i].entries)
                    && built[i].Valid() && built[i].Slots() == []
        invariant forall i, j :: 0 <= i < j < |built| ==>
                    built[i] != built[j] && built[i].entries != built[j].entries
      {
        var shard := new Shard();
        built := built + [shard];
      }
      this.shards := built;
      this.shardOf := shardOf;
      defaultLimit := limit;
      totalEntries, rejectionsTotal, lastCompaction := 0, 0, now;
      model := Init(limit, now);
    }

    method CheckAndIncrement(ip: nat, now: nat) returns (answer: Answer)
      requires Valid()
      modifies Repr()
      ensures Valid()
      ensures (model, answer) == Check(old(model), shardOf(ip), ip, now)
    {
      var s := shardOf(ip);
      var filled;
      answer, filled := shards[s].CheckAndIncrement(ip, defaultLimit, now);
      if filled { totalEntries := totalEntries + 1; }
      if answer.verdict == Rejected { rejectionsTotal := rejectionsTotal + 1; }
      model := Check(model, s, ip, now).0;
    }

    method Decrement(ip: nat)
      requires Valid()
      modifies Repr()
      ensures Valid() && model == Release(old(model), shardOf(ip), ip)
    {
      shards[shardOf(ip)].Decrement(ip);
      model := Release(model, shardOf(ip), ip);
    }

    /** Part-way through a compaction: the first `i` shards are done. */
    ghost predicate Midway(was: seq<seq<Entry>>, i: nat, now: nat)
      reads Memory()
    {
      && |shards| == |was| == SHARDS
      && forall s :: 0 <= s < SHARDS ==>
           shards[s].Valid() && shards[s].Slots() == if s < i then CompactSlots(was[s], now) else was[s]
    }

    method CompactOne(ghost was: seq<seq<Entry>>, i: nat, now: nat) returns (removed: nat)
      requires i < SHARDS && Midway(was, i, now) && Separate()
      modifies Memory()
      ensures Midway(was, i + 1, now)
      ensures removed == Removed(was[i], now)
    {
      removed := shards[i].Compact(now);
    }

    /** The shard loop of `ip_limiter_compact`. */
    method CompactShards(ghost was: seq<seq<Entry>>, now: nat) returns (totalRemoved: nat)
      requires Holds(was) && Separate()
      modifies Memory()
      ensures Holds(CompactAll(was, now))
      ensures totalRemoved == SumRemoved(was, now)
    {
      totalRemoved := 0;
      for i := 0 to SHARDS
        invariant Midway(was, i, now)
        invariant totalRemoved == SumRemoved(was[..i], now)
      {
        SumRemovedStep(was, i, now);
        var removed := CompactOne(was, i, now);
        totalRemoved := totalRemoved + removed;
      }
      assert was[..SHARDS] == was;
    }

    /** `ip_limiter_compact` once the interval has passed. */
    method CompactNow(now: nat)
      requires Valid() && Elapsed(lastCompaction, now) >= COMPACTION_INTERVAL_NS
      modifies Repr()
      ensures Valid() && model == Compact(old(model), now)
    {
      CompactIs(model, now);
      ghost var shards' := CompactAll(model.shards, now);
      lastCompaction := now;
      var totalRemoved := CompactShards(model.shards, now);
      if totalRemoved > 0 {
        totalEntries := totalEntries - totalRemoved;
      }
      model := Limiter(shards', defaultLimit, totalEntries, rejectionsTotal, now);
      assert Holds(shards');
    }

    /** `ip_limiter_compact`: at most once per interval, every shard in turn. */
    method CompactTable(now: nat)
      requires Valid()
      modifies Repr()
      ensures Valid() && model == Compact(old(model), now)
    {
      if Elapsed(lastCompaction, now) < COMPACTION_INTERVAL_NS {
        return;
      }
      CompactNow(now);
    }
  }

  /** `ip_limiter_init`: refuses a zero or oversized limit. */
  method Create(limit: nat, now: nat) returns (t: Option<Table>)
    ensures t.Some? <==> 0 < limit <= 10000
    ensures t.Some? ==> fresh(t.value.Repr()) && t.value.Valid() && t.value.shardOf == ShardIndex
    ensures t.Some? ==> t.value.model == Init(limit, now)
  {
    if limit == 0 || limit > MAX_CONNECTIONS_PER_IP {
      return None;
    }
    var table := new Table(ShardIndex, limit, now);
    return Some(table);
  }
}
