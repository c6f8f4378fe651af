/** The per-address connection limiter: a sharded slot table with lazy deletion,
    slot recycling and periodic compaction, against a plain map from address to
    number of live connections. Operations lock their shard, so each operation
    on a shard is one step. */
module IpLimiter {
  import opened Counting

  const SHARDS: nat := 256
  const SLOTS: nat := 256
  const MAX_CONNECTIONS_PER_IP: nat := 10000
  const COMPACTION_INTERVAL_NS: nat := 5000000000
  const ENTRY_EXPIRY_NS: nat := 60000000000
  const TWO_32: nat := 0x1_0000_0000
  const TWO_64: nat := 0x1_0000_0000_0000_0000

  datatype Entry = Entry(ip: nat, count: nat, lastSeen: nat, marked: bool)
  datatype Verdict = Ok | Rejected

  /** What a check returns: the verdict and the count it reports. */
  datatype Answer = Answer(verdict: Verdict, current: nat)

  // ----- one shard -----------------------------------------------------------

  /** First slot of an address, or the length. */
  function Find(slots: seq<Entry>, ip: nat): (k: nat)
    ensures k <= |slots|
    ensures k < |slots| ==> slots[k].ip == ip
    ensures forall i :: 0 <= i < k ==> slots[i].ip != ip
  {
    if slots == [] then 0
    else if slots[0].ip == ip then 0
    else 1 + Find(slots[1..], ip)
  }

  /** First slot with no connection, or the length. */
  function FirstIdle(slots: seq<Entry>): (k: nat)
    ensures k <= |slots|
    ensures k < |slots| ==> slots[k].count == 0
    ensures forall i :: 0 <= i < k ==> slots[i].count != 0
  {
    if slots == [] then 0
    else if slots[0].count == 0 then 0
    else 1 + FirstIdle(slots[1..])
  }

  /** The entry a check finds, with a pending deletion cancelled. */
  function Revived(e: Entry): Entry {
    if e.marked then e.(marked := false, count := 0) else e
  }

  function CheckSlots(slots: seq<Entry>, ip: nat, limit: nat, now: nat): (seq<Entry>, Answer) {
    var f := Find(slots, ip);
    if f < |slots| then
      var e := Revived(slots[f]);
      if e.count >= limit then (slots[f := e], Answer(Rejected, e.count))
      else (slots[f := e.(count := e.count + 1, lastSeen := now)], Answer(Ok, e.count + 1))
    else
      var k := FirstIdle(slots);
      if k < |slots| then (slots[k := Entry(ip, 1, now, false)], Answer(Ok, 1))
      else if |slots| < SLOTS then (slots + [Entry(ip, 1, now, false)], Answer(Ok, 1))
      else (slots, Answer(Rejected, limit))
  }

  /** Whether a check fills a slot that was not the address's own. */
  predicate Fills(slots: seq<Entry>, ip: nat) {
    Find(slots, ip) == |slots| && (FirstIdle(slots) < |slots| || |slots| < SLOTS)
  }

  /** Whether a check takes over the slot of another address. */
  predicate RecyclesStale(slots: seq<Entry>, ip: nat) {
    Find(slots, ip) == |slots| && FirstIdle(slots) < |slots| && slots[FirstIdle(slots)].ip != 0
  }

  /** The 32-bit counter wraps below zero. */
  function ReleaseSlots(slots: seq<Entry>, ip: nat): (r: seq<Entry>)
    ensures |r| == |slots|
  {
    var f := Find(slots, ip);
    if f == |slots| then slots
    else
      var e := slots[f];
      slots[f := e.(count := if e.count == 0 then TWO_32 - 1 else e.count - 1,
                    marked := e.marked || e.count <= 1)]
  }

  /** Unsigned 64-bit difference of two clock readings. */
  function Elapsed(since: nat, now: nat): nat {
    (now - since) % TWO_64
  }

  predicate Expired(e: Entry, now: nat) {
    e.marked && e.count == 0 && Elapsed(e.lastSeen, now) > ENTRY_EXPIRY_NS
  }

  function Cleared(e: Entry, now: nat): Entry {
    if Expired(e, now) then e.(ip := 0, lastSeen := 0, marked := false) else e
  }

  function ClearedAll(slots: seq<Entry>, now: nat): (r: seq<Entry>)
    ensures |r| == |slots| && forall i :: 0 <= i < |slots| ==> r[i] == Cleared(slots[i], now)
  {
    seq(|slots|, i requires 0 <= i < |slots| => Cleared(slots[i], now))
  }

  function Removed(slots: seq<Entry>, now: nat): nat {
    if slots == [] then 0
    else Removed(slots[..|slots| - 1], now) + One(Expired(slots[|slots| - 1], now))
  }

  function CompactSlots(slots: seq<Entry>, now: nat): seq<Entry> {
    if Removed(slots, now) > 0 && Removed(slots, now) == |slots| then [] else ClearedAll(slots, now)
  }

  // ----- the table -----------------------------------------------------------

  /** The limiter's fields; `total` and `rejections` are its 64-bit counters. */
  datatype Limiter = Limiter(shards: seq<seq<Entry>>, limit: nat, total: int, rejections: nat, lastCompaction: nat)

  function Init(limit: nat, now: nat): Limiter {
    Limiter(seq(SHARDS, _ => []), limit, 0, 0, now)
  }

  function Check(l: Limiter, s: nat, ip: nat, now: nat): (Limiter, Answer)
    requires s < |l.shards|
  {
    var (slots, a) := CheckSlots(l.shards[s], ip, l.limit, now);
    (l.(shards := l.shards[s := slots],
        total := if Fills(l.shards[s], ip) then l.total + 1 else l.total,
        rejections := if a.verdict == Rejected then l.rejections + 1 else l.rejections), a)
  }

  function Release(l: Limiter, s: nat, ip: nat): Limiter
    requires s < |l.shards|
  {
    l.(shards := l.shards[s := ReleaseSlots(l.shards[s], ip)])
  }

  function SumRemoved(shards: seq<seq<Entry>>, now: nat): nat {
    if shards == [] then 0
    else SumRemoved(shards[..|shards| - 1], now) + Removed(shards[|shards| - 1], now)
  }

  function CompactAll(shards: seq<seq<Entry>>, now: nat): (r: seq<seq<Entry>>)
    ensures |r| == |shards|
    ensures forall s :: 0 <= s < |shards| ==> r[s] == CompactSlots(shards[s], now)
  {
    seq(|shards|, s requires 0 <= s < |shards| => CompactSlots(shards[s], now))
  }

  function Compact(l: Limiter, now: nat): Limiter {
    if Elapsed(l.lastCompaction, now) < COMPACTION_INTERVAL_NS then l
    else l.(shards := CompactAll(l.shards, now),
            total := l.total - SumRemoved(l.shards, now),
            lastCompaction := now)
  }

  // ----- the hash ------------------------------------------------------------

  function HashIp(ip: bv32): bv32 {
    var a := ip * 2654435761;
    var b := (a ^ (a >> 16)) * 2654435761;
    (b ^ (b >> 16)) * 2654435761
  }

  function LowByte(h: bv32): (s: nat)
    ensures s < SHARDS
  {
    (h & 0xff) as nat
  }

  /** `get_shard_index` of a 32-bit address. */
  function ShardIndex(ip: nat): (s: nat)
    ensures s < SHARDS
  {
    LowByte(HashIp((ip % TWO_32) as bv32))
  }
}
