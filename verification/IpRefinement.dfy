/** The slot table refines a plain map from address to live connections, over
    every run of checks, releases and compactions with non-zero addresses and
    releases of admitted connections only. */
module IpRefinement {
  import opened Counting
  import opened IpLimiter

  // ----- the plain map -------------------------------------------------------

  type Live = map<nat, nat>

  function Get(live: Live, ip: nat): nat {
    if ip in live then live[ip] else 0
  }

  /** The live addresses of one shard. */
  ghost function ShardIps(live: Live, h: nat -> nat, s: nat): set<nat> {
    set x | x in live && h(x) == s
  }

  /** Admission by the plain map: below the limit, and for a new address only
      while the shard has fewer than 256 live addresses. */
  ghost function SpecCheck(live: Live, h: nat -> nat, limit: nat, ip: nat): (Live, Answer) {
    var n := Get(live, ip);
    if n >= limit then (live, Answer(Rejected, n))
    else if n > 0 || |ShardIps(live, h, h(ip))| < SLOTS then (live[ip := n + 1], Answer(Ok, n + 1))
    else (live, Answer(Rejected, limit))
  }

  function SetLive(live: Live, ip: nat, n: nat): Live {
    if n == 0 then live - {ip} else live[ip := n]
  }

  ghost function SpecRelease(live: Live, ip: nat): Live
    requires Get(live, ip) > 0
  {
    SetLive(live, ip, Get(live, ip) - 1)
  }

  // ----- the invariant of one shard ------------------------------------------

  predicate HasIp(e: Entry) { e.ip != 0 }
  predicate IsBusy(e: Entry) { e.count > 0 }

  /** Non-zero addresses are unique; an address that is zero is an empty slot;
      the deletion mark is set exactly on idle slots that keep an address. */
  ghost predicate ShardInv(slots: seq<Entry>) {
    && |slots| <= SLOTS
    && (forall i, j :: 0 <= i < j < |slots| && slots[i].ip == slots[j].ip ==> slots[i].ip == 0)
    && (forall i :: 0 <= i < |slots| ==> (slots[i].ip == 0 ==> slots[i].count == 0))
    && (forall i :: 0 <= i < |slots| ==> (slots[i].marked <==> slots[i].count == 0 && slots[i].ip != 0))
  }

  ghost predicate Held(slots: seq<Entry>, x: nat) {
    exists i :: 0 <= i < |slots| && slots[i].ip == x
  }

  /** Shard `s` agrees with the map on its addresses. */
  ghost predicate ShardRep(slots: seq<Entry>, live: Live, h: nat -> nat, s: nat) {
    && ShardInv(slots)
    && (forall i :: 0 <= i < |slots| && slots[i].ip != 0 ==>
          h(slots[i].ip) == s && Get(live, slots[i].ip) == slots[i].count)
    && (forall x :: x in live && h(x) == s ==> live[x] > 0 && Held(slots, x))
    && 0 !in live
  }

  /** The addresses with a connection. */
  ghost function BusyIps(slots: seq<Entry>): set<nat> {
    if slots == [] then {}
    else BusyIps(slots[..|slots| - 1]) + (if IsBusy(slots[|slots| - 1]) then {slots[|slots| - 1].ip} else {})
  }

  lemma {:induction false} BusyIpsMember(slots: seq<Entry>, x: nat)
    ensures x in BusyIps(slots) <==> exists i :: 0 <= i < |slots| && IsBusy(slots[i]) && slots[i].ip == x
  {
    if slots != [] {
      var n := |slots| - 1;
      BusyIpsMember(slots[..n], x);
      assert forall i :: 0 <= i < n ==> slots[..n][i] == slots[i];
    }
  }

  lemma {:induction false} BusyIpsCount(slots: seq<Entry>)
    requires forall i, j :: 0 <= i < j < |slots| && IsBusy(slots[i]) ==> slots[i].ip != slots[j].ip
    ensures |BusyIps(slots)| == Count(slots, IsBusy)
  {
    if slots != [] {
      var n := |slots| - 1;
      BusyIpsCount(slots[..n]);
      BusyIpsMember(slots[..n], slots[n].ip);
      assert slots[n].ip !in BusyIps(slots[..n]);
    }
  }

  /** A shard has as many busy slots as the map has live addresses in it. */
  lemma BusySlots(slots: seq<Entry>, live: Live, h: nat -> nat, s: nat)
    requires ShardRep(slots, live, h, s)
    ensures |ShardIps(live, h, s)| == Count(slots, IsBusy)
  {
    BusyIpsCount(slots);
    forall x ensures x in BusyIps(slots) <==> x in ShardIps(live, h, s) {
      BusyIpsMember(slots, x);
      if x in ShardIps(live, h, s) {
        assert IsBusy(slots[Find(slots, x)]);
      }
    }
    assert BusyIps(slots) == ShardIps(live, h, s);
  }

  /** For an address the shard does not hold, room means an idle or unused slot. */
  lemma Room(slots: seq<Entry>, live: Live, h: nat -> nat, s: nat)
    requires ShardRep(slots, live, h, s)
    ensures |ShardIps(live, h, s)| < SLOTS <==> FirstIdle(slots) < |slots| || |slots| < SLOTS
  {
    BusySlots(slots, live, h, s);
    CountBound(slots, IsBusy);
    if FirstIdle(slots) < |slots| {
      assert !IsBusy(slots[FirstIdle(slots)]);
    }
  }

  // ----- one operation on its shard ------------------------------------------

  /** The slot of an address changes its count together with the map. */
  lemma UpdateSlot(slots: seq<Entry>, live: Live, h: nat -> nat, s: nat, k: nat, e: Entry)
    requires ShardRep(slots, live, h, s) && k < |slots| && e.ip == slots[k].ip != 0
    requires e.marked <==> e.count == 0
    ensures ShardRep(slots[k := e], SetLive(live, e.ip, e.count), h, s)
  {
    var slots' := slots[k := e];
    forall x | x in SetLive(live, e.ip, e.count) && h(x) == s ensures Held(slots', x) {
      var f := if x == e.ip then k else Find(slots, x);
      assert slots'[f].ip == x;
    }
  }

  lemma TakeIdleInv(slots: seq<Entry>, k: nat, e: Entry)
    requires ShardInv(slots) && k < |slots| && e.ip != 0 && Find(slots, e.ip) == |slots| && e.count > 0 && !e.marked
    ensures ShardInv(slots[k := e])
  {
  }

  lemma TakeIdleHeld(slots: seq<Entry>, k: nat, e: Entry, x: nat)
    requires k < |slots| && (x == e.ip || (Held(slots, x) && slots[k].ip != x))
    ensures Held(slots[k := e], x)
  {
    var f := if x == e.ip then k else Find(slots, x);
    assert slots[k := e][f].ip == x;
  }

  /** An address new to the shard takes over an idle slot. */
  lemma TakeIdle(slots: seq<Entry>, live: Live, h: nat -> nat, s: nat, k: nat, e: Entry)
    requires ShardRep(slots, live, h, s) && k < |slots| && slots[k].count == 0
    requires e.ip != 0 && h(e.ip) == s && Find(slots, e.ip) == |slots| && e.count > 0 && !e.marked
    ensures ShardRep(slots[k := e], SetLive(live, e.ip, e.count), h, s)
  {
    TakeIdleInv(slots, k, e);
    forall x | x in SetLive(live, e.ip, e.count) && h(x) == s ensures Held(slots[k := e], x) {
      TakeIdleHeld(slots, k, e, x);
    }
  }

  lemma TakeUnusedInv(slots: seq<Entry>, e: Entry)
    requires ShardInv(slots) && |slots| < SLOTS && e.ip != 0 && Find(slots, e.ip) == |slots|
    requires e.count > 0 && !e.marked
    ensures ShardInv(slots + [e])
  {
  }

  lemma TakeUnusedHeld(slots: seq<Entry>, e: Entry, x: nat)
    requires x == e.ip || Held(slots, x)
    ensures Held(slots + [e], x)
  {
    var f := if x == e.ip then |slots| else Find(slots, x);
    assert (slots + [e])[f].ip == x;
  }

  /** An address new to the shard takes the next unused slot. */
  lemma TakeUnused(slots: seq<Entry>, live: Live, h: nat -> nat, s: nat, e: Entry)
    requires ShardRep(slots, live, h, s) && |slots| < SLOTS
    requires e.ip != 0 && h(e.ip) == s && Find(slots, e.ip) == |slots| && e.count > 0 && !e.marked
    ensures ShardRep(slots + [e], SetLive(live, e.ip, e.count), h, s)
  {
    TakeUnusedInv(slots, e);
    forall x | x in SetLive(live, e.ip, e.count) && h(x) == s ensures Held(slots + [e], x) {
      TakeUnusedHeld(slots, e, x);
    }
  }

  /** An address that keeps a slot never lacks room. */
  lemma HeldRoom(slots: seq<Entry>, live: Live, h: nat -> nat, s: nat, ip: nat)
    requires ShardRep(slots, live, h, s) && Find(slots, ip) < |slots|
    ensures slots[Find(slots, ip)].count > 0 || |ShardIps(live, h, s)| < SLOTS
  {
    Room(slots, live, h, s);
  }

  /** What the map does for an address that keeps a slot. */
  lemma SpecHeld(slots: seq<Entry>, live: Live, h: nat -> nat, s: nat, ip: nat, limit: nat)
    requires ShardRep(slots, live, h, s) && ip != 0 && h(ip) == s && Find(slots, ip) < |slots|
    ensures var n := slots[Find(slots, ip)].count;
            && n == Get(live, ip)
            && SpecCheck(live, h, limit, ip)
               == if n < limit then (SetLive(live, ip, n + 1), Answer(Ok, n + 1)) else (live, Answer(Rejected, n))
  {
    HeldRoom(slots, live, h, s, ip);
  }

  /** What the table does for it. */
  lemma SlotHeld(slots: seq<Entry>, ip: nat, limit: nat, now: nat)
    requires ShardInv(slots) && ip != 0 && Find(slots, ip) < |slots| && limit >= 1
    ensures var f := Find(slots, ip);
            var n := slots[f].count;
            CheckSlots(slots, ip, limit, now)
            == if n < limit then (slots[f := Entry(ip, n + 1, now, false)], Answer(Ok, n + 1))
               else (slots, Answer(Rejected, n))
  {
    var f := Find(slots, ip);
    assert slots[f := slots[f]] == slots;
  }

  lemma CheckHeld(slots: seq<Entry>, live: Live, h: nat -> nat, s: nat, ip: nat, limit: nat, now: nat)
    requires ShardRep(slots, live, h, s) && ip != 0 && h(ip) == s && limit >= 1
    requires Find(slots, ip) < |slots|
    ensures var (slots', a) := CheckSlots(slots, ip, limit, now);
            var (live', a') := SpecCheck(live, h, limit, ip);
            a == a' && ShardRep(slots', live', h, s)
  {
    var f := Find(slots, ip);
    SpecHeld(slots, live, h, s, ip, limit);
    SlotHeld(slots, ip, limit, now);
    if slots[f].count < limit {
      UpdateSlot(slots, live, h, s, f, Entry(ip, slots[f].count + 1, now, false));
    }
  }

  lemma CheckFresh(slots: seq<Entry>, live: Live, h: nat -> nat, s: nat, ip: nat, limit: nat, now: nat)
    requires ShardRep(slots, live, h, s) && ip != 0 && h(ip) == s && limit >= 1
    requires Find(slots, ip) == |slots|
    ensures var (slots', a) := CheckSlots(slots, ip, limit, now);
            var (live', a') := SpecCheck(live, h, limit, ip);
            a == a' && ShardRep(slots', live', h, s)
  {
    var k := FirstIdle(slots);
    Room(slots, live, h, s);
    assert Get(live, ip) == 0;
    if k < |slots| {
      TakeIdle(slots, live, h, s, k, Entry(ip, 1, now, false));
    } else if |slots| < SLOTS {
      TakeUnused(slots, live, h, s, Entry(ip, 1, now, false));
    }
  }

  lemma ReleaseShard(slots: seq<Entry>, live: Live, h: nat -> nat, s: nat, ip: nat)
    requires ShardRep(slots, live, h, s) && Get(live, ip) > 0 && h(ip) == s
    ensures ShardRep(ReleaseSlots(slots, ip), SpecRelease(live, ip), h, s)
  {
    var f := Find(slots, ip);
    UpdateSlot(slots, live, h, s, f, ReleaseSlots(slots, ip)[f]);
  }

  lemma {:induction false} RemovedAll(slots: seq<Entry>, now: nat)
    ensures Removed(slots, now) <= |slots|
    ensures Removed(slots, now) == |slots| ==> forall i :: 0 <= i < |slots| ==> Expired(slots[i], now)
  {
    if slots != [] {
      var n := |slots| - 1;
      RemovedAll(slots[..n], now);
      if Removed(slots, now) == |slots| {
        forall i | 0 <= i < |slots| ensures Expired(slots[i], now) {
          if i < n { assert slots[i] == slots[..n][i]; }
        }
      }
    }
  }

  /** Compaction never changes what the map sees, whatever the clock says. */
  lemma CompactShard(slots: seq<Entry>, live: Live, h: nat -> nat, s: nat, now: nat)
    requires ShardRep(slots, live, h, s)
    ensures ShardRep(CompactSlots(slots, now), live, h, s)
  {
    RemovedAll(slots, now);
    var cleared := ClearedAll(slots, now);
    forall x | x in live && h(x) == s
      ensures Held(cleared, x)
      ensures exists i :: 0 <= i < |slots| && !Expired(slots[i], now)
    {
      var f := Find(slots, x);
      assert !Expired(slots[f], now) && cleared[f].ip == x;
    }
  }

  /** A change of the map at one address concerns only that address's shard. */
  lemma OtherShard(slots: seq<Entry>, live: Live, live': Live, h: nat -> nat, s: nat, ip: nat)
    requires ShardRep(slots, live, h, s) && h(ip) != s && ip != 0
    requires forall x :: x != ip ==> Get(live, x) == Get(live', x) && (x in live <==> x in live')
    ensures ShardRep(slots, live', h, s)
  {
    forall x | x in live' && h(x) == s ensures live'[x] > 0 {
      assert x in live && Get(live, x) == Get(live', x);
    }
  }

  // ----- the whole table -----------------------------------------------------

  ghost predicate Rep(l: Limiter, live: Live, h: nat -> nat) {
    && |l.shards| == SHARDS && l.limit >= 1
    && (forall ip :: h(ip) < SHARDS)
    && (forall s :: 0 <= s < SHARDS ==> ShardRep(l.shards[s], live, h, s))
  }

  lemma CheckRefines(l: Limiter, live: Live, h: nat -> nat, ip: nat, now: nat)
    requires Rep(l, live, h) && ip != 0
    ensures var (l', a) := Check(l, h(ip), ip, now);
            var (live', a') := SpecCheck(live, h, l.limit, ip);
            a == a' && Rep(l', live', h)
  {
    var (l', a) := Check(l, h(ip), ip, now);
    var (live', a') := SpecCheck(live, h, l.limit, ip);
    if Find(l.shards[h(ip)], ip) < |l.shards[h(ip)]| {
      CheckHeld(l.shards[h(ip)], live, h, h(ip), ip, l.limit, now);
    } else {
      CheckFresh(l.shards[h(ip)], live, h, h(ip), ip, l.limit, now);
    }
    forall s | 0 <= s < SHARDS && s != h(ip) ensures ShardRep(l'.shards[s], live', h, s) {
      OtherShard(l.shards[s], live, live', h, s, ip);
    }
  }

  lemma ReleaseRefines(l: Limiter, live: Live, h: nat -> nat, ip: nat)
    requires Rep(l, live, h) && Get(live, ip) > 0
    ensures Rep(Release(l, h(ip), ip), SpecRelease(live, ip), h)
  {
    assert ShardRep(l.shards[h(ip)], live, h, h(ip));
    ReleaseShard(l.shards[h(ip)], live, h, h(ip), ip);
    forall s | 0 <= s < SHARDS && s != h(ip)
      ensures ShardRep(Release(l, h(ip), ip).shards[s], SpecRelease(live, ip), h, s)
    {
      OtherShard(l.shards[s], live, SpecRelease(live, ip), h, s, ip);
    }
  }

  lemma CompactRefines(l: Limiter, live: Live, h: nat -> nat, now: nat)
    requires Rep(l, live, h)
    ensures Rep(Compact(l, now), live, h)
  {
    forall s | 0 <= s < SHARDS ensures ShardRep(CompactSlots(l.shards[s], now), live, h, s) {
      CompactShard(l.shards[s], live, h, s, now);
    }
  }
}
