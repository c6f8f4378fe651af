/** The backend connection pool and the proxy path that uses it together with
    the circuit breaker, with calls one at a time. */
module BackendPool {
  import opened Counting
  import opened ConnectionHealth
  import opened Options
  import CB = CircuitBreaker

  datatype Conn = Conn(inUse: bool, lastUsed: int, vitals: Vitals)

  const IDLE_TIMEOUT_SEC: int := 60
  const MAX_SIZE: nat := 20

  predicate InUse(c: Conn) { c.inUse }

  predicate Usable(c: Conn) { !c.inUse && c.vitals.health != Unhealthy }

  predicate Stale(c: Conn, now: int) { now - c.lastUsed > IDLE_TIMEOUT_SEC }

  /** Whether a connection can be handed out now, given how a reconnect goes. */
  predicate Fit(c: Conn, now: int, reconnects: bool) {
    Usable(c) && (Stale(c, now) ==> reconnects)
  }

  /** A connection the scan passed over: unhealthy if its reconnect failed. */
  function Passed(c: Conn): Conn {
    if Usable(c) then c.(vitals := c.vitals.(health := Unhealthy)) else c
  }

  function Taken(c: Conn, now: int): Conn {
    c.(inUse := true, lastUsed := if Stale(c, now) then now else c.lastUsed)
  }

  class Pool {
    const conns: array<Conn>
    var activeCount: int
    var idleCount: int

    /** The two counters are exact between calls. */
    ghost predicate Valid()
      reads this, conns
    {
      activeCount == Count(conns[..], InUse) && idleCount == conns.Length - Count(conns[..], InUse)
    }

    /** A pool of this many new connections. */
    constructor (size: nat, now: int)
      requires size <= MAX_SIZE
      ensures Valid() && fresh(conns) && conns.Length == size
      ensures forall i :: 0 <= i < size ==> conns[i] == Conn(false, now, NEW)
    {
      conns := new Conn[size](_ => Conn(false, now, NEW));
      activeCount, idleCount := 0, size;
      new;
      NoneInUse(conns[..]);
    }

    /** One turn of the scan: takes the connection if it is fit, and marks it
        unhealthy if it is stale and its reconnect fails. */
    method TryTake(i: nat, now: int, reconnects: bool) returns (taken: bool)
      requires Valid() && i < conns.Length
      modifies this, conns
      ensures Valid() && taken == Fit(old(conns[i]), now, reconnects)
      ensures conns[..] == old(conns[..])[i := if taken then Taken(old(conns[i]), now) else Passed(old(conns[i]))]
      ensures activeCount == old(activeCount) + (if taken then 1 else 0)
      ensures idleCount == old(idleCount) - (if taken then 1 else 0)
    {
      ghost var before := conns[..];
      var c := conns[i];
      if !c.inUse && c.vitals.health != Unhealthy {
        if now - c.lastUsed > IDLE_TIMEOUT_SEC {
          if !reconnects {
            conns[i] := c.(vitals := c.vitals.(health := Unhealthy));
            CountUpdate(before, i, conns[i], InUse);
            return false;
          }
          c := c.(lastUsed := now);
        }
        conns[i] := c.(inUse := true);
        activeCount := activeCount + 1;
        idleCount := idleCount - 1;
        CountUpdate(before, i, conns[i], InUse);
        return true;
      }
      return false;
    }

    /** `backend_pool_acquire`: the first fit connection, or none; every stale
        one whose reconnect failed before it is unhealthy from now on. */
    method Acquire(now: int, reconnects: nat -> bool) returns (got: Option<nat>)
      requires Valid()
      modifies this, conns
      ensures Valid()
      ensures got.None? ==> forall i :: 0 <= i < conns.Length ==>
                !Fit(old(conns[i]), now, reconnects(i)) && conns[i] == Passed(old(conns[i]))
      ensures got.Some? ==>
                && got.value < conns.Length
                && Fit(old(conns[got.value]), now, reconnects(got.value))
                && conns[got.value] == Taken(old(conns[got.value]), now)
      ensures got.Some? ==> forall i :: 0 <= i < got.value ==>
                !Fit(old(conns[i]), now, reconnects(i)) && conns[i] == Passed(old(conns[i]))
      ensures got.Some? ==> forall i :: got.value < i < conns.Length ==> conns[i] == old(conns[i])
      ensures activeCount == old(activeCount) + (if got.Some? then 1 else 0)
      ensures idleCount == old(idleCount) - (if got.Some? then 1 else 0)
    {
      var i := 0;
      while i < conns.Length
        invariant 0 <= i <= conns.Length
        invariant forall k :: 0 <= k < i ==>
                    !Fit(old(conns[k]), now, reconnects(k)) && conns[k] == Passed(old(conns[k]))
        invariant forall k :: i <= k < conns.Length ==> conns[k] == old(conns[k])
        invariant Valid() && activeCount == old(activeCount) && idleCount == old(idleCount)
      {
        ghost var before := conns[..];
        var taken := TryTake(i, now, reconnects(i));
        assert forall k :: 0 <= k < conns.Length && k != i ==> conns[..][k] == before[k];
        if taken { return Some(i); }
        i := i + 1;
      }
      return None;
    }

    /** `backend_pool_release`. Releasing a connection that is not in use moves
        the counters all the same, and they are exact afterwards if and only if
        the connection was in use. */
    method Release(k: nat, now: int)
      requires Valid() && k < conns.Length
      modifies this, conns
      ensures conns[..] == old(conns[..])[k := old(conns[k]).(inUse := false, lastUsed := now)]
      ensures activeCount == old(activeCount) - 1 && idleCount == old(idleCount) + 1
      ensures Valid() <==> old(conns[k]).inUse
    {
      ghost var before := conns[..];
      conns[k] := conns[k].(inUse := false);
      conns[k] := conns[k].(lastUsed := now);
      activeCount := activeCount - 1;
      idleCount := idleCount + 1;
      CountUpdate(before, k, conns[k], InUse);
      assert conns[..] == before[k := conns[k]];
    }

    /** `backend_pool_mark_success` and `backend_pool_mark_failure`. */
    method MarkConn(k: nat, ok: bool)
      requires Valid() && k < conns.Length
      modifies conns
      ensures Valid()
      ensures conns[..] == old(conns[..])[k := old(conns[k]).(vitals := Mark(old(conns[k]).vitals, ok))]
    {
      ghost var before := conns[..];
      var v := conns[k].vitals;
      if ok {
        v := v.(failures := 0);
        v := v.(successes := v.successes + 1);
        if v.successes >= 2 && v.health != Healthy {
          v := v.(health := Healthy);
        }
      } else {
        v := v.(successes := 0);
        v := v.(failures := v.failures + 1);
        if v.failures >= 3 {
          v := v.(health := Unhealthy);
        }
      }
      conns[k] := conns[k].(vitals := v);
      CountUpdate(before, k, conns[k], InUse);
      assert conns[..] == before[k := conns[k]];
    }
  }

  lemma {:induction false} NoneInUse(cs: seq<Conn>)
    requires forall i :: 0 <= i < |cs| ==> !cs[i].inUse
    ensures Count(cs, InUse) == 0
  {
    if cs != [] {
      NoneInUse(cs[..|cs| - 1]);
    }
  }

  /** `backend_pool_create`: no pool for a size out of range, otherwise one with
      the connections made before the first failure, possibly none. */
  method CreatePool(poolSize: int, made: nat -> bool, now: int) returns (pool: Option<Pool>)
    ensures pool.Some? <==> 0 < poolSize <= 20
    ensures pool.Some? ==>
              && fresh(pool.value) && fresh(pool.value.conns) && pool.value.Valid()
              && var size := pool.value.conns.Length;
                 && size <= poolSize && (forall i :: 0 <= i < size ==> made(i))
                 && (size < poolSize ==> !made(size))
                 && (forall i :: 0 <= i < size ==> pool.value.conns[i] == Conn(false, now, NEW))
  {
    if poolSize <= 0 || poolSize > MAX_SIZE { return None; }
    var i := 0;
    while i < poolSize
      invariant 0 <= i <= poolSize && forall k :: 0 <= k < i ==> made(k)
    {
      if !made(i) { break; }
      i := i + 1;
    }
    var p := new Pool(i, now);
    return Some(p);
  }

  // ----- the proxy path ------------------------------------------------------

  datatype Outcome = Refused | NoConnection | SendFailed | ReceiveFailed | Served

  predicate Used(o: Outcome) { o == SendFailed || o == ReceiveFailed || o == Served }

  /** The breaker after one proxied request. */
  function BreakerAfter(b: CB.Breaker, c: CB.Config, o: Outcome, asked: int, done: int): CB.Breaker {
    var a := CB.Allow(b, c, asked).0;
    match o
    case Refused => a
    case Served => CB.RecordSuccess(a, done)
    case _ => CB.RecordFailure(a, c, done)
  }

  /** A history of the breaker after one more proxied request. */
  function Extended(calls: seq<CB.Call>, o: Outcome, asked: int, done: int): seq<CB.Call> {
    if o == Refused then calls + [CB.Ask(asked)]
    else if o == Served then (calls + [CB.Ask(asked)]) + [CB.Success(done)]
    else (calls + [CB.Ask(asked)]) + [CB.Failure(done)]
  }

  /** A proxied request is a question to the breaker and, if it was admitted, one
      result: a success if it was served and a failure otherwise, also when no
      connection could be had. */
  lemma ProxyHistory(c: CB.Config, start: int, calls: seq<CB.Call>, o: Outcome, asked: int, done: int)
    ensures BreakerAfter(CB.After(c, start, calls), c, o, asked, done)
         == CB.After(c, start, Extended(calls, o, asked, done))
  {
    if o == Refused {
      CB.AfterOneMore(c, start, calls, CB.Ask(asked));
    } else if o == Served {
      CB.AfterTwoMore(c, start, calls, CB.Ask(asked), CB.Success(done));
    } else {
      CB.AfterTwoMore(c, start, calls, CB.Ask(asked), CB.Failure(done));
    }
  }

  /** So in a closed breaker every request that fails, for want of a connection
      or on the way, adds one to the failure streak, and the one that brings it to
      the threshold opens the breaker; a served one ends the streak. */
  lemma ProxyStreak(c: CB.Config, start: int, calls: seq<CB.Call>, o: Outcome, asked: int, done: int)
    requires CB.After(c, start, calls).position == CB.Closed && o != Refused
    ensures var b := BreakerAfter(CB.After(c, start, calls), c, o, asked, done);
            && (o == Served ==> b.position == CB.Closed && b.failures == 0)
            && (o != Served ==> b.failures == CB.Streak(calls) + 1)
            && (o != Served ==> (b.position == CB.Open <==> CB.Streak(calls) + 1 >= CB.AtLeastOne(c.threshold)))
  {
    CB.Accounting(c, start, calls);
  }

  /** The end of a request that held connection `k`: mark it, tell the breaker,
      give it back. */
  method Conclude(pool: Pool, breaker: CB.CircuitBreaker, k: nat, ok: bool, done: int)
    requires pool.Valid() && k < pool.conns.Length && pool.conns[k].inUse
    modifies pool, pool.conns, breaker
    ensures pool.Valid()
    ensures pool.activeCount == old(pool.activeCount) - 1 && pool.idleCount == old(pool.idleCount) + 1
    ensures pool.conns[..] == old(pool.conns[..])[k := Conn(false, done, Mark(old(pool.conns[k]).vitals, ok))]
    ensures breaker.Abs() == if ok then CB.RecordSuccess(old(breaker.Abs()), done)
                             else CB.RecordFailure(old(breaker.Abs()), breaker.config, done)
  {
    pool.MarkConn(k, ok);
    if ok {
      breaker.Succeeded(done);
    } else {
      breaker.Failed(done);
    }
    pool.Release(k, done);
  }

  /** Sending the request over connection `k`, receiving the response, and what
      the connection and the breaker are told about it. */
  method Exchange(pool: Pool, breaker: CB.CircuitBreaker, k: nat, sendOk: bool, receiveOk: bool, done: int)
    returns (outcome: Outcome)
    requires pool.Valid() && k < pool.conns.Length && pool.conns[k].inUse
    modifies pool, pool.conns, breaker
    ensures pool.Valid()
    ensures outcome == if !sendOk then SendFailed else if !receiveOk then ReceiveFailed else Served
    ensures pool.activeCount == old(pool.activeCount) - 1 && pool.idleCount == old(pool.idleCount) + 1
    ensures pool.conns[..]
         == old(pool.conns[..])[k := Conn(false, done, Mark(old(pool.conns[k]).vitals, outcome == Served))]
    ensures breaker.Abs() == if outcome == Served then CB.RecordSuccess(old(breaker.Abs()), done)
                             else CB.RecordFailure(old(breaker.Abs()), breaker.config, done)
  {
    if !sendOk {
      Conclude(pool, breaker, k, false, done);
      return SendFailed;
    }
    if !receiveOk {
      Conclude(pool, breaker, k, false, done);
      return ReceiveFailed;
    }
    Conclude(pool, breaker, k, true, done);
    return Served;
  }

  /** `proxy_to_backend_pooled`, with the network as inputs: it asks the breaker
      once, and if admitted records exactly one result there; a connection it
      takes is marked exactly once, with the same result, and is released on
      every path, so that the pool's counters and who is in use are as before. */
  method ProxyPooled(pool: Pool, breaker: CB.CircuitBreaker, asked: int, taken: int, done: int,
                     reconnects: nat -> bool, sendOk: bool, receiveOk: bool)
    returns (outcome: Outcome, used: Option<nat>)
    requires pool.Valid()
    modifies pool, pool.conns, breaker
    ensures pool.Valid()
    ensures breaker.Abs() == BreakerAfter(old(breaker.Abs()), breaker.config, outcome, asked, done)
    ensures outcome == Refused <==> !CB.Allow(old(breaker.Abs()), breaker.config, asked).1
    ensures Used(outcome) ==>
              outcome == if !sendOk then SendFailed else if !receiveOk then ReceiveFailed else Served
    ensures used.Some? <==> Used(outcome)
    ensures outcome == NoConnection ==> forall i :: 0 <= i < pool.conns.Length ==>
              !Fit(old(pool.conns[i]), taken, reconnects(i))
    ensures pool.activeCount == old(pool.activeCount) && pool.idleCount == old(pool.idleCount)
    ensures forall i :: 0 <= i < pool.conns.Length ==> pool.conns[i].inUse == old(pool.conns[i]).inUse
    ensures used.Some? ==>
              && used.value < pool.conns.Length
              && Fit(old(pool.conns[used.value]), taken, reconnects(used.value))
              && pool.conns[used.value]
                 == Conn(false, done, Mark(old(pool.conns[used.value]).vitals, outcome == Served))
    ensures outcome == Refused ==> pool.conns[..] == old(pool.conns[..])
    ensures outcome != Refused ==> forall i :: 0 <= i < pool.conns.Length && used != Some(i) ==>
              pool.conns[i] == (if used.Some? && i > used.value then old(pool.conns[i]) else Passed(old(pool.conns[i])))
  {
    used := None;
    var allowed := breaker.AllowRequest(asked);
    if !allowed {
      return Refused, None;
    }
    used := pool.Acquire(taken, reconnects);
    if used.None? {
      breaker.Failed(done);
      return NoConnection, None;
    }
    ghost var held := pool.conns[..];
    outcome := Exchange(pool, breaker, used.value, sendOk, receiveOk, done);
    assert forall i :: 0 <= i < pool.conns.Length && i != used.value ==> pool.conns[..][i] == held[i];
  }
}
