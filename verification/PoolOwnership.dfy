/** The connection pool under interleaving. An acquire holds the pool lock while
    it scans, and takes one connection at a time under that connection's lock; a
    release takes only the connection's lock, and updates the two counters
    afterwards without any lock. */
module PoolOwnership {
  import opened Counting
  import opened ConnectionHealth
  import opened BackendPool

  /** Where a caller is. Scanning at `i`: next it looks at connection `i`.
      Took and TookActive: it has the connection, with both counters or only
      the idle counter still to change. Freed and FreedActive: likewise after
      giving it back. */
  datatype Caller =
    | Out
    | Scanning(at: nat)
    | Took(conn: nat)
    | TookActive(conn: nat)
    | Holding(conn: nat, marked: bool)
    | Freed
    | FreedActive

  /** `logs` records, per connection, its marked holds and failed reconnects, and
      `touched` when it was last made, reconnected or given back. */
  datatype State = State(
    conns: seq<Conn>,
    active: int,
    idle: int,
    callers: seq<Caller>,
    logs: seq<seq<Event>>,
    touched: seq<int>)

  predicate HasPoolLock(c: Caller) { c.Scanning? || c.Took? || c.TookActive? }
  predicate IsTook(c: Caller) { c.Took? }
  predicate IsTaking(c: Caller) { c.Took? || c.TookActive? }
  predicate IsFreed(c: Caller) { c.Freed? }
  predicate IsFreeing(c: Caller) { c.Freed? || c.FreedActive? }

  predicate Owns(c: Caller, k: nat) {
    (c.Took? || c.TookActive? || c.Holding?) && c.conn == k
  }

  datatype Step =
    | Begin
    | Look(now: int, reconnects: bool)
    | Miss
    | CountActive
    | CountIdle
    | MarkHeld(ok: bool)
    | Free(now: int)
    | UncountActive
    | UncountIdle

  ghost predicate LockFree(st: State) {
    forall i :: 0 <= i < |st.callers| ==> !HasPoolLock(st.callers[i])
  }

  ghost predicate Enabled(st: State, c: nat, step: Step) {
    c < |st.callers| &&
    match step
    case Begin => st.callers[c].Out? && LockFree(st)
    case Look(_, _) => st.callers[c].Scanning? && st.callers[c].at < |st.conns|
    case Miss => st.callers[c].Scanning? && st.callers[c].at >= |st.conns|
    case CountActive => st.callers[c].Took?
    case CountIdle => st.callers[c].TookActive?
    case MarkHeld(_) => st.callers[c].Holding? && !st.callers[c].marked && st.callers[c].conn < |st.conns|
    case Free(_) => st.callers[c].Holding? && st.callers[c].conn < |st.conns|
    case UncountActive => st.callers[c].Freed?
    case UncountIdle => st.callers[c].FreedActive?
  }

  function Move(st: State, c: nat, to: Caller): State
    requires c < |st.callers|
  {
    st.(callers := st.callers[c := to])
  }

  function Noted(logs: seq<seq<Event>>, k: nat, e: Event): seq<seq<Event>> {
    if k < |logs| then logs[k := logs[k] + [e]] else logs
  }

  function Touched(touched: seq<int>, k: nat, now: int): seq<int> {
    if k < |touched| then touched[k := now] else touched
  }

  function Looked(st: State, c: nat, now: int, reconnects: bool): State
    requires c < |st.callers| && st.callers[c].Scanning? && st.callers[c].at < |st.conns|
  {
    var k := st.callers[c].at;
    var conn := st.conns[k];
    if Fit(conn, now, reconnects) then
      var touched := if k < |st.touched| && now - st.touched[k] > 60 then Touched(st.touched, k, now) else st.touched;
      Move(st.(conns := st.conns[k := Taken(conn, now)], touched := touched), c, Took(k))
    else
      var logs := if Usable(conn) then Noted(st.logs, k, ReconnectFailed) else st.logs;
      Move(st.(conns := st.conns[k := Passed(conn)], logs := logs), c, Scanning(k + 1))
  }

  ghost function Next(st: State, c: nat, step: Step): State
    requires Enabled(st, c, step)
  {
    var me := st.callers[c];
    match step
    case Begin => Move(st, c, Scanning(0))
    case Look(now, reconnects) => Looked(st, c, now, reconnects)
    case Miss => Move(st, c, Out)
    case CountActive => Move(st.(active := st.active + 1), c, TookActive(me.conn))
    case CountIdle => Move(st.(idle := st.idle - 1), c, Holding(me.conn, false))
    case MarkHeld(ok) =>
      var conn := st.conns[me.conn];
      Move(st.(conns := st.conns[me.conn := conn.(vitals := Mark(conn.vitals, ok))],
               logs := Noted(st.logs, me.conn, Hold(ok))), c, Holding(me.conn, true))
    case Free(now) =>
      Move(st.(conns := st.conns[me.conn := st.conns[me.conn].(inUse := false, lastUsed := now)],
               touched := Touched(st.touched, me.conn, now)), c, Freed)
    case UncountActive => Move(st.(active := st.active - 1), c, FreedActive)
    case UncountIdle => Move(st.(idle := st.idle + 1), c, Out)
  }

  // ----- the invariant -------------------------------------------------------

  /** A connection in use has an owner; an owned connection is in use; and no
      two callers own the same one. An owner that has not marked yet has a
      connection that is not unhealthy. */
  ghost predicate Ownership(st: State) {
    && (forall k :: 0 <= k < |st.conns| && st.conns[k].inUse ==>
          exists c :: 0 <= c < |st.callers| && Owns(st.callers[c], k))
    && (forall c :: 0 <= c < |st.callers| && (IsTaking(st.callers[c]) || st.callers[c].Holding?) ==>
          && st.callers[c].conn < |st.conns|
          && st.conns[st.callers[c].conn].inUse
          && (IsTaking(st.callers[c]) || !st.callers[c].marked ==>
                st.conns[st.callers[c].conn].vitals.health != Unhealthy))
    && (forall c, d, k :: 0 <= c < d < |st.callers| && Owns(st.callers[c], k) ==> !Owns(st.callers[d], k))
  }

  ghost predicate OneScanner(st: State) {
    forall c, d :: 0 <= c < d < |st.callers| ==> !(HasPoolLock(st.callers[c]) && HasPoolLock(st.callers[d]))
  }

  /** The counters differ from the truth by exactly the updates under way. */
  ghost predicate CountersOk(st: State) {
    var busy := Count(st.conns, InUse);
    && st.active == busy - Count(st.callers, IsTook) + Count(st.callers, IsFreed)
    && st.idle == |st.conns| - busy + Count(st.callers, IsTaking) - Count(st.callers, IsFreeing)
  }

  ghost predicate Inv(st: State) {
    Ownership(st) && OneScanner(st) && CountersOk(st)
  }

  /** How the four counts of callers move when one caller moves. */
  lemma MoveCounts(st: State, c: nat, to: Caller)
    requires c < |st.callers|
    ensures var me, cs := st.callers[c], st.callers[c := to];
            && Count(cs, IsTook) + One(IsTook(me)) == Count(st.callers, IsTook) + One(IsTook(to))
            && Count(cs, IsTaking) + One(IsTaking(me)) == Count(st.callers, IsTaking) + One(IsTaking(to))
            && Count(cs, IsFreed) + One(IsFreed(me)) == Count(st.callers, IsFreed) + One(IsFreed(to))
            && Count(cs, IsFreeing) + One(IsFreeing(me)) == Count(st.callers, IsFreeing) + One(IsFreeing(to))
  {
    CountUpdate(st.callers, c, to, IsTook);
    CountUpdate(st.callers, c, to, IsTaking);
    CountUpdate(st.callers, c, to, IsFreed);
    CountUpdate(st.callers, c, to, IsFreeing);
  }

  /** One caller moves, and busy connections and counters change with it. */
  lemma CountersShift(st: State, st': State, c: nat, to: Caller)
    requires CountersOk(st) && c < |st.callers| && st'.callers == st.callers[c := to] && |st'.conns| == |st.conns|
    requires var me, busy := st.callers[c], Count(st'.conns, InUse) - Count(st.conns, InUse);
             && st'.active - st.active == busy - (One(IsTook(to)) - One(IsTook(me))) + (One(IsFreed(to)) - One(IsFreed(me)))
             && st'.idle - st.idle
                == -busy + (One(IsTaking(to)) - One(IsTaking(me))) - (One(IsFreeing(to)) - One(IsFreeing(me)))
    ensures CountersOk(st')
  {
    MoveCounts(st, c, to);
  }

  lemma CountersLook(st: State, c: nat, now: int, reconnects: bool)
    requires CountersOk(st) && Enabled(st, c, Look(now, reconnects))
    ensures CountersOk(Looked(st, c, now, reconnects))
  {
    var st', k := Looked(st, c, now, reconnects), st.callers[c].at;
    CountUpdate(st.conns, k, st'.conns[k], InUse);
    CountersShift(st, st', c, st'.callers[c]);
  }

  lemma CountersHeld(st: State, c: nat, step: Step)
    requires Ownership(st) && CountersOk(st) && Enabled(st, c, step) && (step.MarkHeld? || step.Free?)
    ensures CountersOk(Next(st, c, step))
  {
    var st', k := Next(st, c, step), st.callers[c].conn;
    CountUpdate(st.conns, k, st'.conns[k], InUse);
    CountersShift(st, st', c, st'.callers[c]);
  }

  lemma CountersNext(st: State, c: nat, step: Step)
    requires Ownership(st) && CountersOk(st) && Enabled(st, c, step)
    ensures CountersOk(Next(st, c, step))
  {
    match step
    case Look(now, reconnects) => CountersLook(st, c, now, reconnects);
    case MarkHeld(_) => CountersHeld(st, c, step);
    case Free(_) => CountersHeld(st, c, step);
    case _ => CountersShift(st, Next(st, c, step), c, Next(st, c, step).callers[c]);
  }

  lemma ScannerNext(st: State, c: nat, step: Step)
    requires OneScanner(st) && Enabled(st, c, step)
    ensures OneScanner(Next(st, c, step))
  {
  }

  /** A caller that moves without gaining or losing a connection. */
  lemma OwnershipMove(st: State, st': State, c: nat, to: Caller)
    requires Ownership(st) && c < |st.callers| && st'.conns == st.conns && st'.callers == st.callers[c := to]
    requires forall k :: Owns(st.callers[c], k) <==> Owns(to, k)
    requires IsTaking(to) || (to.Holding? && !to.marked) ==> IsTaking(st.callers[c])
    ensures Ownership(st')
  {
    forall k | 0 <= k < |st'.conns| && st'.conns[k].inUse
      ensures exists d :: 0 <= d < |st'.callers| && Owns(st'.callers[d], k)
    {
      var d :| 0 <= d < |st.callers| && Owns(st.callers[d], k);
      assert Owns(st'.callers[d], k);
    }
    if IsTaking(to) || to.Holding? {
      assert Owns(to, to.conn);
      assert Owns(st.callers[c], to.conn);
    }
  }

  lemma OwnershipTake(st: State, c: nat, now: int, reconnects: bool)
    requires Ownership(st) && Enabled(st, c, Look(now, reconnects))
    requires Fit(st.conns[st.callers[c].at], now, reconnects)
    ensures Ownership(Looked(st, c, now, reconnects))
  {
    var st', at := Looked(st, c, now, reconnects), st.callers[c].at;
    assert forall d :: 0 <= d < |st.callers| ==> !Owns(st.callers[d], at);
    forall k | 0 <= k < |st'.conns| && st'.conns[k].inUse
      ensures exists d :: 0 <= d < |st'.callers| && Owns(st'.callers[d], k)
    {
      if k == at {
        assert Owns(st'.callers[c], k);
      } else {
        var d :| 0 <= d < |st.callers| && Owns(st.callers[d], k);
        assert Owns(st'.callers[d], k);
      }
    }
  }

  lemma OwnershipPass(st: State, c: nat, now: int, reconnects: bool)
    requires Ownership(st) && Enabled(st, c, Look(now, reconnects))
    requires !Fit(st.conns[st.callers[c].at], now, reconnects)
    ensures Ownership(Looked(st, c, now, reconnects))
  {
    var st', at := Looked(st, c, now, reconnects), st.callers[c].at;
    forall k | 0 <= k < |st'.conns| && st'.conns[k].inUse
      ensures exists d :: 0 <= d < |st'.callers| && Owns(st'.callers[d], k)
    {
      var d :| 0 <= d < |st.callers| && Owns(st.callers[d], k);
      assert Owns(st'.callers[d], k);
    }
  }

  /** Only its owner has a held connection. */
  lemma SoleOwner(st: State, c: nat)
    requires Ownership(st) && c < |st.callers| && st.callers[c].Holding?
    ensures forall d :: 0 <= d < |st.callers| && d != c ==> !Owns(st.callers[d], st.callers[c].conn)
  {
    assert Owns(st.callers[c], st.callers[c].conn);
  }

  lemma OwnershipMark(st: State, c: nat, ok: bool)
    requires Ownership(st) && Enabled(st, c, MarkHeld(ok))
    ensures Ownership(Next(st, c, MarkHeld(ok)))
  {
    var st', mine := Next(st, c, MarkHeld(ok)), st.callers[c].conn;
    SoleOwner(st, c);
    forall k | 0 <= k < |st'.conns| && st'.conns[k].inUse
      ensures exists d :: 0 <= d < |st'.callers| && Owns(st'.callers[d], k)
    {
      var d :| 0 <= d < |st.callers| && Owns(st.callers[d], k);
      assert Owns(st'.callers[d], k);
    }
  }

  lemma OwnershipFree(st: State, c: nat, now: int)
    requires Ownership(st) && Enabled(st, c, Free(now))
    ensures Ownership(Next(st, c, Free(now)))
  {
    var st', mine := Next(st, c, Free(now)), st.callers[c].conn;
    SoleOwner(st, c);
    forall k | 0 <= k < |st'.conns| && st'.conns[k].inUse
      ensures exists d :: 0 <= d < |st'.callers| && Owns(st'.callers[d], k)
    {
      var d :| 0 <= d < |st.callers| && Owns(st.callers[d], k);
      assert Owns(st'.callers[d], k);
    }
  }

  lemma NextInv(st: State, c: nat, step: Step)
    requires Inv(st) && Enabled(st, c, step)
    ensures Inv(Next(st, c, step))
  {
    CountersNext(st, c, step);
    ScannerNext(st, c, step);
    match step
    case Look(now, reconnects) =>
      if Fit(st.conns[st.callers[c].at], now, reconnects) {
        OwnershipTake(st, c, now, reconnects);
      } else {
        OwnershipPass(st, c, now, reconnects);
      }
    case MarkHeld(ok) => OwnershipMark(st, c, ok);
    case Free(now) => OwnershipFree(st, c, now);
    case _ => OwnershipMove(st, Next(st, c, step), c, Next(st, c, step).callers[c]);
  }

  // ----- runs ----------------------------------------------------------------

  ghost predicate Legal(st: State, steps: seq<(nat, Step)>)
    decreases |steps|
  {
    steps == [] ||
    (Enabled(st, steps[0].0, steps[0].1) && Legal(Next(st, steps[0].0, steps[0].1), steps[1..]))
  }

  ghost function Run(st: State, steps: seq<(nat, Step)>): State
    requires Legal(st, steps)
    decreases |steps|
  {
    if steps == [] then st else Run(Next(st, steps[0].0, steps[0].1), steps[1..])
  }

  /** A new pool and any number of callers. */
  function Start(size: nat, callers: nat, now: int): State {
    State(seq(size, _ => Conn(false, now, NEW)), 0, size, seq(callers, _ => Out), seq(size, _ => []), seq(size, _ => now))
  }

  lemma {:induction false} NoneOf(cs: seq<Caller>, p: Caller -> bool)
    requires forall i :: 0 <= i < |cs| ==> !p(cs[i])
    ensures Count(cs, p) == 0
  {
    if cs != [] {
      NoneOf(cs[..|cs| - 1], p);
    }
  }

  lemma StartInv(size: nat, callers: nat, now: int)
    ensures Inv(Start(size, callers, now))
  {
    var st := Start(size, callers, now);
    NoneInUse(st.conns);
    NoneOf(st.callers, IsTook);
    NoneOf(st.callers, IsTaking);
    NoneOf(st.callers, IsFreed);
    NoneOf(st.callers, IsFreeing);
  }

  lemma {:induction false} RunInv(st: State, steps: seq<(nat, Step)>)
    requires Inv(st) && Legal(st, steps)
    ensures Inv(Run(st, steps))
    ensures |Run(st, steps).conns| == |st.conns|
    ensures forall k :: 0 <= k < |st.conns| && st.conns[k].vitals.health == Unhealthy ==>
              Run(st, steps).conns[k].vitals.health == Unhealthy
    decreases |steps|
  {
    if steps != [] {
      NextInv(st, steps[0].0, steps[0].1);
      StaysUnhealthy(st, steps[0].0, steps[0].1);
      RunInv(Next(st, steps[0].0, steps[0].1), steps[1..]);
    }
  }

  /** No step brings an unhealthy connection back, except that the one mark of
      its current holder may be what made it unhealthy. */
  lemma StaysUnhealthy(st: State, c: nat, step: Step)
    requires Inv(st) && Enabled(st, c, step)
    ensures |Next(st, c, step).conns| == |st.conns|
    ensures forall k :: 0 <= k < |st.conns| && st.conns[k].vitals.health == Unhealthy ==>
              Next(st, c, step).conns[k].vitals.health == Unhealthy
  {
  }

  /** In every interleaving of any callers no connection is held by two of them,
      the counters are off by exactly the updates under way, and when none is
      under way they are exact and add up to the size. */
  lemma ExclusiveAndCounted(size: nat, callers: nat, now: int, steps: seq<(nat, Step)>)
    requires Legal(Start(size, callers, now), steps)
    ensures var st := Run(Start(size, callers, now), steps);
            && (forall c, d, k :: 0 <= c < d < |st.callers| && Owns(st.callers[c], k) ==> !Owns(st.callers[d], k))
            && CountersOk(st)
            && ((forall c :: 0 <= c < |st.callers| ==> !IsTaking(st.callers[c]) && !IsFreeing(st.callers[c])) ==>
                  && st.active == Count(st.conns, InUse)
                  && st.active + st.idle == size)
  {
    StartInv(size, callers, now);
    RunInv(Start(size, callers, now), steps);
    var st := Run(Start(size, callers, now), steps);
    if forall c :: 0 <= c < |st.callers| ==> !IsTaking(st.callers[c]) && !IsFreeing(st.callers[c]) {
      NoneOf(st.callers, IsTook);
      NoneOf(st.callers, IsTaking);
      NoneOf(st.callers, IsFreed);
      NoneOf(st.callers, IsFreeing);
    }
  }

  /** With one mark per hold the set of connections that can ever be handed out
      only shrinks. */
  lemma UnhealthyForever(size: nat, callers: nat, now: int, before: seq<(nat, Step)>, after: seq<(nat, Step)>, k: nat)
    requires Legal(Start(size, callers, now), before) && Legal(Run(Start(size, callers, now), before), after)
    requires k < |Run(Start(size, callers, now), before).conns|
    requires Run(Start(size, callers, now), before).conns[k].vitals.health == Unhealthy
    ensures var st := Run(Run(Start(size, callers, now), before), after);
            k < |st.conns| && !Usable(st.conns[k])
  {
    StartInv(size, callers, now);
    RunInv(Start(size, callers, now), before);
    RunInv(Run(Start(size, callers, now), before), after);
  }

  // ----- every connection has a history --------------------------------------

  ghost predicate Explains(events: seq<Event>, v: Vitals) {
    Possible(events) && After(events) == v
  }

  ghost predicate Explained(conns: seq<Conn>, logs: seq<seq<Event>>) {
    |logs| == |conns| && forall k :: 0 <= k < |conns| ==> Explains(logs[k], conns[k].vitals)
  }

  /** One more event on a connection that was not unhealthy. */
  lemma OneMoreEvent(events: seq<Event>, v: Vitals, e: Event)
    requires v.health != Unhealthy && Explains(events, v)
    ensures Explains(events + [e], ConnectionHealth.Step(v, e))
  {
    assert (events + [e])[..|events|] == events;
  }

  lemma ExplainedUpdate(conns: seq<Conn>, logs: seq<seq<Event>>, k: nat, conn: Conn, e: Event)
    requires Explained(conns, logs) && k < |conns| && conns[k].vitals.health != Unhealthy
    requires conn.vitals == ConnectionHealth.Step(conns[k].vitals, e)
    ensures Explained(conns[k := conn], Noted(logs, k, e))
  {
    OneMoreEvent(logs[k], conns[k].vitals, e);
  }

  lemma ExplainedSame(conns: seq<Conn>, logs: seq<seq<Event>>, k: nat, conn: Conn)
    requires Explained(conns, logs) && k < |conns| && conn.vitals == conns[k].vitals
    ensures Explained(conns[k := conn], logs)
  {
  }

  lemma ExplainedLook(st: State, c: nat, now: int, reconnects: bool)
    requires Explained(st.conns, st.logs) && Enabled(st, c, Look(now, reconnects))
    ensures var st' := Looked(st, c, now, reconnects); Explained(st'.conns, st'.logs)
  {
    var k := st.callers[c].at;
    var conn := st.conns[k];
    if Fit(conn, now, reconnects) {
      ExplainedSame(st.conns, st.logs, k, Taken(conn, now));
    } else if Usable(conn) {
      ExplainedUpdate(st.conns, st.logs, k, Passed(conn), ReconnectFailed);
    } else {
      ExplainedSame(st.conns, st.logs, k, Passed(conn));
    }
  }

  lemma ExplainedNext(st: State, c: nat, step: Step)
    requires Ownership(st) && Explained(st.conns, st.logs) && Enabled(st, c, step)
    ensures Explained(Next(st, c, step).conns, Next(st, c, step).logs)
  {
    var me := st.callers[c];
    match step
    case Look(now, reconnects) => ExplainedLook(st, c, now, reconnects);
    case MarkHeld(ok) =>
      var conn := st.conns[me.conn];
      ExplainedUpdate(st.conns, st.logs, me.conn, conn.(vitals := Mark(conn.vitals, ok)), Hold(ok));
    case Free(now) =>
      ExplainedSame(st.conns, st.logs, me.conn, st.conns[me.conn].(inUse := false, lastUsed := now));
    case _ =>
  }

  lemma {:induction false} RunExplained(st: State, steps: seq<(nat, Step)>)
    requires Inv(st) && Explained(st.conns, st.logs) && Legal(st, steps)
    ensures Explained(Run(st, steps).conns, Run(st, steps).logs)
    decreases |steps|
  {
    if steps != [] {
      NextInv(st, steps[0].0, steps[0].1);
      ExplainedNext(st, steps[0].0, steps[0].1);
      RunExplained(Next(st, steps[0].0, steps[0].1), steps[1..]);
    }
  }

  /** In every interleaving, the health of every connection is the verdict on
      what has happened to it. */
  lemma HealthIsVerdict(size: nat, callers: nat, now: int, steps: seq<(nat, Step)>)
    requires Legal(Start(size, callers, now), steps)
    ensures var st := Run(Start(size, callers, now), steps);
            && |st.logs| == |st.conns| == size
            && forall k :: 0 <= k < size ==> st.conns[k].vitals.health == Verdict(st.logs[k])
  {
    var st := Start(size, callers, now);
    StartInv(size, callers, now);
    RunInv(st, steps);
    assert Explains([], NEW);
    RunExplained(st, steps);
    var end := Run(st, steps);
    forall k | 0 <= k < size ensures end.conns[k].vitals.health == Verdict(end.logs[k]) {
      HealthFromHistory(end.logs[k]);
    }
  }

  // ----- idle connections ----------------------------------------------------

  ghost predicate TouchesOk(st: State) {
    |st.touched| == |st.conns| && forall k :: 0 <= k < |st.conns| ==> st.conns[k].lastUsed == st.touched[k]
  }

  lemma TouchesNext(st: State, c: nat, step: Step)
    requires TouchesOk(st) && Enabled(st, c, step)
    ensures TouchesOk(Next(st, c, step))
  {
  }

  lemma {:induction false} RunTouches(st: State, steps: seq<(nat, Step)>)
    requires TouchesOk(st) && Legal(st, steps)
    ensures TouchesOk(Run(st, steps))
    decreases |steps|
  {
    if steps != [] {
      TouchesNext(st, steps[0].0, steps[0].1);
      RunTouches(Next(st, steps[0].0, steps[0].1), steps[1..]);
    }
  }

  /** In every interleaving a scan takes the connection it looks at if and only if
      nobody has it, it has seen neither three failures in a row nor a failed
      reconnect, and it was made, reconnected or given back at most 60 seconds ago
      or the reconnect succeeds. It passes over it otherwise, and a connection it
      could have had but for the reconnect is unhealthy from then on. */
  lemma TakenIff(size: nat, callers: nat, start: int, steps: seq<(nat, Step)>, c: nat, now: int, reconnects: bool)
    requires Legal(Start(size, callers, start), steps)
    requires Enabled(Run(Start(size, callers, start), steps), c, Look(now, reconnects))
    ensures var st := Run(Start(size, callers, start), steps);
            var k, st' := st.callers[c].at, Next(st, c, Look(now, reconnects));
            && k < |st.touched| && k < |st.logs| && k < |st'.conns|
            && (st'.callers[c] == Took(k) <==>
                  && !st.conns[k].inUse && Verdict(st.logs[k]) != Unhealthy
                  && (now - st.touched[k] <= 60 || reconnects))
            && (st'.callers[c] != Took(k) ==> st'.callers[c] == Scanning(k + 1))
            && (st'.callers[c] != Took(k) && !st.conns[k].inUse ==> st'.conns[k].vitals.health == Unhealthy)
  {
    RunTouches(Start(size, callers, start), steps);
    HealthIsVerdict(size, callers, start, steps);
  }
}
