/** The health of one pooled connection as a function of what happened to it.
    A caller marks the connection at most once while it holds it, and only a
    connection that is not unhealthy can be taken. */
module ConnectionHealth {

  datatype Health = Unknown | Healthy | Unhealthy

  /** The health part of a connection, with its two streak counters. */
  datatype Vitals = Vitals(health: Health, failures: nat, successes: nat)

  const NEW: Vitals := Vitals(Unknown, 0, 0)

  function MarkSuccess(v: Vitals): Vitals {
    Vitals(if v.successes + 1 >= 2 then Healthy else v.health, 0, v.successes + 1)
  }

  function MarkFailure(v: Vitals): Vitals {
    Vitals(if v.failures + 1 >= 3 then Unhealthy else v.health, v.failures + 1, 0)
  }

  function Mark(v: Vitals, ok: bool): Vitals {
    if ok then MarkSuccess(v) else MarkFailure(v)
  }

  // ----- holds ---------------------------------------------------------------

  /** A hold with its mark, or an idle reconnect that failed. */
  datatype Event = Hold(ok: bool) | ReconnectFailed

  function Step(v: Vitals, e: Event): Vitals {
    match e
    case Hold(ok) => Mark(v, ok)
    case ReconnectFailed => v.(health := Unhealthy)
  }

  function After(events: seq<Event>): Vitals {
    if events == [] then NEW
    else Step(After(events[..|events| - 1]), events[|events| - 1])
  }

  /** Nothing takes an unhealthy connection. */
  predicate Possible(events: seq<Event>) {
    events == [] ||
    (Possible(events[..|events| - 1]) && After(events[..|events| - 1]).health != Unhealthy)
  }

  /** `n` marks with the same result from position `i` on. */
  predicate RunAt(events: seq<Event>, i: nat, n: nat, ok: bool) {
    i + n <= |events| && forall k :: i <= k < i + n ==> events[k] == Hold(ok)
  }

  ghost predicate HasRun(events: seq<Event>, n: nat, ok: bool) {
    exists i :: RunAt(events, i, n, ok)
  }

  ghost function Verdict(events: seq<Event>): Health {
    if HasRun(events, 3, false) || ReconnectFailed in events then Unhealthy
    else if HasRun(events, 2, true) then Healthy
    else Unknown
  }

  /** Length of the run of equal marks that ends a history. */
  function Trail(events: seq<Event>, ok: bool): (n: nat)
    ensures n <= |events| && RunAt(events, |events| - n, n, ok)
    ensures n < |events| ==> events[|events| - n - 1] != Hold(ok)
  {
    if events == [] || events[|events| - 1] != Hold(ok) then 0
    else Trail(events[..|events| - 1], ok) + 1
  }

  lemma RunStays(events: seq<Event>, n: nat, ok: bool)
    requires events != [] && HasRun(events[..|events| - 1], n, ok)
    ensures HasRun(events, n, ok)
  {
    var i: nat :| RunAt(events[..|events| - 1], i, n, ok);
    assert RunAt(events, i, n, ok);
  }

  lemma RunIsOlder(events: seq<Event>, n: nat, ok: bool)
    requires events != [] && HasRun(events, n, ok) && Trail(events, ok) < n
    ensures HasRun(events[..|events| - 1], n, ok)
  {
    var i: nat :| RunAt(events, i, n, ok);
    assert events[|events| - Trail(events, ok) - 1] != Hold(ok);
    assert RunAt(events[..|events| - 1], i, n, ok);
  }

  /** A run somewhere is a run before the last event or one that ends there. */
  lemma HasRunStep(events: seq<Event>, n: nat, ok: bool)
    requires events != [] && n > 0
    ensures HasRun(events, n, ok) <==> HasRun(events[..|events| - 1], n, ok) || Trail(events, ok) >= n
  {
    if HasRun(events, n, ok) && Trail(events, ok) < n { RunIsOlder(events, n, ok); }
    if HasRun(events[..|events| - 1], n, ok) { RunStays(events, n, ok); }
    if Trail(events, ok) >= n { assert RunAt(events, |events| - n, n, ok); }
  }

  /** The two counters are the lengths of the run of marks that ends the
      history, as long as no reconnect failed. */
  lemma {:induction false} Streaks(events: seq<Event>)
    requires ReconnectFailed !in events
    ensures After(events).failures == Trail(events, false) && After(events).successes == Trail(events, true)
  {
    if events != [] {
      Streaks(events[..|events| - 1]);
    }
  }

  /** A failed reconnect leaves the counters as they are. */
  lemma ReconnectKeepsStreaks(events: seq<Event>)
    requires ReconnectFailed !in events
    ensures var v := After(events + [ReconnectFailed]);
            v.failures == Trail(events, false) && v.successes == Trail(events, true)
  {
    Streaks(events);
    assert (events + [ReconnectFailed])[..|events|] == events;
  }

  /** Health is a function of history: unhealthy if and only if three failures
      in a row or a failed reconnect occurred, otherwise healthy if and only if
      two successes in a row ever occurred. */
  lemma {:induction false} HealthFromHistory(events: seq<Event>)
    requires Possible(events)
    ensures After(events).health == Verdict(events)
  {
    if events != [] {
      var init, e := events[..|events| - 1], events[|events| - 1];
      HealthFromHistory(init);
      assert events == init + [e];
      if e.Hold? {
        assert ReconnectFailed !in init;
        Streaks(events);
        HasRunStep(events, 3, false);
        HasRunStep(events, 2, true);
      }
    }
  }

  // ----- several marks in one hold -------------------------------------------

  function Marks(v: Vitals, oks: seq<bool>): Vitals {
    if oks == [] then v else Mark(Marks(v, oks[..|oks| - 1]), oks[|oks| - 1])
  }

  /** Why one mark per hold matters: marking an unhealthy connection in place
      can make it healthy again, and that takes two successes in one hold. */
  lemma {:induction false} RecoveryNeedsTwoMarks(v: Vitals, oks: seq<bool>)
    requires v.health == Unhealthy && v.successes == 0 && v.failures >= 3
    ensures Marks(v, oks).health == Healthy ==> exists i :: 0 < i < |oks| && oks[i - 1] && oks[i]
    ensures |oks| <= 1 ==> Marks(v, oks).health == Unhealthy
    ensures Marks(v, [true, true]).health == Healthy
    ensures Marks(v, oks).successes >= 1 ==> oks != [] && oks[|oks| - 1]
    ensures Marks(v, oks).successes >= 2 ==> |oks| >= 2 && oks[|oks| - 2]
  {
    assert [true, true][..1] == [true] && [true][..0] == [];
    if oks != [] {
      var init := oks[..|oks| - 1];
      RecoveryNeedsTwoMarks(v, init);
      if Marks(v, init).health == Healthy {
        var i :| 0 < i < |init| && init[i - 1] && init[i];
        assert oks[i - 1] && oks[i];
      } else if Marks(v, oks).health == Healthy {
        assert oks[|oks| - 1] && oks[|oks| - 2];
      }
    }
  }
}
