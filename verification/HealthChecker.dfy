/** The background health checker of a backend pool. Its verdict changes only
    when a streak that has just ended was long enough and the new streak is
    already long enough; since one streak ends where the other begins, most
    threshold settings make that impossible. */
module HealthChecker {
  import opened Counting
  import opened ConnectionHealth

  datatype Config = Config(healthyThreshold: int, unhealthyThreshold: int)

  datatype Checker = Checker(health: Health, failures: nat, successes: nat, total: nat, failed: nat)

  /** One round of the check loop. */
  datatype Round = NoConnection | Pass | Fail

  const INIT: Checker := Checker(Unknown, 0, 0, 0, 0)

  function NextRound(h: Checker, c: Config, r: Round): Checker {
    match r
    case NoConnection => Checker(Unhealthy, h.failures + 1, 0, h.total + 1, h.failed + 1)
    case Pass =>
      var verdict := if h.failures >= c.unhealthyThreshold && h.successes + 1 >= c.healthyThreshold
                     then Healthy else h.health;
      Checker(verdict, 0, h.successes + 1, h.total + 1, h.failed)
    case Fail =>
      var verdict := if h.successes >= c.healthyThreshold && h.failures + 1 >= c.unhealthyThreshold
                     then Unhealthy else h.health;
      Checker(verdict, h.failures + 1, 0, h.total + 1, h.failed + 1)
  }

  class HealthCheckThread {
    const config: Config
    var health: Health
    var consecutiveFailures: nat
    var consecutiveSuccesses: nat
    var totalChecks: nat
    var failedChecks: nat

    ghost function Abs(): Checker
      reads this
    {
      Checker(health, consecutiveFailures, consecutiveSuccesses, totalChecks, failedChecks)
    }

    constructor (config: Config)
      ensures Abs() == INIT && this.config == config
    {
      this.config := config;
      health := Unknown;
      consecutiveFailures, consecutiveSuccesses, totalChecks, failedChecks := 0, 0, 0, 0;
    }

    /** One iteration of `health_check_thread`, with the handlers inlined. */
    method CheckRound(round: Round)
      modifies this
      ensures Abs() == NextRound(old(Abs()), config, round)
    {
      if round == NoConnection {
        consecutiveFailures := consecutiveFailures + 1;
        consecutiveSuccesses := 0;
        health := Unhealthy;
        failedChecks := failedChecks + 1;
        totalChecks := totalChecks + 1;
        return;
      }
      if round == Pass {
        var prevFailures := consecutiveFailures;
        consecutiveFailures := 0;
        consecutiveSuccesses := consecutiveSuccesses + 1;
        if prevFailures >= config.unhealthyThreshold && consecutiveSuccesses >= config.healthyThreshold {
          if health != Healthy { health := Healthy; }
        }
      } else {
        var prevSuccesses := consecutiveSuccesses;
        consecutiveSuccesses := 0;
        consecutiveFailures := consecutiveFailures + 1;
        if prevSuccesses >= config.healthyThreshold && consecutiveFailures >= config.unhealthyThreshold {
          if health != Unhealthy { health := Unhealthy; }
        }
      }
      totalChecks := totalChecks + 1;
      if round != Pass {
        failedChecks := failedChecks + 1;
      }
    }
  }

  function After(c: Config, rounds: seq<Round>): Checker {
    if rounds == [] then INIT
    else NextRound(After(c, rounds[..|rounds| - 1]), c, rounds[|rounds| - 1])
  }

  predicate Bad(r: Round) { r != Pass }

  /** In every run at most one streak counter is positive, and the totals count
      the rounds. */
  lemma {:induction false} OneStreak(c: Config, rounds: seq<Round>)
    ensures var h := After(c, rounds);
            && (h.failures == 0 || h.successes == 0)
            && h.total == |rounds| && h.failed == Count(rounds, Bad)
  {
    if rounds != [] {
      OneStreak(c, rounds[..|rounds| - 1]);
    }
  }

  lemma AfterOneMore(c: Config, rounds: seq<Round>, r: Round)
    ensures After(c, rounds + [r]) == NextRound(After(c, rounds), c, r)
  {
    assert (rounds + [r])[..|rounds|] == rounds;
  }

  /** `n` equal rounds from the start build a streak of length `n`. */
  lemma {:induction false} StreakOf(c: Config, r: Round, n: nat) returns (rounds: seq<Round>)
    requires r == Pass || r == Fail
    ensures NoConnection !in rounds
    ensures After(c, rounds).successes == (if r == Pass then n else 0)
    ensures After(c, rounds).failures == (if r == Fail then n else 0)
  {
    rounds := [];
    if n > 0 {
      rounds := StreakOf(c, r, n - 1);
      AfterOneMore(c, rounds, r);
      rounds := rounds + [r];
    }
  }

  // ----- the verdict as a function of the rounds -----------------------------

  /** How many rounds at the end of a history passed, or did not. */
  function Trail(rounds: seq<Round>, passing: bool): nat {
    if rounds == [] || (rounds[|rounds| - 1] == Pass) != passing then 0
    else Trail(rounds[..|rounds| - 1], passing) + 1
  }

  /** The counters are the lengths of the run of rounds that ends the history. */
  lemma {:induction false} Streaks(c: Config, rounds: seq<Round>)
    ensures After(c, rounds).failures == Trail(rounds, false)
    ensures After(c, rounds).successes == Trail(rounds, true)
  {
    if rounds != [] {
      Streaks(c, rounds[..|rounds| - 1]);
    }
  }

  /** A round decides for HEALTHY: it passes, the run of rounds it ends did not
      pass for long enough, and the run it starts or continues did. */
  predicate DecidesHealthy(c: Config, rounds: seq<Round>) {
    && rounds != [] && rounds[|rounds| - 1] == Pass
    && Trail(rounds[..|rounds| - 1], false) >= c.unhealthyThreshold && Trail(rounds, true) >= c.healthyThreshold
  }

  predicate DecidesUnhealthy(c: Config, rounds: seq<Round>) {
    && rounds != []
    && (|| rounds[|rounds| - 1] == NoConnection
        || (&& rounds[|rounds| - 1] == Fail
            && Trail(rounds[..|rounds| - 1], true) >= c.healthyThreshold
            && Trail(rounds, false) >= c.unhealthyThreshold))
  }

  predicate Decides(c: Config, rounds: seq<Round>) {
    DecidesHealthy(c, rounds) || DecidesUnhealthy(c, rounds)
  }

  /** A round that decides sets the verdict, and one that does not keeps it. */
  lemma RoundDecides(c: Config, rounds: seq<Round>)
    requires rounds != []
    ensures After(c, rounds).health
         == if DecidesHealthy(c, rounds) then Healthy
            else if DecidesUnhealthy(c, rounds) then Unhealthy
            else After(c, rounds[..|rounds| - 1]).health
  {
    Streaks(c, rounds[..|rounds| - 1]);
    Streaks(c, rounds);
  }

  /** Before any round decides, the verdict is UNKNOWN. */
  lemma {:induction false} UndecidedIsUnknown(c: Config, rounds: seq<Round>, n: nat)
    requires n <= |rounds| && forall i :: 0 <= i <= n ==> !Decides(c, rounds[..i])
    ensures After(c, rounds[..n]).health == Unknown
  {
    if n > 0 {
      UndecidedIsUnknown(c, rounds, n - 1);
      RoundDecides(c, rounds[..n]);
      assert rounds[..n][..n - 1] == rounds[..n - 1];
    }
  }

  /** Afterwards it is what the last round that decides says. */
  lemma {:induction false} LastDecisionHolds(c: Config, rounds: seq<Round>, k: nat, n: nat)
    requires k <= n <= |rounds| && Decides(c, rounds[..k])
    requires forall i :: k < i <= n ==> !Decides(c, rounds[..i])
    ensures After(c, rounds[..n]).health == if DecidesHealthy(c, rounds[..k]) then Healthy else Unhealthy
    decreases n
  {
    RoundDecides(c, rounds[..n]);
    if k < n {
      LastDecisionHolds(c, rounds, k, n - 1);
      assert rounds[..n][..n - 1] == rounds[..n - 1];
    }
  }

  lemma {:induction false} NeverHealthy(c: Config, rounds: seq<Round>)
    requires c.healthyThreshold >= 2 && c.unhealthyThreshold >= 1
    ensures After(c, rounds).health != Healthy
  {
    if rounds != [] {
      OneStreak(c, rounds[..|rounds| - 1]);
      NeverHealthy(c, rounds[..|rounds| - 1]);
    }
  }

  /** Exactly when the verdict can become HEALTHY: a threshold of at most one
      success, or no failures required. The defaults (2 and 3) are outside. */
  lemma HealthyIff(c: Config)
    ensures (exists rounds :: After(c, rounds).health == Healthy)
            <==> c.healthyThreshold <= 1 || c.unhealthyThreshold <= 0
  {
    if c.healthyThreshold <= 1 || c.unhealthyThreshold <= 0 {
      var rounds;
      if c.unhealthyThreshold <= 0 {
        rounds := StreakOf(c, Pass, if c.healthyThreshold > 0 then c.healthyThreshold else 0);
      } else {
        rounds := StreakOf(c, Fail, c.unhealthyThreshold);
      }
      AfterOneMore(c, rounds, Pass);
      assert After(c, rounds + [Pass]).health == Healthy;
    } else {
      forall rounds ensures After(c, rounds).health != Healthy {
        NeverHealthy(c, rounds);
      }
    }
  }

  /** With both thresholds at least two, the verdict is UNHEALTHY from the first
      failed acquire on, and UNKNOWN before it: no check result matters. */
  lemma {:induction false} OnlyAcquireDecides(c: Config, rounds: seq<Round>)
    requires c.healthyThreshold >= 2 && c.unhealthyThreshold >= 2
    ensures After(c, rounds).health == if NoConnection in rounds then Unhealthy else Unknown
  {
    if rounds != [] {
      var n := |rounds| - 1;
      assert rounds == rounds[..n] + [rounds[n]];
      OneStreak(c, rounds[..n]);
      OnlyAcquireDecides(c, rounds[..n]);
    }
  }

  lemma {:induction false} ChecksNeverDecide(c: Config, rounds: seq<Round>)
    requires c.healthyThreshold >= 1 && c.unhealthyThreshold >= 2 && NoConnection !in rounds
    ensures After(c, rounds).health != Unhealthy
  {
    if rounds != [] {
      OneStreak(c, rounds[..|rounds| - 1]);
      ChecksNeverDecide(c, rounds[..|rounds| - 1]);
    }
  }

  /** Exactly when failing checks alone can make the verdict UNHEALTHY. */
  lemma UnhealthyByChecksIff(c: Config)
    ensures (exists rounds :: NoConnection !in rounds && After(c, rounds).health == Unhealthy)
            <==> c.unhealthyThreshold <= 1 || c.healthyThreshold <= 0
  {
    if c.unhealthyThreshold <= 1 || c.healthyThreshold <= 0 {
      var rounds;
      if c.healthyThreshold <= 0 {
        rounds := StreakOf(c, Fail, if c.unhealthyThreshold > 0 then c.unhealthyThreshold else 0);
      } else {
        rounds := StreakOf(c, Pass, c.healthyThreshold);
      }
      AfterOneMore(c, rounds, Fail);
      assert NoConnection !in rounds + [Fail] && After(c, rounds + [Fail]).health == Unhealthy;
    } else {
      forall rounds | NoConnection !in rounds ensures After(c, rounds).health != Unhealthy {
        ChecksNeverDecide(c, rounds);
      }
    }
  }
}
