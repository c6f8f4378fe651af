/** The circuit breaker in front of a backend, with calls one at a time. The
    laws relate its counters and its times of opening to the history of calls
    alone. */
module CircuitBreaker {
  import opened Counting

  datatype Position = Closed | Open | HalfOpen

  datatype Breaker = Breaker(
    position: Position,
    failures: int,
    successes: int,
    lastFailure: int,
    lastChange: int,
    opens: nat,
    closes: nat)

  datatype Config = Config(threshold: int, recovery: int)

  function Init(now: int): Breaker {
    Breaker(Closed, 0, 0, 0, now, 0, 0)
  }

  function Allow(b: Breaker, c: Config, now: int): (Breaker, bool) {
    match b.position
    case Closed => (b, true)
    case HalfOpen => (b, true)
    case Open =>
      if now - b.lastFailure >= c.recovery then (b.(position := HalfOpen, lastChange := now), true)
      else (b, false)
  }

  function RecordSuccess(b: Breaker, now: int): Breaker {
    match b.position
    case HalfOpen =>
      if b.successes + 1 >= 2 then
        b.(position := Closed, failures := 0, successes := 0, lastChange := now, closes := b.closes + 1)
      else b.(successes := b.successes + 1)
    case Closed => b.(failures := 0)
    case Open => b
  }

  function RecordFailure(b: Breaker, c: Config, now: int): Breaker {
    if b.position == Open then b
    else
      var f := b.(failures := b.failures + 1, lastFailure := now);
      if b.position == HalfOpen || f.failures >= c.threshold
      then f.(position := Open, lastChange := now, opens := b.opens + 1)
      else f
  }

  class CircuitBreaker {
    const config: Config
    var position: Position
    var failureCount: int
    var successCount: int
    var lastFailureTime: int
    var lastStateChange: int
    var totalOpens: nat
    var totalCloses: nat

    ghost function Abs(): Breaker
      reads this
    {
      Breaker(position, failureCount, successCount, lastFailureTime, lastStateChange, totalOpens, totalCloses)
    }

    /** `backend_pool_init_circuit_breaker`. */
    constructor (config: Config, now: int)
      ensures Abs() == Init(now) && this.config == config
    {
      this.config := config;
      position := Closed;
      failureCount, successCount, lastFailureTime, lastStateChange := 0, 0, 0, now;
      totalOpens, totalCloses := 0, 0;
    }

    method AllowRequest(now: int) returns (ok: bool)
      modifies this
      ensures (Abs(), ok) == Allow(old(Abs()), config, now)
    {
      if position == Closed {
        return true;
      }
      if position == Open {
        if now - lastFailureTime >= config.recovery {
          position := HalfOpen;
          lastStateChange := now;
          return true;
        }
        return false;
      }
      return true;
    }

    method Succeeded(now: int)
      modifies this
      ensures Abs() == RecordSuccess(old(Abs()), now)
    {
      if position == HalfOpen {
        successCount := successCount + 1;
        if successCount >= 2 {
          position := Closed;
          failureCount := 0;
          successCount := 0;
          lastStateChange := now;
          totalCloses := totalCloses + 1;
        }
      } else if position == Closed {
        failureCount := 0;
      }
    }

    method Failed(now: int)
      modifies this
      ensures Abs() == RecordFailure(old(Abs()), config, now)
    {
      if position == Closed || position == HalfOpen {
        failureCount := failureCount + 1;
        lastFailureTime := now;
        if position == HalfOpen {
          position := Open;
          lastStateChange := now;
          totalOpens := totalOpens + 1;
        } else if failureCount >= config.threshold {
          position := Open;
          lastStateChange := now;
          totalOpens := totalOpens + 1;
        }
      }
    }
  }

  // ----- histories -----------------------------------------------------------

  datatype Call = Ask(now: int) | Success(now: int) | Failure(now: int)

  function Step(b: Breaker, c: Config, call: Call): Breaker {
    match call
    case Ask(now) => Allow(b, c, now).0
    case Success(now) => RecordSuccess(b, now)
    case Failure(now) => RecordFailure(b, c, now)
  }

  /** The breaker after a history of calls. */
  function After(c: Config, start: int, calls: seq<Call>): Breaker {
    if calls == [] then Init(start)
    else Step(After(c, start, calls[..|calls| - 1]), c, calls[|calls| - 1])
  }

  /** How many calls of a history took the breaker through a given kind of
      step, told from the positions before and after it. */
  function Tally(c: Config, start: int, calls: seq<Call>, kind: (Position, Call, Position) -> bool): nat {
    if calls == [] then 0
    else
      var init := calls[..|calls| - 1];
      Tally(c, start, init, kind) +
      One(kind(After(c, start, init).position, calls[|calls| - 1], After(c, start, calls).position))
  }

  predicate HalfOpenSuccess(p: Position, call: Call, q: Position) { p == HalfOpen && call.Success? }
  predicate HalfOpenEntry(p: Position, call: Call, q: Position) { p != HalfOpen && q == HalfOpen }
  predicate OpenFromClosed(p: Position, call: Call, q: Position) { p == Closed && q == Open }

  /** Failures since the last success, told from the calls alone. */
  function Streak(calls: seq<Call>): nat {
    if calls == [] then 0
    else
      match calls[|calls| - 1]
      case Success(_) => 0
      case Failure(_) => Streak(calls[..|calls| - 1]) + 1
      case Ask(_) => Streak(calls[..|calls| - 1])
  }

  /** Counter laws of every history, whatever the clock does. Two half-open
      successes make one close, but they need not be neighbours: the success
      count survives a re-opening. */
  lemma {:induction false} Accounting(c: Config, start: int, calls: seq<Call>)
    ensures var b := After(c, start, calls);
            && Tally(c, start, calls, HalfOpenSuccess) == 2 * b.closes + b.successes
            && 0 <= b.successes <= 1
            && b.opens == Tally(c, start, calls, HalfOpenEntry) + One(b.position == Open)
            && Tally(c, start, calls, OpenFromClosed) == b.closes + One(b.position != Closed)
            && (b.position == Closed ==>
                  b.failures == Streak(calls) && b.failures < if c.threshold > 1 then c.threshold else 1)
  {
    if calls != [] {
      Accounting(c, start, calls[..|calls| - 1]);
    }
  }

  // ----- moves ---------------------------------------------------------------

  function AtLeastOne(n: int): int {
    if n > 1 then n else 1
  }

  lemma AfterOneMore(c: Config, start: int, calls: seq<Call>, call: Call)
    ensures After(c, start, calls + [call]) == Step(After(c, start, calls), c, call)
  {
    assert (calls + [call])[..|calls|] == calls;
  }

  lemma AfterTwoMore(c: Config, start: int, calls: seq<Call>, first: Call, second: Call)
    ensures After(c, start, (calls + [first]) + [second]) == Step(Step(After(c, start, calls), c, first), c, second)
  {
    AfterOneMore(c, start, calls, first);
    AfterOneMore(c, start, calls + [first], second);
  }

  /** When a call moves the breaker, told from the history of calls: out of
      CLOSED by the failure that brings the streak to the threshold (or to one),
      out of HALF-OPEN by any failure or by every second success seen there, and
      out of OPEN by the first request the recovery time after the opening. */
  lemma Moves(c: Config, start: int, calls: seq<Call>, call: Call)
    requires ClockForward(calls)
    ensures var b, q, times := After(c, start, calls), After(c, start, calls + [call]).position, OpenTimes(c, start, calls);
            match b.position
            case Closed =>
              && q != HalfOpen
              && (q == Open <==> call.Failure? && Streak(calls + [call]) >= AtLeastOne(c.threshold))
            case HalfOpen =>
              && (q == Open <==> call.Failure?)
              && (q == Closed <==> call.Success? && Tally(c, start, calls, HalfOpenSuccess) % 2 == 1)
            case Open =>
              && q != Closed && times != []
              && (q == HalfOpen <==> call.Ask? && call.now >= times[|times| - 1] + c.recovery)
  {
    AfterOneMore(c, start, calls, call);
    Accounting(c, start, calls);
    OpeningTimes(c, start, calls);
    assert (calls + [call])[..|calls|] == calls;
  }

  /** Over a whole history: the breaker leaves CLOSED exactly at the failures
      that bring the streak to the threshold. */
  lemma OpensAtThreshold(c: Config, start: int, calls: seq<Call>, i: nat)
    requires i < |calls| && After(c, start, calls[..i]).position == Closed
    ensures After(c, start, calls[..i + 1]).position == Open
            <==> calls[i].Failure? && Streak(calls[..i + 1]) >= AtLeastOne(c.threshold)
  {
    assert calls[..i + 1] == calls[..i] + [calls[i]];
    AfterOneMore(c, start, calls[..i], calls[i]);
    Accounting(c, start, calls[..i]);
    assert (calls[..i] + [calls[i]])[..i] == calls[..i];
  }

  /** Re-openings since the breaker last left CLOSED. */
  function Reopenings(c: Config, start: int, calls: seq<Call>): nat {
    if calls == [] then 0
    else
      var init := calls[..|calls| - 1];
      var p, q := After(c, start, init).position, After(c, start, calls).position;
      if p == Closed then 0
      else Reopenings(c, start, init) + One(p == HalfOpen && q == Open)
  }

  /** The failure count outside CLOSED: the streak that opened the breaker, and
      one for every re-opening since. */
  lemma {:induction false} FailuresOutsideClosed(c: Config, start: int, calls: seq<Call>)
    ensures var b := After(c, start, calls);
            b.position != Closed ==> b.failures == AtLeastOne(c.threshold) + Reopenings(c, start, calls)
  {
    if calls != [] {
      var init := calls[..|calls| - 1];
      FailuresOutsideClosed(c, start, init);
      Accounting(c, start, init);
    }
  }

  // ----- times ---------------------------------------------------------------

  /** The times at which a history opened the breaker. */
  function OpenTimes(c: Config, start: int, calls: seq<Call>): seq<int> {
    if calls == [] then []
    else
      var init := calls[..|calls| - 1];
      if After(c, start, init).position != Open && After(c, start, calls).position == Open
      then OpenTimes(c, start, init) + [calls[|calls| - 1].now]
      else OpenTimes(c, start, init)
  }

  /** The time of the last call that moved the breaker, or its start. */
  function LastMove(c: Config, start: int, calls: seq<Call>): int {
    if calls == [] then start
    else
      var init := calls[..|calls| - 1];
      if After(c, start, init).position != After(c, start, calls).position then calls[|calls| - 1].now
      else LastMove(c, start, init)
  }

  lemma {:induction false} ChangeTime(c: Config, start: int, calls: seq<Call>)
    ensures After(c, start, calls).lastChange == LastMove(c, start, calls)
  {
    if calls != [] {
      ChangeTime(c, start, calls[..|calls| - 1]);
    }
  }

  predicate ClockForward(calls: seq<Call>) {
    forall i :: 0 < i < |calls| ==> calls[i - 1].now <= calls[i].now
  }

  ghost predicate Apart(times: seq<int>, gap: int) {
    forall i :: 0 < i < |times| ==> times[i - 1] + gap <= times[i]
  }

  /** What the times of opening say about a breaker last called at `last`. */
  ghost predicate TimesOk(b: Breaker, times: seq<int>, recovery: int, last: int) {
    && |times| == b.opens
    && Apart(times, recovery)
    && (b.position == Open ==> times != [] && b.lastFailure == times[|times| - 1])
    && (times != [] ==> times[|times| - 1] <= last)
    && (b.position != Open && times != [] ==> times[|times| - 1] + recovery <= last)
  }

  lemma TimesStep(b: Breaker, c: Config, times: seq<int>, last: int, call: Call)
    requires TimesOk(b, times, c.recovery, last) && (times != [] ==> last <= call.now)
    ensures var b' := Step(b, c, call);
            TimesOk(b', if b.position != Open && b'.position == Open then times + [call.now] else times,
                    c.recovery, call.now)
  {
  }

  lemma {:induction false} OpeningTimes(c: Config, start: int, calls: seq<Call>)
    requires ClockForward(calls)
    ensures var times := OpenTimes(c, start, calls);
            && (times != [] ==> calls != [])
            && TimesOk(After(c, start, calls), times, c.recovery, if calls == [] then start else calls[|calls| - 1].now)
  {
    if calls != [] {
      var n := |calls| - 1;
      assert ClockForward(calls[..n]);
      OpeningTimes(c, start, calls[..n]);
      var last := if n == 0 then start else calls[n - 1].now;
      assert n > 0 ==> calls[..n][n - 1] == calls[n - 1];
      TimesStep(After(c, start, calls[..n]), c, OpenTimes(c, start, calls[..n]), last, calls[n]);
    }
  }

  lemma {:induction false} ApartSum(times: seq<int>, gap: int)
    requires Apart(times, gap) && times != []
    ensures (|times| - 1) * gap <= times[|times| - 1] - times[0]
  {
    if |times| > 1 {
      var n := |times| - 1;
      assert Apart(times[..n], gap);
      ApartSum(times[..n], gap);
      assert times[n - 1] + gap <= times[n];
      assert n * gap == (n - 1) * gap + gap;
    }
  }

  /** With a clock that does not go back, an open breaker admits a request
      exactly when the recovery time has passed since it opened. */
  lemma OpenPeriods(c: Config, start: int, calls: seq<Call>, now: int)
    requires ClockForward(calls)
    ensures var b, times := After(c, start, calls), OpenTimes(c, start, calls);
            && (b.position == Open ==> times != [])
            && (b.position == Open ==> (Allow(b, c, now).1 <==> now >= times[|times| - 1] + c.recovery))
            && (b.position != Open ==> Allow(b, c, now).1)
  {
    OpeningTimes(c, start, calls);
  }

  /** Successive openings are a recovery time apart, so their number bounds the
      time between the first and the last. */
  lemma OpeningsSpread(c: Config, start: int, calls: seq<Call>)
    requires ClockForward(calls)
    ensures var opens, times := After(c, start, calls).opens, OpenTimes(c, start, calls);
            opens == |times| && (opens > 0 ==> (opens - 1) * c.recovery <= times[opens - 1] - times[0])
  {
    OpeningTimes(c, start, calls);
    if After(c, start, calls).opens > 0 {
      ApartSum(OpenTimes(c, start, calls), c.recovery);
    }
  }

  /** The two closing successes may lie on both sides of an open period: after
      a half-open success and a re-opening, one more success closes. */
  lemma SuccessesStraddle()
    ensures var c := Config(1, 10);
            var calls := [Failure(0), Ask(10), Success(11), Failure(12), Ask(22), Success(23)];
            && After(c, 0, calls).position == Closed && After(c, 0, calls).closes == 1
            && After(c, 0, calls[..4]).position == Open && After(c, 0, calls[..4]).successes == 1
  {
    var c := Config(1, 10);
    var calls := [Failure(0), Ask(10), Success(11), Failure(12), Ask(22), Success(23)];
    assert calls[..6] == calls;
    assert calls[..6][..5] == calls[..5] && calls[..5][..4] == calls[..4] && calls[..4][..3] == calls[..3];
    assert calls[..3][..2] == calls[..2] && calls[..2][..1] == calls[..1] && calls[..1][..0] == [];
    assert After(c, 0, calls[..1]) == Breaker(Open, 1, 0, 0, 0, 1, 0);
    assert After(c, 0, calls[..2]) == Breaker(HalfOpen, 1, 0, 0, 10, 1, 0);
    assert After(c, 0, calls[..3]) == Breaker(HalfOpen, 1, 1, 0, 10, 1, 0);
    assert After(c, 0, calls[..4]) == Breaker(Open, 2, 1, 12, 12, 2, 0);
    assert After(c, 0, calls[..5]) == Breaker(HalfOpen, 2, 1, 12, 22, 2, 0);
  }
}
