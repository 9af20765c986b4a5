/** The source entity's own accounting: counters, health score, backoff and circuit breaker. */
module SourceHealth {
  import opened Prelude
  import JobProtocol

  const CIRCUIT_BREAKER_THRESHOLD := 5
  const BACKOFF_BASE_MINUTES := 5
  const BACKOFF_MAX_MINUTES := 24 * 60

  datatype Health = Health(
    total: nat,
    successes: nat,
    failures: nat,
    consecutive: nat,
    active: bool,
    score: real,
    nextRunAt: Option<int>
  )

  /** What RecordFailure tells its caller. */
  datatype Reaction = Backoff(minutes: nat) | CircuitBreaker

  const NEW_SOURCE := Health(0, 0, 0, 0, true, 1.0, None)

  function Pow2(n: nat): nat {
    if n == 0 then 1 else 2 * Pow2(n - 1)
  }

  function Score(successes: nat, total: nat): (score: real)
    ensures if total == 0 then score == 1.0 else score * total as real == successes as real
  {
    if total == 0 then 1.0 else successes as real / total as real
  }

  /** The reaction to the k-th failure in a row. */
  function ReactionTo(k: nat): Reaction
    requires k > 0
  {
    if k >= CIRCUIT_BREAKER_THRESHOLD then CircuitBreaker
    else Backoff(Min(BACKOFF_BASE_MINUTES * Pow2(k - 1), BACKOFF_MAX_MINUTES))
  }

  function AfterSuccess(h: Health): Health {
    h.(total := h.total + 1, successes := h.successes + 1, consecutive := 0,
    score := Score(h.successes + 1, h.total + 1))
  }

  function AfterFailure(h: Health, now: int): Health {
    var counted := h.(total := h.total + 1, failures := h.failures + 1, consecutive := h.consecutive + 1,
                   score := Score(h.successes, h.total + 1));
    match ReactionTo(h.consecutive + 1)
    case CircuitBreaker => counted.(active := false)
    case Backoff(minutes) => counted.(nextRunAt := Some(now + minutes))
  }

  /** A result of one run, and when it came in. */
  datatype RunResult = RunResult(ok: bool, at: int)

  /** A new source after a sequence of results. */
  function Replay(results: seq<RunResult>): Health {
    if results == [] then NEW_SOURCE
    else
      var before := Replay(results[..|results| - 1]);
      var last := results[|results| - 1];
      if last.ok then AfterSuccess(before) else AfterFailure(before, last.at)
  }

  class Source {
    var total: nat
    var successes: nat
    var failures: nat
    var consecutive: nat
    var active: bool
    var score: real
    var nextRunAt: Option<int>

    constructor ()
      ensures Value() == NEW_SOURCE
    {
      total, successes, failures, consecutive := 0, 0, 0, 0;
      active, score, nextRunAt := true, 1.0, None;
    }

    function Value(): Health
      reads this
    {
      Health(total, successes, failures, consecutive, active, score, nextRunAt)
    }

    method RecordSuccess()
      modifies this
      ensures Value() == AfterSuccess(old(Value()))
      ensures total == old(total) + 1 && successes == old(successes) + 1 && consecutive == 0
      ensures failures == old(failures) && active == old(active) && nextRunAt == old(nextRunAt)
    {
      total := total + 1;
      successes := successes + 1;
      consecutive := 0;
      RecalculateScore();
    }

    method RecordFailure(now: int) returns (reaction: Reaction)
      modifies this
      ensures Value() == AfterFailure(old(Value()), now)
      ensures total == old(total) + 1 && failures == old(failures) + 1 && consecutive == old(consecutive) + 1
      ensures successes == old(successes) && active == (old(active) && consecutive < 5)
      ensures consecutive >= 5 ==> nextRunAt == old(nextRunAt)
      ensures reaction == ReactionTo(consecutive)
    {
      total := total + 1;
      failures := failures + 1;
      consecutive := consecutive + 1;
      RecalculateScore();
      if consecutive >= CIRCUIT_BREAKER_THRESHOLD {
        active := false;
        reaction := CircuitBreaker;
      } else {
        var minutes := BACKOFF_BASE_MINUTES * Pow2(consecutive - 1);
        if minutes > BACKOFF_MAX_MINUTES {
          minutes := BACKOFF_MAX_MINUTES;
        }
        nextRunAt := Some(now + minutes);
        reaction := Backoff(minutes);
      }
    }

    method RecalculateScore()
      modifies this`score
      ensures score == Score(successes, total)
    {
      if total == 0 {
        score := 1.0;
        return;
      }
      score := successes as real / total as real;
    }
  }

  // ---------------------------------------------------------------- over histories

  /** How many results at the end of a history are failures. */
  function TrailingFailures(results: seq<RunResult>): nat {
    if results == [] || results[|results| - 1].ok then 0
    else 1 + TrailingFailures(results[..|results| - 1])
  }

  /** The five results from position i on are failures. */
  ghost predicate FiveFailuresFrom(results: seq<RunResult>, i: nat) {
    i + 5 <= |results| && forall j :: i <= j < i + 5 ==> !results[j].ok
  }

  lemma {:induction false} TrailingFailuresAre(results: seq<RunResult>)
    ensures TrailingFailures(results) <= |results|
    ensures forall j :: |results| - TrailingFailures(results) <= j < |results| ==> !results[j].ok
    ensures TrailingFailures(results) < |results| ==> results[|results| - TrailingFailures(results) - 1].ok
  {
    if results != [] && !results[|results| - 1].ok {
      TrailingFailuresAre(results[..|results| - 1]);
    }
  }

  /** The consecutive-failure counter is the length of the trailing run of failures. */
  lemma {:induction false} ConsecutiveIsTrailing(results: seq<RunResult>)
    ensures Replay(results).consecutive == TrailingFailures(results)
  {
    if results != [] {
      ConsecutiveIsTrailing(results[..|results| - 1]);
    }
  }

  /** A source is inactive exactly when some five results in a row were failures, whatever came after. */
  lemma {:induction false} InactiveIffFiveInARow(results: seq<RunResult>)
    ensures !Replay(results).active <==> exists i: nat :: FiveFailuresFrom(results, i)
  {
    if results != [] {
      var n := |results| - 1;
      var before := results[..n];
      InactiveIffFiveInARow(before);
      ConsecutiveIsTrailing(results);
      TrailingFailuresAre(results);
      if TrailingFailures(results) >= 5 {
        assert FiveFailuresFrom(results, |results| - 5);
      }
      if i: nat :| FiveFailuresFrom(before, i) {
        assert FiveFailuresFrom(results, i);
      }
      if i: nat :| FiveFailuresFrom(results, i) {
        if i + 5 <= n {
          assert FiveFailuresFrom(before, i);
        } else {
          FewTrailing(results, i);
        }
      }
    }
  }

  /** Five failures at the very end are trailing. */
  lemma FewTrailing(results: seq<RunResult>, i: nat)
    requires FiveFailuresFrom(results, i) && i + 5 == |results|
    ensures TrailingFailures(results) >= 5
  {
    TrailingFailuresAre(results);
  }

  /**
   Each failure that does not trip the breaker is at most the fourth in a row, and is answered by
   5, 10, 20 or 40 minutes: the 24-hour clamp is never reached.
   */
  lemma BackoffDoubles(results: seq<RunResult>)
    requires results != [] && !results[|results| - 1].ok
    ensures var k := TrailingFailures(results);
            && k == Replay(results).consecutive
            && (if k >= 5 then ReactionTo(k).CircuitBreaker?
                else 1 <= k <= 4
                     && ReactionTo(k) == Backoff(5 * Pow2(k - 1))
                     && 5 * Pow2(k - 1) == [5, 10, 20, 40][k - 1] < 1440
                     && Replay(results).nextRunAt == Some(results[|results| - 1].at + 5 * Pow2(k - 1)))
  {
    ConsecutiveIsTrailing(results);
    var k := TrailingFailures(results);
    assert Pow2(0) == 1 && Pow2(1) == 2 && Pow2(2) == 4 && Pow2(3) == 8;
  }

  /** RecordJobResult applied to the same results, on a new source row. */
  function RecordAll(row: JobProtocol.Source, results: seq<RunResult>): JobProtocol.Source {
    if results == [] then row
    else JobProtocol.Counted(RecordAll(row, results[..|results| - 1]), results[|results| - 1].ok)
  }

  /** The SQL statement and the entity count the same runs, successes and failures, and the same health. */
  lemma {:induction false} StatementMatchesEntity(results: seq<RunResult>, tenant: nat)
    ensures var row := RecordAll(JobProtocol.Source(tenant, true, 0, 0, 0, 1.0), results);
            var entity := Replay(results);
            && row.totalRuns == entity.total && row.successfulRuns == entity.successes
            && row.failedRuns == entity.failures && row.health == entity.score
            && entity.total == |results| == entity.successes + entity.failures
  {
    if results != [] {
      StatementMatchesEntity(results[..|results| - 1], tenant);
    }
  }

  /** The statement never touches is_active: only the entity trips the breaker. */
  lemma {:induction false} StatementNeverDeactivates(row: JobProtocol.Source, results: seq<RunResult>)
    ensures RecordAll(row, results).active == row.active
  {
    if results != [] {
      StatementNeverDeactivates(row, results[..|results| - 1]);
    }
  }
}
