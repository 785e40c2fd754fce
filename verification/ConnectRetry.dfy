/** The connect loop shared by `pg_client` and `mqtt_client`: retry transport failures until a
    deadline, with a fixed back-off. Time is virtual, in nanoseconds from the start of the command. */
module ConnectRetry {
  import opened Common

  datatype Mode = Disconnected | Connected

  /** Failures by error variant; only the `network` variant is retried. */
  datatype Outcome = Success | NetworkFailure(reason: string) | ServerFailure(variant: string, reason: string)

  /** What the environment does with one attempt. */
  datatype Attempt = Resolves(after: nat, outcome: Outcome) | NeverResolves

  const DEFAULT_CONNECT_TIMEOUT_MS := 10_000

  function Budget(timeout: Option<int>): (ms: int)
    ensures ms > 0
    ensures timeout.Some? && timeout.value > 0 ==> ms == timeout.value
    ensures timeout.None? || timeout.value <= 0 ==> ms == 10_000
  {
    if timeout.Some? && timeout.value > 0 then timeout.value else DEFAULT_CONNECT_TIMEOUT_MS
  }

  function Nanos(ms: int): int { ms * 1_000_000 }

  /** ceil(budget / 200) */
  function MostAttempts(budget: int): int { (budget + 199) / 200 }

  function Backoff(remaining: int): int {
    if remaining < 200_000_000 then remaining else 200_000_000
  }

  predicate IsTransient(o: Outcome) { o.NetworkFailure? }

  /** The attempt finishes before its timer fires; the timer polls the attempt first. */
  predicate InTime(a: Attempt, remaining: int) { a.Resolves? && a.after <= remaining }

  function Min(a: int, b: int): int { if a < b then a else b }

  /** Attempts begin strictly before the deadline, the first one at once, and each later one as soon as
      the one before has failed and 200 ms, or what was left of the budget when it began, have passed. */
  predicate Paced(starts: seq<int>, deadline: int, attempts: nat -> Attempt) {
    && (starts != [] ==> starts[0] == 0)
    && (forall k :: 0 <= k < |starts| ==> 0 <= starts[k] < deadline)
    && (forall k :: 0 <= k < |starts| - 1 ==>
          && attempts(k).Resolves?
          && starts[k + 1] == starts[k] + attempts(k).after + Min(200_000_000, deadline - starts[k]))
  }

  /** The first `n` attempts each failed with a network error within their own time. */
  predicate Retried(starts: seq<int>, n: nat, deadline: int, attempts: nat -> Attempt)
    requires n <= |starts|
  {
    forall k :: 0 <= k < n ==>
      attempts(k).Resolves? && attempts(k).after <= deadline - starts[k] && attempts(k).outcome.NetworkFailure?
  }

  /** What the last attempt, begun at `start`, makes of the whole command, and when the command returns:
      at the deadline if it has not resolved by then; if it failed with a network error, after the pause
      that follows it, when the budget is spent; otherwise as soon as it resolves. */
  predicate Decides(a: Attempt, start: int, deadline: int, outcome: Outcome, elapsed: int) {
    if a.NeverResolves? || start + a.after > deadline then outcome == NetworkFailure("timeout") && elapsed == deadline
    else if a.outcome.NetworkFailure? then
      && outcome == a.outcome && elapsed == start + a.after + Min(200_000_000, deadline - start)
      && elapsed >= deadline
    else outcome == a.outcome && elapsed == start + a.after
  }

  /** Attempts at the exact times the environment makes them begin; every one but the last failed with a
      network error in its own time, and the last one decides. */
  predicate Follows(starts: seq<int>, deadline: int, attempts: nat -> Attempt, outcome: Outcome, elapsed: int) {
    && starts != [] && Paced(starts, deadline, attempts) && Retried(starts, |starts| - 1, deadline, attempts)
    && Decides(attempts(|starts| - 1), starts[|starts| - 1], deadline, outcome, elapsed)
  }

  /** The environment leaves no choice: attempts, outcome and time of return are determined by it. */
  lemma EnvironmentDecides(deadline: int, attempts: nat -> Attempt, s: seq<int>, o: Outcome, e: int,
                           s': seq<int>, o': Outcome, e': int)
    requires Follows(s, deadline, attempts, o, e) && Follows(s', deadline, attempts, o', e')
    ensures s == s' && o == o' && e == e'
  {
    var n := Min(|s|, |s'|);
    SameStarts(deadline, attempts, s, s', n);
    assert s[n - 1] == s[..n][n - 1] && s'[n - 1] == s'[..n][n - 1];
    GoesOnIff(s, deadline, attempts, o, e, n - 1);
    GoesOnIff(s', deadline, attempts, o', e', n - 1);
    assert s[..|s|] == s && s'[..|s'|] == s';
  }

  /** An attempt is followed by another exactly when it failed with a network error in its own time and
      the pause after it ends before the deadline. */
  lemma GoesOnIff(s: seq<int>, deadline: int, attempts: nat -> Attempt, o: Outcome, e: int, n: nat)
    requires Follows(s, deadline, attempts, o, e) && n < |s|
    ensures var a := attempts(n);
            n < |s| - 1 <==>
              && a.Resolves? && s[n] + a.after <= deadline && a.outcome.NetworkFailure?
              && s[n] + a.after + Min(200_000_000, deadline - s[n]) < deadline
  {
    if n < |s| - 1 {
      assert attempts(n).Resolves? && s[n + 1] < deadline;
    }
  }

  lemma {:induction false} SameStarts(deadline: int, attempts: nat -> Attempt, s: seq<int>, s': seq<int>, n: int)
    requires Paced(s, deadline, attempts) && Paced(s', deadline, attempts) && 0 <= n <= |s| && n <= |s'|
    ensures s[..n] == s'[..n]
  {
    if n > 1 {
      SameStarts(deadline, attempts, s, s', n - 1);
      assert s[n - 2] == s[..n - 1][n - 2] && s'[n - 2] == s'[..n - 1][n - 2];
      assert attempts(n - 2).Resolves? && s[(n - 2) + 1] == s'[(n - 2) + 1];
    }
  }

  /** Runs the loop against any environment.

      `config` is `None` when the keyword arguments cannot be turned into a configuration, an error
      reported under the actor's own `variant` (`connect` for pg_client, `mqtt` for mqtt_client);
      `starts` records the time at which each attempt began and `elapsed` the time of return. */
  method Connect(config: Option<Option<int>>, variant: string, attempts: nat -> Attempt)
    returns (mode: Mode, outcome: Outcome, starts: seq<int>, elapsed: int)
    // The mode follows the outcome.
    ensures mode == Connected <==> outcome == Success
    ensures config.None? ==> outcome == ServerFailure(variant, "other") && starts == [] && elapsed == 0
    ensures config.Some? ==>
              var deadline := Budget(config.value) * 1_000_000;
              && Follows(starts, deadline, attempts, outcome, elapsed)
              // At most ceil(budget / 200) attempts, and the budget is overrun by one pause at most.
              && 200 * (|starts| - 1) < Budget(config.value)
              && 0 <= elapsed <= deadline + Min(200_000_000, deadline)
  {
    starts := [];
    elapsed := 0;
    if config.None? {
      return Disconnected, ServerFailure(variant, "other"), starts, elapsed;
    }
    var budget := Budget(config.value);
    var deadline := Nanos(budget);
    var last: Option<Outcome> := None;
    NothingPending(deadline, attempts);
    hide Paced, Retried, Pending;
    while true
      invariant Pending(starts, deadline, attempts, elapsed)
      invariant |starts| <= MostAttempts(budget)
      invariant starts != [] ==> last == Some(attempts(|starts| - 1).outcome)
      decreases MostAttempts(budget) - |starts|
    {
      if elapsed >= deadline {
        BudgetSpent(starts, budget, attempts, elapsed);
        return Disconnected, if last.Some? then last.value else NetworkFailure("timeout"), starts, elapsed;
      }
      var remaining := deadline - elapsed;
      var attempt := attempts(|starts|);
      AttemptBegins(starts, budget, attempts, elapsed);
      starts := starts + [elapsed];
      if !InTime(attempt, remaining) {
        return Disconnected, NetworkFailure("timeout"), starts, deadline;
      }
      elapsed := elapsed + attempt.after;
      if attempt.outcome == Success {
        return Connected, Success, starts, elapsed;
      }
      if !IsTransient(attempt.outcome) {
        return Disconnected, attempt.outcome, starts, elapsed;
      }
      last := Some(attempt.outcome);
      elapsed := elapsed + Backoff(remaining);
      PauseEnds(starts, deadline, attempts, elapsed);
    }
  }

  /** Between two attempts: all so far failed with a network error, and the pause after the last is over. */
  predicate Pending(starts: seq<int>, deadline: int, attempts: nat -> Attempt, elapsed: int) {
    && Paced(starts, deadline, attempts) && Retried(starts, |starts|, deadline, attempts)
    && if starts == [] then elapsed == 0 else
         var n := |starts| - 1;
         attempts(n).Resolves? && elapsed == starts[n] + attempts(n).after + Min(200_000_000, deadline - starts[n])
  }

  lemma NothingPending(deadline: int, attempts: nat -> Attempt)
    ensures Pending([], deadline, attempts, 0)
  {
  }

  /** An attempt that is not the last was followed by a full back-off. */
  lemma {:induction false} Spaced(starts: seq<int>, deadline: int, attempts: nat -> Attempt, k: nat)
    requires Paced(starts, deadline, attempts) && k < |starts|
    ensures 200_000_000 * k <= starts[k]
  {
    if k > 0 {
      Spaced(starts, deadline, attempts, k - 1);
      assert attempts(k - 1).Resolves? && starts[(k - 1) + 1] < deadline;
    }
  }

  lemma AttemptBegins(starts: seq<int>, budget: int, attempts: nat -> Attempt, elapsed: int)
    requires Pending(starts, Nanos(budget), attempts, elapsed) && elapsed < Nanos(budget) && budget > 0
    ensures var s := starts + [elapsed];
            Paced(s, Nanos(budget), attempts) && Retried(s, |starts|, Nanos(budget), attempts)
    ensures elapsed >= 0 && 200 * |starts| < budget && |starts| + 1 <= MostAttempts(budget)
  {
    if starts != [] {
      assert attempts(|starts| - 1).Resolves?;
    }
    Spaced(starts + [elapsed], Nanos(budget), attempts, |starts|);
  }

  lemma PauseEnds(starts: seq<int>, deadline: int, attempts: nat -> Attempt, elapsed: int)
    requires starts != [] && Paced(starts, deadline, attempts) && Retried(starts, |starts| - 1, deadline, attempts)
    requires var n := |starts| - 1;
             && attempts(n).Resolves? && attempts(n).after <= deadline - starts[n]
             && attempts(n).outcome.NetworkFailure?
             && elapsed == starts[n] + attempts(n).after + Min(200_000_000, deadline - starts[n])
    ensures Pending(starts, deadline, attempts, elapsed)
  {
  }

  lemma BudgetSpent(starts: seq<int>, budget: int, attempts: nat -> Attempt, elapsed: int)
    requires Pending(starts, Nanos(budget), attempts, elapsed) && elapsed >= Nanos(budget) > 0
    ensures starts != [] && attempts(|starts| - 1).Resolves? && attempts(|starts| - 1).outcome.NetworkFailure?
    ensures Follows(starts, Nanos(budget), attempts, attempts(|starts| - 1).outcome, elapsed)
    ensures elapsed <= Nanos(budget) + Min(200_000_000, Nanos(budget)) && 200 * (|starts| - 1) < budget
  {
    Spaced(starts, Nanos(budget), attempts, |starts| - 1);
  }
}
