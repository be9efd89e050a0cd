/** The threshold automaton that turns probe outcomes into health flips
    (app/healthchecker/healthchecker.go:256-283). */
module HealthChecker {
  import opened Options

  /** Both at least 1 after configuration defaults. */
  datatype Thresholds = Thresholds(unhealthy: int, healthy: int) {
    predicate Valid() { unhealthy >= 1 && healthy >= 1 }
  }

  datatype Status = Status(failures: nat, successes: nat, healthy: bool)

  const INITIAL: Status := Status(0, 0, true)

  function AfterCheck(t: Thresholds, s: Status, success: bool): Status {
    if success then
      Status(0, s.successes + 1, s.healthy || s.successes + 1 >= t.healthy)
    else
      Status(s.failures + 1, 0, s.healthy && s.failures + 1 < t.unhealthy)
  }

  class TargetStatus {
    const targetURL: string
    const config: Thresholds
    var consecutiveFailures: nat
    var consecutiveSuccesses: nat
    var isHealthy: bool

    function View(): Status
      reads this
    {
      Status(consecutiveFailures, consecutiveSuccesses, isHealthy)
    }

    constructor (targetURL: string, config: Thresholds)
      ensures this.targetURL == targetURL && this.config == config && View() == INITIAL
    {
      this.targetURL := targetURL;
      this.config := config;
      consecutiveFailures, consecutiveSuccesses, isHealthy := 0, 0, true;
    }

    /** The result is the health pushed to the proxy, None when nothing flipped. */
    method ProcessCheckResult(success: bool) returns (notify: Option<bool>)
      modifies this
      ensures View() == AfterCheck(config, old(View()), success)
      ensures notify == if isHealthy != old(isHealthy) then Some(isHealthy) else None
    {
      var previouslyHealthy := isHealthy;
      if success {
        consecutiveSuccesses := consecutiveSuccesses + 1;
        consecutiveFailures := 0;
        if !isHealthy && consecutiveSuccesses >= config.healthy { isHealthy := true; }
      } else {
        consecutiveFailures := consecutiveFailures + 1;
        consecutiveSuccesses := 0;
        if isHealthy && consecutiveFailures >= config.unhealthy { isHealthy := false; }
      }
      notify := if isHealthy != previouslyHealthy then Some(isHealthy) else None;
    }
  }

  function StatusAfter(t: Thresholds, outcomes: seq<bool>): Status {
    if outcomes == [] then INITIAL
    else AfterCheck(t, StatusAfter(t, outcomes[..|outcomes| - 1]), outcomes[|outcomes| - 1])
  }

  // ---------- health by history ----------

  /** The `len` outcomes before position k all equal b. */
  ghost predicate EndsStreak(outcomes: seq<bool>, k: int, len: int, b: bool) {
    && 0 <= len <= k <= |outcomes|
    && forall j :: k - len <= j < k ==> outcomes[j] == b
  }

  /** Some point ends a streak of failures long enough, and no later point ends a streak of
      successes long enough. */
  ghost predicate LastVerdictIsFailure(t: Thresholds, outcomes: seq<bool>) {
    exists k :: EndsStreak(outcomes, k, t.unhealthy, false) &&
      forall m :: k < m <= |outcomes| ==> !EndsStreak(outcomes, m, t.healthy, true)
  }

  lemma {:induction false} StreakCounters(t: Thresholds, outcomes: seq<bool>, len: nat)
    ensures EndsStreak(outcomes, |outcomes|, len, false) <==> len <= StatusAfter(t, outcomes).failures
    ensures EndsStreak(outcomes, |outcomes|, len, true) <==> len <= StatusAfter(t, outcomes).successes
  {
    if outcomes != [] && len > 0 {
      var n := |outcomes| - 1;
      var front := outcomes[..n];
      StreakCounters(t, front, len - 1);
      var b := outcomes[n];
      assert EndsStreak(outcomes, n + 1, len, b) <==> EndsStreak(front, n, len - 1, b) by {
        assert forall j :: 0 <= j < n ==> front[j] == outcomes[j];
        if EndsStreak(front, n, len - 1, b) {
          forall j | n + 1 - len <= j < n + 1 ensures outcomes[j] == b {
            if j < n { assert front[j] == b; }
          }
        }
      }
      assert !EndsStreak(outcomes, n + 1, len, !b);
    }
  }

  lemma {:induction false} StreakInPrefix(outcomes: seq<bool>, n: nat, k: int, len: int, b: bool)
    requires k <= n <= |outcomes|
    ensures EndsStreak(outcomes, k, len, b) <==> EndsStreak(outcomes[..n], k, len, b)
  {
    if 0 <= len <= k {
      assert forall j :: 0 <= j < n ==> outcomes[..n][j] == outcomes[j];
      if EndsStreak(outcomes[..n], k, len, b) {
        forall j | k - len <= j < k ensures outcomes[j] == b {
          assert outcomes[..n][j] == b;
        }
      }
    }
  }

  /** A target is unhealthy exactly when the most recent verdict in its history, be it U failures
      in a row or H successes in a row, exists and is of the failure kind. */
  lemma {:induction false} HealthByHistory(t: Thresholds, outcomes: seq<bool>)
    requires t.Valid()
    ensures !StatusAfter(t, outcomes).healthy <==> LastVerdictIsFailure(t, outcomes)
  {
    if outcomes != [] {
      var n := |outcomes| - 1;
      var front := outcomes[..n];
      HealthByHistory(t, front);
      StreakCounters(t, outcomes, t.unhealthy);
      StreakCounters(t, outcomes, t.healthy);
      forall k, len, b | k <= n
        ensures EndsStreak(outcomes, k, len, b) <==> EndsStreak(front, k, len, b)
      {
        StreakInPrefix(outcomes, n, k, len, b);
      }
      if EndsStreak(outcomes, n + 1, t.unhealthy, false) {
        assert LastVerdictIsFailure(t, outcomes);
      } else if LastVerdictIsFailure(t, front) && !EndsStreak(outcomes, n + 1, t.healthy, true) {
        var k :| EndsStreak(front, k, t.unhealthy, false) &&
                 forall m :: k < m <= n ==> !EndsStreak(front, m, t.healthy, true);
        forall m | k < m <= n + 1 ensures !EndsStreak(outcomes, m, t.healthy, true) {}
        assert LastVerdictIsFailure(t, outcomes);
      }
    }
  }

  // ---------- flips ----------

  /** The values pushed to the proxy, in order. */
  function Notifications(t: Thresholds, outcomes: seq<bool>): seq<bool> {
    if outcomes == [] then []
    else
      var n := |outcomes| - 1;
      var before, after := StatusAfter(t, outcomes[..n]).healthy, StatusAfter(t, outcomes).healthy;
      var front := Notifications(t, outcomes[..n]);
      if before != after then front + [after] else front
  }

  function CountOf(s: seq<bool>, b: bool): nat {
    if s == [] then 0 else CountOf(s[..|s| - 1], b) + if s[|s| - 1] == b then 1 else 0
  }

  /** The checks the notifications needed at least: U for each down and H for each up. */
  function Cost(t: Thresholds, ns: seq<bool>): int {
    if ns == [] then 0
    else Cost(t, ns[..|ns| - 1]) + if ns[|ns| - 1] then t.healthy else t.unhealthy
  }

  lemma {:induction false} CostIs(t: Thresholds, ns: seq<bool>)
    ensures Cost(t, ns) == CountOf(ns, false) * t.unhealthy + CountOf(ns, true) * t.healthy
  {
    if ns != [] {
      var front := ns[..|ns| - 1];
      CostIs(t, front);
      MulSucc(CountOf(front, false), t.unhealthy);
      MulSucc(CountOf(front, true), t.healthy);
    }
  }

  ghost predicate WithinBudget(t: Thresholds, ns: seq<bool>, s: Status, checks: nat) {
    var downs, ups := CountOf(ns, false), CountOf(ns, true);
    && (forall i :: 0 <= i < |ns| ==> ns[i] == (i % 2 == 1))
    && Cost(t, ns) + (if s.healthy then s.failures else s.successes) <= checks
    && (if s.healthy then s.failures < t.unhealthy && downs == ups && |ns| % 2 == 0
        else s.successes < t.healthy && downs == ups + 1 && |ns| % 2 == 1)
  }

  lemma {:induction false} CheckKeepsBudget(t: Thresholds, ns: seq<bool>, s: Status, checks: nat, outcome: bool)
    requires t.Valid() && WithinBudget(t, ns, s, checks)
    ensures var s' := AfterCheck(t, s, outcome);
            WithinBudget(t, if s'.healthy != s.healthy then ns + [s'.healthy] else ns, s', checks + 1)
  {
    CountAppend(ns, false);
    CountAppend(ns, true);
    assert (ns + [false])[..|ns|] == ns && (ns + [true])[..|ns|] == ns;
  }

  /** Notifications alternate, starting with "unhealthy"; D downs and P ups cost at least
      D*U + P*H checks; and the target is down exactly when there is one more down than up. */
  lemma {:induction false} FlipBudget(t: Thresholds, outcomes: seq<bool>)
    requires t.Valid()
    ensures var ns := Notifications(t, outcomes);
            && WithinBudget(t, ns, StatusAfter(t, outcomes), |outcomes|)
            && Cost(t, ns) == CountOf(ns, false) * t.unhealthy + CountOf(ns, true) * t.healthy
  {
    CostIs(t, Notifications(t, outcomes));
    if outcomes != [] {
      var n := |outcomes| - 1;
      FlipBudget(t, outcomes[..n]);
      CheckKeepsBudget(t, Notifications(t, outcomes[..n]), StatusAfter(t, outcomes[..n]), n, outcomes[n]);
    }
  }

  lemma {:induction false} CountAppend(s: seq<bool>, b: bool)
    ensures CountOf(s + [b], b) == CountOf(s, b) + 1 && CountOf(s + [b], !b) == CountOf(s, !b)
  {
    assert (s + [b])[..|s|] == s;
  }

  lemma MulSucc(a: nat, n: int)
    ensures (a + 1) * n == a * n + n
  {}
}
