/** Target selection as functions of the targets' health, weights and connection counts, and
    what the four strategies guarantee (app/proxy/loadbalancer.go). */
module Selection {
  import opened Options

  const UINT32: nat := 0x1_0000_0000

  // ---------- round robin ----------

  type uint32 = x: nat | x < UINT32

  /** `counter + j` in 32-bit arithmetic. */
  function Add32(counter: uint32, j: nat): uint32
    requires j <= UINT32
  {
    if counter + j < UINT32 then counter + j
    else counter + j - UINT32
  }

  /** The target behind the j-th ticket drawn from the wrapping 32-bit counter. */
  function Visited(counter: uint32, j: nat, n: nat): (i: nat)
    requires 0 < n && j <= UINT32
    ensures i < n
  {
    Add32(counter, j) % n
  }

  /** The first ticket, from the j-th on and before the n-th, that finds a healthy target. */
  function FirstHealthyTicket(health: seq<bool>, counter: uint32, j: nat): (r: Option<nat>)
    requires j <= |health| < UINT32
    ensures r.Some? ==> j <= r.value < |health| && health[Visited(counter, r.value, |health|)]
    ensures forall k: nat :: j <= k < (if r.Some? then r.value else |health|) ==>
              !health[Visited(counter, k, |health|)]
    decreases |health| - j
  {
    if j == |health| then None
    else if health[Visited(counter, j, |health|)] then Some(j)
    else FirstHealthyTicket(health, counter, j + 1)
  }

  /** The target of the first ticket, of |health| drawn in turn, that finds a healthy one. */
  ghost predicate FromTicket(health: seq<bool>, counter: uint32, r: Option<nat>)
    requires |health| < UINT32
  {
    if r.None? then forall j: nat :: j < |health| ==> !health[Visited(counter, j, |health|)]
    else exists j: nat :: j < |health| && Visited(counter, j, |health|) == r.value && health[r.value]
           && forall k: nat :: k < j ==> !health[Visited(counter, k, |health|)]
  }

  /** The target `Next` returns. */
  function Scan(health: seq<bool>, counter: uint32): (r: Option<nat>)
    requires |health| < UINT32
    ensures FromTicket(health, counter, r)
  {
    var j := FirstHealthyTicket(health, counter, 0);
    if j.Some? then Some(Visited(counter, j.value, |health|)) else None
  }

  /** The counter `Next` leaves behind: one more for every ticket drawn. */
  function CounterAfterScan(health: seq<bool>, counter: uint32): uint32
    requires |health| < UINT32
  {
    var j := FirstHealthyTicket(health, counter, 0);
    Add32(counter, if j.Some? then j.value + 1 else |health|)
  }

  lemma {:induction false} ModUnique(q: int, n: int, r: int)
    requires 0 <= r < n
    ensures (q * n + r) % n == r && (q * n + r) / n == q
  {
    var x := q * n + r;
    var y, z := x / n, x % n;
    assert x == y * n + z;
    if y > q {
      MulAtLeast(y - q, n);
    } else if y < q {
      MulAtLeast(q - y, n);
    }
  }

  lemma {:induction false} MulAtLeast(a: int, n: int)
    requires a >= 1 && n >= 0
    ensures a * n >= n
  {
    assert a * n == (a - 1) * n + n;
  }

  /** Consecutive numbers meet every residue: `j` below is the ticket that reaches `i`. */
  lemma {:induction false} ResidueReached(c: nat, n: nat, i: nat) returns (j: nat)
    requires i < n
    ensures j < n && (c + j) % n == i
  {
    j := (i - c) % n;
    var q := (i - c) / n;
    assert c + j == (-q) * n + i;
    ModUnique(-q, n, i);
  }

  lemma {:induction false} ModShift(x: nat, m: nat, n: nat)
    requires n > 0 && m % n == 0 && x >= m
    ensures (x - m) % n == x % n
  {
    var q := m / n;
    assert m == q * n;
    assert x - m == (x / n - q) * n + x % n;
    ModUnique(x / n - q, n, x % n);
  }

  lemma {:induction false} TicketsReach(c: uint32, n: nat, i: nat) returns (j: nat)
    requires i < n < UINT32
    requires c + n <= UINT32 || UINT32 % n == 0
    ensures j < n && Visited(c, j, n) == i
  {
    j := ResidueReached(c, n, i);
    if c + j >= UINT32 { ModShift(c + j, UINT32, n); }
  }

  /** The residue of a ticket `d` places before the wrap. */
  lemma {:induction false} ResidueBeforeWrap(m: nat, d: nat, n: nat)
    requires 1 <= d < n && d <= m
    ensures (m - d) % n == if d <= m % n then m % n - d else m % n - d + n
  {
    var q, r := m / n, m % n;
    if d <= r {
      assert m - d == q * n + (r - d);
      ModUnique(q, n, r - d);
    } else {
      assert m - d == (q - 1) * n + (r - d + n);
      ModUnique(q - 1, n, r - d + n);
    }
  }

  /** When the counter wraps during the scan and n does not divide 2^32, this target is skipped. */
  lemma {:induction false} TicketsMiss(c: uint32, n: nat) returns (missed: nat)
    requires 1 <= n < UINT32
    requires c + n > UINT32 && UINT32 % n != 0
    ensures missed < n
    ensures forall j: nat :: j < n ==> Visited(c, j, n) != missed
  {
    var k, r := UINT32 - c, UINT32 % n;
    missed := if r >= n - k then r else n - k;
    forall j: nat | j < n
      ensures Visited(c, j, n) != missed
    {
      if j < k {
        ResidueBeforeWrap(UINT32, k - j, n);
      } else {
        assert Add32(c, j) == j - k;
        ModUnique(0, n, j - k);
      }
    }
  }

  function OnlyHealthy(n: nat, i: nat): (h: seq<bool>)
    ensures |h| == n && forall j :: 0 <= j < n ==> h[j] == (i == j)
  {
    seq(n, j => i == j)
  }

  /** Exact completeness: with health fixed during the call, `Next` finds a healthy target
      whenever there is one, if and only if the counter does not wrap during the scan or the
      number of targets divides 2^32. */
  lemma {:induction false} ScanIsCompleteIff(counter: uint32, n: nat)
    requires 1 <= n < UINT32
    ensures (forall health: seq<bool> :: |health| == n && true in health ==> Scan(health, counter).Some?)
       <==> (counter + n <= UINT32 || UINT32 % n == 0)
  {
    if counter + n <= UINT32 || UINT32 % n == 0 {
      forall health: seq<bool> | |health| == n && true in health
        ensures Scan(health, counter).Some?
      {
        var i :| 0 <= i < n && health[i];
        var j := TicketsReach(counter, n, i);
      }
    } else {
      var missed := TicketsMiss(counter, n);
      var health := OnlyHealthy(n, missed);
      assert health[missed];
      assert Scan(health, counter).None?;
    }
  }

  /** Three targets, counter at its last value: targets 0, 0 and 1 are visited. */
  lemma WrapSkipsTarget()
    ensures Scan([false, false, true], UINT32 - 1) == None
  {
    var h, c := [false, false, true], UINT32 - 1;
    assert Visited(c, 0, 3) == 0 && Visited(c, 1, 3) == 0 && Visited(c, 2, 3) == 1;
  }

  // ---------- random and weighted ----------

  /** Indices of the healthy targets, in order. */
  function HealthyIndices(health: seq<bool>): (r: seq<nat>)
    ensures forall k :: 0 <= k < |r| ==> r[k] < |health| && health[r[k]]
    ensures forall j, k :: 0 <= j < k < |r| ==> r[j] < r[k]
    ensures r == [] ==> forall i :: 0 <= i < |health| ==> !health[i]
  {
    if health == [] then []
    else
      var n := |health| - 1;
      var front := HealthyIndices(health[..n]);
      if health[n] then front + [n] else front
  }

  lemma {:induction false} HealthyIndicesStep(health: seq<bool>, i: nat)
    requires i < |health|
    ensures HealthyIndices(health[..i + 1]) ==
            if health[i] then HealthyIndices(health[..i]) + [i] else HealthyIndices(health[..i])
  {
    assert health[..i + 1][..i] == health[..i];
  }

  lemma {:induction false} HealthyIndicesComplete(health: seq<bool>, i: nat) returns (k: nat)
    requires i < |health| && health[i]
    ensures k < |HealthyIndices(health)| && HealthyIndices(health)[k] == i
  {
    var n := |health| - 1;
    if i == n {
      k := |HealthyIndices(health[..n])|;
    } else {
      k := HealthyIndicesComplete(health[..n], i);
    }
  }

  function Sum(ws: seq<int>): int {
    if ws == [] then 0 else Sum(ws[..|ws| - 1]) + ws[|ws| - 1]
  }

  /** The first position whose cumulative weight exceeds `r`; the last one if none does. */
  function CumulativePick(ws: seq<int>, r: int, from: nat): (k: nat)
    requires from < |ws|
    ensures k < |ws|
    decreases |ws| - from
  {
    if r < Sum(ws[..from + 1]) || from + 1 == |ws| then from else CumulativePick(ws, r, from + 1)
  }

  function WeightsAt(weights: seq<int>, idx: seq<nat>): (ws: seq<int>)
    requires forall k :: 0 <= k < |idx| ==> idx[k] < |weights|
    ensures |ws| == |idx| && forall k :: 0 <= k < |idx| ==> ws[k] == weights[idx[k]]
  {
    seq(|idx|, k requires 0 <= k < |idx| => weights[idx[k]])
  }

  function HealthyWeight(health: seq<bool>, weights: seq<int>): int
    requires |health| == |weights|
  {
    Sum(WeightsAt(weights, HealthyIndices(health)))
  }

  lemma {:induction false} WeightsAppend(weights: seq<int>, idx: seq<nat>, i: nat)
    requires i < |weights| && forall k :: 0 <= k < |idx| ==> idx[k] < |weights|
    ensures Sum(WeightsAt(weights, idx + [i])) == Sum(WeightsAt(weights, idx)) + weights[i]
  {
    assert WeightsAt(weights, idx + [i])[..|idx|] == WeightsAt(weights, idx);
  }

  /** The target the weighted balancer returns for random number `r`. */
  function WeightedPick(health: seq<bool>, weights: seq<int>, r: int): Option<nat>
    requires |health| == |weights|
  {
    var idx := HealthyIndices(health);
    if idx == [] then None else Some(idx[CumulativePick(WeightsAt(weights, idx), r, 0)])
  }

  /** `intn(n)` is the library's random number below n. */
  ghost predicate RandomSource(intn: nat -> nat) {
    forall n: nat :: n > 0 ==> intn(n) < n
  }

  /** The healthy target at a random position. */
  ghost function RandomPick(health: seq<bool>, intn: nat -> nat): (r: Option<nat>)
    requires RandomSource(intn)
    ensures r.Some? ==> r.value < |health| && health[r.value]
    ensures r.None? ==> true !in health
  {
    var idx := HealthyIndices(health);
    if idx == [] then None else Some(idx[intn(|idx|)])
  }

  /** The weighted pick for the random number drawn; a total that is not positive falls back to
      a random position. */
  ghost function WeightedChoice(health: seq<bool>, weights: seq<int>, intn: nat -> nat): (r: Option<nat>)
    requires |health| == |weights| && RandomSource(intn)
    ensures r.Some? ==> r.value < |health| && health[r.value]
    ensures r.None? ==> true !in health
  {
    var total := HealthyWeight(health, weights);
    if total <= 0 then RandomPick(health, intn) else WeightedPick(health, weights, intn(total))
  }

  ghost predicate Positive(ws: seq<int>) {
    forall i :: 0 <= i < |ws| ==> ws[i] > 0
  }

  lemma {:induction false} SumPrefixGrows(ws: seq<int>, j: nat, k: nat)
    requires Positive(ws) && j < k <= |ws|
    ensures 0 <= Sum(ws[..j]) < Sum(ws[..k])
    decreases k
  {
    assert ws[..k][..k - 1] == ws[..k - 1];
    if j < k - 1 {
      SumPrefixGrows(ws, j, k - 1);
    } else if j > 0 {
      SumPrefixGrows(ws, j - 1, j);
    }
  }

  /** Position k is picked exactly for the r in [Sum(ws[..k]), Sum(ws[..k + 1])); in particular
      the fallback to the last target is never taken for r below the total. */
  lemma {:induction false} PickInterval(ws: seq<int>, r: int, from: nat, k: nat)
    requires Positive(ws) && from < |ws| && k < |ws|
    requires Sum(ws[..from]) <= r < Sum(ws)
    ensures CumulativePick(ws, r, from) == k <==> from <= k && Sum(ws[..k]) <= r < Sum(ws[..k + 1])
    decreases |ws| - from
  {
    assert ws[..|ws|] == ws;
    if r < Sum(ws[..from + 1]) {
      if k > from { SumLe(ws, from + 1, k); }
    } else {
      if k <= from { SumLe(ws, k + 1, from + 1); }
      PickInterval(ws, r, from + 1, k);
    }
  }

  lemma {:induction false} SumLe(ws: seq<int>, j: nat, k: nat)
    requires Positive(ws) && j <= k <= |ws|
    ensures Sum(ws[..j]) <= Sum(ws[..k])
  {
    if j < k { SumPrefixGrows(ws, j, k); }
  }

  function Range(lo: int, hi: int): (s: set<int>)
    ensures forall r :: r in s <==> lo <= r < hi
    ensures lo <= hi ==> |s| == hi - lo
    decreases hi - lo
  {
    if lo >= hi then {} else Range(lo, hi - 1) + {hi - 1}
  }

  /** The random numbers that make the weighted balancer return target i. */
  ghost function Draws(health: seq<bool>, weights: seq<int>, i: nat): set<int>
    requires |health| == |weights|
  {
    set r | r in Range(0, HealthyWeight(health, weights)) && WeightedPick(health, weights, r) == Some(i)
  }

  /** The cumulative weight of the first k healthy targets. */
  function WeightBefore(health: seq<bool>, weights: seq<int>, k: nat): int
    requires |health| == |weights| && k <= |HealthyIndices(health)|
  {
    Sum(WeightsAt(weights, HealthyIndices(health))[..k])
  }

  lemma {:induction false} DrawIff(health: seq<bool>, weights: seq<int>, k: nat, r: int)
    requires |health| == |weights| && Positive(weights) && k < |HealthyIndices(health)|
    requires 0 <= r < HealthyWeight(health, weights)
    ensures WeightedPick(health, weights, r) == Some(HealthyIndices(health)[k]) <==>
            WeightBefore(health, weights, k) <= r < WeightBefore(health, weights, k + 1)
  {
    var idx := HealthyIndices(health);
    var ws := WeightsAt(weights, idx);
    assert ws[..0] == [];
    PickInterval(ws, r, 0, k);
    var p := CumulativePick(ws, r, 0);
    assert idx[p] == idx[k] <==> p == k;
  }

  lemma {:induction false} WeightBeforeBounds(health: seq<bool>, weights: seq<int>, k: nat)
    requires |health| == |weights| && Positive(weights) && k < |HealthyIndices(health)|
    ensures 0 <= WeightBefore(health, weights, k)
    ensures WeightBefore(health, weights, k + 1) <= HealthyWeight(health, weights)
    ensures WeightBefore(health, weights, k + 1) ==
            WeightBefore(health, weights, k) + weights[HealthyIndices(health)[k]]
  {
    PrefixBounds(WeightsAt(weights, HealthyIndices(health)), k);
  }

  lemma {:induction false} HealthyDraws(health: seq<bool>, weights: seq<int>, k: nat, lo: int, hi: int)
    requires |health| == |weights| && Positive(weights) && k < |HealthyIndices(health)|
    requires lo == WeightBefore(health, weights, k) && hi == WeightBefore(health, weights, k + 1)
    ensures Draws(health, weights, HealthyIndices(health)[k]) == Range(lo, hi)
  {
    WeightBeforeBounds(health, weights, k);
    forall r
      ensures r in Draws(health, weights, HealthyIndices(health)[k]) <==> r in Range(lo, hi)
    {
      if 0 <= r < HealthyWeight(health, weights) { DrawIff(health, weights, k, r); }
    }
  }

  lemma {:induction false} PrefixBounds(ws: seq<int>, k: nat)
    requires Positive(ws) && k < |ws|
    ensures 0 <= Sum(ws[..k]) && Sum(ws[..k + 1]) <= Sum(ws)
    ensures Sum(ws[..k + 1]) == Sum(ws[..k]) + ws[k]
  {
    assert ws[..k + 1][..k] == ws[..k];
    assert ws[..|ws|] == ws && ws[..0] == [];
    SumLe(ws, 0, k);
    SumLe(ws, k + 1, |ws|);
  }

  /** Exact proportions: a healthy target is returned for exactly `weight` of the possible
      random numbers, an unhealthy one for none. */
  lemma {:induction false} WeightedProportions(health: seq<bool>, weights: seq<int>, i: nat)
    requires |health| == |weights| && Positive(weights) && i < |health|
    ensures |Draws(health, weights, i)| == if health[i] then weights[i] else 0
  {
    if health[i] {
      var k := HealthyIndicesComplete(health, i);
      WeightBeforeBounds(health, weights, k);
      HealthyDraws(health, weights, k, WeightBefore(health, weights, k), WeightBefore(health, weights, k + 1));
    } else {
      assert Draws(health, weights, i) == {};
    }
  }

  /** Neither fallback of the weighted balancer is reachable: with a healthy target the total is
      positive and some cumulative sum exceeds every random number below it. */
  lemma {:induction false} WeightedFallbacksUnreachable(health: seq<bool>, weights: seq<int>, r: int)
    requires |health| == |weights| && Positive(weights) && true in health
    ensures HealthyWeight(health, weights) > 0
    ensures 0 <= r < HealthyWeight(health, weights) ==>
              var ws := WeightsAt(weights, HealthyIndices(health));
              r < Sum(ws[..CumulativePick(ws, r, 0) + 1])
  {
    var i :| 0 <= i < |health| && health[i];
    var k := HealthyIndicesComplete(health, i);
    var ws := WeightsAt(weights, HealthyIndices(health));
    SumPrefixGrows(ws, 0, |ws|);
    assert ws[..|ws|] == ws && ws[..0] == [];
    if 0 <= r < Sum(ws) { PickInterval(ws, r, 0, CumulativePick(ws, r, 0)); }
  }

  /** A random source that answers `d` when asked for a number below `n`. */
  ghost function Draw(n: nat, d: nat): (intn: nat -> nat)
    requires d < n
    ensures RandomSource(intn) && intn(n) == d
  {
    m => if m == n then d else 0
  }

  lemma {:induction false} ChoiceByDraw(health: seq<bool>, weights: seq<int>, intn: nat -> nat)
    requires |health| == |weights| && RandomSource(intn)
    ensures HealthyWeight(health, weights) > 0 ==>
              WeightedChoice(health, weights, intn)
              == WeightedPick(health, weights, intn(HealthyWeight(health, weights)))
  {}

  /** The numbers below the total for which the weighted balancer answers i. */
  ghost function ChoiceDraws(health: seq<bool>, weights: seq<int>, i: nat): set<int>
    requires |health| == |weights|
  {
    var total := HealthyWeight(health, weights);
    set d | d in Range(0, total) && WeightedChoice(health, weights, Draw(total, d)) == Some(i)
  }

  lemma {:induction false} SameDraws(health: seq<bool>, weights: seq<int>, i: nat)
    requires |health| == |weights|
    ensures ChoiceDraws(health, weights, i) == Draws(health, weights, i)
  {
    var total := HealthyWeight(health, weights);
    forall d: int ensures d in ChoiceDraws(health, weights, i) <==> d in Draws(health, weights, i) {
      if 0 <= d < total { ChoiceByDraw(health, weights, Draw(total, d)); }
    }
  }

  /** The weighted balancer's own proportions: with positive weights its answer depends on one random
      number below the total weight, and each healthy target is the answer for exactly `weight` of
      those numbers, an unhealthy one for none. */
  lemma {:induction false} ChoiceProportions(health: seq<bool>, weights: seq<int>, intn: nat -> nat, i: nat)
    requires |health| == |weights| && Positive(weights) && i < |health| && RandomSource(intn)
    ensures |ChoiceDraws(health, weights, i)| == if health[i] then weights[i] else 0
    ensures true in health ==>
              var total := HealthyWeight(health, weights);
              && 0 < total && intn(total) < total
              && WeightedChoice(health, weights, intn) == WeightedChoice(health, weights, Draw(total, intn(total)))
  {
    WeightedProportions(health, weights, i);
    SameDraws(health, weights, i);
    if true in health {
      WeightedFallbacksUnreachable(health, weights, 0);
      var total := HealthyWeight(health, weights);
      ChoiceByDraw(health, weights, intn);
      ChoiceByDraw(health, weights, Draw(total, intn(total)));
    }
  }

  /** The numbers below n for which the random balancer answers i. */
  ghost function RandomDraws(health: seq<bool>, n: nat, i: nat): set<int> {
    set d | d in Range(0, n) && RandomPick(health, Draw(n, d)) == Some(i)
  }

  lemma {:induction false} RandomByDraw(health: seq<bool>, intn: nat -> nat)
    requires RandomSource(intn)
    ensures var idx := HealthyIndices(health);
            idx != [] ==> RandomPick(health, intn) == Some(idx[intn(|idx|)])
  {}

  lemma {:induction false} HealthyIndicesDiffer(health: seq<bool>, j: nat, k: nat)
    requires j < |HealthyIndices(health)| && k < |HealthyIndices(health)|
    ensures HealthyIndices(health)[j] == HealthyIndices(health)[k] <==> j == k
  {}

  /** With n healthy targets the random balancer's answer depends on one number below n, and each
      healthy target is the answer for exactly one of them. */
  lemma {:induction false} RandomIsUniform(health: seq<bool>, intn: nat -> nat, i: nat)
    requires i < |health| && RandomSource(intn)
    ensures var n := |HealthyIndices(health)|;
            && |RandomDraws(health, n, i)| == (if health[i] then 1 else 0)
            && (n > 0 ==> RandomPick(health, intn) == RandomPick(health, Draw(n, intn(n))))
  {
    var n := |HealthyIndices(health)|;
    if n > 0 {
      RandomByDraw(health, intn);
      RandomByDraw(health, Draw(n, intn(n)));
    }
    RandomCount(health, i);
  }

  lemma {:induction false} RandomDrawIff(health: seq<bool>, k: nat, d: nat)
    requires k < |HealthyIndices(health)| && d < |HealthyIndices(health)|
    ensures var idx := HealthyIndices(health);
            RandomPick(health, Draw(|idx|, d)) == Some(idx[k]) <==> d == k
  {
    RandomByDraw(health, Draw(|HealthyIndices(health)|, d));
    HealthyIndicesDiffer(health, d, k);
  }

  lemma {:induction false} RandomDrawsAre(health: seq<bool>, k: nat)
    requires k < |HealthyIndices(health)|
    ensures RandomDraws(health, |HealthyIndices(health)|, HealthyIndices(health)[k]) == {k}
  {
    var n, i := |HealthyIndices(health)|, HealthyIndices(health)[k];
    forall d: int ensures d in RandomDraws(health, n, i) <==> d == k {
      if 0 <= d < n { RandomDrawIff(health, k, d); }
    }
  }

  lemma {:induction false} RandomCount(health: seq<bool>, i: nat)
    requires i < |health|
    ensures |RandomDraws(health, |HealthyIndices(health)|, i)| == if health[i] then 1 else 0
  {
    if health[i] {
      var k := HealthyIndicesComplete(health, i);
      RandomDrawsAre(health, k);
    } else {
      assert RandomDraws(health, |HealthyIndices(health)|, i) == {};
    }
  }

  // ---------- least connections ----------

  /** Healthy, no healthy target has fewer connections, and every healthy one before it has more. */
  ghost predicate IsLeftmostLeast(health: seq<bool>, conns: seq<int>, i: nat)
    requires |health| == |conns|
  {
    && i < |health| && health[i]
    && forall j :: 0 <= j < |health| && health[j] ==>
         conns[i] <= conns[j] && (j < i ==> conns[i] < conns[j])
  }

  function LeastLoaded(health: seq<bool>, conns: seq<int>): (r: Option<nat>)
    requires |health| == |conns|
    ensures r.None? ==> forall i :: 0 <= i < |health| ==> !health[i]
    ensures r.Some? ==> IsLeftmostLeast(health, conns, r.value)
  {
    if health == [] then None
    else
      var n := |health| - 1;
      var best := LeastLoaded(health[..n], conns[..n]);
      if health[n] && (best.None? || conns[n] < conns[best.value]) then Some(n) else best
  }

  ghost predicate SpreadAtMost(health: seq<bool>, conns: seq<int>, d: int)
    requires |health| == |conns|
  {
    forall i, j :: 0 <= i < |health| && 0 <= j < |health| && health[i] && health[j] ==>
      conns[i] - conns[j] <= d
  }

  /** An arrival never raises the spread above the larger of its old value and 1. */
  lemma ArrivalKeepsSpread(health: seq<bool>, conns: seq<int>, d: int)
    requires |health| == |conns| && d >= 1 && SpreadAtMost(health, conns, d)
    requires LeastLoaded(health, conns).Some?
    ensures var i := LeastLoaded(health, conns).value;
            SpreadAtMost(health, conns[i := conns[i] + 1], d)
  {}

  // ---------- round robin against least connections ----------

  function AllHealthy(n: nat): (h: seq<bool>)
    ensures |h| == n && forall i :: 0 <= i < n ==> h[i]
  {
    seq(n, _ => true)
  }

  /** The fresh round-robin counter after k calls with every target healthy. */
  function CounterAfter(n: nat, k: nat): uint32
    requires 0 < n < UINT32
  {
    if k == 0 then 0 else CounterAfterScan(AllHealthy(n), CounterAfter(n, k - 1))
  }

  function RoundRobinTarget(n: nat, k: nat): Option<nat>
    requires 0 < n < UINT32
  {
    Scan(AllHealthy(n), CounterAfter(n, k))
  }

  /** Connection counts after k least-connections arrivals and no completions. */
  function LoadsAfter(n: nat, k: nat): (c: seq<int>)
    requires n > 0
    ensures |c| == n
  {
    if k == 0 then seq(n, _ => 0)
    else
      var c := LoadsAfter(n, k - 1);
      var pick := LeastLoaded(AllHealthy(n), c);
      if pick.Some? then c[pick.value := c[pick.value] + 1] else c
  }

  function LeastConnectionsTarget(n: nat, k: nat): Option<nat>
    requires n > 0
  {
    LeastLoaded(AllHealthy(n), LoadsAfter(n, k))
  }

  lemma {:induction false} FirstTicketHits(n: nat, counter: uint32)
    requires 0 < n < UINT32
    ensures Scan(AllHealthy(n), counter) == Some(counter % n)
    ensures CounterAfterScan(AllHealthy(n), counter) == Add32(counter, 1)
  {
    assert AllHealthy(n)[Visited(counter, 0, n)];
  }

  lemma {:induction false} CounterKth(n: nat, k: nat)
    requires 0 < n < UINT32
    ensures CounterAfter(n, k) == k % UINT32
  {
    if k > 0 {
      CounterKth(n, k - 1);
      FirstTicketHits(n, (k - 1) % UINT32);
      WrapSucc(k);
    }
  }

  lemma WrapSucc(k: nat)
    requires k > 0
    ensures Add32((k - 1) % UINT32, 1) == k % UINT32
  {}

  lemma {:induction false} RoundRobinKth(n: nat, k: nat)
    requires 0 < n < UINT32
    ensures RoundRobinTarget(n, k) == Some((k % UINT32) % n)
  {
    CounterKth(n, k);
    FirstTicketHits(n, k % UINT32);
  }

  /** q full rounds and r more arrivals: the first r targets are one ahead. */
  ghost predicate Staircase(c: seq<int>, q: int, r: int) {
    forall i :: 0 <= i < |c| ==> c[i] == q + if i < r then 1 else 0
  }

  lemma {:induction false} StaircasePick(c: seq<int>, q: int, r: nat)
    requires r < |c| && Staircase(c, q, r)
    ensures LeastLoaded(AllHealthy(|c|), c) == Some(r)
  {
    assert AllHealthy(|c|)[r];
    var pick := LeastLoaded(AllHealthy(|c|), c);
    assert IsLeftmostLeast(AllHealthy(|c|), c, pick.value);
  }

  lemma {:induction false} LoadsShape(n: nat, q: nat, r: nat, k: nat)
    requires r < n && k == q * n + r
    ensures Staircase(LoadsAfter(n, k), q, r)
    decreases k
  {
    if k == 0 {
      assert q == 0 by { if q > 0 { MulAtLeast(q, n); } }
    } else if r > 0 {
      LoadsShape(n, q, r - 1, k - 1);
      StaircasePick(LoadsAfter(n, k - 1), q, r - 1);
    } else {
      assert q > 0 && k - 1 == (q - 1) * n + (n - 1);
      LoadsShape(n, q - 1, n - 1, k - 1);
      StaircasePick(LoadsAfter(n, k - 1), q - 1, n - 1);
    }
  }

  lemma {:induction false} LeastConnectionsKth(n: nat, k: nat)
    requires n > 0
    ensures Staircase(LoadsAfter(n, k), k / n, k % n)
    ensures LeastConnectionsTarget(n, k) == Some(k % n)
  {
    LoadsShape(n, k / n, k % n, k);
    StaircasePick(LoadsAfter(n, k), k / n, k % n);
  }

  /** Where a fresh round-robin balancer sends its first k requests. */
  function RoundRobinTargets(n: nat, k: nat): (ts: seq<Option<nat>>)
    requires 0 < n < UINT32
    ensures |ts| == k && forall j :: 0 <= j < k ==> ts[j] == RoundRobinTarget(n, j)
  {
    seq(k, j requires j >= 0 => RoundRobinTarget(n, j))
  }

  function Occurrences(ts: seq<Option<nat>>, i: nat): nat {
    if ts == [] then 0
    else Occurrences(ts[..|ts| - 1], i) + if ts[|ts| - 1] == Some(i) then 1 else 0
  }

  ghost predicate Cyclic(ts: seq<Option<nat>>, n: nat)
    requires n > 0
  {
    forall j :: 0 <= j < |ts| ==> ts[j] == Some(j % n)
  }

  /** Position q*n + r - 1 of a cyclic sequence. */
  lemma {:induction false} CyclicLast(ts: seq<Option<nat>>, n: nat, q: nat, r: nat)
    requires r < n && |ts| == q * n + r && ts != [] && Cyclic(ts, n)
    ensures r > 0 ==> |ts| - 1 == q * n + (r - 1) && ts[|ts| - 1] == Some(r - 1)
    ensures r == 0 ==> q > 0 && |ts| - 1 == (q - 1) * n + (n - 1) && ts[|ts| - 1] == Some(n - 1)
  {
    if r > 0 { ModUnique(q, n, r - 1); } else { ModUnique(q - 1, n, n - 1); }
  }

  lemma {:induction false} OccurrencesShape(ts: seq<Option<nat>>, n: nat, q: nat, r: nat, i: nat)
    requires i < n && r < n && |ts| == q * n + r && Cyclic(ts, n)
    ensures Occurrences(ts, i) == q + if i < r then 1 else 0
    decreases |ts|
  {
    if ts == [] {
      if q > 0 { MulAtLeast(q, n); }
    } else {
      CyclicLast(ts, n, q, r);
      var front := ts[..|ts| - 1];
      if r > 0 { OccurrencesShape(front, n, q, r - 1, i); } else { OccurrencesShape(front, n, q - 1, n - 1, i); }
    }
  }

  lemma {:induction false} RoundRobinIsCyclic(n: nat, k: nat)
    requires 0 < n < UINT32 && k <= UINT32
    ensures Cyclic(RoundRobinTargets(n, k), n)
  {
    forall j | 0 <= j < k ensures RoundRobinTarget(n, j) == Some(j % n) {
      BeforeTheWrap(n, j);
    }
  }

  lemma {:induction false} BeforeTheWrap(n: nat, j: nat)
    requires 0 < n < UINT32 && j < UINT32
    ensures RoundRobinTarget(n, j) == Some(j % n)
  {
    RoundRobinKth(n, j);
    assert j % UINT32 == j;
  }

  lemma {:induction false} SentShape(n: nat, k: nat, q: nat, r: nat, i: nat)
    requires i < n < UINT32 && r < n && k == q * n + r && k <= UINT32
    ensures Occurrences(RoundRobinTargets(n, k), i) == q + if i < r then 1 else 0
  {
    RoundRobinIsCyclic(n, k);
    OccurrencesShape(RoundRobinTargets(n, k), n, q, r, i);
  }

  lemma DivMod(k: nat, n: nat)
    requires n > 0
    ensures k == (k / n) * n + k % n && 0 <= k / n && 0 <= k % n < n
  {}

  /** From fresh balancers with every target healthy and no completions, both strategies send
      request k to target k mod n, so each target has had floor or ceiling of k/n requests. */
  lemma {:induction false} StrategiesAgree(n: nat, k: nat, i: nat)
    requires i < n < UINT32 && k < UINT32
    ensures RoundRobinTarget(n, k) == LeastConnectionsTarget(n, k) == Some(k % n)
    ensures Occurrences(RoundRobinTargets(n, k), i) == k / n + if i < k % n then 1 else 0
    ensures LoadsAfter(n, k)[i] == Occurrences(RoundRobinTargets(n, k), i)
  {
    DivMod(k, n);
    SentShape(n, k, k / n, k % n, i);
    TargetsAgree(n, k);
  }

  lemma {:induction false} TargetsAgree(n: nat, k: nat)
    requires 0 < n < UINT32 && k < UINT32
    ensures RoundRobinTarget(n, k) == LeastConnectionsTarget(n, k) == Some(k % n)
    ensures Staircase(LoadsAfter(n, k), k / n, k % n)
  {
    BeforeTheWrap(n, k);
    LeastConnectionsKth(n, k);
  }

  lemma {:induction false} ModOfMod(k: nat, m: nat, n: nat)
    requires n > 0 && m > 0 && m % n == 0
    ensures (k % m) % n == k % n
  {
    var q, p := k / m, m / n;
    assert m == p * n;
    assert q * m == (q * p) * n;
    ModUnique(q * p, n, 0);
    assert k % m == k - q * m;
    ModShift(k, q * m, n);
  }

  /** Past the wrap of the ticket counter they keep agreeing exactly when n divides 2^32. */
  lemma {:induction false} StrategiesAgreeForeverIff(n: nat)
    requires 0 < n < UINT32
    ensures (forall k: nat :: RoundRobinTarget(n, k) == LeastConnectionsTarget(n, k)) <==> UINT32 % n == 0
  {
    if UINT32 % n == 0 {
      forall k: nat
        ensures RoundRobinTarget(n, k) == LeastConnectionsTarget(n, k)
      {
        RoundRobinKth(n, k);
        LeastConnectionsKth(n, k);
        ModOfMod(k, UINT32, n);
      }
    } else {
      RoundRobinKth(n, UINT32);
      LeastConnectionsKth(n, UINT32);
      ModUnique(0, n, 0);
      assert RoundRobinTarget(n, UINT32) != LeastConnectionsTarget(n, UINT32);
    }
  }
}
