/** The four load balancers as objects over shared upstream targets, each `Next` proved against
    the selection functions (app/proxy/loadbalancer.go). */
module LoadBalancer {
  import opened Options
  import opened Selection
  import opened Text

  class UpstreamTarget {
    const url: string
    var healthy: bool
    var weight: int
    var activeConnections: int

    constructor (url: string, weight: int)
      ensures this.url == url && this.weight == weight
      ensures healthy && activeConnections == 0
    {
      this.url := url;
      this.weight := weight;
      healthy := true; // assumed until the health checker says otherwise
      activeConnections := 0;
    }

    method SetHealth(healthy: bool)
      modifies this`healthy
      ensures this.healthy == healthy
    {
      this.healthy := healthy;
    }

    method IncrementActiveConnections()
      modifies this`activeConnections
      ensures activeConnections == old(activeConnections) + 1
    {
      activeConnections := activeConnections + 1;
    }

    method DecrementActiveConnections()
      modifies this`activeConnections
      ensures activeConnections == old(activeConnections) - 1
    {
      activeConnections := activeConnections - 1;
    }
  }

  function HealthOf(targets: seq<UpstreamTarget>): (h: seq<bool>)
    reads targets
    ensures |h| == |targets|
    ensures forall i :: 0 <= i < |targets| ==> h[i] == targets[i].healthy
  {
    seq(|targets|, i reads targets requires 0 <= i < |targets| => targets[i].healthy)
  }

  function WeightsOf(targets: seq<UpstreamTarget>): (w: seq<int>)
    reads targets
    ensures |w| == |targets|
    ensures forall i :: 0 <= i < |targets| ==> w[i] == targets[i].weight
  {
    seq(|targets|, i reads targets requires 0 <= i < |targets| => targets[i].weight)
  }

  function ConnectionsOf(targets: seq<UpstreamTarget>): (c: seq<int>)
    reads targets
    ensures |c| == |targets|
    ensures forall i :: 0 <= i < |targets| ==> c[i] == targets[i].activeConnections
  {
    seq(|targets|, i reads targets requires 0 <= i < |targets| => targets[i].activeConnections)
  }

  /** The target object behind a selected index. */
  function At(targets: seq<UpstreamTarget>, pick: Option<nat>): (r: Option<UpstreamTarget>)
    requires pick.Some? ==> pick.value < |targets|
    ensures pick.Some? <==> r.Some?
    ensures r.Some? ==> r.value in targets && r.value == targets[pick.value]
  {
    if pick.Some? then Some(targets[pick.value]) else None
  }

  class RoundRobinLoadBalancer {
    var targets: seq<UpstreamTarget>
    var nextIndex: uint32

    constructor (targets: seq<UpstreamTarget>)
      ensures this.targets == targets && nextIndex == 0
    {
      this.targets := targets;
      nextIndex := 0;
    }

    method Next() returns (r: Option<UpstreamTarget>)
      requires |targets| < UINT32
      modifies this`nextIndex
      ensures r == At(targets, Scan(HealthOf(targets), old(nextIndex)))
      ensures nextIndex == CounterAfterScan(HealthOf(targets), old(nextIndex))
    {
      ghost var start, health := nextIndex, HealthOf(targets);
      var numTargets := |targets|;
      for j := 0 to numTargets
        invariant nextIndex == Add32(start, j)
        invariant FirstHealthyTicket(health, start, 0) == FirstHealthyTicket(health, start, j)
      {
        var currentIndex := nextIndex;
        nextIndex := Add32(nextIndex, 1);
        var target := targets[currentIndex % numTargets];
        if target.healthy {
          return Some(target);
        }
      }
      return None;
    }
  }

  /** `picked` are the targets at positions `idx`. */
  ghost predicate Picks(targets: seq<UpstreamTarget>, idx: seq<nat>, picked: seq<UpstreamTarget>) {
    |picked| == |idx| && forall k :: 0 <= k < |idx| ==> idx[k] < |targets| && picked[k] == targets[idx[k]]
  }

  /** The healthy targets in order, as both random balancers collect them. */
  method FilterHealthy(targets: seq<UpstreamTarget>) returns (healthy: seq<UpstreamTarget>, totalWeight: int)
    ensures var idx := HealthyIndices(HealthOf(targets));
            && Picks(targets, idx, healthy)
            && totalWeight == HealthyWeight(HealthOf(targets), WeightsOf(targets))
  {
    healthy, totalWeight := [], 0;
    ghost var health, weights, idx: seq<nat> := HealthOf(targets), WeightsOf(targets), [];
    for i := 0 to |targets|
      invariant idx == HealthyIndices(health[..i])
      invariant Picks(targets, idx, healthy)
      invariant totalWeight == Sum(WeightsAt(weights, idx))
    {
      HealthyIndicesStep(health, i);
      if targets[i].healthy {
        WeightsAppend(weights, idx, i);
        idx := idx + [i];
        healthy := healthy + [targets[i]];
        totalWeight := totalWeight + targets[i].weight;
      }
    }
    assert health[..|targets|] == health;
  }

  lemma {:induction false} PickedWeights(targets: seq<UpstreamTarget>, idx: seq<nat>, picked: seq<UpstreamTarget>)
    requires Picks(targets, idx, picked)
    ensures WeightsAt(WeightsOf(targets), idx) == WeightsOf(picked)
  {}

  /** The cumulative-weight walk over the healthy targets, `weights` being theirs. */
  method PickByWeight(healthy: seq<UpstreamTarget>, ghost weights: seq<int>,
      randomNumber: int) returns (r: UpstreamTarget)
    requires healthy != [] && weights == WeightsOf(healthy)
    ensures r == healthy[CumulativePick(weights, randomNumber, 0)]
  {
    var cumulativeWeight := 0;
    for k := 0 to |healthy|
      invariant cumulativeWeight == Sum(weights[..k])
      invariant k < |healthy| ==> CumulativePick(weights, randomNumber, 0) == CumulativePick(weights, randomNumber, k)
      invariant k == |healthy| ==> CumulativePick(weights, randomNumber, 0) == |healthy| - 1
    {
      assert weights[..k + 1][..k] == weights[..k];
      cumulativeWeight := cumulativeWeight + healthy[k].weight;
      if randomNumber < cumulativeWeight {
        return healthy[k];
      }
    }
    return healthy[|healthy| - 1];
  }

  class RandomLoadBalancer {
    var targets: seq<UpstreamTarget>

    constructor (targets: seq<UpstreamTarget>)
      ensures this.targets == targets
    {
      this.targets := targets;
    }

    method Next(intn: nat -> nat) returns (r: Option<UpstreamTarget>)
      requires RandomSource(intn)
      ensures r == At(targets, RandomPick(HealthOf(targets), intn))
    {
      var healthy, _ := FilterHealthy(targets);
      if |healthy| == 0 { return None; }
      return Some(healthy[intn(|healthy|)]);
    }
  }

  class WeightedRandomLoadBalancer {
    var targets: seq<UpstreamTarget>

    constructor (targets: seq<UpstreamTarget>)
      ensures this.targets == targets
    {
      this.targets := targets;
    }

    method Next(intn: nat -> nat) returns (r: Option<UpstreamTarget>)
      requires RandomSource(intn)
      ensures r == At(targets, WeightedChoice(HealthOf(targets), WeightsOf(targets), intn))
    {
      var healthy, totalWeight := FilterHealthy(targets);
      if |healthy| == 0 { return None; }
      if totalWeight <= 0 {
        return Some(healthy[intn(|healthy|)]);
      }
      var randomNumber := intn(totalWeight);
      ghost var idx := HealthyIndices(HealthOf(targets));
      assert totalWeight == HealthyWeight(HealthOf(targets), WeightsOf(targets));
      PickedWeights(targets, idx, healthy);
      ghost var ws := WeightsAt(WeightsOf(targets), idx);
      var target := PickByWeight(healthy, ws, randomNumber);
      assert target == targets[idx[CumulativePick(ws, randomNumber, 0)]];
      return Some(target);
    }
  }

  class LeastConnectionsLoadBalancer {
    var targets: seq<UpstreamTarget>

    constructor (targets: seq<UpstreamTarget>)
      ensures this.targets == targets
    {
      this.targets := targets;
    }

    method Next() returns (r: Option<UpstreamTarget>)
      ensures r == At(targets, LeastLoaded(HealthOf(targets), ConnectionsOf(targets)))
    {
      r := None;
      var minConnections := -1;
      ghost var health, conns := HealthOf(targets), ConnectionsOf(targets);
      for i := 0 to |targets|
        invariant r == At(targets, LeastLoaded(health[..i], conns[..i]))
        invariant r.Some? ==> minConnections == conns[LeastLoaded(health[..i], conns[..i]).value]
      {
        assert health[..i + 1][..i] == health[..i] && conns[..i + 1][..i] == conns[..i];
        var target := targets[i];
        if target.healthy {
          var current := target.activeConnections;
          if r.None? || current < minConnections {
            minConnections := current;
            r := Some(target);
          }
        }
      }
      assert health[..|targets|] == health && conns[..|targets|] == conns;
    }
  }

  /** What is behind the LoadBalancer interface. */
  datatype LoadBalancer =
    | RoundRobin(rr: RoundRobinLoadBalancer)
    | Random(rnd: RandomLoadBalancer)
    | Weighted(wrr: WeightedRandomLoadBalancer)
    | LeastConnections(lc: LeastConnectionsLoadBalancer)
  {
    /** The balancer object itself. */
    function Owner(): set<object> {
      match this
      case RoundRobin(b) => {b}
      case Random(b) => {b}
      case Weighted(b) => {b}
      case LeastConnections(b) => {b}
    }

    function Targets(): seq<UpstreamTarget>
      reads Owner()
    {
      match this
      case RoundRobin(b) => b.targets
      case Random(b) => b.targets
      case Weighted(b) => b.targets
      case LeastConnections(b) => b.targets
    }
  }

  datatype TargetConfig = TargetConfig(url: string, weight: int)

  /** The configured targets whose URL parses, in order. */
  function Parsable(cfg: seq<TargetConfig>, parses: string -> bool): seq<TargetConfig> {
    if cfg == [] then []
    else
      var n := |cfg| - 1;
      var front := Parsable(cfg[..n], parses);
      if parses(cfg[n].url) then front + [cfg[n]] else front
  }

  function Parses(cfg: seq<TargetConfig>, parses: string -> bool): (r: seq<bool>)
    ensures |r| == |cfg| && forall i :: 0 <= i < |cfg| ==> r[i] == parses(cfg[i].url)
  {
    seq(|cfg|, i requires 0 <= i < |cfg| => parses(cfg[i].url))
  }

  /** No parsable target is lost, none is added, and their order is kept. */
  lemma {:induction false} ParsableAreAll(cfg: seq<TargetConfig>, parses: string -> bool)
    ensures var idx, ok := HealthyIndices(Parses(cfg, parses)), Parsable(cfg, parses);
            |ok| == |idx| && forall k :: 0 <= k < |idx| ==> ok[k] == cfg[idx[k]]
  {
    if cfg != [] {
      var n := |cfg| - 1;
      ParsableAreAll(cfg[..n], parses);
      assert Parses(cfg, parses)[..n] == Parses(cfg[..n], parses);
    }
  }

  /** A new balancer: every parsable target is present, healthy and idle; a weighted balancer
      replaces weights that are not positive by 1; an unknown strategy means round robin. */
  method NewLoadBalancer(strategy: string, cfg: seq<TargetConfig>, parses: string -> bool)
    returns (r: Option<LoadBalancer>)
    ensures r.None? <==> Parsable(cfg, parses) == []
    ensures r.Some? ==>
              var name, ts, ok := ToLower(strategy), r.value.Targets(), Parsable(cfg, parses);
              && (r.value.Random? <==> name == "random")
              && (r.value.Weighted? <==> name == "weighted")
              && (r.value.LeastConnections? <==> name == "least-connections")
              && (r.value.RoundRobin? ==> r.value.rr.nextIndex == 0)
              && |ts| == |ok|
              && (forall i :: 0 <= i < |ts| ==>
                    && fresh(ts[i]) && ts[i].url == ok[i].url
                    && ts[i].healthy && ts[i].activeConnections == 0
                    && ts[i].weight == if name == "weighted" && ok[i].weight <= 0 then 1 else ok[i].weight)
              && (forall i, j :: 0 <= i < j < |ts| ==> ts[i] != ts[j])
  {
    var targets: seq<UpstreamTarget> := [];
    for i := 0 to |cfg|
      invariant |targets| == |Parsable(cfg[..i], parses)|
      invariant forall k :: 0 <= k < |targets| ==>
        && fresh(targets[k]) && targets[k].healthy && targets[k].activeConnections == 0
        && targets[k].url == Parsable(cfg[..i], parses)[k].url
        && targets[k].weight == Parsable(cfg[..i], parses)[k].weight
      invariant forall j, k :: 0 <= j < k < |targets| ==> targets[j] != targets[k]
    {
      assert cfg[..i + 1][..i] == cfg[..i];
      if parses(cfg[i].url) {
        var t := new UpstreamTarget(cfg[i].url, cfg[i].weight);
        targets := targets + [t];
      }
    }
    assert cfg[..|cfg|] == cfg;
    if |targets| == 0 { return None; }

    var name := ToLower(strategy);
    if name == "random" {
      var b := new RandomLoadBalancer(targets);
      return Some(Random(b));
    } else if name == "weighted" {
      for i := 0 to |targets|
        modifies targets
        invariant forall k :: 0 <= k < |targets| ==>
          && targets[k].healthy && targets[k].activeConnections == 0
          && targets[k].weight == if k < i && Parsable(cfg, parses)[k].weight <= 0
                                  then 1 else Parsable(cfg, parses)[k].weight
      {
        if targets[i].weight <= 0 { targets[i].weight := 1; }
      }
      var b := new WeightedRandomLoadBalancer(targets);
      return Some(Weighted(b));
    } else if name == "least-connections" {
      var b := new LeastConnectionsLoadBalancer(targets);
      return Some(LeastConnections(b));
    } else {
      var b := new RoundRobinLoadBalancer(targets);
      return Some(RoundRobin(b));
    }
  }
}
