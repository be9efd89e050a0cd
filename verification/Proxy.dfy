/** The proxy object: health pushes into a service's balancer, and the select, increment,
    forward sequence of one request (app/proxy/proxy.go). */
module Proxy {
  import opened Options
  import opened Selection
  import opened LoadBalancer
  import opened HealthChecker
  import opened HealthAgreement

  function UrlsOf(targets: seq<UpstreamTarget>): (u: seq<string>)
    ensures |u| == |targets|
    ensures forall i :: 0 <= i < |targets| ==> u[i] == targets[i].url
  {
    seq(|targets|, i requires 0 <= i < |targets| => targets[i].url)
  }

  ghost predicate Distinct(targets: seq<UpstreamTarget>) {
    forall i, j :: 0 <= i < j < |targets| ==> targets[i] != targets[j]
  }

  /** `UpdateTargetHealth` has a case for these two balancer types only. */
  predicate AcceptsHealth(lb: LoadBalancer) {
    lb.RoundRobin? || lb.Random?
  }

  method PushToTargets(targets: seq<UpstreamTarget>, targetURL: string, healthy: bool)
    requires Distinct(targets)
    modifies targets`healthy
    ensures HealthOf(targets) == PushHealth(true, UrlsOf(targets), old(HealthOf(targets)), targetURL, healthy)
  {
    ghost var urls := UrlsOf(targets);
    for i := 0 to |targets|
      invariant HealthOf(targets) == old(HealthOf(targets))
      invariant targetURL !in urls[..i]
    {
      if targets[i].url == targetURL {
        FirstMatchIs(urls, targetURL, i);
        targets[i].SetHealth(healthy);
        return;
      }
    }
    assert urls[..|targets|] == urls;
  }

  /** The position each strategy selects, for a random source `intn`. */
  ghost function Chosen(lb: LoadBalancer, intn: nat -> nat): (r: Option<nat>)
    reads lb.Owner(), lb.Targets()
    requires RandomSource(intn)
    requires |lb.Targets()| < UINT32
    ensures r.Some? ==> r.value < |lb.Targets()| && lb.Targets()[r.value].healthy
    ensures !lb.RoundRobin? ==> (r.None? <==> true !in HealthOf(lb.Targets()))
    ensures lb.LeastConnections? && r.Some? ==>
              IsLeftmostLeast(HealthOf(lb.Targets()), ConnectionsOf(lb.Targets()), r.value)
    ensures lb.RoundRobin? ==> FromTicket(HealthOf(lb.Targets()), lb.rr.nextIndex, r)
  {
    match lb
    case RoundRobin(b) => Scan(HealthOf(b.targets), b.nextIndex)
    case Random(b) => RandomPick(HealthOf(b.targets), intn)
    case Weighted(b) => WeightedChoice(HealthOf(b.targets), WeightsOf(b.targets), intn)
    case LeastConnections(b) => LeastLoaded(HealthOf(b.targets), ConnectionsOf(b.targets))
  }

  /** The balancer returns the target its strategy selects; only a round-robin counter moves. */
  method Select(lb: LoadBalancer, intn: nat -> nat) returns (pick: Option<UpstreamTarget>)
    requires RandomSource(intn)
    requires |lb.Targets()| < UINT32
    modifies lb.Owner()
    ensures lb.Targets() == old(lb.Targets())
    ensures pick == At(lb.Targets(), old(Chosen(lb, intn)))
    ensures lb.RoundRobin? ==> lb.rr.nextIndex == old(CounterAfterScan(HealthOf(lb.Targets()), lb.rr.nextIndex))
  {
    ghost var targets, chosen := lb.Targets(), Chosen(lb, intn);
    match lb {
      case RoundRobin(b) =>
        ghost var health := HealthOf(b.targets);
        pick := b.Next();
        assert HealthOf(b.targets) == health;
      case Random(b) => pick := b.Next(intn);
      case Weighted(b) => pick := b.Next(intn);
      case LeastConnections(b) => pick := b.Next();
    }
    assert lb.Targets() == targets && pick == At(targets, chosen);
  }

  /** Select, increment before forwarding, and the round tripper's deferred decrement, if it is
      called at all. */
  method Forward(lb: LoadBalancer, intn: nat -> nat, roundTrips: bool) returns (pick: Option<UpstreamTarget>)
    requires RandomSource(intn)
    requires |lb.Targets()| < UINT32
    modifies lb.Owner(), lb.Targets()`activeConnections
    ensures lb.Targets() == old(lb.Targets())
    ensures pick == At(lb.Targets(), old(Chosen(lb, intn)))
    ensures lb.RoundRobin? ==> lb.rr.nextIndex == old(CounterAfterScan(HealthOf(lb.Targets()), lb.rr.nextIndex))
    ensures forall t :: t in lb.Targets() ==>
              t.activeConnections == old(t.activeConnections) + if pick == Some(t) && !roundTrips then 1 else 0
  {
    pick := Select(lb, intn);
    if pick.Some? {
      pick.value.IncrementActiveConnections();
      if roundTrips { pick.value.DecrementActiveConnections(); }
    }
  }

  datatype Reply = InternalServerError | BadGateway | ServiceUnavailable | Forwarded(target: UpstreamTarget)


  class Proxy {
    var serviceLBs: map<string, LoadBalancer>

    /** The targets behind one service; none when the service is unknown. */
    ghost function Pool(serviceName: string): seq<UpstreamTarget>
      reads this
      reads if serviceName in serviceLBs then serviceLBs[serviceName].Owner() else {}
    {
      if serviceName in serviceLBs then serviceLBs[serviceName].Targets() else []
    }

    method UpdateTargetHealth(serviceName: string, targetURL: string, healthy: bool)
      requires Distinct(Pool(serviceName))
      modifies Pool(serviceName)`healthy
      ensures HealthOf(Pool(serviceName)) ==
              PushHealth(serviceName in serviceLBs && AcceptsHealth(serviceLBs[serviceName]),
                         UrlsOf(Pool(serviceName)), old(HealthOf(Pool(serviceName))), targetURL, healthy)
    {
      if serviceName !in serviceLBs { return; }
      match serviceLBs[serviceName]
      case RoundRobin(b) => PushToTargets(b.targets, targetURL, healthy);
      case Random(b) => PushToTargets(b.targets, targetURL, healthy);
      case _ =>
    }

    /** One request.  `routed` is the service its route information names, if there is any, and
        `intn` the random source; the upstream round trip runs unless the reverse proxy gives up
        before it. */
    method ServeHTTP(routed: Option<string>, intn: nat -> nat, roundTrips: bool) returns (reply: Reply)
      requires RandomSource(intn)
      requires routed.Some? ==> |Pool(routed.value)| < UINT32
      modifies if routed.Some? && routed.value in serviceLBs then serviceLBs[routed.value].Owner() else {}
      modifies (if routed.Some? then Pool(routed.value) else [])`activeConnections
      ensures routed.None? <==> reply == InternalServerError
      ensures routed.Some? ==> (reply == BadGateway <==> routed.value !in serviceLBs)
      ensures routed.Some? && routed.value in serviceLBs ==>
                var lb, chosen := serviceLBs[routed.value], old(Chosen(serviceLBs[routed.value], intn));
                && lb.Targets() == old(lb.Targets())
                && (reply == ServiceUnavailable <==> chosen.None?)
                && (chosen.Some? ==> reply == Forwarded(lb.Targets()[chosen.value]))
                && (!lb.RoundRobin? ==> (reply == ServiceUnavailable <==> old(true !in HealthOf(lb.Targets()))))
                && (lb.RoundRobin? ==>
                      lb.rr.nextIndex == old(CounterAfterScan(HealthOf(lb.Targets()), lb.rr.nextIndex)))
                && (forall t :: t in lb.Targets() ==>
                      t.activeConnections == old(t.activeConnections)
                        + if chosen.Some? && t == lb.Targets()[chosen.value] && !roundTrips then 1 else 0)
    {
      if routed.None? { return InternalServerError; }
      if routed.value !in serviceLBs { return BadGateway; }
      var lb := serviceLBs[routed.value];
      ghost var targets, chosen := lb.Targets(), Chosen(lb, intn);
      var pick := Forward(lb, intn, roundTrips);
      assert lb == serviceLBs[routed.value] && lb.Targets() == targets && pick == At(targets, chosen);
      reply := if pick.Some? then Forwarded(pick.value) else ServiceUnavailable;
    }
  }

  /** What agreement needs, by balancer: after every run of probes the flags equal the verdicts, if and
      only if there is no target, or the balancer is round robin or random and every target of it
      is addressed by its own URL. */
  lemma {:induction false} AgreementByStrategy(lb: LoadBalancer, t: Thresholds, configured: seq<string>,
      rendered: seq<Option<string>>)
    requires t.Valid() && |configured| == |rendered|
    ensures (forall ps: seq<Probe> :: Agrees(Run(Start(AcceptsHealth(lb), t, configured, rendered), ps))) <==>
            ((forall i :: 0 <= i < |rendered| ==> rendered[i].None?) ||
             (!lb.Weighted? && !lb.LeastConnections? && Addressable(configured, rendered)))
  {
    AgreementIff(AcceptsHealth(lb), t, configured, rendered);
  }

  /** One probe result at the checker, with its push into the proxy: the object-level counterpart
      of a step of the agreement system. */
  method RecordProbe(status: TargetStatus, proxy: Proxy, serviceName: string, success: bool)
    requires Distinct(proxy.Pool(serviceName))
    modifies status
    modifies proxy.Pool(serviceName)`healthy
    ensures status.View() == AfterCheck(status.config, old(status.View()), success)
    ensures HealthOf(proxy.Pool(serviceName)) ==
            if status.isHealthy != old(status.isHealthy)
            then PushHealth(serviceName in proxy.serviceLBs && AcceptsHealth(proxy.serviceLBs[serviceName]),
                            UrlsOf(proxy.Pool(serviceName)), old(HealthOf(proxy.Pool(serviceName))),
                            status.targetURL, status.isHealthy)
            else old(HealthOf(proxy.Pool(serviceName)))
  {
    ghost var pool, before := proxy.Pool(serviceName), HealthOf(proxy.Pool(serviceName));
    var notify := status.ProcessCheckResult(success);
    assert proxy.Pool(serviceName) == pool && HealthOf(pool) == before;
    if notify.Some? { proxy.UpdateTargetHealth(serviceName, status.targetURL, notify.value); }
  }
}
