/** Configuration defaults and validation, rewriting the configuration in place
    (app/config/config.go:134-308). */
module Config {
  import opened Options
  import HealthChecker

  datatype Global = Global(port: int, logLevel: string, enableHTTPS: bool, defaultTimeoutMs: int)

  datatype Certificate = Certificate(hostname: string, certFile: string, keyFile: string)

  datatype Target = Target(url: string, weight: int)

  datatype HealthChecks = HealthChecks(
    ready: string, live: string, interval: int, timeout: int, unhealthyThreshold: int, healthyThreshold: int)

  datatype LoadBalancing = LoadBalancing(strategy: string, targets: seq<Target>, healthChecks: Option<HealthChecks>)

  datatype Service = Service(
    name: string, upstreamURLs: seq<string>, upstreamURL: string, loadBalancing: Option<LoadBalancing>)

  datatype PluginInstance = PluginInstance(name: string, settings: map<string, string>)

  datatype Route = Route(
    id: string, paths: seq<string>, methods: seq<string>, host: string, service: string, plugins: seq<PluginInstance>)

  /** The whole configuration as a value. */
  datatype Settings = Settings(
    global: Global, certificates: Option<seq<Certificate>>, services: seq<Service>, routes: seq<Route>)

  datatype Error =
    | NoCertificates
    | IncompleteCertificate(index: nat)
    | ServiceNameRequired(index: nat)
    | ServiceNameNotUnique(name: string)
    | NoUpstream(name: string)
    | MixedUpstreams(name: string)
    | EmptyTargets(name: string)
    | StrategyRequired(name: string)
    | InvalidStrategy(name: string)
    | NoProbe(name: string)
    | RouteIdRequired(index: nat)
    | RouteIdNotUnique(id: string)
    | PathsRequired(id: string)
    | RouteServiceRequired(id: string)
    | UnknownService(id: string)

  const STRATEGIES: set<string> := {"round-robin", "least-connections", "random", "weighted"}

  // ---------- one service ----------

  predicate NoTargets(s: Service) {
    s.loadBalancing.None? || s.loadBalancing.value.targets == []
  }

  function TargetsFor(urls: seq<string>): (ts: seq<Target>)
    ensures |ts| == |urls| && forall i :: 0 <= i < |urls| ==> ts[i] == Target(urls[i], 0)
  {
    seq(|urls|, i requires 0 <= i < |urls| => Target(urls[i], 0))
  }

  function WithProbeDefaults(hc: HealthChecks): HealthChecks {
    hc.(interval := if hc.interval <= 0 then 30 else hc.interval,
        timeout := if hc.timeout <= 0 then 5 else hc.timeout,
        unhealthyThreshold := if hc.unhealthyThreshold <= 0 then 2 else hc.unhealthyThreshold,
        healthyThreshold := if hc.healthyThreshold <= 0 then 1 else hc.healthyThreshold)
  }

  /** The load-balancing block to fill in: the configured one, or an empty new one. */
  function BlockOf(s: Service): LoadBalancing {
    if s.loadBalancing.Some? then s.loadBalancing.value else LoadBalancing("", [], None)
  }

  /** Fold `upstream_url` or `upstream_urls` into load-balancing targets. */
  function WithTargets(s: Service): Service {
    if s.upstreamURL != "" && NoTargets(s) then
      s.(loadBalancing := Some(BlockOf(s).(targets := [Target(s.upstreamURL, 0)])), upstreamURL := "")
    else if s.upstreamURLs != [] && NoTargets(s) then
      var lb := BlockOf(s);
      s.(loadBalancing := Some(lb.(strategy := if lb.strategy == "" then "round-robin" else lb.strategy,
                                   targets := TargetsFor(s.upstreamURLs))),
         upstreamURLs := [])
    else s
  }

  /** Checks on a load-balancing block that was present in the file. */
  function CheckedBlock(name: string, lb: LoadBalancing): Result<LoadBalancing, Error> {
    if lb.targets == [] then Err(EmptyTargets(name))
    else if lb.strategy == "" && |lb.targets| > 1 then Err(StrategyRequired(name))
    else
      var lb' := lb.(strategy := if lb.strategy == "" then "round-robin" else lb.strategy);
      if lb'.strategy !in STRATEGIES then Err(InvalidStrategy(name))
      else if lb'.healthChecks.None? then Ok(lb')
      else
        var hc := WithProbeDefaults(lb'.healthChecks.value);
        if hc.ready == "" && hc.live == "" then Err(NoProbe(name))
        else Ok(lb'.(healthChecks := Some(hc)))
  }

  /** One service without the name checks.  A block created here for `upstream_url` or
      `upstream_urls` is not checked: the source looks at the pointer it read before creating it. */
  function NormaliseService(s: Service): Result<Service, Error> {
    if s.upstreamURLs == [] && s.upstreamURL == "" && NoTargets(s) then Err(NoUpstream(s.name))
    else if s.upstreamURL != "" && (s.upstreamURLs != [] || !NoTargets(s)) then Err(MixedUpstreams(s.name))
    else
      var s' := WithTargets(s);
      if s.loadBalancing.None? then Ok(s')
      else
        match CheckedBlock(s.name, BlockOf(s'))
        case Ok(lb) => Ok(s'.(loadBalancing := Some(lb)))
        case Err(e) => Err(e)
  }

  // ---------- the whole configuration ----------

  function WithGlobalDefaults(g: Global): Global {
    g.(port := if g.port == 0 then 8080 else g.port,
       logLevel := if g.logLevel == "" then "info" else g.logLevel,
       defaultTimeoutMs := if g.defaultTimeoutMs == 0 then 5000 else g.defaultTimeoutMs)
  }

  predicate Complete(c: Certificate) {
    c.hostname != "" && c.certFile != "" && c.keyFile != ""
  }

  function NamesOf(ss: seq<Service>): set<string> {
    set i | 0 <= i < |ss| :: ss[i].name
  }

  function IdsOf(rs: seq<Route>): set<string> {
    set i | 0 <= i < |rs| :: rs[i].id
  }

  /** The first incomplete certificate from position i on. */
  function CheckCertificates(cs: seq<Certificate>, i: nat): Option<Error>
    requires i <= |cs|
    decreases |cs| - i
  {
    if i == |cs| then None
    else if !Complete(cs[i]) then Some(IncompleteCertificate(i))
    else CheckCertificates(cs, i + 1)
  }

  function CheckTLS(g: Global, certificates: Option<seq<Certificate>>): Option<Error> {
    if !g.enableHTTPS then None
    else if certificates.None? || certificates.value == [] then Some(NoCertificates)
    else CheckCertificates(certificates.value, 0)
  }

  function CheckService(ss: seq<Service>, i: nat): Result<Service, Error>
    requires i < |ss|
  {
    if ss[i].name == "" then Err(ServiceNameRequired(i))
    else if ss[i].name in NamesOf(ss[..i]) then Err(ServiceNameNotUnique(ss[i].name))
    else NormaliseService(ss[i])
  }

  /** Services from position i on, normalised, or the first error. */
  function NormaliseServices(ss: seq<Service>, i: nat): Result<seq<Service>, Error>
    requires i <= |ss|
    decreases |ss| - i
  {
    if i == |ss| then Ok([])
    else
      match CheckService(ss, i)
      case Err(e) => Err(e)
      case Ok(s) => Prepend([s], NormaliseServices(ss, i + 1))
  }

  function CheckRoute(names: set<string>, rs: seq<Route>, i: nat): Option<Error>
    requires i < |rs|
  {
    var r := rs[i];
    if r.id == "" then Some(RouteIdRequired(i))
    else if r.id in IdsOf(rs[..i]) then Some(RouteIdNotUnique(r.id))
    else if r.paths == [] then Some(PathsRequired(r.id))
    else if r.service == "" then Some(RouteServiceRequired(r.id))
    else if r.service !in names then Some(UnknownService(r.id))
    else None
  }

  function CheckRoutes(names: set<string>, rs: seq<Route>, i: nat): Option<Error>
    requires i <= |rs|
    decreases |rs| - i
  {
    if i == |rs| then None
    else if CheckRoute(names, rs, i).Some? then CheckRoute(names, rs, i)
    else CheckRoutes(names, rs, i + 1)
  }

  function Normalise(c: Settings): Result<Settings, Error> {
    var tls := CheckTLS(c.global, c.certificates);
    if tls.Some? then Err(tls.value)
    else
      match NormaliseServices(c.services, 0)
      case Err(e) => Err(e)
      case Ok(ss) =>
        var routes := CheckRoutes(NamesOf(c.services), c.routes, 0);
        if routes.Some? then Err(routes.value)
        else Ok(c.(global := WithGlobalDefaults(c.global), services := ss))
  }

  // ---------- the configuration object ----------

  class Configuration {
    var global: Global
    var certificates: Option<seq<Certificate>>
    var services: seq<Service>
    var routes: seq<Route>

    function View(): Settings
      reads this
    {
      Settings(global, certificates, services, routes)
    }

    constructor (c: Settings)
      ensures View() == c
    {
      global, certificates, services, routes := c.global, c.certificates, c.services, c.routes;
    }

    /** Turn `upstream_url` or `upstream_urls` of service i into targets. */
    method PopulateTargets(i: nat)
      requires i < |services|
      modifies this`services
      ensures services == old(services)[i := WithTargets(old(services)[i])]
    {
      var service := services[i];
      if service.upstreamURL != "" && NoTargets(service) {
        var lb := BlockOf(service);
        services := services[i := services[i].(
                               loadBalancing := Some(lb.(targets := [Target(service.upstreamURL, 0)])))];
        services := services[i := services[i].(upstreamURL := "")];
      } else if service.upstreamURLs != [] && NoTargets(service) {
        var lb := BlockOf(service);
        if lb.strategy == "" { lb := lb.(strategy := "round-robin"); }
        var targets: seq<Target> := [];
        for j := 0 to |service.upstreamURLs|
          invariant targets == TargetsFor(service.upstreamURLs[..j])
          invariant services == old(services)
        {
          targets := targets + [Target(service.upstreamURLs[j], 0)];
        }
        assert service.upstreamURLs[..|service.upstreamURLs|] == service.upstreamURLs;
        services := services[i := services[i].(loadBalancing := Some(lb.(targets := targets)))];
        services := services[i := services[i].(upstreamURLs := [])];
      }
    }

    static method CheckBlock(name: string, block: LoadBalancing) returns (r: Result<LoadBalancing, Error>)
      ensures r == CheckedBlock(name, block)
    {
      var lb := block;
      if lb.targets == [] { return Err(EmptyTargets(name)); }
      if lb.strategy == "" {
        if |lb.targets| > 1 { return Err(StrategyRequired(name)); }
        lb := lb.(strategy := "round-robin");
      }
      if lb.strategy !in STRATEGIES { return Err(InvalidStrategy(name)); }
      if lb.healthChecks.Some? {
        var hc := lb.healthChecks.value;
        if hc.interval <= 0 { hc := hc.(interval := 30); }
        if hc.timeout <= 0 { hc := hc.(timeout := 5); }
        if hc.unhealthyThreshold <= 0 { hc := hc.(unhealthyThreshold := 2); }
        if hc.healthyThreshold <= 0 { hc := hc.(healthyThreshold := 1); }
        if hc.ready == "" && hc.live == "" { return Err(NoProbe(name)); }
        lb := lb.(healthChecks := Some(hc));
      }
      return Ok(lb);
    }

    /** Rewrite service i; the local copy `service` is taken before the rewrite, as the source's
        range variable is. */
    method SetServiceDefaults(i: nat) returns (err: Option<Error>)
      requires i < |services|
      modifies this`services
      ensures |services| == |old(services)|
      ensures forall j :: 0 <= j < |services| && j != i ==> services[j] == old(services)[j]
      ensures match NormaliseService(old(services)[i])
              case Ok(s) => err == None && services[i] == s
              case Err(e) => err == Some(e)
    {
      var service := services[i];
      if service.upstreamURLs == [] && service.upstreamURL == "" && NoTargets(service) {
        return Some(NoUpstream(service.name));
      }
      if service.upstreamURL != "" && (service.upstreamURLs != [] || !NoTargets(service)) {
        return Some(MixedUpstreams(service.name));
      }
      PopulateTargets(i);
      if service.loadBalancing.Some? {
        var r := CheckBlock(service.name, BlockOf(services[i]));
        if r.Err? { return Some(r.error); }
        services := services[i := services[i].(loadBalancing := Some(r.value))];
      }
      return None;
    }

    method SetAllServiceDefaults() returns (err: Option<Error>, serviceNames: set<string>)
      modifies this`services
      ensures match NormaliseServices(old(services), 0)
              case Ok(ss) => err == None && services == ss && serviceNames == NamesOf(old(services))
              case Err(e) => err == Some(e)
    {
      err, serviceNames := None, {};
      ghost var before := services;
      PrependNothing(NormaliseServices(before, 0));
      for i := 0 to |services|
        invariant |services| == |before| && services[i..] == before[i..]
        invariant serviceNames == NamesOf(before[..i])
        invariant NormaliseServices(before, 0) == Prepend(services[..i], NormaliseServices(before, i))
      {
        var service := services[i];
        assert service == services[i..][0] == before[i..][0] == before[i];
        ghost var done := services[..i];
        if service.name == "" { return Some(ServiceNameRequired(i)), serviceNames; }
        if service.name in serviceNames { return Some(ServiceNameNotUnique(service.name)), serviceNames; }
        serviceNames := serviceNames + {service.name};
        assert before[..i + 1] == before[..i] + [before[i]];
        NamesAppend(before[..i], before[i]);
        var e := SetServiceDefaults(i);
        if e.Some? { return e, serviceNames; }
        assert services[..i + 1] == done + [services[i]];
        PrependOne(done, services[i], NormaliseServices(before, i + 1));
        assert services[i + 1..] == before[i + 1..];
      }
      assert before[..|before|] == before && services[..|before|] == services;
    }

    static method CheckAllCertificates(cs: seq<Certificate>) returns (err: Option<Error>)
      ensures err == CheckCertificates(cs, 0)
    {
      for i := 0 to |cs|
        invariant CheckCertificates(cs, 0) == CheckCertificates(cs, i)
      {
        if !Complete(cs[i]) { return Some(IncompleteCertificate(i)); }
      }
      return None;
    }

    static method CheckAllRoutes(routes: seq<Route>, serviceNames: set<string>) returns (err: Option<Error>)
      ensures err == CheckRoutes(serviceNames, routes, 0)
    {
      var routeIDs := {};
      for i := 0 to |routes|
        invariant routeIDs == IdsOf(routes[..i])
        invariant CheckRoutes(serviceNames, routes, 0) == CheckRoutes(serviceNames, routes, i)
      {
        var route := routes[i];
        if route.id == "" { return Some(RouteIdRequired(i)); }
        if route.id in routeIDs { return Some(RouteIdNotUnique(route.id)); }
        routeIDs := routeIDs + {route.id};
        assert routes[..i + 1] == routes[..i] + [route];
        IdsAppend(routes[..i], route);
        if route.paths == [] { return Some(PathsRequired(route.id)); }
        if route.service == "" { return Some(RouteServiceRequired(route.id)); }
        if route.service !in serviceNames { return Some(UnknownService(route.id)); }
      }
      return None;
    }

    method ValidateAndSetDefaults() returns (err: Option<Error>)
      modifies this
      ensures match Normalise(old(View()))
              case Ok(c) => err == None && View() == c
              case Err(e) => err == Some(e)
    {
      if global.port == 0 { global := global.(port := 8080); }
      if global.logLevel == "" { global := global.(logLevel := "info"); }
      if global.defaultTimeoutMs == 0 { global := global.(defaultTimeoutMs := 5000); }
      if global.enableHTTPS {
        if certificates.None? || certificates.value == [] { return Some(NoCertificates); }
        err := CheckAllCertificates(certificates.value);
        if err.Some? { return; }
      }
      var serviceNames;
      err, serviceNames := SetAllServiceDefaults();
      if err.Some? { return; }
      err := CheckAllRoutes(routes, serviceNames);
    }
  }

  /** Put services already done in front of the remaining ones. */
  function Prepend(done: seq<Service>, r: Result<seq<Service>, Error>): Result<seq<Service>, Error> {
    match r
    case Ok(rest) => Ok(done + rest)
    case Err(e) => Err(e)
  }

  lemma {:induction false} PrependNothing(r: Result<seq<Service>, Error>)
    ensures Prepend([], r) == r
  {
    if r.Ok? { assert [] + r.value == r.value; }
  }

  lemma {:induction false} PrependOne(done: seq<Service>, s: Service, r: Result<seq<Service>, Error>)
    ensures Prepend(done, Prepend([s], r)) == Prepend(done + [s], r)
  {
    if r.Ok? { assert done + ([s] + r.value) == done + [s] + r.value; }
  }

  lemma {:induction false} NamesAppend(ss: seq<Service>, s: Service)
    ensures NamesOf(ss + [s]) == NamesOf(ss) + {s.name}
  {
    forall n | n in NamesOf(ss) + {s.name} ensures n in NamesOf(ss + [s]) {
      if n == s.name { assert (ss + [s])[|ss|].name == n; }
      else {
        var i :| 0 <= i < |ss| && ss[i].name == n;
        assert (ss + [s])[i].name == n;
      }
    }
  }

  lemma {:induction false} IdsAppend(rs: seq<Route>, r: Route)
    ensures IdsOf(rs + [r]) == IdsOf(rs) + {r.id}
  {
    forall n | n in IdsOf(rs) + {r.id} ensures n in IdsOf(rs + [r]) {
      if n == r.id { assert (rs + [r])[|rs|].id == n; }
      else {
        var i :| 0 <= i < |rs| && rs[i].id == n;
        assert (rs + [r])[i].id == n;
      }
    }
  }

  // ---------- which configurations are accepted ----------

  predicate KnownStrategy(s: string) {
    s == "round-robin" || s == "least-connections" || s == "random" || s == "weighted"
  }

  /** Exactly one way of naming upstreams, a usable strategy and a probe path. */
  predicate AcceptableService(s: Service) {
    && (s.upstreamURL != "" ==> s.upstreamURLs == [] && NoTargets(s))
    && (s.upstreamURL != "" || s.upstreamURLs != [] || !NoTargets(s))
    && (s.loadBalancing.Some? ==>
          var lb := s.loadBalancing.value;
          && (KnownStrategy(lb.strategy) || (lb.strategy == "" && |lb.targets| <= 1))
          && (lb.healthChecks.Some? ==> lb.healthChecks.value.ready != "" || lb.healthChecks.value.live != ""))
  }

  ghost predicate DistinctNames(ss: seq<Service>) {
    forall i, j :: 0 <= i < j < |ss| ==> ss[i].name != ss[j].name
  }

  ghost predicate DistinctIds(rs: seq<Route>) {
    forall i, j :: 0 <= i < j < |rs| ==> rs[i].id != rs[j].id
  }

  ghost predicate Acceptable(c: Settings) {
    && (c.global.enableHTTPS ==>
          && c.certificates.Some? && c.certificates.value != []
          && forall i :: 0 <= i < |c.certificates.value| ==>
               var cert := c.certificates.value[i];
               cert.hostname != "" && cert.certFile != "" && cert.keyFile != "")
    && DistinctNames(c.services)
    && (forall i :: 0 <= i < |c.services| ==> c.services[i].name != "" && AcceptableService(c.services[i]))
    && DistinctIds(c.routes)
    && (forall i :: 0 <= i < |c.routes| ==>
          c.routes[i].id != "" && c.routes[i].paths != [] &&
          c.routes[i].service != "" && c.routes[i].service in NamesOf(c.services))
  }

  /** A service is normalised iff it is acceptable; in particular the check for empty targets
      never fails (app/config/config.go:224). */
  lemma {:induction false} ServiceAcceptedIff(s: Service)
    ensures NormaliseService(s).Ok? <==> AcceptableService(s)
    ensures NormaliseService(s) != Err(EmptyTargets(s.name))
  {}

  /** Which error a service gets, by what the file says: each exactly under its own condition. */
  lemma {:induction false} ServiceErrorIff(s: Service)
    ensures var lb, r := BlockOf(s), NormaliseService(s);
            var one := (s.upstreamURL != "" || s.upstreamURLs != [] || !NoTargets(s))
                       && !(s.upstreamURL != "" && (s.upstreamURLs != [] || !NoTargets(s)));
            && (r == Err(NoUpstream(s.name)) <==> s.upstreamURL == "" && s.upstreamURLs == [] && NoTargets(s))
            && (r == Err(MixedUpstreams(s.name)) <==> s.upstreamURL != "" && (s.upstreamURLs != [] || !NoTargets(s)))
            && (r == Err(StrategyRequired(s.name)) <==>
                one && s.loadBalancing.Some? && lb.strategy == "" && |lb.targets| > 1)
            && (r == Err(InvalidStrategy(s.name)) <==>
                one && s.loadBalancing.Some? && lb.strategy != "" && !KnownStrategy(lb.strategy))
            && (r == Err(NoProbe(s.name)) <==>
                one && s.loadBalancing.Some? && (KnownStrategy(lb.strategy) || (lb.strategy == "" && |lb.targets| <= 1))
                && lb.healthChecks.Some? && lb.healthChecks.value.ready == "" && lb.healthChecks.value.live == "")
  {
    assert "round-robin" in STRATEGIES;
  }

  lemma {:induction false} NameErrorIff(ss: seq<Service>, i: nat)
    requires i < |ss|
    ensures CheckService(ss, i) == Err(ServiceNameRequired(i)) <==> ss[i].name == ""
    ensures CheckService(ss, i) == Err(ServiceNameNotUnique(ss[i].name)) <==>
            ss[i].name != "" && exists k :: 0 <= k < i && ss[k].name == ss[i].name
  {
    assert forall k :: 0 <= k < i ==> ss[..i][k] == ss[k];
    ServiceErrorIff(ss[i]);
  }

  /** Which error a route gets: the first of five conditions that holds. */
  lemma {:induction false} RouteErrorIff(names: set<string>, rs: seq<Route>, i: nat)
    requires i < |rs|
    ensures var r, e := rs[i], CheckRoute(names, rs, i);
            var isNew := r.id != "" && forall k :: 0 <= k < i ==> rs[k].id != r.id;
            && (e == Some(RouteIdRequired(i)) <==> r.id == "")
            && (e == Some(RouteIdNotUnique(r.id)) <==> r.id != "" && exists k :: 0 <= k < i && rs[k].id == r.id)
            && (e == Some(PathsRequired(r.id)) <==> isNew && r.paths == [])
            && (e == Some(RouteServiceRequired(r.id)) <==> isNew && r.paths != [] && r.service == "")
            && (e == Some(UnknownService(r.id)) <==>
                isNew && r.paths != [] && r.service != "" && r.service !in names)
  {
    assert forall k :: 0 <= k < i ==> rs[..i][k] == rs[k];
    assert rs[i].id in IdsOf(rs[..i]) <==> exists k :: 0 <= k < i && rs[k].id == rs[i].id;
  }

  ghost predicate TLSOk(c: Settings) {
    c.global.enableHTTPS ==>
      && c.certificates.Some? && c.certificates.value != []
      && forall i :: 0 <= i < |c.certificates.value| ==> Complete(c.certificates.value[i])
  }

  /** Errors come in the order certificates, services, routes, and the first of its kind. */
  lemma {:induction false} FirstErrorWins(c: Settings, i: nat)
    ensures c.global.enableHTTPS && (c.certificates.None? || c.certificates.value == []) ==>
              Normalise(c) == Err(NoCertificates)
    ensures c.global.enableHTTPS && c.certificates.Some? && i < |c.certificates.value|
            && !Complete(c.certificates.value[i])
            && (forall k :: 0 <= k < i ==> Complete(c.certificates.value[k])) ==>
              Normalise(c) == Err(IncompleteCertificate(i))
    ensures TLSOk(c) && i < |c.services| && CheckService(c.services, i).Err?
            && (forall k :: 0 <= k < i ==> CheckService(c.services, k).Ok?) ==>
              Normalise(c) == Err(CheckService(c.services, i).error)
    ensures TLSOk(c) && i < |c.routes| && CheckRoute(NamesOf(c.services), c.routes, i).Some?
            && (forall k :: 0 <= k < |c.services| ==> CheckService(c.services, k).Ok?)
            && (forall k :: 0 <= k < i ==> CheckRoute(NamesOf(c.services), c.routes, k).None?) ==>
              Normalise(c) == Err(CheckRoute(NamesOf(c.services), c.routes, i).value)
  {
    if c.certificates.Some? {
      CertificatesAcceptedIff(c.certificates.value, 0);
      FirstCertificate(c.certificates.value, 0, i);
    }
    FirstService(c.services, 0, i);
    FirstRoute(NamesOf(c.services), c.routes, 0, i);
  }

  lemma {:induction false} FirstCertificate(cs: seq<Certificate>, j: nat, i: nat)
    requires j <= |cs|
    ensures j <= i < |cs| && !Complete(cs[i]) && (forall k :: j <= k < i ==> Complete(cs[k])) ==>
              CheckCertificates(cs, j) == Some(IncompleteCertificate(i))
    decreases |cs| - j
  {
    if j < |cs| && j < i { FirstCertificate(cs, j + 1, i); }
  }

  lemma {:induction false} FirstService(ss: seq<Service>, j: nat, i: nat)
    requires j <= |ss|
    ensures j <= i < |ss| && CheckService(ss, i).Err? && (forall k :: j <= k < i ==> CheckService(ss, k).Ok?) ==>
              NormaliseServices(ss, j) == Err(CheckService(ss, i).error)
    ensures (forall k :: j <= k < |ss| ==> CheckService(ss, k).Ok?) ==> NormaliseServices(ss, j).Ok?
    decreases |ss| - j
  {
    if j < |ss| { FirstService(ss, j + 1, i); }
  }

  lemma {:induction false} FirstRoute(names: set<string>, rs: seq<Route>, j: nat, i: nat)
    requires j <= |rs|
    ensures j <= i < |rs| && CheckRoute(names, rs, i).Some?
            && (forall k :: j <= k < i ==> CheckRoute(names, rs, k).None?) ==>
              CheckRoutes(names, rs, j) == CheckRoute(names, rs, i)
    decreases |rs| - j
  {
    if j < |rs| && j < i { FirstRoute(names, rs, j + 1, i); }
  }

  lemma {:induction false} CertificatesAcceptedIff(cs: seq<Certificate>, i: nat)
    requires i <= |cs|
    ensures CheckCertificates(cs, i).None? <==> forall k :: i <= k < |cs| ==> Complete(cs[k])
    decreases |cs| - i
  {
    if i < |cs| { CertificatesAcceptedIff(cs, i + 1); }
  }

  lemma {:induction false} ServicesAcceptedIff(ss: seq<Service>, i: nat)
    requires i <= |ss|
    ensures NormaliseServices(ss, i).Ok? <==>
            forall k :: i <= k < |ss| ==>
              ss[k].name != "" && ss[k].name !in NamesOf(ss[..k]) && AcceptableService(ss[k])
    ensures NormaliseServices(ss, i).Ok? ==>
            && |NormaliseServices(ss, i).value| == |ss| - i
            && forall k :: i <= k < |ss| ==> NormaliseService(ss[k]) == Ok(NormaliseServices(ss, i).value[k - i])
    decreases |ss| - i
  {
    if i < |ss| {
      ServicesAcceptedIff(ss, i + 1);
      ServiceAcceptedIff(ss[i]);
    }
  }

  lemma {:induction false} RoutesAcceptedIff(names: set<string>, rs: seq<Route>, i: nat)
    requires i <= |rs|
    ensures CheckRoutes(names, rs, i).None? <==> forall k :: i <= k < |rs| ==> CheckRoute(names, rs, k).None?
    decreases |rs| - i
  {
    if i < |rs| { RoutesAcceptedIff(names, rs, i + 1); }
  }

  lemma {:induction false} DistinctByPrefix(ss: seq<Service>)
    ensures DistinctNames(ss) <==> forall k :: 0 <= k < |ss| ==> ss[k].name !in NamesOf(ss[..k])
  {
    if forall k :: 0 <= k < |ss| ==> ss[k].name !in NamesOf(ss[..k]) {
      forall i, j | 0 <= i < j < |ss| ensures ss[i].name != ss[j].name {
        assert ss[..j][i] == ss[i];
        assert ss[i].name in NamesOf(ss[..j]);
      }
    }
  }

  lemma {:induction false} DistinctIdsByPrefix(rs: seq<Route>)
    ensures DistinctIds(rs) <==> forall k :: 0 <= k < |rs| ==> rs[k].id !in IdsOf(rs[..k])
  {
    if forall k :: 0 <= k < |rs| ==> rs[k].id !in IdsOf(rs[..k]) {
      forall i, j | 0 <= i < j < |rs| ensures rs[i].id != rs[j].id {
        assert rs[..j][i] == rs[i];
        assert rs[i].id in IdsOf(rs[..j]);
      }
    }
  }

  lemma {:induction false} AllRoutesAcceptedIff(c: Settings)
    ensures CheckRoutes(NamesOf(c.services), c.routes, 0).None? <==>
            DistinctIds(c.routes) &&
            forall i :: 0 <= i < |c.routes| ==>
              c.routes[i].id != "" && c.routes[i].paths != [] &&
              c.routes[i].service != "" && c.routes[i].service in NamesOf(c.services)
  {
    RoutesAcceptedIff(NamesOf(c.services), c.routes, 0);
    DistinctIdsByPrefix(c.routes);
    forall i | 0 <= i < |c.routes|
      ensures CheckRoute(NamesOf(c.services), c.routes, i).None? <==>
              c.routes[i].id != "" && c.routes[i].id !in IdsOf(c.routes[..i]) && c.routes[i].paths != [] &&
              c.routes[i].service != "" && c.routes[i].service in NamesOf(c.services)
    {}
  }

  lemma {:induction false} AllServicesAcceptedIff(ss: seq<Service>)
    ensures NormaliseServices(ss, 0).Ok? <==>
            DistinctNames(ss) && forall i :: 0 <= i < |ss| ==> ss[i].name != "" && AcceptableService(ss[i])
  {
    ServicesAcceptedIff(ss, 0);
    DistinctByPrefix(ss);
  }

  /** A configuration passes if and only if it is acceptable. */
  lemma {:induction false} AcceptedIff(c: Settings)
    ensures Normalise(c).Ok? <==> Acceptable(c)
  {
    if c.certificates.Some? { CertificatesAcceptedIff(c.certificates.value, 0); }
    AllServicesAcceptedIff(c.services);
    AllRoutesAcceptedIff(c);
  }

  // ---------- what an accepted configuration guarantees ----------

  /** Where requests for the service go, as the file says. */
  function EffectiveTargets(s: Service): seq<Target> {
    if !NoTargets(s) then s.loadBalancing.value.targets
    else if s.upstreamURL != "" then [Target(s.upstreamURL, 0)]
    else TargetsFor(s.upstreamURLs)
  }

  /** The strategy the balancer will use: an empty one means round robin. */
  function EffectiveStrategy(s: Service): string {
    if s.loadBalancing.Some? && s.loadBalancing.value.strategy != "" then s.loadBalancing.value.strategy
    else "round-robin"
  }

  /** Ready for the router, the proxy and the health checker. */
  predicate ReadyService(s: Service) {
    && s.name != "" && !NoTargets(s) && KnownStrategy(EffectiveStrategy(s))
    && (s.loadBalancing.value.healthChecks.Some? ==>
          var hc := s.loadBalancing.value.healthChecks.value;
          && hc.interval > 0 && hc.timeout > 0 && hc.unhealthyThreshold >= 1 && hc.healthyThreshold >= 1
          && (hc.ready != "" || hc.live != ""))
  }

  ghost predicate Ready(c: Settings) {
    && DistinctNames(c.services)
    && (forall i :: 0 <= i < |c.services| ==> ReadyService(c.services[i]))
    && DistinctIds(c.routes)
    && (forall i :: 0 <= i < |c.routes| ==> c.routes[i].paths != [] && c.routes[i].service in NamesOf(c.services))
    && c.global.port != 0 && c.global.logLevel != "" && c.global.defaultTimeoutMs != 0
  }

  lemma {:induction false} NormalisedService(s: Service)
    requires AcceptableService(s) && s.name != ""
    ensures NormaliseService(s).value.name == s.name && ReadyService(NormaliseService(s).value)
  {
    assert "round-robin" in STRATEGIES;
  }

  ghost function ChecksOf(s: Service): Option<HealthChecks> {
    if s.loadBalancing.Some? then s.loadBalancing.value.healthChecks else None
  }

  /** A positive number of the file is kept, any other is replaced. */
  ghost predicate KeptOr(after: int, before: int, default: int) {
    (before > 0 ==> after == before) && (before <= 0 ==> after == default)
  }

  /** Health checks are there as they were, with the missing numbers filled in. */
  ghost predicate ChecksKept(after: Option<HealthChecks>, before: Option<HealthChecks>) {
    && (after.Some? <==> before.Some?)
    && (before.Some? ==>
          && after.value.ready == before.value.ready && after.value.live == before.value.live
          && KeptOr(after.value.interval, before.value.interval, 30)
          && KeptOr(after.value.timeout, before.value.timeout, 5)
          && KeptOr(after.value.unhealthyThreshold, before.value.unhealthyThreshold, 2)
          && KeptOr(after.value.healthyThreshold, before.value.healthyThreshold, 1))
  }

  /** What a pass does to a service: targets, strategy and health checks mean what they meant, and
      the URLs that became targets are gone from where they were. */
  ghost predicate ServiceKept(after: Service, before: Service) {
    && after.name == before.name
    && after.loadBalancing.Some? && after.loadBalancing.value.targets == EffectiveTargets(before)
    && EffectiveStrategy(after) == EffectiveStrategy(before)
    && (before.loadBalancing.Some? ==> after.loadBalancing.value.strategy == EffectiveStrategy(before))
    && ChecksKept(ChecksOf(after), ChecksOf(before))
    && after.upstreamURL == "" && after.upstreamURLs == if NoTargets(before) then [] else before.upstreamURLs
  }

  ghost predicate GlobalKept(after: Global, before: Global) {
    && after.enableHTTPS == before.enableHTTPS
    && (before.port != 0 ==> after.port == before.port) && (before.port == 0 ==> after.port == 8080)
    && (before.logLevel != "" ==> after.logLevel == before.logLevel)
    && (before.logLevel == "" ==> after.logLevel == "info")
    && (before.defaultTimeoutMs != 0 ==> after.defaultTimeoutMs == before.defaultTimeoutMs)
    && (before.defaultTimeoutMs == 0 ==> after.defaultTimeoutMs == 5000)
  }

  /** What the checks of a block keep. */
  lemma {:induction false} CheckedBlockKeeps(name: string, lb: LoadBalancing)
    requires CheckedBlock(name, lb).Ok?
    ensures var lb' := CheckedBlock(name, lb).value;
            && lb'.targets == lb.targets && ChecksKept(lb'.healthChecks, lb.healthChecks)
            && lb'.strategy == if lb.strategy == "" then "round-robin" else lb.strategy
  {}

  lemma {:induction false} NormalisedMeansTheSame(s: Service)
    requires AcceptableService(s)
    ensures EffectiveTargets(NormaliseService(s).value) == EffectiveTargets(s)
    ensures ServiceKept(NormaliseService(s).value, s)
  {
    ServiceAcceptedIff(s);
    var p := WithTargets(s);
    assert BlockOf(p).targets == EffectiveTargets(s) && BlockOf(p).healthChecks == ChecksOf(s);
    if s.loadBalancing.Some? { CheckedBlockKeeps(s.name, BlockOf(p)); }
  }

  /** Targets are in the load-balancing block and `upstream_url` is empty. */
  ghost predicate Populated(s: Service) {
    s.upstreamURL == "" && !NoTargets(s)
  }

  lemma {:induction false} PassPopulates(s: Service)
    requires AcceptableService(s)
    ensures NormaliseService(s).Ok? && Populated(NormaliseService(s).value)
    ensures AcceptableService(NormaliseService(s).value)
  {
    assert "round-robin" in STRATEGIES;
  }

  lemma {:induction false} CheckingSettles(name: string, lb: LoadBalancing)
    requires CheckedBlock(name, lb).Ok?
    ensures CheckedBlock(name, CheckedBlock(name, lb).value) == CheckedBlock(name, lb)
  {}

  /** From the second pass on a service no longer changes. */
  lemma {:induction false} SecondPassService(s: Service)
    requires AcceptableService(s)
    ensures var s' := NormaliseService(s).value;
            && AcceptableService(s')
            && var s'' := NormaliseService(s').value;
               AcceptableService(s'') && NormaliseService(s'') == Ok(s'')
  {
    PassPopulates(s);
    var s' := NormaliseService(s).value;
    PassPopulates(s');
    var s'' := NormaliseService(s').value;
    CheckingSettles(s'.name, s'.loadBalancing.value);
    assert s''.loadBalancing == Some(CheckedBlock(s'.name, s'.loadBalancing.value).value);
  }

  lemma {:induction false} NamesKept(c: Settings)
    requires Normalise(c).Ok?
    ensures var ss := Normalise(c).value.services;
            && |ss| == |c.services|
            && (forall i :: 0 <= i < |ss| ==>
                  NormaliseService(c.services[i]) == Ok(ss[i]) && ss[i].name == c.services[i].name)
            && NamesOf(ss) == NamesOf(c.services)
  {
    AcceptedIff(c);
    ServicesAcceptedIff(c.services, 0);
    var ss := Normalise(c).value.services;
    assert ss == NormaliseServices(c.services, 0).value;
    forall i | 0 <= i < |ss|
      ensures NormaliseService(c.services[i]) == Ok(ss[i]) && ss[i].name == c.services[i].name
    {
      assert ss[i] == ss[i - 0];
      NormalisedService(c.services[i]);
    }
    SameNames(ss, c.services);
    SameNames(c.services, ss);
  }

  lemma {:induction false} SameNames(a: seq<Service>, b: seq<Service>)
    requires |a| == |b| && forall i :: 0 <= i < |a| ==> a[i].name == b[i].name
    ensures NamesOf(a) <= NamesOf(b)
  {
    forall n | n in NamesOf(a) ensures n in NamesOf(b) {
      var i :| 0 <= i < |a| && a[i].name == n;
      assert b[i].name == n;
    }
  }

  /** After a successful pass every service has a unique name, targets, a known strategy and
      positive probe settings, every route resolves, and what the file sets is kept: where and how
      requests are sent, the health checks, the certificates and the global settings. */
  lemma {:induction false} NormalisedIsReady(c: Settings)
    requires Normalise(c).Ok?
    ensures var c' := Normalise(c).value;
            && Ready(c') && c'.routes == c.routes && |c'.services| == |c.services|
            && GlobalKept(c'.global, c.global) && c'.certificates == c.certificates
            && forall i :: 0 <= i < |c.services| ==>
                 && EffectiveTargets(c'.services[i]) == EffectiveTargets(c.services[i])
                 && ServiceKept(c'.services[i], c.services[i])
  {
    AcceptedIff(c);
    NamesKept(c);
    forall i | 0 <= i < |c.services|
      ensures ReadyService(Normalise(c).value.services[i])
      ensures EffectiveTargets(Normalise(c).value.services[i]) == EffectiveTargets(c.services[i])
      ensures ServiceKept(Normalise(c).value.services[i], c.services[i])
    {
      NormalisedService(c.services[i]);
      NormalisedMeansTheSame(c.services[i]);
    }
  }

  /** The router, the proxy and the health checker find what they look up: a route's service is
      the one service of that name, it has targets, and its probe interval and thresholds are
      positive (app/router/router.go:203, app/proxy/proxy.go:41, app/proxy/loadbalancer.go:79,
      app/healthchecker/healthchecker.go:142). */
  lemma {:induction false} RoutesReachTargets(c: Settings, i: nat) returns (k: nat)
    requires Normalise(c).Ok? && i < |c.routes|
    ensures var ss := Normalise(c).value.services;
            && k < |ss| && ss[k].name == c.routes[i].service
            && (forall j :: 0 <= j < |ss| && ss[j].name == c.routes[i].service ==> j == k)
            && ss[k].loadBalancing.Some? && ss[k].loadBalancing.value.targets != []
            && (ss[k].loadBalancing.value.healthChecks.Some? ==>
                  var hc := ss[k].loadBalancing.value.healthChecks.value;
                  hc.interval > 0 && hc.unhealthyThreshold >= 1 && hc.healthyThreshold >= 1)
  {
    NormalisedIsReady(c);
    var ss := Normalise(c).value.services;
    assert Normalise(c).value.routes[i].service in NamesOf(ss);
    k :| 0 <= k < |ss| && ss[k].name == c.routes[i].service;
    assert ReadyService(ss[k]);
  }

  /** The thresholds of an accepted configuration are what the health checker needs. */
  lemma {:induction false} ThresholdsAreValid(c: Settings, i: nat)
    requires Normalise(c).Ok? && i < |Normalise(c).value.services|
    requires ChecksOf(Normalise(c).value.services[i]).Some?
    ensures var hc := ChecksOf(Normalise(c).value.services[i]).value;
            HealthChecker.Thresholds(hc.unhealthyThreshold, hc.healthyThreshold).Valid()
  {
    NormalisedIsReady(c);
    assert ReadyService(Normalise(c).value.services[i]);
  }

  lemma {:induction false} SecondPassSucceeds(c: Settings)
    requires Normalise(c).Ok?
    ensures Normalise(Normalise(c).value).Ok?
  {
    AcceptedIff(c);
    NamesKept(c);
    var c1 := Normalise(c).value;
    forall i | 0 <= i < |c1.services| ensures AcceptableService(c1.services[i]) {
      SecondPassService(c.services[i]);
    }
    AcceptedIff(c1);
  }

  /** A second pass succeeds and a third changes nothing. */
  lemma {:induction false} PassesSettle(c: Settings)
    requires Normalise(c).Ok?
    ensures var c1 := Normalise(c).value;
            && Normalise(c1).Ok?
            && var c2 := Normalise(c1).value;
               Normalise(c2) == Ok(c2)
  {
    SecondPassSucceeds(c);
    var c1 := Normalise(c).value;
    SecondPassSucceeds(c1);
    var c2 := Normalise(c1).value;
    AcceptedIff(c);
    NamesKept(c);
    NamesKept(c1);
    NamesKept(c2);
    forall i | 0 <= i < |c2.services| ensures NormaliseService(c2.services[i]) == Ok(c2.services[i]) {
      SecondPassService(c.services[i]);
    }
    assert Normalise(c2).value.services == c2.services;
  }

  /** A service whose `upstream_url` the first pass moves into a block it creates itself. */
  predicate NeedsSecondPass(s: Service) {
    s.upstreamURL != "" && s.loadBalancing.None?
  }

  lemma {:induction false} FirstPassSettlesServiceIff(s: Service)
    requires AcceptableService(s)
    ensures NormaliseService(NormaliseService(s).value) == NormaliseService(s) <==> !NeedsSecondPass(s)
  {
    PassPopulates(s);
    var s' := NormaliseService(s).value;
    PassPopulates(s');
    if s.loadBalancing.Some? {
      CheckingSettles(s.name, BlockOf(WithTargets(s)));
    } else {
      assert "round-robin" in STRATEGIES;
    }
  }

  /** Exactly when one pass is enough: a second pass changes nothing if and only if no service
      has an `upstream_url` and no load-balancing block. */
  lemma {:induction false} OnePassIsEnoughIff(c: Settings)
    requires Normalise(c).Ok?
    ensures Normalise(Normalise(c).value) == Normalise(c) <==>
            forall i :: 0 <= i < |c.services| ==> c.services[i].upstreamURL == "" || c.services[i].loadBalancing.Some?
  {
    AcceptedIff(c);
    PassesSettle(c);
    NamesKept(c);
    var c1 := Normalise(c).value;
    NamesKept(c1);
    var c2 := Normalise(c1).value;
    forall i | 0 <= i < |c.services|
      ensures c2.services[i] == c1.services[i] <==> !NeedsSecondPass(c.services[i])
    {
      FirstPassSettlesServiceIff(c.services[i]);
    }
    assert (forall i :: 0 <= i < |c.services| ==> c2.services[i] == c1.services[i]) <==> c2.services == c1.services;
    assert c2 == c1 <==> c2.services == c1.services;
  }

  /** The second pass is needed: one `upstream_url` and no block leaves the strategy empty. */
  lemma OnePassIsNotEnough()
    ensures var s := Service("a", [], "http://h", None);
            var s' := NormaliseService(s).value;
            NormaliseService(s).Ok? && NormaliseService(s') != Ok(s')
  {}
}
