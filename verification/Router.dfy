/** First-match routing on host, method and path, and the pre-built plugin chain of each route
    (app/router/router.go). */
module Router {
  import opened Options
  import opened Config
  import opened PluginChain
  import opened Text

  // ---------- segments ----------

  predicate HasPrefix(s: string, p: string) { p <= s }

  predicate HasSuffix(s: string, p: string) {
    |p| <= |s| && s[|s| - |p|..] == p
  }

  /** The pieces after putting one more character in front. */
  function Grow(x: char, rest: seq<string>, c: char): seq<string>
    requires |rest| >= 1
  {
    if x == c then [""] + rest else [[x] + rest[0]] + rest[1..]
  }

  /** The pieces of s between occurrences of c; one more piece than there are occurrences. */
  function Split(s: string, c: char): (r: seq<string>)
    ensures |r| >= 1
  {
    if s == "" then [""]
    else
      Grow(s[0], Split(s[1..], c), c)
  }

  function Join(parts: seq<string>, c: char): string
    requires |parts| >= 1
  {
    if |parts| == 1 then parts[0] else parts[0] + [c] + Join(parts[1..], c)
  }

  lemma {:induction false} JoinSplit(s: string, c: char)
    ensures Join(Split(s, c), c) == s
  {
    if s != "" {
      JoinSplit(s[1..], c);
      var rest := Split(s[1..], c);
      if s[0] == c {
        assert ([""] + rest)[1..] == rest;
      } else {
        var whole := [[s[0]] + rest[0]] + rest[1..];
        assert whole[1..] == rest[1..];
        assert Join(whole, c) == [s[0]] + Join(rest, c);
      }
    }
  }

  lemma {:induction false} SplitConcat(a: string, b: string, c: char)
    ensures Split(a + [c] + b, c) == Split(a, c) + Split(b, c)
  {
    var s := a + [c] + b;
    if a == "" {
      assert s[0] == c && s[1..] == b;
    } else {
      SplitConcat(a[1..], b, c);
      assert s == [a[0]] + (a[1..] + [c] + b);
      SplitCons(a[0], a[1..] + [c] + b, c);
      SplitCons(a[0], a[1..], c);
      assert a == [a[0]] + a[1..];
      GrowConcat(a[0], Split(a[1..], c), Split(b, c), c);
    }
  }

  lemma {:induction false} SplitCons(x: char, s: string, c: char)
    ensures Split([x] + s, c) == Grow(x, Split(s, c), c)
  {
    assert ([x] + s)[1..] == s;
  }

  lemma {:induction false} GrowConcat(x: char, rest: seq<string>, tail: seq<string>, c: char)
    requires |rest| >= 1
    ensures Grow(x, rest + tail, c) == Grow(x, rest, c) + tail
  {
    assert (rest + tail)[1..] == rest[1..] + tail;
  }

  lemma {:induction false} JoinConcat(xs: seq<string>, ys: seq<string>, c: char)
    requires |xs| >= 1 && |ys| >= 1
    ensures Join(xs + ys, c) == Join(xs, c) + [c] + Join(ys, c)
  {
    if |xs| == 1 {
      assert (xs + ys)[1..] == ys;
    } else {
      assert (xs + ys)[1..] == xs[1..] + ys;
      JoinConcat(xs[1..], ys, c);
    }
  }

  /** A string continues `p` at a separator exactly when p's pieces are a prefix of its pieces. */
  lemma {:induction false} SegmentPrefix(s: string, p: string, c: char)
    ensures s == p || HasPrefix(s, p + [c]) <==> Split(p, c) <= Split(s, c)
  {
    if HasPrefix(s, p + [c]) {
      assert s == p + [c] + s[|p| + 1..];
      SplitConcat(p, s[|p| + 1..], c);
    }
    if Split(p, c) <= Split(s, c) {
      var ps, ss := Split(p, c), Split(s, c);
      var rest := ss[|ps|..];
      assert ss == ps + rest;
      JoinSplit(p, c);
      JoinSplit(s, c);
      if rest == [] {
        assert ss == ps;
      } else {
        JoinConcat(ps, rest, c);
        assert s == (p + [c]) + Join(rest, c);
      }
    }
  }

  /** The pieces of p end the pieces of s, which has more. */
  predicate ProperSuffix(ps: seq<string>, ss: seq<string>) {
    |ps| < |ss| && ss[|ss| - |ps|..] == ps
  }

  lemma {:induction false} SuffixSplits(s: string, p: string, c: char)
    requires HasSuffix(s, [c] + p)
    ensures ProperSuffix(Split(p, c), Split(s, c))
  {
    var front := s[..|s| - |p| - 1];
    assert s == front + [c] + p;
    SplitConcat(front, p, c);
  }

  lemma {:induction false} JoinedSuffix(ps: seq<string>, ss: seq<string>, c: char)
    requires ps != [] && ProperSuffix(ps, ss)
    ensures HasSuffix(Join(ss, c), [c] + Join(ps, c))
  {
    var front := ss[..|ss| - |ps|];
    assert ss == front + ps;
    JoinConcat(front, ps, c);
    assert Join(ss, c) == Join(front, c) + ([c] + Join(ps, c));
  }

  lemma {:induction false} SuffixJoins(s: string, p: string, c: char)
    requires ProperSuffix(Split(p, c), Split(s, c))
    ensures HasSuffix(s, [c] + p)
  {
    JoinSplit(p, c);
    JoinSplit(s, c);
    JoinedSuffix(Split(p, c), Split(s, c), c);
  }

  /** A string ends with a separator and `p` exactly when p's pieces are a proper suffix of its pieces. */
  lemma {:induction false} SegmentSuffix(s: string, p: string, c: char)
    ensures HasSuffix(s, [c] + p) <==> ProperSuffix(Split(p, c), Split(s, c))
  {
    if HasSuffix(s, [c] + p) { SuffixSplits(s, p, c); }
    if ProperSuffix(Split(p, c), Split(s, c)) { SuffixJoins(s, p, c); }
  }

  // ---------- matching one route ----------

  function TrimSuffix(s: string, p: string): string {
    if HasSuffix(s, p) then s[..|s| - |p|] else s
  }

  predicate MatchPath(path: string, pattern: string) {
    if HasSuffix(pattern, "/*") then
      var prefix := TrimSuffix(pattern, "/*");
      path == prefix || HasPrefix(path, prefix + "/") || path == pattern
    else if HasSuffix(pattern, "*") && !HasSuffix(pattern, "/*") then
      HasPrefix(path, TrimSuffix(pattern, "*")) || path == pattern
    else path == pattern
  }

  /** A pattern ending in a slash and a star matches whole segments: the part before
      it must begin the path, segment by segment. */
  lemma {:induction false} WildcardMatchesSegments(path: string, p: string)
    ensures MatchPath(path, p + "/*") <==> Split(p, '/') <= Split(path, '/')
  {
    var pattern := p + "/*";
    assert pattern[|pattern| - 2..] == "/*" && pattern[..|pattern| - 2] == p;
    assert TrimSuffix(pattern, "/*") == p;
    if path == pattern { assert p + "/" == pattern[..|p| + 1]; }
    SegmentPrefix(path, p, '/');
  }

  /** A bare trailing "*" is a plain prefix match, and anything else is an exact match. */
  lemma {:induction false} OtherPatterns(path: string, p: string)
    ensures !HasSuffix(p, "/") ==> (MatchPath(path, p + "*") <==> p <= path)
    ensures !HasSuffix(p, "*") ==> (MatchPath(path, p) <==> path == p)
  {
    var pattern := p + "*";
    assert pattern[|pattern| - 1..] == "*" && pattern[..|pattern| - 1] == p;
    if HasSuffix(pattern, "/*") {
      assert p[|p| - 1] == pattern[|pattern| - 2] == pattern[|pattern| - 2..][0] == '/';
      assert p[|p| - 1..] == "/";
    }
    if HasSuffix(p, "/*") { assert p[|p| - 1] == p[|p| - 2..][1] == '*' && p[|p| - 1..] == "*"; }
  }

  /** The host without its port: everything before the first ':'. */
  function Hostname(host: string): string {
    if ':' in host then Split(host, ':')[0] else host
  }

  predicate MatchHost(pattern: string, host: string) {
    pattern == "" ||
    var hostname := Hostname(host);
    if HasPrefix(pattern, "*.") then
      hostname != pattern[2..] && HasSuffix(hostname, "." + pattern[2..])
    else pattern == hostname
  }

  /** The host name has no ':', and is the whole host or is followed by one in it. */
  lemma {:induction false} HostnameIs(host: string)
    ensures ':' !in Hostname(host)
    ensures Hostname(host) == host || Hostname(host) + ":" <= host
  {
    FirstPiece(host, ':');
  }

  lemma {:induction false} FirstPiece(s: string, c: char)
    ensures c !in Split(s, c)[0]
    ensures if c in s then Split(s, c)[0] + [c] <= s else Split(s, c)[0] == s
  {
    if s != "" {
      FirstPiece(s[1..], c);
      assert s == [s[0]] + s[1..];
    }
  }

  /** A pattern without wildcard matches the host it names, with any port or none; one that itself
      names a port matches nothing, and an empty one everything. */
  lemma {:induction false} ExactHost(pattern: string, host: string)
    ensures pattern == "" ==> MatchHost(pattern, host)
    ensures pattern != "" && !HasPrefix(pattern, "*.") ==>
              (MatchHost(pattern, host) <==> ':' !in pattern && (host == pattern || pattern + ":" <= host))
  {
    HostnameIs(host);
    if ':' !in pattern && (host == pattern || pattern + ":" <= host) { HostnameIsUnique(host, pattern); }
  }

  lemma {:induction false} HostnameIsUnique(host: string, name: string)
    requires ':' !in name && (host == name || name + ":" <= host)
    ensures Hostname(host) == name
  {
    HostnameIs(host);
    var h := Hostname(host);
    if |h| < |name| {
      ColonAt(host, h, name);
      assert false;
    } else if |name| < |h| {
      ColonAt(host, name, h);
      assert false;
    }
    assert h == host[..|h|] && name == host[..|name|];
  }

  lemma {:induction false} ColonAt(host: string, a: string, b: string)
    requires a + ":" <= host && b <= host && |a| < |b|
    ensures b[|a|] == ':'
  {
    assert (a + ":")[|a|] == ':';
  }

  /** "*.base" matches when base's labels are a proper suffix of the host name's labels. */
  lemma {:induction false} WildcardMatchesSubdomains(host: string, base: string)
    ensures MatchHost("*." + base, host) <==>
            var labels, suffix := Split(Hostname(host), '.'), Split(base, '.');
            |suffix| < |labels| && labels[|labels| - |suffix|..] == suffix
  {
    var pattern := "*." + base;
    assert pattern[2..] == base && "*." <= pattern;
    SegmentSuffix(Hostname(host), base, '.');
  }

  /** Case-insensitive equality of method names. */
  predicate EqualFold(a: string, b: string) {
    ToLower(a) == ToLower(b)
  }

  lemma {:induction false} EqualFoldIff(a: string, b: string)
    ensures EqualFold(a, b) <==> |a| == |b| && forall i :: 0 <= i < |a| ==> SameLetter(a[i], b[i])
  {
    ToLowerIff(a, b);
  }

  predicate MatchMethod(methods: seq<string>, name: string) {
    methods == [] || exists i :: 0 <= i < |methods| && EqualFold(methods[i], name)
  }

  predicate MatchPaths(patterns: seq<string>, path: string) {
    exists i :: 0 <= i < |patterns| && MatchPath(path, patterns[i])
  }

  datatype Request = Request(verb: string, host: string, path: string)

  predicate Matches(route: Route, r: Request) {
    MatchHost(route.host, r.host) && MatchMethod(route.methods, r.verb) && MatchPaths(route.paths, r.path)
  }

  // ---------- the router object ----------

  datatype Dispatch = NotFound | To(route: nat, handler: Handler<PluginInstance>)

  class Router {
    const routes: seq<Route>
    const serviceNames: set<string>
    var routeHandlers: map<string, Handler<PluginInstance>>

    /** `available` says of a configured plugin that it is registered and initialises. */
    constructor (c: Settings, available: PluginInstance -> bool)
      ensures routes == c.routes && serviceNames == NamesOf(c.services)
      ensures DistinctIds(c.routes) ==> Built(available)
    {
      routes := c.routes;
      serviceNames := set i | 0 <= i < |c.services| :: c.services[i].name;
      routeHandlers := map[];
      new;
      BuildRouteHandlers(available);
    }

    /** Each route whose plugins are all available has its own chain, in order; no other route
        has one. */
    ghost predicate Built(available: PluginInstance -> bool)
      reads this
    {
      forall i :: 0 <= i < |routes| ==>
        if AllAvailable(routes[i].plugins, available)
        then routes[i].id in routeHandlers && PluginsOf(routeHandlers[routes[i].id]) == routes[i].plugins
        else routes[i].id !in routeHandlers
    }

    static predicate AllAvailable(ps: seq<PluginInstance>, available: PluginInstance -> bool) {
      forall i :: 0 <= i < |ps| ==> available(ps[i])
    }

    method BuildRouteHandlers(available: PluginInstance -> bool)
      requires routeHandlers == map[]
      modifies this`routeHandlers
      ensures DistinctIds(routes) ==> Built(available)
    {
      for i := 0 to |routes|
        invariant routeHandlers.Keys <= IdsOf(routes[..i])
        invariant DistinctIds(routes) ==> forall k :: 0 <= k < i ==>
          if AllAvailable(routes[k].plugins, available)
          then routes[k].id in routeHandlers && PluginsOf(routeHandlers[routes[k].id]) == routes[k].plugins
          else routes[k].id !in routeHandlers
      {
        ghost var before := routeHandlers;
        assert routes[..i + 1] == routes[..i] + [routes[i]];
        IdsAppend(routes[..i], routes[i]);
        if DistinctIds(routes) { DistinctIdsByPrefix(routes); }
        if AllAvailable(routes[i].plugins, available) {
          var h := ChainPlugins(routes[i].plugins);
          routeHandlers := routeHandlers[routes[i].id := h];
        }
      }
    }

    static method MethodMatches(methods: seq<string>, name: string) returns (m: bool)
      ensures m <==> methods == [] || exists i :: 0 <= i < |methods| && EqualFold(methods[i], name)
    {
      if |methods| == 0 { return true; }
      for j := 0 to |methods|
        invariant forall k :: 0 <= k < j ==> !EqualFold(methods[k], name)
      {
        if EqualFold(methods[j], name) { return true; }
      }
      return false;
    }

    static method PathMatches(patterns: seq<string>, path: string) returns (m: bool)
      ensures m <==> exists i :: 0 <= i < |patterns| && MatchPath(path, patterns[i])
    {
      for j := 0 to |patterns|
        invariant forall k :: 0 <= k < j ==> !MatchPath(path, patterns[k])
      {
        if MatchPath(path, patterns[j]) { return true; }
      }
      return false;
    }

    static method RouteMatches(route: Route, r: Request) returns (m: bool)
      ensures m == Matches(route, r)
      ensures m <==> && MatchHost(route.host, r.host)
                     && (route.methods == [] ||
                         exists i :: 0 <= i < |route.methods| && EqualFold(route.methods[i], r.verb))
                     && (exists i :: 0 <= i < |route.paths| && MatchPath(r.path, route.paths[i]))
    {
      if !MatchHost(route.host, r.host) { return false; }
      var methodMatch := MethodMatches(route.methods, r.verb);
      if !methodMatch { return false; }
      m := PathMatches(route.paths, r.path);
    }

    /** The request matches the route and the route's service exists. */
    predicate Eligible(route: Route, r: Request) {
      Matches(route, r) && route.service in serviceNames
    }

    /** The lowest-index route that matches and whose service exists. */
    method ServeHTTP(r: Request) returns (d: Dispatch)
      ensures d.NotFound? <==> forall i :: 0 <= i < |routes| ==> !Eligible(routes[i], r)
      ensures d.To? ==>
                && d.route < |routes| && Eligible(routes[d.route], r)
                && (forall i :: 0 <= i < d.route ==> !Eligible(routes[i], r))
                && d.handler == if routes[d.route].id in routeHandlers
                                then routeHandlers[routes[d.route].id] else Ultimate
    {
      for i := 0 to |routes|
        invariant forall k :: 0 <= k < i ==> !Eligible(routes[k], r)
      {
        var route := routes[i];
        var matching := RouteMatches(route, r);
        if !matching || route.service !in serviceNames { continue; }
        if route.id !in routeHandlers { return To(i, Ultimate); }
        return To(i, routeHandlers[route.id]);
      }
      return NotFound;
    }
  }

  /** From file to dispatch: on an accepted configuration a request goes to the lowest-index
      route matching host, method and path, is refused exactly when none does, and runs that
      route's plugins in order; a route with an unavailable plugin is still served, without any
      of its plugins. */
  method Dispatched(c: Settings, available: PluginInstance -> bool, r: Request) returns (d: Dispatch)
    requires Normalise(c).Ok?
    ensures d.NotFound? <==> forall i :: 0 <= i < |c.routes| ==> !Matches(c.routes[i], r)
    ensures d.To? ==>
              && d.route < |c.routes| && Matches(c.routes[d.route], r)
              && (forall i :: 0 <= i < d.route ==> !Matches(c.routes[i], r))
              && PluginsOf(d.handler) == if Router.AllAvailable(c.routes[d.route].plugins, available)
                                         then c.routes[d.route].plugins else []
  {
    NormalisedIsReady(c);
    var cfg := Normalise(c).value;
    var router := new Router(cfg, available);
    d := router.ServeHTTP(r);
  }

  /** One route to one service, behind one plugin. */
  function GuardedRoute(plugin: PluginInstance): Settings {
    Settings(Global(80, "info", false, 1000), None, [Service("s", [], "http://h", None)],
             [Route("r", ["/a"], [], "", "s", [plugin])])
  }

  lemma {:induction false} GuardedRouteIsAccepted(plugin: PluginInstance)
    ensures Normalise(GuardedRoute(plugin)).Ok?
  {
    var c := GuardedRoute(plugin);
    assert c.services[0].name in NamesOf(c.services);
    AcceptedIff(c);
  }

  /** A request on a route whose only plugin cannot be built goes straight to the proxy. */
  method ServedUnguarded(plugin: PluginInstance) returns (d: Dispatch)
    ensures d == To(0, Ultimate)
  {
    GuardedRouteIsAccepted(plugin);
    var c := GuardedRoute(plugin);
    assert MatchPath("/a", c.routes[0].paths[0]);
    assert Matches(c.routes[0], Request("GET", "h", "/a"));
    assert c.routes[0].plugins[0] == plugin;
    d := Dispatched(c, _ => false, Request("GET", "h", "/a"));
  }
}
