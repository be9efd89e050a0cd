/** The plugin chain of a route: a fold of wrapping handlers, run from the outside in
    (app/plugins/plugin.go:68-84), and the rate bound it inherits from a limiter anywhere in it. */
module PluginChain {
  import opened SlidingWindow
  import opened RateLimiter

  /** An http.Handler of a route: the proxy itself, or a plugin around another handler. */
  datatype Handler<T> = Ultimate | Wrapped(plugin: T, next: Handler<T>)

  /** The plugins around the proxy, outermost first. */
  function PluginsOf<T>(h: Handler<T>): seq<T> {
    match h
    case Ultimate => []
    case Wrapped(p, next) => [p] + PluginsOf(next)
  }

  method ChainPlugins<T>(plugins: seq<T>) returns (h: Handler<T>)
    ensures PluginsOf(h) == plugins
  {
    if |plugins| == 0 { return Ultimate; }
    h := Ultimate;
    var i := |plugins| - 1;
    while i >= 0
      invariant -1 <= i < |plugins|
      invariant PluginsOf(h) == plugins[i + 1..]
    {
      h := Wrapped(plugins[i], h);
      i := i - 1;
    }
  }

  // ---------- running a chain ----------

  /** A plugin sees the world and the request, may change the world, and either calls the next
      handler or answers itself. */
  type Behaviour<!T, !W, !R> = (T, W, R) -> (W, bool)

  /** Outcome of serving a request: the world afterwards, the plugins that ran, in order, and
      whether the proxy was reached. */
  datatype Served<T, W> = Served(world: W, ran: seq<T>, reached: bool)

  function Serve<T, W, R>(h: Handler<T>, act: Behaviour<T, W, R>, w: W, r: R): Served<T, W> {
    match h
    case Ultimate => Served(w, [], true)
    case Wrapped(p, next) =>
      var (w', calls) := act(p, w, r);
      if calls then
        var rest := Serve(next, act, w', r);
        rest.(ran := [p] + rest.ran)
      else Served(w', [p], false)
  }

  /** The world after the first k plugins of the list have acted, in list order. */
  function WorldAfter<T, W, R>(ps: seq<T>, act: Behaviour<T, W, R>, w: W, r: R, k: nat): W
    requires k <= |ps|
  {
    if k == 0 then w else act(ps[k - 1], WorldAfter(ps, act, w, r, k - 1), r).0
  }

  /** Whether plugin k, acting after its predecessors, calls the next handler. */
  predicate Calls<T, W, R>(ps: seq<T>, act: Behaviour<T, W, R>, w: W, r: R, k: nat)
    requires k < |ps|
  {
    act(ps[k], WorldAfter(ps, act, w, r, k), r).1
  }

  lemma {:induction false} WorldAfterTail<T, W, R>(ps: seq<T>, act: Behaviour<T, W, R>, w: W, r: R, k: nat)
    requires 1 <= k <= |ps|
    ensures WorldAfter(ps, act, w, r, k) == WorldAfter(ps[1..], act, act(ps[0], w, r).0, r, k - 1)
  {
    if k == 1 {
      assert WorldAfter(ps, act, w, r, 0) == w;
    } else {
      WorldAfterTail(ps, act, w, r, k - 1);
      assert ps[1..][k - 2] == ps[k - 1];
    }
  }

  /** Chain semantics: the plugins run in configuration order up to and including the first that
      does not call on, each on the world its predecessors left; the proxy is reached exactly
      when every plugin calls on. */
  lemma {:induction false} ChainRunsInOrder<T, W, R>(h: Handler<T>, act: Behaviour<T, W, R>, w: W, r: R)
    ensures var ps, out := PluginsOf(h), Serve(h, act, w, r);
            var k := |out.ran|;
            && k <= |ps| && out.ran == ps[..k]
            && out.world == WorldAfter(ps, act, w, r, k)
            && (forall j :: 0 <= j < k ==> Calls(ps, act, w, r, j) == (j < k - 1 || out.reached))
            && (out.reached ==> k == |ps|)
            && (!out.reached ==> k > 0)
    decreases h
  {
    if h.Wrapped? {
      var ps, out := PluginsOf(h), Serve(h, act, w, r);
      var k := |out.ran|;
      var (w', calls) := act(h.plugin, w, r);
      assert ps[1..] == PluginsOf(h.next);
      if calls {
        var rest := Serve(h.next, act, w', r);
        ChainRunsInOrder(h.next, act, w', r);
        assert ps[..k] == [h.plugin] + ps[1..][..k - 1];
        WorldAfterTail(ps, act, w, r, k);
        forall j | 0 <= j < k
          ensures Calls(ps, act, w, r, j) == (j < k - 1 || out.reached)
        {
          if j > 0 {
            WorldAfterTail(ps, act, w, r, j);
            assert Calls(ps, act, w, r, j) == Calls(ps[1..], act, w', r, j - 1);
          }
        }
      } else {
        assert WorldAfter(ps, act, w, r, 0) == w;
        assert ps[..1] == [h.plugin];
      }
    }
  }

  // ---------- a limiter inside a chain ----------

  /** Plugin instances are numbered; each limiter owns a store. */
  datatype Plugin = Limiter(id: nat, limits: Limits) | Other(id: nat)

  type Stores = map<nat, Store>

  /** What one request brings: its client, the clock reading at each plugin, and the verdict of
      every plugin that is not a limiter. */
  datatype Incoming = Incoming(client: string, clock: nat -> int, verdict: nat -> bool)

  function StoreOf(w: Stores, id: nat): Store {
    if id in w then w[id] else map[]
  }

  function Act(p: Plugin, w: Stores, r: Incoming): (Stores, bool) {
    match p
    case Limiter(id, l) =>
      (w[id := AfterRequest(l, StoreOf(w, id), r.client, r.clock(id))],
       Allows(l, StoreOf(w, id), r.client, r.clock(id)))
    case Other(id) => (w, r.verdict(id))
  }

  /** Requests through the route, and sweeps of its limiters. */
  datatype Event = Through(request: Incoming) | Swept(id: nat, limits: Limits, time: int)

  function After(h: Handler<Plugin>, es: seq<Event>): Stores {
    if es == [] then map[]
    else
      var w := After(h, es[..|es| - 1]);
      match es[|es| - 1]
      case Through(r) => Serve(h, Act, w, r).world
      case Swept(id, l, t) => w[id := AfterSweep(l, StoreOf(w, id), t)]
  }

  /** Times, read at limiter `id`, of the client's requests that reached the proxy. */
  function Reached(h: Handler<Plugin>, es: seq<Event>, id: nat, client: string): seq<int> {
    if es == [] then []
    else
      var front := Reached(h, es[..|es| - 1], id, client);
      match es[|es| - 1]
      case Through(r) =>
        if r.client == client && Serve(h, Act, After(h, es[..|es| - 1]), r).reached
        then front + [r.clock(id)] else front
      case Swept(_, _, _) => front
  }

  /** The part of the run that limiter `id` with limits `l` gets to see. */
  function Seen(h: Handler<Plugin>, es: seq<Event>, id: nat, l: Limits): seq<RateLimiter.Event> {
    if es == [] then []
    else
      var front := Seen(h, es[..|es| - 1], id, l);
      match es[|es| - 1]
      case Through(r) =>
        if Limiter(id, l) in Serve(h, Act, After(h, es[..|es| - 1]), r).ran
        then front + [Request(r.client, r.clock(id))] else front
      case Swept(i, _, t) => if i == id then front + [Sweep(t)] else front
  }

  /** The limiter occurs in the chain, and no other plugin of the chain has its number. */
  ghost predicate HasLimiter(h: Handler<Plugin>, id: nat, l: Limits) {
    match h
    case Ultimate => false
    case Wrapped(p, next) =>
      if p.id == id then p == Limiter(id, l) && !Numbered(next, id) else HasLimiter(next, id, l)
  }

  ghost predicate Numbered(h: Handler<Plugin>, id: nat) {
    h.Wrapped? && (h.plugin.id == id || Numbered(h.next, id))
  }

  lemma {:induction false} OthersLeaveStore(h: Handler<Plugin>, w: Stores, r: Incoming, id: nat, l: Limits)
    requires !Numbered(h, id)
    ensures StoreOf(Serve(h, Act, w, r).world, id) == StoreOf(w, id)
    ensures Limiter(id, l) !in Serve(h, Act, w, r).ran
    decreases h
  {
    if h.Wrapped? { OthersLeaveStore(h.next, Act(h.plugin, w, r).0, r, id, l); }
  }

  /** One request: the limiter's store moves exactly when the limiter ran, and the proxy is
      reached only if the limiter ran and allowed it. */
  lemma {:induction false} LimiterInChain(h: Handler<Plugin>, w: Stores, r: Incoming, id: nat, l: Limits)
    requires HasLimiter(h, id, l)
    ensures var out := Serve(h, Act, w, r);
            var ran := Limiter(id, l) in out.ran;
            && StoreOf(out.world, id) ==
                 (if ran then AfterRequest(l, StoreOf(w, id), r.client, r.clock(id)) else StoreOf(w, id))
            && (out.reached ==> ran && Allows(l, StoreOf(w, id), r.client, r.clock(id)))
    decreases h
  {
    var (w', calls) := Act(h.plugin, w, r);
    if h.plugin.id == id {
      OthersLeaveStore(h.next, w', r, id, l);
    } else {
      assert StoreOf(w', id) == StoreOf(w, id);
      LimiterInChain(h.next, w', r, id, l);
    }
  }

  ghost predicate SweepsMatch(es: seq<Event>, id: nat, l: Limits) {
    forall i :: 0 <= i < |es| && es[i].Swept? && es[i].id == id ==> es[i].limits == l
  }

  /** What the chain has done to the limiter is what the limiter has seen. */
  ghost predicate Refines(h: Handler<Plugin>, es: seq<Event>, id: nat, l: Limits, client: string, lo: int) {
    && StoreOf(After(h, es), id) == StoreAfter(l, Seen(h, es, id, l))
    && CountFrom(Reached(h, es, id, client), lo, l.window)
         <= CountFrom(Admissions(l, Seen(h, es, id, l), client), lo, l.window)
  }

  lemma {:induction false} ThroughRefines(h: Handler<Plugin>, es: seq<Event>, r: Incoming, id: nat, l: Limits,
      client: string, lo: int)
    requires HasLimiter(h, id, l) && Refines(h, es, id, l, client, lo)
    ensures Refines(h, es + [Through(r)], id, l, client, lo)
  {
    assert (es + [Through(r)])[..|es|] == es;
    var seen, now := Seen(h, es, id, l), r.clock(id);
    LimiterInChain(h, After(h, es), r, id, l);
    assert (seen + [Request(r.client, now)])[..|seen|] == seen;
    PruneAppend(Reached(h, es, id, client), now, lo, l.window);
    PruneAppend(Admissions(l, seen, client), now, lo, l.window);
  }

  lemma {:induction false} SweptRefines(h: Handler<Plugin>, es: seq<Event>, e: Event, id: nat, l: Limits,
      client: string, lo: int)
    requires e.Swept? && (e.id == id ==> e.limits == l) && Refines(h, es, id, l, client, lo)
    ensures Refines(h, es + [e], id, l, client, lo)
  {
    assert (es + [e])[..|es|] == es;
    var seen := Seen(h, es, id, l);
    assert Reached(h, es + [e], id, client) == Reached(h, es, id, client);
    if e.id == id {
      SweepAppend(l, seen, e.time, client);
      assert Seen(h, es + [e], id, l) == seen + [Sweep(e.time)];
      assert StoreOf(After(h, es + [e]), id) == AfterSweep(l, StoreOf(After(h, es), id), e.time);
    } else {
      assert Seen(h, es + [e], id, l) == seen;
      assert StoreOf(After(h, es + [e]), id) == StoreOf(After(h, es), id);
    }
  }

  lemma {:induction false} SweepAppend(l: Limits, es: seq<RateLimiter.Event>, t: int, client: string)
    ensures StoreAfter(l, es + [Sweep(t)]) == AfterSweep(l, StoreAfter(l, es), t)
    ensures Admissions(l, es + [Sweep(t)], client) == Admissions(l, es, client)
  {
    assert (es + [Sweep(t)])[..|es|] == es;
  }

  lemma {:induction false} ChainRefinesLimiter(h: Handler<Plugin>, es: seq<Event>, id: nat, l: Limits,
      client: string, lo: int)
    requires HasLimiter(h, id, l) && SweepsMatch(es, id, l)
    ensures Refines(h, es, id, l, client, lo)
  {
    if es != [] {
      var n := |es| - 1;
      var front := es[..n];
      assert es == front + [es[n]];
      ChainRefinesLimiter(h, front, id, l, client, lo);
      match es[n]
      case Through(r) => ThroughRefines(h, front, r, id, l, client, lo);
      case Swept(_, _, _) => SweptRefines(h, front, es[n], id, l, client, lo);
    }
  }

  /** Composed bound: with a limiter at any position of the chain, whatever the other plugins
      decide, the proxy is reached at most `perWindow` times per client and closed window. */
  lemma {:induction false} ProxyIsRateLimited(h: Handler<Plugin>, es: seq<Event>, id: nat, l: Limits, client: string)
    requires l.Valid() && HasLimiter(h, id, l) && SweepsMatch(es, id, l)
    requires Chronological(Seen(h, es, id, l)) // the limiter's own clock readings do not go back
    ensures WithinLimit(Reached(h, es, id, client), l.perWindow, l.window)
  {
    RunIsWithinLimit(l, Seen(h, es, id, l), client);
    forall lo: int
      ensures CountFrom(Reached(h, es, id, client), lo, l.window) <= l.perWindow
    {
      ChainRefinesLimiter(h, es, id, l, client, lo);
    }
  }

  // ---------- a limiter among plugins that call on ----------

  /** Every plugin but number `id` is not a limiter and calls on for this request. */
  ghost predicate OthersAgree(h: Handler<Plugin>, id: nat, r: Incoming) {
    h.Wrapped? ==>
      && (h.plugin.id == id || (h.plugin.Other? && r.verdict(h.plugin.id)))
      && OthersAgree(h.next, id, r)
  }

  lemma {:induction false} OthersPass(h: Handler<Plugin>, w: Stores, r: Incoming, id: nat)
    requires !Numbered(h, id) && OthersAgree(h, id, r)
    ensures Serve(h, Act, w, r).reached
    decreases h
  {
    if h.Wrapped? { OthersPass(h.next, w, r, id); }
  }

  /** Then the proxy is reached exactly when the limiter allows the request. */
  lemma {:induction false} ReachedIffAllowed(h: Handler<Plugin>, w: Stores, r: Incoming, id: nat, l: Limits)
    requires HasLimiter(h, id, l) && OthersAgree(h, id, r)
    ensures Serve(h, Act, w, r).reached <==> Allows(l, StoreOf(w, id), r.client, r.clock(id))
    ensures Limiter(id, l) in Serve(h, Act, w, r).ran
    decreases h
  {
    if h.plugin.id == id {
      OthersPass(h.next, Act(h.plugin, w, r).0, r, id);
    } else {
      ReachedIffAllowed(h.next, w, r, id, l);
    }
  }

  /** When `client` asked, by the limiter's clock. */
  function Asked(es: seq<Event>, id: nat, client: string): seq<int> {
    if es == [] then []
    else
      var front := Asked(es[..|es| - 1], id, client);
      match es[|es| - 1]
      case Through(r) => if r.client == client then front + [r.clock(id)] else front
      case Swept(_, _, _) => front
  }

  ghost predicate AllAgree(h: Handler<Plugin>, es: seq<Event>, id: nat) {
    forall i :: 0 <= i < |es| && es[i].Through? ==> OthersAgree(h, id, es[i].request)
  }

  lemma {:induction false} RequestAppend(l: Limits, es: seq<RateLimiter.Event>, c: string, t: int, client: string)
    ensures StoreAfter(l, es + [Request(c, t)]) == AfterRequest(l, StoreAfter(l, es), c, t)
    ensures Arrivals(es + [Request(c, t)], client) == Arrivals(es, client) + if c == client then [t] else []
    ensures Admissions(l, es + [Request(c, t)], client) == Admissions(l, es, client) +
              if c == client && Allows(l, StoreAfter(l, es), c, t) then [t] else []
  {
    assert (es + [Request(c, t)])[..|es|] == es;
  }

  /** What the proxy has seen of the client is what the limiter admitted of it, and the limiter
      has seen all the client's requests. */
  ghost predicate Exact(h: Handler<Plugin>, es: seq<Event>, id: nat, l: Limits, client: string) {
    var seen := Seen(h, es, id, l);
    && StoreOf(After(h, es), id) == StoreAfter(l, seen)
    && Reached(h, es, id, client) == Admissions(l, seen, client)
    && Arrivals(seen, client) == Asked(es, id, client)
  }

  lemma {:induction false} ThroughIsExact(h: Handler<Plugin>, es: seq<Event>, r: Incoming, id: nat, l: Limits,
      client: string)
    requires HasLimiter(h, id, l) && OthersAgree(h, id, r) && Exact(h, es, id, l, client)
    ensures Exact(h, es + [Through(r)], id, l, client)
  {
    assert (es + [Through(r)])[..|es|] == es;
    var w, seen := After(h, es), Seen(h, es, id, l);
    LimiterInChain(h, w, r, id, l);
    ReachedIffAllowed(h, w, r, id, l);
    RequestAppend(l, seen, r.client, r.clock(id), client);
    assert Seen(h, es + [Through(r)], id, l) == seen + [Request(r.client, r.clock(id))];
  }

  lemma {:induction false} SweptIsExact(h: Handler<Plugin>, es: seq<Event>, e: Event, id: nat, l: Limits,
      client: string)
    requires e.Swept? && (e.id == id ==> e.limits == l) && Exact(h, es, id, l, client)
    ensures Exact(h, es + [e], id, l, client)
  {
    assert (es + [e])[..|es|] == es;
    var seen := Seen(h, es, id, l);
    SweepAppend(l, seen, e.time, client);
    assert (seen + [Sweep(e.time)])[..|seen|] == seen;
    assert Seen(h, es + [e], id, l) == if e.id == id then seen + [Sweep(e.time)] else seen;
  }

  lemma {:induction false} RunIsExact(h: Handler<Plugin>, es: seq<Event>, id: nat, l: Limits, client: string)
    requires HasLimiter(h, id, l) && SweepsMatch(es, id, l) && AllAgree(h, es, id)
    ensures Exact(h, es, id, l, client)
  {
    if es != [] {
      var n := |es| - 1;
      assert es == es[..n] + [es[n]];
      RunIsExact(h, es[..n], id, l, client);
      match es[n]
      case Through(r) => ThroughIsExact(h, es[..n], r, id, l, client);
      case Swept(_, _, _) => SweptIsExact(h, es[..n], es[n], id, l, client);
    }
  }

  /** Composed exactness: if every other plugin calls on, the requests of a client that reach the
      proxy are exactly those the reference policy admits of all it made. */
  lemma {:induction false} ProxySeesThePolicy(h: Handler<Plugin>, es: seq<Event>, id: nat, l: Limits, client: string)
    requires l.Valid() && HasLimiter(h, id, l) && SweepsMatch(es, id, l) && AllAgree(h, es, id)
    requires Chronological(Seen(h, es, id, l))
    ensures Reached(h, es, id, client) == Greedy(Asked(es, id, client), l.perWindow, l.window)
  {
    RunIsExact(h, es, id, l, client);
    RunRefinesGreedy(l, Seen(h, es, id, l), client);
  }
}
