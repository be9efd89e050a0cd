/** Overlapping requests in one route's plugin chain that has a limiter at position `at`: every
    request walks the chain at its own pace, and inside the limiter takes its lookup, create and
    check steps among those of all others (app/plugins/plugin.go:68-84,
    app/plugins/ratelimiting.go:146-221). */
module ChainInterleaving {
  import opened SlidingWindow
  import opened RateLimiter
  import opened LimiterInterleaving

  /** `length` plugins, the limiter being number `at`. */
  datatype Chain = Chain(length: nat, at: nat, limits: Limits) {
    predicate Valid() { at < length && limits.Valid() }
  }

  /** A request before the limiter, inside it as handler `handler`, behind it, at the proxy, answered
      by a plugin behind the limiter, or answered by the limiter or before it.  `admitted` is when
      the limiter let it through. */
  datatype Walk =
    | Before(client: string, next: nat)
    | Inside(client: string, handler: nat)
    | Behind(client: string, next: nat, admitted: int)
    | Reached(client: string, admitted: int)
    | Stopped(client: string, admitted: int)
    | Refused

  datatype World = World(limiter: State, walks: seq<Walk>)

  /** Requests are numbered by arrival.  A plugin other than this limiter, which may be another
      limiter, calls on or answers as it likes. */
  datatype Happening =
    | Arrive(client: string)
    | Plugin(request: nat, callsOn: bool)
    | Look(request: nat)
    | Make(request: nat)
    | Decide(request: nat)
    | Clock(to: int)
    | Sweep(client: string, sweepTime: int)

  function Init(start: int): World {
    World(LimiterInterleaving.Init(start), [])
  }

  /** Where a request stands when it is about to enter position `next` behind the limiter. */
  function Onward(ch: Chain, client: string, next: nat, admitted: int): Walk {
    if next >= ch.length then Reached(client, admitted) else Behind(client, next, admitted)
  }

  predicate IsInside(w: World, r: nat) {
    r < |w.walks| && w.walks[r].Inside?
  }

  /** The limiter's own step in this happening; a clock reading that changes nothing if none. */
  function LimiterStep(ch: Chain, w: World, e: Happening): LimiterInterleaving.Event {
    match e
    case Clock(t) => Tick(t)
    case Sweep(c, t) => Evict(c, t)
    case Look(r) =>
      if r < |w.walks| && w.walks[r].Before? && w.walks[r].next == ch.at then Lookup(w.walks[r].client)
      else Tick(w.limiter.now)
    case Make(r) => if IsInside(w, r) then Create(w.walks[r].handler) else Tick(w.limiter.now)
    case Decide(r) => if IsInside(w, r) then Check(w.walks[r].handler) else Tick(w.limiter.now)
    case _ => Tick(w.limiter.now)
  }

  /** Whether the check of handler h admits it now. */
  predicate Lets(l: Limits, s: State, h: nat) {
    && h < |s.handlers| && s.handlers[h].Holding? && s.handlers[h].log < |s.logs|
    && s.handlers[h].log < |s.histories|
    && Admits(s.logs[s.handlers[h].log], s.now, l.perWindow, l.window)
  }

  function WalkStep(ch: Chain, w: World, e: Happening): seq<Walk> {
    match e
    case Arrive(c) => w.walks + [Before(c, 0)]
    case Plugin(r, on) =>
      if r >= |w.walks| then w.walks
      else
        var x := w.walks[r];
        (match x
         case Before(c, k) => if k == ch.at then w.walks else w.walks[r := if on then Before(c, k + 1) else Refused]
         case Behind(c, k, t) => w.walks[r := if on then Onward(ch, c, k + 1, t) else Stopped(c, t)]
         case _ => w.walks)
    case Look(r) =>
      if r < |w.walks| && w.walks[r].Before? && w.walks[r].next == ch.at
      then w.walks[r := Inside(w.walks[r].client, |w.limiter.handlers|)] else w.walks
    case Decide(r) =>
      if IsInside(w, r) && w.walks[r].handler < |w.limiter.handlers| &&
         w.limiter.handlers[w.walks[r].handler].Holding?
      then w.walks[r := if Lets(ch.limits, w.limiter, w.walks[r].handler)
                        then Onward(ch, w.walks[r].client, ch.at + 1, w.limiter.now) else Refused]
      else w.walks
    case _ => w.walks
  }

  function Step(ch: Chain, w: World, e: Happening): World {
    World(LimiterInterleaving.Step(ch.limits, w.limiter, LimiterStep(ch, w, e)), WalkStep(ch, w, e))
  }

  function Run(ch: Chain, w: World, es: seq<Happening>): World {
    if es == [] then w else Step(ch, Run(ch, w, es[..|es| - 1]), es[|es| - 1])
  }

  /** No sweep removes a log that a request inside the limiter holds. */
  ghost predicate Undisturbed(ch: Chain, w: World, es: seq<Happening>) {
    es == [] ||
    var before := Run(ch, w, es[..|es| - 1]);
    && Undisturbed(ch, w, es[..|es| - 1])
    && !Disturbs(ch.limits, before.limiter, LimiterStep(ch, before, es[|es| - 1]))
  }

  /** The request was let through by the limiter at a time in [lo, lo + window]. */
  predicate LetThrough(x: Walk, client: string, lo: int, window: int) {
    (x.Behind? || x.Reached? || x.Stopped?) && x.client == client && lo <= x.admitted <= lo + window
  }

  function LetThroughCount(xs: seq<Walk>, client: string, lo: int, window: int): nat {
    if xs == [] then 0
    else LetThroughCount(xs[..|xs| - 1], client, lo, window)
         + if LetThrough(xs[|xs| - 1], client, lo, window) then 1 else 0
  }

  /** The client's requests that have reached the proxy, counted by admission time. */
  function ReachedCount(xs: seq<Walk>, client: string, lo: int, window: int): nat {
    if xs == [] then 0
    else
      var x := xs[|xs| - 1];
      ReachedCount(xs[..|xs| - 1], client, lo, window)
      + if x.Reached? && LetThrough(x, client, lo, window) then 1 else 0
  }

  lemma {:induction false} ReachedIsLetThrough(xs: seq<Walk>, client: string, lo: int, window: int)
    ensures ReachedCount(xs, client, lo, window) <= LetThroughCount(xs, client, lo, window)
  {
    if xs != [] { ReachedIsLetThrough(xs[..|xs| - 1], client, lo, window); }
  }

  lemma {:induction false} CountUpdate(xs: seq<Walk>, r: nat, x: Walk, client: string, lo: int, window: int)
    requires r < |xs|
    ensures LetThroughCount(xs[r := x], client, lo, window) + (if LetThrough(xs[r], client, lo, window) then 1 else 0)
         == LetThroughCount(xs, client, lo, window) + (if LetThrough(x, client, lo, window) then 1 else 0)
  {
    var n := |xs| - 1;
    if r == n {
      assert xs[r := x][..n] == xs[..n];
    } else {
      assert xs[r := x][..n] == xs[..n][r := x];
      CountUpdate(xs[..n], r, x, client, lo, window);
    }
  }

  /** A request inside the limiter and its handler are of the same client. */
  ghost predicate Matched(w: World) {
    forall r :: 0 <= r < |w.walks| && w.walks[r].Inside? ==>
      && w.walks[r].handler < |w.limiter.handlers|
      && var p := w.limiter.handlers[w.walks[r].handler];
         p.Done? || p.client == w.walks[r].client
  }

  lemma {:induction false} HandlersKeepClients(l: Limits, s: State, e: LimiterInterleaving.Event)
    ensures var s' := LimiterInterleaving.Step(l, s, e);
            && |s.handlers| <= |s'.handlers|
            && (forall h :: 0 <= h < |s.handlers| ==>
                  s'.handlers[h].Done? || (!s.handlers[h].Done? && s'.handlers[h].client == s.handlers[h].client))
  {}

  lemma {:induction false} StepKeepsMatched(ch: Chain, w: World, e: Happening)
    requires Matched(w)
    ensures Matched(Step(ch, w, e))
  {
    HandlersKeepClients(ch.limits, w.limiter, LimiterStep(ch, w, e));
  }

  lemma {:induction false} OnlyChecksAdmit(l: Limits, s: State, e: LimiterInterleaving.Event, client: string)
    ensures AdmittedTo(LimiterInterleaving.Step(l, s, e), client) ==
            AdmittedTo(s, client)
            + if e.Check? && Lets(l, s, e.handler) && s.handlers[e.handler].client == client then [s.now] else []
  {}

  /** What a step of the limiter adds to a client's admissions. */
  lemma {:induction false} AdmissionsGrow(l: Limits, s: State, e: LimiterInterleaving.Event, client: string, lo: int)
    ensures CountFrom(AdmittedTo(LimiterInterleaving.Step(l, s, e), client), lo, l.window) ==
            CountFrom(AdmittedTo(s, client), lo, l.window)
            + if e.Check? && Lets(l, s, e.handler) && s.handlers[e.handler].client == client
                 && lo <= s.now <= lo + l.window then 1 else 0
  {
    OnlyChecksAdmit(l, s, e, client);
    PruneAppend(AdmittedTo(s, client), s.now, lo, l.window);
  }

  /** A step moves at most one request of the list, or adds one before the limiter. */
  lemma {:induction false} WalksMove(ch: Chain, w: World, e: Happening, client: string, lo: int)
    ensures LetThroughCount(WalkStep(ch, w, e), client, lo, ch.limits.window)
         == LetThroughCount(w.walks, client, lo, ch.limits.window)
            + if e.Decide? && IsInside(w, e.request) && Lets(ch.limits, w.limiter, w.walks[e.request].handler)
                 && w.walks[e.request].client == client && lo <= w.limiter.now <= lo + ch.limits.window then 1 else 0
  {
    var walks := WalkStep(ch, w, e);
    if e.Arrive? {
      assert walks[..|w.walks|] == w.walks;
    } else if !e.Clock? && !e.Sweep? && e.request < |w.walks| {
      assert walks == w.walks[e.request := walks[e.request]];
      CountUpdate(w.walks, e.request, walks[e.request], client, lo, ch.limits.window);
    }
  }

  /** The limiter admits a request of the client exactly when one leaves it for what is behind. */
  lemma {:induction false} SameAdmission(ch: Chain, w: World, e: Happening, client: string)
    requires Matched(w)
    ensures var x, l := LimiterStep(ch, w, e), w.limiter;
            (x.Check? && Lets(ch.limits, l, x.handler) && l.handlers[x.handler].client == client) <==>
            (e.Decide? && IsInside(w, e.request) && Lets(ch.limits, l, w.walks[e.request].handler)
             && w.walks[e.request].client == client)
  {}

  lemma {:induction false} StepKeepsCount(ch: Chain, w: World, e: Happening, client: string, lo: int)
    requires Matched(w)
    requires LetThroughCount(w.walks, client, lo, ch.limits.window)
          == CountFrom(AdmittedTo(w.limiter, client), lo, ch.limits.window)
    ensures LetThroughCount(Step(ch, w, e).walks, client, lo, ch.limits.window)
         == CountFrom(AdmittedTo(Step(ch, w, e).limiter, client), lo, ch.limits.window)
  {
    SameAdmission(ch, w, e, client);
    AdmissionsGrow(ch.limits, w.limiter, LimiterStep(ch, w, e), client, lo);
    WalksMove(ch, w, e, client, lo);
    assert Step(ch, w, e).walks == WalkStep(ch, w, e);
  }

  lemma {:induction false} RunKeeps(ch: Chain, start: int, es: seq<Happening>, client: string, lo: int)
    requires ch.Valid() && Undisturbed(ch, Init(start), es)
    ensures var w := Run(ch, Init(start), es);
            && Inv(ch.limits, w.limiter) && Shared(ch.limits, w.limiter) && Matched(w)
            && LetThroughCount(w.walks, client, lo, ch.limits.window)
                 == CountFrom(AdmittedTo(w.limiter, client), lo, ch.limits.window)
  {
    if es == [] {
      InitShared(ch.limits, start);
    } else {
      var front := es[..|es| - 1];
      RunKeeps(ch, start, front, client, lo);
      var w, e := Run(ch, Init(start), front), es[|es| - 1];
      StepKeepsInv(ch.limits, w.limiter, LimiterStep(ch, w, e));
      StepKeepsShared(ch.limits, w.limiter, LimiterStep(ch, w, e));
      StepKeepsMatched(ch, w, e);
      StepKeepsCount(ch, w, e, client, lo);
    }
  }

  /** No request is still behind the limiter or was stopped there. */
  ghost predicate AllArrived(xs: seq<Walk>) {
    forall r :: 0 <= r < |xs| ==> !xs[r].Behind? && !xs[r].Stopped?
  }

  lemma {:induction false} ArrivedIsLetThrough(xs: seq<Walk>, client: string, lo: int, window: int)
    requires AllArrived(xs)
    ensures ReachedCount(xs, client, lo, window) == LetThroughCount(xs, client, lo, window)
  {
    if xs != [] { ArrivedIsLetThrough(xs[..|xs| - 1], client, lo, window); }
  }

  /** Composed result under overlap: whatever the other plugins decide and however requests
      interleave, as long as no sweep removes a log in use the proxy is reached at most
      `perWindow` times per client in every closed window of admission times; and once every
      request let through has arrived, exactly as often as the reference policy admits, on the
      times at which the client's requests were decided. */
  lemma {:induction false} OverlappingRequestsAreLimited(ch: Chain, start: int, es: seq<Happening>, client: string,
      lo: int)
    requires ch.Valid() && Undisturbed(ch, Init(start), es)
    ensures var w := Run(ch, Init(start), es);
            var reached := ReachedCount(w.walks, client, lo, ch.limits.window);
            var policy := Greedy(AskedBy(w.limiter, client), ch.limits.perWindow, ch.limits.window);
            && reached <= ch.limits.perWindow
            && reached <= CountFrom(policy, lo, ch.limits.window)
            && (AllArrived(w.walks) ==> reached == CountFrom(policy, lo, ch.limits.window))
  {
    var w := Run(ch, Init(start), es);
    RunKeeps(ch, start, es, client, lo);
    ReachedIsLetThrough(w.walks, client, lo, ch.limits.window);
    ClientOkWithinLimit(ch.limits, w.limiter, client);
    if AllArrived(w.walks) { ArrivedIsLetThrough(w.walks, client, lo, ch.limits.window); }
  }

  // ---------- a request that nothing interrupts ----------

  lemma {:induction false} RunAppend(ch: Chain, w: World, es: seq<Happening>, e: Happening)
    ensures Run(ch, w, es + [e]) == Step(ch, Run(ch, w, es), e)
  {
    assert (es + [e])[..|es|] == es;
  }

  lemma {:induction false} RunConcat(ch: Chain, w: World, a: seq<Happening>, b: seq<Happening>)
    ensures Run(ch, w, a + b) == Run(ch, Run(ch, w, a), b)
  {
    if b == [] {
      assert a + b == a;
    } else {
      var n := |b| - 1;
      var front, e := b[..n], b[n];
      assert b == front + [e] && a + b == a + front + [e];
      RunConcat(ch, w, a, front);
      RunAppend(ch, w, a + front, e);
      RunAppend(ch, Run(ch, w, a), front, e);
    }
  }

  lemma {:induction false} RunOne(ch: Chain, w: World, e: Happening)
    ensures Run(ch, w, [e]) == Step(ch, w, e)
  {
    assert [e][..0] == [];
  }

  /** n plugins call on for request r. */
  function CallOn(r: nat, n: nat): seq<Happening> {
    if n == 0 then [] else CallOn(r, n - 1) + [Plugin(r, true)]
  }

  /** What one plugin that calls on does to request r. */
  lemma {:induction false} PluginCallsOn(ch: Chain, w: World, r: nat)
    requires r < |w.walks|
    ensures var w' := Step(ch, w, Plugin(r, true));
            w' == World(w.limiter, w.walks[r := match w.walks[r]
                                                case Before(c, k) => Before(c, if k == ch.at then k else k + 1)
                                                case Behind(c, k, t) => Onward(ch, c, k + 1, t)
                                                case x => x])
  {
    assert LimiterInterleaving.Step(ch.limits, w.limiter, Tick(w.limiter.now)) == w.limiter;
  }

  lemma {:induction false} CallOnRuns(ch: Chain, w: World, r: nat, n: nat)
    requires n > 0
    ensures Run(ch, w, CallOn(r, n)) == Step(ch, Run(ch, w, CallOn(r, n - 1)), Plugin(r, true))
  {
    RunAppend(ch, w, CallOn(r, n - 1), Plugin(r, true));
  }

  lemma {:induction false} WalkUp(ch: Chain, w: World, r: nat, c: string, n: nat)
    requires r < |w.walks| && w.walks[r] == Before(c, 0) && n <= ch.at
    ensures Run(ch, w, CallOn(r, n)) == World(w.limiter, w.walks[r := Before(c, n)])
  {
    if n > 0 {
      var w1 := World(w.limiter, w.walks[r := Before(c, n - 1)]);
      assert Run(ch, w, CallOn(r, n - 1)) == w1 by { WalkUp(ch, w, r, c, n - 1); }
      CallOnRuns(ch, w, r, n);
      PluginCallsOn(ch, w1, r);
      assert w1.walks[r := Before(c, n)] == w.walks[r := Before(c, n)];
    }
  }

  lemma {:induction false} WalkOn(ch: Chain, w: World, r: nat, c: string, t: int, n: nat)
    requires r < |w.walks| && w.walks[r] == Onward(ch, c, ch.at + 1, t) && ch.at + 1 + n <= ch.length
    ensures Run(ch, w, CallOn(r, n)) == World(w.limiter, w.walks[r := Onward(ch, c, ch.at + 1 + n, t)])
  {
    if n > 0 {
      var w1 := World(w.limiter, w.walks[r := Onward(ch, c, ch.at + n, t)]);
      assert Run(ch, w, CallOn(r, n - 1)) == w1 by { WalkOn(ch, w, r, c, t, n - 1); }
      CallOnRuns(ch, w, r, n);
      PluginCallsOn(ch, w1, r);
      var x := Onward(ch, c, ch.at + 1 + n, t);
      assert w1.walks[r := x] == w.walks[r := x];
    }
  }

  lemma {:induction false} RefusedRests(ch: Chain, w: World, r: nat, n: nat)
    requires r < |w.walks| && w.walks[r].Refused?
    ensures Run(ch, w, CallOn(r, n)) == w
  {
    if n > 0 {
      RefusedRests(ch, w, r, n - 1);
      CallOnRuns(ch, w, r, n);
      PluginCallsOn(ch, w, r);
    }
  }

  lemma {:induction false} LimiterStepsRun(ch: Chain, w: World, r: nat)
    ensures Run(ch, w, [Look(r)] + [Make(r)] + [Decide(r)]) ==
            Step(ch, Step(ch, Step(ch, w, Look(r)), Make(r)), Decide(r))
  {
    RunAppend(ch, w, [Look(r)] + [Make(r)], Decide(r));
    RunAppend(ch, w, [Look(r)], Make(r));
    RunOne(ch, w, Look(r));
  }

  /** Lookup and creation put request r inside the limiter, with a log in hand. */
  lemma {:induction false} EntersLimiter(ch: Chain, w: World, r: nat, c: string)
    requires r < |w.walks| && w.walks[r] == Before(c, ch.at)
    ensures var h := |w.limiter.handlers|;
            var w2 := Step(ch, Step(ch, w, Look(r)), Make(r));
            && w2.walks == w.walks[r := Inside(c, h)]
            && w2.limiter == LimiterInterleaving.Step(ch.limits,
                               LimiterInterleaving.Step(ch.limits, w.limiter, Lookup(c)), Create(h))
  {
    var w1 := Step(ch, w, Look(r));
    assert w1.walks == w.walks[r := Inside(c, |w.limiter.handlers|)];
    assert w1.limiter == LimiterInterleaving.Step(ch.limits, w.limiter, Lookup(c));
  }

  lemma {:induction false} LeavesLimiter(ch: Chain, w: World, r: nat, c: string, h: nat)
    requires r < |w.walks| && w.walks[r] == Inside(c, h)
    requires h < |w.limiter.handlers| && w.limiter.handlers[h].Holding?
    ensures var w' := Step(ch, w, Decide(r));
            && w'.limiter == LimiterInterleaving.Step(ch.limits, w.limiter, Check(h))
            && w'.walks == w.walks[r := if Lets(ch.limits, w.limiter, h)
                                        then Onward(ch, c, ch.at + 1, w.limiter.now) else Refused]
  {}

  /** Request r at the limiter, and its three steps there. */
  lemma {:induction false} LimiterDecides(ch: Chain, w: World, r: nat, c: string)
    requires ch.Valid() && Inv(ch.limits, w.limiter) && r < |w.walks| && w.walks[r] == Before(c, ch.at)
    ensures var w' := Run(ch, w, [Look(r)] + [Make(r)] + [Decide(r)]);
            && w'.limiter == LimiterInterleaving.Run(ch.limits, w.limiter, WholeRequest(w.limiter, c))
            && w'.walks == w.walks[r := if Allows(ch.limits, Contents(w.limiter), c, w.limiter.now)
                                        then Onward(ch, c, ch.at + 1, w.limiter.now) else Refused]
  {
    var h := |w.limiter.handlers|;
    LimiterStepsRun(ch, w, r);
    EntersLimiter(ch, w, r, c);
    var w2 := Step(ch, Step(ch, w, Look(r)), Make(r));
    LogInHand(ch.limits, w.limiter, c);
    LeavesLimiter(ch, w2, r, c, h);
    WholeRequestRuns(ch.limits, w.limiter, c);
    assert Lets(ch.limits, w2.limiter, h) <==> Allows(ch.limits, Contents(w.limiter), c, w.limiter.now);
    assert w.walks[r := Inside(c, h)][r := Refused] == w.walks[r := Refused];
  }

  lemma {:induction false} EndOfWalk(ch: Chain, w: World, r: nat, c: string, t: int, allowed: bool)
    requires ch.Valid() && r < |w.walks| && w.walks[r] == if allowed then Onward(ch, c, ch.at + 1, t) else Refused
    ensures Run(ch, w, CallOn(r, ch.length - ch.at - 1)).walks ==
            w.walks[r := if allowed then Reached(c, t) else Refused]
  {
    var n := ch.length - ch.at - 1;
    if allowed {
      WalkOn(ch, w, r, c, t, n);
    } else {
      RefusedRests(ch, w, r, n);
    }
  }

  /** From the limiter on. */
  lemma {:induction false} LoneTail(ch: Chain, w: World, r: nat, c: string)
    requires ch.Valid() && Inv(ch.limits, w.limiter) && r < |w.walks| && w.walks[r] == Before(c, ch.at)
    ensures var es := [Look(r)] + [Make(r)] + [Decide(r)] + CallOn(r, ch.length - ch.at - 1);
            Run(ch, w, es).walks ==
            w.walks[r := if Allows(ch.limits, Contents(w.limiter), c, w.limiter.now)
                         then Reached(c, w.limiter.now) else Refused]
  {
    var mid, t := [Look(r)] + [Make(r)] + [Decide(r)], w.limiter.now;
    var allowed := Allows(ch.limits, Contents(w.limiter), c, t);
    RunConcat(ch, w, mid, CallOn(r, ch.length - ch.at - 1));
    var w' := Run(ch, w, mid);
    assert w'.walks == w.walks[r := if allowed then Onward(ch, c, ch.at + 1, t) else Refused] by {
      LimiterDecides(ch, w, r, c);
    }
    EndOfWalk(ch, w', r, c, t, allowed);
    var x := if allowed then Reached(c, t) else Refused;
    assert w'.walks[r := x] == w.walks[r := x];
  }

  /** A plugin in front of the limiter that answers keeps the request from it, and one behind it from
      the proxy, however many called on before. */
  lemma {:induction false} PluginStops(ch: Chain, w: World, r: nat, c: string, k: nat)
    requires ch.Valid() && r < |w.walks|
    ensures w.walks[r] == Before(c, 0) && k < ch.at ==>
              Run(ch, w, CallOn(r, k) + [Plugin(r, false)]) == World(w.limiter, w.walks[r := Refused])
    ensures w.walks[r] == Before(c, ch.at) && k < ch.length - ch.at - 1 && Inv(ch.limits, w.limiter)
            && Allows(ch.limits, Contents(w.limiter), c, w.limiter.now) ==>
              Run(ch, w, [Look(r)] + [Make(r)] + [Decide(r)] + (CallOn(r, k) + [Plugin(r, false)])).walks
              == w.walks[r := Stopped(c, w.limiter.now)]
  {
    var es := CallOn(r, k) + [Plugin(r, false)];
    if w.walks[r] == Before(c, 0) && k < ch.at {
      RunConcat(ch, w, CallOn(r, k), [Plugin(r, false)]);
      WalkUp(ch, w, r, c, k);
      StopOne(ch, Run(ch, w, CallOn(r, k)), r);
    }
    if w.walks[r] == Before(c, ch.at) && k < ch.length - ch.at - 1 && Inv(ch.limits, w.limiter)
       && Allows(ch.limits, Contents(w.limiter), c, w.limiter.now)
    {
      RunConcat(ch, w, [Look(r)] + [Make(r)] + [Decide(r)], es);
      LimiterDecides(ch, w, r, c);
      var w' := Run(ch, w, [Look(r)] + [Make(r)] + [Decide(r)]);
      StopBehind(ch, w', r, c, w.limiter.now, k);
    }
  }

  lemma {:induction false} StopBehind(ch: Chain, w: World, r: nat, c: string, t: int, k: nat)
    requires r < |w.walks| && k < ch.length - ch.at - 1 && w.walks[r] == Onward(ch, c, ch.at + 1, t)
    ensures Run(ch, w, CallOn(r, k) + [Plugin(r, false)]).walks == w.walks[r := Stopped(c, t)]
  {
    RunConcat(ch, w, CallOn(r, k), [Plugin(r, false)]);
    WalkOn(ch, w, r, c, t, k);
    StopOne(ch, Run(ch, w, CallOn(r, k)), r);
  }

  lemma {:induction false} StopOne(ch: Chain, w: World, r: nat)
    requires r < |w.walks|
    ensures w.walks[r].Before? && w.walks[r].next != ch.at ==>
              Run(ch, w, [Plugin(r, false)]) == World(w.limiter, w.walks[r := Refused])
    ensures w.walks[r].Behind? ==>
              Run(ch, w, [Plugin(r, false)]).walks == w.walks[r := Stopped(w.walks[r].client, w.walks[r].admitted)]
  {
    RunOne(ch, w, Plugin(r, false));
    assert LimiterInterleaving.Step(ch.limits, w.limiter, Tick(w.limiter.now)) == w.limiter;
  }

  /** A whole request that nothing interrupts, in a chain whose other plugins call on, reaches the
      proxy if the limiter's contents allow it, and is refused otherwise. */
  lemma {:induction false} LoneRequestReachesIff(ch: Chain, w: World, c: string)
    requires ch.Valid() && Inv(ch.limits, w.limiter)
    ensures var r := |w.walks|;
            var es := [Look(r)] + [Make(r)] + [Decide(r)] + CallOn(r, ch.length - ch.at - 1);
            Run(ch, w, [Arrive(c)] + CallOn(r, ch.at) + es).walks == w.walks +
              [if Allows(ch.limits, Contents(w.limiter), c, w.limiter.now) then Reached(c, w.limiter.now) else Refused]
  {
    var r := |w.walks|;
    var up := [Arrive(c)] + CallOn(r, ch.at);
    var es := [Look(r)] + [Make(r)] + [Decide(r)] + CallOn(r, ch.length - ch.at - 1);
    var w2 := World(w.limiter, w.walks + [Before(c, ch.at)]);
    assert Run(ch, w, up) == w2 by { ArrivesAtLimiter(ch, w, c); }
    RunConcat(ch, w, up, es);
    LoneTail(ch, w2, r, c);
  }

  lemma {:induction false} ArrivesAtLimiter(ch: Chain, w: World, c: string)
    ensures Run(ch, w, [Arrive(c)] + CallOn(|w.walks|, ch.at)) == World(w.limiter, w.walks + [Before(c, ch.at)])
  {
    var r, w1 := |w.walks|, World(w.limiter, w.walks + [Before(c, 0)]);
    RunConcat(ch, w, [Arrive(c)], CallOn(r, ch.at));
    assert Run(ch, w, [Arrive(c)]) == w1 by { RunOne(ch, w, Arrive(c)); }
    WalkUp(ch, w1, r, c, ch.at);
    assert w1.walks[r := Before(c, ch.at)] == w.walks + [Before(c, ch.at)];
  }

  // ---------- the limiter's own interleavings all occur ----------

  /** A chain of the limiter alone. */
  function Only(l: Limits): Chain { Chain(1, 0, l) }

  /** The happenings that make the limiter take this step; request r is the next to arrive. */
  function Embed(e: LimiterInterleaving.Event, r: nat): seq<Happening> {
    match e
    case Tick(t) => [Clock(t)]
    case Evict(c, t) => [Happening.Sweep(c, t)]
    case Lookup(c) => [Arrive(c)] + [Look(r)]
    case Create(h) => [Make(h)]
    case Check(h) => [Decide(h)]
  }

  function EmbedAll(l: Limits, s: State, es: seq<LimiterInterleaving.Event>): seq<Happening> {
    if es == [] then []
    else
      var front := es[..|es| - 1];
      EmbedAll(l, s, front) + Embed(es[|es| - 1], |LimiterInterleaving.Run(l, s, front).handlers|)
  }

  /** Request r is inside the limiter as handler r until its decision. */
  ghost predicate InStep(w: World) {
    && |w.walks| == |w.limiter.handlers|
    && forall r :: 0 <= r < |w.walks| ==>
         && !w.walks[r].Before? && !w.walks[r].Behind? && !w.walks[r].Stopped?
         && (w.walks[r].Inside? <==> !w.limiter.handlers[r].Done?)
         && (w.walks[r].Inside? ==>
               w.walks[r].handler == r && w.walks[r].client == w.limiter.handlers[r].client)
  }

  lemma {:induction false} EmbedLookup(l: Limits, w: World, c: string)
    requires InStep(w)
    ensures var w' := Run(Only(l), w, [Arrive(c)] + [Look(|w.walks|)]);
            w'.limiter == LimiterInterleaving.Step(l, w.limiter, Lookup(c)) && InStep(w')
  {
    var ch, r := Only(l), |w.walks|;
    RunConcat(ch, w, [Arrive(c)], [Look(r)]);
    RunOne(ch, w, Arrive(c));
    var w1 := Step(ch, w, Arrive(c));
    assert w1 == World(w.limiter, w.walks + [Before(c, 0)]);
    RunOne(ch, w1, Look(r));
    assert Step(ch, w1, Look(r)).walks == w.walks + [Inside(c, r)];
  }

  lemma {:induction false} EmbedCreate(l: Limits, w: World, h: nat)
    requires InStep(w)
    ensures var w' := Step(Only(l), w, Make(h));
            w'.limiter == LimiterInterleaving.Step(l, w.limiter, Create(h)) && InStep(w')
  {
    if !IsInside(w, h) {
      assert LimiterInterleaving.Step(l, w.limiter, Create(h)) == w.limiter;
      assert LimiterInterleaving.Step(l, w.limiter, Tick(w.limiter.now)) == w.limiter;
    }
  }

  lemma {:induction false} EmbedCheck(l: Limits, w: World, h: nat)
    requires InStep(w)
    requires forall r :: 0 <= r < |w.limiter.handlers| && w.limiter.handlers[r].Holding? ==>
               w.limiter.handlers[r].log < |w.limiter.logs| == |w.limiter.histories|
    ensures var w' := Step(Only(l), w, Decide(h));
            w'.limiter == LimiterInterleaving.Step(l, w.limiter, Check(h)) && InStep(w')
  {
    var s := w.limiter;
    if IsInside(w, h) && s.handlers[h].Holding? {
      assert AfterCheck(l, s, h).handlers == s.handlers[h := Done];
      assert WalkStep(Only(l), w, Decide(h)) ==
             w.walks[h := if Lets(l, s, h) then Reached(w.walks[h].client, s.now) else Refused];
    } else {
      assert LimiterInterleaving.Step(l, s, Check(h)) == s && LimiterInterleaving.Step(l, s, Tick(s.now)) == s;
      assert WalkStep(Only(l), w, Decide(h)) == w.walks;
    }
  }

  lemma {:induction false} EmbedStep(l: Limits, w: World, e: LimiterInterleaving.Event)
    requires InStep(w) && Inv(l, w.limiter)
    ensures var w' := Run(Only(l), w, Embed(e, |w.walks|));
            w'.limiter == LimiterInterleaving.Step(l, w.limiter, e) && InStep(w')
  {
    var ch := Only(l);
    match e
    case Lookup(c) => EmbedLookup(l, w, c);
    case Tick(t) => RunOne(ch, w, Clock(t));
    case Evict(c, t) => RunOne(ch, w, Happening.Sweep(c, t));
    case Create(h) =>
      RunOne(ch, w, Make(h));
      EmbedCreate(l, w, h);
    case Check(h) =>
      RunOne(ch, w, Decide(h));
      EmbedCheck(l, w, h);
  }

  /** Every interleaving of the limiter's steps is one of requests in the chain. */
  lemma {:induction false} EveryLimiterRunOccurs(l: Limits, start: int, es: seq<LimiterInterleaving.Event>)
    requires l.Valid()
    ensures var w := Run(Only(l), Init(start), EmbedAll(l, LimiterInterleaving.Init(start), es));
            w.limiter == LimiterInterleaving.Run(l, LimiterInterleaving.Init(start), es) && InStep(w)
  {
    var s0 := LimiterInterleaving.Init(start);
    if es != [] {
      var front, e := es[..|es| - 1], es[|es| - 1];
      EveryLimiterRunOccurs(l, start, front);
      var s := LimiterInterleaving.Run(l, s0, front);
      EveryRunKeepsInv(l, start, front);
      RunConcat(Only(l), Init(start), EmbedAll(l, s0, front), Embed(e, |s.handlers|));
      EmbedStep(l, Run(Only(l), Init(start), EmbedAll(l, s0, front)), e);
    }
  }

  lemma {:induction false} EveryRunKeepsInv(l: Limits, start: int, es: seq<LimiterInterleaving.Event>)
    requires l.Valid()
    ensures Inv(l, LimiterInterleaving.Run(l, LimiterInterleaving.Init(start), es))
  {
    InitShared(l, start);
    if es != [] {
      EveryRunKeepsInv(l, start, es[..|es| - 1]);
      StepKeepsInv(l, LimiterInterleaving.Run(l, LimiterInterleaving.Init(start), es[..|es| - 1]), es[|es| - 1]);
    }
  }

  lemma {:induction false} CountsAgree(ch: Chain, start: int, es: seq<Happening>, client: string, lo: int)
    ensures var w := Run(ch, Init(start), es);
            && Matched(w)
            && LetThroughCount(w.walks, client, lo, ch.limits.window)
                 == CountFrom(AdmittedTo(w.limiter, client), lo, ch.limits.window)
  {
    if es != [] {
      var front := es[..|es| - 1];
      CountsAgree(ch, start, front, client, lo);
      StepKeepsMatched(ch, Run(ch, Init(start), front), es[|es| - 1]);
      StepKeepsCount(ch, Run(ch, Init(start), front), es[|es| - 1], client, lo);
    }
  }

  /** The limiter run in which a sweep evicts a log in use, to its end. */
  function DisturbedRun(): seq<LimiterInterleaving.Event> {
    HeldIdleLog() + [Evict("a", 11 * SECOND)] + [Lookup("a"), Create(2), Check(2), Check(1)]
  }

  lemma {:induction false} CountAppend(h: seq<int>, x: int, lo: int, window: int)
    ensures CountFrom(h + [x], lo, window) == CountFrom(h, lo, window) + if lo <= x <= lo + window then 1 else 0
  {
    assert (h + [x])[..|h|] == h;
  }

  lemma {:induction false} TwoAtOnce(t: int, window: int)
    requires t > 0 && window >= 0
    ensures CountFrom([0, t, t], t, window) == 2
  {
    var a: seq<int> := [];
    var b := a + [0];
    var c := b + [t];
    CountAppend(a, 0, t, window);
    CountAppend(b, t, t, window);
    CountAppend(c, t, t, window);
    assert c + [t] == [0, t, t];
  }

  lemma {:induction false} DisturbedAdmissions()
    ensures var l := Limits(1, SECOND);
            AdmittedTo(LimiterInterleaving.Run(l, LimiterInterleaving.Init(0), DisturbedRun()), "a")
            == [0, 11 * SECOND, 11 * SECOND]
  {
    var l, s0 := Limits(1, SECOND), LimiterInterleaving.Init(0);
    HeldEvictionIsReachable();
    LimiterInterleaving.RunAppend(l, s0, HeldIdleLog(), Evict("a", 11 * SECOND));
    LimiterInterleaving.RunConcat(l, s0, HeldIdleLog() + [Evict("a", 11 * SECOND)],
                                  [Lookup("a"), Create(2), Check(2), Check(1)]);
  }

  /** Without that proviso the proxy is reached too often: under one request per second, two
      requests of one client reach it at the same instant. */
  lemma {:induction false} DisturbedSweepLetsTwoThrough()
    ensures var l := Limits(1, SECOND);
            var w := Run(Only(l), Init(0), EmbedAll(l, LimiterInterleaving.Init(0), DisturbedRun()));
            ReachedCount(w.walks, "a", 11 * SECOND, SECOND) == 2
  {
    var l, t := Limits(1, SECOND), 11 * SECOND;
    var es := EmbedAll(l, LimiterInterleaving.Init(0), DisturbedRun());
    EveryLimiterRunOccurs(l, 0, DisturbedRun());
    DisturbedAdmissions();
    CountsAgree(Only(l), 0, es, "a", t);
    ArrivedIsLetThrough(Run(Only(l), Init(0), es).walks, "a", t, SECOND);
    TwoAtOnce(t, SECOND);
  }
}
