/** The rate-limiting plugin: a per-client log of admission stamps, pruned on every request,
    and a background sweep that drops idle clients (app/plugins/ratelimiting.go). */
module RateLimiter {
  import opened Options
  import opened SlidingWindow

  // Durations are in nanoseconds, as Go's time.Duration.
  const SECOND: int := 1_000_000_000
  const MINUTE: int := 60 * SECOND
  const DEFAULT_RATE_LIMIT: int := 60

  datatype Limits = Limits(perWindow: nat, window: int) {
    predicate Valid() { perWindow >= 1 && window > 0 }
  }

  /** Limit and window picked from the route's `requests_per_minute` and `requests_per_second`;
      a missing or non-positive number is ignored and the per-minute setting wins. */
  function ChooseLimits(perMinute: Option<int>, perSecond: Option<int>): (l: Limits)
    ensures l.Valid() && l.window % SECOND == 0
    ensures perMinute.Some? && perMinute.value > 0 ==> l.perWindow * MINUTE == perMinute.value * l.window
    ensures (perMinute.None? || perMinute.value <= 0) && perSecond.Some? && perSecond.value > 0 ==>
              l.perWindow * SECOND == perSecond.value * l.window
  {
    if perMinute.Some? && perMinute.value > 0 then Limits(perMinute.value, MINUTE)
    else if perSecond.Some? && perSecond.value > 0 then Limits(perSecond.value, SECOND)
    else Limits(DEFAULT_RATE_LIMIT, MINUTE)
  }

  type Store = map<string, seq<int>>

  function LogOf(store: Store, client: string): seq<int> {
    if client in store then store[client] else []
  }

  predicate Allows(l: Limits, store: Store, client: string, now: int) {
    Admits(LogOf(store, client), now, l.perWindow, l.window)
  }

  function AfterRequest(l: Limits, store: Store, client: string, now: int): Store {
    store[client := Decide(LogOf(store, client), now, l.perWindow, l.window)]
  }

  /** A log is idle when its newest stamp is older than ten windows; an empty log never is. */
  predicate Idle(l: Limits, log: seq<int>, now: int) {
    log != [] && now - log[|log| - 1] > 10 * l.window
  }

  function AfterSweep(l: Limits, store: Store, now: int): Store {
    map c | c in store && !Idle(l, store[c], now) :: store[c]
  }

  // ---------- the plugin object ----------

  datatype Outcome =
    | Forbidden
    | Misconfigured
    | TooManyRequests(limit: int, retryAfter: int)
    | Forwarded(limit: int, remaining: int)

  class ClientRequestLog {
    var timestamps: seq<int>

    constructor ()
      ensures timestamps == []
    {
      timestamps := [];
    }
  }

  class RateLimitingPlugin {
    const limits: Limits
    const strategy: string
    var clientStore: map<string, ClientRequestLog>

    ghost predicate Valid()
      reads this
    {
      && limits.Valid()
      && forall c, d :: c in clientStore && d in clientStore && c != d ==> clientStore[c] != clientStore[d]
    }

    /** The abstract store: each client's stamps. */
    ghost function Contents(): Store
      reads this, clientStore.Values
    {
      map c | c in clientStore :: clientStore[c].timestamps
    }

    constructor (perMinute: Option<int>, perSecond: Option<int>, strategy: string)
      ensures Valid() && clientStore == map[] && this.strategy == strategy
      ensures limits == ChooseLimits(perMinute, perSecond)
    {
      limits := ChooseLimits(perMinute, perSecond);
      this.strategy := strategy;
      clientStore := map[];
    }

    method GetOrCreate(client: string) returns (log: ClientRequestLog)
      requires Valid()
      modifies this
      ensures Valid() && client in clientStore && clientStore[client] == log
      ensures client in old(clientStore) ==> clientStore == old(clientStore)
      ensures client !in old(clientStore) ==>
                fresh(log) && log.timestamps == [] && clientStore == old(clientStore)[client := log]
    {
      if client in clientStore {
        log := clientStore[client];
      } else {
        log := new ClientRequestLog();
        clientStore := clientStore[client := log];
      }
    }

    method Check(log: ClientRequestLog, now: int) returns (allowed: bool)
      modifies log
      ensures allowed == Admits(old(log.timestamps), now, limits.perWindow, limits.window)
      ensures log.timestamps == Decide(old(log.timestamps), now, limits.perWindow, limits.window)
    {
      var valid := [];
      for i := 0 to |log.timestamps|
        invariant log.timestamps == old(log.timestamps)
        invariant valid == Prune(log.timestamps[..i], now, limits.window)
      {
        assert log.timestamps[..i + 1][..i] == log.timestamps[..i];
        if now - log.timestamps[i] <= limits.window {
          valid := valid + [log.timestamps[i]];
        }
      }
      assert log.timestamps[..|log.timestamps|] == log.timestamps;
      log.timestamps := valid;
      if |log.timestamps| >= limits.perWindow {
        return false;
      }
      log.timestamps := log.timestamps + [now];
      return true;
    }

    /** `ip` is the host part of the remote address, None when it cannot be split. */
    method Handle(ip: Option<string>, now: int) returns (o: Outcome)
      requires Valid()
      modifies this, clientStore.Values
      ensures Valid()
      ensures strategy != "ip-address" ==> o == Misconfigured
      ensures strategy == "ip-address" && (ip.None? || ip.value == "") ==> o == Forbidden
      ensures o.Misconfigured? || o.Forbidden? ==>
                clientStore == old(clientStore) && Contents() == old(Contents())
      ensures strategy == "ip-address" && ip.Some? && ip.value != "" ==>
                && Contents() == AfterRequest(limits, old(Contents()), ip.value, now)
                && o == if Allows(limits, old(Contents()), ip.value, now)
                        then Forwarded(limits.perWindow, limits.perWindow - |LogOf(Contents(), ip.value)|)
                        else TooManyRequests(limits.perWindow, limits.window / SECOND)
    {
      if strategy != "ip-address" { return Misconfigured; }
      if ip.None? || ip.value == "" { return Forbidden; }
      ghost var before := Contents();
      var log := GetOrCreate(ip.value);
      assert log.timestamps == LogOf(before, ip.value);
      assert forall c :: c in before ==> clientStore[c].timestamps == before[c];
      var allowed := Check(log, now);
      assert Contents() == AfterRequest(limits, before, ip.value, now);
      if allowed {
        o := Forwarded(limits.perWindow, limits.perWindow - |log.timestamps|);
      } else {
        o := TooManyRequests(limits.perWindow, limits.window / SECOND);
      }
    }

    method Cleanup(now: int)
      requires Valid()
      modifies this
      ensures Valid() && Contents() == AfterSweep(limits, old(Contents()), now)
    {
      var todo := clientStore.Keys;
      while todo != {}
        invariant todo <= old(clientStore).Keys
        invariant clientStore.Keys ==
          set c | c in old(clientStore) && (c in todo || !Idle(limits, old(clientStore)[c].timestamps, now))
        invariant forall c :: c in clientStore ==> clientStore[c] == old(clientStore)[c]
      {
        var client :| client in todo;
        if Idle(limits, clientStore[client].timestamps, now) {
          clientStore := clientStore - {client};
        }
        todo := todo - {client};
      }
    }
  }

  // ---------- whole runs ----------

  datatype Event = Request(client: string, time: int) | Sweep(time: int)

  ghost predicate Chronological(es: seq<Event>) {
    forall i, j :: 0 <= i < j < |es| ==> es[i].time <= es[j].time
  }

  function StoreAfter(l: Limits, es: seq<Event>): Store {
    if es == [] then map[]
    else
      var store := StoreAfter(l, es[..|es| - 1]);
      match es[|es| - 1]
      case Request(c, t) => AfterRequest(l, store, c, t)
      case Sweep(t) => AfterSweep(l, store, t)
  }

  /** When `client` asked. */
  function Arrivals(es: seq<Event>, client: string): seq<int> {
    if es == [] then []
    else
      var e := es[|es| - 1];
      var front := Arrivals(es[..|es| - 1], client);
      if e.Request? && e.client == client then front + [e.time] else front
  }

  /** When `client` was let through by the store. */
  function Admissions(l: Limits, es: seq<Event>, client: string): seq<int> {
    if es == [] then []
    else
      var e := es[|es| - 1];
      var front := Admissions(l, es[..|es| - 1], client);
      if e.Request? && e.client == client && Allows(l, StoreAfter(l, es[..|es| - 1]), client, e.time)
      then front + [e.time] else front
  }

  lemma {:induction false} SweepTracks(l: Limits, store: Store, client: string, history: seq<int>, now: int)
    requires l.Valid() && Tracks(LogOf(store, client), history, now, l.window)
    ensures Tracks(LogOf(AfterSweep(l, store, now), client), history, now, l.window)
  {
    if client in store && Idle(l, store[client], now) {
      ForgetTracks(store[client], history, now, l.window);
    }
  }

  /** The client's log stands in for its admissions, which are those of the reference policy. */
  ghost predicate Coupled(l: Limits, log: seq<int>, admitted: seq<int>, arrivals: seq<int>, now: int) {
    && admitted == Greedy(arrivals, l.perWindow, l.window)
    && Tracks(log, admitted, now, l.window)
    && Sorted(arrivals) && UpTo(arrivals, now)
  }

  lemma {:induction false} RequestKeepsCoupled(l: Limits, log: seq<int>, admitted: seq<int>,
      arrivals: seq<int>, now: int)
    requires l.Valid() && Coupled(l, log, admitted, arrivals, now)
    ensures Coupled(l, Decide(log, now, l.perWindow, l.window),
                    if Admits(log, now, l.perWindow, l.window) then admitted + [now] else admitted,
                    arrivals + [now], now)
  {
    DecideTracks(log, admitted, now, now, l.perWindow, l.window);
    GreedyAppend(arrivals, now, l.perWindow, l.window);
  }

  lemma {:induction false} RunCoupling(l: Limits, es: seq<Event>, client: string, now: int)
    requires l.Valid() && Chronological(es)
    requires es == [] || es[|es| - 1].time <= now
    ensures Coupled(l, LogOf(StoreAfter(l, es), client), Admissions(l, es, client), Arrivals(es, client), now)
    decreases |es|
  {
    if es != [] {
      var e, front := es[|es| - 1], es[..|es| - 1];
      RunCoupling(l, front, client, e.time);
      CoupledStep(l, es, client);
      TracksLater(LogOf(StoreAfter(l, es), client), Admissions(l, es, client), e.time, now, l.window);
    }
  }

  lemma {:induction false} CoupledStep(l: Limits, es: seq<Event>, client: string)
    requires l.Valid() && es != []
    requires var front := es[..|es| - 1];
             Coupled(l, LogOf(StoreAfter(l, front), client), Admissions(l, front, client), Arrivals(front, client),
                     es[|es| - 1].time)
    ensures Coupled(l, LogOf(StoreAfter(l, es), client), Admissions(l, es, client), Arrivals(es, client),
                    es[|es| - 1].time)
  {
    var e, front := es[|es| - 1], es[..|es| - 1];
    var store, admitted, arrivals := StoreAfter(l, front), Admissions(l, front, client), Arrivals(front, client);
    if e.Sweep? {
      SweepTracks(l, store, client, admitted, e.time);
      assert LogOf(StoreAfter(l, es), client) == LogOf(AfterSweep(l, store, e.time), client);
      assert Admissions(l, es, client) == admitted && Arrivals(es, client) == arrivals;
    } else if e.client == client {
      RequestKeepsCoupled(l, LogOf(store, client), admitted, arrivals, e.time);
      assert LogOf(StoreAfter(l, es), client) == Decide(LogOf(store, client), e.time, l.perWindow, l.window);
    } else {
      assert LogOf(StoreAfter(l, es), client) == LogOf(store, client);
    }
  }

  /** The pruned, swept, many-client store decides as the reference policy run on the
      client's own arrivals: neither sweeps nor other clients are visible. */
  lemma {:induction false} RunRefinesGreedy(l: Limits, es: seq<Event>, client: string)
    requires l.Valid() && Chronological(es)
    ensures Admissions(l, es, client) == Greedy(Arrivals(es, client), l.perWindow, l.window)
  {
    if es != [] { RunCoupling(l, es, client, es[|es| - 1].time); }
  }

  /** Window safety over whole runs, across deletion and re-creation of logs. */
  lemma {:induction false} RunIsWithinLimit(l: Limits, es: seq<Event>, client: string)
    requires l.Valid() && Chronological(es)
    ensures WithinLimit(Admissions(l, es, client), l.perWindow, l.window)
    ensures |LogOf(StoreAfter(l, es), client)| <= l.perWindow
  {
    if es == [] {
      forall lo: int ensures CountFrom([], lo, l.window) <= l.perWindow {}
    } else {
      var now := es[|es| - 1].time;
      RunCoupling(l, es, client, now);
      GreedyKeepsLimit(Arrivals(es, client), l.perWindow, l.window);
      LogsStayShort(l, es, client);
    }
  }

  lemma {:induction false} LogsStayShort(l: Limits, es: seq<Event>, client: string)
    requires l.Valid()
    ensures |LogOf(StoreAfter(l, es), client)| <= l.perWindow
  {
    if es != [] {
      var e, front := es[|es| - 1], es[..|es| - 1];
      LogsStayShort(l, front, client);
      if e.Request? && e.client == client {
        PruneIsShorter(LogOf(StoreAfter(l, front), client), e.time, l.window);
      }
    }
  }

  /** No policy that respects the bound on this client's arrivals serves it better. */
  lemma {:induction false} RunIsOptimal(l: Limits, es: seq<Event>, client: string, picks: seq<bool>)
    requires l.Valid() && Chronological(es)
    requires |picks| == |Arrivals(es, client)|
    requires WithinLimit(Picked(Arrivals(es, client), picks), l.perWindow, l.window)
    ensures Dominates(Admissions(l, es, client), Picked(Arrivals(es, client), picks))
  {
    if es == [] {
      assert picks == [];
    } else {
      RunCoupling(l, es, client, es[|es| - 1].time);
      GreedyIsOptimal(Arrivals(es, client), picks, l.perWindow, l.window);
    }
  }

  lemma {:induction false} ArrivalsConcat(a: seq<Event>, b: seq<Event>, client: string)
    ensures Arrivals(a + b, client) == Arrivals(a, client) + Arrivals(b, client)
  {
    if b == [] {
      assert a + b == a;
    } else {
      var n := |b| - 1;
      ArrivalsConcat(a, b[..n], client);
      assert (a + b)[..|a + b| - 1] == a + b[..n];
    }
  }

  /** Erasing a rejected request from a run changes no other decision: every later prefix
      has the same admissions, for every client. */
  lemma {:induction false} RejectedCanBeErased(l: Limits, before: seq<Event>, c: string, t: int,
      after: seq<Event>, client: string)
    requires l.Valid() && Chronological(before + [Request(c, t)] + after)
    requires !Allows(l, StoreAfter(l, before), c, t)
    ensures Admissions(l, before + [Request(c, t)] + after, client) == Admissions(l, before + after, client)
  {
    var e := [Request(c, t)];
    var whole := before + e + after;
    assert whole == before + (e + after);
    ChronologicalPrefix(before, e + after);
    assert Chronological(before + after) by {
      assert forall i :: 0 <= i < |before + after| ==>
        (before + after)[i] == whole[if i < |before| then i else i + 1];
    }
    RunRefinesGreedy(l, whole, client);
    RunRefinesGreedy(l, before + after, client);
    ArrivalsConcat(before + e, after, client);
    ArrivalsConcat(before, e, client);
    ArrivalsConcat(before, after, client);
    assert Arrivals(e, client) == if c == client then [t] else [];
    if c == client {
      RunCoupling(l, before, c, t);
      DecideTracks(LogOf(StoreAfter(l, before), c), Admissions(l, before, c), t, t, l.perWindow, l.window);
      GreedyErase(Arrivals(before, c), t, Arrivals(after, c), l.perWindow, l.window);
    } else {
      assert Arrivals(before + e, client) == Arrivals(before, client);
    }
  }

  /** The Retry-After value.  After a rejection at `t` with no admission since, a request more
      than one window later is admitted.  A request exactly one window later, which is what the
      header asks for, is admitted exactly when the limit was not used up at the instant `t`. */
  lemma {:induction false} RetryAfterWindow(l: Limits, before: seq<Event>, c: string, t: int,
      since: seq<Event>, later: int)
    requires l.Valid() && Chronological(before + [Request(c, t)] + since + [Request(c, later)])
    requires !Allows(l, StoreAfter(l, before), c, t)
    requires Admissions(l, before + [Request(c, t)] + since, c) == Admissions(l, before, c)
    ensures later > t + l.window ==> Allows(l, StoreAfter(l, before + [Request(c, t)] + since), c, later)
    ensures later == t + l.window ==>
              (Allows(l, StoreAfter(l, before + [Request(c, t)] + since), c, later) <==>
               CountFrom(Admissions(l, before, c), t, 0) < l.perWindow)
  {
    var es := before + [Request(c, t)] + since;
    ChronologicalPrefix(es, [Request(c, later)]);
    assert es == before + ([Request(c, t)] + since);
    ChronologicalPrefix(before, [Request(c, t)] + since);
    assert (es + [Request(c, later)])[|before|].time == t;
    RunCoupling(l, es, c, later);
    AdmissionsUpTo(l, before, c, t);
    assert Prune(LogOf(StoreAfter(l, es), c), later, l.window) == Prune(Admissions(l, before, c), later, l.window);
    RetryOnHistory(Admissions(l, before, c), t, later, l.perWindow, l.window);
  }

  lemma {:induction false} RetryOnHistory(h: seq<int>, t: int, later: int, limit: nat, window: int)
    requires UpTo(h, t) && window >= 0 && limit >= 1
    ensures later > t + window ==> Admits(h, later, limit, window)
    ensures later == t + window ==> (Admits(h, later, limit, window) <==> CountFrom(h, t, 0) < limit)
  {
    if later > t + window {
      PruneAll(h, later, window);
    } else if later == t + window {
      PruneCounts(h, later, window);
      CountAtNewest(h, t, window);
    }
  }

  lemma {:induction false} AdmissionsUpTo(l: Limits, es: seq<Event>, client: string, now: int)
    requires l.Valid() && Chronological(es)
    requires es == [] || es[|es| - 1].time <= now
    ensures UpTo(Admissions(l, es, client), now)
  {
    RunCoupling(l, es, client, now);
    GreedyKeepsLimit(Arrivals(es, client), l.perWindow, l.window);
  }

  lemma {:induction false} ChronologicalPrefix(a: seq<Event>, b: seq<Event>)
    requires Chronological(a + b)
    ensures Chronological(a)
    ensures a != [] && b != [] ==> a[|a| - 1].time <= b[0].time
  {
    assert forall i :: 0 <= i < |a| ==> a[i] == (a + b)[i];
    assert b != [] ==> b[0] == (a + b)[|a|];
  }

  lemma {:induction false} CountAtNewest(h: seq<int>, t: int, window: int)
    requires UpTo(h, t) && window >= 0
    ensures CountFrom(h, t, window) == CountFrom(h, t, 0)
  {
    if h != [] { CountAtNewest(h[..|h| - 1], t, window); }
  }

  /** The documented retry can fail: one request per second, a second request at the instant of
      the first is refused, and so is the retry exactly one window later. */
  lemma RetryAtExactlyTheWindowCanFail()
    ensures var l := Limits(1, SECOND);
            var es := [Request("a", 0), Request("a", 0)];
            && !Allows(l, StoreAfter(l, [Request("a", 0)]), "a", 0)
            && !Allows(l, StoreAfter(l, es), "a", SECOND)
  {
    var l := Limits(1, SECOND);
    var one := [Request("a", 0)];
    var es := [Request("a", 0), Request("a", 0)];
    assert one[..0] == [] && es[..1] == one;
    assert Prune([], 0, SECOND) == [];
    PruneAppend([], 0, 0, SECOND);
    PruneAppend([], 0, SECOND, SECOND);
    assert [] + [0] == [0];
    assert StoreAfter(l, one) == map["a" := [0]];
    assert StoreAfter(l, es) == map["a" := [0]];
  }

  lemma {:induction false} LogAfterRequest(l: Limits, es: seq<Event>, client: string, now: int)
    ensures LogOf(StoreAfter(l, es + [Request(client, now)]), client)
         == Decide(LogOf(StoreAfter(l, es), client), now, l.perWindow, l.window)
  {
    assert (es + [Request(client, now)])[..|es|] == es;
  }

  /** The remaining-requests header: a client's log after a request holds exactly its admissions
      in the window ending there, so limit minus length is what the window still has room for. */
  lemma {:induction false} RemainingIsExact(l: Limits, es: seq<Event>, client: string, now: int)
    requires l.Valid() && Chronological(es + [Request(client, now)])
    ensures var all := es + [Request(client, now)];
            |LogOf(StoreAfter(l, all), client)| == CountFrom(Admissions(l, all, client), now - l.window, l.window)
  {
    var all := es + [Request(client, now)];
    var log, admitted := LogOf(StoreAfter(l, all), client), Admissions(l, all, client);
    assert Tracks(log, admitted, now, l.window) && UpTo(admitted, now) by {
      assert all[|all| - 1] == Request(client, now);
      RunCoupling(l, all, client, now);
      AdmissionsUpTo(l, all, client, now);
    }
    assert Prune(log, now, l.window) == log by {
      LogAfterRequest(l, es, client, now);
      DecideIsPruned(LogOf(StoreAfter(l, es), client), now, l.perWindow, l.window);
    }
    PrunedLogCounts(log, admitted, now, l.window);
  }

  lemma {:induction false} PrunedLogCounts(log: seq<int>, admitted: seq<int>, now: int, window: int)
    requires Prune(log, now, window) == log && Tracks(log, admitted, now, window) && UpTo(admitted, now)
    ensures |log| == CountFrom(admitted, now - window, window)
  {
    PruneCounts(admitted, now, window);
  }

  lemma {:induction false} DecideIsPruned(log: seq<int>, now: int, limit: nat, window: int)
    requires window >= 0
    ensures Prune(Decide(log, now, limit, window), now, window) == Decide(log, now, limit, window)
  {
    PruneTwice(log, now, now, window);
    PruneAppend(Prune(log, now, window), now, now, window);
  }

  // ---------- what the sweep reclaims ----------

  /** A stored log ends with the client's latest admission; a client without a log has none, or
      has been idle for more than ten windows. */
  ghost predicate Reclaimed(l: Limits, store: Store, client: string, admitted: seq<int>, now: int) {
    if client in store then
      && store[client] != [] && admitted != []
      && store[client][|store[client]| - 1] == admitted[|admitted| - 1]
    else admitted == [] || now - admitted[|admitted| - 1] > 10 * l.window
  }

  lemma {:induction false} DecideEndsWithNewest(log: seq<int>, now: int, limit: nat, window: int)
    requires limit >= 1
    ensures var d := Decide(log, now, limit, window);
            && d != []
            && (Admits(log, now, limit, window) ==> d[|d| - 1] == now)
            && (!Admits(log, now, limit, window) && Sorted(log) ==> log != [] && d[|d| - 1] == log[|log| - 1])
  {
    if Sorted(log) { PruneSuffix(log, now, window); }
  }

  lemma {:induction false} RunReclaims(l: Limits, es: seq<Event>, client: string, now: int)
    requires l.Valid() && Chronological(es)
    requires es == [] || es[|es| - 1].time <= now
    ensures Reclaimed(l, StoreAfter(l, es), client, Admissions(l, es, client), now)
    decreases |es|
  {
    if es != [] {
      var e, front := es[|es| - 1], es[..|es| - 1];
      RunReclaims(l, front, client, e.time);
      RunCoupling(l, front, client, e.time);
      if e.Request? && e.client == client {
        DecideEndsWithNewest(LogOf(StoreAfter(l, front), client), e.time, l.perWindow, l.window);
      }
    }
  }

  /** The sweep reclaims exactly the idle clients: afterwards the store has a client if and only
      if it was admitted at some time within the last ten windows. */
  lemma {:induction false} SweepKeepsExactlyTheActive(l: Limits, es: seq<Event>, now: int, client: string)
    requires l.Valid() && Chronological(es + [Sweep(now)])
    ensures var admitted := Admissions(l, es, client);
            client in StoreAfter(l, es + [Sweep(now)]) <==>
            (admitted != [] && now - admitted[|admitted| - 1] <= 10 * l.window)
  {
    ChronologicalPrefix(es, [Sweep(now)]);
    assert (es + [Sweep(now)])[..|es|] == es;
    RunReclaims(l, es, client, now);
  }

  // ---------- what the settings mean ----------

  /** `k` requests of one client at one instant. */
  function Burst(client: string, t: int, k: nat): (es: seq<Event>)
    ensures |es| == k && forall i :: 0 <= i < k ==> es[i] == Request(client, t)
  {
    seq(k, _ => Request(client, t))
  }

  /** k stamps, all t. */
  function Copies(t: int, k: nat): (h: seq<int>)
    ensures |h| == k && forall i :: 0 <= i < k ==> h[i] == t
  {
    seq(k, _ => t)
  }

  ghost predicate AllAt(h: seq<int>, t: int) {
    forall i :: 0 <= i < |h| ==> h[i] == t
  }

  lemma {:induction false} BurstArrivals(client: string, t: int, k: nat)
    ensures |Arrivals(Burst(client, t, k), client)| == k && AllAt(Arrivals(Burst(client, t, k), client), t)
  {
    if k > 0 {
      BurstArrivals(client, t, k - 1);
      assert Burst(client, t, k)[..k - 1] == Burst(client, t, k - 1);
    }
  }

  lemma {:induction false} PruneOfSame(h: seq<int>, t: int, window: int)
    requires AllAt(h, t) && window >= 0
    ensures Prune(h, t, window) == h
  {
    if h != [] {
      var front := h[..|h| - 1];
      PruneOfSame(front, t, window);
      assert h == front + [t];
    }
  }

  lemma {:induction false} GreedyOfSame(a: seq<int>, t: int, limit: nat, window: int)
    requires AllAt(a, t) && window >= 0
    ensures var h := Greedy(a, limit, window);
            AllAt(h, t) && |h| == if |a| < limit then |a| else limit
  {
    if a != [] {
      var front := a[..|a| - 1];
      GreedyOfSame(front, t, limit, window);
      assert a == front + [t];
      GreedyAppend(front, t, limit, window);
      PruneOfSame(Greedy(front, limit, window), t, window);
    }
  }

  /** Of a new client's requests at one instant exactly the first `perWindow` are admitted,
      whatever other clients and sweeps did before. */
  lemma {:induction false} BurstIsCut(l: Limits, es: seq<Event>, client: string, t: int, k: nat)
    requires l.Valid() && Chronological(es + Burst(client, t, k)) && Arrivals(es, client) == []
    ensures Admissions(l, es + Burst(client, t, k), client) == Copies(t, if k < l.perWindow then k else l.perWindow)
  {
    RunRefinesGreedy(l, es + Burst(client, t, k), client);
    ArrivalsConcat(es, Burst(client, t, k), client);
    BurstArrivals(client, t, k);
    var arrivals := Arrivals(Burst(client, t, k), client);
    assert [] + arrivals == arrivals;
    GreedyOfSame(arrivals, t, l.perWindow, l.window);
  }

  /** The settings ask for n requests in `window` nanoseconds. */
  predicate AsksFor(perMinute: Option<int>, perSecond: Option<int>, n: nat, window: int) {
    if perMinute.Some? && perMinute.value > 0 then n == perMinute.value && window == 60_000_000_000
    else if perSecond.Some? && perSecond.value > 0 then n == perSecond.value && window == 1_000_000_000
    else n == 60 && window == 60_000_000_000
  }

  /** The limiter built from the settings keeps to them in every run, uses them up at once for a
      new client, and names the length of the window, in seconds, in Retry-After. */
  lemma {:induction false} SettingsAreEnforced(perMinute: Option<int>, perSecond: Option<int>, n: nat, window: int,
      es: seq<Event>, client: string, t: int, k: nat)
    requires AsksFor(perMinute, perSecond, n, window)
    requires Chronological(es + Burst(client, t, k))
    ensures var l := ChooseLimits(perMinute, perSecond);
            && l.window / SECOND == window / 1_000_000_000
            && (forall lo: int :: CountFrom(Admissions(l, es, client), lo, window) <= n)
            && (Arrivals(es, client) == [] ==>
                  Admissions(l, es + Burst(client, t, k), client) == Copies(t, if k < n then k else n))
  {
    var l := ChooseLimits(perMinute, perSecond);
    ChronologicalPrefix(es, Burst(client, t, k));
    RunIsWithinLimit(l, es, client);
    if Arrivals(es, client) == [] { BurstIsCut(l, es, client, t, k); }
  }
}
