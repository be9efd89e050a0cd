/** The limiter's lock sections as interleaved steps: lookup under the read lock, the
    double-checked create under the write lock, the decision under the log's own lock, and
    the eviction of one client by the background sweep (app/plugins/ratelimiting.go:146-261).

    Log objects are numbered in order of creation and never reused, so a handler can keep
    holding an object that the store no longer knows.  `histories`, `asked` and `admitted` only
    observe: the never-pruned admissions of each object, and the decision times and
    admissions of each client. */
module LimiterInterleaving {
  import opened SlidingWindow
  import opened RateLimiter

  datatype Phase =
    | Missing(client: string)           // the read-locked lookup found nothing
    | Holding(client: string, log: nat) // a log object is in hand, not yet locked
    | Done

  datatype State = State(
    now: int,
    store: map<string, nat>,
    logs: seq<seq<int>>,
    histories: seq<seq<int>>,
    handlers: seq<Phase>,
    asked: map<string, seq<int>>,
    admitted: map<string, seq<int>>
  )

  /** Handlers are numbered by arrival.  A step that is not enabled changes nothing. */
  datatype Event =
    | Tick(to: int)
    | Lookup(client: string)
    | Create(handler: nat)
    | Check(handler: nat)
    | Evict(client: string, sweepTime: int) // the sweep read the clock at sweepTime

  function Init(start: int): State {
    State(start, map[], [], [], [], map[], map[])
  }

  function AdmittedTo(s: State, client: string): seq<int> {
    if client in s.admitted then s.admitted[client] else []
  }

  function AskedBy(s: State, client: string): seq<int> {
    if client in s.asked then s.asked[client] else []
  }

  predicate Evicts(l: Limits, s: State, client: string, sweepTime: int) {
    && sweepTime <= s.now && client in s.store && s.store[client] < |s.logs|
    && Idle(l, s.logs[s.store[client]], sweepTime)
  }

  function AfterCheck(l: Limits, s: State, h: nat): State
    requires h < |s.handlers| && s.handlers[h].Holding?
  {
    var c, id := s.handlers[h].client, s.handlers[h].log;
    if id >= |s.logs| || id >= |s.histories| then s
    else
      var s' := s.(logs := s.logs[id := Decide(s.logs[id], s.now, l.perWindow, l.window)],
                   handlers := s.handlers[h := Done],
                   asked := s.asked[c := AskedBy(s, c) + [s.now]]);
      if Admits(s.logs[id], s.now, l.perWindow, l.window)
      then s'.(histories := s.histories[id := s.histories[id] + [s.now]],
               admitted := s.admitted[c := AdmittedTo(s, c) + [s.now]])
      else s'
  }

  function Step(l: Limits, s: State, e: Event): State {
    match e
    case Tick(t) =>
      if t >= s.now then s.(now := t) else s
    case Lookup(c) =>
      s.(handlers := s.handlers + [if c in s.store then Holding(c, s.store[c]) else Missing(c)])
    case Create(h) =>
      if h < |s.handlers| && s.handlers[h].Missing? then
        var c := s.handlers[h].client;
        if c in s.store then s.(handlers := s.handlers[h := Holding(c, s.store[c])])
        else s.(handlers := s.handlers[h := Holding(c, |s.logs|)],
                store := s.store[c := |s.logs|],
                logs := s.logs + [[]],
                histories := s.histories + [[]])
      else s
    case Check(h) =>
      if h < |s.handlers| && s.handlers[h].Holding? then AfterCheck(l, s, h) else s
    case Evict(c, t) =>
      if Evicts(l, s, c, t) then s.(store := s.store - {c}) else s
  }

  function Run(l: Limits, s: State, es: seq<Event>): State {
    if es == [] then s else Step(l, Run(l, s, es[..|es| - 1]), es[|es| - 1])
  }

  // ---------- what holds of every log object in every interleaving ----------

  ghost predicate LogOk(l: Limits, log: seq<int>, history: seq<int>, now: int) {
    && Tracks(log, history, now, l.window)
    && |log| <= l.perWindow
    && Sorted(history) && UpTo(history, now)
    && WithinLimit(history, l.perWindow, l.window)
  }

  ghost predicate Inv(l: Limits, s: State) {
    && |s.histories| == |s.logs|
    && (forall id :: 0 <= id < |s.logs| ==> LogOk(l, s.logs[id], s.histories[id], s.now))
    && (forall c :: c in s.store ==> s.store[c] < |s.logs|)
    && (forall c, d :: c in s.store && d in s.store && s.store[c] == s.store[d] ==> c == d)
    && (forall h :: 0 <= h < |s.handlers| && s.handlers[h].Holding? ==> s.handlers[h].log < |s.logs|)
  }

  lemma {:induction false} EmptyLogOk(l: Limits, now: int)
    requires l.Valid()
    ensures LogOk(l, [], [], now)
  {
    forall lo: int ensures CountFrom([], lo, l.window) <= l.perWindow {}
  }

  lemma {:induction false} DecideKeepsLogOk(l: Limits, log: seq<int>, history: seq<int>, now: int)
    requires l.Valid() && LogOk(l, log, history, now)
    ensures Admits(log, now, l.perWindow, l.window) == Admits(history, now, l.perWindow, l.window)
    ensures LogOk(l, Decide(log, now, l.perWindow, l.window),
                  if Admits(log, now, l.perWindow, l.window) then history + [now] else history, now)
  {
    DecideTracks(log, history, now, now, l.perWindow, l.window);
    PruneIsShorter(log, now, l.window);
    if Admits(history, now, l.perWindow, l.window) {
      AdmissionKeepsLimit(history, now, l.perWindow, l.window);
    }
  }

  lemma {:induction false} CheckKeepsInv(l: Limits, s: State, h: nat)
    requires l.Valid() && Inv(l, s) && h < |s.handlers| && s.handlers[h].Holding?
    ensures Inv(l, AfterCheck(l, s, h))
  {
    var id := s.handlers[h].log;
    DecideKeepsLogOk(l, s.logs[id], s.histories[id], s.now);
  }

  lemma {:induction false} TickKeepsInv(l: Limits, s: State, t: int)
    requires l.Valid() && Inv(l, s) && t >= s.now
    ensures Inv(l, s.(now := t))
  {
    forall id | 0 <= id < |s.logs|
      ensures LogOk(l, s.logs[id], s.histories[id], t)
    {
      TracksLater(s.logs[id], s.histories[id], s.now, t, l.window);
    }
  }

  lemma {:induction false} CreateKeepsInv(l: Limits, s: State, h: nat)
    requires l.Valid() && Inv(l, s)
    ensures Inv(l, Step(l, s, Create(h)))
  {
    EmptyLogOk(l, s.now);
    var s' := Step(l, s, Create(h));
    assert forall id :: 0 <= id < |s'.logs| ==>
      if id < |s.logs| then s'.logs[id] == s.logs[id] && s'.histories[id] == s.histories[id]
      else s'.logs[id] == [] && s'.histories[id] == [];
  }

  lemma {:induction false} StepKeepsInv(l: Limits, s: State, e: Event)
    requires l.Valid() && Inv(l, s)
    ensures Inv(l, Step(l, s, e))
  {
    match e
    case Tick(t) => if t >= s.now { TickKeepsInv(l, s, t); }
    case Lookup(c) =>
    case Create(h) => CreateKeepsInv(l, s, h);
    case Check(h) => if h < |s.handlers| && s.handlers[h].Holding? { CheckKeepsInv(l, s, h); }
    case Evict(c, t) =>
  }

  /** In every interleaving each log object ever created is sorted, holds at most `perWindow`
      stamps, and has admitted at most `perWindow` requests in any closed window. */
  lemma {:induction false} EveryLogObjectIsSafe(l: Limits, start: int, es: seq<Event>)
    requires l.Valid()
    ensures Inv(l, Run(l, Init(start), es))
  {
    if es != [] {
      EveryLogObjectIsSafe(l, start, es[..|es| - 1]);
      StepKeepsInv(l, Run(l, Init(start), es[..|es| - 1]), es[|es| - 1]);
    }
  }

  // ---------- the per-client bound ----------

  ghost predicate Held(s: State, id: nat) {
    exists h :: 0 <= h < |s.handlers| && s.handlers[h].Holding? && s.handlers[h].log == id
  }

  /** The eviction removes a log that some handler has fetched but not yet locked. */
  ghost predicate Disturbs(l: Limits, s: State, e: Event) {
    e.Evict? && Evicts(l, s, e.client, e.sweepTime) && Held(s, s.store[e.client])
  }

  ghost predicate Undisturbed(l: Limits, s: State, es: seq<Event>) {
    es == [] ||
    (Undisturbed(l, s, es[..|es| - 1]) && !Disturbs(l, Run(l, s, es[..|es| - 1]), es[|es| - 1]))
  }

  function StoredLog(s: State, client: string): seq<int> {
    if client in s.store && s.store[client] < |s.logs| then s.logs[s.store[client]] else []
  }

  ghost predicate ClientOk(l: Limits, s: State, c: string) {
    Coupled(l, StoredLog(s, c), AdmittedTo(s, c), AskedBy(s, c), s.now)
  }

  lemma {:induction false} ClientOkWithinLimit(l: Limits, s: State, c: string)
    requires ClientOk(l, s, c)
    ensures WithinLimit(AdmittedTo(s, c), l.perWindow, l.window)
  {
    GreedyKeepsLimit(AskedBy(s, c), l.perWindow, l.window);
  }

  /** Every handler of a client holds the one object the store has for it, and that object's
      log stands in for all the client's admissions. */
  ghost predicate Shared(l: Limits, s: State) {
    && (forall h :: 0 <= h < |s.handlers| && s.handlers[h].Holding? ==>
          s.handlers[h].client in s.store && s.store[s.handlers[h].client] == s.handlers[h].log)
    && (forall c :: ClientOk(l, s, c))
  }

  /** A check moves only the log and the records of its own client. */
  lemma {:induction false} CheckFrame(l: Limits, s: State, h: nat, d: string)
    requires Inv(l, s) && Shared(l, s) && h < |s.handlers| && s.handlers[h].Holding?
    ensures var s', c, id := AfterCheck(l, s, h), s.handlers[h].client, s.handlers[h].log;
            if d == c then
              var admitted := Admits(StoredLog(s, c), s.now, l.perWindow, l.window);
              && StoredLog(s', c) == Decide(StoredLog(s, c), s.now, l.perWindow, l.window)
              && AdmittedTo(s', c) == (if admitted then AdmittedTo(s, c) + [s.now] else AdmittedTo(s, c))
              && AskedBy(s', c) == AskedBy(s, c) + [s.now]
            else
              && StoredLog(s', d) == StoredLog(s, d)
              && AdmittedTo(s', d) == AdmittedTo(s, d) && AskedBy(s', d) == AskedBy(s, d)
  {}

  lemma {:induction false} CheckKeepsShared(l: Limits, s: State, h: nat)
    requires l.Valid() && Inv(l, s) && Shared(l, s)
    requires h < |s.handlers| && s.handlers[h].Holding?
    ensures Shared(l, AfterCheck(l, s, h))
  {
    forall d ensures ClientOk(l, AfterCheck(l, s, h), d) {
      CheckKeepsClient(l, s, h, d);
    }
  }

  lemma {:induction false} CheckKeepsClient(l: Limits, s: State, h: nat, d: string)
    requires l.Valid() && Inv(l, s) && Shared(l, s)
    requires h < |s.handlers| && s.handlers[h].Holding?
    ensures ClientOk(l, AfterCheck(l, s, h), d)
  {
    assert ClientOk(l, s, d);
    CheckFrame(l, s, h, d);
    if d == s.handlers[h].client {
      RequestKeepsCoupled(l, StoredLog(s, d), AdmittedTo(s, d), AskedBy(s, d), s.now);
    }
  }

  lemma {:induction false} EvictKeepsShared(l: Limits, s: State, c: string, t: int)
    requires l.Valid() && Inv(l, s) && Shared(l, s) && !Disturbs(l, s, Evict(c, t))
    ensures Shared(l, Step(l, s, Evict(c, t)))
  {
    var s' := Step(l, s, Evict(c, t));
    if Evicts(l, s, c, t) {
      forall d ensures ClientOk(l, s', d) {
        assert ClientOk(l, s, d);
        if d == c { ForgetTracks(StoredLog(s, c), AdmittedTo(s, c), s.now, l.window); }
      }
    }
  }

  lemma {:induction false} StepKeepsShared(l: Limits, s: State, e: Event)
    requires l.Valid() && Inv(l, s) && Shared(l, s) && !Disturbs(l, s, e)
    ensures Shared(l, Step(l, s, e))
  {
    if e.Evict? {
      EvictKeepsShared(l, s, e.client, e.sweepTime);
    } else if e.Check? {
      if e.handler < |s.handlers| && s.handlers[e.handler].Holding? { CheckKeepsShared(l, s, e.handler); }
    } else {
      var s' := Step(l, s, e);
      forall d ensures ClientOk(l, s', d) {
        assert ClientOk(l, s, d);
        assert StoredLog(s', d) == StoredLog(s, d);
        TracksLater(StoredLog(s, d), AdmittedTo(s, d), s.now, s'.now, l.window);
      }
    }
  }

  lemma {:induction false} RunKeepsShared(l: Limits, s: State, es: seq<Event>)
    requires l.Valid() && Inv(l, s) && Shared(l, s) && Undisturbed(l, s, es)
    ensures Inv(l, Run(l, s, es)) && Shared(l, Run(l, s, es))
  {
    if es != [] {
      RunKeepsShared(l, s, es[..|es| - 1]);
      StepKeepsInv(l, Run(l, s, es[..|es| - 1]), es[|es| - 1]);
      StepKeepsShared(l, Run(l, s, es[..|es| - 1]), es[|es| - 1]);
    }
  }

  lemma {:induction false} InitShared(l: Limits, start: int)
    requires l.Valid()
    ensures Inv(l, Init(start)) && Shared(l, Init(start))
  {
    EmptyLogOk(l, start);
    assert forall c :: ClientOk(l, Init(start), c);
  }

  /** If no eviction falls between a handler's lookup and its decision, all handlers of a
      client share one object, their decisions are those of the reference policy in the order
      they took the lock, and the client is admitted at most `perWindow` times per window. */
  lemma {:induction false} ClientsAreWithinLimit(l: Limits, start: int, es: seq<Event>, client: string)
    requires l.Valid() && Undisturbed(l, Init(start), es)
    ensures Shared(l, Run(l, Init(start), es))
    ensures AdmittedTo(Run(l, Init(start), es), client)
         == Greedy(AskedBy(Run(l, Init(start), es), client), l.perWindow, l.window)
    ensures WithinLimit(AdmittedTo(Run(l, Init(start), es), client), l.perWindow, l.window)
  {
    InitShared(l, start);
    RunKeepsShared(l, Init(start), es);
    ClientOkWithinLimit(l, Run(l, Init(start), es), client);
  }

  // ---------- exactly which evictions are safe ----------

  /** One complete request of `client`, by a handler that is not there yet. */
  function WholeRequest(s: State, client: string): seq<Event> {
    [Lookup(client), Create(|s.handlers|), Check(|s.handlers|)]
  }

  lemma {:induction false} RunAppend(l: Limits, s: State, es: seq<Event>, e: Event)
    ensures Run(l, s, es + [e]) == Step(l, Run(l, s, es), e)
  {
    assert (es + [e])[..|es|] == es;
  }

  lemma {:induction false} RunConcat(l: Limits, s: State, a: seq<Event>, b: seq<Event>)
    ensures Run(l, s, a + b) == Run(l, Run(l, s, a), b)
  {
    if b == [] {
      assert a + b == a;
    } else {
      var n := |b| - 1;
      RunConcat(l, s, a, b[..n]);
      assert (a + b)[..|a + b| - 1] == a + b[..n];
    }
  }

  lemma {:induction false} NoEvictionIsUndisturbed(l: Limits, s: State, es: seq<Event>)
    requires forall i :: 0 <= i < |es| ==> !es[i].Evict?
    ensures Undisturbed(l, s, es)
  {
    if es != [] { NoEvictionIsUndisturbed(l, s, es[..|es| - 1]); }
  }

  lemma {:induction false} WholeRequestRuns(l: Limits, s: State, client: string)
    ensures var h := |s.handlers|;
            Run(l, s, WholeRequest(s, client)) ==
            Step(l, Step(l, Step(l, s, Lookup(client)), Create(h)), Check(h))
  {
    var h := |s.handlers|;
    RunAppend(l, s, [], Lookup(client));
    assert [] + [Lookup(client)] == [Lookup(client)];
    RunAppend(l, s, [Lookup(client)], Create(h));
    assert [Lookup(client)] + [Create(h)] == [Lookup(client), Create(h)];
    RunAppend(l, s, [Lookup(client), Create(h)], Check(h));
    assert [Lookup(client), Create(h)] + [Check(h)] == WholeRequest(s, client);
  }

  /** At least `count` admissions of `client` at the current instant, through a log younger than
      every log of state s. */
  ghost predicate Refilled(l: Limits, s: State, s': State, client: string, count: nat) {
    && s'.now == s.now && |s'.histories| == |s'.logs|
    && s.handlers <= s'.handlers && s.logs <= s'.logs
    && (client in s'.store ==>
          |s.logs| <= s'.store[client] < |s'.logs| && |s'.logs[s'.store[client]]| <= count)
    && CountFrom(AdmittedTo(s', client), s.now, l.window) >= count
  }

  /** Checking a log that is not full admits the request. */
  lemma {:induction false} CheckAdmits(l: Limits, s: State, h: nat)
    requires l.Valid() && |s.histories| == |s.logs|
    requires h < |s.handlers| && s.handlers[h].Holding? && s.handlers[h].log < |s.logs|
    requires |Prune(s.logs[s.handlers[h].log], s.now, l.window)| < l.perWindow
    ensures var s', c, id := AfterCheck(l, s, h), s.handlers[h].client, s.handlers[h].log;
            && CountFrom(AdmittedTo(s', c), s.now, l.window) == CountFrom(AdmittedTo(s, c), s.now, l.window) + 1
            && |s'.logs[id]| <= |s.logs[id]| + 1
  {
    var c, id := s.handlers[h].client, s.handlers[h].log;
    PruneAppend(AdmittedTo(s, c), s.now, s.now, l.window);
    PruneIsShorter(s.logs[id], s.now, l.window);
  }

  /** Lookup and, if need be, creation leave the new handler holding the store's log. */
  lemma {:induction false} RefillHolds(l: Limits, s: State, s': State, client: string, count: nat)
    requires Refilled(l, s, s', client, count)
    ensures var h := |s'.handlers|;
            var s2 := Step(l, Step(l, s', Lookup(client)), Create(h));
            && Refilled(l, s, s2, client, count)
            && |s2.handlers| == h + 1 && client in s2.store && s2.handlers[h] == Holding(client, s2.store[client])
  {}

  lemma {:induction false} RefillAdmits(l: Limits, s: State, s': State, client: string, count: nat, h: nat)
    requires l.Valid() && Refilled(l, s, s', client, count) && count < l.perWindow
    requires |s.handlers| <= h < |s'.handlers| && client in s'.store
    requires s'.handlers[h] == Holding(client, s'.store[client])
    ensures Refilled(l, s, Step(l, s', Check(h)), client, count + 1)
  {
    PruneIsShorter(s'.logs[s'.store[client]], s'.now, l.window);
    CheckAdmits(l, s', h);
  }

  lemma {:induction false} RefillOnce(l: Limits, s: State, s': State, client: string, count: nat)
    requires l.Valid() && Refilled(l, s, s', client, count) && count < l.perWindow
    ensures Refilled(l, s, Run(l, s', WholeRequest(s', client)), client, count + 1)
  {
    var h := |s'.handlers|;
    WholeRequestRuns(l, s', client);
    RefillHolds(l, s, s', client, count);
    RefillAdmits(l, s, Step(l, Step(l, s', Lookup(client)), Create(h)), client, count, h);
  }

  lemma {:induction false} RefillFully(l: Limits, s: State, client: string, count: nat) returns (es: seq<Event>)
    requires l.Valid() && |s.histories| == |s.logs|
    requires client !in s.store && count <= l.perWindow
    ensures forall i :: 0 <= i < |es| ==> !es[i].Evict?
    ensures Refilled(l, s, Run(l, s, es), client, count)
  {
    if count == 0 {
      es := [];
    } else {
      var front := RefillFully(l, s, client, count - 1);
      var s' := Run(l, s, front);
      RefillOnce(l, s, s', client, count - 1);
      RunConcat(l, s, front, WholeRequest(s', client));
      es := front + WholeRequest(s', client);
    }
  }

  /** A handler left holding an orphaned log lets the client exceed the limit: one window
      later `perWindow` new requests fill a new log and the orphan still admits one more. */
  lemma {:induction false} OrphanBreaksLimit(l: Limits, s: State, h: nat) returns (es: seq<Event>)
    requires l.Valid() && Inv(l, s)
    requires h < |s.handlers| && s.handlers[h].Holding? && s.handlers[h].client !in s.store
    ensures Undisturbed(l, s, es)
    ensures !WithinLimit(AdmittedTo(Run(l, s, es), s.handlers[h].client), l.perWindow, l.window)
  {
    var c, id := s.handlers[h].client, s.handlers[h].log;
    var later := s.now + l.window + 1;
    var s1 := Step(l, s, Tick(later));
    var fill := RefillFully(l, s1, c, l.perWindow);
    var s2 := Run(l, s1, fill);
    es := [Tick(later)] + fill + [Check(h)];
    NoEvictionIsUndisturbed(l, s, es);
    RunAppend(l, s, [], Tick(later));
    RunConcat(l, s, [Tick(later)], fill);
    RunAppend(l, s, [Tick(later)] + fill, Check(h));
    assert s2.handlers[h] == s.handlers[h] && s2.logs[id] == s.logs[id];
    assert LogOk(l, s.logs[id], s.histories[id], s.now);
    PruneAll(s.logs[id], later, l.window);
    CheckAdmits(l, s2, h);
    assert CountFrom(AdmittedTo(Run(l, s, es), c), later, l.window) > l.perWindow;
  }

  /** A run from the start that leads there: one request per second, the only log idle for
      eleven seconds, and a handler that has fetched it. */
  function HeldIdleLog(): seq<Event> {
    [Lookup("a"), Create(0), Check(0), Tick(11 * SECOND), Lookup("a")]
  }

  lemma {:induction false} HeldIdleLogState()
    ensures Run(Limits(1, SECOND), Init(0), HeldIdleLog()) ==
            State(11 * SECOND, map["a" := 0], [[0]], [[0]], [Done, Holding("a", 0)], map["a" := [0]], map["a" := [0]])
  {
    var l := Limits(1, SECOND);
    var s0 := Init(0);
    var s1 := Step(l, s0, Lookup("a"));
    var s2 := Step(l, s1, Create(0));
    var s3 := Step(l, s2, Check(0));
    var s4 := Step(l, s3, Tick(11 * SECOND));
    assert s1.handlers == [Missing("a")] && s2.handlers == [Holding("a", 0)] && s2.logs == [[]];
    assert Prune([], 0, SECOND) == [] && [] + [0] == [0];
    assert s3 == State(0, map["a" := 0], [[0]], [[0]], [Done], map["a" := [0]], map["a" := [0]]);
    RunTwo(l, s0, Lookup("a"), Create(0));
    RunAppend(l, s0, [Lookup("a"), Create(0)], Check(0));
    RunTwo(l, s3, Tick(11 * SECOND), Lookup("a"));
    RunConcat(l, s0, [Lookup("a"), Create(0)] + [Check(0)], [Tick(11 * SECOND), Lookup("a")]);
    assert HeldIdleLog() == [Lookup("a"), Create(0)] + [Check(0)] + [Tick(11 * SECOND), Lookup("a")];
  }

  lemma {:induction false} RunTwo(l: Limits, s: State, e: Event, f: Event)
    ensures Run(l, s, [e, f]) == Step(l, Step(l, s, e), f)
  {
    RunAppend(l, s, [], e);
    assert [] + [e] == [e] && [e] + [f] == [e, f];
    RunAppend(l, s, [e], f);
  }

  /** The failing side is reachable: that run is undisturbed, evicting the client then disturbs,
      and the next request and the waiting handler are both admitted at the same instant,
      although the limit is one per second. */
  lemma {:induction false} HeldEvictionIsReachable()
    ensures var l := Limits(1, SECOND);
            var evict := Evict("a", 11 * SECOND);
            var s := Run(l, Init(0), HeldIdleLog());
            && Undisturbed(l, Init(0), HeldIdleLog()) && Disturbs(l, s, evict)
            && AdmittedTo(Run(l, Step(l, s, evict), [Lookup("a"), Create(2), Check(2), Check(1)]), "a")
               == [0, 11 * SECOND, 11 * SECOND]
  {
    var l, now := Limits(1, SECOND), 11 * SECOND;
    NoEvictionIsUndisturbed(l, Init(0), HeldIdleLog());
    HeldIdleLogState();
    var s := Run(l, Init(0), HeldIdleLog());
    assert s.handlers[1].Holding? && s.handlers[1].log == 0;
    assert Step(l, s, Evict("a", now)) == Orphaned();
    OrphanedAdmitsTwice();
  }

  /** The state after the eviction in that run. */
  function Orphaned(): State {
    State(11 * SECOND, map[], [[0]], [[0]], [Done, Holding("a", 0)], map["a" := [0]], map["a" := [0]])
  }

  lemma {:induction false} OrphanedAdmitsTwice()
    ensures AdmittedTo(Run(Limits(1, SECOND), Orphaned(), [Lookup("a"), Create(2), Check(2), Check(1)]), "a")
         == [0, 11 * SECOND, 11 * SECOND]
  {
    var l, now, s1 := Limits(1, SECOND), 11 * SECOND, Orphaned();
    var s3 := Step(l, Step(l, s1, Lookup("a")), Create(2));
    assert s3.handlers == [Done, Holding("a", 0), Holding("a", 1)] && s3.logs == [[0], []];
    assert Prune([], now, SECOND) == [];
    PruneAll([0], now, SECOND);
    var s4 := Step(l, s3, Check(2));
    assert AdmittedTo(s4, "a") == [0, now] && s4.logs[0] == [0];
    RunTwo(l, s1, Lookup("a"), Create(2));
    RunTwo(l, s3, Check(2), Check(1));
    RunConcat(l, s1, [Lookup("a"), Create(2)], [Check(2), Check(1)]);
    assert [Lookup("a"), Create(2), Check(2), Check(1)] == [Lookup("a"), Create(2)] + [Check(2), Check(1)];
  }

  ghost predicate SafeForever(l: Limits, s: State) {
    forall es: seq<Event>, c: string :: Undisturbed(l, s, es) ==>
      WithinLimit(AdmittedTo(Run(l, s, es), c), l.perWindow, l.window)
  }

  /** Exact safety of an eviction: after an undisturbed run, evicting a client keeps the
      per-client bound in every undisturbed continuation if and only if no handler is holding
      the evicted log. */
  lemma {:induction false} EvictionIsSafeIff(l: Limits, start: int, es: seq<Event>, client: string, sweepTime: int)
    requires l.Valid() && Undisturbed(l, Init(start), es)
    ensures var s := Run(l, Init(start), es);
            var e := Evict(client, sweepTime);
            SafeForever(l, Step(l, s, e)) <==> !Disturbs(l, s, e)
  {
    var s := Run(l, Init(start), es);
    var e := Evict(client, sweepTime);
    var s' := Step(l, s, e);
    InitShared(l, start);
    RunKeepsShared(l, Init(start), es);
    StepKeepsInv(l, s, e);
    if Disturbs(l, s, e) {
      var h :| 0 <= h < |s.handlers| && s.handlers[h].Holding? && s.handlers[h].log == s.store[client];
      var bad := OrphanBreaksLimit(l, s', h);
      assert !SafeForever(l, s');
    } else {
      StepKeepsShared(l, s, e);
      forall more: seq<Event>, c: string | Undisturbed(l, s', more)
        ensures WithinLimit(AdmittedTo(Run(l, s', more), c), l.perWindow, l.window)
      {
        RunKeepsShared(l, s', more);
        ClientOkWithinLimit(l, Run(l, s', more), c);
      }
    }
  }

  // ---------- one at a time ----------

  /** The stamps the store has for each client. */
  function Contents(s: State): Store {
    map c | c in s.store && s.store[c] < |s.logs| :: s.logs[s.store[c]]
  }

  /** Lookup and creation with nothing in between leave the handler with the client's one log. */
  lemma {:induction false} LogInHand(l: Limits, s: State, client: string)
    requires Inv(l, s)
    ensures var h := |s.handlers|;
            var s2 := Step(l, Step(l, s, Lookup(client)), Create(h));
            && client in s2.store && s2.store[client] < |s2.logs| == |s2.histories|
            && s2.handlers == s.handlers + [Holding(client, s2.store[client])]
            && s2.logs[s2.store[client]] == LogOf(Contents(s), client)
            && s2.now == s.now && s2.admitted == s.admitted && s2.asked == s.asked
            && (forall c :: c != client ==> (c in s2.store <==> c in s.store))
            && (forall c :: c != client && c in s.store ==>
                  && s2.store[c] == s.store[c] < |s2.logs| && s2.logs[s2.store[c]] == s.logs[s.store[c]]
                  && s2.store[c] != s2.store[client])
  {}

  lemma {:induction false} CheckContents(l: Limits, s: State, h: nat, client: string)
    requires h < |s.handlers| && client in s.store && s.handlers[h] == Holding(client, s.store[client])
    requires forall c :: c in s.store ==> s.store[c] < |s.logs| == |s.histories|
    requires forall c :: c in s.store && c != client ==> s.store[c] != s.store[client]
    ensures Contents(AfterCheck(l, s, h)) == RateLimiter.AfterRequest(l, Contents(s), client, s.now)
  {
    var s', id := AfterCheck(l, s, h), s.store[client];
    assert s'.store == s.store && |s'.logs| == |s.logs|;
    assert forall c :: c in s.store ==> c in Contents(s) && Contents(s)[c] == s.logs[s.store[c]];
    assert forall c :: c in s.store ==> c in Contents(s') && Contents(s')[c] == s'.logs[s.store[c]];
    assert LogOf(Contents(s), client) == s.logs[id];
  }

  lemma {:induction false} AfterRequestOfSame(l: Limits, a: Store, b: Store, client: string, now: int)
    requires LogOf(a, client) == LogOf(b, client)
    requires forall c :: c != client ==> (c in a <==> c in b)
    requires forall c :: c != client && c in a ==> a[c] == b[c]
    ensures RateLimiter.AfterRequest(l, a, client, now) == RateLimiter.AfterRequest(l, b, client, now)
  {}

  lemma {:induction false} CreationKeepsContents(l: Limits, s: State, client: string)
    requires Inv(l, s)
    ensures var s2 := Step(l, Step(l, s, Lookup(client)), Create(|s.handlers|));
            && LogOf(Contents(s2), client) == LogOf(Contents(s), client)
            && (forall c :: c != client ==> (c in Contents(s2) <==> c in Contents(s)))
            && (forall c :: c != client && c in Contents(s) ==> Contents(s2)[c] == Contents(s)[c])
  {
    LogInHand(l, s, client);
  }

  /** A request that nothing interrupts is the sequential plugin: from every reachable state it
      moves the store's contents as `AfterRequest` does, and is admitted as `Allows` says. */
  lemma {:induction false} RequestAlone(l: Limits, s: State, client: string)
    requires Inv(l, s)
    ensures var s' := Run(l, s, WholeRequest(s, client));
            && Contents(s') == RateLimiter.AfterRequest(l, Contents(s), client, s.now)
            && AdmittedTo(s', client) == AdmittedTo(s, client) +
                 (if Allows(l, Contents(s), client, s.now) then [s.now] else [])
            && AskedBy(s', client) == AskedBy(s, client) + [s.now]
  {
    var h := |s.handlers|;
    WholeRequestRuns(l, s, client);
    var s2 := Step(l, Step(l, s, Lookup(client)), Create(h));
    assert Contents(AfterCheck(l, s2, h)) == RateLimiter.AfterRequest(l, Contents(s), client, s.now)
           && s2.handlers[h] == Holding(client, s2.store[client]) by {
      LogInHand(l, s, client);
      CheckContents(l, s2, h, client);
      CreationKeepsContents(l, s, client);
      AfterRequestOfSame(l, Contents(s2), Contents(s), client, s.now);
    }
    CheckDecides(l, s, client);
  }

  lemma {:induction false} CheckDecides(l: Limits, s: State, client: string)
    requires Inv(l, s)
    ensures var h := |s.handlers|;
            var s2 := Step(l, Step(l, s, Lookup(client)), Create(h));
            var s' := Step(l, s2, Check(h));
            && AdmittedTo(s', client) == AdmittedTo(s, client) +
                 (if Allows(l, Contents(s), client, s.now) then [s.now] else [])
            && AskedBy(s', client) == AskedBy(s, client) + [s.now]
  {
    LogInHand(l, s, client);
  }

  function EvictAll(clients: seq<string>, now: int): (es: seq<Event>)
    ensures |es| == |clients| && forall i :: 0 <= i < |clients| ==> es[i] == Evict(clients[i], now)
  {
    seq(|clients|, i requires 0 <= i < |clients| => Evict(clients[i], now))
  }

  /** The store without the idle ones among `clients`. */
  function Swept(l: Limits, s: State, clients: seq<string>): map<string, nat> {
    map c | c in s.store &&
            (c !in clients || s.store[c] >= |s.logs| || !Idle(l, s.logs[s.store[c]], s.now)) :: s.store[c]
  }

  /** A sweep that visits the clients one by one removes from the store exactly the idle ones among
      them; over all clients it is the sequential sweep. */
  lemma {:induction false} SweepAlone(l: Limits, s: State, clients: seq<string>)
    ensures Run(l, s, EvictAll(clients, s.now)) == s.(store := Swept(l, s, clients))
    ensures (forall c :: c in s.store ==> c in clients) ==>
              Contents(Run(l, s, EvictAll(clients, s.now))) == AfterSweep(l, Contents(s), s.now)
  {
    if clients == [] {
      assert Swept(l, s, []) == s.store;
    } else {
      var n := |clients| - 1;
      SweepAlone(l, s, clients[..n]);
      assert EvictAll(clients, s.now)[..n] == EvictAll(clients[..n], s.now);
      SweptStep(l, s, clients[..n], clients[n]);
      assert clients == clients[..n] + [clients[n]];
    }
    SweptContents(l, s, clients);
  }

  lemma {:induction false} SweptStep(l: Limits, s: State, clients: seq<string>, client: string)
    ensures Step(l, s.(store := Swept(l, s, clients)), Evict(client, s.now))
         == s.(store := Swept(l, s, clients + [client]))
  {
    var s1 := s.(store := Swept(l, s, clients));
    assert Step(l, s1, Evict(client, s.now)).store == Swept(l, s, clients + [client]);
  }

  lemma {:induction false} SweptContents(l: Limits, s: State, clients: seq<string>)
    ensures (forall c :: c in s.store ==> c in clients) ==>
              Contents(s.(store := Swept(l, s, clients))) == AfterSweep(l, Contents(s), s.now)
  {}
}
