/** Selection by requests that overlap.  Round-robin calls share the ticket counter one draw at a
    time (app/proxy/loadbalancer.go:173-183).  A least-connections call reads the counters one
    target at a time under a shared lock (app/proxy/loadbalancer.go:358-380), and its request
    increments the chosen counter later still, under no lock (app/proxy/proxy.go:272). */
module SelectionInterleaving {
  import opened Options
  import opened Selection

  // ---------- round robin, one ticket at a time ----------

  datatype Call = Scanning(tries: nat) | Returned(target: nat) | Failed

  /** Calls are numbered by arrival; health does not change. */
  datatype Tickets = Tickets(counter: uint32, calls: seq<Call>)

  datatype Draw = Enter | Ticket(call: nat)

  function DrawStep(health: seq<bool>, s: Tickets, e: Draw): Tickets {
    match e
    case Enter => s.(calls := s.calls + [if health == [] then Failed else Scanning(0)])
    case Ticket(c) =>
      if c >= |s.calls| || !s.calls[c].Scanning? || health == [] then s
      else
        var i, tries := s.counter % |health|, s.calls[c].tries + 1;
        Tickets(Add32(s.counter, 1),
                s.calls[c := if health[i] then Returned(i)
                             else if tries >= |health| then Failed else Scanning(tries)])
  }

  function DrawRun(health: seq<bool>, s: Tickets, es: seq<Draw>): Tickets {
    if es == [] then s else DrawStep(health, DrawRun(health, s, es[..|es| - 1]), es[|es| - 1])
  }

  lemma {:induction false} DrawAppend(health: seq<bool>, s: Tickets, es: seq<Draw>, e: Draw)
    ensures DrawRun(health, s, es + [e]) == DrawStep(health, DrawRun(health, s, es), e)
  {
    assert (es + [e])[..|es|] == es;
  }

  lemma {:induction false} DrawConcat(health: seq<bool>, s: Tickets, a: seq<Draw>, b: seq<Draw>)
    ensures DrawRun(health, s, a + b) == DrawRun(health, DrawRun(health, s, a), b)
  {
    if b == [] {
      assert a + b == a;
    } else {
      DrawConcat(health, s, a, b[..|b| - 1]);
      assert (a + b)[..|a + b| - 1] == a + b[..|b| - 1];
    }
  }

  /** No call fails while some target is healthy, from this counter and in any interleaving. */
  ghost predicate CompleteFrom(health: seq<bool>, counter: uint32) {
    forall es: seq<Draw> :: true in health ==> Failed !in DrawRun(health, Tickets(counter, []), es).calls
  }

  /** With every target healthy a call ends at its first ticket. */
  lemma {:induction false} AllHealthyNeverFails(health: seq<bool>, counter: uint32, es: seq<Draw>)
    requires health != [] && forall i :: 0 <= i < |health| ==> health[i]
    ensures forall c :: 0 <= c < |DrawRun(health, Tickets(counter, []), es).calls| ==>
              !DrawRun(health, Tickets(counter, []), es).calls[c].Failed?
  {
    if es != [] { AllHealthyNeverFails(health, counter, es[..|es| - 1]); }
  }

  /** Call c draws n tickets, or as many as it needs. */
  function DrawAll(c: nat, n: nat): seq<Draw> {
    if n == 0 then [] else [Ticket(c)] + DrawAll(c, n - 1)
  }

  lemma {:induction false} FinishedCallRests(health: seq<bool>, s: Tickets, c: nat, n: nat)
    requires c < |s.calls| && !s.calls[c].Scanning?
    ensures DrawRun(health, s, DrawAll(c, n)) == s
  {
    if n > 0 {
      DrawCons(health, s, Ticket(c), DrawAll(c, n - 1));
      FinishedCallRests(health, s, c, n - 1);
    }
  }

  lemma {:induction false} DrawCons(health: seq<bool>, s: Tickets, e: Draw, es: seq<Draw>)
    ensures DrawRun(health, s, [e] + es) == DrawRun(health, DrawStep(health, s, e), es)
  {
    DrawConcat(health, s, [e], es);
    DrawAppend(health, s, [], e);
    assert [] + [e] == [e];
  }

  lemma {:induction false} LoneDraw(health: seq<bool>, s: Tickets, c: nat, start: uint32, j: nat)
    requires j < |health| < UINT32 && c < |s.calls| && s.calls[c] == Scanning(j) && s.counter == Add32(start, j)
    ensures var i := Visited(start, j, |health|);
            DrawStep(health, s, Ticket(c)) ==
            Tickets(Add32(start, j + 1),
                    s.calls[c := if health[i] then Returned(i)
                                 else if j + 1 >= |health| then Failed else Scanning(j + 1)])
  {}

  /** Where call c stands when its first healthy ticket is k, or none. */
  function Outcome(start: uint32, n: nat, k: Option<nat>): Call
    requires 0 < n < UINT32 && (k.Some? ==> k.value < n)
  {
    if k.Some? then Returned(Visited(start, k.value, n)) else Failed
  }

  /** The first healthy ticket from j on is j or the first from j + 1 on. */
  lemma {:induction false} TicketFrom(health: seq<bool>, start: uint32, j: nat)
    requires j < |health| < UINT32
    ensures FirstHealthyTicket(health, start, j) ==
            if health[Visited(start, j, |health|)] then Some(j)
            else if j + 1 == |health| then None else FirstHealthyTicket(health, start, j + 1)
  {}

  lemma {:induction false} LoneDraws(health: seq<bool>, s: Tickets, c: nat, start: uint32, j: nat)
    requires j < |health| < UINT32 && c < |s.calls| && s.calls[c] == Scanning(j) && s.counter == Add32(start, j)
    ensures var k := FirstHealthyTicket(health, start, j);
            DrawRun(health, s, DrawAll(c, |health| - j)) ==
            Tickets(Add32(start, if k.Some? then k.value + 1 else |health|), s.calls[c := Outcome(start, |health|, k)])
    decreases |health| - j
  {
    var n, s1 := |health|, DrawStep(health, s, Ticket(c));
    LoneDraw(health, s, c, start, j);
    TicketFrom(health, start, j);
    assert DrawRun(health, s, DrawAll(c, n - j)) == DrawRun(health, s1, DrawAll(c, n - j - 1)) by {
      DrawCons(health, s, Ticket(c), DrawAll(c, n - j - 1));
    }
    if health[Visited(start, j, n)] || j + 1 == n {
      FinishedCallRests(health, s1, c, n - j - 1);
    } else {
      LoneDraws(health, s1, c, start, j + 1);
      var x := Outcome(start, n, FirstHealthyTicket(health, start, j + 1));
      assert s1.calls[c := x] == s.calls[c := x];
    }
  }

  /** A call whose draws are not interrupted is `Scan`: the same target or failure, and the same
      counter afterwards. */
  lemma {:induction false} LoneCallIsScan(health: seq<bool>, s: Tickets)
    requires |health| < UINT32
    ensures var s' := DrawRun(health, DrawStep(health, s, Enter), DrawAll(|s.calls|, |health|));
            && s'.counter == CounterAfterScan(health, s.counter)
            && s'.calls == s.calls + [match Scan(health, s.counter) case Some(i) => Returned(i) case None => Failed]
  {
    if health != [] { LoneDraws(health, DrawStep(health, s, Enter), |s.calls|, s.counter, 0); }
  }

  /** Other calls can use up tickets until the next one is for target b, leaving call 0 alone. */
  lemma {:induction false} OthersAdvance(health: seq<bool>, s: Tickets, b: nat, wrapped: bool) returns (es: seq<Draw>)
    requires b < |health| < UINT32 && |s.calls| > 0 && (wrapped ==> s.counter <= b)
    ensures var s' := DrawRun(health, s, es);
            s'.counter % |health| == b && |s'.calls| > 0 && s'.calls[0] == s.calls[0]
    decreases if wrapped then 0 else 1, UINT32 - s.counter
  {
    if s.counter % |health| == b {
      es := [];
    } else {
      if s.counter == b { ModUnique(0, |health|, b); }
      var c := |s.calls|;
      var s1 := DrawStep(health, DrawStep(health, s, Enter), Ticket(c));
      DrawAppend(health, s, [], Enter);
      assert [] + [Enter] == [Enter] && [Enter] + [Ticket(c)] == [Enter, Ticket(c)];
      DrawAppend(health, s, [Enter], Ticket(c));
      var rest := OthersAdvance(health, s1, b, wrapped || s1.counter == 0);
      DrawConcat(health, s, [Enter, Ticket(c)], rest);
      es := [Enter, Ticket(c)] + rest;
    }
  }

  /** Call 0 can be made to draw only tickets of the unhealthy target b, until it gives up. */
  lemma {:induction false} DrawOnlyUnhealthy(health: seq<bool>, s: Tickets, b: nat) returns (es: seq<Draw>)
    requires b < |health| < UINT32 && !health[b]
    requires |s.calls| > 0 && s.calls[0].Scanning? && s.calls[0].tries < |health|
    ensures var s' := DrawRun(health, s, es); |s'.calls| > 0 && s'.calls[0] == Failed
    decreases |health| - s.calls[0].tries
  {
    var front := OthersAdvance(health, s, b, false);
    var s1 := DrawRun(health, s, front);
    DrawAppend(health, s, front, Ticket(0));
    var s2 := DrawStep(health, s1, Ticket(0));
    if s2.calls[0].Failed? {
      es := front + [Ticket(0)];
    } else {
      var rest := DrawOnlyUnhealthy(health, s2, b);
      DrawConcat(health, s, front + [Ticket(0)], rest);
      es := front + [Ticket(0)] + rest;
    }
  }

  /** Exact completeness under overlap, for every pool and every counter: no interleaving makes a
      call fail while a target is healthy, if and only if the pool is not a mixture of healthy and
      unhealthy targets. */
  lemma {:induction false} OverlappingScansCompleteIff(health: seq<bool>, counter: uint32)
    requires |health| < UINT32
    ensures CompleteFrom(health, counter) <==> !(true in health && false in health)
  {
    var start := Tickets(counter, []);
    if true in health && false in health {
      var b :| 0 <= b < |health| && !health[b];
      var s := DrawStep(health, start, Enter);
      var rest := DrawOnlyUnhealthy(health, s, b);
      DrawAppend(health, start, [], Enter);
      assert [] + [Enter] == [Enter];
      DrawConcat(health, start, [Enter], rest);
      assert DrawRun(health, start, [Enter] + rest).calls[0] == Failed;
    } else if true in health {
      forall es: seq<Draw> ensures Failed !in DrawRun(health, start, es).calls {
        AllHealthyNeverFails(health, counter, es);
      }
    }
  }

  /** Over all health vectors: safe for n targets exactly when there is at most one. */
  lemma {:induction false} OverlappingScansSizeIff(n: nat, counter: uint32)
    requires n < UINT32
    ensures (forall health: seq<bool> :: |health| == n ==> CompleteFrom(health, counter)) <==> n <= 1
  {
    if n >= 2 {
      var health := OnlyHealthy(n, 0);
      assert health[0] && !health[1] && true in health && false in health;
      OverlappingScansCompleteIff(health, counter);
    } else {
      forall health: seq<bool> | |health| == n ensures CompleteFrom(health, counter) {
        OverlappingScansCompleteIff(health, counter);
      }
    }
  }

  // ---------- least connections, one read at a time ----------

  /** A request from entering `Next` to its increment.  `Reading` has looked at the targets before
      `next`; `best` is the best of them so far and `least` the count read there. */
  datatype Flight =
    | Reading(next: nat, best: Option<nat>, least: int)
    | Chosen(target: nat, least: int)
    | Finished

  /** Requests are numbered by arrival; health does not change.  `top` only observes: the largest
      count any request that incremented target t had read there, initially t's count. */
  datatype Loads = Loads(conns: seq<int>, flights: seq<Flight>, top: seq<int>)

  datatype Move = Arrive | Read(request: nat) | Increment(request: nat)

  function InFlight(fs: seq<Flight>): nat {
    if fs == [] then 0
    else InFlight(fs[..|fs| - 1]) + if fs[|fs| - 1].Finished? then 0 else 1
  }

  function AfterRead(health: seq<bool>, conns: seq<int>, f: Flight): Flight
    requires f.Reading? && |health| == |conns|
  {
    if f.next >= |health| then (if f.best.Some? then Chosen(f.best.value, f.least) else Finished)
    else if health[f.next] && (f.best.None? || conns[f.next] < f.least)
    then Reading(f.next + 1, Some(f.next), conns[f.next])
    else Reading(f.next + 1, f.best, f.least)
  }

  /** At most `limit` requests are between entering `Next` and their increment. */
  function MoveStep(health: seq<bool>, limit: nat, s: Loads, e: Move): (s': Loads)
    requires |health| == |s.conns| == |s.top|
    ensures |s'.conns| == |s'.top| == |s.conns|
  {
    match e
    case Arrive => if InFlight(s.flights) < limit then s.(flights := s.flights + [Reading(0, None, -1)]) else s
    case Read(r) =>
      if r < |s.flights| && s.flights[r].Reading?
      then s.(flights := s.flights[r := AfterRead(health, s.conns, s.flights[r])]) else s
    case Increment(r) =>
      if r < |s.flights| && s.flights[r].Chosen? && s.flights[r].target < |s.conns| then
        var t, v := s.flights[r].target, s.flights[r].least;
        Loads(s.conns[t := s.conns[t] + 1], s.flights[r := Finished], s.top[t := if v > s.top[t] then v else s.top[t]])
      else s
  }

  function MoveRun(health: seq<bool>, limit: nat, s: Loads, es: seq<Move>): (s': Loads)
    requires |health| == |s.conns| == |s.top|
    ensures |s'.conns| == |s'.top| == |s.conns|
  {
    if es == [] then s else MoveStep(health, limit, MoveRun(health, limit, s, es[..|es| - 1]), es[|es| - 1])
  }

  function Quiet(conns: seq<int>): Loads {
    Loads(conns, [], conns)
  }

  /** The target a request would increment if it looked no further. */
  predicate Leans(f: Flight, t: nat, w: int) {
    || (f.Reading? && f.best == Some(t) && f.least <= w)
    || (f.Chosen? && f.target == t && f.least <= w)
  }

  /** How many requests lean towards t having read at most w there. */
  function Leaning(fs: seq<Flight>, t: nat, w: int): nat {
    if fs == [] then 0
    else Leaning(fs[..|fs| - 1], t, w) + if Leans(fs[|fs| - 1], t, w) then 1 else 0
  }

  lemma {:induction false} LeaningBound(fs: seq<Flight>, t: nat, w: int)
    ensures Leaning(fs, t, w) <= InFlight(fs)
  {
    if fs != [] { LeaningBound(fs[..|fs| - 1], t, w); }
  }

  lemma {:induction false} LeaningUpdate(fs: seq<Flight>, r: nat, f: Flight, t: nat, w: int)
    requires r < |fs|
    ensures Leaning(fs[r := f], t, w) + (if Leans(fs[r], t, w) then 1 else 0)
         == Leaning(fs, t, w) + (if Leans(f, t, w) then 1 else 0)
    ensures InFlight(fs[r := f]) + (if fs[r].Finished? then 0 else 1)
         == InFlight(fs) + (if f.Finished? then 0 else 1)
  {
    var n := |fs| - 1;
    if r == n {
      assert fs[r := f][..n] == fs[..n];
    } else {
      assert fs[r := f][..n] == fs[..n][r := f];
      LeaningUpdate(fs[..n], r, f, t, w);
    }
  }

  lemma {:induction false} LeaningAppend(fs: seq<Flight>, f: Flight, t: nat, w: int)
    ensures Leaning(fs + [f], t, w) == Leaning(fs, t, w) + if Leans(f, t, w) then 1 else 0
    ensures InFlight(fs + [f]) == InFlight(fs) + if f.Finished? then 0 else 1
  {
    assert (fs + [f])[..|fs|] == fs;
  }

  /** What one request knows: the count it holds was once its target's, and no healthy target it
      has looked at is below that count. */
  ghost predicate FlightOk(health: seq<bool>, init: seq<int>, conns: seq<int>, f: Flight)
    requires |health| == |init| == |conns|
  {
    match f
    case Finished => true
    case Reading(next, best, least) =>
      && next <= |health|
      && (best.Some? ==> best.value < |health| && health[best.value] && init[best.value] <= least)
      && (forall u :: 0 <= u < next && health[u] ==> best.Some? && least <= conns[u])
    case Chosen(t, least) =>
      && t < |health| && health[t] && init[t] <= least
      && (forall u :: 0 <= u < |health| && health[u] ==> least <= conns[u])
  }

  /** For one target: a count above the initial one is explained by `top`, which no healthy target
      is below; and since the count passed w, only requests that had read at most w were added,
      all of them in flight together. */
  ghost predicate TargetOk(health: seq<bool>, limit: nat, init: seq<int>, s: Loads, t: nat)
    requires |health| == |init| == |s.conns| == |s.top| && t < |health|
  {
    && init[t] <= s.top[t] <= s.conns[t]
    && (s.conns[t] == init[t] || forall u :: 0 <= u < |health| && health[u] ==> s.top[t] <= s.conns[u])
    && (forall w :: s.top[t] <= w <= s.conns[t] ==> s.conns[t] - w + Leaning(s.flights, t, w) <= limit)
  }

  ghost predicate LoadsOk(health: seq<bool>, limit: nat, init: seq<int>, s: Loads)
    requires |health| == |init| == |s.conns| == |s.top|
  {
    && InFlight(s.flights) <= limit
    && (forall r :: 0 <= r < |s.flights| ==> FlightOk(health, init, s.conns, s.flights[r]))
    && (forall t :: 0 <= t < |health| ==> TargetOk(health, limit, init, s, t))
  }

  lemma {:induction false} ArriveKeeps(health: seq<bool>, limit: nat, init: seq<int>, s: Loads)
    requires |health| == |init| == |s.conns| == |s.top| && LoadsOk(health, limit, init, s)
    ensures LoadsOk(health, limit, init, MoveStep(health, limit, s, Arrive))
  {
    var f, s' := Reading(0, None, -1), MoveStep(health, limit, s, Arrive);
    if s' == s { return; }
    assert s' == s.(flights := s.flights + [f]);
    LeaningAppend(s.flights, f, 0, 0);
    forall t | 0 <= t < |health| ensures TargetOk(health, limit, init, s', t) {
      assert TargetOk(health, limit, init, s, t);
      forall w | s.top[t] <= w <= s.conns[t]
        ensures s.conns[t] - w + Leaning(s'.flights, t, w) <= limit
      {
        LeaningAppend(s.flights, f, t, w);
        assert s.conns[t] - w + Leaning(s.flights, t, w) <= limit;
      }
    }
  }

  lemma {:induction false} ReadKeeps(health: seq<bool>, limit: nat, init: seq<int>, s: Loads, r: nat)
    requires |health| == |init| == |s.conns| == |s.top| && LoadsOk(health, limit, init, s)
    requires r < |s.flights| && s.flights[r].Reading?
    ensures LoadsOk(health, limit, init, MoveStep(health, limit, s, Read(r)))
  {
    var f, f' := s.flights[r], AfterRead(health, s.conns, s.flights[r]);
    var s' := MoveStep(health, limit, s, Read(r));
    assert FlightOk(health, init, s.conns, f);
    assert f.next < |health| ==> TargetOk(health, limit, init, s, f.next);
    assert FlightOk(health, init, s.conns, f');
    LeaningUpdate(s.flights, r, f', 0, 0);
    forall t | 0 <= t < |health| ensures TargetOk(health, limit, init, s', t) {
      assert TargetOk(health, limit, init, s, t);
      forall w | s.top[t] <= w <= s.conns[t]
        ensures s.conns[t] - w + Leaning(s'.flights, t, w) <= limit
      {
        LeaningUpdate(s.flights, r, f', t, w);
        LeaningBound(s'.flights, t, w);
      }
    }
  }

  lemma {:induction false} IncrementKeepsTarget(health: seq<bool>, limit: nat, init: seq<int>, s: Loads, r: nat, t: nat)
    requires |health| == |init| == |s.conns| == |s.top| && LoadsOk(health, limit, init, s)
    requires r < |s.flights| && s.flights[r].Chosen? && t < |health|
    ensures TargetOk(health, limit, init, MoveStep(health, limit, s, Increment(r)), t)
  {
    var f, s' := s.flights[r], MoveStep(health, limit, s, Increment(r));
    assert FlightOk(health, init, s.conns, f);
    assert TargetOk(health, limit, init, s, t);
    LeaningUpdate(s.flights, r, Finished, t, 0);
    forall w | s'.top[t] <= w <= s'.conns[t]
      ensures s'.conns[t] - w + Leaning(s'.flights, t, w) <= limit
    {
      LeaningUpdate(s.flights, r, Finished, t, w);
      LeaningBound(s'.flights, t, w);
    }
    if s'.conns[t] != init[t] {
      forall u | 0 <= u < |health| && health[u] ensures s'.top[t] <= s'.conns[u] {}
    }
  }

  lemma {:induction false} IncrementKeeps(health: seq<bool>, limit: nat, init: seq<int>, s: Loads, r: nat)
    requires |health| == |init| == |s.conns| == |s.top| && LoadsOk(health, limit, init, s)
    requires r < |s.flights| && s.flights[r].Chosen?
    ensures LoadsOk(health, limit, init, MoveStep(health, limit, s, Increment(r)))
  {
    var s' := MoveStep(health, limit, s, Increment(r));
    assert FlightOk(health, init, s.conns, s.flights[r]);
    LeaningUpdate(s.flights, r, Finished, 0, 0);
    forall q | 0 <= q < |s'.flights| ensures FlightOk(health, init, s'.conns, s'.flights[q]) {
      assert FlightOk(health, init, s.conns, s.flights[q]);
    }
    forall t | 0 <= t < |health| ensures TargetOk(health, limit, init, s', t) {
      IncrementKeepsTarget(health, limit, init, s, r, t);
    }
  }

  lemma {:induction false} MoveKeepsOk(health: seq<bool>, limit: nat, init: seq<int>, s: Loads, e: Move)
    requires |health| == |init| == |s.conns| == |s.top| && LoadsOk(health, limit, init, s)
    ensures LoadsOk(health, limit, init, MoveStep(health, limit, s, e))
  {
    match e
    case Arrive => ArriveKeeps(health, limit, init, s);
    case Read(r) => if r < |s.flights| && s.flights[r].Reading? { ReadKeeps(health, limit, init, s, r); }
    case Increment(r) => if r < |s.flights| && s.flights[r].Chosen? { IncrementKeeps(health, limit, init, s, r); }
  }

  lemma {:induction false} RunKeepsOk(health: seq<bool>, limit: nat, init: seq<int>, es: seq<Move>)
    requires |health| == |init|
    ensures LoadsOk(health, limit, init, MoveRun(health, limit, Quiet(init), es))
  {
    if es != [] {
      RunKeepsOk(health, limit, init, es[..|es| - 1]);
      MoveKeepsOk(health, limit, init, MoveRun(health, limit, Quiet(init), es[..|es| - 1]), es[|es| - 1]);
    }
  }

  lemma {:induction false} CountsOnlyGrow(health: seq<bool>, limit: nat, init: seq<int>, es: seq<Move>, u: nat)
    requires |health| == |init| && u < |init|
    ensures init[u] <= MoveRun(health, limit, Quiet(init), es).conns[u]
  {
    if es != [] { CountsOnlyGrow(health, limit, init, es[..|es| - 1], u); }
  }

  /** With at most m requests between entering `Next` and their increment, and no completions, no
      interleaving of reads and increments raises the spread above the larger of its old value
      and m. */
  lemma {:induction false} OverlapKeepsSpread(health: seq<bool>, init: seq<int>, limit: nat, es: seq<Move>, d: int)
    requires |health| == |init| && d >= limit && SpreadAtMost(health, init, d)
    ensures SpreadAtMost(health, MoveRun(health, limit, Quiet(init), es).conns, d)
  {
    var s := MoveRun(health, limit, Quiet(init), es);
    RunKeepsOk(health, limit, init, es);
    forall t, u | 0 <= t < |health| && 0 <= u < |health| && health[t] && health[u]
      ensures s.conns[t] - s.conns[u] <= d
    {
      assert TargetOk(health, limit, init, s, t);
      assert s.conns[t] - s.top[t] + Leaning(s.flights, t, s.top[t]) <= limit;
      if s.conns[t] == init[t] { CountsOnlyGrow(health, limit, init, es, u); }
    }
  }

  // ---------- a scan that is not overlapped ----------

  /** A read of all remaining targets with no step in between. */
  function ReadOut(health: seq<bool>, conns: seq<int>, f: Flight): Flight
    requires |health| == |conns|
    decreases if f.Reading? then |health| + 1 - f.next else 0
  {
    if f.Reading? && f.next <= |health| then ReadOut(health, conns, AfterRead(health, conns, f)) else f
  }

  lemma {:induction false} ReadOutFrom(health: seq<bool>, conns: seq<int>, f: Flight)
    requires |health| == |conns| && f.Reading? && f.next <= |health|
    requires f.best == LeastLoaded(health[..f.next], conns[..f.next])
    requires f.best.Some? ==> f.least == conns[f.best.value]
    ensures match LeastLoaded(health, conns)
            case None => ReadOut(health, conns, f) == Finished
            case Some(t) => ReadOut(health, conns, f) == Chosen(t, conns[t])
    decreases |health| - f.next
  {
    if f.next < |health| {
      var k := f.next;
      assert health[..k + 1][..k] == health[..k] && conns[..k + 1][..k] == conns[..k];
      ReadOutFrom(health, conns, AfterRead(health, conns, f));
    } else {
      assert health[..f.next] == health && conns[..f.next] == conns;
    }
  }

  /** Left alone, the scan returns the leftmost least-loaded healthy target. */
  lemma {:induction false} UninterruptedScan(health: seq<bool>, conns: seq<int>)
    requires |health| == |conns|
    ensures match LeastLoaded(health, conns)
            case None => ReadOut(health, conns, Reading(0, None, -1)) == Finished
            case Some(t) => ReadOut(health, conns, Reading(0, None, -1)) == Chosen(t, conns[t])
  {
    ReadOutFrom(health, conns, Reading(0, None, -1));
  }

  // ---------- the bound is tight ----------

  lemma {:induction false} MoveAppend(health: seq<bool>, limit: nat, s: Loads, es: seq<Move>, e: Move)
    requires |health| == |s.conns| == |s.top|
    ensures MoveRun(health, limit, s, es + [e]) == MoveStep(health, limit, MoveRun(health, limit, s, es), e)
  {
    assert (es + [e])[..|es|] == es;
  }

  lemma {:induction false} MoveConcat(health: seq<bool>, limit: nat, s: Loads, a: seq<Move>, b: seq<Move>)
    requires |health| == |s.conns| == |s.top|
    ensures MoveRun(health, limit, s, a + b) == MoveRun(health, limit, MoveRun(health, limit, s, a), b)
  {
    if b == [] {
      assert a + b == a;
    } else {
      MoveConcat(health, limit, s, a, b[..|b| - 1]);
      assert (a + b)[..|a + b| - 1] == a + b[..|b| - 1];
    }
  }

  /** Request r reads all its remaining targets in one go. */
  lemma {:induction false} ReadOutRuns(health: seq<bool>, limit: nat, s: Loads, r: nat) returns (es: seq<Move>)
    requires |health| == |s.conns| == |s.top| && r < |s.flights|
    ensures MoveRun(health, limit, s, es) == s.(flights := s.flights[r := ReadOut(health, s.conns, s.flights[r])])
    decreases if s.flights[r].Reading? then |health| + 1 - s.flights[r].next else 0
  {
    var f := s.flights[r];
    if f.Reading? && f.next <= |health| {
      var s1 := MoveStep(health, limit, s, Read(r));
      var rest := ReadOutRuns(health, limit, s1, r);
      MoveAppend(health, limit, s, [], Read(r));
      assert [] + [Read(r)] == [Read(r)];
      MoveConcat(health, limit, s, [Read(r)], rest);
      es := [Read(r)] + rest;
      assert s1.flights[r := ReadOut(health, s.conns, f)] == s.flights[r := ReadOut(health, s.conns, f)];
    } else {
      es := [];
      assert s.flights[r := f] == s.flights;
    }
  }

  /** m requests that have all chosen target t on reading v; the first k have incremented it. */
  function Piled(t: nat, v: int, m: nat, k: nat): (fs: seq<Flight>)
    ensures |fs| == m && forall i :: 0 <= i < m ==> fs[i] == if i < k then Finished else Chosen(t, v)
  {
    seq(m, i => if i < k then Finished else Chosen(t, v))
  }

  lemma {:induction false} PiledInFlight(fs: seq<Flight>, t: nat, v: int, m: nat, k: nat)
    requires k <= m
    ensures InFlight(fs + Piled(t, v, m, k)) == InFlight(fs) + m - k
  {
    if m == 0 {
      assert fs + Piled(t, v, m, k) == fs;
    } else {
      var j := if k < m then k else m - 1;
      PiledInFlight(fs, t, v, m - 1, j);
      var last := Piled(t, v, m, k)[m - 1];
      assert fs + Piled(t, v, m, k) == fs + Piled(t, v, m - 1, j) + [last];
      LeaningAppend(fs + Piled(t, v, m - 1, j), last, 0, 0);
    }
  }

  /** m requests arrive at a quiet balancer and read all counters; none increments. */
  lemma {:induction false} AllChoose(health: seq<bool>, limit: nat, s: Loads, t: nat, m: nat) returns (es: seq<Move>)
    requires |health| == |s.conns| == |s.top| && m <= limit
    requires InFlight(s.flights) == 0 && LeastLoaded(health, s.conns) == Some(t)
    ensures MoveRun(health, limit, s, es) == s.(flights := s.flights + Piled(t, s.conns[t], m, 0))
  {
    if m == 0 {
      es := [];
      assert s.flights + Piled(t, s.conns[t], 0, 0) == s.flights;
    } else {
      var front := AllChoose(health, limit, s, t, m - 1);
      var fs := s.flights + Piled(t, s.conns[t], m - 1, 0);
      PiledInFlight(s.flights, t, s.conns[t], m - 1, 0);
      MoveAppend(health, limit, s, front, Arrive);
      var s1 := MoveRun(health, limit, s, front + [Arrive]);
      assert s1 == s.(flights := fs + [Reading(0, None, -1)]);
      var rest := ReadOutRuns(health, limit, s1, |fs|);
      UninterruptedScan(health, s.conns);
      assert s1.flights[|fs| := Chosen(t, s.conns[t])] == s.flights + Piled(t, s.conns[t], m, 0);
      MoveConcat(health, limit, s, front + [Arrive], rest);
      es := front + [Arrive] + rest;
    }
  }

  lemma {:induction false} NextIncrement(health: seq<bool>, limit: nat, s: Loads, fs: seq<Flight>, t: nat, v: int,
      m: nat, k: nat)
    requires |health| == |s.conns| == |s.top| && t < |s.conns| && 1 <= k <= m
    requires s.flights == fs + Piled(t, v, m, k - 1)
    ensures var s' := MoveStep(health, limit, s, Increment(|fs| + k - 1));
            s'.conns == s.conns[t := s.conns[t] + 1] && s'.flights == fs + Piled(t, v, m, k)
  {
    assert s.flights[|fs| + k - 1] == Chosen(t, v);
    assert s.flights[|fs| + k - 1 := Finished] == fs + Piled(t, v, m, k);
  }

  /** Requests first .. first + k - 1 increment. */
  function Increments(first: nat, k: nat): seq<Move> {
    if k == 0 then [] else Increments(first, k - 1) + [Increment(first + k - 1)]
  }

  /** Of m requests that have all chosen t, the first k increment it. */
  lemma {:induction false} SomeIncrement(health: seq<bool>, limit: nat, s: Loads, fs: seq<Flight>, t: nat, v: int,
      m: nat, k: nat)
    requires |health| == |s.conns| == |s.top| && t < |s.conns| && k <= m && s.flights == fs + Piled(t, v, m, 0)
    ensures var s' := MoveRun(health, limit, s, Increments(|fs|, k));
            s'.conns == s.conns[t := s.conns[t] + k] && s'.flights == fs + Piled(t, v, m, k)
  {
    if k > 0 {
      SomeIncrement(health, limit, s, fs, t, v, m, k - 1);
      MoveAppend(health, limit, s, Increments(|fs|, k - 1), Increment(|fs| + k - 1));
      NextIncrement(health, limit, MoveRun(health, limit, s, Increments(|fs|, k - 1)), fs, t, v, m, k);
    }
  }

  /** m requests pile onto the least-loaded target t of a quiet balancer, which is then quiet again. */
  lemma {:induction false} PileUp(health: seq<bool>, limit: nat, s: Loads, t: nat, m: nat) returns (es: seq<Move>)
    requires |health| == |s.conns| == |s.top| && m <= limit
    requires InFlight(s.flights) == 0 && LeastLoaded(health, s.conns) == Some(t)
    ensures var s' := MoveRun(health, limit, s, es);
            s'.conns == s.conns[t := s.conns[t] + m] && InFlight(s'.flights) == 0
  {
    var v := s.conns[t];
    var front := AllChoose(health, limit, s, t, m);
    var s1 := s.(flights := s.flights + Piled(t, v, m, 0));
    SomeIncrement(health, limit, s1, s.flights, t, v, m, m);
    PiledInFlight(s.flights, t, v, m, m);
    MoveConcat(health, limit, s, front, Increments(|s.flights|, m));
    es := front + Increments(|s.flights|, m);
  }

  /** How far the healthy targets are below `high`, in all. */
  function Deficit(health: seq<bool>, conns: seq<int>, high: int): int
    requires |health| == |conns|
  {
    if health == [] then 0
    else
      var n := |health| - 1;
      Deficit(health[..n], conns[..n], high) + if health[n] then high - conns[n] else 0
  }

  lemma {:induction false} DeficitBump(health: seq<bool>, conns: seq<int>, high: int, t: nat)
    requires |health| == |conns| && t < |health| && health[t]
    ensures Deficit(health, conns[t := conns[t] + 1], high) == Deficit(health, conns, high) - 1
  {
    var n := |health| - 1;
    if t == n {
      assert conns[t := conns[t] + 1][..n] == conns[..n];
    } else {
      assert conns[t := conns[t] + 1][..n] == conns[..n][t := conns[t] + 1];
      DeficitBump(health[..n], conns[..n], high, t);
    }
  }

  ghost predicate Below(health: seq<bool>, conns: seq<int>, high: int)
    requires |health| == |conns|
  {
    forall i :: 0 <= i < |health| && health[i] ==> conns[i] <= high
  }

  lemma {:induction false} DeficitIsPositive(health: seq<bool>, conns: seq<int>, high: int)
    requires |health| == |conns| && Below(health, conns, high)
    ensures Deficit(health, conns, high) >= 0
  {
    if health != [] { DeficitIsPositive(health[..|health| - 1], conns[..|health| - 1], high); }
  }

  /** One request at a time fills the least loaded targets until the healthy ones are level. */
  lemma {:induction false} LevelUp(health: seq<bool>, limit: nat, s: Loads, high: int) returns (es: seq<Move>)
    requires |health| == |s.conns| == |s.top| && limit >= 1 && InFlight(s.flights) == 0
    requires true in health && Below(health, s.conns, high)
    ensures var s' := MoveRun(health, limit, s, es);
            InFlight(s'.flights) == 0 && forall i :: 0 <= i < |health| && health[i] ==> s'.conns[i] == high
    decreases Deficit(health, s.conns, high)
  {
    var t := LeastLoaded(health, s.conns).value;
    if s.conns[t] == high {
      es := [];
    } else {
      var front := PileUp(health, limit, s, t, 1);
      var s1 := MoveRun(health, limit, s, front);
      DeficitIsPositive(health, s1.conns, high);
      DeficitBump(health, s.conns, high, t);
      var rest := LevelUp(health, limit, s1, high);
      MoveConcat(health, limit, s, front, rest);
      es := front + rest;
    }
  }

  lemma {:induction false} SomeHigh(health: seq<bool>, conns: seq<int>) returns (high: int)
    requires |health| == |conns|
    ensures Below(health, conns, high)
  {
    if health == [] {
      high := 0;
    } else {
      var n := |health| - 1;
      high := SomeHigh(health[..n], conns[..n]);
      forall i | 0 <= i < n && health[i] ensures conns[i] <= high {
        assert health[..n][i] == health[i] && conns[..n][i] == conns[i];
      }
      if conns[n] > high { high := conns[n]; }
    }
  }

  /** From any counts, two healthy targets can be driven `limit` apart. */
  lemma {:induction false} SpreadReached(health: seq<bool>, init: seq<int>, limit: nat) returns (es: seq<Move>)
    requires |health| == |init| && exists i, j :: 0 <= i < j < |health| && health[i] && health[j]
    ensures var c := MoveRun(health, limit, Quiet(init), es).conns;
            exists t, u :: 0 <= t < |c| && 0 <= u < |c| && health[t] && health[u] && c[t] - c[u] >= limit
  {
    var i, j :| 0 <= i < j < |health| && health[i] && health[j];
    if limit == 0 {
      es := [];
      assert init[i] - init[i] >= 0;
    } else {
      var high := SomeHigh(health, init);
      var front := LevelUp(health, limit, Quiet(init), high);
      var s := MoveRun(health, limit, Quiet(init), front);
      var t := LeastLoaded(health, s.conns).value;
      var rest := PileUp(health, limit, s, t, limit);
      MoveConcat(health, limit, Quiet(init), front, rest);
      es := front + rest;
      var u := if t == i then j else i;
      var c := MoveRun(health, limit, Quiet(init), es).conns;
      assert c[t] - c[u] == limit;
    }
  }

  /** Exact spread under overlap, for every pool and all initial counts: a spread of at most d holds
      in every interleaving with at most m requests in flight, if and only if it holds at the
      start and d >= m or fewer than two targets are healthy. */
  lemma {:induction false} OverlapSpreadIff(health: seq<bool>, init: seq<int>, limit: nat, d: int)
    requires |health| == |init|
    ensures (forall es: seq<Move> :: SpreadAtMost(health, MoveRun(health, limit, Quiet(init), es).conns, d)) <==>
            && SpreadAtMost(health, init, d)
            && (d >= limit || forall i, j :: 0 <= i < j < |health| && health[i] ==> !health[j])
  {
    if !SpreadAtMost(health, init, d) {
      assert MoveRun(health, limit, Quiet(init), []).conns == init;
    } else if d >= limit {
      forall es: seq<Move> ensures SpreadAtMost(health, MoveRun(health, limit, Quiet(init), es).conns, d) {
        OverlapKeepsSpread(health, init, limit, es, d);
      }
    } else if forall i, j :: 0 <= i < j < |health| && health[i] ==> !health[j] {
      forall es: seq<Move> ensures SpreadAtMost(health, MoveRun(health, limit, Quiet(init), es).conns, d) {
        LoneTarget(health, init, MoveRun(health, limit, Quiet(init), es).conns, d);
      }
    } else {
      var es := SpreadReached(health, init, limit);
      assert !SpreadAtMost(health, MoveRun(health, limit, Quiet(init), es).conns, d);
    }
  }

  /** With at most one healthy target the spread is zero. */
  lemma {:induction false} LoneTarget(health: seq<bool>, init: seq<int>, conns: seq<int>, d: int)
    requires |health| == |init| == |conns| && SpreadAtMost(health, init, d)
    requires forall i, j :: 0 <= i < j < |health| && health[i] ==> !health[j]
    ensures SpreadAtMost(health, conns, d)
  {
    forall t, u | 0 <= t < |health| && 0 <= u < |health| && health[t] && health[u]
      ensures conns[t] - conns[u] <= d
    {
      assert t == u;
      assert init[t] - init[u] <= d;
    }
  }
}
