/** The caching plugin's lookup, expiry test, stale delete, upstream fetch, stamp, store and
    cleanup as interleaved steps of unboundedly many handlers
    (app/plugins/caching.go:106-220, 225-255). */
module CacheInterleaving {
  import opened Options
  import opened ResponseCache

  datatype Phase =
    | Passing(request: Request)                        // not a GET, goes straight upstream
    | Looked(request: Request, found: Option<Entry>)   // entry fetched under the read lock
    | Stale(request: Request)                          // found expired, about to delete
    | Fetching(request: Request)
    | Fetched(request: Request, answer: nat)           // answered, not yet stored
    | Stamped(request: Request, entry: Entry)          // expiry computed, not yet stored
    | Done

  /** What the upstream produced, and for which request. */
  datatype Answer = Answer(request: Request, response: Response)

  /** Answer number `answer` was given an expiry at `time`. */
  datatype Stamp = Stamp(answer: nat, time: int)

  /** What a client received. */
  datatype Delivery = Delivery(request: Request, response: Response, time: int, hit: bool)

  /** `answers`, `stamps` and `delivered` only observe. */
  datatype State = State(
    now: int,
    store: Store,
    handlers: seq<Phase>,
    answers: seq<Answer>,
    stamps: seq<Stamp>,
    delivered: seq<Delivery>
  )

  /** Handlers are numbered by arrival.  A step that is not enabled changes nothing. */
  datatype Event =
    | Tick(to: int)
    | Lookup(request: Request)
    | TestExpiry(handler: nat)
    | DeleteStale(handler: nat)
    | Fetch(handler: nat, response: Response)
    | StampEntry(handler: nat)
    | StoreEntry(handler: nat)
    | CleanKey(key: string)

  function Init(start: int): State {
    State(start, map[], [], [], [], [])
  }

  function AfterTest(s: State, h: nat): State
    requires h < |s.handlers| && s.handlers[h].Looked?
  {
    var r, found := s.handlers[h].request, s.handlers[h].found;
    if found.None? then s.(handlers := s.handlers[h := Fetching(r)])
    else if Expired(found.value, s.now) then s.(handlers := s.handlers[h := Stale(r)])
    else s.(handlers := s.handlers[h := Done],
            delivered := s.delivered + [Delivery(r, Marked(found.value.response, "HIT"), s.now, true)])
  }

  function AfterFetch(s: State, h: nat, u: Response): State
    requires h < |s.handlers| && (s.handlers[h].Fetching? || s.handlers[h].Passing?)
  {
    var r := s.handlers[h].request;
    var reply := if s.handlers[h].Passing? then u else Marked(u, "MISS");
    s.(handlers := s.handlers[h := if s.handlers[h].Passing? then Done else Fetched(r, |s.answers|)],
       answers := s.answers + [Answer(r, u)],
       delivered := s.delivered + [Delivery(r, reply, s.now, false)])
  }

  function AfterStamp(ttl: int, s: State, h: nat): State
    requires h < |s.handlers| && s.handlers[h].Fetched?
  {
    var r, a := s.handlers[h].request, s.handlers[h].answer;
    if a >= |s.answers| || !Cacheable(s.answers[a].response) then s.(handlers := s.handlers[h := Done])
    else s.(handlers := s.handlers[h := Stamped(r, Entry(s.answers[a].response, s.now + ttl))],
            stamps := s.stamps + [Stamp(a, s.now)])
  }

  function Step(ttl: int, s: State, e: Event): State {
    match e
    case Tick(t) => if t >= s.now then s.(now := t) else s
    case Lookup(r) =>
      var k := RawKey(r);
      s.(handlers := s.handlers + [if r.verb != "GET" then Passing(r)
                                   else Looked(r, if k in s.store then Some(s.store[k]) else None)])
    case TestExpiry(h) =>
      if h < |s.handlers| && s.handlers[h].Looked? then AfterTest(s, h) else s
    case DeleteStale(h) =>
      if h < |s.handlers| && s.handlers[h].Stale? then
        var r := s.handlers[h].request;
        s.(handlers := s.handlers[h := Fetching(r)], store := s.store - {RawKey(r)})
      else s
    case Fetch(h, u) =>
      if h < |s.handlers| && (s.handlers[h].Fetching? || s.handlers[h].Passing?) then AfterFetch(s, h, u) else s
    case StampEntry(h) =>
      if h < |s.handlers| && s.handlers[h].Fetched? then AfterStamp(ttl, s, h) else s
    case StoreEntry(h) =>
      if h < |s.handlers| && s.handlers[h].Stamped? then
        s.(handlers := s.handlers[h := Done],
           store := s.store[RawKey(s.handlers[h].request) := s.handlers[h].entry])
      else s
    case CleanKey(k) =>
      if k in s.store && Expired(s.store[k], s.now) then s.(store := s.store - {k}) else s
  }

  function Run(ttl: int, s: State, es: seq<Event>): State {
    if es == [] then s else Step(ttl, Run(ttl, s, es[..|es| - 1]), es[|es| - 1])
  }

  // ---------- provenance ----------

  /** Stamp number i is of a cacheable GET answer with this key and response. */
  ghost predicate StampedAs(s: State, i: int, key: string, response: Response) {
    && 0 <= i < |s.stamps| && s.stamps[i].answer < |s.answers|
    && s.stamps[i].time <= s.now
    && var a := s.answers[s.stamps[i].answer];
       && a.request.verb == "GET" && RawKey(a.request) == key
       && a.response == response && Cacheable(response)
  }

  ghost predicate EntryOk(ttl: int, s: State, key: string, e: Entry) {
    exists i :: StampedAs(s, i, key, e.response) && e.expiresAt == s.stamps[i].time + ttl
  }

  ghost predicate HitOk(ttl: int, s: State, d: Delivery) {
    d.request.verb == "GET" &&
    exists i, u :: StampedAs(s, i, RawKey(d.request), u) && d.response == Marked(u, "HIT")
      && s.stamps[i].time <= d.time <= s.stamps[i].time + ttl
  }

  ghost predicate MissOk(s: State, d: Delivery) {
    exists j :: 0 <= j < |s.answers| && s.answers[j].request == d.request
      && d.response == if d.request.verb == "GET" then Marked(s.answers[j].response, "MISS") else s.answers[j].response
  }

  ghost predicate PhaseOk(ttl: int, s: State, p: Phase) {
    match p
    case Passing(r) => r.verb != "GET"
    case Looked(r, found) => r.verb == "GET" && (found.Some? ==> EntryOk(ttl, s, RawKey(r), found.value))
    case Stale(r) => r.verb == "GET"
    case Fetching(r) => r.verb == "GET"
    case Fetched(r, a) => r.verb == "GET" && a < |s.answers| && s.answers[a].request == r
    case Stamped(r, e) => r.verb == "GET" && EntryOk(ttl, s, RawKey(r), e)
    case Done => true
  }

  ghost predicate Inv(ttl: int, s: State) {
    && (forall k :: k in s.store ==> EntryOk(ttl, s, k, s.store[k]))
    && (forall h :: 0 <= h < |s.handlers| ==> PhaseOk(ttl, s, s.handlers[h]))
    && (forall d :: 0 <= d < |s.delivered| ==>
          if s.delivered[d].hit then HitOk(ttl, s, s.delivered[d]) else MissOk(s, s.delivered[d]))
  }

  /** The observers only grow and the clock does not go back. */
  ghost predicate Extends(s: State, s': State) {
    s.answers <= s'.answers && s.stamps <= s'.stamps && s.now <= s'.now
  }

  lemma {:induction false} EntryOkExtends(ttl: int, s: State, s': State, key: string, e: Entry)
    requires Extends(s, s') && EntryOk(ttl, s, key, e)
    ensures EntryOk(ttl, s', key, e)
  {
    var i :| StampedAs(s, i, key, e.response) && e.expiresAt == s.stamps[i].time + ttl;
    assert StampedAs(s', i, key, e.response);
  }

  lemma {:induction false} DeliveryExtends(ttl: int, s: State, s': State, d: Delivery)
    requires Extends(s, s') && (if d.hit then HitOk(ttl, s, d) else MissOk(s, d))
    ensures if d.hit then HitOk(ttl, s', d) else MissOk(s', d)
  {
    if d.hit {
      var i, u :| StampedAs(s, i, RawKey(d.request), u) && d.response == Marked(u, "HIT")
        && s.stamps[i].time <= d.time <= s.stamps[i].time + ttl;
      assert StampedAs(s', i, RawKey(d.request), u);
    } else {
      var j :| 0 <= j < |s.answers| && s.answers[j].request == d.request
        && d.response == (if d.request.verb == "GET" then Marked(s.answers[j].response, "MISS")
                         else s.answers[j].response);
      assert s'.answers[j] == s.answers[j];
    }
  }

  lemma {:induction false} PhaseOkExtends(ttl: int, s: State, s': State, p: Phase)
    requires Extends(s, s') && PhaseOk(ttl, s, p)
    ensures PhaseOk(ttl, s', p)
  {
    match p
    case Looked(r, found) => if found.Some? { EntryOkExtends(ttl, s, s', RawKey(r), found.value); }
    case Stamped(r, e) => EntryOkExtends(ttl, s, s', RawKey(r), e);
    case _ =>
  }

  /** What a step does, as far as the invariant is concerned: every entry, handler and delivery
      of the new state was there before or satisfies its condition. */
  lemma {:induction false} InvExtends(ttl: int, s: State, s': State)
    requires Inv(ttl, s) && Extends(s, s')
    requires forall k :: k in s'.store ==>
               (k in s.store && s'.store[k] == s.store[k]) || EntryOk(ttl, s', k, s'.store[k])
    requires forall h :: 0 <= h < |s'.handlers| ==>
               (h < |s.handlers| && s'.handlers[h] == s.handlers[h]) || PhaseOk(ttl, s', s'.handlers[h])
    requires forall d :: 0 <= d < |s'.delivered| ==>
               (d < |s.delivered| && s'.delivered[d] == s.delivered[d]) ||
               (if s'.delivered[d].hit then HitOk(ttl, s', s'.delivered[d]) else MissOk(s', s'.delivered[d]))
    ensures Inv(ttl, s')
  {
    forall k | k in s'.store && k in s.store && s'.store[k] == s.store[k] ensures EntryOk(ttl, s', k, s'.store[k]) {
      EntryOkExtends(ttl, s, s', k, s.store[k]);
    }
    forall h | 0 <= h < |s'.handlers| && h < |s.handlers| && s'.handlers[h] == s.handlers[h]
      ensures PhaseOk(ttl, s', s'.handlers[h])
    {
      PhaseOkExtends(ttl, s, s', s.handlers[h]);
    }
    forall d | 0 <= d < |s'.delivered| && d < |s.delivered| && s'.delivered[d] == s.delivered[d]
      ensures if s'.delivered[d].hit then HitOk(ttl, s', s'.delivered[d]) else MissOk(s', s'.delivered[d])
    {
      DeliveryExtends(ttl, s, s', s.delivered[d]);
    }
  }

  lemma {:induction false} TestKeepsInv(ttl: int, s: State, h: nat)
    requires Inv(ttl, s) && h < |s.handlers| && s.handlers[h].Looked?
    ensures Inv(ttl, AfterTest(s, h))
  {
    var s' := AfterTest(s, h);
    var found := s.handlers[h].found;
    assert PhaseOk(ttl, s, s.handlers[h]);
    if found.Some? && !Expired(found.value, s.now) {
      var d := s'.delivered[|s.delivered|];
      var i :| StampedAs(s, i, RawKey(d.request), found.value.response)
               && found.value.expiresAt == s.stamps[i].time + ttl;
      assert StampedAs(s', i, RawKey(d.request), found.value.response);
      assert HitOk(ttl, s', d);
    }
    InvExtends(ttl, s, s');
  }

  lemma {:induction false} FetchKeepsInv(ttl: int, s: State, h: nat, u: Response)
    requires Inv(ttl, s) && h < |s.handlers| && (s.handlers[h].Fetching? || s.handlers[h].Passing?)
    ensures Inv(ttl, AfterFetch(s, h, u))
  {
    var s' := AfterFetch(s, h, u);
    assert PhaseOk(ttl, s, s.handlers[h]);
    assert s'.answers[|s.answers|] == Answer(s.handlers[h].request, u);
    assert MissOk(s', s'.delivered[|s.delivered|]);
    InvExtends(ttl, s, s');
  }

  lemma {:induction false} StampKeepsInv(ttl: int, s: State, h: nat)
    requires Inv(ttl, s) && h < |s.handlers| && s.handlers[h].Fetched?
    ensures Inv(ttl, AfterStamp(ttl, s, h))
  {
    var s' := AfterStamp(ttl, s, h);
    assert PhaseOk(ttl, s, s.handlers[h]);
    if s'.handlers[h].Stamped? {
      assert StampedAs(s', |s.stamps|, RawKey(s.handlers[h].request), s'.handlers[h].entry.response);
      assert PhaseOk(ttl, s', s'.handlers[h]);
    }
    InvExtends(ttl, s, s');
  }

  lemma {:induction false} LookupKeepsInv(ttl: int, s: State, r: Request)
    requires Inv(ttl, s)
    ensures Inv(ttl, Step(ttl, s, Lookup(r)))
  {
    var s' := Step(ttl, s, Lookup(r));
    if r.verb == "GET" && RawKey(r) in s.store {
      EntryOkExtends(ttl, s, s', RawKey(r), s.store[RawKey(r)]);
    }
    InvExtends(ttl, s, s');
  }

  lemma {:induction false} StoreKeepsInv(ttl: int, s: State, h: nat)
    requires Inv(ttl, s) && h < |s.handlers| && s.handlers[h].Stamped?
    ensures Inv(ttl, Step(ttl, s, StoreEntry(h)))
  {
    var s' := Step(ttl, s, StoreEntry(h));
    assert PhaseOk(ttl, s, s.handlers[h]);
    EntryOkExtends(ttl, s, s', RawKey(s.handlers[h].request), s.handlers[h].entry);
    InvExtends(ttl, s, s');
  }

  lemma {:induction false} StepKeepsInv(ttl: int, s: State, e: Event)
    requires Inv(ttl, s)
    ensures Inv(ttl, Step(ttl, s, e))
  {
    var s' := Step(ttl, s, e);
    match e
    case TestExpiry(h) =>
      if h < |s.handlers| && s.handlers[h].Looked? { TestKeepsInv(ttl, s, h); }
    case Fetch(h, u) =>
      if h < |s.handlers| && (s.handlers[h].Fetching? || s.handlers[h].Passing?) { FetchKeepsInv(ttl, s, h, u); }
    case StampEntry(h) =>
      if h < |s.handlers| && s.handlers[h].Fetched? { StampKeepsInv(ttl, s, h); }
    case Lookup(r) => LookupKeepsInv(ttl, s, r);
    case StoreEntry(h) =>
      if h < |s.handlers| && s.handlers[h].Stamped? { StoreKeepsInv(ttl, s, h); }
    case DeleteStale(h) =>
      if h < |s.handlers| && s.handlers[h].Stale? { assert PhaseOk(ttl, s, s.handlers[h]); }
      InvExtends(ttl, s, s');
    case _ => InvExtends(ttl, s, s');
  }

  lemma {:induction false} RunKeepsInv(ttl: int, start: int, es: seq<Event>)
    ensures Inv(ttl, Run(ttl, Init(start), es))
  {
    if es != [] {
      RunKeepsInv(ttl, start, es[..|es| - 1]);
      StepKeepsInv(ttl, Run(ttl, Init(start), es[..|es| - 1]), es[|es| - 1]);
    }
  }

  // ---------- whose answer a hit is ----------

  /** The hit is, apart from the cache-status header, a 200 response of at most 1 MiB that the
      upstream produced for a GET with the same key, stamped for storing no more than `ttl` before. */
  ghost predicate FromAnswer(ttl: int, s: State, hit: Delivery, i: int) {
    && 0 <= i < |s.stamps| && s.stamps[i].answer < |s.answers|
    && var a := s.answers[s.stamps[i].answer];
       && hit.request.verb == a.request.verb == "GET" && RawKey(a.request) == RawKey(hit.request)
       && a.response.code == 200 && |a.response.body| <= 1_048_576
       && SameContent(hit.response, a.response)
       && s.stamps[i].time <= hit.time <= s.stamps[i].time + ttl
  }

  /** The hit is an answer for its own host and URI. */
  ghost predicate OwnHit(ttl: int, s: State, hit: Delivery) {
    exists i :: FromAnswer(ttl, s, hit, i) &&
      var a := s.answers[s.stamps[i].answer].request;
      a.host == hit.request.host && a.uri == hit.request.uri
  }

  /** Every request of the run was handed over by the server. */
  ghost predicate ServedRun(es: seq<Event>) {
    forall i :: 0 <= i < |es| && es[i].Lookup? ==> Served(es[i].request)
  }

  ghost predicate ServedState(s: State) {
    && (forall h :: 0 <= h < |s.handlers| && !s.handlers[h].Done? ==> Served(s.handlers[h].request))
    && (forall j :: 0 <= j < |s.answers| ==> Served(s.answers[j].request))
    && (forall d :: 0 <= d < |s.delivered| ==> Served(s.delivered[d].request))
  }

  lemma {:induction false} StepServes(ttl: int, s: State, e: Event)
    requires ServedState(s) && (e.Lookup? ==> Served(e.request))
    ensures ServedState(Step(ttl, s, e))
  {}

  lemma {:induction false} RunServes(ttl: int, start: int, es: seq<Event>)
    requires ServedRun(es)
    ensures ServedState(Run(ttl, Init(start), es))
  {
    if es != [] {
      RunServes(ttl, start, es[..|es| - 1]);
      StepServes(ttl, Run(ttl, Init(start), es[..|es| - 1]), es[|es| - 1]);
    }
  }

  /** Provenance under interleaving: every HIT in every interleaving comes from such an answer.
      It was for the same host and URI if both requests are well formed, or if all requests of the
      run are served ones and the hit's own address is unambiguous. */
  lemma {:induction false} HitsHaveProvenance(ttl: int, start: int, es: seq<Event>, d: nat)
    returns (i: nat)
    requires d < |Run(ttl, Init(start), es).delivered| && Run(ttl, Init(start), es).delivered[d].hit
    ensures var s := Run(ttl, Init(start), es);
            var hit := s.delivered[d];
            && FromAnswer(ttl, s, hit, i)
            && var a := s.answers[s.stamps[i].answer];
               && ((WellFormed(hit.request) && WellFormed(a.request)) ||
                   (ServedRun(es) && Unambiguous(hit.request)) ==>
                     a.request.host == hit.request.host && a.request.uri == hit.request.uri)
  {
    RunKeepsInv(ttl, start, es);
    var s := Run(ttl, Init(start), es);
    var hit := s.delivered[d];
    assert HitOk(ttl, s, hit);
    var k, u :| StampedAs(s, k, RawKey(hit.request), u) && hit.response == Marked(u, "HIT")
      && s.stamps[k].time <= hit.time <= s.stamps[k].time + ttl;
    i := k;
    MarkedIsSame(u, "HIT");
    var a := s.answers[s.stamps[i].answer];
    if WellFormed(hit.request) && WellFormed(a.request) { RawKeyInjective(a.request, hit.request); }
    if ServedRun(es) && Unambiguous(hit.request) {
      RunServes(ttl, start, es);
      KeyIsOwnIff(hit.request);
    }
  }

  lemma {:induction false} RunAppend(ttl: int, s: State, es: seq<Event>, e: Event)
    ensures Run(ttl, s, es + [e]) == Step(ttl, Run(ttl, s, es), e)
  {
    assert (es + [e])[..|es|] == es;
  }

  lemma {:induction false} RunConcat(ttl: int, s: State, a: seq<Event>, b: seq<Event>)
    ensures Run(ttl, s, a + b) == Run(ttl, Run(ttl, s, a), b)
  {
    if b == [] {
      assert a + b == a;
    } else {
      RunConcat(ttl, s, a, b[..|b| - 1]);
      assert (a + b)[..|a + b| - 1] == a + b[..|b| - 1];
    }
  }

  lemma {:induction false} RunTwo(ttl: int, s: State, e: Event, f: Event)
    ensures Run(ttl, s, [e, f]) == Step(ttl, Step(ttl, s, e), f)
  {
    RunAppend(ttl, s, [], e);
    assert [] + [e] == [e] && [e] + [f] == [e, f];
    RunAppend(ttl, s, [e], f);
  }

  /** A GET that goes from lookup to answer with nothing in between. */
  function Ask(h: nat, r: Request, u: Response): seq<Event> {
    [Lookup(r), TestExpiry(h)] + [Fetch(h, u)]
  }

  lemma {:induction false} AskRuns(ttl: int, s: State, r: Request, u: Response)
    requires r.verb == "GET" && RawKey(r) !in s.store
    ensures Run(ttl, s, Ask(|s.handlers|, r, u)) ==
            s.(handlers := s.handlers + [Fetched(r, |s.answers|)], answers := s.answers + [Answer(r, u)],
               delivered := s.delivered + [Delivery(r, Marked(u, "MISS"), s.now, false)])
  {
    var h := |s.handlers|;
    RunTwo(ttl, s, Lookup(r), TestExpiry(h));
    RunAppend(ttl, s, [Lookup(r), TestExpiry(h)], Fetch(h, u));
    assert Step(ttl, s, Lookup(r)).handlers == s.handlers + [Looked(r, None)];
  }

  /** The answer is stamped and stored at once. */
  lemma {:induction false} KeepRuns(ttl: int, s: State, h: nat, r: Request, a: nat)
    requires h < |s.handlers| && s.handlers[h] == Fetched(r, a) && a < |s.answers| && Cacheable(s.answers[a].response)
    ensures Run(ttl, s, [StampEntry(h), StoreEntry(h)]) ==
            s.(handlers := s.handlers[h := Done], stamps := s.stamps + [Stamp(a, s.now)],
               store := s.store[RawKey(r) := Entry(s.answers[a].response, s.now + ttl)])
  {
    RunTwo(ttl, s, StampEntry(h), StoreEntry(h));
    var e := Entry(s.answers[a].response, s.now + ttl);
    assert s.handlers[h := Stamped(r, e)][h := Done] == s.handlers[h := Done];
  }

  /** Request b is answered and stored, then request a asks. */
  function SharedKeyRun(a: Request, b: Request, u: Response): seq<Event> {
    Ask(0, b, u) + [StampEntry(0), StoreEntry(0)] + [Lookup(a), TestExpiry(1)]
  }

  /** In that run a request with the same key is served b's answer. */
  lemma {:induction false} SharedKeyHit(ttl: int, start: int, a: Request, b: Request, u: Response)
    requires ttl >= 0 && a.verb == b.verb == "GET" && RawKey(a) == RawKey(b) && Cacheable(u)
    ensures var s := Run(ttl, Init(start), SharedKeyRun(a, b, u));
            && s.answers == [Answer(b, u)]
            && s.delivered == [Delivery(b, Marked(u, "MISS"), start, false), Delivery(a, Marked(u, "HIT"), start, true)]
  {
    var s0 := Init(start);
    AskRuns(ttl, s0, b, u);
    var s1 := Run(ttl, s0, Ask(0, b, u));
    KeepRuns(ttl, s1, 0, b, 0);
    RunConcat(ttl, s0, Ask(0, b, u), [StampEntry(0), StoreEntry(0)]);
    var s2 := Run(ttl, s1, [StampEntry(0), StoreEntry(0)]);
    RunTwo(ttl, s2, Lookup(a), TestExpiry(1));
    RunConcat(ttl, s0, Ask(0, b, u) + [StampEntry(0), StoreEntry(0)], [Lookup(a), TestExpiry(1)]);
  }

  /** Exactly when a client's hits are its own: in every run of served requests every hit of `a`
      is an answer for a's host and URI, if and only if a's address is unambiguous. */
  lemma {:induction false} HitsAreOwnIff(ttl: int, a: Request)
    requires ttl >= 0 && Served(a) && a.verb == "GET"
    ensures (forall start: int, es: seq<Event>, d: nat :: HitOf(ttl, start, es, d, a) && ServedRun(es) ==>
               OwnHit(ttl, Run(ttl, Init(start), es), Run(ttl, Init(start), es).delivered[d]))
       <==> Unambiguous(a)
  {
    if Unambiguous(a) {
      forall start: int, es: seq<Event>, d: nat | HitOf(ttl, start, es, d, a) && ServedRun(es)
        ensures OwnHit(ttl, Run(ttl, Init(start), es), Run(ttl, Init(start), es).delivered[d])
      {
        var i := HitsHaveProvenance(ttl, start, es, d);
      }
    } else {
      var b := AmbiguousAddress(a);
      var u := Response(STATUS_OK, map[], []);
      SharedKeyHit(ttl, 0, a, b, u);
      var es := SharedKeyRun(a, b, u);
      assert HitOf(ttl, 0, es, 1, a) && ServedRun(es);
      assert !OwnHit(ttl, Run(ttl, Init(0), es), Run(ttl, Init(0), es).delivered[1]);
    }
  }

  /** Delivery number d of the run is a hit for request a. */
  ghost predicate HitOf(ttl: int, start: int, es: seq<Event>, d: nat, a: Request) {
    var s := Run(ttl, Init(start), es);
    d < |s.delivered| && s.delivered[d].hit && s.delivered[d].request == a
  }

  // ---------- whether a stored answer is served ----------

  /** A slow handler deletes the key, having found an expired entry earlier. */
  predicate Deletes(s: State, e: Event, key: string) {
    && e.DeleteStale? && e.handler < |s.handlers| && s.handlers[e.handler].Stale?
    && RawKey(s.handlers[e.handler].request) == key
  }

  predicate Writes(s: State, e: Event, key: string) {
    && e.StoreEntry? && e.handler < |s.handlers| && s.handlers[e.handler].Stamped?
    && RawKey(s.handlers[e.handler].request) == key
  }

  /** The event takes away what a lookup at `now` would need: it deletes the key, or replaces the
      entry by one stamped so much earlier that it has expired. */
  predicate Spoils(s: State, e: Event, key: string, now: int) {
    Deletes(s, e, key) || (Writes(s, e, key) && Expired(s.handlers[e.handler].entry, now))
  }

  /** The expiry last written under the key, None once it is deleted; `was` before the run. */
  function Newest(ttl: int, s: State, es: seq<Event>, key: string, was: Option<int>): Option<int> {
    if es == [] then was
    else
      var n := |es| - 1;
      var before := Run(ttl, s, es[..n]);
      if Deletes(before, es[n], key) then None
      else if Writes(before, es[n], key) then Some(before.handlers[es[n].handler].entry.expiresAt)
      else Newest(ttl, s, es[..n], key, was)
  }

  /** The store's live part under the key is what was last written. */
  ghost predicate Tracks(s: State, key: string, w: Option<int>) {
    if w.Some? && s.now <= w.value then key in s.store && s.store[key].expiresAt == w.value
    else key in s.store ==> Expired(s.store[key], s.now)
  }

  lemma {:induction false} NewestTracks(ttl: int, s: State, es: seq<Event>, key: string, was: Option<int>)
    requires Tracks(s, key, was)
    ensures Tracks(Run(ttl, s, es), key, Newest(ttl, s, es, key, was))
  {
    if es != [] {
      NewestTracks(ttl, s, es[..|es| - 1], key, was);
    }
  }

  /** In every interleaving a lookup hits if and only if the last store under its key that no
      stale delete has undone is within its lifetime. */
  lemma {:induction false} LookupHitsIff(ttl: int, start: int, es: seq<Event>, r: Request)
    requires r.verb == "GET"
    ensures var s := Run(ttl, Init(start), es);
            var w := Newest(ttl, Init(start), es, RawKey(r), None);
            Hits(s.store, r, s.now) <==> w.Some? && s.now <= w.value
  {
    NewestTracks(ttl, Init(start), es, RawKey(r), None);
  }

  /** A GET looked up and tested at once is delivered the live entry under its key, or nothing yet. */
  lemma {:induction false} LookupNow(ttl: int, s: State, r: Request)
    requires r.verb == "GET"
    ensures Run(ttl, s, [Lookup(r), TestExpiry(|s.handlers|)]).delivered == s.delivered +
              if Hits(s.store, r, s.now)
              then [Delivery(r, Marked(s.store[RawKey(r)].response, "HIT"), s.now, true)] else []
  {
    var h := |s.handlers|;
    RunTwo(ttl, s, Lookup(r), TestExpiry(h));
    assert Step(ttl, s, Lookup(r)).handlers[h] ==
           Looked(r, if RawKey(r) in s.store then Some(s.store[RawKey(r)]) else None);
  }

  lemma {:induction false} HeldIsKept(ttl: int, s: State, mid: seq<Event>, h: nat)
    requires h < |s.handlers| && s.handlers[h].Looked? && TestExpiry(h) !in mid
    ensures h < |Run(ttl, s, mid).handlers| && Run(ttl, s, mid).handlers[h] == s.handlers[h]
  {
    if mid != [] {
      HeldIsKept(ttl, s, mid[..|mid| - 1], h);
      assert mid[|mid| - 1] in mid;
    }
  }

  /** What the client sees of that: a GET is looked up after any run `es` and tested after any further
      steps `mid`.  The test delivers exactly one response, a HIT with the stored content, if the
      last undeleted entry stored for its key in `es` is within its lifetime at the test; otherwise
      it delivers nothing. */
  lemma {:induction false} LookupDelivers(ttl: int, start: int, es: seq<Event>, r: Request, mid: seq<Event>)
    requires r.verb == "GET" && TestExpiry(|Run(ttl, Init(start), es).handlers|) !in mid
    ensures var s := Run(ttl, Init(start), es);
            var s1 := Run(ttl, Step(ttl, s, Lookup(r)), mid);
            var s2 := Step(ttl, s1, TestExpiry(|s.handlers|));
            var w := Newest(ttl, Init(start), es, RawKey(r), None);
            if w.Some? && s1.now <= w.value then
              && RawKey(r) in s.store
              && var reply := Marked(s.store[RawKey(r)].response, "HIT");
                 && s2.delivered == s1.delivered + [Delivery(r, reply, s1.now, true)]
                 && STATUS_HEADER in reply.header && reply.header[STATUS_HEADER] == ["HIT"]
            else s2.delivered == s1.delivered
  {
    var s := Run(ttl, Init(start), es);
    var h, key := |s.handlers|, RawKey(r);
    var s0 := Step(ttl, s, Lookup(r));
    assert s0.handlers[h] == Looked(r, if key in s.store then Some(s.store[key]) else None);
    HeldIsKept(ttl, s0, mid, h);
    ClockAdvances(ttl, s0, mid);
    NewestTracks(ttl, Init(start), es, key, None);
    if key in s.store { MarkedTells(s.store[key].response, "HIT"); }
  }

  lemma {:induction false} ClockAdvances(ttl: int, s: State, es: seq<Event>)
    ensures s.now <= Run(ttl, s, es).now
  {
    if es != [] { ClockAdvances(ttl, s, es[..|es| - 1]); }
  }

  predicate Touches(ttl: int, s: State, es: seq<Event>, key: string, k: int)
    requires 0 <= k < |es|
  {
    var before := Run(ttl, s, es[..k]);
    Deletes(before, es[k], key) || Writes(before, es[k], key)
  }

  /** Event number j spoils, and no later event writes or deletes the key. */
  ghost predicate SpoiledAt(ttl: int, s: State, es: seq<Event>, key: string, now: int, j: int) {
    && 0 <= j < |es| && Spoils(Run(ttl, s, es[..j]), es[j], key, now)
    && forall k :: j < k < |es| ==> !Touches(ttl, s, es, key, k)
  }

  lemma {:induction false} SpoiledAppend(ttl: int, s: State, es: seq<Event>, e: Event, key: string, now: int, j: int)
    requires 0 <= j < |es|
    ensures SpoiledAt(ttl, s, es + [e], key, now, j) <==>
            SpoiledAt(ttl, s, es, key, now, j) && !Touches(ttl, s, es + [e], key, |es|)
  {
    var all := es + [e];
    assert all[..j] == es[..j];
    forall k | j < k < |es| ensures Touches(ttl, s, all, key, k) <==> Touches(ttl, s, es, key, k) {
      assert all[..k] == es[..k];
    }
  }

  lemma {:induction false} NewestIsSpoiledIff(ttl: int, s: State, es: seq<Event>, key: string, was: int, now: int)
    requires now <= was
    ensures var w := Newest(ttl, s, es, key, Some(was));
            (w.None? || w.value < now) <==> exists j :: SpoiledAt(ttl, s, es, key, now, j)
  {
    if es != [] {
      var n := |es| - 1;
      var front := es[..n];
      assert es == front + [es[n]];
      NewestIsSpoiledIff(ttl, s, front, key, was, now);
      forall j | 0 <= j < n
        ensures SpoiledAt(ttl, s, es, key, now, j) <==>
                SpoiledAt(ttl, s, front, key, now, j) && !Touches(ttl, s, es, key, n)
      {
        SpoiledAppend(ttl, s, front, es[n], key, now, j);
      }
      assert SpoiledAt(ttl, s, es, key, now, n) <==> Spoils(Run(ttl, s, front), es[n], key, now);
    }
  }

  /** When a fresh answer is not served: after handler h has stored an entry, a GET with its key
      that is looked up within the entry's lifetime misses if and only if the last step since then
      to write or delete the key was a stale delete, or the store of an entry that has expired. */
  lemma {:induction false} FreshIsMissedIff(ttl: int, s: State, h: nat, more: seq<Event>, r: Request)
    requires h < |s.handlers| && s.handlers[h].Stamped? && RawKey(s.handlers[h].request) == RawKey(r)
    requires r.verb == "GET"
    requires Run(ttl, Step(ttl, s, StoreEntry(h)), more).now <= s.handlers[h].entry.expiresAt
    ensures var s1 := Step(ttl, s, StoreEntry(h));
            var s2 := Run(ttl, s1, more);
            && (!Hits(s2.store, r, s2.now) <==> exists j :: SpoiledAt(ttl, s1, more, RawKey(r), s2.now, j))
            && (Run(ttl, s2, [Lookup(r), TestExpiry(|s2.handlers|)]).delivered == s2.delivered <==>
                exists j :: SpoiledAt(ttl, s1, more, RawKey(r), s2.now, j))
  {
    var key, was := RawKey(r), s.handlers[h].entry.expiresAt;
    var s1 := Step(ttl, s, StoreEntry(h));
    NewestTracks(ttl, s1, more, key, Some(was));
    NewestIsSpoiledIff(ttl, s1, more, key, was, Run(ttl, s1, more).now);
    LookupNow(ttl, Run(ttl, s1, more), r);
  }

  /** An entry is stored at 0, and two handlers find it when it has just expired. */
  function TwoStale(ttl: int, r: Request, u: Response): seq<Event> {
    Ask(0, r, u) + [StampEntry(0), StoreEntry(0)]
    + ([Tick(ttl + 1), Lookup(r)] + [Lookup(r), TestExpiry(1)] + [TestExpiry(2)])
  }

  lemma {:induction false} BothFindItStale(ttl: int, s: State, r: Request)
    requires ttl >= 0 && r.verb == "GET" && s.now == 0 && s.handlers == [Done]
    requires RawKey(r) in s.store && s.store[RawKey(r)].expiresAt == ttl
    ensures var es := [Tick(ttl + 1), Lookup(r)] + [Lookup(r), TestExpiry(1)] + [TestExpiry(2)];
            Run(ttl, s, es) == s.(now := ttl + 1, handlers := [Done, Stale(r), Stale(r)])
  {
    var found := Some(s.store[RawKey(r)]);
    RunTwo(ttl, s, Tick(ttl + 1), Lookup(r));
    var s1 := Run(ttl, s, [Tick(ttl + 1), Lookup(r)]);
    assert s1 == s.(now := ttl + 1, handlers := [Done, Looked(r, found)]);
    RunTwo(ttl, s1, Lookup(r), TestExpiry(1));
    RunConcat(ttl, s, [Tick(ttl + 1), Lookup(r)], [Lookup(r), TestExpiry(1)]);
    var s2 := Run(ttl, s1, [Lookup(r), TestExpiry(1)]);
    assert s2 == s.(now := ttl + 1, handlers := [Done, Stale(r), Looked(r, found)]);
    RunAppend(ttl, s, [Tick(ttl + 1), Lookup(r)] + [Lookup(r), TestExpiry(1)], TestExpiry(2));
  }

  /** From any state in which two handlers are about to delete the key, the second can delete the
      answer the first has stored, and a GET at that very instant misses. */
  lemma {:induction false} SecondDeleteLoses(ttl: int, s: State, i: nat, j: nat, r: Request, u: Response)
    requires i < |s.handlers| && j < |s.handlers| && i != j && s.handlers[i] == s.handlers[j] == Stale(r)
    requires Cacheable(u)
    ensures var s1 := Run(ttl, s, [DeleteStale(i), Fetch(i, u)]);
            var s2 := Run(ttl, s1, [StampEntry(i), StoreEntry(i)]);
            var s3 := Step(ttl, s2, DeleteStale(j));
            && RawKey(r) in s2.store && s2.store[RawKey(r)] == Entry(u, s.now + ttl)
            && s3.now == s2.now == s.now && !Hits(s3.store, r, s.now)
  {
    RunTwo(ttl, s, DeleteStale(i), Fetch(i, u));
    var s1 := Run(ttl, s, [DeleteStale(i), Fetch(i, u)]);
    KeepRuns(ttl, s1, i, r, |s.answers|);
  }

  /** Such a loss is reachable from the start. */
  lemma {:induction false} StaleDeleteLosesFresh(ttl: int, r: Request, u: Response)
    requires ttl >= 0 && r.verb == "GET" && Cacheable(u)
    ensures var s := Run(ttl, Init(0), TwoStale(ttl, r, u));
            var s2 := Run(ttl, Run(ttl, s, [DeleteStale(1), Fetch(1, u)]), [StampEntry(1), StoreEntry(1)]);
            Hits(s2.store, r, s2.now) && !Hits(Step(ttl, s2, DeleteStale(2)).store, r, s2.now)
  {
    var s0 := Init(0);
    var front := Ask(0, r, u) + [StampEntry(0), StoreEntry(0)];
    AskRuns(ttl, s0, r, u);
    KeepRuns(ttl, Run(ttl, s0, Ask(0, r, u)), 0, r, 0);
    RunConcat(ttl, s0, Ask(0, r, u), [StampEntry(0), StoreEntry(0)]);
    var s1 := Run(ttl, s0, front);
    assert s1.handlers == [Done];
    BothFindItStale(ttl, s1, r);
    var rest := [Tick(ttl + 1), Lookup(r)] + [Lookup(r), TestExpiry(1)] + [TestExpiry(2)];
    RunConcat(ttl, s0, front, rest);
    SecondDeleteLoses(ttl, Run(ttl, s1, rest), 1, 2, r, u);
  }

  /** Two handlers have an answer; the first stamps it before the clock moves, the second after. */
  function TwoStamps(r: Request, u: Response): seq<Event> {
    Ask(0, r, u) + Ask(1, r, u) + [StampEntry(0), Tick(1)]
  }

  lemma {:induction false} TwoStampsState(ttl: int, r: Request, u: Response)
    requires r.verb == "GET" && Cacheable(u)
    ensures var s := Run(ttl, Init(0), TwoStamps(r, u));
            && s.now == 1 && s.store == map[] && s.answers == [Answer(r, u), Answer(r, u)]
            && s.handlers == [Stamped(r, Entry(u, ttl)), Fetched(r, 1)]
  {
    var s0 := Init(0);
    AskRuns(ttl, s0, r, u);
    var s1 := Run(ttl, s0, Ask(0, r, u));
    AskRuns(ttl, s1, r, u);
    RunConcat(ttl, s0, Ask(0, r, u), Ask(1, r, u));
    var s2 := Run(ttl, s1, Ask(1, r, u));
    assert s2.handlers == [Fetched(r, 0), Fetched(r, 1)];
    RunTwo(ttl, s2, StampEntry(0), Tick(1));
    RunConcat(ttl, s0, Ask(0, r, u) + Ask(1, r, u), [StampEntry(0), Tick(1)]);
  }

  /** The other loss is reachable too: the older answer is stored over the newer one, which a GET
      within the newer one's lifetime then misses. */
  lemma {:induction false} OlderStoreHidesNewer(ttl: int, r: Request, u: Response)
    requires ttl >= 0 && r.verb == "GET" && Cacheable(u)
    ensures var s := Run(ttl, Run(ttl, Init(0), TwoStamps(r, u)), [StampEntry(1), StoreEntry(1)]);
            var s' := Run(ttl, s, [StoreEntry(0), Tick(ttl + 1)]);
            && RawKey(r) in s.store && !Expired(s.store[RawKey(r)], ttl + 1)
            && s'.now == ttl + 1 && !Hits(s'.store, r, s'.now)
  {
    TwoStampsState(ttl, r, u);
    var s1 := Run(ttl, Init(0), TwoStamps(r, u));
    KeepRuns(ttl, s1, 1, r, 1);
    RunTwo(ttl, Run(ttl, s1, [StampEntry(1), StoreEntry(1)]), StoreEntry(0), Tick(ttl + 1));
  }

  // ---------- one request at a time ----------

  /** All steps of one handler, some of which may not be enabled, with nothing in between. */
  function Alone(h: nat, r: Request, u: Response): seq<Event> {
    [Lookup(r), TestExpiry(h)] + [DeleteStale(h), Fetch(h, u)] + [StampEntry(h), StoreEntry(h)]
  }

  lemma {:induction false} AloneSteps(ttl: int, s: State, r: Request, u: Response)
    ensures var h := |s.handlers|;
            var s1 := Step(ttl, Step(ttl, s, Lookup(r)), TestExpiry(h));
            var s2 := Step(ttl, Step(ttl, s1, DeleteStale(h)), Fetch(h, u));
            Run(ttl, s, Alone(h, r, u)) == Step(ttl, Step(ttl, s2, StampEntry(h)), StoreEntry(h))
  {
    var h := |s.handlers|;
    var a, b, c := [Lookup(r), TestExpiry(h)], [DeleteStale(h), Fetch(h, u)], [StampEntry(h), StoreEntry(h)];
    RunTwo(ttl, s, Lookup(r), TestExpiry(h));
    var s1 := Run(ttl, s, a);
    RunTwo(ttl, s1, DeleteStale(h), Fetch(h, u));
    RunConcat(ttl, s, a, b);
    RunTwo(ttl, Run(ttl, s1, b), StampEntry(h), StoreEntry(h));
    RunConcat(ttl, s, a + b, c);
  }

  /** Steps of one handler that nothing interrupts are the sequential plugin: from any state, the
      reply delivered and the store left behind are those of `Reply` and `AfterRequest`. */
  lemma {:induction false} AloneIsSequential(ttl: int, s: State, r: Request, u: Response)
    ensures var s' := Run(ttl, s, Alone(|s.handlers|, r, u));
            && s'.store == AfterRequest(ttl, s.store, r, s.now, u, s.now)
            && s'.delivered == s.delivered +
                 [Delivery(r, Reply(s.store, r, s.now, u), s.now, Hits(s.store, r, s.now))]
            && s'.now == s.now && s'.handlers == s.handlers + [Done]
  {
    var h := |s.handlers|;
    AloneSteps(ttl, s, r, u);
    var s0 := Step(ttl, s, Lookup(r));
    var s1 := Step(ttl, s0, TestExpiry(h));
    var s2 := Step(ttl, Step(ttl, s1, DeleteStale(h)), Fetch(h, u));
    if r.verb != "GET" {
      assert s0.handlers[h] == Passing(r) && s1 == s0;
      assert s2.handlers == s.handlers + [Done];
    } else if Hits(s.store, r, s.now) {
      assert s1.handlers == s.handlers + [Done] && s2 == s1;
    } else {
      assert s1.handlers == s.handlers + [if RawKey(r) in s.store then Stale(r) else Fetching(r)];
      AloneMisses(ttl, s, s1, r, u);
    }
  }

  lemma {:induction false} AloneMisses(ttl: int, s: State, s1: State, r: Request, u: Response)
    requires r.verb == "GET" && !Hits(s.store, r, s.now)
    requires s1 == s.(handlers := s.handlers + [if RawKey(r) in s.store then Stale(r) else Fetching(r)])
    ensures var h := |s.handlers|;
            var s2 := Step(ttl, Step(ttl, s1, DeleteStale(h)), Fetch(h, u));
            var s' := Step(ttl, Step(ttl, s2, StampEntry(h)), StoreEntry(h));
            && s'.store == AfterRequest(ttl, s.store, r, s.now, u, s.now)
            && s'.delivered == s.delivered + [Delivery(r, Marked(u, "MISS"), s.now, false)]
            && s'.now == s.now && s'.handlers == s.handlers + [Done]
  {
    var h, k := |s.handlers|, RawKey(r);
    var t := Step(ttl, s1, DeleteStale(h));
    assert t == s.(handlers := s.handlers + [Fetching(r)], store := s.store - {k});
    var s2 := Step(ttl, t, Fetch(h, u));
    assert s2 == s.(handlers := s.handlers + [Fetched(r, |s.answers|)], store := s.store - {k},
                    answers := s.answers + [Answer(r, u)],
                    delivered := s.delivered + [Delivery(r, Marked(u, "MISS"), s.now, false)]);
    var s3 := Step(ttl, s2, StampEntry(h));
    if Cacheable(u) {
      assert s3.handlers == s.handlers + [Stamped(r, Entry(u, s.now + ttl))];
      assert (s.store - {k})[k := Entry(u, s.now + ttl)] == s.store[k := Entry(u, s.now + ttl)];
    } else {
      assert s3.handlers == s.handlers + [Done];
    }
  }

  function CleanAll(keys: seq<string>): (es: seq<Event>)
    ensures |es| == |keys| && forall i :: 0 <= i < |keys| ==> es[i] == CleanKey(keys[i])
  {
    seq(|keys|, i requires 0 <= i < |keys| => CleanKey(keys[i]))
  }

  /** The store without the expired entries among `keys`. */
  function Cleaned(store: Store, keys: seq<string>, now: int): Store {
    map k | k in store && (k !in keys || now <= store[k].expiresAt) :: store[k]
  }

  lemma {:induction false} CleanedStep(ttl: int, s: State, keys: seq<string>, key: string)
    ensures Step(ttl, s.(store := Cleaned(s.store, keys, s.now)), CleanKey(key))
         == s.(store := Cleaned(s.store, keys + [key], s.now))
  {
    var s1 := s.(store := Cleaned(s.store, keys, s.now));
    assert Step(ttl, s1, CleanKey(key)).store == Cleaned(s.store, keys + [key], s.now);
  }

  lemma {:induction false} CleanedIsCleanup(store: Store, keys: seq<string>, now: int)
    requires forall k :: k in store ==> k in keys
    ensures Cleaned(store, keys, now) == AfterCleanup(store, _ => now)
  {}

  /** Cleaning the keys one by one removes exactly the expired entries among them; over all keys
      it is the sequential cleanup. */
  lemma {:induction false} CleanAllCleans(ttl: int, s: State, keys: seq<string>)
    ensures Run(ttl, s, CleanAll(keys)) == s.(store := Cleaned(s.store, keys, s.now))
    ensures (forall k :: k in s.store ==> k in keys) ==>
              Run(ttl, s, CleanAll(keys)).store == AfterCleanup(s.store, _ => s.now)
  {
    if keys == [] {
      assert Cleaned(s.store, keys, s.now) == s.store;
    } else {
      var n := |keys| - 1;
      CleanAllCleans(ttl, s, keys[..n]);
      assert CleanAll(keys) == CleanAll(keys[..n]) + [CleanKey(keys[n])];
      RunAppend(ttl, s, CleanAll(keys[..n]), CleanKey(keys[n]));
      CleanedStep(ttl, s, keys[..n], keys[n]);
      assert keys == keys[..n] + [keys[n]];
    }
    if forall k :: k in s.store ==> k in keys { CleanedIsCleanup(s.store, keys, s.now); }
  }

  // ---------- transparency ----------

  /** Transparency under interleaving: if every upstream answer is a function of the key, every
      response delivered in every interleaving has that content. */
  lemma {:induction false} EveryDeliveryIsTransparent(ttl: int, start: int, es: seq<Event>,
      up: string -> Response, d: nat)
    requires d < |Run(ttl, Init(start), es).delivered|
    requires forall j :: 0 <= j < |Run(ttl, Init(start), es).answers| ==>
               var a := Run(ttl, Init(start), es).answers[j]; a.response == up(RawKey(a.request))
    ensures var x := Run(ttl, Init(start), es).delivered[d];
            SameContent(x.response, up(RawKey(x.request)))
  {
    RunKeepsInv(ttl, start, es);
    var s := Run(ttl, Init(start), es);
    var x := s.delivered[d];
    MarkedIsSame(up(RawKey(x.request)), "HIT");
    MarkedIsSame(up(RawKey(x.request)), "MISS");
    if x.hit {
      assert HitOk(ttl, s, x);
    } else {
      assert MissOk(s, x);
    }
  }
}
