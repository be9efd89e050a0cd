/** The caching plugin: keys, expiry, and the sequential behaviour of `Handle` and of the
    periodic cleanup (app/plugins/caching.go). */
module ResponseCache {
  import opened SlidingWindow
  import opened Text

  const MAX_CACHE_BODY_SIZE: nat := 1024 * 1024
  const STATUS_OK: int := 200
  const STATUS_HEADER: string := "X-Corridor-Cache-Status"

  datatype Request = Request(verb: string, host: string, uri: string)

  datatype Response = Response(code: int, header: map<string, seq<string>>, body: seq<bv8>)

  /** The text that is hashed into the cache key.  The hash is taken to be injective, so the
      store below is keyed by this text. */
  function RawKey(r: Request): string {
    ToUpper(r.verb) + ":" + r.host + ":" + r.uri
  }

  // ---------- keys ----------

  /** What an HTTP server hands over: no ':' in the method, no '/' in the host, and some request
      URI.  The URI need not start with '/': the request line `GET x:b:/c` gives the opaque "b:/c". */
  predicate Served(r: Request) {
    ':' !in r.verb && '/' !in r.host && r.uri != ""
  }

  /** A served request with a URI in the usual form. */
  predicate WellFormed(r: Request) {
    Served(r) && r.uri[0] == '/'
  }

  /** The host has no ':', hence no port, and no ':' of the URI, other than its last character,
      comes before the first '/'. */
  predicate Unambiguous(r: Request) {
    ':' !in r.host && forall q :: 0 <= q < |r.uri| - 1 && r.uri[q] == ':' ==> '/' in r.uri[..q]
  }

  lemma {:induction false} SplitIsUnique(a: string, x: string, b: string, y: string, c: char)
    requires a + [c] + x == b + [c] + y && c !in a && c !in b
    ensures a == b && x == y
  {
    var s, t := a + [c] + x, b + [c] + y;
    assert s[|a|] == c && t[|b|] == c;
    assert forall i :: 0 <= i < |a| ==> s[i] == a[i];
    assert forall i :: 0 <= i < |b| ==> t[i] == b[i];
    assert |a| == |b|;
    assert a == s[..|a|] && b == t[..|b|];
    assert x == s[|a| + 1..] && y == t[|b| + 1..];
  }

  /** Well-formed requests with equal keys agree in method (up to case), host and URI. */
  lemma {:induction false} RawKeyInjective(a: Request, b: Request)
    requires WellFormed(a) && WellFormed(b) && RawKey(a) == RawKey(b)
    ensures ToUpper(a.verb) == ToUpper(b.verb) && a.host == b.host && a.uri == b.uri
  {
    SameKeySameAddress(a, b);
    assert a.uri == ['/'] + a.uri[1..] && b.uri == ['/'] + b.uri[1..];
    assert Address(a) == (a.host + ":") + ['/'] + a.uri[1..];
    assert Address(b) == (b.host + ":") + ['/'] + b.uri[1..];
    SplitIsUnique(a.host + ":", a.uri[1..], b.host + ":", b.uri[1..], '/');
    assert a.host == (a.host + ":")[..|a.host|] && b.host == (b.host + ":")[..|b.host|];
  }

  /** Host and URI as they stand in the key. */
  function Address(r: Request): string {
    r.host + ":" + r.uri
  }

  lemma {:induction false} SameKeySameAddress(a: Request, b: Request)
    requires ':' !in a.verb && ':' !in b.verb
    ensures RawKey(a) == RawKey(b) <==> ToUpper(a.verb) == ToUpper(b.verb) && Address(a) == Address(b)
  {
    var ma, mb := ToUpper(a.verb), ToUpper(b.verb);
    assert RawKey(a) == ma + [':'] + Address(a) && RawKey(b) == mb + [':'] + Address(b);
    assert ':' !in ma && ':' !in mb;
    if RawKey(a) == RawKey(b) { SplitIsUnique(ma, Address(a), mb, Address(b), ':'); }
  }

  /** Two ways to split one address, a's at the earlier ':'. */
  lemma {:induction false} TwoSplits(a: Request, b: Request)
    requires Address(a) == Address(b) && |a.host| < |b.host| && b.uri != ""
    ensures b.host[|a.host|] == ':'
    ensures var q := |b.host| - |a.host| - 1;
            q < |a.uri| - 1 && a.uri[q] == ':' && a.uri[..q] == b.host[|a.host| + 1..]
  {
    var s, m, n := Address(a), |a.host|, |b.host|;
    assert s[m] == ':' && s[n] == Address(b)[n] == ':';
    assert a.uri == s[m + 1..];
    assert b.host == Address(b)[..n];
    assert |s| == m + 1 + |a.uri| == n + 1 + |b.uri|;
    assert a.uri[..n - m - 1] == s[m + 1..n];
  }

  /** A request with an unambiguous address shares it with no other served request. */
  lemma {:induction false} UnambiguousAddress(a: Request, b: Request)
    requires Served(a) && Served(b) && Unambiguous(a) && Address(a) == Address(b)
    ensures a.host == b.host && a.uri == b.uri
  {
    var s, m, n := Address(a), |a.host|, |b.host|;
    if n < m {
      TwoSplits(b, a);
      assert false;
    } else if n > m {
      TwoSplits(a, b);
      assert false;
    }
    assert a.host == s[..m] && b.host == Address(b)[..n];
    assert a.uri == s[m + 1..] && b.uri == Address(b)[n + 1..];
  }

  /** The other way to read an ambiguous address. */
  lemma {:induction false} AmbiguousAddress(a: Request) returns (b: Request)
    requires Served(a) && !Unambiguous(a)
    ensures Served(b) && b.verb == a.verb && RawKey(b) == RawKey(a)
    ensures b.host != a.host && b.uri != a.uri
  {
    if ':' in a.host {
      var p :| 0 <= p < |a.host| && a.host[p] == ':';
      b := Request(a.verb, a.host[..p], a.host[p + 1..] + ":" + a.uri);
      assert a.host == b.host + ":" + a.host[p + 1..];
    } else {
      var q :| 0 <= q < |a.uri| - 1 && a.uri[q] == ':' && '/' !in a.uri[..q];
      b := Request(a.verb, a.host + ":" + a.uri[..q], a.uri[q + 1..]);
      assert a.uri == a.uri[..q] + ":" + b.uri;
    }
    assert Address(b) == Address(a);
    SameKeySameAddress(a, b);
  }

  /** Exactly when a key is a request's own: every served request with the same key has its host
      and URI, if and only if its address is unambiguous. */
  lemma {:induction false} KeyIsOwnIff(a: Request)
    requires Served(a)
    ensures (forall b :: Served(b) && RawKey(b) == RawKey(a) ==> b.host == a.host && b.uri == a.uri)
       <==> Unambiguous(a)
  {
    if Unambiguous(a) {
      forall b | Served(b) && RawKey(b) == RawKey(a) ensures b.host == a.host && b.uri == a.uri {
        SameKeySameAddress(a, b);
        UnambiguousAddress(a, b);
      }
    } else {
      var b := AmbiguousAddress(a);
    }
  }

  /** For a URI in the usual form the condition is that the host names no port. */
  lemma {:induction false} UsualFormIsOwnIff(a: Request)
    requires WellFormed(a)
    ensures (forall b :: Served(b) && RawKey(b) == RawKey(a) ==> b.host == a.host && b.uri == a.uri)
       <==> ':' !in a.host
  {
    KeyIsOwnIff(a);
    forall q | 0 <= q < |a.uri| - 1 && a.uri[q] == ':' ensures '/' in a.uri[..q] {
      assert a.uri[..q][0] == '/';
    }
  }

  /** Two different served requests with one key. */
  lemma RawKeyCanCollide()
    ensures var a, b := Request("GET", "a", "b:/c"), Request("GET", "a:b", "/c");
            Served(a) && WellFormed(b) && a != b && RawKey(a) == RawKey(b)
  {
    assert "a" + ":" + "b:/c" == "a:b" + ":" + "/c";
    assert ToUpper("GET") + ":" + "a" + ":" + "b:/c" == ToUpper("GET") + ":" + ("a" + ":" + "b:/c");
    assert ToUpper("GET") + ":" + "a:b" + ":" + "/c" == ToUpper("GET") + ":" + ("a:b" + ":" + "/c");
  }

  // ---------- entries ----------

  datatype Entry = Entry(response: Response, expiresAt: int)

  type Store = map<string, Entry>

  predicate Expired(e: Entry, now: int) {
    now > e.expiresAt
  }

  predicate Cacheable(r: Response) {
    r.code == STATUS_OK && |r.body| <= MAX_CACHE_BODY_SIZE
  }

  /** A response as sent, with the cache-status header set. */
  function Marked(r: Response, tag: string): Response {
    r.(header := r.header[STATUS_HEADER := [tag]])
  }

  /** Equal status, body and headers, leaving out the cache-status header. */
  predicate SameContent(a: Response, b: Response) {
    a.code == b.code && a.body == b.body && a.header - {STATUS_HEADER} == b.header - {STATUS_HEADER}
  }

  lemma MarkedIsSame(r: Response, tag: string)
    ensures SameContent(Marked(r, tag), r)
  {
    assert r.header[STATUS_HEADER := [tag]] - {STATUS_HEADER} == r.header - {STATUS_HEADER};
  }

  lemma {:induction false} MarkedTells(r: Response, tag: string)
    ensures STATUS_HEADER in Marked(r, tag).header && Marked(r, tag).header[STATUS_HEADER] == [tag]
  {}

  predicate Hits(store: Store, r: Request, now: int) {
    r.verb == "GET" && RawKey(r) in store && !Expired(store[RawKey(r)], now)
  }

  predicate Stores(store: Store, r: Request, lookup: int, upstream: Response) {
    r.verb == "GET" && !Hits(store, r, lookup) && Cacheable(upstream)
  }

  /** The store after one request: looked up at `lookup`, answered by `upstream` if needed, and
      stored at `stored`. */
  function AfterRequest(ttl: int, store: Store, r: Request, lookup: int, upstream: Response, stored: int): Store {
    if r.verb != "GET" || Hits(store, r, lookup) then store
    else if Cacheable(upstream) then store[RawKey(r) := Entry(upstream, stored + ttl)]
    else store - {RawKey(r)}
  }

  function Reply(store: Store, r: Request, lookup: int, upstream: Response): Response {
    if r.verb != "GET" then upstream
    else if Hits(store, r, lookup) then Marked(store[RawKey(r)].response, "HIT")
    else Marked(upstream, "MISS")
  }

  /** `clock(k)` is the time read when cleanup gets to key k. */
  function AfterCleanup(store: Store, clock: string -> int): Store {
    map k | k in store && !Expired(store[k], clock(k)) :: store[k]
  }

  class CachingPlugin {
    const ttl: int
    var cacheStore: Store

    constructor (ttl: int)
      ensures this.ttl == ttl && cacheStore == map[]
    {
      this.ttl := ttl;
      cacheStore := map[];
    }

    /** The clock is read for the first expiry test, for the second, and when storing. */
    method Handle(r: Request, upstream: Response, first: int, second: int, stored: int) returns (w: Response)
      requires first <= second <= stored
      modifies this
      ensures w == Reply(old(cacheStore), r, first, upstream)
      ensures cacheStore == AfterRequest(ttl, old(cacheStore), r, first, upstream, stored)
    {
      if r.verb != "GET" { return upstream; }
      var key := RawKey(r);
      if key in cacheStore && !Expired(cacheStore[key], first) {
        return Marked(cacheStore[key].response, "HIT");
      }
      if key in cacheStore && Expired(cacheStore[key], second) {
        cacheStore := cacheStore - {key};
      }
      w := Marked(upstream, "MISS");
      if upstream.code == STATUS_OK {
        if |upstream.body| > MAX_CACHE_BODY_SIZE { return; }
        cacheStore := cacheStore[key := Entry(upstream, stored + ttl)];
      }
    }

    method CleanupExpiredEntries(clock: string -> int)
      modifies this
      ensures cacheStore == AfterCleanup(old(cacheStore), clock)
    {
      var todo := cacheStore.Keys;
      while todo != {}
        invariant todo <= old(cacheStore).Keys
        invariant cacheStore.Keys ==
                  set k | k in old(cacheStore) && (k in todo || !Expired(old(cacheStore)[k], clock(k)))
        invariant forall k :: k in cacheStore ==> cacheStore[k] == old(cacheStore)[k]
      {
        var key :| key in todo;
        if Expired(cacheStore[key], clock(key)) { cacheStore := cacheStore - {key}; }
        todo := todo - {key};
      }
    }
  }

  // ---------- sequential runs ----------

  datatype Event =
    | Serve(request: Request, lookup: int, upstream: Response, stored: int)
    | Clean(from: int, to: int, clock: string -> int)
  {
    function First(): int { if Serve? then lookup else from }
    function Last(): int { if Serve? then stored else to }

    /** The clock does not run backwards during the event. */
    ghost predicate Timed() {
      First() <= Last() && (Clean? ==> forall k :: from <= clock(k) <= to)
    }
  }

  /** Events do not overlap and the clock does not run backwards. */
  ghost predicate Sequential(es: seq<Event>) {
    && (forall i :: 0 <= i < |es| ==> es[i].Timed())
    && (forall i, j :: 0 <= i < j < |es| ==> es[i].Last() <= es[j].First())
  }

  function StoreAfter(ttl: int, es: seq<Event>): Store {
    if es == [] then map[]
    else
      var store := StoreAfter(ttl, es[..|es| - 1]);
      match es[|es| - 1]
      case Serve(r, t, u, s) => AfterRequest(ttl, store, r, t, u, s)
      case Clean(_, _, clock) => AfterCleanup(store, clock)
  }

  /** When a response was stored under `key`. */
  function StoreTimes(ttl: int, es: seq<Event>, key: string): seq<int> {
    if es == [] then []
    else
      var e := es[|es| - 1];
      var front := StoreTimes(ttl, es[..|es| - 1], key);
      if e.Serve? && RawKey(e.request) == key
         && Stores(StoreAfter(ttl, es[..|es| - 1]), e.request, e.lookup, e.upstream)
      then front + [e.stored] else front
  }

  ghost predicate Spaced(h: seq<int>, gap: int) {
    forall i :: 0 <= i < |h| - 1 ==> h[i + 1] - h[i] > gap
  }

  /** Stores at times `h`, spaced out; the newest is in the store unless its lifetime ended. */
  ghost predicate NewestIsLive(ttl: int, store: Store, key: string, h: seq<int>, now: int) {
    && Spaced(h, ttl)
    && if h == [] then key !in store
       else
         var expiry := h[|h| - 1] + ttl;
         h[|h| - 1] <= now && if key in store then store[key].expiresAt == expiry else expiry < now
  }

  lemma {:induction false} ServeKeepsNewest(ttl: int, store: Store, key: string, h: seq<int>, now: int, e: Event)
    requires NewestIsLive(ttl, store, key, h, now) && e.Serve? && now <= e.lookup <= e.stored && ttl > 0
    ensures NewestIsLive(ttl, AfterRequest(ttl, store, e.request, e.lookup, e.upstream, e.stored), key,
              if RawKey(e.request) == key && Stores(store, e.request, e.lookup, e.upstream) then h + [e.stored] else h,
              e.stored)
  {}

  lemma {:induction false} StoresAreSpaced(ttl: int, es: seq<Event>, key: string)
    requires ttl > 0 && Sequential(es)
    ensures var now := if es == [] then 0 else es[|es| - 1].Last();
            NewestIsLive(ttl, StoreAfter(ttl, es), key, StoreTimes(ttl, es, key), now)
  {
    if es != [] {
      var n := |es| - 1;
      var e, front := es[n], es[..n];
      assert Sequential(front) by {
        assert forall i :: 0 <= i < n ==> front[i] == es[i];
      }
      StoresAreSpaced(ttl, front, key);
      var h, store := StoreTimes(ttl, front, key), StoreAfter(ttl, front);
      var now := if front == [] then e.First() else es[n - 1].Last();
      assert e.Timed() && now <= e.First() <= e.Last();
      assert NewestIsLive(ttl, store, key, h, now);
      if e.Serve? { ServeKeepsNewest(ttl, store, key, h, now, e); }
    }
  }

  lemma {:induction false} SpacedCount(h: seq<int>, lo: int, span: nat, gap: nat)
    requires Spaced(h, gap)
    ensures var c := CountFrom(h, lo, span);
            && (c >= 1 ==> (c - 1) * gap <= span)
            && (h != [] && h[|h| - 1] < lo ==> c == 0)
            && (h != [] && h[|h| - 1] <= lo + span && c >= 1 ==> (c - 1) * gap <= h[|h| - 1] - lo)
  {
    if h != [] {
      var n := |h| - 1;
      var front := h[..n];
      SpacedCount(front, lo, span, gap);
      if n > 0 {
        assert h[n - 1 + 1] - h[n - 1] > gap;
        var c := CountFrom(front, lo, span);
        if c >= 1 { assert c * gap == (c - 1) * gap + gap; }
      }
    }
  }

  lemma {:induction false} QuotientBound(c: nat, gap: nat, span: nat)
    requires gap > 0 && c * gap <= span
    ensures c <= span / gap
  {
    var q := span / gap;
    if c > q { MulMonotone(q + 1, c, gap); }
  }

  lemma {:induction false} MulMonotone(a: nat, b: nat, n: nat)
    requires a <= b
    ensures a * n <= b * n
  {
    assert b * n == a * n + (b - a) * n;
  }

  /** Stores for one key are more than `ttl` apart, so a closed span of length T holds at most
      floor(T / ttl) + 1 of them. */
  lemma {:induction false} FetchBound(ttl: int, es: seq<Event>, key: string, lo: int, span: nat)
    requires ttl > 0 && Sequential(es)
    ensures Spaced(StoreTimes(ttl, es, key), ttl)
    ensures CountFrom(StoreTimes(ttl, es, key), lo, span) <= span / ttl + 1
  {
    StoresAreSpaced(ttl, es, key);
    SpacedBound(StoreTimes(ttl, es, key), lo, span, ttl);
  }

  lemma {:induction false} SpacedBound(h: seq<int>, lo: int, span: nat, gap: nat)
    requires gap > 0 && Spaced(h, gap)
    ensures CountFrom(h, lo, span) <= span / gap + 1
  {
    SpacedCount(h, lo, span, gap);
    var c := CountFrom(h, lo, span);
    if c >= 1 { QuotientBound(c - 1, gap, span); }
  }

  // ---------- what the reply says ----------

  /** The newest stored response for the key is still alive. */
  ghost predicate AliveInRun(ttl: int, es: seq<Event>, key: string, now: int) {
    var h := StoreTimes(ttl, es, key);
    h != [] && now <= h[|h| - 1] + ttl
  }

  /** The cache-status header tells the truth: in every sequential run the reply to a GET says HIT
      if the newest stored response for its key is alive, and MISS otherwise; any other request
      gets the upstream's answer as it is. */
  lemma {:induction false} StatusTellsTheTruth(ttl: int, es: seq<Event>, r: Request, lookup: int, u: Response)
    requires ttl > 0 && Sequential(es) && (es == [] || es[|es| - 1].Last() <= lookup)
    ensures var reply := Reply(StoreAfter(ttl, es), r, lookup, u);
            if r.verb != "GET" then reply == u
            else
              && "X-Corridor-Cache-Status" in reply.header
              && reply.header["X-Corridor-Cache-Status"] ==
                   [if AliveInRun(ttl, es, RawKey(r), lookup) then "HIT" else "MISS"]
  {
    StoresAreSpaced(ttl, es, RawKey(r));
    var store := StoreAfter(ttl, es);
    if Hits(store, r, lookup) {
      MarkedTells(store[RawKey(r)].response, "HIT");
    } else {
      MarkedTells(u, "MISS");
    }
  }

  // ---------- transparency ----------

  /** Every upstream answer in the run is `up` of its key. */
  ghost predicate AnswersBy(es: seq<Event>, up: string -> Response) {
    forall i :: 0 <= i < |es| && es[i].Serve? ==> es[i].upstream == up(RawKey(es[i].request))
  }

  lemma {:induction false} EntriesAreUpstream(ttl: int, es: seq<Event>, up: string -> Response)
    requires AnswersBy(es, up)
    ensures forall k :: k in StoreAfter(ttl, es) ==> StoreAfter(ttl, es)[k].response == up(k)
  {
    if es != [] {
      assert forall i :: 0 <= i < |es| - 1 ==> es[..|es| - 1][i] == es[i];
      EntriesAreUpstream(ttl, es[..|es| - 1], up);
      assert es[|es| - 1].Serve? ==> es[|es| - 1].upstream == up(RawKey(es[|es| - 1].request));
    }
  }

  /** With an upstream that is a function of the key, the next reply has the content the
      uncached upstream would have sent, whatever was stored, expired or cleaned up before. */
  lemma {:induction false} CacheIsTransparent(ttl: int, es: seq<Event>, up: string -> Response, r: Request, lookup: int)
    requires AnswersBy(es, up)
    ensures SameContent(Reply(StoreAfter(ttl, es), r, lookup, up(RawKey(r))), up(RawKey(r)))
  {
    EntriesAreUpstream(ttl, es, up);
    MarkedIsSame(up(RawKey(r)), "HIT");
    MarkedIsSame(up(RawKey(r)), "MISS");
  }

  // ---------- a stored response is served ----------

  lemma {:induction false} SequentialPrefix(a: seq<Event>, b: seq<Event>)
    requires Sequential(a + b)
    ensures Sequential(a)
    ensures forall i, j :: 0 <= i < |a| && 0 <= j < |b| ==> a[i].Last() <= b[j].First()
  {
    assert forall i :: 0 <= i < |a| ==> a[i] == (a + b)[i];
    assert forall j :: 0 <= j < |b| ==> b[j] == (a + b)[|a| + j];
  }

  /** An entry stays in the store, unchanged, as long as the run stays within its lifetime. */
  lemma {:induction false} EntryPersists(ttl: int, es: seq<Event>, more: seq<Event>, key: string)
    requires key in StoreAfter(ttl, es)
    requires forall j :: 0 <= j < |more| ==> more[j].Timed() && !Expired(StoreAfter(ttl, es)[key], more[j].Last())
    ensures key in StoreAfter(ttl, es + more)
    ensures StoreAfter(ttl, es + more)[key] == StoreAfter(ttl, es)[key]
  {
    if more == [] {
      assert es + more == es;
    } else {
      var n := |more| - 1;
      EntryPersists(ttl, es, more[..n], key);
      assert (es + more)[..|es + more| - 1] == es + more[..n];
      assert more[n].Timed();
    }
  }

  /** After a miss whose answer is a 200 of at most 1 MiB, every GET with the same key that is
      looked up within the lifetime is answered from the cache, with that answer. */
  lemma {:induction false} RepeatIsServedFromCache(ttl: int, es: seq<Event>, e: Event, more: seq<Event>,
      r: Request, lookup: int, u: Response)
    requires ttl > 0 && Sequential(es + [e] + more)
    requires e.Serve? && e.request.verb == "GET" && !Hits(StoreAfter(ttl, es), e.request, e.lookup)
    requires e.upstream.code == 200 && |e.upstream.body| <= 1_048_576
    requires r.verb == "GET" && RawKey(r) == RawKey(e.request)
    requires forall j :: 0 <= j < |more| ==> more[j].Last() <= lookup
    requires lookup <= e.stored + ttl
    ensures Hits(StoreAfter(ttl, es + [e] + more), r, lookup)
    ensures Reply(StoreAfter(ttl, es + [e] + more), r, lookup, u) == Marked(e.upstream, "HIT")
  {
    assert (es + [e])[..|es|] == es;
    assert StoreAfter(ttl, es + [e])[RawKey(r)] == Entry(e.upstream, e.stored + ttl);
    assert forall j :: 0 <= j < |more| ==> more[j] == (es + [e] + more)[|es| + 1 + j];
    EntryPersists(ttl, es + [e], more, RawKey(r));
  }

  // ---------- cleanup ----------

  /** Cleanup leaves a key in the store exactly when its newest stored response is still alive at
      the time cleanup gets to it. */
  lemma {:induction false} CleanupKeepsExactlyTheLive(ttl: int, es: seq<Event>, clean: Event, key: string)
    requires ttl > 0 && clean.Clean? && Sequential(es + [clean])
    ensures var h := StoreTimes(ttl, es, key);
            key in StoreAfter(ttl, es + [clean]) <==> (h != [] && clean.clock(key) <= h[|h| - 1] + ttl)
  {
    assert (es + [clean])[..|es|] == es && (es + [clean])[|es|] == clean;
    SequentialPrefix(es, [clean]);
    assert clean.Timed() && [clean][0] == clean;
    StoresAreSpaced(ttl, es, key);
  }

  function WithoutCleanup(es: seq<Event>): seq<Event> {
    if es == [] then []
    else
      var front := WithoutCleanup(es[..|es| - 1]);
      if es[|es| - 1].Clean? then front else front + [es[|es| - 1]]
  }

  /** The two stores have the same entries alive at `now`. */
  ghost predicate SameLive(a: Store, b: Store, now: int) {
    forall k :: (k in a && !Expired(a[k], now)) || (k in b && !Expired(b[k], now)) ==>
      k in a && k in b && a[k] == b[k]
  }

  lemma {:induction false} ServeKeepsSameLive(ttl: int, a: Store, b: Store, e: Event)
    requires e.Serve? && e.lookup <= e.stored && SameLive(a, b, e.lookup)
    ensures SameLive(AfterRequest(ttl, a, e.request, e.lookup, e.upstream, e.stored),
                     AfterRequest(ttl, b, e.request, e.lookup, e.upstream, e.stored), e.stored)
  {}

  lemma {:induction false} CleanKeepsSameLive(a: Store, b: Store, e: Event)
    requires e.Clean? && e.Timed() && SameLive(a, b, e.from)
    ensures SameLive(AfterCleanup(a, e.clock), b, e.to)
  {
    forall k | (k in AfterCleanup(a, e.clock) && !Expired(a[k], e.to)) || (k in b && !Expired(b[k], e.to))
      ensures k in AfterCleanup(a, e.clock) && k in b && a[k] == b[k]
    {
      assert e.from <= e.clock(k) <= e.to;
    }
  }

  /** One event, left out of the second run if it is a cleanup. */
  lemma {:induction false} EventKeepsSameLive(ttl: int, front: seq<Event>, kept: seq<Event>, e: Event)
    requires e.Timed() && SameLive(StoreAfter(ttl, front), StoreAfter(ttl, kept), e.First())
    ensures SameLive(StoreAfter(ttl, front + [e]), StoreAfter(ttl, if e.Clean? then kept else kept + [e]), e.Last())
  {
    assert (front + [e])[..|front|] == front && (kept + [e])[..|kept|] == kept;
    if e.Serve? {
      ServeKeepsSameLive(ttl, StoreAfter(ttl, front), StoreAfter(ttl, kept), e);
    } else {
      CleanKeepsSameLive(StoreAfter(ttl, front), StoreAfter(ttl, kept), e);
    }
  }

  lemma {:induction false} CleanupKeepsLive(ttl: int, es: seq<Event>, now: int)
    requires Sequential(es) && (es == [] || es[|es| - 1].Last() <= now)
    ensures SameLive(StoreAfter(ttl, es), StoreAfter(ttl, WithoutCleanup(es)), now)
    decreases |es|
  {
    if es != [] {
      var n := |es| - 1;
      var e, front := es[n], es[..n];
      assert es == front + [e];
      SequentialPrefix(front, [e]);
      assert [e][0] == e && (n > 0 ==> front[n - 1].Last() <= e.First());
      CleanupKeepsLive(ttl, front, e.First());
      EventKeepsSameLive(ttl, front, WithoutCleanup(front), e);
    }
  }

  /** Cleanup is invisible: leaving it out of a run changes no later reply. */
  lemma {:induction false} CleanupIsInvisible(ttl: int, es: seq<Event>, r: Request, lookup: int, upstream: Response)
    requires Sequential(es) && (es == [] || es[|es| - 1].Last() <= lookup)
    ensures Reply(StoreAfter(ttl, es), r, lookup, upstream)
         == Reply(StoreAfter(ttl, WithoutCleanup(es)), r, lookup, upstream)
  {
    CleanupKeepsLive(ttl, es, lookup);
  }
}
